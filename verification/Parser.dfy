/** The scanner of cson.h as it runs: a cursor over a buffer, and tokens on the heap. */
module Parser {
  import opened Json
  import opened Options
  import Buffers
  import Scanner

  class Node {
    var kind: Kind
    var text: Option<string>
    var child: Node?
    var next: Node?

    constructor ()
      ensures kind == NULL_VALUE && text == None && child == null && next == null
    {
      kind, text, child, next := NULL_VALUE, None, null, null;
    }
  }

  /** The tokens that have been allocated and not freed. */
  class Memory {
    var live: set<Node>

    method Alloc() returns (n: Node)
      modifies this`live
      ensures fresh(n) && n !in old(live) && live == old(live) + {n}
      ensures n.kind == NULL_VALUE && n.text == None && n.child == null && n.next == null
    {
      n := new Node();
      live := live + {n};
    }

    method Free(n: Node)
      requires n in live
      modifies this`live
      ensures live == old(live) - {n}
    {
      live := live - {n};
    }
  }

  // ---- what hangs together on the heap ----

  /** A node of a chain, with the chain below it. */
  datatype Cell = Cell(node: Node, below: seq<Cell>)

  ghost function Foot(cells: seq<Cell>): set<Node>
  {
    if cells == [] then {} else {cells[0].node} + Foot(cells[0].below) + Foot(cells[1..])
  }

  ghost function First(cells: seq<Cell>, last: Node?): Node?
  {
    if cells == [] then last else cells[0].node
  }

  /** The cells are linked in this order by `next` pointers, ending in `last`, and so are the
      chains below them by `child` pointers. */
  ghost predicate Linked(cells: seq<Cell>, last: Node?)
    reads Foot(cells)`child, Foot(cells)`next
  {
    cells != [] ==>
      && cells[0].node.child == First(cells[0].below, null) && Linked(cells[0].below, null)
      && cells[0].node.next == First(cells[1..], last) && Linked(cells[1..], last)
  }

  /** No node occurs twice. */
  ghost predicate Apart(cells: seq<Cell>)
  {
    cells != [] ==>
      && cells[0].node !in Foot(cells[0].below) && cells[0].node !in Foot(cells[1..])
      && Foot(cells[0].below) !! Foot(cells[1..])
      && Apart(cells[0].below) && Apart(cells[1..])
  }

  ghost function Tokens(cells: seq<Cell>): seq<Token>
    reads Foot(cells)`kind, Foot(cells)`text
  {
    if cells == [] then []
    else [Token(cells[0].node.kind, cells[0].node.text, Tokens(cells[0].below))] + Tokens(cells[1..])
  }

  lemma {:induction false} FootAppend(a: seq<Cell>, b: seq<Cell>)
    ensures Foot(a + b) == Foot(a) + Foot(b)
  {
    if a == [] {
      assert a + b == b;
    } else {
      FootAppend(a[1..], b);
      assert (a + b)[1..] == a[1..] + b;
    }
  }

  lemma {:induction false} TokensAppend(a: seq<Cell>, b: seq<Cell>)
    ensures Tokens(a + b) == Tokens(a) + Tokens(b)
  {
    if a == [] {
      assert a + b == b;
    } else {
      TokensAppend(a[1..], b);
      assert (a + b)[1..] == a[1..] + b;
    }
  }

  lemma {:induction false} LinkedAppend(a: seq<Cell>, b: seq<Cell>, last: Node?)
    requires Linked(a, First(b, last)) && Linked(b, last)
    ensures Linked(a + b, last)
  {
    if a == [] {
      assert a + b == b;
    } else {
      LinkedAppend(a[1..], b, last);
      assert (a + b)[1..] == a[1..] + b;
    }
  }

  lemma {:induction false} FootCons(cells: seq<Cell>)
    requires cells != []
    ensures Foot(cells) == {cells[0].node} + Foot(cells[0].below) + Foot(cells[1..])
  {}

  lemma {:induction false} ApartCons(cells: seq<Cell>)
    requires cells != []
    ensures Apart(cells) <==>
      && cells[0].node !in Foot(cells[0].below) && cells[0].node !in Foot(cells[1..])
      && Foot(cells[0].below) !! Foot(cells[1..]) && Apart(cells[0].below) && Apart(cells[1..])
  {
    hide Foot;
  }

  lemma {:induction false} ApartAppend(a: seq<Cell>, b: seq<Cell>)
    requires Apart(a) && Apart(b) && Foot(a) !! Foot(b)
    ensures Apart(a + b)
  {
    hide Foot, Apart;
    if a == [] {
      assert a + b == b;
    } else {
      FootCons(a);
      ApartCons(a);
      ApartAppend(a[1..], b);
      FootAppend(a[1..], b);
      assert (a + b)[1..] == a[1..] + b;
      ApartCons(a + b);
    }
  }

  /** An array under construction: `front` are the elements before the last one, `rest` is the
      last element with the chain it came with, and `tail` is where the next one is linked. */
  ghost predicate Elements(root: Node, tail: Node, front: seq<Cell>, rest: seq<Cell>)
    reads root`text, root`child, root`next
    reads Foot(front)`child, Foot(front)`next, Foot(rest)`child, Foot(rest)`next
  {
    && root !in Foot(front) && root !in Foot(rest)
    && Apart(front) && Apart(rest) && Foot(front) !! Foot(rest)
    && root.text == None && root.next == null && root.child == First(front + rest, null)
    && (rest == [] ==> front == [] && tail == root)
    && (rest != [] ==> tail == rest[0].node && Linked(front, tail) && Linked(rest, null))
  }

  /** The elements read so far and the chain that the last one came with, as tokens. */
  ghost predicate Reads(front: seq<Cell>, rest: seq<Cell>, heads: seq<Token>, chain: seq<Token>)
    reads Foot(front)`kind, Foot(front)`text, Foot(rest)`kind, Foot(rest)`text
  {
    if rest == [] then front == [] && heads == [] && chain == []
    else heads == Tokens(front) + Tokens(rest)[..1] && chain == Tokens(rest)[1..]
  }

  /** An object under construction: its keys are chained on its own `next`, `last` being the
      latest one, if any, and `prev` where the next one is linked. */
  ghost predicate Keyed(root: Node, prev: Node, front: seq<Cell>, last: seq<Cell>)
    reads root`text, root`child, root`next
    reads Foot(front)`child, Foot(front)`next, Foot(last)`child, Foot(last)`next
  {
    && root !in Foot(front) && root !in Foot(last)
    && Apart(front) && Apart(last) && Foot(front) !! Foot(last)
    && root.text == None && root.child == null && root.next == First(front + last, null)
    && |last| <= 1
    && (last == [] ==> front == [] && prev == root)
    && (last != [] ==> prev == last[0].node && Linked(front, prev) && Linked(last, null))
  }

  ghost predicate KeysRead(front: seq<Cell>, last: seq<Cell>, keys: seq<Token>)
    reads Foot(front)`kind, Foot(front)`text, Foot(last)`kind, Foot(last)`text
  {
    Tokens(front) + Tokens(last) == keys
  }

  /** The tokens of a completed scan. */
  ghost predicate Mirrors(res: Node, cells: seq<Cell>, link: Link)
    reads Foot(cells)`kind, Foot(cells)`text, Foot(cells)`child, Foot(cells)`next
  {
    cells != [] && cells[0].node == res && Linked(cells, null) && Apart(cells) && Tokens(cells) == link.Chain()
  }

  lemma {:induction false} ReadsElement(next: Node, front: seq<Cell>, rest: seq<Cell>, heads: seq<Token>,
      chain: seq<Token>,
                                        cells: seq<Cell>, link: Link)
    requires Reads(front, rest, heads, chain) && Mirrors(next, cells, link)
    ensures Reads(front + Head(rest), cells, heads + [link.head], link.next)
  {
    TokensAppend(front, Head(rest));
  }

  lemma {:induction false} ElementsHold(root: Node, tail: Node, front: seq<Cell>, rest: seq<Cell>, heads: seq<Token>,
      chain: seq<Token>)
    requires Elements(root, tail, front, rest) && Reads(front, rest, heads, chain) && root.kind == ARRAY
    ensures Foot([Cell(root, front + rest)]) == {root} + Foot(front) + Foot(rest)
    ensures Mirrors(root, [Cell(root, front + rest)], Link(Token(ARRAY, None, heads + chain), []))
  {
    var kids := front + rest;
    FootAppend(front, rest);
    TokensAppend(front, rest);
    ApartAppend(front, rest);
    if rest != [] {
      LinkedAppend(front, rest, null);
      assert Tokens(rest)[..1] + Tokens(rest)[1..] == Tokens(rest);
    }
    assert Tokens(kids) == heads + chain;
    Alone(root, kids);
  }

  lemma {:induction false} Start(root: Node)
    ensures Foot([]) == {} && Tokens([]) == [] && Apart([]) && Reads([], [], [], []) && KeysRead([], [], [])
    ensures forall last: Node? :: Linked([], last)
    ensures root.text == None && root.child == null && root.next == null ==>
      Elements(root, root, [], []) && Keyed(root, root, [], [])
  {
  }

  lemma {:induction false} RootApart(root: Node, tail: Node, front: seq<Cell>, rest: seq<Cell>)
    requires Elements(root, tail, front, rest)
    ensures root !in Foot(front) && root !in Foot(rest)
  {
  }

  lemma {:induction false} KeysApart(root: Node, prev: Node, front: seq<Cell>, last: seq<Cell>)
    requires Keyed(root, prev, front, last)
    ensures root !in Foot(front) && root !in Foot(last)
  {
  }

  ghost function Leaf(res: Node): (cells: seq<Cell>)
    ensures Foot(cells) == {res}
  {
    [Cell(res, [])]
  }

  lemma {:induction false} LeafMirrors(res: Node)
    requires res.child == null && res.next == null
    ensures Mirrors(res, Leaf(res), Link(Token(res.kind, res.text, []), []))
  {
    Alone(res, []);
  }

  /** A node with nothing after it. */
  lemma {:induction false} Alone(root: Node, kids: seq<Cell>)
    ensures Foot([Cell(root, kids)]) == {root} + Foot(kids)
    ensures Tokens([Cell(root, kids)]) == [Token(root.kind, root.text, Tokens(kids))]
    ensures root !in Foot(kids) && Apart(kids) ==> Apart([Cell(root, kids)])
    ensures forall last: Node? :: root.child == First(kids, null) && Linked(kids, null) && root.next == last ==>
      Linked([Cell(root, kids)], last)
  {
  }

  lemma {:induction false} KeysHold(root: Node, prev: Node, front: seq<Cell>, last: seq<Cell>, keys: seq<Token>)
    requires Keyed(root, prev, front, last) && KeysRead(front, last, keys) && root.kind == OBJECT
    ensures Foot([Cell(root, [])] + (front + last)) == {root} + Foot(front) + Foot(last)
    ensures Mirrors(root, [Cell(root, [])] + (front + last), Link(Token(OBJECT, None, []), keys))
  {
    var kids := front + last;
    FootAppend(front, last);
    TokensAppend(front, last);
    ApartAppend(front, last);
    if last != [] {
      LinkedAppend(front, last, null);
    }
    Alone(root, []);
    FootAppend([Cell(root, [])], kids);
    TokensAppend([Cell(root, [])], kids);
    ApartAppend([Cell(root, [])], kids);
    LinkedAppend([Cell(root, [])], kids, null);
  }

  ghost function Head(cells: seq<Cell>): seq<Cell>
  {
    if cells == [] then [] else cells[..1]
  }

  /** Links a new element into an array: the branch on `root->child` in `scan_array`. */
  method LinkElement(root: Node, tail: Node, next: Node,
                     ghost front: seq<Cell>, ghost rest: seq<Cell>, ghost cells: seq<Cell>, ghost link: Link)
    requires Elements(root, tail, front, rest) && Mirrors(next, cells, link)
    requires Foot(cells) !! {root} + Foot(front) + Foot(rest)
    modifies root`child, tail`next
    ensures Elements(root, next, front + Head(rest), cells)
    ensures Foot(front + Head(rest)) <= Foot(front) + Foot(rest)
  {
    if root.child == null {
      root.child := next;
    } else {
      tail.next := next;
    }
    if rest != [] {
      LinkedAppend(front, Head(rest), next);
      ApartAppend(front, Head(rest));
      FootAppend(front, Head(rest));
    }
  }

  /** Changing `next` of the latest key only moves the end of the chain. */
  lemma {:induction false} LastKey(root: Node, prev: Node, front: seq<Cell>, last: seq<Cell>)
    requires Keyed(root, prev, front, last) && last != []
    ensures var below := last[0].below;
      && last == [Cell(prev, below)] && Foot(last) == {prev} + Foot(below)
      && prev !in Foot(below) && prev !in Foot(front) && root != prev
      && prev.child == First(below, null) && Linked(below, null)
  {
    Alone(prev, last[0].below);
  }

  /** Links a new key with its value into an object. */
  method LinkKey(root: Node, prev: Node, next: Node, child: Node,
                 ghost front: seq<Cell>, ghost last: seq<Cell>, ghost keys: seq<Token>,
                 ghost cells: seq<Cell>, ghost link: Link)
    requires Keyed(root, prev, front, last) && KeysRead(front, last, keys) && Mirrors(child, cells, link)
    requires next.child == null && next.next == null
    requires next !in Foot(cells) && Foot(cells) + {next} !! {root} + Foot(front) + Foot(last)
    modifies prev`next, next`child
    ensures Keyed(root, next, front + last, [Cell(next, cells)])
    ensures Foot(front + last) == Foot(front) + Foot(last) && Foot([Cell(next, cells)]) == {next} + Foot(cells)
    ensures KeysRead(front + last, [Cell(next, cells)], keys + [Token(next.kind, next.text, link.Chain())])
  {
    hide Foot, Linked, Apart, Tokens, Link.Chain;
    TokensAppend(front, last);
    if last != [] {
      LastKey(root, prev, front, last);
    }
    Start(next);
    prev.next := next;
    next.child := child;
    if last != [] {
      Alone(prev, last[0].below);
    }
    LinkedAppend(front, last, next);
    ApartAppend(front, last);
    FootAppend(front, last);
    Alone(next, cells);
  }

  // ---- the scanner ----

  class Cson {
    const b: string
    const memory: Memory
    var cur: nat

    constructor (text: string, memory: Memory)
      ensures b == text && this.memory == memory && cur == 0
    {
      b, this.memory, cur := text, memory, 0;
    }

    ghost predicate Valid()
      reads this`cur
    {
      cur <= |b|
    }

    method Advance() returns (c: char)
      requires Valid()
      modifies this`cur
      ensures Valid() && cur == (if old(cur) == |b| then old(cur) else old(cur) + 1) && c == Buffers.Peek(b, cur)
    {
      if cur == |b| {
        return Buffers.NUL;
      }
      cur := cur + 1;
      c := if cur == |b| then Buffers.NUL else b[cur];
    }

    method Peek() returns (c: char)
      requires Valid()
      ensures c == Buffers.Peek(b, cur)
    {
      c := if cur == |b| then Buffers.NUL else b[cur];
    }

    method PeekNext() returns (c: char)
      requires Valid()
      ensures c == Buffers.Peek(b, cur + 1)
    {
      c := if cur + 1 >= |b| then Buffers.NUL else b[cur + 1];
    }

    method SkipWhitespace()
      requires Valid()
      modifies this`cur
      ensures Valid() && cur == Scanner.SkipSpace(b, old(cur))
    {
      while true
        invariant Valid() && Scanner.SkipSpace(b, cur) == Scanner.SkipSpace(b, old(cur))
        decreases |b| - cur
      {
        var c := Peek();
        if c != '\t' && c != '\n' && c != '\r' && c != ' ' {
          return;
        }
        var _ := Advance();
      }
    }

    method Scan() returns (c: char)
      requires Valid()
      modifies this`cur
      ensures Valid() && cur == Scanner.SkipSpace(b, old(cur)) && c == Buffers.Peek(b, cur)
    {
      SkipWhitespace();
      c := Peek();
    }

    method ScanNext() returns (c: char)
      requires Valid() && cur < |b|
      modifies this`cur
      ensures Valid() && cur == Scanner.SkipSpace(b, old(cur) + 1) && c == Buffers.Peek(b, cur)
    {
      var _ := Advance();
      c := Scan();
    }

    /** After an element or a member: an optional comma, with space around it. */
    method ScanComma() returns (c: char)
      requires Valid()
      modifies this`cur
      ensures Valid() && cur == Scanner.SkipComma(b, old(cur)) && c == Buffers.Peek(b, cur)
    {
      c := Scan();
      if c == ',' {
        c := ScanNext();
      }
    }

    /** The result of a scan that started at `from` and put a token without links in `res`. */
    ghost predicate Filled(res: Node, from: nat, ok: bool, r: Scanner.Scan)
      reads this`cur, res
    {
      && Valid() && from <= cur && (ok <==> r.Done?)
      && res.child == null && res.next == null
      && (ok ==> cur == r.end && r.link == Link(Token(res.kind, res.text, []), []))
    }

    /** The inner loop of `scan_number`: the cursor is on the first digit, and `len` counts
        the bytes read so far. */
    method ScanDigits(res: Node, start: nat, first: nat) returns (ok: bool)
      requires start <= cur < |b| && first == cur - start + 1
      requires res.child == null && res.next == null
      modifies this`cur, res`kind, res`text
      ensures Valid() && old(cur) <= cur
      ensures var e := Scanner.NumberTail(b, old(cur) + 1, false, false);
        (ok <==> e.Some?) && (ok ==> cur == e.value && res.kind == NUMBER && res.text == Some(b[start..cur]))
    {
      var fraction, exp, len := false, false, first;
      while true
        invariant old(cur) <= cur < |b| && len == cur - start + 1
        invariant Scanner.NumberTail(b, old(cur) + 1, false, false) == Scanner.NumberTail(b, cur + 1, fraction, exp)
        decreases |b| - cur
      {
        var next := Advance();
        if Scanner.IsDigit(next) {
          len := len + 1;
        } else if next == '.' {
          var after := PeekNext();
          if fraction || !Scanner.IsDigit(after) {
            return false;
          }
          fraction := true;
          len := len + 1;
        } else if next == 'e' || next == 'E' {
          if exp {
            return false;
          }
          var after := PeekNext();
          if after == '+' || after == '-' {
            var _ := Advance();
            len := len + 1;
            var third := PeekNext();
            if !Scanner.IsDigit(third) {
              return false;
            }
          } else if !Scanner.IsDigit(after) {
            return false;
          }
          exp := true;
          len := len + 1;
        } else {
          res.kind, res.text := NUMBER, Some(b[start..start + len]);
          return true;
        }
      }
    }

    method ScanNumber(res: Node) returns (ok: bool)
      requires Valid() && res.child == null && res.next == null
      modifies this`cur, res`kind, res`text
      ensures Filled(res, old(cur), ok, Scanner.ScanNumber(b, old(cur)))
    {
      var neg, start, len := false, cur, 1;
      while true
        invariant Valid() && cur == start + (if neg then 1 else 0) && len == cur - start + 1
        invariant neg ==> Buffers.Peek(b, start) == '-' && Scanner.IsDigit(Buffers.Peek(b, cur))
        decreases !neg
      {
        var c := Peek();
        if c == '-' {
          if neg {
            return false;
          }
          var next := PeekNext();
          if !Scanner.IsDigit(next) {
            return false;
          }
          neg := true;
          var _ := Advance();
          len := len + 1;
        } else if Scanner.IsDigit(c) {
          ok := ScanDigits(res, start, len);
          return;
        } else {
          return false;
        }
      }
    }

    method ScanString(res: Node) returns (ok: bool)
      requires Valid() && res.child == null && res.next == null
      modifies this`cur, res`kind, res`text
      ensures Filled(res, old(cur), ok, Scanner.ScanString(b, old(cur)))
    {
      var c := Peek();
      if c != '"' {
        return false;
      }
      var len, start := 0, cur + 1;
      while true
        invariant old(cur) <= cur < |b| && start + len == cur + 1
        invariant Scanner.CloseQuote(b, start) == Scanner.CloseQuote(b, cur + 1)
        decreases |b| - cur
      {
        var next := Advance();
        if next == Buffers.NUL {
          return false;
        }
        len := len + 1;
        if next == '"' {
          res.text := Some(b[start..start + len - 1]);
          res.kind := STRING;
          var _ := Advance();
          return true;
        } else if next == '\\' {
          var escaped := Advance();
          len := len + 1;
          if !Scanner.IsEscape(escaped) {
            return false;
          }
        }
      }
    }

    method ScanSpecial(res: Node, special: Kind) returns (ok: bool)
      requires Valid() && res.child == null && res.next == null
      requires special in {NULL_VALUE, TRUE, FALSE}
      modifies this`cur, res`kind, res`text
      ensures Filled(res, old(cur), ok, Scanner.ScanWord(b, old(cur), Scanner.Word(special), special))
    {
      var s := Scanner.Word(special);
      if cur + |s| > |b| {
        return false;
      }
      var temp := b[cur..cur + |s|];
      if temp == s {
        res.kind, res.text := special, Some(temp);
        cur := cur + |s|;
        return true;
      }
      return false;
    }

    /** The outcome of a scan that may have built a tree below `res`. */
    ghost predicate Scanned(res: Node, from: nat, ok: bool, cells: seq<Cell>, r: Scanner.Scan)
      reads this`cur, Foot(cells)`kind, Foot(cells)`text, Foot(cells)`child, Foot(cells)`next
    {
      && Valid() && from <= cur && (ok <==> r.Done?)
      && (ok ==> cur == r.end && Mirrors(res, cells, r.link))
    }

    /** A new token filled by `scan_token`; null, and the token freed, when it cannot be read. */
    method ScanNew() returns (child: Node?, ghost below: seq<Cell>)
      requires Valid()
      modifies this`cur, memory`live
      ensures Valid() && old(cur) <= cur && (child != null <==> Scanner.ScanToken(b, old(cur)).Done?)
      ensures child != null ==> var r := Scanner.ScanToken(b, old(cur));
        cur == r.end && Mirrors(child, below, r.link) && fresh(child)
      ensures (forall n :: n in Foot(below) ==> fresh(n)) && old(memory.live) + Foot(below) <= memory.live
      decreases |b| - cur, 3
    {
      hide Foot, Linked, Apart, Tokens, Link.Chain, Scanner.ScanToken;
      var node := memory.Alloc();
      var ok;
      ok, below := ScanToken(node);
      if !ok {
        memory.Free(node);
        Start(node);
        return null, [];
      }
      assert Foot(below) <= {node} + (Foot(below) - {node});
      child := node;
    }

    /** One turn of the loop of `scan_array`; null when the element cannot be read. */
    method ScanElement(root: Node, tail: Node, ghost inner: Scanner.Inner,
                       ghost front: seq<Cell>, ghost rest: seq<Cell>, ghost heads: seq<Token>, ghost chain: seq<Token>)
      returns (next: Node?, ghost cells: seq<Cell>, ghost link: Link)
      requires Valid() && Buffers.Peek(b, cur) != ']' && inner(cur) == Scanner.ScanToken(b, cur)
      requires Elements(root, tail, front, rest) && Reads(front, rest, heads, chain)
      requires Foot(front) + Foot(rest) <= memory.live
      modifies this`cur, memory`live, root`child, tail`next
      ensures Valid() && old(cur) <= cur
      ensures next == null ==> Scanner.ScanItems(b, old(cur), heads, chain, inner) == Scanner.Fail
      ensures next != null ==>
        && Elements(root, next, front + Head(rest), cells)
        && Reads(front + Head(rest), cells, heads + [link.head], link.next)
        && Foot(front + Head(rest)) <= Foot(front) + Foot(rest) && old(cur) < cur && fresh(next)
        && Scanner.ScanItems(b, old(cur), heads, chain, inner)
        == Scanner.ScanItems(b, cur, heads + [link.head], link.next, inner)
      ensures (forall n :: n in Foot(cells) ==> fresh(n)) && old(memory.live) + Foot(cells) <= memory.live
      decreases |b| - cur, 4
    {
      hide Foot, Head, First, Linked, Apart, Tokens, Link.Chain, Elements, Reads, Keyed, Mirrors, Leaf;
      hide Scanner.ScanItems, Scanner.ScanToken, Scanner.SkipSpace, Scanner.SkipComma;
      Scanner.ItemTurn(b, cur, heads, chain, inner);
      ghost var read := Scanner.ScanToken(b, cur);
      next, cells := ScanNew();
      link := Link(Token(NULL_VALUE, None, []), []);
      if next == null {
        return;
      }
      link := read.link;
      ReadsElement(next, front, rest, heads, chain, cells, link);
      assert allocated(Foot(cells)) && allocated(Foot(front + Head(rest)));
      LinkElement(root, tail, next, front, rest, cells, link);
      var _ := ScanComma();
    }

    method ScanArray(res: Node, ghost inner: Scanner.Inner) returns (ok: bool, ghost cells: seq<Cell>)
      requires Valid() && cur < |b| && b[cur] == '['
      requires res.child == null && res.next == null && res.text == None
      requires Scanner.Scans(b, cur, inner)
      modifies this`cur, memory`live, res
      ensures Scanned(res, old(cur), ok, cells, Scanner.ScanItems(b, Scanner.SkipSpace(b, old(cur) + 1), [], [], inner))
      ensures (forall n :: n in Foot(cells) && n != res ==> fresh(n))
      ensures old(memory.live) + (Foot(cells) - {res}) <= memory.live
      decreases |b| - cur, 1
    {
      hide Foot, Head, First, Elements, Reads, Keyed, KeysRead, Mirrors, Leaf, Linked, Apart, Tokens, Link.Chain;
      hide Scanner.ScanItems, Scanner.ScanToken, Scanner.SkipSpace, Scanner.SkipComma;
      var root: Node, tail: Node := res, res;
      ghost var front, rest, heads, chain := [], [], [], [];
      ghost var start := cur;
      cells := [];
      var c := ScanNext();
      ghost var whole := Scanner.ScanItems(b, cur, [], [], inner);
      Start(root);
      while c != ']'
        invariant Valid() && start < cur && c == Buffers.Peek(b, cur)
        invariant whole == Scanner.ScanItems(b, cur, heads, chain, inner)
        invariant Elements(root, tail, front, rest) && Reads(front, rest, heads, chain)
        invariant fresh(Foot(front)) && fresh(Foot(rest)) && (tail == root || fresh(tail))
        invariant old(memory.live) + Foot(front) + Foot(rest) <= memory.live
        decreases |b| - cur
      {
        var next;
        ghost var e, link;
        next, e, link := ScanElement(root, tail, inner, front, rest, heads, chain);
        if next == null {
          return false, [];
        }
        tail, front, rest, heads, chain := next, front + Head(rest), e, heads + [link.head], link.next;
        c := Peek();
      }
      RootApart(root, tail, front, rest);
      root.kind := ARRAY;
      Scanner.ItemsEnd(b, cur, heads, chain, inner);
      ElementsHold(root, tail, front, rest, heads, chain);
      var _ := Advance();
      return true, [Cell(root, front + rest)];
    }

    /** The key of a member and the colon after it. */
    method ScanKey(next: Node) returns (ok: bool)
      requires Valid() && next.child == null && next.next == null
      modifies this`cur, next`kind, next`text
      ensures Valid() && old(cur) <= cur && next.child == null && next.next == null
      ensures var k := Scanner.ScanKey(b, old(cur));
        && (ok <==> k.Some?)
        && (ok ==> cur == k.value.1 && next.kind == STRING && next.text == Some(k.value.0))
    {
      hide Scanner.SkipSpace;
      ok := ScanString(next);
      if !ok {
        return;
      }
      var c := Scan();
      if c != ':' {
        return false;
      }
      var _ := Advance();
    }

    /** One turn of the loop of `scan_object`; null when the member cannot be read. */
    method ScanMember(root: Node, prev: Node, ghost inner: Scanner.Inner,
                      ghost front: seq<Cell>, ghost last: seq<Cell>, ghost keys: seq<Token>)
      returns (next: Node?, ghost cells: seq<Cell>, ghost key: Token)
      requires Valid() && Buffers.Peek(b, cur) != '}'
      requires forall k: nat :: cur < k <= |b| ==> inner(k) == Scanner.ScanToken(b, k)
      requires Keyed(root, prev, front, last) && KeysRead(front, last, keys)
      requires Foot(front) + Foot(last) <= memory.live
      modifies this`cur, memory`live, prev`next
      ensures Valid() && old(cur) <= cur
      ensures next == null ==> Scanner.ScanMembers(b, old(cur), keys, inner) == Scanner.Fail
      ensures next != null ==>
        && Keyed(root, next, front + last, cells) && KeysRead(front + last, cells, keys + [key])
        && Foot(front + last) == Foot(front) + Foot(last) && old(cur) < cur && fresh(next)
        && Scanner.ScanMembers(b, old(cur), keys, inner) == Scanner.ScanMembers(b, cur, keys + [key], inner)
      ensures (forall n :: n in Foot(cells) ==> fresh(n)) && old(memory.live) + Foot(cells) <= memory.live
      decreases |b| - cur, 4
    {
      hide Foot, First, Head, Elements, Reads, Leaf, Linked, Apart, Tokens, Keyed, KeysRead, Mirrors, Link.Chain;
      hide Scanner.ScanMembers, Scanner.ScanToken, Scanner.ScanKey, Scanner.SkipSpace, Scanner.SkipComma;
      var node := memory.Alloc();
      Scanner.MemberTurn(b, cur, keys, inner);
      Start(node);
      cells, key := [], Token(NULL_VALUE, None, []);
      var ok := ScanKey(node);
      if !ok {
        memory.Free(node);
        return null, cells, key;
      }
      ghost var read := Scanner.ScanToken(b, cur);
      var child;
      ghost var below;
      child, below := ScanNew();
      if child == null {
        return null, cells, key;
      }
      cells, key := [Cell(node, below)], Token(STRING, node.text, read.link.Chain());
      assert allocated(Foot(front)) && allocated(Foot(last)) && allocated(Foot(below));
      LinkKey(root, prev, node, child, front, last, keys, below, read.link);
      var _ := ScanComma();
      next := node;
    }

    method ScanObject(res: Node, ghost inner: Scanner.Inner) returns (ok: bool, ghost cells: seq<Cell>)
      requires Valid() && cur < |b| && b[cur] == '{'
      requires res.child == null && res.next == null && res.text == None
      requires Scanner.Scans(b, cur, inner)
      modifies this`cur, memory`live, res
      ensures Scanned(res, old(cur), ok, cells, Scanner.ScanMembers(b, Scanner.SkipSpace(b, old(cur) + 1), [], inner))
      ensures (forall n :: n in Foot(cells) && n != res ==> fresh(n))
      ensures old(memory.live) + (Foot(cells) - {res}) <= memory.live
      decreases |b| - cur, 1
    {
      hide Foot, First, Head, Elements, Reads, Keyed, KeysRead, Mirrors, Leaf, Linked, Apart, Tokens, Link.Chain;
      hide Scanner.ScanMembers, Scanner.ScanToken, Scanner.SkipSpace, Scanner.SkipComma;
      var root: Node, prev: Node := res, res;
      ghost var front, last, keys := [], [], [];
      ghost var start := cur;
      cells := [];
      var c := ScanNext();
      ghost var whole := Scanner.ScanMembers(b, cur, [], inner);
      Start(root);
      while c != '}'
        invariant Valid() && start < cur && c == Buffers.Peek(b, cur)
        invariant whole == Scanner.ScanMembers(b, cur, keys, inner)
        invariant Keyed(root, prev, front, last) && KeysRead(front, last, keys)
        invariant fresh(Foot(front)) && fresh(Foot(last)) && (prev == root || fresh(prev))
        invariant old(memory.live) + Foot(front) + Foot(last) <= memory.live
        decreases |b| - cur
      {
        var next;
        ghost var e, key;
        next, e, key := ScanMember(root, prev, inner, front, last, keys);
        if next == null {
          return false, [];
        }
        prev, front, last, keys := next, front + last, e, keys + [key];
        c := Peek();
      }
      var _ := Advance();
      KeysApart(root, prev, front, last);
      assert allocated(Foot(front)) && allocated(Foot(last));
      root.kind := OBJECT;
      Scanner.MembersEnd(b, cur - 1, keys, inner);
      KeysHold(root, prev, front, last, keys);
      return true, [Cell(root, [])] + (front + last);
    }

    method ScanToken(res: Node) returns (ok: bool, ghost cells: seq<Cell>)
      requires Valid()
      requires res.child == null && res.next == null && res.text == None
      modifies this`cur, memory`live, res
      ensures Scanned(res, old(cur), ok, cells, Scanner.ScanToken(b, old(cur)))
      ensures (forall n :: n in Foot(cells) && n != res ==> fresh(n))
      ensures old(memory.live) + (Foot(cells) - {res}) <= memory.live
      decreases |b| - cur, 2
    {
      hide Foot, Linked, Apart, Tokens, Leaf, Mirrors;
      hide Scanner.ScanItems, Scanner.ScanMembers, Scanner.ScanWord, Scanner.ScanString, Scanner.ScanNumber;
      var c := Scan();
      ghost var inner;
      if c == Buffers.NUL {
        return false, Leaf(res);
      } else if c == '[' {
        inner := Scanner.ArrayStart(b, old(cur));
        ok, cells := ScanArray(res, inner);
        return;
      } else if c == '{' {
        inner := Scanner.ObjectStart(b, old(cur));
        ok, cells := ScanObject(res, inner);
        return;
      } else if c == '"' {
        ok := ScanString(res);
      } else if c == 't' {
        ok := ScanSpecial(res, TRUE);
      } else if c == 'f' {
        ok := ScanSpecial(res, FALSE);
      } else if c == 'n' {
        ok := ScanSpecial(res, NULL_VALUE);
      } else {
        ok := ScanNumber(res);
      }
      cells := Leaf(res);
      LeafMirrors(res);
    }

    /** `parse_json`: null when there is no value to read. */
    method ParseJson() returns (t: Node?, ghost cells: seq<Cell>)
      requires Valid()
      modifies this`cur, memory`live
      ensures Valid() && old(cur) <= cur && (t != null <==> Scanner.ScanToken(b, old(cur)).Done?)
      ensures t != null ==> var r := Scanner.ScanToken(b, old(cur));
        cur == r.end && Mirrors(t, cells, r.link) && fresh(Foot(cells)) && Foot(cells) <= memory.live
      ensures old(memory.live) <= memory.live
    {
      hide Foot, Linked, Apart, Tokens, Link.Chain, Scanner.ScanToken;
      var node := memory.Alloc();
      var ok;
      ok, cells := ScanToken(node);
      assert Foot(cells) <= {node} + (Foot(cells) - {node});
      t := if ok then node else null;
    }
  }

  /** `free_tokens`: frees each token of a tree once, and reads none that has been freed. */
  method FreeTokens(memory: Memory, t: Node?, ghost cells: seq<Cell>)
    requires t == First(cells, null) && Linked(cells, null) && Apart(cells) && Foot(cells) <= memory.live
    modifies memory`live
    ensures memory.live == old(memory.live) - Foot(cells)
    decreases cells
  {
    hide Foot, Apart, Linked, First;
    var at := t;
    ghost var k, left := 0, cells;
    assert cells[0..] == cells;
    while at != null
      invariant k <= |cells| && left == cells[k..]
      invariant at == First(left, null) && Linked(left, null) && Apart(left)
      invariant Foot(left) <= memory.live && memory.live == old(memory.live) - (Foot(cells) - Foot(left))
      invariant Foot(left) <= Foot(cells)
      decreases |left|
    {
      FirstOf(left);
      LinkedCons(left);
      FootCons(left);
      ApartCons(left);
      assert at in memory.live;
      assert cells[k] == left[0] && cells[k + 1..] == left[1..];
      FreeTokens(memory, at.child, left[0].below);
      assert at in memory.live;
      var temp := at.next;
      memory.Free(at);
      at := temp;
      k, left := k + 1, left[1..];
    }
    FirstOf(left);
    NoFoot();
  }

  lemma {:induction false} FirstOf(cells: seq<Cell>)
    ensures if cells == [] then First(cells, null) == null else First(cells, null) == cells[0].node
  {}

  lemma NoFoot()
    ensures Foot([]) == {}
  {}

  lemma {:induction false} LinkedCons(cells: seq<Cell>)
    requires cells != [] && Linked(cells, null)
    ensures var c := cells[0];
      && c.node.child == First(c.below, null) && Linked(c.below, null)
      && c.node.next == First(cells[1..], null) && Linked(cells[1..], null)
  {}
}
