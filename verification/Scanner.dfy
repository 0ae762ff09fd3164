/** What the scanner of cson.h makes of a buffer: which tokens, and where the cursor ends.
    The buffer reads as NUL at and beyond its size. */
module Scanner {
  import opened Json
  import opened Options
  import opened Buffers

  predicate IsDigit(c: char)
  {
    '0' <= c <= '9'
  }

  predicate IsSpace(c: char)
  {
    c == '\t' || c == '\n' || c == '\r' || c == ' '
  }

  /** Where `skip_whitespace` leaves the cursor. */
  function SkipSpace(b: string, i: nat): (j: nat)
    requires i <= |b|
    ensures i <= j <= |b|
    decreases |b| - i
  {
    if i < |b| && IsSpace(b[i]) then SkipSpace(b, i + 1) else i
  }

  /** `scan_next` once the value has been read: an optional comma, with space around it. */
  function SkipComma(b: string, i: nat): (j: nat)
    requires i <= |b|
    ensures i <= j <= |b|
  {
    var k := SkipSpace(b, i);
    if Peek(b, k) == ',' then SkipSpace(b, k + 1) else k
  }

  predicate IsEscape(c: char)
  {
    c in "\"\\/bfnrtu"
  }

  /** The index of the quote that ends a string whose text starts at `i`. */
  function CloseQuote(b: string, i: nat): (q: Option<nat>)
    ensures q.Some? ==> i <= q.value < |b| && b[q.value] == '"'
    decreases |b| - i
  {
    var c := Peek(b, i);
    if c == NUL then None
    else if c == '"' then Some(i)
    else if c == '\\' then
      if IsEscape(Peek(b, i + 1)) then CloseQuote(b, i + 2) else None
    else CloseQuote(b, i + 1)
  }

  /** Where a number ends once its first digit has been read, `i` being the next byte. */
  function NumberTail(b: string, i: nat, fraction: bool, exp: bool): (e: Option<nat>)
    requires i <= |b|
    ensures e.Some? ==> i <= e.value <= |b|
    decreases |b| - i
  {
    var c := Peek(b, i);
    if IsDigit(c) then NumberTail(b, i + 1, fraction, exp)
    else if c == '.' then
      if fraction || !IsDigit(Peek(b, i + 1)) then None else NumberTail(b, i + 1, true, exp)
    else if c == 'e' || c == 'E' then
      if exp then None
      else if Peek(b, i + 1) == '+' || Peek(b, i + 1) == '-' then
        if IsDigit(Peek(b, i + 2)) then NumberTail(b, i + 2, fraction, true) else None
      else if IsDigit(Peek(b, i + 1)) then NumberTail(b, i + 1, fraction, true)
      else None
    else Some(i)
  }

  function NumberEnd(b: string, i: nat): (e: Option<nat>)
    ensures e.Some? ==> i < e.value <= |b|
  {
    if Peek(b, i) == '-' then
      if IsDigit(Peek(b, i + 1)) then NumberTail(b, i + 2, false, false) else None
    else if IsDigit(Peek(b, i)) then NumberTail(b, i + 1, false, false)
    else None
  }

  datatype Scan = Fail | Done(link: Link, end: nat)

  /** `translate_tokentype`. */
  function Word(kind: Kind): (s: string)
    ensures s != ""
  {
    match kind
    case NULL_VALUE => "null"
    case OBJECT => "object"
    case ARRAY => "array"
    case STRING => "string"
    case NUMBER => "number"
    case TRUE => "true"
    case FALSE => "false"
  }

  function ScanWord(b: string, i: nat, word: string, kind: Kind): (r: Scan)
    requires word != []
    ensures r.Done? ==> i < r.end <= |b|
  {
    if At(b, i, word) then Done(Link(Token(kind, Some(word), []), []), i + |word|) else Fail
  }

  function ScanString(b: string, i: nat): (r: Scan)
    ensures r.Done? ==> i < r.end <= |b|
  {
    if Peek(b, i) != '"' then Fail
    else
      var q := CloseQuote(b, i + 1);
      if q.None? then Fail else Done(Link(Token(STRING, Some(b[i + 1..q.value]), []), []), q.value + 1)
  }

  function ScanNumber(b: string, i: nat): (r: Scan)
    ensures r.Done? ==> i < r.end <= |b|
  {
    var e := NumberEnd(b, i);
    if e.None? then Fail else Done(Link(Token(NUMBER, Some(b[i..e.value]), []), []), e.value)
  }

  /** How the elements and members inside a bracket opened at `j` are scanned. */
  type Inner = nat -> Scan

  /** The loop of `scan_array`: `heads` are the elements so far, `next` is the chain the last
      of them came with. A comma between elements is optional. */
  function ScanItems(b: string, i: nat, heads: seq<Token>, next: seq<Token>, inner: Inner): (r: Scan)
    requires i <= |b|
    ensures r.Done? ==> i < r.end <= |b|
    decreases |b| - i
  {
    if Peek(b, i) == ']' then Done(Link(Token(ARRAY, None, heads + next), []), i + 1)
    else
      match inner(i)
      case Fail => Fail
      case Done(link, e) =>
        if i < e <= |b| then ScanItems(b, SkipComma(b, e), heads + [link.head], link.next, inner) else Fail
  }

  /** A member of an object up to its value: where the value starts, and the key's text. */
  function ScanKey(b: string, i: nat): (r: Option<(string, nat)>)
    requires i <= |b|
    ensures r.Some? ==> i < r.value.1 <= |b|
  {
    match ScanString(b, i)
    case Fail => None
    case Done(link, e) =>
      var k := SkipSpace(b, e);
      if Peek(b, k) == ':' then Some((link.head.text.value, k + 1)) else None
  }

  /** The loop of `scan_object`: `keys` are the members so far. */
  function ScanMembers(b: string, i: nat, keys: seq<Token>, inner: Inner): (r: Scan)
    requires i <= |b|
    ensures r.Done? ==> i < r.end <= |b|
    decreases |b| - i
  {
    if Peek(b, i) == '}' then Done(Link(Token(OBJECT, None, []), keys), i + 1)
    else
      match ScanKey(b, i)
      case None => Fail
      case Some((key, v)) =>
        match inner(v)
        case Fail => Fail
        case Done(link, e) =>
          if v < e <= |b| then ScanMembers(b, SkipComma(b, e), keys + [Token(STRING, Some(key), link.Chain())], inner)
          else Fail
  }

  /** `scan_token`. Success strictly advances the cursor, and never past the end. */
  function ScanToken(b: string, i: nat): (r: Scan)
    requires i <= |b|
    ensures r.Done? ==> i < r.end <= |b|
    decreases |b| - i
  {
    var j := SkipSpace(b, i);
    var c := Peek(b, j);
    if c == NUL then Fail
    else if c == '[' then
      ScanItems(b, SkipSpace(b, j + 1), [], [], k => if j < k <= |b| then ScanToken(b, k) else Fail)
    else if c == '{' then
      ScanMembers(b, SkipSpace(b, j + 1), [], k => if j < k <= |b| then ScanToken(b, k) else Fail)
    else ScanLeaf(b, j)
  }

  /** The cases of `scan_token` that do not recur. */
  function ScanLeaf(b: string, j: nat): (r: Scan)
    ensures r.Done? ==> j < r.end <= |b|
  {
    match Peek(b, j)
    case '"' => ScanString(b, j)
    case 't' => ScanWord(b, j, Word(TRUE), TRUE)
    case 'f' => ScanWord(b, j, Word(FALSE), FALSE)
    case 'n' => ScanWord(b, j, Word(NULL_VALUE), NULL_VALUE)
    case _ => ScanNumber(b, j)
  }

  /** What `scan_token` passes down: itself, for places after the bracket at `j`. */
  ghost predicate Scans(b: string, j: int, inner: Inner)
  {
    forall k: nat {:trigger inner(k)} :: j < k <= |b| ==> inner(k) == ScanToken(b, k)
  }

  /** One turn of the loop of `scan_array`. */
  lemma {:induction false} ItemTurn(b: string, i: nat, heads: seq<Token>, next: seq<Token>, inner: Inner)
    requires i <= |b| && Peek(b, i) != ']' && (inner(i).Done? ==> i < inner(i).end <= |b|)
    ensures var r := inner(i);
      ScanItems(b, i, heads, next, inner) ==
        if r.Fail? then Fail else ScanItems(b, SkipComma(b, r.end), heads + [r.link.head], r.link.next, inner)
  {
  }

  lemma {:induction false} ItemsEnd(b: string, i: nat, heads: seq<Token>, next: seq<Token>, inner: Inner)
    requires i <= |b| && Peek(b, i) == ']'
    ensures ScanItems(b, i, heads, next, inner) == Done(Link(Token(ARRAY, None, heads + next), []), i + 1)
  {
  }

  /** One turn of the loop of `scan_object`. */
  lemma {:induction false} MemberTurn(b: string, i: nat, keys: seq<Token>, inner: Inner)
    requires i <= |b| && Peek(b, i) != '}'
    requires var k := ScanKey(b, i);
      k.Some? && inner(k.value.1).Done? ==> k.value.1 < inner(k.value.1).end <= |b|
    ensures var k := ScanKey(b, i);
      ScanMembers(b, i, keys, inner) ==
        if k.None? then Fail
        else
          var r := inner(k.value.1);
          if r.Fail? then Fail
          else ScanMembers(b, SkipComma(b, r.end), keys + [Token(STRING, Some(k.value.0), r.link.Chain())], inner)
  {
  }

  lemma {:induction false} MembersEnd(b: string, i: nat, keys: seq<Token>, inner: Inner)
    requires i <= |b| && Peek(b, i) == '}'
    ensures ScanMembers(b, i, keys, inner) == Done(Link(Token(OBJECT, None, []), keys), i + 1)
  {
  }

  /** What `scan_token` does at an opening bracket, with the closure it passes down. */
  lemma {:induction false} ArrayStart(b: string, i: nat) returns (inner: Inner)
    requires i <= |b| && Peek(b, SkipSpace(b, i)) == '['
    ensures var j := SkipSpace(b, i);
      Scans(b, j, inner) && ScanToken(b, i) == ScanItems(b, SkipSpace(b, j + 1), [], [], inner)
  {
    hide ScanItems;
    var j := SkipSpace(b, i);
    inner := n => if j < n <= |b| then ScanToken(b, n) else Fail;
  }

  lemma {:induction false} ObjectStart(b: string, i: nat) returns (inner: Inner)
    requires i <= |b| && Peek(b, SkipSpace(b, i)) == '{'
    ensures var j := SkipSpace(b, i);
      Scans(b, j, inner) && ScanToken(b, i) == ScanMembers(b, SkipSpace(b, j + 1), [], inner)
  {
    hide ScanMembers;
    var j := SkipSpace(b, i);
    inner := n => if j < n <= |b| then ScanToken(b, n) else Fail;
  }
}
