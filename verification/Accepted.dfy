/** What the scanner of cson.h accepts, exactly: JSON in which the commas between elements and members
    may be missing, one may follow the last, and numbers are those of module Numbers. */
module Accepted {
  import opened Options
  import opened Buffers
  import opened Json
  import opened Scanner
  import opened Grammar
  import opened Numbers
  import Reading

  datatype Loose =
    | LWord(kind: Kind)
    | LNumber(neg: bool, whole: string, pieces: seq<Piece>)
    | LText(body: string)
    | LArray(open: string, items: seq<LooseItem>)
    | LObject(open: string, entries: seq<LooseEntry>)

  /** What follows a value: space, and perhaps a comma with space after it. */
  datatype Gap = Gap(post: string, comma: Option<string>)

  datatype LooseItem = LooseItem(doc: Loose, gap: Gap)

  datatype LooseEntry = LooseEntry(key: string, mid: string, pre: string, doc: Loose, gap: Gap)

  function GapText(g: Gap): string
  {
    g.post + (if g.comma.Some? then "," + g.comma.value else "")
  }

  function LooseText(d: Loose): string
    decreases d, 0
  {
    match d
    case LWord(kind) => Word(kind)
    case LNumber(neg, whole, pieces) => Spelling(neg, whole, pieces)
    case LText(s) => "\"" + s + "\""
    case LArray(open, items) => "[" + (open + (ItemsText(items) + "]"))
    case LObject(open, entries) => "{" + (open + (EntriesText(entries) + "}"))
  }

  function ItemsText(items: seq<LooseItem>): string
    decreases items, 1
  {
    if items == [] then ""
    else
      var LooseItem(doc, gap) := items[0];
      assert doc < items[0];
      LooseText(doc) + (GapText(gap) + ItemsText(items[1..]))
  }

  function EntriesText(entries: seq<LooseEntry>): string
    decreases entries, 1
  {
    if entries == [] then ""
    else
      var e := entries[0];
      ("\"" + e.key + "\"") + (e.mid + (":" + (e.pre +
        (LooseText(e.doc) + (GapText(e.gap) + EntriesText(entries[1..]))))))
  }

  function LooseValue(d: Loose): Value
    decreases d, 0
  {
    match d
    case LWord(kind) => if kind == TRUE then Bool(true) else if kind == FALSE then Bool(false) else Null
    case LNumber(neg, whole, pieces) => Number(Spelling(neg, whole, pieces))
    case LText(s) => Text(s)
    case LArray(_, items) => Array(LooseValues(items))
    case LObject(_, entries) => Object(LooseMembers(entries))
  }

  function LooseValues(items: seq<LooseItem>): seq<Value>
    decreases items, 1
  {
    if items == [] then []
    else
      var LooseItem(doc, _) := items[0];
      assert doc < items[0];
      [LooseValue(doc)] + LooseValues(items[1..])
  }

  function LooseMembers(entries: seq<LooseEntry>): seq<Member>
    decreases entries, 1
  {
    if entries == [] then []
    else
      var e := entries[0];
      [Member(e.key, LooseValue(e.doc))] + LooseMembers(entries[1..])
  }

  predicate ValidGap(g: Gap)
  {
    AllSpace(g.post) && (g.comma.Some? ==> AllSpace(g.comma.value))
  }

  predicate ValidLoose(d: Loose)
    decreases d, 0
  {
    match d
    case LWord(kind) => kind in {NULL_VALUE, TRUE, FALSE}
    case LNumber(_, whole, pieces) => ValidText(whole, pieces)
    case LText(s) => StringBody(s)
    case LArray(open, items) => AllSpace(open) && ValidLooseItems(items)
    case LObject(open, entries) => AllSpace(open) && ValidLooseEntries(entries)
  }

  predicate ValidLooseItems(items: seq<LooseItem>)
    decreases items, 1
  {
    items != [] ==>
      var LooseItem(doc, gap) := items[0];
      assert doc < items[0];
      ValidLoose(doc) && ValidGap(gap) && ValidLooseItems(items[1..])
  }

  predicate ValidLooseEntries(entries: seq<LooseEntry>)
    decreases entries, 1
  {
    entries != [] ==>
      var e := entries[0];
      && StringBody(e.key) && AllSpace(e.mid) && AllSpace(e.pre) && ValidLoose(e.doc) && ValidGap(e.gap)
      && ValidLooseEntries(entries[1..])
  }

  /** In an array no number is directly followed by digits. */
  predicate Separated(d: Loose)
    decreases d, 0
  {
    match d
    case LArray(_, items) => SeparatedItems(items)
    case LObject(_, entries) => SeparatedEntries(entries)
    case _ => true
  }

  predicate SeparatedItems(items: seq<LooseItem>)
    decreases items, 1
  {
    items != [] ==>
      var LooseItem(doc, _) := items[0];
      assert doc < items[0];
      Separated(doc) && (|items| > 1 ==> !Touches(items[0], items[1])) && SeparatedItems(items[1..])
  }

  predicate SeparatedEntries(entries: seq<LooseEntry>)
    decreases entries, 1
  {
    entries != [] ==> Separated(entries[0].doc) && SeparatedEntries(entries[1..])
  }

  /** A number with nothing between it and the digits of the next one. */
  predicate Touches(one: LooseItem, two: LooseItem)
  {
    one.doc.LNumber? && GapText(one.gap) == "" && two.doc.LNumber? && !two.doc.neg
  }

  // ---- space and commas ----

  lemma {:induction false} SpaceIs(b: string, i: nat) returns (s: string)
    requires i <= |b|
    ensures AllSpace(s) && At(b, i, s) && SkipSpace(b, i) == i + |s|
    decreases |b| - i
  {
    if i < |b| && IsSpace(b[i]) {
      var t := SpaceIs(b, i + 1);
      s := [b[i]] + t;
      assert At(b, i, [b[i]]);
      AtJoin(b, i, [b[i]], t);
    } else {
      s := "";
    }
  }

  lemma {:induction false} GapIs(b: string, i: nat) returns (g: Gap)
    requires i <= |b|
    ensures ValidGap(g) && At(b, i, GapText(g)) && SkipComma(b, i) == i + |GapText(g)|
  {
    hide SkipSpace, At;
    var post := SpaceIs(b, i);
    var k := i + |post|;
    if Peek(b, k) == ',' {
      var more := SpaceIs(b, k + 1);
      CharAt(b, k);
      AtJoin(b, k, ",", more);
      AtJoin(b, i, post, "," + more);
      g := Gap(post, Some(more));
    } else {
      g := Gap(post, None);
      assert GapText(g) == post;
    }
  }

  // ---- whatever is scanned is a loose text ----

  /** From `i` to `e` stands the text of a loose value, and `link` are its tokens. */
  ghost predicate Fits(b: string, i: nat, d: Loose, link: Link, e: nat)
  {
    && ValidLoose(d) && Separated(d) && At(b, i, LooseText(d)) && e == i + |LooseText(d)|
    && link == Encode(LooseValue(d)) && (d.LNumber? ==> !ContinuesNumber(Peek(b, e)))
  }

  lemma {:induction false} LeafIs(b: string, i: nat) returns (d: Loose)
    requires i <= |b| && ScanLeaf(b, i).Done?
    ensures var r := ScanLeaf(b, i); Fits(b, i, d, r.link, r.end)
  {
    hide NumberEnd, StringBody, ValidText, Spelling;
    match Peek(b, i)
    case '"' =>
      var r := ScanString(b, i);
      var s := r.link.head.text.value;
      StringIs(b, i, s, r.end);
      d := LText(s);
    case 't' => d := LWord(TRUE);
    case 'f' => d := LWord(FALSE);
    case 'n' => d := LWord(NULL_VALUE);
    case _ =>
      var neg, whole, ps := NumberOf(b, i, ScanNumber(b, i).end);
      d := LNumber(neg, whole, ps);
  }

  lemma {:induction false} SkipTwice(b: string, i: nat)
    requires i <= |b|
    ensures SkipSpace(b, SkipSpace(b, i)) == SkipSpace(b, i)
    ensures SkipSpace(b, SkipComma(b, i)) == SkipComma(b, i)
    decreases |b| - i
  {
    SkipOnce(b, i);
    var k := SkipSpace(b, i);
    if Peek(b, k) == ',' {
      SkipOnce(b, k + 1);
    }
  }

  lemma {:induction false} SkipOnce(b: string, i: nat)
    requires i <= |b|
    ensures SkipSpace(b, SkipSpace(b, i)) == SkipSpace(b, i)
    decreases |b| - i
  {
    if i < |b| && IsSpace(b[i]) {
      SkipOnce(b, i + 1);
    }
  }

  /** The elements read so far are `heads`, and `next` is the chain the last one came with. */
  ghost predicate ItemsRead(b: string, i: nat, items: seq<LooseItem>, heads: seq<Token>, next: seq<Token>, r: Scan)
  {
    && r.Done? && ValidLooseItems(items) && SeparatedItems(items)
    && At(b, i, ItemsText(items) + "]") && r.end == i + |ItemsText(items)| + 1
    && r.link == Link(Token(ARRAY, None, heads + (if items == [] then next else EncodeItems(LooseValues(items)))), [])
  }

  /** What follows a number that was read to its end is not more digits. */
  lemma {:induction false} Apart(b: string, d: Loose, g: Gap, e: nat, rest: seq<LooseItem>)
    requires d.LNumber? ==> !ContinuesNumber(Peek(b, e))
    requires At(b, e + |GapText(g)|, ItemsText(rest) + "]") && ValidLooseItems(rest)
    ensures rest != [] ==> !Touches(LooseItem(d, g), rest[0])
  {
    hide Separated, ContinuesNumber, GapText;
    if rest != [] && Touches(LooseItem(d, g), rest[0]) {
      DigitsFirst(rest);
      AtHead(b, e, ItemsText(rest) + "]");
    }
  }

  lemma {:induction false} DigitsFirst(items: seq<LooseItem>)
    requires items != [] && items[0].doc.LNumber? && !items[0].doc.neg && ValidLooseItems(items)
    ensures ItemsText(items) != "" && ContinuesNumber(ItemsText(items)[0])
  {
    hide PiecesText, ValidPieces, GapText;
    var n := items[0].doc;
    assert ItemsText(items) == LooseText(n) + (GapText(items[0].gap) + ItemsText(items[1..]));
    assert LooseText(n)[0] == n.whole[0];
  }

  lemma {:induction false} ItemsMore(b: string, i: nat, d: Loose, g: Gap, link: Link, e: nat, rest: seq<LooseItem>,
                                     heads: seq<Token>, next: seq<Token>, r: Scan)
    requires Fits(b, i, d, link, e) && ValidGap(g) && At(b, e, GapText(g))
    requires ItemsRead(b, e + |GapText(g)|, rest, heads + [link.head], link.next, r)
    ensures ItemsRead(b, i, [LooseItem(d, g)] + rest, heads, next, r)
  {
    hide LooseText, GapText, LooseValue, Encode, ValidLoose, ValidGap, At, Separated, ContinuesNumber;
    var items := [LooseItem(d, g)] + rest;
    assert items[1..] == rest;
    Apart(b, d, g, e, rest);
    AtJoin(b, e, GapText(g), ItemsText(rest) + "]");
    AtJoin(b, i, LooseText(d), GapText(g) + (ItemsText(rest) + "]"));
    assert ItemsText(items) + "]" == LooseText(d) + (GapText(g) + (ItemsText(rest) + "]"));
    EncodeMore(d, g, rest, heads);
  }

  lemma {:induction false} EncodeMore(d: Loose, g: Gap, rest: seq<LooseItem>, heads: seq<Token>)
    ensures var link := Encode(LooseValue(d));
      heads + EncodeItems(LooseValues([LooseItem(d, g)] + rest)) ==
      heads + [link.head] + (if rest == [] then link.next else EncodeItems(LooseValues(rest)))
  {
    hide LooseValue, Encode;
    var items := [LooseItem(d, g)] + rest;
    assert items[1..] == rest;
    var vs := LooseValues(items);
    assert vs == [LooseValue(d)] + LooseValues(rest) && vs[1..] == LooseValues(rest);
    if rest == [] {
      assert |vs| == 1;
      assert heads + ([Encode(vs[0]).head] + Encode(vs[0]).next) == heads + [Encode(vs[0]).head] + Encode(vs[0]).next;
    } else {
      CountValues(rest);
    }
  }

  lemma {:induction false} CountValues(items: seq<LooseItem>)
    ensures |LooseValues(items)| == |items|
  {
    hide LooseValue;
    if items != [] {
      CountValues(items[1..]);
    }
  }

  lemma {:induction false} ItemsDone(b: string, i: nat, heads: seq<Token>, next: seq<Token>, inner: Inner)
    requires i <= |b| && Peek(b, i) == ']'
    ensures ItemsRead(b, i, [], heads, next, ScanItems(b, i, heads, next, inner))
  {
    hide ScanItems, At;
    ItemsEnd(b, i, heads, next, inner);
    assert ItemsText([]) + "]" == "]";
    CharAt(b, i);
  }

  lemma {:induction false} ItemsIs(b: string, i: nat, j: nat, heads: seq<Token>, next: seq<Token>, inner: Inner)
    returns (items: seq<LooseItem>)
    requires j < i <= |b| && SkipSpace(b, i) == i && Scans(b, j, inner) && ScanItems(b, i, heads, next, inner).Done?
    ensures ItemsRead(b, i, items, heads, next, ScanItems(b, i, heads, next, inner))
    decreases |b| - i, 2
  {
    hide ScanToken, ScanItems, SkipComma, SkipSpace, Fits, ValidGap, GapText, ItemsRead, At, AllSpace;
    var r := ScanItems(b, i, heads, next, inner);
    if Peek(b, i) == ']' {
      items := [];
      ItemsDone(b, i, heads, next, inner);
    } else {
      ItemTurn(b, i, heads, next, inner);
      var link, e := inner(i).link, inner(i).end;
      var pre, d := ScanIs(b, i);
      var g := GapIs(b, e);
      SkipTwice(b, e);
      var rest := ItemsIs(b, SkipComma(b, e), j, heads + [link.head], link.next, inner);
      items := [LooseItem(d, g)] + rest;
      ItemsMore(b, i, d, g, link, e, rest, heads, next, r);
    }
  }

  // ---- objects ----

  function KeyText(key: string, mid: string): string
  {
    ("\"" + key + "\"") + (mid + ":")
  }

  lemma {:induction false} KeyIs(b: string, i: nat) returns (mid: string)
    requires i <= |b| && ScanKey(b, i).Some?
    ensures var (key, v) := ScanKey(b, i).value;
      StringBody(key) && AllSpace(mid) && At(b, i, KeyText(key, mid)) && v == i + |KeyText(key, mid)|
  {
    hide StringBody, At, SkipSpace;
    var r := ScanString(b, i);
    var key := r.link.head.text.value;
    StringIs(b, i, key, r.end);
    mid := SpaceIs(b, r.end);
    CharAt(b, r.end + |mid|);
    AtJoin(b, r.end, mid, ":");
    AtJoin(b, i, "\"" + key + "\"", mid + ":");
  }

  ghost predicate EntriesRead(b: string, i: nat, entries: seq<LooseEntry>, keys: seq<Token>, r: Scan)
  {
    && r.Done? && ValidLooseEntries(entries) && SeparatedEntries(entries) && At(b, i, EntriesText(entries) + "}")
    && r.end == i + |EntriesText(entries)| + 1
    && r.link == Link(Token(OBJECT, None, []), keys + EncodeMembers(LooseMembers(entries)))
  }

  lemma {:induction false} EntriesMore(b: string, i: nat, e: LooseEntry, v: nat, link: Link, end: nat,
      rest: seq<LooseEntry>,
                                       keys: seq<Token>, r: Scan)
    requires StringBody(e.key) && AllSpace(e.mid) && At(b, i, KeyText(e.key, e.mid)) && v == i + |KeyText(e.key, e.mid)|
    requires AllSpace(e.pre) && At(b, v, e.pre) && Fits(b, v + |e.pre|, e.doc, link, end)
    requires ValidGap(e.gap) && At(b, end, GapText(e.gap))
    requires EntriesRead(b, end + |GapText(e.gap)|, rest, keys + [Token(STRING, Some(e.key), link.Chain())], r)
    ensures EntriesRead(b, i, [e] + rest, keys, r)
  {
    hide LooseText, GapText, LooseValue, Encode, ValidLoose, ValidGap, At, StringBody, AllSpace, Link.Chain, Separated,
      ContinuesNumber;
    var entries := [e] + rest;
    assert entries[1..] == rest;
    var tail := EntriesText(rest) + "}";
    AtJoin(b, end, GapText(e.gap), tail);
    AtJoin(b, v + |e.pre|, LooseText(e.doc), GapText(e.gap) + tail);
    AtJoin(b, v, e.pre, LooseText(e.doc) + (GapText(e.gap) + tail));
    AtJoin(b, i, KeyText(e.key, e.mid), e.pre + (LooseText(e.doc) + (GapText(e.gap) + tail)));
    EntryText(e, rest);
    EncodeKey(e, rest, keys);
  }

  lemma EntryText(e: LooseEntry, rest: seq<LooseEntry>)
    ensures EntriesText([e] + rest) + "}" ==
      KeyText(e.key, e.mid) + (e.pre + (LooseText(e.doc) + (GapText(e.gap) + (EntriesText(rest) + "}"))))
  {
    hide LooseText, GapText;
    assert ([e] + rest)[1..] == rest;
  }

  lemma {:induction false} EncodeKey(e: LooseEntry, rest: seq<LooseEntry>, keys: seq<Token>)
    ensures keys + EncodeMembers(LooseMembers([e] + rest)) ==
      keys + [Token(STRING, Some(e.key), Encode(LooseValue(e.doc)).Chain())] + EncodeMembers(LooseMembers(rest))
  {
    hide LooseValue, Encode;
    assert ([e] + rest)[1..] == rest;
    assert LooseMembers([e] + rest)[1..] == LooseMembers(rest);
  }

  lemma {:induction false} EntriesDone(b: string, i: nat, keys: seq<Token>, inner: Inner)
    requires i <= |b| && Peek(b, i) == '}'
    ensures EntriesRead(b, i, [], keys, ScanMembers(b, i, keys, inner))
  {
    hide ScanMembers, At;
    MembersEnd(b, i, keys, inner);
    assert EntriesText([]) + "}" == "}";
    assert keys + EncodeMembers(LooseMembers([])) == keys;
    CharAt(b, i);
  }

  lemma {:induction false} EntriesAre(b: string, i: nat, j: nat, keys: seq<Token>, inner: Inner)
      returns (entries: seq<LooseEntry>)
    requires j < i <= |b| && SkipSpace(b, i) == i && Scans(b, j, inner) && ScanMembers(b, i, keys, inner).Done?
    ensures EntriesRead(b, i, entries, keys, ScanMembers(b, i, keys, inner))
    decreases |b| - i, 2
  {
    hide ScanToken, ScanMembers, ScanKey, SkipComma, SkipSpace, Fits, ValidGap, GapText, StringBody, KeyText,
      EntriesRead, At, AllSpace, Link.Chain;
    var r := ScanMembers(b, i, keys, inner);
    if Peek(b, i) == '}' {
      entries := [];
      EntriesDone(b, i, keys, inner);
    } else {
      var (key, v) := if ScanKey(b, i).Some? then ScanKey(b, i).value else ("", i + 1);
      MemberTurn(b, i, keys, inner);
      var mid := KeyIs(b, i);
      var link, end := inner(v).link, inner(v).end;
      var pre, d := ScanIs(b, v);
      var g := GapIs(b, end);
      SkipTwice(b, end);
      var rest := EntriesAre(b, SkipComma(b, end), j, keys + [Token(STRING, Some(key), link.Chain())], inner);
      var e := LooseEntry(key, mid, pre, d, g);
      entries := [e] + rest;
      EntriesMore(b, i, e, v, link, end, rest, keys, r);
    }
  }

  // ---- every value ----

  lemma {:induction false} ArrayIs(b: string, j: nat, open: string, items: seq<LooseItem>, r: Scan)
    requires At(b, j, "[") && AllSpace(open) && At(b, j + 1, open) && ItemsRead(b, j + 1 + |open|, items, [], [], r)
    ensures Fits(b, j, LArray(open, items), r.link, r.end)
  {
    hide At, ItemsText, ValidLooseItems, SeparatedItems, LooseValues;
    AtJoin(b, j + 1, open, ItemsText(items) + "]");
    AtJoin(b, j, "[", open + (ItemsText(items) + "]"));
    NoValues(items);
  }

  lemma NoValues(items: seq<LooseItem>)
    ensures items == [] ==> EncodeItems(LooseValues(items)) == []
    ensures [] + EncodeItems(LooseValues(items)) == EncodeItems(LooseValues(items))
  {
  }

  lemma {:induction false} ObjectIs(b: string, j: nat, open: string, entries: seq<LooseEntry>, r: Scan)
    requires At(b, j, "{") && AllSpace(open) && At(b, j + 1, open) && EntriesRead(b, j + 1 + |open|, entries, [], r)
    ensures Fits(b, j, LObject(open, entries), r.link, r.end)
  {
    hide At, EntriesText, ValidLooseEntries, SeparatedEntries, LooseMembers;
    AtJoin(b, j + 1, open, EntriesText(entries) + "}");
    AtJoin(b, j, "{", open + (EntriesText(entries) + "}"));
    assert [] + EncodeMembers(LooseMembers(entries)) == EncodeMembers(LooseMembers(entries));
  }

  /** Everything that the scanner accepts is a loose text, and the tokens are those of its value. */
  lemma {:induction false} ScanIs(b: string, i: nat) returns (pre: string, d: Loose)
    requires i <= |b| && ScanToken(b, i).Done?
    ensures AllSpace(pre) && At(b, i, pre) && SkipSpace(b, i) == i + |pre|
    ensures var r := ScanToken(b, i); Fits(b, i + |pre|, d, r.link, r.end)
    decreases |b| - i, 1
  {
    hide Fits, ItemsRead, EntriesRead, ScanItems, ScanMembers, ScanLeaf, ScanToken, SkipSpace, At, AllSpace;
    pre := SpaceIs(b, i);
    var j, r := i + |pre|, ScanToken(b, i);
    if Peek(b, j) == '[' {
      var inner := ArrayStart(b, i);
      var open := SpaceIs(b, j + 1);
      SkipTwice(b, j + 1);
      var items := ItemsIs(b, j + 1 + |open|, j, [], [], inner);
      CharAt(b, j);
      ArrayIs(b, j, open, items, r);
      d := LArray(open, items);
    } else if Peek(b, j) == '{' {
      var inner := ObjectStart(b, i);
      var open := SpaceIs(b, j + 1);
      SkipTwice(b, j + 1);
      var entries := EntriesAre(b, j + 1 + |open|, j, [], inner);
      CharAt(b, j);
      ObjectIs(b, j, open, entries, r);
      d := LObject(open, entries);
    } else {
      LeafStart(b, i);
      d := LeafIs(b, j);
    }
  }

  lemma {:induction false} LeafStart(b: string, i: nat)
    requires i <= |b| && ScanToken(b, i).Done?
    requires Peek(b, SkipSpace(b, i)) != '[' && Peek(b, SkipSpace(b, i)) != '{'
    ensures ScanToken(b, i) == ScanLeaf(b, SkipSpace(b, i))
  {
    hide ScanLeaf, SkipSpace;
  }

  // ---- and every such text is accepted ----

  /** What a text that is not blank and does not start like a comma or a delimiter starts with. */
  lemma {:induction false} LooseHead(d: Loose)
    requires ValidLoose(d)
    ensures var t := LooseText(d); t != "" && !IsSpace(t[0]) && t[0] != ',' && t[0] != ']' && t[0] != NUL
    ensures d.LArray? ==> LooseText(d)[0] == '['
    ensures d.LObject? ==> LooseText(d)[0] == '{'
    ensures !d.LArray? && !d.LObject? ==> LooseText(d)[0] != '[' && LooseText(d)[0] != '{'
    ensures d.LText? ==> LooseText(d)[0] == '"'
    ensures d.LNumber? ==> LooseText(d)[0] == '-' || IsDigit(LooseText(d)[0])
  {
    hide PiecesText, ValidPieces, ItemsText, EntriesText, ValidLooseItems, ValidLooseEntries, StringBody;
    match d
    case LNumber(neg, whole, pieces) =>
      if !neg {
        assert LooseText(d)[0] == whole[0];
      }
    case _ =>
  }

  lemma {:induction false} CommaGapAt(b: string, i: nat, post: string, more: string, t: string)
    requires AllSpace(post) && AllSpace(more) && At(b, i, post + ("," + (more + t))) && t != "" && !IsSpace(t[0])
    ensures SkipComma(b, i) == i + |post| + 1 + |more|
  {
    hide SkipSpace, At, AllSpace;
    SkipTo(b, i, post, "," + (more + t));
    AtSplit(b, i + |post|, ",", more + t);
    AtHead(b, i + |post|, "," + (more + t));
    SkipTo(b, i + |post| + 1, more, t);
  }

  lemma {:induction false} GapAt(b: string, i: nat, g: Gap, t: string)
    requires ValidGap(g) && At(b, i, GapText(g) + t) && t != "" && !IsSpace(t[0]) && t[0] != ','
    ensures SkipComma(b, i) == i + |GapText(g)| && At(b, i + |GapText(g)|, t)
  {
    hide SkipSpace, SkipComma, At, AllSpace;
    AtSplit(b, i, GapText(g), t);
    if g.comma.Some? {
      assert GapText(g) + t == g.post + ("," + (g.comma.value + t));
      CommaGapAt(b, i, g.post, g.comma.value, t);
    } else {
      assert GapText(g) == g.post && GapText(g) + t == g.post + t;
      NoCommaGapAt(b, i, g.post, t);
    }
  }

  lemma {:induction false} NoCommaGapAt(b: string, i: nat, post: string, t: string)
    requires AllSpace(post) && At(b, i, post + t) && t != "" && !IsSpace(t[0]) && t[0] != ','
    ensures SkipComma(b, i) == i + |post|
  {
    hide SkipSpace, At, AllSpace;
    SkipTo(b, i, post, t);
    AtHead(b, i + |post|, t);
  }

  /** The leaves: a word, a string or a number. */
  lemma {:induction false} LeafAt(b: string, k: nat, d: Loose)
    requires ValidLoose(d) && !d.LArray? && !d.LObject? && k <= |b| && At(b, k, LooseText(d))
    requires d.LNumber? ==> !ContinuesNumber(Peek(b, k + |LooseText(d)|))
    ensures ScanLeaf(b, k) == Done(Encode(LooseValue(d)), k + |LooseText(d)|)
  {
    hide StringBody, ValidText, NumberEnd, Spelling;
    LooseHead(d);
    AtHead(b, k, LooseText(d));
    match d
    case LNumber(neg, whole, pieces) => TextAt(b, k, neg, whole, pieces);
    case LText(s) => StringAt(b, k, s);
    case LWord(kind) =>
  }

  /** The loose value `d` is read where it stands, when what follows cannot extend a number. */
  ghost predicate ReadWhole(b: string, k: nat, d: Loose)
  {
    k <= |b| && At(b, k, LooseText(d)) && (d.LNumber? ==> !ContinuesNumber(Peek(b, k + |LooseText(d)|))) ==>
      ScanToken(b, k) == Done(Encode(LooseValue(d)), k + |LooseText(d)|)
  }

  lemma {:induction false} ItemsStart(items: seq<LooseItem>)
    requires ValidLooseItems(items)
    ensures var t := ItemsText(items) + "]"; t != "" && !IsSpace(t[0]) && t[0] != ','
    ensures items != [] ==>
      LooseText(items[0].doc) != "" && (ItemsText(items) + "]")[0] == LooseText(items[0].doc)[0]
  {
    hide LooseText, GapText, ValidLoose, ValidGap;
    if items != [] {
      LooseHead(items[0].doc);
    }
  }

  /** A separated number is followed by nothing that could extend it. */
  lemma {:induction false} NumberEnds(b: string, e: nat, items: seq<LooseItem>)
    requires ValidLooseItems(items) && SeparatedItems(items) && items != [] && items[0].doc.LNumber?
    requires At(b, e, GapText(items[0].gap) + (ItemsText(items[1..]) + "]"))
    ensures !ContinuesNumber(Peek(b, e))
  {
    hide LooseText, ValidLoose, Separated, PiecesText;
    var g, rest := items[0].gap, items[1..];
    var t := GapText(g) + (ItemsText(rest) + "]");
    AtHead(b, e, t);
    ItemsStart(rest);
    if GapText(g) == "" && rest != [] {
      assert t == ItemsText(rest) + "]";
      StartsNumber(rest[0].doc);
    }
  }

  /** Of all values only an unsigned number starts with what could extend a number. */
  lemma {:induction false} StartsNumber(d: Loose)
    requires ValidLoose(d) && !(d.LNumber? && !d.neg)
    ensures LooseText(d) != "" && !ContinuesNumber(LooseText(d)[0])
  {
    hide PiecesText, ValidPieces, ItemsText, EntriesText, ValidLooseItems, ValidLooseEntries, StringBody;
  }

  /** One element is read up to the next one. */
  lemma {:induction false} ItemTaken(b: string, i: nat, j: nat, items: seq<LooseItem>, heads: seq<Token>,
      next: seq<Token>, inner: Inner)
    requires items != [] && ValidLooseItems(items) && SeparatedItems(items) && At(b, i, ItemsText(items) + "]")
    requires j < i <= |b| && Scans(b, j, inner) && ReadWhole(b, i, items[0].doc)
    ensures var d, g, rest, link := items[0].doc, items[0].gap, items[1..], Encode(LooseValue(items[0].doc));
      var e := i + |LooseText(d)|;
      && At(b, e + |GapText(g)|, ItemsText(rest) + "]") && At(b, i, LooseText(d)) && At(b, e, GapText(g))
      && (d.LNumber? ==> !ContinuesNumber(Peek(b, e)))
      && ScanItems(b, i, heads, next, inner) == ScanItems(b, e + |GapText(g)|, heads + [link.head], link.next, inner)
  {
    hide LooseText, GapText, ValidLoose, ValidGap, Separated, ScanToken, ScanItems, SkipComma, Encode, LooseValue, At;
    var d, g, rest := items[0].doc, items[0].gap, items[1..];
    var e, tail := i + |LooseText(d)|, ItemsText(rest) + "]";
    assert ItemsText(items) + "]" == LooseText(d) + (GapText(g) + tail);
    AtSplit(b, i, LooseText(d), GapText(g) + tail);
    AtSplit(b, e, GapText(g), tail);
    LooseHead(d);
    AtHead(b, i, LooseText(d));
    if d.LNumber? {
      NumberEnds(b, e, items);
    }
    ItemsStart(rest);
    GapAt(b, e, g, tail);
    ItemTurn(b, i, heads, next, inner);
  }

  lemma {:induction false} ItemsTaken(b: string, i: nat, j: nat, items: seq<LooseItem>, heads: seq<Token>,
      next: seq<Token>, inner: Inner)
    requires ValidLooseItems(items) && SeparatedItems(items) && At(b, i, ItemsText(items) + "]")
    requires j < i <= |b| && Scans(b, j, inner)
    ensures ItemsRead(b, i, items, heads, next, ScanItems(b, i, heads, next, inner))
    decreases items, 1
  {
    hide LooseText, GapText, ValidLoose, ValidGap, Separated, ScanToken, ScanItems, Encode, LooseValue, At, Scans,
      ReadWhole, ContinuesNumber;
    if items == [] {
      assert ItemsText(items) + "]" == "]";
      AtHead(b, i, "]");
      ItemsEnd(b, i, heads, next, inner);
    } else {
      hide ItemsRead, ItemsText, SeparatedItems;
      var it, rest, link := items[0], items[1..], Encode(LooseValue(items[0].doc));
      var e := i + |LooseText(it.doc)|;
      FirstItem(items);
      TextAccepted(b, i, it.doc);
      ItemTaken(b, i, j, items, heads, next, inner);
      AtBounds(b, e + |GapText(it.gap)|, ItemsText(rest) + "]");
      ItemsTaken(b, e + |GapText(it.gap)|, j, rest, heads + [link.head], link.next, inner);
      FitsThere(b, i, it.doc, e);
      ItemsMore(b, i, it.doc, it.gap, link, e, rest, heads, next, ScanItems(b, i, heads, next, inner));
      assert items == [LooseItem(it.doc, it.gap)] + rest;
    }
  }

  lemma {:induction false} AtBounds(b: string, i: nat, s: string)
    requires At(b, i, s)
    ensures i + |s| <= |b|
  {}

  lemma {:induction false} FirstItem(items: seq<LooseItem>)
    requires items != [] && ValidLooseItems(items) && SeparatedItems(items)
    ensures ValidLoose(items[0].doc) && Separated(items[0].doc) && ValidGap(items[0].gap)
    ensures ValidLooseItems(items[1..]) && SeparatedItems(items[1..])
    ensures items[0].doc < items[0]
  {
    hide ValidLoose, Separated, ValidGap;
    var LooseItem(doc, gap) := items[0];
    assert doc < items[0];
  }

  lemma {:induction false} FitsThere(b: string, i: nat, d: Loose, e: nat)
    requires ValidLoose(d) && Separated(d) && At(b, i, LooseText(d)) && e == i + |LooseText(d)|
    requires d.LNumber? ==> !ContinuesNumber(Peek(b, e))
    ensures Fits(b, i, d, Encode(LooseValue(d)), e)
  {
    hide ValidLoose, Separated, At, LooseText, Encode, LooseValue, ContinuesNumber;
  }

  lemma {:induction false} EntriesStart(entries: seq<LooseEntry>)
    ensures var t := EntriesText(entries) + "}";
      t != "" && (entries == [] ==> t[0] == '}') && (entries != [] ==> t[0] == '"')
  {
    hide LooseText, GapText;
  }

  /** Where the parts of a member stand. */
  lemma {:induction false} EntryParts(b: string, i: nat, en: LooseEntry, rest: seq<LooseEntry>)
    requires At(b, i, EntriesText([en] + rest) + "}")
    ensures var v, tail := i + |KeyText(en.key, en.mid)|, EntriesText(rest) + "}";
      var end := v + |en.pre| + |LooseText(en.doc)|;
      && At(b, i, KeyText(en.key, en.mid)) && At(b, v, en.pre) && At(b, v + |en.pre|, LooseText(en.doc))
      && At(b, end, GapText(en.gap)) && At(b, end, GapText(en.gap) + tail) && At(b, end + |GapText(en.gap)|, tail)
  {
    hide LooseText, GapText, At, EntriesText, KeyText;
    var v, tail := i + |KeyText(en.key, en.mid)|, EntriesText(rest) + "}";
    EntryText(en, rest);
    AtSplit(b, i, KeyText(en.key, en.mid), en.pre + (LooseText(en.doc) + (GapText(en.gap) + tail)));
    AtSplit(b, v, en.pre, LooseText(en.doc) + (GapText(en.gap) + tail));
    AtSplit(b, v + |en.pre|, LooseText(en.doc), GapText(en.gap) + tail);
    AtSplit(b, v + |en.pre| + |LooseText(en.doc)|, GapText(en.gap), tail);
  }

  lemma {:induction false} KeyTaken(b: string, i: nat, key: string, mid: string)
    requires StringBody(key) && AllSpace(mid) && At(b, i, KeyText(key, mid))
    ensures i <= |b| && ScanKey(b, i) == Some((key, i + |KeyText(key, mid)|)) && Peek(b, i) == '"'
  {
    hide At, StringBody, AllSpace, ScanKey;
    assert KeyText(key, mid) == ("\"" + key + "\"") + (mid + (":" + ""));
    AtBounds(b, i, KeyText(key, mid));
    Reading.KeyAt(b, i, key, mid, "");
  }

  /** One member is read up to the next one. */
  lemma {:induction false} EntryTaken(b: string, i: nat, j: nat, en: LooseEntry, rest: seq<LooseEntry>,
      keys: seq<Token>, inner: Inner)
    requires StringBody(en.key) && AllSpace(en.mid) && AllSpace(en.pre) && ValidLoose(en.doc) && ValidGap(en.gap)
    requires At(b, i, EntriesText([en] + rest) + "}") && j < i <= |b| && Scans(b, j, inner)
    requires ReadWhole(b, i + |KeyText(en.key, en.mid)| + |en.pre|, en.doc)
    ensures var end := i + |KeyText(en.key, en.mid)| + |en.pre| + |LooseText(en.doc)|;
      && !ContinuesNumber(Peek(b, end))
      && ScanMembers(b, i, keys, inner) == ScanMembers(b, end + |GapText(en.gap)|,
           keys + [Token(STRING, Some(en.key), Encode(LooseValue(en.doc)).Chain())], inner)
  {
    hide LooseText, GapText, ValidLoose, ValidGap, ScanToken, ScanMembers, ScanKey, SkipComma, Encode, LooseValue, At,
      AllSpace, StringBody, Link.Chain, EntriesText, KeyText, ContinuesNumber;
    var v, tail := i + |KeyText(en.key, en.mid)|, EntriesText(rest) + "}";
    var end := v + |en.pre| + |LooseText(en.doc)|;
    EntryParts(b, i, en, rest);
    KeyTaken(b, i, en.key, en.mid);
    EntriesStart(rest);
    GapStart(b, end, en.gap, tail);
    GapAt(b, end, en.gap, tail);
    ValueTaken(b, v, en.pre, en.doc);
    MemberTurn(b, i, keys, inner);
  }

  lemma {:induction false} ValueTaken(b: string, v: nat, pre: string, d: Loose)
    requires AllSpace(pre) && ValidLoose(d) && At(b, v, pre) && At(b, v + |pre|, LooseText(d))
    requires ReadWhole(b, v + |pre|, d) && !ContinuesNumber(Peek(b, v + |pre| + |LooseText(d)|))
    ensures v < |b| && ScanToken(b, v) == Done(Encode(LooseValue(d)), v + |pre| + |LooseText(d)|)
  {
    hide LooseText, ValidLoose, ScanToken, Encode, LooseValue, At, AllSpace, ContinuesNumber;
    AtBounds(b, v, pre);
    AtBounds(b, v + |pre|, LooseText(d));
    LooseHead(d);
    Reading.ScanTokenSkips(b, v, pre);
  }

  lemma {:induction false} GapStart(b: string, i: nat, g: Gap, t: string)
    requires ValidGap(g) && At(b, i, GapText(g) + t) && t != "" && (t[0] == '}' || t[0] == '"')
    ensures !ContinuesNumber(Peek(b, i))
  {
    AtHead(b, i, GapText(g) + t);
  }

  lemma {:induction false} FirstEntry(entries: seq<LooseEntry>)
    requires entries != [] && ValidLooseEntries(entries) && SeparatedEntries(entries)
    ensures var e := entries[0];
      && StringBody(e.key) && AllSpace(e.mid) && AllSpace(e.pre)
      && ValidLoose(e.doc) && Separated(e.doc) && ValidGap(e.gap)
    ensures ValidLooseEntries(entries[1..]) && SeparatedEntries(entries[1..])
    ensures [entries[0]] + entries[1..] == entries
  {
    hide ValidLoose, Separated, ValidGap, StringBody, AllSpace;
  }

  lemma {:induction false} EntriesTaken(b: string, i: nat, j: nat, entries: seq<LooseEntry>, keys: seq<Token>,
      inner: Inner)
    requires ValidLooseEntries(entries) && SeparatedEntries(entries) && At(b, i, EntriesText(entries) + "}")
    requires j < i <= |b| && Scans(b, j, inner)
    ensures EntriesRead(b, i, entries, keys, ScanMembers(b, i, keys, inner))
    decreases entries, 1
  {
    hide LooseText, GapText, ValidLoose, ValidGap, Separated, ScanToken, ScanMembers, Encode, LooseValue, At, Scans,
      ReadWhole, ContinuesNumber, KeyText, StringBody, AllSpace, Link.Chain;
    if entries == [] {
      assert EntriesText(entries) + "}" == "}";
      AtHead(b, i, "}");
      MembersEnd(b, i, keys, inner);
      assert keys + EncodeMembers(LooseMembers(entries)) == keys;
    } else {
      hide EntriesRead, EntriesText, SeparatedEntries, ValidLooseEntries;
      var en, rest, link := entries[0], entries[1..], Encode(LooseValue(entries[0].doc));
      var v := i + |KeyText(en.key, en.mid)|;
      var end := v + |en.pre| + |LooseText(en.doc)|;
      FirstEntry(entries);
      EntryParts(b, i, en, rest);
      TextAccepted(b, v + |en.pre|, en.doc);
      EntryTaken(b, i, j, en, rest, keys, inner);
      AtBounds(b, end + |GapText(en.gap)|, EntriesText(rest) + "}");
      EntriesTaken(b, end + |GapText(en.gap)|, j, rest, keys + [Token(STRING, Some(en.key), link.Chain())], inner);
      FitsThere(b, v + |en.pre|, en.doc, end);
      EntriesMore(b, i, en, v, link, end, rest, keys, ScanMembers(b, i, keys, inner));
    }
  }

  lemma {:induction false} BracketOpens(b: string, k: nat, c: char, open: string, t: string)
    requires k <= |b| && At(b, k, [c] + (open + t)) && !IsSpace(c) && AllSpace(open) && t != "" && !IsSpace(t[0])
    ensures SkipSpace(b, k) == k && Peek(b, k) == c && k < |b|
    ensures SkipSpace(b, k + 1) == k + 1 + |open| <= |b| && At(b, k + 1 + |open|, t)
  {
    hide SkipSpace, At, AllSpace;
    Reading.BracketAt(b, k, c, open + t);
    SkipTo(b, k + 1, open, t);
  }

  lemma {:induction false} ArrayAccepted(b: string, k: nat, open: string, items: seq<LooseItem>)
    requires k <= |b| && AllSpace(open) && ValidLooseItems(items) && SeparatedItems(items)
    requires At(b, k, "[" + (open + (ItemsText(items) + "]")))
    ensures ScanToken(b, k) == Done(Encode(Array(LooseValues(items))), k + |open| + |ItemsText(items)| + 2)
    decreases items, 3
  {
    hide ScanToken, ItemsText, LooseValues, EncodeItems, ValidLooseItems, SeparatedItems, SkipSpace, At, AllSpace,
      ScanItems;
    ItemsStart(items);
    BracketOpens(b, k, '[', open, ItemsText(items) + "]");
    var inner := ArrayStart(b, k);
    ItemsTaken(b, k + 1 + |open|, k, items, [], [], inner);
    NoValues(items);
  }

  lemma {:induction false} ObjectAccepted(b: string, k: nat, open: string, entries: seq<LooseEntry>)
    requires k <= |b| && AllSpace(open) && ValidLooseEntries(entries) && SeparatedEntries(entries)
    requires At(b, k, "{" + (open + (EntriesText(entries) + "}")))
    ensures ScanToken(b, k) == Done(Encode(Object(LooseMembers(entries))), k + |open| + |EntriesText(entries)| + 2)
    decreases entries, 3
  {
    hide ScanToken, EntriesText, LooseMembers, EncodeMembers, ValidLooseEntries, SeparatedEntries, SkipSpace, At,
      AllSpace, ScanMembers;
    EntriesStart(entries);
    BracketOpens(b, k, '{', open, EntriesText(entries) + "}");
    var inner := ObjectStart(b, k);
    EntriesTaken(b, k + 1 + |open|, k, entries, [], inner);
    assert [] + EncodeMembers(LooseMembers(entries)) == EncodeMembers(LooseMembers(entries));
  }

  lemma {:induction false} LeafAccepted(b: string, k: nat, d: Loose)
    requires ValidLoose(d) && !d.LArray? && !d.LObject? && k <= |b| && At(b, k, LooseText(d))
    requires d.LNumber? ==> !ContinuesNumber(Peek(b, k + |LooseText(d)|))
    ensures ScanToken(b, k) == Done(Encode(LooseValue(d)), k + |LooseText(d)|)
  {
    hide ScanLeaf, ScanItems, ScanMembers, LooseText, LooseValue, Encode, ValidLoose, ContinuesNumber;
    LooseHead(d);
    AtHead(b, k, LooseText(d));
    LeafAt(b, k, d);
  }

  lemma {:induction false} TextAccepted(b: string, k: nat, d: Loose)
    requires ValidLoose(d) && Separated(d)
    ensures ReadWhole(b, k, d)
    decreases d, 0
  {
    hide ScanToken, At, ContinuesNumber;
    if k <= |b| && At(b, k, LooseText(d)) && (d.LNumber? ==> !ContinuesNumber(Peek(b, k + |LooseText(d)|))) {
      match d
      case LArray(open, items) => ArrayAccepted(b, k, open, items);
      case LObject(open, entries) => ObjectAccepted(b, k, open, entries);
      case _ => LeafAccepted(b, k, d);
    }
  }

  /** From `i` stand space and a separated loose text that ends at `e`, with the tokens `link`. */
  ghost predicate LooseAt(b: string, i: nat, pre: string, d: Loose, link: Link, e: nat)
  {
    && AllSpace(pre) && ValidLoose(d) && Separated(d) && At(b, i, pre + LooseText(d)) && e == i + |pre + LooseText(d)|
    && link == Encode(LooseValue(d)) && (d.LNumber? ==> !ContinuesNumber(Peek(b, e)))
  }

  lemma {:induction false} LooseAccepted(b: string, i: nat, pre: string, d: Loose, link: Link, e: nat)
    requires i <= |b| && LooseAt(b, i, pre, d, link, e)
    ensures ScanToken(b, i) == Done(link, e)
  {
    hide ScanToken, ValidLoose, Separated, LooseText, LooseValue, Encode, At, AllSpace, ContinuesNumber;
    AtSplit(b, i, pre, LooseText(d));
    AtBounds(b, i, pre);
    Reading.ScanTokenSkips(b, i, pre);
    TextAccepted(b, i + |pre|, d);
  }

  /** The scanner accepts exactly the loose texts in which no number runs into another, and their
      tokens are those of the value. */
  lemma {:induction false} AcceptsLoose(b: string, i: nat, link: Link, e: nat)
    requires i <= |b|
    ensures ScanToken(b, i) == Done(link, e) <==> exists pre, d :: LooseAt(b, i, pre, d, link, e)
  {
    hide ScanToken, ValidLoose, Separated, LooseText, LooseValue, Encode, At, AllSpace, ContinuesNumber;
    if ScanToken(b, i) == Done(link, e) {
      var pre, d := ScanIs(b, i);
      AtJoin(b, i, pre, LooseText(d));
      assert LooseAt(b, i, pre, d, link, e);
    }
    forall pre, d | LooseAt(b, i, pre, d, link, e) ensures ScanToken(b, i) == Done(link, e) {
      LooseAccepted(b, i, pre, d, link, e);
    }
  }

  // ---- texts that are not JSON ----

  function Digit(c: char): Loose
  {
    LNumber(false, [c], [])
  }

  lemma {:induction false} DigitIs(c: char)
    requires IsDigit(c)
    ensures ValidLoose(Digit(c)) && Separated(Digit(c)) && LooseText(Digit(c)) == [c]
    ensures LooseValue(Digit(c)) == Number([c])
  {
    assert PiecesText([]) == "" && Spelling(false, [c], []) == [c];
  }

  lemma {:induction false} OneItem(c: char, g: Gap)
    requires IsDigit(c) && ValidGap(g)
    ensures var items := [LooseItem(Digit(c), g)];
      && ItemsText(items) == [c] + GapText(g) && LooseValues(items) == [Number([c])]
      && ValidLooseItems(items) && SeparatedItems(items)
  {
    hide GapText, ValidGap, LooseText, LooseValue, ValidLoose, Separated;
    DigitIs(c);
    var items := [LooseItem(Digit(c), g)];
    assert items[1..] == [];
    assert ItemsText(items[1..]) == "" && LooseValues(items[1..]) == [];
  }

  lemma {:induction false} TwoItems(c: char, d: char, g: Gap)
    requires IsDigit(c) && IsDigit(d) && ValidGap(g)
    ensures var items := [LooseItem(Digit(c), g), LooseItem(Digit(d), Gap("", None))];
      && ItemsText(items) == [c] + GapText(g) + [d] && LooseValues(items) == [Number([c]), Number([d])]
      && ValidLooseItems(items) && (SeparatedItems(items) <==> GapText(g) != "")
  {
    hide GapText, ValidGap, LooseText, LooseValue, ValidLoose, Separated;
    var none := Gap("", None);
    NoGap();
    DigitIs(c);
    OneItem(d, none);
    var items := [LooseItem(Digit(c), g), LooseItem(Digit(d), none)];
    assert items[1..] == [LooseItem(Digit(d), none)];
    assert ItemsText(items) == LooseText(Digit(c)) + (GapText(g) + ItemsText(items[1..]));
  }

  lemma NoGap()
    ensures GapText(Gap("", None)) == "" && ValidGap(Gap("", None))
  {}

  /** A text read as an array of the given items. */
  lemma {:induction false} ArrayRead(b: string, items: seq<LooseItem>)
    requires b == "[" + ItemsText(items) + "]" && ValidLooseItems(items) && SeparatedItems(items)
    ensures ScanToken(b, 0) == Done(Encode(Array(LooseValues(items))), |b|)
  {
    hide ItemsText, ScanToken, LooseValues, EncodeItems, ValidLooseItems, SeparatedItems;
    var d := LArray("", items);
    assert LooseText(d) == b && "" + LooseText(d) == b;
    LooseAccepted(b, 0, "", d, Encode(LooseValue(d)), |b|);
  }

  /** Without the comma. */
  lemma {:induction false} NoComma()
    ensures ScanToken("[1 2]", 0) == Done(Encode(Array([Number("1"), Number("2")])), 5)
  {
    hide ScanToken, ItemsText, LooseValues, EncodeItems, ValidLooseItems, SeparatedItems;
    TwoItems('1', '2', Gap(" ", None));
    ArrayRead("[1 2]", [LooseItem(Digit('1'), Gap(" ", None)), LooseItem(Digit('2'), Gap("", None))]);
  }

  /** With a comma after the last element. */
  lemma {:induction false} LastComma()
    ensures ScanToken("[1,]", 0) == Done(Encode(Array([Number("1")])), 4)
  {
    hide ScanToken, ItemsText, LooseValues, EncodeItems, ValidLooseItems, SeparatedItems;
    OneItem('1', Gap("", Some("")));
    ArrayRead("[1,]", [LooseItem(Digit('1'), Gap("", Some("")))]);
  }

  /** Two numbers that touch are read as one. */
  lemma {:induction false} TouchingNumbers()
    ensures var items := [LooseItem(Digit('1'), Gap("", None)), LooseItem(Digit('2'), Gap("", None))];
      && ValidLooseItems(items) && !SeparatedItems(items) && "[" + ItemsText(items) + "]" == "[12]"
      && ScanToken("[12]", 0) == Done(Encode(Array([Number("12")])), 4)
  {
    hide ScanToken, ItemsText, LooseValues, EncodeItems, ValidLooseItems, SeparatedItems;
    NoGap();
    TwoItems('1', '2', Gap("", None));
    Twelve();
    ArrayRead("[12]", [LooseItem(LNumber(false, "12", []), Gap("", None))]);
  }

  lemma {:induction false} Twelve()
    ensures var items := [LooseItem(LNumber(false, "12", []), Gap("", None))];
      && ItemsText(items) == "12" && LooseValues(items) == [Number("12")]
      && ValidLooseItems(items) && SeparatedItems(items)
  {
    var items := [LooseItem(LNumber(false, "12", []), Gap("", None))];
    assert PiecesText([]) == "" && Spelling(false, "12", []) == "12";
    assert items[1..] == [];
    assert ItemsText(items[1..]) == "" && LooseValues(items[1..]) == [];
  }
}
