/** Every text of module Grammar is scanned to its end, into the tokens of its value. */
module Reading {
  import opened Json
  import opened Options
  import opened Buffers
  import opened Scanner
  import opened Grammar

  predicate IsDelimiter(c: char)
  {
    IsSpace(c) || c == ',' || c == ']' || c == '}' || c == NUL
  }

  lemma {:induction false} RenderHead(d: Doc)
    requires Valid(d)
    ensures Render(d) != ""
    ensures !IsSpace(Render(d)[0]) && !IsDelimiter(Render(d)[0])
    ensures d.DNull? ==> Render(d)[0] == 'n'
    ensures d.DBool? ==> Render(d)[0] == if d.truth then 't' else 'f'
    ensures d.DText? ==> Render(d)[0] == '"'
    ensures d.DNumber? ==> Render(d)[0] == '-' || IsDigit(Render(d)[0])
    ensures d.DArray? ==> Render(d)[0] == '['
    ensures d.DObject? ==> Render(d)[0] == '{'
  {
    match d
    case DNumber(neg, whole, frac, exp) =>
      if !neg {
        assert Render(d) == Magnitude(whole, frac, exp);
        assert Render(d)[0] == whole[0];
      }
    case _ =>
  }

  /** After `post` comes a delimiter, whether or not `post` is empty. */
  lemma {:induction false} DelimiterAt(b: string, i: nat, post: string, rest: string)
    requires AllSpace(post) && At(b, i, post + rest) && rest != "" && IsDelimiter(rest[0])
    ensures IsDelimiter(Peek(b, i)) && !ContinuesNumber(Peek(b, i))
  {
    AtSplit(b, i, post, rest);
    if post == "" {
      AtHead(b, i, rest);
    } else {
      AtHead(b, i, post);
    }
  }

  /** Text `t` with space before and after it, up to a delimiter: where the cursor goes. */
  lemma {:induction false} SpacedAt(b: string, i: nat, pre: string, t: string, post: string, rest: string)
    requires AllSpace(pre) && AllSpace(post) && At(b, i, pre + (t + (post + rest)))
    requires t != "" && !IsSpace(t[0])
    requires rest != "" && IsDelimiter(rest[0]) && !IsSpace(rest[0])
    ensures SkipSpace(b, i) == i + |pre| && Peek(b, i + |pre|) == t[0] && At(b, i + |pre|, t)
    ensures !ContinuesNumber(Peek(b, i + |pre| + |t|))
    ensures SkipSpace(b, i + |pre| + |t|) == i + |pre| + |t| + |post|
    ensures At(b, i + |pre| + |t| + |post|, rest) && Peek(b, i + |pre| + |t| + |post|) == rest[0]
  {
    hide SkipSpace, AllSpace, At;
    var k := i + |pre|;
    SkipTo(b, i, pre, t + (post + rest));
    AtSplit(b, k, t, post + rest);
    AtHead(b, k, t);
    DelimiterAt(b, k + |t|, post, rest);
    SkipTo(b, k + |t|, post, rest);
    AtHead(b, k + |t| + |post|, rest);
  }

  lemma {:induction false} CommaAt(b: string, e: nat, p: nat, rest: string)
    requires e <= |b| && SkipSpace(b, e) == p && At(b, p, rest) && rest != ""
    ensures rest[0] == ',' ==> p < |b| && SkipComma(b, e) == SkipSpace(b, p + 1)
    ensures rest[0] != ',' ==> SkipComma(b, e) == p
  {
    AtHead(b, p, rest);
  }

  // ---- arrays ----

  /** An element with text `t` and space around it, read as `link`, up to what follows. */
  lemma {:induction false} ItemAt(b: string, i: nat, pre: string, t: string, post: string, rest: string,
                                  heads: seq<Token>, next: seq<Token>, link: Link, inner: Inner)
    requires AllSpace(pre) && AllSpace(post) && At(b, i, pre + (t + (post + rest)))
    requires t != "" && !IsDelimiter(t[0])
    requires rest != "" && IsDelimiter(rest[0]) && !IsSpace(rest[0])
    requires inner(i + |pre|) == Done(link, i + |pre| + |t|)
    ensures At(b, i + |pre| + |t| + |post|, rest) && SkipSpace(b, i + |pre| + |t|) == i + |pre| + |t| + |post|
    ensures ScanItems(b, SkipSpace(b, i), heads, next, inner)
      == ScanItems(b, SkipComma(b, i + |pre| + |t|), heads + [link.head], link.next, inner)
  {
    hide SkipSpace, SkipComma, ScanItems, AllSpace;
    SpacedAt(b, i, pre, t, post, rest);
    ItemTurn(b, i + |pre|, heads, next, inner);
  }

  lemma {:induction false} LastItem(b: string, p: nat, heads: seq<Token>, link: Link, inner: Inner)
    requires At(b, p, "]")
    ensures ScanItems(b, p, heads + [link.head], link.next, inner)
         == Done(Link(Token(ARRAY, None, heads + link.Chain()), []), p + 1)
  {
    AtHead(b, p, "]");
    assert heads + [link.head] + link.next == heads + link.Chain();
  }

  lemma {:induction false} ItemThenBracket(b: string, i: nat, pre: string, t: string, post: string,
                                           heads: seq<Token>, next: seq<Token>, link: Link, inner: Inner)
    requires AllSpace(pre) && AllSpace(post) && At(b, i, pre + (t + (post + "]")))
    requires t != "" && !IsDelimiter(t[0])
    requires inner(i + |pre|) == Done(link, i + |pre| + |t|)
    ensures ScanItems(b, SkipSpace(b, i), heads, next, inner)
         == Done(Link(Token(ARRAY, None, heads + link.Chain()), []), i + |pre| + |t| + |post| + 1)
  {
    hide SkipSpace, SkipComma, ScanItems, AllSpace, At;
    ItemAt(b, i, pre, t, post, "]", heads, next, link, inner);
    CommaAt(b, i + |pre| + |t|, i + |pre| + |t| + |post|, "]");
    LastItem(b, i + |pre| + |t| + |post|, heads, link, inner);
  }

  lemma {:induction false} ItemThenComma(b: string, i: nat, pre: string, t: string, post: string, more: string,
                                         heads: seq<Token>, next: seq<Token>, link: Link, inner: Inner)
    requires AllSpace(pre) && AllSpace(post) && At(b, i, pre + (t + (post + ("," + more))))
    requires t != "" && !IsDelimiter(t[0])
    requires inner(i + |pre|) == Done(link, i + |pre| + |t|)
    ensures At(b, i + |pre| + |t| + |post| + 1, more)
    ensures ScanItems(b, SkipSpace(b, i), heads, next, inner)
      == ScanItems(b, SkipSpace(b, i + |pre| + |t| + |post| + 1), heads + [link.head], link.next, inner)
  {
    hide SkipSpace, SkipComma, ScanItems, AllSpace, At;
    ItemAt(b, i, pre, t, post, "," + more, heads, next, link, inner);
    CommaAt(b, i + |pre| + |t|, i + |pre| + |t| + |post|, "," + more);
    AtSplit(b, i + |pre| + |t| + |post|, ",", more);
  }

  // ---- all documents ----

  /** The reading of `d` at `k` succeeds, provided that what follows cannot extend a number. */
  ghost predicate ReadsTo(b: string, k: nat, d: Doc)
  {
    k <= |b| && At(b, k, Render(d)) && !ContinuesNumber(Peek(b, k + |Render(d)|)) ==>
      ScanToken(b, k) == Done(Encode(Meaning(d)), k + |Render(d)|)
  }

  /** What the scanner makes of `d` at the place where it stands, with space before and after. */
  lemma {:induction false} DocReads(b: string, i: nat, pre: string, d: Doc, post: string, rest: string, inner: Inner)
    requires Valid(d) && AllSpace(pre) && AllSpace(post)
    requires At(b, i, pre + (Render(d) + (post + rest)))
    requires rest != "" && IsDelimiter(rest[0]) && !IsSpace(rest[0])
    requires ReadsTo(b, i + |pre|, d) && Scans(b, i - 1, inner)
    ensures Render(d) != "" && !IsDelimiter(Render(d)[0])
    ensures inner(i + |pre|) == Done(Encode(Meaning(d)), i + |pre| + |Render(d)|)
  {
    hide Render, ScanToken, Encode, Meaning, Valid, SkipSpace, AllSpace;
    RenderHead(d);
    SpacedAt(b, i, pre, Render(d), post, rest);
  }

  function ItemText(it: Item, rest: string): string
  {
    it.pre + (Render(it.doc) + (it.post + rest))
  }

  function ItemLength(it: Item): nat
  {
    |it.pre| + |Render(it.doc)| + |it.post|
  }

  lemma {:induction false} OneItem(b: string, i: nat, it: Item, heads: seq<Token>, next: seq<Token>, inner: Inner)
    requires ValidItem(it) && At(b, i, ItemText(it, "]"))
    requires ReadsTo(b, i + |it.pre|, it.doc) && Scans(b, i - 1, inner)
    ensures ScanItems(b, SkipSpace(b, i), heads, next, inner)
         == Done(Link(Token(ARRAY, None, heads + Encode(Meaning(it.doc)).Chain()), []), i + ItemLength(it) + 1)
  {
    hide Render, Meaning, Encode, ScanToken, ScanItems, ReadsTo, Scans, SkipSpace, Valid, Link.Chain;
    DocReads(b, i, it.pre, it.doc, it.post, "]", inner);
    ItemThenBracket(b, i, it.pre, Render(it.doc), it.post, heads, next, Encode(Meaning(it.doc)), inner);
  }

  lemma {:induction false} MoreItems(b: string, i: nat, it: Item, more: string,
                                     heads: seq<Token>, next: seq<Token>, inner: Inner)
    requires ValidItem(it) && At(b, i, ItemText(it, "," + more))
    requires ReadsTo(b, i + |it.pre|, it.doc) && Scans(b, i - 1, inner)
    ensures At(b, i + ItemLength(it) + 1, more)
    ensures ScanItems(b, SkipSpace(b, i), heads, next, inner)
         == ScanItems(b, SkipSpace(b, i + ItemLength(it) + 1),
                      heads + [Encode(Meaning(it.doc)).head], Encode(Meaning(it.doc)).next, inner)
  {
    hide Render, Meaning, Encode, ScanToken, ScanItems, ReadsTo, Scans, SkipSpace, Valid;
    DocReads(b, i, it.pre, it.doc, it.post, "," + more, inner);
    ItemThenComma(b, i, it.pre, Render(it.doc), it.post, more, heads, next, Encode(Meaning(it.doc)), inner);
  }

  lemma {:induction false} ItemsSplit(items: seq<Item>)
    requires |items| > 1
    ensures RenderItems(items) + "]" == ItemText(items[0], "," + (RenderItems(items[1..]) + "]"))
    ensures |RenderItems(items)| == ItemLength(items[0]) + 1 + |RenderItems(items[1..])|
  {
  }

  lemma {:induction false} ValuesSplit(items: seq<Item>, heads: seq<Token>)
    requires |items| > 1
    ensures heads + EncodeItems(ItemValues(items))
         == heads + [Encode(Meaning(items[0].doc)).head] + EncodeItems(ItemValues(items[1..]))
  {
    assert ItemValues(items)[1..] == ItemValues(items[1..]);
  }

  lemma {:induction false} ItemsSingle(items: seq<Item>)
    requires |items| == 1
    ensures RenderItems(items) + "]" == ItemText(items[0], "]") && |RenderItems(items)| == ItemLength(items[0])
    ensures EncodeItems(ItemValues(items)) == Encode(Meaning(items[0].doc)).Chain()
  {
  }

  lemma {:induction false} ScanItemsRendered(b: string, i: nat, items: seq<Item>, heads: seq<Token>, next: seq<Token>,
      inner: Inner)
    requires items != [] && ValidItems(items) && At(b, i, RenderItems(items) + "]")
    requires Scans(b, i - 1, inner)
    ensures ScanItems(b, SkipSpace(b, i), heads, next, inner)
         == Done(Link(Token(ARRAY, None, heads + EncodeItems(ItemValues(items))), []), i + |RenderItems(items)| + 1)
    decreases items, 1
  {
    hide Render, Meaning, Encode, ScanToken, ScanItems, ReadsTo, RenderItems, EncodeItems, ItemValues, At;
    var it := items[0];
    ScanRendered(b, i + |it.pre|, it.doc);
    if |items| == 1 {
      ItemsSingle(items);
      OneItem(b, i, it, heads, next, inner);
    } else {
      var link := Encode(Meaning(it.doc));
      ItemsSplit(items);
      MoreItems(b, i, it, RenderItems(items[1..]) + "]", heads, next, inner);
      ScanItemsRendered(b, i + ItemLength(it) + 1, items[1..], heads + [link.head], link.next, inner);
      ValuesSplit(items, heads);
    }
  }

  // ---- objects ----

  lemma {:induction false} KeyAt(b: string, i: nat, key: string, mid: string, rest: string)
    requires StringBody(key) && AllSpace(mid) && At(b, i, ("\"" + key + "\"") + (mid + (":" + rest)))
    ensures ScanKey(b, i) == Some((key, i + |key| + |mid| + 3)) && Peek(b, i) == '"'
    ensures At(b, i + |key| + |mid| + 3, rest)
  {
    hide ScanString, SkipSpace, At, StringBody;
    AtSplit(b, i, "\"" + key + "\"", mid + (":" + rest));
    AtHead(b, i, "\"" + key + "\"");
    StringAt(b, i, key);
    SkipTo(b, i + |key| + 2, mid, ":" + rest);
    AtSplit(b, i + |key| + 2 + |mid|, ":", rest);
    AtHead(b, i + |key| + 2 + |mid|, ":");
  }

  /** A member read up to the space after its value, the value having been read as `link`. */
  lemma {:induction false} MemberAt(b: string, i: nat, key: string, mid: string, gap: string, t: string, post: string,
                                    rest: string, keys: seq<Token>, link: Link, inner: Inner)
    requires StringBody(key) && AllSpace(mid) && AllSpace(gap) && AllSpace(post)
    requires At(b, i, ("\"" + key + "\"") + (mid + (":" + (gap + (t + (post + rest))))))
    requires t != "" && !IsSpace(t[0])
    requires rest != "" && IsDelimiter(rest[0]) && !IsSpace(rest[0])
    requires inner(i + |key| + |mid| + 3) == Done(link, i + |key| + |mid| + 3 + |gap| + |t|)
    ensures At(b, i + |key| + |mid| + 3 + |gap| + |t| + |post|, rest)
    ensures SkipSpace(b, i + |key| + |mid| + 3 + |gap| + |t|) == i + |key| + |mid| + 3 + |gap| + |t| + |post|
    ensures ScanMembers(b, i, keys, inner)
         == ScanMembers(b, SkipComma(b, i + |key| + |mid| + 3 + |gap| + |t|),
                        keys + [Token(STRING, Some(key), link.Chain())], inner)
  {
    hide ScanMembers, ScanKey, SkipSpace, SkipComma;
    var v := i + |key| + |mid| + 3;
    KeyAt(b, i, key, mid, gap + (t + (post + rest)));
    SpacedAt(b, v, gap, t, post, rest);
    MemberTurn(b, i, keys, inner);
  }

  function EntryTail(e: Entry, rest: string): string
  {
    ("\"" + e.key + "\"") + (e.mid + (":" + (e.gap + (Render(e.doc) + (e.post + rest)))))
  }

  /** Where the text of the member's value starts, counted from its opening quote. */
  function ValueOffset(e: Entry): nat
  {
    |e.key| + |e.mid| + 3
  }

  function EntryLength(e: Entry): nat
  {
    |e.pre| + ValueOffset(e) + |e.gap| + |Render(e.doc)| + |e.post|
  }

  function KeyToken(e: Entry): Token
  {
    Token(STRING, Some(e.key), Encode(Meaning(e.doc)).Chain())
  }

  /** Space before a value does not change what is read. */
  lemma {:induction false} ScanTokenSkips(b: string, i: nat, gap: string)
    requires At(b, i, gap) && AllSpace(gap)
    ensures ScanToken(b, i) == ScanToken(b, i + |gap|)
  {
    SkipRun(b, i, gap);
  }

  /** What the scanner makes of the member's value, from just after the colon. */
  lemma {:induction false} ValueReads(b: string, j: nat, v: nat, gap: string, d: Doc, post: string, rest: string,
      inner: Inner)
    requires Valid(d) && AllSpace(gap) && AllSpace(post) && j < v
    requires At(b, v, gap + (Render(d) + (post + rest)))
    requires rest != "" && IsDelimiter(rest[0]) && !IsSpace(rest[0])
    requires ReadsTo(b, v + |gap|, d) && Scans(b, j, inner)
    ensures Render(d) != "" && !IsDelimiter(Render(d)[0])
    ensures inner(v) == Done(Encode(Meaning(d)), v + |gap| + |Render(d)|)
  {
    hide ScanToken, Encode, Meaning, Render, Valid, SkipSpace;
    RenderHead(d);
    AtSplit(b, v, gap, Render(d) + (post + rest));
    ScanTokenSkips(b, v, gap);
    SpacedAt(b, v, gap, Render(d), post, rest);
  }

  lemma {:induction false} EntryReads(b: string, i: nat, j: nat, e: Entry, rest: string, keys: seq<Token>, inner: Inner)
    requires ValidEntry(e) && At(b, i, e.pre + EntryTail(e, rest)) && j <= i
    requires rest != "" && IsDelimiter(rest[0]) && !IsSpace(rest[0])
    requires ReadsTo(b, i + |e.pre| + ValueOffset(e) + |e.gap|, e.doc) && Scans(b, j, inner)
    ensures At(b, i + EntryLength(e), rest)
    ensures SkipSpace(b, i + EntryLength(e) - |e.post|) == i + EntryLength(e)
    ensures ScanMembers(b, SkipSpace(b, i), keys, inner)
         == ScanMembers(b, SkipComma(b, i + EntryLength(e) - |e.post|), keys + [KeyToken(e)], inner)
  {
    hide ScanToken, Encode, Meaning, Render, Valid, SkipSpace, SkipComma;
    hide ReadsTo, Scans, ScanMembers, ScanKey, At, AllSpace, StringBody, Link.Chain;
    var p := i + |e.pre|;
    SkipTo(b, i, e.pre, EntryTail(e, rest));
    KeyAt(b, p, e.key, e.mid, e.gap + (Render(e.doc) + (e.post + rest)));
    ValueReads(b, j, p + ValueOffset(e), e.gap, e.doc, e.post, rest, inner);
    MemberAt(b, p, e.key, e.mid, e.gap, Render(e.doc), e.post, rest, keys, Encode(Meaning(e.doc)), inner);
  }

  lemma {:induction false} OneEntry(b: string, i: nat, j: nat, e: Entry, keys: seq<Token>, inner: Inner)
    requires ValidEntry(e) && At(b, i, e.pre + EntryTail(e, "}")) && j <= i
    requires ReadsTo(b, i + |e.pre| + ValueOffset(e) + |e.gap|, e.doc) && Scans(b, j, inner)
    ensures ScanMembers(b, SkipSpace(b, i), keys, inner)
         == Done(Link(Token(OBJECT, None, []), keys + [KeyToken(e)]), i + EntryLength(e) + 1)
  {
    hide ScanToken, Encode, Meaning, Render, Valid, SkipSpace, ReadsTo;
    hide Scans, ScanKey, At, AllSpace, StringBody, Link.Chain, KeyToken;
    EntryReads(b, i, j, e, "}", keys, inner);
    CommaAt(b, i + EntryLength(e) - |e.post|, i + EntryLength(e), "}");
    AtHead(b, i + EntryLength(e), "}");
  }

  lemma {:induction false} MoreEntries(b: string, i: nat, j: nat, e: Entry, more: string, keys: seq<Token>,
      inner: Inner)
    requires ValidEntry(e) && At(b, i, e.pre + EntryTail(e, "," + more)) && j <= i
    requires ReadsTo(b, i + |e.pre| + ValueOffset(e) + |e.gap|, e.doc) && Scans(b, j, inner)
    ensures At(b, i + EntryLength(e) + 1, more)
    ensures ScanMembers(b, SkipSpace(b, i), keys, inner)
         == ScanMembers(b, SkipSpace(b, i + EntryLength(e) + 1), keys + [KeyToken(e)], inner)
  {
    hide ScanToken, Encode, Meaning, Render, Valid, SkipSpace, ReadsTo;
    hide Scans, ScanKey, At, AllSpace, StringBody, Link.Chain, ScanMembers, KeyToken;
    EntryReads(b, i, j, e, "," + more, keys, inner);
    CommaAt(b, i + EntryLength(e) - |e.post|, i + EntryLength(e), "," + more);
    AtSplit(b, i + EntryLength(e), ",", more);
  }

  lemma {:induction false} EntriesSplit(entries: seq<Entry>)
    requires |entries| > 1
    ensures RenderEntries(entries) + "}"
         == entries[0].pre + EntryTail(entries[0], "," + (RenderEntries(entries[1..]) + "}"))
    ensures |RenderEntries(entries)| == EntryLength(entries[0]) + 1 + |RenderEntries(entries[1..])|
  {
    hide Render;
  }

  lemma {:induction false} EntriesSingle(entries: seq<Entry>)
    requires |entries| == 1
    ensures RenderEntries(entries) + "}" == entries[0].pre + EntryTail(entries[0], "}")
    ensures |RenderEntries(entries)| == EntryLength(entries[0])
  {
    hide Render;
  }

  lemma {:induction false} MembersSplit(entries: seq<Entry>, keys: seq<Token>)
    requires entries != []
    ensures keys + EncodeMembers(EntryMembers(entries))
         == keys + [KeyToken(entries[0])] + EncodeMembers(EntryMembers(entries[1..]))
  {
    hide Encode, Meaning;
    assert EntryMembers(entries)[1..] == EntryMembers(entries[1..]);
  }

  lemma {:induction false} ScanEntriesRendered(b: string, i: nat, j: nat, entries: seq<Entry>, keys: seq<Token>,
      inner: Inner)
    requires entries != [] && ValidEntries(entries) && At(b, i, RenderEntries(entries) + "}")
    requires j <= i && Scans(b, j, inner)
    ensures ScanMembers(b, SkipSpace(b, i), keys, inner)
         == Done(Link(Token(OBJECT, None, []), keys + EncodeMembers(EntryMembers(entries))),
                 i + |RenderEntries(entries)| + 1)
    decreases entries, 1
  {
    hide Render, Meaning, Encode, ScanToken, ScanMembers, ReadsTo, Scans, RenderEntries, At, Valid, KeyToken;
    var e := entries[0];
    ScanRendered(b, i + |e.pre| + ValueOffset(e) + |e.gap|, e.doc);
    MembersSplit(entries, keys);
    if |entries| == 1 {
      EntriesSingle(entries);
      OneEntry(b, i, j, e, keys, inner);
    } else {
      EntriesSplit(entries);
      MoreEntries(b, i, j, e, RenderEntries(entries[1..]) + "}", keys, inner);
      ScanEntriesRendered(b, i + EntryLength(e) + 1, j, entries[1..], keys + [KeyToken(e)], inner);
    }
  }

  // ---- the cases of a document ----

  lemma {:induction false} BracketAt(b: string, k: nat, c: char, rest: string)
    requires At(b, k, [c] + rest) && !IsSpace(c)
    ensures SkipSpace(b, k) == k && Peek(b, k) == c && At(b, k + 1, rest)
  {
    assert [c] + rest == "" + ([c] + rest);
    SkipTo(b, k, "", [c] + rest);
    AtSplit(b, k, [c], rest);
    AtHead(b, k, [c]);
  }

  lemma {:induction false} ArrayRendered(b: string, k: nat, open: string, items: seq<Item>)
    requires k <= |b| && AllSpace(open) && ValidItems(items) && At(b, k, "[" + open + RenderItems(items) + "]")
    ensures ScanToken(b, k) == Done(Encode(Array(ItemValues(items))), k + |open| + |RenderItems(items)| + 2)
    decreases items, 3
  {
    hide Render, ScanToken, RenderItems, ItemValues, EncodeItems, ValidItems, SkipSpace, At, AllSpace, Scans, ScanItems;
    var text := RenderItems(items) + "]";
    assert "[" + open + RenderItems(items) + "]" == "[" + (open + text);
    BracketAt(b, k, '[', open + text);
    var inner := ArrayStart(b, k);
    AtSplit(b, k + 1, open, text);
    SkipRun(b, k + 1, open);
    ArrayBody(b, k + 1 + |open|, k, items, inner);
  }

  lemma {:induction false} ArrayBody(b: string, i: nat, j: nat, items: seq<Item>, inner: Inner)
    requires ValidItems(items) && At(b, i, RenderItems(items) + "]") && j < i && Scans(b, j, inner)
    ensures ScanItems(b, SkipSpace(b, i), [], [], inner)
         == Done(Link(Token(ARRAY, None, EncodeItems(ItemValues(items))), []), i + |RenderItems(items)| + 1)
    decreases items, 2
  {
    hide Render, ScanToken, EncodeItems, ItemValues, ValidItems, ScanItems, SkipSpace, At;
    if items == [] {
      assert RenderItems(items) + "]" == "" + "]";
      SkipTo(b, i, "", "]");
      AtHead(b, i, "]");
      EmptyChains(items, []);
      ItemsEnd(b, i, [], [], inner);
    } else {
      ScanItemsRendered(b, i, items, [], [], inner);
    }
  }

  lemma EmptyChains(items: seq<Item>, entries: seq<Entry>)
    ensures items == [] ==> EncodeItems(ItemValues(items)) == []
    ensures entries == [] ==> EncodeMembers(EntryMembers(entries)) == []
  {
  }

  lemma {:induction false} ObjectBody(b: string, i: nat, j: nat, entries: seq<Entry>, inner: Inner)
    requires ValidEntries(entries) && At(b, i, RenderEntries(entries) + "}") && j <= i && Scans(b, j, inner)
    ensures ScanMembers(b, SkipSpace(b, i), [], inner)
         == Done(Link(Token(OBJECT, None, []), EncodeMembers(EntryMembers(entries))), i + |RenderEntries(entries)| + 1)
    decreases entries, 2
  {
    hide Render, ScanToken, EncodeMembers, EntryMembers, ValidEntries, ScanMembers, SkipSpace, At, Scans;
    if entries == [] {
      assert RenderEntries(entries) + "}" == "" + "}";
      SkipTo(b, i, "", "}");
      AtHead(b, i, "}");
      EmptyChains([], entries);
      MembersEnd(b, i, [], inner);
    } else {
      ScanEntriesRendered(b, i, j, entries, [], inner);
    }
  }

  lemma {:induction false} ObjectRendered(b: string, k: nat, open: string, entries: seq<Entry>)
    requires k <= |b| && AllSpace(open) && ValidEntries(entries) && At(b, k, "{" + open + RenderEntries(entries) + "}")
    ensures ScanToken(b, k) == Done(Encode(Object(EntryMembers(entries))), k + |open| + |RenderEntries(entries)| + 2)
    decreases entries, 3
  {
    hide Render, ScanToken, RenderEntries, EntryMembers, EncodeMembers, ValidEntries, SkipSpace, At, AllSpace, Scans,
      ScanMembers;
    var text := RenderEntries(entries) + "}";
    assert "{" + open + RenderEntries(entries) + "}" == "{" + (open + text);
    BracketAt(b, k, '{', open + text);
    var inner := ObjectStart(b, k);
    AtSplit(b, k + 1, open, text);
    SkipRun(b, k + 1, open);
    ObjectBody(b, k + 1 + |open|, k, entries, inner);
  }

  /** The leaves: a word, a string or a number. */
  lemma {:induction false} LeafRendered(b: string, k: nat, d: Doc)
    requires Valid(d) && !d.DArray? && !d.DObject?
    requires k <= |b| && At(b, k, Render(d)) && !ContinuesNumber(Peek(b, k + |Render(d)|))
    ensures ScanToken(b, k) == Done(Encode(Meaning(d)), k + |Render(d)|)
  {
    hide ScanItems, ScanMembers, StringBody, ValidNumber, NumberEnd, NumberText;
    RenderHead(d);
    AtHead(b, k, Render(d));
    match d
    case DNumber(neg, whole, frac, exp) => NumberAt(b, k, neg, whole, frac, exp);
    case DText(s) => StringAt(b, k, s);
    case _ =>
  }

  lemma {:induction false} ScanRendered(b: string, k: nat, d: Doc)
    requires Valid(d)
    ensures ReadsTo(b, k, d)
    decreases d, 0
  {
    hide ScanToken, At;
    if k <= |b| && At(b, k, Render(d)) && !ContinuesNumber(Peek(b, k + |Render(d)|)) {
      match d
      case DArray(open, items) => ArrayRendered(b, k, open, items);
      case DObject(open, entries) => ObjectRendered(b, k, open, entries);
      case _ => LeafRendered(b, k, d);
    }
  }

  /** Every JSON text, with space before it and whatever may follow it, is scanned to its
      end, into the tokens of its value. */
  lemma {:induction false} ReadsText(pre: string, d: Doc, rest: string)
    requires Valid(d) && AllSpace(pre) && (rest != "" ==> !ContinuesNumber(rest[0]))
    ensures ScanToken(pre + Render(d) + rest, 0) == Done(Encode(Meaning(d)), |pre| + |Render(d)|)
  {
    hide ScanToken, Render, Meaning, Encode, Valid;
    var b := pre + Render(d) + rest;
    assert At(b, 0, pre);
    ScanTokenSkips(b, 0, pre);
    assert At(b, |pre|, Render(d));
    ScanRendered(b, |pre|, d);
  }

  /** Whatever JSON text is scanned, a reader of its tokens gets back the value of the text, but
      for the objects that another element follows in an array; so exactly when there are none. */
  lemma {:induction false} ReadsValue(pre: string, d: Doc, rest: string)
    requires Valid(d) && AllSpace(pre) && (rest != "" ==> !ContinuesNumber(rest[0]))
    ensures var scan := ScanToken(pre + Render(d) + rest, 0);
      && scan.Done? && scan.end == |pre| + |Render(d)|
      && DecodeFirst(scan.link.Chain()) == Strip(Meaning(d))
      && (DecodeFirst(scan.link.Chain()) == Meaning(d) <==> Intact(Meaning(d)))
  {
    hide ScanToken, Render, Meaning, Encode, Valid, DecodeFirst, Strip, Intact;
    ReadsText(pre, d, rest);
    ReadBack(Meaning(d));
    ReadBackExact(Meaning(d));
  }
}
