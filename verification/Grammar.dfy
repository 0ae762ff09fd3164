/** JSON texts with all their spacing, following sections 2 to 7 of RFC 8259, and the proof
    that the scanner reads every one of them to its end. */
module Grammar {
  import opened Json
  import opened Options
  import opened Buffers
  import opened Scanner

  datatype Doc =
    | DNull
    | DBool(truth: bool)
    | DNumber(neg: bool, whole: string, frac: Option<string>, exp: Option<Exponent>)
    | DText(body: string)
    | DArray(open: string, items: seq<Item>)
    | DObject(open: string, entries: seq<Entry>)

  datatype Exponent = Exponent(e: char, sign: string, digits: string)

  /** An array element with the space around it. */
  datatype Item = Item(pre: string, doc: Doc, post: string)

  /** An object member: space, key, space, colon, space, value, space. */
  datatype Entry = Entry(pre: string, key: string, mid: string, gap: string, doc: Doc, post: string)

  // ---- texts ----

  function FracText(frac: Option<string>): string
  {
    if frac.Some? then "." + frac.value else ""
  }

  function ExpText(exp: Option<Exponent>): string
  {
    if exp.Some? then [exp.value.e] + exp.value.sign + exp.value.digits else ""
  }

  function Magnitude(whole: string, frac: Option<string>, exp: Option<Exponent>): string
  {
    whole + (FracText(frac) + ExpText(exp))
  }

  function NumberText(neg: bool, whole: string, frac: Option<string>, exp: Option<Exponent>): string
  {
    (if neg then "-" else "") + Magnitude(whole, frac, exp)
  }

  function Render(d: Doc): string
    decreases d, 0
  {
    match d
    case DNull => "null"
    case DBool(b) => if b then "true" else "false"
    case DNumber(neg, whole, frac, exp) => NumberText(neg, whole, frac, exp)
    case DText(s) => "\"" + s + "\""
    case DArray(open, items) => "[" + open + RenderItems(items) + "]"
    case DObject(open, entries) => "{" + open + RenderEntries(entries) + "}"
  }

  function RenderItems(items: seq<Item>): string
    decreases items, 1
  {
    if items == [] then ""
    else
      var one := items[0].pre + Render(items[0].doc) + items[0].post;
      if |items| == 1 then one else one + "," + RenderItems(items[1..])
  }

  function RenderEntries(entries: seq<Entry>): string
    decreases entries, 1
  {
    if entries == [] then ""
    else
      var e := entries[0];
      var one := e.pre + "\"" + e.key + "\"" + e.mid + ":" + e.gap + Render(e.doc) + e.post;
      if |entries| == 1 then one else one + "," + RenderEntries(entries[1..])
  }

  // ---- values ----

  function Meaning(d: Doc): Value
    decreases d, 0
  {
    match d
    case DNull => Null
    case DBool(b) => Bool(b)
    case DNumber(neg, whole, frac, exp) => Number(NumberText(neg, whole, frac, exp))
    case DText(s) => Text(s)
    case DArray(_, items) => Array(ItemValues(items))
    case DObject(_, entries) => Object(EntryMembers(entries))
  }

  function ItemValues(items: seq<Item>): seq<Value>
    decreases items, 1
  {
    if items == [] then [] else [Meaning(items[0].doc)] + ItemValues(items[1..])
  }

  function EntryMembers(entries: seq<Entry>): seq<Member>
    decreases entries, 1
  {
    if entries == [] then [] else [Member(entries[0].key, Meaning(entries[0].doc))] + EntryMembers(entries[1..])
  }

  // ---- which texts are meant ----

  predicate AllSpace(s: string)
  {
    forall k :: 0 <= k < |s| ==> IsSpace(s[k])
  }

  predicate AllDigits(s: string)
  {
    forall k :: 0 <= k < |s| ==> IsDigit(s[k])
  }

  /** String text between the quotes: no bare quote, backslash or NUL, and every backslash
      starts one of the escapes of section 7. */
  predicate StringBody(s: string)
  {
    if s == "" then true
    else if s[0] == '\\' then |s| > 1 && IsEscape(s[1]) && StringBody(s[2..])
    else s[0] != '"' && s[0] != NUL && StringBody(s[1..])
  }

  predicate ValidExponent(x: Exponent)
  {
    (x.e == 'e' || x.e == 'E') && x.sign in {"", "+", "-"} && x.digits != "" && AllDigits(x.digits)
  }

  predicate ValidNumber(whole: string, frac: Option<string>, exp: Option<Exponent>)
  {
    && whole != "" && AllDigits(whole)
    && (frac.Some? ==> frac.value != "" && AllDigits(frac.value))
    && (exp.Some? ==> ValidExponent(exp.value))
  }

  predicate Valid(d: Doc)
    decreases d, 0
  {
    match d
    case DNull => true
    case DBool(_) => true
    case DNumber(_, whole, frac, exp) => ValidNumber(whole, frac, exp)
    case DText(s) => StringBody(s)
    case DArray(open, items) => AllSpace(open) && ValidItems(items)
    case DObject(open, entries) => AllSpace(open) && ValidEntries(entries)
  }

  predicate ValidItems(items: seq<Item>)
    decreases items, 1
  {
    items != [] ==>
      AllSpace(items[0].pre) && AllSpace(items[0].post) && Valid(items[0].doc) && ValidItems(items[1..])
  }

  predicate ValidEntries(entries: seq<Entry>)
    decreases entries, 1
  {
    entries != [] ==>
      var e := entries[0];
      && AllSpace(e.pre) && AllSpace(e.mid) && AllSpace(e.gap) && AllSpace(e.post)
      && StringBody(e.key) && Valid(e.doc) && ValidEntries(entries[1..])
  }

  predicate ValidItem(it: Item)
  {
    AllSpace(it.pre) && Valid(it.doc) && AllSpace(it.post)
  }

  predicate ValidEntry(e: Entry)
  {
    AllSpace(e.pre) && AllSpace(e.mid) && AllSpace(e.gap) && AllSpace(e.post) && StringBody(e.key) && Valid(e.doc)
  }

  /** The characters of sections 2, 6 and 7: white space, digits, and what may follow a backslash. */
  lemma {:induction false} CharsAre(c: char)
    ensures IsSpace(c) <==> c in {' ', '\t', '\n', '\r'}
    ensures IsDigit(c) <==> c in {'0', '1', '2', '3', '4', '5', '6', '7', '8', '9'}
    ensures IsEscape(c) <==> c in {'"', '\\', '/', 'b', 'f', 'n', 'r', 't', 'u'}
  {
  }

  // ---- reading at a place in a buffer ----

  lemma {:induction false} SkipRun(b: string, i: nat, s: string)
    requires At(b, i, s) && AllSpace(s)
    ensures SkipSpace(b, i) == SkipSpace(b, i + |s|)
    decreases |s|
  {
    if s != "" {
      AtHead(b, i, s);
      SkipRun(b, i + 1, s[1..]);
    }
  }

  lemma {:induction false} SkipTo(b: string, i: nat, s: string, t: string)
    requires At(b, i, s + t) && AllSpace(s) && t != "" && !IsSpace(t[0])
    ensures SkipSpace(b, i) == i + |s| && At(b, i + |s|, t)
  {
    AtSplit(b, i, s, t);
    SkipRun(b, i, s);
    AtHead(b, i + |s|, t);
  }

  // ---- strings ----

  lemma {:induction false} CloseQuoteAt(b: string, i: nat, s: string)
    requires At(b, i, s + "\"") && StringBody(s)
    ensures CloseQuote(b, i) == Some(i + |s|)
    decreases |s|
  {
    AtHead(b, i, s + "\"");
    if s != "" {
      assert (s + "\"")[1..] == s[1..] + "\"";
      if s[0] == '\\' {
        AtHead(b, i + 1, s[1..] + "\"");
        assert (s[1..] + "\"")[1..] == s[2..] + "\"";
        CloseQuoteAt(b, i + 2, s[2..]);
      } else {
        CloseQuoteAt(b, i + 1, s[1..]);
      }
    }
  }

  lemma {:induction false} StringAt(b: string, i: nat, s: string)
    requires At(b, i, "\"" + s + "\"") && StringBody(s)
    ensures ScanString(b, i) == Done(Encode(Text(s)), i + |s| + 2)
  {
    var t := s + "\"";
    assert "\"" + s + "\"" == "\"" + t;
    AtSplit(b, i, "\"", t);
    AtHead(b, i, "\"");
    CloseQuoteAt(b, i + 1, s);
    AtSplit(b, i + 1, s, "\"");
  }

  lemma {:induction false} CloseQuoteIs(b: string, i: nat)
    requires CloseQuote(b, i).Some?
    ensures var q := CloseQuote(b, i).value; StringBody(b[i..q]) && At(b, i, b[i..q] + "\"")
    decreases |b| - i
  {
    var q := CloseQuote(b, i).value;
    assert b[i..q + 1] == b[i..q] + "\"";
    if b[i] == '\\' {
      CloseQuoteIs(b, i + 2);
      assert b[i..q][2..] == b[i + 2..q];
    } else if b[i] != '"' {
      CloseQuoteIs(b, i + 1);
      assert b[i..q][1..] == b[i + 1..q];
    }
  }

  /** The scanner reads a string exactly when one stands there: escapes are checked, not undone. */
  lemma {:induction false} StringIs(b: string, i: nat, s: string, e: nat)
    ensures ScanString(b, i) == Done(Encode(Text(s)), e) <==>
      StringBody(s) && At(b, i, "\"" + s + "\"") && e == i + |s| + 2
  {
    hide CloseQuote, StringBody;
    if StringBody(s) && At(b, i, "\"" + s + "\"") && e == i + |s| + 2 {
      StringAt(b, i, s);
    }
    if ScanString(b, i) == Done(Encode(Text(s)), e) {
      CloseQuoteIs(b, i + 1);
      assert b[i..i + 1] == "\"";
      AtJoin(b, i, "\"", s + "\"");
      assert "\"" + (s + "\"") == "\"" + s + "\"";
    }
  }

  // ---- numbers ----

  predicate ContinuesNumber(c: char)
  {
    IsDigit(c) || c == '.' || c == 'e' || c == 'E'
  }

  lemma {:induction false} DigitsAt(b: string, i: nat, s: string, fraction: bool, exp: bool)
    requires At(b, i, s) && AllDigits(s)
    ensures NumberTail(b, i, fraction, exp) == NumberTail(b, i + |s|, fraction, exp)
    decreases |s|
  {
    if s != "" {
      AtHead(b, i, s);
      DigitsAt(b, i + 1, s[1..], fraction, exp);
    }
  }

  lemma {:induction false} ExponentSignAt(b: string, i: nat, sign: string, digits: string, fraction: bool)
    requires sign in {"", "+", "-"} && digits != "" && AllDigits(digits) && At(b, i, sign + digits)
    ensures IsDigit(Peek(b, i + |sign|)) && (sign == "" || Peek(b, i) == sign[0])
    ensures NumberTail(b, i + |sign|, fraction, true) == NumberTail(b, i + |sign| + |digits|, fraction, true)
  {
    AtSplit(b, i, sign, digits);
    AtHead(b, i + |sign|, digits);
    if sign != "" {
      AtHead(b, i, sign);
    }
    DigitsAt(b, i + |sign|, digits, fraction, true);
  }

  lemma {:induction false} ExponentAt(b: string, i: nat, x: Exponent, fraction: bool)
    requires ValidExponent(x) && At(b, i, ExpText(Some(x))) && !ContinuesNumber(Peek(b, i + |ExpText(Some(x))|))
    ensures NumberTail(b, i, fraction, false) == Some(i + |ExpText(Some(x))|)
  {
    var t := ExpText(Some(x));
    assert t == [x.e] + (x.sign + x.digits);
    AtSplit(b, i, [x.e], x.sign + x.digits);
    AtHead(b, i, [x.e]);
    ExponentSignAt(b, i + 1, x.sign, x.digits, fraction);
  }

  lemma {:induction false} FractionAt(b: string, i: nat, frac: Option<string>, exp: Option<Exponent>)
    requires ValidNumber("0", frac, exp) && At(b, i, FracText(frac) + ExpText(exp))
    requires !ContinuesNumber(Peek(b, i + |FracText(frac) + ExpText(exp)|))
    ensures NumberTail(b, i, false, false) == Some(i + |FracText(frac) + ExpText(exp)|)
  {
    var f, x := FracText(frac), ExpText(exp);
    AtSplit(b, i, f, x);
    if frac.Some? {
      AtHead(b, i, f);
      assert f[1..] == frac.value;
      AtHead(b, i + 1, frac.value);
      DigitsAt(b, i + 1, frac.value, true, false);
    }
    if exp.Some? {
      ExponentAt(b, i + |f|, exp.value, frac.Some?);
    }
  }

  lemma {:induction false} UnsignedAt(b: string, i: nat, whole: string, tail: string)
    requires whole != "" && AllDigits(whole) && At(b, i, whole + tail)
    ensures IsDigit(Peek(b, i)) && At(b, i + |whole|, tail)
    ensures NumberTail(b, i + 1, false, false) == NumberTail(b, i + |whole|, false, false)
  {
    AtSplit(b, i, whole, tail);
    AtHead(b, i, whole);
    DigitsAt(b, i + 1, whole[1..], false, false);
  }

  lemma {:induction false} MagnitudeAt(b: string, i: nat, whole: string, frac: Option<string>, exp: Option<Exponent>)
    requires ValidNumber(whole, frac, exp) && At(b, i, Magnitude(whole, frac, exp))
    requires !ContinuesNumber(Peek(b, i + |Magnitude(whole, frac, exp)|))
    ensures IsDigit(Peek(b, i))
    ensures NumberTail(b, i + 1, false, false) == Some(i + |Magnitude(whole, frac, exp)|)
  {
    hide At, NumberTail, FracText, ExpText, ContinuesNumber;
    UnsignedAt(b, i, whole, FracText(frac) + ExpText(exp));
    FractionAt(b, i + |whole|, frac, exp);
  }

  lemma {:induction false} NumberAt(b: string, i: nat, neg: bool, whole: string, frac: Option<string>,
      exp: Option<Exponent>)
    requires ValidNumber(whole, frac, exp) && At(b, i, NumberText(neg, whole, frac, exp))
    requires !ContinuesNumber(Peek(b, i + |NumberText(neg, whole, frac, exp)|))
    ensures NumberEnd(b, i) == Some(i + |NumberText(neg, whole, frac, exp)|)
  {
    hide At, NumberTail, Magnitude, ContinuesNumber, ValidNumber;
    var m := Magnitude(whole, frac, exp);
    if neg {
      AtSplit(b, i, "-", m);
      AtHead(b, i, "-");
      MagnitudeAt(b, i + 1, whole, frac, exp);
    } else {
      assert NumberText(neg, whole, frac, exp) == m;
      MagnitudeAt(b, i, whole, frac, exp);
    }
  }
}
