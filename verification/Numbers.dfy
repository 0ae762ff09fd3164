/** The numbers that `scan_number` accepts. They are those of section 6 of RFC 8259, and besides
    them numbers with leading zeros, and with the exponent before the fraction. */
module Numbers {
  import opened Options
  import opened Buffers
  import opened Scanner
  import opened Grammar

  datatype Piece = Fraction(digits: string) | Power(x: Exponent)

  function PieceText(p: Piece): string
  {
    match p
    case Fraction(d) => "." + d
    case Power(x) => [x.e] + (x.sign + x.digits)
  }

  function PiecesText(ps: seq<Piece>): string
  {
    if ps == [] then "" else PieceText(ps[0]) + PiecesText(ps[1..])
  }

  predicate ValidPiece(p: Piece)
  {
    match p
    case Fraction(d) => d != "" && AllDigits(d)
    case Power(x) => ValidExponent(x)
  }

  /** At most one fraction and one exponent, and none of a kind that has been seen. */
  predicate ValidPieces(ps: seq<Piece>, fraction: bool, exp: bool)
  {
    ps != [] ==>
      && ValidPiece(ps[0]) && !(if ps[0].Fraction? then fraction else exp)
      && ValidPieces(ps[1..], fraction || ps[0].Fraction?, exp || ps[0].Power?)
  }

  function Spelling(neg: bool, whole: string, ps: seq<Piece>): string
  {
    (if neg then "-" else "") + (whole + PiecesText(ps))
  }

  predicate ValidText(whole: string, ps: seq<Piece>)
  {
    whole != "" && AllDigits(whole) && ValidPieces(ps, false, false)
  }

  // ---- accepted texts are read whole ----

  lemma {:induction false} PieceAt(b: string, i: nat, p: Piece, fraction: bool, exp: bool)
    requires ValidPiece(p) && !(if p.Fraction? then fraction else exp) && At(b, i, PieceText(p))
    ensures NumberTail(b, i, fraction, exp)
         == NumberTail(b, i + |PieceText(p)|, fraction || p.Fraction?, exp || p.Power?)
  {
    match p
    case Fraction(d) =>
      AtSplit(b, i, ".", d);
      AtHead(b, i, ".");
      AtHead(b, i + 1, d);
      DigitsAt(b, i + 1, d, true, exp);
    case Power(x) =>
      AtSplit(b, i, [x.e], x.sign + x.digits);
      AtHead(b, i, [x.e]);
      ExponentSignAt(b, i + 1, x.sign, x.digits, fraction);
  }

  lemma {:induction false} PiecesAt(b: string, i: nat, ps: seq<Piece>, fraction: bool, exp: bool)
    requires ValidPieces(ps, fraction, exp) && At(b, i, PiecesText(ps))
    requires !ContinuesNumber(Peek(b, i + |PiecesText(ps)|))
    ensures NumberTail(b, i, fraction, exp) == Some(i + |PiecesText(ps)|)
    decreases |ps|
  {
    hide PieceText, ValidPiece;
    if ps != [] {
      AtSplit(b, i, PieceText(ps[0]), PiecesText(ps[1..]));
      PieceAt(b, i, ps[0], fraction, exp);
      PiecesAt(b, i + |PieceText(ps[0])|, ps[1..], fraction || ps[0].Fraction?, exp || ps[0].Power?);
    }
  }

  lemma {:induction false} TextAt(b: string, i: nat, neg: bool, whole: string, ps: seq<Piece>)
    requires ValidText(whole, ps) && At(b, i, Spelling(neg, whole, ps))
    requires !ContinuesNumber(Peek(b, i + |Spelling(neg, whole, ps)|))
    ensures NumberEnd(b, i) == Some(i + |Spelling(neg, whole, ps)|)
  {
    hide PiecesText, ValidPieces, NumberTail, At;
    var m := whole + PiecesText(ps);
    var j := if neg then i + 1 else i;
    if neg {
      AtSplit(b, i, "-", m);
      AtHead(b, i, "-");
    } else {
      assert Spelling(neg, whole, ps) == m;
    }
    UnsignedAt(b, j, whole, PiecesText(ps));
    PiecesAt(b, j + |whole|, ps, false, false);
  }

  // ---- and nothing else is read ----

  /** From `i` to `e` stand digits and then pieces. */
  ghost predicate Stands(b: string, i: nat, e: nat, d: string, ps: seq<Piece>)
  {
    AllDigits(d) && At(b, i, d + PiecesText(ps)) && e == i + |d| + |PiecesText(ps)|
  }

  lemma {:induction false} CharAt(b: string, i: nat)
    requires i < |b|
    ensures At(b, i, [b[i]])
  {
  }

  lemma {:induction false} DigitStands(b: string, i: nat, e: nat, d: string, ps: seq<Piece>)
    requires i < |b| && IsDigit(b[i]) && Stands(b, i + 1, e, d, ps)
    ensures Stands(b, i, e, [b[i]] + d, ps)
  {
    hide At, PiecesText;
    CharAt(b, i);
    AtJoin(b, i, [b[i]], d + PiecesText(ps));
    assert [b[i]] + d + PiecesText(ps) == [b[i]] + (d + PiecesText(ps));
  }

  lemma {:induction false} FractionStands(b: string, i: nat, e: nat, d: string, ps: seq<Piece>)
    requires i < |b| && b[i] == '.' && d != "" && Stands(b, i + 1, e, d, ps)
    ensures Stands(b, i, e, "", [Fraction(d)] + ps) && ValidPiece(Fraction(d))
  {
    hide At, PiecesText;
    FractionText(d, ps);
    CharAt(b, i);
    AtJoin(b, i, ".", d + PiecesText(ps));
    assert "" + PiecesText([Fraction(d)] + ps) == PiecesText([Fraction(d)] + ps);
  }

  lemma {:induction false} PowerStands(b: string, i: nat, e: nat, sign: string, d: string, ps: seq<Piece>)
    requires i < |b| && (b[i] == 'e' || b[i] == 'E') && sign in {"", "+", "-"} && d != ""
    requires At(b, i + 1, sign) && Stands(b, i + 1 + |sign|, e, d, ps)
    ensures Stands(b, i, e, "", [Power(Exponent(b[i], sign, d))] + ps) && ValidPiece(Power(Exponent(b[i], sign, d)))
  {
    hide At, PiecesText;
    var x := Exponent(b[i], sign, d);
    PowerText(x, ps);
    CharAt(b, i);
    AtJoin(b, i + 1, sign, d + PiecesText(ps));
    AtJoin(b, i, [b[i]], sign + (d + PiecesText(ps)));
    assert "" + PiecesText([Power(x)] + ps) == PiecesText([Power(x)] + ps);
  }

  /** What the scanner has read from `i` on, digits and then pieces. */
  lemma {:induction false} TailIs(b: string, i: nat, fraction: bool, exp: bool) returns (d: string, ps: seq<Piece>)
    requires i <= |b| && NumberTail(b, i, fraction, exp).Some?
    ensures var e := NumberTail(b, i, fraction, exp).value;
      && Stands(b, i, e, d, ps) && ValidPieces(ps, fraction, exp) && !ContinuesNumber(Peek(b, e))
      && (IsDigit(Peek(b, i)) ==> d != "")
    decreases |b| - i
  {
    hide PieceText, ValidPiece, PiecesText, Stands;
    var c, e := Peek(b, i), NumberTail(b, i, fraction, exp).value;
    if IsDigit(c) {
      var d1;
      d1, ps := TailIs(b, i + 1, fraction, exp);
      d := [c] + d1;
      DigitStands(b, i, e, d1, ps);
    } else if c == '.' {
      var d1, ps1 := TailIs(b, i + 1, true, exp);
      d, ps := "", [Fraction(d1)] + ps1;
      FractionStands(b, i, e, d1, ps1);
      assert ps[1..] == ps1;
    } else if c == 'e' || c == 'E' {
      var sign := if Peek(b, i + 1) == '+' || Peek(b, i + 1) == '-' then [b[i + 1]] else "";
      var d1, ps1 := TailIs(b, i + 1 + |sign|, fraction, true);
      d, ps := "", [Power(Exponent(c, sign, d1))] + ps1;
      PowerStands(b, i, e, sign, d1, ps1);
      assert ps[1..] == ps1;
    } else {
      d, ps := "", [];
      assert Stands(b, i, e, d, ps) by { NoPieces(b, i); }
    }
  }

  lemma {:induction false} NoPieces(b: string, i: nat)
    requires i <= |b|
    ensures Stands(b, i, i, "", [])
  {
  }

  lemma {:induction false} FractionText(d: string, ps: seq<Piece>)
    ensures PiecesText([Fraction(d)] + ps) == "." + (d + PiecesText(ps)) && ([Fraction(d)] + ps)[1..] == ps
    ensures d != "" && AllDigits(d) ==> ValidPiece(Fraction(d))
  {
    assert ([Fraction(d)] + ps)[1..] == ps;
  }

  lemma {:induction false} PowerText(x: Exponent, ps: seq<Piece>)
    ensures PiecesText([Power(x)] + ps) == [x.e] + (x.sign + (x.digits + PiecesText(ps)))
    ensures ([Power(x)] + ps)[1..] == ps
    ensures ValidExponent(x) ==> ValidPiece(Power(x))
  {
    assert ([Power(x)] + ps)[1..] == ps;
  }

  /** The scanner reads a number up to `e` exactly when such a text stands there, and what
      follows it cannot continue a number. */
  lemma {:induction false} NumberIs(b: string, i: nat, e: nat)
    requires i <= |b|
    ensures NumberEnd(b, i) == Some(e) <==>
      exists neg, whole, ps :: ValidText(whole, ps) && At(b, i, Spelling(neg, whole, ps))
        && e == i + |Spelling(neg, whole, ps)| && !ContinuesNumber(Peek(b, e))
  {
    hide ValidText, Spelling, NumberTail, ContinuesNumber;
    if NumberEnd(b, i) == Some(e) {
      var neg, whole, ps := NumberOf(b, i, e);
    }
    forall neg, whole, ps | ValidText(whole, ps) && At(b, i, Spelling(neg, whole, ps))
        && e == i + |Spelling(neg, whole, ps)| && !ContinuesNumber(Peek(b, e))
      ensures NumberEnd(b, i) == Some(e)
    {
      TextAt(b, i, neg, whole, ps);
    }
  }

  lemma {:induction false} NumberOf(b: string, i: nat, e: nat) returns (neg: bool, whole: string, ps: seq<Piece>)
    requires i <= |b| && NumberEnd(b, i) == Some(e)
    ensures ValidText(whole, ps) && At(b, i, Spelling(neg, whole, ps)) && e == i + |Spelling(neg, whole, ps)|
    ensures !ContinuesNumber(Peek(b, e))
  {
    hide PiecesText, ValidPieces, NumberTail, At;
    neg := Peek(b, i) == '-';
    if neg {
      whole, ps := TailFrom(b, i + 1);
      CharAt(b, i);
      AtJoin(b, i, "-", whole + PiecesText(ps));
    } else {
      whole, ps := TailFrom(b, i);
      assert Spelling(neg, whole, ps) == whole + PiecesText(ps);
    }
  }

  /** The digits start at `j`, where the scanner finds one. */
  lemma {:induction false} TailFrom(b: string, j: nat) returns (whole: string, ps: seq<Piece>)
    requires j <= |b| && IsDigit(Peek(b, j)) && NumberTail(b, j + 1, false, false).Some?
    ensures var e := NumberTail(b, j + 1, false, false).value;
      whole != "" && Stands(b, j, e, whole, ps) && ValidPieces(ps, false, false) && !ContinuesNumber(Peek(b, e))
  {
    whole, ps := TailIs(b, j, false, false);
  }
}
