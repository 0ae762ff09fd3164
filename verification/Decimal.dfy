/** Numbers as the payloads print and read them: %d and %f one way, atol and strtof the other.
    Reading covers a sign, digits and a fraction, which is all that is ever printed. */
module Decimal {
  import opened Options
  import opened Scanner
  import opened Grammar
  import Smooth

  function DigitChar(d: nat): (c: char)
    requires d < 10
    ensures IsDigit(c)
  {
    ('0' as int + d) as char
  }

  function DigitValue(c: char): (d: nat)
    requires IsDigit(c)
    ensures d < 10
  {
    c as int - '0' as int
  }

  lemma DigitOf(d: nat)
    requires d < 10
    ensures DigitValue(DigitChar(d)) == d
  {
  }

  function Digits(n: nat): (s: string)
    ensures s != "" && AllDigits(s)
  {
    if n < 10 then [DigitChar(n)] else Digits(n / 10) + [DigitChar(n % 10)]
  }

  /** Exactly `w` digits. */
  function Fixed(n: nat, w: nat): (s: string)
    ensures |s| == w && AllDigits(s)
  {
    if w == 0 then "" else Fixed(n / 10, w - 1) + [DigitChar(n % 10)]
  }

  function Value(s: string): nat
    requires AllDigits(s)
  {
    if s == "" then 0 else 10 * Value(s[..|s| - 1]) + DigitValue(s[|s| - 1])
  }

  function Pow10(n: nat): (p: nat)
    ensures p > 0
  {
    if n == 0 then 1 else 10 * Pow10(n - 1)
  }

  lemma {:induction false} DigitsValue(n: nat)
    ensures Value(Digits(n)) == n
  {
    if n >= 10 {
      DigitsValue(n / 10);
      DigitOf(n % 10);
      assert Digits(n)[..|Digits(n)| - 1] == Digits(n / 10);
    } else {
      DigitOf(n);
      assert Digits(n)[..0] == "";
    }
  }

  lemma {:induction false} FixedStep(n: nat, w: nat)
    requires w > 0
    ensures Value(Fixed(n, w)) == 10 * Value(Fixed(n / 10, w - 1)) + n % 10
  {
    DigitOf(n % 10);
    ValueSnoc(Fixed(n / 10, w - 1), DigitChar(n % 10));
  }

  lemma {:induction false} ValueSnoc(s: string, c: char)
    requires AllDigits(s) && IsDigit(c)
    ensures AllDigits(s + [c]) && Value(s + [c]) == 10 * Value(s) + DigitValue(c)
  {
    assert (s + [c])[..|s|] == s;
  }

  lemma PowStep(w: nat)
    ensures Pow10(w) == if w == 0 then 1 else 10 * Pow10(w - 1)
  {}

  lemma Tenth(n: nat, p: nat)
    ensures n < 10 * p ==> n / 10 < p
    ensures 10 * (n / 10) + n % 10 == n
  {}

  lemma NoDigits()
    ensures Value(Fixed(0, 0)) == 0
  {}

  lemma {:induction false} FixedValue(n: nat, w: nat)
    requires n < Pow10(w)
    ensures Value(Fixed(n, w)) == n
  {
    hide Value, Fixed, Pow10;
    PowStep(w);
    if w > 0 {
      Tenth(n, Pow10(w - 1));
      FixedValue(n / 10, w - 1);
      FixedStep(n, w);
    } else {
      NoDigits();
    }
  }

  lemma {:induction false} QuotientIs(n: nat, d: nat, a: nat, e: nat)
    requires e < d && n == d * a + e
    ensures n / d == a
  {
    if n / d < a {
      assert d * (n / d + 1) <= d * a;
    } else if n / d > a {
      assert d * (n / d) >= d * (a + 1);
    }
  }

  lemma {:induction false} DivideTwice(n: nat, p: nat)
    requires p > 0
    ensures n / (10 * p) == n / 10 / p
  {
    var q := n / 10;
    QuotientIs(n, 10 * p, q / p, 10 * (q % p) + n % 10);
  }

  /** The numeral of `n`: its digit `k` places from the end, and no leading zero. */
  lemma {:induction false} NumeralIs(n: nat, k: nat)
    requires k < |Digits(n)|
    ensures Digits(n)[|Digits(n)| - 1 - k] == "0123456789"[n / Pow10(k) % 10]
    ensures Digits(n)[0] == '0' <==> n == 0
    ensures n == 0 ==> |Digits(n)| == 1
  {
    DigitShown(n % 10);
    if n >= 10 {
      NumeralIs(n / 10, if k == 0 then 0 else k - 1);
      if k > 0 {
        DivideTwice(n, Pow10(k - 1));
      }
    }
  }

  lemma {:induction false} DigitShown(d: nat)
    requires d < 10
    ensures DigitChar(d) == "0123456789"[d] && (DigitChar(d) == '0' <==> d == 0)
  {
  }

  // ---- reading ----

  /** How many digits the text starts with. */
  function Lead(s: string): (n: nat)
    ensures n <= |s| && AllDigits(s[..n])
  {
    if s == "" || !IsDigit(s[0]) then 0
    else
      var n := Lead(s[1..]);
      assert s[..n + 1] == [s[0]] + s[1..][..n];
      1 + n
  }

  lemma {:induction false} LeadIs(s: string, t: string)
    requires AllDigits(s) && (t != "" ==> !IsDigit(t[0]))
    ensures Lead(s + t) == |s| && (s + t)[..|s|] == s && (s + t)[|s|..] == t
  {
    if s == "" {
      assert s + t == t;
    } else {
      assert (s + t)[1..] == s[1..] + t;
      LeadIs(s[1..], t);
    }
  }

  predicate Signed(s: string)
  {
    s != "" && s[0] == '-'
  }

  function Unsigned(s: string): string
  {
    if Signed(s) then s[1..] else s
  }

  /** `atol` and its kin. */
  function ReadInt(s: string): int
  {
    var u := Unsigned(s);
    var v: int := Value(u[..Lead(u)]);
    if Signed(s) then -v else v
  }

  function ReadMagnitude(u: string): real
  {
    var n := Lead(u);
    var rest := u[n..];
    var f := if rest != "" && rest[0] == '.' then rest[1..] else "";
    var m := Lead(f);
    Value(u[..n]) as real + Value(f[..m]) as real / Pow10(m) as real
  }

  /** `strtof`, without rounding to a float. */
  function ReadReal(s: string): real
  {
    if Signed(s) then -ReadMagnitude(Unsigned(s)) else ReadMagnitude(s)
  }

  // ---- printing ----

  /** The number without its sign. */
  function Unsign(n: int): nat
  {
    if n < 0 then -n else n
  }

  function PrintInt(n: int): string
  {
    NumberText(n < 0, Digits(Unsign(n)), None, None)
  }

  const MILLION := 1000000

  /** The integer nearest to `y`, the even one of two. */
  function Nearest(y: real): (n: nat)
    requires y >= 0.0
    ensures -0.5 <= n as real - y <= 0.5
  {
    var f := y.Floor;
    var d := y - f as real;
    if d < 0.5 || (d == 0.5 && f % 2 == 0) then f else f + 1
  }

  lemma {:induction false} NearestIs(y: real, n: nat)
    requires y >= 0.0
    ensures n == Nearest(y) <==>
      -0.5 <= n as real - y <= 0.5 && (n as real - y == 0.5 || n as real - y == -0.5 ==> n % 2 == 0)
  {
  }

  /** How many millionths %f prints. */
  function Millionths(x: real): nat
  {
    Nearest(Smooth.Abs(x) * MILLION as real)
  }

  function Whole(x: real): string
  {
    Digits(Millionths(x) / MILLION)
  }

  function Fraction(x: real): string
  {
    Fixed(Millionths(x) % MILLION, 6)
  }

  function PrintReal(x: real): string
  {
    NumberText(x < 0.0, Whole(x), Some(Fraction(x)), None)
  }

  // ---- the texts themselves ----

  /** %d: a sign for negative numbers only, and the numeral. */
  lemma {:induction false} IntShown(n: int)
    ensures PrintInt(n) == if n < 0 then "-" + Digits(-n) else Digits(n)
  {
    var d := Digits(Unsign(n));
    assert Magnitude(d, None, None) == d;
    assert "" + d == d;
  }

  lemma {:induction false} FixedShown(n: nat, w: nat, k: nat)
    requires k < w
    ensures Fixed(n, w)[w - 1 - k] == "0123456789"[n / Pow10(k) % 10]
  {
    DigitShown(n % 10);
    if k > 0 {
      FixedShown(n / 10, w - 1, k - 1);
      DivideTwice(n, Pow10(k - 1));
    }
  }

  /** %f: a sign exactly for what is below zero, the whole part of the number `q` of millionths
      nearest to it, a point, and the six digits of what is left. */
  lemma {:induction false} RealShown(x: real, q: nat, k: nat)
    requires q == Nearest(if x < 0.0 then -x * 1000000.0 else x * 1000000.0) && k < 6
    ensures PrintReal(x) == (if x < 0.0 then "-" else "") + (Digits(q / 1000000) + ("." + Fraction(x)))
    ensures |Fraction(x)| == 6 && Fraction(x)[5 - k] == "0123456789"[q % 1000000 / Pow10(k) % 10]
  {
    hide Nearest, Fixed, Digits, Pow10;
    assert q == Millionths(x);
    FixedShown(q % 1000000, 6, k);
    assert "." + Fraction(x) + "" == "." + Fraction(x);
  }

  // ---- there and back ----

  lemma {:induction false} ReadDigits(m: nat)
    ensures Lead(Digits(m)) == |Digits(m)| && Value(Digits(m)[..Lead(Digits(m))]) == m
    ensures !Signed(Digits(m))
  {
    hide Value, Digits;
    var d := Digits(m);
    LeadIs(d, "");
    DigitsValue(m);
    assert d + "" == d && d[..|d|] == d;
    assert IsDigit(d[0]);
  }

  lemma {:induction false} ReadSigned(neg: bool, d: string)
    requires !Signed(d)
    ensures var v: int := Value(d[..Lead(d)]); ReadInt((if neg then "-" else "") + d) == if neg then -v else v
  {
    hide Value, Lead;
    if neg {
      assert ("-" + d)[1..] == d;
    } else {
      assert "" + d == d;
    }
  }

  lemma {:induction false} ReadPrintedInt(n: int)
    ensures ReadInt(PrintInt(n)) == n
    ensures ValidNumber(Digits(Unsign(n)), None, None)
  {
    hide Value, Lead, Digits, ReadInt, Signed;
    var d := Digits(Unsign(n));
    ReadDigits(Unsign(n));
    ReadSigned(n < 0, d);
    assert Magnitude(d, None, None) == d;
  }

  /** The multiple of a millionth that a printed number stands for. */
  function Rounded(x: real): real
  {
    var m := Millionths(x) as real / MILLION as real;
    if x < 0.0 then -m else m
  }

  lemma {:induction false} ReadPrintedMagnitude(q: nat)
    ensures ReadMagnitude(Digits(q / MILLION) + ("." + Fixed(q % MILLION, 6))) == q as real / MILLION as real
  {
    var w, f := Digits(q / MILLION), Fixed(q % MILLION, 6);
    LeadIs(w, "." + f);
    assert ("." + f)[1..] == f;
    LeadIs(f, "");
    assert f + "" == f;
    assert Pow10(6) == MILLION by {
      assert Pow10(5) == 100000;
    }
    DigitsValue(q / MILLION);
    FixedValue(q % MILLION, 6);
    Parts(q);
  }

  lemma Parts(q: nat)
    ensures (q / MILLION) as real + (q % MILLION) as real / MILLION as real == q as real / MILLION as real
  {
    assert q == (q / MILLION) * MILLION + q % MILLION;
    assert q as real == (q / MILLION) as real * MILLION as real + (q % MILLION) as real;
  }

  /** Printing with %f and reading back gives the nearest multiple of a millionth. */
  lemma {:induction false} ReadPrintedReal(x: real)
    ensures ReadReal(PrintReal(x)) == Rounded(x)
    ensures ValidNumber(Whole(x), Some(Fraction(x)), None)
  {
    var w, f := Whole(x), Fraction(x);
    var t := w + ("." + f);
    assert Magnitude(w, Some(f), None) == t;
    ReadPrintedMagnitude(Millionths(x));
    if x < 0.0 {
      assert PrintReal(x) == "-" + t;
      assert PrintReal(x)[1..] == t;
    } else {
      assert PrintReal(x) == t;
      assert !Signed(t);
    }
  }

  /** The number has at most six decimals. */
  predicate SixDecimals(x: real)
  {
    var y := x * MILLION as real;
    y.Floor as real == y
  }

  lemma Integral(y: real)
    ensures y.Floor as real == y <==> (-y).Floor as real == -y
  {
    if y.Floor as real == y {
      assert -y == (-y.Floor) as real;
    }
    if (-y).Floor as real == -y {
      assert y == (-(-y).Floor) as real;
    }
  }

  lemma Divided(q: nat, x: real)
    ensures var m := q as real / MILLION as real;
      (m == x <==> q as real == x * MILLION as real)
      && (-0.5 <= q as real - x * MILLION as real <= 0.5 ==> -0.0000005 <= m - x <= 0.0000005)
  {
  }

  /** It is off by at most half a millionth, and exact for numbers with six decimals only. */
  lemma {:induction false} RoundedExact(x: real)
    ensures -0.0000005 <= Rounded(x) - x <= 0.0000005
    ensures Rounded(x) == x <==> SixDecimals(x)
  {
    var y := Smooth.Abs(x) * MILLION as real;
    Integral(y);
    Divided(Nearest(y), Smooth.Abs(x));
    assert Nearest(y) as real == y <==> y.Floor as real == y;
    assert x * MILLION as real == if x < 0.0 then -y else y;
  }
}
