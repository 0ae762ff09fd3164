/** The exponential and the logarithm, from two laws of `exp` alone. */
module Logarithm {
  import opened Smooth

  /** The laws that single out the exponential function. */
  ghost predicate Natural(exp: real -> real)
  {
    (forall x, y :: Multiplies(exp, x, y)) && forall h :: AboveLine(exp, h)
  }

  ghost predicate Multiplies(exp: real -> real, x: real, y: real)
  {
    exp(x + y) == Mul(exp(x), exp(y))
  }

  ghost predicate AboveLine(exp: real -> real, h: real)
  {
    1.0 + h <= exp(h)
  }

  ghost predicate Inverts(ln: real -> real, exp: real -> real)
  {
    forall y :: y > 0.0 ==> exp(ln(y)) == y
  }

  lemma {:induction false} ExpSum(exp: real -> real, x: real, y: real)
    requires Natural(exp)
    ensures exp(x + y) == Mul(exp(x), exp(y))
  {
    hide Mul;
    assert Multiplies(exp, x, y);
  }

  lemma {:induction false} ExpAbove(exp: real -> real, h: real)
    requires Natural(exp)
    ensures 1.0 + h <= exp(h)
  {
    hide Multiplies;
    assert AboveLine(exp, h);
  }

  lemma {:induction false} LnInverts(exp: real -> real, ln: real -> real, y: real)
    requires Inverts(ln, exp) && y > 0.0
    ensures exp(ln(y)) == y
  {}

  lemma {:induction false} UnitOf(u: real)
    requires u >= 1.0 && u == Mul(u, u)
    ensures u == 1.0
  {}

  lemma {:induction false} ExpZero(exp: real -> real)
    requires Natural(exp)
    ensures exp(0.0) == 1.0
  {
    hide Natural, Mul;
    ExpSum(exp, 0.0, 0.0);
    ExpAbove(exp, 0.0);
    UnitOf(exp(0.0));
  }

  lemma {:induction false} PositiveFactor(y: real, z: real, x: real)
    requires x == Mul(y, y) && Mul(x, z) == 1.0
    ensures x > 0.0
  {
    Square(y);
  }

  lemma {:induction false} ExpPositive(exp: real -> real, x: real)
    requires Natural(exp)
    ensures exp(x) > 0.0 && Mul(exp(x), exp(-x)) == 1.0
  {
    hide Natural, Mul;
    ExpZero(exp);
    ExpSum(exp, x, -x);
    assert x + -x == 0.0;
    ExpSum(exp, x / 2.0, x / 2.0);
    assert x / 2.0 + x / 2.0 == x;
    PositiveFactor(exp(x / 2.0), exp(-x), exp(x));
  }

  lemma {:induction false} ReciprocalBound(u: real, v: real, h: real)
    requires Mul(u, v) == 1.0 && u > 0.0 && v >= 1.0 - h && -0.5 <= h <= 0.5
    ensures u <= 1.0 + h + 2.0 * Mul(h, h)
  {
    var b := 1.0 + h + 2.0 * Mul(h, h);
    assert (1.0 - h) * b == 1.0 + Mul(h, h) * (1.0 - 2.0 * h);
    MulPositive(Mul(h, h), 1.0 - 2.0 * h);
    if u > b {
      MulMono(1.0 - h, v, u);
      assert Mul(1.0 - h, u) <= 1.0;
      assert (1.0 - h) * (u - b) > 0.0;
    }
  }

  lemma {:induction false} ExpBelow(exp: real -> real, h: real)
    requires Natural(exp) && -0.5 <= h <= 0.5
    ensures exp(h) <= 1.0 + h + 2.0 * Mul(h, h)
  {
    hide Natural, Mul;
    ExpPositive(exp, h);
    ExpAbove(exp, -h);
    ReciprocalBound(exp(h), exp(-h), h);
  }

  lemma {:induction false} ExpInjective(exp: real -> real, x: real, y: real)
    requires Natural(exp) && exp(x) == exp(y)
    ensures x == y
  {
    hide Natural;
    ExpPositive(exp, x);
    ExpPositive(exp, y);
    ExpSum(exp, x, -y);
    ExpSum(exp, y, -x);
    ExpAbove(exp, x - y);
    ExpAbove(exp, y - x);
    assert x + -y == x - y && y + -x == y - x;
  }

  /** ln(exp(a) / b) = a - ln(b). */
  lemma {:induction false} LnQuotient(exp: real -> real, ln: real -> real, a: real, b: real, q: real)
    requires Natural(exp) && Inverts(ln, exp) && b > 0.0 && q > 0.0 && Mul(q, b) == exp(a)
    ensures ln(q) == a - ln(b)
  {
    hide Natural, Mul, Inverts;
    ExpSum(exp, ln(q), ln(b));
    LnInverts(exp, ln, q);
    LnInverts(exp, ln, b);
    ExpInjective(exp, ln(q) + ln(b), a);
  }

  /** 1 - 1/m <= ln(m) <= m - 1. */
  lemma {:induction false} LnBounds(exp: real -> real, ln: real -> real, m: real)
    requires Natural(exp) && Inverts(ln, exp) && m > 0.0
    ensures 1.0 - 1.0 / m <= ln(m) <= m - 1.0
  {
    hide Natural, Inverts;
    LnInverts(exp, ln, m);
    ExpAbove(exp, ln(m));
    ExpPositive(exp, ln(m));
    ExpAbove(exp, -ln(m));
    assert exp(-ln(m)) == 1.0 / m;
  }

  // ---- slopes ----

  lemma {:induction false} NearExp(v: real, y: real, h: real)
    requires v > 0.0 && 1.0 + h <= y <= 1.0 + h + 2.0 * Mul(h, h)
    ensures Near(Mul(v, y), v, v, 2.0 * v, h)
  {
    MulMono(1.0 + h, y, v);
    MulMono(y, 1.0 + h + 2.0 * Mul(h, h), v);
    assert Mul(v, 1.0 + h + 2.0 * Mul(h, h)) == v + Mul(h, v) + Mul(2.0 * v, Mul(h, h));
    assert Mul(v, 1.0 + h) == v + Mul(h, v);
    Square(h);
    MulPositive(2.0 * v, Mul(h, h));
  }

  lemma {:induction false} SlopeOfExpAt(exp: real -> real, v: real, g: real -> real)
    requires Natural(exp)
    requires forall h :: g(h) == exp(v + h)
    ensures HasSlope(g, exp(v), exp(v))
  {
    hide Natural, Mul, Near;
    ExpPositive(exp, v);
    assert Expands(g, exp(v), exp(v), 2.0 * exp(v), 0.5) by {
      forall h | -0.5 < h < 0.5 ensures Near(g(h), exp(v), exp(v), 2.0 * exp(v), h) {
        ExpSum(exp, v, h);
        ExpAbove(exp, h);
        ExpBelow(exp, h);
        NearExp(exp(v), exp(h), h);
      }
    }
  }

  /** The slope of exp(f). */
  lemma {:induction false} SlopeOfExp(exp: real -> real, f: real -> real, v: real, t: real, h: real -> real)
    requires Natural(exp) && HasSlope(f, v, t)
    requires forall e :: h(e) == exp(f(e))
    ensures HasSlope(h, exp(v), Mul(exp(v), t))
  {
    hide Natural, Mul, HasSlope;
    var g := x => exp(v + x);
    SlopeOfExpAt(exp, v, g);
    forall e ensures h(e) == g(f(e) - v) {
      assert v + (f(e) - v) == f(e);
    }
    SlopeOfChain(f, v, t, g, exp(v), exp(v), h);
  }

  lemma {:induction false} NearLn(y: real, l: real, h: real)
    requires y > 0.0 && -y / 2.0 < h < y / 2.0
    requires 1.0 - 1.0 / (1.0 + h / y) <= l <= h / y
    ensures Near(l, 0.0, 1.0 / y, 2.0 / (y * y), h)
  {
    var u := h / y;
    assert -0.5 < u < 0.5;
    assert Mul(h, 1.0 / y) == u;
    assert Mul(2.0 / (y * y), Mul(h, h)) == 2.0 * Mul(u, u);
    LnRemainder(u);
    Square(u);
  }

  lemma {:induction false} LnRemainder(u: real)
    requires -0.5 < u < 0.5
    ensures 1.0 - 1.0 / (1.0 + u) - u >= -(2.0 * Mul(u, u))
  {
    var m := 1.0 + u;
    var q := 1.0 / m;
    assert m * q == 1.0;
    Square(u);
    assert m * (1.0 - q - u + 2.0 * Mul(u, u)) == Mul(u, u) * (1.0 + 2.0 * u);
    MulPositive(Mul(u, u), 1.0 + 2.0 * u);
  }

  lemma {:induction false} SlopeOfLnAt(exp: real -> real, ln: real -> real, y: real, g: real -> real)
    requires Natural(exp) && Inverts(ln, exp) && y > 0.0
    requires forall h :: g(h) == ln(y + h)
    ensures HasSlope(g, ln(y), 1.0 / y)
  {
    hide Natural, Mul, Near, Inverts;
    var c, d := 2.0 / (y * y), y / 2.0;
    assert Expands(g, ln(y), 1.0 / y, c, d) by {
      assert c >= 0.0;
      forall h | -d < h < d ensures Near(g(h), ln(y), 1.0 / y, c, h) {
        NearLnAt(exp, ln, y, h);
      }
    }
  }

  lemma {:induction false} NearLnAt(exp: real -> real, ln: real -> real, y: real, h: real)
    requires Natural(exp) && Inverts(ln, exp) && y > 0.0 && -y / 2.0 < h < y / 2.0
    ensures Near(ln(y + h), ln(y), 1.0 / y, 2.0 / (y * y), h)
  {
    hide Natural, Inverts, Mul;
    var m := 1.0 + h / y;
    Ratio(y, h);
    LnBounds(exp, ln, m);
    LnInverts(exp, ln, y + h);
    LnQuotient(exp, ln, ln(y + h), y, m);
    NearLn(y, ln(m), h);
  }

  lemma {:induction false} Ratio(y: real, h: real)
    requires y > 0.0 && -y / 2.0 < h < y / 2.0
    ensures 1.0 + h / y > 0.0 && Mul(1.0 + h / y, y) == y + h
  {
    assert h / y * y == h;
    assert h / y > -0.5;
  }

  /** The slope of ln(f), where f is positive. */
  lemma {:induction false} SlopeOfLn(exp: real -> real, ln: real -> real, f: real -> real, v: real, t: real,
      h: real -> real)
    requires Natural(exp) && Inverts(ln, exp) && v > 0.0 && HasSlope(f, v, t)
    requires forall e :: h(e) == ln(f(e))
    ensures HasSlope(h, ln(v), Mul(1.0 / v, t))
  {
    hide Natural, Mul, HasSlope, Inverts;
    var g := x => ln(v + x);
    SlopeOfLnAt(exp, ln, v, g);
    forall e ensures h(e) == g(f(e) - v) {
      assert v + (f(e) - v) == f(e);
    }
    SlopeOfChain(f, v, t, g, ln(v), 1.0 / v, h);
  }
}
