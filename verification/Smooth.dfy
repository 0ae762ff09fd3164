/** First-order expansions: what it means for a real function to have a slope at 0, and how
    slopes pass through sums, products and composition. */
module Smooth {

  function Abs(x: real): (a: real)
    ensures a >= 0.0 && -a <= x <= a && (a == x || a == -x)
  {
    if x < 0.0 then -x else x
  }

  function Min(x: real, y: real): (m: real)
    ensures m <= x && m <= y && (m == x || m == y)
  {
    if x < y then x else y
  }

  /** Multiplication under a name, so that a proof can leave it uninterpreted. */
  function Mul(x: real, y: real): real
  {
    x * y
  }

  /** `y` is v + e*t up to c*e*e. */
  ghost predicate Near(y: real, v: real, t: real, c: real, e: real)
  {
    -Mul(c, Mul(e, e)) <= y - v - Mul(e, t) <= Mul(c, Mul(e, e))
  }

  ghost predicate Expands(f: real -> real, v: real, t: real, c: real, d: real)
  {
    d > 0.0 && c >= 0.0 && forall e :: -d < e < d ==> Near(f(e), v, t, c, e)
  }

  /** Near 0 the function has value `v` and slope `t`, with an error at most quadratic. */
  ghost predicate HasSlope(f: real -> real, v: real, t: real)
  {
    exists c, d :: Expands(f, v, t, c, d)
  }

  // ---- products ----

  lemma {:induction false} Square(e: real)
    ensures Mul(e, e) >= 0.0
  {}

  lemma {:induction false} MulPositive(a: real, b: real)
    requires a >= 0.0 && b >= 0.0
    ensures Mul(a, b) >= 0.0
  {}

  lemma {:induction false} MulMono(a: real, b: real, q: real)
    requires a <= b && q >= 0.0
    ensures Mul(a, q) <= Mul(b, q) && Mul(q, a) <= Mul(q, b)
  {}

  lemma {:induction false} MulNegative(a: real, b: real)
    ensures Mul(-a, b) == -Mul(a, b) == Mul(a, -b)
  {}

  lemma {:induction false} MulOne(a: real)
    ensures Mul(a, 1.0) == a == Mul(1.0, a) && Mul(a, 0.0) == 0.0 == Mul(0.0, a)
  {}

  lemma {:induction false} MulAssoc(a: real, b: real, c: real)
    ensures Mul(Mul(a, b), c) == Mul(a, Mul(b, c))
  {}

  lemma {:induction false} MulCommutes(a: real, b: real)
    ensures Mul(a, b) == Mul(b, a)
  {}

  lemma {:induction false} MulAdd(a: real, b: real, c: real)
    ensures Mul(a + b, c) == Mul(a, c) + Mul(b, c) && Mul(c, a + b) == Mul(c, a) + Mul(c, b)
  {}

  /** |x y| <= a b when |x| <= a and |y| <= b. */
  lemma {:induction false} MulBound(x: real, y: real, a: real, b: real)
    requires -a <= x <= a && -b <= y <= b
    ensures -Mul(a, b) <= Mul(x, y) <= Mul(a, b)
  {
    hide Mul, Abs;
    MulNegative(x, y);
    MulNegative(-x, y);
    MulMono(Abs(x), a, b);
    MulMono(y, b, Abs(x));
    MulMono(-y, b, Abs(x));
    MulNegative(Abs(x), y);
  }

  lemma {:induction false} RestBound(x: real, r: real, b: real, c: real, q: real)
    requires -b <= x <= b && -Mul(c, q) <= r <= Mul(c, q)
    ensures -Mul(Mul(b, c), q) <= Mul(x, r) <= Mul(Mul(b, c), q)
  {
    hide Mul;
    MulBound(x, r, b, Mul(c, q));
    MulAssoc(b, c, q);
  }

  // ---- single values ----

  lemma {:induction false} NearSum(x: real, v: real, t: real, c: real, y: real, w: real, u: real, k: real, e: real)
    requires Near(x, v, t, c, e) && Near(y, w, u, k, e)
    ensures Near(x + y, v + w, t + u, c + k, e)
  {
    hide Mul;
    MulAdd(t, u, e);
    MulAdd(c, k, Mul(e, e));
  }

  /** A bound for the value of an expansion at distance at most 1. */
  function Reach(v: real, t: real, c: real): (b: real)
    requires c >= 0.0
    ensures b >= 0.0
  {
    Abs(v) + Abs(t) + c
  }

  lemma {:induction false} UnitSquare(e: real, c: real)
    requires c >= 0.0 && -1.0 <= e <= 1.0
    ensures 0.0 <= Mul(c, Mul(e, e)) <= c
  {
    hide Mul;
    Square(e);
    MulBound(e, e, 1.0, 1.0);
    MulPositive(c, Mul(e, e));
    MulOne(1.0);
    MulMono(Mul(e, e), 1.0, c);
    MulOne(c);
  }

  lemma {:induction false} UnitTimes(e: real, t: real)
    requires -1.0 <= e <= 1.0
    ensures -Abs(t) <= Mul(e, t) <= Abs(t)
  {
    hide Mul, Abs;
    MulBound(e, t, 1.0, Abs(t));
    MulOne(Abs(t));
  }

  lemma {:induction false} NearReach(y: real, v: real, t: real, c: real, e: real)
    requires c >= 0.0 && -1.0 <= e <= 1.0 && Near(y, v, t, c, e)
    ensures -Reach(v, t, c) <= y <= Reach(v, t, c)
    ensures -Reach(v, t, 0.0) <= v + Mul(e, t) <= Reach(v, t, 0.0)
  {
    hide Mul, Abs;
    UnitTimes(e, t);
    UnitSquare(e, c);
  }

  /** The bound for the remainder of a product, `a` and `b` bounding the first factor's linear
      part and the second factor, `p` the product of the slopes. */
  function ProductError(a: real, b: real, p: real, c: real, k: real): (m: real)
    requires a >= 0.0 && b >= 0.0 && p >= 0.0 && c >= 0.0 && k >= 0.0
    ensures m >= 0.0
  {
    MulPositive(a, k);
    MulPositive(b, c);
    p + Mul(a, k) + Mul(b, c)
  }

  lemma {:induction false} RestSmall(l: real, r: real, c: real, y: real, r': real, k: real, tu: real,
      a: real, b: real, p: real, q: real)
    requires a >= 0.0 && b >= 0.0 && p >= 0.0 && c >= 0.0 && k >= 0.0
    requires q >= 0.0 && -Mul(c, q) <= r <= Mul(c, q) && -Mul(k, q) <= r' <= Mul(k, q)
    requires -a <= l <= a && -b <= y <= b && -p <= tu <= p
    ensures var m := Mul(ProductError(a, b, p, c, k), q);
      -m <= Mul(tu, q) + Mul(l, r') + Mul(r, y) <= m
  {
    hide Mul;
    MulBound(tu, q, p, q);
    RestBound(l, r', a, k, q);
    RestBound(y, r, b, c, q);
    MulCommutes(r, y);
    MulAdd(p + Mul(a, k), Mul(b, c), q);
    MulAdd(p, Mul(a, k), q);
  }

  /** The product of two expansions, its remainder collected. */
  lemma {:induction false} ProductRest(v: real, t: real, r: real, w: real, u: real, r': real, e: real)
    ensures var l, y := v + Mul(e, t), w + Mul(e, u) + r';
      Mul(l + r, y) - Mul(v, w) - Mul(e, Mul(t, w) + Mul(v, u)) == Mul(Mul(t, u), Mul(e, e)) + Mul(l, r') + Mul(r, y)
  {
    hide Mul;
    var l, y, et, eu := v + Mul(e, t), w + Mul(e, u) + r', Mul(e, t), Mul(e, u);
    MulAdd(l, r, y);
    MulAdd(w + eu, r', l);
    MulAdd(w, eu, l);
    MulAdd(v, et, w);
    MulAdd(v, et, eu);
    MulAdd(Mul(t, w), Mul(v, u), e);
    MulAssoc(e, t, w);
    assert Mul(v, eu) == Mul(e, Mul(v, u)) by {
      MulAssoc(v, e, u);
      MulCommutes(v, e);
      MulAssoc(e, v, u);
    }
    assert Mul(et, eu) == Mul(Mul(t, u), Mul(e, e)) by {
      SlopesMeet(e, t, u);
    }
  }

  lemma {:induction false} SlopesMeet(e: real, t: real, u: real)
    ensures Mul(Mul(e, t), Mul(e, u)) == Mul(Mul(t, u), Mul(e, e))
  {}

  lemma {:induction false} NearProduct(x: real, v: real, t: real, c: real, y: real, w: real, u: real, k: real, e: real,
      a: real, b: real, p: real)
    requires a >= 0.0 && b >= 0.0 && p >= 0.0 && c >= 0.0 && k >= 0.0
    requires Near(x, v, t, c, e) && Near(y, w, u, k, e)
    requires -a <= v + Mul(e, t) <= a && -b <= y <= b && -p <= Mul(t, u) <= p
    ensures Near(Mul(x, y), Mul(v, w), Mul(t, w) + Mul(v, u), ProductError(a, b, p, c, k), e)
  {
    hide ProductError, Mul;
    var l := v + Mul(e, t);
    var r, r' := x - l, y - w - Mul(e, u);
    Square(e);
    RestSmall(l, r, c, y, r', k, Mul(t, u), a, b, p, Mul(e, e));
    ProductRest(v, t, r, w, u, r', e);
    assert l + r == x && w + Mul(e, u) + r' == y;
  }

  lemma {:induction false} NearChain(z: real, x: real, s: real, k: real, h: real, t: real, c: real, e: real, a: real)
    requires k >= 0.0 && c >= 0.0
    requires Near(x + z, x, s, k, h) && Near(h, 0.0, t, c, e)
    requires -Mul(a, Abs(e)) <= h <= Mul(a, Abs(e))
    ensures Near(x + z, x, Mul(s, t), Mul(k, Mul(a, a)) + Mul(Abs(s), c), e)
  {
    hide Mul, Abs;
    var q := Mul(e, e);
    var r := h - Mul(e, t);
    assert Mul(k, Mul(h, h)) <= Mul(Mul(k, Mul(a, a)), q) by {
      MulBound(h, h, Mul(a, Abs(e)), Mul(a, Abs(e)));
      SquareOf(a, e);
      MulMono(Mul(h, h), Mul(Mul(a, a), q), k);
      MulAssoc(k, Mul(a, a), q);
    }
    RestBound(s, r, Abs(s), c, q);
    MulAdd(Mul(k, Mul(a, a)), Mul(Abs(s), c), q);
    assert Mul(h, s) == Mul(e, Mul(s, t)) + Mul(s, r) by {
      MulCommutes(h, s);
      MulAdd(Mul(e, t), r, s);
      SlopeCommutes(s, e, t);
    }
  }

  lemma {:induction false} SlopeCommutes(s: real, e: real, t: real)
    ensures Mul(s, Mul(e, t)) == Mul(e, Mul(s, t))
  {}

  lemma {:induction false} SquareOf(a: real, e: real)
    ensures Mul(Mul(a, Abs(e)), Mul(a, Abs(e))) == Mul(Mul(a, a), Mul(e, e))
  {
    SlopesMeet(a, Abs(e), Abs(e));
    MulCommutes(Mul(Abs(e), Abs(e)), Mul(a, a));
  }

  // ---- functions ----

  lemma {:induction false} ExpandsAt(f: real -> real, v: real, t: real, c: real, d: real, e: real)
    requires Expands(f, v, t, c, d) && -d < e < d
    ensures Near(f(e), v, t, c, e)
  {}

  /** An affine function has the obvious slope. */
  lemma {:induction false} SlopeOfAffine(f: real -> real, v: real, t: real)
    requires forall e :: f(e) == v + e * t
    ensures HasSlope(f, v, t)
  {
    assert Expands(f, v, t, 0.0, 1.0) by {
      forall e | -1.0 < e < 1.0 ensures Near(f(e), v, t, 0.0, e) {
      }
    }
  }

  lemma {:induction false} SlopeOfSum(f: real -> real, v: real, t: real, g: real -> real, w: real, u: real,
      h: real -> real)
    requires HasSlope(f, v, t) && HasSlope(g, w, u)
    requires forall e :: h(e) == f(e) + g(e)
    ensures HasSlope(h, v + w, t + u)
  {
    hide Near;
    var c, d :| Expands(f, v, t, c, d);
    var k, d' :| Expands(g, w, u, k, d');
    var m := Min(d, d');
    assert Expands(h, v + w, t + u, c + k, m) by {
      forall e | -m < e < m ensures Near(h(e), v + w, t + u, c + k, e) {
        ExpandsAt(f, v, t, c, d, e);
        ExpandsAt(g, w, u, k, d', e);
        NearSum(f(e), v, t, c, g(e), w, u, k, e);
      }
    }
  }

  /** The same with the resulting value and slope given by name. */
  lemma {:induction false} SumHasSlope(f: real -> real, v: real, t: real, g: real -> real, w: real, u: real,
      h: real -> real, x: real, s: real)
    requires HasSlope(f, v, t) && HasSlope(g, w, u)
    requires forall e :: h(e) == f(e) + g(e)
    requires x == v + w && s == t + u
    ensures HasSlope(h, x, s)
  {
    hide *;
    SlopeOfSum(f, v, t, g, w, u, h);
  }

  lemma {:induction false} SlopeOfNegative(f: real -> real, v: real, t: real, h: real -> real)
    requires HasSlope(f, v, t)
    requires forall e :: h(e) == -f(e)
    ensures HasSlope(h, -v, -t)
  {
    hide Mul;
    var c, d :| Expands(f, v, t, c, d);
    assert Expands(h, -v, -t, c, d) by {
      forall e | -d < e < d ensures Near(h(e), -v, -t, c, e) {
        ExpandsAt(f, v, t, c, d, e);
        MulNegative(e, t);
      }
    }
  }

  lemma {:induction false} SlopeOfMinus(f: real -> real, v: real, t: real, g: real -> real, w: real, u: real,
      h: real -> real)
    requires HasSlope(f, v, t) && HasSlope(g, w, u)
    requires forall e :: h(e) == f(e) - g(e)
    ensures HasSlope(h, v - w, t - u)
  {
    hide HasSlope;
    var m, x, s := e => -g(e), v + -w, t + -u;
    SlopeOfNegative(g, w, u, m);
    SlopeOfSum(f, v, t, m, -w, -u, h);
    assert HasSlope(h, x, s);
    assert x == v - w && s == t - u;
  }

  lemma {:induction false} SlopeOfProduct(f: real -> real, v: real, t: real, g: real -> real, w: real, u: real,
      h: real -> real)
    requires HasSlope(f, v, t) && HasSlope(g, w, u)
    requires forall e :: h(e) == Mul(f(e), g(e))
    ensures HasSlope(h, Mul(v, w), Mul(t, w) + Mul(v, u))
  {
    hide ProductError, Reach, Abs, Min, Near, Mul;
    var c, d :| Expands(f, v, t, c, d);
    var k, d' :| Expands(g, w, u, k, d');
    var m, a, b, p := Min(Min(d, d'), 1.0), Reach(v, t, 0.0), Reach(w, u, k), Abs(Mul(t, u));
    var x, y := Mul(v, w), Mul(t, w) + Mul(v, u);
    assert Expands(h, x, y, ProductError(a, b, p, c, k), m) by {
      forall e | -m < e < m ensures Near(h(e), x, y, ProductError(a, b, p, c, k), e) {
        ExpandsAt(f, v, t, c, d, e);
        ExpandsAt(g, w, u, k, d', e);
        NearReach(f(e), v, t, c, e);
        NearReach(g(e), w, u, k, e);
        NearProduct(f(e), v, t, c, g(e), w, u, k, e, a, b, p);
      }
    }
  }

  // ---- composition ----

  /** How far an expansion can get from its value. */
  lemma {:induction false} NearDistance(h: real, t: real, c: real, e: real)
    requires c >= 0.0 && -1.0 <= e <= 1.0 && Near(h, 0.0, t, c, e)
    ensures -Mul(Abs(t) + c, Abs(e)) <= h <= Mul(Abs(t) + c, Abs(e))
  {
    hide Mul;
    MulAdd(Abs(t), c, Abs(e));
    MulBound(t, e, Abs(t), Abs(e));
    MulCommutes(t, e);
    MulBound(e, e, Abs(e), 1.0);
    MulOne(Abs(e));
    MulMono(Mul(e, e), Abs(e), c);
  }

  lemma {:induction false} WithinReach(a: real, d: real, e: real)
    requires a >= 0.0 && d > 0.0 && -(d / (a + 1.0)) < e < d / (a + 1.0)
    ensures Mul(a, Abs(e)) < d
  {
    var q := d / (a + 1.0);
    assert (a + 1.0) * q == d;
    MulMono(a, a + 1.0, Abs(e));
    assert (a + 1.0) * Abs(e) < (a + 1.0) * q;
  }

  function ChainError(k: real, a: real, s: real, c: real): (m: real)
    requires k >= 0.0 && c >= 0.0
    ensures m >= 0.0
  {
    Square(a);
    MulPositive(k, Mul(a, a));
    MulPositive(Abs(s), c);
    Mul(k, Mul(a, a)) + Mul(Abs(s), c)
  }

  lemma {:induction false} NearShift(y: real, v: real, t: real, c: real, e: real)
    requires Near(y, v, t, c, e)
    ensures Near(y - v, 0.0, t, c, e)
  {
    hide Mul;
  }

  /** The chain rule: `f` around 0, then `g` around the value of `f`. */
  lemma {:induction false} SlopeOfChain(f: real -> real, v: real, t: real, g: real -> real, x: real, s: real,
      h: real -> real)
    requires HasSlope(f, v, t) && HasSlope(g, x, s)
    requires forall e :: h(e) == g(f(e) - v)
    ensures HasSlope(h, x, Mul(s, t))
  {
    hide Min, Near, Mul;
    var c, d :| Expands(f, v, t, c, d);
    var k, d' :| Expands(g, x, s, k, d');
    var a := Abs(t) + c;
    var m, n := Min(Min(d, 1.0), d' / (a + 1.0)), ChainError(k, a, s, c);
    assert Expands(h, x, Mul(s, t), n, m) by {
      forall e | -m < e < m ensures Near(h(e), x, Mul(s, t), n, e) {
        var y := f(e) - v;
        ExpandsAt(f, v, t, c, d, e);
        NearShift(f(e), v, t, c, e);
        NearDistance(y, t, c, e);
        WithinReach(a, d', e);
        ExpandsAt(g, x, s, k, d', y);
        NearChain(g(y) - x, x, s, k, y, t, c, e, a);
        assert x + (g(y) - x) == g(y);
      }
    }
  }

  // ---- what a slope says ----

  /** A function has the value it expands from. */
  lemma {:induction false} ValueAtZero(f: real -> real, v: real, t: real)
    requires HasSlope(f, v, t)
    ensures f(0.0) == v
  {
    var c, d :| Expands(f, v, t, c, d);
    ExpandsAt(f, v, t, c, d, 0.0);
  }

  lemma {:induction false} NearBelow(y: real, v: real, t: real, c: real, e: real)
    requires t < 0.0 && c >= 0.0 && 0.0 < e < -t / (c + 1.0) && Near(y, v, t, c, e)
    ensures y < v
  {
    WithinReach(c, -t, e);
    assert Mul(c, Mul(e, e)) == Mul(Mul(c, e), e);
    assert Mul(c, e) < -t;
    assert Mul(c, e) * e < (-t) * e;
  }

  /** With a negative slope every small enough step to the right goes down. */
  lemma {:induction false} StepsDown(f: real -> real, v: real, t: real) returns (d: real)
    requires HasSlope(f, v, t) && t < 0.0
    ensures d > 0.0 && forall e :: 0.0 < e < d ==> f(e) < v
  {
    hide Min, Near;
    var c, d0 :| Expands(f, v, t, c, d0);
    d := Min(d0, -t / (c + 1.0));
    forall e | 0.0 < e < d ensures f(e) < v {
      ExpandsAt(f, v, t, c, d0, e);
      NearBelow(f(e), v, t, c, e);
    }
  }

  /** A function has at most one slope. */
  lemma {:induction false} SlopeIsUnique(f: real -> real, v: real, t: real, w: real, u: real)
    requires HasSlope(f, v, t) && HasSlope(f, w, u)
    ensures v == w && t == u
  {
    ValueAtZero(f, v, t);
    ValueAtZero(f, w, u);
    if t < u {
      SlopesDiffer(f, v, t, u);
    } else if u < t {
      SlopesDiffer(f, v, u, t);
    }
  }

  lemma {:induction false} SlopesDiffer(f: real -> real, v: real, t: real, u: real)
    requires HasSlope(f, v, t) && HasSlope(f, v, u) && t < u
    ensures false
  {
    hide Near;
    var zero := e => 0.0;
    SlopeOfMinus(f, v, t, f, v, u, zero);
    var d := StepsDown(zero, 0.0, t - u);
    assert zero(d / 2.0) < 0.0;
  }
}
