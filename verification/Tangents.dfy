/** How a network moves: along a line of networks every activation and logit has, at 0, the slope that
    forward propagation of the direction computes. */
module Tangents {
  import opened Sums
  import opened Network
  import opened Gradient
  import opened Smooth
  import opened Logarithm

  // ---- families of vectors ----

  /** Entry `j` of a vector that depends on a parameter. */
  function Coord(u: real -> Vec, j: int): real -> real
  {
    e => u(e)(j)
  }

  /** The first `n` entries have the given values and slopes. */
  ghost predicate VecSlope(n: nat, u: real -> Vec, v: Vec, t: Vec)
  {
    forall j :: 0 <= j < n ==> HasSlope(Coord(u, j), v(j), t(j))
  }

  lemma {:induction false} SlopeAt(n: nat, u: real -> Vec, v: Vec, t: Vec, j: int)
    requires VecSlope(n, u, v, t) && 0 <= j < n
    ensures HasSlope(Coord(u, j), v(j), t(j))
  {
    hide HasSlope;
  }

  lemma {:induction false} SlopeBelow(n: nat, m: nat, u: real -> Vec, v: Vec, t: Vec)
    requires VecSlope(n, u, v, t) && m <= n
    ensures VecSlope(m, u, v, t)
  {
    hide HasSlope, Coord;
  }

  function DotPath(n: nat, u: real -> Vec, v: real -> Vec): real -> real
  {
    e => Dot(n, u(e), v(e))
  }

  lemma {:induction false} DotPathAt(n: nat, u: real -> Vec, v: real -> Vec, e: real)
    ensures DotPath(n, u, v)(e)
         == if n == 0 then 0.0 else DotPath(n - 1, u, v)(e) + TermPath(u, v, n - 1)(e)
  {
    assert DotPath(n, u, v)(e) == Dot(n, u(e), v(e));
    if n > 0 {
      assert DotPath(n - 1, u, v)(e) == Dot(n - 1, u(e), v(e));
    }
  }

  function TermPath(u: real -> Vec, v: real -> Vec, k: int): real -> real
  {
    e => Mul(u(e)(k), v(e)(k))
  }

  lemma {:induction false} TermPathAt(u: real -> Vec, v: real -> Vec, k: int, e: real)
    ensures TermPath(u, v, k)(e) == Mul(Coord(u, k)(e), Coord(v, k)(e))
  {}

  lemma {:induction false} SlopeOfTerm(u: real -> Vec, u0: Vec, tu: Vec, v: real -> Vec, v0: Vec, tv: Vec, k: int)
    requires HasSlope(Coord(u, k), u0(k), tu(k)) && HasSlope(Coord(v, k), v0(k), tv(k))
    ensures HasSlope(TermPath(u, v, k), Mul(u0(k), v0(k)), Mul(tu(k), v0(k)) + Mul(u0(k), tv(k)))
  {
    hide HasSlope, Coord, TermPath, Mul;
    forall e ensures TermPath(u, v, k)(e) == Mul(Coord(u, k)(e), Coord(v, k)(e)) {
      TermPathAt(u, v, k, e);
    }
    SlopeOfProduct(Coord(u, k), u0(k), tu(k), Coord(v, k), v0(k), tv(k), TermPath(u, v, k));
  }

  lemma {:induction false} DotStep(n: nat, u: Vec, v: Vec)
    ensures Dot(n, u, v) == if n == 0 then 0.0 else Dot(n - 1, u, v) + Mul(u(n - 1), v(n - 1))
  {}

  lemma {:induction false} SlopeOfZero(f: real -> real)
    requires forall e :: f(e) == 0.0
    ensures HasSlope(f, 0.0, 0.0)
  {
    SlopeOfAffine(f, 0.0, 0.0);
  }

  lemma {:induction false} SlopeOfDot(n: nat, u: real -> Vec, u0: Vec, tu: Vec, v: real -> Vec, v0: Vec, tv: Vec)
    requires VecSlope(n, u, u0, tu) && VecSlope(n, v, v0, tv)
    ensures HasSlope(DotPath(n, u, v), Dot(n, u0, v0), Dot(n, tu, v0) + Dot(n, u0, tv))
  {
    hide HasSlope, Coord, DotPath, TermPath, VecSlope, Mul, Dot;
    forall e ensures DotPath(n, u, v)(e)
        == if n == 0 then 0.0 else DotPath(n - 1, u, v)(e) + TermPath(u, v, n - 1)(e)
    {
      DotPathAt(n, u, v, e);
    }
    DotStep(n, u0, v0);
    DotStep(n, tu, v0);
    DotStep(n, u0, tv);
    if n == 0 {
      SlopeOfZero(DotPath(n, u, v));
    } else {
      var k := n - 1;
      SlopeBelow(n, k, u, u0, tu);
      SlopeBelow(n, k, v, v0, tv);
      SlopeOfDot(k, u, u0, tu, v, v0, tv);
      SlopeAt(n, u, u0, tu, k);
      SlopeAt(n, v, v0, tv, k);
      SlopeOfTerm(u, u0, tu, v, v0, tv, k);
      SlopeOfSum(DotPath(k, u, v), Dot(k, u0, v0), Dot(k, tu, v0) + Dot(k, u0, tv),
                 TermPath(u, v, k), Mul(u0(k), v0(k)), Mul(tu(k), v0(k)) + Mul(u0(k), tv(k)), DotPath(n, u, v));
      var x, y := Dot(k, tu, v0) + Dot(k, u0, tv), Mul(tu(k), v0(k)) + Mul(u0(k), tv(k));
      assert x + y == Dot(n, tu, v0) + Dot(n, u0, tv);
    }
  }

  function SumPath(n: nat, u: real -> Vec): real -> real
  {
    e => Sum(n, u(e))
  }

  lemma {:induction false} SumPathAt(n: nat, u: real -> Vec, e: real)
    ensures SumPath(n, u)(e) == if n == 0 then 0.0 else SumPath(n - 1, u)(e) + Coord(u, n - 1)(e)
  {
    assert SumPath(n, u)(e) == Sum(n, u(e));
    if n > 0 {
      assert SumPath(n - 1, u)(e) == Sum(n - 1, u(e));
    }
  }

  lemma {:induction false} SlopeOfSums(n: nat, u: real -> Vec, v: Vec, t: Vec)
    requires VecSlope(n, u, v, t)
    ensures HasSlope(SumPath(n, u), Sum(n, v), Sum(n, t))
  {
    hide HasSlope, Coord, SumPath, VecSlope;
    forall e ensures SumPath(n, u)(e) == if n == 0 then 0.0 else SumPath(n - 1, u)(e) + Coord(u, n - 1)(e) {
      SumPathAt(n, u, e);
    }
    if n == 0 {
      SlopeOfZero(SumPath(n, u));
    } else {
      SlopeBelow(n, n - 1, u, v, t);
      SlopeOfSums(n - 1, u, v, t);
      SlopeAt(n, u, v, t, n - 1);
      SlopeOfSum(SumPath(n - 1, u), Sum(n - 1, v), Sum(n - 1, t), Coord(u, n - 1), v(n - 1), t(n - 1), SumPath(n, u));
    }
  }

  // ---- the activation ----

  /** Away from its kink the slope that `dactf` recovers from the value is that of the leaky ReLU; at
      the kink it is the slope to the right. */
  lemma {:induction false} ReluSlope(x: real, h: real)
    requires (x >= 0.0 && x + h >= 0.0) || (x < 0.0 && x + h < 0.0)
    ensures Relu(x + h) == Relu(x) + SlopeFromValue(Relu(x)) * h
  {
  }

  lemma {:induction false} NearExact(y: real, v: real, t: real, e: real)
    requires y == v + t * e
    ensures Near(y, v, t, 0.0, e)
  {}

  lemma {:induction false} SlopeOfReluAt(v: real, g: real -> real)
    requires v != 0.0
    requires forall x :: g(x) == Relu(v + x)
    ensures HasSlope(g, Relu(v), SlopeFromValue(Relu(v)))
  {
    hide Relu, SlopeFromValue, Near;
    assert Expands(g, Relu(v), SlopeFromValue(Relu(v)), 0.0, Abs(v)) by {
      forall x | -Abs(v) < x < Abs(v) ensures Near(g(x), Relu(v), SlopeFromValue(Relu(v)), 0.0, x) {
        ReluSlope(v, x);
        NearExact(g(x), Relu(v), SlopeFromValue(Relu(v)), x);
      }
    }
  }

  lemma {:induction false} SlopeOfRelu(f: real -> real, v: real, t: real, h: real -> real)
    requires HasSlope(f, v, t) && v != 0.0
    requires forall e :: h(e) == Relu(f(e))
    ensures HasSlope(h, Relu(v), Mul(SlopeFromValue(Relu(v)), t))
  {
    hide HasSlope, Relu, SlopeFromValue, Mul;
    var g := x => Relu(v + x);
    SlopeOfReluAt(v, g);
    forall e ensures h(e) == g(f(e) - v) {
      assert v + (f(e) - v) == f(e);
    }
    SlopeOfChain(f, v, t, g, Relu(v), SlopeFromValue(Relu(v)), h);
  }

  // ---- the forward pass along a line of networks ----

  /** The network at `e` on the line through `net` in direction `dir`. */
  ghost predicate OnLine(p: Net, net: Net, dir: Net, e: real)
  {
    && p.depth == net.depth && p.width == net.width
    && (forall l, k, j :: p.w(l)(k, j) == net.w(l)(k, j) + e * dir.w(l)(k, j))
    && (forall l, j :: p.b(l)(j) == net.b(l)(j) + e * dir.b(l)(j))
  }

  ghost predicate Line(path: real -> Net, net: Net, dir: Net)
  {
    forall e :: OnLine(path(e), net, dir, e)
  }

  /** No hidden unit sits at the kink of its activation. */
  ghost predicate Regular(net: Net, exp: Exponential, x: Vec)
  {
    forall l: nat, j :: 0 < l < net.depth && 0 <= j < net.width(l) ==> Logit(net, exp, x, l)(j) != 0.0
  }

  function ActivationPath(path: real -> Net, exp: Exponential, x: Vec, l: nat): real -> Vec
  {
    e => Activation(path(e), exp, x, l)
  }

  function LogitPath(path: real -> Net, exp: Exponential, x: Vec, l: nat): real -> Vec
    requires l > 0
  {
    e => Logit(path(e), exp, x, l)
  }

  function ColPath(path: real -> Net, l: int, j: int): real -> Vec
  {
    e => Col(path(e).w(l), j)
  }

  function BiasPath(path: real -> Net, l: int): real -> Vec
  {
    e => path(e).b(l)
  }

  lemma {:induction false} LineAt(path: real -> Net, net: Net, dir: Net, e: real)
    requires Line(path, net, dir)
    ensures OnLine(path(e), net, dir, e)
  {
    hide OnLine;
  }

  lemma {:induction false} ColPathAt(path: real -> Net, net: Net, dir: Net, l: int, j: int, k: int, e: real)
    requires Line(path, net, dir)
    ensures Coord(ColPath(path, l, j), k)(e) == Col(net.w(l), j)(k) + e * Col(dir.w(l), j)(k)
  {
    hide Line;
    LineAt(path, net, dir, e);
  }

  lemma {:induction false} BiasPathAt(path: real -> Net, net: Net, dir: Net, l: int, j: int, e: real)
    requires Line(path, net, dir)
    ensures Coord(BiasPath(path, l), j)(e) == net.b(l)(j) + e * dir.b(l)(j)
  {
    hide Line;
    LineAt(path, net, dir, e);
  }

  lemma {:induction false} SlopeOfWeights(path: real -> Net, net: Net, dir: Net, n: nat, l: int, j: int)
    requires Line(path, net, dir)
    ensures VecSlope(n, ColPath(path, l, j), Col(net.w(l), j), Col(dir.w(l), j))
  {
    hide HasSlope, Line, Coord, ColPath, Col;
    forall k | 0 <= k < n
      ensures HasSlope(Coord(ColPath(path, l, j), k), Col(net.w(l), j)(k), Col(dir.w(l), j)(k))
    {
      forall e ensures Coord(ColPath(path, l, j), k)(e) == Col(net.w(l), j)(k) + e * Col(dir.w(l), j)(k) {
        ColPathAt(path, net, dir, l, j, k, e);
      }
      SlopeOfAffine(Coord(ColPath(path, l, j), k), Col(net.w(l), j)(k), Col(dir.w(l), j)(k));
    }
  }

  lemma {:induction false} SlopeOfBias(path: real -> Net, net: Net, dir: Net, l: int, j: int)
    requires Line(path, net, dir)
    ensures HasSlope(Coord(BiasPath(path, l), j), net.b(l)(j), dir.b(l)(j))
  {
    hide HasSlope, Line, Coord, BiasPath;
    forall e ensures Coord(BiasPath(path, l), j)(e) == net.b(l)(j) + e * dir.b(l)(j) {
      BiasPathAt(path, net, dir, l, j, e);
    }
    SlopeOfAffine(Coord(BiasPath(path, l), j), net.b(l)(j), dir.b(l)(j));
  }

  lemma {:induction false} LogitStep(net: Net, exp: Exponential, x: Vec, l: nat, j: int)
    ensures Logit(net, exp, x, l + 1)(j)
         == Dot(net.width(l), Activation(net, exp, x, l), Col(net.w(l), j)) + net.b(l)(j)
  {
    hide Activation, Dot, Col;
  }

  lemma {:induction false} LogitPathAt(path: real -> Net, exp: Exponential, x: Vec, l: nat, j: int, e: real)
    requires l > 0
    ensures Coord(LogitPath(path, exp, x, l), j)(e) == Logit(path(e), exp, x, l)(j)
  {
    hide Logit;
  }

  lemma {:induction false} LogitIs(path: real -> Net, net: Net, dir: Net, exp: Exponential, x: Vec, l: nat, j: int,
      e: real)
    requires Line(path, net, dir)
    ensures Coord(LogitPath(path, exp, x, l + 1), j)(e)
         == DotPath(net.width(l), ActivationPath(path, exp, x, l), ColPath(path, l, j))(e)
            + Coord(BiasPath(path, l), j)(e)
  {
    hide Activation, Dot, Logit, LogitPath, Line;
    LineAt(path, net, dir, e);
    LogitPathAt(path, exp, x, l + 1, j, e);
    LogitStep(path(e), exp, x, l, j);
  }

  lemma {:induction false} SlopeOfLogit(h: real -> real, n: nat, u: real -> Vec, u0: Vec, tu: Vec,
      v: real -> Vec, v0: Vec, tv: Vec, b: real -> real, b0: real, tb: real)
    requires VecSlope(n, u, u0, tu) && VecSlope(n, v, v0, tv) && HasSlope(b, b0, tb)
    requires forall e :: h(e) == DotPath(n, u, v)(e) + b(e)
    ensures HasSlope(h, Dot(n, u0, v0) + b0, Dot(n, tu, v0) + Dot(n, u0, tv) + tb)
  {
    hide HasSlope, VecSlope, Coord, DotPath, Dot;
    SlopeOfDot(n, u, u0, tu, v, v0, tv);
    SlopeOfSum(DotPath(n, u, v), Dot(n, u0, v0), Dot(n, tu, v0) + Dot(n, u0, tv), b, b0, tb, h);
  }

  lemma {:induction false} AffineHasSlope(path: real -> Net, net: Net, dir: Net, l: nat, j: int,
      u: real -> Vec, a: Vec, t: Vec, h: real -> real)
    requires Line(path, net, dir)
    requires VecSlope(net.width(l), u, a, t)
    requires forall e :: h(e) == DotPath(net.width(l), u, ColPath(path, l, j))(e) + Coord(BiasPath(path, l), j)(e)
    ensures var n := net.width(l);
      HasSlope(h, Dot(n, a, Col(net.w(l), j)) + net.b(l)(j),
               Dot(n, t, Col(net.w(l), j)) + Dot(n, a, Col(dir.w(l), j)) + dir.b(l)(j))
  {
    hide HasSlope, Line, OnLine, VecSlope, Coord, ColPath, BiasPath, DotPath, Dot, Col;
    var n := net.width(l);
    SlopeOfWeights(path, net, dir, n, l, j);
    SlopeOfBias(path, net, dir, l, j);
    SlopeOfLogit(h, n, u, a, t, ColPath(path, l, j), Col(net.w(l), j), Col(dir.w(l), j),
                 Coord(BiasPath(path, l), j), net.b(l)(j), dir.b(l)(j));
  }

  /** One logit of layer l + 1 has the slope that `TangentLogit` computes for it. */
  lemma {:induction false} LogitHasSlope(path: real -> Net, net: Net, dir: Net, exp: Exponential, x: Vec, l: nat,
      j: int, a: Vec, t: Vec)
    requires Line(path, net, dir)
    requires VecSlope(net.width(l), ActivationPath(path, exp, x, l), a, t)
    ensures var n := net.width(l);
      HasSlope(Coord(LogitPath(path, exp, x, l + 1), j), Dot(n, a, Col(net.w(l), j)) + net.b(l)(j),
               Dot(n, t, Col(net.w(l), j)) + Dot(n, a, Col(dir.w(l), j)) + dir.b(l)(j))
  {
    hide *;
    var h, u := Coord(LogitPath(path, exp, x, l + 1), j), ActivationPath(path, exp, x, l);
    forall e ensures h(e) == DotPath(net.width(l), u, ColPath(path, l, j))(e) + Coord(BiasPath(path, l), j)(e) {
      LogitIs(path, net, dir, exp, x, l, j, e);
    }
    AffineHasSlope(path, net, dir, l, j, u, a, t, h);
  }

  // ---- all layers ----

  lemma {:induction false} TangentStep(p: Pass, dir: Net, l: nat, j: int)
    ensures p.TangentLogit(dir, l + 1)(j) == Dot(p.net.width(l), p.Tangent(dir, l), Col(p.net.w(l), j))
            + Dot(p.net.width(l), p.act(l), Col(dir.w(l), j)) + dir.b(l)(j)
  {
    hide Pass.Tangent, Dot, Col;
  }

  /** The hypothesis of the induction over the layers. */
  ghost predicate ActivationsSlope(path: real -> Net, exp: Exponential, row: Vec, p: Pass, dir: Net, l: nat)
  {
    VecSlope(p.net.width(l), ActivationPath(path, exp, row, l), p.act(l), p.Tangent(dir, l))
  }

  ghost predicate LogitsSlope(path: real -> Net, exp: Exponential, row: Vec, p: Pass, dir: Net, l: nat)
    requires l > 0
  {
    VecSlope(p.net.width(l), LogitPath(path, exp, row, l), Logit(p.net, exp, row, l), p.TangentLogit(dir, l))
  }

  lemma {:induction false} LogitsFollow(path: real -> Net, exp: Exponential, row: Vec, p: Pass, dir: Net, l: nat)
    requires Line(path, p.net, dir) && p.act(l) == Activation(p.net, exp, row, l)
    requires ActivationsSlope(path, exp, row, p, dir, l)
    ensures LogitsSlope(path, exp, row, p, dir, l + 1)
  {
    hide HasSlope, Line, Coord, LogitPath, ActivationPath, Activation, Logit, Pass.Tangent, Pass.TangentLogit, Dot, Col;
    var u, v, t := LogitPath(path, exp, row, l + 1), Logit(p.net, exp, row, l + 1), p.TangentLogit(dir, l + 1);
    forall j | 0 <= j < p.net.width(l + 1) ensures HasSlope(Coord(u, j), v(j), t(j)) {
      LogitHasSlope(path, p.net, dir, exp, row, l, j, p.act(l), p.Tangent(dir, l));
      TangentStep(p, dir, l, j);
      LogitStep(p.net, exp, row, l, j);
    }
  }

  lemma {:induction false} HiddenStep(net: Net, exp: Exponential, x: Vec, l: nat, j: int)
    requires 0 < l < net.depth
    ensures Activation(net, exp, x, l)(j) == Relu(Logit(net, exp, x, l)(j))
  {
    hide Logit, Relu;
  }

  lemma {:induction false} ActivationPathAt(path: real -> Net, exp: Exponential, x: Vec, l: nat, j: int, e: real)
    ensures Coord(ActivationPath(path, exp, x, l), j)(e) == Activation(path(e), exp, x, l)(j)
  {
    hide Activation;
  }

  lemma {:induction false} HiddenIs(path: real -> Net, net: Net, dir: Net, exp: Exponential, x: Vec, l: nat, j: int,
      e: real)
    requires Line(path, net, dir) && 0 < l < net.depth
    ensures Coord(ActivationPath(path, exp, x, l), j)(e) == Relu(Coord(LogitPath(path, exp, x, l), j)(e))
  {
    hide Activation, Logit, LogitPath, ActivationPath, Coord, Line, Relu;
    LineAt(path, net, dir, e);
    HiddenStep(path(e), exp, x, l, j);
    ActivationPathAt(path, exp, x, l, j, e);
    LogitPathAt(path, exp, x, l, j, e);
  }

  lemma {:induction false} TangentOfHidden(p: Pass, dir: Net, l: nat, j: int)
    requires l > 0
    ensures p.Tangent(dir, l)(j) == Mul(SlopeFromValue(p.act(l)(j)), p.TangentLogit(dir, l)(j))
  {
    hide Pass.TangentLogit, SlopeFromValue;
  }

  /** One hidden unit has the slope that `Tangent` computes for it. */
  lemma {:induction false} HiddenHasSlope(path: real -> Net, net: Net, dir: Net, exp: Exponential, x: Vec, l: nat,
      j: int, v: real, t: real)
    requires Line(path, net, dir) && 0 < l < net.depth && v != 0.0
    requires HasSlope(Coord(LogitPath(path, exp, x, l), j), v, t)
    ensures HasSlope(Coord(ActivationPath(path, exp, x, l), j), Relu(v), Mul(SlopeFromValue(Relu(v)), t))
  {
    hide *;
    var f, h := Coord(LogitPath(path, exp, x, l), j), Coord(ActivationPath(path, exp, x, l), j);
    forall e ensures h(e) == Relu(f(e)) {
      HiddenIs(path, net, dir, exp, x, l, j, e);
    }
    SlopeOfRelu(f, v, t, h);
  }

  lemma {:induction false} LogitsSlopeAt(path: real -> Net, exp: Exponential, row: Vec, p: Pass, dir: Net, l: nat,
      j: int)
    requires l > 0 && LogitsSlope(path, exp, row, p, dir, l) && 0 <= j < p.net.width(l)
    ensures HasSlope(Coord(LogitPath(path, exp, row, l), j), Logit(p.net, exp, row, l)(j), p.TangentLogit(dir, l)(j))
  {
    hide HasSlope, Coord, LogitPath, Logit, Pass.TangentLogit, Pass.Tangent;
  }

  lemma {:induction false} RegularAt(net: Net, exp: Exponential, x: Vec, l: nat, j: int)
    requires Regular(net, exp, x) && 0 < l < net.depth && 0 <= j < net.width(l)
    ensures Logit(net, exp, x, l)(j) != 0.0
  {
    hide Logit;
  }

  lemma {:induction false} UnitFollows(path: real -> Net, exp: Exponential, row: Vec, p: Pass, dir: Net, l: nat, j: int)
    requires Line(path, p.net, dir) && 0 < l < p.net.depth && p.act(l) == Activation(p.net, exp, row, l)
    requires Regular(p.net, exp, row) && LogitsSlope(path, exp, row, p, dir, l) && 0 <= j < p.net.width(l)
    ensures HasSlope(Coord(ActivationPath(path, exp, row, l), j), p.act(l)(j), p.Tangent(dir, l)(j))
  {
    hide *;
    RegularAt(p.net, exp, row, l, j);
    LogitsSlopeAt(path, exp, row, p, dir, l, j);
    HiddenHasSlope(path, p.net, dir, exp, row, l, j, Logit(p.net, exp, row, l)(j), p.TangentLogit(dir, l)(j));
    HiddenStep(p.net, exp, row, l, j);
    TangentOfHidden(p, dir, l, j);
  }

  lemma {:induction false} ActivationsFollow(path: real -> Net, exp: Exponential, row: Vec, p: Pass, dir: Net, l: nat)
    requires Line(path, p.net, dir) && 0 < l < p.net.depth && p.act(l) == Activation(p.net, exp, row, l)
    requires Regular(p.net, exp, row) && LogitsSlope(path, exp, row, p, dir, l)
    ensures ActivationsSlope(path, exp, row, p, dir, l)
  {
    hide HasSlope, Line, OnLine, Coord, ActivationPath, Activation, Pass.Tangent, LogitsSlope, Regular;
    var u, a, t := ActivationPath(path, exp, row, l), p.act(l), p.Tangent(dir, l);
    forall j | 0 <= j < p.net.width(l) ensures HasSlope(Coord(u, j), a(j), t(j)) {
      UnitFollows(path, exp, row, p, dir, l, j);
    }
  }

  lemma {:induction false} InputIs(path: real -> Net, exp: Exponential, x: Vec, j: int, e: real)
    ensures Coord(ActivationPath(path, exp, x, 0), j)(e) == x(j)
  {
    hide Activation, Coord, ActivationPath;
    ActivationPathAt(path, exp, x, 0, j, e);
    ActivationZero(path(e), exp, x);
  }

  lemma {:induction false} ActivationZero(net: Net, exp: Exponential, x: Vec)
    ensures Activation(net, exp, x, 0) == x
  {}

  lemma {:induction false} TangentZero(p: Pass, dir: Net, j: int)
    ensures p.Tangent(dir, 0)(j) == 0.0
  {}

  lemma {:induction false} SlopeOfConstant(f: real -> real, v: real)
    requires forall e :: f(e) == v
    ensures HasSlope(f, v, 0.0)
  {
    SlopeOfAffine(f, v, 0.0);
  }

  lemma {:induction false} InputsSlope(path: real -> Net, exp: Exponential, row: Vec, p: Pass, dir: Net)
    requires p.act(0) == row
    ensures ActivationsSlope(path, exp, row, p, dir, 0)
  {
    hide HasSlope, Coord, ActivationPath, Activation, Pass.Tangent;
    var u, a, t := ActivationPath(path, exp, row, 0), p.act(0), p.Tangent(dir, 0);
    forall j | 0 <= j < p.net.width(0) ensures HasSlope(Coord(u, j), a(j), t(j)) {
      forall e ensures Coord(u, j)(e) == row(j) {
        InputIs(path, exp, row, j, e);
      }
      TangentZero(p, dir, j);
      SlopeOfConstant(Coord(u, j), row(j));
    }
  }

  /** Every hidden activation moves, to first order, as its tangent says. */
  lemma {:induction false} TangentsAreSlopes(path: real -> Net, exp: Exponential, row: Vec, p: Pass, dir: Net, l: nat)
    requires Line(path, p.net, dir) && l < p.net.depth && p.act == Trace(p.net, exp, row)
    requires Regular(p.net, exp, row)
    ensures ActivationsSlope(path, exp, row, p, dir, l)
  {
    hide Line, OnLine, ActivationsSlope, LogitsSlope, Regular, Activation, Logit;
    if l == 0 {
      TraceAt(p.net, exp, row, 0);
      InputsSlope(path, exp, row, p, dir);
    } else {
      TangentsAreSlopes(path, exp, row, p, dir, l - 1);
      TraceAt(p.net, exp, row, l - 1);
      TraceAt(p.net, exp, row, l);
      LogitsFollow(path, exp, row, p, dir, l - 1);
      ActivationsFollow(path, exp, row, p, dir, l);
    }
  }

  lemma {:induction false} TraceAt(net: Net, exp: Exponential, x: Vec, l: nat)
    ensures Trace(net, exp, x)(l) == Activation(net, exp, x, l)
    ensures l == 0 ==> Trace(net, exp, x)(l) == x
  {}

  /** So do the logits of the output layer. */
  lemma {:induction false} OutputLogitsSlope(path: real -> Net, exp: Exponential, row: Vec, p: Pass, dir: Net)
    requires Line(path, p.net, dir) && p.net.depth > 0 && p.act == Trace(p.net, exp, row)
    requires Regular(p.net, exp, row)
    ensures LogitsSlope(path, exp, row, p, dir, p.net.depth)
  {
    hide Line, OnLine, ActivationsSlope, LogitsSlope, Regular, Activation, Logit;
    var l := p.net.depth - 1;
    TangentsAreSlopes(path, exp, row, p, dir, l);
    TraceAt(p.net, exp, row, l);
    LogitsFollow(path, exp, row, p, dir, l);
  }
}
