/** What `nn_backprop` returns is the adjoint of forward propagation of a perturbation of the weights
    and biases. Module Loss makes the gradient of it. */
module Gradient {
  import opened Sums
  import opened Network

  // ---- inner products ----

  lemma {:induction false} DotExt(n: nat, u: Vec, v: Vec, u': Vec, v': Vec)
    requires forall k :: 0 <= k < n ==> u(k) == u'(k) && v(k) == v'(k)
    ensures Dot(n, u, v) == Dot(n, u', v')
  {
    if n > 0 {
      DotExt(n - 1, u, v, u', v');
    }
  }

  lemma {:induction false} DotZero(n: nat, u: Vec, v: Vec)
    requires forall k :: 0 <= k < n ==> u(k) == 0.0 || v(k) == 0.0
    ensures Dot(n, u, v) == 0.0
  {
    if n > 0 {
      DotZero(n - 1, u, v);
    }
  }

  lemma {:induction false} AxpyTerm(c: real, d: real, s0: real, w0: real, s: real, rest: real)
    requires s == s0 + c * w0
    ensures d * s == d * s0 + c * (d * w0)
    ensures c * (rest + d * w0) == c * rest + c * (d * w0)
  {
    assert d * (s0 + c * w0) == d * s0 + d * (c * w0);
  }

  lemma {:induction false} DotAxpy(m: nat, c: real, d: Vec, s: Vec, s0: Vec, w0: Vec)
    requires forall j :: 0 <= j < m ==> s(j) == s0(j) + c * w0(j)
    ensures Dot(m, d, s) == Dot(m, d, s0) + c * Dot(m, d, w0)
  {
    if m > 0 {
      DotAxpy(m - 1, c, d, s, s0, w0);
      AxpyTerm(c, d(m - 1), s0(m - 1), w0(m - 1), s(m - 1), Dot(m - 1, d, w0));
    }
  }

  lemma {:induction false} DotScale(m: nat, c: real, d: Vec, s: Vec, v: Vec)
    requires forall j :: 0 <= j < m ==> s(j) == d(j) * c
    ensures Dot(m, s, v) == c * Dot(m, d, v)
  {
    if m > 0 {
      DotScale(m - 1, c, d, s, v);
      AxpyTerm(c, v(m - 1), 0.0, d(m - 1), s(m - 1), Dot(m - 1, d, v));
    }
  }

  // ---- one layer ----

  /** Pairing `d` with the image of `t` under a matrix is pairing `t` with the image of `d`
      under its transpose. */
  lemma {:induction false} TransposeAdjoint(n: nat, m: nat, d: Vec, t: Vec, w: Matrix)
    ensures Dot(m, d, j => Dot(n, t, Col(w, j))) == Dot(n, t, k => Dot(m, d, Row(w, k)))
  {
    if n == 0 {
      DotZero(m, d, j => Dot(n, t, Col(w, j)));
    } else {
      TransposeAdjoint(n - 1, m, d, t, w);
      DotAxpy(m, t(n - 1), d, j => Dot(n, t, Col(w, j)), j => Dot(n - 1, t, Col(w, j)), Row(w, n - 1));
    }
  }

  lemma {:induction false} OuterRow(k: int, m: nat, d: Vec, a: Vec, dw: Matrix, gw: Matrix)
    requires forall j :: 0 <= j < m ==> gw(k, j) == d(j) * a(k)
    ensures a(k) * Dot(m, d, Row(dw, k)) == Dot(m, Row(gw, k), Row(dw, k))
  {
    hide Dot;
    DotScale(m, a(k), d, Row(gw, k), Row(dw, k));
  }

  /** The same for the part of the perturbation that lies in the matrix itself. */
  lemma {:induction false} OuterAdjoint(n: nat, m: nat, d: Vec, a: Vec, dw: Matrix, gw: Matrix)
    requires forall k, j :: 0 <= k < n && 0 <= j < m ==> gw(k, j) == d(j) * a(k)
    ensures Dot(n, a, k => Dot(m, d, Row(dw, k))) == Dot2(n, m, gw, dw)
  {
    if n > 0 {
      OuterAdjoint(n - 1, m, d, a, dw, gw);
      OuterRow(n - 1, m, d, a, dw, gw);
    }
  }

  lemma {:induction false} SlopePairing(m: nat, up: Vec, slope: Vec, d: Vec, t1: Vec, z: Vec)
    requires forall j :: 0 <= j < m ==> d(j) == up(j) * slope(j) && t1(j) == slope(j) * z(j)
    ensures Dot(m, up, t1) == Dot(m, d, z)
  {
    if m > 0 {
      SlopePairing(m - 1, up, slope, d, t1, z);
      assert up(m - 1) * (slope(m - 1) * z(m - 1)) == (up(m - 1) * slope(m - 1)) * z(m - 1);
    }
  }

  lemma {:induction false} DotAdd(m: nat, d: Vec, s: Vec, u: Vec, v: Vec, db: Vec)
    requires forall j :: 0 <= j < m ==> s(j) == u(j) + v(j) + db(j)
    ensures Dot(m, d, s) == Dot(m, d, u) + Dot(m, d, v) + Dot(m, d, db)
  {
    if m > 0 {
      DotAdd(m - 1, d, s, u, v, db);
      assert d(m - 1) * (u(m - 1) + v(m - 1) + db(m - 1))
          == d(m - 1) * u(m - 1) + d(m - 1) * v(m - 1) + d(m - 1) * db(m - 1);
    }
  }

  lemma {:induction false} DotCommutes(n: nat, t: Vec, u: Vec, down: Vec)
    requires forall k :: 0 <= k < n ==> u(k) == down(k)
    ensures Dot(n, t, u) == Dot(n, down, t)
  {
    if n > 0 {
      DotCommutes(n - 1, t, u, down);
    }
  }

  lemma {:induction false} LogitPairing(n: nat, m: nat, d: Vec, t: Vec, z: Vec, a: Vec, db: Vec,
      w: Matrix, dw: Matrix, gw: Matrix)
    requires forall j :: 0 <= j < m ==> z(j) == Dot(n, t, Col(w, j)) + Dot(n, a, Col(dw, j)) + db(j)
    requires forall k, j :: 0 <= k < n && 0 <= j < m ==> gw(k, j) == d(j) * a(k)
    ensures Dot(m, d, z) == Dot(n, t, k => Dot(m, d, Row(w, k))) + Dot2(n, m, gw, dw) + Dot(m, d, db)
  {
    DotAdd(m, d, z, j => Dot(n, t, Col(w, j)), j => Dot(n, a, Col(dw, j)), db);
    TransposeAdjoint(n, m, d, t, w);
    TransposeAdjoint(n, m, d, a, dw);
    OuterAdjoint(n, m, d, a, dw, gw);
  }

  /** One step of the backward loop: `up`, `d` and `down` are the blame above, the deltas and
      the blame below; `t`, `z` and `t1` the tangents below, of the logits and above; `gw` is
      the weight gradient. */
  datatype Step = Step(n: nat, m: nat, up: Vec, slope: Vec, d: Vec, down: Vec, t: Vec, z: Vec, t1: Vec,
                       a: Vec, db: Vec, w: Matrix, dw: Matrix, gw: Matrix) {
    ghost predicate Deltas()
    {
      forall j :: 0 <= j < m ==> d(j) == up(j) * slope(j)
    }

    ghost predicate Tangents()
    {
      forall j :: 0 <= j < m ==> t1(j) == slope(j) * z(j)
    }

    ghost predicate Logits()
    {
      forall j :: 0 <= j < m ==> z(j) == Dot(n, t, Col(w, j)) + Dot(n, a, Col(dw, j)) + db(j)
    }

    ghost predicate Blames()
    {
      forall k :: 0 <= k < n ==> down(k) == Dot(m, d, Row(w, k))
    }

    ghost predicate Weights()
    {
      forall k, j :: 0 <= k < n && 0 <= j < m ==> gw(k, j) == d(j) * a(k)
    }

    lemma {:induction false} UpperHalf()
      requires Deltas() && Tangents()
      ensures Dot(m, up, t1) == Dot(m, d, z)
    {
      SlopePairing(m, up, slope, d, t1, z);
    }

    lemma {:induction false} LowerHalf()
      requires Logits() && Weights()
      ensures Dot(m, d, z) == Dot(n, t, k => Dot(m, d, Row(w, k))) + Dot2(n, m, gw, dw) + Dot(m, d, db)
    {
      LogitPairing(n, m, d, t, z, a, db, w, dw, gw);
    }

    lemma {:induction false} BlameHalf()
      requires Blames()
      ensures Dot(n, t, k => Dot(m, d, Row(w, k))) == Dot(n, down, t)
    {
      DotCommutes(n, t, k => Dot(m, d, Row(w, k)), down);
    }

    lemma {:induction false} Adjoint()
      requires Deltas() && Tangents() && Logits() && Blames() && Weights()
      ensures Dot(m, up, t1) == Dot(n, down, t) + Dot2(n, m, gw, dw) + Dot(m, d, db)
    {
      UpperHalf();
      LowerHalf();
      BlameHalf();
    }
  }

  // ---- all layers of one sample ----

  /** The inner product of the first `l` layers of two networks, over every weight and bias. */
  function NetDot(g: Net, h: Net, l: nat): real
  {
    if l == 0 then 0.0
    else NetDot(g, h, l - 1)
         + Dot2(g.width(l - 1), g.width(l), g.w(l - 1), h.w(l - 1)) + Dot(g.width(l), g.b(l - 1), h.b(l - 1))
  }

  function StepOf(p: Pass, dir: Net, l: nat): Step
  {
    Step(p.net.width(l), p.net.width(l + 1), p.Blame(l + 1), p.Slope(l + 1), p.GradB(l), p.Blame(l),
         p.Tangent(dir, l), p.TangentLogit(dir, l + 1), p.Tangent(dir, l + 1),
         p.act(l), dir.b(l), p.net.w(l), dir.w(l), p.GradW(l))
  }

  lemma {:induction false} PassDeltas(p: Pass, dir: Net, l: nat)
    requires p.s == 1.0 && l < p.net.depth
    ensures StepOf(p, dir, l).Deltas()
  {
    var st := StepOf(p, dir, l);
    forall j ensures st.d(j) == st.up(j) * st.slope(j) {
      assert p.s * st.up(j) == st.up(j);
    }
  }

  lemma {:induction false} PassTangents(p: Pass, dir: Net, l: nat)
    ensures StepOf(p, dir, l).Tangents()
  {}

  lemma {:induction false} PassLogits(p: Pass, dir: Net, l: nat)
    ensures StepOf(p, dir, l).Logits()
  {}

  lemma {:induction false} PassBlames(p: Pass, dir: Net, l: nat)
    requires l < p.net.depth
    ensures StepOf(p, dir, l).Blames() && StepOf(p, dir, l).Weights()
  {}

  lemma {:induction false} BlameTelescopes(p: Pass, dir: Net, l: nat)
    requires p.s == 1.0 && l < p.net.depth
    ensures Dot(p.net.width(l + 1), p.Blame(l + 1), p.Tangent(dir, l + 1))
         == Dot(p.net.width(l), p.Blame(l), p.Tangent(dir, l))
            + Dot2(p.net.width(l), p.net.width(l + 1), p.GradW(l), dir.w(l))
            + Dot(p.net.width(l + 1), p.GradB(l), dir.b(l))
  {
    PassDeltas(p, dir, l);
    PassTangents(p, dir, l);
    PassLogits(p, dir, l);
    PassBlames(p, dir, l);
    StepOf(p, dir, l).Adjoint();
  }

  lemma {:induction false} NoInputTangent(p: Pass, dir: Net)
    ensures Dot(p.net.width(0), p.Blame(0), p.Tangent(dir, 0)) == 0.0
  {
    var t := p.Tangent(dir, 0);
    assert forall k :: t(k) == 0.0;
    DotZero(p.net.width(0), p.Blame(0), t);
  }

  lemma {:induction false} PassAdjointStep(p: Pass, dir: Net, l: nat)
    requires p.s == 1.0 && l < p.net.depth
    requires NetDot(p.Gradient(), dir, l) == Dot(p.net.width(l), p.Blame(l), p.Tangent(dir, l))
    ensures NetDot(p.Gradient(), dir, l + 1) == Dot(p.net.width(l + 1), p.Blame(l + 1), p.Tangent(dir, l + 1))
  {
    BlameTelescopes(p, dir, l);
  }

  lemma {:induction false} PassAdjoint(p: Pass, dir: Net, l: nat)
    requires p.s == 1.0 && l <= p.net.depth
    ensures NetDot(p.Gradient(), dir, l) == Dot(p.net.width(l), p.Blame(l), p.Tangent(dir, l))
  {
    NoInputTangent(p, dir);
    for q := 0 to l
      invariant NetDot(p.Gradient(), dir, q) == Dot(p.net.width(q), p.Blame(q), p.Tangent(dir, q))
    {
      PassAdjointStep(p, dir, q);
    }
  }

  // ---- all samples ----

  lemma {:induction false} DotSum(m: nat, g: Vec, g1: Vec, g2: Vec, v: Vec)
    requires forall j :: 0 <= j < m ==> g(j) == g1(j) + g2(j)
    ensures Dot(m, g, v) == Dot(m, g1, v) + Dot(m, g2, v)
  {
    if m > 0 {
      DotSum(m - 1, g, g1, g2, v);
      assert (g1(m - 1) + g2(m - 1)) * v(m - 1) == g1(m - 1) * v(m - 1) + g2(m - 1) * v(m - 1);
    }
  }

  lemma {:induction false} Dot2Sum(n: nat, m: nat, g: Matrix, g1: Matrix, g2: Matrix, v: Matrix)
    requires forall k, j :: 0 <= k < n && 0 <= j < m ==> g(k, j) == g1(k, j) + g2(k, j)
    ensures Dot2(n, m, g, v) == Dot2(n, m, g1, v) + Dot2(n, m, g2, v)
  {
    if n > 0 {
      Dot2Sum(n - 1, m, g, g1, g2, v);
      DotSum(m, Row(g, n - 1), Row(g1, n - 1), Row(g2, n - 1), Row(v, n - 1));
    }
  }

  lemma {:induction false} NetDotSum(g: Net, h: Net, dir: Net, l: nat)
    requires g.width == h.width
    ensures NetDot(NetSum(g, h), dir, l) == NetDot(g, dir, l) + NetDot(h, dir, l)
  {
    if l > 0 {
      NetDotSum(g, h, dir, l - 1);
      var sum := NetSum(g, h);
      Dot2Sum(g.width(l - 1), g.width(l), sum.w(l - 1), g.w(l - 1), h.w(l - 1), dir.w(l - 1));
      DotSum(g.width(l), sum.b(l - 1), g.b(l - 1), h.b(l - 1), dir.b(l - 1));
    }
  }

  /** One sample's seed paired with the perturbed logits. That this is how its loss moves is
      `Loss.SampleLossHasSlope`. */
  function SampleTangent(p: Pass, dir: Net): real
  {
    if p.net.depth == 0 then 0.0
    else Dot(p.net.width(p.net.depth), p.seed, p.TangentLogit(dir, p.net.depth))
  }

  function LossTangent(net: Net, exp: Exponential, t: Matrix, n: nat, dir: Net, i: nat): real
    requires i <= n
  {
    if i == 0 then 0.0
    else LossTangent(net, exp, t, n, dir, i - 1)
         + SampleTangent(SamplePass(net, exp, Row(t, i - 1), n, 1.0), dir)
  }

  /** The slope the backward loops apply at the output layer is 1, because softmax outputs are
      positive: `dactf` is harmless there although it is the wrong activation's derivative. */
  lemma {:induction false} OutputSlopeIsOne(net: Net, exp: Exponential, row: Vec, n: nat, s: real, j: int)
    requires n > 0 && net.depth > 0 && net.width(net.depth) > 0
    ensures SamplePass(net, exp, row, n, s).Slope(net.depth)(j) == 1.0
  {
    SoftmaxPositive(exp, Logit(net, exp, row, net.depth), net.width(net.depth), j);
  }

  lemma {:induction false} SoftmaxPositive(exp: Exponential, z: Vec, n: nat, j: int)
    requires n > 0
    ensures Softmax(exp, z, n)(j) > 0.0
  {
    PositiveTotal(exp, z, n, n);
    QuotientPositive(Shifted(exp, z, n)(j), Sum(n, Shifted(exp, z, n)));
  }

  lemma {:induction false} QuotientPositive(x: real, y: real)
    requires x > 0.0 && y > 0.0
    ensures x / y > 0.0
  {}

  lemma {:induction false} OutputTangent(p: Pass, dir: Net)
    requires p.net.depth > 0
    requires forall j :: 0 <= j < p.net.width(p.net.depth) ==> p.Slope(p.net.depth)(j) == 1.0
    ensures Dot(p.net.width(p.net.depth), p.Blame(p.net.depth), p.Tangent(dir, p.net.depth))
         == Dot(p.net.width(p.net.depth), p.seed, p.TangentLogit(dir, p.net.depth))
  {
    var l := p.net.depth;
    var qa, t, z := p.Slope(l), p.Tangent(dir, l), p.TangentLogit(dir, l);
    assert forall j :: t(j) == qa(j) * z(j);
    assert forall j :: 0 <= j < p.net.width(l) ==> t(j) == z(j);
    DotExt(p.net.width(l), p.seed, t, p.seed, z);
  }

  lemma {:induction false} OutputAdjoint(p: Pass, dir: Net)
    requires p.s == 1.0
    requires forall j :: 0 <= j < p.net.width(p.net.depth) ==> p.Slope(p.net.depth)(j) == 1.0
    ensures NetDot(p.Gradient(), dir, p.net.depth) == SampleTangent(p, dir)
  {
    PassAdjoint(p, dir, p.net.depth);
    if p.net.depth > 0 {
      OutputTangent(p, dir);
    }
  }

  lemma {:induction false} SampleAdjoint(net: Net, exp: Exponential, row: Vec, n: nat, dir: Net)
    requires n > 0
    ensures NetDot(SamplePass(net, exp, row, n, 1.0).Gradient(), dir, net.depth)
         == SampleTangent(SamplePass(net, exp, row, n, 1.0), dir)
  {
    hide Softmax, Activation, NetDot, Pass.Gradient, Pass.Slope;
    var p := SamplePass(net, exp, row, n, 1.0);
    if net.depth == 0 {
      PassAdjoint(p, dir, 0);
      NoInputTangent(p, dir);
    } else {
      forall j | 0 <= j < net.width(net.depth) ensures p.Slope(net.depth)(j) == 1.0 {
        OutputSlopeIsOne(net, exp, row, n, 1.0, j);
      }
      OutputAdjoint(p, dir);
    }
  }

  lemma {:induction false} BackpropAdjointStep(net: Net, exp: Exponential, t: Matrix, n: nat, dir: Net, i: nat)
    requires i < n
    requires NetDot(BackpropUpTo(net, exp, t, n, 1.0, i), dir, net.depth) == LossTangent(net, exp, t, n, dir, i)
    ensures NetDot(BackpropUpTo(net, exp, t, n, 1.0, i + 1), dir, net.depth) == LossTangent(net, exp, t, n, dir, i + 1)
  {
    SampleAdjoint(net, exp, Row(t, i), n, dir);
    NetDotSum(BackpropUpTo(net, exp, t, n, 1.0, i), SamplePass(net, exp, Row(t, i), n, 1.0).Gradient(), dir, net.depth);
  }

  lemma {:induction false} NoGradient(net: Net, exp: Exponential, t: Matrix, n: nat, dir: Net)
    ensures NetDot(BackpropUpTo(net, exp, t, n, 1.0, 0), dir, net.depth) == 0.0
  {
    NetDotZero(BackpropUpTo(net, exp, t, n, 1.0, 0), dir, net.depth);
  }

  lemma {:induction false} BackpropAdjointUpTo(net: Net, exp: Exponential, t: Matrix, n: nat, dir: Net, i: nat)
    requires i <= n
    ensures NetDot(BackpropUpTo(net, exp, t, n, 1.0, i), dir, net.depth) == LossTangent(net, exp, t, n, dir, i)
  {
    NoGradient(net, exp, t, n, dir);
    for q := 0 to i
      invariant NetDot(BackpropUpTo(net, exp, t, n, 1.0, q), dir, net.depth) == LossTangent(net, exp, t, n, dir, q)
    {
      BackpropAdjointStep(net, exp, t, n, dir, q);
    }
  }

  lemma {:induction false} Dot2Zero(n: nat, m: nat, g: Matrix, v: Matrix)
    requires forall k, j :: 0 <= k < n && 0 <= j < m ==> g(k, j) == 0.0
    ensures Dot2(n, m, g, v) == 0.0
  {
    if n > 0 {
      Dot2Zero(n - 1, m, g, v);
      DotZero(m, Row(g, n - 1), Row(v, n - 1));
    }
  }

  lemma {:induction false} NetDotZero(g: Net, dir: Net, l: nat)
    requires forall i, k, j :: g.w(i)(k, j) == 0.0
    requires forall i, j :: g.b(i)(j) == 0.0
    ensures NetDot(g, dir, l) == 0.0
  {
    if l > 0 {
      NetDotZero(g, dir, l - 1);
      Dot2Zero(g.width(l - 1), g.width(l), g.w(l - 1), dir.w(l - 1));
      DotZero(g.width(l), g.b(l - 1), dir.b(l - 1));
    }
  }

  /** Backprop is the adjoint of the forward pass: for every architecture, sample matrix and
      perturbation of all weights and biases. */
  lemma {:induction false} BackpropIsAdjoint(net: Net, exp: Exponential, t: Matrix, n: nat, dir: Net)
    ensures NetDot(Backprop(net, exp, t, n, 1.0), dir, net.depth) == LossTangent(net, exp, t, n, dir, n)
  {
    BackpropAdjointUpTo(net, exp, t, n, dir, n);
  }
}
