/** The two compile-time variants of `nn_backprop` and what a step of `nn_learn` does. */
module Descent {
  import opened Network
  import opened Gradient

  // ---- the variants agree up to a power of s per layer ----

  function Pow(s: real, n: nat): real
  {
    if n == 0 then 1.0 else s * Pow(s, n - 1)
  }

  /** The same pass compiled with NN_BACKPROP_TRADITIONAL, where s = 1. */
  function Unscaled(p: Pass): Pass
  {
    p.(s := 1.0)
  }

  ghost predicate Scaled(c: real, u: Vec, v: Vec)
  {
    forall j :: u(j) == c * v(j)
  }

  ghost predicate Scaled2(c: real, u: Matrix, v: Matrix)
  {
    forall k, j :: u(k, j) == c * v(k, j)
  }

  lemma {:induction false} DeltasScaled(s: real, pow: real, up: Vec, up1: Vec, q: Vec, d: Vec, d1: Vec)
    requires Scaled(pow, up, up1)
    requires forall j :: d(j) == s * up(j) * q(j) && d1(j) == 1.0 * up1(j) * q(j)
    ensures Scaled(s * pow, d, d1)
  {
    forall j ensures d(j) == (s * pow) * d1(j) {
      assert s * (pow * up1(j)) * q(j) == (s * pow) * (up1(j) * q(j));
    }
  }

  lemma {:induction false} BlamesScaled(m: nat, pow: real, d: Vec, d1: Vec, w: Matrix, down: Vec, down1: Vec)
    requires Scaled(pow, d, d1)
    requires forall k :: down(k) == Dot(m, d, Row(w, k)) && down1(k) == Dot(m, d1, Row(w, k))
    ensures Scaled(pow, down, down1)
  {
    forall k ensures down(k) == pow * down1(k) {
      DotScale(m, pow, d1, d, Row(w, k));
    }
  }

  lemma {:induction false} WeightsScaled(pow: real, d: Vec, d1: Vec, a: Vec, g: Matrix, g1: Matrix)
    requires Scaled(pow, d, d1)
    requires forall k, j :: g(k, j) == d(j) * a(k) && g1(k, j) == d1(j) * a(k)
    ensures Scaled2(pow, g, g1)
  {
    forall k, j ensures g(k, j) == pow * g1(k, j) {
      assert (pow * d1(j)) * a(k) == pow * (d1(j) * a(k));
    }
  }

  lemma {:induction false} BiasScaling(p: Pass, l: nat)
    requires l < p.net.depth
    requires Scaled(Pow(p.s, p.net.depth - (l + 1)), p.Blame(l + 1), Unscaled(p).Blame(l + 1))
    ensures Scaled(Pow(p.s, p.net.depth - l), p.GradB(l), Unscaled(p).GradB(l))
  {
    var u, pow := Unscaled(p), Pow(p.s, p.net.depth - (l + 1));
    DeltasScaled(p.s, pow, p.Blame(l + 1), u.Blame(l + 1), p.Slope(l + 1), p.GradB(l), u.GradB(l));
  }

  lemma {:induction false} BlameScaling(p: Pass, l: nat)
    requires l < p.net.depth
    requires Scaled(Pow(p.s, p.net.depth - l), p.GradB(l), Unscaled(p).GradB(l))
    ensures Scaled(Pow(p.s, p.net.depth - l), p.Blame(l), Unscaled(p).Blame(l))
  {
    BlamesScaled(p.net.width(l + 1), Pow(p.s, p.net.depth - l), p.GradB(l), Unscaled(p).GradB(l), p.net.w(l),
                 p.Blame(l), Unscaled(p).Blame(l));
  }

  lemma {:induction false} WeightScaling(p: Pass, l: nat)
    requires l < p.net.depth
    requires Scaled(Pow(p.s, p.net.depth - l), p.GradB(l), Unscaled(p).GradB(l))
    ensures Scaled2(Pow(p.s, p.net.depth - l), p.GradW(l), Unscaled(p).GradW(l))
  {
    WeightsScaled(Pow(p.s, p.net.depth - l), p.GradB(l), Unscaled(p).GradB(l), p.act(l),
                  p.GradW(l), Unscaled(p).GradW(l));
  }

  lemma {:induction false} OutputScaling(p: Pass)
    ensures Scaled(Pow(p.s, p.net.depth - p.net.depth), p.Blame(p.net.depth), Unscaled(p).Blame(p.net.depth))
  {
    assert p.Blame(p.net.depth) == p.seed == Unscaled(p).Blame(p.net.depth);
  }

  lemma {:induction false} PassScaling(p: Pass, l: nat)
    requires l < p.net.depth
    ensures Scaled(Pow(p.s, p.net.depth - l), p.GradB(l), Unscaled(p).GradB(l))
    ensures Scaled2(Pow(p.s, p.net.depth - l), p.GradW(l), Unscaled(p).GradW(l))
    ensures Scaled(Pow(p.s, p.net.depth - l), p.Blame(l), Unscaled(p).Blame(l))
    decreases p.net.depth - l
  {
    if l + 1 < p.net.depth {
      PassScaling(p, l + 1);
    } else {
      OutputScaling(p);
    }
    BiasScaling(p, l);
    WeightScaling(p, l);
    BlameScaling(p, l);
  }

  // ---- summed over the samples ----

  lemma {:induction false} SampleScaling(net: Net, exp: Exponential, row: Vec, n: nat, s: real, l: nat)
    requires n > 0 && l < net.depth
    ensures LayerScaled(Pow(s, net.depth - l), SamplePass(net, exp, row, n, s).Gradient(),
                        SamplePass(net, exp, row, n, 1.0).Gradient(), l)
  {
    PassScaling(SamplePass(net, exp, row, n, s), l);
  }

  lemma {:induction false} ScaledSum(c: real, u: Vec, u1: Vec, v: Vec, v1: Vec, sum: Vec, sum1: Vec)
    requires Scaled(c, u, u1) && Scaled(c, v, v1)
    requires forall j :: sum(j) == u(j) + v(j) && sum1(j) == u1(j) + v1(j)
    ensures Scaled(c, sum, sum1)
  {
    forall j ensures sum(j) == c * sum1(j) {
      assert c * (u1(j) + v1(j)) == c * u1(j) + c * v1(j);
    }
  }

  lemma {:induction false} Scaled2Sum(c: real, u: Matrix, u1: Matrix, v: Matrix, v1: Matrix, sum: Matrix, sum1: Matrix)
    requires Scaled2(c, u, u1) && Scaled2(c, v, v1)
    requires forall k, j :: sum(k, j) == u(k, j) + v(k, j) && sum1(k, j) == u1(k, j) + v1(k, j)
    ensures Scaled2(c, sum, sum1)
  {
    forall k, j ensures sum(k, j) == c * sum1(k, j) {
      assert c * (u1(k, j) + v1(k, j)) == c * u1(k, j) + c * v1(k, j);
    }
  }

  /** Layer `l` of `g`, weights and biases, is `c` times the same layer of `h`. */
  ghost predicate LayerScaled(c: real, g: Net, h: Net, l: nat)
  {
    Scaled2(c, g.w(l), h.w(l)) && Scaled(c, g.b(l), h.b(l))
  }

  lemma {:induction false} NetSumScaled(c: real, a: Net, b: Net, p: Net, q: Net, l: nat)
    requires LayerScaled(c, a, b, l) && LayerScaled(c, p, q, l)
    ensures LayerScaled(c, NetSum(a, p), NetSum(b, q), l)
  {
    Scaled2Sum(c, a.w(l), b.w(l), p.w(l), q.w(l), NetSum(a, p).w(l), NetSum(b, q).w(l));
    ScaledSum(c, a.b(l), b.b(l), p.b(l), q.b(l), NetSum(a, p).b(l), NetSum(b, q).b(l));
  }

  lemma {:induction false} BackpropScalingStep(net: Net, exp: Exponential, t: Matrix, n: nat, s: real, i: nat, l: nat)
    requires i < n && l < net.depth
    requires LayerScaled(Pow(s, net.depth - l), BackpropUpTo(net, exp, t, n, s, i),
                         BackpropUpTo(net, exp, t, n, 1.0, i), l)
    ensures LayerScaled(Pow(s, net.depth - l), BackpropUpTo(net, exp, t, n, s, i + 1),
                        BackpropUpTo(net, exp, t, n, 1.0, i + 1), l)
  {
    SampleScaling(net, exp, Row(t, i), n, s, l);
    NetSumScaled(Pow(s, net.depth - l), BackpropUpTo(net, exp, t, n, s, i), BackpropUpTo(net, exp, t, n, 1.0, i),
                 SamplePass(net, exp, Row(t, i), n, s).Gradient(),
                 SamplePass(net, exp, Row(t, i), n, 1.0).Gradient(), l);
  }

  /** Compiled with factor `s`, the gradient of weight layer `l` of a network with L layers is
      exactly s^(L - l) times the true one: 2 for the last layer, 4 for the one before, .... */
  lemma {:induction false} BackpropScaling(net: Net, exp: Exponential, t: Matrix, n: nat, s: real, l: nat)
    requires l < net.depth
    ensures LayerScaled(Pow(s, net.depth - l), Backprop(net, exp, t, n, s), Backprop(net, exp, t, n, 1.0), l)
  {
    for i := 0 to n
      invariant LayerScaled(Pow(s, net.depth - l), BackpropUpTo(net, exp, t, n, s, i),
                            BackpropUpTo(net, exp, t, n, 1.0, i), l)
    {
      BackpropScalingStep(net, exp, t, n, s, i, l);
    }
  }

  // ---- a learning step ----

  /** What `nn_learn` adds to the network. */
  function LearningStep(g: Net, rate: real): Net
  {
    Net(g.depth, g.width, l => (k, j) => -rate * g.w(l)(k, j), l => j => -rate * g.b(l)(j))
  }

  lemma {:induction false} DotScaleRight(m: nat, c: real, u: Vec, v: Vec)
    requires forall j :: 0 <= j < m ==> v(j) == c * u(j)
    ensures Dot(m, u, v) == c * Dot(m, u, u)
  {
    if m > 0 {
      DotScaleRight(m - 1, c, u, v);
      AxpyTerm(c, u(m - 1), 0.0, u(m - 1), v(m - 1), Dot(m - 1, u, u));
    }
  }

  lemma {:induction false} Dot2ScaleRight(n: nat, m: nat, c: real, u: Matrix, v: Matrix)
    requires forall k, j :: 0 <= k < n && 0 <= j < m ==> v(k, j) == c * u(k, j)
    ensures Dot2(n, m, u, v) == c * Dot2(n, m, u, u)
  {
    if n > 0 {
      Dot2ScaleRight(n - 1, m, c, u, v);
      DotScaleRight(m, c, Row(u, n - 1), Row(v, n - 1));
    }
  }

  /** The squared norm of layer `l` of a gradient. */
  function LayerNorm(g: Net, l: nat): real
  {
    Dot2(g.width(l), g.width(l + 1), g.w(l), g.w(l)) + Dot(g.width(l + 1), g.b(l), g.b(l))
  }

  /** The layers' squared norms, each with its own coefficient. */
  function CombinedNorm(g: Net, c: int -> real, l: nat): real
  {
    if l == 0 then 0.0 else CombinedNorm(g, c, l - 1) + c(l - 1) * LayerNorm(g, l - 1)
  }

  ghost predicate LayerZero(g: Net, l: nat)
  {
    && (forall k, j :: 0 <= k < g.width(l) && 0 <= j < g.width(l + 1) ==> g.w(l)(k, j) == 0.0)
    && (forall j :: 0 <= j < g.width(l + 1) ==> g.b(l)(j) == 0.0)
  }

  /** Multiplication, with the sign of the product stated: the solver does not find it for x * x. */
  function SignedProduct(x: real, y: real): (q: real)
    ensures x > 0.0 && y > 0.0 ==> q > 0.0
    ensures x < 0.0 && y < 0.0 ==> q > 0.0
    ensures x == 0.0 || y == 0.0 ==> q == 0.0
  {
    x * y
  }

  lemma {:induction false} DotSquare(m: nat, u: Vec)
    ensures Dot(m, u, u) >= 0.0
    ensures (forall j :: 0 <= j < m ==> u(j) == 0.0) ==> Dot(m, u, u) == 0.0
    ensures forall j :: 0 <= j < m && u(j) != 0.0 ==> Dot(m, u, u) > 0.0
  {
    if m > 0 {
      DotSquare(m - 1, u);
      assert Dot(m, u, u) == Dot(m - 1, u, u) + SignedProduct(u(m - 1), u(m - 1));
    }
  }

  lemma {:induction false} Dot2Square(n: nat, m: nat, u: Matrix)
    ensures Dot2(n, m, u, u) >= 0.0
    ensures (forall k, j :: 0 <= k < n && 0 <= j < m ==> u(k, j) == 0.0) ==> Dot2(n, m, u, u) == 0.0
    ensures forall k, j :: 0 <= k < n && 0 <= j < m && u(k, j) != 0.0 ==> Dot2(n, m, u, u) > 0.0
  {
    if n > 0 {
      Dot2Square(n - 1, m, u);
      DotSquare(m, Row(u, n - 1));
      forall k, j | 0 <= k < n && 0 <= j < m && u(k, j) != 0.0 ensures Dot2(n, m, u, u) > 0.0 {
        assert k == n - 1 ==> Row(u, n - 1)(j) != 0.0;
      }
    }
  }

  lemma {:induction false} LayerNormZero(g: Net, l: nat)
    ensures LayerNorm(g, l) >= 0.0
    ensures LayerNorm(g, l) == 0.0 <==> LayerZero(g, l)
  {
    Dot2Square(g.width(l), g.width(l + 1), g.w(l));
    DotSquare(g.width(l + 1), g.b(l));
  }

  lemma {:induction false} PowPositive(s: real, n: nat)
    requires s > 0.0
    ensures Pow(s, n) > 0.0
  {
    if n > 0 {
      PowPositive(s, n - 1);
    }
  }

  lemma {:induction false} CombinedNormZero(g: Net, c: int -> real, l: nat)
    requires forall i :: 0 <= i < l ==> c(i) < 0.0
    ensures CombinedNorm(g, c, l) <= 0.0
    ensures CombinedNorm(g, c, l) == 0.0 <==> forall i: nat :: i < l ==> LayerZero(g, i)
  {
    if l > 0 {
      CombinedNormZero(g, c, l - 1);
      LayerNormZero(g, l - 1);
      ProductZero(c(l - 1), LayerNorm(g, l - 1));
    }
  }

  lemma {:induction false} ProductZero(x: real, y: real)
    requires x < 0.0 && y >= 0.0
    ensures x * y <= 0.0 && (x * y == 0.0 <==> y == 0.0)
  {}

  lemma {:induction false} Distribute(c: real, a: real, b: real)
    ensures c * (a + b) == c * a + c * b
  {
  }

  lemma {:induction false} LayerStepDot(g: Net, step: Net, c: real, l: nat)
    requires LayerScaled(c, step, g, l)
    ensures Dot2(g.width(l), g.width(l + 1), g.w(l), step.w(l)) + Dot(g.width(l + 1), g.b(l), step.b(l))
         == c * LayerNorm(g, l)
  {
    hide Dot, Dot2;
    Dot2ScaleRight(g.width(l), g.width(l + 1), c, g.w(l), step.w(l));
    DotScaleRight(g.width(l + 1), c, g.b(l), step.b(l));
    Distribute(c, Dot2(g.width(l), g.width(l + 1), g.w(l), g.w(l)), Dot(g.width(l + 1), g.b(l), g.b(l)));
  }

  lemma {:induction false} NetStepDot1(g: Net, step: Net, c: int -> real, l: nat)
    requires LayerScaled(c(l), step, g, l)
    requires NetDot(g, step, l) == CombinedNorm(g, c, l)
    ensures NetDot(g, step, l + 1) == CombinedNorm(g, c, l + 1)
  {
    LayerStepDot(g, step, c(l), l);
  }

  lemma {:induction false} NetStepDot(g: Net, step: Net, c: int -> real)
    requires forall l: nat :: l < g.depth ==> LayerScaled(c(l), step, g, l)
    ensures NetDot(g, step, g.depth) == CombinedNorm(g, c, g.depth)
  {
    for l := 0 to g.depth
      invariant NetDot(g, step, l) == CombinedNorm(g, c, l)
    {
      NetStepDot1(g, step, c, l);
    }
  }

  lemma {:induction false} ScaledTwice(c: real, d: real, u: Vec, v: Vec, w: Vec)
    requires Scaled(c, u, v) && Scaled(d, v, w)
    ensures Scaled(c * d, u, w)
  {
    forall j ensures u(j) == (c * d) * w(j) {
      assert c * (d * w(j)) == (c * d) * w(j);
    }
  }

  lemma {:induction false} Scaled2Twice(c: real, d: real, u: Matrix, v: Matrix, w: Matrix)
    requires Scaled2(c, u, v) && Scaled2(d, v, w)
    ensures Scaled2(c * d, u, w)
  {
    forall k, j ensures u(k, j) == (c * d) * w(k, j) {
      assert c * (d * w(k, j)) == (c * d) * w(k, j);
    }
  }

  lemma {:induction false} StepLayerScaled(g: Net, h: Net, rate: real, pow: real, l: nat)
    requires LayerScaled(pow, g, h, l)
    ensures LayerScaled(-rate * pow, LearningStep(g, rate), h, l)
  {
    Scaled2Twice(-rate, pow, LearningStep(g, rate).w(l), g.w(l), h.w(l));
    ScaledTwice(-rate, pow, LearningStep(g, rate).b(l), g.b(l), h.b(l));
  }

  /** Every layer of `g` is the power of `s` due to it times the same layer of `h`. */
  ghost predicate NetScaled(g: Net, h: Net, s: real)
  {
    forall l: nat :: l < h.depth ==> PowerScaled(h.depth, g, h, s, l)
  }

  ghost predicate PowerScaled(depth: nat, g: Net, h: Net, s: real, l: nat)
    requires l < depth
  {
    LayerScaled(Pow(s, depth - l), g, h, l)
  }

  lemma {:induction false} BackpropPowerScaled(net: Net, exp: Exponential, t: Matrix, n: nat, s: real, l: nat)
    requires l < net.depth
    ensures PowerScaled(net.depth, Backprop(net, exp, t, n, s), Backprop(net, exp, t, n, 1.0), s, l)
  {
    BackpropScaling(net, exp, t, n, s, l);
  }

  lemma {:induction false} BackpropNetScaled(net: Net, exp: Exponential, t: Matrix, n: nat, s: real)
    ensures NetScaled(Backprop(net, exp, t, n, s), Backprop(net, exp, t, n, 1.0), s)
  {
    var g, h := Backprop(net, exp, t, n, s), Backprop(net, exp, t, n, 1.0);
    forall l: nat | l < h.depth ensures PowerScaled(h.depth, g, h, s, l) {
      BackpropPowerScaled(net, exp, t, n, s, l);
    }
  }

  function StepFactor(depth: nat, s: real, rate: real): int -> real
  {
    l => if 0 <= l < depth then -rate * Pow(s, depth - l) else 0.0
  }

  lemma {:induction false} StepFactors(g: Net, h: Net, s: real, rate: real)
    requires NetScaled(g, h, s)
    ensures forall l: nat :: l < h.depth ==> LayerScaled(StepFactor(h.depth, s, rate)(l), LearningStep(g, rate), h, l)
  {
    forall l: nat | l < h.depth
      ensures LayerScaled(StepFactor(h.depth, s, rate)(l), LearningStep(g, rate), h, l)
    {
      assert PowerScaled(h.depth, g, h, s, l);
      StepLayerScaled(g, h, rate, Pow(s, h.depth - l), l);
    }
  }

  lemma {:induction false} StepFactorsNegative(depth: nat, s: real, rate: real)
    requires s > 0.0 && rate > 0.0
    ensures forall l :: 0 <= l < depth ==> StepFactor(depth, s, rate)(l) < 0.0
  {
    forall l | 0 <= l < depth ensures StepFactor(depth, s, rate)(l) < 0.0 {
      PowPositive(s, depth - l);
      ProductZero(-rate, Pow(s, depth - l));
    }
  }

  /** A learning step points down the gradient `h` when every layer of `g` is a positive multiple of
      the same layer of `h`, unless `h` is zero. */
  lemma {:induction false} StepDescends(g: Net, h: Net, s: real, rate: real)
    requires s > 0.0 && rate > 0.0 && NetScaled(g, h, s)
    ensures NetDot(h, LearningStep(g, rate), h.depth) <= 0.0
    ensures NetDot(h, LearningStep(g, rate), h.depth) == 0.0 <==> forall l: nat :: l < h.depth ==> LayerZero(h, l)
  {
    StepFactors(g, h, s, rate);
    StepFactorsNegative(h.depth, s, rate);
    NetStepDot(h, LearningStep(g, rate), StepFactor(h.depth, s, rate));
    CombinedNormZero(h, StepFactor(h.depth, s, rate), h.depth);
  }
}
