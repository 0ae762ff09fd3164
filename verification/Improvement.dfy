/** What a step of `nn_learn` does to the loss. */
module Improvement {
  import opened Sums
  import opened Network
  import opened Gradient
  import opened Descent
  import opened Smooth
  import opened Logarithm
  import opened Tangents
  import opened Loss

  // ---- the loss sees only the entries within the widths ----

  ghost predicate Agree(n: nat, u: Vec, v: Vec)
  {
    forall j :: 0 <= j < n ==> u(j) == v(j)
  }

  lemma {:induction false} PeakAgrees(n: nat, u: Vec, v: Vec)
    requires Agree(n, u, v)
    ensures Peak(u, n) == Peak(v, n)
  {
    if n > 0 {
      PeakAgrees(n - 1, u, v);
    }
  }

  lemma {:induction false} SumAgrees(n: nat, u: Vec, v: Vec)
    requires Agree(n, u, v)
    ensures Sum(n, u) == Sum(n, v)
  {
    if n > 0 {
      SumAgrees(n - 1, u, v);
    }
  }

  lemma {:induction false} DotAgrees(n: nat, d: Vec, u: Vec, v: Vec)
    requires Agree(n, u, v)
    ensures Dot(n, d, u) == Dot(n, d, v)
  {
    DotExt(n, d, u, d, v);
  }

  lemma {:induction false} SoftmaxAgrees(exp: Exponential, u: Vec, v: Vec, n: nat)
    requires Agree(n, u, v) && n > 0
    ensures Agree(n, Softmax(exp, u, n), Softmax(exp, v, n))
  {
    hide Shifted, Peak, Softmax;
    PeakAgrees(n, u, v);
    forall j | 0 <= j < n ensures Shifted(exp, u, n)(j) == Shifted(exp, v, n)(j) {
      ShiftedAt(exp, u, n, j);
      ShiftedAt(exp, v, n, j);
    }
    SumAgrees(n, Shifted(exp, u, n), Shifted(exp, v, n));
    forall j | 0 <= j < n ensures Softmax(exp, u, n)(j) == Softmax(exp, v, n)(j) {
      SoftmaxQuotient(exp, u, n, j);
      SoftmaxQuotient(exp, v, n, j);
    }
  }

  /** Two networks with the same architecture and the same numbers. */
  ghost predicate SameNet(a: Net, b: Net)
  {
    && a.depth == b.depth && a.width == b.width
    && forall l: nat :: l < a.depth ==> SameLayer(a, b, l)
  }

  ghost predicate SameLayer(a: Net, b: Net, l: nat)
  {
    && (forall k, j :: 0 <= k < a.width(l) && 0 <= j < a.width(l + 1) ==> a.w(l)(k, j) == b.w(l)(k, j))
    && (forall j :: 0 <= j < a.width(l + 1) ==> a.b(l)(j) == b.b(l)(j))
  }

  lemma {:induction false} LogitAgrees(a: Net, b: Net, exp: Exponential, x: Vec, l: nat)
    requires a.width == b.width && SameLayer(a, b, l)
    requires Agree(a.width(l), Activation(a, exp, x, l), Activation(b, exp, x, l))
    ensures Agree(a.width(l + 1), Logit(a, exp, x, l + 1), Logit(b, exp, x, l + 1))
  {
    hide Activation, Logit, Dot;
    var n, u, v := a.width(l), Activation(a, exp, x, l), Activation(b, exp, x, l);
    var y, z := Logit(a, exp, x, l + 1), Logit(b, exp, x, l + 1);
    forall j | 0 <= j < a.width(l + 1) ensures y(j) == z(j) {
      DotExt(n, u, Col(a.w(l), j), v, Col(b.w(l), j));
      LogitStep(a, exp, x, l, j);
      LogitStep(b, exp, x, l, j);
    }
  }

  lemma {:induction false} ActivationIs(net: Net, exp: Exponential, x: Vec, l: nat, j: int)
    requires l > 0
    ensures Activation(net, exp, x, l)(j)
         == if l == net.depth && net.width(l) > 0 then Softmax(exp, Logit(net, exp, x, l), net.width(l))(j)
            else Relu(Logit(net, exp, x, l)(j))
  {
    hide Logit, Softmax, Relu;
  }

  lemma {:induction false} ActivationFollows(a: Net, b: Net, exp: Exponential, x: Vec, l: nat)
    requires a.depth == b.depth && a.width == b.width && l > 0
    requires Agree(a.width(l), Logit(a, exp, x, l), Logit(b, exp, x, l))
    ensures Agree(a.width(l), Activation(a, exp, x, l), Activation(b, exp, x, l))
  {
    hide Activation, Logit, Softmax, Relu;
    if a.width(l) > 0 {
      SoftmaxAgrees(exp, Logit(a, exp, x, l), Logit(b, exp, x, l), a.width(l));
    }
    var u, v := Activation(a, exp, x, l), Activation(b, exp, x, l);
    forall j | 0 <= j < a.width(l) ensures u(j) == v(j) {
      ActivationIs(a, exp, x, l, j);
      ActivationIs(b, exp, x, l, j);
    }
  }

  lemma {:induction false} ActivationsAgree(a: Net, b: Net, exp: Exponential, x: Vec, l: nat)
    requires SameNet(a, b) && l <= a.depth
    ensures Agree(a.width(l), Activation(a, exp, x, l), Activation(b, exp, x, l))
  {
    hide Agree, SameLayer, Activation, Logit;
    if l == 0 {
      ActivationZero(a, exp, x);
      ActivationZero(b, exp, x);
      AgreesWithItself(a.width(0), x);
    } else {
      ActivationsAgree(a, b, exp, x, l - 1);
      LogitAgrees(a, b, exp, x, l - 1);
      ActivationFollows(a, b, exp, x, l);
    }
  }

  lemma {:induction false} AgreesWithItself(n: nat, u: Vec)
    ensures Agree(n, u, u)
  {}

  lemma {:induction false} RowLossAgrees(a: Net, b: Net, exp: Exponential, ln: real -> real, row: Vec)
    requires SameNet(a, b)
    ensures RowLoss(a, exp, ln, row) == RowLoss(b, exp, ln, row)
  {
    hide SameLayer, Activation, Dot, Label;
    ActivationsAgree(a, b, exp, row, a.depth);
    DotAgrees(a.width(a.depth), Label(row, a.width(0)), LogOf(ln, Activation(a, exp, row, a.depth)),
              LogOf(ln, Activation(b, exp, row, b.depth)));
  }

  lemma {:induction false} LossUpToAgrees(a: Net, b: Net, exp: Exponential, ln: real -> real, t: Matrix, i: nat)
    requires SameNet(a, b)
    ensures LossUpTo(a, exp, ln, t, i) == LossUpTo(b, exp, ln, t, i)
  {
    hide SameNet, RowLoss;
    if i > 0 {
      LossUpToAgrees(a, b, exp, ln, t, i - 1);
      RowLossAgrees(a, b, exp, ln, Row(t, i - 1));
    }
  }

  // ---- a step with no gradient ----

  ghost predicate GradientZero(g: Net)
  {
    forall l: nat :: l < g.depth ==> LayerZero(g, l)
  }

  lemma {:induction false} ScaledZero(c: real, g: Net, h: Net, l: nat)
    requires LayerScaled(c, g, h, l) && LayerZero(h, l) && g.width == h.width
    ensures LayerZero(g, l)
  {
  }

  lemma {:induction false} BackpropZero(net: Net, exp: Exponential, t: Matrix, n: nat, s: real)
    requires GradientZero(Backprop(net, exp, t, n, 1.0))
    ensures GradientZero(Backprop(net, exp, t, n, s))
  {
    hide LayerZero, LayerScaled, BackpropUpTo;
    var g, h := Backprop(net, exp, t, n, s), Backprop(net, exp, t, n, 1.0);
    forall l: nat | l < net.depth ensures LayerZero(g, l) {
      BackpropScaling(net, exp, t, n, s, l);
      assert LayerZero(h, l);
      ScaledZero(Pow(s, net.depth - l), g, h, l);
    }
  }

  lemma {:induction false} NothingLearned(net: Net, g: Net, rate: real)
    requires GradientZero(g) && g.depth == net.depth && g.width == net.width
    ensures SameNet(net, Learned(net, g, rate))
  {
    forall l: nat | l < net.depth ensures SameLayer(net, Learned(net, g, rate), l) {
      assert LayerZero(g, l);
    }
  }

  // ---- a step along a gradient ----

  function LearnedPath(net: Net, g: Net): real -> Net
  {
    rate => Learned(net, g, rate)
  }

  lemma {:induction false} LearnedAt(net: Net, g: Net, rate: real)
    requires g.depth == net.depth && g.width == net.width
    ensures OnLine(LearnedPath(net, g)(rate), net, LearningStep(g, 1.0), rate)
  {
    var p, dir := Learned(net, g, rate), LearningStep(g, 1.0);
    forall l, k, j ensures p.w(l)(k, j) == net.w(l)(k, j) + rate * dir.w(l)(k, j) {
      assert rate * (-1.0 * g.w(l)(k, j)) == -(rate * g.w(l)(k, j));
    }
    forall l, j ensures p.b(l)(j) == net.b(l)(j) + rate * dir.b(l)(j) {
      assert rate * (-1.0 * g.b(l)(j)) == -(rate * g.b(l)(j));
    }
  }

  lemma {:induction false} LearnedLine(net: Net, g: Net)
    requires g.depth == net.depth && g.width == net.width
    ensures Line(LearnedPath(net, g), net, LearningStep(g, 1.0))
  {
    hide OnLine, LearnedPath, LearningStep;
    forall rate ensures OnLine(LearnedPath(net, g)(rate), net, LearningStep(g, 1.0), rate) {
      LearnedAt(net, g, rate);
    }
  }

  /** Every learning rate below `d` lowers the loss. */
  ghost predicate LowersBelow(net: Net, g: Net, exp: Exponential, ln: real -> real, t: Matrix, n: nat, d: real)
    requires n > 0
  {
    forall rate :: 0.0 < rate < d ==> MeanLoss(Learned(net, g, rate), exp, ln, t, n) < MeanLoss(net, exp, ln, t, n)
  }

  /** Every small enough learning rate lowers the loss. */
  ghost predicate Lowers(net: Net, g: Net, exp: Exponential, ln: real -> real, t: Matrix, n: nat)
    requires n > 0
  {
    exists d :: d > 0.0 && LowersBelow(net, g, exp, ln, t, n, d)
  }

  lemma {:induction false} LearnedLossAt(net: Net, g: Net, exp: Exponential, ln: real -> real, t: Matrix, n: nat,
      rate: real)
    requires n > 0
    ensures LossPath(LearnedPath(net, g), exp, ln, t, n)(rate) == MeanLoss(Learned(net, g, rate), exp, ln, t, n)
  {
    hide MeanLoss, Learned;
  }

  lemma {:induction false} SlopeLowers(net: Net, g: Net, exp: Exponential, ln: real -> real, t: Matrix, n: nat, s: real)
    requires n > 0 && s < 0.0
    requires HasSlope(LossPath(LearnedPath(net, g), exp, ln, t, n), MeanLoss(net, exp, ln, t, n), s)
    ensures Lowers(net, g, exp, ln, t, n)
  {
    hide HasSlope, Expands, LossPath, LearnedPath, MeanLoss, Learned;
    var d := StepsDown(LossPath(LearnedPath(net, g), exp, ln, t, n), MeanLoss(net, exp, ln, t, n), s);
    forall rate | 0.0 < rate < d ensures MeanLoss(Learned(net, g, rate), exp, ln, t, n) < MeanLoss(net, exp, ln, t, n) {
      LearnedLossAt(net, g, exp, ln, t, n, rate);
    }
    assert LowersBelow(net, g, exp, ln, t, n, d);
  }

  lemma {:induction false} LossUnchanged(net: Net, g: Net, exp: Exponential, ln: real -> real, t: Matrix, n: nat,
      rate: real)
    requires n > 0 && GradientZero(g) && g.depth == net.depth && g.width == net.width
    ensures MeanLoss(Learned(net, g, rate), exp, ln, t, n) == MeanLoss(net, exp, ln, t, n)
  {
    hide GradientZero, SameNet, LossUpTo, Learned;
    NothingLearned(net, g, rate);
    LossUpToAgrees(net, Learned(net, g, rate), exp, ln, t, n);
  }

  lemma {:induction false} NothingLowered(net: Net, g: Net, exp: Exponential, ln: real -> real, t: Matrix, n: nat)
    requires n > 0
    requires forall rate :: MeanLoss(Learned(net, g, rate), exp, ln, t, n) == MeanLoss(net, exp, ln, t, n)
    ensures !Lowers(net, g, exp, ln, t, n)
  {
    hide MeanLoss, Learned;
    if Lowers(net, g, exp, ln, t, n) {
      var d :| d > 0.0 && LowersBelow(net, g, exp, ln, t, n, d);
      assert MeanLoss(Learned(net, g, d / 2.0), exp, ln, t, n) < MeanLoss(net, exp, ln, t, n);
    }
  }

  /** In both compile-time variants every small enough learning rate lowers the mean cross entropy of
      the samples, unless their gradient is zero, when no rate changes it. */
  lemma {:induction false} LearningDescends(net: Net, exp: Exponential, ln: real -> real, t: Matrix, n: nat, s: real)
    requires Natural(exp) && Inverts(ln, exp) && Proper(net, exp, t, n) && n > 0 && s > 0.0
    ensures Lowers(net, Backprop(net, exp, t, n, s), exp, ln, t, n) <==> !GradientZero(Backprop(net, exp, t, n, 1.0))
    ensures GradientZero(Backprop(net, exp, t, n, 1.0)) ==>
      var g := Backprop(net, exp, t, n, s);
      forall rate :: MeanLoss(Learned(net, g, rate), exp, ln, t, n) == MeanLoss(net, exp, ln, t, n)
  {
    hide Natural, Multiplies, AboveLine, Inverts, Proper, ProperRow, Backprop, MeanLoss, Learned, LearningStep,
      HasSlope, Expands, LossPath, LearnedPath, Lowers, Line, OnLine, NetScaled, PowerScaled, LayerZero, NetDot;
    var g, h := Backprop(net, exp, t, n, s), Backprop(net, exp, t, n, 1.0);
    if GradientZero(h) {
      BackpropZero(net, exp, t, n, s);
      forall rate ensures MeanLoss(Learned(net, g, rate), exp, ln, t, n) == MeanLoss(net, exp, ln, t, n) {
        LossUnchanged(net, g, exp, ln, t, n, rate);
      }
      NothingLowered(net, g, exp, ln, t, n);
    } else {
      var dir := LearningStep(g, 1.0);
      LearnedLine(net, g);
      BackpropIsDerivative(LearnedPath(net, g), net, dir, exp, ln, t, n);
      BackpropNetScaled(net, exp, t, n, s);
      StepDescends(g, h, s, 1.0);
      SlopeLowers(net, g, exp, ln, t, n, NetDot(h, dir, net.depth));
    }
  }
}
