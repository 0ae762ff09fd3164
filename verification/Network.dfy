/** The values a network holds, what `nn_forward` computes from them, and the
    recurrences behind `nn_backprop`. Entries are mathematical reals; vectors and
    matrices are functions of their indices, read only below their sizes. */
module Network {
  import opened Sums

  type Vec = int -> real
  type Matrix = (int, int) -> real

  function Row(w: Matrix, k: int): Vec
  {
    j => w(k, j)
  }

  function Col(w: Matrix, j: int): Vec
  {
    k => w(k, j)
  }

  function Dot(n: nat, u: Vec, v: Vec): real
  {
    if n == 0 then 0.0 else Dot(n - 1, u, v) + u(n - 1) * v(n - 1)
  }

  /** The inner product of two n by m matrices. */
  function Dot2(n: nat, m: nat, u: Matrix, v: Matrix): real
  {
    if n == 0 then 0.0 else Dot2(n - 1, m, u, v) + Dot(m, Row(u, n - 1), Row(v, n - 1))
  }

  // Activations

  const LEAK: real := 0.01

  function Relu(x: real): real
  {
    if x > 0.0 then x else x * LEAK
  }

  /** `y` is the larger of `x` and a hundredth of it. */
  ghost predicate LargerShare(x: real, y: real)
  {
    y >= x && y >= x / 100.0 && (y == x || y == x / 100.0)
  }

  /** The leaky ReLU is continuous and increasing: it passes on between a hundredth and the
      whole of every rise of its argument, and is 0 at 0. */
  lemma {:induction false} ReluIs(x: real, y: real)
    ensures Relu(0.0) == 0.0
    ensures y == Relu(x) <==> LargerShare(x, y)
    ensures x <= y ==> (y - x) / 100.0 <= Relu(y) - Relu(x) <= y - x
  {
  }

  /** The slope of `Relu`, recovered from its value `y` rather than from its argument. */
  function SlopeFromValue(y: real): real
  {
    if y >= 0.0 then 1.0 else LEAK
  }

  /** All that the training code needs of the C library's `exp`: it is positive. */
  type Exponential = e: real -> real | forall x :: e(x) > 0.0
    witness x => 1.0

  /** The running maximum of the first `n` entries; it starts at 0, not at the first entry. */
  function Peak(z: Vec, n: nat): real
  {
    if n == 0 then 0.0
    else if z(n - 1) > Peak(z, n - 1) then z(n - 1)
    else Peak(z, n - 1)
  }

  /** The largest of 0 and the first `n` entries. */
  ghost predicate IsPeak(z: Vec, n: nat, p: real)
  {
    && p >= 0.0
    && (forall j :: 0 <= j < n ==> z(j) <= p)
    && (p == 0.0 || exists j :: 0 <= j < n && z(j) == p)
  }

  lemma {:induction false} PeakIs(z: Vec, n: nat, p: real)
    ensures IsPeak(z, n, Peak(z, n))
    ensures IsPeak(z, n, p) <==> p == Peak(z, n)
  {
    if n > 0 {
      PeakIs(z, n - 1, p);
      var q := Peak(z, n - 1);
      assert q != 0.0 ==> exists j :: 0 <= j < n - 1 && z(j) == q;
      assert z(n - 1) > q ==> z(n - 1) == Peak(z, n);
    }
  }

  function Shifted(exp: Exponential, z: Vec, n: nat): Vec
  {
    j => exp(z(j) - Peak(z, n))
  }

  lemma {:induction false} PositiveTotal(exp: Exponential, z: Vec, n: nat, i: nat)
    requires 0 < i
    ensures Sum(i, Shifted(exp, z, n)) > 0.0
  {
    if i > 1 {
      PositiveTotal(exp, z, n, i - 1);
    }
  }

  function Softmax(exp: Exponential, z: Vec, n: nat): Vec
    requires n > 0
  {
    PositiveTotal(exp, z, n, n);
    j => Shifted(exp, z, n)(j) / Sum(n, Shifted(exp, z, n))
  }

  lemma {:induction false} ShiftedAt(exp: Exponential, z: Vec, n: nat, j: int)
    ensures Shifted(exp, z, n)(j) == exp(z(j) - Peak(z, n))
  {}

  lemma {:induction false} SoftmaxQuotient(exp: Exponential, z: Vec, n: nat, j: int)
    requires n > 0
    ensures Sum(n, Shifted(exp, z, n)) > 0.0
    ensures Softmax(exp, z, n)(j) == Shifted(exp, z, n)(j) / Sum(n, Shifted(exp, z, n))
  {
    hide Shifted;
    PositiveTotal(exp, z, n, n);
  }

  // Networks

  /** `depth` layers of weights: layer l is width(l) by width(l+1). */
  datatype Net = Net(depth: nat, width: int -> nat, w: int -> Matrix, b: int -> Vec)

  /** Output `j` of the affine map (w, b) on a row of length `n`. */
  function Affine(n: nat, a: Vec, w: Matrix, b: Vec, j: int): real
  {
    Dot(n, a, Col(w, j)) + b(j)
  }

  /** What `as[l]` holds after `nn_forward` with input `x`. */
  function Activation(net: Net, exp: Exponential, x: Vec, l: nat): Vec
    decreases l, 1
  {
    if l == 0 then x
    else
      var z := Logit(net, exp, x, l);
      if l == net.depth && net.width(l) > 0 then Softmax(exp, z, net.width(l)) else j => Relu(z(j))
  }

  function Logit(net: Net, exp: Exponential, x: Vec, l: nat): Vec
    requires l > 0
    decreases l, 0
  {
    var a := Activation(net, exp, x, l - 1);
    j => Affine(net.width(l - 1), a, net.w(l - 1), net.b(l - 1), j)
  }

  lemma {:induction false} OutputIs(net: Net, exp: Exponential, x: Vec)
    requires net.depth > 0 && net.width(net.depth) > 0
    ensures Activation(net, exp, x, net.depth) == Softmax(exp, Logit(net, exp, x, net.depth), net.width(net.depth))
  {
    hide Softmax, Logit;
  }

  // Backward recurrences

  /** One sample's backward pass: the activations left by the forward pass, the seed
      written into the output row of the gradient, and the compile-time factor `s`
      (1 with NN_BACKPROP_TRADITIONAL, 2 without). */
  datatype Pass = Pass(net: Net, act: int -> Vec, seed: Vec, s: real) {
    function Slope(l: int): Vec
    {
      j => SlopeFromValue(act(l)(j))
    }

    /** What the gradient's row `as[l]` holds once layer l+1 has been processed. */
    function Blame(l: nat): Vec
      decreases net.depth - l, 1
    {
      if l >= net.depth then seed
      else
        var d := GradB(l);
        k => Dot(net.width(l + 1), d, Row(net.w(l), k))
    }

    /** The sample's gradient of the biases of layer l, `s * da * qa` in the loops. */
    function GradB(l: nat): Vec
      decreases net.depth - l, 0
    {
      if l >= net.depth then j => 0.0
      else
        var da, qa := Blame(l + 1), Slope(l + 1);
        j => s * da(j) * qa(j)
    }

    function GradW(l: nat): Matrix
    {
      var d, pa := GradB(l), act(l);
      (k, j) => d(j) * pa(k)
    }

    function Gradient(): Net
    {
      Net(net.depth, net.width,
          l => if l < 0 then (k, j) => 0.0 else GradW(l),
          l => if l < 0 then j => 0.0 else GradB(l))
    }

    // Forward propagation of a perturbation `dir` of all weights and biases

    function TangentLogit(dir: Net, l: nat): Vec
      requires l > 0
      decreases l, 0
    {
      var t := Tangent(dir, l - 1);
      j => Dot(net.width(l - 1), t, Col(net.w(l - 1), j))
           + Dot(net.width(l - 1), act(l - 1), Col(dir.w(l - 1), j))
           + dir.b(l - 1)(j)
    }

    function Tangent(dir: Net, l: nat): Vec
      decreases l, 1
    {
      if l == 0 then k => 0.0
      else
        var qa, z := Slope(l), TangentLogit(dir, l);
        j => qa(j) * z(j)
    }
  }

  // Training data: each row holds the inputs followed by the one-hot outputs

  /** The forward pass of input `x`, layer by layer. */
  function Trace(net: Net, exp: Exponential, x: Vec): int -> Vec
  {
    l => if l < 0 then x else Activation(net, exp, x, l)
  }

  /** The seed of the backward pass for output `y` and row `row`, one of `n` samples. */
  function Seed(net: Net, y: Vec, row: Vec, n: nat): Vec
    requires n > 0
  {
    j => if row(net.width(0) + j) == 1.0 then (y(j) - 1.0) / n as real else y(j) / n as real
  }

  function SamplePass(net: Net, exp: Exponential, row: Vec, n: nat, s: real): Pass
    requires n > 0
  {
    Pass(net, Trace(net, exp, row), Seed(net, Activation(net, exp, row, net.depth), row, n), s)
  }

  /** The gradient accumulated by `nn_backprop` after the first `i` of the `n` rows of `t`. */
  function BackpropUpTo(net: Net, exp: Exponential, t: Matrix, n: nat, s: real, i: nat): (g: Net)
    requires i <= n
    ensures g.depth == net.depth && g.width == net.width
  {
    if i == 0 then Net(net.depth, net.width, l => (k, j) => 0.0, l => j => 0.0)
    else
      NetSum(BackpropUpTo(net, exp, t, n, s, i - 1), SamplePass(net, exp, Row(t, i - 1), n, s).Gradient())
  }

  /** What `nn_backprop` returns. */
  function Backprop(net: Net, exp: Exponential, t: Matrix, n: nat, s: real): (g: Net)
    ensures g.depth == net.depth && g.width == net.width
  {
    BackpropUpTo(net, exp, t, n, s, n)
  }

  function NetSum(g: Net, h: Net): Net
  {
    Net(g.depth, g.width, l => (k, j) => g.w(l)(k, j) + h.w(l)(k, j), l => j => g.b(l)(j) + h.b(l)(j))
  }

  /** What `nn_learn` leaves in the network. */
  function Learned(net: Net, g: Net, rate: real): Net
  {
    Net(net.depth, net.width, l => (k, j) => net.w(l)(k, j) - rate * g.w(l)(k, j),
                              l => j => net.b(l)(j) - rate * g.b(l)(j))
  }
}
