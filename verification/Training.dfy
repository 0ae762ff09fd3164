/** `nn_forward`, `nn_backprop` and `nn_learn` on the arrays they update, tied to what
    module Network says they compute. */
module Training {
  import opened Sums
  import opened Network
  import opened Matrices
  import Gradient

  predicate Distinct(ms: seq<array2<real>>)
  {
    forall k, l :: 0 <= k < l < |ms| ==> ms[k] != ms[l]
  }

  predicate Disjoint(ms: seq<array2<real>>, ns: seq<array2<real>>)
  {
    forall k, l :: 0 <= k < |ms| && 0 <= l < |ns| ==> ms[k] != ns[l]
  }

  lemma {:induction false} DistinctSnoc(ms: seq<array2<real>>, m: array2<real>)
    requires Distinct(ms) && m !in ms
    ensures Distinct(ms + [m])
  {
  }

  lemma {:induction false} DisjointSnoc(ms: seq<array2<real>>, m: array2<real>, ns: seq<array2<real>>, n: array2<real>)
    requires Disjoint(ms, ns) && m != n && m !in ns && n !in ms
    ensures Disjoint(ms + [m], ns + [n])
  {
  }

  /** The struct `NN`: it owns no numbers, only the arrays that hold them. */
  datatype NN = NN(arch: seq<nat>, ws: seq<array2<real>>, bs: seq<array2<real>>, acts: seq<array2<real>>) {
    predicate Shaped()
    {
      && |acts| == |arch| == |ws| + 1 == |bs| + 1
      && (forall l :: 0 <= l < |acts| ==> acts[l].Length0 == 1 && acts[l].Length1 == arch[l])
      && (forall l {:trigger ws[l]} {:trigger bs[l]} :: 0 <= l < |ws| ==>
            && ws[l].Length0 == arch[l] && ws[l].Length1 == arch[l + 1]
            && bs[l].Length0 == 1 && bs[l].Length1 == arch[l + 1])
    }

    /** No two of the arrays are the same. */
    predicate Apart()
    {
      && Distinct(acts) && Distinct(ws) && Distinct(bs)
      && Disjoint(acts, ws) && Disjoint(acts, bs) && Disjoint(ws, bs)
    }

    ghost predicate Valid()
    {
      Shaped() && Apart()
    }

    function Depth(): nat
    {
      |ws|
    }

    /** The weight and bias arrays hold `w` and `b`. */
    ghost predicate Carries(w: int -> Matrix, b: int -> Vec)
      requires Shaped()
      reads ws, bs
    {
      forall l :: 0 <= l < |ws| ==> Holds(ws[l], w(l)) && HoldsRow(bs[l], b(l))
    }

    /** The network in the arrays is `net`. */
    ghost predicate Represents(net: Net)
      requires Shaped()
      reads ws, bs
    {
      net.depth == |ws| && (forall l :: 0 <= l < |arch| ==> net.width(l) == arch[l]) && Carries(net.w, net.b)
    }
  }

  // The three loops that turn the output row into its softmax, in place

  /** The largest of 0 and the entries of the row. */
  method FindPeak(m: array2<real>, ghost z: Vec) returns (max: real)
    requires HoldsRow(m, z)
    ensures IsPeak(z, m.Length1, max) && max == Peak(z, m.Length1)
  {
    max := 0.0;
    for j := 0 to m.Length1
      invariant max == Peak(z, j)
    {
      if m[0, j] > max {
        max := m[0, j];
      }
    }
    PeakIs(z, m.Length1, max);
  }

  method ShiftRow(m: array2<real>, exp: real -> real, max: real, ghost z: Vec, ghost e: Vec) returns (sum: real)
    requires HoldsRow(m, z) && forall q :: 0 <= q < m.Length1 ==> e(q) == exp(z(q) - max)
    modifies m
    ensures HoldsRow(m, e) && sum == Sum(m.Length1, e)
  {
    sum := 0.0;
    for j := 0 to m.Length1
      invariant sum == Sum(j, e)
      invariant forall q :: 0 <= q < j ==> m[0, q] == e(q)
      invariant forall q :: j <= q < m.Length1 ==> m[0, q] == z(q)
    {
      m[0, j] := exp(m[0, j] - max);
      sum := sum + m[0, j];
    }
  }

  method DivideRow(m: array2<real>, sum: real, ghost e: Vec)
    requires HoldsRow(m, e) && (m.Length1 > 0 ==> sum != 0.0)
    modifies m
    ensures forall q :: 0 <= q < m.Length1 ==> m[0, q] == e(q) / sum
  {
    for j := 0 to m.Length1
      invariant forall q :: 0 <= q < j ==> m[0, q] == e(q) / sum
      invariant forall q :: j <= q < m.Length1 ==> m[0, q] == e(q)
    {
      m[0, j] := m[0, j] / sum;
    }
  }

  lemma {:induction false} ShiftedIs(exp: Exponential, z: Vec, n: nat)
    ensures forall j :: Shifted(exp, z, n)(j) == exp(z(j) - Peak(z, n))
  {
    hide Peak;
  }

  lemma {:induction false} TotalIsNot0(exp: Exponential, z: Vec, n: nat)
    ensures n > 0 ==> Sum(n, Shifted(exp, z, n)) != 0.0
  {
    if n > 0 {
      PositiveTotal(exp, z, n, n);
    }
  }

  lemma {:induction false} SoftmaxIs(m: array2<real>, exp: Exponential, z: Vec)
    requires m.Length0 == 1 && (m.Length1 > 0 ==> Sum(m.Length1, Shifted(exp, z, m.Length1)) != 0.0)
    requires forall q :: 0 <= q < m.Length1 ==>
      m[0, q] == Shifted(exp, z, m.Length1)(q) / Sum(m.Length1, Shifted(exp, z, m.Length1))
    ensures m.Length1 > 0 ==> HoldsRow(m, Softmax(exp, z, m.Length1))
  {
    hide Shifted;
    if m.Length1 > 0 {
      PositiveTotal(exp, z, m.Length1, m.Length1);
    }
  }

  method SoftmaxRow(m: array2<real>, exp: Exponential, ghost z: Vec)
    requires HoldsRow(m, z)
    modifies m
    ensures m.Length1 > 0 ==> HoldsRow(m, Softmax(exp, z, m.Length1))
  {
    hide *;
    ghost var e := Shifted(exp, z, m.Length1);
    var max := FindPeak(m, z);
    ShiftedIs(exp, z, m.Length1);
    var sum := ShiftRow(m, exp, max, z, e);
    TotalIsNot0(exp, z, m.Length1);
    DivideRow(m, sum, e);
    SoftmaxIs(m, exp, z);
  }

  lemma {:induction false} AffineOfProduct(n: nat, a: Vec, w: Matrix, b: Vec, j: int)
    ensures Product(n, (p, q) => a(q), w)(0, j) + b(j) == Affine(n, a, w, b, j)
  {
    Gradient.DotExt(n, Row((p, q) => a(q), 0), Col(w, j), a, Col(w, j));
  }

  /** One layer up to its logits: `mat_dot` and `mat_sum`. */
  method AffineRow(dst: array2<real>, src: array2<real>, wm: array2<real>, bm: array2<real>,
                   ghost a: Vec, ghost w: Matrix, ghost b: Vec)
    requires HoldsRow(src, a) && Holds(wm, w) && HoldsRow(bm, b)
    requires dst.Length0 == 1 && src.Length1 == wm.Length0 && dst.Length1 == wm.Length1 == bm.Length1
    requires dst != src && dst != wm && dst != bm
    modifies dst
    ensures HoldsRow(dst, j => Affine(wm.Length0, a, w, b, j))
  {
    ghost var n := wm.Length0;
    MatDot(dst, src, wm, (p, q) => a(q), w);
    MatSum(dst, bm, Product(n, (p, q) => a(q), w), (p, q) => b(q));
    forall j | 0 <= j < dst.Length1 ensures dst[0, j] == Affine(n, a, w, b, j) {
      AffineOfProduct(n, a, w, b, j);
    }
  }

  method ReluRow(m: array2<real>, ghost z: Vec)
    requires HoldsRow(m, z)
    modifies m
    ensures HoldsRow(m, j => Relu(z(j)))
  {
    MatRelu(m, (p, q) => z(q));
  }

  /** Holds of every index. It says nothing: facts about all entries are stated under it so that the
      verifier takes them up for the entries a proof names, and for no others. */
  predicate Index(k: int, j: int)
  {
    true
  }

  /** `act` obeys the forward recurrence from layer `l` to the next. */
  ghost predicate Follows(net: Net, exp: Exponential, act: int -> Vec, l: nat)
  {
    var z := j => Affine(net.width(l), act(l), net.w(l), net.b(l), j);
    forall j {:trigger Index(l, j)} :: Index(l, j) ==>
      act(l + 1)(j) == if l + 1 == net.depth && net.width(l + 1) > 0 then Softmax(exp, z, net.width(l + 1))(j)
          else Relu(z(j))
  }

  lemma {:induction false} TraceFollows(net: Net, exp: Exponential, x: Vec, l: nat)
    ensures Follows(net, exp, Trace(net, exp, x), l)
  {
    var act := Trace(net, exp, x);
    var z := j => Affine(net.width(l), act(l), net.w(l), net.b(l), j);
    assert Logit(net, exp, x, l + 1) == z;
  }

  /** One iteration of the loop of `nn_forward`. */
  method ForwardLayer(nn: NN, exp: Exponential, l: nat, ghost net: Net, ghost act: int -> Vec)
    requires nn.Valid() && nn.Represents(net) && l < nn.Depth() && Follows(net, exp, act, l)
    requires HoldsRow(nn.acts[l], act(l))
    modifies nn.acts[l + 1]
    ensures HoldsRow(nn.acts[l + 1], act(l + 1))
  {
    var dst := nn.acts[l + 1];
    AffineRow(dst, nn.acts[l], nn.ws[l], nn.bs[l], act(l), net.w(l), net.b(l));
    ghost var z := j => Affine(net.width(l), act(l), net.w(l), net.b(l), j);
    assert HoldsRow(dst, z);
    if l == nn.Depth() - 1 {
      SoftmaxRow(dst, exp, z);
    } else {
      ReluRow(dst, z);
    }
    forall j | 0 <= j < dst.Length1 ensures dst[0, j] == act(l + 1)(j) {
      assert Index(l, j);
    }
  }

  /** `ForwardLayer`, with what it leaves alone. */
  method ForwardMove(nn: NN, exp: Exponential, l: nat, ghost net: Net, ghost act: int -> Vec)
    requires nn.Valid() && nn.Represents(net) && l < nn.Depth() && Follows(net, exp, act, l)
    requires forall q :: 0 <= q <= l ==> HoldsRow(nn.acts[q], act(q))
    modifies nn.acts[l + 1]
    ensures nn.Represents(net)
    ensures forall q :: 0 <= q <= l + 1 ==> HoldsRow(nn.acts[q], act(q))
  {
    label before:
    ForwardLayer(nn, exp, l, net, act);
    forall q | 0 <= q < nn.Depth() ensures Holds(nn.ws[q], net.w(q)) && HoldsRow(nn.bs[q], net.b(q)) {
      assert old@before(Holds(nn.ws[q], net.w(q)) && HoldsRow(nn.bs[q], net.b(q)));
    }
    forall q | 0 <= q <= l ensures HoldsRow(nn.acts[q], act(q)) {
      assert old@before(HoldsRow(nn.acts[q], act(q)));
    }
  }

  /** A hidden activation is the larger of its logit and a hundredth of it. */
  lemma {:induction false} HiddenShare(net: Net, exp: Exponential, x: Vec, l: nat, j: int)
    requires 0 < l < net.depth
    ensures LargerShare(Logit(net, exp, x, l)(j), Trace(net, exp, x)(l)(j))
  {
    hide Logit, LargerShare, Relu;
    var v := Logit(net, exp, x, l)(j);
    ReluIs(v, Relu(v));
  }

  method Forward(nn: NN, exp: Exponential, ghost net: Net, ghost x: Vec)
    requires nn.Valid() && nn.Represents(net)
    requires HoldsRow(nn.acts[0], x)
    modifies nn.acts[1..]
    ensures nn.Represents(net)
    ensures forall l :: 0 <= l < |nn.acts| ==> HoldsRow(nn.acts[l], Trace(net, exp, x)(l))
    ensures forall l, j :: 0 < l < nn.Depth() && 0 <= j < nn.arch[l] ==>
      LargerShare(Logit(net, exp, x, l)(j), nn.acts[l][0, j])
  {
    ghost var act := Trace(net, exp, x);
    for l := 0 to nn.Depth()
      invariant nn.Represents(net)
      invariant forall q :: 0 <= q <= l ==> HoldsRow(nn.acts[q], act(q))
    {
      assert nn.acts[1..][l] == nn.acts[l + 1];
      TraceFollows(net, exp, x, l);
      ForwardMove(nn, exp, l, net, act);
    }
    forall l, j | 0 < l < nn.Depth() && 0 <= j < nn.arch[l]
      ensures LargerShare(Logit(net, exp, x, l)(j), nn.acts[l][0, j])
    {
      HiddenShare(net, exp, x, l, j);
    }
  }

  // ---- nn_backprop ----

  /** What the backward loops of one layer must leave behind: `w1` and `b1` in the gradient's
      weights and biases, `blame(j)` in its row of activations after the first j units. */
  datatype LayerGoal = LayerGoal(w0: Matrix, w1: Matrix, b0: Vec, b1: Vec, blame: int -> Vec) {
    ghost predicate For(d: Vec, a: Vec, w: Matrix)
    {
      && (forall k, j {:trigger Index(k, j)} :: Index(k, j) && 0 <= j ==> w1(k, j) == w0(k, j) + d(j) * a(k))
      && (forall j :: b1(j) == b0(j) + d(j))
      && (forall k, j {:trigger Index(k, j)} :: Index(k, j) && 0 <= j ==>
            blame(j + 1)(k) == blame(j)(k) + d(j) * w(k, j))
    }

    ghost predicate Reached(j: int, gb: array2<real>, gw: array2<real>, gdown: array2<real>)
      reads gb, gw, gdown
    {
      && gb.Length0 == gdown.Length0 == 1
      && (forall q :: 0 <= q < gb.Length1 ==> gb[0, q] == if q < j then b1(q) else b0(q))
      && (forall k, q :: 0 <= k < gw.Length0 && 0 <= q < gw.Length1 ==> gw[k, q] == if q < j then w1(k, q)
          else w0(k, q))
      && (forall k :: 0 <= k < gdown.Length1 ==> gdown[0, k] == blame(j)(k))
    }
  }

  /** The innermost loop: unit `j` of a layer hands its delta down. */
  method BackUnit(delta: real, j: nat, adown: array2<real>, wm: array2<real>, gw: array2<real>, gdown: array2<real>,
                  ghost a: Vec, ghost w: Matrix, ghost c0: Matrix, ghost c1: Matrix, ghost z0: Vec, ghost z1: Vec)
    requires wm.Length0 == gw.Length0 == gdown.Length1 == adown.Length1 && wm.Length1 == gw.Length1
    requires adown.Length0 == gdown.Length0 == 1 && j < wm.Length1
    requires gw != gdown && {gw, gdown} !! {adown, wm}
    requires forall k :: 0 <= k < wm.Length0 ==> adown[0, k] == a(k) && wm[k, j] == w(k, j)
    requires forall k :: 0 <= k < wm.Length0 ==> gw[k, j] == c0(k, j) && gdown[0, k] == z0(k)
    requires forall k {:trigger Index(k, j)} :: Index(k, j) ==>
      c1(k, j) == c0(k, j) + delta * a(k) && z1(k) == z0(k) + delta * w(k, j)
    modifies gw, gdown
    ensures forall k :: 0 <= k < gw.Length0 ==> gw[k, j] == c1(k, j) && gdown[0, k] == z1(k)
    ensures forall k, q :: 0 <= k < gw.Length0 && 0 <= q < gw.Length1 && q != j ==> gw[k, q] == old(gw[k, q])
  {
    for k := 0 to adown.Length1
      invariant forall p :: 0 <= p < k ==> gw[p, j] == c1(p, j) && gdown[0, p] == z1(p)
      invariant forall p :: k <= p < gw.Length0 ==> gw[p, j] == c0(p, j) && gdown[0, p] == z0(p)
      invariant forall p, q :: 0 <= p < gw.Length0 && 0 <= q < gw.Length1 && q != j ==> gw[p, q] == old(gw[p, q])
    {
      assert Index(k, j);
      gw[k, j] := gw[k, j] + delta * adown[0, k];
      gdown[0, k] := gdown[0, k] + delta * wm[k, j];
    }
  }

  method BackActivation(delta: real, j: nat, adown: array2<real>, wm: array2<real>,
                        gb: array2<real>, gw: array2<real>, gdown: array2<real>,
                        ghost d: Vec, ghost a: Vec, ghost w: Matrix, ghost goal: LayerGoal)
    requires adown.Length0 == gb.Length0 == gdown.Length0 == 1
    requires wm.Length0 == gw.Length0 == gdown.Length1 == adown.Length1 && wm.Length1 == gw.Length1 == gb.Length1
    requires gb != gw && gb != gdown && gw != gdown && {gb, gw, gdown} !! {adown, wm}
    requires j < wm.Length1 && delta == d(j) && HoldsRow(adown, a) && Holds(wm, w)
    requires goal.For(d, a, w) && goal.Reached(j, gb, gw, gdown)
    modifies gb, gw, gdown
    ensures goal.Reached(j + 1, gb, gw, gdown)
  {
    gb[0, j] := gb[0, j] + delta;
    BackUnit(delta, j, adown, wm, gw, gdown, a, w, goal.w0, goal.w1, goal.blame(j), goal.blame(j + 1));
  }

  /** The activation loop of one layer; `d` names its deltas `s * da * qa`. */
  method BackLayer(s: real, aup: array2<real>, gup: array2<real>, adown: array2<real>, wm: array2<real>,
                   gb: array2<real>, gw: array2<real>, gdown: array2<real>,
                   ghost d: Vec, ghost a: Vec, ghost w: Matrix, ghost goal: LayerGoal)
    requires aup.Length0 == gup.Length0 == adown.Length0 == gb.Length0 == gdown.Length0 == 1
    requires wm.Length0 == gw.Length0 == gdown.Length1 == adown.Length1
    requires wm.Length1 == gw.Length1 == gb.Length1 == aup.Length1 == gup.Length1
    requires gb != gw && gb != gdown && gw != gdown && {gb, gw, gdown} !! {aup, gup, adown, wm}
    requires HoldsRow(adown, a) && Holds(wm, w)
    requires goal.For(d, a, w) && goal.Reached(0, gb, gw, gdown)
    requires forall j :: 0 <= j < aup.Length1 ==> d(j) == s * gup[0, j] * SlopeFromValue(aup[0, j])
    modifies gb, gw, gdown
    ensures goal.Reached(aup.Length1, gb, gw, gdown)
  {
    for j := 0 to aup.Length1
      invariant goal.Reached(j, gb, gw, gdown)
    {
      var qa := SlopeFromValue(aup[0, j]);
      BackActivation(s * gup[0, j] * qa, j, adown, wm, gb, gw, gdown, d, a, w, goal);
    }
  }

  function PartialBlame(d: Vec, w: Matrix): int -> Vec
  {
    j => k => if j < 0 then 0.0 else Dot(j, d, Row(w, k))
  }

  /** The goal for a layer with deltas `d`, input row `a` and weights `w`, whose gradient held
      `w0` and `b0` before. */
  function GoalOf(d: Vec, a: Vec, w: Matrix, w0: Matrix, b0: Vec): LayerGoal
  {
    LayerGoal(w0, (k, j) => w0(k, j) + d(j) * a(k), b0, j => b0(j) + d(j), PartialBlame(d, w))
  }

  lemma {:induction false} BlameGrows(d: Vec, w: Matrix, k: int, j: nat)
    ensures PartialBlame(d, w)(j + 1)(k) == PartialBlame(d, w)(j)(k) + d(j) * w(k, j)
  {
    assert Dot(j + 1, d, Row(w, k)) == Dot(j, d, Row(w, k)) + d(j) * w(k, j);
  }

  lemma {:induction false} GoalFits(d: Vec, a: Vec, w: Matrix, w0: Matrix, b0: Vec)
    ensures GoalOf(d, a, w, w0, b0).For(d, a, w)
  {
    var goal := GoalOf(d, a, w, w0, b0);
    forall k, j {:trigger Index(k, j)} | Index(k, j) && 0 <= j
      ensures goal.blame(j + 1)(k) == goal.blame(j)(k) + d(j) * w(k, j)
    {
      BlameGrows(d, w, k, j);
    }
  }

  /** Everything the layer loop reads and writes for one sample, by layer: activations, weights
      and deltas; the blame that must come to stand in the gradient's rows of activations; and
      the gradient before (`w0`, `b0`) and after (`w1`, `b1`). */
  datatype Script = Script(width: int -> nat, act: int -> Vec, w: int -> Matrix, delta: int -> Vec, blame: int -> Vec,
                           w0: int -> Matrix, b0: int -> Vec, w1: int -> Matrix, b1: int -> Vec) {
    // The equations of layer `l`

    ghost predicate Deltas(s: real, l: int)
    {
      forall j {:trigger Index(l, j)} :: Index(l, j) ==>
        delta(l)(j) == s * blame(l + 1)(j) * SlopeFromValue(act(l + 1)(j)) && b1(l)(j) == b0(l)(j) + delta(l)(j)
    }

    ghost predicate Weights(l: int)
    {
      forall k, j {:trigger Index(k, j)} :: Index(k, j) ==> w1(l)(k, j) == w0(l)(k, j) + delta(l)(j) * act(l)(k)
    }

    ghost predicate Blames(l: int)
    {
      forall k {:trigger Index(k, l)} :: Index(k, l) ==> blame(l)(k) == Dot(width(l + 1), delta(l), Row(w(l), k))
    }

    ghost predicate Layer(s: real, l: int)
    {
      Deltas(s, l) && Weights(l) && Blames(l)
    }

    ghost function Goal(l: int): LayerGoal
    {
      GoalOf(delta(l), act(l), w(l), w0(l), b0(l))
    }
  }

  /** The gradient arrays while the backward loop is at layer `l`: layers from `l` on hold the
      new sums and row `l` the blame; earlier layers hold the old sums and zero rows. */
  ghost predicate BackAt(g: NN, l: nat, sc: Script)
    requires g.Shaped() && l <= g.Depth()
    reads g.ws, g.bs, g.acts
  {
    && (forall q :: 0 <= q < l ==>
          Holds(g.ws[q], sc.w0(q)) && HoldsRow(g.bs[q], sc.b0(q)) && HoldsRow(g.acts[q], k => 0.0))
    && (forall q :: l <= q < g.Depth() ==> Holds(g.ws[q], sc.w1(q)) && HoldsRow(g.bs[q], sc.b1(q)))
    && HoldsRow(g.acts[l], sc.blame(l))
  }

  /** What the backward loop reads of the network. */
  ghost predicate ForwardDone(nn: NN, sc: Script)
    requires nn.Shaped()
    reads nn.ws, nn.acts
  {
    && (forall l :: 0 <= l < |nn.arch| ==> sc.width(l) == nn.arch[l])
    && (forall l :: 0 <= l < |nn.ws| ==> Holds(nn.ws[l], sc.w(l)))
    && (forall l :: 0 <= l < |nn.acts| ==> HoldsRow(nn.acts[l], sc.act(l)))
  }

  /** No array that the backward loop writes is one it reads of the network. */
  predicate Separate(nn: NN, g: NN)
  {
    && Disjoint(nn.ws, g.ws) && Disjoint(nn.ws, g.bs) && Disjoint(nn.ws, g.acts)
    && Disjoint(nn.acts, g.ws) && Disjoint(nn.acts, g.bs) && Disjoint(nn.acts, g.acts)
  }

  predicate BiasesSeparate(nn: NN, g: NN)
  {
    Disjoint(nn.bs, g.ws) && Disjoint(nn.bs, g.bs) && Disjoint(nn.bs, g.acts)
  }

  lemma {:induction false} LayerApart(nn: NN, g: NN, l: nat)
    requires nn.Shaped() && g.Valid() && nn.arch == g.arch && Separate(nn, g) && l < g.Depth()
    ensures g.bs[l] != g.ws[l] && g.bs[l] != g.acts[l] && g.ws[l] != g.acts[l]
    ensures {g.bs[l], g.ws[l], g.acts[l]} !! {nn.acts[l + 1], g.acts[l + 1], nn.acts[l], nn.ws[l]}
  {
  }

  lemma {:induction false} DeltasAre(sc: Script, s: real, l: nat, up: array2<real>, a: array2<real>)
    requires sc.Layer(s, l) && HoldsRow(up, sc.blame(l + 1)) && HoldsRow(a, sc.act(l + 1)) && up.Length1 == a.Length1
    ensures forall j :: 0 <= j < a.Length1 ==> sc.delta(l)(j) == s * up[0, j] * SlopeFromValue(a[0, j])
  {
    forall j | 0 <= j < a.Length1 ensures sc.delta(l)(j) == s * up[0, j] * SlopeFromValue(a[0, j]) {
      assert Index(l, j);
    }
  }

  lemma {:induction false} GoalStarts(sc: Script, l: nat, gb: array2<real>, gw: array2<real>, gdown: array2<real>)
    requires Holds(gw, sc.w0(l)) && HoldsRow(gb, sc.b0(l)) && HoldsRow(gdown, k => 0.0)
    ensures sc.Goal(l).Reached(0, gb, gw, gdown)
  {
    forall k ensures PartialBlame(sc.delta(l), sc.w(l))(0)(k) == 0.0 {
      assert Dot(0, sc.delta(l), Row(sc.w(l), k)) == 0.0;
    }
  }

  lemma {:induction false} GoalReached(sc: Script, s: real, l: nat, gb: array2<real>, gw: array2<real>,
      gdown: array2<real>)
    requires gb.Length1 == gw.Length1 == sc.width(l + 1) && sc.Layer(s, l)
    requires sc.Goal(l).Reached(gw.Length1, gb, gw, gdown)
    ensures Holds(gw, sc.w1(l)) && HoldsRow(gb, sc.b1(l)) && HoldsRow(gdown, sc.blame(l))
  {
    forall k, j | 0 <= k < gw.Length0 && 0 <= j < gw.Length1 ensures gw[k, j] == sc.w1(l)(k, j) {
      assert Index(k, j);
    }
    forall j | 0 <= j < gb.Length1 ensures gb[0, j] == sc.b1(l)(j) {
      assert Index(l, j);
    }
    forall k | 0 <= k < gdown.Length1 ensures gdown[0, k] == sc.blame(l)(k) {
      assert Index(k, l);
    }
  }

  /** One iteration of the layer loop, at layer `l`. */
  method BackStep(nn: NN, g: NN, s: real, l: nat, ghost sc: Script)
    requires nn.Shaped() && g.Valid() && nn.arch == g.arch && Separate(nn, g) && ForwardDone(nn, sc)
    requires l < g.Depth() && sc.Layer(s, l)
    requires Holds(g.ws[l], sc.w0(l)) && HoldsRow(g.bs[l], sc.b0(l)) && HoldsRow(g.acts[l], k => 0.0)
    requires HoldsRow(g.acts[l + 1], sc.blame(l + 1))
    modifies g.ws[l], g.bs[l], g.acts[l]
    ensures Holds(g.ws[l], sc.w1(l)) && HoldsRow(g.bs[l], sc.b1(l)) && HoldsRow(g.acts[l], sc.blame(l))
  {
    LayerApart(nn, g, l);
    GoalStarts(sc, l, g.bs[l], g.ws[l], g.acts[l]);
    DeltasAre(sc, s, l, g.acts[l + 1], nn.acts[l + 1]);
    GoalFits(sc.delta(l), sc.act(l), sc.w(l), sc.w0(l), sc.b0(l));
    BackLayer(s, nn.acts[l + 1], g.acts[l + 1], nn.acts[l], nn.ws[l], g.bs[l], g.ws[l], g.acts[l],
              sc.delta(l), sc.act(l), sc.w(l), sc.Goal(l));
    GoalReached(sc, s, l, g.bs[l], g.ws[l], g.acts[l]);
  }

  /** `BackStep`, with what it leaves alone. */
  method BackMove(nn: NN, g: NN, s: real, l: nat, ghost sc: Script)
    requires nn.Shaped() && g.Valid() && nn.arch == g.arch && Separate(nn, g) && ForwardDone(nn, sc)
    requires l < g.Depth() && sc.Layer(s, l)
    requires BackAt(g, l + 1, sc)
    modifies g.ws[l], g.bs[l], g.acts[l]
    ensures BackAt(g, l, sc)
  {
    label before:
    BackStep(nn, g, s, l, sc);
    forall q | 0 <= q < l
      ensures Holds(g.ws[q], sc.w0(q)) && HoldsRow(g.bs[q], sc.b0(q)) && HoldsRow(g.acts[q], k => 0.0)
    {
      assert old@before(Holds(g.ws[q], sc.w0(q)) && HoldsRow(g.bs[q], sc.b0(q)) && HoldsRow(g.acts[q], k => 0.0));
    }
    forall q | l < q < g.Depth() ensures Holds(g.ws[q], sc.w1(q)) && HoldsRow(g.bs[q], sc.b1(q)) {
      assert old@before(Holds(g.ws[q], sc.w1(q)) && HoldsRow(g.bs[q], sc.b1(q)));
    }
  }

  method BackMoveBeside(nn: NN, g: NN, s: real, l: nat, ghost sc: Script)
    requires nn.Shaped() && g.Valid() && nn.arch == g.arch && Separate(nn, g) && ForwardDone(nn, sc)
    requires l < g.Depth() && sc.Layer(s, l)
    requires BackAt(g, l + 1, sc)
    modifies g.ws[l], g.bs[l], g.acts[l]
    ensures BackAt(g, l, sc) && ForwardDone(nn, sc)
  {
    label before:
    BackMove(nn, g, s, l, sc);
    forall q | 0 <= q < |nn.acts| ensures HoldsRow(nn.acts[q], sc.act(q)) {
      assert old@before(HoldsRow(nn.acts[q], sc.act(q)));
    }
    forall q | 0 <= q < nn.Depth() ensures Holds(nn.ws[q], sc.w(q)) {
      assert old@before(Holds(nn.ws[q], sc.w(q)));
    }
  }

  /** The layer loop, from the output layer down. */
  method BackSample(nn: NN, g: NN, s: real, ghost sc: Script)
    requires nn.Shaped() && g.Valid() && nn.arch == g.arch && Separate(nn, g) && ForwardDone(nn, sc)
    requires forall l :: 0 <= l < g.Depth() ==> sc.Layer(s, l)
    requires BackAt(g, g.Depth(), sc)
    modifies g.ws, g.bs, g.acts
    ensures BackAt(g, 0, sc)
  {
    for l := g.Depth() downto 0
      invariant BackAt(g, l, sc)
      invariant ForwardDone(nn, sc)
    {
      BackMoveBeside(nn, g, s, l, sc);
    }
  }

  // ---- the sample loop ----

  ghost predicate Zero(m: array2<real>)
    reads m
  {
    Holds(m, (k, j) => 0.0)
  }

  function WithLayer(nn: NN, w: array2<real>, b: array2<real>, a: array2<real>): NN
  {
    NN(nn.arch + [a.Length1], nn.ws + [w], nn.bs + [b], nn.acts + [a])
  }

  lemma {:induction false} WithLayerValid(nn: NN, w: array2<real>, b: array2<real>, a: array2<real>)
    requires nn.Valid() && |nn.arch| > 0
    requires b.Length0 == a.Length0 == 1 && w.Length0 == nn.arch[|nn.arch| - 1] && w.Length1 == b.Length1 == a.Length1
    requires w != b && w != a && b != a
    requires forall m :: m in nn.ws || m in nn.bs || m in nn.acts ==> m != w && m != b && m != a
    ensures WithLayer(nn, w, b, a).Valid()
  {
    DistinctSnoc(nn.acts, a);
    DistinctSnoc(nn.ws, w);
    DistinctSnoc(nn.bs, b);
    DisjointSnoc(nn.acts, a, nn.ws, w);
    DisjointSnoc(nn.acts, a, nn.bs, b);
    DisjointSnoc(nn.ws, w, nn.bs, b);
  }

  /** `nn_alloc`: every matrix and row in storage of its own. */
  method NnAlloc(arch: seq<nat>) returns (nn: NN)
    requires |arch| > 0
    ensures nn.Valid() && nn.arch == arch
    ensures fresh(nn.ws) && fresh(nn.bs) && fresh(nn.acts)
  {
    var first := new real[1, arch[0]];
    nn := NN([arch[0]], [], [], [first]);
    for i := 1 to |arch|
      invariant nn.Valid() && nn.arch == arch[..i]
      invariant fresh(nn.ws) && fresh(nn.bs) && fresh(nn.acts)
    {
      var w := new real[arch[i - 1], arch[i]];
      var b := new real[1, arch[i]];
      var a := new real[1, arch[i]];
      WithLayerValid(nn, w, b, a);
      nn := WithLayer(nn, w, b, a);
    }
  }

  method FillRows(ms: seq<array2<real>>)
    modifies ms
    ensures forall q :: 0 <= q < |ms| ==> Zero(ms[q])
  {
    for j := 0 to |ms|
      invariant forall q :: 0 <= q < j ==> Zero(ms[q])
    {
      MatFill(ms[j], 0.0);
    }
  }

  /** `nn_zero`. */
  method NnZero(nn: NN)
    requires nn.Valid()
    modifies nn.ws, nn.bs, nn.acts
    ensures forall q :: 0 <= q < nn.Depth() ==> Zero(nn.ws[q]) && Zero(nn.bs[q])
  {
    for i := 0 to nn.Depth()
      invariant forall q :: 0 <= q < i ==> Zero(nn.ws[q]) && Zero(nn.bs[q])
    {
      MatFill(nn.ws[i], 0.0);
      MatFill(nn.bs[i], 0.0);
      MatFill(nn.acts[i], 0.0);
    }
    MatFill(nn.acts[nn.Depth()], 0.0);
  }

  method CopyRow(dst: array2<real>, t: array2<real>, i: nat, ghost ft: Matrix)
    requires dst != t && dst.Length0 == 1 && i < t.Length0 && dst.Length1 <= t.Length1 && Holds(t, ft)
    modifies dst
    ensures HoldsRow(dst, Row(ft, i))
  {
    for j := 0 to dst.Length1
      invariant forall q :: 0 <= q < j ==> dst[0, q] == ft(i, q)
    {
      dst[0, j] := t[i, j];
    }
  }

  /** `seed` is (output - one-hot) / n, the one-hot part being in row `i` from column `off` on. */
  ghost predicate IsSeed(seed: Vec, fy: Vec, ft: Matrix, i: int, off: int, n: nat)
    requires n > 0
  {
    forall j {:trigger Index(i, j)} :: Index(i, j) ==>
      seed(j) == if ft(i, off + j) == 1.0 then (fy(j) - 1.0) / n as real else fy(j) / n as real
  }

  method SeedRow(out: array2<real>, y: array2<real>, t: array2<real>, i: nat, off: nat, n: nat,
                 ghost seed: Vec, ghost fy: Vec, ghost ft: Matrix)
    requires out != t && out != y && out.Length0 == y.Length0 == 1 && out.Length1 == y.Length1
    requires i < t.Length0 == n && off + out.Length1 <= t.Length1 && Holds(t, ft) && HoldsRow(y, fy)
    requires IsSeed(seed, fy, ft, i, off, n)
    modifies out
    ensures HoldsRow(out, seed)
  {
    for j := 0 to out.Length1
      invariant forall q :: 0 <= q < j ==> out[0, q] == seed(q)
    {
      assert Index(i, j);
      out[0, j] := if t[i, off + j] == 1.0 then (y[0, j] - 1.0) / n as real else y[0, j] / n as real;
    }
  }

  /** The first half of an iteration of the sample loop: row `i` of `t` is fed forward. */
  method FeedForward(nn: NN, exp: Exponential, t: array2<real>, i: nat, ghost net: Net, ghost ft: Matrix)
    requires nn.Valid() && nn.Represents(net) && t !in nn.acts
    requires Holds(t, ft) && i < t.Length0 && nn.arch[0] <= t.Length1
    modifies nn.acts
    ensures nn.Represents(net)
    ensures forall l :: 0 <= l < |nn.acts| ==> HoldsRow(nn.acts[l], Trace(net, exp, Row(ft, i))(l))
  {
    label before:
    CopyRow(nn.acts[0], t, i, ft);
    forall q | 0 <= q < nn.Depth() ensures Holds(nn.ws[q], net.w(q)) && HoldsRow(nn.bs[q], net.b(q)) {
      assert old@before(Holds(nn.ws[q], net.w(q)) && HoldsRow(nn.bs[q], net.b(q)));
    }
    Forward(nn, exp, net, Row(ft, i));
  }

  /** The gradient's rows of activations are cleared and the output row is seeded. */
  method SeedGradient(y: array2<real>, g: NN, t: array2<real>, i: nat, n: nat, ghost sc: Script, ghost fy: Vec,
      ghost ft: Matrix)
    requires g.Valid() && g.Carries(sc.w0, sc.b0) && y !in g.acts && t !in g.acts
    requires i < t.Length0 == n && g.arch[0] + g.arch[g.Depth()] <= t.Length1 && Holds(t, ft)
    requires HoldsRow(y, fy) && y.Length1 == g.arch[g.Depth()]
    requires IsSeed(sc.blame(g.Depth()), fy, ft, i, g.arch[0], n)
    modifies g.acts
    ensures BackAt(g, g.Depth(), sc)
  {
    label before:
    FillRows(g.acts);
    label filled:
    var out := g.acts[g.Depth()];
    SeedRow(out, y, t, i, g.arch[0], n, sc.blame(g.Depth()), fy, ft);
    forall q | 0 <= q < g.Depth()
      ensures Holds(g.ws[q], sc.w0(q)) && HoldsRow(g.bs[q], sc.b0(q)) && HoldsRow(g.acts[q], k => 0.0)
    {
      assert old@before(Holds(g.ws[q], sc.w0(q)) && HoldsRow(g.bs[q], sc.b0(q)));
      assert old@filled(Zero(g.acts[q]));
    }
  }

  /** The script that one sample's pass gives the layer loop, starting from gradient `g0`. */
  function ScriptOf(p: Pass, g0: Net): Script
  {
    var g1 := NetSum(g0, p.Gradient());
    Script(p.net.width, p.act, p.net.w, l => if l < 0 then j => 0.0 else p.GradB(l),
           l => if l < 0 then j => 0.0 else p.Blame(l), g0.w, g0.b, g1.w, g1.b)
  }

  lemma {:induction false} ScriptDeltas(p: Pass, g0: Net, l: nat)
    requires l < p.net.depth
    ensures ScriptOf(p, g0).Deltas(p.s, l)
  {
  }

  lemma {:induction false} ScriptWeights(p: Pass, g0: Net, l: nat)
    ensures ScriptOf(p, g0).Weights(l)
  {
  }

  lemma {:induction false} ScriptBlames(p: Pass, g0: Net, l: nat)
    requires l < p.net.depth
    ensures ScriptOf(p, g0).Blames(l)
  {
    assert ScriptOf(p, g0).delta(l) == p.GradB(l);
  }

  lemma {:induction false} ScriptFits(p: Pass, g0: Net, l: nat)
    requires l < p.net.depth
    ensures ScriptOf(p, g0).Layer(p.s, l)
  {
    ScriptDeltas(p, g0, l);
    ScriptWeights(p, g0, l);
    ScriptBlames(p, g0, l);
  }

  // The three parts of an iteration, each with what it leaves alone

  method FeedForwardBeside(nn: NN, g: NN, exp: Exponential, t: array2<real>, i: nat, ghost net: Net, ghost ft: Matrix,
      ghost sc: Script)
    requires nn.Valid() && g.Shaped() && Separate(nn, g)
    requires nn.Represents(net) && g.Carries(sc.w0, sc.b0)
    requires t !in nn.acts && Holds(t, ft) && i < t.Length0 && nn.arch[0] <= t.Length1
    modifies nn.acts
    ensures nn.Represents(net) && g.Carries(sc.w0, sc.b0)
    ensures forall l :: 0 <= l < |nn.acts| ==> HoldsRow(nn.acts[l], Trace(net, exp, Row(ft, i))(l))
  {
    label before:
    FeedForward(nn, exp, t, i, net, ft);
    forall q | 0 <= q < g.Depth() ensures Holds(g.ws[q], sc.w0(q)) && HoldsRow(g.bs[q], sc.b0(q)) {
      assert old@before(Holds(g.ws[q], sc.w0(q)) && HoldsRow(g.bs[q], sc.b0(q)));
    }
  }

  lemma {:induction false} DisjointIs(ms: seq<array2<real>>, ns: seq<array2<real>>)
    requires Disjoint(ms, ns)
    ensures forall m :: m in ms ==> m !in ns
  {
  }

  /** No array of the network is one that the backward loop writes. */
  lemma {:induction false} NetworkApart(nn: NN, g: NN)
    requires Separate(nn, g) && BiasesSeparate(nn, g)
    ensures forall m :: m in nn.ws || m in nn.bs ==> m !in g.ws && m !in g.bs && m !in g.acts
  {
    hide Disjoint;
    DisjointIs(nn.ws, g.ws);
    DisjointIs(nn.ws, g.bs);
    DisjointIs(nn.ws, g.acts);
    DisjointIs(nn.bs, g.ws);
    DisjointIs(nn.bs, g.bs);
    DisjointIs(nn.bs, g.acts);
  }

  lemma {:induction false} ActivationsApart(nn: NN, g: NN)
    requires Separate(nn, g)
    ensures forall m :: m in nn.acts || m in nn.ws ==> m !in g.ws && m !in g.bs && m !in g.acts
  {
    hide Disjoint;
    DisjointIs(nn.ws, g.ws);
    DisjointIs(nn.ws, g.bs);
    DisjointIs(nn.ws, g.acts);
    DisjointIs(nn.acts, g.ws);
    DisjointIs(nn.acts, g.bs);
    DisjointIs(nn.acts, g.acts);
  }

  method SeedForward(nn: NN, g: NN, t: array2<real>, i: nat, ghost ft: Matrix, ghost sc: Script)
    requires nn.Shaped() && g.Valid() && nn.arch == g.arch && Separate(nn, g)
    requires ForwardDone(nn, sc) && g.Carries(sc.w0, sc.b0)
    requires t !in g.acts && i < t.Length0 && g.arch[0] + g.arch[g.Depth()] <= t.Length1 && Holds(t, ft)
    requires IsSeed(sc.blame(g.Depth()), sc.act(g.Depth()), ft, i, g.arch[0], t.Length0)
    modifies g.acts
    ensures ForwardDone(nn, sc) && BackAt(g, g.Depth(), sc)
  {
    hide NN.Apart, NN.Carries, BackAt, Separate, Disjoint, Holds, HoldsRow, IsSeed;
    label before:
    ActivationsApart(nn, g);
    SeedGradient(nn.acts[nn.Depth()], g, t, i, t.Length0, sc, sc.act(g.Depth()), ft);
    forall q | 0 <= q < |nn.acts| ensures HoldsRow(nn.acts[q], sc.act(q)) {
      assert nn.acts[q] in nn.acts;
      assert old@before(HoldsRow(nn.acts[q], sc.act(q)));
    }
    forall q | 0 <= q < nn.Depth() ensures Holds(nn.ws[q], sc.w(q)) {
      assert nn.ws[q] in nn.ws;
      assert old@before(Holds(nn.ws[q], sc.w(q)));
    }
  }

  method SeedBeside(nn: NN, g: NN, t: array2<real>, i: nat, ghost net: Net, ghost ft: Matrix, ghost sc: Script)
    requires nn.Shaped() && g.Valid() && nn.arch == g.arch && Separate(nn, g) && BiasesSeparate(nn, g)
    requires nn.Represents(net) && ForwardDone(nn, sc) && g.Carries(sc.w0, sc.b0)
    requires t !in g.acts && i < t.Length0 && g.arch[0] + g.arch[g.Depth()] <= t.Length1 && Holds(t, ft)
    requires IsSeed(sc.blame(g.Depth()), sc.act(g.Depth()), ft, i, g.arch[0], t.Length0)
    modifies g.acts
    ensures nn.Represents(net) && ForwardDone(nn, sc) && BackAt(g, g.Depth(), sc)
  {
    hide NN.Apart, ForwardDone, BackAt, Separate, BiasesSeparate, Disjoint, Holds, HoldsRow, IsSeed;
    label before:
    NetworkApart(nn, g);
    SeedForward(nn, g, t, i, ft, sc);
    forall q | 0 <= q < nn.Depth() ensures Holds(nn.ws[q], net.w(q)) && HoldsRow(nn.bs[q], net.b(q)) {
      assert nn.ws[q] in nn.ws && nn.bs[q] in nn.bs;
      assert old@before(Holds(nn.ws[q], net.w(q)) && HoldsRow(nn.bs[q], net.b(q)));
    }
  }

  lemma {:induction false} BackDone(g: NN, sc: Script)
    requires g.Shaped() && BackAt(g, 0, sc)
    ensures g.Carries(sc.w1, sc.b1)
  {
    hide Holds, HoldsRow;
  }

  method BackBeside(nn: NN, g: NN, s: real, ghost net: Net, ghost sc: Script)
    requires nn.Shaped() && g.Valid() && nn.arch == g.arch && Separate(nn, g) && BiasesSeparate(nn, g)
    requires nn.Represents(net) && ForwardDone(nn, sc) && BackAt(g, g.Depth(), sc)
    requires forall l :: 0 <= l < g.Depth() ==> sc.Layer(s, l)
    modifies g.ws, g.bs, g.acts
    ensures nn.Represents(net) && g.Carries(sc.w1, sc.b1)
  {
    hide NN.Apart, BackAt, ForwardDone, Script.Layer, Separate, BiasesSeparate, Disjoint, Holds, HoldsRow;
    label before:
    BackSample(nn, g, s, sc);
    NetworkApart(nn, g);
    forall q | 0 <= q < nn.Depth() ensures Holds(nn.ws[q], net.w(q)) && HoldsRow(nn.bs[q], net.b(q)) {
      assert nn.ws[q] in nn.ws && nn.bs[q] in nn.bs;
      assert old@before(Holds(nn.ws[q], net.w(q)) && HoldsRow(nn.bs[q], net.b(q)));
    }
    BackDone(g, sc);
  }

  /** One iteration of the sample loop, at row `i`. */
  method SampleStep(nn: NN, g: NN, exp: Exponential, t: array2<real>, i: nat, s: real,
                    ghost net: Net, ghost ft: Matrix, ghost sc: Script)
    requires nn.Valid() && g.Valid() && nn.arch == g.arch && Separate(nn, g) && BiasesSeparate(nn, g)
    requires nn.Represents(net) && g.Carries(sc.w0, sc.b0)
    requires t !in nn.acts && t !in g.acts && Holds(t, ft)
    requires i < t.Length0 && nn.arch[0] + nn.arch[nn.Depth()] <= t.Length1
    requires sc.width == net.width && sc.w == net.w && sc.act == Trace(net, exp, Row(ft, i))
    requires IsSeed(sc.blame(g.Depth()), sc.act(g.Depth()), ft, i, g.arch[0], t.Length0)
    requires forall l :: 0 <= l < g.Depth() ==> sc.Layer(s, l)
    modifies nn.acts, g.ws, g.bs, g.acts
    ensures nn.Represents(net) && g.Carries(sc.w1, sc.b1)
  {
    FeedForwardBeside(nn, g, exp, t, i, net, ft, sc);
    SeedBeside(nn, g, t, i, net, ft, sc);
    BackBeside(nn, g, s, net, sc);
  }

  lemma {:induction false} SeedIsSeed(net: Net, y: Vec, ft: Matrix, i: int, n: nat)
    requires n > 0
    ensures IsSeed(Seed(net, y, Row(ft, i), n), y, ft, i, net.width(0), n)
  {
  }

  lemma {:induction false} PassSeed(p: Pass, g0: Net)
    ensures ScriptOf(p, g0).blame(p.net.depth) == p.seed && ScriptOf(p, g0).act == p.act
  {
    assert p.Blame(p.net.depth) == p.seed;
  }

  /** The scripts of the rows of the sample matrix, each starting from the gradient the rows
      before it left. The one after the last row only says where the loop ends. */
  ghost function Scripts(net: Net, exp: Exponential, ft: Matrix, n: nat, s: real): int -> Script
  {
    i => if 0 <= i < n then ScriptOf(SamplePass(net, exp, Row(ft, i), n, s), BackpropUpTo(net, exp, ft, n, s, i))
         else EndScript(Backprop(net, exp, ft, n, s))
  }

  function EndScript(g: Net): Script
  {
    Script(g.width, l => j => 0.0, g.w, g.b, g.b, g.w, g.b, g.w, g.b)
  }

  /** Script `i` fits row `i`, and what it leaves is what the next one starts from. */
  ghost predicate RowFits(script: int -> Script, i: int, net: Net, exp: Exponential, ft: Matrix, n: nat, s: real)
    requires n > 0
  {
    var sc := script(i);
    && sc.width == net.width && sc.w == net.w && sc.act == Trace(net, exp, Row(ft, i))
    && IsSeed(sc.blame(net.depth), sc.act(net.depth), ft, i, net.width(0), n)
    && (forall l :: 0 <= l < net.depth ==> sc.Layer(s, l))
    && sc.w1 == script(i + 1).w0 && sc.b1 == script(i + 1).b0
  }

  lemma {:induction false} UpToNext(net: Net, exp: Exponential, ft: Matrix, n: nat, s: real, i: nat)
    requires i < n
    ensures BackpropUpTo(net, exp, ft, n, s, i + 1)
         == NetSum(BackpropUpTo(net, exp, ft, n, s, i), SamplePass(net, exp, Row(ft, i), n, s).Gradient())
  {
    hide NetSum, SamplePass, Pass.Gradient;
  }

  lemma {:induction false} ScriptEnds(p: Pass, g0: Net)
    ensures ScriptOf(p, g0).w0 == g0.w && ScriptOf(p, g0).b0 == g0.b
    ensures ScriptOf(p, g0).w1 == NetSum(g0, p.Gradient()).w && ScriptOf(p, g0).b1 == NetSum(g0, p.Gradient()).b
  {
    hide NetSum, Pass.Gradient;
  }

  /** Every script starts from the gradient of the rows before it. */
  lemma {:induction false} ScriptStarts(net: Net, exp: Exponential, ft: Matrix, n: nat, s: real, i: nat)
    requires i <= n
    ensures Scripts(net, exp, ft, n, s)(i).w0 == BackpropUpTo(net, exp, ft, n, s, i).w
    ensures Scripts(net, exp, ft, n, s)(i).b0 == BackpropUpTo(net, exp, ft, n, s, i).b
  {
    hide NetSum, SamplePass, Pass.Gradient, BackpropUpTo, ScriptOf;
    if i < n {
      ScriptEnds(SamplePass(net, exp, Row(ft, i), n, s), BackpropUpTo(net, exp, ft, n, s, i));
    }
  }

  lemma {:induction false} ScriptLinks(net: Net, exp: Exponential, ft: Matrix, n: nat, s: real, i: nat)
    requires i < n
    ensures var script := Scripts(net, exp, ft, n, s);
            script(i).w1 == script(i + 1).w0 && script(i).b1 == script(i + 1).b0
  {
    hide NetSum, SamplePass, Pass.Gradient, BackpropUpTo, ScriptOf;
    UpToNext(net, exp, ft, n, s, i);
    ScriptEnds(SamplePass(net, exp, Row(ft, i), n, s), BackpropUpTo(net, exp, ft, n, s, i));
    ScriptStarts(net, exp, ft, n, s, i + 1);
  }

  lemma {:induction false} ScriptsFit(net: Net, exp: Exponential, ft: Matrix, n: nat, s: real, i: nat)
    requires i < n
    ensures RowFits(Scripts(net, exp, ft, n, s), i, net, exp, ft, n, s)
  {
    var p, g0 := SamplePass(net, exp, Row(ft, i), n, s), BackpropUpTo(net, exp, ft, n, s, i);
    PassSeed(p, g0);
    SeedIsSeed(net, Activation(net, exp, Row(ft, i), net.depth), ft, i, n);
    ScriptLinks(net, exp, ft, n, s, i);
    forall l | 0 <= l < net.depth ensures ScriptOf(p, g0).Layer(s, l) {
      ScriptFits(p, g0, l);
    }
  }

  lemma {:induction false} ScriptsStart(net: Net, exp: Exponential, ft: Matrix, n: nat, s: real)
    ensures forall l, k, j :: Scripts(net, exp, ft, n, s)(0).w0(l)(k, j) == 0.0
    ensures forall l, j :: Scripts(net, exp, ft, n, s)(0).b0(l)(j) == 0.0
  {
    var g := BackpropUpTo(net, exp, ft, n, s, 0);
    assert Scripts(net, exp, ft, n, s)(0).w0 == g.w && Scripts(net, exp, ft, n, s)(0).b0 == g.b;
    assert forall l, k, j :: g.w(l)(k, j) == 0.0;
  }

  method ZeroGradient(arch: seq<nat>) returns (g: NN)
    requires |arch| > 0
    ensures g.Valid() && g.arch == arch && fresh(g.ws) && fresh(g.bs) && fresh(g.acts)
    ensures g.Carries(l => (k, j) => 0.0, l => j => 0.0)
  {
    g := NnAlloc(arch);
    NnZero(g);
  }

  lemma {:induction false} DisjointIfNotIn(ms: seq<array2<real>>, ns: seq<array2<real>>)
    requires forall m :: m in ms ==> m !in ns
    ensures Disjoint(ms, ns)
  {
    forall k, l | 0 <= k < |ms| && 0 <= l < |ns| ensures ms[k] != ns[l] {
      assert ms[k] in ms && ns[l] in ns;
    }
  }

  lemma {:induction false} SeparateIfNotIn(nn: NN, g: NN)
    requires forall m :: m in nn.ws || m in nn.bs || m in nn.acts ==> m !in g.ws && m !in g.bs && m !in g.acts
    ensures Separate(nn, g) && BiasesSeparate(nn, g)
  {
    DisjointIfNotIn(nn.ws, g.ws);
    DisjointIfNotIn(nn.ws, g.bs);
    DisjointIfNotIn(nn.ws, g.acts);
    DisjointIfNotIn(nn.bs, g.ws);
    DisjointIfNotIn(nn.bs, g.bs);
    DisjointIfNotIn(nn.bs, g.acts);
    DisjointIfNotIn(nn.acts, g.ws);
    DisjointIfNotIn(nn.acts, g.bs);
    DisjointIfNotIn(nn.acts, g.acts);
  }

  /** The sample loop of `nn_backprop`. */
  method BackpropRows(nn: NN, g: NN, exp: Exponential, t: array2<real>, s: real,
                      ghost net: Net, ghost ft: Matrix, ghost script: int -> Script)
    requires nn.Valid() && g.Valid() && nn.arch == g.arch && Separate(nn, g) && BiasesSeparate(nn, g)
    requires nn.Represents(net) && t !in nn.acts && t !in g.acts && t !in g.ws && t !in g.bs && Holds(t, ft)
    requires t.Length1 == nn.arch[0] + nn.arch[nn.Depth()]
    requires forall i {:trigger RowFits(script, i, net, exp, ft, t.Length0, s)} ::
      0 <= i < t.Length0 ==> RowFits(script, i, net, exp, ft, t.Length0, s)
    requires g.Carries(script(0).w0, script(0).b0)
    modifies nn.acts, g.ws, g.bs, g.acts
    ensures nn.Represents(net) && g.Carries(script(t.Length0).w0, script(t.Length0).b0)
  {
    for i := 0 to t.Length0
      invariant nn.Represents(net)
      invariant g.Carries(script(i).w0, script(i).b0)
    {
      assert RowFits(script, i, net, exp, ft, t.Length0, s);
      assert Holds(t, ft) by {
        assert old(Holds(t, ft));
      }
      SampleStep(nn, g, exp, t, i, s, net, ft, script(i));
    }
  }

  lemma {:induction false} GradientDone(g: NN, nn: NN, net: Net, exp: Exponential, ft: Matrix, n: nat, s: real)
    requires g.Shaped() && nn.Shaped() && g.arch == nn.arch && nn.Represents(net)
    requires g.Carries(Scripts(net, exp, ft, n, s)(n).w0, Scripts(net, exp, ft, n, s)(n).b0)
    ensures g.Represents(Backprop(net, exp, ft, n, s))
  {
  }

  /** `nn_backprop`, tied to `Backprop`. */
  method NnBackprop(nn: NN, exp: Exponential, t: array2<real>, s: real, ghost net: Net, ghost ft: Matrix)
      returns (g: NN)
    requires nn.Valid() && nn.Represents(net) && t !in nn.acts && Holds(t, ft)
    requires t.Length1 == nn.arch[0] + nn.arch[nn.Depth()]
    modifies nn.acts
    ensures g.Valid() && g.arch == nn.arch && fresh(g.ws) && fresh(g.bs) && fresh(g.acts)
    ensures g.Represents(Backprop(net, exp, ft, t.Length0, s)) && nn.Represents(net)
  {
    label start:
    g := ZeroGradient(nn.arch);
    SeparateIfNotIn(nn, g);
    forall q | 0 <= q < nn.Depth() ensures Holds(nn.ws[q], net.w(q)) && HoldsRow(nn.bs[q], net.b(q)) {
      assert old@start(Holds(nn.ws[q], net.w(q)) && HoldsRow(nn.bs[q], net.b(q)));
    }
    ghost var script := Scripts(net, exp, ft, t.Length0, s);
    ScriptsStart(net, exp, ft, t.Length0, s);
    forall i {:trigger RowFits(script, i, net, exp, ft, t.Length0, s)} | 0 <= i < t.Length0
      ensures RowFits(script, i, net, exp, ft, t.Length0, s)
    {
      ScriptsFit(net, exp, ft, t.Length0, s, i);
    }
    BackpropRows(nn, g, exp, t, s, net, ft, script);
    GradientDone(g, nn, net, exp, ft, t.Length0, s);
  }
}
