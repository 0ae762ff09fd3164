/** `nn_learn` and the epochs and batches of `train`, updating a network in place. */
module Learning {
  import opened Network
  import opened Matrices
  import opened Training
  import Improvement
  import Logarithm
  import Loss

  function RateTimes(rate: real, x: real): real
  {
    rate * x
  }

  /** `m -= rate * g`, entry by entry. */
  method Descend(m: array2<real>, g: array2<real>, rate: real, ghost f: Matrix, ghost h: Matrix)
    requires m != g && m.Length0 == g.Length0 && m.Length1 == g.Length1 && Holds(m, f) && Holds(g, h)
    modifies m
    ensures Holds(m, (k, j) => f(k, j) - rate * h(k, j))
  {
    for i := 0 to m.Length0
      invariant forall p, q :: 0 <= p < i && 0 <= q < m.Length1 ==> m[p, q] == f(p, q) - RateTimes(rate, h(p, q))
      invariant forall p, q :: i <= p < m.Length0 && 0 <= q < m.Length1 ==> m[p, q] == f(p, q)
    {
      hide RateTimes;
      for j := 0 to m.Length1
        invariant forall p, q :: 0 <= p < i && 0 <= q < m.Length1 ==> m[p, q] == f(p, q) - RateTimes(rate, h(p, q))
        invariant forall q :: 0 <= q < j ==> m[i, q] == f(i, q) - RateTimes(rate, h(i, q))
        invariant forall q :: j <= q < m.Length1 ==> m[i, q] == f(i, q)
        invariant forall p, q :: i < p < m.Length0 && 0 <= q < m.Length1 ==> m[p, q] == f(p, q)
      {
        DescendAt(m, g, rate, i, j);
      }
    }
  }

  method DescendAt(m: array2<real>, g: array2<real>, rate: real, i: nat, j: nat)
    requires m != g && m.Length0 == g.Length0 && m.Length1 == g.Length1 && i < m.Length0 && j < m.Length1
    modifies m
    ensures forall p, q :: 0 <= p < m.Length0 && 0 <= q < m.Length1 ==>
      m[p, q] == if p == i && q == j then old(m[p, q]) - RateTimes(rate, g[p, q]) else old(m[p, q])
  {
    m[i, j] := m[i, j] - rate * g[i, j];
  }

  lemma {:induction false} RowHolds(m: array2<real>, v: Vec)
    requires m.Length0 == 1
    ensures Holds(m, (i, j) => v(j)) <==> HoldsRow(m, v)
  {
    if Holds(m, (i, j) => v(j)) {
      forall j | 0 <= j < m.Length1 ensures m[0, j] == v(j) {
      }
    }
  }

  /** Layer `l` has been updated. */
  ghost predicate LayerIs(nn: NN, l: nat, w: Matrix, b: Vec)
    requires nn.Shaped() && l < |nn.ws|
    reads nn.ws[l], nn.bs[l]
  {
    Holds(nn.ws[l], w) && HoldsRow(nn.bs[l], b)
  }

  method LearnLayer(nn: NN, g: NN, rate: real, l: nat, ghost net: Net, ghost h: Net)
    requires nn.Valid() && g.Valid() && nn.arch == g.arch && l < nn.Depth()
    requires Disjoint(nn.ws, g.ws) && Disjoint(nn.bs, g.bs) && Disjoint(nn.ws, g.bs) && Disjoint(nn.bs, g.ws)
    requires LayerIs(nn, l, net.w(l), net.b(l)) && LayerIs(g, l, h.w(l), h.b(l))
    modifies nn.ws[l], nn.bs[l]
    ensures LayerIs(nn, l, Learned(net, h, rate).w(l), Learned(net, h, rate).b(l))
  {
    assert nn.ws[l] != nn.bs[l] && nn.bs[l] != g.bs[l] && nn.ws[l] != g.ws[l] && nn.ws[l] != g.bs[l]
        && nn.bs[l] != g.ws[l];
    Descend(nn.ws[l], g.ws[l], rate, net.w(l), h.w(l));
    RowHolds(nn.bs[l], net.b(l));
    RowHolds(g.bs[l], h.b(l));
    Descend(nn.bs[l], g.bs[l], rate, (i, j) => net.b(l)(j), (i, j) => h.b(l)(j));
    forall j | 0 <= j < nn.bs[l].Length1 ensures nn.bs[l][0, j] == Learned(net, h, rate).b(l)(j) {
    }
  }

  lemma {:induction false} LayersApart(nn: NN, g: NN, i: nat, l: nat)
    requires nn.Valid() && g.Valid() && nn.arch == g.arch && i < nn.Depth() && l < nn.Depth()
    requires Disjoint(nn.ws, g.ws) && Disjoint(nn.bs, g.bs) && Disjoint(nn.ws, g.bs) && Disjoint(nn.bs, g.ws)
    ensures l != i ==> {nn.ws[l], nn.bs[l]} !! {nn.ws[i], nn.bs[i]}
    ensures {g.ws[l], g.bs[l]} !! {nn.ws[i], nn.bs[i]}
  {
  }

  /** `LearnLayer`, with what it leaves alone. */
  method LearnBeside(nn: NN, g: NN, rate: real, i: nat, ghost net: Net, ghost h: Net, ghost after: Net)
    requires nn.Valid() && g.Valid() && nn.arch == g.arch && i < nn.Depth() && after == Learned(net, h, rate)
    requires Disjoint(nn.ws, g.ws) && Disjoint(nn.bs, g.bs) && Disjoint(nn.ws, g.bs) && Disjoint(nn.bs, g.ws)
    requires forall l :: 0 <= l < i ==> LayerIs(nn, l, after.w(l), after.b(l))
    requires forall l :: i <= l < nn.Depth() ==> LayerIs(nn, l, net.w(l), net.b(l))
    requires forall l :: 0 <= l < nn.Depth() ==> LayerIs(g, l, h.w(l), h.b(l))
    modifies nn.ws[i], nn.bs[i]
    ensures forall l :: 0 <= l <= i ==> LayerIs(nn, l, after.w(l), after.b(l))
    ensures forall l :: i < l < nn.Depth() ==> LayerIs(nn, l, net.w(l), net.b(l))
    ensures forall l :: 0 <= l < nn.Depth() ==> LayerIs(g, l, h.w(l), h.b(l))
  {
    hide LayerIs, Learned, NN.Apart, Disjoint;
    label before:
    LearnLayer(nn, g, rate, i, net, h);
    forall l | 0 <= l < i ensures LayerIs(nn, l, after.w(l), after.b(l)) {
      LayersApart(nn, g, i, l);
      assert old@before(LayerIs(nn, l, after.w(l), after.b(l)));
    }
    forall l | i < l < nn.Depth() ensures LayerIs(nn, l, net.w(l), net.b(l)) {
      LayersApart(nn, g, i, l);
      assert old@before(LayerIs(nn, l, net.w(l), net.b(l)));
    }
    forall l | 0 <= l < nn.Depth() ensures LayerIs(g, l, h.w(l), h.b(l)) {
      LayersApart(nn, g, i, l);
      assert old@before(LayerIs(g, l, h.w(l), h.b(l)));
    }
  }

  /** `nn_learn`. */
  method NnLearn(nn: NN, g: NN, rate: real, ghost net: Net, ghost h: Net)
    requires nn.Valid() && g.Valid() && nn.arch == g.arch
    requires Disjoint(nn.ws, g.ws) && Disjoint(nn.bs, g.bs) && Disjoint(nn.ws, g.bs) && Disjoint(nn.bs, g.ws)
    requires nn.Represents(net) && g.Represents(h)
    modifies nn.ws, nn.bs
    ensures nn.Represents(Learned(net, h, rate))
  {
    hide LayerIs, NN.Represents, NN.Apart, Disjoint, Learned;
    ghost var after := Learned(net, h, rate);
    LayersAre(nn, net);
    LayersAre(g, h);
    for i := 0 to nn.Depth()
      invariant forall l :: 0 <= l < i ==> LayerIs(nn, l, after.w(l), after.b(l))
      invariant forall l :: i <= l < nn.Depth() ==> LayerIs(nn, l, net.w(l), net.b(l))
      invariant forall l :: 0 <= l < nn.Depth() ==> LayerIs(g, l, h.w(l), h.b(l))
    {
      LearnBeside(nn, g, rate, i, net, h, after);
    }
    NowRepresents(nn, net, h, rate);
  }

  lemma {:induction false} LayersAre(nn: NN, net: Net)
    requires nn.Shaped() && nn.Represents(net)
    ensures forall l :: 0 <= l < nn.Depth() ==> LayerIs(nn, l, net.w(l), net.b(l))
    ensures net.depth == nn.Depth() && forall l :: 0 <= l < |nn.arch| ==> net.width(l) == nn.arch[l]
  {
  }

  lemma {:induction false} NowRepresents(nn: NN, net: Net, h: Net, rate: real)
    requires nn.Shaped() && net.depth == nn.Depth() && forall l :: 0 <= l < |nn.arch| ==> net.width(l) == nn.arch[l]
    requires forall l :: 0 <= l < nn.Depth() ==> LayerIs(nn, l, Learned(net, h, rate).w(l), Learned(net, h, rate).b(l))
    ensures nn.Represents(Learned(net, h, rate))
  {
    var after := Learned(net, h, rate);
    forall l | 0 <= l < nn.Depth() ensures Holds(nn.ws[l], after.w(l)) && HoldsRow(nn.bs[l], after.b(l)) {
      assert LayerIs(nn, l, after.w(l), after.b(l));
    }
  }

  // ---- epochs and batches ----

  /** Rows of a data set from row `from` on. */
  function Slice(t: Matrix, from: nat): Matrix
  {
    (i, j) => t(from + i, j)
  }

  /** The first row of batch `k`. */
  function Start(k: nat, b: nat): nat
  {
    k * b
  }

  /** How a client trains: batch size, compile-time factor of backpropagation, learning rate. */
  datatype Settings = Settings(exp: Exponential, batch: nat, s: real, rate: real) {
    predicate Valid()
    {
      batch > 0
    }

    /** The network after one batch, that starts at row `from`. */
    function Step(net: Net, data: Matrix, from: nat): Net
    {
      Learned(net, Backprop(net, exp, Slice(data, from), batch, s), rate)
    }
  }

  /** `nets` are the networks left by one learning step after another, on the slices that start at
      the rows `froms`. */
  ghost predicate Chained(tr: Settings, data: Matrix, froms: seq<nat>, nets: seq<Net>)
  {
    && |nets| == |froms| + 1
    && forall k :: 0 <= k < |froms| ==> nets[k + 1] == tr.Step(nets[k], data, froms[k])
  }

  /** Slice `k` has row `r`. */
  predicate InSlice(froms: seq<nat>, b: nat, k: int, r: int)
  {
    0 <= k < |froms| && froms[k] <= r < froms[k] + b
  }

  /** Row `r` is in exactly one slice. */
  ghost predicate Once(froms: seq<nat>, b: nat, r: int)
  {
    exists k :: InSlice(froms, b, k, r) && forall j :: InSlice(froms, b, j, r) ==> j == k
  }

  /** In ascending order, each of `n` rows is in exactly one slice of `b` rows, except for the last
      rows that do not fill one; they are in none. */
  ghost predicate OnePass(froms: seq<nat>, n: nat, b: nat)
    requires b > 0
  {
    && (forall j, k :: 0 <= j < k < |froms| ==> froms[j] < froms[k])
    && (forall r :: 0 <= r < n - n % b ==> Once(froms, b, r))
    && (forall r, k :: InSlice(froms, b, k, r) ==> 0 <= r < n - n % b)
  }

  /** The rows that `mat_slice` shows. */
  method MatSlice(t: array2<real>, from: nat, n: nat, ghost ft: Matrix) returns (m: array2<real>)
    requires from + n <= t.Length0 && Holds(t, ft)
    ensures fresh(m) && m.Length0 == n && m.Length1 == t.Length1 && Holds(m, Slice(ft, from))
    ensures forall i, j :: 0 <= i < n && 0 <= j < m.Length1 ==> m[i, j] == t[from + i, j]
  {
    m := new real[n, t.Length1];
    for i := 0 to n
      invariant forall p, q :: 0 <= p < i && 0 <= q < m.Length1 ==> m[p, q] == ft(from + p, q)
    {
      for j := 0 to m.Length1
        invariant forall p, q :: 0 <= p < i && 0 <= q < m.Length1 ==> m[p, q] == ft(from + p, q)
        invariant forall q :: 0 <= q < j ==> m[i, q] == ft(from + i, q)
      {
        m[i, j] := t[from + i, j];
      }
    }
  }

  /** One turn of the loop over the batches. */
  method TrainBatch(nn: NN, samples: array2<real>, from: nat, tr: Settings, ghost net: Net, ghost data: Matrix)
    requires nn.Valid() && nn.Represents(net) && tr.Valid() && from + tr.batch <= samples.Length0
    requires samples !in nn.acts && samples !in nn.ws && samples !in nn.bs && Holds(samples, data)
    requires samples.Length1 == nn.arch[0] + nn.arch[nn.Depth()]
    modifies nn.acts, nn.ws, nn.bs
    ensures nn.Represents(tr.Step(net, data, from)) && Holds(samples, data)
  {
    var t := MatSlice(samples, from, tr.batch, data);
    ghost var h := Backprop(net, tr.exp, Slice(data, from), tr.batch, tr.s);
    var g := NnBackprop(nn, tr.exp, t, tr.s, net, Slice(data, from));
    assert old(Holds(samples, data)) && Holds(samples, data);
    NnLearn(nn, g, tr.rate, net, h);
  }

  /** The loop over the batches; it starts slices at the rows `froms`, and leaves the last of `nets`. */
  method TrainEpoch(nn: NN, samples: array2<real>, tr: Settings, ghost net: Net, ghost data: Matrix)
      returns (ghost froms: seq<nat>, ghost nets: seq<Net>)
    requires nn.Valid() && nn.Represents(net) && tr.Valid()
    requires samples !in nn.acts && samples !in nn.ws && samples !in nn.bs && Holds(samples, data)
    requires samples.Length1 == nn.arch[0] + nn.arch[nn.Depth()]
    modifies nn.acts, nn.ws, nn.bs
    ensures OnePass(froms, samples.Length0, tr.batch)
    ensures Chained(tr, data, froms, nets) && nets[0] == net
    ensures nn.Represents(nets[|froms|]) && Holds(samples, data)
  {
    hide NN.Represents, Settings.Step, Holds, Start, OnePass;
    var batches := samples.Length0 / tr.batch;
    froms, nets := [], [net];
    for k := 0 to batches
      invariant |froms| == k && forall i :: 0 <= i < k ==> froms[i] == Start(i, tr.batch)
      invariant Chained(tr, data, froms, nets) && nets[0] == net
      invariant nn.Represents(nets[k]) && Holds(samples, data)
    {
      InBounds(samples.Length0, tr.batch, k);
      var from := Start(k, tr.batch);
      TrainBatch(nn, samples, from, tr, nets[k], data);
      froms, nets := froms + [from], nets + [tr.Step(nets[k], data, from)];
    }
    StartsPass(froms, samples.Length0, tr.batch);
  }

  /** `train`. In every epoch each row below the last full batch is learned from once, in order, and no
      other row is; each learning step starts from the network that the one before it left. */
  method Train(nn: NN, samples: array2<real>, epochs: nat, tr: Settings, ghost net: Net, ghost data: Matrix)
      returns (ghost froms: seq<seq<nat>>, ghost nets: seq<seq<Net>>)
    requires nn.Valid() && nn.Represents(net) && tr.Valid()
    requires samples !in nn.acts && samples !in nn.ws && samples !in nn.bs && Holds(samples, data)
    requires samples.Length1 == nn.arch[0] + nn.arch[nn.Depth()]
    modifies nn.acts, nn.ws, nn.bs
    ensures |froms| == |nets| == epochs
    ensures forall e :: 0 <= e < epochs ==>
      OnePass(froms[e], samples.Length0, tr.batch) && Chained(tr, data, froms[e], nets[e])
      && nets[e][0] == Reached(net, nets[..e])
    ensures nn.Represents(Reached(net, nets)) && Holds(samples, data)
  {
    hide NN.Represents, Settings.Step, Holds, OnePass;
    froms, nets := [], [];
    for epoch := 0 to epochs
      invariant |froms| == |nets| == epoch
      invariant forall e :: 0 <= e < epoch ==>
        OnePass(froms[e], samples.Length0, tr.batch) && Chained(tr, data, froms[e], nets[e])
        && nets[e][0] == Reached(net, nets[..e])
      invariant nn.Represents(Reached(net, nets)) && Holds(samples, data)
    {
      ghost var starts, states := TrainEpoch(nn, samples, tr, Reached(net, nets), data);
      ghost var before := nets;
      froms, nets := froms + [starts], nets + [states];
      forall e | 0 <= e <= epoch ensures nets[..e] == before[..e] {
      }
    }
    assert nets[..epochs] == nets;
  }

  /** The network that the last of some epochs left, `net` if there was none. */
  ghost function Reached(net: Net, epochs: seq<seq<Net>>): Net
  {
    if epochs == [] || epochs[|epochs| - 1] == [] then net
    else var last := epochs[|epochs| - 1]; last[|last| - 1]
  }

  lemma {:induction false} StartNext(k: nat, b: nat)
    ensures Start(k + 1, b) == Start(k, b) + b
  {
  }

  lemma {:induction false} StartMono(j: nat, k: nat, b: nat)
    requires j <= k
    ensures Start(j, b) <= Start(k, b)
  {
    if j < k {
      StartMono(j, k - 1, b);
      StartNext(k - 1, b);
    }
  }

  lemma {:induction false} RowIn(r: nat, b: nat)
    requires b > 0
    ensures Start(r / b, b) <= r < Start(r / b, b) + b
  {
  }

  lemma {:induction false} InBounds(n: nat, b: nat, k: nat)
    requires b > 0 && k < n / b
    ensures Start(k, b) + b <= n
  {
    hide Start;
    RowIn(n, b);
    StartNext(k, b);
    StartMono(k + 1, n / b, b);
  }

  /** Every row below the last full batch is in exactly one batch of an epoch, no other row in any. */
  lemma {:induction false} BatchOf(n: nat, b: nat, r: nat, k: nat)
    requires b > 0 && r < n
    ensures k < n / b && Start(k, b) <= r < Start(k, b) + b <==> k == r / b && r < Start(n / b, b)
  {
    hide Start;
    var q := r / b;
    RowIn(r, b);
    StartNext(k, b);
    StartNext(q, b);
    if k < q {
      StartMono(k + 1, q, b);
    } else if k > q {
      StartMono(q + 1, k, b);
    } else if k < n / b {
      StartMono(k + 1, n / b, b);
    } else {
      StartMono(n / b, q, b);
    }
  }

  lemma {:induction false} StartLast(n: nat, b: nat)
    requires b > 0
    ensures Start(n / b, b) == n - n % b
  {
  }

  lemma {:induction false} StartsPass(froms: seq<nat>, n: nat, b: nat)
    requires b > 0 && |froms| == n / b && forall i :: 0 <= i < |froms| ==> froms[i] == Start(i, b)
    ensures OnePass(froms, n, b)
  {
    hide Start;
    StartLast(n, b);
    forall j, k | 0 <= j < k < |froms| ensures froms[j] < froms[k] {
      StartNext(j, b);
      StartMono(j + 1, k, b);
    }
    forall k, r | InSlice(froms, b, k, r) ensures 0 <= r < n - n % b && k == r / b {
      RowOfSlice(froms, n, b, k, r);
    }
    forall r: nat | 0 <= r < n - n % b ensures Once(froms, b, r) {
      BatchOf(n, b, r, r / b);
      assert InSlice(froms, b, r / b, r);
    }
  }

  lemma {:induction false} RowOfSlice(froms: seq<nat>, n: nat, b: nat, k: int, r: int)
    requires b > 0 && |froms| == n / b && forall i :: 0 <= i < |froms| ==> froms[i] == Start(i, b)
    requires InSlice(froms, b, k, r)
    ensures 0 <= r < n - n % b && k == r / b
  {
    hide Start;
    StartLast(n, b);
    StartNext(k, b);
    StartMono(k + 1, n / b, b);
    BatchOf(n, b, r, k);
  }

  /** Every learning rate below `d` makes the batch at row `from` lower that batch's loss. */
  ghost predicate RatesLower(tr: Settings, net: Net, ln: real -> real, data: Matrix, from: nat, d: real)
    requires tr.Valid()
  {
    forall rate :: 0.0 < rate < d ==>
      Loss.MeanLoss(tr.(rate := rate).Step(net, data, from), tr.exp, ln, Slice(data, from), tr.batch)
      < Loss.MeanLoss(net, tr.exp, ln, Slice(data, from), tr.batch)
  }

  /** One batch lowers the loss on its own rows for every small enough learning rate, in both
      compile-time variants, exactly when their gradient is not zero. */
  lemma {:induction false} BatchDescends(tr: Settings, net: Net, ln: real -> real, data: Matrix, from: nat)
    requires tr.Valid() && tr.s > 0.0 && Logarithm.Natural(tr.exp) && Logarithm.Inverts(ln, tr.exp)
    requires Loss.Proper(net, tr.exp, Slice(data, from), tr.batch)
    ensures (exists d :: d > 0.0 && RatesLower(tr, net, ln, data, from, d))
       <==> !Improvement.GradientZero(Backprop(net, tr.exp, Slice(data, from), tr.batch, 1.0))
  {
    hide Loss.Proper, Loss.MeanLoss, Logarithm.Natural, Logarithm.Inverts, Improvement.GradientZero, Backprop, Learned;
    var rows := Slice(data, from);
    var g := Backprop(net, tr.exp, rows, tr.batch, tr.s);
    Improvement.LearningDescends(net, tr.exp, ln, rows, tr.batch, tr.s);
    forall d ensures RatesLower(tr, net, ln, data, from, d)
                <==> Improvement.LowersBelow(net, g, tr.exp, ln, rows, tr.batch, d)
    {
      RatesAre(tr, net, ln, data, from, d);
    }
  }

  lemma {:induction false} RatesAre(tr: Settings, net: Net, ln: real -> real, data: Matrix, from: nat, d: real)
    requires tr.Valid()
    ensures var rows := Slice(data, from);
      var g := Backprop(net, tr.exp, rows, tr.batch, tr.s);
      RatesLower(tr, net, ln, data, from, d) <==> Improvement.LowersBelow(net, g, tr.exp, ln, rows, tr.batch, d)
  {
    hide Loss.MeanLoss, Backprop, Learned;
    var rows := Slice(data, from);
    var g := Backprop(net, tr.exp, rows, tr.batch, tr.s);
    forall rate ensures tr.(rate := rate).Step(net, data, from) == Learned(net, g, rate) {
    }
  }
}
