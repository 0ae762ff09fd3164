/** What the outputs of a network mean, and what `accuracy` counts. */
module Accuracy {
  import opened Options
  import opened Sums
  import opened Network
  import opened Matrices
  import opened Training

  // ---- softmax ----

  ghost predicate Increasing(exp: real -> real)
  {
    forall x, y :: x < y ==> exp(x) < exp(y)
  }

  function Quotient(a: real, b: real): real
    requires b > 0.0
  {
    a / b
  }

  lemma {:induction false} SoftmaxAt(exp: Exponential, z: Vec, n: nat, j: int)
    requires n > 0
    ensures Sum(n, Shifted(exp, z, n)) > 0.0 && Shifted(exp, z, n)(j) > 0.0
    ensures Softmax(exp, z, n)(j) == Quotient(Shifted(exp, z, n)(j), Sum(n, Shifted(exp, z, n)))
  {
    PositiveTotal(exp, z, n, n);
  }

  lemma {:induction false} QuotientOrder(a: real, b: real, total: real)
    requires total > 0.0
    ensures Quotient(a, total) < Quotient(b, total) <==> a < b
    ensures a > 0.0 ==> Quotient(a, total) > 0.0
  {
    assert a / total * total == a && b / total * total == b;
    if a < b && a / total >= b / total {
      assert a / total * total >= b / total * total;
    }
    if a >= b && a / total < b / total {
      assert a / total * total < b / total * total;
    }
    if a > 0.0 && a / total <= 0.0 {
      assert a / total * total <= 0.0;
    }
  }

  lemma {:induction false} QuotientScale(a: real, total: real)
    requires total > 0.0
    ensures Quotient(a, total) == Quotient(1.0, total) * a && Quotient(1.0, total) * total == 1.0
  {
  }

  /** Row `y` is row `e`, whose entries are positive, divided by its total. */
  ghost predicate Normalized(y: Vec, e: Vec, total: real)
    requires total > 0.0
  {
    forall j {:trigger y(j)} :: e(j) > 0.0 && y(j) == Quotient(e(j), total)
  }

  lemma {:induction false} SoftmaxNormalized(exp: Exponential, z: Vec, n: nat)
    requires n > 0
    ensures var e := Shifted(exp, z, n); Sum(n, e) > 0.0 && Normalized(Softmax(exp, z, n), e, Sum(n, e))
  {
    hide Quotient, Softmax, Shifted, Sum;
    SoftmaxAt(exp, z, n, 0);
    forall j
      ensures Shifted(exp, z, n)(j) > 0.0
      ensures Softmax(exp, z, n)(j) == Quotient(Shifted(exp, z, n)(j), Sum(n, Shifted(exp, z, n)))
    {
      SoftmaxAt(exp, z, n, j);
    }
  }

  lemma {:induction false} NormalizedIsDistribution(y: Vec, e: Vec, n: nat)
    requires Sum(n, e) > 0.0 && Normalized(y, e, Sum(n, e))
    ensures (forall j :: y(j) > 0.0) && Sum(n, y) == 1.0
  {
    hide Quotient, Sum;
    var total := Sum(n, e);
    forall j ensures y(j) > 0.0 && y(j) == Quotient(1.0, total) * e(j) {
      QuotientOrder(e(j), e(j), total);
      QuotientScale(e(j), total);
    }
    SumScale(n, Quotient(1.0, total), e, y);
    QuotientScale(1.0, total);
  }

  /** The outputs are positive and sum to 1. */
  lemma {:induction false} SoftmaxIsDistribution(exp: Exponential, z: Vec, n: nat)
    requires n > 0
    ensures forall j :: Softmax(exp, z, n)(j) > 0.0
    ensures Sum(n, Softmax(exp, z, n)) == 1.0
  {
    hide Softmax, Shifted, Sum, Normalized;
    SoftmaxNormalized(exp, z, n);
    NormalizedIsDistribution(Softmax(exp, z, n), Shifted(exp, z, n), n);
  }

  lemma {:induction false} ExpOrder(exp: real -> real, x: real, y: real)
    requires Increasing(exp)
    ensures exp(x) < exp(y) <==> x < y
  {
    if y < x {
      assert exp(y) < exp(x);
    }
  }

  lemma {:induction false} ShiftOrder(exp: real -> real, x: real, y: real, p: real, u: real, v: real)
    requires Increasing(exp) && u == exp(x - p) && v == exp(y - p)
    ensures u < v <==> x < y
  {
    ExpOrder(exp, x - p, y - p);
  }

  /** Their order is the order of the logits. */
  lemma {:induction false} SoftmaxKeepsOrder(exp: Exponential, z: Vec, n: nat, i: int, j: int)
    requires n > 0 && Increasing(exp)
    ensures Softmax(exp, z, n)(i) < Softmax(exp, z, n)(j) <==> z(i) < z(j)
  {
    hide Quotient, Softmax, Shifted, Sum, Increasing, Peak;
    var u, v := Shifted(exp, z, n)(i), Shifted(exp, z, n)(j);
    SoftmaxAt(exp, z, n, i);
    SoftmaxAt(exp, z, n, j);
    QuotientOrder(u, v, Sum(n, Shifted(exp, z, n)));
    ShiftedAt(exp, z, n, i);
    ShiftedAt(exp, z, n, j);
    ShiftOrder(exp, z(i), z(j), Peak(z, n), u, v);
  }

  // ---- the largest entry ----

  /** The first of the largest among the first `n` entries. */
  function FirstMax(v: Vec, n: nat): (m: nat)
    ensures n > 0 ==> m < n
  {
    if n <= 1 then 0
    else
      var m := FirstMax(v, n - 1);
      if v(n - 1) > v(m) then n - 1 else m
  }

  lemma {:induction false} FirstMaxIs(v: Vec, n: nat, m: nat)
    requires m < n
    ensures m == FirstMax(v, n) <==>
      (forall k :: 0 <= k < n ==> v(k) <= v(m)) && (forall k :: 0 <= k < m ==> v(k) < v(m))
  {
    FirstMaxFits(v, n);
    var f := FirstMax(v, n);
    if m < f {
      assert v(m) < v(f);
    } else if f < m {
      assert v(m) <= v(f);
    }
  }

  lemma {:induction false} FirstMaxFits(v: Vec, n: nat)
    requires n > 0
    ensures var m := FirstMax(v, n);
      (forall k :: 0 <= k < n ==> v(k) <= v(m)) && (forall k :: 0 <= k < m ==> v(k) < v(m))
  {
    if n > 1 {
      FirstMaxFits(v, n - 1);
    }
  }

  /** Only the order of the entries matters. */
  lemma {:induction false} FirstMaxByOrder(v: Vec, z: Vec, n: nat)
    requires forall i, j {:trigger v(i), v(j)} :: v(i) < v(j) <==> z(i) < z(j)
    ensures FirstMax(v, n) == FirstMax(z, n)
  {
    if n > 1 {
      FirstMaxByOrder(v, z, n - 1);
      var m := FirstMax(v, n - 1);
      assert v(m) < v(n - 1) <==> z(m) < z(n - 1);
    }
  }

  /** The loop of `accuracy` over the outputs; its running maximum starts at 0. */
  method ArgMax(y: array2<real>, ghost v: Vec) returns (idx: nat)
    requires HoldsRow(y, v) && y.Length1 > 0 && forall j :: 0 <= j < y.Length1 ==> v(j) > 0.0
    ensures idx == FirstMax(v, y.Length1)
  {
    var max := 0.0;
    idx := 0;
    for j := 0 to y.Length1
      invariant if j == 0 then max == 0.0 && idx == 0 else idx == FirstMax(v, j) && max == v(idx)
    {
      if y[0, j] > max {
        max := y[0, j];
        idx := j;
      }
    }
  }

  // ---- what is counted ----

  /** The first of the `q` entries from `off` on that is 1. */
  function Hot(row: Vec, off: nat, q: nat): (h: Option<nat>)
    ensures h.Some? ==> h.value < q && row(off + h.value) == 1.0
  {
    if q == 0 then None
    else if Hot(row, off, q - 1).Some? then Hot(row, off, q - 1)
    else if row(off + q - 1) == 1.0 then Some(q - 1)
    else None
  }

  function Size(net: Net): nat
  {
    net.width(net.depth)
  }

  /** Entry `j` of the one-hot part, which starts at `off`, is the first that is 1. */
  ghost predicate Marked(row: Vec, off: nat, j: int)
  {
    row(off + j) == 1.0 && forall k {:trigger row(k)} :: off <= k < off + j ==> row(k) != 1.0
  }

  /** Entry `j` exceeds all earlier ones of `z` and is not below any later one. */
  ghost predicate Leads(z: Vec, m: nat, j: int)
  {
    forall k {:trigger z(k)} :: (0 <= k < j ==> z(k) < z(j)) && (j < k < m ==> z(k) <= z(j))
  }

  /** The class that row `i` of `t` is labelled with has the first largest logit. */
  ghost predicate Right(net: Net, exp: Exponential, t: Matrix, i: int)
    requires net.depth > 0
  {
    exists j :: 0 <= j < Size(net)
             && Marked(Row(t, i), net.width(0), j) && Leads(Logit(net, exp, Row(t, i), net.depth), Size(net), j)
  }

  /** Which of the first `n` rows are classified rightly. */
  ghost function RightRows(net: Net, exp: Exponential, t: Matrix, n: nat): set<int>
    requires net.depth > 0
  {
    set i | 0 <= i < n && Right(net, exp, t, i)
  }

  lemma {:induction false} HotFits(row: Vec, off: nat, q: nat)
    ensures match Hot(row, off, q)
      case None => forall k {:trigger row(k)} :: off <= k < off + q ==> row(k) != 1.0
      case Some(h) => Marked(row, off, h)
  {
    if q > 0 {
      HotFits(row, off, q - 1);
    }
  }

  lemma {:induction false} HotIs(row: Vec, off: nat, q: nat, j: nat)
    requires j < q
    ensures Hot(row, off, q) == Some(j) <==> Marked(row, off, j)
  {
    HotFits(row, off, q);
    if Marked(row, off, j) && Hot(row, off, q).Some? {
      var h := Hot(row, off, q).value;
      assert row(off + h) == 1.0 && row(off + j) == 1.0;
    }
  }

  lemma {:induction false} LeadsIs(z: Vec, m: nat, j: nat)
    requires j < m
    ensures j == FirstMax(z, m) <==> Leads(z, m, j)
  {
    FirstMaxIs(z, m, j);
  }

  lemma {:induction false} RightIs(net: Net, exp: Exponential, t: Matrix, i: nat)
    requires net.depth > 0 && Size(net) > 0
    ensures Right(net, exp, t, i) <==> Hot(Row(t, i), net.width(0), Size(net))
                                       == Some(FirstMax(Logit(net, exp, Row(t, i), net.depth), Size(net)))
  {
    hide Hot, FirstMax, Logit, Marked, Leads;
    var row, z, m := Row(t, i), Logit(net, exp, Row(t, i), net.depth), Size(net);
    forall j: nat | j < m ensures Hot(row, net.width(0), m) == Some(j) <==> Marked(row, net.width(0), j)
                          ensures j == FirstMax(z, m) <==> Leads(z, m, j)
    {
      HotIs(row, net.width(0), m, j);
      LeadsIs(z, m, j);
    }
  }

  lemma {:induction false} CountMore(net: Net, exp: Exponential, t: Matrix, n: nat)
    requires net.depth > 0
    ensures |RightRows(net, exp, t, n + 1)| == |RightRows(net, exp, t, n)| + if Right(net, exp, t, n) then 1 else 0
  {
    hide Right;
    var few, more := RightRows(net, exp, t, n), RightRows(net, exp, t, n + 1);
    assert n !in few;
    if Right(net, exp, t, n) {
      assert more == few + {n};
    } else {
      assert more == few;
    }
  }

  /** All rows counted, or none. */
  lemma {:induction false} CountEnds(net: Net, exp: Exponential, t: Matrix, n: nat)
    requires net.depth > 0
    ensures |RightRows(net, exp, t, n)| <= n
    ensures |RightRows(net, exp, t, n)| == n <==> forall i :: 0 <= i < n ==> Right(net, exp, t, i)
    ensures |RightRows(net, exp, t, n)| == 0 <==> forall i :: 0 <= i < n ==> !Right(net, exp, t, i)
  {
    hide Right;
    if n > 0 {
      CountEnds(net, exp, t, n - 1);
      CountMore(net, exp, t, n - 1);
    }
  }

  lemma {:induction false} OutputOrder(net: Net, exp: Exponential, x: Vec)
    requires net.depth > 0 && Size(net) > 0 && Increasing(exp)
    ensures forall j :: Activation(net, exp, x, net.depth)(j) > 0.0
    ensures FirstMax(Activation(net, exp, x, net.depth), Size(net))
         == FirstMax(Logit(net, exp, x, net.depth), Size(net))
  {
    hide Softmax, Logit, Activation, FirstMax, Increasing;
    var z := Logit(net, exp, x, net.depth);
    var y := Activation(net, exp, x, net.depth);
    OutputIs(net, exp, x);
    SoftmaxIsDistribution(exp, z, Size(net));
    forall i, j ensures y(i) < y(j) <==> z(i) < z(j) {
      SoftmaxKeepsOrder(exp, z, Size(net), i, j);
    }
    FirstMaxByOrder(y, z, Size(net));
  }

  /** The loop of `accuracy` over the one-hot part of a row. */
  method IsHit(t: array2<real>, i: nat, off: nat, q: nat, idx: nat, ghost ft: Matrix) returns (hit: bool)
    requires i < t.Length0 && off + q <= t.Length1 && Holds(t, ft)
    ensures hit == (Hot(Row(ft, i), off, q) == Some(idx))
  {
    for j := 0 to q
      invariant Hot(Row(ft, i), off, j) == None
    {
      if t[i, off + j] == 1.0 {
        HotFirst(Row(ft, i), off, q, j);
        return j == idx;
      }
    }
    return false;
  }

  lemma {:induction false} HotFirst(row: Vec, off: nat, q: nat, j: nat)
    requires j < q && Hot(row, off, j) == None && row(off + j) == 1.0
    ensures Hot(row, off, q) == Some(j)
  {
    if j < q - 1 {
      HotFirst(row, off, q - 1, j);
    }
  }

  /** One turn of the loop of `accuracy`. */
  method ScoreRow(nn: NN, exp: Exponential, t: array2<real>, i: nat, ghost net: Net, ghost ft: Matrix)
      returns (hit: bool)
    requires nn.Valid() && nn.Represents(net) && t !in nn.acts && Holds(t, ft) && i < t.Length0
    requires nn.Depth() > 0 && nn.arch[nn.Depth()] > 0 && Increasing(exp)
    requires t.Length1 == nn.arch[0] + nn.arch[nn.Depth()]
    modifies nn.acts
    ensures hit == Right(net, exp, ft, i) && nn.Represents(net) && Holds(t, ft)
  {
    hide Softmax, Logit, Activation, FirstMax, Hot, Increasing, Right;
    FeedForward(nn, exp, t, i, net, ft);
    assert Holds(t, ft) by {
      assert old(Holds(t, ft));
    }
    OutputOrder(net, exp, Row(ft, i));
    var idx := ArgMax(nn.acts[nn.Depth()], Activation(net, exp, Row(ft, i), net.depth));
    hit := IsHit(t, i, nn.arch[0], nn.arch[nn.Depth()], idx, ft);
    RightIs(net, exp, ft, i);
  }

  /** `accuracy`: the fraction of the rows whose label is the first largest logit. */
  method Accuracy(nn: NN, exp: Exponential, t: array2<real>, ghost net: Net, ghost ft: Matrix) returns (a: real)
    requires nn.Valid() && nn.Represents(net) && t !in nn.acts && Holds(t, ft) && t.Length0 > 0
    requires nn.Depth() > 0 && nn.arch[nn.Depth()] > 0 && Increasing(exp)
    requires t.Length1 == nn.arch[0] + nn.arch[nn.Depth()]
    modifies nn.acts
    ensures a == |set i | 0 <= i < t.Length0 && Right(net, exp, ft, i)| as real / t.Length0 as real
    ensures a == 1.0 <==> forall i :: 0 <= i < t.Length0 ==> Right(net, exp, ft, i)
    ensures a == 0.0 <==> forall i :: 0 <= i < t.Length0 ==> !Right(net, exp, ft, i)
    ensures nn.Represents(net)
  {
    hide Right, Increasing, Holds;
    var c := 0.0;
    for i := 0 to t.Length0
      invariant nn.Represents(net) && Holds(t, ft) && c == |RightRows(net, exp, ft, i)| as real
    {
      var hit := ScoreRow(nn, exp, t, i, net, ft);
      CountMore(net, exp, ft, i);
      if hit {
        c := c + 1.0;
      }
    }
    CountEnds(net, exp, ft, t.Length0);
    FractionEnds(c, t.Length0 as real);
    a := c / t.Length0 as real;
  }

  lemma {:induction false} FractionEnds(c: real, n: real)
    requires n > 0.0
    ensures c / n == 1.0 <==> c == n
    ensures c / n == 0.0 <==> c == 0.0
  {
    assert c / n * n == c;
  }
}
