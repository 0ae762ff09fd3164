/** The number that `nn_cross_entropy` reports. It adds the logarithms of all outputs, not of those the
    labels name, and so it is not the loss that training descends. */
module Reported {
  import opened Sums
  import opened Network
  import opened Matrices
  import opened Training
  import opened Smooth
  import opened Logarithm
  import opened Loss
  import A = Accuracy

  function RowReport(net: Net, exp: Exponential, ln: real -> real, row: Vec): real
  {
    Sum(net.width(net.depth), LogOf(ln, Activation(net, exp, row, net.depth)))
  }

  function ReportUpTo(net: Net, exp: Exponential, ln: real -> real, t: Matrix, i: nat): real
  {
    if i == 0 then 0.0 else ReportUpTo(net, exp, ln, t, i - 1) + RowReport(net, exp, ln, Row(t, i - 1))
  }

  /** What `nn_cross_entropy` returns for the first `n` samples. */
  function Report(net: Net, exp: Exponential, ln: real -> real, t: Matrix, n: nat): real
    requires n > 0
  {
    -1.0 * ReportUpTo(net, exp, ln, t, n) / n as real
  }

  // ---- in place ----

  /** The inner loop: adds the logarithms of a row to `start`. */
  method AddLogs(y: array2<real>, ln: real -> real, start: real, ghost v: Vec) returns (c: real)
    requires HoldsRow(y, v)
    ensures c == start + Sum(y.Length1, LogOf(ln, v))
  {
    c := start;
    for j := 0 to y.Length1
      invariant c == start + Sum(j, LogOf(ln, v))
    {
      c := c + ln(y[0, j]);
    }
  }

  /** One turn of the loop over the samples. */
  method ReportRow(nn: NN, exp: Exponential, ln: real -> real, t: array2<real>, i: nat, start: real, ghost net: Net,
      ghost ft: Matrix) returns (c: real)
    requires nn.Valid() && nn.Represents(net) && t !in nn.acts && Holds(t, ft) && i < t.Length0
    requires t.Length1 == nn.arch[0] + nn.arch[nn.Depth()]
    modifies nn.acts
    ensures c == start + RowReport(net, exp, ln, Row(ft, i)) && nn.Represents(net) && Holds(t, ft)
  {
    hide Activation, Sum, LogOf;
    FeedForward(nn, exp, t, i, net, ft);
    assert Holds(t, ft) by {
      assert old(Holds(t, ft));
    }
    c := AddLogs(nn.acts[nn.Depth()], ln, start, Trace(net, exp, Row(ft, i))(nn.Depth()));
  }

  /** `nn_cross_entropy`. */
  method CrossEntropy(nn: NN, exp: Exponential, ln: real -> real, t: array2<real>, ghost net: Net, ghost ft: Matrix)
      returns (a: real)
    requires nn.Valid() && nn.Represents(net) && t !in nn.acts && Holds(t, ft) && t.Length0 > 0
    requires t.Length1 == nn.arch[0] + nn.arch[nn.Depth()]
    modifies nn.acts
    ensures a == Report(net, exp, ln, ft, t.Length0) && nn.Represents(net)
  {
    hide RowReport, Holds, NN.Represents;
    var c := 0.0;
    for i := 0 to t.Length0
      invariant nn.Represents(net) && Holds(t, ft) && c == ReportUpTo(net, exp, ln, ft, i)
    {
      c := ReportRow(nn, exp, ln, t, i, c, net, ft);
    }
    a := -1.0 * c / t.Length0 as real;
  }

  // ---- what it measures ----

  lemma {:induction false} PositiveProduct(a: real, b: real)
    requires a > 0.0 && b > 0.0
    ensures Mul(a, b) > 0.0
  {}

  lemma {:induction false} SquarePositive(x: real)
    requires x != 0.0
    ensures Mul(x, x) > 0.0
  {
    hide Mul;
    if x > 0.0 {
      PositiveProduct(x, x);
    } else {
      PositiveProduct(-x, -x);
      MulNegative(x, -x);
      MulNegative(x, x);
    }
  }

  lemma {:induction false} HalfSquare(x: real, y: real, h: real)
    requires h > -1.0 && h != 0.0 && y >= 1.0 + h / 2.0 && x == Mul(y, y)
    ensures x > 1.0 + h
  {
    var g := 1.0 + h / 2.0;
    MulMono(g, y, y);
    MulMono(g, y, g);
    assert Mul(g, g) <= Mul(g, y) <= x;
    assert Mul(g, g) == 1.0 + h + Mul(h / 2.0, h / 2.0);
    SquarePositive(h / 2.0);
  }

  /** The exponential touches its tangent at 0 only. */
  lemma {:induction false} ExpStrict(exp: real -> real, h: real)
    requires Natural(exp) && h != 0.0
    ensures exp(h) > 1.0 + h
  {
    hide Natural, Mul;
    ExpPositive(exp, h);
    if h > -1.0 {
      ExpSum(exp, h / 2.0, h / 2.0);
      ExpAbove(exp, h / 2.0);
      assert h / 2.0 + h / 2.0 == h;
      HalfSquare(exp(h), exp(h / 2.0), h);
    }
  }

  /** ln(x) <= x - 1, with equality at 1 only. */
  lemma {:induction false} LnBelow(exp: real -> real, ln: real -> real, x: real)
    requires Natural(exp) && Inverts(ln, exp) && x > 0.0
    ensures ln(x) <= x - 1.0
    ensures ln(x) == x - 1.0 <==> x == 1.0
  {
    hide Natural, Inverts;
    LnBounds(exp, ln, x);
    LnInverts(exp, ln, x);
    if ln(x) != 0.0 {
      ExpStrict(exp, ln(x));
    } else {
      ExpZero(exp);
    }
  }

  lemma {:induction false} LnOfShare(exp: real -> real, ln: real -> real, m: real, y: real)
    requires Natural(exp) && Inverts(ln, exp) && m > 0.0 && y > 0.0
    ensures ln(y) <= Mul(y, m) - 1.0 - ln(m)
    ensures ln(y) == Mul(y, m) - 1.0 - ln(m) <==> Mul(y, m) == 1.0
  {
    hide Natural, Inverts;
    assert Mul(y, m) > 0.0;
    LnInverts(exp, ln, Mul(y, m));
    LnQuotient(exp, ln, ln(Mul(y, m)), m, y);
    LnBelow(exp, ln, Mul(y, m));
  }

  /** The logarithms of `j` shares of a whole divided among `m`. */
  lemma {:induction false} LogsBelow(exp: real -> real, ln: real -> real, m: real, y: Vec, j: nat)
    requires Natural(exp) && Inverts(ln, exp) && m > 0.0
    requires forall i :: 0 <= i < j ==> y(i) > 0.0
    ensures var top := Mul(Sum(j, y), m) - Mul(j as real, 1.0 + ln(m));
      && Sum(j, LogOf(ln, y)) <= top
      && (Sum(j, LogOf(ln, y)) == top <==> forall i :: 0 <= i < j ==> Mul(y(i), m) == 1.0)
  {
    hide Natural, Multiplies, AboveLine, Inverts, Mul, LogOf;
    var c := 1.0 + ln(m);
    if j == 0 {
      MulOne(m);
      MulOne(c);
    } else {
      LogsBelow(exp, ln, m, y, j - 1);
      LnOfShare(exp, ln, m, y(j - 1));
      MulAdd(Sum(j - 1, y), y(j - 1), m);
      MulAdd((j - 1) as real, 1.0, c);
      MulOne(c);
      LogAt(ln, y, j - 1);
    }
  }

  lemma {:induction false} LogAt(ln: real -> real, y: Vec, j: int)
    ensures LogOf(ln, y)(j) == ln(y(j))
  {}

  /** The outputs for one sample are all the same. */
  ghost predicate Even(net: Net, exp: Exponential, row: Vec)
  {
    var m := net.width(net.depth);
    forall j :: 0 <= j < m ==> Mul(Activation(net, exp, row, net.depth)(j), m as real) == 1.0
  }

  ghost predicate AllEven(net: Net, exp: Exponential, t: Matrix, n: nat)
  {
    forall i :: 0 <= i < n ==> Even(net, exp, Row(t, i))
  }

  lemma {:induction false} AllEvenNext(net: Net, exp: Exponential, t: Matrix, i: nat)
    ensures AllEven(net, exp, t, 0)
    ensures AllEven(net, exp, t, i + 1) <==> AllEven(net, exp, t, i) && Even(net, exp, Row(t, i))
  {
    hide Even;
  }

  lemma {:induction false} ReportNext(net: Net, exp: Exponential, ln: real -> real, t: Matrix, i: nat)
    ensures ReportUpTo(net, exp, ln, t, 0) == 0.0
    ensures ReportUpTo(net, exp, ln, t, i + 1) == ReportUpTo(net, exp, ln, t, i) + RowReport(net, exp, ln, Row(t, i))
  {
    hide RowReport;
  }

  lemma {:induction false} RowFloor(net: Net, exp: Exponential, ln: real -> real, row: Vec)
    requires Natural(exp) && Inverts(ln, exp) && net.depth > 0 && net.width(net.depth) > 0
    ensures var m := net.width(net.depth) as real;
      && RowReport(net, exp, ln, row) <= -Mul(m, ln(m))
      && (RowReport(net, exp, ln, row) == -Mul(m, ln(m)) <==> Even(net, exp, row))
  {
    hide Natural, Multiplies, AboveLine, Inverts, Mul, LogOf, Softmax, Activation, Logit, Sum;
    var m, y := net.width(net.depth), Activation(net, exp, row, net.depth);
    OutputIs(net, exp, row);
    A.SoftmaxIsDistribution(exp, Logit(net, exp, row, net.depth), m);
    LogsBelow(exp, ln, m as real, y, m);
    MulAdd(1.0, ln(m as real), m as real);
    MulOne(m as real);
  }

  /** What is reported does not measure how well the labels are met: it is smallest, m ln(m) for m
      outputs, exactly when the network gives every class the same share for every sample. */
  lemma {:induction false} ReportFloor(net: Net, exp: Exponential, ln: real -> real, t: Matrix, n: nat)
    requires Natural(exp) && Inverts(ln, exp) && net.depth > 0 && net.width(net.depth) > 0 && n > 0
    ensures var m := net.width(net.depth) as real;
      && Report(net, exp, ln, t, n) >= Mul(m, ln(m))
      && (Report(net, exp, ln, t, n) == Mul(m, ln(m)) <==> AllEven(net, exp, t, n))
  {
    hide Natural, Inverts, Mul, AllEven, ReportUpTo;
    var m := net.width(net.depth) as real;
    FloorUpTo(net, exp, ln, t, Mul(m, ln(m)), n);
    MeanFloor(n as real, ReportUpTo(net, exp, ln, t, n), Mul(m, ln(m)));
  }

  lemma {:induction false} MeanFloor(n: real, total: real, low: real)
    requires n > 0.0 && total <= -Mul(n, low)
    ensures -1.0 * total / n >= low && (-1.0 * total / n == low <==> total == -Mul(n, low))
  {
    var q := -1.0 * total / n;
    assert q * n == -total;
    if q < low {
      assert (low - q) * n > 0.0;
    }
  }

  /** One more term that is at most `-low`. */
  lemma {:induction false} FloorStep(i: nat, low: real, total: real, term: real)
    requires total <= -Mul(i as real, low) && term <= -low
    ensures total + term <= -Mul((i + 1) as real, low)
    ensures total + term == -Mul((i + 1) as real, low) <==> total == -Mul(i as real, low) && term == -low
  {
    hide Mul;
    assert (i + 1) as real == i as real + 1.0;
    MulAdd(i as real, 1.0, low);
    MulOne(low);
  }

  /** The first `i` samples, each with `m` outputs, are reported with at least their share. */
  ghost predicate Floored(net: Net, exp: Exponential, ln: real -> real, t: Matrix, low: real, i: nat)
  {
    && ReportUpTo(net, exp, ln, t, i) <= -Mul(i as real, low)
    && (ReportUpTo(net, exp, ln, t, i) == -Mul(i as real, low) <==> AllEven(net, exp, t, i))
  }

  lemma {:induction false} FloorStart(net: Net, exp: Exponential, ln: real -> real, t: Matrix, low: real)
    ensures Floored(net, exp, ln, t, low, 0)
  {
    hide AllEven, ReportUpTo;
    AllEvenNext(net, exp, t, 0);
    ReportNext(net, exp, ln, t, 0);
  }

  lemma {:induction false} FloorNext(net: Net, exp: Exponential, ln: real -> real, t: Matrix, low: real, i: nat)
    requires Natural(exp) && Inverts(ln, exp) && net.depth > 0 && net.width(net.depth) > 0
    requires low == Mul(net.width(net.depth) as real, ln(net.width(net.depth) as real))
    requires Floored(net, exp, ln, t, low, i)
    ensures Floored(net, exp, ln, t, low, i + 1)
  {
    hide Natural, Inverts, Mul, AllEven, Even, ReportUpTo, RowReport, Row;
    RowFloor(net, exp, ln, Row(t, i));
    FloorStep(i, low, ReportUpTo(net, exp, ln, t, i), RowReport(net, exp, ln, Row(t, i)));
    AllEvenNext(net, exp, t, i);
    ReportNext(net, exp, ln, t, i);
  }

  lemma {:induction false} FloorUpTo(net: Net, exp: Exponential, ln: real -> real, t: Matrix, low: real, i: nat)
    requires Natural(exp) && Inverts(ln, exp) && net.depth > 0 && net.width(net.depth) > 0
    requires low == Mul(net.width(net.depth) as real, ln(net.width(net.depth) as real))
    ensures Floored(net, exp, ln, t, low, i)
  {
    hide *;
    FloorStart(net, exp, ln, t, low);
    for q := 0 to i
      invariant Floored(net, exp, ln, t, low, q)
    {
      FloorNext(net, exp, ln, t, low, q);
    }
  }
}
