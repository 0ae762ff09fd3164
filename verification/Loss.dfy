/** The loss that training descends, and why what `nn_backprop` returns is its gradient. */
module Loss {
  import opened Sums
  import opened Network
  import opened Gradient
  import opened Smooth
  import opened Logarithm
  import opened Tangents

  // ---- the loss ----

  /** The label of a sample as the training code reads it: entries equal to 1 against all others. */
  function Label(row: Vec, from: int): Vec
  {
    j => if row(from + j) == 1.0 then 1.0 else 0.0
  }

  function LogOf(ln: real -> real, y: Vec): Vec
  {
    j => ln(y(j))
  }

  /** The cross entropy of the output for one sample against its label. */
  function RowLoss(net: Net, exp: Exponential, ln: real -> real, row: Vec): real
  {
    -Dot(net.width(net.depth), Label(row, net.width(0)), LogOf(ln, Activation(net, exp, row, net.depth)))
  }

  function LossUpTo(net: Net, exp: Exponential, ln: real -> real, t: Matrix, i: nat): real
  {
    if i == 0 then 0.0 else LossUpTo(net, exp, ln, t, i - 1) + RowLoss(net, exp, ln, Row(t, i - 1))
  }

  /** The mean cross entropy of the first `n` samples. */
  function MeanLoss(net: Net, exp: Exponential, ln: real -> real, t: Matrix, n: nat): real
    requires n > 0
  {
    LossUpTo(net, exp, ln, t, n) / n as real
  }

  /** Exactly one entry of the label is 1. */
  ghost predicate OneHot(row: Vec, from: int, m: nat)
  {
    Sum(m, Label(row, from)) == 1.0
  }

  // ---- the logarithm of softmax ----

  function Powers(exp: real -> real, z: Vec): Vec
  {
    j => exp(z(j))
  }

  lemma {:induction false} PowersPositive(exp: real -> real, z: Vec, n: nat)
    requires Natural(exp) && n > 0
    ensures Sum(n, Powers(exp, z)) > 0.0
  {
    hide Natural, Powers;
    PowersAt(exp, z, n - 1);
    ExpPositive(exp, z(n - 1));
    if n > 1 {
      PowersPositive(exp, z, n - 1);
    }
  }

  lemma {:induction false} PowersAt(exp: real -> real, z: Vec, j: int)
    ensures Powers(exp, z)(j) == exp(z(j))
  {}

  lemma {:induction false} ShiftCancels(q: real, t: real, c: real, x: real)
    requires c > 0.0 && Mul(q, Mul(t, c)) == Mul(x, c)
    ensures Mul(q, t) == x
  {
    assert (q * t - x) * c == 0.0;
  }

  lemma {:induction false} ShiftedIs(exp: Exponential, z: Vec, n: nat, j: int)
    requires Natural(exp)
    ensures Shifted(exp, z, n)(j) == Mul(exp(z(j)), exp(-Peak(z, n)))
  {
    hide Natural, Mul, Peak;
    ExpSum(exp, z(j), -Peak(z, n));
    assert z(j) + -Peak(z, n) == z(j) - Peak(z, n);
  }

  lemma {:induction false} SumOfMultiples(n: nat, c: real, u: Vec, v: Vec)
    requires forall j :: 0 <= j < n ==> v(j) == Mul(u(j), c)
    ensures Sum(n, v) == Mul(Sum(n, u), c)
  {
    hide Mul;
    if n == 0 {
      MulOne(c);
    } else {
      SumOfMultiples(n - 1, c, u, v);
      MulAdd(Sum(n - 1, u), u(n - 1), c);
    }
  }

  lemma {:induction false} ShiftedSum(exp: Exponential, z: Vec, n: nat)
    requires Natural(exp)
    ensures Sum(n, Shifted(exp, z, n)) == Mul(Sum(n, Powers(exp, z)), exp(-Peak(z, n)))
  {
    hide *;
    forall j | 0 <= j < n ensures Shifted(exp, z, n)(j) == Mul(Powers(exp, z)(j), exp(-Peak(z, n))) {
      ShiftedIs(exp, z, n, j);
      PowersAt(exp, z, j);
    }
    SumOfMultiples(n, exp(-Peak(z, n)), Powers(exp, z), Shifted(exp, z, n));
  }

  lemma {:induction false} QuotientTimes(x: real, y: real)
    requires y > 0.0
    ensures Mul(x / y, y) == x
  {}

  lemma {:induction false} SoftmaxIs(exp: Exponential, z: Vec, n: nat, j: int)
    requires n > 0
    ensures Mul(Softmax(exp, z, n)(j), Sum(n, Shifted(exp, z, n))) == Shifted(exp, z, n)(j)
  {
    hide Shifted, Mul;
    PositiveTotal(exp, z, n, n);
    QuotientTimes(Shifted(exp, z, n)(j), Sum(n, Shifted(exp, z, n)));
  }

  lemma {:induction false} SoftmaxScaled(exp: Exponential, z: Vec, n: nat, j: int)
    requires Natural(exp) && n > 0
    ensures var c := exp(-Peak(z, n));
      c > 0.0 && Mul(Softmax(exp, z, n)(j), Mul(Sum(n, Powers(exp, z)), c)) == Mul(exp(z(j)), c)
  {
    hide *;
    ExpPositive(exp, -Peak(z, n));
    ShiftedIs(exp, z, n, j);
    ShiftedSum(exp, z, n);
    SoftmaxIs(exp, z, n, j);
  }

  /** Subtracting the peak first changes nothing: softmax is the share of exp(z(j)). */
  lemma {:induction false} SoftmaxShare(exp: Exponential, z: Vec, n: nat, j: int)
    requires Natural(exp) && n > 0
    ensures Mul(Softmax(exp, z, n)(j), Sum(n, Powers(exp, z))) == exp(z(j))
  {
    hide *;
    SoftmaxScaled(exp, z, n, j);
    ShiftCancels(Softmax(exp, z, n)(j), Sum(n, Powers(exp, z)), exp(-Peak(z, n)), exp(z(j)));
  }

  lemma {:induction false} LnSoftmax(exp: Exponential, ln: real -> real, z: Vec, n: nat, j: int)
    requires Natural(exp) && Inverts(ln, exp) && n > 0
    ensures ln(Softmax(exp, z, n)(j)) == z(j) - ln(Sum(n, Powers(exp, z)))
  {
    hide Natural, Inverts, Powers, Softmax, Mul;
    PowersPositive(exp, z, n);
    SoftmaxPositive(exp, z, n, j);
    SoftmaxShare(exp, z, n, j);
    LnQuotient(exp, ln, z(j), Sum(n, Powers(exp, z)), Softmax(exp, z, n)(j));
  }

  lemma {:induction false} DotOfDifference(m: nat, d: Vec, v: Vec, z: Vec, c: real)
    requires forall j :: 0 <= j < m ==> v(j) == z(j) - c
    ensures Dot(m, d, v) == Dot(m, d, z) - Mul(Sum(m, d), c)
  {
    if m > 0 {
      DotOfDifference(m - 1, d, v, z, c);
    }
  }

  /** One sample's loss in terms of its logits. */
  lemma {:induction false} RowLossIs(net: Net, exp: Exponential, ln: real -> real, row: Vec)
    requires Natural(exp) && Inverts(ln, exp) && net.depth > 0 && net.width(net.depth) > 0
    ensures var m, z, d := net.width(net.depth), Logit(net, exp, row, net.depth), Label(row, net.width(0));
      RowLoss(net, exp, ln, row) == Mul(Sum(m, d), ln(Sum(m, Powers(exp, z)))) - Dot(m, d, z)
  {
    hide Natural, Inverts, Powers, Softmax, Mul, Label, Activation, Logit, Sum, Dot;
    var m, z, d := net.width(net.depth), Logit(net, exp, row, net.depth), Label(row, net.width(0));
    var v := LogOf(ln, Activation(net, exp, row, net.depth));
    OutputIs(net, exp, row);
    forall j | 0 <= j < m ensures v(j) == z(j) - ln(Sum(m, Powers(exp, z))) {
      LnSoftmax(exp, ln, z, m, j);
    }
    DotOfDifference(m, d, v, z, ln(Sum(m, Powers(exp, z))));
  }

  // ---- the slope of one sample's loss ----

  function PowersPath(exp: real -> real, z: real -> Vec): real -> Vec
  {
    e => Powers(exp, z(e))
  }

  function PowerSlopes(exp: real -> real, z: Vec, t: Vec): Vec
  {
    j => Mul(exp(z(j)), t(j))
  }

  lemma {:induction false} PowersPathAt(exp: real -> real, z: real -> Vec, j: int, e: real)
    ensures Coord(PowersPath(exp, z), j)(e) == exp(Coord(z, j)(e))
  {
    assert PowersPath(exp, z)(e) == Powers(exp, z(e));
  }

  lemma {:induction false} PowersHaveSlopes(exp: real -> real, m: nat, z: real -> Vec, z0: Vec, t: Vec)
    requires Natural(exp) && VecSlope(m, z, z0, t)
    ensures VecSlope(m, PowersPath(exp, z), Powers(exp, z0), PowerSlopes(exp, z0, t))
  {
    hide Natural, HasSlope, Coord, PowersPath, Mul;
    var u, v, s := PowersPath(exp, z), Powers(exp, z0), PowerSlopes(exp, z0, t);
    forall j | 0 <= j < m ensures HasSlope(Coord(u, j), v(j), s(j)) {
      SlopeAt(m, z, z0, t, j);
      forall e ensures Coord(u, j)(e) == exp(Coord(z, j)(e)) {
        PowersPathAt(exp, z, j, e);
      }
      SlopeOfExp(exp, Coord(z, j), z0(j), t(j), Coord(u, j));
    }
  }

  lemma {:induction false} SlopeOfMultiple(f: real -> real, v: real, t: real, k: real, h: real -> real)
    requires HasSlope(f, v, t)
    requires forall e :: h(e) == Mul(k, f(e))
    ensures HasSlope(h, Mul(k, v), Mul(k, t))
  {
    hide HasSlope, Mul;
    var g := e => k;
    SlopeOfConstant(g, k);
    SlopeOfProduct(g, k, 0.0, f, v, t, h);
    MulOne(v);
  }

  /** The logarithm of the partition sum along a path of logits. */
  function LnSumPath(exp: real -> real, ln: real -> real, m: nat, z: real -> Vec): real -> real
  {
    e => ln(Sum(m, Powers(exp, z(e))))
  }

  lemma {:induction false} LnSumPathAt(exp: real -> real, ln: real -> real, m: nat, z: real -> Vec, e: real)
    ensures LnSumPath(exp, ln, m, z)(e) == ln(SumPath(m, PowersPath(exp, z))(e))
  {
    hide Powers;
    assert SumPath(m, PowersPath(exp, z))(e) == Sum(m, Powers(exp, z(e)));
  }

  lemma {:induction false} LnSumHasSlope(exp: real -> real, ln: real -> real, m: nat, z: real -> Vec, z0: Vec, t: Vec)
    requires Natural(exp) && Inverts(ln, exp) && m > 0 && VecSlope(m, z, z0, t)
    ensures Sum(m, Powers(exp, z0)) > 0.0
    ensures HasSlope(LnSumPath(exp, ln, m, z), ln(Sum(m, Powers(exp, z0))),
                     Mul(1.0 / Sum(m, Powers(exp, z0)), Sum(m, PowerSlopes(exp, z0, t))))
  {
    hide Natural, Inverts, HasSlope, VecSlope, Powers, PowersPath, PowerSlopes, SumPath, LnSumPath, Sum, Mul;
    PowersPositive(exp, z0, m);
    PowersHaveSlopes(exp, m, z, z0, t);
    SlopeOfSums(m, PowersPath(exp, z), Powers(exp, z0), PowerSlopes(exp, z0, t));
    forall e ensures LnSumPath(exp, ln, m, z)(e) == ln(SumPath(m, PowersPath(exp, z))(e)) {
      LnSumPathAt(exp, ln, m, z, e);
    }
    SlopeOfLn(exp, ln, SumPath(m, PowersPath(exp, z)), Sum(m, Powers(exp, z0)), Sum(m, PowerSlopes(exp, z0, t)),
              LnSumPath(exp, ln, m, z));
  }

  lemma {:induction false} ShareOfSlopes(exp: real -> real, m: nat, z: Vec, t: Vec, y: Vec, s: real)
    requires forall j :: 0 <= j < m ==> Mul(y(j), s) == exp(z(j))
    ensures Sum(m, PowerSlopes(exp, z, t)) == Mul(s, Dot(m, y, t))
  {
    if m > 0 {
      ShareOfSlopes(exp, m - 1, z, t, y, s);
      ShareOfTerm(y(m - 1), s, exp(z(m - 1)), t(m - 1), Dot(m - 1, y, t));
    }
  }

  lemma {:induction false} ShareOfTerm(y: real, s: real, x: real, t: real, rest: real)
    requires Mul(y, s) == x
    ensures Mul(s, rest) + Mul(x, t) == Mul(s, rest + y * t)
  {}

  /** The slopes in the logits: the label's weight times softmax, less the label. */
  function LogitSlopes(k: real, y: Vec, d: Vec): Vec
  {
    j => Mul(k, y(j)) - d(j)
  }

  lemma {:induction false} SplitSlopes(m: nat, k: real, y: Vec, d: Vec, t: Vec)
    ensures Dot(m, LogitSlopes(k, y, d), t) == Mul(k, Dot(m, y, t)) - Dot(m, d, t)
  {
    if m > 0 {
      SplitSlopes(m - 1, k, y, d, t);
      SplitTerm(k, y(m - 1), d(m - 1), t(m - 1), Dot(m - 1, y, t));
    }
  }

  lemma {:induction false} SplitTerm(k: real, y: real, d: real, t: real, rest: real)
    ensures Mul(k, rest) + (Mul(k, y) - d) * t == Mul(k, rest + y * t) - d * t
  {}

  function Still(d: Vec): real -> Vec
  {
    e => d
  }

  function Zeros(): Vec
  {
    j => 0.0
  }

  lemma {:induction false} StillSlopes(m: nat, d: Vec)
    ensures VecSlope(m, Still(d), d, Zeros())
  {
    hide HasSlope;
    forall j | 0 <= j < m ensures HasSlope(Coord(Still(d), j), d(j), Zeros()(j)) {
      SlopeOfConstant(Coord(Still(d), j), d(j));
    }
  }

  lemma {:induction false} StillDot(m: nat, d: Vec, z: real -> Vec, e: real)
    ensures DotPath(m, Still(d), z)(e) == Dot(m, d, z(e))
  {
    hide Dot;
  }

  lemma {:induction false} SlopeOfDotLeft(m: nat, d: Vec, z: real -> Vec, z0: Vec, t: Vec)
    requires VecSlope(m, z, z0, t)
    ensures HasSlope(DotPath(m, Still(d), z), Dot(m, d, z0), Dot(m, d, t))
  {
    hide HasSlope, VecSlope, Coord, Dot, DotPath, Still;
    StillSlopes(m, d);
    SlopeOfDot(m, Still(d), d, Zeros(), z, z0, t);
    DotZero(m, Zeros(), z0);
    assert Dot(m, Zeros(), z0) + Dot(m, d, t) == Dot(m, d, t);
  }

  // ---- one sample ----

  lemma {:induction false} ShareCancels(s: real, x: real)
    requires s > 0.0
    ensures Mul(1.0 / s, Mul(s, x)) == x
  {
    assert (1.0 / s) * s == 1.0;
  }

  /** The logarithm of the sum of exp(z) moves as `z` weighted with its softmax. */
  lemma {:induction false} LnSumSlopeIsShare(exp: real -> real, ln: real -> real, m: nat, z: real -> Vec, z0: Vec,
      t: Vec, y: Vec)
    requires Natural(exp) && Inverts(ln, exp) && m > 0 && VecSlope(m, z, z0, t)
    requires forall j :: 0 <= j < m ==> Mul(y(j), Sum(m, Powers(exp, z0))) == exp(z0(j))
    ensures HasSlope(LnSumPath(exp, ln, m, z), ln(Sum(m, Powers(exp, z0))), Dot(m, y, t))
  {
    hide Natural, Inverts, HasSlope, VecSlope, Powers, PowerSlopes, LnSumPath, Sum, Dot, Mul;
    LnSumHasSlope(exp, ln, m, z, z0, t);
    ShareOfSlopes(exp, m, z0, t, y, Sum(m, Powers(exp, z0)));
    ShareCancels(Sum(m, Powers(exp, z0)), Dot(m, y, t));
  }

  /** How the loss of one sample hangs on two moving parts. */
  lemma {:induction false} SlopeOfDifference(f: real -> real, v: real, t: real, k: real, g: real -> real, w: real,
      u: real, h: real -> real)
    requires HasSlope(f, v, t) && HasSlope(g, w, u)
    requires forall e :: h(e) == Mul(k, f(e)) - g(e)
    ensures HasSlope(h, Mul(k, v) - w, Mul(k, t) - u)
  {
    hide *;
    MultipleIs(k, f);
    SlopeOfMultiple(f, v, t, k, Multiple(k, f));
    assert forall e :: h(e) == Multiple(k, f)(e) - g(e);
    SlopeOfMinus(Multiple(k, f), Mul(k, v), Mul(k, t), g, w, u, h);
  }

  function Multiple(k: real, f: real -> real): real -> real
  {
    e => Mul(k, f(e))
  }

  lemma {:induction false} MultipleIs(k: real, f: real -> real)
    ensures forall e :: Multiple(k, f)(e) == Mul(k, f(e))
  {
    hide Mul;
  }

  /** The slope of a loss k ln(sum of exp(z)) - d.z, where `z` moves with slopes `t` and `y` is its softmax. */
  lemma {:induction false} LogitLossHasSlope(exp: real -> real, ln: real -> real, m: nat, z: real -> Vec, z0: Vec,
      t: Vec, d: Vec, y: Vec, k: real, h: real -> real, x: real, s: real)
    requires Natural(exp) && Inverts(ln, exp) && m > 0 && VecSlope(m, z, z0, t)
    requires forall j :: 0 <= j < m ==> Mul(y(j), Sum(m, Powers(exp, z0))) == exp(z0(j))
    requires forall e :: h(e) == Mul(k, LnSumPath(exp, ln, m, z)(e)) - DotPath(m, Still(d), z)(e)
    requires x == Mul(k, ln(Sum(m, Powers(exp, z0)))) - Dot(m, d, z0)
    requires s == Dot(m, LogitSlopes(k, y, d), t)
    ensures HasSlope(h, x, s)
  {
    hide *;
    LnSumSlopeIsShare(exp, ln, m, z, z0, t, y);
    SlopeOfDotLeft(m, d, z, z0, t);
    SplitSlopes(m, k, y, d, t);
    SlopeOfDifference(LnSumPath(exp, ln, m, z), ln(Sum(m, Powers(exp, z0))), Dot(m, y, t), k,
                      DotPath(m, Still(d), z), Dot(m, d, z0), Dot(m, d, t), h);
  }

  lemma {:induction false} OutputLogits(path: real -> Net, net: Net, dir: Net, exp: Exponential, ln: real -> real,
      row: Vec, e: real)
    requires Line(path, net, dir) && Natural(exp) && Inverts(ln, exp) && net.depth > 0 && net.width(net.depth) > 0
    ensures var m, z, d := net.width(net.depth), LogitPath(path, exp, row, net.depth), Label(row, net.width(0));
      RowLoss(path(e), exp, ln, row) == Mul(Sum(m, d), LnSumPath(exp, ln, m, z)(e)) - DotPath(m, Still(d), z)(e)
  {
    hide Line, Natural, Inverts, RowLoss, Label, Logit, Sum, Dot, Powers, Mul;
    LineAt(path, net, dir, e);
    RowLossIs(path(e), exp, ln, row);
    StillDot(net.width(net.depth), Label(row, net.width(0)), LogitPath(path, exp, row, net.depth), e);
  }

  /** The slopes of one sample's loss in the output logits. */
  function LossSlopes(net: Net, exp: Exponential, row: Vec): Vec
  {
    var d := Label(row, net.width(0));
    LogitSlopes(Sum(net.width(net.depth), d), Activation(net, exp, row, net.depth), d)
  }

  function RowLossPath(path: real -> Net, exp: Exponential, ln: real -> real, row: Vec): real -> real
  {
    e => RowLoss(path(e), exp, ln, row)
  }

  lemma {:induction false} RowLossPathAt(path: real -> Net, exp: Exponential, ln: real -> real, row: Vec, e: real)
    ensures RowLossPath(path, exp, ln, row)(e) == RowLoss(path(e), exp, ln, row)
  {
    hide RowLoss;
  }

  lemma {:induction false} RowLossPathIs(path: real -> Net, net: Net, dir: Net, exp: Exponential, ln: real -> real,
      row: Vec, m: nat, d: Vec, z: real -> Vec)
    requires Line(path, net, dir) && Natural(exp) && Inverts(ln, exp) && net.depth > 0 && net.width(net.depth) > 0
    requires m == net.width(net.depth) && d == Label(row, net.width(0)) && z == LogitPath(path, exp, row, net.depth)
    ensures forall e :: RowLossPath(path, exp, ln, row)(e)
                     == Mul(Sum(m, d), LnSumPath(exp, ln, m, z)(e)) - DotPath(m, Still(d), z)(e)
  {
    hide *;
    forall e ensures RowLossPath(path, exp, ln, row)(e)
                  == Mul(Sum(m, d), LnSumPath(exp, ln, m, z)(e)) - DotPath(m, Still(d), z)(e)
    {
      RowLossPathAt(path, exp, ln, row, e);
      OutputLogits(path, net, dir, exp, ln, row, e);
    }
  }

  lemma {:induction false} OutputShares(net: Net, exp: Exponential, row: Vec, z: Vec, y: Vec)
    requires Natural(exp) && net.depth > 0 && net.width(net.depth) > 0
    requires z == Logit(net, exp, row, net.depth) && y == Activation(net, exp, row, net.depth)
    ensures forall j :: Mul(y(j), Sum(net.width(net.depth), Powers(exp, z))) == exp(z(j))
  {
    hide *;
    OutputIs(net, exp, row);
    forall j ensures Mul(y(j), Sum(net.width(net.depth), Powers(exp, z))) == exp(z(j)) {
      SoftmaxShare(exp, z, net.width(net.depth), j);
    }
  }

  lemma {:induction false} LogitsSlopeIs(path: real -> Net, exp: Exponential, row: Vec, p: Pass, dir: Net, l: nat)
    requires l > 0 && LogitsSlope(path, exp, row, p, dir, l)
    ensures VecSlope(p.net.width(l), LogitPath(path, exp, row, l), Logit(p.net, exp, row, l), p.TangentLogit(dir, l))
  {
    hide VecSlope, LogitPath, Logit, Pass.TangentLogit;
  }

  /** Whatever the label, the loss of one sample moves as its slopes in the logits say. */
  lemma {:induction false} RowLossHasSlope(path: real -> Net, net: Net, dir: Net, exp: Exponential, ln: real -> real,
      row: Vec, p: Pass)
    requires Natural(exp) && Inverts(ln, exp) && Line(path, net, dir) && Regular(net, exp, row)
    requires net.depth > 0 && net.width(net.depth) > 0 && p.net == net && p.act == Trace(net, exp, row)
    ensures HasSlope(RowLossPath(path, exp, ln, row), RowLoss(net, exp, ln, row),
                     Dot(net.width(net.depth), LossSlopes(net, exp, row), p.TangentLogit(dir, net.depth)))
  {
    hide Natural, Inverts, Line, OnLine, Regular, Activation, Logit, LogitPath, Powers, RowLoss, Label, HasSlope,
      VecSlope,
      LnSumPath, DotPath, Still, Sum, Dot, Mul, LogitSlopes, LogitsSlope, Pass.TangentLogit, RowLossPath, Trace;
    var m, z, z0, d := net.width(net.depth), LogitPath(path, exp, row, net.depth), Logit(net, exp, row, net.depth),
                       Label(row, net.width(0));
    var y, t, h := Activation(net, exp, row, net.depth), p.TangentLogit(dir, net.depth), RowLossPath(path, exp, ln,
      row);
    OutputLogitsSlope(path, exp, row, p, dir);
    LogitsSlopeIs(path, exp, row, p, dir, net.depth);
    OutputShares(net, exp, row, z0, y);
    RowLossPathIs(path, net, dir, exp, ln, row, m, d, z);
    RowLossIs(net, exp, ln, row);
    LogitLossHasSlope(exp, ln, m, z, z0, t, d, y, Sum(m, d), h, RowLoss(net, exp, ln, row),
                      Dot(m, LossSlopes(net, exp, row), t));
  }

  // ---- the seed ----

  lemma {:induction false} FactorOne(k: real, y: real)
    requires y > 0.0
    ensures Mul(k, y) == y <==> k == 1.0
  {
    if k < 1.0 {
      assert (1.0 - k) * y > 0.0;
    } else if k > 1.0 {
      assert (k - 1.0) * y > 0.0;
    }
  }

  lemma {:induction false} SeedEntry(n: real, y: real, k: real, d: real, seed: real)
    requires n > 0.0 && y > 0.0 && seed == (y - d) / n
    ensures Mul(seed, n) == Mul(k, y) - d <==> k == 1.0
  {
    hide Mul;
    FactorOne(k, y);
    QuotientTimes(y - d, n);
  }

  lemma {:induction false} LossSlopesAt(net: Net, exp: Exponential, row: Vec, j: int)
    ensures var d := Label(row, net.width(0));
      LossSlopes(net, exp, row)(j)
        == Mul(Sum(net.width(net.depth), d), Activation(net, exp, row, net.depth)(j)) - d(j)
  {
    hide Activation, Label, Mul, Sum;
  }

  lemma {:induction false} SeedIs(net: Net, y: Vec, row: Vec, n: nat, j: int)
    requires n > 0
    ensures Seed(net, y, row, n)(j) == (y(j) - Label(row, net.width(0))(j)) / n as real
  {}

  lemma {:induction false} OutputPositive(net: Net, exp: Exponential, row: Vec, j: int)
    requires net.depth > 0 && net.width(net.depth) > 0
    ensures Activation(net, exp, row, net.depth)(j) > 0.0
  {
    hide Activation, Logit, Softmax;
    OutputIs(net, exp, row);
    SoftmaxPositive(exp, Logit(net, exp, row, net.depth), net.width(net.depth), j);
  }

  lemma {:induction false} OneHotIs(row: Vec, from: int, m: nat)
    ensures OneHot(row, from, m) <==> Sum(m, Label(row, from)) == 1.0
  {}

  lemma {:induction false} SeedAt(net: Net, exp: Exponential, row: Vec, n: nat, j: int)
    requires n > 0 && net.depth > 0 && net.width(net.depth) > 0
    ensures Mul(Seed(net, Activation(net, exp, row, net.depth), row, n)(j), n as real) == LossSlopes(net, exp, row)(j)
       <==> OneHot(row, net.width(0), net.width(net.depth))
  {
    hide *;
    OneHotIs(row, net.width(0), net.width(net.depth));
    var y, d := Activation(net, exp, row, net.depth), Label(row, net.width(0));
    OutputPositive(net, exp, row, j);
    SeedIs(net, y, row, n, j);
    LossSlopesAt(net, exp, row, j);
    SeedEntry(n as real, y(j), Sum(net.width(net.depth), d), d(j), Seed(net, y, row, n)(j));
  }

  /** The seed of the backward pass is the slope of the loss, a share 1/n of the sample's, exactly
      when the label is one-hot. */
  lemma {:induction false} SeedIsSlope(net: Net, exp: Exponential, row: Vec, n: nat)
    requires n > 0 && net.depth > 0 && net.width(net.depth) > 0
    ensures (forall j :: 0 <= j < net.width(net.depth) ==>
        Mul(Seed(net, Activation(net, exp, row, net.depth), row, n)(j), n as real) == LossSlopes(net, exp, row)(j))
       <==> OneHot(row, net.width(0), net.width(net.depth))
  {
    hide Seed, LossSlopes, OneHot, Activation, Mul;
    SeedAt(net, exp, row, n, 0);
    var u, v := Seed(net, Activation(net, exp, row, net.depth), row, n), LossSlopes(net, exp, row);
    forall j | 0 <= j < net.width(net.depth)
      ensures Mul(u(j), n as real) == v(j) <==> OneHot(row, net.width(0), net.width(net.depth))
    {
      SeedAt(net, exp, row, n, j);
    }
  }

  lemma {:induction false} DotMultiple(m: nat, c: real, u: Vec, v: Vec, t: Vec)
    requires forall j :: 0 <= j < m ==> Mul(u(j), c) == v(j)
    ensures Dot(m, v, t) == Mul(c, Dot(m, u, t))
  {
    DotScale(m, c, u, v, t);
  }

  // ---- all samples ----

  lemma {:induction false} DeadRow(path: real -> Net, net: Net, dir: Net, exp: Exponential, ln: real -> real, row: Vec,
      e: real)
    requires Line(path, net, dir) && net.depth == 0
    ensures RowLoss(path(e), exp, ln, row) == RowLoss(net, exp, ln, row)
  {
    hide Line, Dot, Label, LogOf;
    LineAt(path, net, dir, e);
  }

  lemma {:induction false} SampleSlope(net: Net, exp: Exponential, row: Vec, n: nat, dir: Net)
    requires n > 0 && net.depth > 0 && OneHot(row, net.width(0), net.width(net.depth))
    ensures net.width(net.depth) > 0
    ensures Dot(net.width(net.depth), LossSlopes(net, exp, row),
                SamplePass(net, exp, row, n, 1.0).TangentLogit(dir, net.depth))
         == Mul(n as real, SampleTangent(SamplePass(net, exp, row, n, 1.0), dir))
  {
    hide Seed, LossSlopes, Activation, Mul, Pass.TangentLogit, Dot;
    var p := SamplePass(net, exp, row, n, 1.0);
    SeedIsSlope(net, exp, row, n);
    DotMultiple(net.width(net.depth), n as real, p.seed, LossSlopes(net, exp, row), p.TangentLogit(dir, net.depth));
  }

  lemma {:induction false} DeadRowHasSlope(path: real -> Net, net: Net, dir: Net, exp: Exponential, ln: real -> real,
      row: Vec, p: Pass, n: real)
    requires Line(path, net, dir) && net.depth == 0 && p.net == net
    ensures HasSlope(RowLossPath(path, exp, ln, row), RowLoss(net, exp, ln, row), Mul(n, SampleTangent(p, dir)))
  {
    hide Line, OnLine, RowLoss, HasSlope, Mul, RowLossPath;
    forall e ensures RowLossPath(path, exp, ln, row)(e) == RowLoss(net, exp, ln, row) {
      RowLossPathAt(path, exp, ln, row, e);
      DeadRow(path, net, dir, exp, ln, row, e);
    }
    SlopeOfConstant(RowLossPath(path, exp, ln, row), RowLoss(net, exp, ln, row));
    MulOne(n);
  }

  lemma {:induction false} PassOf(net: Net, exp: Exponential, row: Vec, n: nat)
    requires n > 0
    ensures var p := SamplePass(net, exp, row, n, 1.0); p.net == net && p.act == Trace(net, exp, row)
  {
    hide Trace, Seed;
  }

  /** The loss of a sample with a one-hot label moves as the seed paired with the perturbed logits. */
  lemma {:induction false} SampleLossHasSlope(path: real -> Net, net: Net, dir: Net, exp: Exponential, ln: real -> real,
      row: Vec, n: nat)
    requires Natural(exp) && Inverts(ln, exp) && Line(path, net, dir) && Regular(net, exp, row)
    requires n > 0 && OneHot(row, net.width(0), net.width(net.depth))
    ensures HasSlope(RowLossPath(path, exp, ln, row), RowLoss(net, exp, ln, row),
                     Mul(n as real, SampleTangent(SamplePass(net, exp, row, n, 1.0), dir)))
  {
    hide *;
    var p := SamplePass(net, exp, row, n, 1.0);
    PassOf(net, exp, row, n);
    if net.depth == 0 {
      DeadRowHasSlope(path, net, dir, exp, ln, row, p, n as real);
    } else {
      SampleSlope(net, exp, row, n, dir);
      RowLossHasSlope(path, net, dir, exp, ln, row, p);
    }
  }

  /** The samples on which the loss is smooth and the label says one class. */
  ghost predicate Proper(net: Net, exp: Exponential, t: Matrix, n: nat)
  {
    forall i :: 0 <= i < n ==> ProperRow(net, exp, Row(t, i))
  }

  ghost predicate ProperRow(net: Net, exp: Exponential, row: Vec)
  {
    Regular(net, exp, row) && OneHot(row, net.width(0), net.width(net.depth))
  }

  function LossUpToPath(path: real -> Net, exp: Exponential, ln: real -> real, t: Matrix, i: nat): real -> real
  {
    e => LossUpTo(path(e), exp, ln, t, i)
  }

  lemma {:induction false} LossUpToAt(path: real -> Net, exp: Exponential, ln: real -> real, t: Matrix, i: nat, e: real)
    ensures LossUpToPath(path, exp, ln, t, i)(e) == LossUpTo(path(e), exp, ln, t, i)
  {
    hide LossUpTo;
  }

  lemma {:induction false} LossUpToNext(net: Net, exp: Exponential, ln: real -> real, t: Matrix, i: nat)
    ensures LossUpTo(net, exp, ln, t, 0) == 0.0
    ensures LossUpTo(net, exp, ln, t, i + 1) == LossUpTo(net, exp, ln, t, i) + RowLoss(net, exp, ln, Row(t, i))
  {
    hide RowLoss;
  }

  lemma {:induction false} LossTangentNext(net: Net, exp: Exponential, t: Matrix, n: nat, dir: Net, i: nat)
    requires i < n
    ensures LossTangent(net, exp, t, n, dir, i + 1)
         == LossTangent(net, exp, t, n, dir, i) + SampleTangent(SamplePass(net, exp, Row(t, i), n, 1.0), dir)
  {
    hide SampleTangent, SamplePass;
  }

  lemma {:induction false} LossTangentZero(net: Net, exp: Exponential, t: Matrix, n: nat, dir: Net)
    ensures LossTangent(net, exp, t, n, dir, 0) == 0.0
  {}

  lemma {:induction false} LossUpToIs(path: real -> Net, exp: Exponential, ln: real -> real, t: Matrix, i: nat)
    ensures forall e :: LossUpToPath(path, exp, ln, t, 0)(e) == 0.0
    ensures forall e :: LossUpToPath(path, exp, ln, t, i + 1)(e)
                     == LossUpToPath(path, exp, ln, t, i)(e) + RowLossPath(path, exp, ln, Row(t, i))(e)
  {
    hide *;
    forall e ensures LossUpToPath(path, exp, ln, t, 0)(e) == 0.0 {
      LossUpToAt(path, exp, ln, t, 0, e);
      LossUpToNext(path(e), exp, ln, t, i);
    }
    forall e ensures LossUpToPath(path, exp, ln, t, i + 1)(e)
                  == LossUpToPath(path, exp, ln, t, i)(e) + RowLossPath(path, exp, ln, Row(t, i))(e)
    {
      LossUpToAt(path, exp, ln, t, i, e);
      LossUpToAt(path, exp, ln, t, i + 1, e);
      LossUpToNext(path(e), exp, ln, t, i);
      RowLossPathAt(path, exp, ln, Row(t, i), e);
    }
  }

  /** The hypothesis of the induction over the samples. */
  ghost predicate UpToHasSlope(path: real -> Net, net: Net, dir: Net, exp: Exponential, ln: real -> real,
      t: Matrix, n: nat, i: nat)
    requires i <= n
  {
    HasSlope(LossUpToPath(path, exp, ln, t, i), LossUpTo(net, exp, ln, t, i),
             Mul(n as real, LossTangent(net, exp, t, n, dir, i)))
  }

  lemma {:induction false} UpToHasSlopeIs(path: real -> Net, net: Net, dir: Net, exp: Exponential, ln: real -> real,
      t: Matrix, n: nat, i: nat)
    requires i <= n
    ensures UpToHasSlope(path, net, dir, exp, ln, t, n, i) <==>
      HasSlope(LossUpToPath(path, exp, ln, t, i), LossUpTo(net, exp, ln, t, i),
               Mul(n as real, LossTangent(net, exp, t, n, dir, i)))
  {
    hide HasSlope, LossUpToPath, LossUpTo, Mul, LossTangent;
  }

  lemma {:induction false} ProperAt(net: Net, exp: Exponential, t: Matrix, n: nat, i: nat)
    requires Proper(net, exp, t, n) && i < n
    ensures ProperRow(net, exp, Row(t, i))
  {
    hide ProperRow;
  }

  lemma {:induction false} LossUpToStep(path: real -> Net, net: Net, dir: Net, exp: Exponential, ln: real -> real,
      t: Matrix, n: nat, i: nat)
    requires Natural(exp) && Inverts(ln, exp) && Line(path, net, dir) && ProperRow(net, exp, Row(t, i)) && i < n
    requires UpToHasSlope(path, net, dir, exp, ln, t, n, i)
    ensures UpToHasSlope(path, net, dir, exp, ln, t, n, i + 1)
  {
    hide *;
    UpToHasSlopeIs(path, net, dir, exp, ln, t, n, i);
    UpToHasSlopeIs(path, net, dir, exp, ln, t, n, i + 1);
    var row, c := Row(t, i), n as real;
    var u, v := LossTangent(net, exp, t, n, dir, i), SampleTangent(SamplePass(net, exp, row, n, 1.0), dir);
    LossUpToIs(path, exp, ln, t, i);
    LossUpToNext(net, exp, ln, t, i);
    LossTangentNext(net, exp, t, n, dir, i);
    ProperSample(path, net, dir, exp, ln, row, n);
    MulAdd(u, v, c);
    SumHasSlope(LossUpToPath(path, exp, ln, t, i), LossUpTo(net, exp, ln, t, i), Mul(c, u),
                RowLossPath(path, exp, ln, row), RowLoss(net, exp, ln, row), Mul(c, v),
                LossUpToPath(path, exp, ln, t, i + 1), LossUpTo(net, exp, ln, t, i + 1),
                Mul(c, LossTangent(net, exp, t, n, dir, i + 1)));
  }

  lemma {:induction false} LossUpToStart(path: real -> Net, net: Net, dir: Net, exp: Exponential, ln: real -> real,
      t: Matrix, n: nat)
    ensures UpToHasSlope(path, net, dir, exp, ln, t, n, 0)
  {
    hide HasSlope, LossUpToPath, LossUpTo, LossTangent, Mul, RowLossPath;
    LossUpToIs(path, exp, ln, t, 0);
    LossUpToNext(net, exp, ln, t, 0);
    LossTangentZero(net, exp, t, n, dir);
    MulOne(n as real);
    SlopeOfConstant(LossUpToPath(path, exp, ln, t, 0), LossUpTo(net, exp, ln, t, 0));
  }

  lemma {:induction false} LossUpToHasSlope(path: real -> Net, net: Net, dir: Net, exp: Exponential, ln: real -> real,
      t: Matrix, n: nat, i: nat)
    requires Natural(exp) && Inverts(ln, exp) && Line(path, net, dir) && Proper(net, exp, t, n) && i <= n
    ensures UpToHasSlope(path, net, dir, exp, ln, t, n, i)
  {
    hide *;
    if i == 0 {
      LossUpToStart(path, net, dir, exp, ln, t, n);
    } else {
      LossUpToHasSlope(path, net, dir, exp, ln, t, n, i - 1);
      ProperAt(net, exp, t, n, i - 1);
      LossUpToStep(path, net, dir, exp, ln, t, n, i - 1);
    }
  }

  lemma {:induction false} ProperSample(path: real -> Net, net: Net, dir: Net, exp: Exponential, ln: real -> real,
      row: Vec, n: nat)
    requires Natural(exp) && Inverts(ln, exp) && Line(path, net, dir) && ProperRow(net, exp, row) && n > 0
    ensures HasSlope(RowLossPath(path, exp, ln, row), RowLoss(net, exp, ln, row),
                     Mul(n as real, SampleTangent(SamplePass(net, exp, row, n, 1.0), dir)))
  {
    hide Natural, Inverts, Line, Regular, OneHot, HasSlope, RowLossPath, RowLoss, SampleTangent, SamplePass, Mul;
    SampleLossHasSlope(path, net, dir, exp, ln, row, n);
  }

  function LossPath(path: real -> Net, exp: Exponential, ln: real -> real, t: Matrix, n: nat): real -> real
    requires n > 0
  {
    e => MeanLoss(path(e), exp, ln, t, n)
  }

  lemma {:induction false} LossPathIs(path: real -> Net, exp: Exponential, ln: real -> real, t: Matrix, n: nat)
    requires n > 0
    ensures forall e :: LossPath(path, exp, ln, t, n)(e) == Mul(1.0 / n as real, LossUpToPath(path, exp, ln, t, n)(e))
  {
    hide LossUpTo;
    forall e ensures LossPath(path, exp, ln, t, n)(e) == Mul(1.0 / n as real, LossUpToPath(path, exp, ln, t, n)(e)) {
      LossIs(path(e), exp, ln, t, n);
    }
  }

  lemma {:induction false} LossIs(net: Net, exp: Exponential, ln: real -> real, t: Matrix, n: nat)
    requires n > 0
    ensures MeanLoss(net, exp, ln, t, n) == Mul(1.0 / n as real, LossUpTo(net, exp, ln, t, n))
  {
    hide LossUpTo;
  }

  /** Along every line through the network the loss has the slope that `LossTangent` computes. */
  lemma {:induction false} LossHasSlope(path: real -> Net, net: Net, dir: Net, exp: Exponential, ln: real -> real,
      t: Matrix, n: nat)
    requires Natural(exp) && Inverts(ln, exp) && Line(path, net, dir) && Proper(net, exp, t, n) && n > 0
    ensures HasSlope(LossPath(path, exp, ln, t, n), MeanLoss(net, exp, ln, t, n), LossTangent(net, exp, t, n, dir, n))
  {
    hide *;
    var x, c := LossTangent(net, exp, t, n, dir, n), n as real;
    LossUpToHasSlope(path, net, dir, exp, ln, t, n, n);
    UpToHasSlopeIs(path, net, dir, exp, ln, t, n, n);
    LossPathIs(path, exp, ln, t, n);
    LossIs(net, exp, ln, t, n);
    SlopeOfMultiple(LossUpToPath(path, exp, ln, t, n), LossUpTo(net, exp, ln, t, n), Mul(c, x), 1.0 / c,
                    LossPath(path, exp, ln, t, n));
    ShareCancels(c, x);
  }

  lemma {:induction false} OnlySlope(f: real -> real, v: real, t: real)
    requires HasSlope(f, v, t)
    ensures forall w, u :: HasSlope(f, w, u) <==> w == v && u == t
  {
    hide HasSlope;
    forall w, u | HasSlope(f, w, u) ensures w == v && u == t {
      SlopeIsUnique(f, v, t, w, u);
    }
  }

  /** What `nn_backprop` returns with s = 1 is the gradient of the loss: along every line through
      the network, the one slope of the loss is the inner product of the gradient and the direction. */
  lemma {:induction false} BackpropIsDerivative(path: real -> Net, net: Net, dir: Net, exp: Exponential,
      ln: real -> real, t: Matrix, n: nat)
    requires Natural(exp) && Inverts(ln, exp) && Line(path, net, dir) && Proper(net, exp, t, n) && n > 0
    ensures var f, g := LossPath(path, exp, ln, t, n), Backprop(net, exp, t, n, 1.0);
      forall v, s :: HasSlope(f, v, s) <==> v == MeanLoss(net, exp, ln, t, n) && s == NetDot(g, dir, net.depth)
  {
    hide *;
    LossHasSlope(path, net, dir, exp, ln, t, n);
    BackpropIsAdjoint(net, exp, t, n, dir);
    OnlySlope(LossPath(path, exp, ln, t, n), MeanLoss(net, exp, ln, t, n), LossTangent(net, exp, t, n, dir, n));
  }
}
