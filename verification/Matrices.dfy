/** The matrix kernels of nn.h, updating matrices in place. A row is a matrix with one
    row, as `row_as_mat` makes it. The ghost arguments name the values the operands hold. */
module Matrices {
  import opened Network

  function RowOf(m: array2<real>, i: nat): (row: seq<real>)
    requires i < m.Length0
    reads m
  {
    seq(m.Length1, k requires 0 <= k < m.Length1 reads m => m[i, k])
  }

  function Rows(m: array2<real>): (rows: seq<seq<real>>)
    reads m
    ensures |rows| == m.Length0
  {
    seq(m.Length0, i requires 0 <= i < m.Length0 reads m => RowOf(m, i))
  }

  ghost predicate Holds(m: array2<real>, f: Matrix)
    reads m
  {
    forall i, j :: 0 <= i < m.Length0 && 0 <= j < m.Length1 ==> m[i, j] == f(i, j)
  }

  ghost predicate HoldsRow(m: array2<real>, v: Vec)
    reads m
  {
    m.Length0 == 1 && forall j :: 0 <= j < m.Length1 ==> m[0, j] == v(j)
  }

  method MatFill(m: array2<real>, x: real)
    modifies m
    ensures Holds(m, (i, j) => x)
  {
    for i := 0 to m.Length0
      invariant forall p, q :: 0 <= p < i && 0 <= q < m.Length1 ==> m[p, q] == x
    {
      for j := 0 to m.Length1
        invariant forall p, q :: 0 <= p < i && 0 <= q < m.Length1 ==> m[p, q] == x
        invariant forall q :: 0 <= q < j ==> m[i, q] == x
      {
        m[i, j] := x;
      }
    }
  }

  /** The product of an n-column and an n-row matrix. */
  function Product(n: nat, a: Matrix, b: Matrix): Matrix
  {
    (i, j) => Dot(n, Row(a, i), Col(b, j))
  }

  lemma DotMore(k: nat, u: Vec, v: Vec)
    ensures Dot(k + 1, u, v) == Dot(k, u, v) + u(k) * v(k)
  {
  }

  /** The innermost loop of `mat_dot`: row `i` of the product gains the k-th term of each sum. */
  method DotTerm(dst: array2<real>, a: array2<real>, b: array2<real>, i: nat, k: nat, ghost fa: Matrix,
      ghost fb: Matrix)
    requires a.Length1 == b.Length0 && dst.Length0 == a.Length0 && dst.Length1 == b.Length1
    requires i < a.Length0 && k < a.Length1
    requires dst != a && dst != b && Holds(a, fa) && Holds(b, fb)
    requires forall q :: 0 <= q < dst.Length1 ==> dst[i, q] == Dot(k, Row(fa, i), Col(fb, q))
    modifies dst
    ensures forall q :: 0 <= q < dst.Length1 ==> dst[i, q] == Dot(k + 1, Row(fa, i), Col(fb, q))
    ensures forall p, q :: 0 <= p < dst.Length0 && p != i && 0 <= q < dst.Length1 ==> dst[p, q] == old(dst[p, q])
  {
    hide Dot;
    for j := 0 to dst.Length1
      invariant forall q :: 0 <= q < j ==> dst[i, q] == Dot(k + 1, Row(fa, i), Col(fb, q))
      invariant forall q :: j <= q < dst.Length1 ==> dst[i, q] == Dot(k, Row(fa, i), Col(fb, q))
      invariant forall p, q :: 0 <= p < dst.Length0 && p != i && 0 <= q < dst.Length1 ==> dst[p, q] == old(dst[p, q])
    {
      DotMore(k, Row(fa, i), Col(fb, j));
      dst[i, j] := dst[i, j] + a[i, k] * b[k, j];
    }
  }

  method MatDot(dst: array2<real>, a: array2<real>, b: array2<real>, ghost fa: Matrix, ghost fb: Matrix)
    requires a.Length1 == b.Length0 && dst.Length0 == a.Length0 && dst.Length1 == b.Length1
    requires dst != a && dst != b && Holds(a, fa) && Holds(b, fb)
    modifies dst
    ensures Holds(dst, Product(a.Length1, fa, fb))
  {
    MatFill(dst, 0.0);
    for i := 0 to dst.Length0
      invariant forall p, q :: 0 <= p < i && 0 <= q < dst.Length1 ==> dst[p, q] == Product(a.Length1, fa, fb)(p, q)
      invariant forall p, q :: i <= p < dst.Length0 && 0 <= q < dst.Length1 ==> dst[p, q] == 0.0
    {
      for k := 0 to a.Length1
        invariant forall q :: 0 <= q < dst.Length1 ==> dst[i, q] == Dot(k, Row(fa, i), Col(fb, q))
        invariant forall p, q :: 0 <= p < i && 0 <= q < dst.Length1 ==> dst[p, q] == Product(a.Length1, fa, fb)(p, q)
        invariant forall p, q :: i < p < dst.Length0 && 0 <= q < dst.Length1 ==> dst[p, q] == 0.0
      {
        DotTerm(dst, a, b, i, k, fa, fb);
      }
    }
  }

  method MatSum(dst: array2<real>, a: array2<real>, ghost fd: Matrix, ghost fa: Matrix)
    requires dst.Length0 == a.Length0 && dst.Length1 == a.Length1 && dst != a
    requires Holds(dst, fd) && Holds(a, fa)
    modifies dst
    ensures Holds(dst, (i, j) => fd(i, j) + fa(i, j))
  {
    for i := 0 to dst.Length0
      invariant forall p, q :: 0 <= p < i && 0 <= q < dst.Length1 ==> dst[p, q] == fd(p, q) + fa(p, q)
      invariant forall p, q :: i <= p < dst.Length0 && 0 <= q < dst.Length1 ==> dst[p, q] == fd(p, q)
    {
      for j := 0 to dst.Length1
        invariant forall p, q :: 0 <= p < i && 0 <= q < dst.Length1 ==> dst[p, q] == fd(p, q) + fa(p, q)
        invariant forall q :: 0 <= q < j ==> dst[i, q] == fd(i, q) + fa(i, q)
        invariant forall q :: j <= q < dst.Length1 ==> dst[i, q] == fd(i, q)
        invariant forall p, q :: i < p < dst.Length0 && 0 <= q < dst.Length1 ==> dst[p, q] == fd(p, q)
      {
        dst[i, j] := dst[i, j] + a[i, j];
      }
    }
  }

  /** `mat_act` with ACT_RELU. */
  method MatRelu(m: array2<real>, ghost f: Matrix)
    requires Holds(m, f)
    modifies m
    ensures Holds(m, (i, j) => Relu(f(i, j)))
    ensures forall i, j :: 0 <= i < m.Length0 && 0 <= j < m.Length1 ==> LargerShare(old(m[i, j]), m[i, j])
  {
    for i := 0 to m.Length0
      invariant forall p, q :: 0 <= p < i && 0 <= q < m.Length1 ==> m[p, q] == Relu(f(p, q))
      invariant forall p, q :: i <= p < m.Length0 && 0 <= q < m.Length1 ==> m[p, q] == f(p, q)
    {
      for j := 0 to m.Length1
        invariant forall p, q :: 0 <= p < i && 0 <= q < m.Length1 ==> m[p, q] == Relu(f(p, q))
        invariant forall q :: 0 <= q < j ==> m[i, q] == Relu(f(i, q))
        invariant forall q :: j <= q < m.Length1 ==> m[i, q] == f(i, q)
        invariant forall p, q :: i < p < m.Length0 && 0 <= q < m.Length1 ==> m[p, q] == f(p, q)
      {
        m[i, j] := Relu(m[i, j]);
      }
    }
  }
}
