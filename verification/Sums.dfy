/** Finite sums of reals, the algebra behind every loop that accumulates with `+=`. */
module Sums {

  function Sum(n: nat, f: int -> real): real
  {
    if n == 0 then 0.0 else Sum(n - 1, f) + f(n - 1)
  }

  lemma {:induction false} SumScale(n: nat, c: real, f: int -> real, h: int -> real)
    requires forall i :: 0 <= i < n ==> h(i) == c * f(i)
    ensures Sum(n, h) == c * Sum(n, f)
  {
    if n != 0 {
      SumScale(n - 1, c, f, h);
    }
  }
}
