/** The row shuffle of nn.h: which orders it can produce, and from which draws. */
module Shuffle {
  import opened Matrices

  /** Draws that the shuffle of `n` rows can make: below `n` first, below `n - 1` next. */
  predicate Draws(c: seq<nat>, n: nat)
  {
    |c| == n && forall i :: 0 <= i < n ==> c[i] < n - i
  }

  function Swap<T>(s: seq<T>, i: nat, j: nat): (t: seq<T>)
    requires i < |s| && j < |s|
    ensures |t| == |s|
  {
    s[i := s[j]][j := s[i]]
  }

  /** The rows after the turns of the loop from `i` on. */
  function Shuffled<T>(s: seq<T>, c: seq<nat>, i: nat): (t: seq<T>)
    requires Draws(c, |s|) && i <= |s|
    ensures |t| == |s|
    decreases |s| - i
  {
    if i == |s| then s else Shuffled(Swap(s, i, i + c[i]), c, i + 1)
  }

  predicate NoRepeats<T(==)>(s: seq<T>)
  {
    forall i, j :: 0 <= i < j < |s| ==> s[i] != s[j]
  }

  lemma {:induction false} SwapKeeps<T>(s: seq<T>, i: nat, j: nat)
    requires i <= j < |s|
    ensures Swap(s, i, j)[..i] == s[..i] && Swap(s, i, j)[i] == s[j]
    ensures multiset(Swap(s, i, j)) == multiset(s) && (NoRepeats(s) ==> NoRepeats(Swap(s, i, j)))
  {
  }

  /** The loop settles one row a turn, and leaves it. */
  lemma {:induction false} Settled<T>(s: seq<T>, c: seq<nat>, i: nat)
    requires Draws(c, |s|) && i <= |s|
    ensures Shuffled(s, c, i)[..i] == s[..i]
    ensures i < |s| ==> Shuffled(s, c, i)[i] == s[i + c[i]]
    ensures multiset(Shuffled(s, c, i)) == multiset(s)
    decreases |s| - i
  {
    if i < |s| {
      var t := Swap(s, i, i + c[i]);
      SwapKeeps(s, i, i + c[i]);
      Settled(t, c, i + 1);
      assert Shuffled(t, c, i + 1)[..i + 1][i] == t[..i + 1][i];
      assert Shuffled(t, c, i + 1)[..i + 1][..i] == t[..i + 1][..i] == t[..i];
    }
  }

  lemma Apart<T>(s: seq<T>, i: nat, j: nat)
    requires NoRepeats(s) && i < |s| && j < |s| && s[i] == s[j]
    ensures i == j
  {
  }

  /** Different draws give different orders. */
  lemma {:induction false} OneToOne<T>(s: seq<T>, c: seq<nat>, d: seq<nat>, i: nat)
    requires Draws(c, |s|) && Draws(d, |s|) && i <= |s| && NoRepeats(s)
    requires Shuffled(s, c, i) == Shuffled(s, d, i)
    ensures c[i..] == d[i..]
    decreases |s| - i
  {
    hide NoRepeats, Shuffled, Swap;
    if i < |s| {
      Settled(s, c, i);
      Settled(s, d, i);
      Apart(s, i + c[i], i + d[i]);
      SwapKeeps(s, i, i + c[i]);
      Turn(s, c, i);
      Turn(s, d, i);
      OneToOne(Swap(s, i, i + c[i]), c, d, i + 1);
      assert c[i..] == [c[i]] + c[i + 1..] && d[i..] == [d[i]] + d[i + 1..];
    } else {
      assert c[i..] == [] && d[i..] == [];
    }
  }

  /** Draws from `i` on that produce a given order. */
  lemma {:induction false} Onto<T>(s: seq<T>, p: seq<T>, i: nat) returns (c: seq<nat>)
    requires multiset(p) == multiset(s) && |p| == |s| && i <= |s| && p[..i] == s[..i]
    ensures Draws(c, |s|) && Shuffled(s, c, i) == p
    decreases |s| - i
  {
    hide Shuffled, Swap;
    if i == |s| {
      c := seq(|s|, _ => 0);
      AllSettled(s, c);
      assert p[..i] == p && s[..i] == s;
    } else {
      var j := Find(s, p, i);
      SwapKeeps(s, i, j);
      var t := Swap(s, i, j);
      assert p[..i + 1] == p[..i] + [p[i]] && t[..i + 1] == t[..i] + [t[i]];
      var d := Onto(t, p, i + 1);
      c := d[i := j - i];
      SameFrom(t, c, d, i + 1);
      Turn(s, c, i);
    }
  }

  lemma {:induction false} SameFrom<T>(s: seq<T>, c: seq<nat>, d: seq<nat>, i: nat)
    requires Draws(c, |s|) && Draws(d, |s|) && i <= |s| && c[i..] == d[i..]
    ensures Shuffled(s, c, i) == Shuffled(s, d, i)
    decreases |s| - i
  {
    if i < |s| {
      assert c[i] == c[i..][0] == d[i];
      assert c[i + 1..] == c[i..][1..] && d[i + 1..] == d[i..][1..];
      SameFrom(Swap(s, i, i + c[i]), c, d, i + 1);
    }
  }

  /** The row wanted at `i` is still among those not settled. */
  lemma {:induction false} Find<T>(s: seq<T>, p: seq<T>, i: nat) returns (j: nat)
    requires multiset(p) == multiset(s) && |p| == |s| && i < |s| && p[..i] == s[..i]
    ensures i <= j < |s| && s[j] == p[i]
  {
    assert s == s[..i] + s[i..] && p == p[..i] + p[i..];
    assert multiset(s[i..]) == multiset(s) - multiset(s[..i]);
    assert multiset(p[i..]) == multiset(p) - multiset(p[..i]);
    assert p[i] == p[i..][0];
    assert p[i] in multiset(p[i..]);
    assert p[i] in s[i..];
    var k :| 0 <= k < |s[i..]| && s[i..][k] == p[i];
    j := i + k;
  }

  /** Every order of the rows, and each from exactly one sequence of draws. */
  lemma {:induction false} Bijection<T>(s: seq<T>, p: seq<T>)
    requires NoRepeats(s)
    ensures (exists c :: Draws(c, |s|) && Shuffled(s, c, 0) == p) <==> |p| == |s| && multiset(p) == multiset(s)
    ensures forall c, d :: Draws(c, |s|) && Draws(d, |s|) && Shuffled(s, c, 0) == p == Shuffled(s, d, 0) ==> c == d
  {
    if |p| == |s| && multiset(p) == multiset(s) {
      var c := Onto(s, p, 0);
    }
    forall c | Draws(c, |s|) ensures multiset(Shuffled(s, c, 0)) == multiset(s) {
      Settled(s, c, 0);
    }
    forall c, d | Draws(c, |s|) && Draws(d, |s|) && Shuffled(s, c, 0) == p == Shuffled(s, d, 0) ensures c == d {
      OneToOne(s, c, d, 0);
      assert c[0..] == c && d[0..] == d;
    }
  }

  // ---- in place ----

  /** What successive calls of `rand` amount to. */
  function Reduced(random: seq<nat>): (c: seq<nat>)
    ensures Draws(c, |random|)
  {
    seq(|random|, i requires 0 <= i < |random| => random[i] % (|random| - i))
  }

  lemma ReducedAt(random: seq<nat>, i: nat)
    requires i < |random|
    ensures i < |Reduced(random)| && Reduced(random)[i] == random[i] % (|random| - i)
    ensures i + random[i] % (|random| - i) < |random|
  {}

  /** Every order can come out of the calls of `rand`: whatever is to be drawn, they may return it. */
  lemma {:induction false} AnyOrder<T>(s: seq<T>, p: seq<T>)
    requires NoRepeats(s)
    ensures (exists random :: |random| == |s| && Shuffled(s, Reduced(random), 0) == p)
       <==> |p| == |s| && multiset(p) == multiset(s)
  {
    hide Shuffled, NoRepeats, Reduced, Draws;
    Bijection(s, p);
    if c :| Draws(c, |s|) && Shuffled(s, c, 0) == p {
      DrawCount(c, |s|);
      ReducedDraws(c);
      assert Shuffled(s, Reduced(c), 0) == p;
    }
    if random :| |random| == |s| && Shuffled(s, Reduced(random), 0) == p {
      var c := Reduced(random);
      assert Draws(c, |s|);
    }
  }

  lemma {:induction false} DrawCount(c: seq<nat>, n: nat)
    requires Draws(c, n)
    ensures |c| == n
  {
  }

  lemma {:induction false} ReducedDraws(c: seq<nat>)
    ensures Draws(c, |c|) ==> Reduced(c) == c
  {
  }

  method SwapRows(m: array2<real>, i: nat, j: nat)
    requires i < m.Length0 && j < m.Length0 && i != j
    modifies m
    ensures Rows(m) == Swap(old(Rows(m)), i, j)
  {
    for k := 0 to m.Length1
      invariant forall r, q :: 0 <= r < m.Length0 && 0 <= q < m.Length1 ==>
        m[r, q] == if q >= k then old(m[r, q]) else if r == i then old(m[j, q]) else if r == j then old(m[i, q])
            else old(m[r, q])
    {
      var t := m[i, k];
      m[i, k] := m[j, k];
      m[j, k] := t;
    }
    assert RowOf(m, i) == old(RowOf(m, j));
    assert RowOf(m, j) == old(RowOf(m, i));
    forall r | 0 <= r < m.Length0 && r != i && r != j ensures RowOf(m, r) == old(RowOf(m, r)) {
    }
  }

  /** `mat_shuffle_rows`. */
  method ShuffleRows(m: array2<real>, random: seq<nat>)
    requires |random| == m.Length0
    modifies m
    ensures Rows(m) == Shuffled(old(Rows(m)), Reduced(random), 0)
    ensures multiset(Rows(m)) == multiset(old(Rows(m)))
  {
    hide Rows, Shuffled, Draws, Reduced, Swap;
    ghost var c := Reduced(random);
    Settled(Rows(m), c, 0);
    for i := 0 to m.Length0
      invariant Shuffled(old(Rows(m)), c, 0) == Shuffled(Rows(m), c, i)
    {
      var j := i + random[i] % (m.Length0 - i);
      ReducedAt(random, i);
      Turn(Rows(m), c, i);
      if i != j {
        SwapRows(m, i, j);
      }
    }
    AllSettled(Rows(m), c);
  }

  lemma AllSettled<T>(s: seq<T>, c: seq<nat>)
    requires Draws(c, |s|)
    ensures Shuffled(s, c, |s|) == s
  {
  }

  lemma Turn<T>(s: seq<T>, c: seq<nat>, i: nat)
    requires Draws(c, |s|) && i < |s|
    ensures i + c[i] < |s| && Shuffled(s, c, i) == Shuffled(Swap(s, i, i + c[i]), c, i + 1)
    ensures c[i] == 0 ==> Swap(s, i, i + c[i]) == s
  {
  }
}
