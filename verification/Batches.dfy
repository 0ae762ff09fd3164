/** The bookkeeping of `batch_process`, which goes through a data set one batch a call and starts
    over after the last one. */
module Batches {
  import opened Sums
  import opened Learning

  datatype Progress = Progress(begin: nat, cost: real, finished: bool)

  /** Where a call starts. */
  function Begun(p: Progress): Progress
  {
    if p.finished then Progress(0, 0.0, false) else p
  }

  /** The first row and the number of rows that a call takes from a data set of `rows`. */
  function Taken(p: Progress, rows: nat, size: nat): (nat, int)
  {
    var from := Begun(p).begin;
    (from, if from + size >= rows then rows - from else size)
  }

  /** What a call leaves, `c` being the cost of its batch. */
  function After(p: Progress, rows: nat, size: nat, c: real): Progress
    requires rows > 0 && size > 0
  {
    var from, cost := Begun(p).begin + size, Begun(p).cost + c;
    if from >= rows then Progress(from, cost / Count(rows, size) as real, true) else Progress(from, cost, false)
  }

  /** How many batches there are. */
  function Count(rows: nat, size: nat): (n: nat)
    requires rows > 0 && size > 0
    ensures n > 0
  {
    CountIs(rows, size);
    (rows + size - 1) / size
  }

  lemma {:induction false} CountIs(rows: nat, size: nat)
    requires rows > 0 && size > 0
    ensures var n := (rows + size - 1) / size;
      n > 0 && Start(n - 1, size) < rows <= Start(n, size)
  {
    var n := (rows + size - 1) / size;
    RowIn(rows + size - 1, size);
    StartNext(n, size);
    if n == 0 {
      assert Start(0, size) == 0;
    } else {
      StartNext(n - 1, size);
    }
  }

  class Batch {
    var begin: nat
    var cost: real
    var finished: bool

    function State(): Progress
      reads this
    {
      Progress(begin, cost, finished)
    }

    /** A fresh batch, all fields zero. */
    constructor ()
      ensures State() == Progress(0, 0.0, false)
    {
      begin, cost, finished := 0, 0.0, false;
    }

    /** `batch_process` without the training itself: the rows taken, and the progress made. `score`
        is what the cost of a batch is after the network has learned from it. */
    method Process(rows: nat, size: nat, score: (nat, int) -> real) returns (from: nat, n: int)
      requires rows > 0 && size > 0
      modifies this
      ensures (from, n) == Taken(old(State()), rows, size)
      ensures State() == After(old(State()), rows, size, score(from, n))
    {
      if finished {
        finished := false;
        begin := 0;
        cost := 0.0;
      }
      from := begin;
      n := size;
      if begin + size >= rows {
        n := rows - begin;
      }
      cost := cost + score(from, n);
      begin := begin + size;
      if begin >= rows {
        cost := cost / Count(rows, size) as real;
        finished := true;
      }
    }
  }

  // ---- runs of calls ----

  /** The state after `k` calls, the costs of whose batches are `c`. */
  function Run(p: Progress, rows: nat, size: nat, c: int -> real, k: nat): Progress
    requires rows > 0 && size > 0
  {
    if k == 0 then p else After(Run(p, rows, size, c, k - 1), rows, size, c(k - 1))
  }

  /** Halfway through, the calls so far have taken the rows up to `begin`. */
  lemma {:induction false} Underway(p: Progress, rows: nat, size: nat, c: int -> real, k: nat)
    requires rows > 0 && size > 0 && Begun(p) == Progress(0, 0.0, false) && k < Count(rows, size)
    ensures Begun(Run(p, rows, size, c, k)) == Progress(Start(k, size), Sum(k, c), false)
    ensures Start(k, size) < rows
  {
    hide Start;
    CountIs(rows, size);
    StartMono(k, Count(rows, size) - 1, size);
    if k == 0 {
      StartZero(size);
    } else {
      Underway(p, rows, size, c, k - 1);
      StartNext(k - 1, size);
    }
  }

  lemma StartZero(size: nat)
    ensures Start(0, size) == 0
  {}

  /** The calls finish exactly at the last batch, with the mean cost of the batches, and then start
      over. */
  lemma {:induction false} FinishesLast(p: Progress, rows: nat, size: nat, c: int -> real, k: nat)
    requires rows > 0 && size > 0 && Begun(p) == Progress(0, 0.0, false) && 0 < k <= Count(rows, size)
    ensures Run(p, rows, size, c, k).finished <==> k == Count(rows, size)
    ensures var n := Count(rows, size);
      Run(p, rows, size, c, n).cost == Sum(n, c) / n as real
      && Begun(Run(p, rows, size, c, n)) == Progress(0, 0.0, false)
  {
    hide Start;
    var n := Count(rows, size);
    CountIs(rows, size);
    Underway(p, rows, size, c, k - 1);
    StartNext(k - 1, size);
    Underway(p, rows, size, c, n - 1);
    StartNext(n - 1, size);
    if k < n {
      Underway(p, rows, size, c, k);
    }
  }

  lemma {:induction false} OneStart(r: nat, q: nat, k: nat, size: nat)
    requires Start(q, size) <= r < Start(q, size) + size
    ensures Start(k, size) <= r < Start(k, size) + size <==> k == q
    ensures r < Start(k, size) ==> q < k
  {
    hide Start;
    StartNext(k, size);
    StartNext(q, size);
    if k < q {
      StartMono(k + 1, q, size);
    } else if q < k {
      StartMono(q + 1, k, size);
    }
  }

  lemma {:induction false} TakenIs(p: Progress, rows: nat, size: nat, c: int -> real, k: nat)
    requires rows > 0 && size > 0 && Begun(p) == Progress(0, 0.0, false) && k < Count(rows, size)
    ensures var (from, n) := Taken(Run(p, rows, size, c, k), rows, size);
      from == Start(k, size) && 0 < n <= size && from + n == (if from + size >= rows then rows else from + size)
  {
    hide Start, Run, Count;
    Underway(p, rows, size, c, k);
  }

  /** Every row is in the batch of exactly one of the calls, and no batch is empty. */
  lemma {:induction false} EachRowOnce(p: Progress, rows: nat, size: nat, c: int -> real, r: nat, k: nat)
    requires rows > 0 && size > 0 && Begun(p) == Progress(0, 0.0, false) && k < Count(rows, size) && r < rows
    ensures r / size < Count(rows, size)
    ensures var (from, n) := Taken(Run(p, rows, size, c, k), rows, size);
      0 < n <= size && from + n <= rows && (from <= r < from + n <==> k == r / size)
  {
    var q := r / size;
    RowIn(r, size);
    CountIs(rows, size);
    RowInCall(p, rows, size, c, r, q, k);
  }

  lemma {:induction false} RowInCall(p: Progress, rows: nat, size: nat, c: int -> real, r: nat, q: nat, k: nat)
    requires rows > 0 && size > 0 && Begun(p) == Progress(0, 0.0, false) && k < Count(rows, size) && r < rows
    requires Start(q, size) <= r < Start(q, size) + size && rows <= Start(Count(rows, size), size)
    ensures q < Count(rows, size)
    ensures var (from, n) := Taken(Run(p, rows, size, c, k), rows, size);
      0 < n <= size && from + n <= rows && (from <= r < from + n <==> k == q)
  {
    hide Start, Run, Count, Taken;
    TakenIs(p, rows, size, c, k);
    OneStart(r, q, k, size);
    OneStart(r, q, Count(rows, size), size);
  }
}
