/** Synchronous federated averaging: what a run of rounds is meant to compute. */
module FedAvg {

  /** All weights and biases of a model, flattened. */
  type Params = seq<real>

  /** What a run depends on besides the order of its events: the model that client `c` sends
      back in round `r` after training on model `m`, and how the server scores a model. */
  datatype Config = Config(
    rounds: nat,
    perRound: nat,
    initial: Params,
    local: (nat, nat, Params) -> Params,
    accuracy: Params -> real,
    loss: Params -> real)
  {
    /** At least one client a round, and every reply has the model's shape. */
    ghost predicate Valid()
    {
      perRound > 0 && forall c, r, m :: |local(c, r, m)| == |initial|
    }
  }

  /** Entry `i` of the models that the clients of `s` send back in round `r`, added up. */
  ghost function Total(cfg: Config, s: set<nat>, r: nat, m: Params, i: nat): real
    requires cfg.Valid() && i < |cfg.initial|
    decreases |s|
  {
    if s == {} then 0.0
    else
      var c :| c in s;
      cfg.local(c, r, m)[i] + Total(cfg, s - {c}, r, m, i)
  }

  /** The mean of those models, entry by entry. */
  ghost function Mean(cfg: Config, s: set<nat>, r: nat, m: Params): (mean: Params)
    requires cfg.Valid() && s != {}
    ensures |mean| == |cfg.initial|
  {
    seq(|cfg.initial|, i requires 0 <= i < |cfg.initial| => Total(cfg, s, r, m, i) / |s| as real)
  }

  /** The model after the rounds of `log`, which lists the participants of each round. */
  ghost function Model(cfg: Config, log: seq<set<nat>>): (m: Params)
    requires cfg.Valid()
    ensures |m| == |cfg.initial|
  {
    if log == [] then cfg.initial
    else
      var last := |log| - 1;
      var m := Model(cfg, log[..last]);
      if log[last] == {} then m else Mean(cfg, log[last], |log|, m)
  }

  /** The order in which the clients are taken does not matter. */
  lemma {:induction false} TotalRemove(cfg: Config, s: set<nat>, r: nat, m: Params, i: nat, x: nat)
    requires cfg.Valid() && i < |cfg.initial| && x in s
    ensures Total(cfg, s, r, m, i) == cfg.local(x, r, m)[i] + Total(cfg, s - {x}, r, m, i)
    decreases |s|
  {
    var c :| c in s && Total(cfg, s, r, m, i) == cfg.local(c, r, m)[i] + Total(cfg, s - {c}, r, m, i);
    if c != x {
      TotalRemove(cfg, s - {c}, r, m, i, x);
      TotalRemove(cfg, s - {x}, r, m, i, c);
      assert s - {c} - {x} == s - {x} - {c};
    }
  }

  lemma {:induction false} TotalInsert(cfg: Config, s: set<nat>, r: nat, m: Params, i: nat, x: nat)
    requires cfg.Valid() && i < |cfg.initial| && x !in s
    ensures Total(cfg, s + {x}, r, m, i) == Total(cfg, s, r, m, i) + cfg.local(x, r, m)[i]
  {
    TotalRemove(cfg, s + {x}, r, m, i, x);
    assert s + {x} - {x} == s;
  }

  function NTimes(n: nat, x: real): real
  {
    n as real * x
  }

  lemma {:induction false} OneMore(n: nat, x: real)
    requires n > 0
    ensures NTimes(n, x) == NTimes(n - 1, x) + x
  {
    assert n as real == (n - 1) as real + 1.0;
  }

  lemma {:induction false} TotalBetween(cfg: Config, s: set<nat>, r: nat, m: Params, i: nat, lo: real, hi: real)
    requires cfg.Valid() && i < |cfg.initial|
    requires forall c :: c in s ==> lo <= cfg.local(c, r, m)[i] <= hi
    ensures NTimes(|s|, lo) <= Total(cfg, s, r, m, i) <= NTimes(|s|, hi)
    decreases |s|
  {
    if s != {} {
      var c :| c in s && Total(cfg, s, r, m, i) == cfg.local(c, r, m)[i] + Total(cfg, s - {c}, r, m, i);
      TotalBetween(cfg, s - {c}, r, m, i, lo, hi);
      hide NTimes;
      OneMore(|s|, lo);
      OneMore(|s|, hi);
    }
  }

  lemma {:induction false} QuotientBetween(t: real, n: nat, lo: real, hi: real)
    requires n > 0 && NTimes(n, lo) <= t <= NTimes(n, hi)
    ensures lo <= t / n as real <= hi
  {
    var d := n as real;
    var q := t / d;
    assert q * d == t;
    if q < lo {
      assert q * d < lo * d;
    }
    if q > hi {
      assert q * d > hi * d;
    }
  }

  /** No entry of the mean leaves the range of the replies. */
  lemma {:induction false} MeanBetween(cfg: Config, s: set<nat>, r: nat, m: Params, i: nat, lo: real, hi: real)
    requires cfg.Valid() && s != {} && i < |cfg.initial|
    requires forall c :: c in s ==> lo <= cfg.local(c, r, m)[i] <= hi
    ensures lo <= Mean(cfg, s, r, m)[i] <= hi
  {
    TotalBetween(cfg, s, r, m, i, lo, hi);
    QuotientBetween(Total(cfg, s, r, m, i), |s|, lo, hi);
  }
}
