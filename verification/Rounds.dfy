/** The server of zflserver as a step system: the round thread, one handler for each reply,
    and the clients, interleaved in any order. Each step is one critical section. */
module Rounds {
  import opened FedAvg
  import opened Options

  /** What the server keeps about a round and its results. */
  datatype Server = Server(
    started: bool,
    averaging: bool,
    round: nat,
    participants: nat,
    responded: nat,
    startTime: int,
    buffer: Params,
    model: Params,
    stats: seq<seq<nat>>,
    times: seq<int>,
    accuracies: seq<real>,
    losses: seq<real>)
  {
    // The critical sections of the handler

    /** `update_stats`; `stats` holds, for each round, whose statistics came in. Without a
        slot for the round the array would be indexed out of bounds, see `SlotExists`. */
    function UpdateStats(c: nat, r: nat): Server
    {
      var grown := if |stats| < r then stats + [[]] else stats;
      if 1 <= r <= |grown| then this.(stats := grown[r - 1 := grown[r - 1] + [c]]) else this
    }

    /** The first reply of a round overwrites the buffer, the others are added to it. */
    function Accumulate(reply: Params): Server
      requires |reply| == |buffer|
    {
      var start := if responded != 0 then buffer else seq(|buffer|, _ => 0.0);
      this.(buffer := Plus(start, reply), responded := responded + 1, averaging := responded + 1 == participants)
    }

    /** The division by zero of a round without participants is not modelled. */
    function Average(): Server
    {
      if participants == 0 then this
      else
        var mean := Scale(buffer, participants);
        this.(buffer := mean, model := mean)
    }

    function Record(now: int, accuracy: real, loss: real): Server
    {
      this.(times := times + [now - startTime], accuracies := accuracies + [accuracy], losses := losses + [loss])
    }

    function Reset(): Server
    {
      this.(started := false, averaging := false, responded := 0)
    }

    // The critical section of the round thread

    function Open(ready: nat, now: int): Server
    {
      this.(started := true, startTime := now, round := round + 1, participants := ready)
    }
  }

  function Plus(a: Params, b: Params): (c: Params)
    requires |a| == |b|
    ensures |c| == |a|
  {
    seq(|a|, i requires 0 <= i < |a| => a[i] + b[i])
  }

  function Scale(a: Params, n: nat): (c: Params)
    requires n > 0
    ensures |c| == |a|
  {
    seq(|a|, i requires 0 <= i < |a| => a[i] / n as real)
  }

  // ---- threads ----

  /** Where the handler of a reply is. From `Closing` to `Logged` it holds `result_mutex`. */
  datatype Stage = Arrived | Recorded | Passed | Closing | Averaged | Logged | Counted | Skipped | Late

  /** Where the round thread is. */
  datatype Control = Top | Check | Poll | Polled | Send(next: nat, tries: nat) | Exited

  /** A client and a round. */
  type Key = (nat, nat)

  /** `sent` are the requests delivered to the clients, with the model in their body; `replies`
      are the requests received from them. Nothing reads the last four: `log` lists the clients
      that were ready when each round was opened, `openings` and `closings` when that was, and when
      its results were recorded, and `tried` has the tries to send each request. */
  datatype World = World(
    server: Server,
    control: Control,
    ready: seq<bool>,
    clientsReady: nat,
    holder: Option<Key>,
    sent: map<Key, Params>,
    replies: map<Key, Stage>,
    log: seq<set<nat>>,
    openings: seq<int>,
    closings: seq<int>,
    tried: multiset<Key>)

  datatype Event =
    | Join
    | ReadRound
    | ReadStarted
    | PollClients(answers: seq<bool>)
    | OpenRound(now: int)
    | SendNext(delivered: bool)
    | Post(key: Key)
    | UpdateStats(key: Key)
    | CheckRound(key: Key)
    | Accumulate(key: Key)
    | Average
    | Record(now: int)
    | Reset

  const RETRIES := 3

  function Ready(ready: seq<bool>): set<nat>
  {
    set c | 0 <= c < |ready| && ready[c]
  }

  ghost function Start(cfg: Config, startBuffer: Params): World
  {
    World(Server(false, false, 0, 0, 0, 0, startBuffer, cfg.initial, [], [], [], []),
          Top, [], 0, None, map[], map[], [], [], [], multiset{})
  }

  /** What the scheduler, the mutexes and the clients allow. A client posts only for a round
      whose request it was sent, at most once for it, and a model of the right shape. */
  ghost predicate Enabled(cfg: Config, w: World, e: Event)
  {
    match e
    case Join => true
    case ReadRound => w.control == Top
    case ReadStarted => w.control == Check
    case PollClients(answers) => w.control == Poll && |answers| == |w.ready|
    case OpenRound(_) => w.control == Polled
    case SendNext(_) => w.control.Send?
    case Post(key) => key in w.sent && key !in w.replies
    case UpdateStats(key) => key in w.replies && w.replies[key] == Arrived
    case CheckRound(key) => key in w.replies && w.replies[key] == Recorded
    case Accumulate(key) => key in w.replies && w.replies[key] == Passed && w.holder == None
      && key in w.sent && |Reply(cfg, w, key)| == |w.server.buffer|
    case Average => Holding(w, Closing)
    case Record(_) => Holding(w, Averaged)
    case Reset => Holding(w, Logged)
  }

  predicate Holding(w: World, stage: Stage)
  {
    w.holder.Some? && w.holder.value in w.replies && w.replies[w.holder.value] == stage
  }

  function Move(w: World, key: Key, stage: Stage): World
  {
    w.(replies := w.replies[key := stage])
  }

  /** The model in the reply of a client: what it made of the model it was sent. */
  function Reply(cfg: Config, w: World, key: Key): Params
    requires key in w.sent
  {
    cfg.local(key.0, key.1, w.sent[key])
  }

  ghost function Next(cfg: Config, w: World, e: Event): World
    requires Enabled(cfg, w, e)
  {
    var s := w.server;
    match e
    case Join => w.(ready := w.ready + [false])
    case ReadRound => w.(control := if s.round >= cfg.rounds then Exited else Check)
    case ReadStarted => w.(control := if s.started then Top else Poll)
    case PollClients(answers) => w.(ready := answers, clientsReady := |Ready(answers)|, control := Polled)
    case OpenRound(now) =>
      if w.clientsReady == cfg.perRound then
        w.(server := s.Open(w.clientsReady, now), control := Send(0, 0), log := w.log + [Ready(w.ready)],
           openings := w.openings + [now])
      else w.(control := Top)
    case SendNext(delivered) => SendStep(w, delivered)
    case Post(key) => Move(w, key, Arrived)
    case UpdateStats(key) => Move(w.(server := s.UpdateStats(key.0, key.1)), key, Recorded)
    case CheckRound(key) => Move(w, key, if key.1 == s.round then Passed else Skipped)
    case Accumulate(key) => AccumulateStep(cfg, w, key)
    case Average => Move(w.(server := s.Average()), w.holder.value, Averaged)
    case Record(now) =>
      Move(w.(server := s.Record(now, cfg.accuracy(s.model), cfg.loss(s.model)), closings := w.closings + [now]),
           w.holder.value, Logged)
    case Reset => Move(w.(server := s.Reset(), holder := None), w.holder.value, Counted)
  }

  /** One try to send the request of the round to the next client, if that one is ready. */
  function SendStep(w: World, delivered: bool): World
    requires w.control.Send?
  {
    var c, tries := w.control.next, w.control.tries;
    if c >= |w.ready| then w.(control := Top)
    else if !w.ready[c] then w.(control := Send(c + 1, 0))
    else
      var v := w.(tried := w.tried + multiset{(c, w.server.round)});
      if delivered then
        v.(sent := w.sent[(c, w.server.round) := w.server.model], control := Send(c + 1, 0))
      else v.(control := if tries + 1 >= RETRIES then Send(c + 1, 0) else Send(c, tries + 1))
  }

  function AccumulateStep(cfg: Config, w: World, key: Key): World
    requires key in w.sent && |Reply(cfg, w, key)| == |w.server.buffer|
  {
    if w.server.averaging then Move(w, key, Late)
    else
      var s := w.server.Accumulate(Reply(cfg, w, key));
      if s.averaging then Move(w.(server := s, holder := Some(key)), key, Closing)
      else Move(w.(server := s), key, Counted)
  }

  // ---- runs ----

  /** The world after a run that starts from an arbitrary buffer; none if a step of the run
      was not possible. */
  ghost function Run(cfg: Config, buffer: Params, run: seq<Event>): Option<World>
  {
    if run == [] then Some(Start(cfg, buffer))
    else
      var n := |run| - 1;
      var before := Run(cfg, buffer, run[..n]);
      if before.Some? && Enabled(cfg, before.value, run[n]) then Some(Next(cfg, before.value, run[n])) else None
  }

  // ---- what every step keeps ----

  predicate IsOpen(w: World, r: nat)
  {
    w.server.started && r == w.server.round
  }

  /** How far the handler of a reply has come: statistics stored, round checked, added. */
  function Rank(s: Stage): nat
  {
    match s
    case Arrived => 0
    case Recorded => 1
    case Skipped => 1
    case Passed => 2
    case Late => 2
    case _ => 3
  }

  /** The participants of round `r` whose replies have come at least that far. */
  ghost function Heard(w: World, r: nat, least: nat): set<nat>
    requires 1 <= r <= |w.log|
  {
    set c | c in w.log[r - 1] && (c, r) in w.replies && Rank(w.replies[(c, r)]) >= least
  }

  ghost predicate ShapeOk(cfg: Config, w: World)
  {
    && |w.server.buffer| == |cfg.initial| && |w.server.model| == |cfg.initial|
    && |w.log| == w.server.round <= cfg.rounds
    && (forall k :: 0 <= k < |w.log| ==> |w.log[k]| == cfg.perRound)
    && (w.server.round > 0 ==> w.server.participants == cfg.perRound)
  }

  ghost predicate ThreadOk(cfg: Config, w: World)
    requires |w.log| == w.server.round
  {
    && (w.control.Check? || w.control.Poll? || w.control.Polled? ==> w.server.round < cfg.rounds)
    && (w.control.Poll? || w.control.Polled? ==> !w.server.started)
    && (w.control.Polled? ==> w.clientsReady == |Ready(w.ready)|)
    && (w.server.started ==> w.server.round > 0)
    && (w.control.Send? ==>
          && w.server.round > 0 && w.log[w.server.round - 1] == Ready(w.ready)
          && forall c: nat :: c >= w.control.next ==> (c, w.server.round) !in w.sent)
  }

  /** Every request carries the model that the round was opened with. */
  ghost predicate SentOk(cfg: Config, w: World)
    requires cfg.Valid()
  {
    forall key :: key in w.sent ==>
      1 <= key.1 <= |w.log| && key.0 in w.log[key.1 - 1] && w.sent[key] == Model(cfg, w.log[..key.1 - 1])
  }

  /** No reply is turned away; those of the rounds that are over have all been counted. */
  ghost predicate RepliesOk(w: World)
  {
    forall key :: key in w.replies ==>
      && key in w.sent
      && w.replies[key] != Skipped && w.replies[key] != Late
      && (!IsOpen(w, key.1) ==> w.replies[key] == Counted)
      && (w.replies[key] in {Closing, Averaged, Logged} <==> w.holder == Some(key))
  }

  ghost predicate CountsOk(w: World)
    requires |w.log| == w.server.round && (w.server.started ==> w.server.round > 0)
  {
    if w.server.started then
      && w.server.responded == |Heard(w, w.server.round, 3)|
      && w.server.averaging == w.holder.Some?
      && (w.holder.Some? ==> w.holder.value in w.replies && w.server.responded == w.server.participants)
      && (w.holder.None? ==> w.server.responded < w.server.participants)
    else w.server.responded == 0 && !w.server.averaging && w.holder.None?
  }

  ghost predicate FinishedOk(w: World)
  {
    forall r :: 1 <= r <= |w.log| && !IsOpen(w, r) ==> Heard(w, r, 3) == w.log[r - 1]
  }

  /** The holder of the mutex has put the mean into the model. */
  predicate Written(w: World)
  {
    Holding(w, Averaged) || Holding(w, Logged)
  }

  ghost predicate ModelOk(cfg: Config, w: World)
    requires cfg.Valid() && |w.log| == w.server.round && (w.server.started ==> w.server.round > 0)
  {
    w.server.model ==
      Model(cfg, w.log[..if w.server.started && !Written(w) then w.server.round - 1 else w.server.round])
  }

  /** While replies of a round are awaited the buffer is the sum of those that came. */
  ghost predicate BufferOk(cfg: Config, w: World)
    requires cfg.Valid() && |w.log| == w.server.round && (w.server.started ==> w.server.round > 0)
    requires |w.server.buffer| == |cfg.initial|
  {
    w.server.started && w.server.responded > 0 && !Written(w) ==>
      forall i :: 0 <= i < |cfg.initial| ==>
        w.server.buffer[i]
        == Total(cfg, Heard(w, w.server.round, 3), w.server.round, Model(cfg, w.log[..w.server.round - 1]), i)
  }

  ghost predicate HistoryOk(cfg: Config, w: World)
    requires cfg.Valid() && |w.log| == w.server.round && (w.server.started ==> w.server.round > 0)
  {
    var s := w.server;
    && |s.times| == |s.accuracies| == |s.losses|
    == (if s.started && !Holding(w, Logged) then s.round - 1 else s.round)
    && (forall k :: 0 <= k < |s.accuracies| ==>
          && s.accuracies[k] == cfg.accuracy(Model(cfg, w.log[..k + 1]))
          && s.losses[k] == cfg.loss(Model(cfg, w.log[..k + 1])))
    && TimesOk(w)
  }

  /** Each time recorded is how long its round took. */
  ghost predicate TimesOk(w: World)
  {
    && |w.openings| == w.server.round && |w.closings| == |w.server.times| <= |w.openings|
    && (w.server.round > 0 ==> w.server.startTime == w.openings[w.server.round - 1])
    && forall k :: 0 <= k < |w.closings| ==> w.server.times[k] == w.closings[k] - w.openings[k]
  }

  /** The statistics of each round are those of the replies heard, each once. */
  ghost predicate StatsOk(w: World)
    requires |w.log| == w.server.round && (w.server.started ==> w.server.round > 0)
  {
    var s := w.server;
    && |s.stats| == (if s.started && Heard(w, s.round, 1) == {} then s.round - 1 else s.round)
    && forall r :: 1 <= r <= |s.stats| ==> multiset(s.stats[r - 1]) == multiset(Heard(w, r, 1))
  }

  ghost predicate Inv(cfg: Config, w: World)
  {
    && cfg.Valid() && ShapeOk(cfg, w) && ThreadOk(cfg, w) && SentOk(cfg, w) && RepliesOk(w) && CountsOk(w)
    && FinishedOk(w) && ResultsOk(cfg, w) && StatsOk(w)
  }

  ghost predicate ResultsOk(cfg: Config, w: World)
    requires cfg.Valid() && |w.log| == w.server.round && (w.server.started ==> w.server.round > 0)
    requires |w.server.buffer| == |cfg.initial|
  {
    ModelOk(cfg, w) && BufferOk(cfg, w) && HistoryOk(cfg, w)
  }

  lemma {:induction false} StartInv(cfg: Config, buffer: Params)
    requires cfg.Valid() && |buffer| == |cfg.initial|
    ensures Inv(cfg, Start(cfg, buffer))
  {
  }

  // ---- each step keeps the invariant ----

  /** The participants heard are the same, wherever it matters. */
  ghost predicate SameHeard(w: World, v: World)
  {
    && v.log == w.log
    && forall r :: 1 <= r <= |w.log| ==> Heard(v, r, 1) == Heard(w, r, 1) && Heard(v, r, 3) == Heard(w, r, 3)
  }

  predicate SameHolder(w: World, v: World)
  {
    && v.holder == w.holder
    && (w.holder.Some? && w.holder.value in w.replies ==>
          w.holder.value in v.replies && v.replies[w.holder.value] == w.replies[w.holder.value])
  }

  lemma {:induction false} SameReplies(w: World, v: World)
    requires v.log == w.log && v.replies == w.replies
    ensures SameHeard(w, v)
  {
  }

  lemma {:induction false} SameResults(cfg: Config, w: World, v: World)
    requires Inv(cfg, w)
    requires v.server == w.server && SameHolder(w, v) && SameHeard(w, v) && v.openings == w.openings
    requires v.closings == w.closings
    ensures ShapeOk(cfg, v) && CountsOk(v) && FinishedOk(v) && ResultsOk(cfg, v) && StatsOk(v)
  {
    hide Model, Total, SentOk, RepliesOk, Rank, Heard;
    if w.server.started {
      assert Heard(v, w.server.round, 3) == Heard(w, w.server.round, 3);
    }
  }

  lemma {:induction false} JoinKeeps(cfg: Config, w: World)
    requires Inv(cfg, w)
    ensures Inv(cfg, Next(cfg, w, Join))
  {
    hide Model, CountsOk, FinishedOk, ResultsOk, StatsOk;
    var v := Next(cfg, w, Join);
    assert Ready(v.ready) == Ready(w.ready);
    SameReplies(w, v);
    SameResults(cfg, w, v);
  }

  lemma {:induction false} ReadKeeps(cfg: Config, w: World, e: Event)
    requires Inv(cfg, w) && Enabled(cfg, w, e) && (e.ReadRound? || e.ReadStarted? || e.PollClients?)
    ensures Inv(cfg, Next(cfg, w, e))
  {
    hide Model, CountsOk, FinishedOk, ResultsOk, StatsOk;
    SameReplies(w, Next(cfg, w, e));
    SameResults(cfg, w, Next(cfg, w, e));
  }

  lemma {:induction false} SendKeeps(cfg: Config, w: World, delivered: bool)
    requires Inv(cfg, w) && w.control.Send?
    ensures Inv(cfg, SendStep(w, delivered))
  {
    hide Model, CountsOk, FinishedOk, ResultsOk, StatsOk, SentOk, ModelOk;
    var v := SendStep(w, delivered);
    var c := w.control.next;
    SameReplies(w, v);
    SameResults(cfg, w, v);
    if v.sent != w.sent {
      Unfinished(cfg, w, c);
      SentMore(cfg, w, v, c);
    } else {
      SentSame(cfg, w, v);
    }
  }

  lemma {:induction false} SentSame(cfg: Config, w: World, v: World)
    requires cfg.Valid() && SentOk(cfg, w) && v.sent == w.sent && v.log == w.log
    ensures SentOk(cfg, v)
  {
    hide Model;
  }

  lemma {:induction false} SentMore(cfg: Config, w: World, v: World, c: nat)
    requires Inv(cfg, w) && w.server.started && !Written(w) && c in w.log[w.server.round - 1]
    requires v.log == w.log && v.sent == w.sent[(c, w.server.round) := w.server.model]
    ensures SentOk(cfg, v)
  {
    hide Model;
  }

  /** While a participant has not been sent its request, the round cannot be over, and the
      model is the one that the round was opened with. */
  lemma {:induction false} Unfinished(cfg: Config, w: World, c: nat)
    requires Inv(cfg, w) && w.server.round > 0
    requires c in w.log[w.server.round - 1] && (c, w.server.round) !in w.sent
    ensures w.server.started && !Written(w) && w.holder == None
  {
    hide Model, SentOk, ResultsOk, StatsOk, ThreadOk;
    var r := w.server.round;
    assert (c, r) !in w.replies;
    var heard := Heard(w, r, 3);
    assert c !in heard && heard <= w.log[r - 1] - {c};
    SubsetSize(heard, w.log[r - 1] - {c});
  }

  lemma {:induction false} SubsetSize(a: set<nat>, b: set<nat>)
    requires a <= b
    ensures |a| <= |b| && (|a| == |b| ==> a == b)
    decreases |b|
  {
    if a != {} {
      var x :| x in a;
      SubsetSize(a - {x}, b - {x});
      assert a == a - {x} + {x} && b == b - {x} + {x};
    }
  }

  // ---- the handler ----

  lemma {:induction false} HeardMoves(w: World, v: World, key: Key, stage: Stage, r: nat, least: nat)
    requires v.log == w.log && v.replies == w.replies[key := stage] && 1 <= r <= |w.log|
    requires r == key.1 ==> key.0 in w.log[r - 1]
    requires key in w.replies ==> Rank(w.replies[key]) <= Rank(stage)
    ensures Heard(v, r, least) == Heard(w, r, least) + (if r == key.1 && Rank(stage) >= least then {key.0} else {})
  {
  }

  /** A move of a handler that passes none of the marks that are counted. */
  lemma {:induction false} SmallMove(w: World, v: World, key: Key, stage: Stage)
    requires v.log == w.log && v.replies == w.replies[key := stage]
    requires 1 <= key.1 <= |w.log| && key.0 in w.log[key.1 - 1]
    requires key in w.replies ==> Rank(w.replies[key]) <= Rank(stage)
    requires key !in w.replies ==> stage == Arrived
    requires key in w.replies ==> (Rank(stage) >= 1 ==> Rank(w.replies[key]) >= 1)
    requires key in w.replies ==> (Rank(stage) >= 3 ==> Rank(w.replies[key]) >= 3)
    ensures SameHeard(w, v)
  {
    forall r | 1 <= r <= |w.log| ensures Heard(v, r, 1) == Heard(w, r, 1) && Heard(v, r, 3) == Heard(w, r, 3) {
      HeardMoves(w, v, key, stage, r, 1);
      HeardMoves(w, v, key, stage, r, 3);
    }
  }

  /** A round whose replies are not all in is open, and is the current one. */
  lemma {:induction false} StillOpen(cfg: Config, w: World, key: Key)
    requires Inv(cfg, w) && key in w.sent && (key in w.replies ==> w.replies[key] != Counted)
    ensures 1 <= key.1 <= |w.log| && key.0 in w.log[key.1 - 1] && IsOpen(w, key.1)
  {
    hide Model, CountsOk, ResultsOk, StatsOk;
    if !IsOpen(w, key.1) {
      assert key.0 in Heard(w, key.1, 3);
      assert false;
    }
  }

  lemma {:induction false} NotHolder(cfg: Config, w: World, key: Key)
    requires Inv(cfg, w) && (key in w.replies ==> w.replies[key] in {Arrived, Recorded, Passed})
    ensures w.holder != Some(key)
  {
    hide Model, FinishedOk, ResultsOk, StatsOk, Heard, SentOk;
  }

  lemma {:induction false} RepliesAdvance(w: World, v: World, key: Key, stage: Stage)
    requires RepliesOk(w) && stage in {Arrived, Recorded, Passed} && IsOpen(w, key.1) && key in w.sent
    requires w.holder != Some(key)
    requires v.replies == w.replies[key := stage] && v.sent == w.sent && v.holder == w.holder
    requires v.server.started == w.server.started && v.server.round == w.server.round
    ensures RepliesOk(v)
  {
  }

  lemma {:induction false} PostKeeps(cfg: Config, w: World, key: Key)
    requires Inv(cfg, w) && Enabled(cfg, w, Post(key))
    ensures Inv(cfg, Move(w, key, Arrived))
  {
    hide Model, FinishedOk, ResultsOk, StatsOk, Heard, RepliesOk, SentOk, CountsOk;
    var v := Move(w, key, Arrived);
    NotHolder(cfg, w, key);
    StillOpen(cfg, w, key);
    RepliesAdvance(w, v, key, Arrived);
    SmallMove(w, v, key, Arrived);
    assert SameHolder(w, v) by { hide ThreadOk, SentOk; }
    SameResults(cfg, w, v);
    SentSame(cfg, w, v);
  }

  lemma {:induction false} CheckKeeps(cfg: Config, w: World, key: Key)
    requires Inv(cfg, w) && Enabled(cfg, w, CheckRound(key))
    ensures Inv(cfg, Next(cfg, w, CheckRound(key)))
  {
    hide Model, CountsOk, FinishedOk, ResultsOk, StatsOk, Heard, RepliesOk, SentOk;
    InvReply(cfg, w, key);
    StillOpen(cfg, w, key);
    NotHolder(cfg, w, key);
    var v := Move(w, key, Passed);
    RepliesAdvance(w, v, key, Passed);
    assert Next(cfg, w, CheckRound(key)) == v;
    SmallMove(w, v, key, Passed);
    assert SameHolder(w, v) by { hide ThreadOk, SentOk; }
    SameResults(cfg, w, v);
    SentSame(cfg, w, v);
  }

  lemma {:induction false} StatsGrow(cfg: Config, w: World, v: World, key: Key)
    requires Inv(cfg, w) && key in w.replies && w.replies[key] == Arrived
    requires IsOpen(w, key.1) && 1 <= key.1 <= |w.log| && key.0 in w.log[key.1 - 1]
    requires v.server == w.server.UpdateStats(key.0, key.1) && v.log == w.log && v.replies == w.replies[key := Recorded]
    ensures StatsOk(v) && v.server == w.server.(stats := v.server.stats)
  {
    hide Model, CountsOk, FinishedOk, ResultsOk, Heard, ThreadOk, SentOk, RepliesOk, Server.UpdateStats;
    var r := key.1;
    forall q | 1 <= q <= |w.log|
      ensures Heard(v, q, 1) == Heard(w, q, 1) + (if q == r then {key.0} else {})
    {
      HeardMoves(w, v, key, Recorded, q, 1);
    }
    NotHeard(w, key, 1);
    SlotUpdated(w.server, key.0, r);
    StatsFollow(w, v, r, key.0);
  }

  lemma {:induction false} OneMore(a: set<nat>, c: nat)
    requires c !in a
    ensures multiset(a + {c}) == multiset(a) + multiset{c}
  {}

  /** The statistics after one more reply of round `r` has been heard, from client `c`. */
  lemma {:induction false} StatsFollow(w: World, v: World, r: nat, c: nat)
    requires |w.log| == w.server.round == v.server.round && v.log == w.log && v.server.started && w.server.started
    requires 1 <= r == w.server.round && StatsOk(w) && c !in Heard(w, r, 1)
    requires forall q :: 1 <= q <= |w.log| ==> Heard(v, q, 1) == Heard(w, q, 1) + (if q == r then {c} else {})
    requires var s, t := w.server.stats, v.server.stats;
      && |t| == (if |s| < r then r else |s|) && (forall q :: 0 <= q < |s| && q != r - 1 ==> t[q] == s[q])
      && multiset(t[r - 1]) == (if |s| < r then multiset{} else multiset(s[r - 1])) + multiset{c}
    ensures StatsOk(v)
  {
    hide Heard;
    var s, t := w.server.stats, v.server.stats;
    OneMore(Heard(w, r, 1), c);
    assert c in Heard(v, r, 1);
    forall q | 1 <= q <= |t| ensures multiset(t[q - 1]) == multiset(Heard(v, q, 1)) {
      if q != r {
        assert Heard(v, q, 1) == Heard(w, q, 1);
      }
    }
  }

  /** `update_stats` adds one entry to the slot of the round, which may be new. */
  lemma {:induction false} SlotUpdated(s: Server, c: nat, r: nat)
    requires 1 <= r <= |s.stats| + 1
    ensures var t := s.UpdateStats(c, r);
      && t == s.(stats := t.stats) && |t.stats| == (if |s.stats| < r then r else |s.stats|)
      && (forall q :: 0 <= q < |s.stats| && q != r - 1 ==> t.stats[q] == s.stats[q])
      && t.stats[r - 1] == (if |s.stats| < r then [] else s.stats[r - 1]) + [c]
  {
    assert [] + [c] == [c];
  }

  lemma {:induction false} NotHeard(w: World, key: Key, least: nat)
    requires 1 <= key.1 <= |w.log| && (key in w.replies ==> Rank(w.replies[key]) < least)
    ensures key.0 !in Heard(w, key.1, least)
  {
  }

  lemma {:induction false} StatsKeeps(cfg: Config, w: World, key: Key)
    requires Inv(cfg, w) && Enabled(cfg, w, UpdateStats(key))
    ensures Inv(cfg, Next(cfg, w, UpdateStats(key)))
  {
    hide Model, FinishedOk, ResultsOk, StatsOk, Heard, CountsOk, RepliesOk, SentOk, Server.UpdateStats;
    InvReply(cfg, w, key);
    StillOpen(cfg, w, key);
    NotHolder(cfg, w, key);
    var v := Next(cfg, w, UpdateStats(key));
    StatsGrow(cfg, w, v, key);
    RepliesAdvance(w, v, key, Recorded);
    assert SameHolder(w, v) by { hide ThreadOk, SentOk; }
    assert forall r :: 1 <= r <= |w.log| ==> Heard(v, r, 3) == Heard(w, r, 3) by {
      forall r | 1 <= r <= |w.log| ensures Heard(v, r, 3) == Heard(w, r, 3) {
        HeardMoves(w, v, key, Recorded, r, 3);
      }
    }
    SameBut(cfg, w, v);
    SentSame(cfg, w, v);
  }

  /** Statistics matter to nothing else. */
  lemma {:induction false} SameBut(cfg: Config, w: World, v: World)
    requires Inv(cfg, w)
    requires v.server == w.server.(stats := v.server.stats) && SameHolder(w, v) && v.log == w.log
    requires v.openings == w.openings && v.closings == w.closings
    requires forall r :: 1 <= r <= |w.log| ==> Heard(v, r, 3) == Heard(w, r, 3)
    ensures ShapeOk(cfg, v) && CountsOk(v) && FinishedOk(v) && ResultsOk(cfg, v)
  {
    hide Model, Total, SentOk, RepliesOk, Rank, Heard, StatsOk;
    if w.server.started {
      assert Heard(v, w.server.round, 3) == Heard(w, w.server.round, 3);
    }
  }

  /** A reply that passed the round check finds its round still open and the mutex's last
      holder done: it is added, and neither turned away nor taken for another round's. */
  lemma {:induction false} AddedToItsRound(cfg: Config, w: World, key: Key)
    requires Inv(cfg, w) && Enabled(cfg, w, Accumulate(key))
    ensures IsOpen(w, key.1) && !w.server.averaging && !Written(w) && key.0 !in Heard(w, key.1, 3)
    ensures 1 <= key.1 <= |w.log| && key.0 in w.log[key.1 - 1]
    ensures Reply(cfg, w, key) == cfg.local(key.0, key.1, Model(cfg, w.log[..key.1 - 1]))
  {
    hide Model, FinishedOk, ResultsOk, StatsOk, Heard;
    StillOpen(cfg, w, key);
    NotHeard(w, key, 3);
  }

  lemma {:induction false} HeardGrows(w: World, v: World, key: Key, stage: Stage)
    requires v.log == w.log && v.replies == w.replies[key := stage] && Rank(stage) == 3
    requires 1 <= key.1 <= |w.log| && key.0 in w.log[key.1 - 1]
    requires key in w.replies && w.replies[key] == Passed
    ensures forall r :: 1 <= r <= |w.log| ==> Heard(v, r, 1) == Heard(w, r, 1)
    ensures forall r :: 1 <= r <= |w.log| && r != key.1 ==> Heard(v, r, 3) == Heard(w, r, 3)
    ensures Heard(v, key.1, 3) == Heard(w, key.1, 3) + {key.0}
  {
    hide Heard;
    HeardMoves(w, v, key, stage, key.1, 3);
    forall r | 1 <= r <= |w.log| ensures Heard(v, r, 1) == Heard(w, r, 1) {
      HeardMoves(w, v, key, stage, r, 1);
      HasHeard(w, key, 1);
    }
    forall r | 1 <= r <= |w.log| && r != key.1 ensures Heard(v, r, 3) == Heard(w, r, 3) {
      HeardMoves(w, v, key, stage, r, 3);
    }
  }

  lemma {:induction false} HasHeard(w: World, key: Key, least: nat)
    requires 1 <= key.1 <= |w.log| && key.0 in w.log[key.1 - 1] && key in w.replies && Rank(w.replies[key]) >= least
    ensures key.0 in Heard(w, key.1, least)
  {
  }

  lemma {:induction false} BufferGrows(cfg: Config, s: Server, heard: set<nat>, c: nat, r: nat, m: Params)
    requires cfg.Valid() && |s.buffer| == |cfg.initial| && c !in heard && s.responded == |heard|
    requires s.responded > 0 ==> forall i :: 0 <= i < |cfg.initial| ==> s.buffer[i] == Total(cfg, heard, r, m, i)
    ensures forall i :: 0 <= i < |cfg.initial| ==>
      s.Accumulate(cfg.local(c, r, m)).buffer[i] == Total(cfg, heard + {c}, r, m, i)
  {
    forall i | 0 <= i < |cfg.initial|
      ensures s.Accumulate(cfg.local(c, r, m)).buffer[i] == Total(cfg, heard + {c}, r, m, i)
    {
      TotalInsert(cfg, heard, r, m, i, c);
      if s.responded == 0 {
        assert heard == {};
      }
    }
  }

  ghost predicate Adds(cfg: Config, w: World, v: World, key: Key, stage: Stage)
    requires Enabled(cfg, w, Accumulate(key))
  {
    && stage in {Closing, Counted}
    && v.server == w.server.Accumulate(Reply(cfg, w, key))
    && v == w.(server := v.server, replies := w.replies[key := stage], holder := v.holder)
    && v.holder == (if stage == Closing then Some(key) else None)
    && v.server.averaging == (stage == Closing)
  }

  /** What the step that adds a reply makes of the world. */
  lemma {:induction false} Added(cfg: Config, w: World, key: Key) returns (v: World, stage: Stage)
    requires Inv(cfg, w) && Enabled(cfg, w, Accumulate(key))
    ensures v == Next(cfg, w, Accumulate(key)) && Adds(cfg, w, v, key, stage)
  {
    AddedToItsRound(cfg, w, key);
    hide Model, ShapeOk, ThreadOk, SentOk, RepliesOk, CountsOk, FinishedOk, ResultsOk, StatsOk, Heard;
    v := Next(cfg, w, Accumulate(key));
    stage := if v.server.averaging then Closing else Counted;
  }

  lemma {:induction false} AddedCounts(cfg: Config, w: World, v: World, key: Key, stage: Stage)
    requires Inv(cfg, w) && Enabled(cfg, w, Accumulate(key)) && Adds(cfg, w, v, key, stage)
    ensures CountsOk(v) && FinishedOk(v) && StatsOk(v)
  {
    hide Model, SentOk, RepliesOk, ResultsOk, Heard, ThreadOk;
    AddedToItsRound(cfg, w, key);
    HeardGrows(w, v, key, stage);
    var r := key.1;
    HeardWithin(v, r, 3);
    SubsetSize(Heard(v, r, 3), w.log[r - 1]);
  }

  lemma {:induction false} HeardWithin(w: World, r: nat, least: nat)
    requires 1 <= r <= |w.log|
    ensures Heard(w, r, least) <= w.log[r - 1]
  {
  }

  /** Steps that change neither the model nor the histories, and finish no round. */
  lemma {:induction false} SameModel(cfg: Config, w: World, v: World)
    requires Inv(cfg, w)
    requires v.log == w.log
    requires v.server == w.server.(buffer := v.server.buffer, responded := v.server.responded,
        averaging := v.server.averaging)
    requires Written(v) == Written(w) && Holding(v, Logged) == Holding(w, Logged) && v.openings == w.openings
    requires v.closings == w.closings
    ensures ModelOk(cfg, v) && HistoryOk(cfg, v)
  {
    hide Model, SentOk, RepliesOk, Heard, ThreadOk, FinishedOk, StatsOk, BufferOk;
  }

  lemma {:induction false} AddedBuffer(cfg: Config, w: World, v: World, key: Key, stage: Stage)
    requires Inv(cfg, w) && Enabled(cfg, w, Accumulate(key)) && Adds(cfg, w, v, key, stage)
    requires |v.server.buffer| == |cfg.initial|
    ensures BufferOk(cfg, v)
  {
    hide Model, Total, SentOk, RepliesOk, Heard, ThreadOk, FinishedOk, StatsOk, ModelOk, HistoryOk;
    AddedToItsRound(cfg, w, key);
    HeardGrows(w, v, key, stage);
    var r := key.1;
    BufferGrows(cfg, w.server, Heard(w, r, 3), key.0, r, Model(cfg, w.log[..r - 1]));
  }

  lemma {:induction false} AddedResults(cfg: Config, w: World, v: World, key: Key, stage: Stage)
    requires Inv(cfg, w) && Enabled(cfg, w, Accumulate(key)) && Adds(cfg, w, v, key, stage)
    ensures |v.server.buffer| == |cfg.initial| && ResultsOk(cfg, v)
  {
    hide Model, Total, SentOk, RepliesOk, Heard, ThreadOk, FinishedOk, StatsOk, ModelOk, HistoryOk, BufferOk;
    AddedToItsRound(cfg, w, key);
    assert ShapeOk(cfg, v);
    assert !Written(v) && !Holding(v, Logged);
    SameModel(cfg, w, v);
    AddedBuffer(cfg, w, v, key, stage);
  }

  lemma {:induction false} AccumulateKeeps(cfg: Config, w: World, key: Key)
    requires Inv(cfg, w) && Enabled(cfg, w, Accumulate(key))
    ensures Inv(cfg, Next(cfg, w, Accumulate(key)))
  {
    hide Model, Next, CountsOk, FinishedOk, ResultsOk, StatsOk, Heard;
    var v, stage := Added(cfg, w, key);
    AddedToItsRound(cfg, w, key);
    AddedCounts(cfg, w, v, key, stage);
    AddedResults(cfg, w, v, key, stage);
    SentSame(cfg, w, v);
    assert ThreadOk(cfg, v) by { hide SentOk, RepliesOk; }
    assert ShapeOk(cfg, v) by { hide SentOk, RepliesOk, ThreadOk; }
  }

  // ---- the holder of `result_mutex` finishes the round ----

  /** The handler that holds the mutex works on the open round, and all replies are in. */
  lemma {:induction false} AllHeard(cfg: Config, w: World)
    requires Inv(cfg, w) && w.holder.Some?
    ensures var key := w.holder.value;
      && key in w.replies && w.replies[key] in {Closing, Averaged, Logged} && IsOpen(w, key.1)
      && 1 <= key.1 == w.server.round == |w.log| && key.0 in w.log[key.1 - 1]
      && Heard(w, key.1, 3) == w.log[key.1 - 1] && |w.log[key.1 - 1]| == w.server.participants == w.server.responded > 0
  {
    hide Model, ResultsOk, StatsOk, Heard;
    var key := w.holder.value;
    StillOpen(cfg, w, key);
    HeardWithin(w, key.1, 3);
    SubsetSize(Heard(w, key.1, 3), w.log[key.1 - 1]);
  }

  /** A step of the holder: its stage, the server and perhaps the mutex change. */
  ghost predicate HolderStep(w: World, v: World, stage: Stage)
  {
    && w.holder.Some? && w.holder.value in w.replies && v.control == w.control && v.ready == w.ready
    && v.clientsReady == w.clientsReady && v.sent == w.sent && v.log == w.log
    && v.replies == w.replies[w.holder.value := stage] && Rank(stage) == 3
    && v.server.round == w.server.round && v.server.participants == w.server.participants
    && v.server.stats == w.server.stats
  }

  lemma {:induction false} HolderHeard(cfg: Config, w: World, v: World, stage: Stage)
    requires Inv(cfg, w) && HolderStep(w, v, stage)
    ensures SameHeard(w, v)
  {
    hide Model, ShapeOk, ThreadOk, SentOk, RepliesOk, CountsOk, FinishedOk, ResultsOk, StatsOk, Heard;
    AllHeard(cfg, w);
    SmallMove(w, v, w.holder.value, stage);
  }

  /** What stays as it is while the holder keeps the mutex. */
  lemma {:induction false} HolderKeeps(cfg: Config, w: World, v: World, stage: Stage)
    requires Inv(cfg, w) && HolderStep(w, v, stage) && stage in {Closing, Averaged, Logged} && v.holder == w.holder
    requires |v.server.buffer| == |cfg.initial| && |v.server.model| == |cfg.initial|
    requires v.server.started && v.server.averaging && v.server.responded == w.server.responded
    ensures ShapeOk(cfg, v) && ThreadOk(cfg, v) && SentOk(cfg, v) && RepliesOk(v) && CountsOk(v)
    ensures FinishedOk(v) && StatsOk(v)
  {
    hide Model, ResultsOk, Heard, SentOk;
    AllHeard(cfg, w);
    HolderHeard(cfg, w, v, stage);
    SentSame(cfg, w, v);
    assert Heard(v, w.server.round, 3) == Heard(w, w.server.round, 3);
    assert Heard(v, w.server.round, 1) == Heard(w, w.server.round, 1);
  }

  lemma {:induction false} MeanOfSum(cfg: Config, buffer: Params, s: set<nat>, r: nat, m: Params)
    requires cfg.Valid() && |buffer| == |cfg.initial| && s != {}
    requires forall i :: 0 <= i < |cfg.initial| ==> buffer[i] == Total(cfg, s, r, m, i)
    ensures Scale(buffer, |s|) == Mean(cfg, s, r, m)
  {
    hide Total;
  }

  lemma {:induction false} ModelLast(cfg: Config, log: seq<set<nat>>)
    requires cfg.Valid() && log != [] && log[|log| - 1] != {}
    ensures Model(cfg, log) == Mean(cfg, log[|log| - 1], |log|, Model(cfg, log[..|log| - 1]))
  {
  }

  /** What the server computes at the end of a round is the mean of the round's replies. */
  lemma {:induction false} AverageIsMean(cfg: Config, w: World)
    requires Inv(cfg, w) && Holding(w, Closing)
    ensures w.server.Average().model == Model(cfg, w.log)
  {
    hide Model, Total, Mean, Scale, Heard, ThreadOk, SentOk, RepliesOk, FinishedOk, StatsOk, HistoryOk;
    AllHeard(cfg, w);
    var r := w.server.round;
    MeanOfSum(cfg, w.server.buffer, w.log[r - 1], r, Model(cfg, w.log[..r - 1]));
    ModelLast(cfg, w.log);
  }

  lemma {:induction false} AverageKeeps(cfg: Config, w: World)
    requires Inv(cfg, w) && Holding(w, Closing)
    ensures Inv(cfg, Next(cfg, w, Average))
  {
    hide Model, Heard, Scale, ThreadOk, SentOk, RepliesOk, FinishedOk, StatsOk;
    AllHeard(cfg, w);
    AverageIsMean(cfg, w);
    var v := Next(cfg, w, Average);
    HolderKeeps(cfg, w, v, Averaged);
    assert w.log[..w.server.round] == w.log;
  }

  lemma {:induction false} RecordKeeps(cfg: Config, w: World, now: int)
    requires Inv(cfg, w) && Holding(w, Averaged)
    ensures Inv(cfg, Next(cfg, w, Record(now)))
  {
    hide Model, Heard, ThreadOk, SentOk, RepliesOk, FinishedOk, StatsOk;
    AllHeard(cfg, w);
    var v := Next(cfg, w, Record(now));
    HolderKeeps(cfg, w, v, Logged);
  }

  lemma {:induction false} ResetReplies(cfg: Config, w: World, v: World)
    requires Inv(cfg, w) && Holding(w, Logged) && v == Next(cfg, w, Reset)
    ensures RepliesOk(v) && FinishedOk(v)
  {
    hide Model, SentOk, ResultsOk, StatsOk, ThreadOk, Heard;
    AllHeard(cfg, w);
    HolderHeard(cfg, w, v, Counted);
    var r := w.server.round;
    assert Heard(v, r, 3) == w.log[r - 1];
    forall key | key in v.replies && key.1 == r ensures v.replies[key] == Counted {
      assert w.replies[key] in {Closing, Averaged, Logged} ==> w.holder == Some(key);
      LogHas(cfg, w, key);
      RankOf(v, key);
    }
  }

  lemma {:induction false} LogHas(cfg: Config, w: World, key: Key)
    requires Inv(cfg, w) && key in w.replies
    ensures 1 <= key.1 <= |w.log| && key.0 in w.log[key.1 - 1]
  {
    hide Model, ResultsOk, StatsOk, ThreadOk, Heard;
  }

  lemma {:induction false} RankOf(w: World, key: Key)
    requires 1 <= key.1 <= |w.log| && key in w.replies && key.0 in Heard(w, key.1, 3)
    ensures Rank(w.replies[key]) == 3
  {
  }

  lemma {:induction false} ResetKeeps(cfg: Config, w: World)
    requires Inv(cfg, w) && Holding(w, Logged)
    ensures Inv(cfg, Next(cfg, w, Reset))
  {
    hide Model, SentOk, RepliesOk, FinishedOk, Heard;
    var v := Next(cfg, w, Reset);
    AllHeard(cfg, w);
    ResetReplies(cfg, w, v);
    HolderHeard(cfg, w, v, Counted);
    SentSame(cfg, w, v);
    HeardLess(w, w.server.round);
  }

  lemma {:induction false} HeardLess(w: World, r: nat)
    requires 1 <= r <= |w.log|
    ensures Heard(w, r, 3) <= Heard(w, r, 1)
  {
  }

  // ---- opening a round ----

  /** Nothing has been sent or heard for a round that has not been opened. */
  lemma {:induction false} OpenHeard(cfg: Config, w: World, v: World, p: set<nat>)
    requires Inv(cfg, w) && v.log == w.log + [p] && v.replies == w.replies
    ensures forall r, least :: 1 <= r <= |w.log| ==> Heard(v, r, least) == Heard(w, r, least)
    ensures forall least :: Heard(v, |v.log|, least) == {}
    ensures forall k :: 0 <= k <= |w.log| ==> v.log[..k] == w.log[..k]
  {
    hide Model, ResultsOk, StatsOk, ThreadOk, CountsOk, FinishedOk;
  }

  lemma {:induction false} OpenSent(cfg: Config, w: World, v: World)
    requires Inv(cfg, w) && Enabled(cfg, w, OpenRound(0)) && w.clientsReady == cfg.perRound
    requires v.log == w.log + [Ready(w.ready)] && v.sent == w.sent && v.replies == w.replies && v.ready == w.ready
    requires v.control == Send(0, 0) && v.holder == w.holder
    requires v.server.round == w.server.round + 1 && v.server.started
    ensures SentOk(cfg, v) && RepliesOk(v) && ThreadOk(cfg, v) && w.holder == None
  {
    hide Model, ResultsOk, StatsOk, FinishedOk, Heard;
    OpenHeard(cfg, w, v, Ready(w.ready));
  }

  lemma {:induction false} OpenResults(cfg: Config, w: World, v: World, now: int)
    requires Inv(cfg, w) && w.control == Polled && w.clientsReady == cfg.perRound && v == Next(cfg, w, OpenRound(now))
    ensures ShapeOk(cfg, v) && v.server.round > 0 && ResultsOk(cfg, v) && CountsOk(v) && FinishedOk(v) && StatsOk(v)
  {
    hide Model, Total, SentOk, RepliesOk, Heard;
    OpenHeard(cfg, w, v, Ready(w.ready));
    assert w.log[..w.server.round] == w.log;
  }

  lemma {:induction false} OpenKeeps(cfg: Config, w: World, now: int)
    requires Inv(cfg, w) && w.control == Polled
    ensures Inv(cfg, Next(cfg, w, OpenRound(now)))
  {
    hide Model, SentOk, RepliesOk, CountsOk, FinishedOk, ResultsOk, StatsOk, Heard;
    var v := Next(cfg, w, OpenRound(now));
    if w.clientsReady == cfg.perRound {
      OpenSent(cfg, w, v);
      OpenResults(cfg, w, v, now);
    } else {
      SameReplies(w, v);
      SameResults(cfg, w, v);
      SentSame(cfg, w, v);
      assert RepliesOk(v) by { RepliesSame(w, v); }
    }
  }

  lemma {:induction false} RepliesSame(w: World, v: World)
    requires RepliesOk(w) && v.replies == w.replies && v.sent == w.sent && v.holder == w.holder && v.server == w.server
    ensures RepliesOk(v)
  {
  }

  // ---- all runs ----

  lemma {:induction false} StepKeeps(cfg: Config, w: World, e: Event)
    requires Inv(cfg, w) && Enabled(cfg, w, e)
    ensures Inv(cfg, Next(cfg, w, e))
  {
    hide Inv;
    match e
    case Join => JoinKeeps(cfg, w);
    case ReadRound => ReadKeeps(cfg, w, e);
    case ReadStarted => ReadKeeps(cfg, w, e);
    case PollClients(_) => ReadKeeps(cfg, w, e);
    case OpenRound(now) => OpenKeeps(cfg, w, now);
    case SendNext(delivered) => SendKeeps(cfg, w, delivered);
    case Post(key) => PostKeeps(cfg, w, key);
    case UpdateStats(key) => StatsKeeps(cfg, w, key);
    case CheckRound(key) => CheckKeeps(cfg, w, key);
    case Accumulate(key) => AccumulateKeeps(cfg, w, key);
    case Average => AverageKeeps(cfg, w);
    case Record(now) => RecordKeeps(cfg, w, now);
    case Reset => ResetKeeps(cfg, w);
  }

  lemma {:induction false} RunKeeps(cfg: Config, buffer: Params, run: seq<Event>)
    requires cfg.Valid() && |buffer| == |cfg.initial| && Run(cfg, buffer, run).Some?
    ensures Inv(cfg, Run(cfg, buffer, run).value)
  {
    hide Inv, Next, Enabled;
    if run == [] {
      StartInv(cfg, buffer);
    } else {
      var before := run[..|run| - 1];
      RunKeeps(cfg, buffer, before);
      StepKeeps(cfg, Run(cfg, buffer, before).value, run[|run| - 1]);
    }
  }

  // ---- what follows for every run ----

  /** How many rounds have had their results recorded. */
  function Completed(w: World): nat
  {
    |w.server.accuracies|
  }

  /** No interleaving turns a reply away, and one that passed the round check, in its own
      critical section, is added to that same round, in a later one. */
  lemma {:induction false} NoStaleReply(cfg: Config, buffer: Params, run: seq<Event>, key: Key)
    requires cfg.Valid() && |buffer| == |cfg.initial| && Run(cfg, buffer, run).Some?
    requires key in Run(cfg, buffer, run).value.replies
    ensures var w := Run(cfg, buffer, run).value;
      && w.replies[key] !in {Skipped, Late}
      && (w.replies[key] != Counted ==> w.server.started && key.1 == w.server.round)
      && (Enabled(cfg, w, Accumulate(key)) ==>
            var v := Next(cfg, w, Accumulate(key));
            && 1 <= key.1 <= |w.log| && |v.log| == |w.log| && key.0 !in Heard(w, key.1, 3)
            && Heard(v, key.1, 3) == Heard(w, key.1, 3) + {key.0} && v.server.responded == w.server.responded + 1)
  {
    hide Model, Heard, Inv;
    RunKeeps(cfg, buffer, run);
    var w := Run(cfg, buffer, run).value;
    assert w.replies[key] !in {Skipped, Late} && (w.replies[key] != Counted ==> IsOpen(w, key.1)) by {
      InvReply(cfg, w, key);
    }
    if Enabled(cfg, w, Accumulate(key)) {
      AddedToItsRound(cfg, w, key);
      var v, stage := Added(cfg, w, key);
      HeardGrows(w, v, key, stage);
    }
  }

  lemma {:induction false} InvReply(cfg: Config, w: World, key: Key)
    requires Inv(cfg, w) && key in w.replies
    ensures w.replies[key] !in {Skipped, Late} && (w.replies[key] != Counted ==> IsOpen(w, key.1)) && key in w.sent
  {
    hide Model, Heard, ResultsOk, StatsOk;
  }

  /** Whatever the interleaving, the server computes synchronous federated averaging: its
      model is that of the completed rounds, and during a round the buffer is the sum of the
      replies that have been added. */
  lemma {:induction false} RunIsFedAvg(cfg: Config, buffer: Params, run: seq<Event>)
    requires cfg.Valid() && |buffer| == |cfg.initial| && Run(cfg, buffer, run).Some?
    ensures var w := Run(cfg, buffer, run).value;
      && |w.log| == w.server.round <= cfg.rounds && (w.server.started ==> w.server.round > 0)
      && (forall r :: 0 <= r < |w.log| ==> |w.log[r]| == cfg.perRound)
      && w.server.model ==
         Model(cfg, w.log[..if w.server.started && !Written(w) then w.server.round - 1 else w.server.round])
      && (w.server.started && w.server.responded > 0 && !Written(w) ==>
            && |w.server.buffer| == |cfg.initial|
            && forall i :: 0 <= i < |cfg.initial| ==>
              w.server.buffer[i]
              == Total(cfg, Heard(w, w.server.round, 3), w.server.round, Model(cfg, w.log[..w.server.round - 1]), i))
  {
    hide Model, Total, Heard, Next, Enabled, Run, SentOk, RepliesOk, FinishedOk, CountsOk, StatsOk, HistoryOk;
    RunKeeps(cfg, buffer, run);
  }

  /** Two runs with the same participants end with the same model and the same history of
      scores, in whatever order the replies came. */
  lemma {:induction false} OrderDoesNotMatter(cfg: Config, a: Params, run: seq<Event>, b: Params, other: seq<Event>)
    requires cfg.Valid() && |a| == |b| == |cfg.initial|
    requires Run(cfg, a, run).Some? && Run(cfg, b, other).Some?
    requires Run(cfg, a, run).value.log == Run(cfg, b, other).value.log
    requires !Run(cfg, a, run).value.server.started && !Run(cfg, b, other).value.server.started
    ensures Run(cfg, a, run).value.server.model == Run(cfg, b, other).value.server.model
    ensures Run(cfg, a, run).value.server.accuracies == Run(cfg, b, other).value.server.accuracies
    ensures Run(cfg, a, run).value.server.losses == Run(cfg, b, other).value.server.losses
  {
    hide Model, Heard, Next, Enabled, Run, SentOk, RepliesOk, FinishedOk, CountsOk, StatsOk, BufferOk;
    RunKeeps(cfg, a, run);
    RunKeeps(cfg, b, other);
  }

  /** All requests of round `r` carry one model: the mean of the replies of the round before,
      or the initial model. */
  lemma {:induction false} ConsistentBroadcast(cfg: Config, buffer: Params, run: seq<Event>, c: nat, d: nat, r: nat)
    requires cfg.Valid() && |buffer| == |cfg.initial| && Run(cfg, buffer, run).Some?
    requires (c, r) in Run(cfg, buffer, run).value.sent && (d, r) in Run(cfg, buffer, run).value.sent
    ensures var w := Run(cfg, buffer, run).value;
      && w.sent[(c, r)] == w.sent[(d, r)] && 1 <= r <= |w.log| && c in w.log[r - 1]
      && (r > 1 ==> w.log[r - 2] != {})
      && w.sent[(c, r)] == (if r == 1 then cfg.initial
                            else Mean(cfg, w.log[r - 2], r - 1, Model(cfg, w.log[..r - 2])))
  {
    hide Mean, Heard, Next, Enabled, Run, RepliesOk, FinishedOk, CountsOk, ResultsOk, StatsOk;
    RunKeeps(cfg, buffer, run);
    var w := Run(cfg, buffer, run).value;
    assert w.sent[(c, r)] == w.sent[(d, r)] == Model(cfg, w.log[..r - 1]);
    if r > 1 {
      assert w.log[..r - 1][..r - 2] == w.log[..r - 2];
      ModelLast(cfg, w.log[..r - 1]);
    }
  }

  /** Histories stay aligned: one entry a completed round, and the statistics of every
      participant of it, each once. */
  lemma {:induction false} HistoriesAligned(cfg: Config, buffer: Params, run: seq<Event>)
    requires cfg.Valid() && |buffer| == |cfg.initial| && Run(cfg, buffer, run).Some?
    ensures var w := Run(cfg, buffer, run).value;
      && |w.server.times| == |w.server.accuracies| == |w.server.losses| == Completed(w)
      && Completed(w) <= w.server.round <= Completed(w) + 1 && w.server.round <= cfg.rounds
      && Completed(w) <= |w.server.stats| <= Completed(w) + 1
      && |w.log| == w.server.round
      && (forall r :: 0 <= r < Completed(w) ==>
            && multiset(w.server.stats[r]) == multiset(w.log[r]) && |w.server.stats[r]| == cfg.perRound)
      && (forall r :: 0 <= r < Completed(w) ==>
            && w.server.accuracies[r] == cfg.accuracy(Model(cfg, w.log[..r + 1]))
            && w.server.losses[r] == cfg.loss(Model(cfg, w.log[..r + 1])))
      && |w.closings| == Completed(w) && |w.openings| == w.server.round
      && (forall r :: 0 <= r < Completed(w) ==> w.server.times[r] == w.closings[r] - w.openings[r])
  {
    hide Model, Next, Enabled, Run, SentOk, RepliesOk, ModelOk, BufferOk;
    RunKeeps(cfg, buffer, run);
    var w := Run(cfg, buffer, run).value;
    forall r | 0 <= r < Completed(w)
      ensures |w.server.stats| > r && multiset(w.server.stats[r]) == multiset(w.log[r])
      ensures |w.server.stats[r]| == cfg.perRound
    {
      StatsComplete(cfg, w, r + 1);
    }
  }

  lemma {:induction false} StatsComplete(cfg: Config, w: World, r: nat)
    requires Inv(cfg, w) && 1 <= r <= Completed(w)
    ensures r <= |w.server.stats| && multiset(w.server.stats[r - 1]) == multiset(w.log[r - 1])
    ensures |w.server.stats[r - 1]| == cfg.perRound
  {
    hide Model, SentOk, RepliesOk, ModelOk, BufferOk, Heard;
    if IsOpen(w, r) {
      AllHeard(cfg, w);
    }
    HeardLess(w, r);
    HeardWithin(w, r, 1);
    assert Heard(w, r, 1) == w.log[r - 1];
    assert |multiset(w.server.stats[r - 1])| == |w.server.stats[r - 1]|;
    assert |multiset(w.log[r - 1])| == |w.log[r - 1]|;
  }

  /** The one slot that `update_stats` can add is always enough. */
  lemma {:induction false} SlotExists(cfg: Config, buffer: Params, run: seq<Event>, key: Key)
    requires cfg.Valid() && |buffer| == |cfg.initial| && Run(cfg, buffer, run).Some?
    requires Enabled(cfg, Run(cfg, buffer, run).value, UpdateStats(key))
    ensures 1 <= key.1 <= |Run(cfg, buffer, run).value.server.stats| + 1
  {
    hide Model, Next, Run, SentOk, ResultsOk, Heard;
    RunKeeps(cfg, buffer, run);
    StillOpen(cfg, Run(cfg, buffer, run).value, key);
  }

  /** An open round whose requests have been delivered is never stuck: some participant has
      yet to answer, or the handler of some answer can take its next step. */
  lemma {:induction false} NeverStuck(cfg: Config, buffer: Params, run: seq<Event>) returns (e: Event)
    requires cfg.Valid() && |buffer| == |cfg.initial| && Run(cfg, buffer, run).Some?
    requires Run(cfg, buffer, run).value.server.started
    requires var w := Run(cfg, buffer, run).value;
      |w.log| > 0 && forall c :: c in w.log[|w.log| - 1] ==> (c, |w.log|) in w.sent
    ensures Enabled(cfg, Run(cfg, buffer, run).value, e)
    ensures e.Post? || e.UpdateStats? || e.CheckRound? || e.Accumulate? || e.Average? || e.Record? || e.Reset?
  {
    hide Model, Next, Run, SentOk, ResultsOk, StatsOk, FinishedOk, Heard;
    RunKeeps(cfg, buffer, run);
    var w := Run(cfg, buffer, run).value;
    if w.holder.Some? {
      AllHeard(cfg, w);
      var stage := w.replies[w.holder.value];
      e := if stage == Closing then Average else if stage == Averaged then Record(0) else Reset;
    } else {
      var c := Missing(w);
      var key: Key := (c, |w.log|);
      e := if key !in w.replies then Post(key)
           else if w.replies[key] == Arrived then UpdateStats(key)
           else if w.replies[key] == Recorded then CheckRound(key)
           else Accumulate(key);
      MissingRank(w, key);
    }
  }

  lemma {:induction false} Missing(w: World) returns (c: nat)
    requires |w.log| > 0 && |Heard(w, |w.log|, 3)| < |w.log[|w.log| - 1]|
    ensures c in w.log[|w.log| - 1] && c !in Heard(w, |w.log|, 3)
  {
    hide Heard;
    var all, heard := w.log[|w.log| - 1], Heard(w, |w.log|, 3);
    if all <= heard {
      SubsetSize(all, heard);
      assert false;
    }
    c :| c in all && c !in heard;
  }

  lemma {:induction false} MissingRank(w: World, key: Key)
    requires key.1 == |w.log| > 0 && key.0 in w.log[key.1 - 1] && key.0 !in Heard(w, key.1, 3)
    ensures key in w.replies ==> w.replies[key] in {Arrived, Recorded, Passed, Skipped, Late}
  {
  }

  /** What runs never come to: in whatever state, a reply for another round, or one that comes while a
      round is averaged, is turned away and leaves the server as it is. */
  lemma {:induction false} TurnedAway(cfg: Config, w: World, key: Key)
    ensures Enabled(cfg, w, CheckRound(key)) && key.1 != w.server.round ==>
      var v := Next(cfg, w, CheckRound(key));
      v.server == w.server && v.replies[key] == Skipped && !Enabled(cfg, v, Accumulate(key))
    ensures Enabled(cfg, w, Accumulate(key)) && w.server.averaging ==>
      var v := Next(cfg, w, Accumulate(key));
      v.server == w.server && v.holder == w.holder && v.replies[key] == Late
  {
  }

  /** Why a client must answer only once: a second copy of the same reply would close a round of
      two participants with the model of one of them. */
  lemma {:induction false} AnsweringTwice(s: Server, reply: Params)
    requires !s.averaging && s.responded == 0 && s.participants == 2 && |reply| == |s.buffer|
    ensures !s.Accumulate(reply).averaging
    ensures var t := s.Accumulate(reply).Accumulate(reply); t.averaging && t.Average().model == reply
  {
    var one := s.Accumulate(reply);
    assert one.buffer == reply;
    var two := one.Accumulate(reply);
    forall i | 0 <= i < |reply| ensures two.Average().model[i] == reply[i] {
      assert two.buffer[i] == reply[i] + reply[i];
    }
  }
}
