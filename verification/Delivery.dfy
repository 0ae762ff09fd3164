/** What becomes of the requests of a round: who is sent one, after how many tries, and how a round
    is opened and completed. */
module Delivery {
  import opened FedAvg
  import opened Options
  import opened Rounds

  // ---- who is sent a request ----

  /** The client is one of those that were ready when its round was opened. */
  ghost predicate Takes(w: World, key: Key)
  {
    1 <= key.1 <= |w.log| && key.0 in w.log[key.1 - 1]
  }

  /** The round thread has yet to finish with this client. */
  predicate Pending(w: World, key: Key)
  {
    w.control.Send? && key.1 == |w.log| && key.0 >= w.control.next
  }

  /** A participant whose turn is over was sent its request, after at most two failed tries, or all
      three tries failed; the one whose turn it is has only failed tries so far, fewer than three;
      nobody else has been tried. */
  ghost predicate Served(w: World, key: Key)
  {
    var tries := w.tried[key];
    if !Takes(w, key) then tries == 0 && key !in w.sent
    else if Pending(w, key) then
      key !in w.sent && if key.0 == w.control.next then tries == w.control.tries < 3 else tries == 0
    else if key in w.sent then 1 <= tries <= 3
    else tries == 3
  }

  ghost predicate AllServed(w: World)
  {
    forall key: Key :: Served(w, key)
  }

  lemma {:induction false} StartServed(cfg: Config, buffer: Params)
    ensures AllServed(Start(cfg, buffer))
  {
  }

  /** Steps that neither send nor open a round. */
  lemma {:induction false} StillServed(w: World, v: World)
    requires AllServed(w) && v.log == w.log && v.sent == w.sent && v.tried == w.tried
    requires v.control == w.control || !(v.control.Send? || w.control.Send?)
    ensures AllServed(v)
  {
    forall key: Key ensures Served(v, key) {
      assert Served(w, key);
    }
  }

  lemma {:induction false} OpenServes(cfg: Config, w: World, now: int)
    requires AllServed(w) && w.control == Polled
    ensures AllServed(Next(cfg, w, OpenRound(now)))
  {
    var v := Next(cfg, w, OpenRound(now));
    forall key: Key ensures Served(v, key) {
      assert Served(w, key);
    }
  }

  lemma {:induction false} SendServes(cfg: Config, w: World, delivered: bool)
    requires Inv(cfg, w) && AllServed(w) && w.control.Send?
    ensures AllServed(SendStep(w, delivered))
  {
    hide Model, SentOk, RepliesOk, CountsOk, FinishedOk, ResultsOk, StatsOk;
    var v := SendStep(w, delivered);
    assert Served(w, (w.control.next, w.server.round));
    forall key: Key ensures Served(v, key) {
      assert Served(w, key);
    }
  }

  lemma {:induction false} StepServes(cfg: Config, w: World, e: Event)
    requires Inv(cfg, w) && AllServed(w) && Enabled(cfg, w, e)
    ensures AllServed(Next(cfg, w, e))
  {
    hide Inv, AllServed;
    match e
    case OpenRound(now) => OpenServes(cfg, w, now);
    case SendNext(delivered) => SendServes(cfg, w, delivered);
    case _ => StillServed(w, Next(cfg, w, e));
  }

  /** In every run: whoever was ready when a round was opened is tried in its turn, and nobody else
      is; when its turn is over its request has been delivered, unless three tries failed. */
  lemma {:induction false} EveryoneServed(cfg: Config, buffer: Params, run: seq<Event>)
    requires cfg.Valid() && |buffer| == |cfg.initial| && Run(cfg, buffer, run).Some?
    ensures AllServed(Run(cfg, buffer, run).value)
  {
    hide Inv, Next, Enabled, AllServed;
    if run == [] {
      StartServed(cfg, buffer);
    } else {
      var before := run[..|run| - 1];
      EveryoneServed(cfg, buffer, before);
      RunKeeps(cfg, buffer, before);
      StepServes(cfg, Run(cfg, buffer, before).value, run[|run| - 1]);
    }
  }

  // ---- a round is opened ----

  lemma {:induction false} RunMore(cfg: Config, buffer: Params, run: seq<Event>, w: World, e: Event)
    requires Run(cfg, buffer, run) == Some(w) && Enabled(cfg, w, e)
    ensures Run(cfg, buffer, run + [e]) == Some(Next(cfg, w, e))
  {
    hide Next, Enabled;
    assert (run + [e])[..|run|] == run;
  }

  /** The steps of the round thread up to the one that may open a round. */
  function Opening(answers: seq<bool>, now: int): seq<Event>
  {
    [ReadRound, ReadStarted, PollClients(answers), OpenRound(now)]
  }

  /** Every try is delivered, to `n` clients one after another. */
  function Deliveries(n: nat): seq<Event>
  {
    seq(n, _ => SendNext(true))
  }

  /** The step that may open a round. */
  lemma {:induction false} Opened(cfg: Config, buffer: Params, run: seq<Event>, w: World, answers: seq<bool>, now: int)
      returns (v: World)
    requires Run(cfg, buffer, run) == Some(w) && w.control == Top && !w.server.started && w.server.round < cfg.rounds
    requires |answers| == |w.ready|
    ensures Run(cfg, buffer, run + Opening(answers, now)) == Some(v)
    ensures v == if |Ready(answers)| == cfg.perRound
      then w.(server := w.server.Open(cfg.perRound, now), control := Send(0, 0), ready := answers,
              clientsReady := cfg.perRound, log := w.log + [Ready(answers)], openings := w.openings + [now])
      else w.(ready := answers, clientsReady := |Ready(answers)|)
  {
    hide Run, Ready;
    RunMore(cfg, buffer, run, w, ReadRound);
    var a := Next(cfg, w, ReadRound);
    RunMore(cfg, buffer, run + [ReadRound], a, ReadStarted);
    var b := Next(cfg, a, ReadStarted);
    RunMore(cfg, buffer, run + [ReadRound] + [ReadStarted], b, PollClients(answers));
    var c := Next(cfg, b, PollClients(answers));
    RunMore(cfg, buffer, run + [ReadRound] + [ReadStarted] + [PollClients(answers)], c, OpenRound(now));
    v := Next(cfg, c, OpenRound(now));
    assert run + [ReadRound] + [ReadStarted] + [PollClients(answers)] + [OpenRound(now)]
        == run + Opening(answers, now);
  }

  /** The requests sent once the first `n` clients have had their turn. */
  ghost predicate SentTo(u: World, v: World, n: nat)
  {
    && (forall key: Key :: key in v.sent <==>
          key in u.sent || (key.1 == u.server.round && key.0 < n && key.0 < |u.ready| && u.ready[key.0]))
    && (forall key: Key :: key in u.sent && key.1 != u.server.round ==> v.sent[key] == u.sent[key])
    && (forall key: Key :: key in v.sent && key.1 == u.server.round ==> v.sent[key] == u.server.model)
  }

  lemma {:induction false} DeliverNext(u: World, v: World, k: nat)
    requires u.control.Send? && v == u.(control := Send(k, 0), sent := v.sent, tried := v.tried)
    requires SentTo(u, v, k) && k <= |u.ready|
    ensures var x := SendStep(v, true);
      x == u.(control := if k < |u.ready| then Send(k + 1, 0) else Top, sent := x.sent, tried := x.tried)
      && SentTo(u, x, k + 1)
  {
  }

  lemma {:induction false} Delivered(cfg: Config, buffer: Params, run: seq<Event>, u: World) returns (v: World)
    requires Run(cfg, buffer, run) == Some(u) && u.control == Send(0, 0)
    requires forall key :: key in u.sent ==> key.1 != u.server.round
    ensures Run(cfg, buffer, run + Deliveries(|u.ready| + 1)) == Some(v)
    ensures v == u.(control := Top, sent := v.sent, tried := v.tried) && SentTo(u, v, |u.ready|)
  {
    hide Run, SendStep, SentTo;
    v := u;
    var more: seq<Event> := [];
    assert run + more == run;
    assert SentTo(u, v, 0) by { NothingSent(u); }
    for k := 0 to |u.ready|
      invariant Run(cfg, buffer, run + more) == Some(v) && more == Deliveries(k)
      invariant v == u.(control := Send(k, 0), sent := v.sent, tried := v.tried) && SentTo(u, v, k)
    {
      DeliverNext(u, v, k);
      RunMore(cfg, buffer, run + more, v, SendNext(true));
      assert run + more + [SendNext(true)] == run + (more + [SendNext(true)]);
      more, v := more + [SendNext(true)], SendStep(v, true);
    }
    DeliverNext(u, v, |u.ready|);
    RunMore(cfg, buffer, run + more, v, SendNext(true));
    assert run + more + [SendNext(true)] == run + Deliveries(|u.ready| + 1);
    v := SendStep(v, true);
    SentToAll(u, v);
  }

  lemma {:induction false} NothingSent(u: World)
    requires forall key :: key in u.sent ==> key.1 != u.server.round
    ensures SentTo(u, u, 0)
  {
  }

  lemma {:induction false} SentToAll(u: World, v: World)
    requires SentTo(u, v, |u.ready| + 1)
    ensures SentTo(u, v, |u.ready|)
  {
  }

  /** When polling finds just as many clients ready as a round takes, a round is opened; and when every
      try is delivered, the thread is back at its top with a request sent to each of them, and to
      nobody else, that carries the model. Any other number opens no round. */
  lemma {:induction false} RoundOpens(cfg: Config, buffer: Params, run: seq<Event>, answers: seq<bool>, now: int)
    requires cfg.Valid() && |buffer| == |cfg.initial| && Run(cfg, buffer, run).Some?
    requires var w := Run(cfg, buffer, run).value;
      w.control == Top && !w.server.started && w.server.round < cfg.rounds && |answers| == |w.ready|
    ensures var w := Run(cfg, buffer, run).value;
      var end := Run(cfg, buffer, run + Opening(answers, now) + Deliveries(|answers| + 1));
      |set c | 0 <= c < |answers| && answers[c]| == cfg.perRound ==>
        && end.Some? && end.value.control == Top
        && end.value.server == w.server.(started := true, startTime := now, round := w.server.round + 1,
                                            participants := cfg.perRound)
        && end.value.log == w.log + [set c | 0 <= c < |answers| && answers[c]]
        && end.value.replies == w.replies && end.value.openings == w.openings + [now]
        && (forall key: Key :: key in end.value.sent <==>
              key in w.sent || (key.1 == w.server.round + 1 && key.0 < |answers| && answers[key.0]))
        && (forall key: Key :: key in w.sent ==> end.value.sent[key] == w.sent[key])
        && (forall key: Key :: key in end.value.sent && key !in w.sent ==>
              end.value.sent[key] == w.server.model)
    ensures var w := Run(cfg, buffer, run).value;
      |set c | 0 <= c < |answers| && answers[c]| != cfg.perRound ==>
        Run(cfg, buffer, run + Opening(answers, now))
        == Some(w.(ready := answers, clientsReady := |set c | 0 <= c < |answers| && answers[c]|))
  {
    hide Run, Inv, Deliveries, Opening;
    RunKeeps(cfg, buffer, run);
    var w := Run(cfg, buffer, run).value;
    SentBefore(cfg, w);
    var u := Opened(cfg, buffer, run, w, answers, now);
    assert Ready(answers) == set c | 0 <= c < |answers| && answers[c];
    if |Ready(answers)| == cfg.perRound {
      var v := Delivered(cfg, buffer, run + Opening(answers, now), u);
    }
  }

  /** While a round is open the thread goes back to its top; once all rounds have been opened it ends,
      for good, and no round is opened any more. */
  lemma {:induction false} NoRoundOpens(cfg: Config, buffer: Params, run: seq<Event>, more: seq<Event>)
    requires Run(cfg, buffer, run).Some?
    ensures var w := Run(cfg, buffer, run).value;
      w.control == Top && w.server.started && w.server.round < cfg.rounds ==>
        Run(cfg, buffer, run + [ReadRound] + [ReadStarted]) == Some(w)
    ensures var w := Run(cfg, buffer, run).value;
      w.control == Top && w.server.round >= cfg.rounds ==>
        Run(cfg, buffer, run + [ReadRound]) == Some(w.(control := Exited))
    ensures Run(cfg, buffer, run).value.control == Exited && Run(cfg, buffer, run + more).Some? ==>
      Run(cfg, buffer, run + more).value.control == Exited
      && Run(cfg, buffer, run + more).value.log == Run(cfg, buffer, run).value.log
  {
    hide Run;
    var w := Run(cfg, buffer, run).value;
    if w.control == Top {
      RunMore(cfg, buffer, run, w, ReadRound);
      if w.server.started && w.server.round < cfg.rounds {
        RunMore(cfg, buffer, run + [ReadRound], Next(cfg, w, ReadRound), ReadStarted);
      }
    } else if w.control == Exited && Run(cfg, buffer, run + more).Some? {
      Gone(cfg, buffer, run, more);
    }
  }

  lemma {:induction false} Gone(cfg: Config, buffer: Params, run: seq<Event>, more: seq<Event>)
    requires Run(cfg, buffer, run).Some? && Run(cfg, buffer, run + more).Some?
    requires Run(cfg, buffer, run).value.control == Exited
    ensures var w, v := Run(cfg, buffer, run).value, Run(cfg, buffer, run + more).value;
      v.control == Exited && v.log == w.log
    decreases |more|
  {
    hide Run;
    if more == [] {
      assert run + more == run;
    } else {
      var n := |more| - 1;
      assert run + more == run + more[..n] + [more[n]];
      var u := LastStep(cfg, buffer, run + more[..n], more[n]);
      Gone(cfg, buffer, run, more[..n]);
    }
  }

  lemma {:induction false} SentBefore(cfg: Config, w: World)
    requires Inv(cfg, w)
    ensures forall key :: key in w.sent ==> key.1 <= w.server.round
  {
    hide Model, RepliesOk, CountsOk, FinishedOk, ResultsOk, StatsOk;
  }

  // ---- a round is completed ----

  /** How far all handlers of the current round have come together. */
  ghost function Done(w: World): nat
    requires |w.log| > 0
  {
    var r := |w.log|;
    |Heard(w, r, 0)| + |Heard(w, r, 1)| + |Heard(w, r, 2)| + |Heard(w, r, 3)|
  }

  /** What the holder of the mutex, or the handler that will hold it, has yet to do. */
  ghost function Closings(w: World): nat
  {
    if Holding(w, Averaged) then 2 else if Holding(w, Logged) then 1 else 3
  }

  ghost function Left(cfg: Config, w: World): int
    requires |w.log| > 0
  {
    4 * cfg.perRound - Done(w) + Closings(w)
  }

  lemma {:induction false} LeftNatural(cfg: Config, w: World)
    requires Inv(cfg, w) && |w.log| > 0
    ensures Left(cfg, w) > 0
  {
    hide Model, Heard, SentOk, RepliesOk, CountsOk, FinishedOk, ResultsOk, StatsOk;
    var r := |w.log|;
    HeardSize(w, r, 0);
    HeardSize(w, r, 1);
    HeardSize(w, r, 2);
    HeardSize(w, r, 3);
  }

  lemma {:induction false} HeardSize(w: World, r: nat, least: nat)
    requires 1 <= r <= |w.log|
    ensures |Heard(w, r, least)| <= |w.log[r - 1]|
  {
    HeardWithin(w, r, least);
    SubsetSize(Heard(w, r, least), w.log[r - 1]);
  }

  lemma {:induction false} HeardNoLess(w: World, v: World, key: Key, stage: Stage, least: nat)
    requires v.log == w.log && v.replies == w.replies[key := stage] && 1 <= key.1 == |w.log|
    requires key.0 in w.log[key.1 - 1] && (key in w.replies ==> Rank(w.replies[key]) <= Rank(stage))
    ensures |Heard(v, key.1, least)| >= |Heard(w, key.1, least)|
    ensures least == Rank(stage) && (key in w.replies ==> Rank(w.replies[key]) < least) ==>
      |Heard(v, key.1, least)| == |Heard(w, key.1, least)| + 1
  {
    hide Heard;
    HeardMoves(w, v, key, stage, key.1, least);
    SubsetSize(Heard(w, key.1, least), Heard(v, key.1, least));
    if least == Rank(stage) && (key in w.replies ==> Rank(w.replies[key]) < least) {
      NotHeard(w, key, least);
    }
  }

  /** A handler that moves on brings the round forward. */
  lemma {:induction false} MovesOn(w: World, v: World, key: Key, stage: Stage)
    requires v.log == w.log && v.replies == w.replies[key := stage] && 1 <= key.1 == |w.log|
    requires key.0 in w.log[key.1 - 1] && (key in w.replies ==> Rank(w.replies[key]) <= Rank(stage))
    ensures Done(v) >= Done(w)
    ensures (key in w.replies ==> Rank(w.replies[key]) < Rank(stage)) ==> Done(v) > Done(w)
  {
    hide Heard;
    HeardNoLess(w, v, key, stage, 0);
    HeardNoLess(w, v, key, stage, 1);
    HeardNoLess(w, v, key, stage, 2);
    HeardNoLess(w, v, key, stage, 3);
  }

  /** A step of a client or of a handler. */
  predicate Answers(e: Event)
  {
    e.Post? || e.UpdateStats? || e.CheckRound? || e.Accumulate? || e.Average? || e.Record? || e.Reset?
  }

  /** What such a step leaves as it was. */
  ghost predicate SameRound(w: World, v: World)
  {
    v.log == w.log && v.sent == w.sent && v.tried == w.tried && v.control == w.control
    && v.server.round == w.server.round
  }

  lemma {:induction false} ReplyBrings(cfg: Config, w: World, e: Event)
    requires Inv(cfg, w) && Enabled(cfg, w, e) && (e.Post? || e.UpdateStats? || e.CheckRound?)
    ensures var v := Next(cfg, w, e); SameRound(w, v) && |w.log| > 0 && Left(cfg, v) < Left(cfg, w)
  {
    hide Model, FinishedOk, ResultsOk, StatsOk, Heard, SentOk, Done;
    var v, key := Next(cfg, w, e), e.key;
    if key in w.replies {
      InvReply(cfg, w, key);
    }
    StillOpen(cfg, w, key);
    NotHolder(cfg, w, key);
    var stage := if e.Post? then Arrived else if e.UpdateStats? then Recorded else Passed;
    MovesOn(w, v, key, stage);
  }

  lemma {:induction false} AccumulateBrings(cfg: Config, w: World, key: Key)
    requires Inv(cfg, w) && Enabled(cfg, w, Accumulate(key))
    ensures var v := Next(cfg, w, Accumulate(key)); SameRound(w, v) && |w.log| > 0 && Left(cfg, v) < Left(cfg, w)
  {
    hide Model, FinishedOk, ResultsOk, StatsOk, Heard, SentOk, Done, CountsOk, RepliesOk, ThreadOk, Next;
    var v, stage := Added(cfg, w, key);
    AddedToItsRound(cfg, w, key);
    MovesOn(w, v, key, stage);
  }

  lemma {:induction false} HolderBrings(cfg: Config, w: World, e: Event)
    requires Inv(cfg, w) && Enabled(cfg, w, e) && (e.Average? || e.Record? || e.Reset?)
    ensures var v := Next(cfg, w, e);
      SameRound(w, v) && |w.log| > 0 && (e.Reset? || Left(cfg, v) < Left(cfg, w)) && (e.Reset? <==> !v.server.started)
  {
    hide Model, FinishedOk, ResultsOk, StatsOk, Heard, SentOk, Done, CountsOk, RepliesOk, ThreadOk;
    AllHeard(cfg, w);
    var v := Next(cfg, w, e);
    var stage := if e.Average? then Averaged else if e.Record? then Logged else Counted;
    MovesOn(w, v, w.holder.value, stage);
  }

  lemma {:induction false} AnswerBrings(cfg: Config, w: World, e: Event)
    requires Inv(cfg, w) && Enabled(cfg, w, e) && Answers(e)
    ensures var v := Next(cfg, w, e);
      SameRound(w, v) && |w.log| > 0 && (v.server.started ==> Left(cfg, v) < Left(cfg, w))
  {
    hide Inv, Next, Enabled, Left, SameRound;
    if e.Post? || e.UpdateStats? || e.CheckRound? {
      ReplyBrings(cfg, w, e);
    } else if e.Accumulate? {
      AccumulateBrings(cfg, w, e.key);
    } else {
      HolderBrings(cfg, w, e);
    }
  }

  /** An open round whose requests have been delivered can always be completed: from wherever it
      stands, clients and handlers can go on until it is over. */
  lemma {:induction false} RoundCompletes(cfg: Config, buffer: Params, run: seq<Event>) returns (more: seq<Event>)
    requires cfg.Valid() && |buffer| == |cfg.initial| && Run(cfg, buffer, run).Some?
    requires Run(cfg, buffer, run).value.server.started
    requires var w := Run(cfg, buffer, run).value;
      |w.log| > 0 && forall c :: c in w.log[|w.log| - 1] ==> (c, |w.log|) in w.sent
    ensures forall e :: e in more ==> Answers(e)
    ensures Run(cfg, buffer, run + more).Some?
    ensures var w, v := Run(cfg, buffer, run).value, Run(cfg, buffer, run + more).value;
      !v.server.started && v.log == w.log && Completed(v) == v.server.round == w.server.round
      && v.server.model == Model(cfg, w.log)
    decreases Left(cfg, Run(cfg, buffer, run).value)
  {
    hide Inv, Next, Enabled, Left, Model, Run;
    RunKeeps(cfg, buffer, run);
    var w := Run(cfg, buffer, run).value;
    LeftNatural(cfg, w);
    var e := NeverStuck(cfg, buffer, run);
    AnswerBrings(cfg, w, e);
    RunMore(cfg, buffer, run, w, e);
    var v := Next(cfg, w, e);
    if v.server.started {
      var rest := RoundCompletes(cfg, buffer, run + [e]);
      assert run + [e] + rest == run + ([e] + rest);
      more := [e] + rest;
    } else {
      more := [e];
      RunKeeps(cfg, buffer, run + [e]);
      RoundOver(cfg, v);
    }
  }

  lemma {:induction false} RoundOver(cfg: Config, w: World)
    requires Inv(cfg, w) && !w.server.started
    ensures Completed(w) == w.server.round && w.server.model == Model(cfg, w.log)
  {
    hide Model, SentOk, RepliesOk, CountsOk, FinishedOk, StatsOk, BufferOk, Heard;
    assert w.log[..w.server.round] == w.log;
  }

  lemma {:induction false} OnlyWhileOpen(cfg: Config, w: World, e: Event)
    requires Inv(cfg, w) && Enabled(cfg, w, e) && Answers(e)
    ensures w.server.started && |w.log| > 0
  {
    hide Model, FinishedOk, ResultsOk, StatsOk, Heard, CountsOk;
    if e.Average? || e.Record? || e.Reset? {
      AllHeard(cfg, w);
    } else {
      StillOpen(cfg, w, e.key);
    }
  }

  /** However clients and handlers go on, they come to an end: in an open round they can take at most
      four steps for each participant, and three more. */
  lemma {:induction false} AnswersEnd(cfg: Config, buffer: Params, run: seq<Event>, more: seq<Event>)
    requires cfg.Valid() && |buffer| == |cfg.initial| && Run(cfg, buffer, run).Some?
    requires Run(cfg, buffer, run).value.server.started && Run(cfg, buffer, run + more).Some?
    requires forall e :: e in more ==> Answers(e)
    ensures |more| <= 4 * cfg.perRound + 3
  {
    hide Inv, Next, Enabled, Left, Run;
    var w := Run(cfg, buffer, run).value;
    RunKeeps(cfg, buffer, run);
    OpenLogged(cfg, w);
    LeftAtMost(cfg, w);
    StepsLeft(cfg, buffer, run, more);
    RunKeeps(cfg, buffer, run + more);
    LeftNatural(cfg, Run(cfg, buffer, run + more).value);
  }

  lemma {:induction false} OpenLogged(cfg: Config, w: World)
    requires Inv(cfg, w) && w.server.started
    ensures |w.log| > 0
  {
    hide Model, SentOk, RepliesOk, CountsOk, FinishedOk, ResultsOk, StatsOk;
  }

  lemma {:induction false} LeftAtMost(cfg: Config, w: World)
    requires |w.log| > 0
    ensures Left(cfg, w) <= 4 * cfg.perRound + 3
  {
    hide Heard;
  }

  lemma {:induction false} StepsLeft(cfg: Config, buffer: Params, run: seq<Event>, more: seq<Event>)
    requires cfg.Valid() && |buffer| == |cfg.initial| && Run(cfg, buffer, run).Some?
    requires Run(cfg, buffer, run).value.server.started && Run(cfg, buffer, run + more).Some?
    requires forall e :: e in more ==> Answers(e)
    ensures var w, v := Run(cfg, buffer, run).value, Run(cfg, buffer, run + more).value;
      && |w.log| > 0 && |v.log| == |w.log|
      && |more| <= (if v.server.started then Left(cfg, w) - Left(cfg, v) else Left(cfg, w))
    decreases |more|
  {
    hide Inv, Next, Enabled, Left, Run;
    var w := Run(cfg, buffer, run).value;
    RunKeeps(cfg, buffer, run);
    OpenLogged(cfg, w);
    LeftNatural(cfg, w);
    if more == [] {
      assert run + more == run;
    } else {
      var n := |more| - 1;
      assert run + more == run + more[..n] + [more[n]];
      var u := LastStep(cfg, buffer, run + more[..n], more[n]);
      StepsLeft(cfg, buffer, run, more[..n]);
      RunKeeps(cfg, buffer, run + more[..n]);
      OnlyWhileOpen(cfg, u, more[n]);
      AnswerBrings(cfg, u, more[n]);
      LeftNatural(cfg, u);
    }
  }

  lemma {:induction false} LastStep(cfg: Config, buffer: Params, run: seq<Event>, e: Event) returns (w: World)
    requires Run(cfg, buffer, run + [e]).Some?
    ensures Run(cfg, buffer, run) == Some(w) && Enabled(cfg, w, e)
    ensures Run(cfg, buffer, run + [e]) == Some(Next(cfg, w, e))
  {
    hide Next, Enabled;
    assert (run + [e])[..|run|] == run;
    w := Run(cfg, buffer, run).value;
  }
}
