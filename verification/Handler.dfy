/** The critical sections of zflserver as they run, on one server object with arrays that are
    updated in place. Module Rounds says what they do to the values. */
module Handler {
  import opened FedAvg
  import Rounds

  class Server {
    var started: bool
    var averaging: bool
    var startTime: int
    var round: nat
    var participants: nat
    var responded: nat
    const buffer: array<real>
    const model: array<real>
    var stats: seq<seq<nat>>
    var times: seq<int>
    var accuracies: seq<real>
    var losses: seq<real>

    ghost predicate Valid()
    {
      buffer != model && buffer.Length == model.Length
    }

    ghost function View(): Rounds.Server
      reads this, buffer, model
    {
      Rounds.Server(started, averaging, round, participants, responded, startTime,
                    buffer[..], model[..], stats, times, accuracies, losses)
    }

    constructor (initial: Params)
      ensures Valid() && fresh(buffer) && fresh(model)
      ensures View() == Rounds.Server(false, false, 0, 0, 0, 0, buffer[..], initial, [], [], [], [])
      ensures |buffer[..]| == |initial|
    {
      started, averaging, startTime, round, participants, responded := false, false, 0, 0, 0, 0;
      stats, times, accuracies, losses := [], [], [], [];
      buffer := new real[|initial|];
      var m := new real[|initial|](i requires 0 <= i < |initial| => initial[i]);
      model := m;
      new;
      assert model[..] == initial;
    }

    method UpdateStats(c: nat, r: nat)
      requires Valid() && 1 <= r <= |stats| + 1
      modifies this`stats
      ensures View() == old(View()).UpdateStats(c, r)
    {
      if |stats| < r {
        stats := stats + [[]];
      }
      stats := stats[r - 1 := stats[r - 1] + [c]];
    }

    /** The round check; nothing is kept locked after it. */
    method CheckRound(r: nat) returns (current: bool)
      ensures current == (r == round)
    {
      current := r == round;
    }

    /** `parse_weights_json` on the flattened parameters. */
    method AddParams(reply: Params, accum: bool)
      requires Valid() && |reply| == buffer.Length
      modifies buffer
      ensures buffer[..] == Rounds.Plus(if accum then old(buffer[..]) else seq(buffer.Length, _ => 0.0), reply)
    {
      if !accum {
        for i := 0 to buffer.Length
          invariant forall k :: 0 <= k < i ==> buffer[k] == 0.0
        {
          buffer[i] := 0.0;
        }
      }
      ghost var start := buffer[..];
      assert start == if accum then old(buffer[..]) else seq(buffer.Length, _ => 0.0);
      for i := 0 to buffer.Length
        invariant forall k :: 0 <= k < i ==> buffer[k] == start[k] + reply[k]
        invariant forall k :: i <= k < buffer.Length ==> buffer[k] == start[k]
      {
        buffer[i] := buffer[i] + reply[i];
      }
    }

    /** Adds a reply under `result_mutex`, unless the round is being averaged. */
    method Accumulate(reply: Params) returns (added: bool)
      requires Valid() && |reply| == buffer.Length
      modifies this`responded, this`averaging, buffer
      ensures added == !old(averaging)
      ensures View() == if added then old(View()).Accumulate(reply) else old(View())
    {
      if averaging {
        return false;
      }
      AddParams(reply, responded != 0);
      responded := responded + 1;
      averaging := responded == participants;
      return true;
    }

    /** Divides the sums by the number of participants and copies them into the model. */
    method Average()
      requires Valid() && participants > 0
      modifies buffer, model
      ensures View() == old(View()).Average()
    {
      ghost var sum := buffer[..];
      for i := 0 to buffer.Length
        invariant forall k :: 0 <= k < i ==> buffer[k] == sum[k] / participants as real
        invariant forall k :: i <= k < buffer.Length ==> buffer[k] == sum[k]
      {
        buffer[i] := buffer[i] / participants as real;
      }
      ghost var mean := Rounds.Scale(sum, participants);
      assert buffer[..] == mean;
      for i := 0 to model.Length
        invariant buffer[..] == mean
        invariant forall k :: 0 <= k < i ==> model[k] == buffer[k]
      {
        model[i] := buffer[i];
      }
      assert model[..] == mean;
    }

    method Record(now: int, accuracy: real, loss: real)
      requires Valid()
      modifies this`times, this`accuracies, this`losses
      ensures View() == old(View()).Record(now, accuracy, loss)
    {
      times := times + [now - startTime];
      accuracies := accuracies + [accuracy];
      losses := losses + [loss];
    }

    method Reset()
      requires Valid()
      modifies this`started, this`averaging, this`responded
      ensures View() == old(View()).Reset()
    {
      started := false;
      averaging := false;
      responded := 0;
    }

    method Open(ready: nat, now: int)
      requires Valid()
      modifies this`started, this`startTime, this`round, this`participants
      ensures View() == old(View()).Open(ready, now)
    {
      started := true;
      startTime := now;
      round := round + 1;
      participants := ready;
    }

    /** `handle_results` when nothing comes between its critical sections: the reply of
        client `c` for round `r`. `score` is what the test set makes of a model. */
    method HandleResults(c: nat, r: nat, reply: Params, now: int, score: Params -> (real, real)) returns (added: bool)
      requires Valid() && 1 <= r <= |stats| + 1 && |reply| == buffer.Length
      modifies this, buffer, model
      ensures Valid() && added == (r == old(round) && !old(averaging))
      ensures var s := old(View()).UpdateStats(c, r);
        View() ==
          if !added then s
          else if s.responded + 1 != s.participants then s.Accumulate(reply)
          else
            var t := s.Accumulate(reply).Average();
            t.Record(now, score(t.model).0, score(t.model).1).Reset()
    {
      UpdateStats(c, r);
      added := CheckRound(r);
      if !added {
        return;
      }
      added := Accumulate(reply);
      if !added {
        return;
      }
      if averaging {
        Average();
        var s := score(model[..]);
        Record(now, s.0, s.1);
        Reset();
      }
    }
  }
}
