/** The clock as the message stream shows it: stamps never go back, over any run whose clock is
    monotone and whose sleeps do not end early. */
module Timestamps {
  import opened Telemetry
  import opened Sampling
  import opened Commands
  import opened RtLoop
  import opened Schedule
  import Subscriptions

  // A begin bears the time it announces, an end the time it finished, no earlier than it started.
  predicate OwnTime(m: Message) {
    match m.payload
    case CycleBegin(_, scheduledAt) => scheduledAt == m.timestamp
    case CycleEnd(_, startedAt, finishedAt) => startedAt <= finishedAt == m.timestamp
    case _ => true
  }

  ghost predicate InOrder(log: seq<Attempt>, now: nat) {
    && (forall i :: 0 <= i < |log| ==> log[i].message.timestamp <= now && OwnTime(log[i].message))
    && (forall i, j :: 0 <= i < j < |log| ==> log[i].message.timestamp <= log[j].message.timestamp)
  }

  lemma PushInOrder(o: Outputs, l: Ledger, before: nat, now: nat, p: Payload)
    requires InOrder(l.log, before) && before <= now
    requires OwnTime(Message(0, now, 0, p))
    ensures InOrder(Push(o, l, now, p).0.log, now)
  {
  }

  lemma {:induction false} SlotsInOrder(o: Outputs, l: Ledger, before: nat, rd: Readings, now: nat,
                                        s: seq<Subscriptions.Slot>, n: nat)
    requires InOrder(l.log, before) && before <= now && n <= |s|
    ensures InOrder(PublishSlots(o, l, rd, now, s, n).0.log, now)
  {
    if n > 0 { SlotsInOrder(o, l, before, rd, now, s, n - 1); }
  }

  lemma PublishInOrder(o: Outputs, l: Ledger, slots: seq<Subscriptions.Slot>, t: Tick)
    requires InOrder(l.log, t.startedAt) && t.startedAt <= t.finishedAt
    ensures InOrder(Publish(o, l, slots, t).log, t.finishedAt)
  {
    var now := t.finishedAt;
    var l1 := PublishSlots(o, l, t.readings, now, slots, |slots|).0;
    SlotsInOrder(o, l, t.startedAt, t.readings, now, slots, |slots|);
    var l2 := PublishEnd(o, l1, t.startedAt, now);
    PushInOrder(o, l1, now, now, CycleEnd(l1.cycleId, t.startedAt, now));
    PushInOrder(o, l2, now, now, Dropped(l2.cycleId, l2.droppedEvents, l2.droppedValues));
  }

  lemma CycleInOrder(cfg: Config, stream: seq<Command>, s: Loop, t: Tick, before: nat)
    requires InOrder(s.ledger.log, before) && before <= t.startedAt <= t.finishedAt
    requires t.finishedAt <= Completion(Cycle(cfg, stream, s, t).control.period, t)
    ensures InOrder(Cycle(cfg, stream, s, t).ledger.log, Completion(Cycle(cfg, stream, s, t).control.period, t))
  {
    var o := cfg.outputs;
    var c := Cycle(cfg, stream, s, t).control;
    var l0 := PublishBegin(o, s.ledger, t.startedAt);
    PushInOrder(o, s.ledger, before, t.startedAt, CycleBegin(s.ledger.cycleId, t.startedAt));
    PublishInOrder(o, l0, c.slots, t);
    if t.metrics.Some? {
      PushInOrder(o, Publish(o, l0, c.slots, t), t.finishedAt, Completion(c.period, t), Measurement(t.metrics.value));
    }
  }

  // Over every run, attempted messages are stamped in order.
  lemma {:induction false} StreamInOrder(cfg: Config, stream: seq<Command>, s: Loop, run: seq<Step>, start: nat)
    requires Execution(cfg, stream, s, run) && Clocked(start, run) && InOrder(s.ledger.log, start)
    ensures InOrder(Final(s, run).ledger.log, PreviousCompletion(start, run, |run|))
  {
    if run != [] {
      LastStep(cfg, stream, s, run);
      var front, last := run[..|run| - 1], run[|run| - 1];
      forall i | 0 <= i < |front| ensures ClockedAt(start, front, i) { assert ClockedAt(start, run, i); }
      StreamInOrder(cfg, stream, s, front, start);
      assert ClockedAt(start, run, |front|);
      assert PreviousCompletion(start, front, |front|) == PreviousCompletion(start, run, |front|);
      CycleInOrder(cfg, stream, last.before, last.tick, PreviousCompletion(start, run, |front|));
    }
  }

  lemma {:induction false} DeliveredInOrder(log: seq<Attempt>, now: nat)
    requires InOrder(log, now)
    ensures forall a :: 0 <= a < |Delivered(log)| ==> Delivered(log)[a].timestamp <= now
    ensures forall a, b :: 0 <= a < b < |Delivered(log)| ==> Delivered(log)[a].timestamp <= Delivered(log)[b].timestamp
  {
    if log != [] { DeliveredInOrder(log[..|log| - 1], log[|log| - 1].message.timestamp); }
  }

  // What the consumer pops over a run is stamped in order, and never after the last completion.
  lemma ConsumerSeesOrder(cfg: Config, stream: seq<Command>, s: Loop, run: seq<Step>, start: nat)
    requires Execution(cfg, stream, s, run) && Clocked(start, run) && InOrder(s.ledger.log, start)
    ensures var popped := Delivered(Final(s, run).ledger.log);
      && (forall a :: 0 <= a < |popped| ==> popped[a].timestamp <= PreviousCompletion(start, run, |run|))
      && (forall a, b :: 0 <= a < b < |popped| ==> popped[a].timestamp <= popped[b].timestamp)
  {
    StreamInOrder(cfg, stream, s, run, start);
    DeliveredInOrder(Final(s, run).ledger.log, PreviousCompletion(start, run, |run|));
  }

  // ---------- Across restarts ----------

  // The last completion of a history of generations, or the reading it began with.
  function LastCompletion(begin: nat, gens: seq<Generation>): nat {
    if gens == [] then begin
    else
      var g := gens[|gens| - 1];
      PreviousCompletion(g.startedAt, g.run, |g.run|)
  }

  // One monotone clock for all generations.
  ghost predicate ClockedGenerations(begin: nat, gens: seq<Generation>) {
    gens != [] ==>
      var front, g := gens[..|gens| - 1], gens[|gens| - 1];
      && ClockedGenerations(begin, front)
      && LastCompletion(begin, front) <= g.startedAt && Clocked(g.startedAt, g.run)
  }

  lemma Later(log: seq<Attempt>, before: nat, now: nat)
    requires InOrder(log, before) && before <= now
    ensures InOrder(log, now)
  {
  }

  // Over every history of starts and stops, what the consumer pops is stamped in order.
  lemma {:induction false} OrderAcrossRestarts(cfg: Config, stream: seq<Command>, s: Loop, gens: seq<Generation>,
                                               begin: nat)
    requires Generations(cfg, stream, s, gens) && ClockedGenerations(begin, gens) && InOrder(s.ledger.log, begin)
    ensures InOrder(FinalOf(s, gens).ledger.log, LastCompletion(begin, gens))
    ensures var popped := Delivered(FinalOf(s, gens).ledger.log);
      forall a, b :: 0 <= a < b < |popped| ==> popped[a].timestamp <= popped[b].timestamp
  {
    if gens != [] {
      var front, g := gens[..|gens| - 1], gens[|gens| - 1];
      OrderAcrossRestarts(cfg, stream, s, front, begin);
      var r := Restarted(FinalOf(s, front), g.startedAt);
      Later(r.ledger.log, LastCompletion(begin, front), g.startedAt);
      StreamInOrder(cfg, stream, r, g.run, g.startedAt);
    }
    DeliveredInOrder(FinalOf(s, gens).ledger.log, LastCompletion(begin, gens));
  }
}
