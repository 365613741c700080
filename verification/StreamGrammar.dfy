/** The order of attempted messages, as an automaton that reads the stream, and the proof that the
    cycle loop never leaves it. */
module StreamGrammar {
  import opened Telemetry
  import opened Sampling
  import opened Commands
  import opened RtLoop
  import Subscriptions

  // Where a reader of the stream stands. Cycle c may begin from Between(c), or, when cycle c - 1 had
  // no measurement, from Ended or Reported of cycle c - 1.
  datatype Phase =
    | Between(next: nat)
    | Open(cycle: nat, seen: set<nat>)
    | Ended(cycle: nat)
    | Reported(cycle: nat)
    | Rejected

  function Read(ph: Phase, p: Payload): Phase {
    match p
    case CycleBegin(c, _) =>
      if ph == Between(c) || (c > 0 && (ph == Ended(c - 1) || ph == Reported(c - 1))) then Open(c, {}) else Rejected
    case ValuesWritten(c, node, _, _) =>
      if ph.Open? && ph.cycle == c && node !in ph.seen then Open(c, ph.seen + {node}) else Rejected
    case CycleEnd(c, _, _) => if ph.Open? && ph.cycle == c then Ended(c) else Rejected
    case Dropped(c, _, _) => if ph == Ended(c) then Reported(c) else Rejected
    case Measurement(_) => if ph.Ended? || ph.Reported? then Between(ph.cycle + 1) else Rejected
  }

  function Scan(ph: Phase, log: seq<Attempt>): Phase {
    if log == [] then ph else Read(Scan(ph, log[..|log| - 1]), log[|log| - 1].message.payload)
  }

  // The reader is ready for cycle c to begin.
  predicate ReadyFor(ph: Phase, c: nat) {
    ph == Between(c) || (c > 0 && (ph == Ended(c - 1) || ph == Reported(c - 1)))
  }

  lemma {:induction false} ScanConcat(ph: Phase, a: seq<Attempt>, b: seq<Attempt>)
    ensures Scan(ph, a + b) == Scan(Scan(ph, a), b)
  {
    if b == [] {
      assert a + b == a;
    } else {
      assert (a + b)[..|a + b| - 1] == a + b[..|b| - 1];
      ScanConcat(ph, a, b[..|b| - 1]);
    }
  }

  lemma ScanPush(ph: Phase, o: Outputs, l: Ledger, now: nat, p: Payload)
    requires o.queue
    ensures Scan(ph, Push(o, l, now, p).0.log) == Read(Scan(ph, l.log), p)
    ensures Push(o, l, now, p).0.cycleId == l.cycleId
  {
    var log := Push(o, l, now, p).0.log;
    assert log[..|log| - 1] == l.log;
  }

  function Nodes(bs: seq<NodeBatch>): set<nat> {
    set i | 0 <= i < |bs| :: bs[i].nodeId
  }

  lemma {:induction false} ScanBatches(c: nat, bs: seq<NodeBatch>, attempts: seq<Attempt>)
    requires Attempted(bs, c, attempts)
    requires forall i, j :: 0 <= i < j < |bs| ==> bs[i].nodeId != bs[j].nodeId
    ensures Scan(Open(c, {}), attempts) == Open(c, Nodes(bs))
  {
    if bs == [] {
      assert attempts == [];
    } else {
      var front, last := bs[..|bs| - 1], bs[|bs| - 1];
      assert forall i :: 0 <= i < |front| ==> front[i] == bs[i];
      ScanBatches(c, front, attempts[..|attempts| - 1]);
      assert last.nodeId !in Nodes(front);
      assert Nodes(bs) == Nodes(front) + {last.nodeId} by {
        assert bs[|front|] == last;
        forall id | id in Nodes(front) ensures id in Nodes(bs) {
          var i :| 0 <= i < |front| && front[i].nodeId == id;
          assert bs[i].nodeId == id;
        }
      }
    }
  }

  lemma ScanAdded(ph: Phase, c: nat, log: seq<Attempt>, added: seq<Attempt>, bs: seq<NodeBatch>)
    requires Scan(ph, log) == Open(c, {}) && Attempted(bs, c, added)
    requires forall i, j :: 0 <= i < j < |bs| ==> bs[i].nodeId != bs[j].nodeId
    ensures Scan(ph, log + added) == Open(c, Nodes(bs))
  {
    ScanConcat(ph, log, added);
    ScanBatches(c, bs, added);
  }

  // Publishing the subscriptions of a well-formed table keeps the reader inside the open cycle.
  lemma ScanPublishSlots(ph: Phase, o: Outputs, l: Ledger, rd: Readings, now: nat, s: seq<Subscriptions.Slot>)
    requires o.queue && Subscriptions.UniqueIds(s) && Scan(ph, l.log) == Open(l.cycleId, {})
    ensures var l' := PublishSlots(o, l, rd, now, s, |s|).0;
      Scan(ph, l'.log).Open? && Scan(ph, l'.log).cycle == l.cycleId
  {
    if o.values {
      var log := PublishSlots(o, l, rd, now, s, |s|).0.log;
      PublishesEveryBatch(o, l, rd, now, s, |s|);
      OneBatchPerNode(o, rd, l.cycleId, now, s, |s|);
      ScanAdded(ph, l.cycleId, l.log, log[|l.log|..], Batches(o, rd, l.cycleId, now, s, |s|));
      assert log == l.log + log[|l.log|..];
    } else {
      WithoutOutputs(o, l, rd, now, s, |s|);
    }
  }

  // Values, end and drop report close the open cycle.
  lemma PublishCloses(ph: Phase, o: Outputs, l: Ledger, slots: seq<Subscriptions.Slot>, t: Tick)
    requires o.queue && Subscriptions.UniqueIds(slots) && Scan(ph, l.log) == Open(l.cycleId, {})
    ensures var l' := Publish(o, l, slots, t);
      && l'.cycleId == l.cycleId
      && (Scan(ph, l'.log) == Ended(l.cycleId) || Scan(ph, l'.log) == Reported(l.cycleId))
  {
    var l1 := PublishSlots(o, l, t.readings, t.finishedAt, slots, |slots|).0;
    ScanPublishSlots(ph, o, l, t.readings, t.finishedAt, slots);
    var l2 := PublishEnd(o, l1, t.startedAt, t.finishedAt);
    ScanPush(ph, o, l1, t.finishedAt, CycleEnd(l.cycleId, t.startedAt, t.finishedAt));
    ScanPush(ph, o, l2, t.finishedAt, Dropped(l.cycleId, l2.droppedEvents, l2.droppedValues));
  }

  lemma DrainedTableIsUnique(cfg: Config, stream: seq<Command>, s: Loop, visible: nat)
    requires s.popped <= |stream| && Sound(cfg.settings, s.control)
    ensures Subscriptions.UniqueIds(Drain(cfg.settings, stream, s.control, s.popped, visible, cfg.budget).0.slots)
  {
    var popped := Drain(cfg.settings, stream, s.control, s.popped, visible, cfg.budget).1;
    DrainIsFold(cfg.settings, stream, s.control, s.popped, visible, cfg.budget);
    FoldKeepsSound(cfg.settings, s.control, stream[s.popped..popped]);
  }

  // Begin opens the cycle and Publish closes it, whatever table the drain in between left.
  lemma BeginAndPublish(ph: Phase, o: Outputs, l: Ledger, slots: seq<Subscriptions.Slot>, t: Tick)
    requires o.queue && Subscriptions.UniqueIds(slots) && ReadyFor(Scan(ph, l.log), l.cycleId)
    ensures var l' := Publish(o, PublishBegin(o, l, t.startedAt), slots, t);
      && l'.cycleId == l.cycleId
      && (Scan(ph, l'.log) == Ended(l.cycleId) || Scan(ph, l'.log) == Reported(l.cycleId))
  {
    ScanPush(ph, o, l, t.startedAt, CycleBegin(l.cycleId, t.startedAt));
    PublishCloses(ph, o, PublishBegin(o, l, t.startedAt), slots, t);
  }

  lemma MeasureConforms(ph: Phase, o: Outputs, l: Ledger, period: nat, t: Tick)
    requires o.queue && (Scan(ph, l.log) == Ended(l.cycleId) || Scan(ph, l.log) == Reported(l.cycleId))
    ensures var l' := Measure(o, l, period, t);
      l'.cycleId == l.cycleId && ReadyFor(Scan(ph, l'.log), l.cycleId + 1)
  {
    if t.metrics.Some? {
      ScanPush(ph, o, l, Completion(period, t), Measurement(t.metrics.value));
    }
  }

  lemma CycleLedgerConforms(ph: Phase, o: Outputs, l: Ledger, slots: seq<Subscriptions.Slot>, period: nat, t: Tick)
    requires o.queue && Subscriptions.UniqueIds(slots) && ReadyFor(Scan(ph, l.log), l.cycleId)
    ensures var l' := CycleLedger(o, l, slots, period, t);
      l'.cycleId == l.cycleId + 1 && ReadyFor(Scan(ph, l'.log), l'.cycleId)
  {
    BeginAndPublish(ph, o, l, slots, t);
    MeasureConforms(ph, o, Publish(o, PublishBegin(o, l, t.startedAt), slots, t), period, t);
  }

  // One cycle takes the reader from ready-for-c to ready-for-c-plus-one.
  lemma CycleConforms(ph: Phase, cfg: Config, stream: seq<Command>, s: Loop, t: Tick)
    requires cfg.outputs.queue && s.popped <= |stream| && Sound(cfg.settings, s.control)
    requires ReadyFor(Scan(ph, s.ledger.log), s.ledger.cycleId)
    ensures var l := Cycle(cfg, stream, s, t).ledger;
      l.cycleId == s.ledger.cycleId + 1 && ReadyFor(Scan(ph, l.log), l.cycleId)
  {
    var c := Cycle(cfg, stream, s, t).control;
    DrainedTableIsUnique(cfg, stream, s, t.visible);
    CycleLedgerConforms(ph, cfg.outputs, s.ledger, c.slots, c.period, t);
  }

  // Over every run the attempted stream is cycle after cycle of begin, at most one batch per node,
  // end, an optional drop report and an optional measurement, cycle numbers growing by one.
  lemma {:induction false} StreamConforms(ph: Phase, cfg: Config, stream: seq<Command>, s: Loop, run: seq<Step>)
    requires Execution(cfg, stream, s, run)
    requires cfg.outputs.queue && s.popped <= |stream| && Sound(cfg.settings, s.control)
    requires ReadyFor(Scan(ph, s.ledger.log), s.ledger.cycleId)
    ensures var l := Final(s, run).ledger;
      l.cycleId == s.ledger.cycleId + |run| && ReadyFor(Scan(ph, l.log), l.cycleId)
  {
    if run != [] {
      LastStep(cfg, stream, s, run);
      var front, last := run[..|run| - 1], run[|run| - 1];
      StreamConforms(ph, cfg, stream, s, front);
      RunIsFold(cfg, stream, s, front);
      FoldKeepsSound(cfg.settings, s.control, stream[s.popped..last.before.popped]);
      CycleConforms(ph, cfg, stream, last.before, last.tick);
    }
  }

  // ...and restarts continue the stream where the last generation left it.
  lemma {:induction false} StreamConformsAcrossRestarts(ph: Phase, cfg: Config, stream: seq<Command>, s: Loop,
                                                        gens: seq<Generation>)
    requires Generations(cfg, stream, s, gens)
    requires cfg.outputs.queue && s.popped <= |stream| && Sound(cfg.settings, s.control)
    requires ReadyFor(Scan(ph, s.ledger.log), s.ledger.cycleId)
    ensures var t := FinalOf(s, gens);
      && ReadyFor(Scan(ph, t.ledger.log), t.ledger.cycleId)
      && s.popped <= t.popped <= |stream| && Sound(cfg.settings, t.control)
  {
    if gens != [] {
      var front, g := gens[..|gens| - 1], gens[|gens| - 1];
      StreamConformsAcrossRestarts(ph, cfg, stream, s, front);
      var r := Restarted(FinalOf(s, front), g.startedAt);
      StreamConforms(ph, cfg, stream, r, g.run);
      RunIsFold(cfg, stream, r, g.run);
      FoldKeepsSound(cfg.settings, r.control, stream[r.popped..Final(r, g.run).popped]);
    }
  }

  // ---------- Drop reports ----------

  function DropReports(log: seq<Attempt>): nat {
    if log == [] then 0
    else DropReports(log[..|log| - 1]) + (if log[|log| - 1].message.payload.Dropped? then 1 else 0)
  }

  lemma PushReports(o: Outputs, l: Ledger, now: nat, p: Payload)
    requires o.queue
    ensures var l' := Push(o, l, now, p).0;
      && DropReports(l'.log) == DropReports(l.log) + (if p.Dropped? then 1 else 0)
      && l'.droppedEvents >= l.droppedEvents && l'.droppedValues == l.droppedValues
  {
    var log := Push(o, l, now, p).0.log;
    assert log[..|log| - 1] == l.log;
  }

  lemma {:induction false} SlotsReportNothing(o: Outputs, l: Ledger, rd: Readings, now: nat,
                                              s: seq<Subscriptions.Slot>, n: nat)
    requires n <= |s|
    ensures var l' := PublishSlots(o, l, rd, now, s, n).0;
      && DropReports(l'.log) == DropReports(l.log)
      && l'.droppedEvents == l.droppedEvents && l'.droppedValues >= l.droppedValues
  {
    if n > 0 {
      SlotsReportNothing(o, l, rd, now, s, n - 1);
      var l1, l2 := PublishSlots(o, l, rd, now, s, n - 1).0, PublishSlots(o, l, rd, now, s, n).0;
      if l2 != l1 { assert l2.log[..|l2.log| - 1] == l1.log; }
    }
  }

  // The ledger of an open cycle just before its drop report.
  function BeforeReport(o: Outputs, l: Ledger, slots: seq<Subscriptions.Slot>, t: Tick): Ledger {
    PublishEnd(o, PublishSlots(o, l, t.readings, t.finishedAt, slots, |slots|).0, t.startedAt, t.finishedAt)
  }

  lemma PublishReports(o: Outputs, l: Ledger, slots: seq<Subscriptions.Slot>, t: Tick)
    requires o.queue
    ensures var l2, l' := BeforeReport(o, l, slots, t), Publish(o, l, slots, t);
      && DropReports(l'.log) == DropReports(l.log) + (if AnyDrop(l2) then 1 else 0)
      && (AnyDrop(l) ==> AnyDrop(l2)) && (AnyDrop(l2) ==> AnyDrop(l'))
  {
    var l1 := PublishSlots(o, l, t.readings, t.finishedAt, slots, |slots|).0;
    SlotsReportNothing(o, l, t.readings, t.finishedAt, slots, |slots|);
    PushReports(o, l1, t.finishedAt, CycleEnd(l1.cycleId, t.startedAt, t.finishedAt));
    var l2 := BeforeReport(o, l, slots, t);
    PushReports(o, l2, t.finishedAt, Dropped(l2.cycleId, l2.droppedEvents, l2.droppedValues));
  }

  lemma MeasureReports(o: Outputs, l: Ledger, period: nat, t: Tick)
    requires o.queue
    ensures var l' := Measure(o, l, period, t);
      DropReports(l'.log) == DropReports(l.log) && (AnyDrop(l) ==> AnyDrop(l'))
  {
    if t.metrics.Some? { PushReports(o, l, Completion(period, t), Measurement(t.metrics.value)); }
  }

  // A cycle attempts one drop report exactly when a loss had been counted by the end of its own
  // begin, values and end messages.
  lemma CycleReports(cfg: Config, stream: seq<Command>, s: Loop, t: Tick)
    requires cfg.outputs.queue
    ensures var s' := Cycle(cfg, stream, s, t);
      var l2 := BeforeReport(cfg.outputs, PublishBegin(cfg.outputs, s.ledger, t.startedAt), s'.control.slots, t);
      && DropReports(s'.ledger.log) == DropReports(s.ledger.log) + (if AnyDrop(l2) then 1 else 0)
      && (AnyDrop(s.ledger) ==> AnyDrop(l2)) && (AnyDrop(l2) ==> AnyDrop(s'.ledger))
  {
    var o, c := cfg.outputs, Cycle(cfg, stream, s, t).control;
    var l0 := PublishBegin(o, s.ledger, t.startedAt);
    PushReports(o, s.ledger, t.startedAt, CycleBegin(s.ledger.cycleId, t.startedAt));
    PublishReports(o, l0, c.slots, t);
    MeasureReports(o, Publish(o, l0, c.slots, t), c.period, t);
  }

  // Once anything has been counted as lost, every later cycle attempts a drop report.
  lemma {:induction false} ReportedEveryCycle(cfg: Config, stream: seq<Command>, s: Loop, run: seq<Step>)
    requires Execution(cfg, stream, s, run) && cfg.outputs.queue && AnyDrop(s.ledger)
    ensures DropReports(Final(s, run).ledger.log) == DropReports(s.ledger.log) + |run|
    ensures AnyDrop(Final(s, run).ledger)
  {
    if run != [] {
      LastStep(cfg, stream, s, run);
      ReportedEveryCycle(cfg, stream, s, run[..|run| - 1]);
      CycleReports(cfg, stream, run[|run| - 1].before, run[|run| - 1].tick);
    }
  }

  function CyclesOf(gens: seq<Generation>): nat {
    if gens == [] then 0 else CyclesOf(gens[..|gens| - 1]) + |gens[|gens| - 1].run|
  }

  // ...in this generation and in all later ones: no start forgets a loss.
  lemma {:induction false} ReportedAcrossRestarts(cfg: Config, stream: seq<Command>, s: Loop, gens: seq<Generation>)
    requires Generations(cfg, stream, s, gens) && cfg.outputs.queue && AnyDrop(s.ledger)
    ensures DropReports(FinalOf(s, gens).ledger.log) == DropReports(s.ledger.log) + CyclesOf(gens)
    ensures AnyDrop(FinalOf(s, gens).ledger)
  {
    if gens != [] {
      var front, g := gens[..|gens| - 1], gens[|gens| - 1];
      ReportedAcrossRestarts(cfg, stream, s, front);
      ReportedEveryCycle(cfg, stream, Restarted(FinalOf(s, front), g.startedAt), g.run);
    }
  }
}
