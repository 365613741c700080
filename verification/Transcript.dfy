/** What one cycle says, message by message: the kinds, the contents and the times of everything it
    attempts, told from the clock readings, the table and what has been refused so far. */
module Transcript {
  import opened Telemetry
  import opened Sampling
  import opened Commands
  import opened RtLoop
  import opened StreamGrammar
  import Subscriptions

  datatype Line = Line(time: nat, payload: Payload)

  function Said(log: seq<Attempt>): (r: seq<Line>)
    ensures |r| == |log|
  {
    seq(|log|, i requires 0 <= i < |log| => Line(log[i].message.timestamp, log[i].message.payload))
  }

  lemma SaidAppend(log: seq<Attempt>, a: Attempt)
    ensures Said(log + [a]) == Said(log) + [Line(a.message.timestamp, a.message.payload)]
  {
  }

  lemma PushSays(o: Outputs, l: Ledger, now: nat, p: Payload)
    requires o.queue
    ensures Said(Push(o, l, now, p).0.log) == Said(l.log) + [Line(now, p)]
    ensures Push(o, l, now, p).0.cycleId == l.cycleId
  {
    SaidAppend(l.log, Attempt(Message(l.lastNumber + 1, now, l.droppedEvents, p), o.accepts(l.lastNumber + 1)));
  }

  // The lines for the batches of a cycle.
  function BatchLines(bs: seq<NodeBatch>, cycleId: nat, now: nat): (r: seq<Line>)
    ensures |r| == |bs|
  {
    seq(|bs|, i requires 0 <= i < |bs| =>
      Line(now, ValuesWritten(cycleId, bs[i].nodeId, bs[i].source, bs[i].samples)))
  }

  lemma BatchLinesAppend(bs: seq<NodeBatch>, b: NodeBatch, cycleId: nat, now: nat)
    ensures BatchLines(bs + [b], cycleId, now)
         == BatchLines(bs, cycleId, now) + [Line(now, ValuesWritten(cycleId, b.nodeId, b.source, b.samples))]
  {
  }

  lemma ValuesSay(o: Outputs, l: Ledger, now: nat, b: NodeBatch)
    requires o.queue && o.values && b.samples != []
    ensures Said(PublishValues(o, l, now, b.nodeId, b.source, b.samples).0.log)
         == Said(l.log) + [Line(now, ValuesWritten(l.cycleId, b.nodeId, b.source, b.samples))]
  {
    var log := PublishValues(o, l, now, b.nodeId, b.source, b.samples).0.log;
    SaidAppend(l.log, log[|l.log|]);
  }

  // What the table makes a cycle send, when there are outputs for it.
  function ValueLines(o: Outputs, rd: Readings, cycleId: nat, now: nat, s: seq<Subscriptions.Slot>, n: nat): seq<Line>
    requires n <= |s|
  {
    if o.values then BatchLines(Batches(o, rd, cycleId, now, s, n), cycleId, now) else []
  }

  lemma {:induction false} SlotsSay(o: Outputs, l: Ledger, rd: Readings, now: nat, s: seq<Subscriptions.Slot>, n: nat)
    requires n <= |s| && o.queue && o.values
    ensures Said(PublishSlots(o, l, rd, now, s, n).0.log)
         == Said(l.log) + BatchLines(Batches(o, rd, l.cycleId, now, s, n), l.cycleId, now)
  {
    if n > 0 {
      SlotsSay(o, l, rd, now, s, n - 1);
      if Live(rd, s[n - 1]) && BatchOf(o, rd, l.cycleId, now, s[n - 1]).samples != [] {
        var b := BatchOf(o, rd, l.cycleId, now, s[n - 1]);
        ValuesSay(o, PublishSlots(o, l, rd, now, s, n - 1).0, now, b);
        BatchLinesAppend(Batches(o, rd, l.cycleId, now, s, n - 1), b, l.cycleId, now);
      }
    }
  }

  // Begin, values and end.
  lemma OpeningSays(o: Outputs, l: Ledger, slots: seq<Subscriptions.Slot>, t: Tick)
    requires o.queue && Accounted(l)
    ensures var l0 := PublishBegin(o, l, t.startedAt);
      var l2 := BeforeReport(o, l0, slots, t);
      && l2.cycleId == l.cycleId && Accounted(l2)
      && Said(l2.log) == Said(l.log) + [Line(t.startedAt, CycleBegin(l.cycleId, t.startedAt))]
           + ValueLines(o, t.readings, l.cycleId, t.finishedAt, slots, |slots|)
           + [Line(t.finishedAt, CycleEnd(l.cycleId, t.startedAt, t.finishedAt))]
  {
    var l0 := PublishBegin(o, l, t.startedAt);
    PushSays(o, l, t.startedAt, CycleBegin(l.cycleId, t.startedAt));
    PushAccounted(o, l, t.startedAt, CycleBegin(l.cycleId, t.startedAt));
    var l1 := PublishSlots(o, l0, t.readings, t.finishedAt, slots, |slots|).0;
    if o.values {
      SlotsSay(o, l0, t.readings, t.finishedAt, slots, |slots|);
    } else {
      WithoutOutputs(o, l0, t.readings, t.finishedAt, slots, |slots|);
    }
    PublishSlotsAccounted(o, l0, t.readings, t.finishedAt, slots, |slots|);
    PushSays(o, l1, t.finishedAt, CycleEnd(l.cycleId, t.startedAt, t.finishedAt));
    PushAccounted(o, l1, t.finishedAt, CycleEnd(l.cycleId, t.startedAt, t.finishedAt));
  }

  // The report that follows when anything has been refused up to then, with the totals up to then.
  function Report(log: seq<Attempt>, cycleId: nat, now: nat): seq<Line> {
    if exists i :: 0 <= i < |log| && !log[i].accepted
    then [Line(now, Dropped(cycleId, EventDrops(log), SampleCount(log, false)))] else []
  }

  lemma DroppedSays(o: Outputs, l: Ledger, now: nat)
    requires o.queue && Accounted(l)
    ensures Said(PublishDropped(o, l, now).log) == Said(l.log) + Report(l.log, l.cycleId, now)
  {
    AnyDropIsRefused(l);
    if AnyDrop(l) { PushSays(o, l, now, Dropped(l.cycleId, l.droppedEvents, l.droppedValues)); }
  }

  // The measurement, stamped with the end of the sleep when there was one.
  function Measured(period: nat, t: Tick): seq<Line> {
    if t.metrics.None? then []
    else [Line(if period > 0 then t.completedAt else t.finishedAt, Measurement(t.metrics.value))]
  }

  lemma MeasureSays(o: Outputs, l: Ledger, period: nat, t: Tick)
    requires o.queue
    ensures Said(Measure(o, l, period, t).log) == Said(l.log) + Measured(period, t)
  {
    if t.metrics.Some? { PushSays(o, l, Completion(period, t), Measurement(t.metrics.value)); }
  }

  lemma ClosingSays(o: Outputs, l: Ledger, slots: seq<Subscriptions.Slot>, period: nat, t: Tick)
    requires o.queue && Accounted(l)
    ensures var l2 := BeforeReport(o, PublishBegin(o, l, t.startedAt), slots, t);
      Said(CycleLedger(o, l, slots, period, t).log)
        == Said(l2.log) + Report(l2.log, l.cycleId, t.finishedAt) + Measured(period, t)
  {
    var l0 := PublishBegin(o, l, t.startedAt);
    OpeningSays(o, l, slots, t);
    DroppedSays(o, BeforeReport(o, l0, slots, t), t.finishedAt);
    MeasureSays(o, Publish(o, l0, slots, t), period, t);
  }

  // A whole cycle: begin, the batches of its table, end, a report of the totals when anything has been
  // refused by then, and the measurement when there is one, each at its time.
  ghost predicate Speaks(o: Outputs, l: Ledger, slots: seq<Subscriptions.Slot>, period: nat, t: Tick, l': Ledger) {
    var c := l.cycleId;
    var values := ValueLines(o, t.readings, c, t.finishedAt, slots, |slots|);
    var n := |l.log| + |values| + 2;
    && n <= |l'.log| && l.log <= l'.log
    && Said(l'.log) == Said(l.log) + [Line(t.startedAt, CycleBegin(c, t.startedAt))] + values
         + [Line(t.finishedAt, CycleEnd(c, t.startedAt, t.finishedAt))]
         + Report(l'.log[..n], c, t.finishedAt) + Measured(period, t)
  }

  lemma CycleSays(o: Outputs, l: Ledger, slots: seq<Subscriptions.Slot>, period: nat, t: Tick)
    requires o.queue && Accounted(l)
    ensures Speaks(o, l, slots, period, t, CycleLedger(o, l, slots, period, t))
  {
    var l' := CycleLedger(o, l, slots, period, t);
    var l2 := BeforeReport(o, PublishBegin(o, l, t.startedAt), slots, t);
    var values := ValueLines(o, t.readings, l.cycleId, t.finishedAt, slots, |slots|);
    OpeningSays(o, l, slots, t);
    ClosingSays(o, l, slots, period, t);
    LogGrows(o, l, slots, period, t);
    assert |Said(l2.log)| == |Said(l.log)| + |values| + 2;
    assert l'.log[..|l2.log|] == l2.log;
  }

  // Every cycle of every run speaks so, about the table and the period its own commands left.
  lemma RunSpeaks(cfg: Config, stream: seq<Command>, s: Loop, run: seq<Step>, i: nat)
    requires Execution(cfg, stream, s, run) && i < |run| && cfg.outputs.queue && Accounted(s.ledger)
    ensures var e := run[i];
      Speaks(cfg.outputs, e.before.ledger, e.after.control.slots, e.after.control.period, e.tick, e.after.ledger)
  {
    FrontExecutes(cfg, stream, s, run, i);
    RunAccounted(cfg, stream, s, run[..i]);
    assert Executed(cfg, stream, s, run, i);
    var e := run[i];
    CycleSays(cfg.outputs, e.before.ledger, e.after.control.slots, e.after.control.period, e.tick);
  }

  lemma {:induction false} SlotsGrow(o: Outputs, l: Ledger, rd: Readings, now: nat, s: seq<Subscriptions.Slot>, n: nat)
    requires n <= |s|
    ensures l.log <= PublishSlots(o, l, rd, now, s, n).0.log
  {
    if n > 0 { SlotsGrow(o, l, rd, now, s, n - 1); }
  }

  lemma LogGrows(o: Outputs, l: Ledger, slots: seq<Subscriptions.Slot>, period: nat, t: Tick)
    ensures var l0 := PublishBegin(o, l, t.startedAt);
      var l2 := BeforeReport(o, l0, slots, t);
      l.log <= l2.log <= CycleLedger(o, l, slots, period, t).log
  {
    SlotsGrow(o, PublishBegin(o, l, t.startedAt), t.readings, t.finishedAt, slots, |slots|);
  }
}
