/** The telemetry ledger: sequence numbers, drop counters and the stream of attempted messages.
    Nothing here ever resets a counter, so one ledger spans every start and stop of the engine. */
module Telemetry {
  import opened CStrings

  datatype Source = NoSource | Device | Plugin

  datatype Kind = PortKind | StateKind

  datatype Sample = Sample(cycleId: nat, timestamp: nat, nodeId: nat, valueId: nat,
                           offset: nat, kind: Kind, source: Source, content: Content)

  type CInt = n: int | -0x8000_0000 <= n < 0x8000_0000

  // A value's type and what it holds. The runtime hands over an I64 as a C int.
  datatype Content =
    | F32(bits: nat)
    | F64(bits: nat)
    | I64(number: CInt)
    | U64(count: nat)
    | Characters(text: Text)
    | OtherContent

  // What the measurement tool reports about a cycle; its cycle id is the tool's own.
  datatype Metrics = Metrics(cycleId: nat, periodNs: nat, figures: seq<nat>)

  datatype Payload =
    | CycleBegin(cycleId: nat, scheduledAt: nat)
    | CycleEnd(cycleId: nat, startedAt: nat, finishedAt: nat)
    | Measurement(metrics: Metrics)
    | Dropped(cycleId: nat, eventCount: nat, valueCount: nat)
    | ValuesWritten(cycleId: nat, nodeId: nat, source: Source, samples: seq<Sample>)

  datatype Message = Message(number: nat, timestamp: nat, droppedEvents: nat, payload: Payload)

  // One call on the telemetry queue, and whether the queue had room for it.
  datatype Attempt = Attempt(message: Message, accepted: bool)

  // The configured outputs; accepts(n) is the queue's answer to the attempt numbered n, and textSize
  // the size of a sample's string buffer.
  datatype Outputs = Outputs(queue: bool, values: bool, accepts: nat -> bool, textSize: Size)

  datatype Ledger = Ledger(cycleId: nat, lastNumber: nat, droppedEvents: nat, droppedValues: nat,
                           log: seq<Attempt>)

  // ---------- The publishing functions ----------

  function Push(o: Outputs, t: Ledger, timestamp: nat, payload: Payload): (Ledger, bool) {
    if !o.queue then (t, false)
    else
      var n := t.lastNumber + 1;
      var attempt := Attempt(Message(n, timestamp, t.droppedEvents, payload), o.accepts(n));
      (t.(lastNumber := n,
          droppedEvents := if attempt.accepted then t.droppedEvents else t.droppedEvents + 1,
          log := t.log + [attempt]),
       attempt.accepted)
  }

  function PublishBegin(o: Outputs, t: Ledger, now: nat): Ledger {
    Push(o, t, now, CycleBegin(t.cycleId, now)).0
  }

  function PublishEnd(o: Outputs, t: Ledger, startedAt: nat, finishedAt: nat): Ledger {
    Push(o, t, finishedAt, CycleEnd(t.cycleId, startedAt, finishedAt)).0
  }

  function PublishMeasurement(o: Outputs, t: Ledger, now: nat, metrics: Metrics): Ledger {
    Push(o, t, now, Measurement(metrics)).0
  }

  predicate AnyDrop(t: Ledger) {
    t.droppedEvents > 0 || t.droppedValues > 0
  }

  function PublishDropped(o: Outputs, t: Ledger, now: nat): Ledger {
    if AnyDrop(t) then Push(o, t, now, Dropped(t.cycleId, t.droppedEvents, t.droppedValues)).0 else t
  }

  function PublishValues(o: Outputs, t: Ledger, timestamp: nat, nodeId: nat, source: Source, samples: seq<Sample>)
    : (Ledger, bool)
  {
    if !o.queue || !o.values || samples == [] then (t, false)
    else
      var n := t.lastNumber + 1;
      var m := Message(n, timestamp, t.droppedEvents, ValuesWritten(t.cycleId, nodeId, source, samples));
      var accepted := o.accepts(n);
      (t.(lastNumber := n,
          droppedValues := if accepted then t.droppedValues else t.droppedValues + |samples|,
          log := t.log + [Attempt(m, accepted)]),
       accepted)
  }

  // ---------- Reading a stream of attempts ----------

  function EventDrops(log: seq<Attempt>): nat {
    if log == [] then 0
    else
      var last := log[|log| - 1];
      EventDrops(log[..|log| - 1]) + (if !last.accepted && !last.message.payload.ValuesWritten? then 1 else 0)
  }

  function FailedBatches(log: seq<Attempt>): nat {
    if log == [] then 0
    else
      var last := log[|log| - 1];
      FailedBatches(log[..|log| - 1]) + (if !last.accepted && last.message.payload.ValuesWritten? then 1 else 0)
  }

  function Samples(a: Attempt): nat {
    if a.message.payload.ValuesWritten? then |a.message.payload.samples| else 0
  }

  // Samples in the batches that were accepted, or in those that were refused.
  function SampleCount(log: seq<Attempt>, accepted: bool): nat {
    if log == [] then 0
    else
      var last := log[|log| - 1];
      SampleCount(log[..|log| - 1], accepted) + (if last.accepted == accepted then Samples(last) else 0)
  }

  // Samples delivered or counted as lost.
  function Settled(t: Ledger): nat {
    SampleCount(t.log, true) + t.droppedValues
  }

  // What the consumer pops: the accepted messages, in order.
  function Delivered(log: seq<Attempt>): seq<Message> {
    if log == [] then []
    else
      var last := log[|log| - 1];
      Delivered(log[..|log| - 1]) + (if last.accepted then [last.message] else [])
  }

  // Every number is used once, in order, and the counters are exactly what the log says.
  ghost predicate Numbered(log: seq<Attempt>) {
    forall i :: 0 <= i < |log| ==> log[i].message.number == i + 1
  }

  ghost predicate Accounted(t: Ledger) {
    && t.lastNumber == |t.log|
    && Numbered(t.log)
    && (forall i :: 0 <= i < |t.log| ==> Stamped(t.log, i))
    && t.droppedEvents == EventDrops(t.log)
    && t.droppedValues == SampleCount(t.log, false)
  }

  ghost predicate Stamped(log: seq<Attempt>, i: nat)
    requires i < |log|
  {
    && log[i].message.droppedEvents == EventDrops(log[..i])
    && Truthful(log[i].message.payload, EventDrops(log[..i]), SampleCount(log[..i], false))
    && (log[i].message.payload.ValuesWritten? ==> log[i].message.payload.samples != [])
  }

  // A drop report carries the totals.
  predicate Truthful(p: Payload, eventDrops: nat, valueDrops: nat) {
    p.Dropped? ==> p.eventCount == eventDrops && p.valueCount == valueDrops
  }

  lemma AppendStamped(log: seq<Attempt>, a: Attempt)
    requires Numbered(log) && forall i :: 0 <= i < |log| ==> Stamped(log, i)
    requires a.message.number == |log| + 1 && a.message.droppedEvents == EventDrops(log)
    requires Truthful(a.message.payload, EventDrops(log), SampleCount(log, false))
    requires a.message.payload.ValuesWritten? ==> a.message.payload.samples != []
    ensures Numbered(log + [a]) && forall i :: 0 <= i < |log + [a]| ==> Stamped(log + [a], i)
    ensures EventDrops(log + [a])
         == EventDrops(log) + (if !a.accepted && !a.message.payload.ValuesWritten? then 1 else 0)
    ensures SampleCount(log + [a], false) == SampleCount(log, false) + (if !a.accepted then Samples(a) else 0)
  {
    var next := log + [a];
    assert next[..|log|] == log;
    forall i | 0 <= i < |next| ensures Stamped(next, i) {
      if i < |log| { assert Stamped(log, i) && next[..i] == log[..i]; }
    }
  }

  lemma PushAccounted(o: Outputs, t: Ledger, timestamp: nat, payload: Payload)
    requires Accounted(t) && !payload.ValuesWritten? && Truthful(payload, t.droppedEvents, t.droppedValues)
    ensures Accounted(Push(o, t, timestamp, payload).0)
  {
    if o.queue {
      var m := Message(t.lastNumber + 1, timestamp, t.droppedEvents, payload);
      AppendStamped(t.log, Attempt(m, o.accepts(t.lastNumber + 1)));
    }
  }

  lemma PublishValuesAccounted(o: Outputs, t: Ledger, timestamp: nat, nodeId: nat, source: Source, samples: seq<Sample>)
    requires Accounted(t)
    ensures Accounted(PublishValues(o, t, timestamp, nodeId, source, samples).0)
  {
    if o.queue && o.values && samples != [] {
      var m := Message(t.lastNumber + 1, timestamp, t.droppedEvents, ValuesWritten(t.cycleId, nodeId, source, samples));
      AppendStamped(t.log, Attempt(m, o.accepts(t.lastNumber + 1)));
    }
  }

  // What a push answers, and what the consumer sees of it.
  lemma PushAnswers(o: Outputs, t: Ledger, timestamp: nat, payload: Payload)
    ensures var (t', ok) := Push(o, t, timestamp, payload);
      var m := Message(t.lastNumber + 1, timestamp, t.droppedEvents, payload);
      && (ok <==> o.queue && o.accepts(t.lastNumber + 1))
      && Delivered(t'.log) == Delivered(t.log) + (if ok then [m] else [])
      && (o.queue && !ok ==> t'.droppedEvents == t.droppedEvents + 1)
      && (!o.queue ==> t' == t)
  {
    if o.queue { assert Push(o, t, timestamp, payload).0.log[..|t.log|] == t.log; }
  }

  // Something has been refused.
  ghost predicate Refused(log: seq<Attempt>) {
    exists i :: 0 <= i < |log| && !log[i].accepted
  }

  lemma {:induction false} RefusalCounts(log: seq<Attempt>)
    requires forall i :: 0 <= i < |log| && log[i].message.payload.ValuesWritten? ==>
      log[i].message.payload.samples != []
    ensures Refused(log) <==> EventDrops(log) > 0 || SampleCount(log, false) > 0
  {
    if log != [] {
      var front := log[..|log| - 1];
      RefusalCounts(front);
      if Refused(front) {
        var i :| 0 <= i < |front| && !front[i].accepted;
        assert !log[i].accepted;
      }
      if Refused(log) && log[|log| - 1].accepted {
        var i :| 0 <= i < |log| && !log[i].accepted;
        assert !front[i].accepted;
      }
    }
  }

  // The counters are positive exactly when something has been refused.
  lemma AnyDropIsRefused(t: Ledger)
    requires Accounted(t)
    ensures AnyDrop(t) <==> Refused(t.log)
  {
    forall i | 0 <= i < |t.log| && t.log[i].message.payload.ValuesWritten?
      ensures t.log[i].message.payload.samples != []
    {
      assert Stamped(t.log, i);
    }
    RefusalCounts(t.log);
  }

  // ---------- Conservation ----------

  lemma {:induction false} EveryAttemptCounted(log: seq<Attempt>)
    ensures |log| == |Delivered(log)| + EventDrops(log) + FailedBatches(log)
  {
    if log != [] { EveryAttemptCounted(log[..|log| - 1]); }
  }

  // Every sequence number ever used is an enqueued message, a counted event or a failed batch.
  lemma SequenceConservation(t: Ledger)
    requires Accounted(t)
    ensures t.lastNumber == |Delivered(t.log)| + t.droppedEvents + FailedBatches(t.log)
    ensures forall a, b :: 0 <= a < b < |Delivered(t.log)| ==> Delivered(t.log)[a].number < Delivered(t.log)[b].number
  {
    EveryAttemptCounted(t.log);
    Increasing(t.log);
  }

  lemma {:induction false} Increasing(log: seq<Attempt>)
    requires Numbered(log)
    ensures forall a :: 0 <= a < |Delivered(log)| ==> 1 <= Delivered(log)[a].number <= |log|
    ensures forall a, b :: 0 <= a < b < |Delivered(log)| ==> Delivered(log)[a].number < Delivered(log)[b].number
  {
    if log != [] { Increasing(log[..|log| - 1]); }
  }

  // ---------- What a consumer can infer from a gap ----------

  lemma {:induction false} DeliveredConcat(a: seq<Attempt>, b: seq<Attempt>)
    ensures Delivered(a + b) == Delivered(a) + Delivered(b)
    ensures EventDrops(a + b) == EventDrops(a) + EventDrops(b)
    ensures FailedBatches(a + b) == FailedBatches(a) + FailedBatches(b)
    ensures forall x :: SampleCount(a + b, x) == SampleCount(a, x) + SampleCount(b, x)
  {
    if b == [] {
      assert a + b == a;
    } else {
      var c := b[..|b| - 1];
      assert (a + b)[..|a + b| - 1] == a + c;
      DeliveredConcat(a, c);
    }
  }

  // The k-th delivered message sits in the log at its own number, after exactly k deliveries.
  lemma {:induction false} DeliveredAt(log: seq<Attempt>, k: nat)
    requires Numbered(log) && k < |Delivered(log)|
    ensures var m := Delivered(log)[k];
      1 <= m.number <= |log| && log[m.number - 1] == Attempt(m, true)
  {
    var front := log[..|log| - 1];
    if k < |Delivered(front)| { DeliveredAt(front, k); }
  }

  lemma {:induction false} DeliveredBefore(log: seq<Attempt>, k: nat, a: nat)
    requires Numbered(log) && k < |Delivered(log)| && a == Delivered(log)[k].number
    ensures 1 <= a <= |log| && Delivered(log[..a - 1]) == Delivered(log)[..k]
  {
    var front := log[..|log| - 1];
    if k < |Delivered(front)| {
      DeliveredBefore(front, k, a);
      assert front[..a - 1] == log[..a - 1];
    }
  }

  lemma OneMore(log: seq<Attempt>, a: nat)
    requires 1 <= a <= |log| && log[a - 1].accepted
    ensures Delivered(log[..a]) == Delivered(log[..a - 1]) + [log[a - 1].message]
    ensures EventDrops(log[..a]) == EventDrops(log[..a - 1])
  {
    assert log[..a][..a - 1] == log[..a - 1];
  }

  function Between(log: seq<Attempt>, m1: Message, m2: Message): seq<Attempt>
    requires 1 <= m1.number < m2.number <= |log|
  {
    log[m1.number..m2.number - 1]
  }

  lemma SplitAt(log: seq<Attempt>, a: nat, b: nat)
    requires a <= b <= |log|
    ensures log[..a] + log[a..b] == log[..b]
  {
  }

  // Nothing is delivered between neighbours.
  lemma NoneBetween(log: seq<Attempt>, k: nat, a: nat, b: nat)
    requires Numbered(log) && k + 1 < |Delivered(log)|
    requires a == Delivered(log)[k].number && b == Delivered(log)[k + 1].number
    ensures 1 <= a < b <= |log| && Delivered(log[..a]) == Delivered(log[..b - 1])
    ensures EventDrops(log[..a]) == EventDrops(log[..a - 1])
  {
    Increasing(log);
    DeliveredAt(log, k);
    DeliveredBefore(log, k, a);
    OneMore(log, a);
    DeliveredBefore(log, k + 1, b);
    assert Delivered(log)[..k] + [Delivered(log)[k]] == Delivered(log)[..k + 1];
  }

  lemma StampAt(t: Ledger, i: nat)
    requires Accounted(t) && i < |t.log|
    ensures t.log[i].message.droppedEvents == EventDrops(t.log[..i])
  {
    assert Stamped(t.log, i);
  }

  // What a drop report says: the messages and the samples lost before it, no more and no fewer.
  lemma DropReportIsTrue(t: Ledger, i: nat)
    requires Accounted(t) && i < |t.log| && t.log[i].message.payload.Dropped?
    ensures var p := t.log[i].message.payload;
      && p.eventCount == i - |Delivered(t.log[..i])| - FailedBatches(t.log[..i])
      && p.valueCount == SampleCount(t.log[..i], false)
  {
    assert Stamped(t.log, i);
    EveryAttemptCounted(t.log[..i]);
  }

  lemma QuietStretch(front: seq<Attempt>, between: seq<Attempt>, log: seq<Attempt>)
    requires log == front + between && Delivered(front) == Delivered(log)
    ensures Delivered(between) == [] && |between| == EventDrops(between) + FailedBatches(between)
    ensures EventDrops(log) == EventDrops(front) + EventDrops(between)
  {
    DeliveredConcat(front, between);
    EveryAttemptCounted(between);
  }

  lemma GapBetween(log: seq<Attempt>, a: nat, b: nat)
    requires a < b <= |log| && Delivered(log[..a]) == Delivered(log[..b - 1])
    ensures Delivered(log[a..b - 1]) == []
    ensures b - a - 1 == EventDrops(log[a..b - 1]) + FailedBatches(log[a..b - 1])
    ensures EventDrops(log[..b - 1]) == EventDrops(log[..a]) + EventDrops(log[a..b - 1])
  {
    SplitAt(log, a, b - 1);
    QuietStretch(log[..a], log[a..b - 1], log[..b - 1]);
  }

  lemma StampOf(t: Ledger, k: nat, a: nat)
    requires Accounted(t) && k < |Delivered(t.log)| && a == Delivered(t.log)[k].number
    ensures 1 <= a <= |t.log| && Delivered(t.log)[k].droppedEvents == EventDrops(t.log[..a - 1])
  {
    DeliveredAt(t.log, k);
    StampAt(t, a - 1);
  }

  lemma GapAt(t: Ledger, k: nat, a: nat, b: nat)
    requires Accounted(t) && k + 1 < |Delivered(t.log)|
    requires a == Delivered(t.log)[k].number && b == Delivered(t.log)[k + 1].number
    ensures 1 <= a < b <= |t.log|
    ensures Delivered(t.log[a..b - 1]) == []
    ensures b - a - 1 == EventDrops(t.log[a..b - 1]) + FailedBatches(t.log[a..b - 1])
    ensures Delivered(t.log)[k + 1].droppedEvents - Delivered(t.log)[k].droppedEvents
         == EventDrops(t.log[a..b - 1])
  {
    NoneBetween(t.log, k, a, b);
    GapBetween(t.log, a, b);
    StampOf(t, k, a);
    StampOf(t, k + 1, b);
  }

  // Between two messages the consumer sees next to each other, the missing numbers are the events
  // dropped and the batches that failed; the drop counter grows by the events alone, so it explains
  // the whole gap exactly when no batch failed in between, and never more than the gap.
  lemma GapTheorem(t: Ledger, k: nat)
    requires Accounted(t) && k + 1 < |Delivered(t.log)|
    ensures var m1, m2 := Delivered(t.log)[k], Delivered(t.log)[k + 1];
      && 1 <= m1.number < m2.number <= |t.log|
      && var between := Between(t.log, m1, m2);
      && Delivered(between) == []
      && m2.number - m1.number - 1 == EventDrops(between) + FailedBatches(between)
      && m2.droppedEvents - m1.droppedEvents == EventDrops(between)
      && (m2.droppedEvents - m1.droppedEvents == m2.number - m1.number - 1 <==> FailedBatches(between) == 0)
  {
    GapAt(t, k, Delivered(t.log)[k].number, Delivered(t.log)[k + 1].number);
  }

  lemma DeliveredAppend(log: seq<Attempt>, a: Attempt)
    ensures Delivered(log + [a]) == Delivered(log) + (if a.accepted then [a.message] else [])
  {
    assert (log + [a])[..|log|] == log;
  }

  // For instance: a batch refused between a begin and an end. The numbers skip one, the counter none.
  lemma LostBatchUnexplained(o: Outputs, t: Ledger, sample: Sample)
    requires o.queue && o.values && o.accepts(1) && !o.accepts(2) && o.accepts(3)
    requires t == Ledger(0, 0, 0, 0, [])
    ensures var t1 := PublishBegin(o, t, 0);
      var t2 := PublishValues(o, t1, 1, 0, Device, [sample]).0;
      var t3 := PublishEnd(o, t2, 0, 1);
      && Accounted(t3) && |Delivered(t3.log)| == 2
      && var m1, m2 := Delivered(t3.log)[0], Delivered(t3.log)[1];
      && m2.number - m1.number - 1 == 1 && m2.droppedEvents - m1.droppedEvents == 0
  {
    var t1 := PublishBegin(o, t, 0);
    PushAccounted(o, t, 0, CycleBegin(0, 0));
    DeliveredAppend(t.log, t1.log[0]);
    var t2 := PublishValues(o, t1, 1, 0, Device, [sample]).0;
    PublishValuesAccounted(o, t1, 1, 0, Device, [sample]);
    DeliveredAppend(t1.log, t2.log[1]);
    PushAccounted(o, t2, 1, CycleEnd(0, 0, 1));
    DeliveredAppend(t2.log, PublishEnd(o, t2, 0, 1).log[2]);
  }
}
