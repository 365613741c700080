/** What clients get for what they ask: their subscribe commands on one side, the samples the engine
    tries to send them on the other. */
module Clients {
  import opened Commands
  import opened Descriptors
  import opened Options
  import opened RtLoop
  import opened Sampling
  import opened Telemetry
  import Subscriptions

  function KindOf(p: Place): Kind {
    if p.variables then StateKind else PortKind
  }

  // The runtime has a device or a plugin there, and its tables hold this value, which can be read.
  ghost predicate Offers(rd: Readings, p: Place, v: Value) {
    && p.nodeId in rd
    && (rd[p.nodeId].nodeType == DeviceType || rd[p.nodeId].nodeType == PluginType)
    && Shows(rd[p.nodeId], KindOf(p), p.bit, v) && CanBeRead(v)
  }

  ghost predicate Offered(rd: Readings, p: Place) {
    exists v :: Offers(rd, p, v)
  }

  ghost predicate Sampled(bs: seq<NodeBatch>, p: Place) {
    exists i :: 0 <= i < |bs| && bs[i].nodeId == p.nodeId && Contains(bs[i].samples, KindOf(p), p.bit)
  }

  // ---------- One cycle ----------

  predicate Asked(slot: Subscriptions.Slot, p: Place) {
    Subscriptions.Holds(slot, p.nodeId) && p.bit in Part(Subscriptions.EntryOf(slot), p.variables)
  }

  lemma SlotHolds(o: Outputs, rd: Readings, cycleId: nat, now: nat, slot: Subscriptions.Slot, p: Place)
    requires p.bit < 64 && Live(rd, slot) && slot.nodeId == p.nodeId
    ensures Contains(BatchOf(o, rd, cycleId, now, slot).samples, KindOf(p), p.bit)
       <==> Offered(rd, p) && Asked(slot, p)
  {
    var c := Context(rd[slot.nodeId], cycleId, now, slot.nodeId, o.textSize);
    var e, r := Subscriptions.EntryOf(slot), BatchOf(o, rd, cycleId, now, slot).samples;
    BatchIsExact(c, e);
    assert Part(e, p.variables) == Asks(e, KindOf(p));
    if Contains(r, KindOf(p), p.bit) {
      var k :| 0 <= k < |r| && r[k].kind == KindOf(p) && r[k].valueId == p.bit;
      assert Truthfully(c, e, r[k], k);
      var v :| Shows(c.view, r[k].kind, r[k].valueId, v) && CanBeRead(v) && Keeps(r[k].content, v.content, c.textSize);
      assert Offers(rd, p, v);
    }
    if v :| Offers(rd, p, v) && Asked(slot, p) {
      assert Contains(r, KindOf(p), p.bit);
    }
  }

  lemma SampledAppend(bs: seq<NodeBatch>, b: NodeBatch, p: Place)
    ensures Sampled(bs + [b], p)
       <==> Sampled(bs, p) || (b.nodeId == p.nodeId && Contains(b.samples, KindOf(p), p.bit))
  {
    var all := bs + [b];
    assert all[|bs|] == b;
    if Sampled(bs, p) {
      var i :| 0 <= i < |bs| && bs[i].nodeId == p.nodeId && Contains(bs[i].samples, KindOf(p), p.bit);
      assert all[i] == bs[i];
    }
  }

  lemma {:induction false} BatchesHold(o: Outputs, rd: Readings, cycleId: nat, now: nat,
                                       s: seq<Subscriptions.Slot>, n: nat, p: Place)
    requires n <= |s| && p.bit < 64
    ensures Sampled(Batches(o, rd, cycleId, now, s, n), p)
       <==> Offered(rd, p) && exists j :: 0 <= j < n && Asked(s[j], p)
  {
    if n > 0 {
      BatchesHold(o, rd, cycleId, now, s, n - 1, p);
      var slot := s[n - 1];
      if Live(rd, slot) {
        if slot.nodeId == p.nodeId { SlotHolds(o, rd, cycleId, now, slot, p); }
        SampledAppend(Batches(o, rd, cycleId, now, s, n - 1), BatchOf(o, rd, cycleId, now, slot), p);
      }
    }
  }

  // Every sample of a batch bears the cycle, the time and the node, the source the node's type calls for,
  // and what a sample keeps of the value that the runtime's tables hold.
  ghost predicate Honest(o: Outputs, rd: Readings, cycleId: nat, now: nat, b: NodeBatch) {
    && b.nodeId in rd && Names(b.source, rd[b.nodeId].nodeType)
    && forall k :: 0 <= k < |b.samples| ==> HonestSample(o, rd[b.nodeId], cycleId, now, b, k)
  }

  ghost predicate HonestSample(o: Outputs, view: NodeView, cycleId: nat, now: nat, b: NodeBatch, k: nat)
    requires k < |b.samples|
  {
    var sample := b.samples[k];
    && sample.cycleId == cycleId && sample.timestamp == now && sample.offset == k
    && sample.nodeId == b.nodeId && sample.source == b.source
    && exists v :: Shows(view, sample.kind, sample.valueId, v) && CanBeRead(v)
         && Keeps(sample.content, v.content, o.textSize)
  }

  lemma BatchIsHonest(o: Outputs, rd: Readings, cycleId: nat, now: nat, slot: Subscriptions.Slot)
    requires Live(rd, slot)
    ensures Honest(o, rd, cycleId, now, BatchOf(o, rd, cycleId, now, slot))
  {
    var c := Context(rd[slot.nodeId], cycleId, now, slot.nodeId, o.textSize);
    var e, b := Subscriptions.EntryOf(slot), BatchOf(o, rd, cycleId, now, slot);
    BatchIsExact(c, e);
    forall k | 0 <= k < |b.samples| ensures HonestSample(o, rd[b.nodeId], cycleId, now, b, k) {
      assert Truthfully(c, e, b.samples[k], k);
    }
  }

  lemma {:induction false} BatchesHonest(o: Outputs, rd: Readings, cycleId: nat, now: nat,
                                         s: seq<Subscriptions.Slot>, n: nat)
    requires n <= |s|
    ensures forall i :: 0 <= i < |Batches(o, rd, cycleId, now, s, n)| ==>
      Honest(o, rd, cycleId, now, Batches(o, rd, cycleId, now, s, n)[i])
  {
    if n > 0 {
      BatchesHonest(o, rd, cycleId, now, s, n - 1);
      if Live(rd, s[n - 1]) { BatchIsHonest(o, rd, cycleId, now, s[n - 1]); }
    }
  }

  // With unique subscriptions, being asked for is being subscribed.
  lemma AskedIsSubscribed(s: seq<Subscriptions.Slot>, p: Place)
    requires Subscriptions.UniqueIds(s)
    ensures (exists j :: 0 <= j < |s| && Asked(s[j], p)) <==> Subscribed(Subscriptions.Abs(s), p)
  {
    var k := Subscriptions.FindFrom(s, p.nodeId, 0);
    Subscriptions.AbsFind(s, p.nodeId);
    if k < |s| { assert Asked(s[k], p) <==> Subscribed(Subscriptions.Abs(s), p); }
    forall j | 0 <= j < |s| && Asked(s[j], p) ensures Subscribed(Subscriptions.Abs(s), p) {
      Subscriptions.AbsAt(s, j);
    }
  }

  // ---------- What is sent ----------

  // The batches among the attempted messages.
  function BatchesIn(log: seq<Attempt>): seq<NodeBatch> {
    if log == [] then []
    else
      var front, p := BatchesIn(log[..|log| - 1]), log[|log| - 1].message.payload;
      if p.ValuesWritten? then front + [NodeBatch(p.nodeId, p.source, p.samples)] else front
  }

  lemma PushSendsNone(o: Outputs, l: Ledger, now: nat, p: Payload)
    requires !p.ValuesWritten?
    ensures BatchesIn(Push(o, l, now, p).0.log) == BatchesIn(l.log) && Push(o, l, now, p).0.cycleId == l.cycleId
  {
    var log := Push(o, l, now, p).0.log;
    if o.queue { assert log[..|log| - 1] == l.log; }
  }

  lemma ValuesSendOne(o: Outputs, l: Ledger, now: nat, b: NodeBatch)
    requires o.queue && o.values && b.samples != []
    ensures BatchesIn(PublishValues(o, l, now, b.nodeId, b.source, b.samples).0.log) == BatchesIn(l.log) + [b]
  {
    var log := PublishValues(o, l, now, b.nodeId, b.source, b.samples).0.log;
    assert log[..|log| - 1] == l.log;
  }

  lemma {:induction false} SlotsSend(o: Outputs, l: Ledger, rd: Readings, now: nat, s: seq<Subscriptions.Slot>,
                                     n: nat)
    requires n <= |s| && o.queue && o.values
    ensures BatchesIn(PublishSlots(o, l, rd, now, s, n).0.log)
         == BatchesIn(l.log) + Batches(o, rd, l.cycleId, now, s, n)
  {
    if n > 0 {
      SlotsSend(o, l, rd, now, s, n - 1);
      if Live(rd, s[n - 1]) && BatchOf(o, rd, l.cycleId, now, s[n - 1]).samples != [] {
        ValuesSendOne(o, PublishSlots(o, l, rd, now, s, n - 1).0, now, BatchOf(o, rd, l.cycleId, now, s[n - 1]));
      }
    }
  }

  // A cycle attempts exactly the batches of its table.
  lemma CycleSends(o: Outputs, l: Ledger, slots: seq<Subscriptions.Slot>, period: nat, t: Tick)
    requires o.queue && o.values
    ensures BatchesIn(CycleLedger(o, l, slots, period, t).log)
         == BatchesIn(l.log) + Batches(o, t.readings, l.cycleId, t.finishedAt, slots, |slots|)
  {
    var l0 := PublishBegin(o, l, t.startedAt);
    PushSendsNone(o, l, t.startedAt, CycleBegin(l.cycleId, t.startedAt));
    var l1 := PublishSlots(o, l0, t.readings, t.finishedAt, slots, |slots|).0;
    SlotsSend(o, l0, t.readings, t.finishedAt, slots, |slots|);
    var l2 := PublishEnd(o, l1, t.startedAt, t.finishedAt);
    PushSendsNone(o, l1, t.finishedAt, CycleEnd(l1.cycleId, t.startedAt, t.finishedAt));
    var l3 := PublishDropped(o, l2, t.finishedAt);
    PushSendsNone(o, l2, t.finishedAt, Dropped(l2.cycleId, l2.droppedEvents, l2.droppedValues));
    if t.metrics.Some? { PushSendsNone(o, l3, Completion(period, t), Measurement(t.metrics.value)); }
  }

  // ---------- Commands to samples ----------

  // What the last cycle of a run attempted to send.
  function SentLast(run: seq<Step>): seq<NodeBatch>
    requires run != []
  {
    var e := run[|run| - 1];
    var before, after := BatchesIn(e.before.ledger.log), BatchesIn(e.after.ledger.log);
    if |before| <= |after| then after[|before|..] else []
  }

  // From the commands to the samples: in every cycle of every run the engine attempts to send a sample of
  // a value exactly when the runtime's tables hold one that can be read and the last accepted command that
  // covers it, among all popped so far, was a subscribe; and every sample it attempts to send is honest.
  lemma SampledIffSubscribed(cfg: Config, stream: seq<Command>, s: Loop, run: seq<Step>, p: Place)
    requires Execution(cfg, stream, s, run) && run != [] && p.bit < 64
    requires cfg.outputs.queue && cfg.outputs.values
    requires s.popped <= |stream| && Sound(cfg.settings, s.control)
    ensures s.popped <= Final(s, run).popped <= |stream|
    ensures Sampled(SentLast(run), p)
       <==> Offered(run[|run| - 1].tick.readings, p)
            && LastWriter(cfg.settings, s.control, stream[s.popped..Final(s, run).popped], p)
    ensures var e := run[|run| - 1];
      forall i :: 0 <= i < |SentLast(run)| ==>
        Honest(cfg.outputs, e.tick.readings, e.before.ledger.cycleId, e.tick.finishedAt, SentLast(run)[i])
  {
    LastStep(cfg, stream, s, run);
    RunIsFold(cfg, stream, s, run);
    var e, cmds := run[|run| - 1], stream[s.popped..Final(s, run).popped];
    var slots := e.after.control.slots;
    LastWriterWins(cfg.settings, s.control, cmds, p);
    FoldKeepsSound(cfg.settings, s.control, cmds);
    AskedIsSubscribed(slots, p);
    BatchesHold(cfg.outputs, e.tick.readings, e.before.ledger.cycleId, e.tick.finishedAt, slots, |slots|, p);
    BatchesHonest(cfg.outputs, e.tick.readings, e.before.ledger.cycleId, e.tick.finishedAt, slots, |slots|);
    CycleSends(cfg.outputs, e.before.ledger, slots, e.after.control.period, e.tick);
  }
}
