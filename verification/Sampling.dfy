/** Turning one subscription into a batch of samples, and publishing every subscription of a cycle. */
module Sampling {
  import opened CStrings
  import opened Descriptors
  import opened Subscriptions
  import opened Telemetry
  import opened Options

  // A runtime value, and whether reading it succeeds.
  datatype Value = Value(content: Content, readable: bool)

  // What the runtime shows of one node.
  datatype NodeView = NodeView(nodeType: NodeType, outPorts: map<nat, Value>, inPorts: map<nat, Value>,
                               states: map<nat, Value>)

  type Readings = map<nat, NodeView>

  // The circumstances of one batch.
  datatype Context = Context(view: NodeView, cycleId: nat, timestamp: nat, nodeId: nat, textSize: Size)

  function SourceOf(view: NodeView): Source {
    match view.nodeType
    case DeviceType => Device
    case PluginType => Plugin
    case _ => NoSource
  }

  // An output port's value when there is one, else the input port's; states have a single table.
  function Lookup(view: NodeView, kind: Kind, id: nat): Option<Value> {
    if kind == StateKind then (if id in view.states then Some(view.states[id]) else None)
    else if id in view.outPorts then Some(view.outPorts[id])
    else if id in view.inPorts then Some(view.inPorts[id])
    else None
  }

  predicate Samplable(v: Value) {
    !v.content.OtherContent? && v.readable
  }

  predicate Wanted(c: Context, bits: set<nat>, kind: Kind, id: nat) {
    id in bits && Lookup(c.view, kind, id).Some? && Samplable(Lookup(c.view, kind, id).value)
  }

  // A sample holds a number whole and as much of a string as its buffer takes.
  function Stored(content: Content, size: Size): Content {
    if content.Characters? then Characters(Fit(content.text, size)) else content
  }

  function SampleOf(c: Context, kind: Kind, id: nat, offset: nat): Sample
    requires Lookup(c.view, kind, id).Some?
  {
    var v := Lookup(c.view, kind, id).value;
    Sample(c.cycleId, c.timestamp, c.nodeId, id, offset, kind, SourceOf(c.view), Stored(v.content, c.textSize))
  }

  // The samples of the wanted ids below n, ascending, after those already collected.
  function Collect(c: Context, bits: set<nat>, kind: Kind, n: nat, start: seq<Sample>): (r: seq<Sample>)
    ensures |start| <= |r| <= |start| + n
  {
    if n == 0 then start
    else
      var r := Collect(c, bits, kind, n - 1, start);
      if Wanted(c, bits, kind, n - 1) then r + [SampleOf(c, kind, n - 1, |r|)] else r
  }

  function Batch(c: Context, e: Entry): (r: seq<Sample>)
    ensures |r| <= 128
  {
    Collect(c, e.variables, StateKind, 64, Collect(c, e.ports, PortKind, 64, []))
  }

  // ---------- What a batch contains ----------

  predicate IsEntry(c: Context, bits: set<nat>, kind: Kind, n: nat, sample: Sample, offset: nat) {
    sample.valueId < n && Wanted(c, bits, kind, sample.valueId) && sample == SampleOf(c, kind, sample.valueId, offset)
  }

  ghost predicate Present(run: seq<Sample>, id: nat) {
    exists k :: 0 <= k < |run| && run[k].valueId == id
  }

  // run holds exactly the wanted ids below n, ascending, with offsets counted from base.
  ghost predicate AscendingRun(c: Context, bits: set<nat>, kind: Kind, n: nat, run: seq<Sample>, base: nat) {
    && (forall k :: 0 <= k < |run| ==> IsEntry(c, bits, kind, n, run[k], base + k))
    && (forall k, l :: 0 <= k < l < |run| ==> run[k].valueId < run[l].valueId)
    && (forall id: nat :: id < n && Wanted(c, bits, kind, id) ==> Present(run, id))
  }

  lemma RunExtends(c: Context, bits: set<nat>, kind: Kind, n: nat, run: seq<Sample>, base: nat)
    requires AscendingRun(c, bits, kind, n, run, base)
    ensures Wanted(c, bits, kind, n) ==>
      AscendingRun(c, bits, kind, n + 1, run + [SampleOf(c, kind, n, base + |run|)], base)
    ensures !Wanted(c, bits, kind, n) ==> AscendingRun(c, bits, kind, n + 1, run, base)
  {
    if Wanted(c, bits, kind, n) {
      var next := run + [SampleOf(c, kind, n, base + |run|)];
      assert next[|run|].valueId == n;
      forall id: nat | id < n && Wanted(c, bits, kind, id) ensures Present(next, id) {
        assert Present(run, id);
        var k :| 0 <= k < |run| && run[k].valueId == id;
        assert next[k].valueId == id;
      }
    }
  }

  lemma AppendKeepsPrefix(p: seq<Sample>, sample: Sample, k: nat)
    requires k <= |p|
    ensures (p + [sample])[..k] == p[..k] && (p + [sample])[k..] == p[k..] + [sample]
  {
  }

  // r is start followed by the run of the ids below n.
  ghost predicate ExtendsByRun(c: Context, bits: set<nat>, kind: Kind, n: nat, start: seq<Sample>, r: seq<Sample>) {
    && |start| <= |r| && r[..|start|] == start
    && AscendingRun(c, bits, kind, n, r[|start|..], |start|)
  }

  lemma RunExtendsAfter(c: Context, bits: set<nat>, kind: Kind, n: nat, start: seq<Sample>, p: seq<Sample>)
    requires ExtendsByRun(c, bits, kind, n, start, p)
    ensures Wanted(c, bits, kind, n) ==> ExtendsByRun(c, bits, kind, n + 1, start, p + [SampleOf(c, kind, n, |p|)])
    ensures !Wanted(c, bits, kind, n) ==> ExtendsByRun(c, bits, kind, n + 1, start, p)
  {
    RunExtends(c, bits, kind, n, p[|start|..], |start|);
    if Wanted(c, bits, kind, n) { AppendKeepsPrefix(p, SampleOf(c, kind, n, |p|), |start|); }
  }

  lemma {:induction false} CollectIsRun(c: Context, bits: set<nat>, kind: Kind, n: nat, start: seq<Sample>)
    ensures ExtendsByRun(c, bits, kind, n, start, Collect(c, bits, kind, n, start))
  {
    if n > 0 {
      CollectIsRun(c, bits, kind, n - 1, start);
      RunExtendsAfter(c, bits, kind, n - 1, start, Collect(c, bits, kind, n - 1, start));
    }
  }

  // The ports' samples come first; the split point is their number.
  function PortCount(c: Context, e: Entry): nat {
    |Collect(c, e.ports, PortKind, 64, [])|
  }

  lemma BatchIsRuns(c: Context, e: Entry)
    ensures var r, p := Batch(c, e), PortCount(c, e);
      && p <= |r| <= 128
      && AscendingRun(c, e.ports, PortKind, 64, r[..p], 0)
      && AscendingRun(c, e.variables, StateKind, 64, r[p..], p)
  {
    var ports := Collect(c, e.ports, PortKind, 64, []);
    CollectIsRun(c, e.ports, PortKind, 64, []);
    CollectIsRun(c, e.variables, StateKind, 64, ports);
    assert ports[0..] == ports;
  }

  // ---------- The same in terms of the runtime's tables ----------

  // The value the tables hold for a port or a state: an output port hides an input port of the same id.
  ghost predicate Shows(view: NodeView, kind: Kind, id: nat, v: Value) {
    match kind
    case StateKind => id in view.states && view.states[id] == v
    case PortKind =>
      || (id in view.outPorts && view.outPorts[id] == v)
      || (id !in view.outPorts && id in view.inPorts && view.inPorts[id] == v)
  }

  // Five types can be sampled, when reading succeeds.
  ghost predicate CanBeRead(v: Value) {
    v.readable
    && (v.content.F32? || v.content.F64? || v.content.I64? || v.content.U64? || v.content.Characters?)
  }

  // A sample keeps a number as it is, and of a string the longest prefix that leaves room for a terminator.
  ghost predicate Keeps(kept: Content, held: Content, size: Size) {
    match held
    case F32(bits) => kept == F32(bits)
    case F64(bits) => kept == F64(bits)
    case I64(number) => kept == I64(number)
    case U64(count) => kept == U64(count)
    case Characters(text) =>
      kept.Characters? && kept.text <= text && |kept.text| == if |text| < size then |text| else size - 1
    case OtherContent => false
  }

  ghost predicate Names(source: Source, nodeType: NodeType) {
    (source == Device <==> nodeType == DeviceType) && (source == Plugin <==> nodeType == PluginType)
  }

  function Asks(e: Entry, kind: Kind): set<nat> {
    if kind == PortKind then e.ports else e.variables
  }

  // The k-th sample tells the truth about a value that was asked for.
  ghost predicate Truthfully(c: Context, e: Entry, sample: Sample, k: nat) {
    && sample.offset == k && sample.cycleId == c.cycleId && sample.timestamp == c.timestamp
    && sample.nodeId == c.nodeId && Names(sample.source, c.view.nodeType)
    && sample.valueId < 64 && sample.valueId in Asks(e, sample.kind)
    && exists v :: Shows(c.view, sample.kind, sample.valueId, v) && CanBeRead(v)
         && Keeps(sample.content, v.content, c.textSize)
  }

  // Ports come before states, and each in ascending order.
  ghost predicate Precedes(a: Sample, b: Sample) {
    (a.kind == PortKind && b.kind == StateKind) || (a.kind == b.kind && a.valueId < b.valueId)
  }

  ghost predicate Contains(r: seq<Sample>, kind: Kind, id: nat) {
    exists k :: 0 <= k < |r| && r[k].kind == kind && r[k].valueId == id
  }

  lemma WantedIsShown(c: Context, bits: set<nat>, kind: Kind, id: nat)
    ensures Wanted(c, bits, kind, id) <==> id in bits && exists v :: Shows(c.view, kind, id, v) && CanBeRead(v)
  {
    var v := Lookup(c.view, kind, id);
    if v.Some? { assert Shows(c.view, kind, id, v.value); }
  }

  lemma SampleIsTrue(c: Context, e: Entry, kind: Kind, id: nat, k: nat)
    requires id < 64 && Wanted(c, Asks(e, kind), kind, id)
    ensures Truthfully(c, e, SampleOf(c, kind, id, k), k)
  {
    var v := Lookup(c.view, kind, id).value;
    assert Shows(c.view, kind, id, v) && CanBeRead(v);
    assert Keeps(Stored(v.content, c.textSize), v.content, c.textSize);
  }

  lemma BatchEntries(c: Context, e: Entry, k: nat)
    requires k < |Batch(c, e)|
    ensures var kind, id := if k < PortCount(c, e) then PortKind else StateKind, Batch(c, e)[k].valueId;
      id < 64 && Wanted(c, Asks(e, kind), kind, id) && Batch(c, e)[k] == SampleOf(c, kind, id, k)
  {
    BatchIsRuns(c, e);
    var r, p := Batch(c, e), PortCount(c, e);
    if k < p {
      assert IsEntry(c, e.ports, PortKind, 64, r[..p][k], k);
    } else {
      assert IsEntry(c, e.variables, StateKind, 64, r[p..][k - p], k);
    }
  }

  lemma BatchInOrder(c: Context, e: Entry, k: nat, l: nat)
    requires k < l < |Batch(c, e)|
    ensures Precedes(Batch(c, e)[k], Batch(c, e)[l])
  {
    BatchIsRuns(c, e);
    BatchEntries(c, e, k);
    BatchEntries(c, e, l);
    var r, p := Batch(c, e), PortCount(c, e);
    if l < p {
      assert r[..p][k].valueId < r[..p][l].valueId;
    } else if p <= k {
      assert r[p..][k - p].valueId < r[p..][l - p].valueId;
    }
  }

  lemma BatchIsComplete(c: Context, e: Entry, kind: Kind, id: nat)
    requires id < 64 && Wanted(c, Asks(e, kind), kind, id)
    ensures Contains(Batch(c, e), kind, id)
  {
    BatchIsRuns(c, e);
    var r, p := Batch(c, e), PortCount(c, e);
    var run := if kind == PortKind then r[..p] else r[p..];
    assert Present(run, id);
    var j :| 0 <= j < |run| && run[j].valueId == id;
    var k := if kind == PortKind then j else p + j;
    assert run[j] == r[k];
    BatchEntries(c, e, k);
  }

  // A batch is exactly the subscribed ports and then the subscribed states that the runtime's tables hold
  // a readable value for, each once, ascending, numbered from 0, with what a sample keeps of that value.
  // It never outgrows the buffer of 128.
  lemma BatchIsExact(c: Context, e: Entry)
    ensures var r := Batch(c, e);
      && |r| <= 128
      && (forall k, l :: 0 <= k < l < |r| ==> Precedes(r[k], r[l]))
      && (forall k :: 0 <= k < |r| ==> Truthfully(c, e, r[k], k))
      && (forall kind, id, v :: id < 64 && id in Asks(e, kind) && Shows(c.view, kind, id, v) && CanBeRead(v) ==>
            Contains(r, kind, id))
  {
    var r := Batch(c, e);
    forall k, l | 0 <= k < l < |r| ensures Precedes(r[k], r[l]) { BatchInOrder(c, e, k, l); }
    forall k | 0 <= k < |r| ensures Truthfully(c, e, r[k], k) {
      BatchEntries(c, e, k);
      SampleIsTrue(c, e, if k < PortCount(c, e) then PortKind else StateKind, r[k].valueId, k);
    }
    forall kind, id, v | id < 64 && id in Asks(e, kind) && Shows(c.view, kind, id, v) && CanBeRead(v)
      ensures Contains(r, kind, id)
    {
      WantedIsShown(c, Asks(e, kind), kind, id);
      BatchIsComplete(c, e, kind, id);
    }
  }

  // Consequently no value appears twice, and offsets, cycle and node are as announced.
  lemma BatchHasNoDuplicates(c: Context, e: Entry)
    ensures var r := Batch(c, e);
      && (forall k :: 0 <= k < |r| ==> r[k].offset == k && r[k].cycleId == c.cycleId && r[k].nodeId == c.nodeId)
      && (forall k, l :: 0 <= k < l < |r| ==> (r[k].kind, r[k].valueId) != (r[l].kind, r[l].valueId))
  {
    BatchIsExact(c, e);
    var r := Batch(c, e);
    forall k, l | 0 <= k < l < |r| ensures (r[k].kind, r[k].valueId) != (r[l].kind, r[l].valueId) {
      assert Precedes(r[k], r[l]);
    }
  }

  // ---------- All subscriptions of a cycle ----------

  datatype NodeBatch = NodeBatch(nodeId: nat, source: Source, samples: seq<Sample>)

  predicate Live(rd: Readings, slot: Slot) {
    slot.used && slot.nodeId in rd && SourceOf(rd[slot.nodeId]) != NoSource
  }

  function BatchOf(o: Outputs, rd: Readings, cycleId: nat, now: nat, slot: Slot): NodeBatch
    requires Live(rd, slot)
  {
    var view := rd[slot.nodeId];
    NodeBatch(slot.nodeId, SourceOf(view), Batch(Context(view, cycleId, now, slot.nodeId, o.textSize), EntryOf(slot)))
  }

  // The non-empty batches of the first n slots, in slot order.
  function Batches(o: Outputs, rd: Readings, cycleId: nat, now: nat, s: seq<Slot>, n: nat): seq<NodeBatch>
    requires n <= |s|
  {
    if n == 0 then []
    else
      var front := Batches(o, rd, cycleId, now, s, n - 1);
      if Live(rd, s[n - 1]) && BatchOf(o, rd, cycleId, now, s[n - 1]).samples != []
      then front + [BatchOf(o, rd, cycleId, now, s[n - 1])] else front
  }

  // Publishing the first n slots; the flag stays true while no non-empty batch has failed.
  function PublishSlots(o: Outputs, t: Ledger, rd: Readings, now: nat, s: seq<Slot>, n: nat): (r: (Ledger, bool))
    requires n <= |s|
    ensures r.0.cycleId == t.cycleId
  {
    if n == 0 then (t, true)
    else
      var (t1, ok) := PublishSlots(o, t, rd, now, s, n - 1);
      if !Live(rd, s[n - 1]) then (t1, ok)
      else
        var b := BatchOf(o, rd, t.cycleId, now, s[n - 1]);
        if b.samples == [] then (t1, ok)
        else
          var (t2, sent) := PublishValues(o, t1, now, b.nodeId, b.source, b.samples);
          (t2, ok && sent)
  }

  function Total(bs: seq<NodeBatch>): nat {
    if bs == [] then 0 else Total(bs[..|bs| - 1]) + |bs[|bs| - 1].samples|
  }

  // The attempts are the non-empty batches, one each, in slot order; none stops the next.
  ghost predicate Attempted(bs: seq<NodeBatch>, cycleId: nat, attempts: seq<Attempt>) {
    && |attempts| == |bs|
    && forall i :: 0 <= i < |bs| ==>
         attempts[i].message.payload == ValuesWritten(cycleId, bs[i].nodeId, bs[i].source, bs[i].samples)
  }

  ghost predicate AllAccepted(attempts: seq<Attempt>) {
    forall i :: 0 <= i < |attempts| ==> attempts[i].accepted
  }

  lemma OneMoreAttempt(bs: seq<NodeBatch>, cycleId: nat, attempts: seq<Attempt>, b: NodeBatch, a: Attempt)
    requires Attempted(bs, cycleId, attempts)
    requires a.message.payload == ValuesWritten(cycleId, b.nodeId, b.source, b.samples)
    ensures Attempted(bs + [b], cycleId, attempts + [a])
    ensures AllAccepted(attempts + [a]) <==> AllAccepted(attempts) && a.accepted
  {
    var more := attempts + [a];
    assert more[|attempts|] == a && forall i :: 0 <= i < |attempts| ==> more[i] == attempts[i];
  }

  lemma {:induction false} PublishesEveryBatch(o: Outputs, t: Ledger, rd: Readings, now: nat, s: seq<Slot>, n: nat)
    requires n <= |s| && o.queue && o.values
    ensures var (t', ok) := PublishSlots(o, t, rd, now, s, n);
      && t.log <= t'.log
      && Attempted(Batches(o, rd, t.cycleId, now, s, n), t.cycleId, t'.log[|t.log|..])
      && (ok <==> AllAccepted(t'.log[|t.log|..]))
  {
    if n > 0 {
      PublishesEveryBatch(o, t, rd, now, s, n - 1);
      var bs := Batches(o, rd, t.cycleId, now, s, n - 1);
      var t1 := PublishSlots(o, t, rd, now, s, n - 1).0;
      var t2 := PublishSlots(o, t, rd, now, s, n).0;
      if Live(rd, s[n - 1]) && BatchOf(o, rd, t.cycleId, now, s[n - 1]).samples != [] {
        var a := t2.log[|t1.log|];
        OneMoreAttempt(bs, t.cycleId, t1.log[|t.log|..], BatchOf(o, rd, t.cycleId, now, s[n - 1]), a);
        assert t2.log[|t.log|..] == t1.log[|t.log|..] + [a];
      }
    }
  }

  // With an output missing nothing is published, and the call fails exactly when there was something to send.
  lemma {:induction false} WithoutOutputs(o: Outputs, t: Ledger, rd: Readings, now: nat, s: seq<Slot>, n: nat)
    requires n <= |s| && !(o.queue && o.values)
    ensures PublishSlots(o, t, rd, now, s, n) == (t, Batches(o, rd, t.cycleId, now, s, n) == [])
  {
    if n > 0 { WithoutOutputs(o, t, rd, now, s, n - 1); }
  }

  lemma {:induction false} PublishSlotsAccounted(o: Outputs, t: Ledger, rd: Readings, now: nat, s: seq<Slot>, n: nat)
    requires n <= |s| && Accounted(t)
    ensures Accounted(PublishSlots(o, t, rd, now, s, n).0)
  {
    if n > 0 {
      PublishSlotsAccounted(o, t, rd, now, s, n - 1);
      var t1 := PublishSlots(o, t, rd, now, s, n - 1).0;
      if Live(rd, s[n - 1]) {
        var b := BatchOf(o, rd, t.cycleId, now, s[n - 1]);
        PublishValuesAccounted(o, t1, now, b.nodeId, b.source, b.samples);
      }
    }
  }

  lemma TotalAppend(bs: seq<NodeBatch>, b: NodeBatch)
    ensures Total(bs + [b]) == Total(bs) + |b.samples|
  {
    assert (bs + [b])[..|bs|] == bs;
  }

  lemma PublishValuesSettles(o: Outputs, t: Ledger, now: nat, b: NodeBatch)
    requires o.queue && o.values && b.samples != []
    ensures Settled(PublishValues(o, t, now, b.nodeId, b.source, b.samples).0) == Settled(t) + |b.samples|
  {
    var log := PublishValues(o, t, now, b.nodeId, b.source, b.samples).0.log;
    assert log[..|log| - 1] == t.log;
  }

  // Every sample collected in the call is in a delivered batch or in the dropped-values counter.
  lemma {:induction false} SamplesConserved(o: Outputs, t: Ledger, rd: Readings, now: nat, s: seq<Slot>, n: nat)
    requires n <= |s| && o.queue && o.values
    ensures var t' := PublishSlots(o, t, rd, now, s, n).0;
      Total(Batches(o, rd, t.cycleId, now, s, n)) == Settled(t') - Settled(t)
  {
    if n > 0 {
      SamplesConserved(o, t, rd, now, s, n - 1);
      if Live(rd, s[n - 1]) && BatchOf(o, rd, t.cycleId, now, s[n - 1]).samples != [] {
        var b := BatchOf(o, rd, t.cycleId, now, s[n - 1]);
        TotalAppend(Batches(o, rd, t.cycleId, now, s, n - 1), b);
        PublishValuesSettles(o, PublishSlots(o, t, rd, now, s, n - 1).0, now, b);
      }
    }
  }

  ghost predicate FromSlots(bs: seq<NodeBatch>, s: seq<Slot>, n: nat)
    requires n <= |s|
  {
    forall i :: 0 <= i < |bs| ==> OwnedBelow(bs[i].nodeId, s, n)
  }

  ghost predicate OwnedBelow(id: nat, s: seq<Slot>, n: nat)
    requires n <= |s|
  {
    exists j :: 0 <= j < n && Holds(s[j], id)
  }

  // Unique subscriptions give each node at most one batch per cycle.
  lemma {:induction false} OneBatchPerNode(o: Outputs, rd: Readings, cycleId: nat, now: nat, s: seq<Slot>, n: nat)
    requires n <= |s| && UniqueIds(s)
    ensures var bs := Batches(o, rd, cycleId, now, s, n);
      && FromSlots(bs, s, n)
      && (forall i, j :: 0 <= i < j < |bs| ==> bs[i].nodeId != bs[j].nodeId)
  {
    if n > 0 {
      OneBatchPerNode(o, rd, cycleId, now, s, n - 1);
      var front := Batches(o, rd, cycleId, now, s, n - 1);
      forall i | 0 <= i < |front|
        ensures OwnedBelow(front[i].nodeId, s, n) && (s[n - 1].used ==> front[i].nodeId != s[n - 1].nodeId)
      {
        assert OwnedBelow(front[i].nodeId, s, n - 1);
      }
      assert s[n - 1].used ==> Holds(s[n - 1], s[n - 1].nodeId);
    }
  }
}
