/** The engine's telemetry publishers: counters updated in place, messages pushed to a queue that
    may be full, and the 128-entry sample buffer that is filled and overwritten slot by slot. */
module Publisher {
  import opened CStrings
  import opened Options
  import opened BitMask
  import opened Subscriptions
  import opened SubscriptionTable
  import opened Telemetry
  import opened Sampling

  const BUFFER_SIZE := 128

  const BLANK: Sample := Sample(0, 0, 0, 0, 0, PortKind, NoSource, OtherContent)

  // The content of an entry whose type has been set and whose data is still zero.
  function Cleared(content: Content): Content {
    match content
    case F32(_) => F32(0)
    case F64(_) => F64(0)
    case I64(_) => I64(0)
    case U64(_) => U64(0)
    case Characters(_) => Characters("")
    case OtherContent => OtherContent
  }

  // Fills the sample at the given index, even when the value turns out to be unreadable.
  method SampleValue(value: Value, c: Context, valueId: nat, kind: Kind, samples: array<Sample>, at: nat)
    returns (ok: bool)
    requires at < samples.Length
    modifies samples
    ensures ok <==> Samplable(value)
    ensures ok ==>
      var stored := Stored(value.content, c.textSize);
      samples[at] == Sample(0, c.timestamp, c.nodeId, valueId, at, kind, SourceOf(c.view), stored)
    ensures forall k :: 0 <= k < samples.Length && k != at ==> samples[k] == old(samples[k])
  {
    samples[at] := Sample(0, c.timestamp, c.nodeId, valueId, at, kind, SourceOf(c.view), Cleared(value.content));
    match value.content {
      case OtherContent =>
        return false;
      case Characters(text) =>
        if !value.readable {
          return false;
        }
        var kept := ThroughBuffer(Some(text), c.textSize);
        samples[at] := samples[at].(content := Characters(kept));
        return true;
      case _ =>
        if !value.readable {
          return false;
        }
        samples[at] := samples[at].(content := value.content);
        return true;
    }
  }

  // One of the two sampling loops: every subscribed index of one kind, appended after count samples.
  method AppendSamples(c: Context, mask: bv64, kind: Kind, samples: array<Sample>, count0: nat)
    returns (count: nat)
    requires count0 + 64 <= samples.Length
    modifies samples
    ensures count <= count0 + 64
    ensures samples[..count] == Collect(c, BitSet(mask), kind, 64, old(samples[..count0]))
  {
    count := count0;
    var id := 0;
    while id < 64
      invariant id <= 64 && count0 <= count <= count0 + id
      invariant samples[..count] == Collect(c, BitSet(mask), kind, id, old(samples[..count0]))
    {
      var value := Lookup(c.view, kind, id);
      if Has(mask, id) && value.Some? {
        ghost var before := samples[..count];
        var ok := SampleValue(value.value, c, id, kind, samples, count);
        assert samples[..count] == before;
        if ok {
          samples[count] := samples[count].(cycleId := c.cycleId);
          assert samples[..count + 1] == before + [SampleOf(c, kind, id, count)];
          count := count + 1;
        }
      }
      id := id + 1;
    }
  }

  class Publisher {
    const outputs: Outputs
    var cycleId: nat
    var telemetrySeq: nat
    var droppedTelemetryEvents: nat
    var droppedTelemetryValues: nat
    var log: seq<Attempt>

    ghost function State(): Ledger
      reads this
    {
      Ledger(cycleId, telemetrySeq, droppedTelemetryEvents, droppedTelemetryValues, log)
    }

    constructor (outputs: Outputs)
      ensures this.outputs == outputs && State() == Ledger(0, 0, 0, 0, []) && Accounted(State())
    {
      this.outputs := outputs;
      cycleId, telemetrySeq, droppedTelemetryEvents, droppedTelemetryValues, log := 0, 0, 0, 0, [];
    }

    method TryPush(message: Message) returns (ok: bool)
      modifies this`log
      ensures ok == outputs.accepts(message.number) && log == old(log) + [Attempt(message, ok)]
    {
      ok := outputs.accepts(message.number);
      log := log + [Attempt(message, ok)];
    }

    method NextTelemetrySeq() returns (n: nat)
      modifies this`telemetrySeq
      ensures n == telemetrySeq == old(telemetrySeq) + 1
    {
      telemetrySeq := telemetrySeq + 1;
      return telemetrySeq;
    }

    method PushTelemetry(timestamp: nat, payload: Payload) returns (ok: bool)
      modifies this
      ensures (State(), ok) == Push(outputs, old(State()), timestamp, payload)
    {
      if !outputs.queue {
        return false;
      }
      var n := NextTelemetrySeq();
      ok := TryPush(Message(n, timestamp, droppedTelemetryEvents, payload));
      if !ok {
        droppedTelemetryEvents := droppedTelemetryEvents + 1;
      }
    }

    method PublishCycleBegin(now: nat)
      modifies this
      ensures State() == PublishBegin(outputs, old(State()), now)
    {
      var _ := PushTelemetry(now, CycleBegin(cycleId, now));
    }

    method PublishCycleEnd(startedAt: nat, finishedAt: nat)
      modifies this
      ensures State() == PublishEnd(outputs, old(State()), startedAt, finishedAt)
    {
      var _ := PushTelemetry(finishedAt, CycleEnd(cycleId, startedAt, finishedAt));
    }

    method PublishCycleMeasurement(now: nat, metrics: Metrics)
      modifies this
      ensures State() == PublishMeasurement(outputs, old(State()), now, metrics)
    {
      var _ := PushTelemetry(now, Measurement(metrics));
    }

    method PublishCycleDropped(now: nat)
      modifies this
      ensures State() == PublishDropped(outputs, old(State()), now)
    {
      if droppedTelemetryEvents == 0 && droppedTelemetryValues == 0 {
        return;
      }
      var _ := PushTelemetry(now, Dropped(cycleId, droppedTelemetryEvents, droppedTelemetryValues));
    }

    method PublishBatch(timestamp: nat, nodeId: nat, source: Source, samples: seq<Sample>) returns (ok: bool)
      modifies this
      ensures (State(), ok) == PublishValues(outputs, old(State()), timestamp, nodeId, source, samples)
    {
      if !outputs.queue || !outputs.values || samples == [] {
        return false;
      }
      var n := NextTelemetrySeq();
      ok := TryPush(Message(n, timestamp, droppedTelemetryEvents, ValuesWritten(cycleId, nodeId, source, samples)));
      if !ok {
        droppedTelemetryValues := droppedTelemetryValues + |samples|;
      }
    }

    method PublishRequestedValues(table: Table, rd: Readings, now: nat) returns (published: bool)
      modifies this
      ensures (State(), published)
           == PublishSlots(outputs, old(State()), rd, now, table.State(), |table.State()|)
    {
      published := true;
      ghost var s := table.State();
      var i := 0;
      while i < table.slots.Length
        invariant i <= table.slots.Length
        invariant (State(), published) == PublishSlots(outputs, old(State()), rd, now, s, i)
      {
        var raw := table.slots[i];
        if raw.used && raw.nodeId in rd && SourceOf(rd[raw.nodeId]) != NoSource {
          var samples := new Sample[BUFFER_SIZE](_ => BLANK);
          var c := Context(rd[raw.nodeId], cycleId, now, raw.nodeId, outputs.textSize);
          var count := AppendSamples(c, raw.portValuesMask, PortKind, samples, 0);
          count := AppendSamples(c, raw.variableMask, StateKind, samples, count);
          assert samples[..count] == Batch(c, EntryOf(s[i]));
          if count > 0 {
            var sent := PublishBatch(now, raw.nodeId, SourceOf(c.view), samples[..count]);
            if !sent {
              published := false;
            }
          }
        }
        i := i + 1;
      }
    }
  }
}
