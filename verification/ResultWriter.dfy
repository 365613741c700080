/** Writing results: descriptor copies and the snapshot block, one push at a time. */
module ResultWriter {
  import opened CStrings
  import opened Descriptors
  import opened Options
  import opened Registry
  import opened Results

  method CopyPortsInto(size: Size, ports: seq<PortInfo>, capacity: nat) returns (r: seq<PortCopy>)
    ensures r == CopyPorts(size, ports, capacity)
  {
    var count := if |ports| < capacity then |ports| else capacity;
    r := [];
    for i := 0 to count
      invariant |r| == i && forall j :: 0 <= j < i ==> r[j] == CopyPort(size, ports[j])
    {
      var name := ThroughBuffer(ports[i].name, size);
      r := r + [PortCopy(name, ports[i].valueType, ports[i].input)];
    }
  }

  method CopyFieldsInto(room: FieldRoom, fields: seq<FieldInfo>) returns (r: seq<FieldCopy>)
    ensures r == CopyFields(room, fields)
  {
    var count := if |fields| < room.capacity then |fields| else room.capacity;
    r := [];
    for i := 0 to count
      invariant |r| == i && forall j :: 0 <= j < i ==> r[j] == CopyField(room, fields[j])
    {
      var name := ThroughBuffer(fields[i].name, room.name);
      var description := ThroughBuffer(fields[i].description, room.text);
      r := r + [FieldCopy(name, description, fields[i].valueType)];
    }
  }

  method CopyDescriptor(room: Room, d: Descriptor) returns (c: DescriptorCopy)
    ensures c == Copy(room, d)
  {
    var name := ThroughBuffer(Some(d.name), room.name);
    var ports := CopyPortsInto(room.portName, d.ports, room.ports);
    var params := CopyFieldsInto(room.params, d.params);
    var states := CopyFieldsInto(room.states, d.states);
    c := DescriptorCopy(d.nodeType, (|d.ports|, |d.params|, |d.states|), name, ports, params, states);
  }

  class Writer {
    const limits: Limits
    const queue: ResultQueue
    var log: seq<ResultAttempt>

    constructor (limits: Limits, queue: ResultQueue)
      ensures this.limits == limits && this.queue == queue && log == []
    {
      this.limits, this.queue, this.log := limits, queue, [];
    }

    method PushResultMessage(m: Result) returns (ok: bool)
      modifies this
      ensures (log, ok) == PushResult(queue, old(log), m)
    {
      if !queue.present {
        return false;
      }
      ok := queue.accepts(|log|);
      log := log + [ResultAttempt(m, ok)];
    }

    method PushNodeSnapshots(number: nat, loaded: seq<LoadedNode>, states: map<nat, RunState>, nodes: seq<Node>)
      returns (ok: bool)
      modifies this
      ensures (log, ok) == PushAll(queue, old(log), NodeResults(limits, number, loaded, states, nodes))
    {
      ok := true;
      for i := 0 to |nodes|
        invariant (log, ok) == PushAll(queue, old(log), NodeResults(limits, number, loaded, states, nodes[..i]))
      {
        assert nodes[..i + 1][..i] == nodes[..i];
        var n, entry := nodes[i], Get(loaded, nodes[i].name);
        if entry.Some? {
          var copied := CopyDescriptor(limits.room, entry.value.descriptor);
          var pushed := PushResultMessage(
            Result(number, SnapshotKind, true, StatusCode(limits, states, n.id), n.id, copied, NO_ENDPOINTS));
          ok := pushed && ok;
        }
      }
      assert nodes[..|nodes|] == nodes;
    }

    method PushConnectionSnapshots(number: nat, connections: seq<Connection>) returns (ok: bool)
      modifies this
      ensures (log, ok) == PushAll(queue, old(log), ConnectionResults(limits, number, connections))
    {
      ok := true;
      for i := 0 to |connections|
        invariant (log, ok) == PushAll(queue, old(log), ConnectionResults(limits, number, connections[..i]))
      {
        assert connections[..i + 1][..i] == connections[..i];
        var c := connections[i];
        if c.sourcePort.Some? && c.destinationPort.Some? {
          var pushed := PushResultMessage(
            Result(number, SnapshotKind, true, 0, limits.invalidId, NO_COPY,
                   Endpoints(c.id, c.sourceNode, c.sourcePort.value,
                             c.destinationNode, c.destinationPort.value, c.timing)));
          ok := pushed && ok;
        }
      }
      assert connections[..|connections|] == connections;
    }

    // The answer to a request for the runtime's nodes: nodes, connections, terminator. A refused
    // push is remembered but stops nothing.
    method RequestRuntimeNodes(number: nat, loaded: seq<LoadedNode>, states: map<nat, RunState>, nodes: seq<Node>,
                               connections: seq<Connection>)
      returns (ok: bool)
      modifies this
      ensures (log, ok) == PushAll(queue, old(log), Block(limits, number, loaded, states, nodes, connections))
    {
      ghost var ns := NodeResults(limits, number, loaded, states, nodes);
      ghost var cs := ConnectionResults(limits, number, connections);
      PushAllConcat(queue, log, ns, cs);
      PushAllConcat(queue, log, ns + cs, [Done(limits, number)]);
      var ok1 := PushNodeSnapshots(number, loaded, states, nodes);
      var ok2 := PushConnectionSnapshots(number, connections);
      var ok3 := PushResultMessage(Done(limits, number));
      ok := ok3 && ok2 && ok1;
      assert [Done(limits, number)][..0] == [];
    }
  }
}
