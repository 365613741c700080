/** Node descriptors as modules provide them, and the bounded copies that travel in results. */
module Descriptors {
  import opened CStrings
  import opened Options

  datatype NodeType = InvalidType | PluginType | DeviceType | UnknownType

  predicate IsValidType(t: NodeType) {
    t == PluginType || t == DeviceType
  }

  // A missing name or description is a null pointer in the module.
  datatype PortInfo = PortInfo(name: Option<Text>, valueType: nat, input: bool)

  // A parameter or a state.
  datatype FieldInfo = FieldInfo(name: Option<Text>, description: Option<Text>, valueType: nat)

  datatype Descriptor = Descriptor(name: Text, nodeType: NodeType, ports: seq<PortInfo>,
                                   params: seq<FieldInfo>, states: seq<FieldInfo>)

  // ---------- Copies ----------

  datatype PortCopy = PortCopy(name: Text, valueType: nat, input: bool)

  datatype FieldCopy = FieldCopy(name: Text, description: Text, valueType: nat)

  // The counts are those of the descriptor, not of the copied entries.
  datatype DescriptorCopy = DescriptorCopy(nodeType: NodeType, counts: (nat, nat, nat), name: Text,
                                           ports: seq<PortCopy>, params: seq<FieldCopy>, states: seq<FieldCopy>)

  const NO_COPY: DescriptorCopy := DescriptorCopy(InvalidType, (0, 0, 0), "", [], [], [])

  // The buffers of one parameter or state, and how many of them a copy has room for.
  datatype FieldRoom = FieldRoom(name: Size, text: Size, capacity: nat)

  datatype Room = Room(name: Size, portName: Size, ports: nat, params: FieldRoom, states: FieldRoom)

  function CopyPort(size: Size, p: PortInfo): PortCopy {
    PortCopy(Kept(p.name, size), p.valueType, p.input)
  }

  function CopyField(room: FieldRoom, f: FieldInfo): FieldCopy {
    FieldCopy(Kept(f.name, room.name), Kept(f.description, room.text), f.valueType)
  }

  function Least(a: nat, b: nat): nat {
    if a < b then a else b
  }

  // As many ports, parameters or states as there is room for.
  function CopyPorts(size: Size, ports: seq<PortInfo>, capacity: nat): seq<PortCopy> {
    seq(Least(|ports|, capacity), i requires 0 <= i < |ports| => CopyPort(size, ports[i]))
  }

  function CopyFields(room: FieldRoom, fields: seq<FieldInfo>): seq<FieldCopy> {
    seq(Least(|fields|, room.capacity), i requires 0 <= i < |fields| => CopyField(room, fields[i]))
  }

  function Copy(room: Room, d: Descriptor): DescriptorCopy {
    DescriptorCopy(d.nodeType, (|d.ports|, |d.params|, |d.states|), Fit(d.name, room.name),
                   CopyPorts(room.portName, d.ports, room.ports),
                   CopyFields(room.params, d.params), CopyFields(room.states, d.states))
  }

  // ---------- What a receiver can rebuild ----------

  function RestorePorts(ports: seq<PortCopy>): seq<PortInfo> {
    seq(|ports|, i requires 0 <= i < |ports| => PortInfo(Some(ports[i].name), ports[i].valueType, ports[i].input))
  }

  function RestoreFields(fields: seq<FieldCopy>): seq<FieldInfo> {
    seq(|fields|, i requires 0 <= i < |fields| =>
      FieldInfo(Some(fields[i].name), Some(fields[i].description), fields[i].valueType))
  }

  function Restore(c: DescriptorCopy): Descriptor {
    Descriptor(c.name, c.nodeType, RestorePorts(c.ports), RestoreFields(c.params), RestoreFields(c.states))
  }

  predicate Fits(s: Option<Text>, size: Size) {
    s.Some? && |s.value| < size
  }

  predicate PortsFit(size: Size, ports: seq<PortInfo>, capacity: nat) {
    |ports| <= capacity && forall i :: 0 <= i < |ports| ==> Fits(ports[i].name, size)
  }

  predicate FieldsFit(room: FieldRoom, fields: seq<FieldInfo>) {
    && |fields| <= room.capacity
    && forall i :: 0 <= i < |fields| ==> Fits(fields[i].name, room.name) && Fits(fields[i].description, room.text)
  }

  predicate DescriptorFits(room: Room, d: Descriptor) {
    && |d.name| < room.name && PortsFit(room.portName, d.ports, room.ports)
    && FieldsFit(room.params, d.params) && FieldsFit(room.states, d.states)
  }

  predicate CountsFit(room: Room, d: Descriptor) {
    |d.ports| <= room.ports && |d.params| <= room.params.capacity && |d.states| <= room.states.capacity
  }

  lemma PortsWhole(size: Size, ports: seq<PortInfo>, capacity: nat)
    ensures RestorePorts(CopyPorts(size, ports, capacity)) == ports <==> PortsFit(size, ports, capacity)
  {
    var back := RestorePorts(CopyPorts(size, ports, capacity));
    forall i | 0 <= i < |back| ensures back[i] == ports[i] <==> Fits(ports[i].name, size) {}
    if back == ports {
      forall i | 0 <= i < |ports| ensures Fits(ports[i].name, size) { assert back[i] == ports[i]; }
    }
  }

  lemma FieldsWhole(room: FieldRoom, fields: seq<FieldInfo>)
    ensures RestoreFields(CopyFields(room, fields)) == fields <==> FieldsFit(room, fields)
  {
    var back := RestoreFields(CopyFields(room, fields));
    forall i | 0 <= i < |back|
      ensures back[i] == fields[i] <==> Fits(fields[i].name, room.name) && Fits(fields[i].description, room.text) {}
    if back == fields {
      forall i | 0 <= i < |fields|
        ensures Fits(fields[i].name, room.name) && Fits(fields[i].description, room.text)
      {
        assert back[i] == fields[i];
      }
    }
  }

  // What a buffer keeps of a string: the longest prefix that fits, and nothing of a null.
  ghost predicate KeepsString(kept: Text, held: Option<Text>, size: Size) {
    && (held.None? ==> kept == "")
    && (held.Some? ==> kept <= held.value && |kept| == Least(|held.value|, size - 1))
  }

  ghost predicate KeepsPorts(kept: seq<PortCopy>, held: seq<PortInfo>, size: Size, capacity: nat) {
    && |kept| == Least(|held|, capacity)
    && forall i :: 0 <= i < |kept| ==>
         && KeepsString(kept[i].name, held[i].name, size)
         && kept[i].valueType == held[i].valueType && kept[i].input == held[i].input
  }

  ghost predicate KeepsFields(kept: seq<FieldCopy>, held: seq<FieldInfo>, room: FieldRoom) {
    && |kept| == Least(|held|, room.capacity)
    && forall i :: 0 <= i < |kept| ==>
         && KeepsString(kept[i].name, held[i].name, room.name)
         && KeepsString(kept[i].description, held[i].description, room.text)
         && kept[i].valueType == held[i].valueType
  }

  // A copy has the uncut counts and, of each list, the first entries there is room for, each under its own
  // index with what its buffers keep.
  lemma CopyIsExact(room: Room, d: Descriptor)
    ensures var c := Copy(room, d);
      && c.nodeType == d.nodeType && c.counts == (|d.ports|, |d.params|, |d.states|)
      && KeepsString(c.name, Some(d.name), room.name)
      && KeepsPorts(c.ports, d.ports, room.portName, room.ports)
      && KeepsFields(c.params, d.params, room.params) && KeepsFields(c.states, d.states, room.states)
  {
  }

  // A descriptor survives the copy exactly when its counts fit and none of its strings is null or
  // too long.
  lemma CopyFaithfulIff(room: Room, d: Descriptor)
    ensures Restore(Copy(room, d)) == d <==> DescriptorFits(room, d)
  {
    PortsWhole(room.portName, d.ports, room.ports);
    FieldsWhole(room.params, d.params);
    FieldsWhole(room.states, d.states);
  }

  // Missing entries show in a copy, but changed strings do not: what the receiver rebuilds has the
  // same copy as the original exactly when the original's counts fit, whatever its strings.
  lemma OnlyCountsShow(room: Room, d: Descriptor)
    ensures Copy(room, Restore(Copy(room, d))) == Copy(room, d) <==> CountsFit(room, d)
    ensures var c := Copy(room, d);
      CountsFit(room, d) <==> (|c.ports|, |c.params|, |c.states|) == c.counts
  {
    var back := Restore(Copy(room, d));
    assert Copy(room, back).ports == Copy(room, d).ports;
    assert Copy(room, back).params == Copy(room, d).params;
    assert Copy(room, back).states == Copy(room, d).states;
  }

  // Different modules that a client cannot tell apart.
  predicate Alike(room: Room, d: Descriptor, e: Descriptor) {
    d != e && CountsFit(room, d) && CountsFit(room, e) && Copy(room, d) == Copy(room, e)
  }

  // Two names too long by one character.
  lemma ShortenedNameUnseen(room: Room, d: Descriptor, e: Descriptor)
    requires room == Room(4, 4, 1, FieldRoom(4, 4, 1), FieldRoom(4, 4, 1))
    requires d == Descriptor("abcd", PluginType, [], [], []) && e == d.(name := "abce")
    ensures Alike(room, d, e)
  {
    assert Fit(d.name, 4) == "abc" == Fit(e.name, 4);
    assert d.name[3] != e.name[3];
  }

  // A null port name and an empty one.
  lemma NullNameUnseen(room: Room, d: Descriptor, e: Descriptor)
    requires room == Room(4, 4, 1, FieldRoom(4, 4, 1), FieldRoom(4, 4, 1))
    requires d == Descriptor("a", PluginType, [PortInfo(None, 0, true)], [], [])
    requires e == d.(ports := [PortInfo(Some(""), 0, true)])
    ensures Alike(room, d, e)
  {
    assert CopyPorts(4, d.ports, 1) == CopyPorts(4, e.ports, 1);
    assert d.ports[0] != e.ports[0];
  }
}
