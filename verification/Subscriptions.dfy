/** The telemetry subscription table on sets of bit indices: a fixed row of slots with linear
    search, first-free allocation and reclaim-on-empty, and the finite map it stands for. */
module Subscriptions {

  datatype Slot = Slot(used: bool, nodeId: nat, ports: set<nat>, variables: set<nat>)

  // A slot after memset to zero.
  const FREE: Slot := Slot(false, 0, {}, {})

  datatype Request = Request(nodeId: nat, bits: set<nat>, send: bool, variables: bool)

  // What one used slot stands for.
  datatype Entry = Entry(ports: set<nat>, variables: set<nat>)

  const NOTHING: Entry := Entry({}, {})

  function Widen(e: Entry, bits: set<nat>, variables: bool): Entry {
    if variables then e.(variables := e.variables + bits) else e.(ports := e.ports + bits)
  }

  function Narrow(e: Entry, bits: set<nat>, variables: bool): Entry {
    if variables then e.(variables := e.variables - bits) else e.(ports := e.ports - bits)
  }

  // ---------- The table, slot by slot ----------

  predicate Holds(slot: Slot, id: nat) {
    slot.used && slot.nodeId == id
  }

  // Index of the first used slot for id at or after i; |s| when there is none.
  function FindFrom(s: seq<Slot>, id: nat, i: nat): (k: nat)
    requires i <= |s|
    ensures i <= k <= |s|
    ensures k < |s| ==> Holds(s[k], id)
    ensures forall j :: i <= j < k ==> !Holds(s[j], id)
    decreases |s| - i
  {
    if i == |s| || Holds(s[i], id) then i else FindFrom(s, id, i + 1)
  }

  // Index of the first free slot at or after i; |s| when the table is full.
  function FreeFrom(s: seq<Slot>, i: nat): (k: nat)
    requires i <= |s|
    ensures i <= k <= |s|
    ensures k < |s| ==> !s[k].used
    ensures forall j :: i <= j < k ==> s[j].used
    decreases |s| - i
  {
    if i == |s| || !s[i].used then i else FreeFrom(s, i + 1)
  }

  function EntryOf(slot: Slot): Entry {
    Entry(slot.ports, slot.variables)
  }

  function SlotOf(id: nat, e: Entry): Slot {
    Slot(true, id, e.ports, e.variables)
  }

  function Reclaimed(slot: Slot): Slot {
    if slot.ports != {} || slot.variables != {} then slot else FREE
  }

  function UpdateSlots(s: seq<Slot>, invalidId: nat, rq: Request): (r: (seq<Slot>, bool))
    ensures |r.0| == |s|
  {
    if rq.nodeId == invalidId || rq.bits == {} then (s, false)
    else
      var i := FindFrom(s, rq.nodeId, 0);
      var f := FreeFrom(s, 0);
      if rq.send then
        if i < |s| then (s[i := SlotOf(rq.nodeId, Widen(EntryOf(s[i]), rq.bits, rq.variables))], true)
        else if f < |s| then (s[f := SlotOf(rq.nodeId, Widen(NOTHING, rq.bits, rq.variables))], true)
        else (s, false)
      else if i < |s| then
        (s[i := Reclaimed(SlotOf(rq.nodeId, Narrow(EntryOf(s[i]), rq.bits, rq.variables)))], true)
      else (s, true)
  }

  // ---------- The map it stands for ----------

  ghost predicate UniqueIds(s: seq<Slot>) {
    forall i, j :: 0 <= i < j < |s| && s[i].used && s[j].used ==> s[i].nodeId != s[j].nodeId
  }

  ghost predicate WellFormed(s: seq<Slot>, invalidId: nat) {
    && UniqueIds(s)
    && (forall i :: 0 <= i < |s| && s[i].used ==> s[i].nodeId != invalidId && EntryOf(s[i]) != NOTHING)
    && (forall i :: 0 <= i < |s| && !s[i].used ==> s[i] == FREE)
  }

  function Ids(s: seq<Slot>): set<nat> {
    set i | 0 <= i < |s| && s[i].used :: s[i].nodeId
  }

  function Abs(s: seq<Slot>): map<nat, Entry> {
    map id | id in Ids(s) :: var k := FindFrom(s, id, 0); if k < |s| then EntryOf(s[k]) else NOTHING
  }

  // The same request on the map: set union, set difference, and removal of an empty entry.
  function UpdateMap(m: map<nat, Entry>, capacity: nat, invalidId: nat, rq: Request): (map<nat, Entry>, bool) {
    if rq.nodeId == invalidId || rq.bits == {} then (m, false)
    else if rq.send then
      if rq.nodeId in m then (m[rq.nodeId := Widen(m[rq.nodeId], rq.bits, rq.variables)], true)
      else if |m| < capacity then (m[rq.nodeId := Widen(NOTHING, rq.bits, rq.variables)], true)
      else (m, false)
    else if rq.nodeId in m then
      var e := Narrow(m[rq.nodeId], rq.bits, rq.variables);
      (if e == NOTHING then m - {rq.nodeId} else m[rq.nodeId := e], true)
    else (m, true)
  }

  // ---------- Refinement ----------

  lemma AbsFind(s: seq<Slot>, id: nat)
    ensures id in Abs(s) <==> FindFrom(s, id, 0) < |s|
    ensures id in Abs(s) ==> Abs(s)[id] == EntryOf(s[FindFrom(s, id, 0)])
  {
    var k := FindFrom(s, id, 0);
    if k < |s| { assert s[k].used && s[k].nodeId in Ids(s); }
    if id in Ids(s) {
      var i :| 0 <= i < |s| && s[i].used && s[i].nodeId == id;
      assert Holds(s[i], id);
    }
  }

  lemma AbsAt(s: seq<Slot>, i: nat)
    requires UniqueIds(s) && i < |s| && s[i].used
    ensures FindFrom(s, s[i].nodeId, 0) == i
    ensures s[i].nodeId in Abs(s) && Abs(s)[s[i].nodeId] == EntryOf(s[i])
  {
    assert Holds(s[i], s[i].nodeId);
    AbsFind(s, s[i].nodeId);
  }

  // Overwriting slot i changes no lookup of an id that neither the old nor the new slot holds.
  lemma FindElsewhere(s: seq<Slot>, i: nat, slot: Slot, x: nat)
    requires i < |s| && !Holds(s[i], x) && !Holds(slot, x)
    ensures FindFrom(s[i := slot], x, 0) == FindFrom(s, x, 0)
  {
    var t, k := s[i := slot], FindFrom(s, x, 0);
    assert forall j :: 0 <= j < k ==> !Holds(t[j], x);
    assert k < |s| ==> Holds(t[k], x);
  }

  lemma AbsElsewhere(s: seq<Slot>, i: nat, slot: Slot, x: nat)
    requires i < |s| && !Holds(s[i], x) && !Holds(slot, x)
    ensures x in Abs(s[i := slot]) <==> x in Abs(s)
    ensures x in Abs(s) ==> Abs(s[i := slot])[x] == Abs(s)[x]
  {
    FindElsewhere(s, i, slot, x);
    AbsFind(s, x);
    AbsFind(s[i := slot], x);
  }

  lemma PutWellFormed(s: seq<Slot>, invalidId: nat, i: nat, id: nat, e: Entry)
    requires WellFormed(s, invalidId) && i < |s|
    requires if s[i].used then s[i].nodeId == id else id !in Abs(s)
    requires id != invalidId && e != NOTHING
    ensures WellFormed(s[i := SlotOf(id, e)], invalidId)
  {
    forall j | 0 <= j < |s| && j != i && s[j].used ensures s[j].nodeId != id { AbsAt(s, j); }
  }

  lemma MapPut<K, V>(m: map<K, V>, m': map<K, V>, k: K, v: V)
    requires k in m' && m'[k] == v
    requires forall x :: x != k ==> (x in m' <==> x in m)
    requires forall x :: x != k && x in m ==> m'[x] == m[x]
    ensures m' == m[k := v]
  {
  }

  lemma AbsAfterPut(s: seq<Slot>, i: nat, id: nat, e: Entry)
    requires i < |s| && UniqueIds(s[i := SlotOf(id, e)])
    requires s[i].used ==> s[i].nodeId == id
    ensures Abs(s[i := SlotOf(id, e)]) == Abs(s)[id := e]
  {
    var t := s[i := SlotOf(id, e)];
    AbsAt(t, i);
    forall x | x != id ensures (x in Abs(t) <==> x in Abs(s)) && (x in Abs(s) ==> Abs(t)[x] == Abs(s)[x]) {
      AbsElsewhere(s, i, SlotOf(id, e), x);
    }
    MapPut(Abs(s), Abs(t), id, e);
  }

  // Writing a used slot for a node into that node's slot, or into a free slot when it has none.
  lemma AbsPut(s: seq<Slot>, invalidId: nat, i: nat, id: nat, e: Entry)
    requires WellFormed(s, invalidId) && i < |s|
    requires if s[i].used then s[i].nodeId == id else id !in Abs(s)
    requires id != invalidId && e != NOTHING
    ensures WellFormed(s[i := SlotOf(id, e)], invalidId)
    ensures Abs(s[i := SlotOf(id, e)]) == Abs(s)[id := e]
  {
    PutWellFormed(s, invalidId, i, id, e);
    AbsAfterPut(s, i, id, e);
  }

  lemma FreedIsGone(s: seq<Slot>, i: nat)
    requires UniqueIds(s) && i < |s| && s[i].used
    ensures s[i].nodeId !in Abs(s[i := FREE])
  {
    var t, id := s[i := FREE], s[i].nodeId;
    AbsFind(t, id);
    assert forall j :: 0 <= j < |t| ==> !Holds(t[j], id);
  }

  lemma AbsFree(s: seq<Slot>, invalidId: nat, i: nat)
    requires WellFormed(s, invalidId) && i < |s| && s[i].used
    ensures WellFormed(s[i := FREE], invalidId)
    ensures Abs(s[i := FREE]) == Abs(s) - {s[i].nodeId}
  {
    var t := s[i := FREE];
    FreedIsGone(s, i);
    forall x | x != s[i].nodeId ensures (x in Abs(t) <==> x in Abs(s)) && (x in Abs(s) ==> Abs(t)[x] == Abs(s)[x]) {
      AbsElsewhere(s, i, FREE, x);
    }
  }

  lemma IdsExtend(s: seq<Slot>, n: nat)
    requires 0 < n <= |s|
    ensures Ids(s[..n]) == Ids(s[..n - 1]) + (if s[n - 1].used then {s[n - 1].nodeId} else {})
  {
    var a, b := s[..n - 1], s[..n];
    assert b[n - 1] == s[n - 1] && forall j :: 0 <= j < n - 1 ==> a[j] == b[j];
  }

  lemma FreshId(s: seq<Slot>, n: nat)
    requires UniqueIds(s) && n < |s| && s[n].used
    ensures s[n].nodeId !in Ids(s[..n])
  {
    assert forall j :: 0 <= j < n ==> s[..n][j] == s[j];
  }

  lemma CountExtends(s: seq<Slot>, n: nat)
    requires UniqueIds(s) && 0 < n <= |s|
    ensures |Ids(s[..n])| == |Ids(s[..n - 1])| + (if s[n - 1].used then 1 else 0)
  {
    IdsExtend(s, n);
    if s[n - 1].used { FreshId(s, n - 1); }
  }

  // Pigeonhole over unique used slots.
  lemma {:induction false} CountUsed(s: seq<Slot>, n: nat)
    requires UniqueIds(s) && n <= |s|
    ensures |Ids(s[..n])| <= n
    ensures |Ids(s[..n])| == n <==> forall i :: 0 <= i < n ==> s[i].used
  {
    if n > 0 {
      CountUsed(s, n - 1);
      CountExtends(s, n);
    }
  }

  // The table runs out of slots exactly when the map has as many entries as there are slots.
  lemma FreeSlotIffRoom(s: seq<Slot>)
    requires UniqueIds(s)
    ensures |Abs(s)| <= |s|
    ensures FreeFrom(s, 0) < |s| <==> |Abs(s)| < |s|
  {
    CountUsed(s, |s|);
    assert s[..|s|] == s;
    assert Abs(s).Keys == Ids(s);
    assert |Abs(s)| == |Abs(s).Keys|;
  }

  lemma UpdateRefinesMap(s: seq<Slot>, invalidId: nat, rq: Request)
    requires WellFormed(s, invalidId)
    ensures WellFormed(UpdateSlots(s, invalidId, rq).0, invalidId)
    ensures Abs(UpdateSlots(s, invalidId, rq).0) == UpdateMap(Abs(s), |s|, invalidId, rq).0
    ensures UpdateSlots(s, invalidId, rq).1 == UpdateMap(Abs(s), |s|, invalidId, rq).1
  {
    if rq.nodeId != invalidId && rq.bits != {} {
      AbsFind(s, rq.nodeId);
      FreeSlotIffRoom(s);
      var i, f := FindFrom(s, rq.nodeId, 0), FreeFrom(s, 0);
      if i < |s| {
        var e := EntryOf(s[i]);
        if rq.send {
          AbsPut(s, invalidId, i, rq.nodeId, Widen(e, rq.bits, rq.variables));
        } else if Narrow(e, rq.bits, rq.variables) == NOTHING {
          AbsFree(s, invalidId, i);
        } else {
          AbsPut(s, invalidId, i, rq.nodeId, Narrow(e, rq.bits, rq.variables));
        }
      } else if rq.send && f < |s| {
        AbsPut(s, invalidId, f, rq.nodeId, Widen(NOTHING, rq.bits, rq.variables));
      }
    }
  }

  // ---------- When a request is refused ----------

  // A well-formed subscribe is refused, changing nothing, exactly when the node has no entry and
  // the map is as large as the table; a well-formed unsubscribe always succeeds and frees the
  // node's entry exactly when nothing is left in it.
  lemma RefusedIffFull(s: seq<Slot>, invalidId: nat, rq: Request)
    requires WellFormed(s, invalidId) && rq.nodeId != invalidId && rq.bits != {}
    ensures var (t, ok) := UpdateSlots(s, invalidId, rq);
      && (!ok <==> rq.send && rq.nodeId !in Abs(s) && |Abs(s)| == |s|)
      && (!ok ==> t == s)
      && (rq.send && ok ==> rq.nodeId in Abs(t))
      && (!rq.send && rq.nodeId in Abs(s) ==>
            (rq.nodeId !in Abs(t) <==> Narrow(Abs(s)[rq.nodeId], rq.bits, rq.variables) == NOTHING))
  {
    UpdateRefinesMap(s, invalidId, rq);
    FreeSlotIffRoom(s);
  }
}
