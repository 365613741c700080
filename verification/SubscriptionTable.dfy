/** The subscription array as the engine stores it: 64-bit masks updated in place. Each method is
    proved against the table of Subscriptions, which keeps sets of bit indices instead of masks. */
module SubscriptionTable {
  import opened BitMask
  import opened Subscriptions

  datatype RawSlot = RawSlot(used: bool, nodeId: nat, portValuesMask: bv64, variableMask: bv64)

  const ZEROED: RawSlot := RawSlot(false, 0, 0, 0)

  function View(raw: RawSlot): Slot {
    Slot(raw.used, raw.nodeId, BitSet(raw.portValuesMask), BitSet(raw.variableMask))
  }

  function Views(raw: seq<RawSlot>): (s: seq<Slot>)
    ensures |s| == |raw|
    ensures forall i :: 0 <= i < |raw| ==> s[i] == View(raw[i])
  {
    seq(|raw|, i requires 0 <= i < |raw| => View(raw[i]))
  }

  function OrInto(raw: RawSlot, mask: bv64, variables: bool): RawSlot {
    if variables then raw.(variableMask := Or(raw.variableMask, mask))
    else raw.(portValuesMask := Or(raw.portValuesMask, mask))
  }

  function AndNotInto(raw: RawSlot, mask: bv64, variables: bool): RawSlot {
    if variables then raw.(variableMask := AndNot(raw.variableMask, mask))
    else raw.(portValuesMask := AndNot(raw.portValuesMask, mask))
  }

  lemma OrWidens(raw: RawSlot, mask: bv64, variables: bool)
    requires raw.used
    ensures View(OrInto(raw, mask, variables))
         == SlotOf(raw.nodeId, Widen(EntryOf(View(raw)), BitSet(mask), variables))
  {
  }

  lemma AndNotNarrows(raw: RawSlot, mask: bv64, variables: bool)
    requires raw.used
    ensures View(AndNotInto(raw, mask, variables))
         == SlotOf(raw.nodeId, Narrow(EntryOf(View(raw)), BitSet(mask), variables))
  {
  }

  lemma ZeroedIsFree()
    ensures View(ZEROED) == FREE
  {
    ZeroIsEmpty(0);
  }

  lemma ViewsPut(raw: seq<RawSlot>, i: nat, r: RawSlot)
    requires i < |raw|
    ensures Views(raw[i := r]) == Views(raw)[i := View(r)]
  {
  }

  lemma AllZeroed(raw: seq<RawSlot>, invalidId: nat)
    requires forall i :: 0 <= i < |raw| ==> raw[i] == ZEROED
    ensures WellFormed(Views(raw), invalidId) && Abs(Views(raw)) == map[]
  {
    ZeroedIsFree();
    assert Ids(Views(raw)) == {};
  }

  class Table {
    const slots: array<RawSlot>
    const invalidId: nat

    ghost function State(): seq<Slot>
      reads slots
    {
      Views(slots[..])
    }

    constructor (capacity: nat, invalidId: nat)
      ensures fresh(slots) && slots.Length == capacity && this.invalidId == invalidId
      ensures WellFormed(State(), invalidId) && Abs(State()) == map[]
    {
      slots := new RawSlot[capacity](_ => ZEROED);
      this.invalidId := invalidId;
      new;
      AllZeroed(slots[..], invalidId);
    }

    // Index of the subscription of a node; slots.Length stands for a null result.
    method FindSubscription(nodeId: nat) returns (i: nat)
      ensures i == FindFrom(State(), nodeId, 0)
    {
      i := 0;
      while i < slots.Length
        invariant i <= slots.Length
        invariant FindFrom(State(), nodeId, 0) == FindFrom(State(), nodeId, i)
      {
        if slots[i].used && slots[i].nodeId == nodeId {
          return;
        }
        i := i + 1;
      }
    }

    // The node's slot, a newly taken slot with empty masks, or slots.Length when the table is full.
    method GetOrCreateSubscription(nodeId: nat) returns (i: nat)
      modifies slots
      ensures var s, t := old(State()), State();
        && i == (if FindFrom(s, nodeId, 0) < |s| then FindFrom(s, nodeId, 0) else FreeFrom(s, 0))
        && t == (if FindFrom(s, nodeId, 0) == |s| && i < |s| then s[i := SlotOf(nodeId, NOTHING)] else s)
    {
      i := FindSubscription(nodeId);
      if i < slots.Length {
        return;
      }
      i := 0;
      while i < slots.Length
        invariant i <= slots.Length && State() == old(State())
        invariant FreeFrom(State(), 0) == FreeFrom(State(), i)
      {
        if !slots[i].used {
          ViewsPut(slots[..], i, RawSlot(true, nodeId, 0, 0));
          ZeroIsEmpty(0);
          slots[i] := RawSlot(true, nodeId, 0, 0);
          return;
        }
        i := i + 1;
      }
    }

    method CleanupSubscription(i: nat)
      requires i < slots.Length
      modifies slots
      ensures State() == old(State())[i := Reclaimed(old(State())[i])]
    {
      ZeroIsEmpty(slots[i].portValuesMask);
      ZeroIsEmpty(slots[i].variableMask);
      if slots[i].portValuesMask != 0 || slots[i].variableMask != 0 {
        return;
      }
      ZeroedIsFree();
      ViewsPut(slots[..], i, ZEROED);
      slots[i] := ZEROED;
    }

    method UpdateSubscriptionMask(nodeId: nat, mask: bv64, send: bool, variables: bool) returns (ok: bool)
      modifies slots
      ensures (State(), ok)
           == UpdateSlots(old(State()), invalidId, Request(nodeId, BitSet(mask), send, variables))
    {
      ZeroIsEmpty(mask);
      if nodeId == invalidId || mask == 0 {
        return false;
      }
      var i;
      if send {
        i := GetOrCreateSubscription(nodeId);
      } else {
        i := FindSubscription(nodeId);
      }
      if i == slots.Length {
        return !send;
      }
      ghost var before, at := old(State()), State()[i];
      assert Holds(at, nodeId);
      if send {
        OrWidens(slots[i], mask, variables);
        ViewsPut(slots[..], i, OrInto(slots[i], mask, variables));
        slots[i] := OrInto(slots[i], mask, variables);
        assert State() == before[i := SlotOf(nodeId, Widen(EntryOf(at), BitSet(mask), variables))];
      } else {
        AndNotNarrows(slots[i], mask, variables);
        ViewsPut(slots[..], i, AndNotInto(slots[i], mask, variables));
        slots[i] := AndNotInto(slots[i], mask, variables);
        CleanupSubscription(i);
        assert State() == before[i := Reclaimed(SlotOf(nodeId, Narrow(EntryOf(at), BitSet(mask), variables)))];
      }
      return true;
    }
  }
}
