/** A 64-bit mask as the set of its bit indices, and the proof that |=, &= ~ and == 0 on masks are
    union, difference and emptiness of sets. */
module BitMask {
  // Zero or a power of two.
  predicate SingleBit(b: bv64) {
    b & (b - 1) == 0
  }

  function Double(b: bv64): (d: bv64)
    requires SingleBit(b)
    ensures SingleBit(d)
  {
    b << 1
  }

  // The word with only bit i set: UINT64_C(1) << i, one doubling at a time.
  function Bit(i: nat): (b: bv64)
    requires i < 64
    ensures SingleBit(b)
  {
    if i == 0 then 1 else Double(Bit(i - 1))
  }

  predicate Meets(mask: bv64, b: bv64) {
    mask & b != 0
  }

  predicate Has(mask: bv64, i: nat)
    requires i < 64
  {
    Meets(mask, Bit(i))
  }

  // The set of bit indices a machine word stands for.
  function BitSet(mask: bv64): set<nat> {
    set i: nat | i < 64 && Has(mask, i)
  }

  lemma OrMeets(m: bv64, k: bv64, b: bv64)
    ensures Meets(m | k, b) <==> Meets(m, b) || Meets(k, b)
  {
    assert (m | k) & b == (m & b) | (k & b);
  }

  lemma AndNotClear(m: bv64, k: bv64, b: bv64)
    requires k & b == 0
    ensures (m & !k) & b == m & b
  {
  }

  lemma AndNotSet(m: bv64, k: bv64, b: bv64)
    requires k & b == b
    ensures (m & !k) & b == 0
  {
  }

  lemma OneBit(x: bv64, b: bv64)
    requires SingleBit(b)
    ensures x & b == 0 || x & b == b
  {
  }

  lemma AndNotMeets(m: bv64, k: bv64, b: bv64)
    requires SingleBit(b)
    ensures Meets(m & !k, b) <==> Meets(m, b) && !Meets(k, b)
  {
    OneBit(k, b);
    if k & b == 0 { AndNotClear(m, k, b); } else { AndNotSet(m, k, b); }
  }

  function Or(m: bv64, k: bv64): (r: bv64)
    ensures BitSet(r) == BitSet(m) + BitSet(k)
  {
    OrIsUnion(m, k);
    m | k
  }

  function AndNot(m: bv64, k: bv64): (r: bv64)
    ensures BitSet(r) == BitSet(m) - BitSet(k)
  {
    AndNotIsDifference(m, k);
    m & !k
  }

  // mask |= k
  lemma OrIsUnion(m: bv64, k: bv64)
    ensures BitSet(m | k) == BitSet(m) + BitSet(k)
  {
    forall i: nat | i < 64 ensures Has(m | k, i) <==> Has(m, i) || Has(k, i) { OrMeets(m, k, Bit(i)); }
  }

  lemma AndNotHas(m: bv64, k: bv64, i: nat)
    requires i < 64
    ensures Has(m & !k, i) <==> Has(m, i) && !Has(k, i)
  {
    AndNotMeets(m, k, Bit(i));
  }

  // mask &= ~k
  lemma AndNotIsDifference(m: bv64, k: bv64)
    ensures BitSet(m & !k) == BitSet(m) - BitSet(k)
  {
    forall i: nat | i < 64 ensures Has(m & !k, i) <==> Has(m, i) && !Has(k, i) { AndNotHas(m, k, i); }
  }

  // No bit of m below the single bit b is set.
  predicate Under(m: bv64, b: bv64) {
    m & (b - 1) == 0
  }

  lemma UnderDouble(m: bv64, b: bv64)
    requires SingleBit(b) && Under(m, b) && !Meets(m, b)
    ensures Under(m, Double(b))
  {
  }

  // Going up one doubling at a time, a mask without bits 0 to i - 1 has none under bit i.
  lemma {:induction false} Below(m: bv64, i: nat)
    requires i < 64
    requires forall j: nat :: j < i ==> !Has(m, j)
    ensures Under(m, Bit(i))
  {
    if i == 0 {
      assert Bit(0) == 1;
      assert m & 0 == 0;
    } else {
      Below(m, i - 1);
      assert !Has(m, i - 1);
      UnderDouble(m, Bit(i - 1));
    }
  }

  // Bit 63 is reached four doublings at a time.
  function FourTimes(b: bv64): (d: bv64)
    requires SingleBit(b)
    ensures SingleBit(d)
  {
    Double(Double(Double(Double(b))))
  }

  lemma FourUp(i: nat)
    requires i + 4 < 64
    ensures Bit(i + 4) == FourTimes(Bit(i))
  {
    assert Bit(i + 1) == Double(Bit(i));
    assert Bit(i + 2) == Double(Bit(i + 1));
    assert Bit(i + 3) == Double(Bit(i + 2));
  }

  lemma FourTimesShifts(b: bv64)
    requires SingleBit(b)
    ensures FourTimes(b) == b << 4
  {
  }

  lemma FourUpValue(i: nat, v: bv64)
    requires i + 4 < 64 && Bit(i) == v
    ensures Bit(i + 4) == v << 4
  {
    FourUp(i);
    FourTimesShifts(v);
  }

  lemma LowHalf()
    ensures Bit(32) == 0x1_0000_0000
  {
    FourUpValue(0, 1);
    FourUpValue(4, 0x10);
    FourUpValue(8, 0x100);
    FourUpValue(12, 0x1000);
    FourUpValue(16, 0x1_0000);
    FourUpValue(20, 0x10_0000);
    FourUpValue(24, 0x100_0000);
    FourUpValue(28, 0x1000_0000);
  }

  lemma TopBit()
    ensures Bit(63) == 0x8000_0000_0000_0000
  {
    LowHalf();
    FourUpValue(32, 0x1_0000_0000);
    FourUpValue(36, 0x10_0000_0000);
    FourUpValue(40, 0x100_0000_0000);
    FourUpValue(44, 0x1000_0000_0000);
    FourUpValue(48, 0x1_0000_0000_0000);
    FourUpValue(52, 0x10_0000_0000_0000);
    FourUpValue(56, 0x100_0000_0000_0000);
    assert Bit(61) == 0x2000_0000_0000_0000;
    assert Bit(62) == 0x4000_0000_0000_0000;
  }

  lemma Whole(m: bv64, b: bv64)
    requires b == 0x8000_0000_0000_0000 && Under(m, b) && !Meets(m, b)
    ensures m == 0
  {
  }

  // The test for a mask of zero is the test for the empty set.
  lemma ZeroIsEmpty(m: bv64)
    ensures m == 0 <==> BitSet(m) == {}
  {
    if BitSet(m) == {} {
      forall j: nat | j < 64 ensures !Has(m, j) { assert j !in BitSet(m); }
      Below(m, 63);
      TopBit();
      assert !Has(m, 63);
      Whole(m, Bit(63));
    }
  }
}
