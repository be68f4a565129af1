/** The bitmask pool of frame slots. */
module FramePool {
  import opened Machine
  import Bits

  type ArmedWords = w: seq<u64> | |w| == 4 witness [0, 0, 0, 0]

  datatype FrameSlot = FrameSlot(
    bytes: seq<u8>, len: nat, sequence: u64, generation: u16, deadlineNs: u64,
    armedIndices: ArmedWords, armedSlotId: u16)
  {
    /** Resetting keeps the payload bytes and clears everything else. */
    function Reset(): FrameSlot { FrameSlot(bytes, 0, 0, 0, 0, [0, 0, 0, 0], 0) }

    /** Datagram indices this frame is armed for. */
    ghost function Armed(): set<nat> {
      set i: nat | i < 256 && i % 64 in Bits.SetBits(armedIndices[i / 64], 64)
    }

    function MarkArmed(index: u8, slotId: u16): FrameSlot {
      var w := index / 64;
      var word := Bits.Or(armedIndices[w], Bits.OneBit(index % 64));
      assert word <= U64_MAX by { Bits.Pow2At64(); Bits.SetOneBit(armedIndices[w], index % 64, 64); }
      this.(armedSlotId := slotId, armedIndices := armedIndices[w := word])
    }
  }

  /** Arming adds exactly one index to the armed set. */
  lemma MarkArmedAdds(s: FrameSlot, index: u8, slotId: u16)
    ensures s.MarkArmed(index, slotId).Armed() == s.Armed() + {index}
    ensures s.MarkArmed(index, slotId).(armedSlotId := s.armedSlotId, armedIndices := s.armedIndices) == s
  {
    Bits.Pow2At64();
    var w := index / 64;
    Bits.SetOneBit(s.armedIndices[w], index % 64, 64);
    var t := s.MarkArmed(index, slotId);
    forall i: nat | i < 256 ensures i in t.Armed() <==> i in s.Armed() || i == index {
      if i / 64 == w { assert i == index <==> i % 64 == index % 64; }
    }
  }

  lemma ResetDisarms(s: FrameSlot)
    ensures s.Reset().Armed() == {}
  {
    forall i: nat | i < 256 ensures i !in s.Reset().Armed() { Bits.ZeroBits(i % 64); }
  }

  datatype FramePoolError = TooManySlots | InvalidHandle | SlotBusy

  class Pool {
    const slots: array<FrameSlot>
    var used: u64
    ghost var acquired: nat
    ghost var released: nat

    /** The slots currently handed out. */
    ghost function Live(): set<nat>
      reads this
    {
      Bits.SetBits(used, 64)
    }

    ghost predicate Valid()
      reads this
    {
      && (forall i :: i in Live() ==> i < slots.Length <= 64)
      && |Live()| == acquired - released
    }

    constructor (slotCount: nat, mtu: nat)
      ensures Valid() && fresh(slots) && slots.Length == slotCount && Live() == {}
    {
      slots := new FrameSlot[slotCount](_ => FrameSlot(seq(mtu, _ => 0), 0, 0, 0, 0, [0, 0, 0, 0], 0));
      used := 0;
      acquired, released := 0, 0;
      new;
      forall i: nat | i < 64 ensures !Bits.Bit(0, i) { Bits.ZeroBits(i); }
      assert Live() == {};
    }

    /** Hands out the least free slot, freshly reset, and fails exactly when there
        is none or the pool was built with an unsupported size. */
    method Acquire(sequence: u64, generation: u16, deadlineNs: u64) returns (r: Result<nat, FramePoolError>)
      requires Valid()
      modifies this, slots
      ensures Valid()
      ensures r == Err(TooManySlots) <==> slots.Length == 0 || slots.Length > 64
      ensures r == Err(SlotBusy) <==>
              1 <= slots.Length <= 64 && forall i :: 0 <= i < slots.Length ==> i in old(Live())
      ensures r.Err? ==> used == old(used) && slots[..] == old(slots[..]) && acquired == old(acquired)
      ensures r.Ok? ==>
                && r.value < slots.Length && r.value !in old(Live())
                && (forall i :: 0 <= i < r.value ==> i in old(Live()))
                && Live() == old(Live()) + {r.value}
                && slots[..] == old(slots[..])[r.value := old(slots[..])[r.value].Reset()
                                                 .(sequence := sequence, generation := generation,
                                                   deadlineNs := deadlineNs)]
                && acquired == old(acquired) + 1
      ensures released == old(released) && r != Err(InvalidHandle)
    {
      hide Bits.Bit, Bits.SetBits, Bits.And, Bits.Or, Bits.Pow2, Bits.TrailingZeros, IsFreeMask;
      if slots.Length == 0 || slots.Length > 64 { return Err(TooManySlots); }
      Bits.Pow2At64();
      if slots.Length < 64 { Bits.OneBitBound(slots.Length, 64); }
      var mask := if slots.Length == 64 then U64_MAX else Bits.OneBit(slots.Length) - 1;
      var available := Bits.And(Bits.Not(used, 64), mask);
      FreeSlots(used, slots.Length, available);
      LeastFree(used, slots.Length, available);
      if available == 0 { return Err(SlotBusy); }
      var index := Bits.TrailingZeros(available);
      Bits.SetOneBit(used, index, 64);
      used := Bits.Or(used, Bits.OneBit(index));
      slots[index] := slots[index].Reset().(sequence := sequence, generation := generation,
                                            deadlineNs := deadlineNs);
      acquired := acquired + 1;
      return Ok(index);
    }

    /** Takes back a slot that is out; any other handle changes nothing. */
    method Release(index: u8) returns (r: Result<(), FramePoolError>)
      requires Valid()
      modifies this, slots
      ensures Valid()
      ensures r.Ok? <==> index < slots.Length && index in old(Live())
      ensures r.Err? ==> r.error == InvalidHandle && used == old(used) && slots[..] == old(slots[..])
                         && released == old(released)
      ensures r.Ok? ==> && Live() == old(Live()) - {index}
                        && slots[..] == old(slots[..])[index := old(slots[..])[index].Reset()]
                        && released == old(released) + 1
      ensures acquired == old(acquired)
    {
      if index >= slots.Length || index >= 64 { return Err(InvalidHandle); }
      Bits.Pow2At64();
      Bits.OneBitBound(index, 64);
      var bit := Bits.OneBit(index);
      Bits.TestOneBit(used, index, 64);
      if Bits.And(used, bit) == 0 { return Err(InvalidHandle); }
      Bits.ClearOneBit(used, index, 64);
      used := Bits.And(used, Bits.Not(bit, 64));
      slots[index] := slots[index].Reset();
      released := released + 1;
      return Ok(());
    }

    /** Only slots that are out may be written through a handle. */
    method MayWrite(index: u8) returns (ok: bool)
      requires Valid() && index < 64
      ensures ok <==> index in Live()
    {
      Bits.Pow2At64();
      Bits.TestOneBit(used, index, 64);
      ok := index < slots.Length && Bits.And(used, Bits.OneBit(index)) != 0;
    }

    /** The population count of the mask is the number of slots out: successful
        acquisitions minus successful releases. */
    method InUse() returns (n: nat)
      requires Valid()
      ensures n == |Live()| == acquired - released
    {
      Bits.Pow2At64();
      Bits.PopCountIsCardinality(used, 64);
      n := Bits.PopCount(used);
    }
  }

  ghost predicate IsFreeMask(used: nat, count: nat, available: nat) {
    forall i: nat :: Bits.Bit(available, i) <==> i < count && !Bits.Bit(used, i)
  }

  /** `!used & mask` marks the free slots. */
  lemma FreeSlots(used: u64, count: nat, available: nat)
    requires used < Bits.Pow2(64) && 1 <= count <= 64
    requires available == Bits.And(Bits.Not(used, 64), if count == 64 then U64_MAX else Bits.OneBit(count) - 1)
    ensures IsFreeMask(used, count, available) && available < Bits.Pow2(64)
  {
    Bits.Pow2At64();
    var mask := if count == 64 then U64_MAX else Bits.OneBit(count) - 1;
    Bits.AndBound(Bits.Not(used, 64), mask);
    forall i: nat ensures Bits.Bit(available, i) <==> i < count && !Bits.Bit(used, i) {
      Bits.AndBit(Bits.Not(used, 64), mask, i);
      Bits.NotBit(used, 64, i);
      Bits.NotBit(0, count, i);
      Bits.ZeroBits(i);
    }
  }

  ghost predicate AllSet(used: u64, count: nat) {
    forall i: nat :: i < count ==> i in Bits.SetBits(used, 64)
  }

  lemma LeastFree(used: u64, count: nat, available: nat)
    requires 1 <= count <= 64 && IsFreeMask(used, count, available) && available < Bits.Pow2(64)
    ensures available == 0 <==> AllSet(used, count)
    ensures available != 0 ==>
              var k := Bits.TrailingZeros(available);
              k < count && k !in Bits.SetBits(used, 64) && AllSet(used, k)
  {
    hide Bits.Bit, Bits.TrailingZeros, Bits.Pow2;
    if available == 0 {
      forall i: nat | i < count ensures i in Bits.SetBits(used, 64) { Bits.ZeroBits(i); }
    } else {
      var k := Bits.TrailingZeros(available);
      Bits.TrailingZerosLeast(available, 0);
      assert Bits.Bit(available, k) && k !in Bits.SetBits(used, 64);
      forall i: nat | i < k ensures i in Bits.SetBits(used, 64) { Bits.TrailingZerosLeast(available, i); }
    }
  }
}
