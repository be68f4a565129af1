/** The configuration-time bump arena. */
module Arena {
  import opened Machine
  import Bits

  const USIZE_MAX: int := 0xFFFF_FFFF_FFFF_FFFF
  const WORD_BYTES := 8

  /** No Rust slice is larger than this. */
  const ISIZE_MAX: int := 0x7FFF_FFFF_FFFF_FFFF

  datatype ArenaError = AlignmentTooLarge | SizeOverflow | OutOfMemory | Frozen

  /** `value + (alignment - 1) & !(alignment - 1)`, checked. */
  function AlignUp(value: u64, alignment: u64): Option<nat> {
    if alignment == 0 then None
    else
      var mask := alignment - 1;
      if value + mask > USIZE_MAX then None
      else
        assert mask < Bits.Pow2(64) by { Bits.Pow2At64(); }
        Some(Bits.And(value + mask, Bits.Not(mask, 64)))
  }

  /** For a power-of-two alignment the mask trick yields the least multiple of the
      alignment at or above the value, and fails only if that multiple's rounding
      would leave the address range. */
  lemma AlignUpRounds(value: u64, alignment: u64, k: nat)
    requires k < 64 && alignment == Bits.Pow2(k)
    ensures AlignUp(value, alignment).None? <==> value + alignment - 1 > USIZE_MAX
    ensures AlignUp(value, alignment).Some? ==>
              var r := AlignUp(value, alignment).value;
              r % alignment == 0 && value <= r < value + alignment
  {
    Bits.Pow2At64();
    hide Bits.Pow2, Bits.And;
    if value + alignment - 1 <= USIZE_MAX {
      var x := value + alignment - 1;
      Bits.ClearLowBits(x, 64, k, Bits.Not(alignment - 1, 64));
      RoundDown(x, alignment);
    }
  }

  lemma RoundDown(x: nat, d: nat)
    requires d > 0
    ensures (x - x % d) % d == 0 && x - d < x - x % d <= x
  {
    assert x - x % d == d * (x / d);
    Bits.DivModUnique(d * (x / d), d, x / d, 0);
  }

  /** The alignments of types are powers of two, so the rounding above applies. */
  lemma AlignUpAligned(value: u64, alignment: u64)
    requires IsAlignment(alignment)
    ensures alignment > 0
    ensures AlignUp(value, alignment).None? <==> value + alignment - 1 > USIZE_MAX
    ensures AlignUp(value, alignment).Some? ==>
              var r := AlignUp(value, alignment).value;
              r % alignment == 0 && value <= r < value + alignment
  {
    var k :| 0 <= k < 64 && alignment == Bits.Pow2(k);
    AlignUpRounds(value, alignment, k);
  }

  datatype Range = Range(start: nat, bytes: nat, alignment: nat) {
    function End(): nat { start + bytes }
  }

  /** Where an allocation of `count` elements goes, or why it fails. */
  function Place(capacity: nat, cursor: u64, frozen: bool, size: nat, alignment: u64, count: nat)
    : Result<Range, ArenaError>
  {
    if frozen then Err(Frozen)
    else if alignment > WORD_BYTES then Err(AlignmentTooLarge)
    else
      var a := Max(alignment, 1);
      match AlignUp(cursor, a)
      case None => Err(SizeOverflow)
      case Some(start) =>
        if size * count > USIZE_MAX || start + size * count > USIZE_MAX then Err(SizeOverflow)
        else if start + size * count > capacity then Err(OutOfMemory)
        else Ok(Range(start, size * count, a))
  }

  /** Alignments of Rust types are powers of two. */
  ghost predicate IsAlignment(a: nat) { exists k :: 0 <= k < 64 && a == Bits.Pow2(k) }

  /** Ranges are aligned, follow each other without overlap and end at or below a limit. */
  ghost predicate Laid(ranges: seq<Range>, limit: nat) {
    && (forall i :: 0 <= i < |ranges| ==>
          ranges[i].End() <= limit && ranges[i].alignment > 0 && ranges[i].start % ranges[i].alignment == 0)
    && forall i, j :: 0 <= i < j < |ranges| ==> ranges[i].End() <= ranges[j].start
  }

  lemma LaidSnoc(ranges: seq<Range>, limit: nat, x: Range)
    requires Laid(ranges, limit) && limit <= x.start && x.alignment > 0 && x.start % x.alignment == 0
    ensures Laid(ranges + [x], x.End())
  {
  }

  class Arena {
    const words: nat
    var cursor: u64
    var frozen: bool
    ghost var handedOut: seq<Range>

    ghost predicate Valid()
      reads this
    {
      CapacityBytes() <= ISIZE_MAX && cursor <= CapacityBytes() && Laid(handedOut, cursor)
    }

    function CapacityBytes(): nat { words * WORD_BYTES }

    constructor (words: nat)
      requires words * WORD_BYTES <= ISIZE_MAX
      ensures Valid() && this.words == words && handedOut == [] && !frozen && cursor == 0
    {
      this.words := words;
      cursor, frozen, handedOut := 0, false, [];
    }

    method Freeze()
      requires Valid()
      modifies this
      ensures Valid() && frozen && cursor == old(cursor) && handedOut == old(handedOut)
    {
      frozen := true;
    }

    method Reset()
      requires Valid()
      modifies this
      ensures Valid() && !frozen && cursor == 0 && handedOut == []
    {
      cursor, frozen, handedOut := 0, false, [];
    }

    /** Hands out the next range, after all earlier ones; a failed allocation
        changes nothing. */
    method AllocSlice(size: nat, alignment: u64, count: nat) returns (r: Result<Range, ArenaError>)
      requires Valid() && IsAlignment(alignment)
      modifies this
      ensures Valid() && frozen == old(frozen)
      ensures r == Place(CapacityBytes(), old(cursor), frozen, size, alignment, count)
      ensures r.Ok? ==> handedOut == old(handedOut) + [r.value] && cursor == r.value.End()
      ensures r.Err? ==> handedOut == old(handedOut) && cursor == old(cursor)
    {
      hide Laid, AlignUp, IsAlignment;
      AlignUpAligned(cursor, alignment);
      if frozen { return Err(Frozen); }
      if alignment > WORD_BYTES { return Err(AlignmentTooLarge); }
      var start := AlignUp(cursor, Max(alignment, 1));
      if start.None? { return Err(SizeOverflow); }
      var bytes := size * count;
      if bytes > USIZE_MAX { return Err(SizeOverflow); }
      var end := start.value + bytes;
      if end > USIZE_MAX { return Err(SizeOverflow); }
      if end > CapacityBytes() { return Err(OutOfMemory); }
      r := Ok(Range(start.value, bytes, alignment));
      LaidSnoc(handedOut, cursor, r.value);
      cursor := end;
      handedOut := handedOut + [r.value];
    }
  }

  /** An unfrozen arena refuses a supported alignment exactly when no aligned range
      of the requested size is left above the cursor. */
  lemma PlaceFailsIff(capacity: nat, cursor: u64, size: nat, alignment: u64, count: nat)
    requires capacity <= ISIZE_MAX && cursor <= capacity && alignment <= WORD_BYTES && IsAlignment(alignment)
    ensures Place(capacity, cursor, false, size, alignment, count).Err? <==>
            forall start: nat :: cursor <= start && start % alignment == 0 ==> start + size * count > capacity
  {
    AlignUpAligned(cursor, alignment);
    hide AlignUp, IsAlignment;
    var bytes := size * count;
    var first := AlignUp(cursor, alignment).value;
    forall start: nat | cursor <= start && start % alignment == 0 ensures first <= start {
      if start < first { NoMultipleBetween(start, first, alignment); }
    }
    if Place(capacity, cursor, false, size, alignment, count).Ok? {
      assert cursor <= first && first % alignment == 0 && first + bytes <= capacity;
    }
  }

  lemma NoMultipleBetween(a: nat, b: nat, d: nat)
    requires d > 0 && a % d == 0 && b % d == 0 && a < b
    ensures a + d <= b
  {
    ScaledGap(d, a / d, b / d, a, b);
  }

  lemma ScaledGap(d: nat, p: nat, q: nat, a: nat, b: nat)
    requires a == d * p && b == d * q && a < b
    ensures a + d <= b
  {
    if q <= p {
      MulMonotone(d, q, p);
    } else {
      MulMonotone(d, p + 1, q);
      assert d * (p + 1) == d * p + d;
    }
  }

  lemma {:induction false} MulMonotone(d: nat, x: nat, y: nat)
    requires x <= y
    ensures d * x <= d * y
    decreases y
  {
    if x < y {
      MulMonotone(d, x, y - 1);
      assert d * y == d * (y - 1) + d;
    }
  }
}
