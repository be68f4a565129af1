/** Bit layout of one process-data domain: outputs, then inputs, then mailbox
    status bits. */
module DomainLayout {
  import opened Machine
  import opened EsiModel

  const USIZE_MAX: int := 0xFFFF_FFFF_FFFF_FFFF

  /** A slave of a domain with the PDOs that were selected for it. */
  datatype Slave = Slave(
    position: u16, domainId: u8, rxPdos: seq<EsiPdo>, txPdos: seq<EsiPdo>, fmmuUsages: seq<FmmuUsage>)
  {
    function Selected(d: PdoDirection): seq<EsiPdo> { if d == Rx then rxPdos else txPdos }
  }

  datatype GeneratedPdo = GeneratedPdo(
    domainId: u8, slavePosition: u16, assignmentIndex: u16, syncManager: u8, objectIndex: u16,
    subindex: u8, direction: PdoDirection, bitOffset: nat, bitLength: u8, signed: bool, name: string)

  datatype LayoutError = NoSyncManager | BitOffsetOverflow | NotByteAddressable

  /** One selected object of one slave. */
  datatype Item = Item(domainId: u8, position: u16, direction: PdoDirection, pdo: EsiPdo, entry: EsiEntry)

  function Placed(x: Item, offset: nat): GeneratedPdo {
    GeneratedPdo(x.domainId, x.position, x.pdo.index,
                 if x.pdo.syncManager.Some? then x.pdo.syncManager.value else 0,
                 x.entry.index, x.entry.subindex, x.direction, offset, x.entry.bitLength,
                 x.entry.signed, x.entry.name)
  }

  function Width(xs: seq<Item>): nat {
    if xs == [] then 0 else Width(xs[..|xs| - 1]) + xs[|xs| - 1].entry.bitLength
  }

  /** The given objects back to back from bit zero. */
  ghost function Laid(xs: seq<Item>): (r: seq<GeneratedPdo>)
    ensures |r| == |xs|
  {
    if xs == [] then []
    else
      var n := |xs| - 1;
      Laid(xs[..n]) + [Placed(xs[n], Width(xs[..n]))]
  }

  // The objects of a PDO, of a slave's selection and of a whole domain, in order.

  ghost function PdoItems(s: Slave, d: PdoDirection, pdo: EsiPdo, entries: seq<EsiEntry>): seq<Item> {
    if entries == [] then []
    else
      var n := |entries| - 1;
      PdoItems(s, d, pdo, entries[..n]) + [Item(s.domainId, s.position, d, pdo, entries[n])]
  }

  ghost function SlaveItems(s: Slave, d: PdoDirection, pdos: seq<EsiPdo>): seq<Item> {
    if pdos == [] then []
    else
      var n := |pdos| - 1;
      SlaveItems(s, d, pdos[..n]) + PdoItems(s, d, pdos[n], pdos[n].entries)
  }

  ghost function DomainItems(ss: seq<Slave>, d: PdoDirection): seq<Item> {
    if ss == [] then []
    else
      var n := |ss| - 1;
      DomainItems(ss[..n], d) + SlaveItems(ss[n], d, ss[n].Selected(d))
  }

  // ------------------------------------------------------------ list facts

  lemma Snoc(xs: seq<Item>, x: Item)
    ensures Width(xs + [x]) == Width(xs) + x.entry.bitLength
    ensures Laid(xs + [x]) == Laid(xs) + [Placed(x, Width(xs))]
  {
    assert (xs + [x])[..|xs|] == xs;
  }

  lemma {:induction false} WidthConcat(xs: seq<Item>, ys: seq<Item>)
    ensures Width(xs + ys) == Width(xs) + Width(ys)
    decreases |ys|
  {
    if ys == [] {
      assert xs + ys == xs;
    } else {
      var n := |ys| - 1;
      assert (xs + ys)[..|xs| + n] == xs + ys[..n];
      WidthConcat(xs, ys[..n]);
    }
  }

  lemma {:induction false} LaidAt(xs: seq<Item>, k: nat)
    requires k < |xs|
    ensures Laid(xs)[k] == Placed(xs[k], Width(xs[..k]))
    decreases |xs|
  {
    var n := |xs| - 1;
    if k < n {
      LaidAt(xs[..n], k);
      assert xs[..n][..k] == xs[..k];
    }
  }

  lemma {:induction false} PdoItemsWidth(s: Slave, d: PdoDirection, pdo: EsiPdo, entries: seq<EsiEntry>)
    ensures Width(PdoItems(s, d, pdo, entries)) == EntryBits(entries)
    ensures |PdoItems(s, d, pdo, entries)| == |entries|
    decreases |entries|
  {
    if entries != [] {
      var n := |entries| - 1;
      PdoItemsWidth(s, d, pdo, entries[..n]);
      Snoc(PdoItems(s, d, pdo, entries[..n]), Item(s.domainId, s.position, d, pdo, entries[n]));
    }
  }

  lemma SlaveItemsStep(s: Slave, d: PdoDirection, pdos: seq<EsiPdo>, k: nat, done: seq<Item>)
    requires k < |pdos|
    ensures done + SlaveItems(s, d, pdos[..k + 1])
         == done + SlaveItems(s, d, pdos[..k]) + PdoItems(s, d, pdos[k], pdos[k].entries)
  {
    assert pdos[..k + 1][..k] == pdos[..k];
    assert done + SlaveItems(s, d, pdos[..k + 1])
        == done + (SlaveItems(s, d, pdos[..k]) + PdoItems(s, d, pdos[k], pdos[k].entries));
  }

  lemma DomainItemsStep(ss: seq<Slave>, d: PdoDirection, k: nat, done: seq<Item>)
    requires k < |ss|
    ensures done + DomainItems(ss[..k + 1], d)
         == done + DomainItems(ss[..k], d) + SlaveItems(ss[k], d, ss[k].Selected(d))
  {
    assert ss[..k + 1][..k] == ss[..k];
    assert done + DomainItems(ss[..k + 1], d)
        == done + (DomainItems(ss[..k], d) + SlaveItems(ss[k], d, ss[k].Selected(d)));
  }

  // ------------------------------------------------------------- the layout

  ghost predicate Usable(pdos: seq<EsiPdo>) {
    forall i :: 0 <= i < |pdos| ==> WellFormedPdo(pdos[i]) && pdos[i].syncManager.Some?
  }

  /** The generated entries and the bit offset are those of the given objects. */
  ghost predicate At(out: seq<GeneratedPdo>, offset: nat, all: seq<Item>) {
    out == Laid(all) && offset == Width(all)
  }

  function RoundUp8(x: nat): (r: nat)
    ensures x <= r < x + 8 && r % 8 == 0
    ensures x % 8 == 0 ==> r == x
  {
    (x + 7) / 8 * 8
  }

  lemma WholeBytes(all: seq<Item>, s: Slave, d: PdoDirection, pdo: EsiPdo)
    requires WellFormedPdo(pdo) && Width(all) % 8 == 0
    ensures Width(all + PdoItems(s, d, pdo, pdo.entries)) % 8 == 0
  {
    hide Width, PdoItems, EntryBits;
    PdoItemsWidth(s, d, pdo, pdo.entries);
    WidthConcat(all, PdoItems(s, d, pdo, pdo.entries));
  }

  /** Appends the entries of one PDO to what is already laid out. */
  method AppendPdo(out0: seq<GeneratedPdo>, offset0: nat, s: Slave, d: PdoDirection, pdo: EsiPdo, ghost done: seq<Item>)
    returns (out: seq<GeneratedPdo>, offset: nat, r: Result<(), LayoutError>)
    requires At(out0, offset0, done) && pdo.syncManager.Some?
    ensures r.Ok? ==> At(out, offset, done + PdoItems(s, d, pdo, pdo.entries))
    ensures r.Err? ==> r.error == BitOffsetOverflow
  {
    out, offset := out0, offset0;
    assert done + PdoItems(s, d, pdo, []) == done;
    for k := 0 to |pdo.entries|
      invariant At(out, offset, done + PdoItems(s, d, pdo, pdo.entries[..k]))
    {
      hide Laid, Width;
      ghost var all := done + PdoItems(s, d, pdo, pdo.entries[..k]);
      var x := Item(s.domainId, s.position, d, pdo, pdo.entries[k]);
      Snoc(all, x);
      assert pdo.entries[..k + 1][..k] == pdo.entries[..k];
      assert done + PdoItems(s, d, pdo, pdo.entries[..k + 1]) == all + [x];
      out := out + [Placed(x, offset)];
      if offset + pdo.entries[k].bitLength > USIZE_MAX { return out, offset, Err(BitOffsetOverflow); }
      offset := offset + pdo.entries[k].bitLength;
    }
    assert pdo.entries[..|pdo.entries|] == pdo.entries;
    r := Ok(());
  }

  /** Appends all selected PDOs of one slave. Every selection that starts on a byte
      boundary and is accepted ends on one, so nothing is ever skipped. */
  method AppendSlavePdos(out0: seq<GeneratedPdo>, offset0: nat, s: Slave, d: PdoDirection, ghost done: seq<Item>)
    returns (out: seq<GeneratedPdo>, offset: nat, r: Result<(), LayoutError>)
    requires At(out0, offset0, done) && offset0 % 8 == 0
    ensures r.Ok? ==> At(out, offset, done + SlaveItems(s, d, s.Selected(d))) && offset % 8 == 0
    ensures r.Err? && Usable(s.Selected(d)) ==> r.error == BitOffsetOverflow
  {
    out, offset := out0, RoundUp8(offset0);
    var pdos := s.Selected(d);
    assert done + SlaveItems(s, d, pdos[..0]) == done;
    for k := 0 to |pdos|
      invariant At(out, offset, done + SlaveItems(s, d, pdos[..k]))
      invariant Usable(pdos) ==> offset % 8 == 0
    {
      hide Laid, Width, SlaveItems, PdoItems, WellFormedPdo, EntryBits, RoundUp8;
      if pdos[k].syncManager.None? { return out, offset, Err(NoSyncManager); }
      ghost var all := done + SlaveItems(s, d, pdos[..k]);
      if Usable(pdos) { WholeBytes(all, s, d, pdos[k]); }
      var appended: Result<(), LayoutError>;
      out, offset, appended := AppendPdo(out, offset, s, d, pdos[k], all);
      if appended.Err? { return out, offset, appended; }
      SlaveItemsStep(s, d, pdos, k, done);
    }
    assert pdos[..|pdos|] == pdos;
    if offset % 8 != 0 { return out, offset, Err(NotByteAddressable); }
    r := Ok(());
  }

  ghost predicate AllUsable(ss: seq<Slave>, d: PdoDirection) {
    forall k :: 0 <= k < |ss| ==> Usable(ss[k].Selected(d))
  }

  /** Positions of the slaves that take part in one direction. */
  ghost function Taking(ss: seq<Slave>, d: PdoDirection): set<u16> {
    set k | 0 <= k < |ss| && ss[k].Selected(d) != [] :: ss[k].position
  }

  lemma TakingStep(ss: seq<Slave>, d: PdoDirection, k: nat)
    requires k < |ss|
    ensures Taking(ss[..k + 1], d)
         == Taking(ss[..k], d) + if ss[k].Selected(d) != [] then {ss[k].position} else {}
  {
    assert ss[..k + 1][k] == ss[k];
  }

  /** Appends one direction of a whole domain and collects who takes part in it. */
  method AppendDirection(out0: seq<GeneratedPdo>, offset0: nat, ss: seq<Slave>, d: PdoDirection, ghost done: seq<Item>)
    returns (out: seq<GeneratedPdo>, offset: nat, taking: set<u16>, r: Result<(), LayoutError>)
    requires At(out0, offset0, done) && offset0 % 8 == 0
    ensures r.Ok? ==> At(out, offset, done + DomainItems(ss, d)) && offset % 8 == 0
    ensures r.Ok? ==> taking == Taking(ss, d)
    ensures r.Err? && AllUsable(ss, d) ==> r.error == BitOffsetOverflow
  {
    out, offset, taking := out0, offset0, {};
    assert done + DomainItems(ss[..0], d) == done;
    for k := 0 to |ss|
      invariant At(out, offset, done + DomainItems(ss[..k], d)) && offset % 8 == 0
      invariant taking == Taking(ss[..k], d)
    {
      hide At, Usable, SlaveItems, DomainItems, Taking;
      ghost var all := done + DomainItems(ss[..k], d);
      var appended: Result<(), LayoutError>;
      out, offset, appended := AppendSlavePdos(out, offset, ss[k], d, all);
      if appended.Err? { return out, offset, taking, appended; }
      TakingStep(ss, d, k);
      if ss[k].Selected(d) != [] { taking := taking + {ss[k].position}; }
      DomainItemsStep(ss, d, k, done);
    }
    assert ss[..|ss|] == ss;
    r := Ok(());
  }

  // --------------------------------------------------- what the layout means

  /** Entries start at bit zero and follow each other with no gap and no overlap. */
  ghost predicate Tiles(pdos: seq<GeneratedPdo>, bits: nat) {
    && (pdos != [] ==> pdos[0].bitOffset == 0)
    && (forall k :: 0 <= k && k + 1 < |pdos| ==>
          pdos[k + 1].bitOffset == pdos[k].bitOffset + pdos[k].bitLength)
    && bits == (if pdos == [] then 0
                else pdos[|pdos| - 1].bitOffset + pdos[|pdos| - 1].bitLength)
  }

  /** Every object starts where the ones before it end. */
  lemma LaidStep(xs: seq<Item>, k: nat)
    requires k < |xs|
    ensures Laid(xs)[k].bitOffset == Width(xs[..k])
    ensures Width(xs[..k + 1]) == Width(xs[..k]) + Laid(xs)[k].bitLength
  {
    hide Laid, Width;
    LaidAt(xs, k);
    assert xs[..k + 1] == xs[..k] + [xs[k]];
    Snoc(xs[..k], xs[k]);
  }

  lemma {:induction false} LaidTiles(xs: seq<Item>)
    ensures Tiles(Laid(xs), Width(xs))
  {
    assert xs == [] ==> Width(xs) == 0;
    assert xs[..|xs|] == xs;
    if xs != [] {
      assert xs[..0] == [];
      LaidStep(xs, 0);
      LaidStep(xs, |xs| - 1);
    }
    hide Laid, Width;
    forall k | 0 <= k && k + 1 < |xs|
      ensures Laid(xs)[k + 1].bitOffset == Laid(xs)[k].bitOffset + Laid(xs)[k].bitLength
    {
      LaidStep(xs, k);
      LaidStep(xs, k + 1);
    }
  }

  lemma {:induction false} ItemsDirected(ss: seq<Slave>, d: PdoDirection)
    ensures forall x :: x in DomainItems(ss, d) ==> x.direction == d
    decreases |ss|
  {
    if ss != [] {
      var n := |ss| - 1;
      ItemsDirected(ss[..n], d);
      SlaveItemsDirected(ss[n], d, ss[n].Selected(d));
    }
  }

  lemma {:induction false} SlaveItemsDirected(s: Slave, d: PdoDirection, pdos: seq<EsiPdo>)
    ensures forall x :: x in SlaveItems(s, d, pdos) ==> x.direction == d
    decreases |pdos|
  {
    if pdos != [] {
      var n := |pdos| - 1;
      SlaveItemsDirected(s, d, pdos[..n]);
      PdoItemsDirected(s, d, pdos[n], pdos[n].entries);
    }
  }

  lemma {:induction false} PdoItemsDirected(s: Slave, d: PdoDirection, pdo: EsiPdo, entries: seq<EsiEntry>)
    ensures forall x :: x in PdoItems(s, d, pdo, entries) ==> x.direction == d
    decreases |entries|
  {
    if entries != [] { PdoItemsDirected(s, d, pdo, entries[..|entries| - 1]); }
  }

  /** A direction nobody takes part in has no bits. */
  lemma {:induction false} NothingSelected(ss: seq<Slave>, d: PdoDirection)
    requires forall k :: 0 <= k < |ss| ==> ss[k].Selected(d) == []
    ensures DomainItems(ss, d) == []
    decreases |ss|
  {
    if ss != [] { NothingSelected(ss[..|ss| - 1], d); }
  }

  /** A domain with a usable selection has bits. */
  lemma {:induction false} SomethingSelected(ss: seq<Slave>, d: PdoDirection, k: nat)
    requires k < |ss| && ss[k].Selected(d) != [] && Usable(ss[k].Selected(d))
    ensures Width(DomainItems(ss, d)) > 0
    decreases |ss|
  {
    var n := |ss| - 1;
    var own := SlaveItems(ss[n], d, ss[n].Selected(d));
    WidthConcat(DomainItems(ss[..n], d), own);
    if k < n {
      SomethingSelected(ss[..n], d, k);
    } else {
      var pdos := ss[n].Selected(d);
      var m := |pdos| - 1;
      PdoItemsWidth(ss[n], d, pdos[m], pdos[m].entries);
      WidthConcat(SlaveItems(ss[n], d, pdos[..m]), PdoItems(ss[n], d, pdos[m], pdos[m].entries));
    }
  }
}
