/** The process-image planner: from an accepted manifest and its resolved slaves to
    laid-out domains, mailbox status bits and cyclic datagrams. */
module DomainPlan {
  import opened Machine
  import opened EsiModel
  import opened DomainLayout
  import opened ProductManifest
  import Sorting

  datatype PlanError =
    | EmptyDomain | Layout(error: LayoutError) | MultipleStatusFmmu | FmmuIndexTooLarge
    | StatusOffsetTooLarge | StatusAddressOverflow | DuplicateStatusMapping
    | CapacityExceeded(imageBytes: nat, entries: nat) | OutputWkcTooLarge | InputWkcTooLarge
    | DatagramIndexExhausted | ZeroWkc | DatagramOffsetTooLarge | DatagramAddressOverflow

  // ------------------------------------------------------ mailbox status bits

  datatype StatusSlave = StatusSlave(position: u16, fmmuIndex: u8)

  datatype StatusBit = StatusBit(
    domainId: u8, domainBitOffset: u32, maxAgeCycles: u32, fmmuIndex: u8, logicalStart: u32,
    logicalBit: u8)

  type StatusTable = map<u16, StatusBit>

  function StatusKey(x: StatusSlave): int { x.position }

  /** First FMMU at or after `from` that is reserved for SyncManager status. */
  function FindStatusFmmu(usages: seq<FmmuUsage>, from: nat): Option<nat>
    requires from <= |usages|
    decreases |usages| - from
  {
    if from == |usages| then None
    else if usages[from] == SyncManagerStatus then Some(from)
    else FindStatusFmmu(usages, from + 1)
  }

  function StatusFmmu(s: Slave): Result<Option<u8>, PlanError> {
    match FindStatusFmmu(s.fmmuUsages, 0)
    case None => Ok(None)
    case Some(i) =>
      if i >= |s.fmmuUsages| || FindStatusFmmu(s.fmmuUsages, i + 1).Some? then Err(MultipleStatusFmmu)
      else if i > U8_MAX then Err(FmmuIndexTooLarge)
      else Ok(Some(i))
  }

  /** Slaves that want a status bit, in the order of the domain. */
  function StatusSlaves(ss: seq<Slave>): seq<StatusSlave> {
    if ss == [] then []
    else
      var n := |ss| - 1;
      var own := StatusFmmu(ss[n]);
      StatusSlaves(ss[..n])
      + if own.Ok? && own.value.Some? then [StatusSlave(ss[n].position, own.value.value)] else []
  }

  const MAX_FMMU_USAGES := 16

  ghost predicate FewFmmus(ss: seq<Slave>) {
    forall k :: 0 <= k < |ss| ==> |ss[k].fmmuUsages| <= MAX_FMMU_USAGES
  }

  method CollectStatus(ss: seq<Slave>) returns (status: seq<StatusSlave>, r: Result<(), PlanError>)
    ensures r.Ok? ==> status == StatusSlaves(ss)
    ensures r.Err? ==> r.error == MultipleStatusFmmu || r.error == FmmuIndexTooLarge
    ensures r.Err? && FewFmmus(ss) ==> r.error == MultipleStatusFmmu
  {
    status := [];
    for k := 0 to |ss|
      invariant status == StatusSlaves(ss[..k])
    {
      assert ss[..k + 1][..k] == ss[..k];
      match StatusFmmu(ss[k]) {
        case Err(e) => return status, Err(e);
        case Ok(own) => if own.Some? { status := status + [StatusSlave(ss[k].position, own.value)]; }
      }
    }
    assert ss[..|ss|] == ss;
    r := Ok(());
  }

  ghost function Positions(status: seq<StatusSlave>): set<u16> {
    set k | 0 <= k < |status| :: status[k].position
  }

  ghost predicate DistinctStatus(status: seq<StatusSlave>) {
    forall i, j :: 0 <= i < j < |status| ==> status[i].position != status[j].position
  }

  /** The table after giving consecutive bits, from `base` on, to the listed slaves. */
  ghost predicate Mapped(before: StatusTable, after: StatusTable, d: DomainManifest, status: seq<StatusSlave>, base: nat) {
    && after.Keys == before.Keys + Positions(status)
    && (forall p :: p in before ==> p in after && after[p] == before[p])
    && forall k :: 0 <= k < |status| ==>
         && status[k].position in after && status[k].position !in before
         && after[status[k].position].domainBitOffset == base + k
         && after[status[k].position].domainId == d.id
         && after[status[k].position].maxAgeCycles == d.periodTicks
         && after[status[k].position].fmmuIndex == status[k].fmmuIndex
         && after[status[k].position].logicalStart == d.logicalAddress + (base + k) / 8
         && after[status[k].position].logicalBit == (base + k) % 8
  }

  /** One more status bit; refused when it does not fit or its slave has one. */
  method MapOneStatus(d: DomainManifest, x: StatusSlave, offset: nat, table0: StatusTable)
    returns (table: StatusTable, r: Result<(), PlanError>)
    ensures r.Ok? ==> && x.position !in table0 && offset <= U32_MAX && d.logicalAddress + offset / 8 <= U32_MAX
                      && table == table0[x.position := StatusBit(d.id, offset, d.periodTicks, x.fmmuIndex,
                                                                 d.logicalAddress + offset / 8, offset % 8)]
    ensures r.Err? ==> || r.error == StatusOffsetTooLarge || r.error == StatusAddressOverflow
                       || (r.error == DuplicateStatusMapping && x.position in table0)
  {
    if offset > U32_MAX { return table0, Err(StatusOffsetTooLarge); }
    var logicalStart := d.logicalAddress + offset / 8;
    if logicalStart > U32_MAX { return table0, Err(StatusAddressOverflow); }
    if x.position in table0 { return table0, Err(DuplicateStatusMapping); }
    table := table0[x.position := StatusBit(d.id, offset, d.periodTicks, x.fmmuIndex, logicalStart, offset % 8)];
    r := Ok(());
  }

  method MapStatus(d: DomainManifest, status: seq<StatusSlave>, base: nat, table0: StatusTable, taking0: set<u16>)
    returns (table: StatusTable, offset: nat, taking: set<u16>, r: Result<(), PlanError>)
    ensures r.Ok? ==> Mapped(table0, table, d, status, base)
    ensures r.Ok? ==> offset == base + |status| && taking == taking0 + Positions(status)
    ensures r.Err? && DistinctStatus(status) && Positions(status) !! table0.Keys ==>
              r.error == StatusOffsetTooLarge || r.error == StatusAddressOverflow
  {
    hide Mapped, DistinctStatus, Positions;
    table, offset, taking := table0, base, taking0;
    NothingMapped(table0, d, status, base);
    for k := 0 to |status|
      invariant Mapped(table0, table, d, status[..k], base)
      invariant offset == base + k && taking == taking0 + Positions(status[..k])
    {
      taking := taking + {status[k].position};
      ghost var before := table;
      table, r := MapOneStatus(d, status[k], offset, table);
      if r.Err? {
        if r.error == DuplicateStatusMapping { NotYetMapped(table0, before, d, status, base, k); }
        return;
      }
      MapOne(table0, before, table, d, status, base, k);
      PositionsStep(status, k);
      offset := offset + 1;
    }
    assert status[..|status|] == status;
    r := Ok(());
  }

  lemma NothingMapped(table: StatusTable, d: DomainManifest, status: seq<StatusSlave>, base: nat)
    ensures Mapped(table, table, d, status[..0], base) && Positions(status[..0]) == {}
  {
  }

  lemma PositionsStep(status: seq<StatusSlave>, k: nat)
    requires k < |status|
    ensures Positions(status[..k + 1]) == Positions(status[..k]) + {status[k].position}
  {
    assert status[..k + 1][k] == status[k];
  }

  lemma NotYetMapped(before: StatusTable, table: StatusTable, d: DomainManifest, status: seq<StatusSlave>, base: nat, k: nat)
    requires k < |status| && Mapped(before, table, d, status[..k], base) && status[k].position in table
    ensures !(DistinctStatus(status) && Positions(status) !! before.Keys)
  {
    var p := status[k].position;
    assert p in Positions(status);
    if p !in before {
      var i :| 0 <= i < k && status[..k][i].position == p;
      assert status[i].position == p;
    }
  }

  lemma MapOne(before: StatusTable, t: StatusTable, t': StatusTable, d: DomainManifest, status: seq<StatusSlave>, base: nat, k: nat)
    requires k < |status| && Mapped(before, t, d, status[..k], base) && status[k].position !in t
    requires base + k <= U32_MAX && d.logicalAddress + (base + k) / 8 <= U32_MAX
    requires t' == t[status[k].position := StatusBit(d.id, base + k, d.periodTicks, status[k].fmmuIndex,
                                                     d.logicalAddress + (base + k) / 8, (base + k) % 8)]
    ensures Mapped(before, t', d, status[..k + 1], base)
  {
    PositionsStep(status, k);
    forall i | 0 <= i < k
      ensures status[i].position in t && status[i].position !in before
              && t'[status[i].position] == t[status[i].position]
              && t[status[i].position].domainBitOffset == base + i
    {
      assert status[..k][i] == status[i];
    }
    forall i | 0 <= i < |status[..k + 1]| ensures status[..k + 1][i] == status[i] {}
    forall i | 0 <= i < k ensures status[..k][i] == status[i] {}
  }

  // --------------------------------------------------------------- one domain

  datatype DomainWork = DomainWork(
    manifest: DomainManifest, pdos: seq<GeneratedPdo>, status: seq<StatusSlave>,
    outputBytes: nat, inputBytes: nat, outputWkc: u16, inputWkc: u16)

  ghost function AllItems(ss: seq<Slave>): seq<Item> { DomainItems(ss, Rx) + DomainItems(ss, Tx) }

  ghost function SortedStatus(ss: seq<Slave>): seq<StatusSlave> {
    Sorting.SortBy(StatusSlaves(ss), StatusKey)
  }

  /** What an accepted domain looks like: outputs, inputs and status bits back to
      back, split at a byte boundary, inside the declared capacity. */
  ghost predicate Planned(c: Capacities, d: DomainManifest, ss: seq<Slave>, w: DomainWork) {
    && w.manifest == d && ss != []
    && w.pdos == Laid(AllItems(ss))
    && w.status == SortedStatus(ss)
    && w.outputBytes * 8 == Width(DomainItems(ss, Rx))
    && Width(AllItems(ss)) % 8 == 0
    && (w.outputBytes + w.inputBytes) * 8 == RoundUp8(Width(AllItems(ss)) + |w.status|)
    && 0 < w.outputBytes + w.inputBytes <= d.processImageCapacityBytes
    && |w.pdos| <= d.maxPdoEntries && |w.pdos| <= c.maxPdoEntriesPerDomain
    && w.outputWkc == |Taking(ss, Rx)|
    && w.inputWkc == |Taking(ss, Tx) + Positions(w.status)|
  }

  /** Slaves as manifest checks and ESI parsing deliver them. */
  ghost predicate Resolved(ss: seq<Slave>) {
    && |ss| <= U16_MAX
    && AllUsable(ss, Rx) && AllUsable(ss, Tx) && FewFmmus(ss)
    && (forall k :: 0 <= k < |ss| ==> ss[k].rxPdos != [] || ss[k].txPdos != [])
    && forall i, j :: 0 <= i < j < |ss| ==> ss[i].position != ss[j].position
  }

  /** Errors that no accepted input can produce. */
  ghost predicate Unreachable(e: PlanError) {
    || e == Layout(NotByteAddressable) || e == Layout(NoSyncManager)
    || e == FmmuIndexTooLarge || e == DuplicateStatusMapping || e == OutputWkcTooLarge || e == InputWkcTooLarge
    || e == DatagramIndexExhausted || e == ZeroWkc
    || (e.CapacityExceeded? && e.imageBytes == 0)
  }

  lemma {:induction false} StatusFromSlaves(ss: seq<Slave>, x: StatusSlave) returns (k: nat)
    requires x in StatusSlaves(ss)
    ensures k < |ss| && ss[k].position == x.position
    decreases |ss|
  {
    var n := |ss| - 1;
    if x in StatusSlaves(ss[..n]) { k := StatusFromSlaves(ss[..n], x); } else { k := n; }
  }

  lemma {:induction false} StatusDistinct(ss: seq<Slave>)
    requires forall i, j :: 0 <= i < j < |ss| ==> ss[i].position != ss[j].position
    ensures DistinctStatus(StatusSlaves(ss))
    decreases |ss|
  {
    if ss != [] {
      var n := |ss| - 1;
      StatusDistinct(ss[..n]);
      var before := StatusSlaves(ss[..n]);
      forall i | 0 <= i < |before| ensures before[i].position != ss[n].position {
        var k := StatusFromSlaves(ss[..n], before[i]);
      }
    }
  }

  /** Sorting keeps the listed positions and their distinctness. */
  lemma SortedStatusFacts(ss: seq<Slave>)
    requires forall i, j :: 0 <= i < j < |ss| ==> ss[i].position != ss[j].position
    ensures DistinctStatus(SortedStatus(ss))
    ensures forall p :: p in Positions(SortedStatus(ss)) ==> exists k :: 0 <= k < |ss| && ss[k].position == p
  {
    var status, sorted := StatusSlaves(ss), SortedStatus(ss);
    StatusDistinct(ss);
    Sorting.SortFacts(status, StatusKey);
    forall i, j | 0 <= i < j < |sorted| ensures sorted[i].position != sorted[j].position {
      NoRepeat(status, sorted, i, j);
    }
    forall p | p in Positions(sorted) ensures exists k :: 0 <= k < |ss| && ss[k].position == p {
      var i :| 0 <= i < |sorted| && sorted[i].position == p;
      assert sorted[i] in multiset(status);
      var k := StatusFromSlaves(ss, sorted[i]);
    }
  }

  lemma NoRepeat(status: seq<StatusSlave>, sorted: seq<StatusSlave>, i: nat, j: nat)
    requires DistinctStatus(status) && multiset(sorted) == multiset(status) && i < j < |sorted|
    ensures sorted[i].position != sorted[j].position
  {
    assert sorted[i] in multiset(status) && sorted[j] in multiset(status);
    var a :| 0 <= a < |status| && status[a] == sorted[i];
    AtMostOnce(status, a);
    if sorted[i] == sorted[j] { TwiceCounts(sorted, i, j); }
  }

  lemma TwiceCounts(s: seq<StatusSlave>, i: nat, j: nat)
    requires i < j < |s| && s[i] == s[j]
    ensures multiset(s)[s[i]] >= 2
  {
    var x := s[i];
    assert s == s[..i] + [x] + s[i + 1..j] + [x] + s[j + 1..];
  }

  lemma AtMostOnce(status: seq<StatusSlave>, a: nat)
    requires DistinctStatus(status) && a < |status|
    ensures multiset(status)[status[a]] == 1
  {
    assert status == status[..a] + [status[a]] + status[a + 1..];
    assert status[a] !in status[..a] && status[a] !in status[a + 1..];
  }

  lemma {:induction false} TakingSize(ss: seq<Slave>, ps: set<u16>)
    requires forall p :: p in ps ==> exists k :: 0 <= k < |ss| && ss[k].position == p
    ensures |ps| <= |ss|
    decreases |ss|
  {
    if ss == [] {
      assert ps == {};
    } else {
      var n := |ss| - 1;
      var rest := ps - {ss[n].position};
      forall p | p in rest ensures exists k :: 0 <= k < |ss[..n]| && ss[..n][k].position == p {
        var k :| 0 <= k < |ss| && ss[k].position == p;
        assert ss[..n][k] == ss[k];
      }
      TakingSize(ss[..n], rest);
    }
  }

  lemma SomeBits(ss: seq<Slave>)
    requires ss != [] && Resolved(ss)
    ensures Width(AllItems(ss)) > 0
  {
    WidthConcat(DomainItems(ss, Rx), DomainItems(ss, Tx));
    if ss[0].rxPdos != [] { SomethingSelected(ss, Rx, 0); } else { SomethingSelected(ss, Tx, 0); }
  }

  ghost predicate Finished(c: Capacities, d: DomainManifest, w: DomainWork, bits: nat) {
    && w.manifest == d
    && (w.outputBytes + w.inputBytes) * 8 == RoundUp8(bits)
    && 0 < w.outputBytes + w.inputBytes <= d.processImageCapacityBytes
    && |w.pdos| <= d.maxPdoEntries && |w.pdos| <= c.maxPdoEntriesPerDomain
  }

  lemma FinishedIsPlanned(c: Capacities, d: DomainManifest, ss: seq<Slave>, w: DomainWork, base: nat, bits: nat)
    requires ss != [] && At(w.pdos, base, AllItems(ss)) && base % 8 == 0 && w.status == SortedStatus(ss)
    requires bits == base + |w.status| && Finished(c, d, w, bits)
    requires w.outputBytes * 8 == Width(DomainItems(ss, Rx))
    requires w.outputWkc == |Taking(ss, Rx)| && w.inputWkc == |Taking(ss, Tx) + Positions(w.status)|
    ensures Planned(c, d, ss, w)
  {
    hide Laid, Width, DomainItems, Taking, SortedStatus, Positions, RoundUp8;
  }

  /** The three ways a finished layout can still be refused, and the finished domain. */
  method FinishDomain(
    c: Capacities, d: DomainManifest, pdos: seq<GeneratedPdo>, status: seq<StatusSlave>, outputBytes: nat,
    bits: nat, outputs: set<u16>, inputs: set<u16>)
    returns (r: Result<DomainWork, PlanError>)
    requires outputBytes * 8 <= bits
    ensures r.Ok? <==> && 0 < bits <= d.processImageCapacityBytes * 8
                       && |pdos| <= d.maxPdoEntries && |pdos| <= c.maxPdoEntriesPerDomain
                       && |outputs| <= U16_MAX && |inputs| <= U16_MAX
    ensures r.Ok? ==> Finished(c, d, r.value, bits)
                      && r.value.pdos == pdos && r.value.status == status && r.value.outputBytes == outputBytes
                      && r.value.outputWkc == |outputs| && r.value.inputWkc == |inputs|
    ensures r.Err? && bits > 0 && |outputs| <= U16_MAX && |inputs| <= U16_MAX ==>
              r.error.CapacityExceeded? && r.error.imageBytes > 0
  {
    var imageBytes := (bits + 7) / 8;
    var inputBytes := if imageBytes >= outputBytes then imageBytes - outputBytes else 0;
    if imageBytes == 0 || imageBytes > d.processImageCapacityBytes
       || |pdos| > d.maxPdoEntries || |pdos| > c.maxPdoEntriesPerDomain
    {
      return Err(CapacityExceeded(imageBytes, |pdos|));
    }
    if |outputs| > U16_MAX { return Err(OutputWkcTooLarge); }
    if |inputs| > U16_MAX { return Err(InputWkcTooLarge); }
    return Ok(DomainWork(d, pdos, status, outputBytes, inputBytes, |outputs|, |inputs|));
  }

  lemma WkcFits(ss: seq<Slave>)
    requires Resolved(ss)
    ensures |Taking(ss, Rx)| <= U16_MAX
    ensures |Taking(ss, Tx) + Positions(SortedStatus(ss))| <= U16_MAX
  {
    SortedStatusFacts(ss);
    TakingSize(ss, Taking(ss, Rx));
    TakingSize(ss, Taking(ss, Tx) + Positions(SortedStatus(ss)));
  }

  /** Lays out both directions of a domain. */
  method LayOut(ss: seq<Slave>)
    returns (pdos: seq<GeneratedPdo>, outputBytes: nat, bits: nat, outputs: set<u16>, inputs: set<u16>,
             r: Result<(), LayoutError>)
    ensures r.Ok? ==> && At(pdos, bits, AllItems(ss)) && bits % 8 == 0
                      && outputBytes * 8 == Width(DomainItems(ss, Rx)) <= bits
                      && outputs == Taking(ss, Rx) && inputs == Taking(ss, Tx)
    ensures r.Err? && AllUsable(ss, Rx) && AllUsable(ss, Tx) ==> r.error == BitOffsetOverflow
  {
    assert At([], 0, []);
    outputBytes, inputs := 0, {};
    pdos, bits, outputs, r := AppendDirection([], 0, ss, Rx, []);
    if r.Err? { return; }
    hide DomainItems, Laid, Taking, AllUsable;
    assert [] + DomainItems(ss, Rx) == DomainItems(ss, Rx);
    outputBytes := bits / 8;
    pdos, bits, inputs, r := AppendDirection(pdos, bits, ss, Tx, DomainItems(ss, Rx));
    WidthConcat(DomainItems(ss, Rx), DomainItems(ss, Tx));
    hide Width;
    if r.Err? { return; }
    bits := RoundUp8(bits);
  }

  /** None of these slaves has a status bit yet. */
  ghost predicate Unmapped(ss: seq<Slave>, table: StatusTable) {
    forall k :: 0 <= k < |ss| ==> ss[k].position !in table
  }

  /** What resolved slaves guarantee about a domain before it is laid out. */
  lemma ResolvedFacts(ss: seq<Slave>, table: StatusTable)
    requires ss != [] && Resolved(ss) && Unmapped(ss, table)
    ensures AllUsable(ss, Rx) && AllUsable(ss, Tx) && FewFmmus(ss) && Width(AllItems(ss)) > 0
    ensures DistinctStatus(SortedStatus(ss)) && Positions(SortedStatus(ss)) !! table.Keys
    ensures |Taking(ss, Rx)| <= U16_MAX
    ensures |Taking(ss, Tx) + Positions(SortedStatus(ss))| <= U16_MAX
  {
    SortedStatusFacts(ss);
    WkcFits(ss);
    SomeBits(ss);
    forall p | p in Positions(SortedStatus(ss)) ensures p !in table {
      var k :| 0 <= k < |ss| && ss[k].position == p;
    }
  }

  /** Adds the status bits to a laid-out domain and closes it. */
  method CompleteDomain(
    c: Capacities, d: DomainManifest, ss: seq<Slave>, table0: StatusTable, pdos: seq<GeneratedPdo>,
    outputBytes: nat, base: nat, outputs: set<u16>, inputs0: set<u16>)
    returns (table: StatusTable, r: Result<DomainWork, PlanError>)
    requires ss != [] && At(pdos, base, AllItems(ss)) && base % 8 == 0
    requires outputBytes * 8 == Width(DomainItems(ss, Rx)) <= base
    requires outputs == Taking(ss, Rx) && inputs0 == Taking(ss, Tx)
    ensures r.Ok? ==> && Planned(c, d, ss, r.value)
                      && Mapped(table0, table, d, r.value.status, Width(AllItems(ss)))
    ensures r.Err? && Resolved(ss) && Unmapped(ss, table0) ==> !Unreachable(r.error)
  {
    hide AllItems, DomainItems, Laid, Width, StatusSlaves, Taking, Mapped, RoundUp8, AllUsable, Positions,
         DistinctStatus, Sorting.SortBy, Resolved, Unmapped, Planned, Finished, FewFmmus;
    table := table0;
    if Resolved(ss) && Unmapped(ss, table0) { ResolvedFacts(ss, table0); }
    var collected, collect := CollectStatus(ss);
    if collect.Err? { return table, Err(collect.error); }
    var status := Sorting.SortBy(collected, StatusKey);
    assert status == SortedStatus(ss);
    assert base == Width(AllItems(ss));
    hide SortedStatus, At;
    var bits: nat, inputs: set<u16>;
    var mapping: Result<(), PlanError>;
    table, bits, inputs, mapping := MapStatus(d, status, base, table0, inputs0);
    if mapping.Err? { return table, Err(mapping.error); }
    r := FinishDomain(c, d, pdos, status, outputBytes, bits, outputs, inputs);
    if r.Ok? { FinishedIsPlanned(c, d, ss, r.value, base, bits); }
  }

  method BuildDomain(c: Capacities, d: DomainManifest, ss: seq<Slave>, table0: StatusTable)
    returns (table: StatusTable, r: Result<DomainWork, PlanError>)
    ensures r.Ok? ==> && Planned(c, d, ss, r.value)
                      && Mapped(table0, table, d, r.value.status, Width(AllItems(ss)))
    ensures r.Err? && Resolved(ss) && Unmapped(ss, table0) ==> !Unreachable(r.error)
  {
    hide At, AllItems, Taking, Mapped, Planned, Unmapped, AllUsable, Width;
    if ss == [] { return table0, Err(EmptyDomain); }
    var pdos, outputBytes, base, outputs, inputs, layout := LayOut(ss);
    if layout.Err? { return table0, Err(Layout(layout.error)); }
    table, r := CompleteDomain(c, d, ss, table0, pdos, outputBytes, base, outputs, inputs);
  }
}
