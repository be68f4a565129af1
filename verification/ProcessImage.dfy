/** The whole process-image plan: all domains of a product and the datagrams that
    move their bytes. */
module ProcessImage {
  import opened Machine
  import opened EsiModel
  import opened DomainLayout
  import opened ProductManifest
  import opened DomainPlan

  // ---------------------------------------------------------------- datagrams

  datatype Datagram = Datagram(
    domainId: u8, input: bool, index: nat, logicalAddress: nat, domainOffset: nat,
    processImageOffset: nat, payloadLen: nat, expectedWkc: u16)
  {
    function End(): nat { processImageOffset + payloadLen }
  }

  function Gram(w: DomainWork, input: bool, index: nat): Datagram {
    var offset := if input then w.outputBytes else 0;
    Datagram(w.manifest.id, input, index, w.manifest.logicalAddress + offset, offset,
             w.manifest.processImageOffset + offset, if input then w.inputBytes else w.outputBytes,
             if input then w.inputWkc else w.outputWkc)
  }

  /** The write and the read datagram of a domain, as far as it needs them. */
  function DomainGrams(w: DomainWork, next: nat): seq<Datagram> {
    var writes := if w.outputBytes != 0 then [Gram(w, false, next)] else [];
    writes + if w.inputBytes != 0 then [Gram(w, true, next + |writes|)] else []
  }

  ghost function Grams(ws: seq<DomainWork>): seq<Datagram> {
    if ws == [] then []
    else
      var n := |ws| - 1;
      Grams(ws[..n]) + DomainGrams(ws[n], |Grams(ws[..n])|)
  }

  function NextDatagramIndex(next: u16): Result<u8, PlanError> {
    if next > U8_MAX then Err(DatagramIndexExhausted) else Ok(next)
  }

  function RegisterDatagram(w: DomainWork, input: bool, index: u8): (r: Result<Datagram, PlanError>)
    ensures r.Ok? ==> r.value.logicalAddress <= U32_MAX
  {
    var offset := if input then w.outputBytes else 0;
    var wkc := if input then w.inputWkc else w.outputWkc;
    if wkc == 0 then Err(ZeroWkc)
    else if offset > U32_MAX then Err(DatagramOffsetTooLarge)
    else if w.manifest.logicalAddress + offset > U32_MAX then Err(DatagramAddressOverflow)
    else Ok(Gram(w, input, index))
  }

  /** Whoever exchanges bytes has slaves to exchange them with. */
  ghost predicate Answered(w: DomainWork) {
    (w.outputBytes != 0 ==> w.outputWkc > 0) && (w.inputBytes != 0 ==> w.inputWkc > 0)
  }

  lemma {:induction false} GramsBound(ws: seq<DomainWork>)
    ensures |Grams(ws)| <= 2 * |ws|
    decreases |ws|
  {
    if ws != [] { GramsBound(ws[..|ws| - 1]); }
  }

  /** One datagram with the next free index. */
  method EmitOne(gs0: seq<Datagram>, next0: u16, w: DomainWork, input: bool)
    returns (gs: seq<Datagram>, next: u16, r: Result<(), PlanError>)
    requires next0 == |gs0|
    ensures r.Ok? ==> gs == gs0 + [Gram(w, input, |gs0|)] && next == |gs| && next0 <= U8_MAX
                      && Gram(w, input, |gs0|).logicalAddress <= U32_MAX
    ensures r.Err? && |gs0| <= U8_MAX && (if input then w.inputWkc else w.outputWkc) > 0 ==> !Unreachable(r.error)
  {
    gs, next := gs0, next0;
    var index := NextDatagramIndex(next);
    if index.Err? { return gs, next, Err(index.error); }
    next := SatAdd16(next, 1);
    var g := RegisterDatagram(w, input, index.value);
    if g.Err? { return gs, next, Err(g.error); }
    gs := gs + [g.value];
    r := Ok(());
  }

  method EmitDomain(gs0: seq<Datagram>, next0: u16, w: DomainWork)
    returns (gs: seq<Datagram>, next: u16, r: Result<(), PlanError>)
    requires next0 == |gs0|
    ensures r.Ok? ==> gs == gs0 + DomainGrams(w, |gs0|) && next == |gs|
                      && forall g :: g in DomainGrams(w, |gs0|) ==> g.logicalAddress <= U32_MAX
    ensures r.Err? && |gs0| < U8_MAX && Answered(w) ==> !Unreachable(r.error)
  {
    hide Gram, Unreachable;
    gs, next, r := gs0, next0, Ok(());
    if w.outputBytes != 0 {
      gs, next, r := EmitOne(gs, next, w, false);
      if r.Err? { return; }
    }
    if w.inputBytes != 0 {
      gs, next, r := EmitOne(gs, next, w, true);
      if r.Err? { return; }
    }
  }

  method EmitDatagrams(ws: seq<DomainWork>) returns (gs: seq<Datagram>, r: Result<(), PlanError>)
    ensures r.Ok? ==> gs == Grams(ws) && forall g :: g in gs ==> g.logicalAddress <= U32_MAX
    ensures r.Err? && |ws| <= MAX_DOMAINS && (forall k :: 0 <= k < |ws| ==> Answered(ws[k])) ==>
              !Unreachable(r.error)
  {
    gs := [];
    var next: u16 := 0;
    for k := 0 to |ws|
      invariant gs == Grams(ws[..k]) && next == |gs| <= 2 * k
      invariant forall g :: g in gs ==> g.logicalAddress <= U32_MAX
    {
      assert ws[..k + 1][..k] == ws[..k];
      assert Grams(ws[..k + 1]) == gs + DomainGrams(ws[k], |gs|);
      assert |DomainGrams(ws[k], |gs|)| <= 2;
      hide Grams, DomainGrams, Answered, Unreachable;
      gs, next, r := EmitDomain(gs, next, ws[k]);
      if r.Err? { return; }
    }
    assert ws[..|ws|] == ws;
    r := Ok(());
  }

  // ------------------------------------------------------------- the planner

  datatype Plan = Plan(works: seq<DomainWork>, datagrams: seq<Datagram>, status: StatusTable)

  /** The slaves of one domain, in bus order. */
  function InDomain(ss: seq<Slave>, id: u8): seq<Slave> {
    if ss == [] then []
    else
      var n := |ss| - 1;
      InDomain(ss[..n], id) + if ss[n].domainId == id then [ss[n]] else []
  }

  lemma {:induction false} InDomainFrom(ss: seq<Slave>, id: u8, k: nat) returns (i: nat)
    requires k < |InDomain(ss, id)|
    ensures i < |ss| && ss[i] == InDomain(ss, id)[k] && ss[i].domainId == id
    decreases |ss|
  {
    var n := |ss| - 1;
    if k < |InDomain(ss[..n], id)| { i := InDomainFrom(ss[..n], id, k); } else { i := n; }
  }

  /** What resolved slaves say about the last of them. */
  lemma ResolvedLast(ss: seq<Slave>)
    requires Resolved(ss) && ss != []
    ensures var n := |ss| - 1;
            && Resolved(ss[..n]) && n < U16_MAX
            && Usable(ss[n].rxPdos) && Usable(ss[n].txPdos) && |ss[n].fmmuUsages| <= MAX_FMMU_USAGES
            && (ss[n].rxPdos != [] || ss[n].txPdos != [])
            && forall k :: 0 <= k < n ==> ss[k].position != ss[n].position
  {
    hide Usable;
    var n := |ss| - 1;
    assert Usable(ss[n].Selected(Rx)) && Usable(ss[n].Selected(Tx));
  }

  lemma NoneResolved()
    ensures Resolved([])
  {
  }

  lemma InDomainPositions(ss: seq<Slave>, id: u8, p: u16)
    requires forall k :: 0 <= k < |ss| ==> ss[k].position != p
    ensures forall k :: 0 <= k < |InDomain(ss, id)| ==> InDomain(ss, id)[k].position != p
  {
    hide InDomain;
    forall k | 0 <= k < |InDomain(ss, id)| ensures InDomain(ss, id)[k].position != p {
      var i := InDomainFrom(ss, id, k);
    }
  }

  lemma {:induction false} InDomainResolved(ss: seq<Slave>, id: u8)
    requires Resolved(ss)
    ensures Resolved(InDomain(ss, id)) && |InDomain(ss, id)| <= |ss|
    decreases |ss|
  {
    hide Resolved, Usable;
    if ss == [] {
      NoneResolved();
    } else {
      var n := |ss| - 1;
      var before := InDomain(ss[..n], id);
      assert InDomain(ss, id) == if ss[n].domainId == id then before + [ss[n]] else before;
      ResolvedLast(ss);
      hide InDomain;
      InDomainResolved(ss[..n], id);
      InDomainPositions(ss[..n], id, ss[n].position);
      if ss[n].domainId == id { AppendResolved(before, ss[n]); }
    }
  }

  lemma AppendResolved(ss: seq<Slave>, s: Slave)
    requires Resolved(ss) && |ss| < U16_MAX && Usable(s.rxPdos) && Usable(s.txPdos)
    requires |s.fmmuUsages| <= MAX_FMMU_USAGES && (s.rxPdos != [] || s.txPdos != [])
    requires forall k :: 0 <= k < |ss| ==> ss[k].position != s.position
    ensures Resolved(ss + [s])
  {
    hide Usable;
  }

  ghost predicate Listed(ds: seq<DomainManifest>, id: u8) { exists j :: 0 <= j < |ds| && ds[j].id == id }

  /** Some slave at this position is in one of the listed domains. */
  ghost predicate Owned(ss: seq<Slave>, ds: seq<DomainManifest>, p: u16) {
    exists k :: 0 <= k < |ss| && ss[k].position == p && Listed(ds, ss[k].domainId)
  }

  /** Every mapped position belongs to a slave of an already planned domain. */
  ghost predicate Tidy(table: StatusTable, ss: seq<Slave>, ds: seq<DomainManifest>) {
    forall p :: p in table ==> Owned(ss, ds, p)
  }

  lemma StillUnmapped(table: StatusTable, ss: seq<Slave>, ds: seq<DomainManifest>, id: u8)
    requires Tidy(table, ss, ds) && Resolved(ss) && !Listed(ds, id)
    ensures Unmapped(InDomain(ss, id), table)
  {
    hide AllUsable, Listed;
    forall k | 0 <= k < |InDomain(ss, id)| ensures InDomain(ss, id)[k].position !in table {
      var i := InDomainFrom(ss, id, k);
    }
  }

  lemma StaysTidy(before: StatusTable, after: StatusTable, ss: seq<Slave>, ds: seq<DomainManifest>, n: nat, status: seq<StatusSlave>, base: nat)
    requires n < |ds| && Tidy(before, ss, ds[..n]) && status == SortedStatus(InDomain(ss, ds[n].id))
    requires Resolved(ss) && Mapped(before, after, ds[n], status, base)
    ensures Tidy(after, ss, ds[..n + 1])
  {
    var own := InDomain(ss, ds[n].id);
    InDomainResolved(ss, ds[n].id);
    SortedStatusFacts(own);
    hide AllUsable, SortedStatus, InDomain, Listed;
    forall p | p in after ensures Owned(ss, ds[..n + 1], p) {
      if p in before {
        var k :| 0 <= k < |ss| && ss[k].position == p && Listed(ds[..n], ss[k].domainId);
        ListedMore(ds, n, ss[k].domainId);
      } else {
        var i :| 0 <= i < |own| && own[i].position == p;
        var k := InDomainFrom(ss, ds[n].id, i);
        ListedMore(ds, n, ss[k].domainId);
      }
    }
  }

  lemma ListedMore(ds: seq<DomainManifest>, n: nat, id: u8)
    requires n < |ds| && (Listed(ds[..n], id) || ds[n].id == id)
    ensures Listed(ds[..n + 1], id)
  {
    if Listed(ds[..n], id) {
      var j :| 0 <= j < n && ds[..n][j].id == id;
      assert ds[..n + 1][j].id == id;
    } else {
      assert ds[..n + 1][n].id == id;
    }
  }

  /** Status bits sit where the plan put them. */
  ghost predicate StatusPlaced(table: StatusTable, w: DomainWork, base: nat) {
    forall k :: 0 <= k < |w.status| ==>
      && w.status[k].position in table
      && table[w.status[k].position].domainBitOffset == base + k
      && table[w.status[k].position].domainId == w.manifest.id
  }

  ghost predicate WorkPlanned(m: Manifest, ss: seq<Slave>, table: StatusTable, ws: seq<DomainWork>, k: nat)
    requires k < |ws| && k < |m.domains|
  {
    var own := InDomain(ss, m.domains[k].id);
    Planned(m.capacities, m.domains[k], own, ws[k]) && StatusPlaced(table, ws[k], Width(AllItems(own)))
  }

  /** The plan is what the layout rules say for this manifest and these slaves. */
  ghost predicate PlanOf(m: Manifest, ss: seq<Slave>, p: Plan) {
    && |p.works| == |m.domains|
    && (forall k :: 0 <= k < |p.works| ==> WorkPlanned(m, ss, p.status, p.works, k))
    && p.datagrams == Grams(p.works)
    && forall g :: g in p.datagrams ==> g.logicalAddress <= U32_MAX
  }

  lemma PlacedPersists(before: StatusTable, after: StatusTable, d: DomainManifest, status: seq<StatusSlave>, base: nat, w: DomainWork, own: nat)
    requires Mapped(before, after, d, status, base) && StatusPlaced(before, w, own)
    ensures StatusPlaced(after, w, own)
  {
  }

  lemma PlacedNow(before: StatusTable, after: StatusTable, w: DomainWork, base: nat)
    requires Mapped(before, after, w.manifest, w.status, base)
    ensures StatusPlaced(after, w, base)
  {
  }

  /** What the manifest checks and the resolution of slaves hand to the planner. */
  ghost predicate PlannerInputs(m: Manifest, ss: seq<Slave>) { Acceptable(m) && Resolved(ss) }

  lemma WorksExtend(m: Manifest, ss: seq<Slave>, before: StatusTable, table: StatusTable, ws: seq<DomainWork>, w: DomainWork)
    requires |ws| < |m.domains|
    requires forall k :: 0 <= k < |ws| ==> WorkPlanned(m, ss, before, ws, k)
    requires var own := InDomain(ss, m.domains[|ws|].id);
             Planned(m.capacities, m.domains[|ws|], own, w)
             && Mapped(before, table, m.domains[|ws|], w.status, Width(AllItems(own)))
    ensures forall k :: 0 <= k < |ws| + 1 ==> WorkPlanned(m, ss, table, ws + [w], k)
  {
    var d, own := m.domains[|ws|], InDomain(ss, m.domains[|ws|].id);
    PlannedFacts(m.capacities, d, own, w);
    hide Planned, Mapped, InDomain, StatusPlaced, AllItems, Width;
    forall k | 0 <= k < |ws| + 1 ensures WorkPlanned(m, ss, table, ws + [w], k) {
      if k < |ws| {
        var other := InDomain(ss, m.domains[k].id);
        assert WorkPlanned(m, ss, before, ws, k);
        PlacedPersists(before, table, d, w.status, Width(AllItems(own)), ws[k], Width(AllItems(other)));
      } else {
        PlacedNow(before, table, w, Width(AllItems(own)));
      }
    }
  }

  method PlanDomains(m: Manifest, ss: seq<Slave>) returns (ws: seq<DomainWork>, table: StatusTable, r: Result<(), PlanError>)
    ensures r.Ok? ==> |ws| == |m.domains| && forall k :: 0 <= k < |ws| ==> WorkPlanned(m, ss, table, ws, k)
    ensures r.Err? && PlannerInputs(m, ss) ==> !Unreachable(r.error)
  {
    ws, table := [], map[];
    for n := 0 to |m.domains|
      invariant |ws| == n && forall k :: 0 <= k < n ==> WorkPlanned(m, ss, table, ws, k)
      invariant Resolved(ss) ==> Tidy(table, ss, m.domains[..n])
    {
      hide Planned, Mapped, Resolved, Tidy, InDomain, Unreachable, AllItems, Width, WorkPlanned, Acceptable;
      var d := m.domains[n];
      var own := InDomain(ss, d.id);
      if PlannerInputs(m, ss) {
        InDomainResolved(ss, d.id);
        EarlierIdsDiffer(m, n);
        StillUnmapped(table, ss, m.domains[..n], d.id);
      }
      ghost var before := table;
      var built: Result<DomainWork, PlanError>;
      table, built := BuildDomain(m.capacities, d, own, table);
      if built.Err? { return ws, table, Err(built.error); }
      var w := built.value;
      WorksExtend(m, ss, before, table, ws, w);
      PlannedFacts(m.capacities, d, own, w);
      if Resolved(ss) { StaysTidy(before, table, ss, m.domains, n, w.status, Width(AllItems(own))); }
      ws := ws + [w];
    }
    r := Ok(());
  }

  lemma PlannedFacts(c: Capacities, d: DomainManifest, ss: seq<Slave>, w: DomainWork)
    requires Planned(c, d, ss, w)
    ensures w.manifest == d && w.status == SortedStatus(ss)
  {
  }

  lemma EarlierIdsDiffer(m: Manifest, n: nat)
    requires Acceptable(m) && n < |m.domains|
    ensures !Listed(m.domains[..n], m.domains[n].id)
  {
    forall j | 0 <= j < n ensures m.domains[..n][j].id != m.domains[n].id {
      assert DomainsApart(m.domains[j], m.domains[n]);
    }
  }

  /** Plans the process image. Whatever it accepts is laid out by the rules, and the
      errors that would mean a hole in the manifest or ESI checks never occur. */
  method BuildDomainPlan(m: Manifest, ss: seq<Slave>) returns (r: Result<Plan, PlanError>)
    ensures r.Ok? ==> PlanOf(m, ss, r.value)
    ensures r.Err? && PlannerInputs(m, ss) ==> !Unreachable(r.error)
  {
    hide WorkPlanned, Grams, Unreachable;
    var ws, table, planned := PlanDomains(m, ss);
    if planned.Err? { return Err(planned.error); }
    forall k | 0 <= k < |ws| ensures Answered(ws[k]) { WorkAnswered(m, ss, table, ws, k); }
    var gs, emitted := EmitDatagrams(ws);
    if emitted.Err? { return Err(emitted.error); }
    return Ok(Plan(ws, gs, table));
  }

  lemma WorkAnswered(m: Manifest, ss: seq<Slave>, table: StatusTable, ws: seq<DomainWork>, k: nat)
    requires k < |ws| && k < |m.domains| && WorkPlanned(m, ss, table, ws, k)
    ensures Answered(ws[k])
  {
    PlannedAnswered(m.capacities, m.domains[k], InDomain(ss, m.domains[k].id), ws[k]);
  }

  /** A direction with bytes has at least one slave that answers for it. */
  lemma PlannedAnswered(c: Capacities, d: DomainManifest, ss: seq<Slave>, w: DomainWork)
    requires Planned(c, d, ss, w)
    ensures Answered(w)
  {
    WidthConcat(DomainItems(ss, Rx), DomainItems(ss, Tx));
    hide Width, Laid, DomainItems, SortedStatus;
    if w.outputBytes != 0 { SomebodyTakes(ss, Rx); }
    if w.inputBytes != 0 {
      if w.status != [] {
        assert w.status[0].position in Positions(w.status);
      } else {
        SomebodyTakes(ss, Tx);
      }
    }
  }

  lemma SomebodyTakes(ss: seq<Slave>, d: PdoDirection)
    requires Width(DomainItems(ss, d)) > 0
    ensures Taking(ss, d) != {}
  {
    if forall k :: 0 <= k < |ss| ==> ss[k].Selected(d) == [] {
      NothingSelected(ss, d);
    } else {
      var k :| 0 <= k < |ss| && ss[k].Selected(d) != [];
      assert ss[k].position in Taking(ss, d);
    }
  }
}
