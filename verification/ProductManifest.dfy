/** The parts of a product manifest that decide the process image, and the checks
    that make a manifest acceptable. */
module ProductManifest {
  import opened Machine
  import Sorting

  const MAX_DOMAINS := 16
  const MAX_DATAGRAMS_PER_DOMAIN := 2
  const MAX_FRAMES_PER_DOMAIN := 8
  const MAX_SCHEDULE_SLOTS := 1024
  const MAX_PRODUCT_PDO_ENTRIES_PER_DOMAIN := 512

  const PRODUCT_SCHEMA := "esop.product.v1"
  const MAX_RUNTIME_SDO_REQUESTS := 64
  const MAX_SDO_OBJECT_BYTES := 65536
  const MAX_AXES := 32
  const MAX_PRODUCT_SLAVE_COPIES := 32

  /** Which names and which paths are acceptable as such. */
  datatype Syntax = Syntax(textOk: string -> bool, confined: string -> bool)

  datatype Capacities = Capacities(
    maxProcessImageBytes: u64, maxPdoEntriesPerDomain: u64, maxDatagramsPerDomain: u64,
    maxFramesPerDomain: u64, maxScheduleSlots: u64, runtimeSdoRequests: u64, maxSdoObjectBytes: u64)

  datatype DomainManifest = DomainManifest(
    id: u8, name: string, logicalAddress: u32, processImageOffset: u64,
    processImageCapacityBytes: u64, periodTicks: u32, phaseTicks: u32,
    maxPdoEntries: u64, maxFrames: u64)
  {
    function ImageEnd(): nat { processImageOffset + processImageCapacityBytes }
  }

  datatype Watchdog = Watchdog(divider: Option<u16>, processDataIntervals: Option<u16>)

  datatype SlaveManifest = SlaveManifest(
    name: string, position: u16, stationAddress: u16, domainId: u8, esi: string, esiLabel: string,
    vendorId: u32, productCode: u32, revision: u32, completeAccess: bool, sdoInformation: bool,
    requestingId: Option<u16>, dcRequired: bool, dcReferenceClock: bool, dcOpMode: Option<string>,
    watchdog: Option<Watchdog>, rxPdos: seq<u16>, txPdos: seq<u16>)

  datatype AxisManifest = AxisManifest(index: u8, name: string, slave: string)

  datatype CopyManifest = CopyManifest(name: string, source: string, target: string, targetQuality: string)

  /** The product's own data: schema, identity and cycle. */
  datatype Product = Product(
    schemaVersion: string, name: string, robotId: u64, policyVersion: u32, basePeriodNs: u64, deadlineNs: u64)

  datatype Manifest = Manifest(
    product: Product, capacities: Capacities, procbufDomains: u16, procbufAxes: u16,
    domains: seq<DomainManifest>, slaves: seq<SlaveManifest>, axes: seq<AxisManifest>, copies: seq<CopyManifest>)

  datatype ManifestError =
    | BadProduct | BadCapacities | NoDomainOrSlave | Dimensions | BadText | DuplicateDomain | DomainCapacity
    | ImageRangeOverflow | ImageRangeTooLarge | ImageRangeOverlap | BadPath | DuplicateSlave
    | UnknownDomain | ClockWithoutDc | BadWatchdog | TwoReferenceClocks | DuplicatePdo | NoPdoSelected
    | BadAxis | UnknownSlave | TooManyCopies | DuplicateCopy

  function DomainKey(d: DomainManifest): int { d.id }

  function SlaveKey(s: SlaveManifest): int { s.position }

  function AxisKey(a: AxisManifest): int { a.index }

  function Normalized(m: Manifest): Manifest {
    m.(domains := Sorting.SortBy(m.domains, DomainKey), slaves := Sorting.SortBy(m.slaves, SlaveKey),
       axes := Sorting.SortBy(m.axes, AxisKey))
  }

  predicate ProductOk(x: Syntax, p: Product) {
    && p.schemaVersion == PRODUCT_SCHEMA && x.textOk(p.name) && p.robotId != 0 && p.policyVersion != 0
    && p.basePeriodNs != 0 && p.deadlineNs != 0 && p.deadlineNs <= p.basePeriodNs
  }

  predicate CapacitiesOk(c: Capacities) {
    && 1 <= c.runtimeSdoRequests <= MAX_RUNTIME_SDO_REQUESTS && 1 <= c.maxSdoObjectBytes <= MAX_SDO_OBJECT_BYTES
    && c.maxProcessImageBytes != 0 && c.maxPdoEntriesPerDomain != 0 && c.maxDatagramsPerDomain != 0
    && c.maxFramesPerDomain != 0 && c.maxScheduleSlots != 0
    && c.maxPdoEntriesPerDomain <= MAX_PRODUCT_PDO_ENTRIES_PER_DOMAIN
    && c.maxDatagramsPerDomain <= MAX_DATAGRAMS_PER_DOMAIN
    && c.maxFramesPerDomain <= MAX_FRAMES_PER_DOMAIN && c.maxScheduleSlots <= MAX_SCHEDULE_SLOTS
  }

  ghost predicate DomainOk(c: Capacities, d: DomainManifest) {
    && d.processImageCapacityBytes != 0 && d.maxPdoEntries != 0 && d.maxFrames != 0
    && d.maxPdoEntries <= c.maxPdoEntriesPerDomain && d.maxFrames <= c.maxFramesPerDomain
    && d.ImageEnd() <= c.maxProcessImageBytes
  }

  ghost predicate DomainsApart(a: DomainManifest, b: DomainManifest) {
    && a.id != b.id && a.name != b.name
    && (a.ImageEnd() <= b.processImageOffset || b.ImageEnd() <= a.processImageOffset)
  }

  /** The domains check out alone and against each other. */
  ghost predicate DomainsOk(c: Capacities, ds: seq<DomainManifest>) {
    && (forall i :: 0 <= i < |ds| ==> DomainOk(c, ds[i]))
    && forall i, j :: 0 <= i < j < |ds| ==> DomainsApart(ds[i], ds[j])
  }

  ghost predicate NoDuplicates(s: seq<u16>) { forall i, j :: 0 <= i < j < |s| ==> s[i] != s[j] }

  ghost predicate SlaveOk(ids: set<u8>, s: SlaveManifest) {
    && s.stationAddress != 0 && s.domainId in ids
    && NoDuplicates(s.rxPdos) && NoDuplicates(s.txPdos) && (s.rxPdos != [] || s.txPdos != [])
  }

  ghost predicate SlavesApart(a: SlaveManifest, b: SlaveManifest) {
    a.name != b.name && a.position != b.position && a.stationAddress != b.stationAddress
  }

  ghost predicate SlavesOk(ids: set<u8>, ss: seq<SlaveManifest>) {
    && (forall i :: 0 <= i < |ss| ==> SlaveOk(ids, ss[i]))
    && forall i, j :: 0 <= i < j < |ss| ==> SlavesApart(ss[i], ss[j])
  }

  function DomainIds(ds: seq<DomainManifest>): set<u8> { set i | 0 <= i < |ds| :: ds[i].id }

  /** Everything the manifest checks establish for the planner. */
  ghost predicate Acceptable(m: Manifest) {
    && CapacitiesOk(m.capacities)
    && m.domains != [] && m.slaves != []
    && |m.domains| <= MAX_DOMAINS && m.procbufDomains == |m.domains|
    && DomainsOk(m.capacities, m.domains)
    && SlavesOk(DomainIds(m.domains), m.slaves)
  }

  // --------------------------------------- checks the planner does not rely on

  predicate WatchdogOk(w: Watchdog) {
    && (w.divider.Some? || w.processDataIntervals.Some?)
    && w.divider != Some(0) && w.processDataIntervals != Some(0)
  }

  ghost predicate SlaveValid(x: Syntax, s: SlaveManifest) {
    && x.textOk(s.name) && x.textOk(s.esiLabel) && x.confined(s.esi)
    && (s.dcReferenceClock ==> s.dcRequired) && (s.dcOpMode.Some? ==> x.textOk(s.dcOpMode.value))
    && (s.watchdog.Some? ==> WatchdogOk(s.watchdog.value))
  }

  ghost predicate SlavesValid(x: Syntax, ss: seq<SlaveManifest>) {
    && (forall i :: 0 <= i < |ss| ==> SlaveValid(x, ss[i]))
    && forall i, j :: 0 <= i < j < |ss| ==> !(ss[i].dcReferenceClock && ss[j].dcReferenceClock)
  }

  ghost predicate NamesValid(x: Syntax, ds: seq<DomainManifest>) { forall i :: 0 <= i < |ds| ==> x.textOk(ds[i].name) }

  function SlaveNames(ss: seq<SlaveManifest>): set<string> { set i | 0 <= i < |ss| :: ss[i].name }

  /** Axes are numbered from zero without gaps, have names of their own and belong to
      known slaves. */
  ghost predicate AxesValid(x: Syntax, names: set<string>, axes: seq<AxisManifest>) {
    && (forall i :: 0 <= i < |axes| ==> x.textOk(axes[i].name) && axes[i].index == i && axes[i].slave in names)
    && forall i, j :: 0 <= i < j < |axes| ==> axes[i].name != axes[j].name
  }

  ghost predicate CopiesValid(x: Syntax, names: set<string>, cs: seq<CopyManifest>) {
    && (forall i :: 0 <= i < |cs| ==>
          x.textOk(cs[i].name) && cs[i].source in names && cs[i].target in names && cs[i].targetQuality in names)
    && forall i, j :: 0 <= i < j < |cs| ==> cs[i].name != cs[j].name
  }

  ghost predicate OtherwiseValid(x: Syntax, m: Manifest) {
    && ProductOk(x, m.product)
    && m.procbufAxes == |m.axes| <= MAX_AXES && |m.copies| <= MAX_PRODUCT_SLAVE_COPIES
    && NamesValid(x, m.domains) && SlavesValid(x, m.slaves)
    && AxesValid(x, SlaveNames(m.slaves), m.axes) && CopiesValid(x, SlaveNames(m.slaves), m.copies)
  }

  /** Everything that is checked of a manifest by itself. */
  ghost predicate Accepted(x: Syntax, m: Manifest) { Acceptable(m) && OtherwiseValid(x, m) }

  // ------------------------------------------------------------------ the checks

  /** The new domain's bounds check out and its image range meets no earlier one. */
  method CheckDomain(x: Syntax, c: Capacities, earlier: seq<DomainManifest>, d: DomainManifest) returns (r: Option<ManifestError>)
    requires forall k :: 0 <= k < |earlier| ==> DomainOk(c, earlier[k])
    ensures r.None? <==> x.textOk(d.name) && DomainOk(c, d) && forall k :: 0 <= k < |earlier| ==> DomainsApart(earlier[k], d)
  {
    if !x.textOk(d.name) { return Some(BadText); }
    for k := 0 to |earlier|
      invariant forall j :: 0 <= j < k ==> earlier[j].id != d.id && earlier[j].name != d.name
    {
      if earlier[k].id == d.id || earlier[k].name == d.name { return Some(DuplicateDomain); }
    }
    if d.processImageCapacityBytes == 0 || d.maxPdoEntries == 0 || d.maxFrames == 0
       || d.maxPdoEntries > c.maxPdoEntriesPerDomain || d.maxFrames > c.maxFramesPerDomain
    {
      return Some(DomainCapacity);
    }
    var end := d.processImageOffset + d.processImageCapacityBytes;
    if end > U64_MAX { return Some(ImageRangeOverflow); }
    if end > c.maxProcessImageBytes { return Some(ImageRangeTooLarge); }
    for k := 0 to |earlier|
      invariant forall j :: 0 <= j < k ==> DomainsApart(earlier[j], d)
    {
      if d.processImageOffset < earlier[k].ImageEnd() && earlier[k].processImageOffset < end {
        return Some(ImageRangeOverlap);
      }
    }
    return None;
  }

  method CheckDomains(x: Syntax, c: Capacities, ds: seq<DomainManifest>) returns (r: Option<ManifestError>)
    ensures r.None? <==> DomainsOk(c, ds) && NamesValid(x, ds)
  {
    for i := 0 to |ds|
      invariant DomainsOk(c, ds[..i]) && NamesValid(x, ds[..i])
    {
      hide DomainOk, DomainsApart;
      r := CheckDomain(x, c, ds[..i], ds[i]);
      if r.Some? { return; }
    }
    assert ds[..|ds|] == ds;
    return None;
  }

  method HasDuplicates(s: seq<u16>) returns (r: bool)
    ensures r <==> !NoDuplicates(s)
  {
    var seen: set<u16> := {};
    for i := 0 to |s|
      invariant seen == set k | 0 <= k < i :: s[k]
      invariant NoDuplicates(s[..i])
    {
      if s[i] in seen { return true; }
      seen := seen + {s[i]};
    }
    assert s[..|s|] == s;
    return false;
  }

  /** The new slave checks out and is apart from every earlier one. */
  method CheckSlave(x: Syntax, ids: set<u8>, earlier: seq<SlaveManifest>, s: SlaveManifest, clocked: bool)
    returns (r: Option<ManifestError>)
    ensures r.None? <==> && SlaveValid(x, s) && SlaveOk(ids, s) && !(clocked && s.dcReferenceClock)
                         && forall k :: 0 <= k < |earlier| ==> SlavesApart(earlier[k], s)
  {
    if !x.textOk(s.name) || !x.textOk(s.esiLabel) { return Some(BadText); }
    if !x.confined(s.esi) { return Some(BadPath); }
    for k := 0 to |earlier|
      invariant forall j :: 0 <= j < k ==> SlavesApart(earlier[j], s)
    {
      if earlier[k].name == s.name || earlier[k].position == s.position
         || earlier[k].stationAddress == s.stationAddress
      {
        return Some(DuplicateSlave);
      }
    }
    if s.stationAddress == 0 { return Some(DuplicateSlave); }
    if s.domainId !in ids { return Some(UnknownDomain); }
    if s.dcReferenceClock && !s.dcRequired { return Some(ClockWithoutDc); }
    if s.dcOpMode.Some? && !x.textOk(s.dcOpMode.value) { return Some(BadText); }
    if s.watchdog.Some? && !WatchdogOk(s.watchdog.value) { return Some(BadWatchdog); }
    if s.dcReferenceClock && clocked { return Some(TwoReferenceClocks); }
    var rx := HasDuplicates(s.rxPdos);
    var tx := HasDuplicates(s.txPdos);
    if rx || tx { return Some(DuplicatePdo); }
    if s.rxPdos == [] && s.txPdos == [] { return Some(NoPdoSelected); }
    return None;
  }

  /** Some slave is the reference clock. */
  ghost predicate Clocked(ss: seq<SlaveManifest>) { exists i :: 0 <= i < |ss| && ss[i].dcReferenceClock }

  lemma SlavesSnoc(x: Syntax, ids: set<u8>, ss: seq<SlaveManifest>, i: nat)
    requires i < |ss| && SlavesOk(ids, ss[..i]) && SlavesValid(x, ss[..i])
    ensures SlavesOk(ids, ss[..i + 1]) && SlavesValid(x, ss[..i + 1]) <==>
            && SlaveValid(x, ss[i]) && SlaveOk(ids, ss[i]) && !(Clocked(ss[..i]) && ss[i].dcReferenceClock)
            && forall k :: 0 <= k < i ==> SlavesApart(ss[..i][k], ss[i])
    ensures Clocked(ss[..i + 1]) <==> Clocked(ss[..i]) || ss[i].dcReferenceClock
  {
    hide SlaveOk, SlaveValid, SlavesApart;
    var before, upto := ss[..i], ss[..i + 1];
    assert upto == before + [ss[i]];
    forall k | 0 <= k < i ensures upto[k] == before[k] {}
    assert upto[i] == ss[i];
    if Clocked(before) {
      var k :| 0 <= k < i && before[k].dcReferenceClock;
      assert upto[k].dcReferenceClock;
    }
  }

  lemma SlavesPrefix(x: Syntax, ids: set<u8>, ss: seq<SlaveManifest>, i: nat)
    requires i <= |ss| && SlavesOk(ids, ss) && SlavesValid(x, ss)
    ensures SlavesOk(ids, ss[..i]) && SlavesValid(x, ss[..i])
  {
    hide SlaveOk, SlaveValid, SlavesApart;
  }

  method CheckSlaves(x: Syntax, ids: set<u8>, ss: seq<SlaveManifest>) returns (r: Option<ManifestError>)
    ensures r.None? <==> SlavesOk(ids, ss) && SlavesValid(x, ss)
  {
    var clocked := false;
    for i := 0 to |ss|
      invariant SlavesOk(ids, ss[..i]) && SlavesValid(x, ss[..i])
      invariant clocked <==> Clocked(ss[..i])
    {
      SlavesSnoc(x, ids, ss, i);
      hide SlavesOk, SlavesValid, SlaveOk, SlaveValid, SlavesApart, Clocked;
      r := CheckSlave(x, ids, ss[..i], ss[i], clocked);
      if r.Some? {
        if SlavesOk(ids, ss) && SlavesValid(x, ss) { SlavesPrefix(x, ids, ss, i + 1); }
        return;
      }
      clocked := clocked || ss[i].dcReferenceClock;
    }
    assert ss[..|ss|] == ss;
    return None;
  }

  method CheckAxes(x: Syntax, names: set<string>, axes: seq<AxisManifest>) returns (r: Option<ManifestError>)
    ensures r.None? <==> AxesValid(x, names, axes)
  {
    var seen: set<string> := {};
    for i := 0 to |axes|
      invariant AxesValid(x, names, axes[..i])
      invariant seen == set k | 0 <= k < i :: axes[k].name
    {
      if !x.textOk(axes[i].name) { return Some(BadText); }
      if axes[i].index != i || axes[i].name in seen { return Some(BadAxis); }
      if axes[i].slave !in names { return Some(UnknownSlave); }
      seen := seen + {axes[i].name};
    }
    assert axes[..|axes|] == axes;
    return None;
  }

  method CheckCopies(x: Syntax, names: set<string>, cs: seq<CopyManifest>) returns (r: Option<ManifestError>)
    ensures r.None? <==> |cs| <= MAX_PRODUCT_SLAVE_COPIES && CopiesValid(x, names, cs)
  {
    if |cs| > MAX_PRODUCT_SLAVE_COPIES { return Some(TooManyCopies); }
    var seen: set<string> := {};
    for i := 0 to |cs|
      invariant CopiesValid(x, names, cs[..i])
      invariant seen == set k | 0 <= k < i :: cs[k].name
    {
      if !x.textOk(cs[i].name) { return Some(BadText); }
      if cs[i].name in seen { return Some(DuplicateCopy); }
      if cs[i].source !in names || cs[i].target !in names || cs[i].targetQuality !in names { return Some(UnknownSlave); }
      seen := seen + {cs[i].name};
    }
    assert cs[..|cs|] == cs;
    return None;
  }

  /** Accepts exactly the manifests whose sorted form passes every check, and returns
      that form. */
  method NormalizeAndValidate(x: Syntax, m: Manifest) returns (r: Result<Manifest, ManifestError>)
    ensures r.Ok? <==> Accepted(x, Normalized(m))
    ensures r.Ok? ==> r.value == Normalized(m)
  {
    hide DomainsOk, SlavesOk, DomainIds, NamesValid, SlavesValid, AxesValid, CopiesValid, SlaveNames;
    Sorting.SortFacts(m.domains, DomainKey);
    Sorting.SortFacts(m.slaves, SlaveKey);
    Sorting.SortFacts(m.axes, AxisKey);
    if !ProductOk(x, m.product) { return Err(BadProduct); }
    if !CapacitiesOk(m.capacities) { return Err(BadCapacities); }
    if m.domains == [] || m.slaves == [] { return Err(NoDomainOrSlave); }
    if |m.domains| > MAX_DOMAINS || m.procbufDomains != |m.domains| || m.procbufAxes != |m.axes| || m.procbufAxes > MAX_AXES {
      return Err(Dimensions);
    }
    var n := Normalized(m);
    var domainError := CheckDomains(x, m.capacities, n.domains);
    if domainError.Some? { return Err(domainError.value); }
    var slaveError := CheckSlaves(x, DomainIds(n.domains), n.slaves);
    if slaveError.Some? { return Err(slaveError.value); }
    var names := SlaveNames(n.slaves);
    var axisError := CheckAxes(x, names, n.axes);
    if axisError.Some? { return Err(axisError.value); }
    var copyError := CheckCopies(x, names, n.copies);
    if copyError.Some? { return Err(copyError.value); }
    return Ok(n);
  }
}
