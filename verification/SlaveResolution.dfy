/** Resolution of the manifest's slaves against their device descriptions. */
module SlaveResolution {
  import opened Machine
  import opened EsiModel
  import opened EsiParser
  import opened EsiInvariant
  import opened DomainLayout
  import opened ProductManifest
  import DomainPlan
  import Sdo = SdoInformation

  datatype ResolveError =
    | WrongVendor | NotOneDevice | NoCompleteAccess | NoSdoInformation | NoRequestingId | BadDcMode
    | NotOnePdo | PdoWithoutManager | DuplicateObject | SdoPlan(error: Sdo.SdoError) | OpOnlyMisused | NoCoeMailbox

  // ------------------------------------------------------------ PDO selection

  ghost predicate OnlyPdo(available: seq<EsiPdo>, index: u16, i: int) {
    && 0 <= i < |available| && available[i].index == index
    && forall j :: 0 <= j < |available| && j != i ==> available[j].index != index
  }

  ghost predicate Selectable(available: seq<EsiPdo>, index: u16, p: EsiPdo) {
    p.syncManager.Some? && exists i :: OnlyPdo(available, index, i) && available[i] == p
  }

  /** The selection, in the order asked for, without any choice left open. */
  ghost predicate Selection(available: seq<EsiPdo>, selected: seq<u16>, r: seq<EsiPdo>) {
    |r| == |selected| && forall k :: 0 <= k < |r| ==> Selectable(available, selected[k], r[k])
  }

  /** The PDOs with one index, in order. */
  function Matching(available: seq<EsiPdo>, index: u16): seq<EsiPdo> {
    if available == [] then []
    else
      var n := |available| - 1;
      Matching(available[..n], index) + if available[n].index == index then [available[n]] else []
  }

  lemma {:induction false} NoneMatching(available: seq<EsiPdo>, index: u16)
    ensures Matching(available, index) == [] <==> forall i :: 0 <= i < |available| ==> available[i].index != index
    decreases |available|
  {
    if available != [] {
      var n := |available| - 1;
      NoneMatching(available[..n], index);
      assert forall i :: 0 <= i < n ==> available[..n][i] == available[i];
    }
  }

  lemma {:induction false} OneMatching(available: seq<EsiPdo>, index: u16, i: nat)
    requires OnlyPdo(available, index, i)
    ensures Matching(available, index) == [available[i]]
    decreases |available|
  {
    var n := |available| - 1;
    if i < n { OneMatching(available[..n], index, i); } else { NoneMatching(available[..n], index); }
  }

  lemma {:induction false} MatchingOne(available: seq<EsiPdo>, index: u16) returns (i: nat)
    requires |Matching(available, index)| == 1
    ensures OnlyPdo(available, index, i) && Matching(available, index) == [available[i]]
    decreases |available|
  {
    var n := |available| - 1;
    if available[n].index == index {
      NoneMatching(available[..n], index);
      assert forall j :: 0 <= j < n ==> available[..n][j].index != index;
      i := n;
    } else {
      i := MatchingOne(available[..n], index);
      assert forall j :: 0 <= j < n ==> available[..n][j] == available[j];
    }
  }

  /** Takes each selected PDO if it is the only one of its index and has a manager. */
  method SelectPdos(available: seq<EsiPdo>, selected: seq<u16>) returns (r: Result<seq<EsiPdo>, ResolveError>)
    ensures r.Ok? ==> Selection(available, selected, r.value)
    ensures r.Err? ==> forall ps :: !Selection(available, selected, ps)
  {
    hide Matching;
    var result: seq<EsiPdo> := [];
    for k := 0 to |selected|
      invariant Selection(available, selected[..k], result)
    {
      var matches := Matching(available, selected[k]);
      if |matches| != 1 || matches[0].syncManager.None? {
        NotSelectable(available, selected, k);
        return Err(if |matches| != 1 then NotOnePdo else PdoWithoutManager);
      }
      ghost var i := MatchingOne(available, selected[k]);
      assert Selectable(available, selected[k], matches[0]);
      result := result + [matches[0]];
      hide Selectable;
      assert selected[..k + 1] == selected[..k] + [selected[k]];
    }
    assert selected[..|selected|] == selected;
    return Ok(result);
  }

  lemma NotSelectable(available: seq<EsiPdo>, selected: seq<u16>, k: nat)
    requires k < |selected|
    requires var ms := Matching(available, selected[k]); |ms| != 1 || ms[0].syncManager.None?
    ensures forall ps :: !Selection(available, selected, ps)
  {
    forall ps | Selection(available, selected, ps) ensures false {
      assert Selectable(available, selected[k], ps[k]);
      var i :| OnlyPdo(available, selected[k], i) && available[i] == ps[k];
      OneMatching(available, selected[k], i);
    }
  }

  // ---------------------------------------------------------- object addresses

  /** Addresses of the objects of a PDO's entries and of a selection. */
  function EntryObjects(es: seq<EsiEntry>): seq<(u16, u8)> {
    if es == [] then [] else EntryObjects(es[..|es| - 1]) + [(es[|es| - 1].index, es[|es| - 1].subindex)]
  }

  function Objects(ps: seq<EsiPdo>): seq<(u16, u8)> {
    if ps == [] then [] else Objects(ps[..|ps| - 1]) + EntryObjects(ps[|ps| - 1].entries)
  }

  ghost predicate AllDistinct(os: seq<(u16, u8)>) { forall i, j :: 0 <= i < j < |os| ==> os[i] != os[j] }

  ghost predicate Seen(seen: set<(u16, u8)>, os: seq<(u16, u8)>) {
    AllDistinct(os) && seen == (set i | 0 <= i < |os| :: os[i])
  }

  lemma SeenOne(seen: set<(u16, u8)>, os: seq<(u16, u8)>, o: (u16, u8))
    requires Seen(seen, os)
    ensures o !in seen ==> Seen(seen + {o}, os + [o])
    ensures o in seen ==> !AllDistinct(os + [o])
  {
    if o !in seen {
      forall i | 0 <= i < |os| ensures os[i] != o { assert os[i] in seen; }
      assert (set i | 0 <= i < |os + [o]| :: (os + [o])[i]) == seen + {o} by {
        assert (os + [o])[|os|] == o;
        forall x | x in seen ensures exists i :: 0 <= i < |os + [o]| && (os + [o])[i] == x {
          var i :| 0 <= i < |os| && os[i] == x;
          assert (os + [o])[i] == x;
        }
      }
    } else {
      var i :| 0 <= i < |os| && os[i] == o;
      assert (os + [o])[i] == (os + [o])[|os|];
    }
  }

  lemma StaysRepeated(os: seq<(u16, u8)>, more: seq<(u16, u8)>)
    requires !AllDistinct(os)
    ensures !AllDistinct(os + more)
  {
    var i, j :| 0 <= i < j < |os| && os[i] == os[j];
    assert (os + more)[i] == (os + more)[j];
  }

  lemma {:induction false} EntryObjectsSplit(es: seq<EsiEntry>, k: nat) returns (rest: seq<(u16, u8)>)
    requires k <= |es|
    ensures EntryObjects(es) == EntryObjects(es[..k]) + rest
    decreases |es|
  {
    if k == |es| {
      assert es[..k] == es;
      rest := [];
    } else {
      var n := |es| - 1;
      var r := EntryObjectsSplit(es[..n], k);
      assert es[..n][..k] == es[..k];
      rest := r + [(es[n].index, es[n].subindex)];
    }
  }

  lemma {:induction false} ObjectsSplit(ps: seq<EsiPdo>, k: nat) returns (rest: seq<(u16, u8)>)
    requires k <= |ps|
    ensures Objects(ps) == Objects(ps[..k]) + rest
    decreases |ps|
  {
    if k == |ps| {
      assert ps[..k] == ps;
      rest := [];
    } else {
      var n := |ps| - 1;
      var r := ObjectsSplit(ps[..n], k);
      assert ps[..n][..k] == ps[..k];
      rest := r + EntryObjects(ps[n].entries);
    }
  }

  /** Inserts the objects of one PDO; stops at the first one already there. */
  method InsertObjects(seen0: set<(u16, u8)>, es: seq<EsiEntry>, ghost os: seq<(u16, u8)>)
    returns (seen: set<(u16, u8)>, ok: bool)
    requires Seen(seen0, os)
    ensures ok ==> Seen(seen, os + EntryObjects(es))
    ensures ok <==> AllDistinct(os + EntryObjects(es))
  {
    hide Seen, AllDistinct;
    seen := seen0;
    assert os + EntryObjects([]) == os;
    for k := 0 to |es|
      invariant Seen(seen, os + EntryObjects(es[..k]))
    {
      var o := (es[k].index, es[k].subindex);
      ghost var before := os + EntryObjects(es[..k]);
      assert es[..k + 1][..k] == es[..k];
      assert os + EntryObjects(es[..k + 1]) == before + [o];
      SeenOne(seen, before, o);
      if o in seen {
        ghost var rest := EntryObjectsSplit(es, k + 1);
        StaysRepeated(before + [o], rest);
        assert os + EntryObjects(es) == before + [o] + rest;
        return seen, false;
      }
      seen := seen + {o};
    }
    assert es[..|es|] == es;
    ok := true;
    assert AllDistinct(os + EntryObjects(es)) by { SeenDistinct(seen, os + EntryObjects(es)); }
  }

  lemma SeenDistinct(seen: set<(u16, u8)>, os: seq<(u16, u8)>)
    requires Seen(seen, os)
    ensures AllDistinct(os)
  {
  }

  /** Accepts exactly the selections that map no object twice. */
  method ValidateSelectedEntries(ps: seq<EsiPdo>) returns (ok: bool)
    ensures ok <==> AllDistinct(Objects(ps))
  {
    var seen: set<(u16, u8)> := {};
    assert Seen(seen, []);
    hide Seen, AllDistinct;
    for k := 0 to |ps|
      invariant Seen(seen, Objects(ps[..k]))
    {
      assert ps[..k + 1][..k] == ps[..k];
      var inserted: bool;
      seen, inserted := InsertObjects(seen, ps[k].entries, Objects(ps[..k]));
      if !inserted {
        ghost var rest := ObjectsSplit(ps, k + 1);
        StaysRepeated(Objects(ps[..k + 1]), rest);
        return false;
      }
    }
    assert ps[..|ps|] == ps;
    SeenDistinct(seen, Objects(ps));
    return true;
  }

  // ------------------------------------------------------------- OpOnly outputs

  ghost predicate Uses(ps: seq<EsiPdo>, sm: u8) { exists i :: 0 <= i < |ps| && ps[i].syncManager == Some(sm) }

  /** An OpOnly manager carries outputs, selected ones, and nothing else. */
  ghost predicate OpOnlyExclusive(sms: seq<EsiSyncManager>, rx: seq<EsiPdo>, tx: seq<EsiPdo>) {
    forall i :: 0 <= i < |sms| && sms[i].opOnly ==>
      sms[i].Goes(OUTPUTS) && Uses(rx, sms[i].index) && !Uses(tx, sms[i].index)
  }

  method AnyUses(ps: seq<EsiPdo>, sm: u8) returns (r: bool)
    ensures r <==> Uses(ps, sm)
  {
    for i := 0 to |ps|
      invariant !Uses(ps[..i], sm)
    {
      if ps[i].syncManager == Some(sm) { return true; }
    }
    assert ps[..|ps|] == ps;
    return false;
  }

  method ValidateOpOnlyOutputs(sms: seq<EsiSyncManager>, rx: seq<EsiPdo>, tx: seq<EsiPdo>) returns (ok: bool)
    ensures ok <==> OpOnlyExclusive(sms, rx, tx)
  {
    hide Uses, EsiSyncManager.Goes;
    for i := 0 to |sms|
      invariant OpOnlyExclusive(sms[..i], rx, tx)
    {
      if sms[i].opOnly {
        var inRx := AnyUses(rx, sms[i].index);
        var inTx := AnyUses(tx, sms[i].index);
        if !sms[i].Goes(OUTPUTS) || !inRx || inTx { return false; }
      }
    }
    assert sms[..|sms|] == sms;
    return true;
  }

  // ------------------------------------------------------------------ one slave

  ghost predicate Matches(m: SlaveManifest, d: EsiDevice) { d.productCode == m.productCode && d.revision == m.revision }

  ghost predicate HasMode(d: EsiDevice, name: string) { exists i :: 0 <= i < |d.dcModes| && d.dcModes[i].name == name }

  ghost predicate DcSelected(m: SlaveManifest, d: EsiDevice) {
    if m.dcRequired then m.dcOpMode.Some? && HasMode(d, m.dcOpMode.value) else m.dcOpMode.None?
  }

  /** Everything that is checked of a slave against its device. */
  ghost predicate Fits(m: SlaveManifest, d: EsiDevice, s: Slave) {
    && Matches(m, d)
    && (m.completeAccess ==> d.coeCompleteAccess) && (m.sdoInformation ==> d.coeSdoInformation)
    && (m.requestingId.Some? ==> d.requestingId) && DcSelected(m, d)
    && s.position == m.position && s.domainId == m.domainId && s.fmmuUsages == d.fmmuUsages
    && Selection(d.rxPdos, m.rxPdos, s.rxPdos) && Selection(d.txPdos, m.txPdos, s.txPdos)
    && AllDistinct(Objects(s.rxPdos)) && AllDistinct(Objects(s.txPdos))
    && (m.sdoInformation ==> Sdo.Plannable(Sdo.AllMapped(s.rxPdos, s.txPdos)))
    && OpOnlyExclusive(d.syncManagers, s.rxPdos, s.txPdos)
    && d.coeSupported && d.mailbox.Some?
  }

  /** A slave with its device and the object dictionary entries it relies on. */
  datatype ResolvedSlave = ResolvedSlave(slave: Slave, device: EsiDevice, sdoPlan: Sdo.SdoPlan)

  /** The dictionary entries are those of the selected objects, if they are wanted. */
  ghost predicate PlansSdo(m: SlaveManifest, x: ResolvedSlave) {
    if m.sdoInformation then Sdo.PlanOf(x.sdoPlan, Sdo.AllMapped(x.slave.rxPdos, x.slave.txPdos)) else x.sdoPlan == map[]
  }

  method HasDcMode(d: EsiDevice, name: string) returns (r: bool)
    ensures r <==> HasMode(d, name)
  {
    for i := 0 to |d.dcModes|
      invariant forall j :: 0 <= j < i ==> d.dcModes[j].name != name
    {
      if d.dcModes[i].name == name { return true; }
    }
    return false;
  }

  method ResolveWith(m: SlaveManifest, d: EsiDevice) returns (r: Result<ResolvedSlave, ResolveError>)
    requires Matches(m, d)
    ensures r.Ok? ==> Fits(m, d, r.value.slave) && r.value.device == d && PlansSdo(m, r.value)
    ensures r.Err? ==> forall s :: !Fits(m, d, s)
  {
    hide Selection, Objects, AllDistinct, OpOnlyExclusive, HasMode;
    if m.completeAccess && !d.coeCompleteAccess { return Err(NoCompleteAccess); }
    if m.sdoInformation && !d.coeSdoInformation { return Err(NoSdoInformation); }
    if m.requestingId.Some? && !d.requestingId { return Err(NoRequestingId); }
    if m.dcRequired != m.dcOpMode.Some? { return Err(BadDcMode); }
    if m.dcOpMode.Some? {
      var known := HasDcMode(d, m.dcOpMode.value);
      if !known { return Err(BadDcMode); }
    }
    var rx := SelectPdos(d.rxPdos, m.rxPdos);
    if rx.Err? { return Err(rx.error); }
    var tx := SelectPdos(d.txPdos, m.txPdos);
    if tx.Err? { return Err(tx.error); }
    r := FinishSlave(m, d, rx.value, tx.value);
  }

  /** One selection fits at most. */
  lemma SelectionUnique(available: seq<EsiPdo>, selected: seq<u16>, a: seq<EsiPdo>, b: seq<EsiPdo>)
    requires Selection(available, selected, a) && Selection(available, selected, b)
    ensures a == b
  {
    forall k | 0 <= k < |a| ensures a[k] == b[k] {
      assert Selectable(available, selected[k], a[k]) && Selectable(available, selected[k], b[k]);
      var i :| OnlyPdo(available, selected[k], i) && available[i] == a[k];
      var j :| OnlyPdo(available, selected[k], j) && available[j] == b[k];
    }
  }

  method FinishSlave(m: SlaveManifest, d: EsiDevice, rx: seq<EsiPdo>, tx: seq<EsiPdo>) returns (r: Result<ResolvedSlave, ResolveError>)
    requires Matches(m, d) && DcSelected(m, d)
    requires (m.completeAccess ==> d.coeCompleteAccess) && (m.sdoInformation ==> d.coeSdoInformation)
    requires m.requestingId.Some? ==> d.requestingId
    requires Selection(d.rxPdos, m.rxPdos, rx) && Selection(d.txPdos, m.txPdos, tx)
    ensures r.Ok? ==> Fits(m, d, r.value.slave) && r.value.device == d && PlansSdo(m, r.value)
    ensures r.Err? ==> forall s :: !Fits(m, d, s)
  {
    forall s | Fits(m, d, s) ensures s.rxPdos == rx && s.txPdos == tx {
      hide Objects, AllDistinct, OpOnlyExclusive, HasMode, Sdo.Plannable, Sdo.AllMapped;
      SelectionUnique(d.rxPdos, m.rxPdos, s.rxPdos, rx);
      SelectionUnique(d.txPdos, m.txPdos, s.txPdos, tx);
    }
    hide Selection, Objects, AllDistinct, OpOnlyExclusive, HasMode, Sdo.Plannable, Sdo.AllMapped, Sdo.PlanOf;
    var rxOk := ValidateSelectedEntries(rx);
    if !rxOk { return Err(DuplicateObject); }
    var txOk := ValidateSelectedEntries(tx);
    if !txOk { return Err(DuplicateObject); }
    var sdoPlan: Sdo.SdoPlan := map[];
    if m.sdoInformation {
      var derived := Sdo.DeriveExpectations(rx, tx);
      if derived.Err? { return Err(SdoPlan(derived.error)); }
      sdoPlan := derived.value;
    }
    var opOnlyOk := ValidateOpOnlyOutputs(d.syncManagers, rx, tx);
    if !opOnlyOk { return Err(OpOnlyMisused); }
    if !d.coeSupported || d.mailbox.None? { return Err(NoCoeMailbox); }
    return Ok(ResolvedSlave(Slave(m.position, m.domainId, rx, tx, d.fmmuUsages), d, sdoPlan));
  }

  ghost predicate OnlyDevice(m: SlaveManifest, ds: seq<EsiDevice>, i: int) {
    && 0 <= i < |ds| && Matches(m, ds[i])
    && forall j :: 0 <= j < |ds| && j != i ==> !Matches(m, ds[j])
  }

  /** The slave resolves against this catalog to `x`. */
  ghost predicate Resolves(c: EsiCatalog, m: SlaveManifest, x: ResolvedSlave) {
    && c.vendorId == m.vendorId && PlansSdo(m, x)
    && exists i :: OnlyDevice(m, c.devices, i) && c.devices[i] == x.device && Fits(m, x.device, x.slave)
  }

  /** A catalog has one device for a slave at most. */
  lemma SameDevice(c: EsiCatalog, m: SlaveManifest, x: ResolvedSlave, y: ResolvedSlave)
    requires Resolves(c, m, x) && Resolves(c, m, y)
    ensures x.device == y.device
  {
    hide Fits, PlansSdo;
  }

  ghost predicate FoundAll(m: SlaveManifest, ds: seq<EsiDevice>, n: nat, found: seq<nat>)
    requires n <= |ds|
  {
    && (forall j :: 0 <= j < |found| ==> found[j] < n && Matches(m, ds[found[j]]))
    && (forall i :: 0 <= i < n && Matches(m, ds[i]) ==> i in found)
    && forall i, j :: 0 <= i < j < |found| ==> found[i] < found[j]
  }

  lemma NotOneFound(m: SlaveManifest, ds: seq<EsiDevice>, found: seq<nat>)
    requires FoundAll(m, ds, |ds|, found) && |found| != 1
    ensures forall i :: !OnlyDevice(m, ds, i)
  {
    if found == [] {
      assert forall i :: 0 <= i < |ds| ==> !Matches(m, ds[i]);
    } else {
      assert found[0] < found[1] && Matches(m, ds[found[0]]) && Matches(m, ds[found[1]]);
    }
  }

  /** Picks the only device with the slave's product code and revision. */
  method FindDevice(m: SlaveManifest, ds: seq<EsiDevice>) returns (r: Option<nat>)
    ensures r.Some? ==> OnlyDevice(m, ds, r.value)
    ensures r.None? ==> forall i :: !OnlyDevice(m, ds, i)
  {
    var found: seq<nat> := [];
    for n := 0 to |ds|
      invariant FoundAll(m, ds, n, found)
    {
      if ds[n].productCode == m.productCode && ds[n].revision == m.revision {
        ghost var before := found;
        found := found + [n];
        assert forall i :: i in before ==> i in found;
        assert found[|found| - 1] == n;
      }
    }
    if |found| != 1 {
      NotOneFound(m, ds, found);
      return None;
    }
    return Some(found[0]);
  }

  /** Resolves one slave; it refuses exactly the slaves that nothing fits. */
  method ResolveSlave(c: EsiCatalog, m: SlaveManifest) returns (r: Result<ResolvedSlave, ResolveError>)
    ensures r.Ok? ==> Resolves(c, m, r.value)
    ensures r.Err? ==> forall x :: !Resolves(c, m, x)
  {
    hide Fits, PlansSdo;
    if c.vendorId != m.vendorId { return Err(WrongVendor); }
    var i := FindDevice(m, c.devices);
    if i.None? { return Err(NotOneDevice); }
    r := ResolveWith(m, c.devices[i.value]);
  }

  // ------------------------------------- what resolution gives to the planner

  ghost predicate Plannable(s: Slave) {
    Usable(s.rxPdos) && Usable(s.txPdos) && |s.fmmuUsages| <= DomainPlan.MAX_FMMU_USAGES
  }

  lemma SelectionUsable(available: seq<EsiPdo>, selected: seq<u16>, ps: seq<EsiPdo>)
    requires GoodPdos(available) && Selection(available, selected, ps)
    ensures Usable(ps)
  {
    hide WellFormedPdo, GoodEntries;
    forall k | 0 <= k < |ps| ensures WellFormedPdo(ps[k]) && ps[k].syncManager.Some? {
      assert Selectable(available, selected[k], ps[k]);
      var i :| OnlyPdo(available, selected[k], i) && available[i] == ps[k];
      assert GoodPdo(available[i]);
    }
  }

  /** A slave resolved against an accepted catalog can be laid out. */
  lemma ResolvedIsPlannable(dec: Decoder, c: EsiCatalog, m: SlaveManifest, x: ResolvedSlave)
    requires WellFormedCatalog(dec, c) && Resolves(c, m, x)
    ensures Plannable(x.slave) && x.slave.position == m.position
    ensures m.rxPdos != [] || m.txPdos != [] ==> x.slave.rxPdos != [] || x.slave.txPdos != []
  {
    var i :| OnlyDevice(m, c.devices, i) && c.devices[i] == x.device && Fits(m, x.device, x.slave);
    var d, s := c.devices[i], x.slave;
    assert WellFormedDevice(dec, d);
    SelectionUsable(d.rxPdos, m.rxPdos, s.rxPdos);
    SelectionUsable(d.txPdos, m.txPdos, s.txPdos);
  }
}
