/** The generator from end to end: manifest checks, device descriptions, resolution
    and planning. */
module Generator {
  import opened Machine
  import opened EsiParser
  import opened EsiInvariant
  import opened DomainLayout
  import opened ProductManifest
  import opened SlaveResolution
  import opened DomainPlan
  import opened ProcessImage

  /** The events of each description file, by path. */
  type Documents = map<string, seq<Event>>

  datatype GenerateError =
    | Invalid(manifest: ManifestError) | MissingFile(path: string) | Description(esi: EsiError)
    | Resolution(resolve: ResolveError) | LabelReused(name: string) | Planning(plan: PlanError)

  /** The slave resolves against the catalog of its own file. */
  ghost predicate ResolvedBy(dec: Decoder, docs: Documents, m: SlaveManifest, x: ResolvedSlave) {
    && m.esi in docs && Parsed(dec, docs[m.esi]).Ok?
    && Resolves(Parsed(dec, docs[m.esi]).value, m, x)
  }

  /** A label stands for one device description. */
  ghost predicate LabelsAgree(ms: seq<SlaveManifest>, xs: seq<ResolvedSlave>) {
    |xs| == |ms|
    && forall i, j :: 0 <= i < j < |ms| && ms[i].esiLabel == ms[j].esiLabel ==>
         ms[i].vendorId == ms[j].vendorId && xs[i].device == xs[j].device
  }

  ghost predicate AllResolved(dec: Decoder, docs: Documents, ms: seq<SlaveManifest>, xs: seq<ResolvedSlave>) {
    && LabelsAgree(ms, xs)
    && forall k :: 0 <= k < |xs| ==> ResolvedBy(dec, docs, ms[k], xs[k])
  }

  function Slaves(xs: seq<ResolvedSlave>): seq<Slave> { seq(|xs|, i requires 0 <= i < |xs| => xs[i].slave) }

  type Labels = map<string, (u32, EsiDevice)>

  /** The labels seen so far and what they stand for. */
  ghost predicate Labelled(labels: Labels, ms: seq<SlaveManifest>, xs: seq<ResolvedSlave>) {
    && |xs| == |ms|
    && (forall l :: l in labels ==> exists k :: 0 <= k < |ms| && ms[k].esiLabel == l)
    && forall k :: 0 <= k < |ms| ==> ms[k].esiLabel in labels && labels[ms[k].esiLabel] == (ms[k].vendorId, xs[k].device)
  }

  lemma LabelledMore(labels: Labels, ms: seq<SlaveManifest>, xs: seq<ResolvedSlave>, k: nat, x: ResolvedSlave)
    requires k < |ms| && Labelled(labels, ms[..k], xs) && LabelsAgree(ms[..k], xs)
    requires ms[k].esiLabel in labels ==> labels[ms[k].esiLabel] == (ms[k].vendorId, x.device)
    ensures Labelled(labels[ms[k].esiLabel := (ms[k].vendorId, x.device)], ms[..k + 1], xs + [x])
    ensures LabelsAgree(ms[..k + 1], xs + [x])
  {
    var upto, all := ms[..k + 1], xs + [x];
    forall i | 0 <= i < k ensures upto[i] == ms[..k][i] && all[i] == xs[i] {}
    forall l | l in labels ensures exists i :: 0 <= i < |upto| && upto[i].esiLabel == l {
      var i :| 0 <= i < k && ms[..k][i].esiLabel == l;
      assert upto[i].esiLabel == l;
    }
    assert upto[k] == ms[k];
  }

  lemma SameLabelSameDevice(
    dec: Decoder, docs: Documents, ms: seq<SlaveManifest>, i: nat, k: nat, x: ResolvedSlave, y: ResolvedSlave, all: seq<ResolvedSlave>)
    requires i < k < |ms| && ms[i].esiLabel == ms[k].esiLabel && AllResolved(dec, docs, ms, all)
    requires ResolvedBy(dec, docs, ms[i], x) && ResolvedBy(dec, docs, ms[k], y)
    ensures ms[i].vendorId == ms[k].vendorId && x.device == y.device
  {
    hide Parsed, Resolves;
    assert ResolvedBy(dec, docs, ms[i], all[i]) && ResolvedBy(dec, docs, ms[k], all[k]);
    SameDevice(Parsed(dec, docs[ms[i].esi]).value, ms[i], x, all[i]);
    SameDevice(Parsed(dec, docs[ms[k].esi]).value, ms[k], y, all[k]);
  }

  /** Two slaves with one label and different descriptions cannot both resolve. */
  lemma LabelConflict(dec: Decoder, docs: Documents, ms: seq<SlaveManifest>, xs: seq<ResolvedSlave>, k: nat, x: ResolvedSlave, labels: Labels)
    requires k < |ms| && AllResolved(dec, docs, ms[..k], xs) && Labelled(labels, ms[..k], xs)
    requires ResolvedBy(dec, docs, ms[k], x)
    requires ms[k].esiLabel in labels && labels[ms[k].esiLabel] != (ms[k].vendorId, x.device)
    ensures forall ys :: !AllResolved(dec, docs, ms, ys)
  {
    var i: nat :| i < k && ms[..k][i].esiLabel == ms[k].esiLabel;
    var y := xs[i];
    assert ResolvedBy(dec, docs, ms[..k][i], y) && ms[..k][i] == ms[i];
    assert labels[ms[k].esiLabel] == (ms[i].vendorId, y.device);
    hide AllResolved, ResolvedBy;
    forall ys ensures !AllResolved(dec, docs, ms, ys) {
      if AllResolved(dec, docs, ms, ys) { SameLabelSameDevice(dec, docs, ms, i, k, y, x, ys); }
    }
  }

  /** Resolves all slaves; it refuses exactly the lists that cannot be resolved. */
  method ResolveSlaves(dec: Decoder, docs: Documents, ms: seq<SlaveManifest>) returns (r: Result<seq<ResolvedSlave>, GenerateError>)
    ensures r.Ok? ==> AllResolved(dec, docs, ms, r.value)
    ensures r.Err? ==> !r.error.Planning? && !r.error.Invalid?
    ensures r.Err? ==> forall xs :: !AllResolved(dec, docs, ms, xs)
  {
    hide Parsed, Resolves, LabelsAgree, Labelled;
    var xs: seq<ResolvedSlave> := [];
    var labels: Labels := map[];
    assert Labelled(labels, ms[..0], xs) && LabelsAgree(ms[..0], xs) by { NothingLabelled(ms); }
    for k := 0 to |ms|
      invariant |xs| == k && AllResolved(dec, docs, ms[..k], xs) && Labelled(labels, ms[..k], xs)
    {
      if ms[k].esi !in docs {
        Unresolvable(dec, docs, ms, k);
        return Err(MissingFile(ms[k].esi));
      }
      var parsed := ParseText(dec, docs[ms[k].esi]);
      if parsed.Err? {
        Unresolvable(dec, docs, ms, k);
        return Err(Description(parsed.error));
      }
      var resolved := ResolveSlave(parsed.value, ms[k]);
      if resolved.Err? {
        Unresolvable(dec, docs, ms, k);
        return Err(Resolution(resolved.error));
      }
      var x := resolved.value;
      if ms[k].esiLabel in labels && labels[ms[k].esiLabel] != (ms[k].vendorId, x.device) {
        LabelConflict(dec, docs, ms, xs, k, x, labels);
        return Err(LabelReused(ms[k].esiLabel));
      }
      LabelledMore(labels, ms, xs, k, x);
      labels := labels[ms[k].esiLabel := (ms[k].vendorId, x.device)];
      xs := xs + [x];
      assert ms[..k + 1] == ms[..k] + [ms[k]];
    }
    assert ms[..|ms|] == ms;
    return Ok(xs);
  }

  lemma NothingLabelled(ms: seq<SlaveManifest>)
    ensures Labelled(map[], ms[..0], []) && LabelsAgree(ms[..0], [])
  {
  }

  lemma Unresolvable(dec: Decoder, docs: Documents, ms: seq<SlaveManifest>, k: nat)
    requires k < |ms| && forall x :: !ResolvedBy(dec, docs, ms[k], x)
    ensures forall xs :: !AllResolved(dec, docs, ms, xs)
  {
    hide Parsed, Resolves;
    forall xs | |xs| == |ms| ensures !AllResolved(dec, docs, ms, xs) {
      assert !ResolvedBy(dec, docs, ms[k], xs[k]);
    }
  }

  // --------------------------------------- the planner's inputs are as it needs

  lemma {:induction false} BelowSize(s: set<u16>, n: nat)
    requires forall x :: x in s ==> 1 <= x <= n
    ensures |s| <= n
    decreases n
  {
    if n == 0 {
      assert s == {};
    } else if n <= U16_MAX {
      var top: u16 := n;
      BelowSize(s - {top}, n - 1);
      assert s <= (s - {top}) + {top};
    } else {
      BelowSize(s, n - 1);
    }
  }

  ghost function Stations(ms: seq<SlaveManifest>): set<u16> { set k | 0 <= k < |ms| :: ms[k].stationAddress }

  lemma {:induction false} StationsDistinct(ms: seq<SlaveManifest>)
    requires forall i, j :: 0 <= i < j < |ms| ==> ms[i].stationAddress != ms[j].stationAddress
    ensures |Stations(ms)| == |ms|
    decreases |ms|
  {
    if ms != [] {
      var n := |ms| - 1;
      StationsDistinct(ms[..n]);
      assert Stations(ms) == Stations(ms[..n]) + {ms[n].stationAddress} by {
        forall x | x in Stations(ms) ensures x in Stations(ms[..n]) + {ms[n].stationAddress} {
          var k :| 0 <= k < |ms| && ms[k].stationAddress == x;
          if k < n { assert ms[..n][k] == ms[k]; }
        }
      }
    }
  }

  /** Distinct nonzero station addresses leave room for at most 65535 slaves. */
  lemma SlaveCount(ids: set<u8>, ms: seq<SlaveManifest>)
    requires SlavesOk(ids, ms)
    ensures |ms| <= U16_MAX
  {
    hide NoDuplicates;
    forall i, j | 0 <= i < j < |ms| ensures ms[i].stationAddress != ms[j].stationAddress {
      assert SlavesApart(ms[i], ms[j]);
    }
    StationsDistinct(ms);
    forall x | x in Stations(ms) ensures 1 <= x <= U16_MAX {
      var k :| 0 <= k < |ms| && ms[k].stationAddress == x;
      assert SlaveOk(ids, ms[k]);
    }
    BelowSize(Stations(ms), U16_MAX);
  }

  /** An accepted manifest whose slaves resolve against accepted descriptions gives
      the planner exactly what rules out its internal errors. */
  lemma InputsHold(dec: Decoder, docs: Documents, m: Manifest, xs: seq<ResolvedSlave>)
    requires Acceptable(m) && AllResolved(dec, docs, m.slaves, xs)
    ensures PlannerInputs(m, Slaves(xs))
  {
    var ids, ss := DomainIds(m.domains), Slaves(xs);
    SlaveCount(ids, m.slaves);
    hide DomainsOk, CapacitiesOk, Parsed, Resolves, Usable, NoDuplicates;
    forall k | 0 <= k < |ss|
      ensures Plannable(ss[k]) && ss[k].position == m.slaves[k].position && (ss[k].rxPdos != [] || ss[k].txPdos != [])
    {
      assert ResolvedBy(dec, docs, m.slaves[k], xs[k]) && SlaveOk(ids, m.slaves[k]);
      var es := docs[m.slaves[k].esi];
      ParsedIsWellFormed(dec, es);
      ResolvedIsPlannable(dec, Parsed(dec, es).value, m.slaves[k], xs[k]);
    }
    forall i, j | 0 <= i < j < |ss| ensures ss[i].position != ss[j].position {
      assert SlavesApart(m.slaves[i], m.slaves[j]);
    }
  }

  /** From raw manifest and description events to the plan. A plan is the one the
      layout rules give for the accepted manifest and its resolved slaves, and no
      input whatsoever reaches the planner's internal errors. */
  method Generate(syntax: Syntax, dec: Decoder, docs: Documents, m: Manifest)
    returns (r: Result<Plan, GenerateError>, ghost xs: seq<ResolvedSlave>)
    ensures r.Ok? ==> && Accepted(syntax, Normalized(m)) && AllResolved(dec, docs, Normalized(m).slaves, xs)
                      && PlanOf(Normalized(m), Slaves(xs), r.value)
    ensures r.Err? && r.error.Planning? ==> !Unreachable(r.error.plan)
    ensures r.Err? && r.error.Invalid? ==> !Accepted(syntax, Normalized(m))
  {
    hide Acceptable, OtherwiseValid, AllResolved, PlanOf, Unreachable, Resolved, Normalized, Slaves;
    xs := [];
    var accepted := NormalizeAndValidate(syntax, m);
    if accepted.Err? { r := Err(Invalid(accepted.error)); return; }
    var resolved := ResolveSlaves(dec, docs, accepted.value.slaves);
    if resolved.Err? { r := Err(resolved.error); return; }
    xs := resolved.value;
    InputsHold(dec, docs, accepted.value, resolved.value);
    var plan := BuildDomainPlan(accepted.value, Slaves(resolved.value));
    if plan.Err? { r := Err(Planning(plan.error)); return; }
    r := Ok(plan.value);
  }
}
