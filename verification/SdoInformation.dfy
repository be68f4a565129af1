/** What a slave's object dictionary must say about the objects its PDOs map. */
module SdoInformation {
  import opened Machine
  import opened EsiModel

  const MAX_PRODUCT_SDO_INFORMATION_ENTRIES := 256

  type Address = (u16, u8)

  /** Type and width of an object, and the directions it is mapped in. */
  datatype Expectation = Expectation(dataType: DataType, bitLength: u8, inRx: bool, inTx: bool)

  type SdoPlan = map<Address, Expectation>

  datatype SdoError = Inconsistent | NoEntries | TooManyEntries

  /** A mapped entry with its direction. */
  datatype Mapped = Mapped(entry: EsiEntry, direction: PdoDirection) {
    function Address(): Address { (entry.index, entry.subindex) }
  }

  function MappedEntries(es: seq<EsiEntry>, d: PdoDirection): seq<Mapped> {
    seq(|es|, i requires 0 <= i < |es| => Mapped(es[i], d))
  }

  function MappedPdos(ps: seq<EsiPdo>, d: PdoDirection): seq<Mapped> {
    if ps == [] then [] else MappedPdos(ps[..|ps| - 1], d) + MappedEntries(ps[|ps| - 1].entries, d)
  }

  /** All mapped entries of a slave, outputs first. */
  function AllMapped(rx: seq<EsiPdo>, tx: seq<EsiPdo>): seq<Mapped> { MappedPdos(rx, Rx) + MappedPdos(tx, Tx) }

  ghost predicate SameShape(a: Mapped, b: Mapped) {
    a.entry.dataType == b.entry.dataType && a.entry.bitLength == b.entry.bitLength
  }

  /** An object mapped more than once has one type and width. */
  ghost predicate Consistent(xs: seq<Mapped>) {
    forall i, j :: 0 <= i < j < |xs| && xs[i].Address() == xs[j].Address() ==> SameShape(xs[i], xs[j])
  }

  ghost function Addresses(xs: seq<Mapped>): set<Address> { set i | 0 <= i < |xs| :: xs[i].Address() }

  ghost predicate MappedIn(xs: seq<Mapped>, a: Address, d: PdoDirection) {
    exists i :: 0 <= i < |xs| && xs[i].Address() == a && xs[i].direction == d
  }

  /** The plan has one expectation for each mapped object, with its type, its width
      and exactly the directions it is mapped in. */
  ghost predicate PlanOf(plan: SdoPlan, xs: seq<Mapped>) {
    && plan.Keys == Addresses(xs)
    && (forall i :: 0 <= i < |xs| ==>
          var e := plan[xs[i].Address()];
          e.dataType == xs[i].entry.dataType && e.bitLength == xs[i].entry.bitLength)
    && forall a :: a in plan ==> plan[a].inRx == MappedIn(xs, a, Rx) && plan[a].inTx == MappedIn(xs, a, Tx)
  }

  ghost predicate Plannable(xs: seq<Mapped>) {
    Consistent(xs) && 0 < |Addresses(xs)| <= MAX_PRODUCT_SDO_INFORMATION_ENTRIES
  }

  function Expecting(x: Mapped): Expectation {
    Expectation(x.entry.dataType, x.entry.bitLength, x.direction == Rx, x.direction == Tx)
  }

  function Also(e: Expectation, d: PdoDirection): Expectation { if d == Rx then e.(inRx := true) else e.(inTx := true) }

  lemma AddressesSnoc(xs: seq<Mapped>, x: Mapped)
    ensures Addresses(xs + [x]) == Addresses(xs) + {x.Address()}
  {
    assert (xs + [x])[|xs|] == x;
    forall a | a in Addresses(xs) ensures a in Addresses(xs + [x]) {
      var i :| 0 <= i < |xs| && xs[i].Address() == a;
      assert (xs + [x])[i] == xs[i];
    }
  }

  lemma MappedInSnoc(xs: seq<Mapped>, x: Mapped, a: Address, d: PdoDirection)
    ensures MappedIn(xs + [x], a, d) <==> MappedIn(xs, a, d) || (x.Address() == a && x.direction == d)
  {
    assert (xs + [x])[|xs|] == x;
    if MappedIn(xs, a, d) {
      var i :| 0 <= i < |xs| && xs[i].Address() == a && xs[i].direction == d;
      assert (xs + [x])[i] == xs[i];
    }
  }

  lemma PlanOfSnoc(plan: SdoPlan, xs: seq<Mapped>, x: Mapped)
    requires PlanOf(plan, xs)
    requires x.Address() in plan ==> plan[x.Address()].dataType == x.entry.dataType
                                     && plan[x.Address()].bitLength == x.entry.bitLength
    ensures var a := x.Address();
            PlanOf(plan[a := if a in plan then Also(plan[a], x.direction) else Expecting(x)], xs + [x])
  {
    var a := x.Address();
    var plan' := plan[a := if a in plan then Also(plan[a], x.direction) else Expecting(x)];
    AddressesSnoc(xs, x);
    forall b, d ensures MappedIn(xs + [x], b, d) <==> MappedIn(xs, b, d) || (a == b && x.direction == d) {
      MappedInSnoc(xs, x, b, d);
    }
    assert a !in plan ==> !MappedIn(xs, a, Rx) && !MappedIn(xs, a, Tx);
    hide MappedIn;
    forall i | 0 <= i < |xs + [x]|
      ensures plan'[(xs + [x])[i].Address()].dataType == (xs + [x])[i].entry.dataType
      ensures plan'[(xs + [x])[i].Address()].bitLength == (xs + [x])[i].entry.bitLength
    {
      if i < |xs| { assert xs[i].Address() in Addresses(xs); }
    }
  }

  lemma ConsistentSnoc(plan: SdoPlan, xs: seq<Mapped>, x: Mapped)
    requires PlanOf(plan, xs) && Consistent(xs)
    ensures Consistent(xs + [x]) <==>
            (x.Address() in plan ==> plan[x.Address()].dataType == x.entry.dataType
                                     && plan[x.Address()].bitLength == x.entry.bitLength)
  {
    var all, a := xs + [x], x.Address();
    if a in plan {
      var i :| 0 <= i < |xs| && xs[i].Address() == a;
      assert all[i] == xs[i] && all[|xs|] == x;
    }
    forall i | 0 <= i < |xs| ensures xs[i].Address() in plan { assert xs[i].Address() in Addresses(xs); }
  }

  lemma InconsistentStays(xs: seq<Mapped>, n: nat)
    requires n <= |xs| && !Consistent(xs[..n])
    ensures !Consistent(xs)
  {
    var i, j :| 0 <= i < j < n && xs[..n][i].Address() == xs[..n][j].Address() && !SameShape(xs[..n][i], xs[..n][j]);
    assert xs[i] == xs[..n][i] && xs[j] == xs[..n][j];
  }

  /** Adds one mapped entry, unless it contradicts an earlier one of its object. */
  method AddExpectation(plan0: SdoPlan, x: Mapped, ghost xs: seq<Mapped>) returns (plan: SdoPlan, ok: bool)
    requires PlanOf(plan0, xs) && Consistent(xs)
    ensures ok <==> Consistent(xs + [x])
    ensures ok ==> PlanOf(plan, xs + [x])
  {
    ConsistentSnoc(plan0, xs, x);
    hide PlanOf, Consistent;
    var a := x.Address();
    if a in plan0 && (plan0[a].dataType != x.entry.dataType || plan0[a].bitLength != x.entry.bitLength) {
      return plan0, false;
    }
    PlanOfSnoc(plan0, xs, x);
    return plan0[a := if a in plan0 then Also(plan0[a], x.direction) else Expecting(x)], true;
  }

  lemma NothingPlanned()
    ensures PlanOf(map[], []) && Consistent([])
  {
  }

  method CollectExpectations(xs: seq<Mapped>) returns (plan: SdoPlan, ok: bool)
    ensures ok <==> Consistent(xs)
    ensures ok ==> PlanOf(plan, xs)
  {
    hide PlanOf, Consistent;
    plan := map[];
    NothingPlanned();
    for k := 0 to |xs|
      invariant PlanOf(plan, xs[..k]) && Consistent(xs[..k])
    {
      assert xs[..k + 1] == xs[..k] + [xs[k]];
      plan, ok := AddExpectation(plan, xs[k], xs[..k]);
      if !ok {
        InconsistentStays(xs, k + 1);
        return;
      }
    }
    assert xs[..|xs|] == xs;
    ok := true;
  }

  /** Collects the expectations; it refuses exactly mappings that contradict
      themselves, are empty or have too many objects. */
  method DeriveExpectations(rx: seq<EsiPdo>, tx: seq<EsiPdo>) returns (r: Result<SdoPlan, SdoError>)
    ensures r.Ok? <==> Plannable(AllMapped(rx, tx))
    ensures r.Ok? ==> PlanOf(r.value, AllMapped(rx, tx))
  {
    hide AllMapped, Consistent;
    var plan, ok := CollectExpectations(AllMapped(rx, tx));
    if !ok { return Err(Inconsistent); }
    assert |plan| == |plan.Keys|;
    if |plan| == 0 { return Err(NoEntries); }
    if |plan| > MAX_PRODUCT_SDO_INFORMATION_ENTRIES { return Err(TooManyEntries); }
    return Ok(plan);
  }
}
