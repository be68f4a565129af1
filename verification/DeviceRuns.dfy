/** Whole runs of the device registry. */
module DeviceRuns {
  import opened Machine
  import opened DeviceRegistry
  import Bits

  datatype Op =
    | Join(id: u32, kind: DeviceKind, cycle: u64)
    | Move(id: u32, target: DeviceState, cycle: u64)
    | Break(id: u32, code: u32, cycle: u64)

  /** A recovery request is a move to Recovering. */
  function Step(capacity: nat, g: Registry, op: Op): Registry {
    match op
    case Join(id, kind, cycle) => Register(capacity, g, id, kind, cycle).0
    case Move(id, target, cycle) => Advance(g, id, target, cycle).0
    case Break(id, code, cycle) => Fail(g, id, code, cycle).0
  }

  ghost function After(capacity: nat, ops: seq<Op>): Registry {
    if ops == [] then Registry([], 0)
    else
      var n := |ops| - 1;
      Step(capacity, After(capacity, ops[..n]), ops[n])
  }

  // ---------------------------------------------------- one device over time

  /** What one operation may do to one record: nothing, or one allowed move. */
  ghost predicate OneMove(d: DeviceRecord, d': DeviceRecord) {
    || d' == d
    || (&& AllowedTransition(d.state, d'.state) && d'.id == d.id && d'.kind == d.kind
        && d'.transitionCount == SatAdd32(d.transitionCount, 1)
        && d'.generation == (if d'.state == Recovering || (d.state == Inactive && d'.state == Probed)
                             then SatAdd32(d.generation, 1) else d.generation))
  }

  /** Registered devices keep their place, and each operation moves each of them
      at most one step. */
  lemma StepMovesOnce(capacity: nat, g: Registry, op: Op, i: nat)
    requires i < |g.records|
    ensures |g.records| <= |Step(capacity, g, op).records|
    ensures OneMove(g.records[i], Step(capacity, g, op).records[i])
  {
  }

  /** The record in one slot after the first `n` operations, once it is registered. */
  ghost function RecordAt(capacity: nat, ops: seq<Op>, n: nat, slot: nat): Option<DeviceRecord>
    requires n <= |ops|
  {
    var records := After(capacity, ops[..n]).records;
    if slot < |records| then Some(records[slot]) else None
  }

  /** The records one device had after `from` operations and after each later one. */
  ghost predicate Life(capacity: nat, ops: seq<Op>, from: nat, slot: nat, life: seq<DeviceRecord>) {
    && from + |life| == |ops| + 1
    && forall n :: from <= n <= |ops| ==> RecordAt(capacity, ops, n, slot) == Some(life[n - from])
  }

  ghost predicate Path(p: seq<DeviceRecord>) {
    forall k :: 0 <= k && k + 1 < |p| ==> OneMove(p[k], p[k + 1])
  }

  lemma LivesArePaths(capacity: nat, ops: seq<Op>, from: nat, slot: nat, life: seq<DeviceRecord>)
    requires Life(capacity, ops, from, slot, life)
    ensures Path(life)
  {
    forall k | 0 <= k && k + 1 < |life| ensures OneMove(life[k], life[k + 1]) {
      var n := from + k;
      assert RecordAt(capacity, ops, n, slot) == Some(life[k]);
      assert RecordAt(capacity, ops, n + 1, slot) == Some(life[k + 1]);
      assert ops[..n + 1][..n] == ops[..n];
      StepMovesOnce(capacity, After(capacity, ops[..n]), ops[n], slot);
      hide OneMove, Step;
    }
  }

  /** A device that is not in state `s` and later is must have entered it. */
  lemma {:induction false} Entered(p: seq<DeviceRecord>, i: nat, j: nat, s: DeviceState) returns (k: nat)
    requires Path(p) && i < j < |p| && p[i].state != s && p[j].state == s
    ensures i <= k < j && p[k].state != s && p[k + 1].state == s
    ensures AllowedTransition(p[k].state, s) && p[k + 1] != p[k] && OneMove(p[k], p[k + 1])
    decreases j
  {
    if p[j - 1].state == s {
      k := Entered(p, i, j - 1, s);
    } else {
      k := j - 1;
    }
    assert OneMove(p[k], p[k + 1]);
  }

  /** Counters never go back, and a move counts. */
  lemma {:induction false} CountersGrow(p: seq<DeviceRecord>, i: nat, j: nat)
    requires Path(p) && i <= j < |p|
    ensures p[i].transitionCount <= p[j].transitionCount && p[i].generation <= p[j].generation
    decreases j
  {
    if i < j {
      CountersGrow(p, i, j - 1);
      assert OneMove(p[j - 1], p[j - 1 + 1]);
    }
  }

  lemma MoveCounts(p: seq<DeviceRecord>, k: nat, j: nat, atLeast: nat)
    requires Path(p) && k < j < |p| && p[k].state != p[k + 1].state
    requires p[k].transitionCount >= Min(atLeast, U32_MAX)
    ensures p[j].transitionCount >= Min(atLeast + 1, U32_MAX)
  {
    assert OneMove(p[k], p[k + 1]);
    CountersGrow(p, k + 1, j);
  }

  /** The stages a device passed on its way back to cyclic operation. */
  datatype WayBack = WayBack(left: nat, renewed: nat, identified: nat, configuring: nat, configured: nat, active: nat)

  ghost predicate IsWayBack(p: seq<DeviceRecord>, i: nat, j: nat, w: WayBack) {
    && i <= w.left < w.renewed <= w.identified - 1 < w.configuring - 1 < w.configured - 1 < w.active - 1
    && w.active < j < |p|
    && (|| (p[w.renewed].state == Recovering && (p[w.left].state == Fault || p[w.left].state == Degraded))
        || (p[w.renewed].state == Probed && p[w.left].state == Inactive && i < w.left))
    && p[w.identified].state == Identified && p[w.configuring].state == Configuring
    && p[w.configured].state == Configured && p[w.active].state == Active
  }

  /** A device seen in Fault and later in Cyclic went through Recovering, or through
      Inactive and then Probed, and from there through every setup state in order. */
  lemma WayBackFromFault(p: seq<DeviceRecord>, i: nat, j: nat) returns (w: WayBack)
    requires Path(p) && i < j < |p| && p[i].state == Fault && p[j].state == Cyclic
    ensures IsWayBack(p, i, j, w)
    ensures p[j].transitionCount >= Min(p[i].transitionCount + 6, U32_MAX)
    ensures p[j].generation >= Min(p[i].generation + 1, U32_MAX)
  {
    hide Path, OneMove;
    var active := Entered(p, i, j, Cyclic);
    var configured := Entered(p, i, active, Active);
    var configuring := Entered(p, i, configured, Configured);
    var identified := Entered(p, i, configuring, Configuring);
    var renewed := Entered(p, i, identified, Identified);
    var left := Entered(p, i, renewed, p[renewed].state);
    w := WayBack(left, left + 1, identified, configuring, configured, active);
    RenewalCounts(p, i, left, j);
    CountersGrow(p, i, left);
    MoveCounts(p, left, renewed, p[i].transitionCount);
    MoveCounts(p, renewed, identified, p[i].transitionCount + 1);
    MoveCounts(p, identified, configuring, p[i].transitionCount + 2);
    MoveCounts(p, configuring, configured, p[i].transitionCount + 3);
    MoveCounts(p, configured, active, p[i].transitionCount + 4);
    MoveCounts(p, active, j, p[i].transitionCount + 5);
  }

  lemma RenewalCounts(p: seq<DeviceRecord>, i: nat, k: nat, j: nat)
    requires Path(p) && i <= k < j < |p| && p[k].state != p[k + 1].state
    requires p[k + 1].state == Recovering || (p[k].state == Inactive && p[k + 1].state == Probed)
    ensures p[j].generation >= Min(p[i].generation + 1, U32_MAX)
  {
    assert OneMove(p[k], p[k + 1]);
    CountersGrow(p, i, k);
    CountersGrow(p, k + 1, j);
  }

  /** The same, for any registered device of any run of the registry. */
  lemma DevicesRecoverTheHardWay(
    capacity: nat, ops: seq<Op>, from: nat, slot: nat, life: seq<DeviceRecord>, i: nat, j: nat)
    returns (w: WayBack)
    requires Life(capacity, ops, from, slot, life)
    requires i < j < |life| && life[i].state == Fault && life[j].state == Cyclic
    ensures IsWayBack(life, i, j, w)
    ensures life[j].transitionCount >= Min(life[i].transitionCount + 6, U32_MAX)
    ensures life[j].generation >= Min(life[i].generation + 1, U32_MAX)
  {
    LivesArePaths(capacity, ops, from, slot, life);
    w := WayBackFromFault(life, i, j);
  }

  // ------------------------------------------------------ the whole registry

  ghost predicate WellKept(capacity: nat, g: Registry) {
    && |g.records| <= capacity
    && (forall i :: 0 <= i < |g.records| ==>
          var d := g.records[i];
          d.state != Empty && 0 < d.id < MAX_DEVICE_ID && (d.state != Fault ==> d.faultCode == 0))
    && forall i, j :: 0 <= i < j < |g.records| ==> g.records[i].id != g.records[j].id
  }

  /** Ids stay distinct, no record is half-written, and only faulted devices carry
      a fault code. */
  lemma {:induction false} RunsKeepRegistry(capacity: nat, ops: seq<Op>)
    ensures WellKept(capacity, After(capacity, ops))
    decreases |ops|
  {
    if ops != [] {
      var n := |ops| - 1;
      RunsKeepRegistry(capacity, ops[..n]);
      StepKeepsRegistry(capacity, After(capacity, ops[..n]), ops[n]);
    }
  }

  lemma StepKeepsRegistry(capacity: nat, g: Registry, op: Op)
    requires WellKept(capacity, g)
    ensures WellKept(capacity, Step(capacity, g, op))
  {
  }

  ghost function Transitions(records: seq<DeviceRecord>): nat {
    if records == [] then 0
    else Transitions(records[..|records| - 1]) + records[|records| - 1].transitionCount
  }

  ghost predicate Unsaturated(records: seq<DeviceRecord>) {
    forall i :: 0 <= i < |records| ==> records[i].transitionCount < U32_MAX
  }

  lemma {:induction false} TransitionsUpdate(records: seq<DeviceRecord>, i: nat, d: DeviceRecord)
    requires i < |records|
    ensures Transitions(records[i := d])
         == Transitions(records) - records[i].transitionCount + d.transitionCount
    decreases |records|
  {
    var n := |records| - 1;
    if i == n {
      assert records[i := d][..n] == records[..n];
    } else {
      TransitionsUpdate(records[..n], i, d);
      assert records[i := d][..n] == records[..n][i := d];
    }
  }

  /** An operation is visible in the epoch exactly when it moved a device. */
  lemma StepCounts(capacity: nat, g: Registry, op: Op)
    requires Unsaturated(Step(capacity, g, op).records)
    ensures Unsaturated(g.records)
    ensures var g' := Step(capacity, g, op);
            || (g'.epoch == g.epoch && Transitions(g'.records) == Transitions(g.records))
            || (g'.epoch == WrapAdd32(g.epoch, 1) && Transitions(g'.records) == Transitions(g.records) + 1)
  {
    var g' := Step(capacity, g, op);
    forall i | 0 <= i < |g.records| ensures g.records[i].transitionCount < U32_MAX {
      StepMovesOnce(capacity, g, op, i);
    }
    if op.Join? {
      if g' != g { assert g'.records[..|g.records|] == g.records; }
    } else if g' != g {
      var i := IndexOf(g.records, op.id).value;
      TransitionsUpdate(g.records, i, g'.records[i]);
      assert g'.records == g.records[i := g'.records[i]];
    }
  }

  /** While no counter is saturated, the lifecycle epoch is the number of
      transitions of all devices, modulo 2^32. */
  lemma {:induction false} EpochCountsTransitions(capacity: nat, ops: seq<Op>)
    requires Unsaturated(After(capacity, ops).records)
    ensures After(capacity, ops).epoch == Transitions(After(capacity, ops).records) % 0x1_0000_0000
    decreases |ops|
  {
    hide Step, Transitions, Unsaturated;
    if ops == [] {
      assert Transitions([]) == 0 by { NoTransitions(); }
    } else {
      var n := |ops| - 1;
      StepCounts(capacity, After(capacity, ops[..n]), ops[n]);
      EpochCountsTransitions(capacity, ops[..n]);
      WrapNext(Transitions(After(capacity, ops[..n]).records));
    }
  }

  lemma NoTransitions()
    ensures Transitions([]) == 0
  {
  }

  lemma WrapNext(n: nat)
    ensures WrapAdd32(n % 0x1_0000_0000, 1) == (n + 1) % 0x1_0000_0000
  {
    var m := 0x1_0000_0000;
    if n % m + 1 < m {
      Bits.DivModUnique(n + 1, m, n / m, n % m + 1);
    } else {
      Bits.DivModUnique(n + 1, m, n / m + 1, 0);
    }
  }
}
