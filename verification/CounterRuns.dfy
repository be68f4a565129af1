/** Whole runs of the probes that count or compare: which of their calls emit. */
module CounterRuns {
  import opened Machine
  import opened FixedWindow
  import opened ThresholdWindows
  import opened ProbeSteps

  /** Position in its window of the last hit of its key. */
  ghost function LastOrdinal<K>(hits: seq<KeyHit<K>>, windowNs: u64): nat
    requires hits != []
  {
    var ts := TimesOf(hits, hits[|hits| - 1].key);
    Ordinal(ts, windowNs, |ts| - 1)
  }

  /** One more hit in a table of windows. */
  lemma TableSnoc<K>(hits: seq<KeyHit<K>>, h: KeyHit<K>, windowNs: u64, threshold: u64)
    ensures var t := TableAfter(hits, windowNs);
            TableAfter(hits + [h], windowNs) == t[h.key := OnHit(Lookup(t, h.key), h.now, windowNs, threshold).window]
  {
    assert (hits + [h])[..|hits|] == hits;
  }

  lemma OrderedSnoc<K>(hits: seq<KeyHit<K>>, h: KeyHit<K>)
    requires Ordered(hits) && forall x :: x in hits ==> x.now <= h.now
    ensures Ordered(hits + [h])
  {
    forall i | 0 <= i < |hits| ensures hits[i].now <= h.now { assert hits[i] in hits; }
  }

  /** What the last of some hits does. */
  lemma LastHit<K>(hits: seq<KeyHit<K>>, h: KeyHit<K>, windowNs: u64, threshold: u64)
    requires Ordered(hits + [h]) && windowNs >= 1 && threshold >= 1
    ensures var hit := OnHit(Lookup(TableAfter(hits, windowNs), h.key), h.now, windowNs, threshold);
            && (hit.crossed <==> LastOrdinal(hits + [h], windowNs) == threshold && threshold <= U32_MAX)
            && hit.window.count == Min(LastOrdinal(hits + [h], windowNs), U32_MAX)
            && hit.elapsed < windowNs
  {
    assert (hits + [h])[..|hits|] == hits && (hits + [h])[|hits|] == h;
    KeyedHitAt(hits + [h], windowNs, threshold);
    hide TableAfter, TimesOf, Ordered, Ordinal;
  }

  // -------------------------------------------------------------- page faults

  datatype FaultEvent = FaultEvent(c: Option<Context>, errorCode: u64, env: Env) {
    function Key(): PerCpuKey { PerCpuKey(env.cpu, env.tgid) }
  }

  ghost function FaultsAfter(es: seq<FaultEvent>): map<PerCpuKey, Window> {
    if es == [] then map[]
    else
      var n := |es| - 1;
      FaultTable(FaultsAfter(es[..n]), es[n].c, es[n].env)
  }

  ghost function FaultRecordAt(es: seq<FaultEvent>, n: nat): Option<RawRecord>
    requires n < |es|
  {
    FaultRecord(es[n].c, Lookup(FaultsAfter(es[..n]), es[n].Key()), es[n].errorCode, es[n].env)
  }

  /** One threshold and window for all counted faults, a clock that never goes back
      and room for every key. */
  ghost predicate SteadyFaults(es: seq<FaultEvent>, threshold: u64, windowNs: u64) {
    && (forall i :: 0 <= i < |es| && FaultCounted(es[i].c, es[i].env) ==>
          && es[i].c.value.pageFaultThreshold == threshold && es[i].c.value.pageFaultWindowNs == windowNs
          && es[i].env.room)
    && forall i, j :: 0 <= i <= j < |es| ==> es[i].env.now <= es[j].env.now
  }

  /** The counted faults as hits on their keys. */
  ghost function FaultHits(es: seq<FaultEvent>): seq<KeyHit<PerCpuKey>> {
    if es == [] then []
    else
      var n := |es| - 1;
      FaultHits(es[..n]) + if FaultCounted(es[n].c, es[n].env) then [KeyHit(es[n].Key(), es[n].env.now)] else []
  }

  lemma {:induction false} FaultHitsOrdered(es: seq<FaultEvent>, threshold: u64, windowNs: u64)
    requires SteadyFaults(es, threshold, windowNs)
    ensures Ordered(FaultHits(es))
    ensures forall h :: h in FaultHits(es) ==> es != [] && h.now <= es[|es| - 1].env.now
    decreases |es|
  {
    if es != [] {
      hide Ordered;
      var n := |es| - 1;
      FaultHitsOrdered(es[..n], threshold, windowNs);
      if n > 0 { assert es[n - 1].env.now <= es[n].env.now; }
      if FaultCounted(es[n].c, es[n].env) { OrderedSnoc(FaultHits(es[..n]), KeyHit(es[n].Key(), es[n].env.now)); }
    }
  }

  lemma {:induction false} FaultTableFollowsHits(es: seq<FaultEvent>, threshold: u64, windowNs: u64)
    requires SteadyFaults(es, threshold, windowNs)
    ensures FaultsAfter(es) == TableAfter(FaultHits(es), windowNs)
    decreases |es|
  {
    if es != [] {
      var n := |es| - 1;
      FaultTableFollowsHits(es[..n], threshold, windowNs);
      hide TableAfter;
      if FaultCounted(es[n].c, es[n].env) {
        TableSnoc(FaultHits(es[..n]), KeyHit(es[n].Key(), es[n].env.now), windowNs, threshold);
      } else {
        assert FaultHits(es) == FaultHits(es[..n]);
      }
    }
  }

  /** In any run over any number of processes and CPUs a page fault emits a record
      if and only if it is the T-th counted one of its key's window. */
  lemma FaultRecordIff(es: seq<FaultEvent>, n: nat, threshold: u64, windowNs: u64)
    requires n < |es| && SteadyFaults(es, threshold, windowNs)
    ensures FaultRecordAt(es, n).Some? <==>
            FaultCounted(es[n].c, es[n].env) && threshold <= U32_MAX
            && FaultHits(es[..n + 1]) != [] && LastOrdinal(FaultHits(es[..n + 1]), windowNs) == threshold
    ensures FaultRecordAt(es, n).Some? ==>
            FaultRecordAt(es, n).value.count == threshold && FaultRecordAt(es, n).value.durationNs < windowNs
  {
    if FaultCounted(es[n].c, es[n].env) {
      var upto := es[..n + 1];
      assert upto[..n] == es[..n];
      assert SteadyFaults(upto, threshold, windowNs) && SteadyFaults(es[..n], threshold, windowNs);
      var before, h := FaultHits(es[..n]), KeyHit(es[n].Key(), es[n].env.now);
      assert FaultHits(upto) == before + [h];
      FaultHitsOrdered(upto, threshold, windowNs);
      FaultTableFollowsHits(es[..n], threshold, windowNs);
      hide SteadyFaults, FaultsAfter, FaultHits, Ordered, TableAfter, LastOrdinal;
      LastHit(before, h, windowNs, threshold);
    }
  }

  // --------------------------------------------------------------- migrations

  datatype MoveEvent = MoveEvent(c: Option<Context>, move: Move, env: Env)

  ghost function MovesAfter(es: seq<MoveEvent>): map<u32, MigrationState> {
    if es == [] then map[]
    else
      var n := |es| - 1;
      MigrationTable(MovesAfter(es[..n]), es[n].c, es[n].move, es[n].env)
  }

  ghost function MoveRecordAt(es: seq<MoveEvent>, n: nat): Option<RawRecord>
    requires n < |es|
  {
    if es[n].move.Sane()
    then MoveRecord(es[n].c, Lookup(MovesAfter(es[..n]), es[n].move.pid), es[n].move, es[n].env) else None
  }

  ghost predicate SteadyMoves(es: seq<MoveEvent>, threshold: u64, windowNs: u64, epoch: u32) {
    && (forall i :: 0 <= i < |es| && MoveCounted(es[i].c, es[i].move) ==>
          && es[i].c.value.schedulerMigrationThreshold == threshold
          && es[i].c.value.schedulerMigrationWindowNs == windowNs
          && es[i].c.value.schedulerMigrationEpoch == epoch && es[i].env.room)
    && forall i, j :: 0 <= i <= j < |es| ==> es[i].env.now <= es[j].env.now
  }

  ghost function MoveHits(es: seq<MoveEvent>): seq<KeyHit<u32>> {
    if es == [] then []
    else
      var n := |es| - 1;
      MoveHits(es[..n]) + if MoveCounted(es[n].c, es[n].move) then [KeyHit(es[n].move.pid, es[n].env.now)] else []
  }

  lemma {:induction false} MoveHitsOrdered(es: seq<MoveEvent>, threshold: u64, windowNs: u64, epoch: u32)
    requires SteadyMoves(es, threshold, windowNs, epoch)
    ensures Ordered(MoveHits(es))
    ensures forall h :: h in MoveHits(es) ==> es != [] && h.now <= es[|es| - 1].env.now
    decreases |es|
  {
    if es != [] {
      hide Ordered;
      var n := |es| - 1;
      MoveHitsOrdered(es[..n], threshold, windowNs, epoch);
      if n > 0 { assert es[n - 1].env.now <= es[n].env.now; }
      if MoveCounted(es[n].c, es[n].move) { OrderedSnoc(MoveHits(es[..n]), KeyHit(es[n].move.pid, es[n].env.now)); }
    }
  }

  /** The stored states are the windows, all of the current policy. */
  ghost predicate Follows(t: map<u32, MigrationState>, windows: map<u32, Window>, epoch: u32) {
    t.Keys == windows.Keys && forall k :: k in t ==> t[k].window == windows[k] && t[k].policyEpoch == epoch
  }

  lemma {:induction false} MoveTableFollowsHits(es: seq<MoveEvent>, threshold: u64, windowNs: u64, epoch: u32)
    requires SteadyMoves(es, threshold, windowNs, epoch)
    ensures Follows(MovesAfter(es), TableAfter(MoveHits(es), windowNs), epoch)
    decreases |es|
  {
    if es != [] {
      var n := |es| - 1;
      MoveTableFollowsHits(es[..n], threshold, windowNs, epoch);
      hide TableAfter;
      if MoveCounted(es[n].c, es[n].move) {
        TableSnoc(MoveHits(es[..n]), KeyHit(es[n].move.pid, es[n].env.now), windowNs, threshold);
      } else {
        assert MoveHits(es) == MoveHits(es[..n]);
      }
    }
  }

  /** Under one policy a migration emits a record if and only if it is the T-th
      counted one of its task's window. */
  lemma MoveRecordIff(es: seq<MoveEvent>, n: nat, threshold: u64, windowNs: u64, epoch: u32)
    requires n < |es| && SteadyMoves(es, threshold, windowNs, epoch)
    ensures MoveRecordAt(es, n).Some? <==>
            MoveCounted(es[n].c, es[n].move) && threshold <= U32_MAX
            && MoveHits(es[..n + 1]) != [] && LastOrdinal(MoveHits(es[..n + 1]), windowNs) == threshold
    ensures MoveRecordAt(es, n).Some? ==>
            MoveRecordAt(es, n).value.count == threshold && MoveRecordAt(es, n).value.durationNs < windowNs
  {
    if MoveCounted(es[n].c, es[n].move) {
      var upto := es[..n + 1];
      assert upto[..n] == es[..n];
      assert SteadyMoves(upto, threshold, windowNs, epoch) && SteadyMoves(es[..n], threshold, windowNs, epoch);
      var before, h := MoveHits(es[..n]), KeyHit(es[n].move.pid, es[n].env.now);
      assert MoveHits(upto) == before + [h];
      MoveHitsOrdered(upto, threshold, windowNs, epoch);
      MoveTableFollowsHits(es[..n], threshold, windowNs, epoch);
      hide SteadyMoves, MovesAfter, MoveHits, Ordered, TableAfter, LastOrdinal;
      LastHit(before, h, windowNs, threshold);
    }
  }

  // --------------------------------------------------------- frequency limits

  datatype LimitEvent =
    | Limit(c: Option<Context>, policyCpu: u32, khz: u32, env: Env)
    | LimitEvict(policyCpu: u32)

  ghost function LimitsAfter(es: seq<LimitEvent>): map<u32, FrequencyState> {
    if es == [] then map[]
    else
      var n := |es| - 1;
      var t := LimitsAfter(es[..n]);
      match es[n]
      case Limit(c, cpu, khz, env) => FrequencyTable(t, c, cpu, khz, env)
      case LimitEvict(cpu) => t - {cpu}
  }

  ghost function LimitRecordAt(es: seq<LimitEvent>, n: nat): Option<RawRecord>
    requires n < |es|
  {
    var e := es[n];
    if e.Limit? then LimitRecord(e.c, Lookup(LimitsAfter(es[..n]), e.policyCpu), e.policyCpu, e.khz, e.env) else None
  }

  ghost predicate CountedLimit(e: LimitEvent, cpu: u32) {
    e.Limit? && e.policyCpu == cpu && LimitCounted(e.c, cpu, e.khz)
  }

  /** The event makes the tracker forget that the cap of this CPU was below the floor
      under this policy epoch: the cap recovers, the policy changes or the entry is
      evicted. */
  ghost predicate Clears(e: LimitEvent, cpu: u32, epoch: u32) {
    || (e.LimitEvict? && e.policyCpu == cpu)
    || (CountedLimit(e, cpu)
        && (e.khz >= e.c.value.cpuFrequencyFloorKhz || e.c.value.cpuFrequencyPolicyEpoch != epoch))
  }

  /** Call `i` reported this CPU under this epoch, and nothing cleared it since. */
  ghost predicate AlreadyTold(es: seq<LimitEvent>, i: int, n: int, cpu: u32, epoch: u32) {
    && 0 <= i < n <= |es| && LimitRecordAt(es, i).Some? && CountedLimit(es[i], cpu)
    && es[i].c.value.cpuFrequencyPolicyEpoch == epoch
    && forall k :: i < k < n ==> !Clears(es[k], cpu, epoch)
  }

  ghost predicate Below(t: map<u32, FrequencyState>, cpu: u32, epoch: u32) {
    cpu in t && t[cpu].belowFloor && t[cpu].policyEpoch == epoch
  }

  lemma {:induction false} ToldStaysBelow(es: seq<LimitEvent>, i: int, n: nat, cpu: u32, epoch: u32)
    requires AlreadyTold(es, i, n, cpu, epoch)
    ensures Below(LimitsAfter(es[..n]), cpu, epoch)
    decreases n
  {
    assert es[..n][..n - 1] == es[..n - 1];
    if i < n - 1 {
      ToldStaysBelow(es, i, n - 1, cpu, epoch);
      assert !Clears(es[n - 1], cpu, epoch);
    }
  }

  lemma {:induction false} BelowWasTold(es: seq<LimitEvent>, n: nat, cpu: u32, epoch: u32) returns (i: int)
    requires n <= |es| && Below(LimitsAfter(es[..n]), cpu, epoch)
    ensures AlreadyTold(es, i, n, cpu, epoch)
    decreases n
  {
    assert es[..n][..n - 1] == es[..n - 1];
    if Below(LimitsAfter(es[..n - 1]), cpu, epoch) && !Clears(es[n - 1], cpu, epoch) {
      i := BelowWasTold(es, n - 1, cpu, epoch);
    } else {
      i := n - 1;
    }
  }

  /** A counted cap below the floor is reported if and only if there is room for it
      and no earlier report of the same CPU and policy epoch is still uncleared. */
  lemma ThrottleRecordIff(es: seq<LimitEvent>, n: nat)
    requires n < |es| && es[n].Limit?
    ensures var e := es[n];
            LimitRecordAt(es, n).Some? <==>
              && CountedLimit(e, e.policyCpu) && e.khz < e.c.value.cpuFrequencyFloorKhz
              && (e.policyCpu in LimitsAfter(es[..n]) || e.env.room)
              && !exists i :: AlreadyTold(es, i, n, e.policyCpu, e.c.value.cpuFrequencyPolicyEpoch)
  {
    var e := es[n];
    if CountedLimit(e, e.policyCpu) {
      var cpu, epoch := e.policyCpu, e.c.value.cpuFrequencyPolicyEpoch;
      hide LimitsAfter, AlreadyTold;
      if Below(LimitsAfter(es[..n]), cpu, epoch) { var i := BelowWasTold(es, n, cpu, epoch); }
      if i :| AlreadyTold(es, i, n, cpu, epoch) { ToldStaysBelow(es, i, n, cpu, epoch); }
    }
  }

  /** Between two reports of one CPU its cap recovered, its policy changed or its
      entry was evicted. */
  lemma ReportsAreSeparated(es: seq<LimitEvent>, i: nat, j: nat) returns (k: nat)
    requires i < j < |es| && LimitRecordAt(es, i).Some? && LimitRecordAt(es, j).Some?
    requires es[i].policyCpu == es[j].policyCpu
    ensures i < k <= j && es[i].Limit? && es[i].c.Some?
    ensures Clears(es[k], es[i].policyCpu, es[i].c.value.cpuFrequencyPolicyEpoch)
  {
    var cpu, epoch := es[i].policyCpu, es[i].c.value.cpuFrequencyPolicyEpoch;
    if k: nat :| i < k < j && Clears(es[k], cpu, epoch) {
      return k;
    }
    assert AlreadyTold(es, i, j, cpu, epoch);
    ThrottleRecordIff(es, j);
    k := j;
  }
}
