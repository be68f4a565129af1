/** The gateway probes when their map accesses interleave: exactly when a begin can
    be behind two stall records. */
module GatewayInterleavings {
  import opened Machine
  import opened ProbeSteps
  import Bits
  import P = OperationPairing
  import G = GatewayStalls

  /** Map entries are known by the number of the begin that made them. */
  type Access = P.Access<GatewayKey, nat>

  /** What one end invocation is called with. */
  datatype EndArgs = EndArgs(c: Option<Context>, call: GatewayCall, env: Env)

  ghost function RecordOf(ops: nat -> GatewayOperation, ends: nat -> EndArgs, f: P.Finish<nat>): Option<RawRecord> {
    GatewayStall(ends(f.p).c, ops(f.value), ends(f.p).call, ends(f.p).env)
  }

  /** The stall records of the ends that finished, in order. */
  ghost function Stalls(ops: nat -> GatewayOperation, ends: nat -> EndArgs, fs: seq<P.Finish<nat>>): seq<G.Stall> {
    if fs == [] then []
    else
      var n := |fs| - 1;
      var r := RecordOf(ops, ends, fs[n]);
      Stalls(ops, ends, fs[..n]) + if r.Some? then [G.Stall(r.value, fs[n].value, fs[n].p)] else []
  }

  ghost predicate DistinctBegins(stalls: seq<G.Stall>) {
    forall i, j :: 0 <= i < j < |stalls| ==> stalls[i].begin != stalls[j].begin
  }

  lemma {:induction false} StallsFromFinished(ops: nat -> GatewayOperation, ends: nat -> EndArgs, fs: seq<P.Finish<nat>>)
    requires P.Distinct(P.Values(fs))
    ensures DistinctBegins(Stalls(ops, ends, fs))
    ensures forall s :: s in Stalls(ops, ends, fs) ==> s.begin in P.Values(fs)
    decreases |fs|
  {
    if fs != [] {
      hide RecordOf;
      var n := |fs| - 1;
      var vs, vs' := P.Values(fs), P.Values(fs[..n]);
      assert vs == vs' + [fs[n].value];
      assert P.Distinct(vs') by { assert forall i :: 0 <= i < n ==> vs'[i] == vs[i]; }
      StallsFromFinished(ops, ends, fs[..n]);
      var before := Stalls(ops, ends, fs[..n]);
      forall i | 0 <= i < |before| ensures before[i].begin != fs[n].value {
        assert before[i] in before;
        var k :| 0 <= k < n && vs'[k] == before[i].begin;
        assert vs[k] != vs[n];
      }
      forall s | s in before ensures s.begin in vs { assert s.begin in vs'; }
      assert fs[n].value == vs[n];
    }
  }

  lemma {:induction false} OneStall(ops: nat -> GatewayOperation, ends: nat -> EndArgs, fs: seq<P.Finish<nat>>, i: nat)
    returns (x: nat)
    requires i < |fs| && RecordOf(ops, ends, fs[i]).Some?
    ensures x < |Stalls(ops, ends, fs)| && Stalls(ops, ends, fs)[x].begin == fs[i].value
    decreases |fs|
  {
    hide RecordOf;
    var n := |fs| - 1;
    if i < n { x := OneStall(ops, ends, fs[..n], i); } else { x := |Stalls(ops, ends, fs[..n])|; }
  }

  lemma {:induction false} SharedBegin(ops: nat -> GatewayOperation, ends: nat -> EndArgs, fs: seq<P.Finish<nat>>, i: nat, j: nat)
    requires i < j < |fs| && fs[i].value == fs[j].value
    requires RecordOf(ops, ends, fs[i]).Some? && RecordOf(ops, ends, fs[j]).Some?
    ensures !DistinctBegins(Stalls(ops, ends, fs))
    decreases |fs|
  {
    hide RecordOf;
    var n := |fs| - 1;
    var before, all := Stalls(ops, ends, fs[..n]), Stalls(ops, ends, fs);
    if j < n {
      SharedBegin(ops, ends, fs[..n], i, j);
      var x, y :| 0 <= x < y < |before| && before[x].begin == before[y].begin;
      assert all[x].begin == all[y].begin;
    } else {
      var x := OneStall(ops, ends, fs[..n], i);
      assert all[x].begin == all[|before|].begin;
    }
  }

  // ------------------------------------------------- an end that reports a stall

  /** An operation that a begin probe can have opened, before the clock runs out. */
  predicate Stallable(op: GatewayOperation) { op.class_.Routes(op.routeKind) && op.startNs + 2 <= U64_MAX }

  function PolicyOf(op: GatewayOperation): Context {
    Context(0, 0, 0, 0, 0, 0, 0, 0, 0, 0, 0, 0, 0, 0, 0, 0, 0, 0, 0, 0, 0, 0, 0, 1, op.policyEpoch, 0, 0)
  }

  /** A matching end of the operation, two nanoseconds after its begin, where the
      policy allows one. */
  function LateEnd(op: GatewayOperation): EndArgs
    requires Stallable(op)
  {
    EndArgs(Some(PolicyOf(op)), GatewayCall(op.class_, 1, op.routeKind, 0),
            Env(0, op.startTid, 0, op.startNs + 2, op.startNs + 2, true, true))
  }

  lemma LateEndStalls(op: GatewayOperation)
    requires Stallable(op)
    ensures var e := LateEnd(op);
            var r := GatewayStall(e.c, op, e.call, e.env);
            r.Some? && r.value.durationNs == 2
  {
    assert Bits.OneBit(0) == 1;
    assert Bits.And(7, 1) != 0 && Bits.And(5, 1) != 0;
  }

  // ------------------------------------------------------------- exact condition

  /** Whatever is evicted, as long as no delete is stale every begin is behind at
      most one stall record. */
  lemma NeverStaleOneStall(accesses: seq<Access>, ops: nat -> GatewayOperation, ends: nat -> EndArgs)
    requires P.FreshInserts(accesses) && P.NeverStale(accesses)
    ensures DistinctBegins(Stalls(ops, ends, P.Run(true, accesses).finished))
  {
    hide P.Run, P.FreshInserts, P.NeverStale, P.Values, P.Distinct, Stalls;
    P.FinishedAtMostOnce(accesses);
    StallsFromFinished(ops, ends, P.Run(true, accesses).finished);
  }

  /** Without evictions, once no probe is halfway: every begin is behind at most one
      stall record, however the ends are called, if and only if no delete was stale. */
  lemma OneStallPerBeginIff(accesses: seq<Access>, ops: nat -> GatewayOperation)
    requires P.FreshInserts(accesses) && P.NoEvictions(accesses) && P.Quiescent(P.Run(true, accesses))
    requires forall b :: Stallable(ops(b))
    ensures P.NeverStale(accesses)
            <==> forall ends: nat -> EndArgs :: DistinctBegins(Stalls(ops, ends, P.Run(true, accesses).finished))
  {
    hide P.Run, P.FreshInserts, P.NeverStale, P.NoEvictions, P.Quiescent, Stalls, DistinctBegins, Stallable, LateEnd;
    var fs := P.Run(true, accesses).finished;
    if P.NeverStale(accesses) {
      forall ends: nat -> EndArgs ensures DistinctBegins(Stalls(ops, ends, fs)) {
        NeverStaleOneStall(accesses, ops, ends);
      }
    } else {
      P.FinishedOnceIff(accesses);
      var i, j :| 0 <= i < j < |fs| && P.Values(fs)[i] == P.Values(fs)[j];
      var late := LateEnd(ops(fs[i].value));
      var ends := (p: nat) => late;
      LateEndStalls(ops(fs[i].value));
      SharedBegin(ops, ends, fs, i, j);
    }
  }

  // ------------------------------------------------------ a stale delete at work

  const KEY := GatewayKey(1, 0)

  /** Two ends look the first begin up before either deletes it, and a second begin
      re-inserts the key in between. */
  function Interleaving(): seq<Access> {
    [P.Insert(0, KEY, 0), P.CountBegin(0), P.Lookup(1, KEY), P.Lookup(2, KEY), P.Delete(1), P.CountCompletion(1),
     P.Insert(3, KEY, 1), P.CountBegin(3), P.Delete(2), P.CountCompletion(2)]
  }

  lemma RunStep(accesses: seq<Access>, k: nat)
    requires k < |accesses|
    ensures P.Run(true, accesses[..k + 1]) == P.Step(true, P.Run(true, accesses[..k]), accesses[k])
  {
    assert accesses[..k + 1][..k] == accesses[..k];
  }

  type System = P.System<GatewayKey, nat>

  lemma FirstBegins(all: seq<Access>) returns (s: System)
    requires all == Interleaving()
    ensures s == P.Run(true, all[..2]) == P.System(map[KEY := 0], 1, 0, 0, 0, {}, map[], map[], [])
  {
    s := P.Run(true, all[..2]);
    RunStep(all, 0);
    RunStep(all, 1);
    hide P.Run;
    assert P.Run(true, all[..0]) == P.Idle() by { NothingRun(all); }
    assert P.Run(true, all[..1]) == P.System(map[KEY := 0], 0, 0, 0, 0, {0}, map[], map[], []);
  }

  lemma BothLookUp(all: seq<Access>) returns (s: System)
    requires all == Interleaving()
    ensures s == P.Run(true, all[..4])
    ensures s == P.System(map[KEY := 0], 1, 0, 0, 0, {}, map[1 := P.Saved(KEY, 0), 2 := P.Saved(KEY, 0)], map[], [])
  {
    s := P.Run(true, all[..4]);
    var s2 := FirstBegins(all);
    RunStep(all, 2);
    RunStep(all, 3);
    hide P.Run;
    assert P.Run(true, all[..3]) == s2.(found := map[1 := P.Saved(KEY, 0)]);
  }

  lemma NothingRun(all: seq<Access>)
    ensures P.Run(true, all[..0]) == P.Idle()
  {
  }

  lemma FirstEnds(all: seq<Access>) returns (s: System)
    requires all == Interleaving()
    ensures s == P.Run(true, all[..6])
    ensures s == P.System(map[], 1, 1, 0, 0, {}, map[2 := P.Saved(KEY, 0)], map[], [P.Finish(1, 0)])
  {
    s := P.Run(true, all[..6]);
    var s4 := BothLookUp(all);
    RunStep(all, 4);
    RunStep(all, 5);
    hide P.Run;
    var s5 := P.Run(true, all[..5]);
    assert s5.entries == map[] && s5.found == map[2 := P.Saved(KEY, 0)] && s5.deleted == map[1 := P.Saved(KEY, 0)];
  }

  lemma SecondBegins(all: seq<Access>) returns (s: System)
    requires all == Interleaving()
    ensures s == P.Run(true, all[..8])
    ensures s == P.System(map[KEY := 1], 2, 1, 0, 0, {}, map[2 := P.Saved(KEY, 0)], map[], [P.Finish(1, 0)])
  {
    s := P.Run(true, all[..8]);
    var s6 := FirstEnds(all);
    RunStep(all, 6);
    RunStep(all, 7);
    hide P.Run;
    assert P.Run(true, all[..7]) == s6.(entries := map[KEY := 1], inserted := {3});
  }

  /** In this interleaving the second end deletes the second begin's entry, yet both
      ends emit a record with the data of the first begin, and the second begin is
      behind none. */
  lemma InterleavedEndsShareABegin(ops: nat -> GatewayOperation, ends: nat -> EndArgs)
    requires Stallable(ops(0)) && ends(1) == ends(2) == LateEnd(ops(0))
    ensures var s := P.Run(true, Interleaving());
            && P.Quiescent(s) && s.begins == s.completions == 2
            && P.StaleAt(Interleaving(), 8)
            && var stalls := Stalls(ops, ends, s.finished);
               |stalls| == 2 && stalls[0].begin == stalls[1].begin == 0
               && stalls[0].record.durationNs == stalls[1].record.durationNs == 2
  {
    var all := Interleaving();
    var s8 := SecondBegins(all);
    RunStep(all, 8);
    RunStep(all, 9);
    assert all[..10] == all;
    LateEndStalls(ops(0));
    var s9, s := P.Run(true, all[..9]), P.Run(true, all);
    hide P.Run, GatewayStall, LateEnd, Stallable;
    assert s9.entries == map[] && s9.found == map[] && s9.deleted == map[2 := P.Saved(KEY, 0)];
    var f1, f2 := P.Finish(1, 0), P.Finish(2, 0);
    assert s.deleted == map[] && s.finished == [f1, f2];
    assert [f1, f2][..1] == [f1] && [f1][..0] == [];
    assert Stalls(ops, ends, [f1]) == [G.Stall(RecordOf(ops, ends, f1).value, 0, 1)];
  }

  /** An end looks a begin up that is then evicted, and deletes its successor. */
  function EvictedMeanwhile(): seq<Access> {
    [P.Insert(0, KEY, 0), P.CountBegin(0), P.Lookup(1, KEY), P.Evict(KEY), P.Insert(2, KEY, 1), P.CountBegin(2),
     P.Delete(1), P.CountCompletion(1)]
  }

  lemma EvictedAndReplaced(all: seq<Access>) returns (s: System)
    requires all == EvictedMeanwhile()
    ensures s == P.Run(true, all[..4]) == P.System(map[], 1, 0, 1, 0, {}, map[1 := P.Saved(KEY, 0)], map[], [])
  {
    s := P.Run(true, all[..4]);
    RunStep(all, 0);
    RunStep(all, 1);
    RunStep(all, 2);
    RunStep(all, 3);
    hide P.Run;
    assert P.Run(true, all[..0]) == P.Idle() by { NothingRun(all); }
    assert P.Run(true, all[..1]) == P.System(map[KEY := 0], 0, 0, 0, 0, {0}, map[], map[], []);
    assert P.Run(true, all[..2]) == P.System(map[KEY := 0], 1, 0, 0, 0, {}, map[], map[], []);
  }

  /** With evictions a stale delete need not make two ends share a begin: here the
      only end reports the evicted begin. What still fails is the pairing. */
  lemma EvictionHidesStaleDelete()
    ensures var s := P.Run(true, EvictedMeanwhile());
            && P.Quiescent(s) && s.finished == [P.Finish(1, 0)] && P.StaleAt(EvictedMeanwhile(), 6)
  {
    var all := EvictedMeanwhile();
    var s4 := EvictedAndReplaced(all);
    RunStep(all, 4);
    RunStep(all, 5);
    RunStep(all, 6);
    RunStep(all, 7);
    assert all[..8] == all;
    hide P.Run;
    assert P.Run(true, all[..5]) == s4.(entries := map[KEY := 1], inserted := {2});
    assert P.Run(true, all[..6]) == s4.(entries := map[KEY := 1], begins := 2);
    var s7 := P.Run(true, all[..7]);
    assert s7.entries == map[] && s7.found == map[] && s7.deleted == map[1 := P.Saved(KEY, 0)];
    assert P.Run(true, all[..8]).deleted == map[];
  }

  // ------------------------------------------- atomic handlers are interleavings

  /** The accesses of one handler that runs without interruption. */
  function EventAccesses(e: G.Event, at: nat): seq<Access> {
    match e
    case Begin(c, call, env) =>
      if GatewayBeginAllowed(c, call, env.tgid) && env.room
      then [P.Insert(at, GatewayKey(call.requestId, env.tgid), at), P.CountBegin(at)] else []
    case End(_, call, env) =>
      if call.requestId == 0 then []
      else [P.Lookup(at, GatewayKey(call.requestId, env.tgid)), P.Delete(at), P.CountCompletion(at)]
    case Evict(key) => [P.Evict(key)]
  }

  ghost function Accesses(events: seq<G.Event>): seq<Access> {
    if events == [] then []
    else
      var n := |events| - 1;
      Accesses(events[..n]) + EventAccesses(events[n], n)
  }

  const NO_OPERATION := GatewayOperation(0, 0, 0, 0, Publish)

  /** What the begins stored and what the ends were called with. */
  ghost function OpsOf(events: seq<G.Event>): nat -> GatewayOperation {
    (b: nat) => if b < |events| && events[b].Begin? && events[b].c.Some?
                then GatewayBegun(events[b].c.value, events[b].call, events[b].env) else NO_OPERATION
  }

  ghost function EndsOf(events: seq<G.Event>): nat -> EndArgs {
    (p: nat) => if p < |events| && !events[p].Evict? then EndArgs(events[p].c, events[p].call, events[p].env)
                else EndArgs(None, GatewayCall(Publish, 0, 0, 0), Env(0, 0, 0, 0, 0, false, false))
  }

  ghost predicate Numbered(accesses: seq<Access>, n: nat) {
    && P.FreshInserts(accesses)
    && forall i :: 0 <= i < |accesses| && accesses[i].Insert? ==> accesses[i].value < n
  }

  ghost predicate Settled(accesses: seq<Access>) {
    P.Atomic(accesses) && (accesses != [] ==> !accesses[|accesses| - 1].Lookup?)
  }

  /** The shapes of one handler's accesses. */
  ghost predicate OneHandler(own: seq<Access>, at: nat) {
    || own == []
    || (|own| == 2 && own[0].Insert? && own[0].value == at && own[1].CountBegin?)
    || (|own| == 3 && own[0].Lookup? && own[1] == P.Delete(own[0].p) && own[2].CountCompletion?)
    || (|own| == 1 && own[0].Evict?)
  }

  lemma SettledMore(before: seq<Access>, own: seq<Access>, at: nat)
    requires Settled(before) && OneHandler(own, at)
    ensures Settled(before + own)
  {
    var all := before + own;
    forall i | 0 <= i < |all| && all[i].Delete?
      ensures i > 0 && all[i - 1].Lookup? && all[i - 1].p == all[i].p
    {
      if i < |before| { assert before[i].Delete? && all[i - 1] == before[i - 1]; }
    }
    forall i | 0 <= i && i + 1 < |all| && all[i].Lookup? ensures all[i + 1] == P.Delete(all[i].p) {
      if i + 1 < |before| { assert before[i].Lookup? && all[i + 1] == before[i + 1]; }
    }
  }

  lemma NumberedMore(before: seq<Access>, own: seq<Access>, at: nat)
    requires Numbered(before, at) && OneHandler(own, at)
    ensures Numbered(before + own, at + 1)
  {
    var all := before + own;
    forall i | 0 <= i < |all| && all[i].Insert?
      ensures if i < |before| then all[i] == before[i] && all[i].value < at else i == |before| && all[i].value == at
    {
    }
  }

  lemma {:induction false} AccessesAreAtomic(events: seq<G.Event>)
    ensures Settled(Accesses(events)) && Numbered(Accesses(events), |events|)
    decreases |events|
  {
    if events != [] {
      hide Settled, Numbered, GatewayBeginAllowed;
      var n := |events| - 1;
      AccessesAreAtomic(events[..n]);
      var before, own := Accesses(events[..n]), EventAccesses(events[n], n);
      assert OneHandler(own, n);
      SettledMore(before, own, n);
      NumberedMore(before, own, n);
    }
  }

  lemma RunMore(accesses: seq<Access>, a: Access)
    ensures P.Run(true, accesses + [a]) == P.Step(true, P.Run(true, accesses), a)
  {
    assert (accesses + [a])[..|accesses|] == accesses;
  }

  lemma RunTwoMore(accesses: seq<Access>, a: Access, b: Access)
    ensures P.Run(true, accesses + [a, b]) == P.Step(true, P.Step(true, P.Run(true, accesses), a), b)
  {
    hide P.Run, P.Step;
    RunMore(accesses, a);
    RunMore(accesses + [a], b);
    assert accesses + [a] + [b] == accesses + [a, b];
  }

  lemma RunThreeMore(accesses: seq<Access>, a: Access, b: Access, c: Access)
    ensures P.Run(true, accesses + [a, b, c]) == P.Step(true, P.Step(true, P.Step(true, P.Run(true, accesses), a), b), c)
  {
    hide P.Run, P.Step;
    RunTwoMore(accesses, a, b);
    RunMore(accesses + [a, b], c);
    assert accesses + [a, b] + [c] == accesses + [a, b, c];
  }

  /** A begin handler on an idle map. */
  lemma BeginSteps(s: System, at: nat, key: GatewayKey)
    requires P.Quiescent(s)
    ensures var t := P.Step(true, P.Step(true, s, P.Insert(at, key, at)), P.CountBegin(at));
            && P.Quiescent(t) && t.finished == s.finished
            && t.entries == if key in s.entries then s.entries else s.entries[key := at]
  {
  }

  /** An end handler on an idle map. */
  lemma EndSteps(s: System, at: nat, key: GatewayKey)
    requires P.Quiescent(s)
    ensures var t := P.Step(true, P.Step(true, P.Step(true, s, P.Lookup(at, key)), P.Delete(at)), P.CountCompletion(at));
            && P.Quiescent(t)
            && t.entries == s.entries - {key}
            && t.finished == s.finished + if key in s.entries then [P.Finish(at, s.entries[key])] else []
  {
    if key in s.entries {
      var s1 := P.Step(true, s, P.Lookup(at, key));
      assert s1.found == map[at := P.Saved(key, s.entries[key])];
      var s2 := P.Step(true, s1, P.Delete(at));
      assert s2.found == map[] && s2.deleted == map[at := P.Saved(key, s.entries[key])];
      assert P.Step(true, s2, P.CountCompletion(at)).deleted == map[];
    } else {
      assert s.entries - {key} == s.entries;
    }
  }

  /** The interleaving of uninterrupted handlers does what the atomic run does. */
  ghost predicate SameRun(s: System, r: G.Run, ops: nat -> GatewayOperation, ends: nat -> EndArgs) {
    && P.Quiescent(s) && s.entries == r.origin
    && Stalls(ops, ends, s.finished) == r.stalls
  }

  lemma StallsSnoc(ops: nat -> GatewayOperation, ends: nat -> EndArgs, fs: seq<P.Finish<nat>>, f: P.Finish<nat>)
    ensures Stalls(ops, ends, fs + [f]) == Stalls(ops, ends, fs)
              + if RecordOf(ops, ends, f).Some? then [G.Stall(RecordOf(ops, ends, f).value, f.value, f.p)] else []
  {
    assert (fs + [f])[..|fs|] == fs;
  }

  lemma EndSame(events: seq<G.Event>, n: nat, s: System, r: G.Run)
    requires n < |events| && events[n].End? && G.Sound(events, r)
    requires SameRun(s, r, OpsOf(events), EndsOf(events)) && events[n].call.requestId != 0
    ensures var key := events[n].Key();
            var t := P.Step(true, P.Step(true, P.Step(true, s, P.Lookup(n, key)), P.Delete(n)), P.CountCompletion(n));
            SameRun(t, G.Step(r, events[n], n), OpsOf(events), EndsOf(events))
  {
    var key, ops, ends := events[n].Key(), OpsOf(events), EndsOf(events);
    EndSteps(s, n, key);
    hide P.Step, Stalls, G.Unshared, G.Truthful, GatewayStall;
    if key in s.entries {
      var b := s.entries[key];
      StallsSnoc(ops, ends, s.finished, P.Finish(n, b));
      assert G.Opened(events, b, key, r.table[key]);
      assert ops(b) == r.table[key];
    } else {
      assert s.entries - {key} == s.entries;
    }
  }

  lemma BeginSame(events: seq<G.Event>, n: nat, s: System, r: G.Run)
    requires n < |events| && events[n].Begin? && r.origin.Keys == r.table.Keys
    requires SameRun(s, r, OpsOf(events), EndsOf(events))
    requires GatewayBeginAllowed(events[n].c, events[n].call, events[n].env.tgid) && events[n].env.room
    ensures var key := events[n].Key();
            var t := P.Step(true, P.Step(true, s, P.Insert(n, key, n)), P.CountBegin(n));
            SameRun(t, G.Step(r, events[n], n), OpsOf(events), EndsOf(events))
  {
    BeginSteps(s, n, events[n].Key());
    hide P.Step, Stalls;
  }

  lemma EvictSame(events: seq<G.Event>, n: nat, s: System, r: G.Run)
    requires n < |events| && events[n].Evict? && r.origin.Keys == r.table.Keys
    requires SameRun(s, r, OpsOf(events), EndsOf(events))
    ensures SameRun(P.Step(true, s, P.Evict(events[n].key)), G.Step(r, events[n], n), OpsOf(events), EndsOf(events))
  {
    hide Stalls;
    var key := events[n].key;
    if key !in s.entries { assert s.entries - {key} == s.entries; }
  }

  lemma {:induction false} AtomicRunsAgree(events: seq<G.Event>, n: nat)
    requires n <= |events|
    ensures SameRun(P.Run(true, Accesses(events[..n])), G.After(events[..n]), OpsOf(events), EndsOf(events))
    decreases n
  {
    if n > 0 {
      var e, k := events[n - 1], n - 1;
      assert events[..n][..k] == events[..k];
      AtomicRunsAgree(events, k);
      G.RunSound(events[..k]);
      G.SoundExtends(events, k, G.After(events[..k]));
      var before, s, r := Accesses(events[..k]), P.Run(true, Accesses(events[..k])), G.After(events[..k]);
      assert Accesses(events[..n]) == before + EventAccesses(e, k);
      assert G.After(events[..n]) == G.Step(r, e, k);
      hide P.Run, P.Step, SameRun, G.Sound, Accesses, G.After;
      match e
      case Begin(c, call, env) =>
        if GatewayBeginAllowed(c, call, env.tgid) && env.room {
          RunTwoMore(before, P.Insert(k, e.Key(), k), P.CountBegin(k));
          BeginSame(events, k, s, r);
        } else {
          assert before + [] == before;
        }
      case End(c, call, env) =>
        if call.requestId != 0 {
          RunThreeMore(before, P.Lookup(k, e.Key()), P.Delete(k), P.CountCompletion(k));
          EndSame(events, k, s, r);
        } else {
          assert before + [] == before;
        }
      case Evict(key) =>
        RunMore(before, P.Evict(key));
        EvictSame(events, k, s, r);
    }
  }

  /** Handlers that run one at a time are the interleavings in which every lookup is
      followed by its own delete. Those never delete a stale entry, and their stall
      records are those of the atomic run. */
  lemma AtomicHandlersAreInterleavings(events: seq<G.Event>)
    ensures P.Atomic(Accesses(events)) && P.FreshInserts(Accesses(events)) && P.NeverStale(Accesses(events))
    ensures var s := P.Run(true, Accesses(events));
            && P.Quiescent(s) && s.entries == G.After(events).origin
            && Stalls(OpsOf(events), EndsOf(events), s.finished) == G.After(events).stalls
  {
    hide P.Run, Accesses, G.After, Stalls, P.Quiescent, P.NeverStale;
    AccessesAreAtomic(events);
    P.AtomicNeverStale(Accesses(events));
    AtomicRunsAgree(events, |events|);
    assert events[..|events|] == events;
  }
}
