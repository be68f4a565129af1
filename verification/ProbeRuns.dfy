/** Whole runs of the probes that time something: which start each of their records
    belongs to. */
module ProbeRuns {
  import opened Machine
  import opened StartStamps
  import opened ProbeSteps
  import Ev = Evidence

  /** A reportable record of the given kind that tells these measurements. */
  ghost predicate Tells(r: RawRecord, kind: Ev.EvidenceKind, observed: nat, threshold: nat, duration: nat, count: nat) {
    && Reportable(r) && Decode(r).value.kind == kind
    && r.observedValue == observed && r.threshold == threshold && r.durationNs == duration && r.count == count
  }

  // ----------------------------------------------------------------- raw port

  datatype PortEvent =
    | PortBegin(c: Option<Context>, call: RawPortCall, env: Env)
    | PortEnd(c: Option<Context>, call: RawPortCall, env: Env)
    | PortEvict(key: TaskKey)
  {
    function Key(): TaskKey { if PortEvict? then key else TaskKey(env.tgid, env.tid) }

    function Stamp(): Stamp<TaskKey, RawPortOperation> {
      match this
      case PortBegin(c, call, env) => RawPortBegun(c, call, env)
      case PortEnd(_, _, env) => Finish(TaskKey(env.tgid, env.tid))
      case PortEvict(key) => Forget(key)
    }
  }

  ghost function PortStamps(es: seq<PortEvent>): seq<Stamp<TaskKey, RawPortOperation>> {
    seq(|es|, i requires 0 <= i < |es| => es[i].Stamp())
  }

  /** The record that event `n` of a run emits. */
  ghost function PortRecord(es: seq<PortEvent>, n: nat): Option<RawRecord>
    requires n < |es|
  {
    if es[n].PortEnd?
    then RawPortStall(es[n].c, Lookup(TableAfter(PortStamps(es)[..n]), es[n].Key()), es[n].call, es[n].env)
    else None
  }

  /** A begin that leaves no entry behind. */
  ghost predicate PortRefused(e: PortEvent) {
    e.PortBegin? && !(RawPortBeginAllowed(e.c, e.call, e.env.tgid) && e.env.room)
  }

  /** Begin `b` is the latest recorded one of the task of event `n`, which has neither
      ended nor been evicted since. */
  ghost predicate LatestBegin(es: seq<PortEvent>, b: int, n: int) {
    && 0 <= b < n < |es| && es[b].PortBegin? && !PortRefused(es[b]) && es[b].Key() == es[n].Key()
    && forall j :: b < j < n && es[j].Key() == es[n].Key() ==> PortRefused(es[j])
  }

  /** End `n` matches begin `b` in interface, operation and policy, but comes too late. */
  ghost predicate PortOverran(es: seq<PortEvent>, b: int, n: int) {
    && 0 <= b < n < |es| && es[b].PortBegin? && es[n].PortEnd? && es[b].c.Some?
    && var x, y := es[b], es[n];
    && RawPortMatches(y.c, RawPortOperation(x.env.now, x.c.value.rawPortProbeEpoch, x.call.ifindex, x.call.operation),
                      y.call, y.env.tgid)
    && x.env.now <= y.env.now && y.env.now - x.env.now > y.c.value.rawPortStallThresholdNs
  }

  lemma LatestIsInForce(es: seq<PortEvent>, b: int, n: nat)
    requires n < |es|
    ensures LatestBegin(es, b, n) <==> InForce(PortStamps(es), b, n, es[n].Key())
  {
    hide RawPortBeginAllowed;
    forall j | 0 <= j < n ensures Touches(PortStamps(es)[j], es[n].Key()) <==> es[j].Key() == es[n].Key() && !PortRefused(es[j]) {
      assert PortStamps(es)[j] == es[j].Stamp();
    }
    if 0 <= b < n { assert PortStamps(es)[b] == es[b].Stamp(); }
  }

  lemma PortStored(es: seq<PortEvent>, b: int, n: nat)
    requires n < |es| && LatestBegin(es, b, n)
    ensures Lookup(TableAfter(PortStamps(es)[..n]), es[n].Key())
         == Some(RawPortOperation(es[b].env.now, es[b].c.value.rawPortProbeEpoch, es[b].call.ifindex, es[b].call.operation))
  {
    hide TableAfter;
    LatestIsInForce(es, b, n);
    assert PortStamps(es)[b] == es[b].Stamp();
    StoredIff(PortStamps(es), n, es[n].Key(), PortStamps(es)[b].value);
  }

  /** An end emits a stall record if and only if the task's latest begin matches it
      and lies more than the threshold back. */
  lemma RawPortStallIff(es: seq<PortEvent>, n: nat)
    requires n < |es|
    ensures PortRecord(es, n).Some? <==> exists b :: LatestBegin(es, b, n) && PortOverran(es, b, n)
  {
    hide RawPortMatches, TableAfter, InForce, LatestBegin;
    if b :| LatestBegin(es, b, n) && PortOverran(es, b, n) { PortStored(es, b, n); }
    if PortRecord(es, n).Some? {
      var op := Lookup(TableAfter(PortStamps(es)[..n]), es[n].Key()).value;
      StoredIff(PortStamps(es), n, es[n].Key(), op);
      var b :| InForce(PortStamps(es), b, n, es[n].Key());
      LatestIsInForce(es, b, n);
      PortStored(es, b, n);
      LatestFacts(es, b, n);
    }
  }

  lemma LatestFacts(es: seq<PortEvent>, b: int, n: int)
    requires LatestBegin(es, b, n)
    ensures 0 <= b < n && es[b].PortBegin? && es[b].c.Some?
  {
  }

  /** The record tells how long the operation took and on which interface. */
  lemma RawPortStallTells(es: seq<PortEvent>, b: int, n: nat)
    requires LatestBegin(es, b, n) && PortOverran(es, b, n)
    ensures var r := PortRecord(es, n);
            var duration := es[n].env.now - es[b].env.now;
            && r.Some? && Tells(r.value, Ev.RawPortStall, duration, es[n].c.value.rawPortStallThresholdNs, duration, 1)
            && r.value.netdevIfindex == es[b].call.ifindex && r.value.pid == es[b].env.tgid && r.value.tid == es[b].env.tid
            && r.value.detail == es[n].call.outcome * 16 + es[b].call.operation
  {
    PortStored(es, b, n);
    hide TableAfter, Ev.Classify;
    EmittedIsReportable(RawPortClosed(Lookup(TableAfter(PortStamps(es)[..n]), es[n].Key()), es[n].call), es[n].c.value, es[n].env);
  }

  /** No begin is behind two records. */
  lemma RawPortStallsDistinct(es: seq<PortEvent>, b: int, m: nat, b': int, n: nat)
    requires m != n && LatestBegin(es, b, m) && PortOverran(es, b, m) && LatestBegin(es, b', n) && PortOverran(es, b', n)
    ensures b != b'
  {
  }

  // ---------------------------------------------------------------- scheduler

  datatype SchedEvent =
    | Wakeup(c: Option<Context>, pid: u32, env: Env)
    | Switch(c: Option<Context>, pid: u32, env: Env)
  {
    function Stamp(): Stamp<u32, u64> { if Wakeup? then WakeupStamp(c, pid, env) else SwitchStamp(c, pid) }
  }

  ghost function SchedStamps(es: seq<SchedEvent>): seq<Stamp<u32, u64>> {
    seq(|es|, i requires 0 <= i < |es| => es[i].Stamp())
  }

  ghost function SchedRecord(es: seq<SchedEvent>, n: nat): Option<RawRecord>
    requires n < |es|
  {
    if es[n].Switch?
    then DispatchRecord(es[n].c, Lookup(TableAfter(SchedStamps(es)[..n]), es[n].pid), es[n].pid, es[n].env)
    else None
  }

  /** Wakeup `b` of the task that event `n` switches to: seen by the tracker, with no
      tracked wakeup or switch of that task since. */
  ghost predicate LatestWakeup(es: seq<SchedEvent>, b: int, n: int) {
    && 0 <= b < n < |es| && es[b].Wakeup? && es[b].pid == es[n].pid && !es[b].Stamp().Nothing?
    && forall j :: b < j < n && es[j].pid == es[n].pid ==> es[j].Stamp().Nothing?
  }

  lemma WakeupInForce(es: seq<SchedEvent>, b: int, n: nat)
    requires n < |es|
    ensures LatestWakeup(es, b, n) <==> InForce(SchedStamps(es), b, n, es[n].pid)
    ensures LatestWakeup(es, b, n) ==> SchedStamps(es)[b].value == es[b].env.now
  {
    forall j | 0 <= j < n ensures Touches(SchedStamps(es)[j], es[n].pid) <==> es[j].pid == es[n].pid && !es[j].Stamp().Nothing? {
      assert SchedStamps(es)[j] == es[j].Stamp();
    }
    if 0 <= b < n { assert SchedStamps(es)[b] == es[b].Stamp(); }
  }

  /** A switch emits a latency record if and only if it is tracked and the task's
      latest wakeup lies more than the threshold back on the wrapping clock; the
      record tells that latency and the task. */
  lemma LatencyRecordIff(es: seq<SchedEvent>, n: nat)
    requires n < |es|
    ensures SchedRecord(es, n).Some? <==>
            && es[n].Switch? && es[n].c.Some? && es[n].c.value.TracksScheduler(es[n].pid)
            && exists b :: LatestWakeup(es, b, n)
                           && Waited(es[n].env.now, es[b].env.now) > es[n].c.value.schedulerLatencyThresholdNs
    ensures forall b :: LatestWakeup(es, b, n) && SchedRecord(es, n).Some? ==>
            var r, latency := SchedRecord(es, n).value, Waited(es[n].env.now, es[b].env.now);
            r.tid == es[n].pid
            && Tells(r, Ev.SchedulerRunqueueLatency, latency, es[n].c.value.schedulerLatencyThresholdNs, latency, 1)
  {
    var woken := Lookup(TableAfter(SchedStamps(es)[..n]), es[n].pid);
    if es[n].Switch? && es[n].c.Some? { EmittedIsReportable(Dispatched(woken, es[n].pid), es[n].c.value, es[n].env); }
    hide TableAfter, InForce, LatestWakeup, Reportable, Context.TracksScheduler;
    forall b | LatestWakeup(es, b, n) ensures 0 <= b < n && woken == Some(es[b].env.now) {
      WakeupInForce(es, b, n);
      StoredIff(SchedStamps(es), n, es[n].pid, es[b].env.now);
      InForceFacts(SchedStamps(es), b, n, es[n].pid);
    }
    if woken.Some? {
      StoredIff(SchedStamps(es), n, es[n].pid, woken.value);
      var b :| InForce(SchedStamps(es), b, n, es[n].pid);
      WakeupInForce(es, b, n);
    }
  }

  lemma InForceFacts<K, V>(es: seq<Stamp<K, V>>, b: int, n: int, key: K)
    requires InForce(es, b, n, key)
    ensures 0 <= b < n <= |es|
  {
  }

  // --------------------------------------------------------------- interrupts

  datatype IrqEvent =
    | Entry(c: Option<Context>, soft: bool, vector: u32, env: Env)
    | Exit(c: Option<Context>, soft: bool, vector: u32, env: Env)
  {
    function Key(): PerCpuKey { PerCpuKey(env.cpu, vector) }

    /** What the event does to the table of hard or of soft interrupts. */
    function Stamp(softTable: bool): Stamp<PerCpuKey, u64> {
      if soft != softTable then Nothing
      else if Entry? then EntryStamp(c, vector, env) else Finish(Key())
    }
  }

  ghost function IrqStamps(es: seq<IrqEvent>, soft: bool): seq<Stamp<PerCpuKey, u64>> {
    seq(|es|, i requires 0 <= i < |es| => es[i].Stamp(soft))
  }

  ghost function IrqRecord(es: seq<IrqEvent>, n: nat): Option<RawRecord>
    requires n < |es|
  {
    if es[n].Exit?
    then ExitRecord(es[n].c, Lookup(TableAfter(IrqStamps(es, es[n].soft)[..n]), es[n].Key()), es[n].soft,
                    es[n].vector, es[n].env)
    else None
  }

  /** Entry `b` on the same CPU and vector and of the same sort as event `n`, tracked,
      with no exit and no tracked entry of those since. */
  ghost predicate LatestEntry(es: seq<IrqEvent>, b: int, n: int) {
    && 0 <= b < n < |es| && es[b].Entry? && es[b].Key() == es[n].Key() && !es[b].Stamp(es[n].soft).Nothing?
    && forall j :: b < j < n && es[j].Key() == es[n].Key() ==> es[j].Stamp(es[n].soft).Nothing?
  }

  lemma EntryInForce(es: seq<IrqEvent>, b: int, n: nat)
    requires n < |es|
    ensures LatestEntry(es, b, n) <==> InForce(IrqStamps(es, es[n].soft), b, n, es[n].Key())
    ensures LatestEntry(es, b, n) ==> IrqStamps(es, es[n].soft)[b].value == es[b].env.now
  {
    var stamps := IrqStamps(es, es[n].soft);
    forall j | 0 <= j < n
      ensures Touches(stamps[j], es[n].Key()) <==> es[j].Key() == es[n].Key() && !es[j].Stamp(es[n].soft).Nothing?
    {
      assert stamps[j] == es[j].Stamp(es[n].soft);
    }
    if 0 <= b < n { assert stamps[b] == es[b].Stamp(es[n].soft); }
  }

  /** The stored start is the time of the latest entry, if there is one. */
  lemma EntryStored(es: seq<IrqEvent>, n: nat)
    requires n < |es|
    ensures var start := Lookup(TableAfter(IrqStamps(es, es[n].soft)[..n]), es[n].Key());
            && (forall b :: LatestEntry(es, b, n) ==> 0 <= b < n && start == Some(es[b].env.now))
            && (start.Some? ==> exists b :: LatestEntry(es, b, n))
  {
    var stamps, key := IrqStamps(es, es[n].soft), es[n].Key();
    var start := Lookup(TableAfter(stamps[..n]), key);
    hide TableAfter, InForce, LatestEntry;
    forall b | LatestEntry(es, b, n) ensures 0 <= b < n && start == Some(es[b].env.now) {
      EntryInForce(es, b, n);
      InForceFacts(stamps, b, n, key);
      StoredIff(stamps, n, key, es[b].env.now);
    }
    if start.Some? {
      StoredIff(stamps, n, key, start.value);
      var b :| InForce(stamps, b, n, key);
      EntryInForce(es, b, n);
    }
  }

  /** An exit emits an overrun record if and only if its handler entered more than
      the threshold ago; hard and soft interrupts never mix. */
  lemma OverrunRecordIff(es: seq<IrqEvent>, n: nat)
    requires n < |es|
    ensures IrqRecord(es, n).Some? <==>
            && es[n].Exit? && es[n].c.Some?
            && exists b :: LatestEntry(es, b, n) && es[b].env.now <= es[n].env.now
                           && es[n].env.now - es[b].env.now > DurationLimit(es[n].c.value, es[n].soft)
    ensures forall b :: LatestEntry(es, b, n) && IrqRecord(es, n).Some? ==>
            var r, duration := IrqRecord(es, n).value, es[n].env.now - es[b].env.now;
            && duration > 0 && r.irq == Narrow16(es[n].vector)
            && Tells(r, if es[n].soft then Ev.SoftirqCpuTime else Ev.IrqCpuTime, duration,
                     DurationLimit(es[n].c.value, es[n].soft), duration, 1)
  {
    var start := Lookup(TableAfter(IrqStamps(es, es[n].soft)[..n]), es[n].Key());
    if es[n].Exit? && es[n].c.Some? {
      EmittedIsReportable(Interrupted(start, es[n].soft, es[n].vector), es[n].c.value, es[n].env);
    }
    EntryStored(es, n);
    hide TableAfter, LatestEntry, Reportable, Identified, Decode;
  }
}
