/** What the kernel probe handlers do, as functions of what they read: the entry a
    handler leaves in its map and the record it hands to the ring buffer. */
module ProbeSteps {
  import opened Machine
  import opened ThresholdWindows
  import opened StartStamps
  import Bits
  import Ev = Evidence

  const ANY_CPU: u16 := 0xffff
  const ANY_VECTOR: u32 := 0xffff_ffff

  datatype Context = Context(
    bootId: u64, agentEpoch: u64, cycleSeq: u64, transitionSeq: u64, trackedPid: u32,
    networkIfindex: u32, schedulerLatencyThresholdNs: u64, pageFaultThreshold: u64,
    pageFaultWindowNs: u64, networkDropThreshold: u64, networkDropWindowNs: u64,
    irqDurationThresholdNs: u64, softirqDurationThresholdNs: u64, networkProtocol: u16,
    interruptFilterCpu: u16, interruptFilterVector: u32, cpuFrequencyFloorKhz: u32,
    cpuFrequencyPolicyCpu: u32, cpuFrequencyPolicyEpoch: u32, schedulerTid: u32,
    schedulerMigrationEpoch: u32, schedulerMigrationThreshold: u64,
    schedulerMigrationWindowNs: u64, gatewayStallThresholdNs: u64, gatewayProbeEpoch: u32,
    rawPortStallThresholdNs: u64, rawPortProbeEpoch: u32)
  {
    predicate Tracks(pid: u32) { trackedPid == 0 || trackedPid == pid }

    predicate TracksScheduler(tid: u32) {
      var target := if schedulerTid == 0 then trackedPid else schedulerTid;
      target == 0 || target == tid
    }

    predicate TracksInterrupt(cpu: u32, vector: u32) {
      && (interruptFilterCpu == ANY_CPU || interruptFilterCpu == cpu)
      && (interruptFilterVector == ANY_VECTOR || interruptFilterVector == vector)
    }
  }

  /** What a handler reads of its surroundings: the current task and CPU, the clock
      when it looks at its map and the clock when it emits, and whether the ring
      buffer and the map have room for it. */
  datatype Env = Env(
    tgid: u32, tid: u32, cpu: u32, now: u64, stamp: u64, delivered: bool, room: bool)

  /** A record as it crosses the ring buffer, with coded enumerations. */
  datatype RawRecord = RawRecord(
    evidenceId: u64, bootId: u64, agentEpoch: u64, timestampNs: u64, cycleSeq: u64,
    transitionSeq: u64, pid: u32, tid: u32, cpu: u16, irq: u16, netdevIfindex: u32,
    observedValue: u64, threshold: u64, durationNs: u64, count: u32,
    domain: u8, kind: u8, severity: u8, detail: u8)

  function Stamped(
    c: Context, env: Env, id: u64, domain: u8, kind: u8, severity: u8, observed: u64, threshold: u64,
    duration: u64, count: u32, irq: u16, ifindex: u32, detail: u8, pid: u32, tid: u32, cpu: u16): RawRecord
  {
    RawRecord(if id == 0 then env.stamp else id, c.bootId, c.agentEpoch, env.stamp, c.cycleSeq,
              c.transitionSeq, pid, tid, cpu, irq, ifindex, observed, threshold, duration, count,
              domain, kind, severity, detail)
  }

  function Narrow16(x: u32): u16 { Min(x, 0xffff) }

  function Narrow8(x: u64): u8 { Min(x, 0xff) }

  // ------------------------------------------------------- user-space decoding

  function DecodeDomain(v: u8): Option<Ev.EvidenceDomain> {
    match v
    case 0 => Some(Ev.KernelScheduler) case 1 => Some(Ev.KernelIrq) case 2 => Some(Ev.KernelNetwork)
    case 3 => Some(Ev.KernelMemory) case 4 => Some(Ev.KernelProcess) case 5 => Some(Ev.UserEsop)
    case 6 => Some(Ev.UserRos) case 7 => Some(Ev.UserZenoh) case 8 => Some(Ev.Correlator)
    case _ => None
  }

  function DecodeKind(v: u8): Option<Ev.EvidenceKind> {
    match v
    case 0 => Some(Ev.SchedulerRunqueueLatency) case 1 => Some(Ev.IrqCpuTime)
    case 2 => Some(Ev.NetworkDrop) case 3 => Some(Ev.PageFault) case 4 => Some(Ev.OomKill)
    case 5 => Some(Ev.ProcessExit) case 6 => Some(Ev.CpuThrottle) case 7 => Some(Ev.GatewayStall)
    case 8 => Some(Ev.AgentCapabilityFailure) case 9 => Some(Ev.SoftirqCpuTime)
    case 10 => Some(Ev.CpuMigration) case 11 => Some(Ev.RawPortStall)
    case _ => None
  }

  function DecodeSeverity(v: u8): Option<Ev.Severity> {
    match v
    case 0 => Some(Ev.Info) case 1 => Some(Ev.Warning) case 2 => Some(Ev.Error) case 3 => Some(Ev.Critical)
    case _ => None
  }

  function Decode(r: RawRecord): Option<Ev.RuntimeEvidence> {
    var d, k, s := DecodeDomain(r.domain), DecodeKind(r.kind), DecodeSeverity(r.severity);
    if d.None? || k.None? || s.None? then None
    else Some(Ev.RuntimeEvidence(
      r.evidenceId, r.bootId, r.agentEpoch, r.timestampNs, r.cycleSeq, r.transitionSeq, r.pid, r.tid,
      r.cpu, r.irq, r.netdevIfindex, r.observedValue, r.threshold, r.durationNs, r.count,
      d.value, k.value, s.value, r.detail))
  }

  /** The agent can decode this record, and classifies it whenever it correlates. */
  ghost predicate Reportable(r: RawRecord) {
    Decode(r).Some? && Ev.Classify(Decode(r).value, true).Some?
  }

  /** A record is emitted or lost, whichever the ring buffer decides. */
  function Emissions(record: Option<RawRecord>, env: Env): nat { if record.Some? && env.delivered then 1 else 0 }

  function Losses(record: Option<RawRecord>, env: Env): nat { if record.Some? && !env.delivered then 1 else 0 }

  // ------------------------------------------------------- gateway operations

  datatype OperationClass = Publish | Callback {
    predicate Routes(route: u32) {
      match this case Publish => 0 <= route <= 2 case Callback => 3 <= route <= 4
    }

    function Outcomes(): nat { match this case Publish => 0x7 case Callback => 0x5 }
  }

  datatype GatewayKey = GatewayKey(requestId: u64, tgid: u32)

  datatype GatewayOperation = GatewayOperation(
    startNs: u64, policyEpoch: u32, startTid: u32, routeKind: u32, class_: OperationClass)

  datatype GatewayCall = GatewayCall(class_: OperationClass, requestId: u64, route: u32, outcome: u32)

  predicate GatewayBeginAllowed(c: Option<Context>, call: GatewayCall, tgid: u32) {
    && c.Some? && c.value.gatewayStallThresholdNs != 0 && call.requestId != 0
    && call.class_.Routes(call.route) && c.value.Tracks(tgid)
  }

  function GatewayBegun(c: Context, call: GatewayCall, env: Env): GatewayOperation {
    GatewayOperation(env.now, c.gatewayProbeEpoch, env.tid, call.route, call.class_)
  }

  /** Do the end probe's arguments and policy match the operation it closes? */
  predicate GatewayMatches(c: Option<Context>, op: GatewayOperation, call: GatewayCall) {
    && c.Some? && c.value.gatewayStallThresholdNs != 0 && call.class_.Routes(call.route)
    && call.outcome <= 2 && Bits.And(call.class_.Outcomes(), Bits.OneBit(call.outcome)) != 0
    && call.route == op.routeKind && call.class_ == op.class_
    && op.policyEpoch == c.value.gatewayProbeEpoch
  }

  function GatewayStallRecord(c: Context, op: GatewayOperation, call: GatewayCall, env: Env): RawRecord
    requires env.now >= op.startNs && call.outcome <= 2 && call.class_.Routes(call.route)
  {
    var duration := env.now - op.startNs;
    Stamped(c, env, call.requestId, 7, 7, 2, duration, c.gatewayStallThresholdNs, duration, 1, 0, 0,
            call.outcome * 16 + call.route, env.tgid, if op.startTid == env.tid then env.tid else 0,
            Narrow16(env.cpu))
  }

  /** The record that closing an operation puts on the ring buffer, if any. */
  function GatewayStall(c: Option<Context>, op: GatewayOperation, call: GatewayCall, env: Env): Option<RawRecord> {
    if GatewayMatches(c, op, call) && env.now >= op.startNs
       && env.now - op.startNs > c.value.gatewayStallThresholdNs
    then Some(GatewayStallRecord(c.value, op, call, env)) else None
  }

  type GatewayTable = map<GatewayKey, GatewayOperation>

  predicate GatewayOpens(t: GatewayTable, c: Option<Context>, call: GatewayCall, env: Env) {
    GatewayBeginAllowed(c, call, env.tgid) && GatewayKey(call.requestId, env.tgid) !in t && env.room
  }

  function GatewayOpened(t: GatewayTable, c: Option<Context>, call: GatewayCall, env: Env): GatewayTable {
    if GatewayOpens(t, c, call, env)
    then t[GatewayKey(call.requestId, env.tgid) := GatewayBegun(c.value, call, env)] else t
  }

  predicate GatewayCloses(t: GatewayTable, call: GatewayCall, env: Env) {
    call.requestId != 0 && GatewayKey(call.requestId, env.tgid) in t
  }

  // ---------------------------------------------------- raw port operations

  datatype RawPortOperation = RawPortOperation(startNs: u64, policyEpoch: u32, ifindex: u32, operation: u32)

  datatype RawPortCall = RawPortCall(ifindex: u32, operation: u32, outcome: u32)

  datatype TaskKey = TaskKey(tgid: u32, tid: u32)

  predicate RawPortBeginAllowed(c: Option<Context>, call: RawPortCall, tgid: u32) {
    && c.Some? && c.value.rawPortStallThresholdNs != 0 && call.ifindex != 0
    && call.operation <= 1 && c.value.Tracks(tgid)
  }

  /** A new operation of a task replaces one it never closed. */
  function RawPortBegun(c: Option<Context>, call: RawPortCall, env: Env): Stamp<TaskKey, RawPortOperation> {
    if RawPortBeginAllowed(c, call, env.tgid) && env.room
    then Start(TaskKey(env.tgid, env.tid),
               RawPortOperation(env.now, c.value.rawPortProbeEpoch, call.ifindex, call.operation))
    else Nothing
  }

  predicate RawPortMatches(c: Option<Context>, op: RawPortOperation, call: RawPortCall, tgid: u32) {
    && c.Some? && c.value.rawPortStallThresholdNs != 0 && c.value.Tracks(tgid)
    && call.ifindex != 0 && call.operation <= 1 && call.outcome <= 3
    && Bits.And(if call.operation == 0 then 0x7 else 0xf, Bits.OneBit(call.outcome)) != 0
    && call.ifindex == op.ifindex && call.operation == op.operation
    && op.policyEpoch == c.value.rawPortProbeEpoch
  }

  function RawPortStall(c: Option<Context>, op: Option<RawPortOperation>, call: RawPortCall, env: Env): Option<RawRecord> {
    if op.Some? && RawPortMatches(c, op.value, call, env.tgid) && env.now >= op.value.startNs
       && env.now - op.value.startNs > c.value.rawPortStallThresholdNs
    then
      var duration := env.now - op.value.startNs;
      Some(Stamped(c.value, env, op.value.startNs, 5, 11, 2, duration, c.value.rawPortStallThresholdNs,
                   duration, 1, 0, op.value.ifindex, call.outcome * 16 + call.operation, env.tgid, env.tid,
                   Narrow16(env.cpu)))
    else None
  }

  // ------------------------------------------------------ scheduler latency

  function WakeupStamp(c: Option<Context>, pid: u32, env: Env): Stamp<u32, u64> {
    if c.Some? && c.value.TracksScheduler(pid) && env.room then Start(pid, env.now) else Nothing
  }

  function SwitchStamp(c: Option<Context>, pid: u32): Stamp<u32, u64> {
    if c.Some? && c.value.TracksScheduler(pid) then Finish(pid) else Nothing
  }

  /** Unsigned difference of two clock readings. */
  function Waited(now: u64, since: u64): u64 { (now - since) % 0x1_0000_0000_0000_0000 }

  function DispatchRecord(c: Option<Context>, woken: Option<u64>, pid: u32, env: Env): Option<RawRecord> {
    if c.Some? && c.value.TracksScheduler(pid) && woken.Some?
       && Waited(env.now, woken.value) > c.value.schedulerLatencyThresholdNs
    then
      var latency := Waited(env.now, woken.value);
      Some(Stamped(c.value, env, 0, 0, 0, 2, latency, c.value.schedulerLatencyThresholdNs, latency, 1, 0, 0, 0,
                   0, pid, Narrow16(env.cpu)))
    else None
  }

  // ------------------------------------------------------ windowed counters

  datatype PerCpuKey = PerCpuKey(cpu: u32, id: u32)

  predicate FaultCounted(c: Option<Context>, env: Env) {
    c.Some? && c.value.Tracks(env.tgid) && c.value.pageFaultThreshold != 0 && c.value.pageFaultWindowNs != 0
  }

  function FaultHit(c: Context, prior: Option<Window>, env: Env): Hit {
    OnHit(prior, env.now, c.pageFaultWindowNs, c.pageFaultThreshold)
  }

  /** The windows after a fault; a new one needs room. */
  function FaultTable(t: map<PerCpuKey, Window>, c: Option<Context>, env: Env): map<PerCpuKey, Window> {
    var key := PerCpuKey(env.cpu, env.tgid);
    if FaultCounted(c, env) && (key in t || env.room)
    then t[key := FaultHit(c.value, Lookup(t, key), env).window] else t
  }

  function FaultRecord(c: Option<Context>, prior: Option<Window>, errorCode: u64, env: Env): Option<RawRecord> {
    if !FaultCounted(c, env) || (prior.None? && !env.room) || !FaultHit(c.value, prior, env).crossed then None
    else
      var hit := FaultHit(c.value, prior, env);
      Some(Stamped(c.value, env, 0, 3, 3, 1, hit.window.count, c.value.pageFaultThreshold, hit.elapsed,
                   hit.window.count, 0, 0, Narrow8(errorCode), env.tgid, env.tid, Narrow16(env.cpu)))
  }

  datatype MigrationState = MigrationState(window: Window, policyEpoch: u32, originCpu: u16, destinationCpu: u16)

  datatype Move = Move(pid: i32, origin: i32, destination: i32, priority: i32) {
    predicate Sane() { pid > 0 && 0 <= origin <= 0xffff && 0 <= destination <= 0xffff && origin != destination }

    function Level(): u8 { if priority < 0 then 0 else Min(priority, 0xff) }
  }

  predicate MoveCounted(c: Option<Context>, m: Move) {
    && c.Some? && c.value.schedulerMigrationThreshold != 0 && c.value.schedulerMigrationWindowNs != 0
    && m.Sane() && c.value.TracksScheduler(m.pid)
  }

  /** A window of another policy epoch counts for nothing. */
  function MoveHit(c: Context, prior: Option<MigrationState>, env: Env): Hit {
    var w := if prior.Some? && prior.value.policyEpoch == c.schedulerMigrationEpoch then Some(prior.value.window) else None;
    OnHit(w, env.now, c.schedulerMigrationWindowNs, c.schedulerMigrationThreshold)
  }

  function MigrationTable(t: map<u32, MigrationState>, c: Option<Context>, m: Move, env: Env): map<u32, MigrationState> {
    if MoveCounted(c, m) && (m.pid in t || env.room)
    then t[m.pid := MigrationState(MoveHit(c.value, Lookup(t, m.pid), env).window, c.value.schedulerMigrationEpoch,
                                   m.origin, m.destination)]
    else t
  }

  function MoveRecord(c: Option<Context>, prior: Option<MigrationState>, m: Move, env: Env): Option<RawRecord> {
    if !MoveCounted(c, m) || (prior.None? && !env.room) || !MoveHit(c.value, prior, env).crossed then None
    else
      var hit := MoveHit(c.value, prior, env);
      Some(Stamped(c.value, env, 0, 0, 10, 1, hit.window.count, c.value.schedulerMigrationThreshold, hit.elapsed,
                   hit.window.count, m.origin, 0, m.Level(), 0, m.pid, m.destination))
  }

  predicate DropCounted(c: Option<Context>, protocol: u16, ifindex: u32) {
    && c.Some? && protocol == c.value.networkProtocol && ifindex != 0
    && (c.value.networkIfindex == 0 || c.value.networkIfindex == ifindex)
  }

  function DropHit(c: Context, prior: Option<Window>, env: Env): Hit {
    OnHit(prior, env.now, c.networkDropWindowNs, c.networkDropThreshold)
  }

  function DropTable(t: map<PerCpuKey, Window>, c: Option<Context>, protocol: u16, ifindex: u32, env: Env)
    : map<PerCpuKey, Window>
  {
    var key := PerCpuKey(env.cpu, ifindex);
    if DropCounted(c, protocol, ifindex) && (key in t || env.room)
    then t[key := DropHit(c.value, Lookup(t, key), env).window] else t
  }

  function DropRecord(c: Option<Context>, prior: Option<Window>, protocol: u16, ifindex: u32, reason: u32, env: Env)
    : Option<RawRecord>
  {
    if !DropCounted(c, protocol, ifindex) || (prior.None? && !env.room)
       || DropHit(c.value, prior, env).window.count != c.value.networkDropThreshold then None
    else
      var hit := DropHit(c.value, prior, env);
      Some(Stamped(c.value, env, 0, 2, 2, 2, hit.window.count, c.value.networkDropThreshold, hit.elapsed,
                   hit.window.count, 0, ifindex, Narrow8(reason), 0, 0, Narrow16(env.cpu)))
  }

  // --------------------------------------------------------- frequency limits

  datatype FrequencyState = FrequencyState(maxFrequencyKhz: u32, policyEpoch: u32, belowFloor: bool)

  predicate LimitCounted(c: Option<Context>, policyCpu: u32, khz: u32) {
    && c.Some? && c.value.cpuFrequencyFloorKhz != 0 && khz != 0
    && (c.value.cpuFrequencyPolicyCpu == ANY_VECTOR || c.value.cpuFrequencyPolicyCpu == policyCpu)
  }

  function LimitState(c: Context, khz: u32): FrequencyState {
    FrequencyState(khz, c.cpuFrequencyPolicyEpoch, khz < c.cpuFrequencyFloorKhz)
  }

  function FrequencyTable(t: map<u32, FrequencyState>, c: Option<Context>, policyCpu: u32, khz: u32, env: Env)
    : map<u32, FrequencyState>
  {
    if LimitCounted(c, policyCpu, khz) && (policyCpu in t || env.room)
    then t[policyCpu := LimitState(c.value, khz)] else t
  }

  /** The cap is already known to be below the floor under the current policy. */
  predicate KnownBelow(c: Context, prior: Option<FrequencyState>) {
    prior.Some? && prior.value.belowFloor && prior.value.policyEpoch == c.cpuFrequencyPolicyEpoch
  }

  function LimitRecord(c: Option<Context>, prior: Option<FrequencyState>, policyCpu: u32, khz: u32, env: Env): Option<RawRecord> {
    if LimitCounted(c, policyCpu, khz) && (prior.Some? || env.room)
       && khz < c.value.cpuFrequencyFloorKhz && !KnownBelow(c.value, prior)
    then Some(Stamped(c.value, env, 0, 0, 6, 2, khz, c.value.cpuFrequencyFloorKhz, 0, 1, 0, 0, 0, 0, 0,
                      Narrow16(policyCpu)))
    else None
  }

  // --------------------------------------------------------------- interrupts

  function EntryStamp(c: Option<Context>, vector: u32, env: Env): Stamp<PerCpuKey, u64> {
    if c.Some? && c.value.TracksInterrupt(env.cpu, vector) && env.room
    then Start(PerCpuKey(env.cpu, vector), env.now) else Nothing
  }

  function DurationLimit(c: Context, soft: bool): u64 {
    if soft then c.softirqDurationThresholdNs else c.irqDurationThresholdNs
  }

  function ExitRecord(c: Option<Context>, start: Option<u64>, soft: bool, vector: u32, env: Env): Option<RawRecord> {
    if c.Some? && start.Some? && env.now >= start.value && env.now - start.value > DurationLimit(c.value, soft)
    then
      var duration := env.now - start.value;
      Some(Stamped(c.value, env, 0, 1, if soft then 9 else 1, 2, duration, DurationLimit(c.value, soft), duration,
                   1, Narrow16(vector), 0, 0, env.tgid, env.tid, Narrow16(env.cpu)))
    else None
  }

  // ---------------------------------------------------------------- processes

  function LeaderExit(c: Option<Context>, env: Env): Option<RawRecord> {
    if c.Some? && c.value.Tracks(env.tgid) && env.tid == env.tgid
    then Some(Stamped(c.value, env, 0, 4, 5, 3, 1, 1, 0, 1, 0, 0, 0, env.tgid, env.tid, Narrow16(env.cpu)))
    else None
  }

  function VictimRecord(c: Option<Context>, victim: i32, env: Env): Option<RawRecord> {
    if victim > 0 && c.Some? && c.value.Tracks(victim)
    then Some(Stamped(c.value, env, 0, 3, 4, 3, 1, 1, 0, 1, 0, 0, 0, victim, victim, Narrow16(env.cpu)))
    else None
  }

  // ------------------------------------------------- everything that is emitted

  /** A handler invocation with what it read from its map. */
  datatype Cause =
    | GatewayClosed(gateway: GatewayOperation, gatewayCall: GatewayCall)
    | RawPortClosed(port: Option<RawPortOperation>, portCall: RawPortCall)
    | Dispatched(woken: Option<u64>, pid: u32)
    | Migrated(migration: Option<MigrationState>, move: Move)
    | LeaderExited
    | Faulted(faults: Option<Window>, errorCode: u64)
    | Killed(victim: i32)
    | Dropped(drops: Option<Window>, protocol: u16, ifindex: u32, reason: u32)
    | Limited(limit: Option<FrequencyState>, policyCpu: u32, khz: u32)
    | Interrupted(start: Option<u64>, soft: bool, vector: u32)
  {
    function Record(c: Option<Context>, env: Env): Option<RawRecord> {
      match this
      case GatewayClosed(op, call) => GatewayStall(c, op, call, env)
      case RawPortClosed(op, call) => RawPortStall(c, op, call, env)
      case Dispatched(woken, pid) => DispatchRecord(c, woken, pid, env)
      case Migrated(prior, m) => MoveRecord(c, prior, m, env)
      case LeaderExited => LeaderExit(c, env)
      case Faulted(prior, errorCode) => FaultRecord(c, prior, errorCode, env)
      case Killed(victim) => VictimRecord(c, victim, env)
      case Dropped(prior, protocol, ifindex, reason) => DropRecord(c, prior, protocol, ifindex, reason, env)
      case Limited(prior, cpu, khz) => LimitRecord(c, prior, cpu, khz, env)
      case Interrupted(start, soft, vector) => ExitRecord(c, start, soft, vector, env)
    }

    function Kind(): Ev.EvidenceKind {
      match this
      case GatewayClosed(_, _) => Ev.GatewayStall
      case RawPortClosed(_, _) => Ev.RawPortStall
      case Dispatched(_, _) => Ev.SchedulerRunqueueLatency
      case Migrated(_, _) => Ev.CpuMigration
      case LeaderExited => Ev.ProcessExit
      case Faulted(_, _) => Ev.PageFault
      case Killed(_) => Ev.OomKill
      case Dropped(_, _, _, _) => Ev.NetworkDrop
      case Limited(_, _, _) => Ev.CpuThrottle
      case Interrupted(_, soft, _) => if soft then Ev.SoftirqCpuTime else Ev.IrqCpuTime
    }
  }

  /** Some handler that reads this context can emit this record. */
  ghost predicate Produced(r: RawRecord, c: Context, env: Env) { exists cause: Cause :: cause.Record(Some(c), env) == Some(r) }

  /** The record carries the boot, epoch and cycle of the context and its own time. */
  ghost predicate Identified(r: RawRecord, c: Context, env: Env) {
    && r.bootId == c.bootId && r.agentEpoch == c.agentEpoch && r.cycleSeq == c.cycleSeq
    && r.transitionSeq == c.transitionSeq && r.timestampNs == env.stamp
  }

  /** Whatever a handler emits, the agent decodes to that handler's kind and
      classifies when it correlates: no count, duration or threshold that reaches
      the ring buffer is refused on the other side. */
  lemma EmittedIsReportable(cause: Cause, c: Context, env: Env)
    ensures var r := cause.Record(Some(c), env);
            r.Some? ==> && Reportable(r.value) && Decode(r.value).value.kind == cause.Kind()
                        && Identified(r.value, c, env)
  {
    hide Bits.And, Bits.OneBit;
  }

  lemma ProducedIsReportable(r: RawRecord, c: Context, env: Env)
    requires Produced(r, c, env)
    ensures Reportable(r) && Identified(r, c, env)
  {
    hide Cause.Record, Reportable, Identified;
    var cause: Cause :| cause.Record(Some(c), env) == Some(r);
    EmittedIsReportable(cause, c, env);
  }
}
