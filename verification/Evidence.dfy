/** Runtime evidence, incidents and the classification of one by the other. */
module Evidence {
  import opened Machine

  datatype EvidenceDomain =
    | KernelScheduler | KernelIrq | KernelNetwork | KernelMemory | KernelProcess
    | UserEsop | UserRos | UserZenoh | Correlator

  datatype EvidenceKind =
    | SchedulerRunqueueLatency | IrqCpuTime | NetworkDrop | PageFault | OomKill | ProcessExit
    | CpuThrottle | GatewayStall | AgentCapabilityFailure | SoftirqCpuTime | CpuMigration
    | RawPortStall

  datatype IncidentCode =
    | HostSchedulerStall | HostIrqStorm | HostNicDrop | HostPageFault | HostOom
    | UserComponentExit | HostCpuThrottle | GatewayStalled | ObservabilityDegraded | HostPortStall

  datatype Severity = Info | Warning | Error | Critical {
    function Rank(): nat { match this case Info => 0 case Warning => 1 case Error => 2 case Critical => 3 }
  }

  datatype Action = ContinueObserve | DegradeHostObservation | ControlledStop | LatchFault {
    function Rank(): nat {
      match this
      case ContinueObserve => 0 case DegradeHostObservation => 1
      case ControlledStop => 2 case LatchFault => 3
    }
  }

  function MaxSeverity(left: Severity, right: Severity): Severity {
    if right.Rank() > left.Rank() then right else left
  }

  function MaxAction(left: Action, right: Action): Action {
    if right.Rank() > left.Rank() then right else left
  }

  datatype RuntimeEvidence = RuntimeEvidence(
    evidenceId: u64, bootId: u64, agentEpoch: u64, timestampNs: u64, cycleSeq: u64,
    transitionSeq: u64, pid: u32, tid: u32, cpu: u16, irq: u16, netdevIfindex: u32,
    observedValue: u64, threshold: u64, durationNs: u64, count: u32,
    domain: EvidenceDomain, kind: EvidenceKind, severity: Severity, detail: u8)

  const EMPTY_EVIDENCE := RuntimeEvidence(
    0, 0, 0, 0, 0, 0, 0, 0, 0, 0, 0, 0, 0, 0, 0, Correlator, AgentCapabilityFailure, Info, 0)

  datatype CycleContext = CycleContext(
    bootId: u64, cycleSeq: u64, transitionSeq: u64, timestampNs: u64,
    deadlineMiss: u8, wkcBad: u8, dcBad: u8)
  {
    predicate HasTransportRisk() { deadlineMiss != 0 || wkcBad != 0 || dcBad != 0 }
  }

  const EMPTY_CYCLE := CycleContext(0, 0, 0, 0, 0, 0, 0)

  datatype Class = Class(code: IncidentCode, severity: Severity, action: Action, confidence: u8)

  predicate OverThreshold(e: RuntimeEvidence) { e.observedValue > e.threshold }

  predicate DurationOverThreshold(e: RuntimeEvidence) {
    e.threshold > 0 && e.durationNs > e.threshold && e.observedValue == e.durationNs
  }

  predicate EnoughCount(e: RuntimeEvidence) {
    e.threshold > 0 && e.count > 0 && e.count >= e.threshold
  }

  /** The incident a piece of evidence is reported as, if any. No incident ever
      recommends merely to go on observing; what is reported without correlation
      does not depend on measured values; and critical incidents, which are those of
      a killed or exited process, are the ones that latch a fault. */
  function Classify(e: RuntimeEvidence, correlated: bool): (r: Option<Class>)
    ensures r.Some? ==> r.value.action != ContinueObserve && r.value.severity.Rank() >= 1
    ensures !correlated ==> (r.Some? <==> e.kind.OomKill? || e.kind.ProcessExit? || e.kind.AgentCapabilityFailure?)
    ensures r.Some? ==> (r.value.action == LatchFault <==> r.value.severity == Critical)
                        && (r.value.severity == Critical <==> e.kind.OomKill? || e.kind.ProcessExit?)
  {
    match e.kind
    case SchedulerRunqueueLatency =>
      if OverThreshold(e) && correlated
      then Some(Class(HostSchedulerStall, Error, ControlledStop, 70)) else None
    case CpuMigration =>
      if EnoughCount(e) && e.observedValue == e.count && correlated
      then Some(Class(HostSchedulerStall, Warning, DegradeHostObservation, 60)) else None
    case IrqCpuTime =>
      if OverThreshold(e) && correlated
      then Some(Class(HostIrqStorm, Error, ControlledStop, 70)) else None
    case SoftirqCpuTime =>
      if OverThreshold(e) && correlated
      then Some(Class(HostIrqStorm, Error, ControlledStop, 70)) else None
    case NetworkDrop =>
      if EnoughCount(e) && correlated
      then Some(Class(HostNicDrop, Error, ControlledStop, 75)) else None
    case PageFault =>
      if EnoughCount(e) && correlated
      then Some(Class(HostPageFault, Warning, DegradeHostObservation, 65)) else None
    case OomKill => Some(Class(HostOom, Critical, LatchFault, 100))
    case ProcessExit => Some(Class(UserComponentExit, Critical, LatchFault, 100))
    case CpuThrottle =>
      if 0 < e.observedValue < e.threshold && correlated
      then Some(Class(HostCpuThrottle, Error, DegradeHostObservation, 70)) else None
    case GatewayStall =>
      if DurationOverThreshold(e) && correlated
      then Some(Class(GatewayStalled, Error, ControlledStop, 75)) else None
    case RawPortStall =>
      if DurationOverThreshold(e) && correlated
      then Some(Class(HostPortStall, Error, ControlledStop, 80)) else None
    case AgentCapabilityFailure =>
      Some(Class(ObservabilityDegraded, Warning, DegradeHostObservation, 100))
  }
}
