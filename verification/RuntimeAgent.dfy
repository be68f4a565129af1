/** The observation agent: the correlator together with the health lease it
    projects into heartbeats. */
module RuntimeAgent {
  import opened Machine
  import opened Evidence
  import Bits
  import C = IncidentCorrelator
  import H = IncidentHistory

  const CAPABILITY_BTF := 1
  const CAPABILITY_RINGBUF := 2
  const CAPABILITY_VERIFIER := 4
  const CAPABILITY_PERMISSION := 8

  const FAULT_AGENT_CAPABILITY: u32 := 0x4542_1001
  const FAULT_AGENT_LOAD: u32 := 0x4542_1002
  const FAULT_AGENT_ATTACH: u32 := 0x4542_1003
  const FAULT_AGENT_EVENT_LOSS: u32 := 0x4542_1004
  const FAULT_INCIDENT_DEGRADED: u32 := 0x4542_2001
  const FAULT_INCIDENT_LATCHED: u32 := 0x4542_2002

  datatype AgentState = Starting | Healthy | Degraded | Failed | Restarting | Stopped

  datatype ObservationState = ObservedHealthy | ObservedDegraded | ObservedFailed

  datatype CapabilitySnapshot = CapabilitySnapshot(
    attachMask: u64, requiredAttachMask: u64, capabilityMask: u64, missingCapabilities: u64)
  {
    predicate AttachReady() {
      missingCapabilities == 0 && Bits.And(attachMask, requiredAttachMask) == requiredAttachMask
    }

    predicate HardLoadFailure() {
      Bits.And(capabilityMask, CAPABILITY_VERIFIER + CAPABILITY_PERMISSION)
      != CAPABILITY_VERIFIER + CAPABILITY_PERMISSION
    }
  }

  datatype Health = Health(
    bootId: u64, agentEpoch: u64, heartbeatSeq: u64, state: AgentState, attachMask: u64,
    lostEventCount: u32, incidentCount: u32, faultCode: u32, lastEventNs: u64)

  datatype HostObservation = HostObservation(
    bootId: u64, agentEpoch: u64, heartbeatSeq: u64, observedAtNs: u64, state: ObservationState,
    attachMask: u64, lostEventCount: u32, incidentCount: u32, faultCode: u32)

  function FreshHealth(bootId: u64, agentEpoch: u64): Health {
    Health(bootId, agentEpoch, 0, Starting, 0, 0, 0, 0, 0)
  }

  function SetCapabilities(h: Health, attachMask: u64, requiredMask: u64, btfOk: bool): Health {
    var h1 := h.(attachMask := attachMask);
    if !btfOk || Bits.And(attachMask, requiredMask) != requiredMask
    then h1.(state := Degraded, faultCode := FAULT_AGENT_CAPABILITY)
    else if h.lostEventCount != 0 then h1.(state := Degraded, faultCode := FAULT_AGENT_EVENT_LOSS)
    else h1.(state := Healthy, faultCode := 0)
  }

  function SetSnapshot(h: Health, s: CapabilitySnapshot): Health {
    var h1 := h.(attachMask := s.attachMask);
    if s.HardLoadFailure() then h1.(state := Failed, faultCode := FAULT_AGENT_LOAD)
    else if !s.AttachReady() then
      h1.(state := Degraded,
          faultCode := if s.missingCapabilities != 0 then FAULT_AGENT_CAPABILITY else FAULT_AGENT_ATTACH)
    else if h.lostEventCount != 0 then h1.(state := Degraded, faultCode := FAULT_AGENT_EVENT_LOSS)
    else h1.(state := Healthy, faultCode := 0)
  }

  function RecordEventLoss(h: Health, count: u32): Health {
    if count == 0 then h
    else
      var h1 := h.(lostEventCount := SatAdd32(h.lostEventCount, count));
      if h.state == Failed then h1 else h1.(state := Degraded, faultCode := FAULT_AGENT_EVENT_LOSS)
  }

  function ObserveIncident(h: Health, action: Action): Health {
    var h1 := h.(incidentCount := SatAdd32(h.incidentCount, 1));
    match action
    case ContinueObserve => h1
    case LatchFault => h1.(state := Failed, faultCode := FAULT_INCIDENT_LATCHED)
    case _ => if h.state == Failed then h1
              else h1.(state := Degraded, faultCode := FAULT_INCIDENT_DEGRADED)
  }

  function RestartHealth(h: Health, agentEpoch: u64): Health {
    Health(h.bootId, agentEpoch, 0, Restarting, 0, 0, 0, 0, 0)
  }

  function Observed(s: AgentState): ObservationState {
    match s
    case Healthy => ObservedHealthy
    case Failed => ObservedFailed
    case Stopped => ObservedFailed
    case _ => ObservedDegraded
  }

  function Beat(h: Health, now: u64): Health {
    h.(heartbeatSeq := NextNonzero64(h.heartbeatSeq), lastEventNs := now)
  }

  function Heartbeat(h: Health, now: u64): (Health, HostObservation) {
    var b := Beat(h, now);
    (b, HostObservation(b.bootId, b.agentEpoch, b.heartbeatSeq, now, Observed(b.state), b.attachMask,
                        b.lostEventCount, b.incidentCount, b.faultCode))
  }

  // ------------------------------------------------------------ the object

  class Agent {
    var health: Health
    const correlator: C.Correlator

    ghost predicate Valid()
      reads this, correlator, correlator.incidents
    {
      correlator.Valid()
    }

    constructor (capacity: nat, bootId: u64, agentEpoch: u64, windowNs: u64)
      ensures Valid() && fresh(correlator) && fresh(correlator.incidents)
      ensures correlator.incidents.Length == capacity
      ensures health == FreshHealth(bootId, agentEpoch)
      ensures correlator.Abstract() == C.Fresh(bootId, agentEpoch, windowNs)
    {
      health := FreshHealth(bootId, agentEpoch);
      correlator := new C.Correlator(capacity, bootId, agentEpoch, windowNs);
    }

    method Ingest(e: RuntimeEvidence) returns (r: C.Ingested)
      requires Valid()
      modifies this, correlator, correlator.incidents
      ensures Valid()
      ensures (correlator.Abstract(), r)
           == C.Ingest(correlator.incidents.Length, old(correlator.Abstract()), e)
      ensures health == if r.Ok? && r.value.Some?
                        then ObserveIncident(old(health), r.value.value.recommendedAction)
                        else old(health)
    {
      r := correlator.IngestEvidence(e);
      if r.Ok? && r.value.Some? {
        var incident := r.value.value;
        health := health.(incidentCount := SatAdd32(health.incidentCount, 1));
        match incident.recommendedAction {
          case ContinueObserve =>
          case LatchFault =>
            health := health.(state := Failed, faultCode := FAULT_INCIDENT_LATCHED);
          case _ =>
            if health.state != Failed {
              health := health.(state := Degraded, faultCode := FAULT_INCIDENT_DEGRADED);
            }
        }
      }
    }

    method RecordLoss(count: u32)
      requires Valid()
      modifies this
      ensures Valid() && health == RecordEventLoss(old(health), count)
    {
      if count == 0 { return; }
      health := health.(lostEventCount := SatAdd32(health.lostEventCount, count));
      if health.state != Failed {
        health := health.(state := Degraded, faultCode := FAULT_AGENT_EVENT_LOSS);
      }
    }

    method ApplySnapshot(s: CapabilitySnapshot)
      requires Valid()
      modifies this
      ensures Valid() && health == SetSnapshot(old(health), s)
    {
      health := health.(attachMask := s.attachMask);
      if s.HardLoadFailure() {
        health := health.(state := Failed, faultCode := FAULT_AGENT_LOAD);
      } else if !s.AttachReady() {
        health := health.(state := Degraded,
                          faultCode := if s.missingCapabilities != 0 then FAULT_AGENT_CAPABILITY
                                       else FAULT_AGENT_ATTACH);
      } else if health.lostEventCount != 0 {
        health := health.(state := Degraded, faultCode := FAULT_AGENT_EVENT_LOSS);
      } else {
        health := health.(state := Healthy, faultCode := 0);
      }
    }

    method ApplyCapabilities(attachMask: u64, requiredMask: u64, btfOk: bool)
      requires Valid()
      modifies this
      ensures Valid() && health == SetCapabilities(old(health), attachMask, requiredMask, btfOk)
    {
      health := health.(attachMask := attachMask);
      if !btfOk || Bits.And(attachMask, requiredMask) != requiredMask {
        health := health.(state := Degraded, faultCode := FAULT_AGENT_CAPABILITY);
      } else if health.lostEventCount != 0 {
        health := health.(state := Degraded, faultCode := FAULT_AGENT_EVENT_LOSS);
      } else {
        health := health.(state := Healthy, faultCode := 0);
      }
    }

    method NextHeartbeat(now: u64) returns (o: HostObservation)
      requires Valid()
      modifies this
      ensures Valid() && (health, o) == Heartbeat(old(health), now)
    {
      health := health.(heartbeatSeq := NextNonzero64(health.heartbeatSeq), lastEventNs := now);
      o := HostObservation(health.bootId, health.agentEpoch, health.heartbeatSeq, now,
                           Observed(health.state), health.attachMask, health.lostEventCount,
                           health.incidentCount, health.faultCode);
    }

    method RestartAgent(agentEpoch: u64)
      requires Valid()
      modifies this, correlator
      ensures Valid() && health == RestartHealth(old(health), agentEpoch)
      ensures correlator.Abstract() == C.Restart(old(correlator.Abstract()), agentEpoch)
    {
      health := Health(health.bootId, agentEpoch, 0, Restarting, 0, 0, 0, 0, 0);
      correlator.StartEpoch(agentEpoch);
    }
  }

  // ------------------------------------------------------------ whole runs

  datatype Op =
    | Cycle(context: CycleContext)
    | Arrive(evidence: RuntimeEvidence)
    | Capabilities(attachMask: u64, requiredMask: u64, btfOk: bool)
    | Snapshot(snapshot: CapabilitySnapshot)
    | EventLoss(count: u32)
    | HeartbeatDue(now: u64)
    | PopIncident
    | Restart(epoch: u64)

  datatype Run = Run(health: Health, log: H.Log)

  /** What the correlator sees of an agent operation. */
  ghost function LogStep(capacity: nat, l: H.Log, op: Op): H.Log
    requires H.Consistent(capacity, l)
  {
    match op
    case Cycle(c) => H.Step(capacity, l, H.Observe(c))
    case Arrive(e) => H.Step(capacity, l, H.Arrive(e))
    case PopIncident => H.Step(capacity, l, H.TakeOne)
    case Restart(epoch) => H.Step(capacity, l, H.NewEpoch(epoch))
    case _ => l
  }

  /** The incident an arriving piece of evidence opened or joined, if any. */
  ghost function Reported(capacity: nat, l: H.Log, e: RuntimeEvidence): Option<C.Incident>
    requires H.Consistent(capacity, l)
  {
    var r := C.Ingest(capacity, l.state, e).1;
    if r.Ok? then r.value else None
  }

  ghost function HealthStep(capacity: nat, r: Run, op: Op): Health
    requires H.Consistent(capacity, r.log)
  {
    match op
    case Arrive(e) =>
      (match Reported(capacity, r.log, e)
       case Some(x) => ObserveIncident(r.health, x.recommendedAction)
       case None => r.health)
    case Capabilities(a, q, b) => SetCapabilities(r.health, a, q, b)
    case Snapshot(s) => SetSnapshot(r.health, s)
    case EventLoss(n) => RecordEventLoss(r.health, n)
    case HeartbeatDue(now) => Beat(r.health, now)
    case Restart(epoch) => RestartHealth(r.health, epoch)
    case _ => r.health
  }

  ghost function After(capacity: nat, bootId: u64, epoch: u64, windowNs: u64, ops: seq<Op>): (r: Run)
    ensures H.Consistent(capacity, r.log)
    decreases |ops|
  {
    if ops == [] then Run(FreshHealth(bootId, epoch), H.Start(bootId, epoch, windowNs))
    else
      var n := |ops| - 1;
      var before := After(capacity, bootId, epoch, windowNs, ops[..n]);
      StepConsistent(capacity, before.log, ops[n]);
      Run(HealthStep(capacity, before, ops[n]), LogStep(capacity, before.log, ops[n]))
  }

  lemma StepConsistent(capacity: nat, l: H.Log, op: Op)
    requires H.Consistent(capacity, l)
    ensures H.Consistent(capacity, LogStep(capacity, l, op))
  {
    hide H.Consistent, H.Step;
    match op
    case Cycle(c) => H.StepKeepsConsistent(capacity, l, H.Observe(c));
    case Arrive(e) => H.StepKeepsConsistent(capacity, l, H.Arrive(e));
    case PopIncident => H.StepKeepsConsistent(capacity, l, H.TakeOne);
    case Restart(epoch) => H.StepKeepsConsistent(capacity, l, H.NewEpoch(epoch));
    case _ =>
  }

  // --------------------------------------------------------- health of a run

  ghost predicate IsLoss(op: Op) { op.EventLoss? && op.count > 0 }

  /** A capability application that leaves nothing required unattached or missing. */
  ghost predicate IsComplete(op: Op) {
    match op
    case Capabilities(a, q, b) => b && Bits.And(a, q) == q
    case Snapshot(s) => !s.HardLoadFailure() && s.AttachReady()
    case _ => false
  }

  /** A capability application that does leave something. */
  ghost predicate Spoils(op: Op) { (op.Capabilities? || op.Snapshot?) && !IsComplete(op) }

  ghost predicate IncidentAt(capacity: nat, bootId: u64, epoch: u64, windowNs: u64, ops: seq<Op>, j: nat)
    requires j < |ops|
  {
    ops[j].Arrive?
    && Reported(capacity, After(capacity, bootId, epoch, windowNs, ops[..j]).log, ops[j].evidence).Some?
  }

  /** Every incident the correlator reports asks for more than observation. */
  lemma ReportedDemandsAction(capacity: nat, l: H.Log, e: RuntimeEvidence)
    requires H.Consistent(capacity, l)
    ensures var x := Reported(capacity, l, e);
            x.Some? ==> x.value.recommendedAction != ContinueObserve
  {
    hide H.Explained, H.Numbered, H.Accounted, C.FindMergeTarget;
  }

  /** The fault code is nonzero exactly while the agent is degraded or failed. */
  lemma {:induction false} FaultCodeIff(capacity: nat, bootId: u64, epoch: u64, windowNs: u64, ops: seq<Op>)
    ensures var h := After(capacity, bootId, epoch, windowNs, ops).health;
            h.faultCode != 0 <==> h.state == Degraded || h.state == Failed
    decreases |ops|
  {
    hide H.Consistent, LogStep, Reported;
    if ops != [] {
      var n := |ops| - 1;
      FaultCodeIff(capacity, bootId, epoch, windowNs, ops[..n]);
    }
  }

  lemma {:induction false} LossIsRemembered(capacity: nat, bootId: u64, epoch: u64, windowNs: u64, ops: seq<Op>, i: nat)
    requires i < |ops| && IsLoss(ops[i])
    requires forall j :: i < j < |ops| ==> !ops[j].Restart?
    ensures After(capacity, bootId, epoch, windowNs, ops).health.lostEventCount > 0
    decreases |ops|
  {
    hide H.Consistent, LogStep, Reported;
    var n := |ops| - 1;
    if i < n { LossIsRemembered(capacity, bootId, epoch, windowNs, ops[..n], i); }
  }

  /** The agent is never healthy while it remembers lost events. */
  lemma {:induction false} HealthyWithoutLoss(capacity: nat, bootId: u64, epoch: u64, windowNs: u64, ops: seq<Op>)
    ensures var h := After(capacity, bootId, epoch, windowNs, ops).health;
            h.state == Healthy ==> h.lostEventCount == 0
    decreases |ops|
  {
    hide H.Consistent, LogStep, Reported;
    if ops != [] { HealthyWithoutLoss(capacity, bootId, epoch, windowNs, ops[..|ops| - 1]); }
  }

  /** Once events were lost, no heartbeat reports health before the next restart. */
  lemma LossRulesOutHealth(capacity: nat, bootId: u64, epoch: u64, windowNs: u64, ops: seq<Op>, i: nat, now: u64)
    requires i < |ops| && IsLoss(ops[i])
    requires forall j :: i < j < |ops| ==> !ops[j].Restart?
    ensures Heartbeat(After(capacity, bootId, epoch, windowNs, ops).health, now).1.state != ObservedHealthy
  {
    LossIsRemembered(capacity, bootId, epoch, windowNs, ops, i);
    HealthyWithoutLoss(capacity, bootId, epoch, windowNs, ops);
  }

  /** An operation ends in health only by completing the capabilities of a
      loss-free agent, or by disturbing nothing. */
  lemma HealthyStep(capacity: nat, r: Run, op: Op)
    requires H.Consistent(capacity, r.log) && HealthStep(capacity, r, op).state == Healthy
    ensures || (IsComplete(op) && r.health.lostEventCount == 0)
            || (&& r.health.state == Healthy && !op.Restart? && !IsLoss(op) && !Spoils(op)
                && (op.Arrive? ==> Reported(capacity, r.log, op.evidence).None?))
  {
    if op.Arrive? { ReportedDemandsAction(capacity, r.log, op.evidence); }
    hide H.Consistent, Reported;
  }

  lemma NoLossSinceRestart(capacity: nat, bootId: u64, epoch: u64, windowNs: u64, ops: seq<Op>, j: nat)
    requires After(capacity, bootId, epoch, windowNs, ops).health.lostEventCount == 0
    requires j < |ops| && IsLoss(ops[j])
    ensures exists r :: j < r < |ops| && ops[r].Restart?
  {
    hide After;
    if forall r :: j < r < |ops| ==> !ops[r].Restart? {
      LossIsRemembered(capacity, bootId, epoch, windowNs, ops, j);
    }
  }

  /** Operation `j` neither restarts the agent, nor loses events, nor finds a
      capability missing, nor reports an incident. */
  ghost predicate Undisturbed(capacity: nat, bootId: u64, epoch: u64, windowNs: u64, ops: seq<Op>, j: nat)
    requires j < |ops|
  {
    && !ops[j].Restart? && !IsLoss(ops[j]) && !Spoils(ops[j])
    && !IncidentAt(capacity, bootId, epoch, windowNs, ops, j)
  }

  lemma LastStepHealthy(capacity: nat, bootId: u64, epoch: u64, windowNs: u64, ops: seq<Op>)
    requires After(capacity, bootId, epoch, windowNs, ops).health.state == Healthy
    ensures ops != []
    ensures var n := |ops| - 1;
            var h := After(capacity, bootId, epoch, windowNs, ops[..n]).health;
            || (IsComplete(ops[n]) && h.lostEventCount == 0)
            || (h.state == Healthy && Undisturbed(capacity, bootId, epoch, windowNs, ops, n))
  {
    var n := |ops| - 1;
    if ops != [] { HealthyStep(capacity, After(capacity, bootId, epoch, windowNs, ops[..n]), ops[n]); }
    hide H.Consistent, HealthStep, LogStep, Reported;
  }

  lemma UndisturbedPrefix(capacity: nat, bootId: u64, epoch: u64, windowNs: u64, ops: seq<Op>, n: nat, j: nat)
    requires j < n <= |ops| && Undisturbed(capacity, bootId, epoch, windowNs, ops[..n], j)
    ensures Undisturbed(capacity, bootId, epoch, windowNs, ops, j)
  {
    hide After, Reported, H.Consistent;
    assert ops[..n][..j] == ops[..j] && ops[..n][j] == ops[j];
  }

  /** Every loss before `k` was wiped out by a restart before `k`. */
  ghost predicate LossesCleared(ops: seq<Op>, k: nat)
    requires k <= |ops|
  {
    forall j :: 0 <= j < k && IsLoss(ops[j]) ==> exists r :: j < r < k && ops[r].Restart?
  }

  lemma LossesClearedHere(capacity: nat, bootId: u64, epoch: u64, windowNs: u64, ops: seq<Op>, n: nat)
    requires n <= |ops| && After(capacity, bootId, epoch, windowNs, ops[..n]).health.lostEventCount == 0
    ensures LossesCleared(ops, n)
  {
    hide After, H.Consistent;
    forall j | 0 <= j < n && IsLoss(ops[j]) ensures exists r :: j < r < n && ops[r].Restart? {
      NoLossSinceRestart(capacity, bootId, epoch, windowNs, ops[..n], j);
      var r :| j < r < n && ops[..n][r].Restart?;
      assert ops[r].Restart?;
    }
  }

  lemma LossesClearedPrefix(ops: seq<Op>, n: nat, k: nat)
    requires k <= n <= |ops| && LossesCleared(ops[..n], k)
    ensures LossesCleared(ops, k)
  {
    forall j | 0 <= j < k && IsLoss(ops[j]) ensures exists r :: j < r < k && ops[r].Restart? {
      assert IsLoss(ops[..n][j]);
      var r :| j < r < k && ops[..n][r].Restart?;
      assert ops[r].Restart?;
    }
  }

  /** Operation `k` is a complete capability application of the current epoch, with
      no event loss before it in that epoch and no disturbance since. */
  ghost predicate RestsOn(capacity: nat, bootId: u64, epoch: u64, windowNs: u64, ops: seq<Op>, k: nat) {
    && k < |ops| && IsComplete(ops[k]) && LossesCleared(ops, k)
    && forall j :: k < j < |ops| ==> Undisturbed(capacity, bootId, epoch, windowNs, ops, j)
  }

  lemma {:induction false} HealthyMeans(capacity: nat, bootId: u64, epoch: u64, windowNs: u64, ops: seq<Op>)
    returns (k: nat)
    requires After(capacity, bootId, epoch, windowNs, ops).health.state == Healthy
    ensures RestsOn(capacity, bootId, epoch, windowNs, ops, k)
    decreases |ops|
  {
    hide H.Consistent, IsComplete, IsLoss, After, LossesCleared, Undisturbed;
    LastStepHealthy(capacity, bootId, epoch, windowNs, ops);
    var n := |ops| - 1;
    var h := After(capacity, bootId, epoch, windowNs, ops[..n]).health;
    if IsComplete(ops[n]) && h.lostEventCount == 0 {
      k := n;
      LossesClearedHere(capacity, bootId, epoch, windowNs, ops, n);
    } else {
      k := HealthyMeans(capacity, bootId, epoch, windowNs, ops[..n]);
      LossesClearedPrefix(ops, n, k);
      forall j | k < j < n ensures Undisturbed(capacity, bootId, epoch, windowNs, ops, j) {
        UndisturbedPrefix(capacity, bootId, epoch, windowNs, ops, n, j);
      }
    }
  }

  lemma LossesClearedBefore(ops: seq<Op>, n: nat)
    requires n < |ops| && LossesCleared(ops, n + 1) && !ops[n].Restart?
    ensures LossesCleared(ops, n) && !IsLoss(ops[n])
  {
    forall j | 0 <= j < n && IsLoss(ops[j]) ensures exists r :: j < r < n && ops[r].Restart? {
      var r :| j < r < n + 1 && ops[r].Restart?;
    }
  }

  lemma {:induction false} NothingRemembered(capacity: nat, bootId: u64, epoch: u64, windowNs: u64, ops: seq<Op>, k: nat)
    requires k <= |ops| && LossesCleared(ops, k)
    ensures After(capacity, bootId, epoch, windowNs, ops[..k]).health.lostEventCount == 0
    decreases k
  {
    hide H.Consistent, LogStep, Reported, LossesCleared;
    if k > 0 {
      assert ops[..k][..k - 1] == ops[..k - 1];
      if !ops[k - 1].Restart? {
        LossesClearedBefore(ops, k - 1);
        NothingRemembered(capacity, bootId, epoch, windowNs, ops, k - 1);
      }
    }
  }

  lemma {:induction false} HealthyWhen(capacity: nat, bootId: u64, epoch: u64, windowNs: u64, ops: seq<Op>, k: nat, n: nat)
    requires RestsOn(capacity, bootId, epoch, windowNs, ops, k) && k < n <= |ops|
    ensures var h := After(capacity, bootId, epoch, windowNs, ops[..n]).health;
            h.state == Healthy && h.lostEventCount == 0
    decreases n
  {
    hide H.Consistent, LogStep, Reported, LossesCleared;
    assert ops[..n][..n - 1] == ops[..n - 1];
    if n == k + 1 {
      NothingRemembered(capacity, bootId, epoch, windowNs, ops, k);
    } else {
      assert Undisturbed(capacity, bootId, epoch, windowNs, ops, n - 1);
      HealthyWhen(capacity, bootId, epoch, windowNs, ops, k, n - 1);
    }
  }

  /** A heartbeat reports health if and only if some complete capability application
      of the current epoch came without event loss before it in that epoch, and no
      loss, incident, missing capability or restart came since. */
  lemma HealthyIff(capacity: nat, bootId: u64, epoch: u64, windowNs: u64, ops: seq<Op>, now: u64)
    ensures Heartbeat(After(capacity, bootId, epoch, windowNs, ops).health, now).1.state == ObservedHealthy
            <==> exists k: nat :: RestsOn(capacity, bootId, epoch, windowNs, ops, k)
  {
    hide RestsOn, After;
    if After(capacity, bootId, epoch, windowNs, ops).health.state == Healthy {
      var k := HealthyMeans(capacity, bootId, epoch, windowNs, ops);
    }
    if k: nat :| RestsOn(capacity, bootId, epoch, windowNs, ops, k) {
      assert k < |ops| by { RestsInside(capacity, bootId, epoch, windowNs, ops, k); }
      HealthyWhen(capacity, bootId, epoch, windowNs, ops, k, |ops|);
      assert ops[..|ops|] == ops;
    }
  }

  lemma RestsInside(capacity: nat, bootId: u64, epoch: u64, windowNs: u64, ops: seq<Op>, k: nat)
    requires RestsOn(capacity, bootId, epoch, windowNs, ops, k)
    ensures k < |ops|
  {
  }

  /** Event loss, incidents and heartbeats never leave the failed state. */
  lemma FailedPersists(capacity: nat, r: Run, op: Op)
    requires H.Consistent(capacity, r.log) && r.health.state == Failed
    requires op.EventLoss? || op.Arrive? || op.HeartbeatDue? || op.Cycle? || op.PopIncident?
    ensures HealthStep(capacity, r, op).state == Failed
  {
    hide H.Consistent, Reported;
  }

  // ------------------------------------------------------ counting evidence

  ghost function Lengths(hs: seq<seq<H.Item>>): nat {
    if hs == [] then 0 else Lengths(hs[..|hs| - 1]) + |hs[|hs| - 1]|
  }

  ghost function Histories(xs: seq<H.Entry>): seq<seq<H.Item>> {
    if xs == [] then [] else Histories(xs[..|xs| - 1]) + [xs[|xs| - 1].history]
  }

  lemma LengthsSnoc(hs: seq<seq<H.Item>>, h: seq<H.Item>)
    ensures Lengths(hs + [h]) == Lengths(hs) + |h|
  {
    assert (hs + [h])[..|hs|] == hs;
  }

  lemma HistoriesSnoc(xs: seq<H.Entry>, x: H.Entry)
    ensures Histories(xs + [x]) == Histories(xs) + [x.history]
  {
    assert (xs + [x])[..|xs|] == xs;
  }

  lemma {:induction false} LengthsUpdate(hs: seq<seq<H.Item>>, i: nat, h: seq<H.Item>)
    requires i < |hs|
    ensures Lengths(hs[i := h]) == Lengths(hs) - |hs[i]| + |h|
    decreases |hs|
  {
    var n := |hs| - 1;
    if i == n {
      assert hs[i := h][..n] == hs[..n];
    } else {
      LengthsUpdate(hs[..n], i, h);
      assert hs[i := h][..n] == hs[..n][i := h];
    }
  }

  lemma {:induction false} LengthsHead(hs: seq<seq<H.Item>>)
    requires hs != []
    ensures Lengths(hs) == |hs[0]| + Lengths(hs[1..])
    decreases |hs|
  {
    var n := |hs| - 1;
    if n > 0 {
      LengthsHead(hs[..n]);
      assert hs[..n][1..] == hs[1..][..n - 1];
    } else {
      assert hs[..0] == [] && hs[1..] == [];
    }
  }

  /** Pieces of evidence merged into all incidents of the epoch, wherever they are. */
  ghost function MergedEvidence(l: H.Log): nat { Lengths(l.live) + Lengths(Histories(l.gone)) }

  lemma EvidenceCounted(capacity: nat, l: H.Log, e: RuntimeEvidence, c: Class)
    requires H.Consistent(capacity, l)
    ensures MergedEvidence(H.LogEvidence(capacity, l, e, c)) == MergedEvidence(l) + 1
  {
    hide H.Explained, H.Numbered, H.Accounted, C.Opened, C.Merged, C.Mergeable;
    var s := l.state;
    var t := C.FindMergeTarget(s.ring, c.code, e, s.windowNs);
    if t.Some? {
      LengthsUpdate(l.live, t.value, l.live[t.value] + [H.Item(e, c, e.cycleSeq)]);
    } else {
      var h := [H.Item(e, c, C.FirstCycle(s.context, e))];
      LengthsSnoc(l.live, h);
      if |s.ring| == capacity {
        var l' := H.LogEvidence(capacity, l, e, c);
        var out := l'.gone[|l.gone|];
        HistoriesSnoc(l.gone, out);
        LengthsSnoc(Histories(l.gone), out.history);
        if capacity > 0 {
          LengthsHead(l.live);
          LengthsSnoc(l.live[1..], h);
        }
      }
    }
  }

  lemma PopKeepsEvidence(capacity: nat, l: H.Log)
    requires H.Consistent(capacity, l)
    ensures MergedEvidence(H.Step(capacity, l, H.TakeOne)) == MergedEvidence(l)
  {
    hide H.Explained, H.Numbered, H.Accounted;
    if l.live != [] {
      LengthsHead(l.live);
      var out := H.Entry(l.state.ring[0], l.live[0]);
      HistoriesSnoc(l.gone, out);
      LengthsSnoc(Histories(l.gone), out.history);
    }
  }

  lemma {:induction false} IncidentCountTracksEvidence(capacity: nat, bootId: u64, epoch: u64, windowNs: u64, ops: seq<Op>)
    ensures var r := After(capacity, bootId, epoch, windowNs, ops);
            r.health.incidentCount == Min(MergedEvidence(r.log), U32_MAX)
    decreases |ops|
  {
    if ops != [] {
      var n := |ops| - 1;
      IncidentCountTracksEvidence(capacity, bootId, epoch, windowNs, ops[..n]);
      CountStep(capacity, After(capacity, bootId, epoch, windowNs, ops[..n]), ops[n]);
    }
  }

  lemma CountStep(capacity: nat, r: Run, op: Op)
    requires H.Consistent(capacity, r.log)
    requires r.health.incidentCount == Min(MergedEvidence(r.log), U32_MAX)
    ensures HealthStep(capacity, r, op).incidentCount
         == Min(MergedEvidence(LogStep(capacity, r.log, op)), U32_MAX)
  {
    hide H.Explained, H.Numbered, H.Accounted, C.FindMergeTarget, Lengths, Histories, H.LogEvidence;
    match op
    case Arrive(e) =>
      var a := H.Accepted(r.log.state, e);
      if a.Some? { EvidenceCounted(capacity, r.log, e, a.value); }
    case PopIncident => PopKeepsEvidence(capacity, r.log);
    case Restart(_) => EmptyLog(r.log.state);
    case _ =>
  }

  lemma EmptyLog(s: C.State)
    ensures forall epoch: u64 :: MergedEvidence(H.Start(s.bootId, epoch, s.windowNs)) == 0
  {
  }

  /** What an incident reports about how much evidence it stands for. */
  function Reports(x: C.Incident): nat { x.evidenceCount + x.lostEvents }

  ghost function RingReports(ring: seq<C.Incident>): nat {
    if ring == [] then 0 else RingReports(ring[..|ring| - 1]) + Reports(ring[|ring| - 1])
  }

  ghost function GoneReports(gone: seq<H.Entry>): nat {
    if gone == [] then 0 else GoneReports(gone[..|gone| - 1]) + Reports(gone[|gone| - 1].incident)
  }

  lemma {:induction false} RingReportsAdd(ring: seq<C.Incident>, hs: seq<seq<H.Item>>)
    requires |ring| == |hs| && Lengths(hs) <= U32_MAX
    requires forall i :: 0 <= i < |ring| ==> H.StoresFirstEight(ring[i], hs[i])
    ensures RingReports(ring) == Lengths(hs)
    decreases |hs|
  {
    if hs != [] {
      var n := |hs| - 1;
      assert H.StoresFirstEight(ring[n], hs[n]);
      RingReportsAdd(ring[..n], hs[..n]);
    }
  }

  lemma {:induction false} GoneReportsAdd(gone: seq<H.Entry>)
    requires Lengths(Histories(gone)) <= U32_MAX
    requires forall x :: x in gone ==> H.StoresFirstEight(x.incident, x.history)
    ensures GoneReports(gone) == Lengths(Histories(gone))
    decreases |gone|
  {
    if gone != [] {
      var n := |gone| - 1;
      assert gone[n] in gone && gone == gone[..n] + [gone[n]];
      HistoriesSnoc(gone[..n], gone[n]);
      LengthsSnoc(Histories(gone[..n]), gone[n].history);
      GoneReportsAdd(gone[..n]);
    }
  }

  /** Until it saturates, the incident count of the health lease is the total
      evidence reported by all incidents of the epoch, whether they are still
      retained, were popped or were overwritten. */
  lemma IncidentCountIsTotal(capacity: nat, bootId: u64, epoch: u64, windowNs: u64, ops: seq<Op>)
    ensures var r := After(capacity, bootId, epoch, windowNs, ops);
            r.health.incidentCount < U32_MAX ==>
              r.health.incidentCount == RingReports(r.log.state.ring) + GoneReports(r.log.gone)
  {
    var r := After(capacity, bootId, epoch, windowNs, ops);
    IncidentCountTracksEvidence(capacity, bootId, epoch, windowNs, ops);
    hide After, H.Numbered, H.Accounted, H.StoresFirstEight, H.NoGap, H.ShortSpan, H.SameOrigin;
    if r.health.incidentCount < U32_MAX {
      RingReportsAdd(r.log.state.ring, r.log.live);
      GoneReportsAdd(r.log.gone);
    }
  }
}
