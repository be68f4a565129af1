/** The incident correlator: a fixed ring of incidents, updated in place, that
    merges evidence newest-first inside a time window. */
module IncidentCorrelator {
  import opened Machine
  import opened Evidence
  import Bits

  const MAX_INCIDENT_EVIDENCE := 8

  type EvidenceSlots = s: seq<RuntimeEvidence> | |s| == 8 witness NO_EVIDENCE

  const NO_EVIDENCE: seq<RuntimeEvidence> := [
    EMPTY_EVIDENCE, EMPTY_EVIDENCE, EMPTY_EVIDENCE, EMPTY_EVIDENCE,
    EMPTY_EVIDENCE, EMPTY_EVIDENCE, EMPTY_EVIDENCE, EMPTY_EVIDENCE]

  datatype Incident = Incident(
    incidentId: u64, bootId: u64, agentEpoch: u64, code: IncidentCode, severity: Severity,
    recommendedAction: Action, confidencePercent: u8, firstSeenNs: u64, lastSeenNs: u64,
    evidenceWindowNs: u64, cycleFirst: u64, cycleLast: u64, transitionSeq: u64,
    pid: u32, tid: u32, cpu: u16, irq: u16, netdevIfindex: u32,
    observedValue: u64, threshold: u64, count: u32, lostEvents: u32,
    evidenceCount: u8, evidence: EvidenceSlots)

  const EMPTY_INCIDENT := Incident(
    0, 0, 0, ObservabilityDegraded, Info, ContinueObserve, 0, 0, 0, 0, 0, 0, 0, 0, 0, 0, 0, 0,
    0, 0, 0, 0, 0, NO_EVIDENCE)

  datatype CorrelatorError = BootMismatch | EvidenceEpochMismatch

  type Ingested = Result<Option<Incident>, CorrelatorError>

  /** Correlator state as a value; `ring` lists the retained incidents, oldest first. */
  datatype State = State(
    bootId: u64, agentEpoch: u64, windowNs: u64, nextIncidentId: u64, context: CycleContext,
    ring: seq<Incident>, droppedIncidents: u32)

  function Fresh(bootId: u64, agentEpoch: u64, windowNs: u64): State {
    State(bootId, agentEpoch, windowNs, 1, EMPTY_CYCLE, [], 0)
  }

  predicate CorrelatesWithCycle(context: CycleContext, windowNs: u64, e: RuntimeEvidence) {
    && context.cycleSeq != 0 && context.HasTransportRisk()
    && if e.cycleSeq != 0 then e.cycleSeq == context.cycleSeq
       else AbsDiff(e.timestampNs, context.timestampNs) <= windowNs
  }

  predicate Agree(a: nat, b: nat) { a == 0 || b == 0 || a == b }

  /** May this evidence, classified as `code`, join that incident? */
  predicate Mergeable(x: Incident, code: IncidentCode, e: RuntimeEvidence, windowNs: u64) {
    && x.code == code && x.bootId == e.bootId && x.agentEpoch == e.agentEpoch
    && Agree(x.pid, e.pid) && Agree(x.tid, e.tid) && Agree(x.netdevIfindex, e.netdevIfindex)
    && (code == HostCpuThrottle ==> x.cpu == e.cpu)
    && (code == HostIrqStorm ==> x.cpu == e.cpu && x.irq == e.irq && x.evidence[0].kind == e.kind)
    && AbsDiff(x.lastSeenNs, e.timestampNs) <= windowNs
  }

  /** The newest mergeable incident. */
  function FindMergeTarget(ring: seq<Incident>, code: IncidentCode, e: RuntimeEvidence, windowNs: u64)
    : (r: Option<nat>)
    ensures r.Some? ==> r.value < |ring| && Mergeable(ring[r.value], code, e, windowNs)
                        && forall i :: r.value < i < |ring| ==> !Mergeable(ring[i], code, e, windowNs)
    ensures r.None? ==> forall i :: 0 <= i < |ring| ==> !Mergeable(ring[i], code, e, windowNs)
  {
    if ring == [] then None
    else
      var n := |ring| - 1;
      if Mergeable(ring[n], code, e, windowNs) then Some(n)
      else FindMergeTarget(ring[..n], code, e, windowNs)
  }

  function MergeFirstNonzero(current: u64, incoming: u64): u64 {
    if current == 0 then incoming else if incoming == 0 then current else Min(current, incoming)
  }

  /** An incident after one more piece of evidence joined it. */
  function Merged(x: Incident, e: RuntimeEvidence, c: Class): Incident
    requires x.evidenceCount <= 8
  {
    var room := x.evidenceCount < MAX_INCIDENT_EVIDENCE;
    x.(firstSeenNs := Min(x.firstSeenNs, e.timestampNs),
       lastSeenNs := Max(x.lastSeenNs, e.timestampNs),
       cycleFirst := MergeFirstNonzero(x.cycleFirst, e.cycleSeq),
       cycleLast := Max(x.cycleLast, e.cycleSeq),
       transitionSeq := if x.transitionSeq == 0 then e.transitionSeq else x.transitionSeq,
       severity := MaxSeverity(x.severity, c.severity),
       recommendedAction := MaxAction(x.recommendedAction, c.action),
       confidencePercent := Max(x.confidencePercent, c.confidence),
       observedValue := Max(x.observedValue, e.observedValue),
       threshold := Max(x.threshold, e.threshold),
       count := SatAdd32(x.count, e.count),
       evidence := if room then x.evidence[x.evidenceCount := e] else x.evidence,
       evidenceCount := if room then x.evidenceCount + 1 else x.evidenceCount,
       lostEvents := if room then x.lostEvents else SatAdd32(x.lostEvents, 1))
  }

  function FirstCycle(context: CycleContext, e: RuntimeEvidence): u64 {
    if e.cycleSeq != 0 then e.cycleSeq else context.cycleSeq
  }

  /** The incident that a piece of evidence opens. */
  function Opened(s: State, e: RuntimeEvidence, c: Class): Incident {
    var cycle := FirstCycle(s.context, e);
    Incident(s.nextIncidentId, s.bootId, s.agentEpoch, c.code, c.severity, c.action, c.confidence,
             e.timestampNs, e.timestampNs, s.windowNs, cycle, cycle,
             if e.transitionSeq != 0 then e.transitionSeq else s.context.transitionSeq,
             e.pid, e.tid, e.cpu, e.irq, e.netdevIfindex, e.observedValue, e.threshold, e.count,
             0, 1, NO_EVIDENCE[0 := e])
  }

  /** Appending to a bounded queue drops its oldest element when it is full. */
  function Push<T>(capacity: nat, queue: seq<T>, x: T): (r: seq<T>)
    requires |queue| <= capacity
    ensures |r| == Min(|queue| + 1, capacity)
    ensures forall i :: 0 <= i < |r| ==> r[i] == if i == |r| - 1 then x else queue[|queue| + 1 - |r| + i]
  {
    if capacity == 0 then []
    else if |queue| < capacity then queue + [x] else queue[1..] + [x]
  }

  ghost predicate WellFormed(capacity: nat, s: State) {
    |s.ring| <= capacity && forall i :: 0 <= i < |s.ring| ==> s.ring[i].evidenceCount <= 8
  }

  function IngestClassified(capacity: nat, s: State, e: RuntimeEvidence, c: Class): (State, Ingested)
    requires WellFormed(capacity, s)
  {
    match FindMergeTarget(s.ring, c.code, e, s.windowNs)
    case Some(i) =>
      var x := Merged(s.ring[i], e, c);
      (s.(ring := s.ring[i := x]), Ok(Some(x)))
    case None =>
      var x := Opened(s, e, c);
      (s.(ring := Push(capacity, s.ring, x),
          nextIncidentId := NextNonzero64(s.nextIncidentId),
          droppedIncidents := if |s.ring| == capacity then SatAdd32(s.droppedIncidents, 1)
                              else s.droppedIncidents),
       Ok(Some(x)))
  }

  function Ingest(capacity: nat, s: State, e: RuntimeEvidence): (State, Ingested)
    requires WellFormed(capacity, s)
  {
    if e.bootId != s.bootId then (s, Err(BootMismatch))
    else if e.agentEpoch != s.agentEpoch then (s, Err(EvidenceEpochMismatch))
    else
      match Classify(e, CorrelatesWithCycle(s.context, s.windowNs, e))
      case None => (s, Ok(None))
      case Some(c) => IngestClassified(capacity, s, e, c)
  }

  function ObserveCycle(s: State, context: CycleContext): (State, Result<(), CorrelatorError>) {
    if context.bootId != s.bootId then (s, Err(BootMismatch))
    else (s.(context := context), Ok(()))
  }

  function Pop(s: State): (State, Option<Incident>) {
    if s.ring == [] then (s, None) else (s.(ring := s.ring[1..]), Some(s.ring[0]))
  }

  function Restart(s: State, agentEpoch: u64): State { Fresh(s.bootId, agentEpoch, s.windowNs) }

  /** An index less than two laps ahead wraps at most once. */
  lemma WrapOnce(k: nat, capacity: nat)
    requires capacity > 0 && k < 2 * capacity
    ensures k % capacity == if k < capacity then k else k - capacity
  {
    if k < capacity { Bits.DivModUnique(k, capacity, 0, k); }
    else { Bits.DivModUnique(k, capacity, 1, k - capacity); }
  }

  /** `k % capacity`, for an index less than two laps ahead. */
  function Wrap(k: nat, capacity: nat): (r: nat)
    requires k < 2 * capacity
    ensures r == if k < capacity then k else k - capacity
  {
    WrapOnce(k, capacity);
    k % capacity
  }

  /** Array position of the i-th oldest of `len` elements that end before `head`. */
  ghost function Position(capacity: nat, head: nat, len: nat, i: nat): int {
    if head + i < len then head + i + capacity - len else head + i - len
  }

  /** The array holds the queue, ending just before `head`. */
  ghost predicate Holds<T>(a: seq<T>, head: nat, len: nat, queue: seq<T>) {
    && len == |queue| <= |a|
    && (if |a| == 0 then head == 0 else head < |a|)
    && forall i :: 0 <= i < len ==> a[Position(|a|, head, len, i)] == queue[i]
  }

  lemma PushHolds<T>(a: seq<T>, head: nat, len: nat, queue: seq<T>, x: T)
    requires Holds(a, head, len, queue) && |a| > 0
    ensures Holds(a[head := x], if head + 1 == |a| then 0 else head + 1, Min(len + 1, |a|),
                  Push(|a|, queue, x))
  {
  }

  lemma UpdateHolds<T>(a: seq<T>, head: nat, len: nat, queue: seq<T>, at: nat, x: T)
    requires Holds(a, head, len, queue) && at < len
    ensures Holds(a[Position(|a|, head, len, at) := x], head, len, queue[at := x])
  {
  }

  class Correlator {
    const incidents: array<Incident>
    var bootId: u64
    var agentEpoch: u64
    var windowNs: u64
    var nextIncidentId: u64
    var context: CycleContext
    var head: nat
    var len: nat
    var droppedIncidents: u32
    ghost var contents: seq<Incident>

    ghost predicate Valid()
      reads this, incidents
    {
      && Holds(incidents[..], head, len, contents)
      && WellFormed(incidents.Length, Abstract())
    }

    ghost function Slot(i: nat): int
      reads this
    {
      Position(incidents.Length, head, len, i)
    }

    ghost function Abstract(): State
      reads this
    {
      State(bootId, agentEpoch, windowNs, nextIncidentId, context, contents, droppedIncidents)
    }

    constructor (capacity: nat, bootId: u64, agentEpoch: u64, windowNs: u64)
      ensures Valid() && fresh(incidents) && incidents.Length == capacity
      ensures Abstract() == Fresh(bootId, agentEpoch, windowNs)
    {
      incidents := new Incident[capacity](_ => EMPTY_INCIDENT);
      this.bootId, this.agentEpoch, this.windowNs := bootId, agentEpoch, windowNs;
      nextIncidentId, context := 1, EMPTY_CYCLE;
      head, len, droppedIncidents, contents := 0, 0, 0, [];
    }

    method Observe(cycle: CycleContext) returns (r: Result<(), CorrelatorError>)
      requires Valid()
      modifies this
      ensures Valid() && (Abstract(), r) == ObserveCycle(old(Abstract()), cycle)
    {
      if cycle.bootId != bootId { return Err(BootMismatch); }
      context := cycle;
      return Ok(());
    }

    /** Searches the ring from the newest incident to the oldest. */
    method FindTarget(code: IncidentCode, e: RuntimeEvidence) returns (index: Option<nat>, ghost at: nat)
      requires Valid()
      ensures index.Some? ==> && FindMergeTarget(contents, code, e, windowNs) == Some(at)
                              && at < len && index.value == Slot(at)
      ensures index.None? ==> FindMergeTarget(contents, code, e, windowNs) == None
    {
      hide Wrap, Mergeable, WellFormed, FindMergeTarget;
      var offset := 0;
      while offset < len
        invariant 0 <= offset <= len
        invariant forall j :: len - offset <= j < len ==> !Mergeable(contents[j], code, e, windowNs)
      {
        at := len - 1 - offset;
        var i := Wrap(head + incidents.Length - 1 - offset, incidents.Length);
        assert i == Slot(at) && incidents[i] == incidents[..][i] == contents[at];
        if Mergeable(incidents[i], code, e, windowNs) {
          return Some(i), at;
        }
        offset := offset + 1;
      }
      return None, 0;
    }

    method MergeIncident(index: nat, e: RuntimeEvidence, c: Class, ghost at: nat) returns (r: Incident)
      requires Valid() && at < len && index == Slot(at)
      modifies this`contents, incidents
      ensures Valid() && r == Merged(old(contents)[at], e, c)
      ensures contents == old(contents)[at := r]
    {
      UpdateHolds(incidents[..], head, len, contents, at, Merged(contents[at], e, c));
      var x := incidents[index];
      assert x == incidents[..][index] == contents[at];
      x := x.(firstSeenNs := Min(x.firstSeenNs, e.timestampNs),
              lastSeenNs := Max(x.lastSeenNs, e.timestampNs));
      x := x.(cycleFirst := MergeFirstNonzero(x.cycleFirst, e.cycleSeq),
              cycleLast := Max(x.cycleLast, e.cycleSeq));
      if x.transitionSeq == 0 {
        x := x.(transitionSeq := e.transitionSeq);
      }
      x := x.(severity := MaxSeverity(x.severity, c.severity),
              recommendedAction := MaxAction(x.recommendedAction, c.action),
              confidencePercent := Max(x.confidencePercent, c.confidence));
      x := x.(observedValue := Max(x.observedValue, e.observedValue),
              threshold := Max(x.threshold, e.threshold),
              count := SatAdd32(x.count, e.count));
      if x.evidenceCount < MAX_INCIDENT_EVIDENCE {
        x := x.(evidence := x.evidence[x.evidenceCount := e], evidenceCount := x.evidenceCount + 1);
      } else {
        x := x.(lostEvents := SatAdd32(x.lostEvents, 1));
      }
      ghost var before := incidents[..];
      incidents[index] := x;
      assert incidents[..] == before[index := x];
      contents := contents[at := x];
      return x;
    }

    method PushIncident(x: Incident)
      requires Valid() && x.evidenceCount <= 8
      modifies this`head, this`len, this`droppedIncidents, this`contents, incidents
      ensures Valid()
      ensures contents == Push(incidents.Length, old(contents), x)
      ensures droppedIncidents == if |old(contents)| == incidents.Length
                                  then SatAdd32(old(droppedIncidents), 1) else old(droppedIncidents)
    {
      assert len == |contents| <= incidents.Length && (incidents.Length > 0 ==> head < incidents.Length);
      assert incidents.Length == 0 ==> Valid();
      hide Wrap, Holds;
      ghost var before := incidents[..];
      if incidents.Length > 0 { PushHolds(before, head, len, contents, x); }
      contents := Push(incidents.Length, contents, x);
      if incidents.Length == 0 {
        droppedIncidents := SatAdd32(droppedIncidents, 1);
        return;
      }
      incidents[head] := x;
      assert incidents[..] == before[head := x];
      head := Wrap(head + 1, incidents.Length);
      if len < incidents.Length {
        len := len + 1;
      } else {
        droppedIncidents := SatAdd32(droppedIncidents, 1);
      }
    }

    method IngestEvidence(e: RuntimeEvidence) returns (r: Ingested)
      requires Valid()
      modifies this, incidents
      ensures Valid() && (Abstract(), r) == Ingest(incidents.Length, old(Abstract()), e)
    {
      if e.bootId != bootId { return Err(BootMismatch); }
      if e.agentEpoch != agentEpoch { return Err(EvidenceEpochMismatch); }
      var class_ := Classify(e, CorrelatesWithCycle(context, windowNs, e));
      if class_.None? { return Ok(None); }
      var c := class_.value;
      var index, at := FindTarget(c.code, e);
      if index.Some? {
        var x := MergeIncident(index.value, e, c, at);
        return Ok(Some(x));
      }
      var cycle := if e.cycleSeq != 0 then e.cycleSeq else context.cycleSeq;
      var transition := if e.transitionSeq != 0 then e.transitionSeq else context.transitionSeq;
      var x := Incident(nextIncidentId, bootId, agentEpoch, c.code, c.severity, c.action, c.confidence,
                        e.timestampNs, e.timestampNs, windowNs, cycle, cycle, transition,
                        e.pid, e.tid, e.cpu, e.irq, e.netdevIfindex, e.observedValue, e.threshold,
                        e.count, 0, 1, NO_EVIDENCE[0 := e]);
      nextIncidentId := NextNonzero64(nextIncidentId);
      PushIncident(x);
      return Ok(Some(x));
    }

    method Latest() returns (r: Option<Incident>)
      requires Valid()
      ensures r == if contents == [] then None else Some(contents[|contents| - 1])
    {
      if len == 0 { return None; }
      var index := Wrap(head + incidents.Length - 1, incidents.Length);
      assert index == Slot(len - 1) && incidents[index] == incidents[..][index];
      return Some(incidents[index]);
    }

    method PopOldest() returns (r: Option<Incident>)
      requires Valid()
      modifies this
      ensures Valid() && (Abstract(), r) == Pop(old(Abstract()))
    {
      if len == 0 { return None; }
      var index := Wrap(head + incidents.Length - len, incidents.Length);
      assert index == Slot(0) && incidents[index] == incidents[..][index];
      var x := incidents[index];
      len := len - 1;
      contents := contents[1..];
      return Some(x);
    }

    method StartEpoch(epoch: u64)
      requires Valid()
      modifies this
      ensures Valid() && Abstract() == Restart(old(Abstract()), epoch)
    {
      agentEpoch, nextIncidentId, context := epoch, 1, EMPTY_CYCLE;
      head, len, droppedIncidents, contents := 0, 0, 0, [];
    }
  }
}
