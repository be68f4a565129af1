/** Admission of external motion commands: authorization gates, replay
    ordering, a fixed-window rate limit per source and a 32-entry audit ring. */
module CommandIngress {
  import opened Machine
  import Bits

  const MAX_AUTHORIZED_SOURCES := 4
  const MAX_INGRESS_AUDITS := 32

  datatype Command = Command(
    bootId: u64, sourceId: u64, permitEpoch: u64, sequence: u64, deadlineNs: u64,
    axisMask: u32, authority: u8, policyVersion: u32)

  datatype MotionPermit = MotionPermit(
    bootId: u64, sourceId: u64, permitEpoch: u64, sequence: u64, expiresAtNs: u64,
    axisMask: u32, authority: u8, policyVersion: u32)

  type SourceTable = s: seq<u64> | |s| == 4 witness [0, 0, 0, 0]

  datatype Policy = Policy(
    authorizedSources: SourceTable, authorizedSourceCount: u8, minimumAuthority: u8,
    permitPolicyVersion: u32, allowedAxisMask: u32, maxTtlNs: u64, rateWindowNs: u64,
    maxCommandsPerWindow: u16)

  predicate IsNormal(p: Policy) {
    && p.authorizedSourceCount <= MAX_AUTHORIZED_SOURCES
    && p.minimumAuthority >= 1 && p.permitPolicyVersion >= 1 && p.maxTtlNs >= 1
    && p.rateWindowNs >= 1 && p.maxCommandsPerWindow >= 1
  }

  type NormalPolicy = p: Policy | IsNormal(p) witness Policy([0, 0, 0, 0], 0, 1, 1, 0, 1, 1, 1)

  /** Normalization yields a usable policy and leaves a usable policy alone. */
  function Normalized(p: Policy): (r: NormalPolicy)
    ensures IsNormal(p) ==> r == p
    ensures r.authorizedSources == p.authorizedSources && r.allowedAxisMask == p.allowedAxisMask
  {
    p.(authorizedSourceCount := Min(p.authorizedSourceCount, MAX_AUTHORIZED_SOURCES),
       minimumAuthority := Max(p.minimumAuthority, 1),
       permitPolicyVersion := Max(p.permitPolicyVersion, 1),
       maxTtlNs := Max(p.maxTtlNs, 1),
       rateWindowNs := Max(p.rateWindowNs, 1),
       maxCommandsPerWindow := Max(p.maxCommandsPerWindow, 1))
  }

  datatype IngressError =
    | BootMismatch | SourceUnauthorized | AuthorityInsufficient | PolicyVersionMismatch
    | DeadlineExpired | TtlTooLong | ZeroSequence | ZeroEpoch | EmptyAxisMask
    | AxisOutsidePolicy | EpochReplayed | SequenceReplayed | RateLimited
  {
    function Code(): u32 {
      0x4741_0000 + match this
        case BootMismatch => 1 case SourceUnauthorized => 2 case AuthorityInsufficient => 3
        case PolicyVersionMismatch => 4 case DeadlineExpired => 5 case TtlTooLong => 6
        case ZeroSequence => 7 case ZeroEpoch => 8 case EmptyAxisMask => 9
        case AxisOutsidePolicy => 10 case EpochReplayed => 11 case SequenceReplayed => 12
        case RateLimited => 13
    }
  }

  datatype SourceState = SourceState(
    lastEpoch: u64, lastSequence: u64, windowStartNs: u64, acceptedInWindow: u16)

  const EMPTY_SOURCE := SourceState(0, 0, 0, 0)

  type Sources = s: seq<SourceState> | |s| == 4
    witness [EMPTY_SOURCE, EMPTY_SOURCE, EMPTY_SOURCE, EMPTY_SOURCE]

  const FRESH_SOURCES: Sources := [EMPTY_SOURCE, EMPTY_SOURCE, EMPTY_SOURCE, EMPTY_SOURCE]

  datatype Gate = Gate(bootId: u64, policy: NormalPolicy)

  type Decision = Result<MotionPermit, IngressError>

  /** The first authorized slot at or after `from` that names the source. */
  function FindSource(p: NormalPolicy, id: u64, from: nat): (r: Option<nat>)
    requires from <= p.authorizedSourceCount
    ensures r.Some? ==> from <= r.value < p.authorizedSourceCount
                        && p.authorizedSources[r.value] == id
                        && forall k :: from <= k < r.value ==> p.authorizedSources[k] != id
    ensures r.None? ==> forall k :: from <= k < p.authorizedSourceCount ==> p.authorizedSources[k] != id
    decreases p.authorizedSourceCount - from
  {
    if from == p.authorizedSourceCount then None
    else if p.authorizedSources[from] == id then Some(from)
    else FindSource(p, id, from + 1)
  }

  function SourceIndex(p: NormalPolicy, id: u64): (r: Option<nat>)
    ensures r.Some? ==> r.value < 4 && p.authorizedSources[r.value] == id
  {
    FindSource(p, id, 0)
  }

  function AxesOutside(axisMask: u32, allowed: u32): nat {
    assert Bits.Pow2(32) == 0x1_0000_0000 by { Pow32(); }
    Bits.And(axisMask, Bits.Not(allowed, 32))
  }

  lemma Pow32()
    ensures Bits.Pow2(32) == 0x1_0000_0000
  {
    assert Bits.Pow2(8) == 0x100;
    assert Bits.Pow2(16) == 0x1_0000;
    assert Bits.Pow2(24) == 0x100_0000;
  }

  /** The checks that precede the per-source ones, in the order of the source. */
  function StaticRefusal(g: Gate, c: Command, now: u64): (r: Option<IngressError>)
    ensures r != Some(RateLimited)
    ensures r.None? ==> SourceIndex(g.policy, c.sourceId).Some?
  {
    if c.bootId != g.bootId then Some(BootMismatch)
    else if SourceIndex(g.policy, c.sourceId).None? then Some(SourceUnauthorized)
    else if c.authority < g.policy.minimumAuthority then Some(AuthorityInsufficient)
    else if c.policyVersion != g.policy.permitPolicyVersion then Some(PolicyVersionMismatch)
    else if c.deadlineNs <= now then Some(DeadlineExpired)
    else if SatSub(c.deadlineNs, now) > g.policy.maxTtlNs then Some(TtlTooLong)
    else if c.sequence == 0 then Some(ZeroSequence)
    else if c.permitEpoch == 0 then Some(ZeroEpoch)
    else if c.axisMask == 0 then Some(EmptyAxisMask)
    else if AxesOutside(c.axisMask, g.policy.allowedAxisMask) != 0 then Some(AxisOutsidePolicy)
    else None
  }

  function ReplayRefusal(s: SourceState, c: Command): (r: Option<IngressError>)
    ensures r != Some(RateLimited)
  {
    if c.permitEpoch < s.lastEpoch then Some(EpochReplayed)
    else if c.permitEpoch == s.lastEpoch && c.sequence <= s.lastSequence then Some(SequenceReplayed)
    else None
  }

  predicate RateExhausted(g: Gate, s: SourceState, now: u64) {
    SatSub(now, s.windowStartNs) < g.policy.rateWindowNs
    && s.acceptedInWindow >= g.policy.maxCommandsPerWindow
  }

  /** The slot of the source that may send this command, or why it may not. */
  function Preflight(g: Gate, sources: Sources, c: Command, now: u64): (r: Result<nat, IngressError>)
    ensures r.Ok? ==> SourceIndex(g.policy, c.sourceId) == Some(r.value)
  {
    match StaticRefusal(g, c, now)
    case Some(e) => Err(e)
    case None =>
      var slot := SourceIndex(g.policy, c.sourceId).value;
      match ReplayRefusal(sources[slot], c)
      case Some(e) => Err(e)
      case None => if RateExhausted(g, sources[slot], now) then Err(RateLimited) else Ok(slot)
  }

  function PermitFor(c: Command): MotionPermit {
    MotionPermit(c.bootId, c.sourceId, c.permitEpoch, c.sequence, c.deadlineNs,
                 c.axisMask, c.authority, c.policyVersion)
  }

  function Decide(g: Gate, sources: Sources, c: Command, now: u64): Decision {
    match Preflight(g, sources, c, now)
    case Ok(_) => Ok(PermitFor(c))
    case Err(e) => Err(e)
  }

  /** The state of a source after one of its commands was admitted. */
  function Charged(g: Gate, s: SourceState, c: Command, now: u64): SourceState {
    var expired := SatSub(now, s.windowStartNs) >= g.policy.rateWindowNs;
    SourceState(c.permitEpoch, c.sequence,
                if expired then now else s.windowStartNs,
                SatAdd16(if expired then 0 else s.acceptedInWindow, 1))
  }

  function Step(g: Gate, sources: Sources, c: Command, now: u64): Sources {
    match Preflight(g, sources, c, now)
    case Ok(slot) => sources[slot := Charged(g, sources[slot], c, now)]
    case Err(_) => sources
  }

  /** An admitted command was sent by an authorized source of this boot, is still
      alive but not for longer than the policy allows, asks only for allowed axes
      and advances that source's order within its rate; and nothing more is asked. */
  lemma AdmissionIff(g: Gate, sources: Sources, c: Command, now: u64)
    ensures Decide(g, sources, c, now).Ok? <==>
            && c.bootId == g.bootId
            && (exists k :: 0 <= k < g.policy.authorizedSourceCount
                            && g.policy.authorizedSources[k] == c.sourceId)
            && c.authority >= g.policy.minimumAuthority
            && c.policyVersion == g.policy.permitPolicyVersion
            && now < c.deadlineNs <= now + g.policy.maxTtlNs
            && c.sequence > 0 && c.permitEpoch > 0
            && c.axisMask != 0
            && (forall i: nat :: Bits.Bit(c.axisMask, i) ==> Bits.Bit(g.policy.allowedAxisMask, i))
            && (var s := sources[SourceIndex(g.policy, c.sourceId).value];
                && (s.lastEpoch < c.permitEpoch
                    || (s.lastEpoch == c.permitEpoch && s.lastSequence < c.sequence))
                && !RateExhausted(g, s, now))
  {
    Pow32();
    AxesOutsideIff(c.axisMask, g.policy.allowedAxisMask);
  }

  /** The mask test refuses exactly the commands that name a disallowed axis. */
  lemma AxesOutsideIff(axes: u32, allowed: u32)
    ensures AxesOutside(axes, allowed) == 0 <==>
            forall i: nat :: Bits.Bit(axes, i) ==> Bits.Bit(allowed, i)
  {
    Pow32();
    var outside := AxesOutside(axes, allowed);
    var others := Bits.Not(allowed, 32);
    if outside == 0 {
      forall i: nat | Bits.Bit(axes, i) ensures Bits.Bit(allowed, i) {
        Bits.AndBit(axes, others, i);
        Bits.ZeroBits(i);
        Bits.NotBit(allowed, 32, i);
        if i >= 32 { Bits.HighBitsClear(axes, 32, i); }
      }
    } else {
      Bits.AndBound(axes, others);
      var i := Bits.NonzeroHasBit(outside, 32);
      Bits.AndBit(axes, others, i);
      Bits.NotBit(allowed, 32, i);
    }
  }

  datatype AuditDecision = Accepted | Rejected

  datatype Audit = Audit(
    sequence: u64, timestampNs: u64, sourceId: u64, permitEpoch: u64, commandSequence: u64,
    decision: AuditDecision, errorCode: u32)

  const EMPTY_AUDIT := Audit(0, 0, 0, 0, 0, Rejected, 0)

  function AuditFor(sequence: u64, c: Command, now: u64, d: Decision): Audit {
    Audit(sequence, now, c.sourceId, c.permitEpoch, c.sequence,
          if d.Ok? then Accepted else Rejected, if d.Ok? then 0 else d.error.Code())
  }

  datatype Timed = Timed(command: Command, nowNs: u64)

  /** Source states after a whole trace of commands. */
  ghost function After(g: Gate, trace: seq<Timed>): Sources {
    if trace == [] then FRESH_SOURCES
    else
      var n := |trace| - 1;
      Step(g, After(g, trace[..n]), trace[n].command, trace[n].nowNs)
  }

  ghost function DecisionAt(g: Gate, trace: seq<Timed>, i: nat): Decision
    requires i < |trace|
  {
    Decide(g, After(g, trace[..i]), trace[i].command, trace[i].nowNs)
  }

  /** What the audit trail of a whole trace should say, oldest first. */
  ghost function AuditLog(g: Gate, trace: seq<Timed>): (log: seq<Audit>)
    ensures |log| == |trace|
  {
    if trace == [] then []
    else
      var n := |trace| - 1;
      AuditLog(g, trace[..n])
      + [AuditFor(Min(n + 1, U64_MAX), trace[n].command, trace[n].nowNs, DecisionAt(g, trace, n))]
  }

  lemma {:induction false} AuditLogAt(g: Gate, trace: seq<Timed>, i: nat)
    requires i < |trace|
    ensures AuditLog(g, trace)[i]
         == AuditFor(Min(i + 1, U64_MAX), trace[i].command, trace[i].nowNs, DecisionAt(g, trace, i))
    decreases |trace|
  {
    var n := |trace| - 1;
    if i < n {
      AuditLogAt(g, trace[..n], i);
      assert trace[..n][..i] == trace[..i];
    }
  }

  lemma RingPosition(n: nat, count: nat, index: nat)
    requires count <= 32 && count <= n && index < count
    ensures ((n % 32 + 32 - count) % 32 + index) % 32 == (n - count + index) % 32
  {
  }

  class Ingress {
    const gate: Gate
    const sources: array<SourceState>
    const audits: array<Audit>
    var auditHead: nat
    var auditCount: nat
    var auditSequence: u64
    ghost var trace: seq<Timed>
    ghost var log: seq<Audit>

    /** The ring holds the newest audits of the log, at most 32 of them. */
    ghost predicate RingHolds()
      reads this, audits
    {
      && audits.Length == MAX_INGRESS_AUDITS
      && auditHead == |log| % 32 && auditCount == Min(|log|, 32)
      && auditSequence == Min(|log|, U64_MAX)
      && forall k :: |log| - auditCount <= k < |log| ==> audits[k % 32] == log[k]
    }

    ghost predicate Valid()
      reads this, sources, audits
    {
      && RingHolds() && log == AuditLog(gate, trace)
      && sources.Length == MAX_AUTHORIZED_SOURCES && sources[..] == After(gate, trace)
    }

    constructor (bootId: u64, policy: Policy)
      ensures Valid() && fresh(sources) && fresh(audits)
      ensures trace == [] && gate == Gate(bootId, Normalized(policy))
    {
      gate := Gate(bootId, Normalized(policy));
      sources := new SourceState[4](_ => EMPTY_SOURCE);
      audits := new Audit[32](_ => EMPTY_AUDIT);
      auditHead, auditCount, auditSequence := 0, 0, 0;
      trace, log := [], [];
    }

    /** The permit or refusal is the one the whole earlier trace calls for, and
        the command joins the trace. */
    method Admit(c: Command, now: u64) returns (r: Decision)
      requires Valid()
      modifies this, sources, audits
      ensures Valid()
      ensures trace == old(trace) + [Timed(c, now)]
      ensures r == DecisionAt(gate, trace, |trace| - 1)
    {
      var pre := Preflight(gate, sources[..], c, now);
      ghost var extended := trace + [Timed(c, now)];
      assert extended[..|trace|] == trace;
      match pre {
        case Ok(slot) =>
          var s := sources[slot];
          if SatSub(now, s.windowStartNs) >= gate.policy.rateWindowNs {
            s := s.(windowStartNs := now, acceptedInWindow := 0);
          }
          s := s.(lastEpoch := c.permitEpoch, lastSequence := c.sequence,
                  acceptedInWindow := SatAdd16(s.acceptedInWindow, 1));
          sources[slot] := s;
          RecordAudit(c, now, Accepted, 0);
          r := Ok(PermitFor(c));
        case Err(e) =>
          RecordAudit(c, now, Rejected, e.Code());
          r := Err(e);
      }
      trace := extended;
    }

    method RecordAudit(c: Command, now: u64, decision: AuditDecision, errorCode: u32)
      requires RingHolds()
      modifies `auditHead, `auditCount, `auditSequence, `log, audits
      ensures RingHolds()
      ensures log == old(log) + [Audit(Min(|old(log)| + 1, U64_MAX), now, c.sourceId, c.permitEpoch,
                                       c.sequence, decision, errorCode)]
    {
      auditSequence := SatAdd64(auditSequence, 1);
      audits[auditHead] :=
        Audit(auditSequence, now, c.sourceId, c.permitEpoch, c.sequence, decision, errorCode);
      log := log + [audits[auditHead]];
      auditHead := (auditHead + 1) % MAX_INGRESS_AUDITS;
      auditCount := Min(auditCount + 1, MAX_INGRESS_AUDITS);
    }

    /** Enumerates the newest decisions of the whole trace, oldest first: index
        `i` is the decision on command `n - min(n, 32) + i`. */
    method AuditAt(index: nat) returns (r: Option<Audit>)
      requires Valid()
      ensures var n := |trace|; var kept := Min(n, 32);
              r == if index < kept then Some(AuditLog(gate, trace)[n - kept + index]) else None
    {
      if index >= auditCount {
        return None;
      }
      var oldest := (auditHead + MAX_INGRESS_AUDITS - auditCount) % MAX_INGRESS_AUDITS;
      var at := (oldest + index) % MAX_INGRESS_AUDITS;
      RingPosition(|log|, auditCount, index);
      return Some(audits[at]);
    }
  }
}
