/** Whole runs of the incident correlator: what every incident says about the
    evidence that was merged into it, and where every incident went. */
module IncidentHistory {
  import opened Machine
  import opened Evidence
  import opened IncidentCorrelator

  // ------------------------------------------------- summaries of evidence

  /** One merged piece of evidence: how it was classified, and the cycle it counts for. */
  datatype Item = Item(evidence: RuntimeEvidence, class_: Class, cycle: u64) {
    function Time(): u64 { evidence.timestampNs }
  }

  datatype Summary = Summary(
    first: u64, last: u64, severity: Severity, action: Action, confidence: u8,
    observed: u64, threshold: u64, count: u32, cycleFirst: u64, cycleLast: u64)

  const NEUTRAL := Summary(0xFFFF_FFFF_FFFF_FFFF, 0, Info, ContinueObserve, 0, 0, 0, 0, 0, 0)

  function One(x: Item): Summary {
    var e := x.evidence;
    Summary(e.timestampNs, e.timestampNs, x.class_.severity, x.class_.action, x.class_.confidence,
            e.observedValue, e.threshold, e.count, x.cycle, x.cycle)
  }

  function Combine(a: Summary, b: Summary): Summary {
    Summary(Min(a.first, b.first), Max(a.last, b.last),
            MaxSeverity(a.severity, b.severity), MaxAction(a.action, b.action),
            Max(a.confidence, b.confidence), Max(a.observed, b.observed),
            Max(a.threshold, b.threshold), SatAdd32(a.count, b.count),
            MergeFirstNonzero(a.cycleFirst, b.cycleFirst), Max(a.cycleLast, b.cycleLast))
  }

  ghost function Fold(h: seq<Item>): Summary {
    if h == [] then NEUTRAL
    else
      var n := |h| - 1;
      Combine(Fold(h[..n]), One(h[n]))
  }

  lemma CombineSwap(a: Summary, x: Summary, y: Summary)
    ensures Combine(Combine(a, x), y) == Combine(Combine(a, y), x)
  {
  }

  lemma {:induction false} PullOut(h: seq<Item>, k: nat)
    requires k < |h|
    ensures Fold(h) == Combine(Fold(h[..k] + h[k + 1..]), One(h[k]))
    decreases |h|
  {
    hide Combine, One;
    var n := |h| - 1;
    if k == n {
      assert h[..k] + h[k + 1..] == h[..n];
    } else {
      PullOut(h[..n], k);
      var rest := h[..n][..k] + h[..n][k + 1..];
      assert h[..k] + h[k + 1..] == rest + [h[n]];
      assert (rest + [h[n]])[..n - 1] == rest;
      CombineSwap(Fold(rest), One(h[k]), One(h[n]));
    }
  }

  lemma WithoutAt<T>(s: seq<T>, k: nat)
    requires k < |s|
    ensures multiset(s[..k] + s[k + 1..]) == multiset(s) - multiset{s[k]}
  {
    assert s == s[..k] + [s[k]] + s[k + 1..];
  }

  /** The summary of an incident does not depend on the order its evidence came in. */
  lemma {:induction false} FoldIgnoresOrder(h: seq<Item>, h': seq<Item>)
    requires multiset(h) == multiset(h')
    ensures Fold(h) == Fold(h')
    decreases |h|
  {
    hide Combine, One;
    assert |h| == |multiset(h)| == |h'|;
    if h != [] {
      var n := |h| - 1;
      assert h[n] in multiset(h');
      var k :| 0 <= k < |h'| && h'[k] == h[n];
      var rest := h'[..k] + h'[k + 1..];
      WithoutAt(h', k);
      WithoutAt(h, n);
      assert h[..n] + h[n + 1..] == h[..n];
      FoldIgnoresOrder(h[..n], rest);
      PullOut(h', k);
    }
  }

  ghost function SumCounts(h: seq<Item>): nat {
    if h == [] then 0 else SumCounts(h[..|h| - 1]) + h[|h| - 1].evidence.count
  }

  ghost predicate Dominates(s: Summary, x: Item) {
    && s.first <= x.Time() <= s.last
    && s.severity.Rank() >= x.class_.severity.Rank() && s.action.Rank() >= x.class_.action.Rank()
    && s.confidence >= x.class_.confidence
    && s.observed >= x.evidence.observedValue && s.threshold >= x.evidence.threshold
    && (x.cycle != 0 ==> 0 < s.cycleFirst <= x.cycle <= s.cycleLast)
  }

  /** Every field of a summary bounds all of the evidence, and the count is the
      saturated total. */
  lemma {:induction false} FoldBounds(h: seq<Item>)
    ensures forall x :: x in h ==> Dominates(Fold(h), x)
    ensures Fold(h).count == Min(SumCounts(h), U32_MAX)
    decreases |h|
  {
    if h != [] {
      var n := |h| - 1;
      FoldBounds(h[..n]);
      forall x | x in h ensures Dominates(Fold(h), x) {
        if x in h[..n] { assert Dominates(Fold(h[..n]), x); } else { assert x == h[n]; }
      }
    }
  }

  /** Some piece of evidence attains the value `v` of a field. */
  ghost predicate Attained(h: seq<Item>, field: Item -> int, v: int) {
    exists i :: 0 <= i < |h| && field(h[i]) == v
  }

  lemma AttainedSnoc(h: seq<Item>, y: Item, field: Item -> int, v: int)
    requires Attained(h, field, v) || field(y) == v
    ensures Attained(h + [y], field, v)
  {
    if Attained(h, field, v) {
      var i :| 0 <= i < |h| && field(h[i]) == v;
      assert field((h + [y])[i]) == v;
    } else {
      assert field((h + [y])[|h|]) == v;
    }
  }

  /** And every bound is tight: some piece of evidence attains it. */
  lemma {:induction false} FoldAttained(h: seq<Item>)
    requires h != []
    ensures Attained(h, (x: Item) => x.Time(), Fold(h).first)
    ensures Attained(h, (x: Item) => x.Time(), Fold(h).last)
    ensures Attained(h, (x: Item) => x.class_.severity.Rank(), Fold(h).severity.Rank())
    ensures Attained(h, (x: Item) => x.class_.action.Rank(), Fold(h).action.Rank())
    ensures Attained(h, (x: Item) => x.class_.confidence, Fold(h).confidence)
    ensures Attained(h, (x: Item) => x.evidence.observedValue, Fold(h).observed)
    ensures Attained(h, (x: Item) => x.evidence.threshold, Fold(h).threshold)
    ensures Attained(h, (x: Item) => x.cycle, Fold(h).cycleFirst)
    ensures Attained(h, (x: Item) => x.cycle, Fold(h).cycleLast)
    decreases |h|
  {
    var n := |h| - 1;
    var p, y := h[..n], h[n];
    assert h == p + [y];
    if n > 0 { FoldAttained(p); } else { assert Fold(p) == NEUTRAL; }
    hide Attained;
    AttainedSnoc(p, y, (x: Item) => x.Time(), Fold(h).first);
    AttainedSnoc(p, y, (x: Item) => x.Time(), Fold(h).last);
    AttainedSnoc(p, y, (x: Item) => x.class_.severity.Rank(), Fold(h).severity.Rank());
    AttainedSnoc(p, y, (x: Item) => x.class_.action.Rank(), Fold(h).action.Rank());
    AttainedSnoc(p, y, (x: Item) => x.class_.confidence, Fold(h).confidence);
    AttainedSnoc(p, y, (x: Item) => x.evidence.observedValue, Fold(h).observed);
    AttainedSnoc(p, y, (x: Item) => x.evidence.threshold, Fold(h).threshold);
    AttainedSnoc(p, y, (x: Item) => x.cycle, Fold(h).cycleFirst);
    AttainedSnoc(p, y, (x: Item) => x.cycle, Fold(h).cycleLast);
  }

  // ------------------------------------------------------- one incident

  function SummaryOf(x: Incident): Summary {
    Summary(x.firstSeenNs, x.lastSeenNs, x.severity, x.recommendedAction, x.confidencePercent,
            x.observedValue, x.threshold, x.count, x.cycleFirst, x.cycleLast)
  }

  ghost predicate StoresFirstEight(x: Incident, h: seq<Item>) {
    && x.evidenceCount == Min(|h|, 8)
    && x.lostEvents == Min(|h| - Min(|h|, 8), U32_MAX)
    && (forall i :: 0 <= i < x.evidenceCount ==> x.evidence[i] == h[i].evidence)
    && forall i :: x.evidenceCount <= i < 8 ==> x.evidence[i] == EMPTY_EVIDENCE
  }

  /** Some evidence comes after time `t`, but not by more than `w`. */
  ghost predicate Bridged(h: seq<Item>, t: nat, w: nat) {
    exists j :: 0 <= j < |h| && t < h[j].Time() <= t + w
  }

  /** Sorted by time, no two neighbouring pieces of evidence are more than `w` apart. */
  ghost predicate NoGap(h: seq<Item>, w: nat) {
    forall i :: 0 <= i < |h| ==> h[i].Time() == Fold(h).last || Bridged(h, h[i].Time(), w)
  }

  ghost predicate ShortSpan(h: seq<Item>, w: nat) {
    Fold(h).last - Fold(h).first <= (|h| - 1) * w
  }

  ghost predicate SameOrigin(x: Incident, h: seq<Item>) {
    && h != []
    && (var e := h[0].evidence;
        x.pid == e.pid && x.tid == e.tid && x.cpu == e.cpu && x.irq == e.irq
        && x.netdevIfindex == e.netdevIfindex)
    && forall y :: y in h ==>
         && y.class_.code == x.code && y.class_.action != ContinueObserve
         && y.evidence.bootId == x.bootId && y.evidence.agentEpoch == x.agentEpoch
  }

  /** Everything an incident records, in terms of the evidence merged into it. */
  ghost predicate Explains(x: Incident, h: seq<Item>, w: nat) {
    && SameOrigin(x, h)
    && SummaryOf(x) == Fold(h)
    && StoresFirstEight(x, h)
    && NoGap(h, w)
    && ShortSpan(h, w)
  }

  lemma OpenedExplained(s: State, e: RuntimeEvidence, c: Class)
    requires e.bootId == s.bootId && e.agentEpoch == s.agentEpoch && c.action != ContinueObserve
    ensures Explains(Opened(s, e, c), [Item(e, c, FirstCycle(s.context, e))], s.windowNs)
  {
    var h := [Item(e, c, FirstCycle(s.context, e))];
    assert Fold(h) == Combine(Fold(h[..0]), One(h[0]));
    assert (|h| - 1) * s.windowNs == 0;
  }

  lemma FoldSnoc(h: seq<Item>, y: Item)
    ensures Fold(h + [y]) == Combine(Fold(h), One(y))
  {
    assert (h + [y])[..|h|] == h;
  }

  lemma BridgedSnoc(h: seq<Item>, y: Item, t: nat, w: nat)
    requires Bridged(h, t, w) || t < y.Time() <= t + w
    ensures Bridged(h + [y], t, w)
  {
    var h' := h + [y];
    if Bridged(h, t, w) {
      var j :| 0 <= j < |h| && t < h[j].Time() <= t + w;
      assert h'[j] == h[j];
    } else {
      assert h'[|h|] == y;
    }
  }

  lemma MergedNoGap(h: seq<Item>, y: Item, w: nat)
    requires h != [] && NoGap(h, w) && AbsDiff(Fold(h).last, y.Time()) <= w
    ensures NoGap(h + [y], w)
  {
    FoldSnoc(h, y);
    hide Fold, Bridged;
    var h', last := h + [y], Fold(h).last;
    assert Fold(h').last == Max(last, y.Time());
    forall i | 0 <= i < |h'|
      ensures h'[i].Time() == Fold(h').last || Bridged(h', h'[i].Time(), w)
    {
      var t := h'[i].Time();
      if i < |h| && t != last {
        BridgedSnoc(h, y, t, w);
      } else if i < |h| && y.Time() > last {
        BridgedSnoc(h, y, t, w);
      } else if i == |h| && t < last {
        LastBridges(h, t, w);
        BridgedSnoc(h, y, t, w);
      }
    }
  }

  lemma LastBridges(h: seq<Item>, t: nat, w: nat)
    requires h != [] && t < Fold(h).last <= t + w
    ensures Bridged(h, t, w)
  {
    FoldAttained(h);
    var k :| 0 <= k < |h| && h[k].Time() == Fold(h).last;
  }

  lemma MergedShortSpan(h: seq<Item>, y: Item, w: nat)
    requires h != [] && ShortSpan(h, w) && AbsDiff(Fold(h).last, y.Time()) <= w
    ensures ShortSpan(h + [y], w)
  {
    FoldSnoc(h, y);
    FoldBounds(h);
    assert Dominates(Fold(h), h[0]);
    assert (|h + [y]| - 1) * w == (|h| - 1) * w + w;
    assert 0 <= (|h| - 1) * w;
  }

  lemma MergedStores(x: Incident, h: seq<Item>, e: RuntimeEvidence, c: Class)
    requires StoresFirstEight(x, h)
    ensures StoresFirstEight(Merged(x, e, c), h + [Item(e, c, e.cycleSeq)])
  {
  }

  lemma MergedOrigin(x: Incident, h: seq<Item>, e: RuntimeEvidence, c: Class, w: u64)
    requires SameOrigin(x, h) && Mergeable(x, c.code, e, w) && c.action != ContinueObserve
    requires x.evidenceCount <= 8
    ensures SameOrigin(Merged(x, e, c), h + [Item(e, c, e.cycleSeq)])
  {
    var h' := h + [Item(e, c, e.cycleSeq)];
    assert h'[0] == h[0];
  }

  lemma MergedSummary(x: Incident, e: RuntimeEvidence, c: Class)
    requires x.evidenceCount <= 8
    ensures SummaryOf(Merged(x, e, c)) == Combine(SummaryOf(x), One(Item(e, c, e.cycleSeq)))
  {
  }

  /** Merging keeps an incident an exact account of its evidence. */
  lemma MergedExplained(x: Incident, h: seq<Item>, e: RuntimeEvidence, c: Class, w: u64)
    requires Explains(x, h, w) && Mergeable(x, c.code, e, w) && c.action != ContinueObserve
    ensures Explains(Merged(x, e, c), h + [Item(e, c, e.cycleSeq)], w)
  {
    var y := Item(e, c, e.cycleSeq);
    assert x.evidenceCount <= 8 && h != [] && AbsDiff(Fold(h).last, y.Time()) <= w;
    hide Fold, NoGap, ShortSpan, StoresFirstEight, SameOrigin, Merged, Mergeable, Combine, One;
    FoldSnoc(h, y);
    MergedNoGap(h, y, w);
    MergedShortSpan(h, y, w);
    MergedStores(x, h, e, c);
    MergedOrigin(x, h, e, c, w);
    MergedSummary(x, e, c);
  }

  // ------------------------------------------------------------ whole runs

  datatype Op = Observe(context: CycleContext) | Arrive(evidence: RuntimeEvidence) | TakeOne | NewEpoch(epoch: u64)

  datatype Entry = Entry(incident: Incident, history: seq<Item>)

  /** A run's state together with the evidence behind every retained incident
      and a record of every incident that left the ring this epoch. */
  datatype Log = Log(
    state: State, live: seq<seq<Item>>, gone: seq<Entry>, created: nat, popped: nat, dropped: nat)

  ghost predicate Shaped(capacity: nat, l: Log) {
    WellFormed(capacity, l.state) && |l.live| == |l.state.ring|
  }

  ghost function Start(bootId: u64, epoch: u64, windowNs: u64): Log {
    Log(Fresh(bootId, epoch, windowNs), [], [], 0, 0, 0)
  }

  /** The class under which evidence enters the ring, if it does. */
  ghost function Accepted(s: State, e: RuntimeEvidence): Option<Class> {
    if e.bootId != s.bootId || e.agentEpoch != s.agentEpoch then None
    else Classify(e, CorrelatesWithCycle(s.context, s.windowNs, e))
  }

  ghost function LogEvidence(capacity: nat, l: Log, e: RuntimeEvidence, c: Class): Log
    requires Shaped(capacity, l)
  {
    var s := l.state;
    var s' := IngestClassified(capacity, s, e, c).0;
    match FindMergeTarget(s.ring, c.code, e, s.windowNs)
    case Some(i) => l.(state := s', live := l.live[i := l.live[i] + [Item(e, c, e.cycleSeq)]])
    case None =>
      var h := [Item(e, c, FirstCycle(s.context, e))];
      var l' := l.(state := s', live := Push(capacity, l.live, h), created := l.created + 1);
      if |s.ring| < capacity then l'
      else
        var out := if capacity == 0 then Entry(Opened(s, e, c), h) else Entry(s.ring[0], l.live[0]);
        l'.(gone := l.gone + [out], dropped := l.dropped + 1)
  }

  ghost function Step(capacity: nat, l: Log, op: Op): Log
    requires Shaped(capacity, l)
  {
    match op
    case Observe(context) => l.(state := ObserveCycle(l.state, context).0)
    case Arrive(e) =>
      (match Accepted(l.state, e)
       case None => l
       case Some(c) => LogEvidence(capacity, l, e, c))
    case TakeOne =>
      if l.live == [] then l
      else l.(state := Pop(l.state).0, live := l.live[1..],
              gone := l.gone + [Entry(l.state.ring[0], l.live[0])], popped := l.popped + 1)
    case NewEpoch(epoch) => Start(l.state.bootId, epoch, l.state.windowNs)
  }

  /** Identifier of the k-th incident of an epoch: ids count up from 1 and skip
      zero when they wrap. */
  function IdOf(k: nat): (id: u64)
    ensures id >= 1
  {
    k % U64_MAX + 1
  }

  ghost predicate Explained(l: Log) {
    && (forall i :: 0 <= i < |l.live| && i < |l.state.ring| ==>
          Explains(l.state.ring[i], l.live[i], l.state.windowNs))
    && forall x :: x in l.gone ==> Explains(x.incident, x.history, l.state.windowNs)
  }

  ghost predicate Numbered(l: Log) {
    && l.state.nextIncidentId == IdOf(l.created)
    && |l.state.ring| <= l.created
    && forall i :: 0 <= i < |l.state.ring| ==>
         l.state.ring[i].incidentId == IdOf(l.created - |l.state.ring| + i)
  }

  ghost predicate Accounted(l: Log) {
    && l.created == |l.live| + l.popped + l.dropped
    && |l.gone| == l.popped + l.dropped
    && l.state.droppedIncidents == Min(l.dropped, U32_MAX)
  }

  ghost predicate Consistent(capacity: nat, l: Log) {
    Shaped(capacity, l) && Explained(l) && Numbered(l) && Accounted(l)
  }

  lemma NextId(k: nat)
    ensures NextNonzero64(IdOf(k)) == IdOf(k + 1)
  {
  }

  lemma AcceptedFacts(s: State, e: RuntimeEvidence)
    ensures var a := Accepted(s, e);
            a.Some? ==> e.bootId == s.bootId && e.agentEpoch == s.agentEpoch
                        && a.value.action != ContinueObserve
  {
  }

  lemma MergeKeepsConsistent(capacity: nat, l: Log, e: RuntimeEvidence, c: Class)
    requires Consistent(capacity, l) && Accepted(l.state, e) == Some(c)
    requires FindMergeTarget(l.state.ring, c.code, e, l.state.windowNs).Some?
    ensures Consistent(capacity, LogEvidence(capacity, l, e, c))
  {
    AcceptedFacts(l.state, e);
    hide Explains, Mergeable, FindMergeTarget, Accepted, IdOf;
    var i := FindMergeTarget(l.state.ring, c.code, e, l.state.windowNs).value;
    var x, h := l.state.ring[i], l.live[i];
    MergedExplained(x, h, e, c, l.state.windowNs);
    var x' := Merged(x, e, c);
    assert x'.evidenceCount <= 8 && x'.incidentId == x.incidentId;
    hide Merged;
    var l' := LogEvidence(capacity, l, e, c);
    assert l'.state.ring == l.state.ring[i := x'];
  }

  lemma OpenKeepsConsistent(capacity: nat, l: Log, e: RuntimeEvidence, c: Class)
    requires Consistent(capacity, l) && Accepted(l.state, e) == Some(c)
    requires FindMergeTarget(l.state.ring, c.code, e, l.state.windowNs).None?
    ensures Consistent(capacity, LogEvidence(capacity, l, e, c))
  {
    AcceptedFacts(l.state, e);
    hide Explains, Mergeable, FindMergeTarget, Accepted, IdOf, Push;
    OpenedExplained(l.state, e, c);
    NextId(l.created);
    var x := Opened(l.state, e, c);
    assert x.evidenceCount <= 8 && x.incidentId == IdOf(l.created);
    hide Opened;
    var h := [Item(e, c, FirstCycle(l.state.context, e))];
    var l' := LogEvidence(capacity, l, e, c);
    var n, n' := |l.state.ring|, |l'.state.ring|;
    assert l'.state.ring == Push(capacity, l.state.ring, x) && l'.live == Push(capacity, l.live, h);
    forall i | 0 <= i < n'
      ensures l'.state.ring[i].incidentId == IdOf(l'.created - n' + i)
      ensures Explains(l'.state.ring[i], l'.live[i], l.state.windowNs)
      ensures l'.state.ring[i].evidenceCount <= 8
    {
    }
  }

  lemma StepKeepsConsistent(capacity: nat, l: Log, op: Op)
    requires Consistent(capacity, l)
    ensures Consistent(capacity, Step(capacity, l, op))
  {
    hide Explains, FindMergeTarget, LogEvidence;
    match op
    case Observe(_) =>
    case Arrive(e) =>
      var a := Accepted(l.state, e);
      if a.Some? {
        if FindMergeTarget(l.state.ring, a.value.code, e, l.state.windowNs).Some? {
          MergeKeepsConsistent(capacity, l, e, a.value);
        } else {
          OpenKeepsConsistent(capacity, l, e, a.value);
        }
      }
    case TakeOne =>
    case NewEpoch(_) =>
  }

  ghost function Run(capacity: nat, bootId: u64, epoch: u64, windowNs: u64, ops: seq<Op>): (l: Log)
    ensures Consistent(capacity, l)
  {
    if ops == [] then Start(bootId, epoch, windowNs)
    else
      var before := Run(capacity, bootId, epoch, windowNs, ops[..|ops| - 1]);
      StepKeepsConsistent(capacity, before, ops[|ops| - 1]);
      Step(capacity, before, ops[|ops| - 1])
  }

  /** The log adds nothing to the correlator: its state component moves exactly as
      the correlator's own operations do. */
  lemma LogFollowsCorrelator(capacity: nat, l: Log, op: Op)
    requires Consistent(capacity, l)
    ensures Step(capacity, l, op).state ==
            match op
            case Observe(context) => ObserveCycle(l.state, context).0
            case Arrive(e) => Ingest(capacity, l.state, e).0
            case TakeOne => Pop(l.state).0
            case NewEpoch(epoch) => Restart(l.state, epoch)
  {
    hide Explains, Numbered, Accounted, FindMergeTarget;
  }

  /** In every run the retained identifiers are never zero, follow each other and
      end just before the next one to be given out. */
  lemma RetainedIdsConsecutive(capacity: nat, bootId: u64, epoch: u64, windowNs: u64, ops: seq<Op>)
    ensures var s := Run(capacity, bootId, epoch, windowNs, ops).state;
            var n := |s.ring|;
            && (forall i :: 0 <= i < n ==> s.ring[i].incidentId != 0)
            && (forall i :: 0 <= i && i + 1 < n ==>
                  s.ring[i + 1].incidentId == NextNonzero64(s.ring[i].incidentId))
            && (n > 0 ==> s.nextIncidentId == NextNonzero64(s.ring[n - 1].incidentId))
  {
    var l := Run(capacity, bootId, epoch, windowNs, ops);
    var n := |l.state.ring|;
    hide Run, Explains, IdOf;
    forall i | 0 <= i && i + 1 < n
      ensures l.state.ring[i + 1].incidentId == NextNonzero64(l.state.ring[i].incidentId)
    {
      NextId(l.created - n + i);
    }
    if n > 0 {
      NextId(l.created - 1);
      assert l.state.ring[n - 1].incidentId == IdOf(l.created - 1);
    }
  }

  /** Short of saturation, every incident created this epoch is retained, was
      popped or was overwritten and counted as dropped. */
  lemma CreatedIncidentsAccounted(capacity: nat, bootId: u64, epoch: u64, windowNs: u64, ops: seq<Op>)
    ensures var l := Run(capacity, bootId, epoch, windowNs, ops);
            l.state.droppedIncidents < U32_MAX ==>
              l.created == |l.state.ring| + l.popped + l.state.droppedIncidents
  {
    hide Run, Explains, Numbered;
  }

  /** In every run, each incident in or out of the ring spans at most one window
      per extra piece of evidence it reports, unless its loss counter is saturated. */
  lemma IncidentSpan(capacity: nat, bootId: u64, epoch: u64, windowNs: u64, ops: seq<Op>, x: Incident)
    requires var l := Run(capacity, bootId, epoch, windowNs, ops);
             x in l.state.ring || exists y :: y in l.gone && y.incident == x
    requires x.lostEvents < U32_MAX
    ensures x.lastSeenNs - x.firstSeenNs
         <= (x.evidenceCount + x.lostEvents - 1) * Run(capacity, bootId, epoch, windowNs, ops).state.windowNs
  {
    var l := Run(capacity, bootId, epoch, windowNs, ops);
    hide Run, Numbered, Accounted, NoGap, SameOrigin, Fold;
    var h: seq<Item>;
    if x in l.state.ring {
      var i :| 0 <= i < |l.state.ring| && l.state.ring[i] == x;
      h := l.live[i];
    } else {
      var y :| y in l.gone && y.incident == x;
      h := y.history;
    }
    assert Explains(x, h, l.state.windowNs);
    assert |h| == x.evidenceCount + x.lostEvents;
  }
}
