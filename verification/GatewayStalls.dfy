/** Whole runs of the gateway probes with atomic handlers: which stall records can
    appear, and which begin each of them belongs to. */
module GatewayStalls {
  import opened Machine
  import opened ProbeSteps

  datatype Event =
    | Begin(c: Option<Context>, call: GatewayCall, env: Env)
    | End(c: Option<Context>, call: GatewayCall, env: Env)
    | Evict(key: GatewayKey)
  {
    ghost function Key(): GatewayKey {
      if Evict? then key else GatewayKey(call.requestId, env.tgid)
    }
  }

  /** A stall record with the positions of the begin and end events behind it. */
  datatype Stall = Stall(record: RawRecord, begin: nat, end: nat)

  /** `origin` remembers which begin event opened each operation in the table. */
  datatype Run = Run(table: GatewayTable, origin: map<GatewayKey, nat>, stalls: seq<Stall>)

  ghost function Step(r: Run, e: Event, at: nat): Run
    requires r.origin.Keys == r.table.Keys
  {
    var key := e.Key();
    match e
    case Begin(c, call, env) =>
      if GatewayOpens(r.table, c, call, env)
      then r.(table := GatewayOpened(r.table, c, call, env), origin := r.origin[key := at])
      else r
    case End(c, call, env) =>
      if !GatewayCloses(r.table, call, env) then r
      else
        var r' := r.(table := r.table - {key}, origin := r.origin - {key});
        (match GatewayStall(c, r.table[key], call, env)
         case Some(record) => r'.(stalls := r.stalls + [Stall(record, r.origin[key], at)])
         case None => r')
    case Evict(_) => r.(table := r.table - {key}, origin := r.origin - {key})
  }

  ghost function After(events: seq<Event>): (r: Run)
    ensures r.origin.Keys == r.table.Keys
    decreases |events|
  {
    if events == [] then Run(map[], map[], [])
    else
      var n := |events| - 1;
      Step(After(events[..n]), events[n], n)
  }

  /** Event `b` is the begin that opened this operation. */
  ghost predicate Opened(events: seq<Event>, b: nat, key: GatewayKey, op: GatewayOperation) {
    && b < |events| && events[b].Begin? && events[b].Key() == key
    && GatewayBeginAllowed(events[b].c, events[b].call, events[b].env.tgid)
    && op == GatewayBegun(events[b].c.value, events[b].call, events[b].env)
  }

  /** A stall record tells the truth about its begin and end events. */
  ghost predicate Truthful(events: seq<Event>, s: Stall) {
    && s.begin < s.end < |events| && events[s.begin].Begin? && events[s.end].End?
    && var b, e := events[s.begin], events[s.end];
       && b.c.Some? && e.c.Some? && b.Key() == e.Key()
       && s.record.evidenceId == b.call.requestId && s.record.pid == b.env.tgid
       && e.call.route == b.call.route && e.call.class_ == b.call.class_
       && s.record.detail == e.call.outcome * 16 + b.call.route
       && b.c.value.gatewayProbeEpoch == e.c.value.gatewayProbeEpoch
       && s.record.threshold == e.c.value.gatewayStallThresholdNs > 0
       && s.record.durationNs == e.env.now - b.env.now > s.record.threshold
  }

  /** Each begin stands for at most one open operation or stall record. */
  ghost predicate Unshared(r: Run) {
    && (forall k, k' :: k in r.origin && k' in r.origin && k != k' ==> r.origin[k] != r.origin[k'])
    && (forall i, j :: 0 <= i < j < |r.stalls| ==> r.stalls[i].begin != r.stalls[j].begin)
    && (forall k, i :: k in r.origin && 0 <= i < |r.stalls| ==> r.stalls[i].begin != r.origin[k])
  }

  ghost predicate Sound(events: seq<Event>, r: Run) {
    && r.origin.Keys == r.table.Keys
    && Unshared(r)
    && (forall k :: k in r.table ==> Opened(events, r.origin[k], k, r.table[k]))
    && (forall i :: 0 <= i < |r.stalls| ==> Truthful(events, r.stalls[i]))
  }

  lemma OpenedExtends(events: seq<Event>, n: nat, b: nat, key: GatewayKey, op: GatewayOperation)
    requires n <= |events| && Opened(events[..n], b, key, op)
    ensures Opened(events, b, key, op)
  {
  }

  lemma TruthfulExtends(events: seq<Event>, n: nat, s: Stall)
    requires n <= |events| && Truthful(events[..n], s)
    ensures Truthful(events, s)
  {
    assert events[..n][s.begin] == events[s.begin] && events[..n][s.end] == events[s.end];
  }

  /** Closing an operation reports the begin that opened it. */
  lemma ClosingIsTruthful(events: seq<Event>, n: nat, b: nat, op: GatewayOperation)
    requires n < |events| && events[n].End? && b < n && Opened(events, b, events[n].Key(), op)
    requires events[n].call.requestId != 0
    ensures var e := events[n];
            var record := GatewayStall(e.c, op, e.call, e.env);
            record.Some? ==> Truthful(events, Stall(record.value, b, n))
  {
  }

  lemma SoundExtends(events: seq<Event>, n: nat, r: Run)
    requires n <= |events| && Sound(events[..n], r)
    ensures Sound(events, r)
  {
    hide Opened, Truthful, Unshared;
    forall k | k in r.table ensures Opened(events, r.origin[k], k, r.table[k]) {
      OpenedExtends(events, n, r.origin[k], k, r.table[k]);
    }
    forall i | 0 <= i < |r.stalls| ensures Truthful(events, r.stalls[i]) {
      TruthfulExtends(events, n, r.stalls[i]);
    }
  }

  lemma OriginsPast(events: seq<Event>, r: Run)
    requires Sound(events, r)
    ensures forall k :: k in r.origin ==> r.origin[k] < |events|
    ensures forall i :: 0 <= i < |r.stalls| ==> r.stalls[i].begin < |events|
  {
  }

  lemma StepUnshared(r: Run, e: Event, at: nat)
    requires r.origin.Keys == r.table.Keys && Unshared(r)
    requires forall k :: k in r.origin ==> r.origin[k] < at
    requires forall i :: 0 <= i < |r.stalls| ==> r.stalls[i].begin < at
    ensures Unshared(Step(r, e, at))
  {
    hide GatewayStall, GatewayOpens;
  }

  lemma {:induction false} RunSound(events: seq<Event>)
    ensures Sound(events, After(events))
    decreases |events|
  {
    if events != [] {
      var n := |events| - 1;
      var r := After(events[..n]);
      RunSound(events[..n]);
      OriginsPast(events[..n], r);
      SoundExtends(events, n, r);
      StepUnshared(r, events[n], n);
      StepSound(events, r);
    }
  }

  lemma StepSound(events: seq<Event>, r: Run)
    requires events != [] && Sound(events, r)
    requires var n := |events| - 1; forall k :: k in r.origin ==> r.origin[k] < n
    requires var n := |events| - 1; Unshared(Step(r, events[n], n))
    ensures var n := |events| - 1; Sound(events, Step(r, events[n], n))
  {
    var n := |events| - 1;
    var e := events[n];
    hide Truthful, Unshared;
    match e
    case Begin(c, call, env) =>
    case End(c, call, env) =>
      if GatewayCloses(r.table, call, env) {
        hide GatewayStall, Opened;
        ClosingIsTruthful(events, n, r.origin[e.Key()], r.table[e.Key()]);
      }
    case Evict(_) =>
  }

  /** With atomic handlers every stall record belongs to one begin of the same
      request, route, class and policy epoch, lasted longer than the threshold, and
      shares its begin with no other record. */
  lemma StallsBelongToDistinctBegins(events: seq<Event>)
    ensures var stalls := After(events).stalls;
            && (forall i :: 0 <= i < |stalls| ==> Truthful(events, stalls[i]))
            && (forall i, j :: 0 <= i < j < |stalls| ==> stalls[i].begin != stalls[j].begin)
  {
    RunSound(events);
  }
}
