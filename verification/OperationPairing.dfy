/** Begin and end probes that pair up through a shared map, as an interleaving of
    their individual map and counter accesses with arbitrary evictions. */
module OperationPairing {
  /** One access by one probe invocation `p`, or an eviction by the map itself. */
  datatype Access<K, V> =
    | Insert(p: nat, key: K, value: V)
    | CountBegin(p: nat)
    | Lookup(p: nat, key: K)
    | Delete(p: nat)
    | CountCompletion(p: nat)
    | Evict(key: K)

  datatype Saved<K, V> = Saved(key: K, value: V)

  /** An end that came to its end, with the value it had looked up. */
  datatype Finish<V> = Finish(p: nat, value: V)

  /** Shared map and counters, and what each running invocation holds: begins that
      inserted but have not counted, ends that looked up, ends that deleted. */
  datatype System<K, V> = System(
    entries: map<K, V>, begins: nat, completions: nat, evictions: nat, overwrites: nat,
    inserted: set<nat>, found: map<nat, Saved<K, V>>, deleted: map<nat, Saved<K, V>>,
    finished: seq<Finish<V>>)

  ghost function Idle<K, V>(): System<K, V> {
    System(map[], 0, 0, 0, 0, {}, map[], map[], [])
  }

  ghost predicate Running<K, V>(s: System<K, V>, p: nat) {
    p in s.inserted || p in s.found || p in s.deleted
  }

  ghost predicate Quiescent<K, V>(s: System<K, V>) {
    s.inserted == {} && s.found == map[] && s.deleted == map[]
  }

  /** `exclusive` is the update mode of the begin probe: an exclusive insert fails
      on a present key, the other kind replaces its value. */
  ghost function Step<K, V>(exclusive: bool, s: System<K, V>, a: Access<K, V>): System<K, V> {
    match a
    case Insert(p, key, value) =>
      if Running(s, p) || (exclusive && key in s.entries) then s
      else s.(entries := s.entries[key := value], inserted := s.inserted + {p},
              overwrites := s.overwrites + if key in s.entries then 1 else 0)
    case CountBegin(p) =>
      if p !in s.inserted then s
      else s.(begins := s.begins + 1, inserted := s.inserted - {p})
    case Lookup(p, key) =>
      if Running(s, p) || key !in s.entries then s
      else s.(found := s.found[p := Saved(key, s.entries[key])])
    case Delete(p) =>
      if p !in s.found then s
      else
        var held := s.found[p];
        var s' := s.(found := s.found - {p});
        if held.key !in s.entries then s'
        else s'.(entries := s.entries - {held.key}, deleted := s.deleted[p := held])
    case CountCompletion(p) =>
      if p !in s.deleted then s
      else s.(completions := s.completions + 1, deleted := s.deleted - {p},
              finished := s.finished + [Finish(p, s.deleted[p].value)])
    case Evict(key) =>
      if key !in s.entries then s
      else s.(entries := s.entries - {key}, evictions := s.evictions + 1)
  }

  ghost function Run<K, V>(exclusive: bool, accesses: seq<Access<K, V>>): System<K, V>
    decreases |accesses|
  {
    if accesses == [] then Idle()
    else
      var n := |accesses| - 1;
      Step(exclusive, Run(exclusive, accesses[..n]), accesses[n])
  }

  /** Every insertion is either still in the map or was completed, evicted or overwritten. */
  ghost predicate Balanced<K, V>(exclusive: bool, s: System<K, V>) {
    && s.begins + |s.inserted|
       == s.completions + |s.deleted| + |s.entries| + s.evictions + s.overwrites
    && (exclusive ==> s.overwrites == 0)
    && |s.finished| == s.completions
    && (forall p :: p in s.inserted ==> p !in s.found && p !in s.deleted)
    && (forall p :: p in s.found ==> p !in s.deleted)
  }

  lemma RemoveKey<K, V>(m: map<K, V>, key: K)
    requires key in m
    ensures |m - {key}| == |m| - 1
  {
    assert (m - {key}).Keys == m.Keys - {key};
  }

  lemma AddKey<K, V>(m: map<K, V>, key: K, value: V)
    ensures |m[key := value]| == |m| + if key in m then 0 else 1
  {
    assert m[key := value].Keys == m.Keys + {key};
  }

  lemma DeleteBalanced<K, V>(exclusive: bool, s: System<K, V>, p: nat)
    requires Balanced(exclusive, s)
    ensures Balanced(exclusive, Step(exclusive, s, Delete(p)))
  {
    if p in s.found && s.found[p].key in s.entries {
      RemoveKey(s.entries, s.found[p].key);
      AddKey(s.deleted, p, s.found[p]);
    }
  }

  lemma InsertBalanced<K, V>(exclusive: bool, s: System<K, V>, p: nat, key: K, value: V)
    requires Balanced(exclusive, s)
    ensures Balanced(exclusive, Step(exclusive, s, Insert(p, key, value)))
  {
    AddKey(s.entries, key, value);
  }

  lemma CountBalanced<K, V>(exclusive: bool, s: System<K, V>, p: nat)
    requires Balanced(exclusive, s)
    ensures Balanced(exclusive, Step(exclusive, s, CountBegin(p)))
    ensures Balanced(exclusive, Step(exclusive, s, CountCompletion(p)))
  {
    if p in s.deleted { RemoveKey(s.deleted, p); }
  }

  lemma ReadOrEvictBalanced<K, V>(exclusive: bool, s: System<K, V>, p: nat, key: K)
    requires Balanced(exclusive, s)
    ensures Balanced(exclusive, Step(exclusive, s, Lookup(p, key)))
    ensures Balanced(exclusive, Step(exclusive, s, Evict(key)))
  {
    if key in s.entries { RemoveKey(s.entries, key); }
  }

  lemma StepBalanced<K, V>(exclusive: bool, s: System<K, V>, a: Access<K, V>)
    requires Balanced(exclusive, s)
    ensures Balanced(exclusive, Step(exclusive, s, a))
  {
    hide Step, Balanced;
    match a
    case Insert(p, key, value) => InsertBalanced(exclusive, s, p, key, value);
    case Delete(p) => DeleteBalanced(exclusive, s, p);
    case CountBegin(p) => CountBalanced(exclusive, s, p);
    case CountCompletion(p) => CountBalanced(exclusive, s, p);
    case Lookup(p, key) => ReadOrEvictBalanced(exclusive, s, p, key);
    case Evict(key) => ReadOrEvictBalanced(exclusive, s, 0, key);
  }

  lemma {:induction false} RunBalanced<K, V>(exclusive: bool, accesses: seq<Access<K, V>>)
    ensures Balanced(exclusive, Run(exclusive, accesses))
    decreases |accesses|
  {
    if accesses != [] {
      hide Step, Balanced;
      var n := |accesses| - 1;
      RunBalanced(exclusive, accesses[..n]);
      StepBalanced(exclusive, Run(exclusive, accesses[..n]), accesses[n]);
    }
  }

  /** For every interleaving of any number of begin and end probes, whenever no
      probe is halfway the begins are the completions, the entries still in the map,
      the evictions and, for a replacing map, the overwrites. */
  lemma QuiescentBalance<K, V>(exclusive: bool, accesses: seq<Access<K, V>>)
    requires Quiescent(Run(exclusive, accesses))
    ensures var s := Run(exclusive, accesses);
            && s.begins == s.completions + |s.entries| + s.evictions + s.overwrites
            && (exclusive ==> s.overwrites == 0)
            && |s.finished| <= s.begins
  {
    hide Run;
    RunBalanced(exclusive, accesses);
  }

  // ------------------------------------------- which begin an end reports

  /** A successful delete: the value its invocation looked up, and the one it removed. */
  datatype Deletion<V> = Deletion(reported: V, removed: V)

  /** Would the access take an entry out of the map for an end probe? */
  ghost predicate Takes<K, V>(s: System<K, V>, a: Access<K, V>) {
    a.Delete? && a.p in s.found && s.found[a.p].key in s.entries
  }

  ghost function Deletions<K, V>(accesses: seq<Access<K, V>>): seq<Deletion<V>>
    decreases |accesses|
  {
    if accesses == [] then []
    else
      var n := |accesses| - 1;
      var s := Run(true, accesses[..n]);
      Deletions(accesses[..n])
      + if Takes(s, accesses[n])
        then [Deletion(s.found[accesses[n].p].value, s.entries[s.found[accesses[n].p].key])] else []
  }

  ghost function Reported<V>(ds: seq<Deletion<V>>): seq<V> { seq(|ds|, i requires 0 <= i < |ds| => ds[i].reported) }

  ghost function Removed<V>(ds: seq<Deletion<V>>): seq<V> { seq(|ds|, i requires 0 <= i < |ds| => ds[i].removed) }

  /** Access `i` deletes an entry that is no longer the one its invocation looked up. */
  ghost predicate StaleAt<K, V>(accesses: seq<Access<K, V>>, i: nat)
    requires i < |accesses|
  {
    var s := Run(true, accesses[..i]);
    Takes(s, accesses[i]) && s.entries[s.found[accesses[i].p].key] != s.found[accesses[i].p].value
  }

  ghost predicate NeverStale<K, V>(accesses: seq<Access<K, V>>) {
    forall i :: 0 <= i < |accesses| ==> !StaleAt(accesses, i)
  }

  lemma NeverStaleSplit<K, V>(accesses: seq<Access<K, V>>, n: nat)
    requires n + 1 == |accesses|
    ensures NeverStale(accesses) <==> NeverStale(accesses[..n]) && !StaleAt(accesses, n)
  {
    hide Run;
    forall i | 0 <= i < n ensures StaleAt(accesses[..n], i) == StaleAt(accesses, i) {
      assert accesses[..n][..i] == accesses[..i];
    }
  }

  /** For every interleaving with every eviction, each end reports the begin it
      removes if and only if no delete is stale. */
  lemma {:induction false} PairedIff<K, V>(accesses: seq<Access<K, V>>)
    ensures Reported(Deletions(accesses)) == Removed(Deletions(accesses)) <==> NeverStale(accesses)
    decreases |accesses|
  {
    if accesses != [] {
      hide Run;
      var n := |accesses| - 1;
      var before, ds := Deletions(accesses[..n]), Deletions(accesses);
      PairedIff(accesses[..n]);
      NeverStaleSplit(accesses, n);
      SamePairs(before);
      SamePairs(ds);
      assert ds[..|before|] == before;
      assert StaleAt(accesses, n) <==> |ds| > |before| && ds[|before|].reported != ds[|before|].removed;
    }
  }

  lemma SamePairs<V>(ds: seq<Deletion<V>>)
    ensures Reported(ds) == Removed(ds) <==> forall i :: 0 <= i < |ds| ==> ds[i].reported == ds[i].removed
  {
    if Reported(ds) == Removed(ds) {
      forall i | 0 <= i < |ds| ensures ds[i].reported == ds[i].removed {
        assert Reported(ds)[i] == Removed(ds)[i];
      }
    }
  }

  // ------------------------------------------------ one report for each begin

  /** Every begin inserts a value of its own. */
  ghost predicate FreshInserts<K, V>(accesses: seq<Access<K, V>>) {
    forall i, j :: 0 <= i < j < |accesses| && accesses[i].Insert? && accesses[j].Insert? ==>
      accesses[i].value != accesses[j].value
  }

  ghost predicate WasInserted<K, V>(accesses: seq<Access<K, V>>, v: V) {
    exists i :: 0 <= i < |accesses| && accesses[i].Insert? && accesses[i].value == v
  }

  ghost predicate Distinct<T>(s: seq<T>) { forall i, j :: 0 <= i < j < |s| ==> s[i] != s[j] }

  /** Inserted values are in the map once, or were removed once, or neither. */
  ghost predicate Traced<K, V>(accesses: seq<Access<K, V>>, s: System<K, V>, removed: seq<V>) {
    && (forall k :: k in s.entries ==> WasInserted(accesses, s.entries[k]) && s.entries[k] !in removed)
    && (forall k, k' :: k in s.entries && k' in s.entries && k != k' ==> s.entries[k] != s.entries[k'])
    && (forall v :: v in removed ==> WasInserted(accesses, v))
    && Distinct(removed)
  }

  lemma WasInsertedMore<K, V>(accesses: seq<Access<K, V>>, n: nat, v: V)
    requires n <= |accesses| && WasInserted(accesses[..n], v)
    ensures WasInserted(accesses, v)
  {
    var i :| 0 <= i < n && accesses[..n][i].Insert? && accesses[..n][i].value == v;
    assert accesses[i].Insert?;
  }

  lemma NotInsertedYet<K, V>(accesses: seq<Access<K, V>>, n: nat)
    requires n < |accesses| && FreshInserts(accesses) && accesses[n].Insert?
    ensures !WasInserted(accesses[..n], accesses[n].value)
  {
    forall i | 0 <= i < n && accesses[..n][i].Insert? ensures accesses[..n][i].value != accesses[n].value {
      assert accesses[i].Insert?;
    }
  }

  lemma TracedMore<K, V>(accesses: seq<Access<K, V>>, n: nat, s: System<K, V>, removed: seq<V>)
    requires n <= |accesses| && Traced(accesses[..n], s, removed)
    ensures Traced(accesses, s, removed)
  {
    hide WasInserted;
    forall k | k in s.entries ensures WasInserted(accesses, s.entries[k]) {
      WasInsertedMore(accesses, n, s.entries[k]);
    }
    forall v | v in removed ensures WasInserted(accesses, v) { WasInsertedMore(accesses, n, v); }
  }

  lemma {:induction false} RunTraced<K, V>(accesses: seq<Access<K, V>>)
    requires FreshInserts(accesses)
    ensures Traced(accesses, Run(true, accesses), Removed(Deletions(accesses)))
    decreases |accesses|
  {
    if accesses != [] {
      var n := |accesses| - 1;
      RunTraced(accesses[..n]);
      var s, removed := Run(true, accesses[..n]), Removed(Deletions(accesses[..n]));
      TracedMore(accesses, n, s, removed);
      if accesses[n].Insert? {
        NotInsertedYet(accesses, n);
        assert accesses[n].Insert? && WasInserted(accesses, accesses[n].value);
        InsertTraced(accesses, n, s, removed);
        assert Removed(Deletions(accesses)) == removed;
      } else if Takes(s, accesses[n]) {
        var v := s.entries[s.found[accesses[n].p].key];
        assert Removed(Deletions(accesses)) == removed + [v];
      } else {
        assert Removed(Deletions(accesses)) == removed;
      }
    }
  }

  lemma InsertTraced<K, V>(accesses: seq<Access<K, V>>, n: nat, s: System<K, V>, removed: seq<V>)
    requires n < |accesses| && accesses[n].Insert? && !WasInserted(accesses[..n], accesses[n].value)
    requires Traced(accesses[..n], s, removed) && Traced(accesses, s, removed)
    requires WasInserted(accesses, accesses[n].value)
    ensures Traced(accesses, Step(true, s, accesses[n]), removed)
  {
    hide WasInserted;
  }

  /** Without stale deletes no begin is reported twice, whatever is evicted. */
  lemma PairedReportsOnce<K, V>(accesses: seq<Access<K, V>>)
    requires FreshInserts(accesses) && NeverStale(accesses)
    ensures Distinct(Reported(Deletions(accesses)))
  {
    hide Run, Deletions, NeverStale;
    RunTraced(accesses);
    PairedIff(accesses);
  }

  ghost function Values<V>(fs: seq<Finish<V>>): seq<V> { seq(|fs|, i requires 0 <= i < |fs| => fs[i].value) }

  /** Ends that reported a value and still have to finish. */
  ghost function Pending<K, V>(held: map<nat, Saved<K, V>>, v: V): set<nat> {
    set p | p in held && held[p].value == v
  }

  /** How often a value was or will be finished. */
  ghost function Due<K, V>(s: System<K, V>, v: V): nat { multiset(Values(s.finished))[v] + |Pending(s.deleted, v)| }

  lemma OneMorePending<K, V>(held: map<nat, Saved<K, V>>, p: nat, x: Saved<K, V>, v: V)
    requires p !in held
    ensures |Pending(held[p := x], v)| == |Pending(held, v)| + if x.value == v then 1 else 0
  {
    assert Pending(held[p := x], v) == Pending(held, v) + if x.value == v then {p} else {};
  }

  lemma OneLessPending<K, V>(held: map<nat, Saved<K, V>>, p: nat, v: V)
    requires p in held
    ensures |Pending(held - {p}, v)| == |Pending(held, v)| - if held[p].value == v then 1 else 0
  {
    assert Pending(held - {p}, v) == Pending(held, v) - {p};
    if held[p].value == v { assert p in Pending(held, v); }
  }

  lemma TakingAddsOne<K, V>(s: System<K, V>, a: Access<K, V>, v: V)
    requires Balanced(true, s) && Takes(s, a)
    ensures Due(Step(true, s, a), v) == Due(s, v) + if s.found[a.p].value == v then 1 else 0
  {
    hide Pending, Values;
    OneMorePending(s.deleted, a.p, s.found[a.p], v);
  }

  lemma FinishingKeepsDue<K, V>(s: System<K, V>, p: nat, v: V)
    requires p in s.deleted
    ensures Due(Step(true, s, CountCompletion(p)), v) == Due(s, v)
  {
    var s' := Step(true, s, CountCompletion(p));
    assert Values(s'.finished) == Values(s.finished) + [s.deleted[p].value];
    hide Pending, Values;
    OneLessPending(s.deleted, p, v);
  }

  lemma OthersKeepDue<K, V>(s: System<K, V>, a: Access<K, V>, v: V)
    requires !Takes(s, a) && !(a.CountCompletion? && a.p in s.deleted)
    ensures Due(Step(true, s, a), v) == Due(s, v)
  {
    assert Step(true, s, a).deleted == s.deleted && Step(true, s, a).finished == s.finished;
  }

  lemma ReportedStep<K, V>(accesses: seq<Access<K, V>>, n: nat)
    requires n + 1 == |accesses|
    ensures var s := Run(true, accesses[..n]);
            Reported(Deletions(accesses)) == Reported(Deletions(accesses[..n]))
              + if Takes(s, accesses[n]) then [s.found[accesses[n].p].value] else []
  {
    hide Run;
  }

  lemma DueStep<K, V>(s: System<K, V>, a: Access<K, V>, v: V)
    requires Balanced(true, s)
    ensures Due(Step(true, s, a), v) == Due(s, v) + if Takes(s, a) && s.found[a.p].value == v then 1 else 0
  {
    hide Step, Balanced, Due;
    if Takes(s, a) {
      TakingAddsOne(s, a, v);
    } else if a.CountCompletion? && a.p in s.deleted {
      FinishingKeepsDue(s, a.p, v);
    } else {
      OthersKeepDue(s, a, v);
    }
  }

  /** Every report is finished in the end. */
  lemma {:induction false} ReportsAreDue<K, V>(accesses: seq<Access<K, V>>, v: V)
    ensures multiset(Reported(Deletions(accesses)))[v] == Due(Run(true, accesses), v)
    decreases |accesses|
  {
    if accesses != [] {
      var n := |accesses| - 1;
      var s := Run(true, accesses[..n]);
      assert Run(true, accesses) == Step(true, s, accesses[n]);
      hide Run, Step, Balanced, Due, Reported, Deletions, Takes;
      ReportsAreDue(accesses[..n], v);
      RunBalanced(true, accesses[..n]);
      DueStep(s, accesses[n], v);
      ReportedStep(accesses, n);
    }
  }

  lemma QuiescentReports<K, V>(accesses: seq<Access<K, V>>)
    requires Quiescent(Run(true, accesses))
    ensures forall v :: multiset(Reported(Deletions(accesses)))[v] == multiset(Values(Run(true, accesses).finished))[v]
  {
    hide Run, Deletions, Reported, Values;
    forall v ensures multiset(Reported(Deletions(accesses)))[v] == multiset(Values(Run(true, accesses).finished))[v] {
      ReportsAreDue(accesses, v);
    }
  }

  lemma TwiceIsMany<T>(s: seq<T>, i: nat, j: nat)
    requires i < j < |s| && s[i] == s[j]
    ensures multiset(s)[s[i]] >= 2
  {
    assert s == s[..i] + [s[i]] + s[i + 1..j] + [s[j]] + s[j + 1..];
  }

  lemma {:induction false} DistinctIsFew<T>(s: seq<T>, v: T)
    requires Distinct(s)
    ensures multiset(s)[v] <= 1
    decreases |s|
  {
    if s != [] {
      var n := |s| - 1;
      DistinctIsFew(s[..n], v);
      assert s == s[..n] + [s[n]];
      if v == s[n] { assert v !in s[..n]; }
    }
  }

  lemma SameDistinct<T>(a: seq<T>, b: seq<T>)
    requires (forall v :: multiset(a)[v] == multiset(b)[v]) && Distinct(a)
    ensures Distinct(b)
  {
    forall i, j | 0 <= i < j < |b| ensures b[i] != b[j] {
      DistinctIsFew(a, b[i]);
      if b[i] == b[j] { TwiceIsMany(b, i, j); }
    }
  }

  /** Without stale deletes no begin is ever finished twice, whatever is evicted and
      however far the probes have come. */
  lemma FinishedAtMostOnce<K, V>(accesses: seq<Access<K, V>>)
    requires FreshInserts(accesses) && NeverStale(accesses)
    ensures Distinct(Values(Run(true, accesses).finished))
  {
    hide Run, Deletions, NeverStale, FreshInserts, Reported;
    PairedReportsOnce(accesses);
    var vs := Values(Run(true, accesses).finished);
    forall i, j | 0 <= i < j < |vs| ensures vs[i] != vs[j] {
      ReportsAreDue(accesses, vs[i]);
      DistinctIsFew(Reported(Deletions(accesses)), vs[i]);
      if vs[i] == vs[j] { TwiceIsMany(vs, i, j); }
    }
  }

  // ------------------------------------------------------- without evictions

  ghost predicate NoEvictions<K, V>(accesses: seq<Access<K, V>>) {
    forall i :: 0 <= i < |accesses| ==> !accesses[i].Evict?
  }

  /** What an end probe looked up is still there, or somebody removed it since. */
  ghost predicate HeldAccounted<K, V>(s: System<K, V>, removed: seq<V>) {
    forall p :: p in s.found ==>
      || (s.found[p].key in s.entries && s.entries[s.found[p].key] == s.found[p].value)
      || s.found[p].value in removed
  }

  lemma {:induction false} RunHeldAccounted<K, V>(accesses: seq<Access<K, V>>)
    requires NoEvictions(accesses)
    ensures HeldAccounted(Run(true, accesses), Removed(Deletions(accesses)))
    decreases |accesses|
  {
    if accesses != [] {
      var n := |accesses| - 1;
      RunHeldAccounted(accesses[..n]);
      var s, removed := Run(true, accesses[..n]), Removed(Deletions(accesses[..n]));
      if Takes(s, accesses[n]) {
        var v := s.entries[s.found[accesses[n].p].key];
        var removed' := removed + [v];
        assert Removed(Deletions(accesses)) == removed';
        assert v == removed'[|removed|] && forall x :: x in removed ==> x in removed';
      } else {
        assert Removed(Deletions(accesses)) == removed;
      }
    }
  }

  /** The first stale delete reports a begin that was reported before. */
  lemma {:induction false} StaleReportsTwice<K, V>(accesses: seq<Access<K, V>>)
    requires NoEvictions(accesses) && !NeverStale(accesses)
    ensures !Distinct(Reported(Deletions(accesses)))
    decreases |accesses|
  {
    hide Run;
    var n := |accesses| - 1;
    assert accesses != [];
    NeverStaleSplit(accesses, n);
    var before, ds := Deletions(accesses[..n]), Deletions(accesses);
    assert ds[..|before|] == before;
    if !NeverStale(accesses[..n]) {
      StaleReportsTwice(accesses[..n]);
      var i, j :| 0 <= i < j < |before| && Reported(before)[i] == Reported(before)[j];
      assert Reported(ds)[i] == Reported(ds)[j];
    } else {
      RunHeldAccounted(accesses[..n]);
      PairedIff(accesses[..n]);
      var v := Run(true, accesses[..n]).found[accesses[n].p].value;
      assert v in Reported(before);
      var i :| 0 <= i < |before| && Reported(before)[i] == v;
      assert Reported(ds)[i] == Reported(ds)[|before|];
    }
  }

  /** Without evictions, once no probe is halfway, every begin was finished at most
      once if and only if no delete was stale. */
  lemma FinishedOnceIff<K, V>(accesses: seq<Access<K, V>>)
    requires FreshInserts(accesses) && NoEvictions(accesses) && Quiescent(Run(true, accesses))
    ensures Distinct(Values(Run(true, accesses).finished)) <==> NeverStale(accesses)
  {
    hide Run, Deletions, NeverStale, FreshInserts, Distinct, Reported, Quiescent, Values;
    QuiescentReports(accesses);
    var reported, finished := Reported(Deletions(accesses)), Values(Run(true, accesses).finished);
    if NeverStale(accesses) {
      PairedReportsOnce(accesses);
      SameDistinct(reported, finished);
    } else {
      StaleReportsTwice(accesses);
      if Distinct(finished) { SameDistinct(finished, reported); }
    }
  }

  // ---------------------------------------------------------- atomic handlers

  /** Every delete follows the lookup of its own invocation at once, and every
      lookup is followed by its delete. */
  ghost predicate Atomic<K, V>(accesses: seq<Access<K, V>>) {
    && (forall i :: 0 <= i < |accesses| && accesses[i].Delete? ==>
          i > 0 && accesses[i - 1].Lookup? && accesses[i - 1].p == accesses[i].p)
    && (forall i :: 0 <= i && i + 1 < |accesses| && accesses[i].Lookup? ==>
          accesses[i + 1] == Delete(accesses[i].p))
  }

  /** Only the invocation that just looked up holds anything, and that is current. */
  ghost predicate HeldCurrent<K, V>(accesses: seq<Access<K, V>>, s: System<K, V>) {
    forall p :: p in s.found ==>
      && accesses != [] && accesses[|accesses| - 1].Lookup? && accesses[|accesses| - 1].p == p
      && s.found[p].key in s.entries && s.entries[s.found[p].key] == s.found[p].value
  }

  lemma {:induction false} AtomicHeldCurrent<K, V>(accesses: seq<Access<K, V>>)
    requires Atomic(accesses)
    ensures HeldCurrent(accesses, Run(true, accesses))
    decreases |accesses|
  {
    if accesses != [] {
      var n := |accesses| - 1;
      AtomicHeldCurrent(accesses[..n]);
    }
  }

  /** Handlers that run one at a time never delete a stale entry, even with
      evictions between them. */
  lemma AtomicNeverStale<K, V>(accesses: seq<Access<K, V>>)
    requires Atomic(accesses)
    ensures NeverStale(accesses)
  {
    hide Run;
    forall i | 0 <= i < |accesses| ensures !StaleAt(accesses, i) {
      assert Atomic(accesses[..i]);
      AtomicHeldCurrent(accesses[..i]);
    }
  }
}
