/** The kernel side windowed counters: when a burst of hits on one key raises an event. */
module ThresholdWindows {
  import opened Machine
  import opened FixedWindow

  datatype Window = Window(start: u64, count: u32)

  /** Outcome of one hit: the stored window, the count and age it reports, and
      whether this hit crossed the threshold. */
  datatype Hit = Hit(window: Window, elapsed: u64, crossed: bool)

  predicate Expired(w: Window, now: u64, windowNs: u64) {
    now < w.start || now - w.start >= windowNs
  }

  function OnHit(w: Option<Window>, now: u64, windowNs: u64, threshold: u64): Hit {
    if w.None? || Expired(w.value, now, windowNs) then Hit(Window(now, 1), 0, threshold == 1)
    else
      var previous := w.value.count;
      var count := if previous != U32_MAX then previous + 1 else previous;
      Hit(Window(w.value.start, count), now - w.value.start, previous < threshold <= count)
  }

  type Times = ts: seq<u64> | NonDecreasing(ts) ghost witness []

  /** Stored window of a key after its hits at the given times. */
  ghost function WindowAfter(ts: seq<u64>, windowNs: u64): Option<Window> {
    if ts == [] then None
    else
      var n := |ts| - 1;
      Some(OnHit(WindowAfter(ts[..n], windowNs), ts[n], windowNs, 1).window)
  }

  /** Does hit `j` raise an event? */
  ghost predicate Raises(ts: seq<u64>, windowNs: u64, threshold: u64, j: nat)
    requires j < |ts|
  {
    OnHit(WindowAfter(ts[..j], windowNs), ts[j], windowNs, threshold).crossed
  }

  /** Position of hit `j` within its window, counting from one. */
  ghost function Ordinal(ts: seq<u64>, windowNs: u64, j: nat): nat
    requires j < |ts|
  {
    j - Start(ts, windowNs, j) + 1
  }

  /** What hit `j` does, in terms of its position in its window. */
  lemma {:induction false} HitAt(ts: seq<u64>, windowNs: u64, threshold: u64, j: nat)
    requires j < |ts| && NonDecreasing(ts) && windowNs >= 1 && threshold >= 1
    ensures OnHit(WindowAfter(ts[..j], windowNs), ts[j], windowNs, threshold)
         == Hit(Window(ts[Start(ts, windowNs, j)], Min(Ordinal(ts, windowNs, j), U32_MAX)),
                ts[j] - ts[Start(ts, windowNs, j)],
                Ordinal(ts, windowNs, j) == threshold && threshold <= U32_MAX)
    decreases j
  {
    if j > 0 {
      HitAt(ts, windowNs, 1, j - 1);
      assert ts[..j][..j - 1] == ts[..j - 1];
      var s := Start(ts, windowNs, j - 1);
      assert WindowAfter(ts[..j], windowNs)
          == Some(Window(ts[s], Min(Ordinal(ts, windowNs, j - 1), U32_MAX)));
      assert ts[s] <= ts[j];
      hide WindowAfter, NonDecreasing;
    }
  }

  /** A hit raises an event exactly when it is the threshold-th of its window, so
      long as the 32-bit counter can represent the threshold. */
  lemma RaisesIff(ts: seq<u64>, windowNs: u64, threshold: u64, j: nat)
    requires j < |ts| && NonDecreasing(ts) && windowNs >= 1 && threshold >= 1
    ensures Raises(ts, windowNs, threshold, j)
            <==> Ordinal(ts, windowNs, j) == threshold && threshold <= U32_MAX
  {
    HitAt(ts, windowNs, threshold, j);
  }

  /** A window raises at most one event, and every hit it took to get there lies
      less than one window length before the event. */
  lemma RaisesOncePerWindow(ts: seq<u64>, windowNs: u64, threshold: u64, i: nat, j: nat)
    requires i < j < |ts| && NonDecreasing(ts) && windowNs >= 1 && threshold >= 1
    requires Raises(ts, windowNs, threshold, j)
    ensures Raises(ts, windowNs, threshold, i) ==> Start(ts, windowNs, i) != Start(ts, windowNs, j)
    ensures threshold <= j + 1 && ts[j] - ts[j + 1 - threshold] < windowNs
  {
    RaisesIff(ts, windowNs, threshold, i);
    RaisesIff(ts, windowNs, threshold, j);
    InsideWindow(ts, windowNs, j);
  }

  /** Are all hits from `i` to `j` in the windows of those two? */
  ghost predicate InTwoWindows(ts: seq<u64>, windowNs: u64, i: nat, j: nat)
    requires i <= j < |ts|
  {
    forall k :: i <= k <= j ==>
      Start(ts, windowNs, k) == Start(ts, windowNs, i) || Start(ts, windowNs, k) == Start(ts, windowNs, j)
  }

  lemma ShortSpanInTwoWindows(ts: seq<u64>, windowNs: u64, i: nat, j: nat)
    requires i <= j < |ts| && NonDecreasing(ts) && ts[j] - ts[i] < windowNs
    ensures InTwoWindows(ts, windowNs, i, j)
  {
    AtMostTwoWindows(ts, windowNs, i, j);
    var s := Start(ts, windowNs, j);
    hide NonDecreasing, Start;
    forall k | i <= k <= j
      ensures Start(ts, windowNs, k) == Start(ts, windowNs, i) || Start(ts, windowNs, k) == s
    {
      if s <= k { StartStable(ts, windowNs, j, k); } else { StartStable(ts, windowNs, s - 1, k); }
    }
  }

  /** The T-th hit of the window of hit `j` raises, if the window got that far. */
  lemma WindowRaises(ts: seq<u64>, windowNs: u64, threshold: u64, j: nat) returns (c: nat)
    requires NonDecreasing(ts) && windowNs >= 1 && 1 <= threshold <= U32_MAX
    requires j < |ts| && Ordinal(ts, windowNs, j) >= threshold
    ensures c <= j && Raises(ts, windowNs, threshold, c) && Start(ts, windowNs, c) == Start(ts, windowNs, j)
  {
    hide Start, NonDecreasing, Raises;
    c := Start(ts, windowNs, j) + threshold - 1;
    StartStable(ts, windowNs, j, c);
    RaisesIff(ts, windowNs, threshold, c);
  }

  /** A burst of 2T-1 hits within less than a window length falls into at most two
      windows, and one of those raises an event by the end of the burst. */
  lemma BurstRaises(ts: seq<u64>, windowNs: u64, threshold: u64, i: nat) returns (c: nat)
    requires NonDecreasing(ts) && windowNs >= 1 && 1 <= threshold <= U32_MAX
    requires i + 2 * threshold - 2 < |ts| && ts[i + 2 * threshold - 2] - ts[i] < windowNs
    ensures var j := i + 2 * threshold - 2;
            && InTwoWindows(ts, windowNs, i, j)
            && c <= j && Raises(ts, windowNs, threshold, c)
            && (Start(ts, windowNs, c) == Start(ts, windowNs, i)
                || Start(ts, windowNs, c) == Start(ts, windowNs, j))
  {
    var j := i + 2 * threshold - 2;
    ShortSpanInTwoWindows(ts, windowNs, i, j);
    FullWindow(ts, windowNs, threshold, i);
    hide InTwoWindows, Raises, Start, NonDecreasing, Ordinal;
    var s := Start(ts, windowNs, j);
    if Ordinal(ts, windowNs, j) >= threshold {
      c := WindowRaises(ts, windowNs, threshold, j);
    } else {
      c := WindowRaises(ts, windowNs, threshold, s - 1);
    }
  }

  /** One of the two windows of such a burst holds at least T of its hits. */
  lemma FullWindow(ts: seq<u64>, windowNs: u64, threshold: u64, i: nat)
    requires NonDecreasing(ts) && threshold >= 1
    requires i + 2 * threshold - 2 < |ts| && ts[i + 2 * threshold - 2] - ts[i] < windowNs
    ensures var j := i + 2 * threshold - 2;
            var s := Start(ts, windowNs, j);
            || Ordinal(ts, windowNs, j) >= threshold
            || (&& 0 < s <= j && Start(ts, windowNs, s - 1) == Start(ts, windowNs, i)
                && Ordinal(ts, windowNs, s - 1) >= threshold)
  {
    var j := i + 2 * threshold - 2;
    AtMostTwoWindows(ts, windowNs, i, j);
    hide Start, NonDecreasing;
  }

  // ---------------------------------------------------------- network drops

  /** The network-drop handler compares the saturating count with the threshold
      instead of watching it cross. */
  ghost predicate DropRaises(ts: seq<u64>, windowNs: u64, threshold: u64, j: nat)
    requires j < |ts|
  {
    OnHit(WindowAfter(ts[..j], windowNs), ts[j], windowNs, threshold).window.count == threshold
  }

  /** It therefore behaves like the other counters at every threshold but the
      largest representable one, where every later hit of the window raises again. */
  lemma DropRaisesIff(ts: seq<u64>, windowNs: u64, threshold: u64, j: nat)
    requires j < |ts| && NonDecreasing(ts) && windowNs >= 1
    ensures DropRaises(ts, windowNs, threshold, j) <==>
            if threshold == U32_MAX then Ordinal(ts, windowNs, j) >= U32_MAX
            else Ordinal(ts, windowNs, j) == threshold && threshold < U32_MAX
  {
    HitAt(ts, windowNs, 1, j);
  }

  /** Repeated events in one window are possible exactly at that threshold. */
  lemma DropRaisesOnceIff(windowNs: u64, threshold: u64)
    requires windowNs >= 1
    ensures threshold != U32_MAX <==>
            forall ts: Times, i: nat, j: nat ::
              i < j < |ts| && DropRaises(ts, windowNs, threshold, i) && DropRaises(ts, windowNs, threshold, j)
              ==> Start(ts, windowNs, i) != Start(ts, windowNs, j)
  {
    if threshold == U32_MAX {
      var ts: seq<u64> := seq(U32_MAX + 1, _ => 0);
      assert NonDecreasing(ts);
      var times: Times := ts;
      var i: nat, j: nat := U32_MAX - 1, U32_MAX;
      SteadyWindow(ts, windowNs, i);
      SteadyWindow(ts, windowNs, j);
      DropRaisesIff(ts, windowNs, threshold, i);
      DropRaisesIff(ts, windowNs, threshold, j);
      assert i < j < |times| && DropRaises(times, windowNs, threshold, i)
             && DropRaises(times, windowNs, threshold, j);
    } else {
      forall ts: Times, i: nat, j: nat |
        i < j < |ts| && DropRaises(ts, windowNs, threshold, i) && DropRaises(ts, windowNs, threshold, j)
        ensures Start(ts, windowNs, i) != Start(ts, windowNs, j)
      {
        DropRaisesIff(ts, windowNs, threshold, i);
        DropRaisesIff(ts, windowNs, threshold, j);
      }
    }
  }

  lemma {:induction false} SteadyWindow(ts: seq<u64>, windowNs: u64, j: nat)
    requires j < |ts| && windowNs >= 1 && forall k :: 0 <= k < |ts| ==> ts[k] == 0
    ensures Start(ts, windowNs, j) == 0
    decreases j
  {
    if j > 0 { SteadyWindow(ts, windowNs, j - 1); }
  }

  // ---------------------------------------------------------- many keys

  datatype KeyHit<K> = KeyHit(key: K, now: u64)

  ghost function TimesOf<K>(hits: seq<KeyHit<K>>, key: K): seq<u64> {
    if hits == [] then []
    else
      var n := |hits| - 1;
      TimesOf(hits[..n], key) + if hits[n].key == key then [hits[n].now] else []
  }

  ghost function TableAfter<K>(hits: seq<KeyHit<K>>, windowNs: u64): map<K, Window> {
    if hits == [] then map[]
    else
      var n := |hits| - 1;
      var m := TableAfter(hits[..n], windowNs);
      m[hits[n].key := OnHit(Lookup(m, hits[n].key), hits[n].now, windowNs, 1).window]
  }

  /** Hits on other keys never disturb a key's window. */
  lemma {:induction false} KeysAreIndependent<K>(hits: seq<KeyHit<K>>, windowNs: u64, key: K)
    ensures Lookup(TableAfter(hits, windowNs), key) == WindowAfter(TimesOf(hits, key), windowNs)
    decreases |hits|
  {
    if hits != [] {
      var n := |hits| - 1;
      KeysAreIndependent(hits[..n], windowNs, key);
      var before := TimesOf(hits[..n], key);
      if hits[n].key == key {
        assert TimesOf(hits, key)[..|before|] == before;
      } else {
        assert TimesOf(hits, key) == before;
      }
    }
  }

  ghost predicate Ordered<K>(hits: seq<KeyHit<K>>) {
    forall i, j :: 0 <= i <= j < |hits| ==> hits[i].now <= hits[j].now
  }

  lemma {:induction false} TimesOrdered<K>(hits: seq<KeyHit<K>>, key: K)
    requires Ordered(hits)
    ensures NonDecreasing(TimesOf(hits, key))
    ensures forall t :: t in TimesOf(hits, key) ==> hits != [] && t <= hits[|hits| - 1].now
    decreases |hits|
  {
    if hits != [] {
      var n := |hits| - 1;
      TimesOrdered(hits[..n], key);
      if n > 0 { assert hits[n - 1].now <= hits[n].now; }
      var before := TimesOf(hits[..n], key);
      forall i | 0 <= i < |before| ensures before[i] <= hits[n].now { assert before[i] in before; }
    }
  }

  /** In a run of hits on many keys, what the last hit does is settled by its
      position in its own key's window. */
  lemma KeyedHitAt<K>(hits: seq<KeyHit<K>>, windowNs: u64, threshold: u64)
    requires hits != [] && Ordered(hits) && windowNs >= 1 && threshold >= 1
    ensures var n := |hits| - 1;
            var key, ts := hits[n].key, TimesOf(hits, hits[n].key);
            var j := |ts| - 1;
            && ts != []
            && var hit := OnHit(Lookup(TableAfter(hits[..n], windowNs), key), hits[n].now, windowNs, threshold);
            && hit.window == Window(ts[Start(ts, windowNs, j)], Min(Ordinal(ts, windowNs, j), U32_MAX))
            && hit.window.start + hit.elapsed == hits[n].now
            && (hit.crossed <==> Ordinal(ts, windowNs, j) == threshold && threshold <= U32_MAX)
  {
    var n := |hits| - 1;
    var key, ts := hits[n].key, TimesOf(hits, hits[n].key);
    var before := TimesOf(hits[..n], key);
    assert ts == before + [hits[n].now] && ts[..|before|] == before;
    TimesOrdered(hits, key);
    KeysAreIndependent(hits[..n], windowNs, key);
    hide OnHit, TableAfter, WindowAfter, TimesOf, Start, NonDecreasing, Ordinal;
    HitAt(ts, windowNs, threshold, |before|);
  }
}
