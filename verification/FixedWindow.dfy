/** Fixed windows that restart at the first hit after they expire. Both the
    command rate limit and the kernel threshold counters use this discipline. */
module FixedWindow {

  ghost predicate NonDecreasing(ts: seq<nat>) {
    forall i, j :: 0 <= i <= j < |ts| ==> ts[i] <= ts[j]
  }

  /** Index of the hit that opened the window which hit `j` falls into. */
  ghost function Start(ts: seq<nat>, w: nat, j: nat): (s: nat)
    requires j < |ts|
    ensures s <= j
  {
    if j == 0 then 0
    else
      var s := Start(ts, w, j - 1);
      if ts[j] - ts[s] < w then s else j
  }

  /** The window of a hit depends only on the hits up to it. */
  lemma {:induction false} StartPrefix(ts: seq<nat>, us: seq<nat>, w: nat, j: nat)
    requires j < |ts| && j < |us| && ts[..j + 1] == us[..j + 1]
    ensures Start(ts, w, j) == Start(us, w, j)
    decreases j
  {
    assert forall k :: 0 <= k <= j ==> ts[k] == ts[..j + 1][k] == us[k];
    if j > 0 {
      assert ts[..j] == us[..j];
      StartPrefix(ts, us, w, j - 1);
    }
  }

  lemma {:induction false} StartStable(ts: seq<nat>, w: nat, j: nat, k: nat)
    requires j < |ts| && Start(ts, w, j) <= k <= j
    ensures Start(ts, w, k) == Start(ts, w, j)
    decreases j
  {
    if k < j { StartStable(ts, w, j - 1, k); }
  }

  /** Every hit lies less than one window length after its window opened. */
  lemma InsideWindow(ts: seq<nat>, w: nat, j: nat)
    requires j < |ts| && w >= 1
    ensures ts[j] - ts[Start(ts, w, j)] < w
  {
  }

  /** Successive windows open at least one window length apart. */
  lemma WindowsApart(ts: seq<nat>, w: nat, j: nat)
    requires j < |ts| && Start(ts, w, j) > 0
    ensures var s := Start(ts, w, j); ts[s] >= ts[Start(ts, w, s - 1)] + w
  {
    StartStable(ts, w, j, Start(ts, w, j));
  }

  /** Hits that lie less than a window length apart fall into the same window or
      into two adjacent ones. */
  lemma AtMostTwoWindows(ts: seq<nat>, w: nat, i: nat, j: nat)
    requires i <= j < |ts| && NonDecreasing(ts) && ts[j] - ts[i] < w
    ensures var s := Start(ts, w, j);
            Start(ts, w, i) == s || (i < s && Start(ts, w, s - 1) == Start(ts, w, i))
  {
    var s := Start(ts, w, j);
    if s <= i {
      StartStable(ts, w, j, i);
    } else {
      WindowsApart(ts, w, j);
      var q := Start(ts, w, s - 1);
      if q <= i { StartStable(ts, w, s - 1, i); }
    }
  }

  /** Number of entries in the half-open interval from `lo` to `hi`. */
  ghost function CountIn(ts: seq<nat>, lo: int, hi: int): (n: nat)
    ensures n <= |ts|
  {
    if ts == [] then 0
    else
      var last := ts[|ts| - 1];
      CountIn(ts[..|ts| - 1], lo, hi) + if lo <= last < hi then 1 else 0
  }

  lemma {:induction false} CountSuffix(ts: seq<nat>, lo: int, hi: int, m: nat)
    requires m <= |ts|
    requires forall i :: 0 <= i < m ==> ts[i] < lo
    requires forall i :: m <= i < |ts| ==> lo <= ts[i] < hi
    ensures CountIn(ts, lo, hi) == |ts| - m
    decreases |ts|
  {
    if ts != [] {
      var n := |ts| - 1;
      CountSuffix(ts[..n], lo, hi, if m <= n then m else n);
    }
  }

  lemma {:induction false} CountTail(ts: seq<nat>, lo: int, hi: int, m: nat)
    requires m <= |ts|
    requires forall i :: 0 <= i < m ==> ts[i] < lo
    ensures CountIn(ts, lo, hi) <= |ts| - m
    decreases |ts|
  {
    if ts != [] {
      var n := |ts| - 1;
      CountTail(ts[..n], lo, hi, if m <= n then m else n);
    }
  }

  /** If entries `m` apart are at least `w` apart in time, no interval of length
      `w` holds more than `m` entries. */
  lemma {:induction false} SpacedCount(ts: seq<nat>, w: nat, m: nat, lo: int)
    requires NonDecreasing(ts)
    requires forall i {:trigger ts[i]} :: 0 <= i && i + m < |ts| ==> ts[i + m] >= ts[i] + w
    ensures CountIn(ts, lo, lo + w) <= m
    decreases |ts|
  {
    if |ts| > m {
      var n := |ts| - 1;
      if lo <= ts[n] < lo + w {
        assert ts[n - m + m] >= ts[n - m] + w;
        CountTail(ts, lo, lo + w, n - m + 1);
      } else {
        SpacedCount(ts[..n], w, m, lo);
      }
    }
  }
}
