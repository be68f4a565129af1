/** Latency histograms of a performance run: which ones the importer accepts, and
    how the quantiles it reports relate to the samples behind them. */
module Histogram {
  import opened Machine

  const WIDTH := 1000
  const BUCKETS := 512
  const LIMIT := 512_000

  datatype Histogram = Histogram(
    bucketWidthNs: int, buckets: seq<int>, overflow: int, maxNs: int, samples: int)

  datatype Stats = Stats(p50: int, p99: int, p999: int, max: int)

  datatype ImportError =
    | Shape | NotInteger | SampleCounts | EmptyWithMaximum | BucketAboveMaximum
    | OverflowBelowLimit | MaximumNeedsOverflow | MaximumNotPopulated

  function Sum(s: seq<int>): int { if s == [] then 0 else Sum(s[..|s| - 1]) + s[|s| - 1] }

  predicate IsU64(x: int) { 0 <= x <= U64_MAX }

  /** The first check of the importer that the histogram fails, if any. */
  function Defect(h: Histogram, expectedSamples: int): Option<ImportError> {
    if h.bucketWidthNs != WIDTH || |h.buckets| != BUCKETS then Some(Shape)
    else if !(forall i :: 0 <= i < BUCKETS ==> IsU64(h.buckets[i]))
            || !IsU64(h.overflow) || !IsU64(h.maxNs) || !IsU64(h.samples) then Some(NotInteger)
    else if h.samples != expectedSamples || Sum(h.buckets) + h.overflow != h.samples then Some(SampleCounts)
    else if h.samples == 0 then (if h.maxNs != 0 then Some(EmptyWithMaximum) else None)
    else if exists i :: 0 <= i < BUCKETS && h.buckets[i] != 0 && i * WIDTH > h.maxNs
    then Some(BucketAboveMaximum)
    else if h.overflow != 0 && h.maxNs < LIMIT then Some(OverflowBelowLimit)
    else if h.overflow == 0 && h.maxNs >= LIMIT then Some(MaximumNeedsOverflow)
    else if h.overflow == 0 && h.buckets[h.maxNs / WIDTH] == 0 then Some(MaximumNotPopulated)
    else None
  }

  /** Nearest rank of a quantile given in thousandths. */
  function Rank(samples: nat, perMille: nat): nat { Max(1, (samples * perMille + 999) / 1000) }

  // ---------------------------------------------------------------- samples

  ghost predicate Sorted(xs: seq<nat>) { forall i, j :: 0 <= i <= j < |xs| ==> xs[i] <= xs[j] }

  /** Number of samples below a bound. */
  ghost function Below(xs: seq<nat>, bound: int): (n: nat)
    ensures n <= |xs|
  {
    if xs == [] then 0
    else Below(xs[..|xs| - 1], bound) + if xs[|xs| - 1] < bound then 1 else 0
  }

  /** The histogram is the one these samples produce. */
  ghost predicate Records(h: Histogram, xs: seq<nat>) {
    && |h.buckets| == BUCKETS && h.samples == |xs|
    && (forall i :: 0 <= i < BUCKETS ==>
          h.buckets[i] == Below(xs, (i + 1) * WIDTH) - Below(xs, i * WIDTH))
    && h.overflow == |xs| - Below(xs, LIMIT)
    && (if xs == [] then h.maxNs == 0 else h.maxNs in xs && forall x :: x in xs ==> x <= h.maxNs)
  }

  lemma {:induction false} BelowSorted(xs: seq<nat>, bound: int, k: nat)
    requires Sorted(xs) && k < |xs|
    ensures xs[k] < bound <==> k < Below(xs, bound)
    decreases |xs|
  {
    var n := |xs| - 1;
    if k < n { BelowSorted(xs[..n], bound, k); }
    if xs[n] < bound { AllBelow(xs, bound); }
    else if k == n {
      assert Below(xs, bound) == Below(xs[..n], bound);
    }
  }

  lemma {:induction false} AllBelow(xs: seq<nat>, bound: int)
    requires forall x :: x in xs ==> x < bound
    ensures Below(xs, bound) == |xs|
    decreases |xs|
  {
    if xs != [] {
      var n := |xs| - 1;
      assert xs[n] in xs && forall x :: x in xs[..n] ==> x in xs;
      AllBelow(xs[..n], bound);
    }
  }

  lemma {:induction false} NoneBelow(xs: seq<nat>, bound: int)
    requires forall x :: x in xs ==> x >= bound
    ensures Below(xs, bound) == 0
    decreases |xs|
  {
    if xs != [] {
      var n := |xs| - 1;
      assert xs[n] in xs && forall x :: x in xs[..n] ==> x in xs;
      NoneBelow(xs[..n], bound);
    }
  }

  lemma {:induction false} BelowConcat(xs: seq<nat>, ys: seq<nat>, bound: int)
    ensures Below(xs + ys, bound) == Below(xs, bound) + Below(ys, bound)
    decreases |ys|
  {
    if ys == [] {
      assert xs + ys == xs;
    } else {
      var n := |ys| - 1;
      assert (xs + ys)[..|xs| + n] == xs + ys[..n];
      BelowConcat(xs, ys[..n], bound);
    }
  }

  lemma SumSnoc(s: seq<int>, k: nat)
    requires k < |s|
    ensures Sum(s[..k + 1]) == Sum(s[..k]) + s[k]
  {
    assert s[..k + 1][..k] == s[..k];
  }

  /** Bucket totals are sample counts. */
  lemma {:induction false} PrefixCounts(h: Histogram, xs: seq<nat>, k: nat)
    requires Records(h, xs) && k <= BUCKETS
    ensures Sum(h.buckets[..k]) == Below(xs, k * WIDTH)
    decreases k
  {
    if k == 0 {
      NoneBelow(xs, 0);
    } else {
      PrefixCounts(h, xs, k - 1);
      SumSnoc(h.buckets, k - 1);
    }
  }

  // -------------------------------------------------------------- acceptance

  /** Every histogram of real samples is accepted. */
  lemma RecordedIsAccepted(h: Histogram, xs: seq<nat>)
    requires Records(h, xs) && h.bucketWidthNs == WIDTH && |xs| <= U64_MAX && IsU64(h.maxNs)
    ensures Defect(h, |xs|) == None
  {
    PrefixCounts(h, xs, BUCKETS);
    assert h.buckets[..BUCKETS] == h.buckets;
    forall i | 0 <= i < BUCKETS
      ensures 0 <= h.buckets[i] <= |xs| && (h.buckets[i] != 0 ==> i * WIDTH <= h.maxNs)
    {
      BelowMonotone(xs, i * WIDTH, (i + 1) * WIDTH);
      if i * WIDTH > h.maxNs {
        AllBelow(xs, i * WIDTH);
        AllBelow(xs, (i + 1) * WIDTH);
      }
    }
    if xs != [] {
      if h.maxNs < LIMIT {
        AllBelow(xs, LIMIT);
        var m := h.maxNs / WIDTH;
        BelowStrict(xs, h.maxNs, m * WIDTH, (m + 1) * WIDTH);
      } else {
        BelowStrict(xs, h.maxNs, LIMIT, h.maxNs + 1);
        AllBelow(xs, h.maxNs + 1);
      }
    }
  }

  lemma {:induction false} BelowMonotone(xs: seq<nat>, a: int, b: int)
    requires a <= b
    ensures Below(xs, a) <= Below(xs, b)
    decreases |xs|
  {
    if xs != [] { BelowMonotone(xs[..|xs| - 1], a, b); }
  }

  lemma {:induction false} BelowStrict(xs: seq<nat>, x: nat, a: int, b: int)
    requires x in xs && a <= x < b
    ensures Below(xs, a) < Below(xs, b)
    decreases |xs|
  {
    var n := |xs| - 1;
    BelowMonotone(xs[..n], a, b);
    if xs[n] != x { BelowStrict(xs[..n], x, a, b); }
  }

  function Copies(x: nat, n: nat): (xs: seq<nat>)
    ensures |xs| == n && forall y :: y in xs ==> y == x
  {
    if n == 0 then [] else Copies(x, n - 1) + [x]
  }

  /** Samples for one bucket: all at its lower edge, except that the bucket which
      has to explain the maximum gets one sample there. */
  function BucketSamples(h: Histogram, i: nat): seq<nat>
    requires |h.buckets| == BUCKETS && i < BUCKETS && h.buckets[i] >= 0 && h.maxNs >= 0
  {
    if h.overflow == 0 && i == h.maxNs / WIDTH && h.buckets[i] > 0
    then Copies(i * WIDTH, h.buckets[i] - 1) + [h.maxNs]
    else Copies(i * WIDTH, h.buckets[i])
  }

  function Fill(h: Histogram, k: nat): seq<nat>
    requires |h.buckets| == BUCKETS && k <= BUCKETS && h.maxNs >= 0
    requires forall i :: 0 <= i < BUCKETS ==> h.buckets[i] >= 0
  {
    if k == 0 then [] else Fill(h, k - 1) + BucketSamples(h, k - 1)
  }

  ghost predicate Filled(h: Histogram, k: nat, xs: seq<nat>)
    requires |h.buckets| == BUCKETS && k <= BUCKETS
  {
    && Sorted(xs) && (forall x :: x in xs ==> x < k * WIDTH && x <= h.maxNs)
    && forall j :: 0 <= j <= k ==> Below(xs, j * WIDTH) == Sum(h.buckets[..j])
  }

  lemma BucketFacts(h: Histogram, i: nat)
    requires Defect(h, h.samples) == None && h.samples > 0 && i < BUCKETS
    ensures var ys := BucketSamples(h, i);
            && |ys| == h.buckets[i] && Sorted(ys)
            && forall y :: y in ys ==> i * WIDTH <= y < (i + 1) * WIDTH && y <= h.maxNs
  {
    var edge := i * WIDTH;
    if h.buckets[i] > 0 {
      SortedCopies(edge, h.buckets[i] - 1);
      SortedCopies(edge, h.buckets[i]);
      if i == h.maxNs / WIDTH { SortedConcat(Copies(edge, h.buckets[i] - 1), [h.maxNs], h.maxNs); }
    }
  }

  lemma SortedCopies(x: nat, n: nat)
    ensures Sorted(Copies(x, n))
  {
    var xs := Copies(x, n);
    forall i, j | 0 <= i <= j < |xs| ensures xs[i] <= xs[j] { assert xs[i] in xs && xs[j] in xs; }
  }

  lemma {:induction false} FillIsFilled(h: Histogram, k: nat)
    requires Defect(h, h.samples) == None && h.samples > 0 && k <= BUCKETS
    ensures Filled(h, k, Fill(h, k))
    decreases k
  {
    hide Filled, Sum, Below, BucketSamples, Sorted;
    if k > 0 {
      FillIsFilled(h, k - 1);
      BucketFacts(h, k - 1);
      ExtendFilled(h, k - 1, Fill(h, k - 1), BucketSamples(h, k - 1));
    } else {
      EmptyFilled(h);
    }
  }

  lemma EmptyFilled(h: Histogram)
    requires |h.buckets| == BUCKETS
    ensures Filled(h, 0, [])
  {
    assert h.buckets[..0] == [];
  }

  lemma ExtendFilled(h: Histogram, k: nat, xs: seq<nat>, ys: seq<nat>)
    requires |h.buckets| == BUCKETS && k < BUCKETS && Filled(h, k, xs)
    requires |ys| == h.buckets[k] && Sorted(ys)
    requires forall y :: y in ys ==> k * WIDTH <= y < (k + 1) * WIDTH && y <= h.maxNs
    ensures Filled(h, k + 1, xs + ys)
  {
    forall j | 0 <= j <= k + 1 ensures Below(xs + ys, j * WIDTH) == Sum(h.buckets[..j]) {
      BelowConcat(xs, ys, j * WIDTH);
      if j <= k {
        NoneBelow(ys, j * WIDTH);
      } else {
        AllBelow(ys, j * WIDTH);
        AllBelow(xs, j * WIDTH);
        AllBelow(xs, k * WIDTH);
        SumSnoc(h.buckets, k);
      }
    }
    SortedConcat(xs, ys, k * WIDTH);
  }

  lemma SortedConcat(xs: seq<nat>, ys: seq<nat>, bound: int)
    requires Sorted(xs) && Sorted(ys)
    requires forall x :: x in xs ==> x <= bound
    requires forall y :: y in ys ==> y >= bound
    ensures Sorted(xs + ys)
  {
    var zs := xs + ys;
    forall i, j | 0 <= i <= j < |zs| ensures zs[i] <= zs[j] {
      if i < |xs| <= j { assert xs[i] in xs && ys[j - |xs|] in ys; }
    }
  }

  /** Every accepted histogram is the histogram of some samples: the importer's
      checks are exactly those that real measurements always pass. */
  lemma AcceptedIsRecorded(h: Histogram) returns (xs: seq<nat>)
    requires Defect(h, h.samples) == None
    ensures Sorted(xs) && Records(h, xs)
  {
    if h.samples == 0 {
      xs := [];
      AllZero(h.buckets);
    } else {
      FillIsFilled(h, BUCKETS);
      var low := Fill(h, BUCKETS);
      var high := Copies(h.maxNs, h.overflow);
      xs := low + high;
      SortedCopies(h.maxNs, h.overflow);
      if h.overflow == 0 { MaximumFilled(h, BUCKETS); }
      FilledRecords(h, low, high);
    }
  }

  lemma {:induction false} AllZero(s: seq<int>)
    requires (forall i :: 0 <= i < |s| ==> s[i] >= 0) && Sum(s) <= 0
    ensures Sum(s) == 0 && forall i :: 0 <= i < |s| ==> s[i] == 0
    decreases |s|
  {
    if s != [] {
      SumNonNegative(s[..|s| - 1]);
      AllZero(s[..|s| - 1]);
    }
  }

  lemma {:induction false} SumNonNegative(s: seq<int>)
    requires forall i :: 0 <= i < |s| ==> s[i] >= 0
    ensures Sum(s) >= 0
    decreases |s|
  {
    if s != [] { SumNonNegative(s[..|s| - 1]); }
  }

  lemma FilledRecords(h: Histogram, low: seq<nat>, high: seq<nat>)
    requires |h.buckets| == BUCKETS && Filled(h, BUCKETS, low) && h.samples > 0
    requires |high| == h.overflow && Sorted(high) && (forall x :: x in high ==> x == h.maxNs)
    requires Sum(h.buckets) + h.overflow == h.samples
    requires if h.overflow == 0 then h.maxNs in low else h.maxNs >= LIMIT
    ensures Sorted(low + high) && Records(h, low + high)
  {
    var xs := low + high;
    assert h.buckets[..BUCKETS] == h.buckets;
    AllBelow(low, BUCKETS * WIDTH);
    SortedConcat(low, high, h.maxNs);
    forall j | 0 <= j <= BUCKETS ensures Below(xs, j * WIDTH) == Sum(h.buckets[..j]) {
      BelowConcat(low, high, j * WIDTH);
      NoneBelow(high, j * WIDTH);
    }
    hide Sum, Below, Sorted;
    forall i | 0 <= i < BUCKETS
      ensures h.buckets[i] == Below(xs, (i + 1) * WIDTH) - Below(xs, i * WIDTH)
    {
      SumSnoc(h.buckets, i);
    }
    assert Below(xs, BUCKETS * WIDTH) == Sum(h.buckets);
    assert h.maxNs in xs by { if h.overflow > 0 { assert high[0] in high; } }
  }

  lemma {:induction false} MaximumFilled(h: Histogram, k: nat)
    requires Defect(h, h.samples) == None && h.samples > 0 && h.overflow == 0
    requires h.maxNs / WIDTH < k <= BUCKETS
    ensures h.maxNs in Fill(h, k)
    decreases k
  {
    if h.maxNs / WIDTH < k - 1 { MaximumFilled(h, k - 1); }
  }

  // --------------------------------------------------------------- quantiles

  /** `q` is the value the importer reports for a rank: the last nanosecond of the
      bucket in which the rank falls, capped by the measured maximum. */
  ghost predicate Reported(h: Histogram, rank: nat, q: int)
    requires |h.buckets| == BUCKETS
  {
    if rank > Sum(h.buckets) then q == h.maxNs
    else exists i :: FallsInto(h, rank, i) && q == Min(h.maxNs, (i + 1) * WIDTH - 1)
  }

  ghost predicate FallsInto(h: Histogram, rank: nat, i: int)
    requires |h.buckets| == BUCKETS
  {
    0 <= i < BUCKETS && Sum(h.buckets[..i]) < rank <= Sum(h.buckets[..i + 1])
  }

  method Quantile(h: Histogram, perMille: nat) returns (q: int)
    requires Defect(h, h.samples) == None && h.samples > 0
    ensures Reported(h, Rank(h.samples, perMille), q)
  {
    var rank := Rank(h.samples, perMille);
    var accumulated := 0;
    assert h.buckets[..0] == [];
    for index := 0 to BUCKETS
      invariant accumulated == Sum(h.buckets[..index]) < rank
    {
      SumSnoc(h.buckets, index);
      accumulated := accumulated + h.buckets[index];
      if accumulated >= rank {
        RestAddsUp(h.buckets, index + 1);
        assert FallsInto(h, rank, index);
        return Min(h.maxNs, (index + 1) * WIDTH - 1);
      }
    }
    assert h.buckets[..BUCKETS] == h.buckets;
    return h.maxNs;
  }

  lemma {:induction false} RestAddsUp(s: seq<int>, k: nat)
    requires k <= |s| && forall i :: 0 <= i < |s| ==> s[i] >= 0
    ensures Sum(s[..k]) <= Sum(s)
    decreases |s|
  {
    if k < |s| {
      RestAddsUp(s[..|s| - 1], k);
      assert s[..|s| - 1][..k] == s[..k];
    } else {
      assert s[..k] == s;
    }
  }

  method HistogramStats(h: Histogram, expectedSamples: int) returns (r: Result<Stats, ImportError>)
    ensures match Defect(h, expectedSamples)
            case Some(e) => r == Err(e)
            case None =>
              && r.Ok?
              && (h.samples == 0 ==> r.value == Stats(0, 0, 0, 0))
              && (h.samples > 0 ==>
                    && Reported(h, Rank(h.samples, 500), r.value.p50)
                    && Reported(h, Rank(h.samples, 990), r.value.p99)
                    && Reported(h, Rank(h.samples, 999), r.value.p999)
                    && r.value.max == h.maxNs)
    ensures r.Ok? ==> 0 <= r.value.p50 <= r.value.p99 <= r.value.p999 <= r.value.max
  {
    var defect := Defect(h, expectedSamples);
    if defect.Some? { return Err(defect.value); }
    if h.samples == 0 { return Ok(Stats(0, 0, 0, 0)); }
    var p50 := Quantile(h, 500);
    var p99 := Quantile(h, 990);
    var p999 := Quantile(h, 999);
    ReportedInOrder(h, Rank(h.samples, 500), p50, Rank(h.samples, 990), p99);
    ReportedInOrder(h, Rank(h.samples, 990), p99, Rank(h.samples, 999), p999);
    return Ok(Stats(p50, p99, p999, h.maxNs));
  }

  /** A higher rank is never reported lower, and nothing is reported above the
      maximum, so the report validator's ordering check always passes. */
  lemma ReportedInOrder(h: Histogram, rank: nat, q: int, rank': nat, q': int)
    requires Defect(h, h.samples) == None && h.samples > 0 && rank <= rank'
    requires Reported(h, rank, q) && Reported(h, rank', q')
    ensures 0 <= q <= q' <= h.maxNs
  {
    hide Sum, FallsInto;
    if rank' <= Sum(h.buckets) {
      var i :| FallsInto(h, rank, i) && q == Min(h.maxNs, (i + 1) * WIDTH - 1);
      var j :| FallsInto(h, rank', j) && q' == Min(h.maxNs, (j + 1) * WIDTH - 1);
      BucketsInOrder(h, rank, i, rank', j);
    } else if rank <= Sum(h.buckets) {
      var i :| FallsInto(h, rank, i) && q == Min(h.maxNs, (i + 1) * WIDTH - 1);
      BucketsInOrder(h, rank, i, rank, i);
    }
  }

  lemma BucketsInOrder(h: Histogram, rank: nat, i: int, rank': nat, j: int)
    requires |h.buckets| == BUCKETS && forall k :: 0 <= k < BUCKETS ==> h.buckets[k] >= 0
    requires rank <= rank' && FallsInto(h, rank, i) && FallsInto(h, rank', j)
    ensures 0 <= i <= j
  {
    if j < i {
      assert h.buckets[..i][..j + 1] == h.buckets[..j + 1];
      RestAddsUp(h.buckets[..i], j + 1);
    }
  }

  /** For every ascending list of samples behind the histogram, the reported
      quantile is at or above the nearest-rank sample, and above it by less than one
      bucket unless the rank falls into the overflow. */
  lemma QuantileError(h: Histogram, xs: seq<nat>, perMille: nat, q: int)
    requires Records(h, xs) && Sorted(xs) && xs != [] && perMille <= 1000
    requires Reported(h, Rank(|xs|, perMille), q)
    ensures var rank := Rank(|xs|, perMille);
            && 1 <= rank <= |xs|
            && xs[rank - 1] <= q
            && (rank <= |xs| - h.overflow ==> q - xs[rank - 1] < WIDTH)
            && (rank > |xs| - h.overflow ==> q == h.maxNs)
  {
    var rank := Rank(|xs|, perMille);
    RankInRange(|xs|, perMille);
    hide Rank, Sum, Below, Sorted;
    var x := xs[rank - 1];
    assert x in xs;
    PrefixCounts(h, xs, BUCKETS);
    assert h.buckets[..BUCKETS] == h.buckets;
    if rank <= Sum(h.buckets) {
      var i :| FallsInto(h, rank, i) && q == Min(h.maxNs, (i + 1) * WIDTH - 1);
      PrefixCounts(h, xs, i);
      PrefixCounts(h, xs, i + 1);
      BelowSorted(xs, i * WIDTH, rank - 1);
      BelowSorted(xs, (i + 1) * WIDTH, rank - 1);
    }
  }

  lemma RankInRange(n: nat, perMille: nat)
    requires n > 0 && perMille <= 1000
    ensures 1 <= Rank(n, perMille) <= n
  {
    MulBound(n, perMille);
  }

  lemma {:induction false} MulBound(n: nat, p: nat)
    requires p <= 1000
    ensures n * p <= n * 1000
    decreases n
  {
    if n > 0 {
      MulBound(n - 1, p);
      assert n * p == (n - 1) * p + p;
    }
  }
}
