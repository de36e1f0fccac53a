/** `testing/performance/percentiles.py`: nearest-rank percentiles, over exact numbers. */
module Percentiles {
  import opened Values

  function Ceiling(r: real): int { -((-r).Floor) }

  function Share(p: real, n: nat): real { p / 100.0 * n as real }

  /** The rank `ceil(p/100 * n)`, clamped to `[1, n]`. */
  function Rank(p: real, n: nat): (rank: nat)
    requires n > 0
    ensures 1 <= rank <= n
  {
    var rank := Ceiling(Share(p, n));
    if rank < 1 then 1 else if rank > n then n else rank
  }

  /** `percentile(sorted_values, p)`; `None` is its ValueError. */
  function Percentile(sorted: seq<real>, p: real): Option<real> {
    if |sorted| == 0 then None
    else if |sorted| == 1 then Some(sorted[0])
    else Some(sorted[Rank(p, |sorted|) - 1])
  }

  ghost predicate Sorted(s: seq<real>) {
    forall i, j :: 0 <= i < j < |s| ==> s[i] <= s[j]
  }

  function Insert(v: real, s: seq<real>): seq<real> {
    if |s| == 0 || v <= s[0] then [v] + s else [s[0]] + Insert(v, s[1..])
  }

  /** `sorted(values)`. */
  function Sort(s: seq<real>): seq<real> {
    if |s| == 0 then [] else Insert(s[0], Sort(s[1..]))
  }

  lemma {:induction false} InsertSorts(v: real, s: seq<real>)
    requires Sorted(s)
    ensures Sorted(Insert(v, s)) && forall x :: x in Insert(v, s) ==> x == v || x in s
  {
    if |s| > 0 && v > s[0] {
      var r := Insert(v, s[1..]);
      InsertSorts(v, s[1..]);
      forall i | 0 <= i < |r| ensures s[0] <= r[i] {
        assert r[i] in r;
        if r[i] != v {
          var j :| 0 <= j < |s[1..]| && s[1..][j] == r[i];
        }
      }
    }
  }

  lemma {:induction false} InsertKeepsAll(v: real, s: seq<real>)
    ensures multiset(Insert(v, s)) == multiset(s) + multiset{v}
  {
    if |s| > 0 && v > s[0] {
      InsertKeepsAll(v, s[1..]);
      assert s == [s[0]] + s[1..];
    }
  }

  lemma {:induction false} SortSorts(s: seq<real>)
    ensures Sorted(Sort(s)) && multiset(Sort(s)) == multiset(s)
    ensures |Sort(s)| == |s|
  {
    if |s| > 0 {
      SortSorts(s[1..]);
      InsertSorts(s[0], Sort(s[1..]));
      InsertKeepsAll(s[0], Sort(s[1..]));
      assert s == [s[0]] + s[1..];
    }
    assert |multiset(Sort(s))| == |Sort(s)| && |multiset(s)| == |s|;
  }

  /** A sorted list is determined by what it contains. */
  lemma {:induction false} SortedIsUnique(a: seq<real>, b: seq<real>)
    requires Sorted(a) && Sorted(b) && multiset(a) == multiset(b)
    ensures a == b
  {
    assert |a| == |multiset(a)| == |multiset(b)| == |b|;
    if |a| > 0 {
      SameHead(a, b);
      SortedIsUnique(a[1..], b[1..]);
      assert a == [a[0]] + a[1..] && b == [b[0]] + b[1..];
    }
  }

  lemma SameHead(a: seq<real>, b: seq<real>)
    requires Sorted(a) && Sorted(b) && multiset(a) == multiset(b) && |a| > 0 && |b| > 0
    ensures a[0] == b[0] && multiset(a[1..]) == multiset(b[1..])
  {
    assert a[0] in multiset(b) && b[0] in multiset(a);
    var i :| 0 <= i < |b| && b[i] == a[0];
    var j :| 0 <= j < |a| && a[j] == b[0];
    assert a[0] <= a[j] && b[0] <= b[i];
    WithoutHead(a);
    WithoutHead(b);
  }

  lemma WithoutHead(s: seq<real>)
    requires |s| > 0
    ensures multiset(s[1..]) == multiset(s) - multiset{s[0]}
  {
    assert s == [s[0]] + s[1..];
    assert multiset([s[0]] + s[1..]) == multiset{s[0]} + multiset(s[1..]);
  }

  /** How many samples lie strictly below `v`, and at most at `v`. */
  function CountBelow(s: seq<real>, v: real): nat {
    if |s| == 0 then 0 else (if s[0] < v then 1 else 0) + CountBelow(s[1..], v)
  }

  function CountAtMost(s: seq<real>, v: real): nat {
    if |s| == 0 then 0 else (if s[0] <= v then 1 else 0) + CountAtMost(s[1..], v)
  }

  lemma {:induction false} CountInsert(x: real, s: seq<real>, v: real)
    ensures CountBelow(Insert(x, s), v) == CountBelow([x] + s, v)
    ensures CountAtMost(Insert(x, s), v) == CountAtMost([x] + s, v)
  {
    assert ([x] + s)[1..] == s;
    if |s| > 0 && x > s[0] {
      CountInsert(x, s[1..], v);
      assert ([x] + s[1..])[1..] == s[1..];
    }
  }

  lemma {:induction false} CountSort(s: seq<real>, v: real)
    ensures CountBelow(Sort(s), v) == CountBelow(s, v) && CountAtMost(Sort(s), v) == CountAtMost(s, v)
  {
    if |s| > 0 {
      CountSort(s[1..], v);
      CountInsert(s[0], Sort(s[1..]), v);
      assert ([s[0]] + Sort(s[1..]))[1..] == Sort(s[1..]);
    }
  }

  /** In a sorted list, position `k` has at most `k` values below it and `k + 1` up to it. */
  lemma {:induction false} CountSorted(s: seq<real>, k: nat, v: real)
    requires Sorted(s) && k < |s| && v == s[k]
    ensures CountBelow(s, v) <= k < CountAtMost(s, v)
  {
    if k > 0 {
      CountSorted(s[1..], k - 1, v);
    } else {
      CountBelowNone(s, v);
    }
  }

  lemma {:induction false} CountBelowNone(s: seq<real>, v: real)
    requires forall i :: 0 <= i < |s| ==> s[i] >= v
    ensures CountBelow(s, v) == 0
  {
    if |s| > 0 {
      CountBelowNone(s[1..], v);
    }
  }

  lemma {:induction false} CountsAreMonotone(s: seq<real>, v: real, w: real)
    requires v < w
    ensures CountAtMost(s, v) <= CountBelow(s, w)
  {
    if |s| > 0 {
      CountsAreMonotone(s[1..], v, w);
    }
  }

  /** What a nearest-rank percentile is: an observed sample with less than `p` percent of the samples
      below it and at least `p` percent up to it; or the smallest one when `p` is not positive, and
      the largest one when `p` is above 100. */
  ghost predicate IsNearestRank(s: seq<real>, p: real, v: real) {
    v in s &&
    (CountBelow(s, v) as real * 100.0 < p * |s| as real || CountBelow(s, v) == 0) &&
    (p * |s| as real <= CountAtMost(s, v) as real * 100.0 || CountAtMost(s, v) == |s|)
  }

  /** The rank is the one that separates the counts. */
  lemma RankSeparates(p: real, n: nat, below: nat, upTo: nat)
    requires below < upTo <= n
    ensures below < Rank(p, n) <= upTo <==>
            (below as real * 100.0 < p * n as real || below == 0) && (p * n as real <= upTo as real * 100.0 || upTo == n)
  {
    CeilingBeyond(Share(p, n), below);
    CeilingBeyond(Share(p, n), upTo);
    ShareBeyond(p, n, below);
    ShareBeyond(p, n, upTo);
  }

  lemma CeilingBeyond(r: real, k: nat)
    ensures Ceiling(r) <= k <==> r <= k as real
  {
  }

  lemma ShareBeyond(p: real, n: nat, k: nat)
    ensures Share(p, n) <= k as real <==> p * n as real <= k as real * 100.0
  {
    assert Share(p, n) * 100.0 == p * n as real;
  }

  /** With fewer than `rank` samples below it and at least `rank` up to it. */
  ghost predicate HasRank(s: seq<real>, rank: nat, v: real) {
    v in s && CountBelow(s, v) < rank <= CountAtMost(s, v)
  }

  lemma NearestHasRank(s: seq<real>, p: real, v: real)
    requires |s| > 0
    ensures IsNearestRank(s, p, v) <==> HasRank(s, Rank(p, |s|), v)
  {
    SampleCounts(s, v);
    if v in s {
      RankSeparates(p, |s|, CountBelow(s, v), CountAtMost(s, v));
    }
  }

  lemma OneHasRank(s: seq<real>, rank: nat, v: real, w: real)
    requires HasRank(s, rank, v) && HasRank(s, rank, w)
    ensures v == w
  {
    if v < w {
      CountsAreMonotone(s, v, w);
    } else if w < v {
      CountsAreMonotone(s, w, v);
    }
  }

  lemma SortedHasRank(s: seq<real>, rank: nat)
    requires 0 < rank <= |s|
    ensures |Sort(s)| == |s| && HasRank(s, rank, Sort(s)[rank - 1])
  {
    SortSorts(s);
    var w := Sort(s)[rank - 1];
    CountSorted(Sort(s), rank - 1, w);
    CountSort(s, w);
    assert w in multiset(Sort(s));
  }

  lemma PercentileAt(sorted: seq<real>, p: real)
    requires |sorted| > 0
    ensures Percentile(sorted, p) == Some(sorted[Rank(p, |sorted|) - 1])
  {
  }

  lemma OnlyRanked(s: seq<real>, rank: nat, v: real)
    requires 0 < rank <= |s| == |Sort(s)|
    ensures Sort(s)[rank - 1] == v <==> HasRank(s, rank, v)
  {
    SortedHasRank(s, rank);
    if HasRank(s, rank, v) {
      OneHasRank(s, rank, v, Sort(s)[rank - 1]);
    }
  }

  /** `percentile` on the sorted samples returns that sample, and no other value qualifies. */
  lemma PercentileIsNearestRank(s: seq<real>, p: real, v: real)
    requires |s| > 0
    ensures Percentile(Sort(s), p) == Some(v) <==> IsNearestRank(s, p, v)
  {
    SortSorts(s);
    PercentileAt(Sort(s), p);
    OnlyRanked(s, Rank(p, |s|), v);
    NearestHasRank(s, p, v);
  }

  lemma {:induction false} SampleCounts(s: seq<real>, v: real)
    ensures CountBelow(s, v) <= CountAtMost(s, v) <= |s|
    ensures v in s ==> CountBelow(s, v) < CountAtMost(s, v)
  {
    if |s| > 0 {
      SampleCounts(s[1..], v);
    }
  }

  // ---------------------------------------------------------------- latency statistics

  datatype LatencyStats = LatencyStats(min: real, mean: real, p50: real, p90: real, p95: real, p99: real, max: real)

  function Sum(s: seq<real>): real {
    if |s| == 0 then 0.0 else s[0] + Sum(s[1..])
  }

  function StatsOf(sorted: seq<real>): LatencyStats
    requires |sorted| > 0
  {
    LatencyStats(sorted[0], Sum(sorted) / |sorted| as real,
                 Percentile(sorted, 50.0).value, Percentile(sorted, 90.0).value,
                 Percentile(sorted, 95.0).value, Percentile(sorted, 99.0).value,
                 sorted[|sorted| - 1])
  }

  /** `compute_latency_stats`; `None` without samples. */
  function ComputeLatencyStats(durations: seq<real>): Option<LatencyStats> {
    if |durations| == 0 then None
    else
      assert |Sort(durations)| > 0 by { SortSorts(durations); }
      Some(StatsOf(Sort(durations)))
  }

  /** The statistics do not depend on the order in which the samples came in. */
  lemma StatsIgnoreOrder(a: seq<real>, b: seq<real>)
    requires multiset(a) == multiset(b)
    ensures ComputeLatencyStats(a) == ComputeLatencyStats(b)
  {
    SortSorts(a);
    SortSorts(b);
    SortedIsUnique(Sort(a), Sort(b));
    assert |multiset(a)| == |a| && |multiset(b)| == |b|;
  }

  lemma RankIsMonotone(p: real, q: real, n: nat)
    requires n > 0 && p <= q
    ensures Rank(p, n) <= Rank(q, n)
  {
    ScaleIsMonotone(p / 100.0, q / 100.0, n as real);
    assert Share(p, n) <= Share(q, n);
    assert Ceiling(Share(p, n)) <= Ceiling(Share(q, n));
  }

  lemma ScaleIsMonotone(x: real, y: real, n: real)
    requires x <= y && n >= 0.0
    ensures x * n <= y * n
  {
  }

  lemma PercentileIsMonotone(sorted: seq<real>, p: real, q: real)
    requires Sorted(sorted) && |sorted| > 0 && p <= q
    ensures sorted[0] <= Percentile(sorted, p).value <= Percentile(sorted, q).value <= sorted[|sorted| - 1]
  {
    RankIsMonotone(p, q, |sorted|);
  }

  lemma {:induction false} SumBounds(s: seq<real>, low: real, high: real)
    requires forall i :: 0 <= i < |s| ==> low <= s[i] <= high
    ensures |s| as real * low <= Sum(s) <= |s| as real * high
  {
    if |s| > 0 {
      SumBounds(s[1..], low, high);
      assert |s| as real * low == low + |s[1..]| as real * low;
      assert |s| as real * high == high + |s[1..]| as real * high;
    }
  }

  predicate InOrder(s: LatencyStats) {
    s.min <= s.p50 <= s.p90 <= s.p95 <= s.p99 <= s.max && s.min <= s.mean <= s.max
  }

  predicate Encloses(s: LatencyStats, d: real) { s.min <= d <= s.max }

  /** The reported figures are in order and enclose the mean and every sample. */
  lemma StatsAreOrdered(durations: seq<real>)
    requires |durations| > 0
    ensures ComputeLatencyStats(durations).Some?
    ensures InOrder(ComputeLatencyStats(durations).value)
    ensures forall d :: d in durations ==> Encloses(ComputeLatencyStats(durations).value, d)
  {
    SortSorts(durations);
    StatsOfSorted(Sort(durations));
    forall d | d in durations ensures d in Sort(durations) {
      assert d in multiset(Sort(durations));
    }
  }

  lemma StatsOfSorted(sorted: seq<real>)
    requires Sorted(sorted) && |sorted| > 0
    ensures InOrder(StatsOf(sorted)) && forall d :: d in sorted ==> Encloses(StatsOf(sorted), d)
  {
    PercentileIsMonotone(sorted, 50.0, 90.0);
    PercentileIsMonotone(sorted, 90.0, 95.0);
    PercentileIsMonotone(sorted, 95.0, 99.0);
    MeanBetween(sorted);
  }

  lemma {:induction false} SumInsert(v: real, s: seq<real>)
    ensures Sum(Insert(v, s)) == v + Sum(s)
  {
    if |s| > 0 && v > s[0] {
      SumInsert(v, s[1..]);
    } else {
      assert ([v] + s)[1..] == s;
    }
  }

  lemma {:induction false} SumSort(s: seq<real>)
    ensures Sum(Sort(s)) == Sum(s)
  {
    if |s| > 0 {
      SumSort(s[1..]);
      SumInsert(s[0], Sort(s[1..]));
    }
  }

  ghost predicate IsMean(mean: real, s: seq<real>) { mean * |s| as real == Sum(s) }

  lemma MeanOfSorted(sorted: seq<real>)
    requires |sorted| > 0
    ensures IsMean(StatsOf(sorted).mean, sorted)
  {
    Divides(Sum(sorted), |sorted| as real);
  }

  lemma Divides(sum: real, n: real)
    requires n > 0.0
    ensures sum / n * n == sum
  {
  }

  lemma SameMean(mean: real, a: seq<real>, b: seq<real>)
    requires |a| == |b| && Sum(a) == Sum(b) && IsMean(mean, a)
    ensures IsMean(mean, b)
  {
  }

  /** The mean is that of the samples as they came in... */
  lemma MeanIsExact(durations: seq<real>)
    requires |durations| > 0
    ensures ComputeLatencyStats(durations).Some? && IsMean(ComputeLatencyStats(durations).value.mean, durations)
  {
    SortSorts(durations);
    SumSort(durations);
    MeanOfSorted(Sort(durations));
    SameMean(StatsOf(Sort(durations)).mean, Sort(durations), durations);
  }

  /** What the figures say about the samples: the smallest and the largest one, their mean, and four
      nearest-rank percentiles. */
  ghost predicate Describes(s: LatencyStats, durations: seq<real>) {
    s.min in durations && s.max in durations && (forall d :: d in durations ==> Encloses(s, d)) && IsMean(s.mean, durations) &&
    IsNearestRank(durations, 50.0, s.p50) && IsNearestRank(durations, 90.0, s.p90) &&
    IsNearestRank(durations, 95.0, s.p95) && IsNearestRank(durations, 99.0, s.p99)
  }

  /** ...and all but the mean are samples, the percentiles being nearest-rank. */
  lemma StatsAreSamples(durations: seq<real>)
    requires |durations| > 0
    ensures ComputeLatencyStats(durations).Some?
    ensures var s := ComputeLatencyStats(durations).value;
            s.min in durations && s.max in durations &&
            IsNearestRank(durations, 50.0, s.p50) && IsNearestRank(durations, 90.0, s.p90) &&
            IsNearestRank(durations, 95.0, s.p95) && IsNearestRank(durations, 99.0, s.p99)
  {
    SortSorts(durations);
    var sorted := Sort(durations);
    var s := ComputeLatencyStats(durations).value;
    PercentileIsNearestRank(durations, 50.0, s.p50);
    PercentileIsNearestRank(durations, 90.0, s.p90);
    PercentileIsNearestRank(durations, 95.0, s.p95);
    PercentileIsNearestRank(durations, 99.0, s.p99);
    assert s.min in multiset(sorted) && s.max in multiset(sorted);
  }

  lemma StatsDescribe(durations: seq<real>)
    requires |durations| > 0
    ensures ComputeLatencyStats(durations).Some? && Describes(ComputeLatencyStats(durations).value, durations)
  {
    StatsAreOrdered(durations);
    StatsAreSamples(durations);
    MeanIsExact(durations);
  }

  lemma MeanBetween(sorted: seq<real>)
    requires Sorted(sorted) && |sorted| > 0
    ensures sorted[0] <= Sum(sorted) / |sorted| as real <= sorted[|sorted| - 1]
  {
    SumBounds(sorted, sorted[0], sorted[|sorted| - 1]);
    Between(sorted[0], Sum(sorted), sorted[|sorted| - 1], |sorted| as real);
  }

  lemma Between(low: real, sum: real, high: real, n: real)
    requires n > 0.0 && n * low <= sum <= n * high
    ensures low <= sum / n <= high
  {
    var mean := sum / n;
    assert mean * n == sum;
    if mean < low {
      Strictly(mean, low, n);
    }
    if mean > high {
      Strictly(high, mean, n);
    }
  }

  lemma Strictly(x: real, y: real, n: real)
    requires x < y && n > 0.0
    ensures x * n < y * n
  {
  }
}
