/** `regression/performance_compare.py`: metrics compared under tolerances, over exact numbers. */
module PerformanceCompare {
  import opened Values
  import opened AssessmentRules
  import opened Regression
  import opened Sorting

  type MetricMap = map<string, Option<real>>

  /** `metrics.get(key)`: a missing key and a null are the same. */
  function Metric(m: MetricMap, key: string): Option<real> { if key in m then m[key] else None }

  function Tolerance(t: map<string, real>, key: string): Option<real> { if key in t then Some(t[key]) else None }

  /** `_percent_delta`. */
  function PercentDelta(baseline: Option<real>, current: Option<real>): Option<real> {
    if baseline.None? || current.None? || baseline.value == 0.0 then None
    else Some((current.value - baseline.value) / baseline.value * 100.0)
  }

  /** Latency: lower is better. */
  function LatencyChange(baseline: Option<real>, current: Option<real>, tolerance: Option<real>): ChangeType {
    match PercentDelta(baseline, current)
    case None => NOT_COMPARABLE
    case Some(pct) =>
      if tolerance.Some? && pct > tolerance.value then REGRESSED
      else if tolerance.Some? && pct < -tolerance.value then IMPROVED
      else UNCHANGED
  }

  /** Throughput: higher is better. */
  function RpsChange(baseline: Option<real>, current: Option<real>, tolerance: Option<real>): ChangeType {
    match PercentDelta(baseline, current)
    case None => NOT_COMPARABLE
    case Some(pct) =>
      if tolerance.Some? && pct < -tolerance.value then REGRESSED
      else if tolerance.Some? && pct > tolerance.value then IMPROVED
      else UNCHANGED
  }

  /** Error rate: lower is better, in percentage points. */
  function ErrorRateChange(baseline: Option<real>, current: Option<real>, tolerance: Option<real>): ChangeType {
    if baseline.None? || current.None? then NOT_COMPARABLE
    else
      var delta := current.value - baseline.value;
      if tolerance.Some? && delta > tolerance.value then REGRESSED
      else if tolerance.Some? && delta < -tolerance.value then IMPROVED
      else UNCHANGED
  }

  const LATENCY_METRICS: seq<(string, string)> := [
    ("p50_ms", "p50_percent"), ("p90_ms", "p90_percent"), ("p95_ms", "p95_percent"), ("p99_ms", "p99_percent")]

  datatype MetricDelta = MetricDelta(metric: string, change: ChangeType)

  function LatencyDeltas(keys: seq<(string, string)>, b: MetricMap, c: MetricMap, t: map<string, real>): seq<MetricDelta> {
    if |keys| == 0 then []
    else
      var (key, tolerance) := keys[|keys| - 1];
      LatencyDeltas(keys[..|keys| - 1], b, c, t) +
      [MetricDelta(key, LatencyChange(Metric(b, key), Metric(c, key), Tolerance(t, tolerance)))]
  }

  /** All metrics of one level, in the order they are compared. */
  function LevelDeltas(b: MetricMap, c: MetricMap, t: map<string, real>): seq<MetricDelta> {
    LatencyDeltas(LATENCY_METRICS, b, c, t) + [
      MetricDelta("rps", RpsChange(Metric(b, "rps"), Metric(c, "rps"), Tolerance(t, "rps_percent"))),
      MetricDelta("error_rate_percent",
                  ErrorRateChange(Metric(b, "error_rate_percent"), Metric(c, "error_rate_percent"), Tolerance(t, "error_rate_absolute")))]
  }

  /** One HIGH finding per metric that regressed. */
  function FindingsOf(concurrency: int, deltas: seq<MetricDelta>): seq<Finding> {
    if |deltas| == 0 then []
    else
      var last := deltas[|deltas| - 1];
      FindingsOf(concurrency, deltas[..|deltas| - 1]) +
      if last.change == REGRESSED then [Finding(MetricRegressed(last.metric, concurrency), REGRESSED, HIGH)] else []
  }

  /** `_compare_level`, with the lists it appends to. */
  method CompareLevel(concurrency: int, b: MetricMap, c: MetricMap, t: map<string, real>)
    returns (metrics: seq<MetricDelta>, findings: seq<Finding>)
    ensures metrics == LevelDeltas(b, c, t) && findings == FindingsOf(concurrency, metrics)
  {
    metrics, findings := CompareLatencies(LATENCY_METRICS, concurrency, b, c, t);
    var rps := RpsChange(Metric(b, "rps"), Metric(c, "rps"), Tolerance(t, "rps_percent"));
    metrics, findings := Report(concurrency, metrics, findings, "rps", rps);
    var errorRate := ErrorRateChange(Metric(b, "error_rate_percent"), Metric(c, "error_rate_percent"), Tolerance(t, "error_rate_absolute"));
    metrics, findings := Report(concurrency, metrics, findings, "error_rate_percent", errorRate);
  }

  /** Its first loop, over the latency percentiles. */
  method CompareLatencies(keys: seq<(string, string)>, concurrency: int, b: MetricMap, c: MetricMap, t: map<string, real>)
    returns (metrics: seq<MetricDelta>, findings: seq<Finding>)
    ensures metrics == LatencyDeltas(keys, b, c, t) && findings == FindingsOf(concurrency, metrics)
  {
    metrics, findings := [], [];
    var i := 0;
    while i < |keys|
      invariant 0 <= i <= |keys|
      invariant metrics == LatencyDeltas(keys[..i], b, c, t) && findings == FindingsOf(concurrency, metrics)
    {
      var (key, tolerance) := keys[i];
      assert keys[..i + 1][..i] == keys[..i];
      var change := LatencyChange(Metric(b, key), Metric(c, key), Tolerance(t, tolerance));
      metrics, findings := Report(concurrency, metrics, findings, key, change);
      i := i + 1;
    }
    assert keys[..i] == keys;
  }

  /** Appends one metric, and its finding when it regressed. */
  method Report(concurrency: int, metrics: seq<MetricDelta>, findings: seq<Finding>, key: string, change: ChangeType)
    returns (metrics': seq<MetricDelta>, findings': seq<Finding>)
    requires findings == FindingsOf(concurrency, metrics)
    ensures metrics' == metrics + [MetricDelta(key, change)] && findings' == FindingsOf(concurrency, metrics')
  {
    metrics' := metrics + [MetricDelta(key, change)];
    assert metrics'[..|metrics|] == metrics;
    findings' := if change == REGRESSED then findings + [Finding(MetricRegressed(key, concurrency), REGRESSED, HIGH)] else findings;
  }

  datatype LevelSnapshot = LevelSnapshot(concurrency: int, metrics: MetricMap)

  /** `{lv.concurrency: lv.metrics for lv in levels}`. */
  function ByConcurrency(levels: seq<LevelSnapshot>): map<int, MetricMap> {
    if |levels| == 0 then map[]
    else ByConcurrency(levels[..|levels| - 1])[levels[|levels| - 1].concurrency := levels[|levels| - 1].metrics]
  }

  function ConcurrenciesIn(levels: seq<LevelSnapshot>, other: map<int, MetricMap>): seq<int> {
    if |levels| == 0 then []
    else
      (if levels[0].concurrency in other then [levels[0].concurrency] else []) + ConcurrenciesIn(levels[1..], other)
  }

  /** The concurrencies both runs have, ascending. */
  function Common(b: seq<LevelSnapshot>, c: seq<LevelSnapshot>): seq<int> {
    SortedSet(ConcurrenciesIn(b, ByConcurrency(c)), IntLess)
  }

  function FindingsAcross(common: seq<int>, b: map<int, MetricMap>, c: map<int, MetricMap>, t: map<string, real>): seq<Finding>
    requires forall n :: n in common ==> n in b && n in c
  {
    if |common| == 0 then []
    else
      var n := common[|common| - 1];
      assert forall m :: m in common[..|common| - 1] ==> m in common;
      FindingsAcross(common[..|common| - 1], b, c, t) + FindingsOf(n, LevelDeltas(b[n], c[n], t))
  }

  /** The metric deltas of all common levels, with the level each belongs to. */
  function DeltasAcross(common: seq<int>, b: map<int, MetricMap>, c: map<int, MetricMap>, t: map<string, real>): seq<(int, seq<MetricDelta>)>
    requires forall n :: n in common ==> n in b && n in c
  {
    if |common| == 0 then []
    else
      var n := common[|common| - 1];
      assert forall m :: m in common[..|common| - 1] ==> m in common;
      DeltasAcross(common[..|common| - 1], b, c, t) + [(n, LevelDeltas(b[n], c[n], t))]
  }

  predicate HasLevel(levels: seq<LevelSnapshot>, n: int) {
    exists i :: 0 <= i < |levels| && levels[i].concurrency == n
  }

  lemma {:induction false} ByConcurrencyKeys(levels: seq<LevelSnapshot>)
    ensures forall n :: n in ByConcurrency(levels) <==> HasLevel(levels, n)
  {
    if |levels| > 0 {
      var init := levels[..|levels| - 1];
      ByConcurrencyKeys(init);
      assert forall i :: 0 <= i < |init| ==> init[i] == levels[i];
    }
  }

  lemma {:induction false} ConcurrenciesInAre(levels: seq<LevelSnapshot>, other: map<int, MetricMap>)
    ensures forall n :: n in ConcurrenciesIn(levels, other) <==> n in other && HasLevel(levels, n)
  {
    if |levels| > 0 {
      ConcurrenciesInAre(levels[1..], other);
      forall n ensures HasLevel(levels, n) <==> levels[0].concurrency == n || HasLevel(levels[1..], n) {
        if i :| 0 <= i < |levels[1..]| && levels[1..][i].concurrency == n {
          assert levels[i + 1].concurrency == n;
        }
        if i :| 0 < i < |levels| && levels[i].concurrency == n {
          assert levels[1..][i - 1].concurrency == n;
        }
      }
    }
  }

  lemma CommonAreCommon(b: seq<LevelSnapshot>, c: seq<LevelSnapshot>)
    ensures Ascending(Common(b, c), IntLess)
    ensures forall n :: n in Common(b, c) <==> n in ByConcurrency(b) && n in ByConcurrency(c)
  {
    OrdersAreTotal();
    ConcurrenciesInAre(b, ByConcurrency(c));
    SortedSetSorts(ConcurrenciesIn(b, ByConcurrency(c)), IntLess);
    ByConcurrencyKeys(b);
  }

  /** The findings and the status of the Performance category. */
  function Performance(b: Option<seq<LevelSnapshot>>, c: Option<seq<LevelSnapshot>>, t: map<string, real>): Category {
    if b.None? || c.None? || Common(b.value, c.value) == [] then Category("Performance", NOT_ASSESSED, [])
    else
      CommonAreCommon(b.value, c.value);
      var findings := FindingsAcross(Common(b.value, c.value), ByConcurrency(b.value), ByConcurrency(c.value), t);
      Category("Performance", StatusFromFindings(findings), findings)
  }

  /** The metrics of the Performance category. */
  function Metrics(b: Option<seq<LevelSnapshot>>, c: Option<seq<LevelSnapshot>>, t: map<string, real>): seq<(int, seq<MetricDelta>)> {
    if b.None? || c.None? then []
    else
      CommonAreCommon(b.value, c.value);
      DeltasAcross(Common(b.value, c.value), ByConcurrency(b.value), ByConcurrency(c.value), t)
  }

  /** `compare_performance`. */
  method ComparePerformance(baseline: Option<seq<LevelSnapshot>>, current: Option<seq<LevelSnapshot>>, t: map<string, real>)
    returns (r: Category, metrics: seq<(int, seq<MetricDelta>)>)
    ensures r == Performance(baseline, current, t) && metrics == Metrics(baseline, current, t)
  {
    if baseline.None? || current.None? {
      return Category("Performance", NOT_ASSESSED, []), [];
    }
    var b := ByConcurrency(baseline.value);
    var c := ByConcurrency(current.value);
    var common := Common(baseline.value, current.value);
    CommonAreCommon(baseline.value, current.value);
    if common == [] {
      return Category("Performance", NOT_ASSESSED, []), [];
    }
    var findings;
    findings, metrics := CompareLevels(common, b, c, t);
    r := Category("Performance", StatusFromFindings(findings), findings);
  }

  /** Its loop over the common levels. */
  method CompareLevels(common: seq<int>, b: map<int, MetricMap>, c: map<int, MetricMap>, t: map<string, real>)
    returns (findings: seq<Finding>, metrics: seq<(int, seq<MetricDelta>)>)
    requires forall n :: n in common ==> n in b && n in c
    ensures findings == FindingsAcross(common, b, c, t) && metrics == DeltasAcross(common, b, c, t)
  {
    findings, metrics := [], [];
    var i := 0;
    while i < |common|
      invariant 0 <= i <= |common| && findings == FindingsAcross(common[..i], b, c, t)
      invariant metrics == DeltasAcross(common[..i], b, c, t)
    {
      assert common[i] in common && common[..i + 1][..i] == common[..i];
      var deltas, more := CompareLevel(common[i], b[common[i]], c[common[i]], t);
      findings, metrics := findings + more, metrics + [(common[i], deltas)];
      i := i + 1;
    }
    assert common[..i] == common;
  }

  // ---------------------------------------------------------------- what is reported

  /** What each metric's change is called... */
  ghost predicate Regressed(metric: string, b: MetricMap, c: MetricMap, t: map<string, real>) {
    var was, now := Metric(b, metric), Metric(c, metric);
    (metric == "p50_ms" && LatencyChange(was, now, Tolerance(t, "p50_percent")) == REGRESSED) ||
    (metric == "p90_ms" && LatencyChange(was, now, Tolerance(t, "p90_percent")) == REGRESSED) ||
    (metric == "p95_ms" && LatencyChange(was, now, Tolerance(t, "p95_percent")) == REGRESSED) ||
    (metric == "p99_ms" && LatencyChange(was, now, Tolerance(t, "p99_percent")) == REGRESSED) ||
    (metric == "rps" && RpsChange(was, now, Tolerance(t, "rps_percent")) == REGRESSED) ||
    (metric == "error_rate_percent" && ErrorRateChange(was, now, Tolerance(t, "error_rate_absolute")) == REGRESSED)
  }

  /** ...and when it is worse beyond its own tolerance: latencies that rose and throughput that fell,
      in percent of what they were, and error rates that rose in percentage points. */
  ghost predicate Worse(metric: string, was: real, now: real, t: map<string, real>) {
    (metric == "p50_ms" && "p50_percent" in t && was != 0.0 && (now - was) / was * 100.0 > t["p50_percent"]) ||
    (metric == "p90_ms" && "p90_percent" in t && was != 0.0 && (now - was) / was * 100.0 > t["p90_percent"]) ||
    (metric == "p95_ms" && "p95_percent" in t && was != 0.0 && (now - was) / was * 100.0 > t["p95_percent"]) ||
    (metric == "p99_ms" && "p99_percent" in t && was != 0.0 && (now - was) / was * 100.0 > t["p99_percent"]) ||
    (metric == "rps" && "rps_percent" in t && was != 0.0 && (now - was) / was * 100.0 < -t["rps_percent"]) ||
    (metric == "error_rate_percent" && "error_rate_absolute" in t && now - was > t["error_rate_absolute"])
  }

  /** The last level of this concurrency measured the metric as `x`. */
  ghost predicate Measures(levels: seq<LevelSnapshot>, n: int, metric: string, x: real) {
    exists i :: 0 <= i < |levels| && levels[i].concurrency == n && metric in levels[i].metrics && levels[i].metrics[metric] == Some(x) &&
      forall j :: i < j < |levels| ==> levels[j].concurrency != n
  }

  ghost predicate WorseAt(b: seq<LevelSnapshot>, c: seq<LevelSnapshot>, t: map<string, real>, metric: string, n: int) {
    exists was, now :: Measures(b, n, metric, was) && Measures(c, n, metric, now) && Worse(metric, was, now, t)
  }

  lemma {:induction false} ByConcurrencyMeasures(levels: seq<LevelSnapshot>, n: int, metric: string, x: real)
    ensures n in ByConcurrency(levels) && Metric(ByConcurrency(levels)[n], metric) == Some(x) <==> Measures(levels, n, metric, x)
  {
    if |levels| > 0 {
      var init, last := levels[..|levels| - 1], levels[|levels| - 1];
      ByConcurrencyMeasures(init, n, metric, x);
      MeasuresLast(levels, n, metric, x);
    }
  }

  lemma MeasuresLast(levels: seq<LevelSnapshot>, n: int, metric: string, x: real)
    requires |levels| > 0
    ensures var init, last := levels[..|levels| - 1], levels[|levels| - 1];
            Measures(levels, n, metric, x) <==>
            if last.concurrency == n then metric in last.metrics && last.metrics[metric] == Some(x) else Measures(init, n, metric, x)
  {
    var init, last := levels[..|levels| - 1], levels[|levels| - 1];
    assert forall i :: 0 <= i < |init| ==> init[i] == levels[i];
    if last.concurrency != n && Measures(init, n, metric, x) {
      var i :| 0 <= i < |init| && init[i].concurrency == n && metric in init[i].metrics && init[i].metrics[metric] == Some(x) &&
        forall j :: i < j < |init| ==> init[j].concurrency != n;
      assert levels[i].concurrency == n;
    }
    if last.concurrency != n && Measures(levels, n, metric, x) {
      var i :| 0 <= i < |levels| && levels[i].concurrency == n && metric in levels[i].metrics && levels[i].metrics[metric] == Some(x) &&
        forall j :: i < j < |levels| ==> levels[j].concurrency != n;
      assert init[i].concurrency == n;
    }
  }

  lemma RegressedIsWorse(metric: string, b: MetricMap, c: MetricMap, t: map<string, real>)
    ensures Regressed(metric, b, c, t) <==>
            Metric(b, metric).Some? && Metric(c, metric).Some? && Worse(metric, Metric(b, metric).value, Metric(c, metric).value, t)
  {
  }

  lemma WorseAtIs(b: seq<LevelSnapshot>, c: seq<LevelSnapshot>, t: map<string, real>, metric: string, n: int)
    ensures WorseAt(b, c, t, metric, n) <==>
            n in ByConcurrency(b) && n in ByConcurrency(c) && Regressed(metric, ByConcurrency(b)[n], ByConcurrency(c)[n], t)
  {
    if was, now :| Measures(b, n, metric, was) && Measures(c, n, metric, now) && Worse(metric, was, now, t) {
      ByConcurrencyMeasures(b, n, metric, was);
      ByConcurrencyMeasures(c, n, metric, now);
      RegressedIsWorse(metric, ByConcurrency(b)[n], ByConcurrency(c)[n], t);
    }
    if n in ByConcurrency(b) && n in ByConcurrency(c) && Regressed(metric, ByConcurrency(b)[n], ByConcurrency(c)[n], t) {
      RegressedIsWorse(metric, ByConcurrency(b)[n], ByConcurrency(c)[n], t);
      ByConcurrencyMeasures(b, n, metric, Metric(ByConcurrency(b)[n], metric).value);
      ByConcurrencyMeasures(c, n, metric, Metric(ByConcurrency(c)[n], metric).value);
    }
  }

  lemma {:induction false} LatencyDeltasAre(keys: seq<(string, string)>, b: MetricMap, c: MetricMap, t: map<string, real>, metric: string)
    ensures MetricDelta(metric, REGRESSED) in LatencyDeltas(keys, b, c, t) <==>
            exists i :: 0 <= i < |keys| && keys[i].0 == metric &&
              LatencyChange(Metric(b, metric), Metric(c, metric), Tolerance(t, keys[i].1)) == REGRESSED
  {
    if |keys| > 0 {
      LatencyDeltasAre(keys[..|keys| - 1], b, c, t, metric);
      assert forall i :: 0 <= i < |keys| - 1 ==> keys[..|keys| - 1][i] == keys[i];
    }
  }

  lemma LevelDeltasAre(b: MetricMap, c: MetricMap, t: map<string, real>, metric: string)
    ensures MetricDelta(metric, REGRESSED) in LevelDeltas(b, c, t) <==> Regressed(metric, b, c, t)
  {
    LatencyDeltasAre(LATENCY_METRICS, b, c, t, metric);
    assert LATENCY_METRICS[0] == ("p50_ms", "p50_percent") && LATENCY_METRICS[1] == ("p90_ms", "p90_percent");
    assert LATENCY_METRICS[2] == ("p95_ms", "p95_percent") && LATENCY_METRICS[3] == ("p99_ms", "p99_percent");
  }

  lemma {:induction false} FindingsOfAre(concurrency: int, deltas: seq<MetricDelta>, f: Finding)
    ensures f in FindingsOf(concurrency, deltas) <==>
            exists d :: d in deltas && d.change == REGRESSED && f == Finding(MetricRegressed(d.metric, concurrency), REGRESSED, HIGH)
  {
    if |deltas| > 0 {
      FindingsOfAre(concurrency, deltas[..|deltas| - 1], f);
      assert forall d :: d in deltas <==> d in deltas[..|deltas| - 1] || d == deltas[|deltas| - 1];
    }
  }

  lemma FindingsOfMetric(concurrency: int, deltas: seq<MetricDelta>, metric: string, n: int)
    ensures Finding(MetricRegressed(metric, n), REGRESSED, HIGH) in FindingsOf(concurrency, deltas) <==>
            n == concurrency && MetricDelta(metric, REGRESSED) in deltas
  {
    FindingsOfAre(concurrency, deltas, Finding(MetricRegressed(metric, n), REGRESSED, HIGH));
  }

  lemma {:induction false} FindingsAcrossAre(common: seq<int>, b: map<int, MetricMap>, c: map<int, MetricMap>, t: map<string, real>, metric: string, n: int)
    requires forall m :: m in common ==> m in b && m in c
    ensures Finding(MetricRegressed(metric, n), REGRESSED, HIGH) in FindingsAcross(common, b, c, t) <==>
            n in common && Regressed(metric, b[n], c[n], t)
  {
    if |common| > 0 {
      var last := common[|common| - 1];
      FindingsAcrossAre(common[..|common| - 1], b, c, t, metric, n);
      FindingsOfMetric(last, LevelDeltas(b[last], c[last], t), metric, n);
      LevelDeltasAre(b[last], c[last], t, metric);
      assert n in common <==> n in common[..|common| - 1] || n == last;
    }
  }

  /** A metric is reported, always as HIGH, exactly at the concurrencies both runs have and where
      it changed for the worse beyond its own tolerance. */
  lemma FindingsAreTheRegressions(b: seq<LevelSnapshot>, c: seq<LevelSnapshot>, t: map<string, real>, metric: string, n: int)
    ensures Finding(MetricRegressed(metric, n), REGRESSED, HIGH) in Performance(Some(b), Some(c), t).findings <==>
            WorseAt(b, c, t, metric, n)
  {
    WorseAtIs(b, c, t, metric, n);
    CommonAreCommon(b, c);
    if Common(b, c) != [] {
      FindingsAcrossAre(Common(b, c), ByConcurrency(b), ByConcurrency(c), t, metric, n);
    }
    assert n in Common(b, c) <==> n in ByConcurrency(b) && n in ByConcurrency(c);
  }

  /** The improvements: latencies that fell and throughput that rose, in percent, and error rates that
      fell in percentage points, beyond the tolerance. */
  ghost predicate Improved(metric: string, was: real, now: real, t: map<string, real>) {
    (metric == "p50_ms" && "p50_percent" in t && was != 0.0 && (now - was) / was * 100.0 < -t["p50_percent"]) ||
    (metric == "p90_ms" && "p90_percent" in t && was != 0.0 && (now - was) / was * 100.0 < -t["p90_percent"]) ||
    (metric == "p95_ms" && "p95_percent" in t && was != 0.0 && (now - was) / was * 100.0 < -t["p95_percent"]) ||
    (metric == "p99_ms" && "p99_percent" in t && was != 0.0 && (now - was) / was * 100.0 < -t["p99_percent"]) ||
    (metric == "rps" && "rps_percent" in t && was != 0.0 && (now - was) / was * 100.0 > t["rps_percent"]) ||
    (metric == "error_rate_percent" && "error_rate_absolute" in t && now - was < -t["error_rate_absolute"])
  }

  const METRICS: seq<string> := ["p50_ms", "p90_ms", "p95_ms", "p99_ms", "rps", "error_rate_percent"]

  /** A metric that is missing in one of the runs, or a percentage of nothing. */
  ghost predicate Incomparable(metric: string, b: MetricMap, c: MetricMap) {
    metric !in b || metric !in c || b[metric].None? || c[metric].None? || (metric != "error_rate_percent" && b[metric] == Some(0.0))
  }

  /** What the change of a metric says. */
  ghost predicate Means(d: MetricDelta, b: MetricMap, c: MetricMap, t: map<string, real>) {
    d.change == if Incomparable(d.metric, b, c) then NOT_COMPARABLE
                else if Worse(d.metric, b[d.metric].value, c[d.metric].value, t) then REGRESSED
                else if Improved(d.metric, b[d.metric].value, c[d.metric].value, t) then IMPROVED else UNCHANGED
  }

  lemma {:induction false} LatencyDeltaAt(keys: seq<(string, string)>, b: MetricMap, c: MetricMap, t: map<string, real>, i: nat)
    requires i < |keys|
    ensures |LatencyDeltas(keys, b, c, t)| == |keys|
    ensures LatencyDeltas(keys, b, c, t)[i] == MetricDelta(keys[i].0, LatencyChange(Metric(b, keys[i].0), Metric(c, keys[i].0), Tolerance(t, keys[i].1)))
  {
    if |keys| > 1 {
      LatencyDeltaAt(keys[..|keys| - 1], b, c, t, if i < |keys| - 1 then i else 0);
    }
  }

  lemma LatencyMeans(b: MetricMap, c: MetricMap, t: map<string, real>, i: nat)
    requires i < 4
    ensures var (metric, tolerance) := LATENCY_METRICS[i];
            metric == METRICS[i] && Means(MetricDelta(metric, LatencyChange(Metric(b, metric), Metric(c, metric), Tolerance(t, tolerance))), b, c, t)
  {
  }

  lemma RpsMeans(b: MetricMap, c: MetricMap, t: map<string, real>)
    ensures Means(MetricDelta("rps", RpsChange(Metric(b, "rps"), Metric(c, "rps"), Tolerance(t, "rps_percent"))), b, c, t)
  {
  }

  lemma ErrorRateMeans(b: MetricMap, c: MetricMap, t: map<string, real>)
    ensures var metric := "error_rate_percent";
            Means(MetricDelta(metric, ErrorRateChange(Metric(b, metric), Metric(c, metric), Tolerance(t, "error_rate_absolute"))), b, c, t)
  {
  }

  /** The six metrics of a level, in order, each with what became of it. */
  lemma DeltasMean(b: MetricMap, c: MetricMap, t: map<string, real>, i: nat)
    requires i < 6
    ensures |LevelDeltas(b, c, t)| == 6 && LevelDeltas(b, c, t)[i].metric == METRICS[i] && Means(LevelDeltas(b, c, t)[i], b, c, t)
  {
    LatencyDeltaAt(LATENCY_METRICS, b, c, t, if i < 4 then i else 0);
    if i < 4 {
      LatencyMeans(b, c, t, i);
    } else if i == 4 {
      RpsMeans(b, c, t);
    } else {
      ErrorRateMeans(b, c, t);
    }
  }

  lemma {:induction false} OnlyRegressions(common: seq<int>, b: map<int, MetricMap>, c: map<int, MetricMap>, t: map<string, real>, f: Finding)
    returns (metric: string, n: int)
    requires (forall m :: m in common ==> m in b && m in c) && f in FindingsAcross(common, b, c, t)
    ensures f == Finding(MetricRegressed(metric, n), REGRESSED, HIGH)
  {
    var last := common[|common| - 1];
    if f in FindingsOf(last, LevelDeltas(b[last], c[last], t)) {
      FindingsOfAre(last, LevelDeltas(b[last], c[last], t), f);
      var d :| d in LevelDeltas(b[last], c[last], t) && f == Finding(MetricRegressed(d.metric, last), REGRESSED, HIGH);
      metric, n := d.metric, last;
    } else {
      metric, n := OnlyRegressions(common[..|common| - 1], b, c, t, f);
    }
  }

  /** The category is not assessed exactly without a level that both runs have, and otherwise fails
      exactly when some metric got worse beyond its tolerance at one of them. */
  lemma PerformanceStatusMeans(b: seq<LevelSnapshot>, c: seq<LevelSnapshot>, t: map<string, real>)
    ensures Performance(Some(b), Some(c), t).status ==
            if !(exists n :: HasLevel(b, n) && HasLevel(c, n)) then NOT_ASSESSED
            else if exists metric, n :: WorseAt(b, c, t, metric, n) then FAIL else PASS
  {
    CommonAreCommon(b, c);
    ByConcurrencyKeys(b);
    ByConcurrencyKeys(c);
    var category := Performance(Some(b), Some(c), t);
    if Common(b, c) != [] {
      assert Common(b, c)[0] in Common(b, c);
      if metric, n :| WorseAt(b, c, t, metric, n) {
        FindingsAreTheRegressions(b, c, t, metric, n);
      }
      if f :| f in category.findings {
        var metric, n := OnlyRegressions(Common(b, c), ByConcurrency(b), ByConcurrency(c), t, f);
        FindingsAreTheRegressions(b, c, t, metric, n);
      }
    }
  }

  // ---------------------------------------------------------------- tolerance arithmetic

  function Power(x: real, k: nat): real { if k == 0 then 1.0 else x * Power(x, k - 1) }

  /** One comparison, without division. */
  lemma PercentBeyond(b: real, c: real, t: real)
    requires b > 0.0
    ensures PercentDelta(Some(b), Some(c)).value > t <==> c * 100.0 > b * (100.0 + t)
    ensures PercentDelta(Some(b), Some(c)).value < -t <==> c * 100.0 < b * (100.0 - t)
  {
    var pct := (c - b) / b * 100.0;
    assert (c - b) / b * b == c - b;
    assert pct * b == (c - b) * 100.0;
    if pct > t { assert pct * b > t * b; }
    if pct < -t { assert pct * b < -t * b; }
    if pct <= t { assert pct * b <= t * b; }
    if pct >= -t { assert pct * b >= -t * b; }
  }

  /** Drift: however many comparisons in a row raise no regression, the last latency is bounded
      by the first one compounded with the tolerance. */
  lemma {:induction false} LatencyDriftIsBounded(values: seq<real>, t: real)
    requires |values| > 0 && forall i :: 0 <= i < |values| ==> values[i] > 0.0
    requires forall i :: 0 <= i < |values| - 1 ==> LatencyChange(Some(values[i]), Some(values[i + 1]), Some(t)) != REGRESSED
    ensures values[|values| - 1] <= values[0] * Power(1.0 + t / 100.0, |values| - 1)
  {
    if |values| > 1 {
      var k := |values| - 1;
      var init := values[..k];
      var factor := 1.0 + t / 100.0;
      LatencyDriftIsBounded(init, t);
      OneStep(values[k - 1], values[k], t);
      Compounded(values[k - 1], values[0] * Power(factor, k - 1), factor);
      Compound(values[0], factor, k);
    }
  }

  /** A latency that did not regress, without division. */
  lemma OneStep(b: real, c: real, t: real)
    requires b > 0.0 && c > 0.0 && LatencyChange(Some(b), Some(c), Some(t)) != REGRESSED
    ensures 0.0 < c <= b * (1.0 + t / 100.0)
  {
    PercentBeyond(b, c, t);
    assert b * (100.0 + t) == b * (1.0 + t / 100.0) * 100.0;
  }

  lemma Compounded(v: real, bound: real, factor: real)
    requires v > 0.0 && v <= bound && v * factor > 0.0
    ensures v * factor <= bound * factor
  {
    PositiveFactor(v, factor);
  }

  lemma PositiveFactor(v: real, factor: real)
    requires v > 0.0 && v * factor > 0.0
    ensures factor > 0.0
  {
  }

  lemma Compound(v: real, factor: real, k: nat)
    requires k > 0
    ensures v * Power(factor, k - 1) * factor == v * Power(factor, k)
  {
    assert Power(factor, k) == factor * Power(factor, k - 1);
  }

  /** The same for throughput, from below, for tolerances up to 100 percent. */
  lemma {:induction false} RpsDriftIsBounded(values: seq<real>, t: real)
    requires |values| > 0 && t <= 100.0 && forall i :: 0 <= i < |values| ==> values[i] > 0.0
    requires forall i :: 0 <= i < |values| - 1 ==> RpsChange(Some(values[i]), Some(values[i + 1]), Some(t)) != REGRESSED
    ensures values[|values| - 1] >= values[0] * Power(1.0 - t / 100.0, |values| - 1)
  {
    if |values| > 1 {
      var k := |values| - 1;
      var factor := 1.0 - t / 100.0;
      RpsDriftIsBounded(values[..k], t);
      OneStepDown(values[k - 1], values[k], t);
      ScaleDown(values[0] * Power(factor, k - 1), values[k - 1], factor);
      Compound(values[0], factor, k);
    }
  }

  lemma OneStepDown(b: real, c: real, t: real)
    requires b > 0.0 && RpsChange(Some(b), Some(c), Some(t)) != REGRESSED
    ensures c >= b * (1.0 - t / 100.0)
  {
    PercentBeyond(b, c, t);
    assert b * (100.0 - t) == b * (1.0 - t / 100.0) * 100.0;
  }

  lemma ScaleDown(a: real, b: real, factor: real)
    requires a <= b && factor >= 0.0
    ensures a * factor <= b * factor
  {
  }

  /** Error rates drift by at most the tolerance each time. */
  lemma {:induction false} ErrorRateDriftIsBounded(values: seq<real>, t: real)
    requires |values| > 0
    requires forall i :: 0 <= i < |values| - 1 ==> ErrorRateChange(Some(values[i]), Some(values[i + 1]), Some(t)) != REGRESSED
    ensures values[|values| - 1] <= values[0] + t * (|values| - 1) as real
  {
    if |values| > 1 {
      ErrorRateDriftIsBounded(values[..|values| - 1], t);
    }
  }

  /** Without division: what a regression and an improvement are for each kind of metric. */
  lemma ChangesMean(b: real, c: real, t: real)
    requires b > 0.0 && t >= 0.0
    ensures LatencyChange(Some(b), Some(c), Some(t)) == if c * 100.0 > b * (100.0 + t) then REGRESSED else if c * 100.0 < b * (100.0 - t) then IMPROVED else UNCHANGED
    ensures RpsChange(Some(b), Some(c), Some(t)) == if c * 100.0 < b * (100.0 - t) then REGRESSED else if c * 100.0 > b * (100.0 + t) then IMPROVED else UNCHANGED
    ensures ErrorRateChange(Some(b), Some(c), Some(t)) == if c > b + t then REGRESSED else if c < b - t then IMPROVED else UNCHANGED
  {
    PercentBeyond(b, c, t);
  }

  /** Swapping the two runs: an improvement beyond the tolerance becomes a regression, but a
      regression becomes an improvement only if it also exceeds the tolerance measured from the
      larger value; within that gap the swapped comparison calls it unchanged. */
  lemma LatencySwap(b: real, c: real, t: real)
    requires b > 0.0 && c > 0.0 && t >= 0.0
    ensures LatencyChange(Some(b), Some(c), Some(t)) == IMPROVED ==> LatencyChange(Some(c), Some(b), Some(t)) == REGRESSED
    ensures LatencyChange(Some(b), Some(c), Some(t)) == REGRESSED ==>
              (LatencyChange(Some(c), Some(b), Some(t)) == IMPROVED <==> b * 100.0 < c * (100.0 - t))
    ensures LatencyChange(Some(b), Some(c), Some(t)) == REGRESSED && b * 100.0 >= c * (100.0 - t) ==>
              LatencyChange(Some(c), Some(b), Some(t)) == UNCHANGED
  {
    PercentBeyond(b, c, t);
    PercentBeyond(c, b, t);
    if c * 100.0 < b * (100.0 - t) {
      DropIsRise(b, c, t);
    }
    if c * 100.0 > b * (100.0 + t) {
      assert b * t >= 0.0 && c * t >= 0.0;
      assert b * (100.0 + t) == b * 100.0 + b * t;
      assert c * (100.0 + t) == c * 100.0 + c * t;
    }
  }

  lemma DropIsRise(b: real, c: real, t: real)
    requires b > 0.0 && c > 0.0 && t >= 0.0 && c * 100.0 < b * (100.0 - t)
    ensures b * 100.0 > c * (100.0 + t) && !(b * 100.0 < c * (100.0 - t))
  {
    assert b * (100.0 - t) == b * 100.0 - b * t && c * (100.0 + t) == c * 100.0 + c * t && c * (100.0 - t) == c * 100.0 - c * t;
    assert b > c by { assert b * t >= 0.0; }
    assert b * t >= c * t >= 0.0;
  }

  /** The converse fails: from 100 to 111 is a regression at 10 percent, the way back is not an
      improvement. */
  lemma SwapIsNotSymmetric()
    ensures LatencyChange(Some(100.0), Some(111.0), Some(10.0)) == REGRESSED
    ensures LatencyChange(Some(111.0), Some(100.0), Some(10.0)) == UNCHANGED
  {
    PercentBeyond(100.0, 111.0, 10.0);
    PercentBeyond(111.0, 100.0, 10.0);
  }

  /** Throughput, where a drop is the regression: a drop beyond the tolerance is a rise beyond it
      when swapped, and a rise is a drop only if it also exceeds the tolerance measured from the
      larger value. */
  lemma RpsSwap(b: real, c: real, t: real)
    requires b > 0.0 && c > 0.0 && t >= 0.0
    ensures RpsChange(Some(b), Some(c), Some(t)) == REGRESSED ==> RpsChange(Some(c), Some(b), Some(t)) == IMPROVED
    ensures RpsChange(Some(b), Some(c), Some(t)) == IMPROVED ==>
              RpsChange(Some(c), Some(b), Some(t)) == if b * 100.0 < c * (100.0 - t) then REGRESSED else UNCHANGED
  {
    LatencySwap(b, c, t);
  }

  /** Error rates swap exactly: they are compared by difference. */
  lemma ErrorRateSwap(b: Option<real>, c: Option<real>, t: Option<real>)
    requires t.Some? ==> t.value >= 0.0
    ensures ErrorRateChange(b, c, t) == REGRESSED <==> ErrorRateChange(c, b, t) == IMPROVED
    ensures ErrorRateChange(b, c, t) == UNCHANGED <==> ErrorRateChange(c, b, t) == UNCHANGED
  {
  }

  // ---------------------------------------------------------------- a run against itself

  ghost predicate NonNegative(t: map<string, real>) { forall k :: k in t ==> t[k] >= 0.0 }

  lemma SameMetric(m: Option<real>, t: Option<real>)
    requires t.Some? ==> t.value >= 0.0
    ensures LatencyChange(m, m, t) != REGRESSED && RpsChange(m, m, t) != REGRESSED && ErrorRateChange(m, m, t) != REGRESSED
  {
    if m.Some? && m.value != 0.0 {
      assert (m.value - m.value) / m.value == 0.0;
    }
  }

  lemma {:induction false} SameLatencies(keys: seq<(string, string)>, m: MetricMap, t: map<string, real>)
    requires NonNegative(t)
    ensures forall d :: d in LatencyDeltas(keys, m, m, t) ==> d.change != REGRESSED
  {
    if |keys| > 0 {
      SameLatencies(keys[..|keys| - 1], m, t);
      SameMetric(Metric(m, keys[|keys| - 1].0), Tolerance(t, keys[|keys| - 1].1));
    }
  }

  lemma {:induction false} NoFindingsOf(concurrency: int, deltas: seq<MetricDelta>)
    requires forall d :: d in deltas ==> d.change != REGRESSED
    ensures FindingsOf(concurrency, deltas) == []
  {
    if |deltas| > 0 {
      NoFindingsOf(concurrency, deltas[..|deltas| - 1]);
    }
  }

  lemma {:induction false} SameLevels(common: seq<int>, b: map<int, MetricMap>, t: map<string, real>)
    requires NonNegative(t) && forall n :: n in common ==> n in b
    ensures FindingsAcross(common, b, b, t) == []
  {
    if |common| > 0 {
      var n := common[|common| - 1];
      SameLevels(common[..|common| - 1], b, t);
      SameLatencies(LATENCY_METRICS, b[n], t);
      SameMetric(Metric(b[n], "rps"), Tolerance(t, "rps_percent"));
      SameMetric(Metric(b[n], "error_rate_percent"), Tolerance(t, "error_rate_absolute"));
      NoFindingsOf(n, LevelDeltas(b[n], b[n], t));
    }
  }

  /** Under non-negative tolerances a run compared with itself raises no finding. */
  lemma SelfComparisonIsClean(b: Option<seq<LevelSnapshot>>, t: map<string, real>)
    requires NonNegative(t)
    ensures Performance(b, b, t).findings == [] && Performance(b, b, t).status in {PASS, NOT_ASSESSED}
  {
    if b.Some? {
      CommonAreCommon(b.value, b.value);
      SameLevels(Common(b.value, b.value), ByConcurrency(b.value), t);
    }
  }
}
