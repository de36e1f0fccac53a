/** Samples, their aggregation, thresholds, and the Performance category:
    `testing/performance/metrics.py`, `testing/performance/models.py`,
    `testing/performance/thresholds.py` and `assessment/performance_assessment.py`. */
module PerformanceMetrics {
  import opened Values
  import opened AssessmentRules
  import opened Counting
  import Percentiles

  datatype ErrorType = NO_ERROR | HTTP_ERROR | TIMEOUT | NETWORK_ERROR | TARGET_ERROR

  datatype Sample = Sample(durationMs: real, statusCode: Option<int>, errorType: ErrorType)

  predicate Success(s: Sample) {
    s.errorType == NO_ERROR && s.statusCode.Some? && s.statusCode.value < 400
  }

  predicate IsTimeout(s: Sample) { s.errorType == TIMEOUT }

  predicate IsNetworkError(s: Sample) { s.errorType in {NETWORK_ERROR, TARGET_ERROR} }

  predicate IsHttpError(s: Sample) { s.errorType == HTTP_ERROR }

  predicate TransportFailure(s: Sample) { s.errorType in {TIMEOUT, NETWORK_ERROR, TARGET_ERROR} }

  /** How one HTTP request may end for the executor. */
  datatype Exchange = Response(statusCode: int) | TimeoutException | ConnectError | RequestError

  /** The executor contract: what `make_performance_executor` returns and never raises. */
  function ExecutorSample(exchange: Exchange, durationMs: real): Sample {
    match exchange
    case TimeoutException => Sample(durationMs, None, TIMEOUT)
    case ConnectError => Sample(durationMs, None, NETWORK_ERROR)
    case RequestError => Sample(durationMs, None, TARGET_ERROR)
    case Response(code) => Sample(durationMs, Some(code), if code >= 400 then HTTP_ERROR else NO_ERROR)
  }

  ghost predicate FromExecutor(s: Sample) {
    exists exchange :: s == ExecutorSample(exchange, s.durationMs)
  }

  datatype Metrics = Metrics(
    total: nat, successful: nat, failed: nat, timeouts: nat, networkErrors: nat, httpErrors: nat,
    durationSeconds: real, rps: real, successfulRps: real, latency: Option<Percentiles.LatencyStats>)
  {
    function ErrorRatePercent(): real {
      if total == 0 then 0.0 else failed as real / total as real * 100.0
    }
  }

  function Rate(count: nat, seconds: real): real {
    if seconds > 0.0 then count as real / seconds else 0.0
  }

  function Durations(samples: seq<Sample>): seq<real> {
    seq(|samples|, i requires 0 <= i < |samples| => samples[i].durationMs)
  }

  /** `aggregate`. */
  function Aggregate(samples: seq<Sample>, seconds: real): Metrics {
    var successful := Count(samples, Success);
    Metrics(
      |samples|, successful, |samples| - successful,
      Count(samples, IsTimeout),
      Count(samples, IsNetworkError),
      Count(samples, IsHttpError),
      seconds, Rate(|samples|, seconds), Rate(successful, seconds),
      Percentiles.ComputeLatencyStats(Durations(samples)))
  }

  /** A sample without an error type is a success: the one thing the buckets rely on. */
  predicate Classified(s: Sample) { s.errorType == NO_ERROR ==> Success(s) }

  function InBuckets(m: Metrics): nat { m.successful + m.timeouts + m.networkErrors + m.httpErrors }

  lemma {:induction false} BucketsCount(samples: seq<Sample>)
    ensures Count(samples, Success) + Count(samples, IsTimeout)
            + Count(samples, IsNetworkError)
            + Count(samples, IsHttpError)
            == Count(samples, Classified)
  {
    if |samples| > 0 {
      BucketsCount(samples[1..]);
    }
  }

  /** No sample is lost or counted twice exactly when every error-free sample succeeded. */
  lemma Conservation(samples: seq<Sample>, seconds: real)
    ensures var m := Aggregate(samples, seconds);
            InBuckets(m) <= m.total &&
            (InBuckets(m) == m.total <==> forall s :: s in samples ==> Classified(s))
  {
    BucketsCount(samples);
    CountAll(samples, Classified);
  }

  /** Samples from the executor always meet that condition. */
  lemma ExecutorConserves(samples: seq<Sample>, seconds: real)
    requires forall s :: s in samples ==> FromExecutor(s)
    ensures var m := Aggregate(samples, seconds);
            m.total == m.successful + m.timeouts + m.networkErrors + m.httpErrors &&
            m.failed == m.timeouts + m.networkErrors + m.httpErrors
  {
    Conservation(samples, seconds);
  }

  function Sampled(exchanges: seq<(Exchange, real)>): (samples: seq<Sample>)
    ensures |samples| == |exchanges|
  {
    if |exchanges| == 0 then [] else [ExecutorSample(exchanges[0].0, exchanges[0].1)] + Sampled(exchanges[1..])
  }

  predicate TimedOut(e: (Exchange, real)) { e.0.TimeoutException? }

  predicate Unanswered(e: (Exchange, real)) { e.0.ConnectError? || e.0.RequestError? }

  predicate Refused(e: (Exchange, real)) { e.0.Response? && e.0.statusCode >= 400 }

  predicate Answered(e: (Exchange, real)) { e.0.Response? && e.0.statusCode < 400 }

  /** Executor and aggregation together: every exchange ends up in the bucket of its outcome. */
  lemma BucketsFollowExchanges(exchanges: seq<(Exchange, real)>, seconds: real)
    ensures var m := Aggregate(Sampled(exchanges), seconds);
            m.total == |exchanges| && m.successful == Count(exchanges, Answered) && m.httpErrors == Count(exchanges, Refused) &&
            m.timeouts == Count(exchanges, TimedOut) && m.networkErrors == Count(exchanges, Unanswered)
  {
    SampledOutcomes(exchanges);
  }

  lemma OutcomeOf(e: (Exchange, real))
    ensures var s := ExecutorSample(e.0, e.1);
            Success(s) == Answered(e) && IsHttpError(s) == Refused(e) && IsTimeout(s) == TimedOut(e) && IsNetworkError(s) == Unanswered(e)
  {
  }

  lemma {:induction false} SampledOutcomes(exchanges: seq<(Exchange, real)>)
    ensures Count(Sampled(exchanges), Success) == Count(exchanges, Answered)
    ensures Count(Sampled(exchanges), IsHttpError) == Count(exchanges, Refused)
    ensures Count(Sampled(exchanges), IsTimeout) == Count(exchanges, TimedOut)
    ensures Count(Sampled(exchanges), IsNetworkError) == Count(exchanges, Unanswered)
  {
    if |exchanges| > 0 {
      var e, rest := exchanges[0], exchanges[1..];
      SampledOutcomes(rest);
      OutcomeOf(e);
      CountCons(ExecutorSample(e.0, e.1), Sampled(rest), Success);
      CountCons(ExecutorSample(e.0, e.1), Sampled(rest), IsHttpError);
      CountCons(ExecutorSample(e.0, e.1), Sampled(rest), IsTimeout);
      CountCons(ExecutorSample(e.0, e.1), Sampled(rest), IsNetworkError);
    }
  }

  /** Times the seconds, the rate gives the count; nothing is measured in no time. */
  ghost predicate IsRate(rate: real, count: nat, seconds: real) {
    if seconds > 0.0 then rate * seconds == count as real else rate == 0.0
  }

  ghost predicate IsPercentage(percent: real, part: nat, all: nat) {
    if all > 0 then percent * all as real == part as real * 100.0 else percent == 0.0
  }

  lemma RateIsExact(count: nat, seconds: real)
    ensures IsRate(Rate(count, seconds), count, seconds)
  {
    if seconds > 0.0 {
      Percentiles.Divides(count as real, seconds);
    }
  }

  lemma ErrorRateIsExact(m: Metrics)
    ensures IsPercentage(m.ErrorRatePercent(), m.failed, m.total)
  {
    if m.total > 0 {
      var share := m.failed as real / m.total as real;
      Percentiles.Divides(m.failed as real, m.total as real);
      assert share * 100.0 * m.total as real == share * m.total as real * 100.0;
    }
  }

  /** The rates as products: requests and successful requests per second, and the percentage of failed
      ones, which are all that were not successful. */
  lemma RatesAreExact(samples: seq<Sample>, seconds: real)
    ensures var m := Aggregate(samples, seconds);
            m.total == |samples| && m.successful == Count(samples, Success) && m.failed == m.total - m.successful && m.durationSeconds == seconds &&
            IsRate(m.rps, m.total, seconds) && IsRate(m.successfulRps, m.successful, seconds) &&
            IsPercentage(m.ErrorRatePercent(), m.failed, m.total)
  {
    RateIsExact(|samples|, seconds);
    RateIsExact(Count(samples, Success), seconds);
    ErrorRateIsExact(Aggregate(samples, seconds));
  }

  /** The latency figures are those of the samples' durations, all of them; without samples there are
      none. */
  lemma LatencyIsOfSamples(samples: seq<Sample>, seconds: real, durations: seq<real>)
    requires |durations| == |samples| && forall i :: 0 <= i < |samples| ==> durations[i] == samples[i].durationMs
    ensures var latency := Aggregate(samples, seconds).latency;
            (latency.None? <==> samples == []) && (latency.Some? ==> Percentiles.Describes(latency.value, durations))
  {
    assert Durations(samples) == durations;
    if samples != [] {
      Percentiles.StatsDescribe(durations);
    }
  }

  lemma RatesAreBounded(samples: seq<Sample>, seconds: real)
    ensures var m := Aggregate(samples, seconds);
            0.0 <= m.ErrorRatePercent() <= 100.0 && 0.0 <= m.successfulRps <= m.rps &&
            (m.ErrorRatePercent() == 100.0 <==> m.total > 0 && m.successful == 0) &&
            (m.ErrorRatePercent() == 0.0 <==> m.successful == m.total)
  {
    var m := Aggregate(samples, seconds);
    if m.total > 0 {
      Ratio(m.failed as real, m.total as real);
    }
    if seconds > 0.0 {
      Quotients(m.successful as real, m.total as real, seconds);
    }
  }

  lemma Ratio(a: real, b: real)
    requires 0.0 <= a <= b && b > 0.0
    ensures 0.0 <= a / b <= 1.0 && (a / b == 1.0 <==> a == b) && (a / b == 0.0 <==> a == 0.0)
  {
    assert a / b * b == a;
  }

  lemma Quotients(a: real, b: real, n: real)
    requires 0.0 <= a <= b && n > 0.0
    ensures 0.0 <= a / n <= b / n
  {
    assert a / n * n == a && b / n * n == b;
  }

  // ---------------------------------------------------------------- the Performance category

  datatype Threshold = Threshold(name: string, limit: real, observed: Option<real>, status: AssessmentStatus)

  /** What a threshold of this name is compared with: `None` for a name that is not recognised, and
      an inner `None` when there is nothing to compare. */
  function Observed(m: Metrics, name: string): Option<Option<real>> {
    match name
    case "p50_ms" => Some(if m.latency.Some? then Some(m.latency.value.p50) else None)
    case "p90_ms" => Some(if m.latency.Some? then Some(m.latency.value.p90) else None)
    case "p95_ms" => Some(if m.latency.Some? then Some(m.latency.value.p95) else None)
    case "p99_ms" => Some(if m.latency.Some? then Some(m.latency.value.p99) else None)
    case "error_rate_percent" => Some(Some(m.ErrorRatePercent()))
    case "min_rps" => Some(if m.total == 0 then None else Some(m.rps))
    case _ => None
  }

  /** "min_rps" is a lower limit, all others are upper ones. */
  predicate Keeps(name: string, observed: real, limit: real) {
    if name == "min_rps" then observed >= limit else observed <= limit
  }

  function Evaluated(m: Metrics, limits: seq<(string, real)>): seq<Threshold> {
    if |limits| == 0 then []
    else
      var (name, limit) := limits[|limits| - 1];
      Evaluated(m, limits[..|limits| - 1]) + EvaluatedOne(Observed(m, name), name, limit)
  }

  function EvaluatedOne(observed: Option<Option<real>>, name: string, limit: real): seq<Threshold> {
    match observed
    case None => []
    case Some(None) => [Threshold(name, limit, None, NOT_ASSESSED)]
    case Some(Some(o)) => [Threshold(name, limit, Some(o), if Keeps(name, o, limit) then PASS else FAIL)]
  }

  /** `evaluate_thresholds`: the loop over the configured limits; `ignored` are the names it warns
      about. */
  method EvaluateThresholds(m: Metrics, limits: seq<(string, real)>) returns (results: seq<Threshold>, ignored: seq<string>)
    ensures results == Evaluated(m, limits) && ignored == Ignored(m, limits)
  {
    results, ignored := [], [];
    var i := 0;
    while i < |limits|
      invariant 0 <= i <= |limits| && results == Evaluated(m, limits[..i]) && ignored == Ignored(m, limits[..i])
    {
      var (name, limit) := limits[i];
      assert limits[..i + 1][..i] == limits[..i];
      match Observed(m, name) {
        case None => ignored := ignored + [name];
        case Some(None) => results := results + [Threshold(name, limit, None, NOT_ASSESSED)];
        case Some(Some(o)) => results := results + [Threshold(name, limit, Some(o), if Keeps(name, o, limit) then PASS else FAIL)];
      }
      i := i + 1;
    }
    assert limits[..i] == limits;
  }

  /** The names that are not recognised. */
  function Ignored(m: Metrics, limits: seq<(string, real)>): seq<string> {
    if |limits| == 0 then []
    else
      var name := limits[|limits| - 1].0;
      Ignored(m, limits[..|limits| - 1]) + if Observed(m, name).None? then [name] else []
  }

  /** There is nothing to compare with the limit. */
  ghost predicate Unmeasured(m: Metrics, name: string) {
    (name in {"p50_ms", "p90_ms", "p95_ms", "p99_ms"} && m.latency.None?) || (name == "min_rps" && m.total == 0)
  }

  /** What each result says: it belongs to a configured limit, and fails exactly when what was measured
      breaks the limit; without anything to compare it is not assessed, and it passes otherwise. */
  lemma {:induction false} ThresholdsMean(m: Metrics, limits: seq<(string, real)>, t: Threshold)
    requires t in Evaluated(m, limits)
    ensures (t.name, t.limit) in limits
    ensures t.status == if Unmeasured(m, t.name) then NOT_ASSESSED else if Breaks(m, t.name, t.limit) then FAIL else PASS
  {
    var init := limits[..|limits| - 1];
    var (name, limit) := limits[|limits| - 1];
    if t in Evaluated(m, init) {
      ThresholdsMean(m, init, t);
    } else {
      assert t in EvaluatedOne(Observed(m, name), name, limit) && limits[|limits| - 1] in limits;
      BreaksIs(m, name, limit);
    }
  }

  /** Exactly the other names are warned about. */
  lemma {:induction false} IgnoredAre(m: Metrics, limits: seq<(string, real)>, name: string)
    ensures name in Ignored(m, limits) <==>
            name !in {"p50_ms", "p90_ms", "p95_ms", "p99_ms", "error_rate_percent", "min_rps"} &&
            exists i :: 0 <= i < |limits| && limits[i].0 == name
  {
    if |limits| > 0 {
      var init := limits[..|limits| - 1];
      IgnoredAre(m, init, name);
      assert forall i :: 0 <= i < |init| ==> init[i] == limits[i];
    }
  }

  datatype Level = Level(concurrency: int, metrics: Metrics, thresholds: seq<Threshold>)

  /** A finding of the category: which threshold failed at which concurrency. */
  datatype Breach = Breach(concurrency: int, name: string)

  datatype Category = Category(status: AssessmentStatus, findings: seq<Breach>)

  function SumOver(levels: seq<Level>, f: Metrics -> nat): nat {
    if |levels| == 0 then 0 else f(levels[0].metrics) + SumOver(levels[1..], f)
  }

  function BreachesOf(concurrency: int, thresholds: seq<Threshold>): seq<Breach> {
    if |thresholds| == 0 then []
    else
      var init := BreachesOf(concurrency, thresholds[..|thresholds| - 1]);
      var last := thresholds[|thresholds| - 1];
      if last.status == FAIL then init + [Breach(concurrency, last.name)] else init
  }

  function Breaches(levels: seq<Level>): seq<Breach> {
    if |levels| == 0 then []
    else
      var last := levels[|levels| - 1];
      Breaches(levels[..|levels| - 1]) + BreachesOf(last.concurrency, last.thresholds)
  }

  /** A limit that what was measured is known not to keep. */
  predicate Violates(observed: Option<Option<real>>, name: string, limit: real) {
    match observed
    case Some(Some(o)) => !Keeps(name, o, limit)
    case _ => false
  }

  /** The same in terms of what was measured: percentiles above their limit, failed requests above the
      limit's share of all, or fewer requests per second than the limit. */
  ghost predicate Breaks(m: Metrics, name: string, limit: real) {
    (name == "p50_ms" && m.latency.Some? && m.latency.value.p50 > limit) ||
    (name == "p90_ms" && m.latency.Some? && m.latency.value.p90 > limit) ||
    (name == "p95_ms" && m.latency.Some? && m.latency.value.p95 > limit) ||
    (name == "p99_ms" && m.latency.Some? && m.latency.value.p99 > limit) ||
    (name == "error_rate_percent" && FailsMoreThan(m, limit)) ||
    (name == "min_rps" && m.total > 0 && m.rps < limit)
  }

  ghost predicate FailsMoreThan(m: Metrics, percent: real) {
    if m.total == 0 then percent < 0.0 else m.failed as real * 100.0 > percent * m.total as real
  }

  lemma ErrorRateBeyond(m: Metrics, percent: real)
    ensures m.ErrorRatePercent() > percent <==> FailsMoreThan(m, percent)
  {
    if m.total > 0 {
      ShareBeyond(m.failed as real, m.total as real, percent);
    }
  }

  lemma ShareBeyond(part: real, all: real, percent: real)
    requires all > 0.0
    ensures part / all * 100.0 > percent <==> part * 100.0 > percent * all
  {
    Percentiles.Divides(part, all);
    var rate := part / all * 100.0;
    assert rate * all == part * 100.0;
    if rate > percent {
      Percentiles.Strictly(percent, rate, all);
    } else if rate < percent {
      Percentiles.Strictly(rate, percent, all);
    }
  }

  lemma BreaksIs(m: Metrics, name: string, limit: real)
    ensures Breaks(m, name, limit) <==> Violates(Observed(m, name), name, limit)
  {
    ErrorRateBeyond(m, limit);
  }

  ghost predicate ViolatesAt(m: Metrics, limits: seq<(string, real)>, name: string, i: nat)
    requires i < |limits|
  {
    limits[i].0 == name && Breaks(m, name, limits[i].1)
  }

  ghost predicate ViolatesSome(m: Metrics, limits: seq<(string, real)>, name: string) {
    exists i :: 0 <= i < |limits| && ViolatesAt(m, limits, name, i)
  }

  lemma ViolatesSomeLast(m: Metrics, limits: seq<(string, real)>, name: string)
    requires |limits| > 0
    ensures ViolatesSome(m, limits, name) <==>
            ViolatesSome(m, limits[..|limits| - 1], name) || ViolatesAt(m, limits, name, |limits| - 1)
  {
    var init := limits[..|limits| - 1];
    if i :| 0 <= i < |init| && ViolatesAt(m, init, name, i) {
      assert ViolatesAt(m, limits, name, i);
    }
    if i :| 0 <= i < |init| && ViolatesAt(m, limits, name, i) {
      assert ViolatesAt(m, init, name, i);
    }
  }

  lemma BreachesOfOne(observed: Option<Option<real>>, name: string, limit: real, concurrency: int, other: string)
    ensures Breach(concurrency, other) in BreachesOf(concurrency, EvaluatedOne(observed, name, limit)) <==>
            name == other && Violates(observed, name, limit)
  {
    var one := EvaluatedOne(observed, name, limit);
    if |one| > 0 {
      assert one[..0] == [] && BreachesOf(concurrency, []) == [];
    }
  }

  lemma {:induction false} BreachesOfEvaluated(m: Metrics, limits: seq<(string, real)>, concurrency: int, name: string)
    ensures Breach(concurrency, name) in BreachesOf(concurrency, Evaluated(m, limits)) <==> ViolatesSome(m, limits, name)
  {
    if |limits| > 0 {
      var init := limits[..|limits| - 1];
      var (last, limit) := limits[|limits| - 1];
      var observed := Observed(m, last);
      BreachesOfEvaluated(m, init, concurrency, name);
      BreachesOfConcat(concurrency, Evaluated(m, init), EvaluatedOne(observed, last, limit));
      BreachesOfOne(observed, last, limit, concurrency, name);
      BreaksIs(m, last, limit);
      ViolatesSomeLast(m, limits, name);
    }
  }

  lemma BreachesOfConcat(concurrency: int, a: seq<Threshold>, b: seq<Threshold>)
    requires |b| <= 1
    ensures BreachesOf(concurrency, a + b) == BreachesOf(concurrency, a) + BreachesOf(concurrency, b)
  {
    if |b| == 0 {
      assert a + b == a;
    } else {
      assert (a + b)[..|a|] == a && b[..0] == [];
    }
  }

  lemma {:induction false} BreachesNameTheirLevel(concurrency: int, thresholds: seq<Threshold>)
    ensures forall b :: b in BreachesOf(concurrency, thresholds) ==> b.concurrency == concurrency
  {
    if |thresholds| > 0 {
      BreachesNameTheirLevel(concurrency, thresholds[..|thresholds| - 1]);
    }
  }

  ghost predicate LevelViolates(level: Level, limits: seq<(string, real)>, concurrency: int, name: string) {
    level.concurrency == concurrency && ViolatesSome(level.metrics, limits, name)
  }

  /** Some level of this concurrency violates a limit of this name. */
  ghost predicate SomeLevelViolates(levels: seq<Level>, limits: seq<(string, real)>, concurrency: int, name: string) {
    exists i :: 0 <= i < |levels| && LevelViolates(levels[i], limits, concurrency, name)
  }

  lemma SomeLevelLast(levels: seq<Level>, limits: seq<(string, real)>, concurrency: int, name: string)
    requires |levels| > 0
    ensures SomeLevelViolates(levels, limits, concurrency, name) <==>
            SomeLevelViolates(levels[..|levels| - 1], limits, concurrency, name) ||
            LevelViolates(levels[|levels| - 1], limits, concurrency, name)
  {
    var init := levels[..|levels| - 1];
    if i :| 0 <= i < |init| && LevelViolates(init[i], limits, concurrency, name) {
      assert LevelViolates(levels[i], limits, concurrency, name);
    }
    if i :| 0 <= i < |init| && LevelViolates(levels[i], limits, concurrency, name) {
      assert LevelViolates(init[i], limits, concurrency, name);
    }
  }

  lemma BreachesOfLevel(level: Level, limits: seq<(string, real)>, concurrency: int, name: string)
    requires level.thresholds == Evaluated(level.metrics, limits)
    ensures Breach(concurrency, name) in BreachesOf(level.concurrency, level.thresholds) <==> LevelViolates(level, limits, concurrency, name)
  {
    BreachesOfEvaluated(level.metrics, limits, level.concurrency, name);
    BreachesNameTheirLevel(level.concurrency, level.thresholds);
  }

  /** From limits to findings: a breach is reported exactly for the levels and limits where the
      measured value is known and beyond the limit. */
  lemma {:induction false} BreachesAreViolations(levels: seq<Level>, limits: seq<(string, real)>, concurrency: int, name: string)
    requires forall i :: 0 <= i < |levels| ==> levels[i].thresholds == Evaluated(levels[i].metrics, limits)
    ensures Breach(concurrency, name) in Breaches(levels) <==> SomeLevelViolates(levels, limits, concurrency, name)
  {
    if |levels| > 0 {
      BreachesAreViolations(levels[..|levels| - 1], limits, concurrency, name);
      BreachesOfLevel(levels[|levels| - 1], limits, concurrency, name);
      SomeLevelLast(levels, limits, concurrency, name);
    }
  }

  function Attempted(m: Metrics): nat { m.total }

  function TransportFailed(m: Metrics): nat { m.timeouts + m.networkErrors }

  function HttpErrors(m: Metrics): nat { m.httpErrors }

  function HealthOf(levels: seq<Level>): AssessmentStatus {
    ExecutionHealthStatus(SumOver(levels, Attempted), SumOver(levels, TransportFailed), SumOver(levels, HttpErrors))
  }

  /** A breached threshold turns PASS into WARNING and nothing else. */
  function Escalated(health: AssessmentStatus, breaches: seq<Breach>): AssessmentStatus {
    if health == PASS && breaches != [] then WARNING else health
  }

  /** `assess_performance`: the two nested loops with the status they reassign. */
  method AssessPerformance(result: Option<seq<Level>>) returns (category: Category)
    ensures result.None? ==> category == Category(NOT_ASSESSED, [])
    ensures result.Some? ==> category.findings == Breaches(result.value)
    ensures result.Some? ==> category.status == Escalated(HealthOf(result.value), Breaches(result.value))
  {
    if result.None? {
      return Category(NOT_ASSESSED, []);
    }
    var levels := result.value;
    var status := HealthOf(levels);
    var findings: seq<Breach> := [];
    var i := 0;
    while i < |levels|
      invariant 0 <= i <= |levels|
      invariant findings == Breaches(levels[..i])
      invariant status == Escalated(HealthOf(levels), findings)
    {
      var level := levels[i];
      var j := 0;
      ghost var before := findings;
      while j < |level.thresholds|
        invariant 0 <= j <= |level.thresholds|
        invariant findings == before + BreachesOf(level.concurrency, level.thresholds[..j])
        invariant status == Escalated(HealthOf(levels), findings)
      {
        var threshold := level.thresholds[j];
        assert level.thresholds[..j + 1][..j] == level.thresholds[..j];
        if threshold.status == FAIL {
          findings := findings + [Breach(level.concurrency, threshold.name)];
          if status == PASS {
            status := WARNING;
          }
        }
        j := j + 1;
      }
      assert level.thresholds[..j] == level.thresholds;
      assert levels[..i + 1][..i] == levels[..i];
      i := i + 1;
    }
    assert levels[..i] == levels;
    category := Category(status, findings);
  }

  /** The samples behind the levels of a run. */
  ghost predicate Measured(levels: seq<Level>, samples: seq<seq<Sample>>) {
    |levels| == |samples| &&
    forall i :: 0 <= i < |levels| ==> MeasuredLevel(levels[i], samples[i])
  }

  function Flatten(samples: seq<seq<Sample>>): seq<Sample> {
    if |samples| == 0 then [] else samples[0] + Flatten(samples[1..])
  }

  lemma {:induction false} TransportCount(samples: seq<Sample>)
    ensures Count(samples, IsTimeout) + Count(samples, IsNetworkError)
            == Count(samples, TransportFailure)
  {
    if |samples| > 0 {
      TransportCount(samples[1..]);
    }
  }

  ghost predicate MeasuredLevel(level: Level, samples: seq<Sample>) {
    exists seconds :: level.metrics == Aggregate(samples, seconds)
  }

  lemma LevelCounts(level: Level, samples: seq<Sample>)
    requires MeasuredLevel(level, samples)
    ensures Attempted(level.metrics) == |samples| && TransportFailed(level.metrics) == Count(samples, TransportFailure)
    ensures HttpErrors(level.metrics) == Count(samples, IsHttpError)
  {
    TransportCount(samples);
  }

  lemma {:induction false} SumsAreCounts(levels: seq<Level>, samples: seq<seq<Sample>>)
    requires Measured(levels, samples)
    ensures SumOver(levels, Attempted) == |Flatten(samples)|
    ensures SumOver(levels, TransportFailed) == Count(Flatten(samples), TransportFailure)
    ensures SumOver(levels, HttpErrors) == Count(Flatten(samples), IsHttpError)
  {
    if |levels| > 0 {
      SumsAreCounts(levels[1..], samples[1..]);
      CountConcat(samples[0], Flatten(samples[1..]), TransportFailure);
      CountConcat(samples[0], Flatten(samples[1..]), IsHttpError);
      LevelCounts(levels[0], samples[0]);
    }
  }

  /** Whatever the thresholds say, the category is FAIL exactly when at least one request was
      made and every request of every level failed in transport. */
  lemma FailMeansUnreachable(levels: seq<Level>, samples: seq<seq<Sample>>)
    requires Measured(levels, samples)
    ensures Escalated(HealthOf(levels), Breaches(levels)) == FAIL <==>
            Flatten(samples) != [] && forall s :: s in Flatten(samples) ==> TransportFailure(s)
  {
    SumsAreCounts(levels, samples);
    CountAll(Flatten(samples), TransportFailure);
  }

  /** The category passes exactly when requests were made, none failed in transport or with an
      HTTP error, and no threshold was breached; without requests it is UNKNOWN. */
  lemma PassMeansClean(levels: seq<Level>, samples: seq<seq<Sample>>)
    requires Measured(levels, samples)
    ensures var status := Escalated(HealthOf(levels), Breaches(levels));
            (status == PASS <==>
             Flatten(samples) != [] && Breaches(levels) == [] &&
             forall s :: s in Flatten(samples) ==> !TransportFailure(s) && !IsHttpError(s)) &&
            (status == UNKNOWN <==> Flatten(samples) == [])
  {
    SumsAreCounts(levels, samples);
    CountNone(Flatten(samples), TransportFailure);
    CountNone(Flatten(samples), IsHttpError);
    CountAll(Flatten(samples), TransportFailure);
    if Flatten(samples) != [] {
      assert Flatten(samples)[0] in Flatten(samples);
    }
  }
}
