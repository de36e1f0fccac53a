/** `regression/engine.py`: two snapshots compared category by category. */
module RegressionEngine {
  import opened Values
  import opened AssessmentRules
  import opened Regression
  import opened Baseline
  import FunctionalCompare
  import PerformanceCompare

  datatype Summary = Summary(status: AssessmentStatus, categories: seq<Category>, versionsDiffer: bool)

  /** `regression.findings`: those of all categories. */
  function FindingsIn(categories: seq<Category>): seq<Finding> {
    if |categories| == 0 then [] else categories[0].findings + FindingsIn(categories[1..])
  }

  lemma {:induction false} FindingsInAll(categories: seq<Category>, f: Finding)
    ensures f in FindingsIn(categories) <==> exists i :: 0 <= i < |categories| && f in categories[i].findings
  {
    if |categories| > 0 {
      FindingsInAll(categories[1..], f);
      if f in FindingsIn(categories[1..]) {
        var i :| 0 <= i < |categories[1..]| && f in categories[1..][i].findings;
        assert f in categories[i + 1].findings;
      }
      if i :| 0 < i < |categories| && f in categories[i].findings {
        assert f in categories[1..][i - 1].findings;
      }
    }
  }

  /** The numbers of a level's metrics dict. */
  function MetricsOf(fields: seq<Field>): PerformanceCompare.MetricMap {
    if |fields| == 0 then map[]
    else
      MetricsOf(fields[..|fields| - 1])[fields[|fields| - 1].key :=
        match fields[|fields| - 1].value
        case Int(i) => Some(i as real)
        case Float(r) => Some(r)
        case _ => None]
  }

  function LevelsOf(levels: seq<LevelEntry>): seq<PerformanceCompare.LevelSnapshot> {
    seq(|levels|, i requires 0 <= i < |levels| => PerformanceCompare.LevelSnapshot(levels[i].concurrency, MetricsOf(levels[i].metrics)))
  }

  function TestsIn(s: BaselineSnapshot): Option<seq<FunctionalCompare.TestEntry>> {
    if s.functional.Some? then Some(s.functional.value.tests) else None
  }

  function LevelsIn(s: BaselineSnapshot): Option<seq<PerformanceCompare.LevelSnapshot>> {
    if s.performance.Some? then Some(LevelsOf(s.performance.value.levels)) else None
  }

  function OverallStatus(categories: seq<Category>): AssessmentStatus {
    ComputeOverallStatus(seq(|categories|, i requires 0 <= i < |categories| => categories[i].status))
  }

  /** `compare`; `others` are the database, discovery, assessment, browser and scenario categories. */
  function Compare(baseline: BaselineSnapshot, current: BaselineSnapshot, tolerances: map<string, real>, others: seq<Category>): Summary {
    var categories := [
      FunctionalCompare.Functional(TestsIn(baseline), TestsIn(current)),
      PerformanceCompare.Performance(LevelsIn(baseline), LevelsIn(current), tolerances)] + others;
    Summary(OverallStatus(categories), categories, baseline.toolVersion != current.toolVersion)
  }

  /** Saved, loaded and compared with itself, a snapshot shows no functional or performance
      finding under non-negative tolerances and no version warning; so when the other comparators
      find nothing either, the summary is empty and not worse than UNKNOWN. */
  lemma ReloadedSnapshotIsClean(s: BaselineSnapshot, tolerances: map<string, real>, others: seq<Category>)
    requires PerformanceCompare.NonNegative(tolerances)
    ensures FromDict(ToDict(s)).Some?
    ensures var r := Compare(s, FromDict(ToDict(s)).value, tolerances, others);
            FindingsIn(r.categories) == FindingsIn(others) && !r.versionsDiffer &&
            ((forall c :: c in others ==> c.status in {PASS, NOT_ASSESSED}) ==> r.status in {PASS, UNKNOWN})
  {
    RoundTrip(s);
    var functional := FunctionalCompare.Functional(TestsIn(s), TestsIn(s));
    var performance := PerformanceCompare.Performance(LevelsIn(s), LevelsIn(s), tolerances);
    if s.functional.Some? {
      FunctionalCompare.SelfComparisonIsClean(s.functional.value.tests);
    }
    PerformanceCompare.SelfComparisonIsClean(LevelsIn(s), tolerances);
    FindingsAfterTwo(functional, performance, others);
    StatusAfterTwo(functional, performance, others);
  }

  lemma FindingsAfterTwo(first: Category, second: Category, others: seq<Category>)
    requires first.findings == [] && second.findings == []
    ensures FindingsIn([first, second] + others) == FindingsIn(others)
  {
    var all := [first, second] + others;
    assert all[1..][0] == second && all[1..][1..] == others;
  }

  lemma StatusAfterTwo(first: Category, second: Category, others: seq<Category>)
    requires first.status in {PASS, NOT_ASSESSED} && second.status in {PASS, NOT_ASSESSED}
    ensures (forall c :: c in others ==> c.status in {PASS, NOT_ASSESSED}) ==> OverallStatus([first, second] + others) in {PASS, UNKNOWN}
  {
    var all := [first, second] + others;
    if forall c :: c in others ==> c.status in {PASS, NOT_ASSESSED} {
      assert forall i :: 0 <= i < |all| ==> all[i] == first || all[i] == second || all[i] in others;
    }
  }

  /** One failing category fails the whole. */
  lemma FailingCategoryFails(categories: seq<Category>, i: nat)
    requires i < |categories| && categories[i].status == FAIL
    ensures OverallStatus(categories) == FAIL
  {
    var statuses := seq(|categories|, i requires 0 <= i < |categories| => categories[i].status);
    assert statuses[i] == FAIL;
  }

  ghost predicate TestRegressedIn(b: BaselineSnapshot, c: BaselineSnapshot, id: string) {
    b.functional.Some? && c.functional.Some? && FunctionalCompare.HasRegressed(b.functional.value.tests, c.functional.value.tests, id)
  }

  /** A test that went from passed to failed or error is a HIGH finding of the summary, which fails. */
  lemma RegressedTestIsFound(baseline: BaselineSnapshot, current: BaselineSnapshot, tolerances: map<string, real>, others: seq<Category>, id: string)
    requires TestRegressedIn(baseline, current, id)
    ensures Compare(baseline, current, tolerances, others).status == FAIL
    ensures Finding(TestRegressed(id), REGRESSED, HIGH) in FindingsIn(Compare(baseline, current, tolerances, others).categories)
  {
    FunctionalCompare.FindingsAreTheChanges(TestsIn(baseline).value, TestsIn(current).value, id);
    var categories := Compare(baseline, current, tolerances, others).categories;
    assert Finding(TestRegressed(id), REGRESSED, HIGH) in categories[0].findings;
    FindingsInAll(categories, Finding(TestRegressed(id), REGRESSED, HIGH));
    FunctionalCompare.FunctionalStatusMeans(TestsIn(baseline).value, TestsIn(current).value);
    FailingCategoryFails(categories, 0);
  }

  /** The last field with the key is the number `x`. */
  ghost predicate NumberUnder(fields: seq<Field>, key: string, x: real) {
    exists i :: 0 <= i < |fields| && fields[i].key == key && IsNumber(fields[i].value, x) && forall j :: i < j < |fields| ==> fields[j].key != key
  }

  predicate IsNumber(v: Value, x: real) { v == Float(x) || (v.Int? && v.i as real == x) }

  lemma {:induction false} MetricsOfAre(fields: seq<Field>, key: string, x: real)
    ensures key in MetricsOf(fields) && MetricsOf(fields)[key] == Some(x) <==> NumberUnder(fields, key, x)
  {
    if |fields| > 0 {
      var init, last := fields[..|fields| - 1], fields[|fields| - 1];
      MetricsOfAre(init, key, x);
      assert forall i :: 0 <= i < |init| ==> init[i] == fields[i];
      if last.key == key {
        assert IsNumber(last.value, x) ==> fields[|fields| - 1].key == key;
      } else {
        if i :| 0 <= i < |init| && init[i].key == key && IsNumber(init[i].value, x) && forall j :: i < j < |init| ==> init[j].key != key {
          assert fields[i].key == key;
        }
        if i :| 0 <= i < |fields| && fields[i].key == key && IsNumber(fields[i].value, x) && forall j :: i < j < |fields| ==> fields[j].key != key {
          assert init[i].key == key;
        }
      }
    }
  }

  /** The last level of this concurrency holds the metric as the number `x`. */
  ghost predicate Holds(levels: seq<LevelEntry>, n: int, metric: string, x: real) {
    exists i :: 0 <= i < |levels| && levels[i].concurrency == n && NumberUnder(levels[i].metrics, metric, x) &&
      forall j :: i < j < |levels| ==> levels[j].concurrency != n
  }

  lemma HoldsIsMeasured(levels: seq<LevelEntry>, n: int, metric: string, x: real)
    ensures PerformanceCompare.Measures(LevelsOf(levels), n, metric, x) <==> Holds(levels, n, metric, x)
  {
    var snapshots := LevelsOf(levels);
    forall i | 0 <= i < |levels|
      ensures snapshots[i].concurrency == levels[i].concurrency
      ensures metric in snapshots[i].metrics && snapshots[i].metrics[metric] == Some(x) <==> NumberUnder(levels[i].metrics, metric, x)
    {
      MetricsOfAre(levels[i].metrics, metric, x);
    }
    if i :| 0 <= i < |levels| && levels[i].concurrency == n && NumberUnder(levels[i].metrics, metric, x) &&
            forall j :: i < j < |levels| ==> levels[j].concurrency != n {
      assert snapshots[i].concurrency == n;
    }
    if i :| 0 <= i < |snapshots| && snapshots[i].concurrency == n && metric in snapshots[i].metrics && snapshots[i].metrics[metric] == Some(x) &&
            forall j :: i < j < |snapshots| ==> snapshots[j].concurrency != n {
      assert levels[i].concurrency == n;
    }
  }

  /** Both snapshots hold the metric at this concurrency, and it got worse beyond its tolerance. */
  ghost predicate MetricRegressedAt(b: BaselineSnapshot, c: BaselineSnapshot, tolerances: map<string, real>, metric: string, n: int) {
    b.performance.Some? && c.performance.Some? &&
    exists was, now :: RegressedFrom(b.performance.value.levels, c.performance.value.levels, tolerances, metric, n, was, now)
  }

  ghost predicate RegressedFrom(b: seq<LevelEntry>, c: seq<LevelEntry>, tolerances: map<string, real>, metric: string, n: int, was: real, now: real) {
    Holds(b, n, metric, was) && Holds(c, n, metric, now) && PerformanceCompare.Worse(metric, was, now, tolerances)
  }

  /** A metric that regressed at a concurrency both runs have is a HIGH finding of the summary, which
      fails. */
  lemma RegressedMetricIsFound(baseline: BaselineSnapshot, current: BaselineSnapshot, tolerances: map<string, real>, others: seq<Category>,
                               metric: string, n: int)
    requires MetricRegressedAt(baseline, current, tolerances, metric, n)
    ensures Compare(baseline, current, tolerances, others).status == FAIL
    ensures Finding(MetricRegressed(metric, n), REGRESSED, HIGH) in FindingsIn(Compare(baseline, current, tolerances, others).categories)
  {
    var b, c := baseline.performance.value.levels, current.performance.value.levels;
    var was, now :| RegressedFrom(b, c, tolerances, metric, n, was, now);
    HoldsIsMeasured(b, n, metric, was);
    HoldsIsMeasured(c, n, metric, now);
    assert PerformanceCompare.WorseAt(LevelsOf(b), LevelsOf(c), tolerances, metric, n);
    PerformanceCompare.FindingsAreTheRegressions(LevelsOf(b), LevelsOf(c), tolerances, metric, n);
    PerformanceCompare.PerformanceStatusMeans(LevelsOf(b), LevelsOf(c), tolerances);
    var f := Finding(MetricRegressed(metric, n), REGRESSED, HIGH);
    var categories := Compare(baseline, current, tolerances, others).categories;
    FindingMeansAssessed(LevelsOf(b), LevelsOf(c), tolerances, f);
    assert f in categories[1].findings;
    FailingCategoryFails(categories, 1);
    FindingsInAll(categories, f);
  }

  lemma FindingMeansAssessed(b: seq<PerformanceCompare.LevelSnapshot>, c: seq<PerformanceCompare.LevelSnapshot>, tolerances: map<string, real>, f: Finding)
    requires f in PerformanceCompare.Performance(Some(b), Some(c), tolerances).findings
    ensures PerformanceCompare.Performance(Some(b), Some(c), tolerances).status != NOT_ASSESSED
  {
  }
}
