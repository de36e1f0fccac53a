/** The comparison vocabulary of `regression/models.py` and `regression/rules.py`. */
module Regression {
  import opened AssessmentRules

  datatype ChangeType = ADDED | REMOVED | CHANGED | IMPROVED | REGRESSED | UNCHANGED | NOT_COMPARABLE

  /** The id of a finding: a test that regressed or changed, or a metric at a concurrency. */
  datatype FindingId =
    | TestRegressed(test: string)
    | TestChanged(test: string)
    | MetricRegressed(metric: string, concurrency: int)
    | OtherFinding(id: string)

  datatype Finding = Finding(id: FindingId, change: ChangeType, severity: Severity)

  datatype Category = Category(name: string, status: AssessmentStatus, findings: seq<Finding>)

  function StatusFromFindings(findings: seq<Finding>): AssessmentStatus {
    if exists f :: f in findings && f.severity in {CRITICAL, HIGH} then FAIL
    else if exists f :: f in findings && f.severity in {MEDIUM, LOW} then WARNING
    else PASS
  }
}

/** `regression/functional_compare.py`: test results compared test id by test id. */
module FunctionalCompare {
  import opened Values
  import opened AssessmentRules
  import opened Regression
  import opened Sorting

  datatype TestEntry = TestEntry(id: string, status: string)

  const GOOD: set<string> := {"passed"}
  const BAD: set<string> := {"failed", "error"}

  /** `{t.id: t.status for t in tests}`: the last entry of an id counts. */
  function ById(tests: seq<TestEntry>): map<string, string> {
    if |tests| == 0 then map[]
    else ById(tests[..|tests| - 1])[tests[|tests| - 1].id := tests[|tests| - 1].status]
  }

  function StatusOf(tests: map<string, string>, id: string): Option<string> {
    if id in tests then Some(tests[id]) else None
  }

  /** `_classify`. */
  function Classify(baseline: Option<string>, current: Option<string>): ChangeType {
    if baseline.None? then ADDED
    else if current.None? then REMOVED
    else if baseline == current then UNCHANGED
    else if baseline.value in GOOD && current.value in BAD then REGRESSED
    else if baseline.value in BAD && current.value in GOOD then IMPROVED
    else CHANGED
  }

  function FindingOf(id: string, change: ChangeType): seq<Finding> {
    match change
    case REGRESSED => [Finding(TestRegressed(id), REGRESSED, HIGH)]
    case CHANGED => [Finding(TestChanged(id), CHANGED, MEDIUM)]
    case _ => []
  }

  function FindingsFor(ids: seq<string>, b: map<string, string>, c: map<string, string>): seq<Finding> {
    if |ids| == 0 then []
    else
      var last := ids[|ids| - 1];
      FindingsFor(ids[..|ids| - 1], b, c) + FindingOf(last, Classify(StatusOf(b, last), StatusOf(c, last)))
  }

  /** The ids of `tests`, for `sorted(set(b) | set(c))`. */
  function IdsOf(tests: seq<TestEntry>): (ids: seq<string>)
    ensures |ids| == |tests| && forall i :: 0 <= i < |ids| ==> ids[i] == tests[i].id
  {
    seq(|tests|, i requires 0 <= i < |tests| => tests[i].id)
  }

  function AllIds(b: seq<TestEntry>, c: seq<TestEntry>): seq<string> { SortedSet(IdsOf(b) + IdsOf(c), TextLess) }

  function FunctionalFindings(b: seq<TestEntry>, c: seq<TestEntry>): seq<Finding> {
    FindingsFor(AllIds(b, c), ById(b), ById(c))
  }

  /** The findings and the status of the Functional category. */
  function Functional(b: Option<seq<TestEntry>>, c: Option<seq<TestEntry>>): Category {
    if b.None? || c.None? then Category("Functional", NOT_ASSESSED, [])
    else
      var findings := FunctionalFindings(b.value, c.value);
      Category("Functional", StatusFromFindings(findings), findings)
  }

  /** How many tests the summary line reports under each heading. */
  datatype Counters = Counters(added: nat, removed: nat, improved: nat, same: nat)

  /** What became of each test, in order. */
  function Changes(ids: seq<string>, b: map<string, string>, c: map<string, string>): seq<ChangeType> {
    if |ids| == 0 then []
    else
      var last := ids[|ids| - 1];
      Changes(ids[..|ids| - 1], b, c) + [Classify(StatusOf(b, last), StatusOf(c, last))]
  }

  function Occurrences(changes: seq<ChangeType>, change: ChangeType): nat {
    if |changes| == 0 then 0
    else Occurrences(changes[..|changes| - 1], change) + if changes[|changes| - 1] == change then 1 else 0
  }

  /** Every heading counts its own changes, and the findings are all the others. */
  ghost predicate Counted(counters: Counters, found: nat, changes: seq<ChangeType>) {
    counters.added == Occurrences(changes, ADDED) && counters.removed == Occurrences(changes, REMOVED) &&
    counters.improved == Occurrences(changes, IMPROVED) && counters.same == Occurrences(changes, UNCHANGED) &&
    found == Occurrences(changes, REGRESSED) + Occurrences(changes, CHANGED) &&
    counters.added + counters.removed + counters.improved + counters.same + found == |changes|
  }

  const COUNT_METRICS: seq<string> := ["passed", "failed", "error", "skipped", "unknown"]

  /** How often a status occurred then and now, for information only. */
  datatype CountDelta = CountDelta(name: string, baseline: int, current: int, change: ChangeType, delta: int)

  function CountOf(summary: map<string, int>, key: string): int { if key in summary then summary[key] else 0 }

  function CountDeltaOf(b: map<string, int>, c: map<string, int>, key: string): CountDelta {
    var delta := CountOf(c, key) - CountOf(b, key);
    CountDelta(key + "_count", CountOf(b, key), CountOf(c, key), if delta == 0 then UNCHANGED else CHANGED, delta)
  }

  function CountDeltas(b: map<string, int>, c: map<string, int>, keys: seq<string>): seq<CountDelta> {
    seq(|keys|, i requires 0 <= i < |keys| => CountDeltaOf(b, c, keys[i]))
  }

  function CountMetrics(b: map<string, int>, c: map<string, int>): seq<CountDelta> { CountDeltas(b, c, COUNT_METRICS) }

  /** Its loop over the statuses. */
  method CompareCounts(b: map<string, int>, c: map<string, int>, keys: seq<string>) returns (metrics: seq<CountDelta>)
    ensures metrics == CountDeltas(b, c, keys)
  {
    metrics := [];
    var i := 0;
    while i < |keys|
      invariant 0 <= i <= |keys| && metrics == CountDeltas(b, c, keys)[..i]
    {
      var was, now := CountOf(b, keys[i]), CountOf(c, keys[i]);
      metrics := metrics + [CountDelta(keys[i] + "_count", was, now, if now - was == 0 then UNCHANGED else CHANGED, now - was)];
      i := i + 1;
    }
  }

  /** Every test id of either run is counted under what became of it. */
  ghost predicate AllCounted(counters: Counters, found: nat, b: seq<TestEntry>, c: seq<TestEntry>) {
    Counted(counters, found, Changes(AllIds(b, c), ById(b), ById(c)))
  }

  /** A functional snapshot: the tests and the counts per status. */
  datatype Results = Results(tests: seq<TestEntry>, summary: map<string, int>)

  function Tests(r: Option<Results>): Option<seq<TestEntry>> { if r.Some? then Some(r.value.tests) else None }

  /** `compare_functional`: the loop with its counters, then the counts per status; nothing compared
      is left uncounted, and the counts never influence findings or status. */
  method CompareFunctional(baseline: Option<Results>, current: Option<Results>)
    returns (r: Category, counters: Counters, metrics: seq<CountDelta>)
    ensures r == Functional(Tests(baseline), Tests(current))
    ensures baseline.Some? && current.Some? ==>
              AllCounted(counters, |r.findings|, baseline.value.tests, current.value.tests) &&
              metrics == CountMetrics(baseline.value.summary, current.value.summary)
  {
    counters := Counters(0, 0, 0, 0);
    if baseline.None? || current.None? {
      return Category("Functional", NOT_ASSESSED, []), counters, [];
    }
    var b, c := baseline.value, current.value;
    var findings;
    findings, counters := CompareTests(AllIds(b.tests, c.tests), ById(b.tests), ById(c.tests));
    assert findings == FunctionalFindings(b.tests, c.tests) && AllCounted(counters, |findings|, b.tests, c.tests);
    metrics := CompareCounts(b.summary, c.summary, COUNT_METRICS);
    r := Category("Functional", StatusFromFindings(findings), findings);
  }

  /** Its loop over the test ids. */
  method CompareTests(ids: seq<string>, b: map<string, string>, c: map<string, string>)
    returns (findings: seq<Finding>, counters: Counters)
    ensures findings == FindingsFor(ids, b, c) && Counted(counters, |findings|, Changes(ids, b, c))
  {
    findings, counters := [], Counters(0, 0, 0, 0);
    ghost var changes := [];
    var i := 0;
    while i < |ids|
      invariant 0 <= i <= |ids| && findings == FindingsFor(ids[..i], b, c) && changes == Changes(ids[..i], b, c)
      invariant Counted(counters, |findings|, changes)
    {
      var id := ids[i];
      var change := Classify(StatusOf(b, id), StatusOf(c, id));
      NextTest(ids, b, c, i);
      findings, counters := Record(id, change, findings, counters, changes);
      changes := changes + [change];
      i := i + 1;
    }
    assert ids[..i] == ids;
  }

  lemma NextTest(ids: seq<string>, b: map<string, string>, c: map<string, string>, i: nat)
    requires i < |ids|
    ensures var change := Classify(StatusOf(b, ids[i]), StatusOf(c, ids[i]));
            Changes(ids[..i + 1], b, c) == Changes(ids[..i], b, c) + [change] &&
            FindingsFor(ids[..i + 1], b, c) == FindingsFor(ids[..i], b, c) + FindingOf(ids[i], change)
  {
    assert ids[..i + 1][..i] == ids[..i];
  }

  /** The body of the loop: one test is counted or reported. */
  method Record(id: string, change: ChangeType, findings: seq<Finding>, counters: Counters, ghost before: seq<ChangeType>)
    returns (findings': seq<Finding>, counters': Counters)
    requires Counted(counters, |findings|, before) && change != NOT_COMPARABLE
    ensures findings' == findings + FindingOf(id, change) && Counted(counters', |findings'|, before + [change])
  {
    assert (before + [change])[..|before|] == before;
    findings', counters' := findings, counters;
    match change {
      case ADDED => counters' := counters.(added := counters.added + 1);
      case REMOVED => counters' := counters.(removed := counters.removed + 1);
      case UNCHANGED => counters' := counters.(same := counters.same + 1);
      case IMPROVED => counters' := counters.(improved := counters.improved + 1);
      case REGRESSED => findings' := findings + [Finding(TestRegressed(id), REGRESSED, HIGH)];
      case _ => findings' := findings + [Finding(TestChanged(id), CHANGED, MEDIUM)];
    }
  }

  lemma {:induction false} ByIdKeys(tests: seq<TestEntry>)
    ensures forall id :: id in ById(tests) <==> id in IdsOf(tests)
  {
    if |tests| > 0 {
      var init := tests[..|tests| - 1];
      ByIdKeys(init);
      forall id ensures id in IdsOf(tests) <==> id in IdsOf(init) || id == tests[|tests| - 1].id {
        if id in IdsOf(init) {
          var i :| 0 <= i < |init| && IdsOf(init)[i] == id;
          assert IdsOf(tests)[i] == id;
        }
        assert IdsOf(tests)[|tests| - 1] == tests[|tests| - 1].id;
      }
    }
  }

  /** The finding is what test `id` gives rise to. */
  predicate Shows(b: map<string, string>, c: map<string, string>, id: string, f: Finding) {
    f in FindingOf(id, Classify(StatusOf(b, id), StatusOf(c, id)))
  }

  lemma {:induction false} FindingsForAt(ids: seq<string>, b: map<string, string>, c: map<string, string>, f: Finding)
    ensures f in FindingsFor(ids, b, c) <==> exists id :: id in ids && Shows(b, c, id, f)
  {
    if |ids| > 0 {
      var init := ids[..|ids| - 1];
      var last := ids[|ids| - 1];
      FindingsForAt(init, b, c, f);
      if f in FindingsFor(init, b, c) {
        var id :| id in init && Shows(b, c, id, f);
        assert id in ids;
      } else if f in FindingsFor(ids, b, c) {
        assert last in ids && Shows(b, c, last, f);
      }
      if id :| id in ids && Shows(b, c, id, f) {
        assert id in init || id == last;
      }
    }
  }

  lemma AllIdsAre(b: seq<TestEntry>, c: seq<TestEntry>, id: string)
    ensures id in AllIds(b, c) <==> id in ById(b) || id in ById(c)
  {
    OrdersAreTotal();
    SortedSetSorts(IdsOf(b) + IdsOf(c), TextLess);
    ByIdKeys(b);
    ByIdKeys(c);
  }

  lemma AllIdsCover(b: seq<TestEntry>, c: seq<TestEntry>)
    ensures Covers(AllIds(b, c), ById(b), ById(c))
  {
    forall id ensures id in AllIds(b, c) <==> id in ById(b) || id in ById(c) {
      AllIdsAre(b, c, id);
    }
  }

  ghost predicate Covers(ids: seq<string>, b: map<string, string>, c: map<string, string>) {
    forall id :: id in ids <==> id in b || id in c
  }

  ghost predicate ShownBySome(b: map<string, string>, c: map<string, string>, f: Finding) {
    exists id :: Shows(b, c, id, f)
  }

  lemma FindingsForAll(ids: seq<string>, b: map<string, string>, c: map<string, string>, f: Finding)
    requires Covers(ids, b, c)
    ensures f in FindingsFor(ids, b, c) <==> ShownBySome(b, c, f)
  {
    FindingsForAt(ids, b, c, f);
    if id :| Shows(b, c, id, f) {
      assert id in b || id in c;
    }
  }

  lemma FindingsOfChange(b: seq<TestEntry>, c: seq<TestEntry>, f: Finding)
    ensures f in FunctionalFindings(b, c) <==> ShownBySome(ById(b), ById(c), f)
  {
    AllIdsCover(b, c);
    FindingsForAll(AllIds(b, c), ById(b), ById(c), f);
  }

  /** The last entry of the test has this status. */
  ghost predicate Says(tests: seq<TestEntry>, id: string, status: string) {
    exists i :: 0 <= i < |tests| && tests[i] == TestEntry(id, status) && forall j :: i < j < |tests| ==> tests[j].id != id
  }

  lemma {:induction false} ByIdSays(tests: seq<TestEntry>, id: string, status: string)
    ensures StatusOf(ById(tests), id) == Some(status) <==> Says(tests, id, status)
  {
    if |tests| > 0 {
      var init, last := tests[..|tests| - 1], tests[|tests| - 1];
      ByIdSays(init, id, status);
      if last.id == id {
        assert last == TestEntry(id, status) ==> tests[|tests| - 1] == TestEntry(id, status);
      } else {
        if i :| 0 <= i < |init| && init[i] == TestEntry(id, status) && forall j :: i < j < |init| ==> init[j].id != id {
          assert tests[i] == TestEntry(id, status);
          assert forall j :: i < j < |tests| ==> tests[j] == if j < |init| then init[j] else last;
        }
        if i :| 0 <= i < |tests| && tests[i] == TestEntry(id, status) && forall j :: i < j < |tests| ==> tests[j].id != id {
          assert init[i] == TestEntry(id, status);
          assert forall j :: i < j < |init| ==> init[j] == tests[j];
        }
      }
    }
  }

  /** What each kind of change means. */
  lemma ClassifyMeans(was: Option<string>, now: Option<string>)
    ensures Classify(was, now) == ADDED <==> was.None?
    ensures Classify(was, now) == REMOVED <==> was.Some? && now.None?
    ensures Classify(was, now) == UNCHANGED <==> was.Some? && was == now
    ensures Classify(was, now) == REGRESSED <==> was.Some? && now.Some? && Better(now.value, was.value)
    ensures Classify(was, now) == IMPROVED <==> was.Some? && now.Some? && Better(was.value, now.value)
    ensures Classify(was, now) == CHANGED <==>
            was.Some? && now.Some? && was != now && !Better(now.value, was.value) && !Better(was.value, now.value)
  {
  }

  /** From failed or error to passed. */
  predicate Better(was: string, now: string) { (was == "failed" || was == "error") && now == "passed" }

  ghost predicate HasRegressed(b: seq<TestEntry>, c: seq<TestEntry>, id: string) {
    Says(b, id, "passed") && (Says(c, id, "failed") || Says(c, id, "error"))
  }

  ghost predicate HasChanged(b: seq<TestEntry>, c: seq<TestEntry>, id: string) {
    exists was, now :: ChangedFrom(b, c, id, was, now)
  }

  ghost predicate ChangedFrom(b: seq<TestEntry>, c: seq<TestEntry>, id: string, was: string, now: string) {
    Says(b, id, was) && Says(c, id, now) && was != now && !Better(was, now) && !Better(now, was)
  }

  lemma HasChangedIs(b: seq<TestEntry>, c: seq<TestEntry>, id: string)
    ensures Classify(StatusOf(ById(b), id), StatusOf(ById(c), id)) == CHANGED <==> HasChanged(b, c, id)
  {
    var was, now := StatusOf(ById(b), id), StatusOf(ById(c), id);
    ClassifyMeans(was, now);
    if Classify(was, now) == CHANGED {
      ByIdSays(b, id, was.value);
      ByIdSays(c, id, now.value);
      assert ChangedFrom(b, c, id, was.value, now.value);
    }
    if x, y :| ChangedFrom(b, c, id, x, y) {
      ByIdSays(b, id, x);
      ByIdSays(c, id, y);
    }
  }

  lemma HasRegressedIs(b: seq<TestEntry>, c: seq<TestEntry>, id: string)
    ensures Classify(StatusOf(ById(b), id), StatusOf(ById(c), id)) == REGRESSED <==> HasRegressed(b, c, id)
  {
    ClassifyMeans(StatusOf(ById(b), id), StatusOf(ById(c), id));
    ByIdSays(b, id, "passed");
    ByIdSays(c, id, "failed");
    ByIdSays(c, id, "error");
  }

  /** Exactly the tests that went from passed to failed or error are reported as regressed, and
      always as HIGH; exactly those with any other change that is no improvement as changed. */
  lemma FindingsAreTheChanges(b: seq<TestEntry>, c: seq<TestEntry>, id: string)
    ensures var findings := Functional(Some(b), Some(c)).findings;
            (Finding(TestRegressed(id), REGRESSED, HIGH) in findings <==> HasRegressed(b, c, id)) &&
            (Finding(TestChanged(id), CHANGED, MEDIUM) in findings <==> HasChanged(b, c, id))
  {
    RegressedFinding(b, c, id);
    ChangedFinding(b, c, id);
    HasRegressedIs(b, c, id);
    HasChangedIs(b, c, id);
  }

  /** Nothing else is reported. */
  lemma FindingIsAChange(b: seq<TestEntry>, c: seq<TestEntry>, f: Finding) returns (id: string)
    requires f in Functional(Some(b), Some(c)).findings
    ensures (f == Finding(TestRegressed(id), REGRESSED, HIGH) && HasRegressed(b, c, id)) ||
            (f == Finding(TestChanged(id), CHANGED, MEDIUM) && HasChanged(b, c, id))
  {
    FindingsOfChange(b, c, f);
    id :| Shows(ById(b), ById(c), id, f);
    HasRegressedIs(b, c, id);
    HasChangedIs(b, c, id);
  }

  /** The category fails exactly when a test regressed, and warns exactly when none did but one changed
      in another way that is no improvement. */
  lemma FunctionalStatusMeans(b: seq<TestEntry>, c: seq<TestEntry>)
    ensures Functional(Some(b), Some(c)).status ==
            if exists id :: HasRegressed(b, c, id) then FAIL else if exists id :: HasChanged(b, c, id) then WARNING else PASS
  {
    var findings := Functional(Some(b), Some(c)).findings;
    forall id ensures (HasRegressed(b, c, id) ==> Finding(TestRegressed(id), REGRESSED, HIGH) in findings) &&
                      (HasChanged(b, c, id) ==> Finding(TestChanged(id), CHANGED, MEDIUM) in findings) {
      FindingsAreTheChanges(b, c, id);
    }
    if f :| f in findings && f.severity in {CRITICAL, HIGH} {
      var id := FindingIsAChange(b, c, f);
    } else if f :| f in findings && f.severity in {MEDIUM, LOW} {
      var id := FindingIsAChange(b, c, f);
    }
  }

  /** The counts per status, then and now, with their differences. */
  lemma CountsAreDifferences(b: map<string, int>, c: map<string, int>, i: nat)
    requires i < 5
    ensures |CountMetrics(b, c)| == 5
    ensures var d := CountMetrics(b, c)[i]; var key := ["passed", "failed", "error", "skipped", "unknown"][i];
            d.name == key + "_count" && d.delta == d.current - d.baseline && (d.change == UNCHANGED <==> d.current == d.baseline) &&
            d.change in {UNCHANGED, CHANGED} && d.baseline == (if key in b then b[key] else 0) && d.current == (if key in c then c[key] else 0)
  {
  }

  lemma FindingOfIs(id: string, change: ChangeType, other: string)
    ensures Finding(TestRegressed(other), REGRESSED, HIGH) in FindingOf(id, change) <==> other == id && change == REGRESSED
    ensures Finding(TestChanged(other), CHANGED, MEDIUM) in FindingOf(id, change) <==> other == id && change == CHANGED
  {
  }

  lemma RegressedFinding(b: seq<TestEntry>, c: seq<TestEntry>, id: string)
    ensures Finding(TestRegressed(id), REGRESSED, HIGH) in FunctionalFindings(b, c) <==>
            Classify(StatusOf(ById(b), id), StatusOf(ById(c), id)) == REGRESSED
  {
    var f := Finding(TestRegressed(id), REGRESSED, HIGH);
    FindingsOfChange(b, c, f);
    FindingOfIs(id, Classify(StatusOf(ById(b), id), StatusOf(ById(c), id)), id);
    assert Classify(StatusOf(ById(b), id), StatusOf(ById(c), id)) == REGRESSED <==> Shows(ById(b), ById(c), id, f);
    if other :| Shows(ById(b), ById(c), other, f) {
      FindingOfIs(other, Classify(StatusOf(ById(b), other), StatusOf(ById(c), other)), id);
    }
  }

  lemma ChangedFinding(b: seq<TestEntry>, c: seq<TestEntry>, id: string)
    ensures Finding(TestChanged(id), CHANGED, MEDIUM) in FunctionalFindings(b, c) <==>
            Classify(StatusOf(ById(b), id), StatusOf(ById(c), id)) == CHANGED
  {
    var f := Finding(TestChanged(id), CHANGED, MEDIUM);
    FindingsOfChange(b, c, f);
    FindingOfIs(id, Classify(StatusOf(ById(b), id), StatusOf(ById(c), id)), id);
    assert Classify(StatusOf(ById(b), id), StatusOf(ById(c), id)) == CHANGED <==> Shows(ById(b), ById(c), id, f);
    if other :| Shows(ById(b), ById(c), other, f) {
      FindingOfIs(other, Classify(StatusOf(ById(b), other), StatusOf(ById(c), other)), id);
    }
  }

  /** Comparing test results with themselves raises nothing. */
  lemma {:induction false} NothingChanged(ids: seq<string>, b: map<string, string>)
    requires forall id :: id in ids ==> id in b
    ensures FindingsFor(ids, b, b) == []
  {
    if |ids| > 0 {
      NothingChanged(ids[..|ids| - 1], b);
    }
  }

  lemma SelfComparisonIsClean(b: seq<TestEntry>)
    ensures Functional(Some(b), Some(b)) == Category("Functional", PASS, [])
  {
    OrdersAreTotal();
    SortedSetSorts(IdsOf(b) + IdsOf(b), TextLess);
    ByIdKeys(b);
    NothingChanged(AllIds(b, b), ById(b));
  }
}
