/** The quality gate: `quality_gate/signals.py`, `quality_gate/models.py` and
    `quality_gate/engine.py`. */
module QualityGate {
  import opened Values
  import opened AssessmentRules
  import opened Regression
  import opened RegressionEngine
  import Baseline
  import PerformanceMetrics

  datatype GateStatus = GatePass | GateWarning | GateFail | GateError

  datatype Level = FailLevel | WarningLevel

  datatype AssessmentCategory = AssessmentCategory(name: string, status: AssessmentStatus)

  datatype ProjectAssessment = ProjectAssessment(categories: seq<AssessmentCategory>, overallStatus: AssessmentStatus)

  /** One collected fact; `finding` when it stands for a regression finding. */
  datatype Signal = Signal(category: string, value: string, finding: Option<FindingId>)

  datatype Policy = Policy(failOn: map<string, seq<string>>, warnOn: map<string, seq<string>>)

  const DEFAULT_POLICY := Policy(
    map["regression" := ["critical", "high"], "functional" := ["failure"], "performance" := ["threshold"]],
    map["regression" := ["medium"], "database" := ["schema_change"], "discovery" := ["change"]])

  predicate Lists(on: map<string, seq<string>>, category: string, value: string) {
    category in on && value in on[category]
  }

  /** `policy.classify`: failing wins over warning. */
  function Classify(p: Policy, category: string, value: string): Option<Level> {
    if Lists(p.failOn, category, value) then Some(FailLevel)
    else if Lists(p.warnOn, category, value) then Some(WarningLevel)
    else None
  }

  function Verdict(p: Policy, s: Signal): Option<Level> { Classify(p, s.category, s.value) }

  function ExitCodeFor(status: GateStatus): int {
    match status
    case GatePass => 0
    case GateWarning => 0
    case GateFail => 1
    case GateError => 3
  }

  function SeverityText(s: Severity): string {
    match s
    case CRITICAL => "critical"
    case HIGH => "high"
    case MEDIUM => "medium"
    case LOW => "low"
    case INFO => "info"
  }

  function StatusText(s: AssessmentStatus): string {
    match s
    case PASS => "pass"
    case WARNING => "warning"
    case FAIL => "fail"
    case UNKNOWN => "unknown"
    case NOT_ASSESSED => "not_assessed"
  }

  /** The status of the first category with the name. */
  function StatusOf(categories: seq<AssessmentCategory>, name: string): Option<AssessmentStatus> {
    if |categories| == 0 then None
    else if categories[0].name == name then Some(categories[0].status)
    else StatusOf(categories[1..], name)
  }

  function FindCategory(categories: seq<Category>, name: string): Option<Category> {
    if |categories| == 0 then None
    else if categories[0].name == name then Some(categories[0])
    else FindCategory(categories[1..], name)
  }

  function When(condition: bool, s: Signal): seq<Signal> { if condition then [s] else [] }

  const FUNCTIONAL_UNREACHABLE := Signal("functional", "unreachable", None)
  const PERFORMANCE_UNREACHABLE := Signal("performance", "unreachable", None)

  /** Targets that could not be reached at all. */
  function InfraSignals(a: ProjectAssessment): seq<Signal> {
    When(StatusOf(a.categories, "Functional Health") == Some(FAIL), FUNCTIONAL_UNREACHABLE) +
    When(StatusOf(a.categories, "Performance") == Some(FAIL), PERFORMANCE_UNREACHABLE)
  }

  function FindingSignals(findings: seq<Finding>): seq<Signal> {
    if |findings| == 0 then []
    else
      FindingSignals(findings[..|findings| - 1]) +
      [Signal("regression", SeverityText(findings[|findings| - 1].severity), Some(findings[|findings| - 1].id))]
  }

  predicate HasFindings(categories: seq<Category>, name: string) {
    FindCategory(categories, name).Some? && FindCategory(categories, name).value.findings != []
  }

  function RegressionSignals(r: Option<Summary>): seq<Signal> {
    if r.None? then []
    else
      FindingSignals(FindingsIn(r.value.categories)) +
      When(HasFindings(r.value.categories, "Database"), Signal("database", "schema_change", None)) +
      When(HasFindings(r.value.categories, "Discovery"), Signal("discovery", "change", None))
  }

  function AssessmentSignals(a: ProjectAssessment): seq<Signal> {
    When(StatusOf(a.categories, "Functional Health") == Some(WARNING), Signal("functional", "failure", None)) +
    When(StatusOf(a.categories, "Performance") == Some(WARNING), Signal("performance", "threshold", None)) +
    When(StatusOf(a.categories, "Database Health") == Some(NOT_ASSESSED), Signal("database", "not_assessed", None))
  }

  function OverallSignal(a: ProjectAssessment): Signal { Signal("assessment", StatusText(a.overallStatus), None) }

  function QualitySignals(a: ProjectAssessment, r: Option<Summary>): seq<Signal> {
    AssessmentSignals(a) + RegressionSignals(r) + [OverallSignal(a)]
  }

  /** `collect_rules`: the two lists it fills. */
  method CollectRules(a: ProjectAssessment, r: Option<Summary>) returns (infra: seq<Signal>, quality: seq<Signal>)
    ensures infra == InfraSignals(a) && quality == QualitySignals(a, r)
  {
    infra, quality := CollectAssessment(a);
    if r.Some? {
      quality := CollectRegression(r.value, quality);
    }
    assert quality == AssessmentSignals(a) + RegressionSignals(r);
    quality := quality + [OverallSignal(a)];
  }

  method CollectAssessment(a: ProjectAssessment) returns (infra: seq<Signal>, quality: seq<Signal>)
    ensures infra == InfraSignals(a) && quality == AssessmentSignals(a)
  {
    infra, quality := [], [];
    var functional := StatusOf(a.categories, "Functional Health");
    if functional == Some(FAIL) {
      infra := infra + [FUNCTIONAL_UNREACHABLE];
    } else if functional == Some(WARNING) {
      quality := quality + [Signal("functional", "failure", None)];
    }
    var performance := StatusOf(a.categories, "Performance");
    if performance == Some(FAIL) {
      infra := infra + [PERFORMANCE_UNREACHABLE];
    } else if performance == Some(WARNING) {
      quality := quality + [Signal("performance", "threshold", None)];
    }
    if StatusOf(a.categories, "Database Health") == Some(NOT_ASSESSED) {
      quality := quality + [Signal("database", "not_assessed", None)];
    }
  }

  method CollectRegression(r: Summary, before: seq<Signal>) returns (quality: seq<Signal>)
    ensures quality == before + RegressionSignals(Some(r))
  {
    quality := before;
    var findings := FindingsIn(r.categories);
    var i := 0;
    while i < |findings|
      invariant 0 <= i <= |findings| && quality == before + FindingSignals(findings[..i])
    {
      assert findings[..i + 1][..i] == findings[..i];
      quality := quality + [Signal("regression", SeverityText(findings[i].severity), Some(findings[i].id))];
      i := i + 1;
    }
    assert findings[..i] == findings;
    if HasFindings(r.categories, "Database") {
      quality := quality + [Signal("database", "schema_change", None)];
    }
    if HasFindings(r.categories, "Discovery") {
      quality := quality + [Signal("discovery", "change", None)];
    }
  }

  datatype GateFinding = GateFinding(signal: Signal, level: Level)

  datatype GateResult = GateResult(status: GateStatus, exitCode: int, findings: seq<GateFinding>)

  /** The signals the policy does not mention, and those it does. */
  function Unclassified(p: Policy, signals: seq<Signal>): seq<Signal> {
    if |signals| == 0 then []
    else
      var last := signals[|signals| - 1];
      Unclassified(p, signals[..|signals| - 1]) + When(Verdict(p, last).None?, last)
  }

  function Classified(p: Policy, signals: seq<Signal>): seq<Signal> {
    if |signals| == 0 then []
    else
      var last := signals[|signals| - 1];
      Classified(p, signals[..|signals| - 1]) + When(Verdict(p, last).Some?, last)
  }

  function FindingsFor(p: Policy, signals: seq<Signal>): seq<GateFinding> {
    if |signals| == 0 then []
    else
      var last := signals[|signals| - 1];
      FindingsFor(p, signals[..|signals| - 1]) + if Verdict(p, last).Some? then [GateFinding(last, Verdict(p, last).value)] else []
  }

  function StatusFor(unresolved: seq<Signal>, findings: seq<GateFinding>): GateStatus {
    if unresolved != [] then GateError
    else if exists f :: f in findings && f.level == FailLevel then GateFail
    else if exists f :: f in findings && f.level == WarningLevel then GateWarning
    else GatePass
  }

  function Gate(a: ProjectAssessment, r: Option<Summary>, p: Policy): GateResult {
    var infra := InfraSignals(a);
    var findings := FindingsFor(p, QualitySignals(a, r) + Classified(p, infra));
    var status := StatusFor(Unclassified(p, infra), findings);
    GateResult(status, ExitCodeFor(status), findings)
  }

  /** `evaluate`: its two loops and the decision. */
  method Evaluate(a: ProjectAssessment, r: Option<Summary>, p: Policy) returns (result: GateResult)
    ensures result == Gate(a, r, p)
  {
    var infra, quality := CollectRules(a, r);
    var unresolved;
    unresolved, quality := SortOutInfra(p, infra, quality);
    var findings := ClassifyAll(p, quality);
    var status := StatusFor(unresolved, findings);
    result := GateResult(status, ExitCodeFor(status), findings);
  }

  method SortOutInfra(p: Policy, infra: seq<Signal>, before: seq<Signal>) returns (unresolved: seq<Signal>, quality: seq<Signal>)
    ensures unresolved == Unclassified(p, infra) && quality == before + Classified(p, infra)
  {
    unresolved, quality := [], before;
    var i := 0;
    while i < |infra|
      invariant 0 <= i <= |infra| && unresolved == Unclassified(p, infra[..i]) && quality == before + Classified(p, infra[..i])
    {
      assert infra[..i + 1][..i] == infra[..i];
      if Verdict(p, infra[i]).None? {
        unresolved := unresolved + [infra[i]];
      } else {
        quality := quality + [infra[i]];
      }
      i := i + 1;
    }
    assert infra[..i] == infra;
  }

  method ClassifyAll(p: Policy, quality: seq<Signal>) returns (findings: seq<GateFinding>)
    ensures findings == FindingsFor(p, quality)
  {
    findings := [];
    var i := 0;
    while i < |quality|
      invariant 0 <= i <= |quality| && findings == FindingsFor(p, quality[..i])
    {
      assert quality[..i + 1][..i] == quality[..i];
      var level := Verdict(p, quality[i]);
      if level.Some? {
        findings := findings + [GateFinding(quality[i], level.value)];
      }
      i := i + 1;
    }
    assert quality[..i] == quality;
  }

  // ---------------------------------------------------------------- what the exit code means

  lemma {:induction false} UnclassifiedAre(p: Policy, signals: seq<Signal>)
    ensures forall s :: s in Unclassified(p, signals) <==> s in signals && Verdict(p, s).None?
    ensures forall s :: s in Classified(p, signals) <==> s in signals && Verdict(p, s).Some?
  {
    if |signals| > 0 {
      UnclassifiedAre(p, signals[..|signals| - 1]);
      assert forall s :: s in signals <==> s in signals[..|signals| - 1] || s == signals[|signals| - 1];
    }
  }

  lemma {:induction false} FindingsForAre(p: Policy, signals: seq<Signal>)
    ensures forall f :: f in FindingsFor(p, signals) <==> f.signal in signals && Verdict(p, f.signal) == Some(f.level)
  {
    if |signals| > 0 {
      FindingsForAre(p, signals[..|signals| - 1]);
      assert forall s :: s in signals <==> s in signals[..|signals| - 1] || s == signals[|signals| - 1];
    }
  }

  /** Everything the gate looks at. */
  function AllSignals(a: ProjectAssessment, r: Option<Summary>): seq<Signal> { InfraSignals(a) + QualitySignals(a, r) }

  /** A target was unreachable and the policy says nothing about it. */
  ghost predicate Unresolved(a: ProjectAssessment, p: Policy) {
    exists s :: s in InfraSignals(a) && Verdict(p, s).None?
  }

  /** The policy puts something that was seen on this level. */
  ghost predicate SomeVerdict(a: ProjectAssessment, r: Option<Summary>, p: Policy, level: Level) {
    exists s :: s in AllSignals(a, r) && Verdict(p, s) == Some(level)
  }

  /** The policy fails on something that was seen. */
  ghost predicate Failing(a: ProjectAssessment, r: Option<Summary>, p: Policy) {
    SomeVerdict(a, r, p, FailLevel)
  }

  lemma UnresolvedExactly(a: ProjectAssessment, p: Policy)
    ensures Unclassified(p, InfraSignals(a)) != [] <==> Unresolved(a, p)
  {
    var infra := InfraSignals(a);
    UnclassifiedAre(p, infra);
    if s :| s in infra && Verdict(p, s).None? {
      assert s in Unclassified(p, infra);
    }
    if Unclassified(p, infra) != [] {
      assert Unclassified(p, infra)[0] in Unclassified(p, infra);
    }
  }

  lemma LevelExactly(a: ProjectAssessment, r: Option<Summary>, p: Policy, level: Level)
    ensures (exists f :: f in Gate(a, r, p).findings && f.level == level) <==> SomeVerdict(a, r, p, level)
  {
    if s :| s in AllSignals(a, r) && Verdict(p, s) == Some(level) {
      ReportedAreVerdicts(a, r, p, GateFinding(s, level));
      assert GateFinding(s, level).level == level;
    }
    if f :| f in Gate(a, r, p).findings && f.level == level {
      ReportedAreVerdicts(a, r, p, f);
    }
  }

  /** The exit-code contract: 3 exactly when a target was unreachable and the policy says nothing
      about that; otherwise 1 exactly when the policy fails on some signal; otherwise 0. */
  lemma ExitCodeMeans(a: ProjectAssessment, r: Option<Summary>, p: Policy)
    ensures Gate(a, r, p).exitCode == if Unresolved(a, p) then 3 else if Failing(a, r, p) then 1 else 0
  {
    UnresolvedExactly(a, p);
    LevelExactly(a, r, p, FailLevel);
  }

  /** What is reported: exactly the signals the policy has a verdict on, with that verdict. */
  lemma ReportedAreVerdicts(a: ProjectAssessment, r: Option<Summary>, p: Policy, f: GateFinding)
    ensures f in Gate(a, r, p).findings <==> f.signal in AllSignals(a, r) && Verdict(p, f.signal) == Some(f.level)
  {
    UnclassifiedAre(p, InfraSignals(a));
    FindingsForAre(p, QualitySignals(a, r) + Classified(p, InfraSignals(a)));
  }

  /** `more` fails on everything `less` fails on and warns on the same things. */
  ghost predicate FailsOnMore(less: Policy, more: Policy) {
    less.warnOn == more.warnOn && forall c, v :: Lists(less.failOn, c, v) ==> Lists(more.failOn, c, v)
  }

  /** Enlarging `fail_on` never turns a non-zero exit code into 0. */
  lemma StricterNeverPasses(a: ProjectAssessment, r: Option<Summary>, less: Policy, more: Policy)
    requires FailsOnMore(less, more) && Gate(a, r, less).exitCode != 0
    ensures Gate(a, r, more).exitCode != 0
  {
    ExitCodeMeans(a, r, less);
    ExitCodeMeans(a, r, more);
    if Unresolved(a, less) {
      var s :| s in InfraSignals(a) && Verdict(less, s).None?;
      assert s in AllSignals(a, r);
      assert Verdict(more, s) in {None, Some(FailLevel)};
    } else {
      var s :| s in AllSignals(a, r) && Verdict(less, s) == Some(FailLevel);
      assert Verdict(more, s) == Some(FailLevel);
    }
  }

  ghost predicate WarnsOnMore(less: Policy, more: Policy) {
    less.failOn == more.failOn && forall c, v :: Lists(less.warnOn, c, v) ==> Lists(more.warnOn, c, v)
  }

  /** Enlarging `warn_on` never lifts a quality failure... */
  lemma WarningNeverLiftsFailure(a: ProjectAssessment, r: Option<Summary>, less: Policy, more: Policy)
    requires WarnsOnMore(less, more) && Gate(a, r, less).exitCode == 1
    ensures Gate(a, r, more).exitCode == 1
  {
    ExitCodeMeans(a, r, less);
    ExitCodeMeans(a, r, more);
    FailureStays(a, r, less, more);
    ResolvedStays(a, less, more);
  }

  lemma FailureStays(a: ProjectAssessment, r: Option<Summary>, less: Policy, more: Policy)
    requires less.failOn == more.failOn
    ensures Failing(a, r, less) <==> Failing(a, r, more)
  {
    forall s: Signal ensures Verdict(less, s) == Some(FailLevel) <==> Verdict(more, s) == Some(FailLevel) {
    }
  }

  lemma ResolvedStays(a: ProjectAssessment, less: Policy, more: Policy)
    requires WarnsOnMore(less, more)
    ensures Unresolved(a, more) ==> Unresolved(a, less)
  {
    if s :| s in InfraSignals(a) && Verdict(more, s).None? {
      assert !Lists(more.warnOn, s.category, s.value);
      assert Verdict(less, s).None?;
    }
  }

  /** ...and it turns a non-zero exit code into 0 exactly when all that was wrong was an unreachable
      target, about which the policy was silent before and is not any more. */
  lemma WarningLiftsExactly(a: ProjectAssessment, r: Option<Summary>, less: Policy, more: Policy)
    requires WarnsOnMore(less, more)
    ensures Gate(a, r, less).exitCode != 0 && Gate(a, r, more).exitCode == 0 <==>
            Unresolved(a, less) && !Unresolved(a, more) && !Failing(a, r, less)
  {
    ExitCodeMeans(a, r, less);
    ExitCodeMeans(a, r, more);
    FailureStays(a, r, less, more);
  }

  /** So it can lift an execution error: naming "unreachable" in `warn_on` turns the exit code
      of an unreachable target from 3 into 0. */
  lemma WarningLiftsError(a: ProjectAssessment, p: Policy)
    requires a.categories == [AssessmentCategory("Performance", FAIL)] && a.overallStatus == FAIL
    requires p == DEFAULT_POLICY.(warnOn := DEFAULT_POLICY.warnOn["performance" := ["unreachable"]])
    ensures Gate(a, None, DEFAULT_POLICY).exitCode == 3 && Gate(a, None, p).exitCode == 0
  {
    OnlyPerformance(a);
    assert a.categories[0] == AssessmentCategory("Performance", FAIL) && FirstIs(a.categories, "Performance", FAIL);
    DefaultGateExactly(a, None);
    WarnedUnreachable(p, OverallSignal(a));
    ExitCodeMeans(a, None, p);
  }

  lemma WarnedUnreachable(p: Policy, s: Signal)
    requires p == DEFAULT_POLICY.(warnOn := DEFAULT_POLICY.warnOn["performance" := ["unreachable"]])
    requires s.category == "assessment"
    ensures Verdict(p, PERFORMANCE_UNREACHABLE) == Some(WarningLevel) && Verdict(p, s).None?
  {
  }

  lemma OnlyPerformance(a: ProjectAssessment)
    requires a.categories == [AssessmentCategory("Performance", FAIL)]
    ensures InfraSignals(a) == [PERFORMANCE_UNREACHABLE] && QualitySignals(a, None) == [OverallSignal(a)]
  {
    assert a.categories[1..] == [];
    assert StatusOf(a.categories, "Functional Health").None? && StatusOf(a.categories, "Database Health").None?;
  }

  // ---------------------------------------------------------------- what the signals are

  /** The first category of this name has this status. */
  ghost predicate FirstIs(categories: seq<AssessmentCategory>, name: string, status: AssessmentStatus) {
    exists i :: 0 <= i < |categories| && categories[i] == AssessmentCategory(name, status) &&
      forall j :: 0 <= j < i ==> categories[j].name != name
  }

  lemma {:induction false} StatusOfIsFirst(categories: seq<AssessmentCategory>, name: string, status: AssessmentStatus)
    ensures StatusOf(categories, name) == Some(status) <==> FirstIs(categories, name, status)
  {
    if |categories| > 0 {
      var rest := categories[1..];
      StatusOfIsFirst(rest, name, status);
      if categories[0].name != name {
        if i :| 0 <= i < |rest| && rest[i] == AssessmentCategory(name, status) && forall j :: 0 <= j < i ==> rest[j].name != name {
          assert categories[i + 1] == AssessmentCategory(name, status);
          assert forall j :: 0 <= j < i + 1 ==> categories[j] == if j == 0 then categories[0] else rest[j - 1];
        }
        if i :| 0 <= i < |categories| && categories[i] == AssessmentCategory(name, status) && forall j :: 0 <= j < i ==> categories[j].name != name {
          assert rest[i - 1] == AssessmentCategory(name, status);
          assert forall j :: 0 <= j < i - 1 ==> rest[j] == categories[j + 1];
        }
      }
    }
  }

  /** The first category of this name holds a finding. */
  ghost predicate FirstReports(categories: seq<Category>, name: string) {
    exists i :: 0 <= i < |categories| && categories[i].name == name && categories[i].findings != [] &&
      forall j :: 0 <= j < i ==> categories[j].name != name
  }

  lemma {:induction false} HasFindingsIsFirst(categories: seq<Category>, name: string)
    ensures HasFindings(categories, name) <==> FirstReports(categories, name)
  {
    if |categories| > 0 {
      var rest := categories[1..];
      HasFindingsIsFirst(rest, name);
      if categories[0].name != name {
        if i :| 0 <= i < |rest| && rest[i].name == name && rest[i].findings != [] && forall j :: 0 <= j < i ==> rest[j].name != name {
          assert categories[i + 1].name == name;
          assert forall j :: 0 <= j < i + 1 ==> categories[j] == if j == 0 then categories[0] else rest[j - 1];
        }
        if i :| 0 <= i < |categories| && categories[i].name == name && categories[i].findings != [] && forall j :: 0 <= j < i ==> categories[j].name != name {
          assert rest[i - 1].name == name;
          assert forall j :: 0 <= j < i - 1 ==> rest[j] == categories[j + 1];
        }
      }
    }
  }

  /** Some category of the comparison reports the finding. */
  ghost predicate Reports(r: Option<Summary>, f: Finding) {
    r.Some? && exists i :: 0 <= i < |r.value.categories| && f in r.value.categories[i].findings
  }

  /** The signal of a target that could not be reached. */
  ghost predicate IsUnreachable(a: ProjectAssessment, s: Signal) {
    (s == Signal("functional", "unreachable", None) && FirstIs(a.categories, "Functional Health", FAIL)) ||
    (s == Signal("performance", "unreachable", None) && FirstIs(a.categories, "Performance", FAIL))
  }

  /** A signal of the assessment's categories. */
  ghost predicate IsAssessed(a: ProjectAssessment, s: Signal) {
    (s == Signal("functional", "failure", None) && FirstIs(a.categories, "Functional Health", WARNING)) ||
    (s == Signal("performance", "threshold", None) && FirstIs(a.categories, "Performance", WARNING)) ||
    (s == Signal("database", "not_assessed", None) && FirstIs(a.categories, "Database Health", NOT_ASSESSED)) ||
    s == Signal("assessment", StatusText(a.overallStatus), None)
  }

  /** A signal of the comparison. */
  ghost predicate IsCompared(r: Option<Summary>, s: Signal) {
    (exists f :: Reports(r, f) && s == Signal("regression", SeverityText(f.severity), Some(f.id))) ||
    (r.Some? && s == Signal("database", "schema_change", None) && FirstReports(r.value.categories, "Database")) ||
    (r.Some? && s == Signal("discovery", "change", None) && FirstReports(r.value.categories, "Discovery"))
  }

  lemma InfraSignalsAre(a: ProjectAssessment, s: Signal)
    ensures s in InfraSignals(a) <==> IsUnreachable(a, s)
  {
    StatusOfIsFirst(a.categories, "Functional Health", FAIL);
    StatusOfIsFirst(a.categories, "Performance", FAIL);
  }

  lemma AssessmentSignalsAre(a: ProjectAssessment, s: Signal)
    ensures s in AssessmentSignals(a) + [OverallSignal(a)] <==> IsAssessed(a, s)
  {
    StatusOfIsFirst(a.categories, "Functional Health", WARNING);
    StatusOfIsFirst(a.categories, "Performance", WARNING);
    StatusOfIsFirst(a.categories, "Database Health", NOT_ASSESSED);
  }

  lemma {:induction false} FindingSignalsAre(findings: seq<Finding>, s: Signal)
    ensures s in FindingSignals(findings) <==> exists f :: f in findings && s == Signal("regression", SeverityText(f.severity), Some(f.id))
  {
    if |findings| > 0 {
      FindingSignalsAre(findings[..|findings| - 1], s);
      assert forall f :: f in findings <==> f in findings[..|findings| - 1] || f == findings[|findings| - 1];
    }
  }

  lemma RegressionSignalsAre(r: Option<Summary>, s: Signal)
    ensures s in RegressionSignals(r) <==> IsCompared(r, s)
  {
    if r.Some? {
      FindingSignalsAre(FindingsIn(r.value.categories), s);
      forall f ensures f in FindingsIn(r.value.categories) <==> Reports(r, f) {
        FindingsInAll(r.value.categories, f);
      }
      HasFindingsIsFirst(r.value.categories, "Database");
      HasFindingsIsFirst(r.value.categories, "Discovery");
    }
  }

  /** From categories and findings to signals: exactly these are seen, under any policy. */
  lemma SignalsAre(a: ProjectAssessment, r: Option<Summary>, s: Signal)
    ensures s in InfraSignals(a) <==> IsUnreachable(a, s)
    ensures s in AllSignals(a, r) <==> IsUnreachable(a, s) || IsAssessed(a, s) || IsCompared(r, s)
  {
    InfraSignalsAre(a, s);
    AssessmentSignalsAre(a, s);
    RegressionSignalsAre(r, s);
  }

  // ---------------------------------------------------------------- the default policy

  ghost predicate SomeUnreachable(a: ProjectAssessment) {
    FirstIs(a.categories, "Functional Health", FAIL) || FirstIs(a.categories, "Performance", FAIL)
  }

  ghost predicate FindsSeverity(r: Option<Summary>, severities: set<Severity>) {
    exists f :: Reports(r, f) && f.severity in severities
  }

  /** What the default policy fails on. */
  ghost predicate Fails(a: ProjectAssessment, r: Option<Summary>) {
    FirstIs(a.categories, "Functional Health", WARNING) || FirstIs(a.categories, "Performance", WARNING) ||
    FindsSeverity(r, {CRITICAL, HIGH})
  }

  /** What it warns about. */
  ghost predicate Warns(r: Option<Summary>) {
    FindsSeverity(r, {MEDIUM}) ||
    (r.Some? && (FirstReports(r.value.categories, "Database") || FirstReports(r.value.categories, "Discovery")))
  }

  lemma DefaultVerdicts(s: Signal)
    ensures Verdict(DEFAULT_POLICY, s) ==
            if s.category == "regression" && s.value in {"critical", "high"} then Some(FailLevel)
            else if s.category == "functional" && s.value == "failure" then Some(FailLevel)
            else if s.category == "performance" && s.value == "threshold" then Some(FailLevel)
            else if s.category == "regression" && s.value == "medium" then Some(WarningLevel)
            else if s.category == "database" && s.value == "schema_change" then Some(WarningLevel)
            else if s.category == "discovery" && s.value == "change" then Some(WarningLevel)
            else None
  {
  }

  lemma SeverityLevel(f: Finding)
    ensures Verdict(DEFAULT_POLICY, Signal("regression", SeverityText(f.severity), Some(f.id))) ==
            if f.severity in {CRITICAL, HIGH} then Some(FailLevel) else if f.severity == MEDIUM then Some(WarningLevel) else None
  {
    DefaultVerdicts(Signal("regression", SeverityText(f.severity), Some(f.id)));
  }

  lemma UnresolvedByDefault(a: ProjectAssessment)
    ensures Unresolved(a, DEFAULT_POLICY) <==> SomeUnreachable(a)
  {
    var functional, performance := Signal("functional", "unreachable", None), Signal("performance", "unreachable", None);
    forall s ensures s in InfraSignals(a) <==> IsUnreachable(a, s) {
      InfraSignalsAre(a, s);
    }
    DefaultVerdicts(functional);
    DefaultVerdicts(performance);
    assert FirstIs(a.categories, "Functional Health", FAIL) ==> functional in InfraSignals(a);
    assert FirstIs(a.categories, "Performance", FAIL) ==> performance in InfraSignals(a);
  }

  lemma FailsBySignal(a: ProjectAssessment, r: Option<Summary>, s: Signal)
    requires s in AllSignals(a, r)
    ensures Verdict(DEFAULT_POLICY, s) == Some(FailLevel) ==> Fails(a, r)
    ensures Verdict(DEFAULT_POLICY, s) == Some(WarningLevel) ==> Warns(r)
  {
    SignalsAre(a, r, s);
    DefaultVerdicts(s);
    if f :| Reports(r, f) && s == Signal("regression", SeverityText(f.severity), Some(f.id)) {
      SeverityLevel(f);
    }
  }

  lemma SignalOfFinding(a: ProjectAssessment, r: Option<Summary>, f: Finding)
    requires Reports(r, f)
    ensures Signal("regression", SeverityText(f.severity), Some(f.id)) in AllSignals(a, r)
  {
    SignalsAre(a, r, Signal("regression", SeverityText(f.severity), Some(f.id)));
  }

  lemma FailsByDefault(a: ProjectAssessment, r: Option<Summary>)
    ensures SomeVerdict(a, r, DEFAULT_POLICY, FailLevel) <==> Fails(a, r)
  {
    if s :| s in AllSignals(a, r) && Verdict(DEFAULT_POLICY, s) == Some(FailLevel) {
      FailsBySignal(a, r, s);
    }
    var functional, performance := Signal("functional", "failure", None), Signal("performance", "threshold", None);
    SignalsAre(a, r, functional);
    SignalsAre(a, r, performance);
    DefaultVerdicts(functional);
    DefaultVerdicts(performance);
    if f :| Reports(r, f) && f.severity in {CRITICAL, HIGH} {
      SignalOfFinding(a, r, f);
      SeverityLevel(f);
    }
  }

  lemma WarnsByDefault(a: ProjectAssessment, r: Option<Summary>)
    ensures SomeVerdict(a, r, DEFAULT_POLICY, WarningLevel) <==> Warns(r)
  {
    if s :| s in AllSignals(a, r) && Verdict(DEFAULT_POLICY, s) == Some(WarningLevel) {
      FailsBySignal(a, r, s);
    }
    var schema, discovery := Signal("database", "schema_change", None), Signal("discovery", "change", None);
    SignalsAre(a, r, schema);
    SignalsAre(a, r, discovery);
    DefaultVerdicts(schema);
    DefaultVerdicts(discovery);
    if f :| Reports(r, f) && f.severity == MEDIUM {
      SignalOfFinding(a, r, f);
      SeverityLevel(f);
    }
  }

  lemma StatusByVerdicts(a: ProjectAssessment, r: Option<Summary>, p: Policy)
    ensures Gate(a, r, p).status ==
            if Unresolved(a, p) then GateError
            else if SomeVerdict(a, r, p, FailLevel) then GateFail
            else if SomeVerdict(a, r, p, WarningLevel) then GateWarning
            else GatePass
  {
    UnresolvedExactly(a, p);
    LevelExactly(a, r, p, FailLevel);
    LevelExactly(a, r, p, WarningLevel);
  }

  /** The default policy, from categories and findings to the exit code: 3 exactly when the
      functional or the performance target was unreachable; otherwise 1 exactly when one of the two
      has a warning or something regressed with HIGH or CRITICAL severity; otherwise 0, with a
      warning exactly for a MEDIUM finding and for database and discovery changes. */
  lemma DefaultGateExactly(a: ProjectAssessment, r: Option<Summary>)
    ensures var g := Gate(a, r, DEFAULT_POLICY);
            if SomeUnreachable(a) then g.status == GateError && g.exitCode == 3
            else if Fails(a, r) then g.status == GateFail && g.exitCode == 1
            else g.status == (if Warns(r) then GateWarning else GatePass) && g.exitCode == 0
  {
    StatusByVerdicts(a, r, DEFAULT_POLICY);
    UnresolvedByDefault(a);
    FailsByDefault(a, r);
    WarnsByDefault(a, r);
  }

  /** End to end: under the default policy a test that went from passed to failed or error blocks
      the build, whatever else happened: exit code 3 when a target was unreachable, 1 otherwise. */
  lemma RegressedTestBlocks(a: ProjectAssessment, baseline: Baseline.BaselineSnapshot, current: Baseline.BaselineSnapshot,
                            tolerances: map<string, real>, others: seq<Category>, id: string)
    requires TestRegressedIn(baseline, current, id)
    ensures Gate(a, Some(Compare(baseline, current, tolerances, others)), DEFAULT_POLICY).exitCode ==
            if SomeUnreachable(a) then 3 else 1
  {
    RegressedTestIsFound(baseline, current, tolerances, others, id);
    HighFindingBlocks(a, Compare(baseline, current, tolerances, others), Finding(TestRegressed(id), REGRESSED, HIGH));
  }

  /** The same for a performance metric that got worse beyond its tolerance. */
  lemma RegressedMetricBlocks(a: ProjectAssessment, baseline: Baseline.BaselineSnapshot, current: Baseline.BaselineSnapshot,
                              tolerances: map<string, real>, others: seq<Category>, metric: string, n: int)
    requires MetricRegressedAt(baseline, current, tolerances, metric, n)
    ensures Gate(a, Some(Compare(baseline, current, tolerances, others)), DEFAULT_POLICY).exitCode ==
            if SomeUnreachable(a) then 3 else 1
  {
    RegressedMetricIsFound(baseline, current, tolerances, others, metric, n);
    HighFindingBlocks(a, Compare(baseline, current, tolerances, others), Finding(MetricRegressed(metric, n), REGRESSED, HIGH));
  }

  lemma HighFindingBlocks(a: ProjectAssessment, summary: Summary, f: Finding)
    requires f in FindingsIn(summary.categories) && f.severity in {CRITICAL, HIGH}
    ensures Gate(a, Some(summary), DEFAULT_POLICY).exitCode == if SomeUnreachable(a) then 3 else 1
  {
    FindingsInAll(summary.categories, f);
    assert Reports(Some(summary), f);
    DefaultGateExactly(a, Some(summary));
  }

  /** Samples to exit code: when the Performance category is what `assess_performance` makes of the
      samples, the default policy gives exit code 3 exactly when requests were made and all of them
      failed in transport, or the functional target was unreachable. */
  lemma UnreachableTargetErrors(a: ProjectAssessment, r: Option<Summary>, levels: seq<PerformanceMetrics.Level>,
                                samples: seq<seq<PerformanceMetrics.Sample>>)
    requires PerformanceMetrics.Measured(levels, samples)
    requires FirstIs(a.categories, "Performance", PerformanceMetrics.Escalated(PerformanceMetrics.HealthOf(levels), PerformanceMetrics.Breaches(levels)))
    ensures Gate(a, r, DEFAULT_POLICY).exitCode == 3 <==>
            AllFailed(PerformanceMetrics.Flatten(samples)) || FirstIs(a.categories, "Functional Health", FAIL)
  {
    var status := PerformanceMetrics.Escalated(PerformanceMetrics.HealthOf(levels), PerformanceMetrics.Breaches(levels));
    PerformanceMetrics.FailMeansUnreachable(levels, samples);
    StatusOfIsFirst(a.categories, "Performance", status);
    StatusOfIsFirst(a.categories, "Performance", FAIL);
    DefaultGateExactly(a, r);
  }

  ghost predicate AllFailed(samples: seq<PerformanceMetrics.Sample>) {
    samples != [] && forall s :: s in samples ==> PerformanceMetrics.TransportFailure(s)
  }

  lemma NoFindingsAnywhere(r: Option<Summary>, f: Finding)
    requires r.Some? ==> FindingsIn(r.value.categories) == []
    ensures !Reports(r, f)
  {
    if r.Some? {
      FindingsInAll(r.value.categories, f);
    }
  }

  /** Under the default policy a run whose categories are all PASS, UNKNOWN or NOT_ASSESSED and
      which has no regression finding passes without even a warning. */
  lemma QuietRunPasses(a: ProjectAssessment, r: Option<Summary>)
    requires forall c :: c in a.categories ==> c.status in {PASS, UNKNOWN, NOT_ASSESSED}
    requires r.Some? ==> FindingsIn(r.value.categories) == []
    ensures Gate(a, r, DEFAULT_POLICY) == GateResult(GatePass, 0, [])
  {
    forall f ensures !Reports(r, f) {
      NoFindingsAnywhere(r, f);
    }
    assert !Warns(r) by {
      if r.Some? {
        NothingReported(r.value.categories, "Database");
        NothingReported(r.value.categories, "Discovery");
      }
    }
    assert !SomeUnreachable(a) && !Fails(a, r);
    DefaultGateExactly(a, r);
    var findings := Gate(a, r, DEFAULT_POLICY).findings;
    if findings != [] {
      var level := findings[0].level;
      assert findings[0] in findings;
      LevelExactly(a, r, DEFAULT_POLICY, level);
      FailsByDefault(a, r);
      WarnsByDefault(a, r);
    }
  }

  lemma NothingReported(categories: seq<Category>, name: string)
    requires FindingsIn(categories) == []
    ensures !FirstReports(categories, name)
  {
    if i :| 0 <= i < |categories| && categories[i].findings != [] {
      FindingsInAll(categories, categories[i].findings[0]);
    }
  }
}
