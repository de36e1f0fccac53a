/** `adapters/browser/scenario_runner.py`: the steps of a scenario, one after the other, under a
    budget that is cut into step budgets. */
module ScenarioRunner {
  import opened Values
  import opened Counting
  import opened BrowserExecutor

  const DEFAULT_SCENARIO_TIMEOUT_SECONDS := 120.0
  const MAX_SCENARIO_TIMEOUT_SECONDS := 1800.0
  const MIN_STEP_TIMEOUT_SECONDS := 0.05

  datatype StepStatus = StepPassed | StepFailed | StepError | StepSkipped

  datatype StepResult = StepResult(id: string, status: StepStatus)

  datatype ScenarioStatus = ScenarioPass | ScenarioFail | ScenarioError | NotAssessed

  datatype ScenarioResult = ScenarioResult(status: ScenarioStatus, steps: seq<StepResult>)

  /** A step with the TestCase synthesized for it; `valueEnv` names a secret to read. */
  datatype ScenarioStep = ScenarioStep(id: string, testCase: TestCase, timeout: Option<real>, valueEnv: Option<string>)

  datatype Scenario = Scenario(steps: seq<ScenarioStep>, timeout: Option<real>)

  /** Outcome of one TestCase (`core/models/enums.py`), as far as the test engine produces it. */
  datatype ResultStatus = PASSED | FAILED | ERROR | UNKNOWN

  function OrDefault(given: Option<real>, default: real): real {
    if given.Some? && given.value != 0.0 then given.value else default
  }

  function ScenarioTimeout(s: Scenario): real {
    Max(1.0, Min(OrDefault(s.timeout, DEFAULT_SCENARIO_TIMEOUT_SECONDS), MAX_SCENARIO_TIMEOUT_SECONDS))
  }

  /** The time a scenario gets: what it asks for, within 1 and 1800 seconds, and 120 when it does not
      ask. */
  lemma ScenarioTimeoutIs(s: Scenario)
    ensures 1.0 <= ScenarioTimeout(s) <= 1800.0
    ensures s.timeout.None? || s.timeout.value == 0.0 ==> ScenarioTimeout(s) == 120.0
    ensures s.timeout.Some? && s.timeout.value != 0.0 ==>
              (1.0 <= s.timeout.value <= 1800.0 ==> ScenarioTimeout(s) == s.timeout.value) &&
              (s.timeout.value > 1800.0 ==> ScenarioTimeout(s) == 1800.0) &&
              (s.timeout.value < 1.0 ==> ScenarioTimeout(s) == 1.0)
  {
  }

  /** The budget of one step: its cap or what is left of the scenario, but at least 0.05 s. */
  function StepBudget(cap: real, remaining: real): real {
    Max(MIN_STEP_TIMEOUT_SECONDS, Min(cap, remaining))
  }

  /** A step is given more time than the scenario has left exactly when less than the floor is
      left; the excess stays below the floor and can come as close to it as one likes. */
  lemma BudgetOverrun(cap: real, remaining: real, gap: real)
    requires remaining > 0.0 && 0.0 < gap < MIN_STEP_TIMEOUT_SECONDS
    ensures StepBudget(cap, remaining) <= remaining <==> remaining >= MIN_STEP_TIMEOUT_SECONDS
    ensures StepBudget(cap, remaining) < remaining + MIN_STEP_TIMEOUT_SECONDS
    ensures StepBudget(cap, gap / 2.0) > gap / 2.0 + MIN_STEP_TIMEOUT_SECONDS - gap
  {
  }

  function OverallStatus(steps: seq<StepResult>): ScenarioStatus {
    if exists i :: 0 <= i < |steps| && steps[i].status == StepError then ScenarioError
    else if exists i :: 0 <= i < |steps| && steps[i].status == StepFailed then ScenarioFail
    else ScenarioPass
  }

  /** passed*, then at most one failed or error at position `k`, then only skipped. */
  ghost predicate StopsAt(results: seq<StepResult>, k: nat) {
    k <= |results| &&
    (forall i :: 0 <= i < k ==> results[i].status == StepPassed) &&
    (k < |results| ==> results[k].status in {StepFailed, StepError}) &&
    (forall i :: k < i < |results| ==> results[i].status == StepSkipped)
  }

  predicate HasPassed(r: StepResult) { r.status == StepPassed }

  predicate WasSkipped(r: StepResult) { r.status == StepSkipped }

  /** What the shape of the results says about the verdict... */
  lemma VerdictOfShape(results: seq<StepResult>, k: nat)
    requires StopsAt(results, k)
    ensures OverallStatus(results) == ScenarioPass <==> forall r :: r in results ==> r.status == StepPassed
    ensures k < |results| ==> OverallStatus(results) == if results[k].status == StepError then ScenarioError else ScenarioFail
  {
    if k < |results| {
      assert results[k] in results;
    }
  }

  /** ...and about `passed_steps` and `skipped_steps`. */
  lemma CountsOfShape(results: seq<StepResult>, k: nat)
    requires StopsAt(results, k)
    ensures Count(results, HasPassed) == k
    ensures Count(results, WasSkipped) == if k < |results| then |results| - k - 1 else 0
  {
    if k < |results| {
      assert results == results[..k] + ([results[k]] + results[k + 1..]);
      CountsOfParts(results[..k], results[k], results[k + 1..]);
    } else {
      CountsOfPassed(results);
    }
  }

  lemma CountsOfPassed(head: seq<StepResult>)
    requires forall r :: r in head ==> r.status == StepPassed
    ensures Count(head, HasPassed) == |head| && Count(head, WasSkipped) == 0
  {
    CountAll(head, HasPassed);
    CountNone(head, WasSkipped);
  }

  lemma CountsOfSkipped(tail: seq<StepResult>)
    requires forall r :: r in tail ==> r.status == StepSkipped
    ensures Count(tail, HasPassed) == 0 && Count(tail, WasSkipped) == |tail|
  {
    CountNone(tail, HasPassed);
    CountAll(tail, WasSkipped);
  }

  lemma CountsOfParts(head: seq<StepResult>, stop: StepResult, tail: seq<StepResult>)
    requires forall r :: r in head ==> r.status == StepPassed
    requires stop.status in {StepFailed, StepError} && forall r :: r in tail ==> r.status == StepSkipped
    ensures Count(head + ([stop] + tail), HasPassed) == |head|
    ensures Count(head + ([stop] + tail), WasSkipped) == |tail|
  {
    CountsOfPassed(head);
    CountsOfSkipped(tail);
    var p, q := HasPassed, WasSkipped;
    CountAround(head, stop, tail, p);
    CountAround(head, stop, tail, q);
    assert !p(stop) && !q(stop);
  }

  lemma CountAround(head: seq<StepResult>, stop: StepResult, tail: seq<StepResult>, p: StepResult -> bool)
    ensures Count(head + ([stop] + tail), p) == Count(head, p) + (if p(stop) then 1 else 0) + Count(tail, p)
  {
    CountConcat(head, [stop] + tail, p);
    assert ([stop] + tail)[1..] == tail;
  }

  /** `TestEngine.run`: an executor error is ERROR; without assertions the result is UNKNOWN; and
      otherwise it is PASSED when every assertion holds, each of which may turn out either way. */
  method RunTestCase(session: Session, testCase: TestCase) returns (status: ResultStatus, ghost execution: Execution, ghost verdicts: seq<bool>)
    requires session.Valid() && (testCase.timeoutOverride.Some? ==> testCase.timeoutOverride.value > 0.0)
    modifies session
    ensures session.executed == old(session.executed) + [Started(testCase.id, old(session.now), session.Budget(testCase))]
    ensures old(session.now) <= session.now <= old(session.now) + session.Budget(testCase) + if session.takesScreenshots then 1.0 else 0.0
    ensures old(session.performed) <= session.performed
    ensures execution.Context? ==> session.performed == old(session.performed) + testCase.steps && |verdicts| == |testCase.assertions|
    ensures status == ERROR <==> execution.Raised?
    ensures status == UNKNOWN <==> execution.Context? && testCase.assertions == []
    ensures status == PASSED <==> execution.Context? && testCase.assertions != [] && false !in verdicts
    ensures status == FAILED <==> execution.Context? && false in verdicts
  {
    verdicts := [];
    ghost var passed, answers, shot;
    var outcome;
    outcome, passed, answers, shot := session.Execute(testCase);
    execution := outcome;
    assert passed == |testCase.steps| ==> testCase.steps[..passed] == testCase.steps;
    if outcome.Raised? {
      return ERROR, execution, verdicts;
    }
    var results := EvaluateAll(testCase.assertions);
    verdicts := results;
    if testCase.assertions == [] {
      return UNKNOWN, execution, verdicts;
    }
    status := if false !in results then PASSED else FAILED;
  }

  method EvaluateAll(assertions: seq<Assertion>) returns (results: seq<bool>)
    ensures |results| == |assertions|
  {
    results := [];
    while |results| < |assertions|
      invariant |results| <= |assertions|
    {
      var passed: bool := *;
      results := results + [passed];
    }
  }

  function StatusOfStep(status: ResultStatus): StepStatus {
    match status
    case FAILED => StepFailed
    case ERROR => StepError
    case _ => StepPassed
  }

  /** What an answer of the test engine makes of a step. */
  ghost predicate Records(answer: ResultStatus, status: StepStatus) {
    (status == StepFailed <==> answer == FAILED) && (status == StepError <==> answer == ERROR) &&
    (status == StepPassed <==> answer in {PASSED, UNKNOWN})
  }

  /** How a browser session opens. */
  datatype Launch = Opened(session: Session) | Unavailable | BadTarget

  /** Neither more than the step's own timeout nor more than the scenario has left, but as much as
      that allows, and always the floor of 0.05 s. */
  ghost predicate Fair(budget: real, cap: real, remaining: real) {
    budget >= 0.05 && (budget <= cap || budget == 0.05) && (budget <= remaining || budget == 0.05) &&
    (budget >= cap || budget >= remaining)
  }

  /** The step that was started: under the scenario's deadline, with its own budget. */
  ghost predicate StartedAs(step: ScenarioStep, started: Started, actionTimeout: real, deadline: real) {
    started.id == step.testCase.id && started.at < deadline &&
    match step.timeout
    case Some(own) => Fair(started.budget, if own == 0.0 then actionTimeout else own, deadline - started.at)
    case None => Fair(started.budget, actionTimeout, deadline - started.at)
  }

  /** Every started step was over, screenshot included, within its own budget: before the next one
      started, and the last one before `end`. */
  ghost predicate Paced(log: seq<Started>, end: real, screenshots: bool) {
    forall i :: 0 <= i < |log| ==> EndedBy(log[i], EndAt(log, i, end), screenshots)
  }

  /** When the step at position `i` of the log was over. */
  function EndAt(log: seq<Started>, i: nat, end: real): real
    requires i < |log|
  {
    if i + 1 < |log| then log[i + 1].at else end
  }

  ghost predicate EndedBy(started: Started, end: real, screenshots: bool) {
    started.at <= end <= started.at + started.budget + if screenshots then 1.0 else 0.0
  }

  lemma PacedMore(log: seq<Started>, next: Started, end: real, screenshots: bool)
    requires Paced(log, next.at, screenshots) && EndedBy(next, end, screenshots)
    ensures Paced(log + [next], end, screenshots)
  {
    var longer := log + [next];
    forall i | 0 <= i < |longer| ensures EndedBy(longer[i], EndAt(longer, i, end), screenshots) {
      if i < |log| {
        assert EndedBy(log[i], EndAt(log, i, next.at), screenshots);
      }
    }
  }

  /** What the test engine answered to the started steps is what became of them. */
  ghost predicate AllRecorded(answers: seq<ResultStatus>, results: seq<StepResult>) {
    |answers| <= |results| && forall i :: 0 <= i < |answers| ==> Records(answers[i], results[i].status)
  }

  /** The scenario passes exactly when every step reached the engine and none was answered FAILED or
      ERROR, and fails exactly when one was answered FAILED. */
  ghost predicate Decides(status: ScenarioStatus, answers: seq<ResultStatus>, steps: nat) {
    (status == ScenarioPass <==> |answers| == steps && FAILED !in answers && ERROR !in answers) &&
    (status == ScenarioFail <==> FAILED in answers)
  }

  lemma AnswersDecide(results: seq<StepResult>, k: nat, answers: seq<ResultStatus>)
    requires StopsAt(results, k) && AllRecorded(answers, results) && k <= |answers| <= k + 1
    requires k == |answers| < |results| ==> results[k].status == StepError
    ensures Decides(OverallStatus(results), answers, |results|)
  {
    VerdictOfShape(results, k);
    forall i | 0 <= i < |answers| && i < k ensures answers[i] in {PASSED, UNKNOWN} {
      assert Records(answers[i], results[i].status);
    }
    if k < |answers| {
      assert Records(answers[k], results[k].status);
      assert answers[k] in answers;
    }
  }

  /** The executor got the first steps of the scenario, in order. */
  ghost predicate Follows(log: seq<Started>, steps: seq<ScenarioStep>, actionTimeout: real, deadline: real) {
    |log| <= |steps| && forall i :: 0 <= i < |log| ==> StartedAs(steps[i], log[i], actionTimeout, deadline)
  }

  /** The browser actions of the steps, in order. */
  function Actions(steps: seq<ScenarioStep>): seq<BrowserStep> {
    if |steps| == 0 then [] else Actions(steps[..|steps| - 1]) + steps[|steps| - 1].testCase.steps
  }

  /** One result per step, in order; a step without assertions can end in an error but never as
      failed. */
  ghost predicate Matches(steps: seq<ScenarioStep>, results: seq<StepResult>) {
    |results| <= |steps| && forall i :: 0 <= i < |results| ==> Fits(steps[i], results[i])
  }

  predicate Fits(step: ScenarioStep, result: StepResult) {
    result.id == step.id && (step.testCase.assertions == [] ==> result.status != StepFailed)
  }

  /** The results so far: they match the steps, stop at `k`, and record what the test engine answered
      to the steps that reached it; a stop without an answer is an error. */
  ghost predicate Ran(steps: seq<ScenarioStep>, results: seq<StepResult>, k: nat, answers: seq<ResultStatus>) {
    Matches(steps, results) && StopsAt(results, k) && AllRecorded(answers, results) && k <= |answers| <= k + 1 &&
    (k == |answers| < |results| ==> results[k].status == StepError)
  }

  lemma RanSkips(steps: seq<ScenarioStep>, results: seq<StepResult>, k: nat, answers: seq<ResultStatus>, r: StepResult)
    requires Ran(steps, results, k, answers) && k < |results| < |steps|
    requires Fits(steps[|results|], r) && r.status == StepSkipped
    ensures Ran(steps, results + [r], k, answers)
  {
  }

  lemma RanLate(steps: seq<ScenarioStep>, results: seq<StepResult>, k: nat, answers: seq<ResultStatus>, r: StepResult)
    requires Ran(steps, results, k, answers) && k == |answers| == |results| < |steps|
    requires Fits(steps[|results|], r) && r.status == StepError
    ensures Ran(steps, results + [r], k, answers)
  {
  }

  lemma RanStep(steps: seq<ScenarioStep>, results: seq<StepResult>, k: nat, answers: seq<ResultStatus>, r: StepResult, answer: ResultStatus)
    requires Ran(steps, results, k, answers) && k == |answers| == |results| < |steps|
    requires Fits(steps[|results|], r) && Records(answer, r.status)
    ensures Ran(steps, results + [r], if r.status == StepPassed then k + 1 else k, answers + [answer])
  {
  }

  /** The instant by which a scenario whose clock started at `started` is over, unless opening the
      browser alone took longer. */
  function TimeLimit(started: real, s: Scenario, screenshots: bool): real {
    started + ScenarioTimeout(s) + MIN_STEP_TIMEOUT_SECONDS + if screenshots then 1.0 else 0.0
  }

  /** The browser performed the actions of the first `k` steps, in order, and nothing else as long
      as the scenario was not stopped by the next one. */
  ghost predicate Performed(before: seq<BrowserStep>, steps: seq<ScenarioStep>, k: nat, now: seq<BrowserStep>, stopped: bool)
    requires k <= |steps|
  {
    before + Actions(steps[..k]) <= now && (!stopped ==> now == before + Actions(steps[..k]))
  }

  lemma PerformedMore(before: seq<BrowserStep>, steps: seq<ScenarioStep>, k: nat, was: seq<BrowserStep>, now: seq<BrowserStep>, passed: bool)
    requires k < |steps| && Performed(before, steps, k, was, false) && was <= now
    requires passed ==> now == was + steps[k].testCase.steps
    ensures if passed then Performed(before, steps, k + 1, now, false) else Performed(before, steps, k, now, true)
  {
    assert steps[..k + 1][..k] == steps[..k];
    assert before + (Actions(steps[..k]) + steps[k].testCase.steps) == before + Actions(steps[..k]) + steps[k].testCase.steps;
  }

  lemma StillFollows(log: seq<Started>, next: Started, steps: seq<ScenarioStep>, actionTimeout: real, deadline: real)
    requires Follows(log, steps, actionTimeout, deadline) && |log| < |steps|
    requires StartedAs(steps[|log|], next, actionTimeout, deadline)
    ensures Follows(log + [next], steps, actionTimeout, deadline)
  {
  }

  /** One step that is not skipped: its budget, its TestCase and its result. */
  method RunOne(step: ScenarioStep, session: Session, actionTimeout: real, deadline: real)
    returns (result: StepResult, ghost started: Started, ghost answer: ResultStatus)
    requires session.Valid() && actionTimeout >= 1.0 && session.now < deadline
    modifies session
    ensures result.id == step.id && Records(answer, result.status)
    ensures if step.testCase.assertions == [] then answer in {ERROR, UNKNOWN} else answer != UNKNOWN
    ensures StartedAs(step, started, actionTimeout, deadline) && started.at == old(session.now)
    ensures session.executed == old(session.executed) + [started] && EndedBy(started, session.now, session.takesScreenshots)
    ensures old(session.performed) <= session.performed
    ensures answer != ERROR ==> session.performed == old(session.performed) + step.testCase.steps
    ensures session.now < deadline + MIN_STEP_TIMEOUT_SECONDS + if session.takesScreenshots then 1.0 else 0.0
  {
    var budget := StepBudget(OrDefault(step.timeout, actionTimeout), deadline - session.now);
    started := Started(step.testCase.id, session.now, budget);
    ghost var execution, verdicts;
    var status;
    status, execution, verdicts := RunTestCase(session, step.testCase.(timeoutOverride := Some(budget)));
    answer := status;
    result := StepResult(step.id, StatusOfStep(status));
  }

  /** How far a scenario has come: its results, what reached the executor and what the engine
      answered; `began` and `now` are the clock before and after. */
  datatype Progress = Progress(results: seq<StepResult>, k: nat, log: seq<Started>, answers: seq<ResultStatus>, began: real, now: real)

  /** What holds of the progress: the results record the answers; each started step had its own budget
      and kept it; a stop without an answer came too late; and the clock stays below the limit. */
  ghost predicate InTime(p: Progress, steps: seq<ScenarioStep>, actionTimeout: real, deadline: real, screenshots: bool) {
    Ran(steps, p.results, p.k, p.answers) && |p.log| == |p.answers| &&
    Follows(p.log, steps, actionTimeout, deadline) && Paced(p.log, p.now, screenshots) &&
    (p.k == |p.log| < |p.results| ==> deadline <= p.now) &&
    (p.log == [] ==> p.now == p.began) &&
    (p.now == p.began || p.now < deadline + MIN_STEP_TIMEOUT_SECONDS + if screenshots then 1.0 else 0.0)
  }

  lemma StepInTime(p: Progress, steps: seq<ScenarioStep>, actionTimeout: real, deadline: real, screenshots: bool,
                   result: StepResult, started: Started, answer: ResultStatus, now: real)
    requires InTime(p, steps, actionTimeout, deadline, screenshots) && p.k == |p.results| == |p.log| < |steps|
    requires Fits(steps[p.k], result) && Records(answer, result.status)
    requires StartedAs(steps[p.k], started, actionTimeout, deadline) && started.at == p.now && EndedBy(started, now, screenshots)
    requires now < deadline + MIN_STEP_TIMEOUT_SECONDS + if screenshots then 1.0 else 0.0
    ensures var k := if result.status == StepPassed then p.k + 1 else p.k;
            InTime(Progress(p.results + [result], k, p.log + [started], p.answers + [answer], p.began, now), steps, actionTimeout, deadline, screenshots)
  {
    RanStep(steps, p.results, p.k, p.answers, result, answer);
    StillFollows(p.log, started, steps, actionTimeout, deadline);
    PacedMore(p.log, started, now, screenshots);
  }

  lemma LateInTime(p: Progress, steps: seq<ScenarioStep>, actionTimeout: real, deadline: real, screenshots: bool, result: StepResult)
    requires InTime(p, steps, actionTimeout, deadline, screenshots) && |p.results| < |steps| && Fits(steps[|p.results|], result)
    requires if p.k < |p.results| then result.status == StepSkipped
             else p.k == |p.log| && result.status == StepError && deadline <= p.now
    ensures InTime(p.(results := p.results + [result]), steps, actionTimeout, deadline, screenshots)
  {
    if p.k < |p.results| {
      RanSkips(steps, p.results, p.k, p.answers, result);
    } else {
      RanLate(steps, p.results, p.k, p.answers, result);
    }
  }

  lemma Associative<T>(a: seq<T>, b: seq<T>, c: seq<T>)
    ensures a + b + c == a + (b + c)
  {
  }

  /** The body of the loop for a step that is started. */
  method StartStep(step: ScenarioStep, ghost steps: seq<ScenarioStep>, session: Session, actionTimeout: real, deadline: real,
                   ghost p: Progress, ghost executed: seq<Started>, ghost performed: seq<BrowserStep>)
    returns (result: StepResult, ghost p': Progress)
    requires session.Valid() && actionTimeout >= 1.0 && session.now < deadline && p.now == session.now
    requires InTime(p, steps, actionTimeout, deadline, session.takesScreenshots) && p.k == |p.results| == |p.log| < |steps| && step == steps[p.k]
    requires session.executed == executed + p.log && Performed(performed, steps, p.k, session.performed, false)
    modifies session
    ensures p'.results == p.results + [result] && p'.began == p.began && p'.now == session.now
    ensures p'.k == (if result.status == StepPassed then p.k + 1 else p.k) && |p'.log| == |p.log| + 1
    ensures InTime(p', steps, actionTimeout, deadline, session.takesScreenshots)
    ensures session.executed == executed + p'.log && Performed(performed, steps, p'.k, session.performed, result.status != StepPassed)
  {
    ghost var start, answer;
    ghost var before := session.performed;
    result, start, answer := RunOne(step, session, actionTimeout, deadline);
    StepInTime(p, steps, actionTimeout, deadline, session.takesScreenshots, result, start, answer, session.now);
    PerformedMore(performed, steps, p.k, before, session.performed, result.status == StepPassed);
    Associative(executed, p.log, [start]);
    p' := Progress(p.results + [result], if result.status == StepPassed then p.k + 1 else p.k, p.log + [start], p.answers + [answer], p.began, session.now);
  }

  /** The loop of `run_scenario`. The results match the steps one to one, in order, and stop at
      `k`; `log` is what reached the executor, nothing of it after the stop, and `answers` what the
      test engine said about it, which is what the results record; a step that stopped the scenario
      without being started came too late; the actions of all steps that passed were performed, in
      order; every step kept its own budget; and the clock stays strictly below the limit, for any
      number of steps and calls and any step timeouts. */
  method RunSteps(s: Scenario, session: Session, actionTimeout: real, deadline: real) returns (results: seq<StepResult>, ghost p: Progress)
    requires session.Valid() && actionTimeout >= 1.0
    modifies session
    ensures results == p.results && |results| == |s.steps| && p.began == old(session.now) && p.now == session.now
    ensures InTime(p, s.steps, actionTimeout, deadline, session.takesScreenshots)
    ensures session.executed == old(session.executed) + p.log
    ensures Performed(old(session.performed), s.steps, p.k, session.performed, p.k < |s.steps|)
  {
    results := [];
    p := Progress([], 0, [], [], session.now, session.now);
    var stopped := false;
    var i := 0;
    while i < |s.steps|
      invariant 0 <= i <= |s.steps| && |results| == i && results == p.results
      invariant p.began == old(session.now) && p.now == session.now
      invariant InTime(p, s.steps, actionTimeout, deadline, session.takesScreenshots)
      invariant if stopped then p.k < i else p.k == i == |p.log|
      invariant session.executed == old(session.executed) + p.log
      invariant Performed(old(session.performed), s.steps, p.k, session.performed, stopped)
    {
      var step := s.steps[i];
      var result;
      if stopped {
        result := StepResult(step.id, StepSkipped);
        LateInTime(p, s.steps, actionTimeout, deadline, session.takesScreenshots, result);
        p := p.(results := p.results + [result]);
      } else if deadline - session.now <= 0.0 {
        result := StepResult(step.id, StepError);
        stopped := true;
        LateInTime(p, s.steps, actionTimeout, deadline, session.takesScreenshots, result);
        p := p.(results := p.results + [result]);
      } else {
        result, p := StartStep(step, s.steps, session, actionTimeout, deadline, p, old(session.executed), old(session.performed));
        stopped := result.status != StepPassed;
      }
      results := results + [result];
      i := i + 1;
    }
  }

  /** `missing_environment_variables(scenario) != []`. */
  predicate MissesVariable(s: Scenario, env: set<string>) {
    exists i :: 0 <= i < |s.steps| && s.steps[i].valueEnv.Some? && s.steps[i].valueEnv.value != "" && s.steps[i].valueEnv.value !in env
  }

  /** `run_scenario`: `started` is the clock before the browser is opened. */
  method RunScenario(s: Scenario, env: set<string>, launch: Launch, actionTimeout: real, started: real)
    returns (r: ScenarioResult, ghost p: Progress)
    requires launch.Opened? ==> launch.session.Valid() && launch.session.now >= started
    requires actionTimeout >= 1.0
    modifies if launch.Opened? then {launch.session} else {}
    ensures r.status == NotAssessed <==>
            !launch.Opened? || exists step :: step in s.steps && step.valueEnv.Some? && step.valueEnv.value != "" && step.valueEnv.value !in env
    ensures r.status == NotAssessed ==> r.steps == []
    ensures launch.Opened? && r.status == NotAssessed ==> launch.session.executed == old(launch.session.executed)
    ensures r.status != NotAssessed ==>
              r.steps == p.results && |r.steps| == |s.steps| && p.began == old(launch.session.now) && p.now == launch.session.now &&
              InTime(p, s.steps, actionTimeout, started + ScenarioTimeout(s), launch.session.takesScreenshots) &&
              Decides(r.status, p.answers, |s.steps|) &&
              launch.session.executed == old(launch.session.executed) + p.log &&
              (r.status == ScenarioPass ==> launch.session.performed == old(launch.session.performed) + Actions(s.steps)) &&
              (launch.session.now == old(launch.session.now) ||
               launch.session.now < TimeLimit(started, s, launch.session.takesScreenshots))
  {
    if MissesVariable(s, env) || !launch.Opened? {
      return ScenarioResult(NotAssessed, []), Progress([], 0, [], [], started, started);
    }
    var results;
    assert s.steps[..|s.steps|] == s.steps;
    results, p := RunSteps(s, launch.session, actionTimeout, started + ScenarioTimeout(s));
    AnswersDecide(results, p.k, p.answers);
    VerdictOfShape(results, p.k);
    r := ScenarioResult(OverallStatus(results), results);
  }
}
