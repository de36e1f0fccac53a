/** `adapters/browser/executor.py`: one TestCase under a hard wall-clock budget.

    The clock `now` is part of the session. A Playwright call with a timeout may take any time up
    to that timeout and end in any way; a call without one takes no time. */
module BrowserExecutor {
  import opened Values

  datatype BrowserError = TargetError | TimeoutError | NetworkError | SelectorError

  /** How a Playwright call ended. */
  datatype Reply = Fine | PlaywrightTimeout | PlaywrightNetworkError | PlaywrightError

  /** A selector, `kindKnown` when `_locate` supports its type; `key` identifies equal selectors. */
  datatype Selector = Selector(key: string, kindKnown: bool)

  datatype BrowserStep = BrowserStep(action: string, selector: Option<Selector>, sameOrigin: bool)

  /** An assertion's parameters, as far as the context depends on them. */
  datatype Assertion = Assertion(selector: Option<Selector>, needsAttribute: bool)

  datatype TestCase = TestCase(id: string, steps: seq<BrowserStep>, assertions: seq<Assertion>, timeoutOverride: Option<real>)

  /** What an executor call ends with: a context or a raised error. */
  datatype Execution = Context | Raised(error: BrowserError)

  /** A test case that reached the executor: when, and with what budget. */
  datatype Started = Started(id: string, at: real, budget: real)

  const ATTRIBUTE_ACTIONS: set<string> := {"click", "fill", "select", "check", "uncheck", "press"}

  const SCREENSHOT_FLOOR_MS := 1000.0

  function Max(a: real, b: real): real { if a >= b then a else b }

  function Min(a: real, b: real): real { if a <= b then a else b }

  /** What the page answered to the calls of some steps: replies to timed calls, and match counts. */
  datatype Answers = Answers(replies: seq<Reply>, counts: seq<Option<nat>>) {
    function Plus(more: Answers): Answers { Answers(replies + more.replies, counts + more.counts) }
  }

  /** What it takes for a step to go through: one call that goes well, and before it one matching
      element if it acts on one. */
  function WhenWell(step: BrowserStep): Answers {
    Answers([Fine], if step.action in ATTRIBUTE_ACTIONS then [Some(1)] else [])
  }

  function AllWell(steps: seq<BrowserStep>): Answers {
    if |steps| == 0 then NO_ANSWERS else AllWell(steps[..|steps| - 1]).Plus(WhenWell(steps[|steps| - 1]))
  }

  const NO_ANSWERS := Answers([], [])

  /** A step whose selector, where it needs one, can be looked up, and whose action exists. */
  predicate IsKnown(step: BrowserStep) {
    var located := step.selector.Some? && step.selector.value.kindKnown;
    step.action == "navigate" || (step.action == "wait_for" && (step.selector.None? || located)) ||
    (step.action in ATTRIBUTE_ACTIONS && located)
  }

  /** What each error of a step means; `late` when its budget is spent. */
  ghost predicate Explains(error: BrowserError, step: BrowserStep, leaves: bool, answers: Answers, late: bool) {
    match error
    case TargetError => leaves
    case TimeoutError => late || PlaywrightTimeout in answers.replies
    case NetworkError => PlaywrightNetworkError in answers.replies
    case SelectorError => !IsKnown(step) || PlaywrightError in answers.replies || exists c :: c in answers.counts && c != Some(1)
  }

  lemma StillExplains(error: BrowserError, step: BrowserStep, leaves: bool, before: Answers, answers: Answers, late: bool)
    requires Explains(error, step, leaves, answers, late)
    ensures Explains(error, step, leaves, before.Plus(answers), late)
  {
    if c :| c in answers.counts && c != Some(1) {
      assert c in before.Plus(answers).counts;
    }
  }

  /** Some assertion with this selector key has a selector type that can be located. */
  ghost predicate Resolvable(assertions: seq<Assertion>, key: string) {
    exists a :: a in assertions && a.selector.Some? && a.selector.value.key == key && a.selector.value.kindKnown
  }

  class Session {
    const navigationTimeoutMs: real
    const actionTimeoutMs: real
    const testTimeout: real
    const allowExternal: bool
    const takesScreenshots: bool
    var now: real
    var screenshots: seq<string>
    /** The test cases that reached the executor, and the steps whose action went through. */
    ghost var executed: seq<Started>
    ghost var performed: seq<BrowserStep>

    /** The configuration clamps every timeout to at least one second. */
    predicate Valid() { navigationTimeoutMs >= 1000.0 && actionTimeoutMs >= 1000.0 && testTimeout >= 1.0 }

    constructor (navigationTimeout: real, actionTimeout: real, testTimeout: real, allowExternal: bool, takesScreenshots: bool, now: real)
      requires navigationTimeout >= 1.0 && actionTimeout >= 1.0 && testTimeout >= 1.0
      ensures Valid() && this.now == now && executed == [] && performed == [] && screenshots == []
      ensures navigationTimeoutMs == navigationTimeout * 1000.0 && actionTimeoutMs == actionTimeout * 1000.0 && this.testTimeout == testTimeout
      ensures this.allowExternal == allowExternal && this.takesScreenshots == takesScreenshots
    {
      this.navigationTimeoutMs := navigationTimeout * 1000.0;
      this.actionTimeoutMs := actionTimeout * 1000.0;
      this.testTimeout := testTimeout;
      this.allowExternal, this.takesScreenshots := allowExternal, takesScreenshots;
      this.now := now;
      screenshots, executed, performed := [], [], [];
    }

    /** `_remaining_ms`: `None` is the BrowserTimeoutError raised once the budget is spent; a
        timeout it does return is positive and never reaches past the deadline. */
    method RemainingMs(deadline: real, capMs: real) returns (r: Option<real>)
      requires capMs > 0.0
      ensures r.None? <==> deadline <= now
      ensures r.Some? ==> 0.0 < r.value <= capMs && now + r.value / 1000.0 <= deadline
      ensures r.Some? && r.value < capMs ==> now + r.value / 1000.0 == deadline
    {
      var remaining := (deadline - now) * 1000.0;
      if remaining <= 0.0 {
        return None;
      }
      r := Some(Min(capMs, remaining));
    }

    /** A bounded Playwright call. No caller may give it a timeout of zero, which would switch the
        bound off, or one that reaches past `limit`. */
    method Call(timeoutMs: real, ghost limit: real) returns (reply: Reply)
      requires timeoutMs > 0.0 && now + timeoutMs / 1000.0 <= limit
      modifies this`now
      ensures old(now) <= now <= limit
    {
      var spent: real :| 0.0 <= spent <= timeoutMs / 1000.0;
      now := now + spent;
      reply := *;
    }

    /** `locator.count()`: no timeout, any answer; `None` is a PlaywrightError. */
    method CountMatches() returns (n: Option<nat>)
    {
      n := *;
    }

    /** Acting takes exactly one matching element. */
    method RequireSingleMatch(deadline: real) returns (failure: Option<BrowserError>, ghost answers: Answers)
      requires Valid()
      ensures deadline <= now ==> failure == Some(TimeoutError) && answers == NO_ANSWERS
      ensures now < deadline ==> exists count :: answers == Answers([], [count]) && failure == if count == Some(1) then None else Some(SelectorError)
    {
      answers := NO_ANSWERS;
      var left := RemainingMs(deadline, actionTimeoutMs);
      if left.None? {
        return Some(TimeoutError), answers;
      }
      var count := CountMatches();
      answers := Answers([], [count]);
      failure := if count == Some(1) then None else Some(SelectorError);
    }

    /** One timed call under the budget, with the error mapping of `_run_steps`. */
    method TimedCall(deadline: real, capMs: real) returns (failure: Option<BrowserError>, ghost answers: Answers)
      requires capMs > 0.0
      modifies this`now
      ensures old(now) <= now <= Max(old(now), deadline)
      ensures deadline <= old(now) ==> failure == Some(TimeoutError) && now == old(now) && answers == NO_ANSWERS
      ensures now <= old(now) + capMs / 1000.0
      ensures old(now) < deadline ==> exists reply :: answers == Answers([reply], []) && AnsweredBy(reply, failure)
    {
      answers := NO_ANSWERS;
      var left := RemainingMs(deadline, capMs);
      if left.None? {
        return Some(TimeoutError), answers;
      }
      var reply := Call(left.value, now + left.value / 1000.0);
      answers := Answers([reply], []);
      match reply {
        case Fine => failure := None;
        case PlaywrightTimeout => failure := Some(TimeoutError);
        case PlaywrightNetworkError => failure := Some(NetworkError);
        case PlaywrightError => failure := Some(SelectorError);
      }
    }

    static predicate AnsweredBy(reply: Reply, failure: Option<BrowserError>) {
      (failure.None? <==> reply == Fine) && (failure == Some(TimeoutError) <==> reply == PlaywrightTimeout) &&
      (failure == Some(NetworkError) <==> reply == PlaywrightNetworkError) && failure != Some(TargetError)
    }

    /** A navigation the session may not make. */
    predicate LeavesOrigin(step: BrowserStep) { step.action == "navigate" && !step.sameOrigin && !allowExternal }

    /** A step that could be run: it stays within the origin and names what it needs. */
    predicate IsRunnable(step: BrowserStep) { !LeavesOrigin(step) && IsKnown(step) }

    /** How a step ended: without an error exactly when nothing stood in its way. */
    ghost predicate StepEnded(step: BrowserStep, failure: Option<BrowserError>, answers: Answers, late: bool) {
      if failure.None? then IsRunnable(step) && answers == WhenWell(step)
      else Explains(failure.value, step, LeavesOrigin(step), answers, late)
    }

    /** One iteration of `_run_steps`. */
    method RunStep(step: BrowserStep, deadline: real) returns (failure: Option<BrowserError>, ghost answers: Answers)
      requires Valid()
      modifies this`now, this`performed
      ensures performed == old(performed) + if failure.None? then [step] else []
      ensures old(now) <= now <= Max(old(now), deadline)
      ensures now <= old(now) + (if step.action == "navigate" then navigationTimeoutMs else actionTimeoutMs) / 1000.0
      ensures failure.None? ==> old(now) < deadline
      ensures StepEnded(step, failure, answers, deadline <= now)
      ensures failure == Some(TargetError) <==> LeavesOrigin(step)
      ensures LeavesOrigin(step) ==> now == old(now)
    {
      answers := NO_ANSWERS;
      var located := step.selector.Some? && step.selector.value.kindKnown;
      if step.action == "navigate" {
        if !step.sameOrigin && !allowExternal {
          return Some(TargetError), answers;
        }
        failure, answers := TimedCall(deadline, navigationTimeoutMs);
      } else if step.action == "wait_for" {
        if step.selector.Some? && !located {
          return Some(SelectorError), answers;
        }
        failure, answers := TimedCall(deadline, actionTimeoutMs);
      } else if step.action in ATTRIBUTE_ACTIONS {
        if !located {
          return Some(SelectorError), answers;
        }
        failure, answers := RequireSingleMatch(deadline);
        assert forall i :: 0 <= i < |answers.counts| ==> answers.counts[i] in answers.counts;
        if failure.None? {
          ghost var more;
          failure, more := TimedCall(deadline, actionTimeoutMs);
          if failure.Some? {
            StillExplains(failure.value, step, false, answers, more, deadline <= now);
          }
          answers := answers.Plus(more);
        }
      } else {
        failure := Some(SelectorError);
      }
      performed := performed + if failure.None? then [step] else [];
    }

    /** `_run_steps`: stops at the first step that raises; the `passed` ones before it went through,
        in order. */
    method RunSteps(steps: seq<BrowserStep>, deadline: real)
      returns (failure: Option<BrowserError>, passed: nat, ghost answers: Answers)
      requires Valid()
      modifies this`now, this`performed
      ensures old(now) <= now <= Max(old(now), deadline)
      ensures passed <= |steps| && (failure.None? <==> passed == |steps|)
      ensures performed == old(performed) + steps[..passed]
      ensures passed > 0 ==> old(now) < deadline
      ensures forall i :: 0 <= i < passed ==> IsRunnable(steps[i])
      ensures failure.None? ==> answers == AllWell(steps)
      ensures failure.Some? ==> StepEnded(steps[passed], failure, answers, deadline <= now)
      ensures passed < |steps| && LeavesOrigin(steps[passed]) ==> failure == Some(TargetError)
    {
      failure, passed, answers := None, 0, NO_ANSWERS;
      while passed < |steps|
        invariant 0 <= passed <= |steps| && failure.None? && old(now) <= now <= Max(old(now), deadline)
        invariant performed == old(performed) + steps[..passed]
        invariant passed > 0 ==> old(now) < deadline
        invariant (forall i :: 0 <= i < passed ==> IsRunnable(steps[i])) && answers == AllWell(steps[..passed])
      {
        assert steps[..passed + 1][..passed] == steps[..passed];
        assert steps[..passed + 1] == steps[..passed] + [steps[passed]];
        ghost var more;
        failure, more := RunStep(steps[passed], deadline);
        if failure.Some? {
          StillExplains(failure.value, steps[passed], LeavesOrigin(steps[passed]), answers, more, deadline <= now);
          answers := answers.Plus(more);
          return;
        }
        answers := answers.Plus(more);
        passed := passed + 1;
      }
      assert steps[..passed] == steps;
    }

    /** `_resolve_element_state`: Playwright errors become empty entries, only a spent budget or an
        unknown selector type raises. */
    method ResolveElementState(selector: Selector, needsAttribute: bool, deadline: real) returns (failure: Option<BrowserError>)
      requires Valid()
      modifies this`now
      ensures old(now) <= now <= Max(old(now), deadline)
      ensures failure.None? ==> selector.kindKnown && old(now) < deadline
      ensures failure.Some? ==> failure.value == if selector.kindKnown then TimeoutError else SelectorError
      ensures failure == Some(TimeoutError) ==> deadline <= now
    {
      if !selector.kindKnown {
        return Some(SelectorError);
      }
      var left := RemainingMs(deadline, actionTimeoutMs);
      if left.None? {
        return Some(TimeoutError);
      }
      var count := CountMatches();
      if count.None? || count == Some(0) {
        return None;
      }
      // text, value, checked and enabled wait; visible does not
      var lookups := if needsAttribute then 5 else 4;
      var i := 0;
      while i < lookups
        invariant old(now) <= now <= Max(old(now), deadline)
      {
        left := RemainingMs(deadline, actionTimeoutMs);
        if left.None? {
          return Some(TimeoutError);
        }
        var _ := Call(left.value, deadline);
        i := i + 1;
      }
      failure := None;
    }

    /** Why there may be no context after the steps. */
    static ghost predicate ContextFailed(assertions: seq<Assertion>, error: BrowserError, late: bool) {
      match error
      case TimeoutError => late
      case SelectorError => exists a :: a in assertions && a.selector.Some? && !a.selector.value.kindKnown
      case _ => false
    }

    /** `_build_context`: the body, then each distinct selector of the assertions. */
    method BuildContext(assertions: seq<Assertion>, deadline: real) returns (failure: Option<BrowserError>)
      requires Valid()
      modifies this`now
      ensures old(now) <= now <= Max(old(now), deadline)
      ensures failure.None? ==> old(now) < deadline
      ensures failure.None? ==> forall a :: a in assertions && a.selector.Some? ==> Resolvable(assertions, a.selector.value.key)
      ensures failure.Some? ==> ContextFailed(assertions, failure.value, deadline <= now)
    {
      failure := ResolveElementState(Selector("body", true), false, deadline);
      if failure.Some? {
        return;
      }
      var keys: set<string> := {};
      var i := 0;
      while i < |assertions|
        invariant 0 <= i <= |assertions| && failure.None? && old(now) < deadline
        invariant old(now) <= now <= Max(old(now), deadline)
        invariant forall j :: 0 <= j < i && assertions[j].selector.Some? ==> assertions[j].selector.value.key in keys
        invariant forall k :: k in keys ==> Resolvable(assertions, k)
      {
        match assertions[i].selector {
          case None =>
          case Some(selector) =>
            if selector.key !in keys {
              failure := ResolveElementState(selector, assertions[i].needsAttribute, deadline);
              if failure.Some? {
                return;
              }
              assert assertions[i] in assertions;
              keys := keys + {selector.key};
            }
        }
        i := i + 1;
      }
    }

    /** What an executor call that ended with an error was stopped by: the first step that did not go
        through, or something missing for the context after all of them did. */
    ghost predicate StoppedBy(testCase: TestCase, error: BrowserError, passed: nat, answers: Answers, late: bool) {
      if passed < |testCase.steps| then StepEnded(testCase.steps[passed], Some(error), answers, late)
      else ContextFailed(testCase.assertions, error, late)
    }

    /** `_executor`: a fresh deadline, the steps, the screenshot whatever happened, the context.
        It ends by the deadline, and by one second more when screenshots are taken; it yields a
        context only when every step went through and every selector of the assertions was one that
        can be located; and it raises only for a reason. */
    method Execute(testCase: TestCase) returns (r: Execution, ghost passed: nat, ghost answers: Answers, ghost shot: Option<Reply>)
      requires Valid() && (testCase.timeoutOverride.Some? ==> testCase.timeoutOverride.value > 0.0)
      modifies this
      ensures executed == old(executed) + [Started(testCase.id, old(now), Budget(testCase))]
      ensures Budget(testCase) == match testCase.timeoutOverride case Some(own) => own case None => testTimeout
      ensures passed <= |testCase.steps| && performed == old(performed) + testCase.steps[..passed]
      ensures forall i :: 0 <= i < passed ==> IsRunnable(testCase.steps[i])
      ensures r.Context? ==>
                passed == |testCase.steps| && answers == AllWell(testCase.steps) &&
                forall a :: a in testCase.assertions && a.selector.Some? ==> Resolvable(testCase.assertions, a.selector.value.key)
      ensures r.Raised? ==> StoppedBy(testCase, r.error, passed, answers, old(now) + Budget(testCase) <= now)
      ensures old(now) <= now <= old(now) + Budget(testCase) + if takesScreenshots then 1.0 else 0.0
      ensures shot.Some? <==> takesScreenshots
      ensures screenshots == old(screenshots) + if shot == Some(Fine) then [testCase.id + ".png"] else []
    {
      executed := executed + [Started(testCase.id, now, Budget(testCase))];
      var deadline := now + Budget(testCase);
      var failure, done;
      failure, done, answers := RunSteps(testCase.steps, deadline);
      passed, shot := done, None;
      if takesScreenshots {
        var shotMs := Max(SCREENSHOT_FLOOR_MS, (deadline - now) * 1000.0);
        var reply := Call(shotMs, deadline + 1.0);
        shot := Some(reply);
        if reply.Fine? {
          screenshots := screenshots + [testCase.id + ".png"];
        }
      }
      if failure.Some? {
        return Raised(failure.value), passed, answers, shot;
      }
      failure := BuildContext(testCase.assertions, deadline);
      r := if failure.Some? then Raised(failure.value) else Context;
    }

    function Budget(testCase: TestCase): real {
      if testCase.timeoutOverride.Some? then testCase.timeoutOverride.value else testTimeout
    }
  }
}
