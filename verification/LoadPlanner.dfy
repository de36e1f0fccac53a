/** `testing/performance/planner.py`: a load profile with a ceiling on every knob. */
module LoadPlanner {
  import opened Values
  import opened Sorting

  const MAX_CONCURRENCY := 200
  const MAX_REQUESTS_PER_LEVEL := 2000
  const MAX_DURATION_SECONDS_PER_LEVEL := 300.0
  const MAX_LEVELS := 10
  const DEFAULT_REQUESTS_PER_LEVEL := 50
  const DEFAULT_LOAD_CONCURRENCY: seq<int> := [1, 10]
  const DEFAULT_STRESS_MAX_CONCURRENCY := 50
  const DEFAULT_STRESS_STEPS: seq<int> := [1, 2, 5, 10, 20, 50, 100, 200]
  const DEFAULT_STRESS_STOP_ERROR_RATE_PERCENT := 50.0

  datatype ProfileType = BASELINE | LOAD | STRESS | CUSTOM

  datatype LoadProfile = LoadProfile(
    kind: ProfileType,
    levels: seq<int>,
    requestsPerLevel: Option<int>,
    durationPerLevel: Option<real>,
    stopOnErrorRate: Option<real>,
    stopOnP95: Option<real>)
  {
    function EstimatedTotalRequests(): Option<int> {
      match requestsPerLevel
      case Some(n) => Some(n * |levels|)
      case None => None
    }
  }

  datatype Warning = RequestsTakePrecedence | ConcurrencyIgnored | DefaultStopCondition

  datatype Planned = Accepted(profile: LoadProfile, warnings: seq<Warning>) | ConfigurationError

  function ParseProfileType(name: string): Option<ProfileType> {
    match name
    case "baseline" => Some(BASELINE)
    case "load" => Some(LOAD)
    case "stress" => Some(STRESS)
    case "custom" => Some(CUSTOM)
    case _ => None
  }

  /** The bounds every accepted profile keeps. */
  ghost predicate Safe(p: LoadProfile) {
    1 <= |p.levels| <= MAX_LEVELS &&
    (forall c :: c in p.levels ==> 1 <= c <= MAX_CONCURRENCY) &&
    p.requestsPerLevel.Some? != p.durationPerLevel.Some? &&
    (p.requestsPerLevel.Some? ==> 1 <= p.requestsPerLevel.value <= MAX_REQUESTS_PER_LEVEL) &&
    (p.durationPerLevel.Some? ==> 0.0 < p.durationPerLevel.value <= MAX_DURATION_SECONDS_PER_LEVEL) &&
    (p.kind == STRESS ==> p.stopOnErrorRate.Some? || p.stopOnP95.Some?)
  }

  predicate GoodLevel(c: int) { 1 <= c <= MAX_CONCURRENCY }

  /** `_validate_concurrency_levels`; false is its ConfigurationError. */
  method ValidateConcurrencyLevels(levels: seq<int>) returns (ok: bool)
    ensures ok <==> GoodLevels(levels)
  {
    if |levels| == 0 || |levels| > MAX_LEVELS {
      return false;
    }
    var i := 0;
    while i < |levels|
      invariant 0 <= i <= |levels|
      invariant forall j :: 0 <= j < i ==> GoodLevel(levels[j])
    {
      if levels[i] < 1 || levels[i] > MAX_CONCURRENCY {
        assert levels[i] in levels;
        return false;
      }
      i := i + 1;
    }
    ok := true;
  }

  predicate GoodLimits(requests: Option<int>, duration: Option<real>) {
    match requests
    case Some(n) => 1 <= n <= 2000
    case None => duration.Some? ==> 0.0 < duration.value <= 300.0
  }

  function UpTo(steps: seq<int>, cap: int): seq<int> {
    if |steps| == 0 then []
    else (if steps[0] <= cap then [steps[0]] else []) + UpTo(steps[1..], cap)
  }

  /** `x or default` for a list and for a number. */
  function GivenList(xs: Option<seq<int>>): seq<int> { if xs.Some? then xs.value else [] }

  function StressCap(maxConcurrency: Option<int>): int {
    if maxConcurrency.Some? && maxConcurrency.value != 0 then maxConcurrency.value else DEFAULT_STRESS_MAX_CONCURRENCY
  }

  function StressLevels(given: seq<int>, cap: int): seq<int> {
    if given != [] then SortedSet(given, IntLess)
    else if UpTo(DEFAULT_STRESS_STEPS, cap) != [] then UpTo(DEFAULT_STRESS_STEPS, cap)
    else [if cap < MAX_CONCURRENCY then cap else MAX_CONCURRENCY]
  }

  /** The levels each kind of profile asks for, before validation. */
  function LevelsFor(kind: ProfileType, given: seq<int>, cap: int): seq<int> {
    match kind
    case BASELINE => [1]
    case LOAD => if given != [] then given else DEFAULT_LOAD_CONCURRENCY
    case STRESS => StressLevels(given, cap)
    case CUSTOM => given
  }

  /** What an accepted profile measures by: a request count or a duration, never both, and
      requests when both or neither were given. */
  ghost predicate MeasuredBy(requests: Option<int>, duration: Option<real>, perLevel: Option<int>, seconds: Option<real>) {
    if requests.Some? then perLevel == requests && seconds.None?
    else if duration.Some? then perLevel.None? && seconds == duration
    else perLevel == Some(50) && seconds.None?
  }

  /** `_resolve_requests_and_duration`; `ok` is false when it raises. */
  method ResolveRequestsAndDuration(requests: Option<int>, duration: Option<real>)
    returns (ok: bool, perLevel: Option<int>, seconds: Option<real>, warnings: seq<Warning>)
    ensures ok <==> GoodLimits(requests, duration)
    ensures ok ==> MeasuredBy(requests, duration, perLevel, seconds)
    ensures warnings == if requests.Some? && duration.Some? then [RequestsTakePrecedence] else []
  {
    warnings := [];
    perLevel, seconds := requests, duration;
    if requests.Some? && duration.Some? {
      warnings := warnings + [RequestsTakePrecedence];
      seconds := None;
    }
    if perLevel.Some? {
      ok := !(perLevel.value < 1 || perLevel.value > MAX_REQUESTS_PER_LEVEL);
    } else if seconds.Some? {
      ok := !(seconds.value <= 0.0 || seconds.value > MAX_DURATION_SECONDS_PER_LEVEL);
    } else {
      ok, perLevel := true, Some(DEFAULT_REQUESTS_PER_LEVEL);
    }
  }

  /** Within every ceiling. */
  ghost predicate Acceptable(kind: ProfileType, given: seq<int>, cap: int) {
    (kind == STRESS ==> cap <= MAX_CONCURRENCY) && GoodLevels(LevelsFor(kind, given, cap))
  }

  ghost predicate GoodLevels(levels: seq<int>) {
    1 <= |levels| <= MAX_LEVELS && forall c :: c in levels ==> GoodLevel(c)
  }

  /** A stress run always has a stop condition. */
  function StopOnErrorRate(kind: ProfileType, given: Option<real>, stopOnP95: Option<real>): Option<real> {
    if kind == STRESS && given.None? && stopOnP95.None? then Some(DEFAULT_STRESS_STOP_ERROR_RATE_PERCENT) else given
  }

  /** Every override of what was asked for comes with a warning. */
  function Overrides(kind: ProfileType, given: seq<int>, stopOnErrorRate: Option<real>, stopOnP95: Option<real>): seq<Warning> {
    (if kind == BASELINE && given != [] && given != [1] then [ConcurrencyIgnored] else []) +
    if StopOnErrorRate(kind, stopOnErrorRate, stopOnP95) != stopOnErrorRate then [DefaultStopCondition] else []
  }

  /** The branches of `build_load_profile`, one per kind of profile. */
  method ChooseLevels(kind: ProfileType, given: seq<int>, cap: int, stopOnErrorRate: Option<real>, stopOnP95: Option<real>)
    returns (ok: bool, levels: seq<int>, stopErrors: Option<real>, warnings: seq<Warning>)
    ensures ok <==> (kind == STRESS ==> cap <= MAX_CONCURRENCY) && (kind == CUSTOM ==> given != [])
    ensures ok ==> levels == LevelsFor(kind, given, cap)
    ensures ok ==> stopErrors == StopOnErrorRate(kind, stopOnErrorRate, stopOnP95)
    ensures ok ==> warnings == Overrides(kind, given, stopOnErrorRate, stopOnP95)
  {
    ok, levels, stopErrors, warnings := true, [], stopOnErrorRate, [];
    match kind {
      case BASELINE =>
        if given != [] && given != [1] {
          warnings := warnings + [ConcurrencyIgnored];
        }
        levels := [1];
      case LOAD =>
        levels := if given != [] then given else DEFAULT_LOAD_CONCURRENCY;
      case STRESS =>
        if cap > MAX_CONCURRENCY {
          return false, [], None, [];
        }
        levels := StressLevels(given, cap);
        if stopOnErrorRate.None? && stopOnP95.None? {
          stopErrors := Some(DEFAULT_STRESS_STOP_ERROR_RATE_PERCENT);
          warnings := warnings + [DefaultStopCondition];
        }
      case CUSTOM =>
        ok, levels := given != [], given;
    }
  }

  /** The arguments of `build_load_profile`. */
  datatype LoadRequest = LoadRequest(
    profileType: string, concurrency: Option<seq<int>>, requests: Option<int>, duration: Option<real>,
    maxConcurrency: Option<int>, stopOnErrorRate: Option<real>, stopOnP95: Option<real>)

  /** What is built, by the functions above. */
  ghost predicate Built(q: LoadRequest, r: Planned) {
    var given, cap := GivenList(q.concurrency), StressCap(q.maxConcurrency);
    (r.Accepted? <==>
       ParseProfileType(q.profileType).Some? && GoodLimits(q.requests, q.duration) &&
       Acceptable(ParseProfileType(q.profileType).value, given, cap)) &&
    (r.Accepted? ==>
       var p := r.profile;
       Safe(p) && Some(p.kind) == ParseProfileType(q.profileType) && p.levels == LevelsFor(p.kind, given, cap) &&
       MeasuredBy(q.requests, q.duration, p.requestsPerLevel, p.durationPerLevel) &&
       p.stopOnP95 == q.stopOnP95 && p.stopOnErrorRate == StopOnErrorRate(p.kind, q.stopOnErrorRate, q.stopOnP95) &&
       r.warnings == (if q.requests.Some? && q.duration.Some? then [RequestsTakePrecedence] else []) +
                     Overrides(p.kind, given, q.stopOnErrorRate, q.stopOnP95))
  }

  /** `build_load_profile`. */
  method BuildLoadProfile(profileType: string, concurrency: Option<seq<int>>, requests: Option<int>, duration: Option<real>,
                          maxConcurrency: Option<int>, stopOnErrorRate: Option<real>, stopOnP95: Option<real>)
    returns (r: Planned)
    ensures Built(LoadRequest(profileType, concurrency, requests, duration, maxConcurrency, stopOnErrorRate, stopOnP95), r)
  {
    var parsed := ParseProfileType(profileType);
    if parsed.None? {
      return ConfigurationError;
    }
    var limited, perLevel, seconds, warnings := ResolveRequestsAndDuration(requests, duration);
    if !limited {
      return ConfigurationError;
    }
    var given := GivenList(concurrency);
    var chosen, levels, stopErrors, more := ChooseLevels(parsed.value, given, StressCap(maxConcurrency), stopOnErrorRate, stopOnP95);
    if !chosen {
      return ConfigurationError;
    }
    var valid := ValidateConcurrencyLevels(levels);
    if !valid {
      return ConfigurationError;
    }
    r := Accepted(LoadProfile(parsed.value, levels, perLevel, seconds, stopErrors, stopOnP95), warnings + more);
  }

  /** The highest level of a stress ramp that was not given its levels: what was asked for, or 50. */
  ghost predicate IsCap(maxConcurrency: Option<int>, cap: int) {
    if maxConcurrency == None || maxConcurrency == Some(0) then cap == 50 else maxConcurrency == Some(cap)
  }

  /** The levels a profile measures: one for a baseline; those given, or 1 and 10, for a load test; those
      given for a custom one; and for a stress test, in ascending order, those given, or those of
      the eight default steps that the cap allows. */
  ghost predicate LevelsAre(kind: ProfileType, given: seq<int>, cap: int, levels: seq<int>) {
    match kind
    case BASELINE => levels == [1]
    case LOAD => levels == if given == [] then [1, 10] else given
    case CUSTOM => levels == given
    case STRESS =>
      Ascending(levels, IntLess) &&
      forall c :: c in levels <==> if given != [] then c in given else c in {1, 2, 5, 10, 20, 50, 100, 200} && c <= cap
  }

  /** Between one and ten levels, different ones for a stress test, of 1 to 200 workers each. */
  ghost predicate Within(kind: ProfileType, given: seq<int>, cap: int) {
    match kind
    case BASELINE => true
    case LOAD => given == [] || (|given| <= 10 && AllWithin(given))
    case CUSTOM => 1 <= |given| <= 10 && AllWithin(given)
    case STRESS => cap <= 200 && if given == [] then cap >= 1 else |Distinct(given)| <= 10 && AllWithin(given)
  }

  ghost predicate AllWithin(given: seq<int>) { forall c :: c in given ==> 1 <= c <= 200 }

  ghost function Distinct(given: seq<int>): set<int> { set c | c in given }

  /** Accepted exactly when every knob is within its ceiling; an accepted profile is safe and carries
      what was asked for, with a warning per override. */
  ghost predicate PlannedAs(q: LoadRequest, r: Planned) {
    exists cap :: IsCap(q.maxConcurrency, cap) && PlannedUnder(q, cap, r)
  }

  predicate LacksStop(kind: ProfileType, q: LoadRequest) { kind == STRESS && q.stopOnErrorRate.None? && q.stopOnP95.None? }

  predicate IsNamed(name: string, kind: ProfileType) {
    (name == "baseline" && kind == BASELINE) || (name == "load" && kind == LOAD) || (name == "stress" && kind == STRESS) ||
    (name == "custom" && kind == CUSTOM)
  }

  ghost predicate PlannedUnder(q: LoadRequest, cap: int, r: Planned) {
    var given := GivenList(q.concurrency);
    (r.Accepted? <==>
       GoodLimits(q.requests, q.duration) && exists kind :: IsNamed(q.profileType, kind) && Within(kind, given, cap)) &&
    (r.Accepted? ==>
       var p := r.profile;
       Safe(p) && IsNamed(q.profileType, p.kind) && LevelsAre(p.kind, given, cap, p.levels) &&
       MeasuredBy(q.requests, q.duration, p.requestsPerLevel, p.durationPerLevel) &&
       p.stopOnP95 == q.stopOnP95 &&
       p.stopOnErrorRate == (if LacksStop(p.kind, q) then Some(50.0) else q.stopOnErrorRate) &&
       r.warnings == (if q.requests.Some? && q.duration.Some? then [RequestsTakePrecedence] else []) +
                     (if p.kind == BASELINE && given != [] && given != [1] then [ConcurrencyIgnored] else []) +
                     if LacksStop(p.kind, q) then [DefaultStopCondition] else [])
  }

  lemma NamedKind(name: string)
    ensures forall kind :: ParseProfileType(name) == Some(kind) <==> IsNamed(name, kind)
  {
  }

  lemma SameOverrides(kind: ProfileType, q: LoadRequest)
    ensures StopOnErrorRate(kind, q.stopOnErrorRate, q.stopOnP95) == if LacksStop(kind, q) then Some(50.0) else q.stopOnErrorRate
    ensures Overrides(kind, GivenList(q.concurrency), q.stopOnErrorRate, q.stopOnP95) ==
            (if kind == BASELINE && GivenList(q.concurrency) != [] && GivenList(q.concurrency) != [1] then [ConcurrencyIgnored] else []) +
            if LacksStop(kind, q) then [DefaultStopCondition] else []
  {
  }

  /** What is built is what was asked for, within every limit. */
  lemma BuiltAsPlanned(q: LoadRequest, r: Planned)
    requires Built(q, r)
    ensures PlannedAs(q, r)
  {
    var given, cap := GivenList(q.concurrency), StressCap(q.maxConcurrency);
    NamedKind(q.profileType);
    if ParseProfileType(q.profileType).Some? {
      var kind := ParseProfileType(q.profileType).value;
      AcceptableIsWithin(kind, given, cap);
      if r.Accepted? {
        LevelsForAre(kind, given, cap);
        SameOverrides(kind, q);
      }
    }
    assert IsCap(q.maxConcurrency, cap);
    assert PlannedUnder(q, cap, r);
  }

  /** An ascending list is as long as the set of its elements. */
  lemma {:induction false} AscendingCount(levels: seq<int>)
    requires Ascending(levels, IntLess)
    ensures |Distinct(levels)| == |levels|
  {
    if |levels| > 0 {
      var rest := levels[1..];
      AscendingCount(rest);
      assert Distinct(levels) == Distinct(rest) + {levels[0]};
      assert levels[0] !in rest;
    }
  }

  lemma AcceptableIsWithin(kind: ProfileType, given: seq<int>, cap: int)
    ensures Acceptable(kind, given, cap) <==> Within(kind, given, cap)
  {
    if kind == STRESS {
      var levels := StressLevels(given, cap);
      StressLevelsClimb(given, cap);
      AscendingCount(levels);
      if given != [] {
        assert Distinct(levels) == Distinct(given);
      } else if cap >= 1 {
        StressSteps(cap);
      } else {
        assert levels[0] in levels;
      }
    }
  }

  lemma StressSteps(cap: int)
    ensures forall c :: c in UpTo(DEFAULT_STRESS_STEPS, cap) <==> c in {1, 2, 5, 10, 20, 50, 100, 200} && c <= cap
    ensures |UpTo(DEFAULT_STRESS_STEPS, cap)| <= 8
    ensures cap >= 1 ==> StressLevels([], cap) == UpTo(DEFAULT_STRESS_STEPS, cap)
  {
    UpToClimbs(DEFAULT_STRESS_STEPS, cap);
    UpToIsShorter(DEFAULT_STRESS_STEPS, cap);
    assert forall c :: c in DEFAULT_STRESS_STEPS <==> c in {1, 2, 5, 10, 20, 50, 100, 200};
    if cap >= 1 {
      assert 1 in UpTo(DEFAULT_STRESS_STEPS, cap);
    }
  }

  lemma {:induction false} UpToIsShorter(steps: seq<int>, cap: int)
    ensures |UpTo(steps, cap)| <= |steps|
  {
    if |steps| > 0 {
      UpToIsShorter(steps[1..], cap);
    }
  }

  lemma LevelsForAre(kind: ProfileType, given: seq<int>, cap: int)
    requires Within(kind, given, cap)
    ensures LevelsAre(kind, given, cap, LevelsFor(kind, given, cap))
  {
    if kind == STRESS {
      StressLevelsClimb(given, cap);
      if given == [] {
        StressSteps(cap);
      }
    }
  }

  /** Stress levels climb: strictly ascending, exactly the given ones when some were given, and
      otherwise never above the cap. */
  lemma StressLevelsClimb(given: seq<int>, cap: int)
    ensures Ascending(StressLevels(given, cap), IntLess) && StressLevels(given, cap) != []
    ensures given != [] ==> forall c :: c in StressLevels(given, cap) <==> c in given
    ensures given == [] ==> forall c :: c in StressLevels(given, cap) ==> c <= cap
  {
    if given != [] {
      OrdersAreTotal();
      SortedSetSorts(given, IntLess);
      assert given[0] in given;
    } else {
      UpToClimbs(DEFAULT_STRESS_STEPS, cap);
    }
  }

  lemma {:induction false} UpToClimbs(steps: seq<int>, cap: int)
    requires Ascending(steps, IntLess)
    ensures Ascending(UpTo(steps, cap), IntLess) && forall c :: c in UpTo(steps, cap) <==> c in steps && c <= cap
  {
    if |steps| > 0 {
      UpToClimbs(steps[1..], cap);
      assert forall c :: c in steps <==> c == steps[0] || c in steps[1..];
      var rest := UpTo(steps[1..], cap);
      forall i | 0 <= i < |rest| ensures steps[0] < rest[i] {
        assert rest[i] in rest && rest[i] in steps[1..];
      }
    }
  }

  /** An accepted profile in count mode asks for at most 20000 requests in all. */
  lemma PlannedTotalIsBounded(p: LoadProfile)
    requires Safe(p) && p.requestsPerLevel.Some?
    ensures 1 <= p.EstimatedTotalRequests().value <= 20000
  {
    ProductBound(p.requestsPerLevel.value, |p.levels|, MAX_REQUESTS_PER_LEVEL, MAX_LEVELS);
  }

  lemma ProductBound(a: int, b: int, x: int, y: int)
    requires 1 <= a <= x && 1 <= b <= y
    ensures 1 <= a * b <= x * y
  {
    assert a * b <= x * b <= x * y;
    assert a * b >= 1 * b;
  }
}
