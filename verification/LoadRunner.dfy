/** One concurrency level of `testing/performance/runner.py` as a protocol: a pool of at most
    `workers` threads, a list of submitted tasks, and a cancellation event anyone may set. */
module LevelProtocol {
  import opened Counting
  import opened PerformanceMetrics

  /** A task of `_run_fixed_count`: between `Claimed` and `Calling` it reads the event. */
  datatype Task = Unsubmitted | Queued | Claimed | Calling | Returned(sample: Sample) | Skipped

  datatype Pool = Pool(workers: nat, tasks: seq<Task>, cancelled: bool)

  /** A worker thread is held by the task it runs. */
  predicate IsBusy(t: Task) { t.Claimed? || t.Calling? }

  predicate IsCalling(t: Task) { t.Calling? }

  predicate HasCalled(t: Task) { t.Calling? || t.Returned? }

  predicate IsSettled(t: Task) { t.Returned? || t.Skipped? }

  ghost predicate Init(s: Pool, concurrency: nat, count: nat) {
    s.workers == (if concurrency < 1 then 1 else concurrency) && |s.tasks| == count && !s.cancelled &&
    forall t :: t in s.tasks ==> t == Unsubmitted
  }

  /** What may happen to task `i`: submission, a free worker taking it, the task looking at the
      event, or its executor call ending with any sample. */
  ghost predicate Allowed(s: Pool, i: nat, to: Task)
    requires i < |s.tasks|
  {
    match s.tasks[i]
    case Unsubmitted => to == Queued
    case Queued => to == Claimed && Count(s.tasks, IsBusy) < s.workers
    case Claimed => to == if s.cancelled then Skipped else Calling
    case Calling => to.Returned?
    case _ => false
  }

  ghost predicate Move(s: Pool, s': Pool, i: nat, to: Task) {
    i < |s.tasks| && Allowed(s, i, to) && s' == s.(tasks := s.tasks[i := to])
  }

  /** One step of the level: a task moves on, or someone sets the event. */
  ghost predicate Next(s: Pool, s': Pool) {
    s' == s.(cancelled := true) || exists i, to :: Move(s, s', i, to)
  }

  ghost predicate StepAt(run: seq<Pool>, i: nat)
    requires i + 1 < |run|
  {
    Next(run[i], run[i + 1])
  }

  ghost predicate Run(run: seq<Pool>, concurrency: nat, count: nat) {
    |run| > 0 && Init(run[0], concurrency, count) && forall i :: 0 <= i < |run| - 1 ==> StepAt(run, i)
  }

  ghost predicate Inv(s: Pool, concurrency: nat, count: nat) {
    s.workers == (if concurrency < 1 then 1 else concurrency) && |s.tasks| == count &&
    Count(s.tasks, IsBusy) <= s.workers &&
    (!s.cancelled ==> forall t :: t in s.tasks ==> !t.Skipped?)
  }

  lemma NextKeepsInv(s: Pool, s': Pool, concurrency: nat, count: nat)
    requires Inv(s, concurrency, count) && Next(s, s')
    ensures Inv(s', concurrency, count)
  {
    if s' != s.(cancelled := true) {
      var i, to :| Move(s, s', i, to);
      CountMove(s.tasks, i, to, IsBusy);
      forall t | t in s'.tasks ensures t in s.tasks || t == to {
        var j :| 0 <= j < |s'.tasks| && s'.tasks[j] == t;
      }
    }
  }

  lemma {:induction false} RunKeepsInv(run: seq<Pool>, concurrency: nat, count: nat, n: nat)
    requires Run(run, concurrency, count) && n < |run|
    ensures Inv(run[n], concurrency, count)
  {
    if n == 0 {
      CountNone(run[0].tasks, IsBusy);
    } else {
      RunKeepsInv(run, concurrency, count, n - 1);
      assert StepAt(run, n - 1);
      NextKeepsInv(run[n - 1], run[n], concurrency, count);
    }
  }

  /** In every state of every interleaving at most `concurrency` executor calls are in flight
      and at most `count` were ever made. */
  lemma InFlightIsBounded(run: seq<Pool>, concurrency: nat, count: nat, n: nat)
    requires Run(run, concurrency, count) && n < |run| && concurrency >= 1
    ensures Count(run[n].tasks, IsCalling) <= concurrency && Count(run[n].tasks, HasCalled) <= count
  {
    RunKeepsInv(run, concurrency, count, n);
    CountWeaker(run[n].tasks, IsCalling, IsBusy);
  }

  /** `[s for s in samples if s is not None]`, in the order of submission. */
  function Samples(tasks: seq<Task>): seq<Sample> {
    if |tasks| == 0 then []
    else (if tasks[0].Returned? then [tasks[0].sample] else []) + Samples(tasks[1..])
  }

  /** Every future has its result. */
  ghost predicate IsOver(s: Pool) { forall t :: t in s.tasks ==> IsSettled(t) }

  /** When the level is over: one sample per call made, and without cancellation exactly as
      many as were asked for. */
  lemma LevelYieldsItsCount(run: seq<Pool>, concurrency: nat, count: nat, n: nat)
    requires Run(run, concurrency, count) && n < |run| && IsOver(run[n])
    ensures |Samples(run[n].tasks)| == Count(run[n].tasks, HasCalled) <= count
    ensures !run[n].cancelled ==>
              |Samples(run[n].tasks)| == count && forall i :: 0 <= i < count ==> run[n].tasks[i] == Returned(Samples(run[n].tasks)[i])
  {
    RunKeepsInv(run, concurrency, count, n);
    SamplesCount(run[n].tasks);
    if !run[n].cancelled {
      CountAll(run[n].tasks, HasCalled);
      assert forall i :: 0 <= i < |run[n].tasks| ==> run[n].tasks[i] in run[n].tasks;
      SamplesInOrder(run[n].tasks);
    }
  }

  lemma {:induction false} SamplesInOrder(tasks: seq<Task>)
    requires forall i :: 0 <= i < |tasks| ==> tasks[i].Returned?
    ensures |Samples(tasks)| == |tasks| && forall i :: 0 <= i < |tasks| ==> tasks[i] == Returned(Samples(tasks)[i])
  {
    if |tasks| > 0 {
      SamplesInOrder(tasks[1..]);
    }
  }

  lemma NextAfterCancel(s: Pool, s': Pool)
    requires s.cancelled && Next(s, s')
    ensures s'.cancelled && Count(s'.tasks, HasCalled) == Count(s.tasks, HasCalled)
  {
    if s' != s.(cancelled := true) {
      var i, to :| Move(s, s', i, to);
      CountMove(s.tasks, i, to, HasCalled);
    }
  }

  /** Once the event is set no further task passes its check, which is where its call counts from. */
  lemma {:induction false} CancelStopsCalls(run: seq<Pool>, concurrency: nat, count: nat, m: nat, n: nat)
    requires Run(run, concurrency, count) && m <= n < |run| && run[m].cancelled
    ensures run[n].cancelled && Count(run[n].tasks, HasCalled) == Count(run[m].tasks, HasCalled)
    decreases n
  {
    if m < n {
      CancelStopsCalls(run, concurrency, count, m, n - 1);
      assert StepAt(run, n - 1);
      NextAfterCancel(run[n - 1], run[n]);
    }
  }

  lemma {:induction false} SamplesCount(tasks: seq<Task>)
    requires forall t :: t in tasks ==> IsSettled(t)
    ensures |Samples(tasks)| == Count(tasks, HasCalled)
  {
    if |tasks| > 0 {
      assert IsSettled(tasks[0]);
      assert forall t :: t in tasks[1..] ==> t in tasks;
      SamplesCount(tasks[1..]);
    }
  }

  /** How far a task is from being settled. */
  function Distance(t: Task): nat {
    match t
    case Unsubmitted => 4
    case Queued => 3
    case Claimed => 2
    case Calling => 1
    case _ => 0
  }

  function TotalDistance(tasks: seq<Task>): nat {
    if |tasks| == 0 then 0 else Distance(tasks[0]) + TotalDistance(tasks[1..])
  }

  lemma {:induction false} DistanceMove(tasks: seq<Task>, i: nat, to: Task)
    requires i < |tasks|
    ensures TotalDistance(tasks[i := to]) == TotalDistance(tasks) - Distance(tasks[i]) + Distance(to)
  {
    if i == 0 {
      assert tasks[i := to][1..] == tasks[1..];
    } else {
      DistanceMove(tasks[1..], i - 1, to);
      assert tasks[i := to][1..] == tasks[1..][i - 1 := to];
    }
  }

  /** Nothing gets stuck: while a task is not settled some step other than cancelling it is
      possible, and each such step brings the level closer to its end. */
  lemma LevelMakesProgress(s: Pool, concurrency: nat, count: nat, sample: Sample) returns (s': Pool)
    requires Inv(s, concurrency, count) && exists t :: t in s.tasks && !IsSettled(t)
    ensures Next(s, s') && TotalDistance(s'.tasks) < TotalDistance(s.tasks)
  {
    var t :| t in s.tasks && !IsSettled(t);
    var i :| 0 <= i < |s.tasks| && s.tasks[i] == t;
    if b :| 0 <= b < |s.tasks| && IsBusy(s.tasks[b]) {
      i := b;
    } else {
      CountNone(s.tasks, IsBusy);
    }
    var to := match s.tasks[i]
      case Unsubmitted => Queued
      case Queued => Claimed
      case Claimed => if s.cancelled then Skipped else Calling
      case _ => Returned(sample);
    s' := s.(tasks := s.tasks[i := to]);
    assert Move(s, s', i, to);
    DistanceMove(s.tasks, i, to);
  }
}

/** The other kind of level, `_run_for_duration`: one loop per worker, calling until the deadline
    has passed or the event is set, and putting each sample on a shared queue. */
module DurationProtocol {
  import opened Counting
  import opened PerformanceMetrics

  /** A loop reads the clock, then the event, then calls. */
  datatype Loop = AtClock | AtEvent | Calling | Ended

  datatype State = State(loops: seq<Loop>, calls: nat, results: seq<Sample>, expired: bool, cancelled: bool)

  predicate IsCalling(l: Loop) { l.Calling? }

  predicate IsPastClock(l: Loop) { l.AtEvent? }

  ghost predicate Init(s: State, concurrency: nat) {
    |s.loops| == concurrency && (forall l :: l in s.loops ==> l == AtClock) && s.calls == 0 && s.results == [] &&
    !s.expired && !s.cancelled
  }

  function StepOf(s: State, i: nat, sample: Sample): State
    requires i < |s.loops|
  {
    match s.loops[i]
    case AtClock => s.(loops := s.loops[i := if s.expired then Ended else AtEvent])
    case AtEvent =>
      if s.cancelled then s.(loops := s.loops[i := Ended])
      else s.(loops := s.loops[i := Loop.Calling], calls := s.calls + 1)
    case Calling => s.(loops := s.loops[i := AtClock], results := s.results + [sample])
    case Ended => s
  }

  ghost predicate Next(s: State, s': State) {
    s' == s.(expired := true) || s' == s.(cancelled := true) ||
    exists i: nat, sample :: i < |s.loops| && s' == StepOf(s, i, sample)
  }

  ghost predicate StepAt(run: seq<State>, i: nat)
    requires i + 1 < |run|
  {
    Next(run[i], run[i + 1])
  }

  ghost predicate Run(run: seq<State>, concurrency: nat) {
    |run| > 0 && Init(run[0], concurrency) && forall i :: 0 <= i < |run| - 1 ==> StepAt(run, i)
  }

  ghost predicate Inv(s: State, concurrency: nat) {
    |s.loops| == concurrency && s.calls == |s.results| + Count(s.loops, IsCalling)
  }

  /** Calls made plus calls already past the clock check: fixed once the time is up. */
  function Committed(s: State): nat { s.calls + Count(s.loops, IsPastClock) }

  lemma NextStep(s: State, s': State, concurrency: nat)
    requires Inv(s, concurrency) && Next(s, s')
    ensures Inv(s', concurrency) && (s.expired ==> s'.expired && Committed(s') <= Committed(s))
  {
    if i: nat, sample :| i < |s.loops| && s' == StepOf(s, i, sample) {
      if s.loops[i] != Ended {
        CountMove(s.loops, i, s'.loops[i], IsCalling);
        CountMove(s.loops, i, s'.loops[i], IsPastClock);
      }
    }
  }

  lemma {:induction false} RunKeepsInv(run: seq<State>, concurrency: nat, n: nat)
    requires Run(run, concurrency) && n < |run|
    ensures Inv(run[n], concurrency)
  {
    if n == 0 {
      CountNone(run[0].loops, IsCalling);
    } else {
      RunKeepsInv(run, concurrency, n - 1);
      assert StepAt(run, n - 1);
      NextStep(run[n - 1], run[n], concurrency);
    }
  }

  /** In every interleaving at most `concurrency` calls are in flight, and every call that ended
      left exactly one sample; when all loops have ended, every call has. */
  lemma DurationLevel(run: seq<State>, concurrency: nat, n: nat)
    requires Run(run, concurrency) && n < |run|
    ensures Count(run[n].loops, IsCalling) <= concurrency
    ensures run[n].calls == |run[n].results| + Count(run[n].loops, IsCalling)
    ensures (forall l :: l in run[n].loops ==> l.Ended?) ==> run[n].calls == |run[n].results|
  {
    RunKeepsInv(run, concurrency, n);
    CountNone(run[n].loops, IsCalling);
  }

  lemma {:induction false} CommittedShrinks(run: seq<State>, concurrency: nat, m: nat, n: nat)
    requires Run(run, concurrency) && m <= n < |run| && run[m].expired
    ensures run[n].expired && Committed(run[n]) <= Committed(run[m])
    decreases n
  {
    if m < n {
      CommittedShrinks(run, concurrency, m, n - 1);
      RunKeepsInv(run, concurrency, n - 1);
      assert StepAt(run, n - 1);
      NextStep(run[n - 1], run[n], concurrency);
    }
  }

  /** Once the event is set no further task passes its check, which is where its call counts from. */
  lemma {:induction false} CancelStopsCalls(run: seq<State>, concurrency: nat, m: nat, n: nat)
    requires Run(run, concurrency) && m <= n < |run| && run[m].cancelled
    ensures run[n].cancelled && run[n].calls == run[m].calls
    decreases n
  {
    if m < n {
      CancelStopsCalls(run, concurrency, m, n - 1);
      assert StepAt(run, n - 1);
    }
  }

  /** After the deadline each loop makes at most one more call. */
  lemma CallsAfterDeadline(run: seq<State>, concurrency: nat, m: nat, n: nat)
    requires Run(run, concurrency) && m <= n < |run| && run[m].expired
    ensures run[n].calls <= run[m].calls + concurrency
  {
    CommittedShrinks(run, concurrency, m, n);
    RunKeepsInv(run, concurrency, m);
  }
}

/** `PerformanceRunner.run`: the levels of a profile, one after the other. */
module LoadRunner {
  import opened Values
  import LevelProtocol
  import opened LoadPlanner
  import opened PerformanceMetrics

  datatype StopReason = Cancelled | RunTimeout | StressLimit

  /** What the world answers while level `i` is up: whether the event was set before it, whether
      the run timeout had passed, and the metrics the level would produce. */
  datatype Moment = Moment(cancelled: bool, timedOut: bool, metrics: Metrics)

  datatype RunResult = RunResult(levels: seq<Level>, stoppedEarly: bool, stopReason: Option<StopReason>)

  /** `_stress_stop_reason(level, profile, ...) is not None`. */
  predicate ExceedsStressLimit(m: Metrics, p: LoadProfile) {
    (p.stopOnErrorRate.Some? && m.ErrorRatePercent() > p.stopOnErrorRate.value) ||
    (p.stopOnP95.Some? && m.latency.Some? && m.latency.value.p95 > p.stopOnP95.value)
  }

  /** The limits of a stress run in terms of what a level measured. */
  ghost predicate OverLimit(m: Metrics, p: LoadProfile) {
    (p.stopOnErrorRate.Some? && FailsMoreThan(m, p.stopOnErrorRate.value)) ||
    (p.stopOnP95.Some? && m.latency.Some? && m.latency.value.p95 > p.stopOnP95.value)
  }

  lemma ExceedsIsOver(m: Metrics, p: LoadProfile)
    ensures ExceedsStressLimit(m, p) <==> OverLimit(m, p)
  {
    if p.stopOnErrorRate.Some? {
      ErrorRateBeyond(m, p.stopOnErrorRate.value);
    }
  }

  /** The level that belongs to position `i` of the plan. */
  ghost predicate IsLevel(level: Level, p: LoadProfile, world: seq<Moment>, limits: seq<(string, real)>, i: nat)
    requires i < |p.levels| <= |world|
  {
    level == Level(p.levels[i], world[i].metrics, Evaluated(world[i].metrics, limits))
  }

  /** Why the run ended after `n` levels. */
  ghost predicate EndsAfter(p: LoadProfile, world: seq<Moment>, n: nat, reason: Option<StopReason>)
    requires n <= |p.levels| <= |world|
  {
    match reason
    case None => n == |p.levels| && (p.kind == STRESS && n > 0 ==> !OverLimit(world[n - 1].metrics, p))
    case Some(Cancelled) => n < |p.levels| && world[n].cancelled
    case Some(RunTimeout) => n < |p.levels| && !world[n].cancelled && world[n].timedOut
    case Some(StressLimit) => n > 0 && p.kind == STRESS && OverLimit(world[n - 1].metrics, p)
  }

  /** The levels run are a prefix of the plan; a proper prefix implies `stoppedEarly`; each level ran
      because nothing asked to stop before it; and under a stress profile every level but the last
      met both limits. */
  ghost predicate RunsAs(p: LoadProfile, world: seq<Moment>, limits: seq<(string, real)>, r: RunResult)
    requires |world| >= |p.levels|
  {
    |r.levels| <= |p.levels| &&
    (forall i :: 0 <= i < |r.levels| ==> IsLevel(r.levels[i], p, world, limits, i) && !world[i].cancelled && !world[i].timedOut) &&
    (p.kind == STRESS ==> forall i :: 0 <= i < |r.levels| - 1 ==> !OverLimit(r.levels[i].metrics, p)) &&
    (r.stoppedEarly <==> r.stopReason.Some?) &&
    EndsAfter(p, world, |r.levels|, r.stopReason) &&
    (|r.levels| < |p.levels| ==> r.stoppedEarly)
  }

  /** `run`: the loop over the planned levels. */
  method Run(p: LoadProfile, world: seq<Moment>, limits: seq<(string, real)>) returns (r: RunResult)
    requires |world| >= |p.levels|
    ensures RunsAs(p, world, limits, r)
  {
    var levels: seq<Level> := [];
    var i := 0;
    while i < |p.levels|
      invariant 0 <= i <= |p.levels| && |levels| == i
      invariant forall j :: 0 <= j < i ==> IsLevel(levels[j], p, world, limits, j) && !world[j].cancelled && !world[j].timedOut
      invariant p.kind == STRESS ==> forall j :: 0 <= j < i ==> !OverLimit(world[j].metrics, p)
    {
      if world[i].cancelled {
        return RunResult(levels, true, Some(Cancelled));
      }
      if world[i].timedOut {
        return RunResult(levels, true, Some(RunTimeout));
      }
      var thresholds, _ := EvaluateThresholds(world[i].metrics, limits);
      levels := levels + [Level(p.levels[i], world[i].metrics, thresholds)];
      i := i + 1;
      ExceedsIsOver(world[i - 1].metrics, p);
      if p.kind == STRESS && ExceedsStressLimit(world[i - 1].metrics, p) {
        return RunResult(levels, true, Some(StressLimit));
      }
    }
    r := RunResult(levels, false, None);
  }

  /** What a level measured in count mode: the aggregate of what some interleaving of its pool
      returned. */
  ghost predicate MeasuredInCountMode(m: Metrics, concurrency: int, count: nat) {
    exists run, seconds :: MeasuredAs(m, concurrency, count, run, seconds)
  }

  ghost predicate MeasuredAs(m: Metrics, concurrency: int, count: nat, run: seq<LevelProtocol.Pool>, seconds: real) {
    concurrency >= 1 && LevelProtocol.Run(run, concurrency, count) && LevelProtocol.IsOver(run[|run| - 1]) &&
    m == Aggregate(LevelProtocol.Samples(run[|run| - 1].tasks), seconds)
  }

  /** The first `n` levels of the plan measured what their pools returned. */
  ghost predicate PoolsMeasured(p: LoadProfile, world: seq<Moment>, n: nat)
    requires p.requestsPerLevel.Some? && p.requestsPerLevel.value >= 0 && |world| >= |p.levels| >= n
  {
    forall i :: 0 <= i < n ==> MeasuredInCountMode(world[i].metrics, p.levels[i], p.requestsPerLevel.value)
  }

  lemma CountModeTotal(m: Metrics, concurrency: int, count: nat)
    requires MeasuredInCountMode(m, concurrency, count)
    ensures m.total <= count
  {
    var run, seconds :| MeasuredAs(m, concurrency, count, run, seconds);
    LevelProtocol.LevelYieldsItsCount(run, concurrency, count, |run| - 1);
  }

  /** Planner, runner and pool together: whatever is asked for, if the planner accepts it in count
      mode, any run of that plan, whose levels measure what their pools returned, makes at most as
      many calls as estimated, and so at most 20000. */
  lemma TotalCallsAreBounded(q: LoadRequest, planned: Planned, world: seq<Moment>, limits: seq<(string, real)>, r: RunResult)
    requires PlannedAs(q, planned) && planned.Accepted? && planned.profile.requestsPerLevel.Some?
    requires |world| >= |planned.profile.levels| && RunsAs(planned.profile, world, limits, r)
    requires PoolsMeasured(planned.profile, world, |r.levels|)
    ensures SumOver(r.levels, Attempted) <= planned.profile.EstimatedTotalRequests().value <= 20000
  {
    var p := planned.profile;
    PlannedTotalIsBounded(p);
    var each := p.requestsPerLevel.value;
    forall i | 0 <= i < |r.levels| ensures r.levels[i].metrics.total <= each {
      assert IsLevel(r.levels[i], p, world, limits, i);
      CountModeTotal(world[i].metrics, p.levels[i], each);
    }
    SumIsBounded(r.levels, each);
    Times(each, |r.levels|, |p.levels|);
  }

  lemma Times(each: nat, a: nat, b: nat)
    requires a <= b
    ensures each * a <= each * b
  {
  }

  lemma {:induction false} SumIsBounded(levels: seq<Level>, each: nat)
    requires forall i :: 0 <= i < |levels| ==> levels[i].metrics.total <= each
    ensures SumOver(levels, Attempted) <= each * |levels|
  {
    if |levels| > 0 {
      SumIsBounded(levels[1..], each);
    }
  }
}
