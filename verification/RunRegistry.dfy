/** `gui/runs.py`: the bounded registry of runs.

    The first part is the registry as concurrent code: everything inside `with self._lock` is a
    sequence of single steps, because a worker flips `done` under its own run's lock and may do
    so while another thread is in the middle of the registry's critical section. */
module RunRegistry {
  import opened Values

  /** Where a run's thread is. `Waiting`: not started yet; `Settled`: outcome or error stored, or
      neither after a BaseException; `Finished`: flagged done, prune still to come. */
  datatype Phase = Waiting | Working | Settled | Finished | Pruned

  /** A run; its position in the start history is its id, which is never used again. */
  datatype Run = Run(phase: Phase, hasOutcome: bool, hasError: bool, aborted: bool, done: bool)

  const NEW_RUN := Run(Waiting, false, false, false, false)

  datatype Holder = Starter | Worker(id: nat)

  /** The registry lock and, while it is held, how far its critical section has come. */
  datatype Lock =
    | Free
    | Checking(next: nat)
    | Scanning(holder: Holder, next: nat, completed: seq<nat>)
    | Deleting(holder: Holder, victims: seq<nat>)

  /** `stored` are the keys of the `_runs` dict in insertion order. */
  datatype State = State(max: nat, runs: seq<Run>, stored: seq<nat>, lock: Lock)

  /** `del d[key]`. */
  function Without(stored: seq<nat>, id: nat): seq<nat> {
    if |stored| == 0 then [] else if stored[0] == id then stored[1..] else [stored[0]] + Without(stored[1..], id)
  }

  predicate IsDone(runs: seq<Run>, id: nat) { id < |runs| && runs[id].done }

  /** The thread inside the critical section moves on by one step. */
  function LockStep(s: State): State {
    match s.lock
    case Free => s
    case Checking(next) =>
      if next < |s.stored| then
        s.(lock := if IsDone(s.runs, s.stored[next]) then Checking(next + 1) else Free)  // RunAlreadyActiveError
      else s.(runs := s.runs + [NEW_RUN], stored := s.stored + [|s.runs|], lock := Scanning(Starter, 0, []))
    case Scanning(holder, next, completed) =>
      if next < |s.stored| then
        s.(lock := Scanning(holder, next + 1, completed + if IsDone(s.runs, s.stored[next]) then [s.stored[next]] else []))
      else if |completed| > s.max then s.(lock := Deleting(holder, completed[..|completed| - s.max]))
      else s.(lock := Free)
    case Deleting(holder, victims) =>
      if |victims| > 0 then s.(stored := Without(s.stored, victims[0]), lock := Deleting(holder, victims[1..]))
      else s.(lock := Free)
  }

  /** A worker thread's own step on its run, under the run lock or none. */
  ghost predicate RunStep(r: Run, r': Run) {
    match r.phase
    case Working =>
      r' == r.(phase := Settled, hasOutcome := true) ||
      r' == r.(phase := Settled, hasError := true) ||
      r' == r.(phase := Settled, aborted := true)
    case Settled => r' == r.(phase := Finished, done := true)
    case _ => false
  }

  ghost predicate Next(s: State, s': State) {
    (s.lock.Free? && s' == s.(lock := Checking(0))) ||                                        // start()
    (!s.lock.Free? && s' == LockStep(s)) ||
    (exists id: nat :: id < |s.runs| && ThreadStep(s, s', id))
  }

  /** The newest run was just stored by a start() that has not left its critical section yet, so
      its thread does not run. Whoever else holds the lock does not keep a thread from starting. */
  predicate StarterInside(lock: Lock) { (lock.Scanning? || lock.Deleting?) && lock.holder.Starter? }

  ghost predicate ThreadStep(s: State, s': State, id: nat)
    requires id < |s.runs|
  {
    (s.runs[id].phase.Waiting? && !(StarterInside(s.lock) && id == |s.runs| - 1) &&               // Thread(...).start()
     s' == s.(runs := s.runs[id := s.runs[id].(phase := Working)])) ||
    (exists r :: RunStep(s.runs[id], r) && s' == s.(runs := s.runs[id := r])) ||
    (s.runs[id].phase.Finished? && s.lock.Free? &&                                            // the worker's final prune
     s' == s.(runs := s.runs[id := s.runs[id].(phase := Pruned)], lock := Scanning(Worker(id), 0, [])))
  }

  ghost predicate Trace(run: seq<State>, max: nat) {
    |run| > 0 && run[0] == State(max, [], [], Free) && forall i :: 0 <= i < |run| - 1 ==> StepAt(run, i)
  }

  ghost predicate StepAt(run: seq<State>, i: nat)
    requires i + 1 < |run|
  {
    Next(run[i], run[i + 1])
  }

  // ---------------------------------------------------------------- invariant

  function Range(from: nat, to: nat): (r: seq<nat>)
    requires from <= to
    ensures |r| == to - from && forall i :: 0 <= i < |r| ==> r[i] == from + i
  {
    seq(to - from, i requires 0 <= i < to - from => from + i)
  }

  /** The stored runs are the newest ones, in start order. */
  ghost predicate IsSuffix(s: State) {
    |s.stored| <= |s.runs| && s.stored == Range(|s.runs| - |s.stored|, |s.runs|)
  }

  ghost predicate RunInv(r: Run) {
    (r.done <==> r.phase in {Finished, Pruned}) &&
    (if r.phase in {Waiting, Working} then !r.hasOutcome && !r.hasError && !r.aborted
     else (r.hasOutcome || r.hasError || r.aborted) && !(r.hasOutcome && r.hasError) &&
          (r.aborted ==> !r.hasOutcome && !r.hasError))
  }

  /** All runs but the newest are done, and so is the newest once it is no longer stored. */
  ghost predicate OlderDone(s: State) {
    forall i :: 0 <= i < |s.runs| && (i < |s.runs| - 1 || s.stored == []) ==> IsDone(s.runs, i)
  }

  predicate NewestPruned(s: State) { |s.runs| > 0 && s.runs[|s.runs| - 1].phase.Pruned? }

  ghost predicate LockInv(s: State) {
    match s.lock
    case Free => |s.stored| <= s.max + 1 && (NewestPruned(s) ==> |s.stored| <= s.max)
    case Checking(next) =>
      |s.stored| <= s.max + 1 && (NewestPruned(s) ==> |s.stored| <= s.max) && next <= |s.stored| &&
      forall i :: 0 <= i < next ==> IsDone(s.runs, s.stored[i])
    case Scanning(holder, next, completed) =>
      HolderInv(s, holder, |s.stored|) && next <= |s.stored| &&
      |s.stored| <= s.max + (if holder.Starter? then 2 else 1) &&
      (completed == s.stored[..next] ||
       (next == |s.stored| > 0 && completed == s.stored[..next - 1] && !(holder.Worker? && holder.id == |s.runs| - 1))) &&
      (forall i :: 0 <= i < |completed| ==> IsDone(s.runs, completed[i]))
    case Deleting(holder, victims) =>
      |victims| <= |s.stored| <= s.max + 2 && victims == s.stored[..|victims|] && |s.stored| - |victims| >= s.max &&
      HolderInv(s, holder, |s.stored| - |victims|) &&
      |s.stored| - |victims| <= s.max + 1 &&
      (holder.Worker? && holder.id == |s.runs| - 1 ==> |s.stored| - |victims| == s.max) &&
      forall i :: 0 <= i < |victims| ==> IsDone(s.runs, victims[i])
  }

  /** What the thread holding the lock knows; `left` is how many runs will stay stored. */
  ghost predicate HolderInv(s: State, holder: Holder, left: nat) {
    |s.runs| > 0 &&
    match holder
    case Starter => left > 0 && s.runs[|s.runs| - 1].phase.Waiting?
    case Worker(id) => id < |s.runs| && s.runs[id].phase.Pruned? && (id != |s.runs| - 1 && NewestPruned(s) ==> left <= s.max)
  }

  ghost predicate Inv(s: State) {
    IsSuffix(s) && OlderDone(s) && LockInv(s) && (forall r :: r in s.runs ==> RunInv(r)) &&
    (|s.stored| >= s.max || |s.stored| == |s.runs|)
  }

  /** The check of the next stored run: it is done, or the request is refused. */
  lemma CheckOneKeepsInv(s: State)
    requires Inv(s) && s.lock.Checking? && s.lock.next < |s.stored|
    ensures Inv(LockStep(s))
  {
  }

  /** No stored run is active, so the request is accepted. */
  lemma AcceptKeepsInv(s: State)
    requires Inv(s) && s.lock.Checking? && s.lock.next == |s.stored|
    ensures Inv(LockStep(s))
  {
    var s' := LockStep(s);
    StoredDone(s);
    forall i | 0 <= i < |s.runs| ensures IsDone(s'.runs, i) {
      assert IsDone(s.runs, i);
    }
    RangeGrows(|s.runs| - |s.stored|, |s.runs|);
    assert s'.stored[..0] == [];
  }

  lemma StoredDone(s: State)
    requires IsSuffix(s) && OlderDone(s) && forall i :: 0 <= i < |s.stored| ==> IsDone(s.runs, s.stored[i])
    ensures forall i :: 0 <= i < |s.runs| ==> IsDone(s.runs, i)
  {
    forall i | 0 <= i < |s.runs| ensures IsDone(s.runs, i) {
      if i == |s.runs| - 1 && s.stored != [] {
        assert s.stored[|s.stored| - 1] == i;
      }
    }
  }

  lemma RangeGrows(from: nat, to: nat)
    requires from <= to
    ensures Range(from, to) + [to] == Range(from, to + 1)
  {
  }

  lemma ScanOneKeepsInv(s: State)
    requires Inv(s) && s.lock.Scanning? && s.lock.next < |s.stored|
    ensures Inv(LockStep(s))
  {
    var Scanning(holder, next, completed) := s.lock;
    var newest := |s.runs| - 1;
    assert s.runs[newest] in s.runs && RunInv(s.runs[newest]);
    var id := s.stored[next];
    assert id == |s.runs| - |s.stored| + next;
    assert id < newest ==> IsDone(s.runs, id);
    assert s.stored[..next + 1] == s.stored[..next] + [id];
    assert s.stored[..next + 1][..next] == s.stored[..next];
  }

  lemma ScanEndKeepsInv(s: State)
    requires Inv(s) && s.lock.Scanning? && s.lock.next == |s.stored|
    ensures Inv(LockStep(s))
  {
    var Scanning(holder, next, completed) := s.lock;
    var newest := |s.runs| - 1;
    assert s.runs[newest] in s.runs && RunInv(s.runs[newest]);
    assert s.stored[..next] == s.stored;
    if completed == s.stored && next > 0 {
      assert s.stored[next - 1] == newest && IsDone(s.runs, completed[next - 1]);
    }
    if |completed| > s.max {
      var n := |completed| - s.max;
      assert completed[..n] == s.stored[..n];
      assert forall i :: 0 <= i < n ==> completed[..n][i] == completed[i];
    }
  }

  lemma DeletingKeepsInv(s: State)
    requires Inv(s) && s.lock.Deleting?
    ensures Inv(LockStep(s))
  {
    var Deleting(holder, victims) := s.lock;
    if |victims| > 0 {
      var s' := LockStep(s);
      assert victims[0] == s.stored[0];
      assert s'.stored == s.stored[1..];
      assert s.stored[1..] == Range(|s.runs| - |s.stored| + 1, |s.runs|);
      assert victims[1..] == s'.stored[..|victims| - 1];
      assert forall i :: 0 <= i < |victims[1..]| ==> victims[1..][i] == victims[i + 1];
      if s'.stored == [] {
        assert victims[0] == |s.runs| - 1;
        assert IsDone(s.runs, victims[0]);
      }
    }
  }

  lemma ThreadKeepsRuns(s: State, s': State, id: nat)
    requires (forall r :: r in s.runs ==> RunInv(r)) && id < |s.runs| && ThreadStep(s, s', id)
    ensures |s'.runs| == |s.runs| && forall r :: r in s'.runs ==> RunInv(r)
    ensures forall i :: IsDone(s.runs, i) ==> IsDone(s'.runs, i)
  {
    assert s.runs[id] in s.runs;
    assert RunInv(s'.runs[id]);
    forall r | r in s'.runs ensures RunInv(r) {
      var i :| 0 <= i < |s'.runs| && s'.runs[i] == r;
      if i != id {
        assert s.runs[i] == r && r in s.runs;
      }
    }
  }

  lemma ThreadKeepsInv(s: State, s': State, id: nat)
    requires Inv(s) && id < |s.runs| && ThreadStep(s, s', id)
    ensures Inv(s')
  {
    ThreadKeepsRuns(s, s', id);
    forall i | 0 <= i < |s'.runs| && (i < |s'.runs| - 1 || s'.stored == []) ensures IsDone(s'.runs, i) {
      assert IsDone(s.runs, i);
    }
    ThreadKeepsLock(s, s', id);
  }

  lemma ThreadKeepsLock(s: State, s': State, id: nat)
    requires LockInv(s) && id < |s.runs| && ThreadStep(s, s', id)
    requires |s'.runs| == |s.runs| && forall i :: IsDone(s.runs, i) ==> IsDone(s'.runs, i)
    ensures LockInv(s')
  {
    assert forall i :: 0 <= i < |s.runs| && i != id ==> s'.runs[i] == s.runs[i];
    if s.lock.Free? {
      assert s.stored[..0] == [];
    } else {
      assert NewestPruned(s') <==> NewestPruned(s);
    }
  }

  lemma NextKeepsInv(s: State, s': State)
    requires Inv(s) && Next(s, s')
    ensures Inv(s')
  {
    if s.lock.Free? && s' == s.(lock := Checking(0)) {
    } else if !s.lock.Free? && s' == LockStep(s) {
      match s.lock {
        case Checking(next) => if next < |s.stored| { CheckOneKeepsInv(s); } else { AcceptKeepsInv(s); }
        case Scanning(_, next, _) => if next < |s.stored| { ScanOneKeepsInv(s); } else { ScanEndKeepsInv(s); }
        case Deleting(_, _) => DeletingKeepsInv(s);
      }
    } else {
      var id: nat :| id < |s.runs| && ThreadStep(s, s', id);
      ThreadKeepsInv(s, s', id);
    }
  }

  lemma {:induction false} TraceKeepsInv(run: seq<State>, max: nat, n: nat)
    requires Trace(run, max) && n < |run|
    ensures Inv(run[n]) && run[n].max == max
  {
    if n > 0 {
      TraceKeepsInv(run, max, n - 1);
      assert StepAt(run, n - 1);
      NextKeepsInv(run[n - 1], run[n]);
    }
  }

  /** In every reachable state with the lock free: at most one run is not done and it is the
      newest; the stored runs are a suffix of the start history with between min(started, M) and
      M+1 runs (at most M once the newest run's worker has pruned); and whatever was evicted was
      done. The last two also hold while the lock is held, up to M+2 runs in start(). */
  lemma RegistryIsSuffixOfHistory(run: seq<State>, max: nat, n: nat)
    requires Trace(run, max) && n < |run|
    ensures var s := run[n];
            (forall i :: 0 <= i < |s.runs| - 1 ==> s.runs[i].done) &&
            IsSuffix(s) && (|s.stored| >= max || |s.stored| == |s.runs|) && |s.stored| <= max + 2 &&
            (forall i :: 0 <= i < |s.runs| - |s.stored| ==> s.runs[i].done) &&
            (s.lock.Free? ==> |s.stored| <= max + 1 && (NewestPruned(s) ==> |s.stored| <= max))
  {
    TraceKeepsInv(run, max, n);
    var s := run[n];
    forall i | 0 <= i < |s.runs| - 1 ensures s.runs[i].done {
      assert IsDone(s.runs, i);
    }
    forall i | 0 <= i < |s.runs| - |s.stored| ensures s.runs[i].done {
      assert IsDone(s.runs, i);
    }
  }

  datatype Status = NotFound | StillRunning | Failed | Complete

  /** `_assess_result`, on the run `registry.get` returned. */
  function AssessResult(run: Option<Run>): Status {
    match run
    case None => NotFound
    case Some(r) => if !r.done then StillRunning else if r.hasError then Failed else Complete
  }

  function Lookup(s: State, id: nat): Option<Run> {
    if id in s.stored && id < |s.runs| then Some(s.runs[id]) else None
  }

  /** What the GUI is told about a started run: running exactly while it is not done; gone only when it
      is done and was evicted; and otherwise failed exactly when it left an error, and complete
      exactly when it left an outcome or was aborted by a BaseException. A done run that was not
      aborted left exactly one of the two. */
  lemma ResultIsTruthful(run: seq<State>, max: nat, n: nat, id: nat)
    requires Trace(run, max) && n < |run| && id < |run[n].runs|
    ensures var s := run[n]; var r := s.runs[id]; var answer := AssessResult(Lookup(s, id));
            (answer == StillRunning <==> !r.done) &&
            (answer == NotFound <==> r.done && id !in s.stored) &&
            (answer == Failed <==> r.done && id in s.stored && r.hasError) &&
            (answer == Complete <==> r.done && id in s.stored && (r.hasOutcome || r.aborted)) &&
            (r.done && !r.aborted ==> r.hasOutcome != r.hasError)
  {
    TraceKeepsInv(run, max, n);
    var s := run[n];
    assert s.runs[id] in s.runs;
    assert RunInv(s.runs[id]);
    if !s.runs[id].done {
      assert !IsDone(s.runs, id);
      assert id == |s.runs| - 1 && s.stored != [];
      assert s.stored[|s.stored| - 1] == id;
    }
  }

  // ---------------------------------------------------------------- the sequential code

  function Completed(ids: seq<nat>, done: set<nat>): seq<nat> {
    if |ids| == 0 then [] else (if ids[0] in done then [ids[0]] else []) + Completed(ids[1..], done)
  }

  function WithoutAll(ids: seq<nat>, victims: seq<nat>): seq<nat>
    decreases |victims|
  {
    if |victims| == 0 then ids else WithoutAll(Without(ids, victims[0]), victims[1..])
  }

  /** What is left after a prune: the oldest completed runs beyond `max` are gone. */
  function Evicted(ids: seq<nat>, done: set<nat>, max: nat): seq<nat> {
    var completed := Completed(ids, done);
    if |completed| > max then WithoutAll(ids, completed[..|completed| - max]) else ids
  }

  ghost predicate Unique(ids: seq<nat>) { forall i, j :: 0 <= i < j < |ids| ==> ids[i] != ids[j] }

  /** `ids` are the newest of the started runs, in order. */
  ghost predicate IsTail(ids: seq<nat>, history: seq<nat>) {
    |ids| <= |history| && ids == history[|history| - |ids|..]
  }

  /** Every started run is done, but perhaps the newest while it is stored. */
  ghost predicate OthersDone(done: set<nat>, history: seq<nat>, stored: nat) {
    forall i :: 0 <= i < |history| && (i < |history| - 1 || stored == 0) ==> history[i] in done
  }

  ghost predicate Started(done: set<nat>, history: seq<nat>) { forall id :: id in done ==> id in history }

  /** The stored runs are the newest of all runs ever started, at most `max` completed ones and one
      more; whatever else was started is done, and so are all stored runs but the newest. */
  ghost predicate Kept(ids: seq<nat>, done: set<nat>, history: seq<nat>, max: nat) {
    Unique(history) && IsTail(ids, history) && OthersDone(done, history, |ids|) && Started(done, history) &&
    (|ids| >= max || |ids| == |history|) && |ids| <= max + 1
  }

  /** Nothing stored is active exactly when nothing ever started is. */
  lemma AllDone(ids: seq<nat>, done: set<nat>, history: seq<nat>, max: nat)
    requires Kept(ids, done, history, max)
    ensures (forall id :: id in ids ==> id in done) <==> forall id :: id in history ==> id in done
  {
    forall id | id in ids ensures id in history {
      var i :| 0 <= i < |ids| && ids[i] == id;
      assert history[|history| - |ids| + i] == id;
    }
    assert |ids| > 0 ==> ids[|ids| - 1] == history[|history| - 1];
  }

  /** Pruning a tail whose runs but the newest are done leaves a tail. */
  lemma EvictedIsTail(ids: seq<nat>, done: set<nat>, history: seq<nat>, max: nat)
    requires IsTail(ids, history) && OthersDone(done, history, 1)
    ensures var completed := |ids| - if |ids| > 0 && ids[|ids| - 1] !in done then 1 else 0;
            IsTail(Evicted(ids, done, max), history) &&
            |Evicted(ids, done, max)| == if completed > max then |ids| - (completed - max) else |ids|
  {
    assert forall i :: 0 <= i < |ids| ==> ids[i] == history[|history| - |ids| + i];
    EvictedIsSuffix(ids, done, max);
    SuffixOfSuffix(history, |ids|, |Evicted(ids, done, max)|);
  }

  lemma SuffixOfSuffix(s: seq<nat>, m: nat, n: nat)
    requires n <= m <= |s|
    ensures s[|s| - m..][m - n..] == s[|s| - n..]
  {
  }

  lemma TailGrows(ids: seq<nat>, history: seq<nat>, id: nat)
    requires IsTail(ids, history)
    ensures IsTail(ids + [id], history + [id])
  {
  }

  lemma StartKeeps(ids: seq<nat>, done: set<nat>, history: seq<nat>, max: nat, id: nat, left: seq<nat>)
    requires Kept(ids, done, history, max) && id !in history && forall i :: i in history ==> i in done
    requires left == Evicted(ids + [id], done, max)
    ensures Kept(left, done, history + [id], max) && left != [] && left[|left| - 1] == id
  {
    TailGrows(ids, history, id);
    EvictedIsTail(ids + [id], done, history + [id], max);
  }

  lemma FinishKeeps(ids: seq<nat>, done: set<nat>, history: seq<nat>, max: nat, id: nat, flagged: set<nat>, left: seq<nat>)
    requires Kept(ids, done, history, max) && id in history && id !in done
    requires flagged == done + {id} && left == Evicted(ids, flagged, max)
    ensures Kept(left, flagged, history, max) && |left| <= max
  {
    AllFlagged(done, history, |ids|, id);
    if |ids| > 0 {
      TailEnd(ids, history);
    }
    EvictedIsTail(ids, flagged, history, max);
  }

  /** The one run that is not done is the newest; once it is flagged, all are done. */
  lemma AllFlagged(done: set<nat>, history: seq<nat>, stored: nat, id: nat)
    requires OthersDone(done, history, stored) && Started(done, history) && id in history && id !in done
    ensures id == history[|history| - 1] && Started(done + {id}, history)
    ensures OthersDone(done + {id}, history, 0) && OthersDone(done + {id}, history, 1)
  {
  }

  lemma TailEnd(ids: seq<nat>, history: seq<nat>)
    requires IsTail(ids, history) && |ids| > 0
    ensures ids[|ids| - 1] == history[|history| - 1]
  {
  }

  /** A started run that is not done is the newest, and stored. */
  lemma Unfinished(ids: seq<nat>, done: set<nat>, history: seq<nat>, max: nat, id: nat)
    requires Kept(ids, done, history, max)
    ensures id in history && id !in done ==> id in ids
    ensures id in ids ==> id in history
  {
    if id in history && id !in done {
      AllFlagged(done, history, |ids|, id);
      TailEnd(ids, history);
    }
    if id in ids {
      var i :| 0 <= i < |ids| && ids[i] == id;
      assert history[|history| - |ids| + i] == id;
    }
  }

  /** The registry object, its methods running without interference. `history` are all runs ever
      started. */
  class Registry {
    const maxCompleted: nat
    var ids: seq<nat>
    var done: set<nat>
    ghost var history: seq<nat>

    ghost predicate Valid()
      reads this
    {
      Kept(ids, done, history, maxCompleted)
    }

    constructor (maxCompleted: nat)
      ensures Valid() && this.maxCompleted == maxCompleted && ids == [] && done == {} && history == []
    {
      this.maxCompleted := maxCompleted;
      ids, done, history := [], {}, [];
    }

    method HasActiveRunLocked() returns (active: bool)
      ensures active <==> exists id :: id in ids && id !in done
    {
      var i := 0;
      while i < |ids|
        invariant 0 <= i <= |ids| && forall j :: 0 <= j < i ==> ids[j] in done
      {
        if ids[i] !in done {
          return true;
        }
        i := i + 1;
      }
      active := false;
    }

    /** Refused exactly while a run is active; otherwise the new run is stored last. */
    method Start(id: nat) returns (started: bool)
      requires Valid() && id !in history
      modifies this`ids, this`history
      ensures Valid() && history == if started then old(history) + [id] else old(history)
      ensures started <==> forall i :: i in old(history) ==> i in done
      ensures ids == if started then Evicted(old(ids) + [id], done, maxCompleted) else old(ids)
      ensures started ==> |ids| > 0 && ids[|ids| - 1] == id
    {
      var active := HasActiveRunLocked();
      AllDone(ids, done, history, maxCompleted);
      if active {
        return false;
      }
      ghost var left := Evicted(ids + [id], done, maxCompleted);
      StartKeeps(ids, done, history, maxCompleted, id, left);
      history := history + [id];
      ids := ids + [id];
      PruneCompletedLocked();
      assert ids == left;
      started := true;
    }

    /** The end of a worker: its run is flagged done, then the registry is pruned. */
    method Finish(id: nat)
      requires Valid() && id in history && id !in done
      modifies this`ids, this`done
      ensures Valid() && done == old(done) + {id}
      ensures ids == Evicted(old(ids), done, maxCompleted) && |ids| <= maxCompleted
    {
      ghost var flagged := done + {id};
      ghost var left := Evicted(ids, flagged, maxCompleted);
      FinishKeeps(ids, done, history, maxCompleted, id, flagged, left);
      done := done + {id};
      PruneCompletedLocked();
      assert ids == left && done == flagged;
    }

    method CompletedLocked() returns (completed: seq<nat>)
      ensures completed == Completed(ids, done)
    {
      completed := [];
      var i := 0;
      while i < |ids|
        invariant 0 <= i <= |ids|
        invariant completed + Completed(ids[i..], done) == Completed(ids, done)
      {
        assert ids[i..][0] == ids[i] && ids[i..][1..] == ids[i + 1..];
        if ids[i] in done {
          completed := completed + [ids[i]];
        }
        i := i + 1;
      }
      assert completed + [] == completed;
    }

    method PruneCompletedLocked()
      modifies this`ids
      ensures ids == Evicted(old(ids), done, maxCompleted)
    {
      var completed := CompletedLocked();
      var overflow := |completed| - maxCompleted;
      if overflow <= 0 {
        return;
      }
      var victims := completed[..overflow];
      var k := 0;
      while k < |victims|
        invariant 0 <= k <= |victims|
        invariant WithoutAll(ids, victims[k..]) == WithoutAll(old(ids), victims)
      {
        assert victims[k..][0] == victims[k] && victims[k..][1..] == victims[k + 1..];
        ids := Without(ids, victims[k]);
        k := k + 1;
      }
    }

    /** `get`: exactly the `|ids|` newest of the runs ever started are known, and every run that is
        not done is among them. */
    method Get(id: nat) returns (found: bool)
      requires Valid()
      ensures found <==> id in history[|history| - |ids|..]
      ensures id in history && id !in done ==> found
      ensures found ==> id in history
    {
      Unfinished(ids, done, history, maxCompleted, id);
      found := id in ids;
    }
  }

  /** When all stored runs but possibly the last are done, pruning drops a prefix: exactly the
      runs in excess of `max` completed ones, oldest first, and never one that is not done. */
  lemma EvictedIsSuffix(ids: seq<nat>, done: set<nat>, max: nat)
    requires forall i :: 0 <= i < |ids| - 1 ==> ids[i] in done
    ensures var completed := |ids| - if |ids| > 0 && ids[|ids| - 1] !in done then 1 else 0;
            Evicted(ids, done, max) == if completed > max then ids[completed - max..] else ids
  {
    CompletedOfPrefix(ids, done);
    var completed := Completed(ids, done);
    if |completed| > max {
      WithoutPrefix(ids, |completed| - max);
      assert completed[..|completed| - max] == ids[..|completed| - max];
    }
  }

  lemma {:induction false} CompletedOfPrefix(ids: seq<nat>, done: set<nat>)
    requires forall i :: 0 <= i < |ids| - 1 ==> ids[i] in done
    ensures Completed(ids, done) == if |ids| > 0 && ids[|ids| - 1] !in done then ids[..|ids| - 1] else ids
  {
    if |ids| > 0 {
      CompletedOfPrefix(ids[1..], done);
      assert ids == [ids[0]] + ids[1..];
      if |ids| > 1 {
        assert ids[..|ids| - 1] == [ids[0]] + ids[1..][..|ids| - 2];
      }
    }
  }

  lemma {:induction false} WithoutPrefix(ids: seq<nat>, n: nat)
    requires n <= |ids|
    ensures WithoutAll(ids, ids[..n]) == ids[n..]
  {
    if n > 0 {
      WithoutPrefix(ids[1..], n - 1);
      assert ids[..n][1..] == ids[1..][..n - 1];
      assert ids[1..][n - 1..] == ids[n..];
    }
  }
}
