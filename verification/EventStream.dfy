/** The events of one GUI run on their way to the browser: the worker side of `gui/runs.py`
    (`on_event` and `worker`) and the reader `_stream_events` of `gui/server.py`, interleaved
    step by step. Every step is one locked block, one queue operation or one write. */
module EventStream {

  /** What travels: a progress event, the error event, or `None`; the reader writes the last
      one as its "done" message. */
  datatype Item = Progress(event: int) | ErrorEvent | Done

  /** The worker thread. `Settled` is the entry of its `finally` block. */
  datatype Worker = Running | Appended(event: int) | Raised | Settled | Flagged | Exited

  /** The one reader; `left` are the events of its snapshot still to be written. */
  datatype Reader = NotOpened | Replaying(left: seq<int>) | Draining | Closed

  /** `puts` is everything ever put on the queue and `taken` how much of it was taken;
      `snapshot` and `openedDone` are what the reader copied under the run lock. */
  datatype State = State(
    events: seq<int>, puts: seq<Item>, taken: nat, done: bool, failed: bool, worker: Worker,
    reader: Reader, snapshot: seq<int>, openedDone: bool, output: seq<Item>)

  const START := State([], [], 0, false, false, Running, NotOpened, [], false, [])

  ghost predicate WorkerNext(s: State, s': State) {
    match s.worker
    case Running =>
      (exists e :: s' == s.(events := s.events + [e], worker := Appended(e))) ||  // on_event, under the lock
      s' == s.(worker := Settled) ||                                              // pipeline returned
      s' == s.(failed := true, worker := Raised)                                  // pipeline raised
    case Appended(e) => s' == s.(puts := s.puts + [Progress(e)], worker := Running)
    case Raised => s' == s.(puts := s.puts + [ErrorEvent], worker := Settled)
    case Settled => s' == s.(done := true, worker := Flagged)
    case Flagged => s' == s.(puts := s.puts + [Done], worker := Exited)
    case Exited => false
  }

  /** The reader can move unless it is through or waits on an empty queue. */
  predicate ReaderEnabled(s: State) {
    match s.reader
    case Draining => s.taken < |s.puts|
    case Closed => false
    case _ => true
  }

  function ReaderStep(s: State): State
    requires ReaderEnabled(s)
  {
    match s.reader
    case NotOpened => s.(snapshot := s.events, openedDone := s.done, reader := Replaying(s.events))
    case Replaying(left) =>
      if |left| > 0 then s.(output := s.output + [Progress(left[0])], reader := Replaying(left[1..]))
      else if s.openedDone then s.(output := s.output + [Done], reader := Closed)
      else s.(reader := Draining)
    case Draining =>
      s.(taken := s.taken + 1, output := s.output + [s.puts[s.taken]],
         reader := if s.puts[s.taken].Done? then Closed else Draining)
  }

  ghost predicate ReaderNext(s: State, s': State) { ReaderEnabled(s) && s' == ReaderStep(s) }

  ghost predicate Next(s: State, s': State) { WorkerNext(s, s') || ReaderNext(s, s') }

  ghost predicate Run(run: seq<State>) {
    |run| > 0 && run[0] == START && forall i :: 0 <= i < |run| - 1 ==> StepAt(run, i)
  }

  ghost predicate StepAt(run: seq<State>, i: nat)
    requires i + 1 < |run|
  {
    Next(run[i], run[i + 1])
  }

  function AllProgress(events: seq<int>): (items: seq<Item>)
    ensures |items| == |events| && forall i :: 0 <= i < |items| ==> items[i] == Progress(events[i])
  {
    seq(|events|, i requires 0 <= i < |events| => Progress(events[i]))
  }

  function ErrorTail(failed: bool): seq<Item> { if failed then [ErrorEvent] else [] }

  /** Everything that goes through the queue, once the worker is through. */
  function Complete(events: seq<int>, failed: bool): seq<Item> {
    AllProgress(events) + ErrorTail(failed) + [Done]
  }

  ghost predicate WorkerInv(s: State) {
    (s.done <==> s.worker in {Flagged, Exited}) &&
    match s.worker
    case Running => !s.failed && s.puts == AllProgress(s.events)
    case Appended(e) => !s.failed && |s.events| > 0 && e == s.events[|s.events| - 1] && s.puts == AllProgress(s.events[..|s.events| - 1])
    case Raised => s.failed && s.puts == AllProgress(s.events)
    case Exited => s.puts == Complete(s.events, s.failed)
    case _ => s.puts == AllProgress(s.events) + ErrorTail(s.failed)
  }

  ghost predicate ReaderInv(s: State) {
    s.taken <= |s.puts| && s.snapshot <= s.events && (s.openedDone ==> s.done && s.snapshot == s.events) &&
    match s.reader
    case NotOpened => s.taken == 0 && s.output == [] && !s.openedDone
    case Replaying(left) =>
      s.taken == 0 && |left| <= |s.snapshot| && left == s.snapshot[|s.snapshot| - |left|..] &&
      s.output == AllProgress(s.snapshot[..|s.snapshot| - |left|])
    case Draining => !s.openedDone && Done !in s.puts[..s.taken] && s.output == AllProgress(s.snapshot) + s.puts[..s.taken]
    case Closed =>
      if s.openedDone then s.output == AllProgress(s.snapshot) + [Done]
      else s.worker.Exited? && s.output == AllProgress(s.snapshot) + s.puts
  }

  ghost predicate Inv(s: State) { WorkerInv(s) && ReaderInv(s) }

  lemma DoneComesLast(s: State)
    requires WorkerInv(s)
    ensures forall i :: 0 <= i < |s.puts| && s.puts[i].Done? ==> s.worker.Exited? && i == |s.puts| - 1
  {
  }

  lemma WorkerKeepsWorkerInv(s: State, s': State)
    requires WorkerInv(s) && WorkerNext(s, s')
    ensures WorkerInv(s')
  {
    match s.worker {
      case Running =>
        assert s'.events != s.events ==> s'.events[..|s'.events| - 1] == s.events;
        assert AllProgress(s.events) + ErrorTail(false) == AllProgress(s.events);
      case Appended(e) =>
        assert AllProgress(s.events) == AllProgress(s.events[..|s.events| - 1]) + [Progress(e)];
      case _ =>
    }
  }

  /** What a worker step looks like to the reader: events and queue only grow, and the events
      not at all once the run is flagged done. */
  lemma WorkerOnlyAppends(s: State, s': State)
    requires WorkerInv(s) && WorkerNext(s, s')
    ensures s.events <= s'.events && s.puts <= s'.puts && (s.done ==> s'.done && s'.events == s.events)
    ensures s' == s.(events := s'.events, puts := s'.puts, done := s'.done, failed := s'.failed, worker := s'.worker)
    ensures !s.worker.Exited?
  {
  }

  lemma WorkerKeepsInv(s: State, s': State)
    requires Inv(s) && WorkerNext(s, s')
    ensures Inv(s')
  {
    WorkerKeepsWorkerInv(s, s');
    WorkerOnlyAppends(s, s');
    assert s'.puts[..s.taken] == s.puts[..s.taken];
  }

  lemma ReplayKeepsInv(s: State, s': State)
    requires Inv(s) && ReaderNext(s, s') && s.reader.Replaying?
    ensures ReaderInv(s')
  {
    var left := s.reader.left;
    var n := |s.snapshot| - |left|;
    if |left| > 0 {
      ReplayOne(s.snapshot, n);
      assert left[1..] == s.snapshot[n + 1..];
    } else {
      ReplayedAll(s.snapshot, n, s.puts);
    }
  }

  lemma ReplayOne(snapshot: seq<int>, n: nat)
    requires n < |snapshot|
    ensures snapshot[n..][0] == snapshot[n] && snapshot[n..][1..] == snapshot[n + 1..]
    ensures AllProgress(snapshot[..n + 1]) == AllProgress(snapshot[..n]) + [Progress(snapshot[n])]
  {
  }

  lemma ReplayedAll(snapshot: seq<int>, n: nat, puts: seq<Item>)
    requires n == |snapshot|
    ensures snapshot[..n] == snapshot && AllProgress(snapshot) + puts[..0] == AllProgress(snapshot)
    ensures Done !in puts[..0]
  {
  }

  lemma OpenKeepsInv(s: State, s': State)
    requires Inv(s) && ReaderNext(s, s') && s.reader.NotOpened?
    ensures ReaderInv(s')
  {
    assert s.events[..0] == [] && s.events[0..] == s.events;
  }

  lemma DrainKeepsInv(s: State, s': State)
    requires Inv(s) && ReaderNext(s, s') && s.reader.Draining?
    ensures ReaderInv(s')
  {
    DoneComesLast(s);
    var item := s.puts[s.taken];
    assert s.puts[..s.taken + 1] == s.puts[..s.taken] + [item];
    assert s'.output == AllProgress(s.snapshot) + s.puts[..s.taken + 1];
    if item.Done? {
      assert s.puts[..s.taken + 1] == s.puts;
    }
  }

  lemma ReaderKeepsReaderInv(s: State, s': State)
    requires Inv(s) && ReaderNext(s, s')
    ensures ReaderInv(s')
  {
    match s.reader {
      case NotOpened => OpenKeepsInv(s, s');
      case Replaying(_) => ReplayKeepsInv(s, s');
      case _ => DrainKeepsInv(s, s');
    }
  }

  lemma ReaderKeepsWorkerInv(s: State, s': State)
    requires WorkerInv(s) && ReaderNext(s, s')
    ensures WorkerInv(s')
  {
    assert s'.events == s.events && s'.puts == s.puts && s'.done == s.done && s'.failed == s.failed && s'.worker == s.worker;
  }

  lemma ReaderKeepsInv(s: State, s': State)
    requires Inv(s) && ReaderNext(s, s')
    ensures Inv(s')
  {
    ReaderKeepsReaderInv(s, s');
    ReaderKeepsWorkerInv(s, s');
  }

  lemma {:induction false} RunKeepsInv(run: seq<State>, n: nat)
    requires Run(run) && n < |run|
    ensures Inv(run[n])
  {
    if n > 0 {
      RunKeepsInv(run, n - 1);
      assert StepAt(run, n - 1);
      NextKeepsInv(run[n - 1], run[n]);
    }
  }

  lemma NextKeepsInv(s: State, s': State)
    requires Inv(s) && Next(s, s')
    ensures Inv(s')
  {
    if WorkerNext(s, s') {
      WorkerKeepsInv(s, s');
    } else {
      ReaderKeepsInv(s, s');
    }
  }

  /** In every interleaving, a stream that has closed was either opened after completion and is
      all of `events`, or is a prefix of `events` followed by the complete queued sequence, in
      order. It ends with its only "done", and no progress event is missing. */
  lemma StreamDelivers(run: seq<State>, n: nat)
    requires Run(run) && n < |run| && run[n].reader.Closed?
    ensures var s := run[n];
            s.worker in {Flagged, Exited} &&
            (if s.openedDone then s.output == AllProgress(s.events) + [Done]
             else s.snapshot <= s.events && s.output == AllProgress(s.snapshot) + Complete(s.events, s.failed)) &&
            s.output[|s.output| - 1] == Done && Done !in s.output[..|s.output| - 1] &&
            forall e :: e in s.events ==> Progress(e) in s.output
  {
    RunKeepsInv(run, n);
    var s := run[n];
    forall e | e in s.events ensures Progress(e) in s.output {
      var i :| 0 <= i < |s.events| && s.events[i] == e;
      var all := AllProgress(s.events);
      assert all[i] == Progress(e) && all[i] in all;
      assert s.output == AllProgress(s.snapshot) + (if s.openedDone then [Done] else Complete(s.events, s.failed));
    }
  }

  /** `snapshot` and `openedDone` are what the run looked like when the reader opened the stream. */
  lemma {:induction false} SnapshotIsTaken(run: seq<State>, m: nat, n: nat)
    requires Run(run) && m < n < |run| && run[m].reader.NotOpened? && !run[m + 1].reader.NotOpened?
    ensures !run[n].reader.NotOpened? && run[n].openedDone == run[m].done && run[n].snapshot == run[m].events
    decreases n
  {
    assert StepAt(run, n - 1);
    if m + 1 < n {
      SnapshotIsTaken(run, m, n - 1);
    }
  }

  /** The error event reaches a reader exactly when it had opened the stream before the run was
      flagged done: it is queued but never stored in `events`. */
  lemma ErrorEventReachesEarlyReaders(run: seq<State>, n: nat)
    requires Run(run) && n < |run| && run[n].reader.Closed?
    ensures ErrorEvent in run[n].output <==> run[n].failed && !run[n].openedDone
  {
    StreamDelivers(run, n);
    var s := run[n];
    if s.failed && !s.openedDone {
      assert s.output[|s.snapshot| + |s.events|] == ErrorEvent;
    }
  }

  /** What the reader still has to do once the worker is through. */
  function ReaderWork(s: State): nat {
    match s.reader
    case NotOpened => |s.events| + |s.puts| + 3
    case Replaying(left) => |left| + |s.puts| + 2
    case Draining => if s.taken < |s.puts| then |s.puts| - s.taken + 1 else 1
    case Closed => 0
  }

  ghost predicate ReaderRun(run: seq<State>) {
    |run| > 0 && forall i :: 0 <= i < |run| - 1 ==> ReaderNext(run[i], run[i + 1])
  }

  lemma ExitedEnablesReader(s: State)
    requires Inv(s) && s.worker.Exited? && !s.reader.Closed?
    ensures ReaderEnabled(s) && ReaderWork(ReaderStep(s)) < ReaderWork(s) && ReaderStep(s).worker.Exited?
  {
    if s.reader.Draining? {
      DoneStillQueued(s.puts, s.taken);
    }
  }

  lemma DoneStillQueued(puts: seq<Item>, taken: nat)
    requires taken <= |puts| && |puts| > 0 && puts[|puts| - 1] == Done && Done !in puts[..taken]
    ensures taken < |puts|
  {
    assert puts[..|puts|] == puts;
  }

  /** A worker that is through never leaves the reader blocked: by its own steps alone the
      reader reaches the end of the stream. */
  lemma {:induction false} ReaderFinishes(s: State) returns (run: seq<State>)
    requires Inv(s) && s.worker.Exited?
    ensures ReaderRun(run) && run[0] == s && run[|run| - 1].reader.Closed?
    decreases ReaderWork(s)
  {
    if s.reader.Closed? {
      run := [s];
    } else {
      ExitedEnablesReader(s);
      var s' := ReaderStep(s);
      ReaderKeepsInv(s, s');
      var rest := ReaderFinishes(s');
      run := [s] + rest;
      assert forall i :: 0 < i < |run| ==> run[i] == rest[i - 1];
    }
  }

  /** The worker never waits for the reader: until it has exited, a step of its own is enabled. */
  lemma WorkerNeverBlocks(s: State)
    requires !s.worker.Exited?
    ensures exists s' :: WorkerNext(s, s')
  {
    var s' := match s.worker
      case Running => s.(worker := Settled)
      case Appended(e) => s.(puts := s.puts + [Progress(e)], worker := Running)
      case Raised => s.(puts := s.puts + [ErrorEvent], worker := Settled)
      case Settled => s.(done := true, worker := Flagged)
      case _ => s.(puts := s.puts + [Done], worker := Exited);
    assert WorkerNext(s, s');
  }

  // ---------------------------------------------------------------- the reader's loop

  /** Everything the queue delivers up to and including the first `None`. */
  function UntilDone(items: seq<Item>): seq<Item> {
    if |items| == 0 then [] else if items[0].Done? then [Done] else [items[0]] + UntilDone(items[1..])
  }

  /** `_stream_events`: `already` and `alreadyDone` were copied under the run lock, `incoming` is
      what successive `queue.get()` calls return, up to a `None`. */
  method StreamEvents(already: seq<int>, alreadyDone: bool, incoming: seq<Item>) returns (output: seq<Item>)
    requires !alreadyDone ==> Done in incoming
    ensures output == AllProgress(already) + if alreadyDone then [Done] else UntilDone(incoming)
  {
    output := [];
    var i := 0;
    while i < |already|
      invariant 0 <= i <= |already|
      invariant output == AllProgress(already)[..i]
    {
      output := output + [Progress(already[i])];
      i := i + 1;
    }
    assert output == AllProgress(already);
    if alreadyDone {
      return output + [Done];
    }
    var k := 0;
    while true
      invariant 0 <= k <= |incoming| && Done in incoming[k..]
      invariant output + UntilDone(incoming[k..]) == AllProgress(already) + UntilDone(incoming)
      decreases |incoming| - k
    {
      var event := incoming[k];
      assert incoming[k..][0] == event && incoming[k..][1..] == incoming[k + 1..];
      if event.Done? {
        return output + [Done];
      }
      output := output + [event];
      k := k + 1;
    }
  }

  /** In the protocol the loop is fed the complete sequence and stops at its very end. */
  lemma LoopMatchesProtocol(events: seq<int>, failed: bool)
    ensures UntilDone(Complete(events, failed)) == Complete(events, failed)
  {
    var body := AllProgress(events) + ErrorTail(failed);
    UntilDoneSkips(body);
  }

  lemma {:induction false} UntilDoneSkips(body: seq<Item>)
    requires Done !in body
    ensures UntilDone(body + [Done]) == body + [Done]
  {
    if |body| > 0 {
      UntilDoneSkips(body[1..]);
      assert (body + [Done])[1..] == body[1..] + [Done];
    }
  }
}
