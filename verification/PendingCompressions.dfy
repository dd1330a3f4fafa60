/** The set of unfinished compressions that all handlers of a process share. A handler snapshots the
    set when it rolls over and waits for every future in the snapshot before it renames anything; gzip
    workers and completion callbacks run at any time in between. Safety is proved for any number of workers
    (the executor is created on first use without a lock), progress for the one worker it is meant to have. */
module PendingCompressions {
  type Handler = nat
  type Future = nat

  // Each handler owns the files of its own directory and prefix; `file` is one of them.
  datatype Path = Path(owner: Handler, file: nat)

  datatype Status = Waiting | Running | Finished
  datatype Task = Task(path: Path, status: Status)

  // Where a handler is in doRollover: taking the snapshot is one step under the lock; `Submitted` and
  // `Added` are the two windows inside _compress_file_async.
  datatype Pc =
    | Idle
    | AwaitingResults(left: set<Future>)
    | Renaming
    | Submitted(future: Future)
    | Added(future: Future)

  // `order` lists all futures as they were submitted.
  datatype State = State(pcs: map<Handler, Pc>, tasks: map<Future, Task>, order: seq<Future>,
                         pending: set<Future>, callbacks: set<Future>)

  datatype Step =
    | Snapshot(h: Handler)
    | ResultArrives(h: Handler, f: Future)
    | StartRenaming(h: Handler)
    | Submit(h: Handler, f: Future, path: Path)
    | SkipCompression(h: Handler)
    | AddPending(h: Handler)
    | AddCallback(h: Handler)
    | WorkerStarts(f: Future)
    | WorkerFinishes(f: Future)
    | CallbackRuns(f: Future)

  predicate Unfinished(s: State, f: Future) {
    f in s.tasks && s.tasks[f].status != Finished
  }

  predicate IsFinished(s: State, f: Future) {
    f in s.tasks && s.tasks[f].status == Finished
  }

  predicate Enabled(s: State, step: Step) {
    match step
    case Snapshot(h) => h in s.pcs && s.pcs[h] == Idle
    case ResultArrives(h, f) => h in s.pcs && s.pcs[h].AwaitingResults? && f in s.pcs[h].left && IsFinished(s, f)
    case StartRenaming(h) => h in s.pcs && s.pcs[h] == AwaitingResults({})
    case Submit(h, f, path) => h in s.pcs && s.pcs[h] == Renaming && f !in s.tasks && path.owner == h
    case SkipCompression(h) => h in s.pcs && s.pcs[h] == Renaming
    case AddPending(h) => h in s.pcs && s.pcs[h].Submitted?
    case AddCallback(h) => h in s.pcs && s.pcs[h].Added?
    case WorkerStarts(f) => f in s.tasks && s.tasks[f].status == Waiting
    case WorkerFinishes(f) => f in s.tasks && s.tasks[f].status == Running
    case CallbackRuns(f) => f in s.callbacks && IsFinished(s, f)
  }

  function Next(s: State, step: Step): State
    requires Enabled(s, step)
  {
    match step
    case Snapshot(h) => s.(pcs := s.pcs[h := AwaitingResults(s.pending)])
    case ResultArrives(h, f) => s.(pcs := s.pcs[h := AwaitingResults(s.pcs[h].left - {f})])
    case StartRenaming(h) => s.(pcs := s.pcs[h := Renaming])
    case Submit(h, f, path) =>
      s.(pcs := s.pcs[h := Submitted(f)], tasks := s.tasks[f := Task(path, Waiting)], order := s.order + [f])
    case SkipCompression(h) => s.(pcs := s.pcs[h := Idle])
    case AddPending(h) => s.(pcs := s.pcs[h := Added(s.pcs[h].future)], pending := s.pending + {s.pcs[h].future})
    case AddCallback(h) =>
      // A callback added to a finished future runs at once, in the handler's own thread.
      var f := s.pcs[h].future;
      if IsFinished(s, f) then s.(pcs := s.pcs[h := Idle], pending := s.pending - {f})
      else s.(pcs := s.pcs[h := Idle], callbacks := s.callbacks + {f})
    case WorkerStarts(f) => s.(tasks := s.tasks[f := s.tasks[f].(status := Running)])
    case WorkerFinishes(f) => s.(tasks := s.tasks[f := s.tasks[f].(status := Finished)])
    case CallbackRuns(f) => s.(pending := s.pending - {f}, callbacks := s.callbacks - {f})
  }

  ghost predicate Init(s: State) {
    && s.tasks == map[] && s.order == [] && s.pending == {} && s.callbacks == {}
    && forall h :: h in s.pcs ==> s.pcs[h] == Idle
  }

  /** A run is a sequence of states, each obtained from the one before by an enabled step. */
  ghost predicate IsRun(states: seq<State>, steps: seq<Step>) {
    && |states| == |steps| + 1
    && Init(states[0])
    && forall i :: 0 <= i < |steps| ==> Enabled(states[i], steps[i]) && states[i + 1] == Next(states[i], steps[i])
  }

  // --- The invariant ---

  /** A future between submission and registration belongs to exactly the handler that submitted it. */
  ghost predicate Owned(s: State) {
    forall h :: h in s.pcs && (s.pcs[h].Submitted? || s.pcs[h].Added?) ==>
      s.pcs[h].future in s.tasks && s.tasks[s.pcs[h].future].path.owner == h
  }

  ghost predicate Tracked(s: State, f: Future) {
    f in s.pending ||
    (f in s.tasks && s.tasks[f].path.owner in s.pcs && s.pcs[s.tasks[f].path.owner] == Submitted(f))
  }

  ghost predicate UnfinishedTracked(s: State) {
    forall f :: Unfinished(s, f) ==> Tracked(s, f)
  }

  /** A waiting handler is waiting for every unfinished compression of its own files. */
  ghost predicate WaitsForOwn(s: State) {
    forall h, f :: h in s.pcs && s.pcs[h].AwaitingResults? && Unfinished(s, f) && s.tasks[f].path.owner == h ==>
      f in s.pcs[h].left
  }

  ghost predicate RenamesFreely(s: State) {
    forall h, f :: h in s.pcs && s.pcs[h] == Renaming && f in s.tasks && s.tasks[f].path.owner == h ==>
      !Unfinished(s, f)
  }

  ghost predicate HasCallbackDue(s: State, f: Future) {
    f in s.tasks && s.tasks[f].path.owner in s.pcs && s.pcs[s.tasks[f].path.owner] == Added(f)
  }

  /** Whatever is in the set will be taken out: a callback is due or about to be added. */
  ghost predicate WillBeRemoved(s: State) {
    && s.callbacks <= s.pending
    && (forall f :: f in s.pending ==> f in s.callbacks || HasCallbackDue(s, f))
    && (forall f :: f in s.pending ==> f in s.tasks)
    && (forall h :: h in s.pcs && s.pcs[h].Submitted? ==> s.pcs[h].future !in s.pending)
    && (forall h :: h in s.pcs && s.pcs[h].Added? ==> s.pcs[h].future in s.pending && s.pcs[h].future !in s.callbacks)
  }

  ghost predicate Inv(s: State) {
    Owned(s) && UnfinishedTracked(s) && WaitsForOwn(s) && RenamesFreely(s) && WillBeRemoved(s)
  }

  lemma NextKeepsTracking(s: State, step: Step)
    requires Inv(s) && Enabled(s, step)
    ensures Owned(Next(s, step)) && UnfinishedTracked(Next(s, step))
  {
    var s' := Next(s, step);
    forall f | Unfinished(s', f)
      ensures Tracked(s', f)
    {
      assert Unfinished(s, f) ==> Tracked(s, f);
    }
  }

  lemma NextKeepsWaiting(s: State, step: Step)
    requires Inv(s) && Enabled(s, step)
    ensures WaitsForOwn(Next(s, step)) && RenamesFreely(Next(s, step))
  {
    var s' := Next(s, step);
    forall h, f | h in s'.pcs && f in s'.tasks && s'.tasks[f].path.owner == h && Unfinished(s', f)
      ensures s'.pcs[h].AwaitingResults? ==> f in s'.pcs[h].left
      ensures s'.pcs[h] != Renaming
    {
      if f in s.tasks {
        assert Unfinished(s, f) && Tracked(s, f);
      }
    }
  }

  lemma NextKeepsRemoval(s: State, step: Step)
    requires Owned(s) && WillBeRemoved(s) && Enabled(s, step)
    ensures WillBeRemoved(Next(s, step))
  {
  }

  lemma NextKeepsInv(s: State, step: Step)
    requires Inv(s) && Enabled(s, step)
    ensures Inv(Next(s, step))
  {
    NextKeepsTracking(s, step);
    NextKeepsWaiting(s, step);
    NextKeepsRemoval(s, step);
  }

  lemma {:induction false} RunKeepsInv(states: seq<State>, steps: seq<Step>, i: nat)
    requires IsRun(states, steps) && i <= |steps|
    ensures Inv(states[i])
  {
    if i > 0 {
      RunKeepsInv(states, steps, i - 1);
      assert Enabled(states[i - 1], steps[i - 1]) && states[(i - 1) + 1] == Next(states[i - 1], steps[i - 1]);
      NextKeepsInv(states[i - 1], steps[i - 1]);
    }
  }

  /** In every interleaving, while a handler renames its files no worker has one of them in hand or
      waiting for it. */
  lemma NoRenameUnderCompression(states: seq<State>, steps: seq<Step>, i: nat, h: Handler)
    requires IsRun(states, steps) && i <= |steps|
    requires h in states[i].pcs && states[i].pcs[h] == Renaming
    ensures forall f :: f in states[i].tasks && states[i].tasks[f].status != Finished ==>
      states[i].tasks[f].path.owner != h
  {
    RunKeepsInv(states, steps, i);
  }

  /** Finished compressions do not pile up: once no handler is inside a rollover and every compression
      and callback has run, the shared set is empty. */
  lemma QuiescentSetIsEmpty(states: seq<State>, steps: seq<Step>, i: nat)
    requires IsRun(states, steps) && i <= |steps|
    requires forall h :: h in states[i].pcs ==> states[i].pcs[h] == Idle
    requires forall f :: f in states[i].callbacks ==> !IsFinished(states[i], f)
    requires forall f :: f in states[i].tasks ==> !Unfinished(states[i], f)
    ensures states[i].pending == {}
  {
    RunKeepsInv(states, steps, i);
    var s := states[i];
    assert forall f :: f in s.pending ==> f in s.callbacks && !Unfinished(s, f) && f in s.tasks;
    assert forall f :: f in s.pending ==> !IsFinished(s, f);
  }

  // --- The one worker ---

  ghost predicate Listed(s: State) {
    && (forall f :: f in s.tasks <==> f in s.order)
    && (forall i, j :: 0 <= i < j < |s.order| ==> s.order[i] != s.order[j])
  }

  function IndexIn(order: seq<Future>, f: Future): (i: nat)
    requires f in order
    ensures i < |order| && order[i] == f
  {
    if order[0] == f then 0 else 1 + IndexIn(order[1..], f)
  }

  /** How far each compression is, in the order of submission. */
  ghost function Line(s: State): seq<Status>
    requires Listed(s)
  {
    seq(|s.order|, i requires 0 <= i < |s.order| => s.tasks[s.order[i]].status)
  }

  /** The worker takes compressions one at a time, in the order of submission. */
  ghost predicate IsNext(line: seq<Status>, k: nat) {
    && k < |line| && line[k] == Waiting
    && (forall j :: 0 <= j < |line| ==> line[j] != Running)
    && (forall j :: 0 <= j < k ==> line[j] != Waiting)
  }

  // What a step does to the line.
  datatype Move = Start(k: nat) | Finish(k: nat) | Append | Stay

  ghost function MoveOf(s: State, step: Step): Move
    requires Listed(s) && Enabled(s, step)
  {
    match step
    case Submit(_, _, _) => Append
    case WorkerStarts(f) => Start(IndexIn(s.order, f))
    case WorkerFinishes(f) => Finish(IndexIn(s.order, f))
    case _ => Stay
  }

  ghost predicate Allowed(line: seq<Status>, move: Move) {
    match move
    case Start(k) => IsNext(line, k)
    case Finish(k) => k < |line| && line[k] == Running
    case Append => true
    case Stay => true
  }

  ghost function Moved(line: seq<Status>, move: Move): seq<Status>
    requires Allowed(line, move)
  {
    match move
    case Start(k) => line[k := Running]
    case Finish(k) => line[k := Finished]
    case Append => line + [Waiting]
    case Stay => line
  }

  ghost predicate EnabledForOne(s: State, step: Step)
    requires Listed(s)
  {
    Enabled(s, step) && Allowed(Line(s), MoveOf(s, step))
  }

  predicate IsWorkerStep(step: Step) { step.WorkerStarts? || step.WorkerFinishes? }

  ghost predicate IsOneWorkerRun(states: seq<State>, steps: seq<Step>) {
    && IsRun(states, steps)
    && forall i :: 0 <= i < |steps| ==> Listed(states[i]) && EnabledForOne(states[i], steps[i])
  }

  lemma NextKeepsListed(s: State, step: Step)
    requires Listed(s) && Enabled(s, step)
    ensures Listed(Next(s, step)) && s.order <= Next(s, step).order
  {
  }

  lemma NextLine(s: State, step: Step)
    requires Listed(s) && EnabledForOne(s, step) && Listed(Next(s, step))
    ensures Line(Next(s, step)) == Moved(Line(s), MoveOf(s, step))
  {
    var s', line := Next(s, step), Moved(Line(s), MoveOf(s, step));
    assert |s'.order| == |line|;
    forall k | 0 <= k < |line|
      ensures Line(s')[k] == line[k]
    {
      NextStatus(s, step, k);
    }
  }

  lemma NextStatus(s: State, step: Step, k: nat)
    requires Listed(s) && Enabled(s, step) && k < |Next(s, step).order| && Listed(Next(s, step))
    ensures var s' := Next(s, step);
      s'.tasks[s'.order[k]].status ==
        if step.Submit? && k == |s.order| then Waiting
        else if step.WorkerStarts? && k == IndexIn(s.order, step.f) then Running
        else if step.WorkerFinishes? && k == IndexIn(s.order, step.f) then Finished
        else s.tasks[s.order[k]].status
  {
    match step
    case Submit(_, f, _) =>
      if k < |s.order| {
        assert s.order[k] in s.order && s.order[k] != f;
      }
    case WorkerStarts(f) => assert s.order[IndexIn(s.order, f)] == f;
    case WorkerFinishes(f) => assert s.order[IndexIn(s.order, f)] == f;
    case _ =>
  }

  /** Whatever has been started, everything submitted before it is finished. */
  ghost predicate Fifo(line: seq<Status>) {
    forall i, j :: 0 <= i < j < |line| ==> line[j] == Waiting || line[i] == Finished
  }

  lemma MoveKeepsFifo(line: seq<Status>, move: Move)
    requires Fifo(line) && Allowed(line, move)
    ensures Fifo(Moved(line, move))
  {
    if move.Start? {
      assert forall j :: 0 <= j < move.k ==> line[j] == Finished;
    }
  }

  lemma NextKeepsFifo(s: State, step: Step)
    requires Listed(s) && Fifo(Line(s)) && EnabledForOne(s, step)
    ensures Listed(Next(s, step)) && Fifo(Line(Next(s, step)))
  {
    NextKeepsListed(s, step);
    NextLine(s, step);
    MoveKeepsFifo(Line(s), MoveOf(s, step));
  }

  lemma {:induction false} RunKeepsFifo(states: seq<State>, steps: seq<Step>, i: nat)
    requires IsOneWorkerRun(states, steps) && i <= |steps|
    ensures Listed(states[i]) && Fifo(Line(states[i]))
  {
    if i > 0 {
      RunKeepsFifo(states, steps, i - 1);
      assert EnabledForOne(states[i - 1], steps[i - 1]) && states[(i - 1) + 1] == Next(states[i - 1], steps[i - 1]);
      NextKeepsFifo(states[i - 1], steps[i - 1]);
    }
  }

  function StepsLeft(status: Status): nat {
    match status case Waiting => 2 case Running => 1 case Finished => 0
  }

  /** Worker steps still to come for the first k compressions. */
  function Ahead(line: seq<Status>, k: nat): nat
    requires k <= |line|
  {
    if k == 0 then 0 else Ahead(line, k - 1) + StepsLeft(line[k - 1])
  }

  lemma {:induction false} AheadUpdate(line: seq<Status>, k: nat, m: nat, status: Status)
    requires k <= |line| && m < |line|
    ensures Ahead(line[m := status], k) ==
      Ahead(line, k) + (if m < k then StepsLeft(status) - StepsLeft(line[m]) else 0)
  {
    if k > 0 {
      AheadUpdate(line, k - 1, m, status);
    }
  }

  lemma {:induction false} AheadAppend(line: seq<Status>, more: seq<Status>, k: nat)
    requires k <= |line|
    ensures Ahead(line + more, k) == Ahead(line, k)
  {
    if k > 0 {
      AheadAppend(line, more, k - 1);
    }
  }

  /** Only the worker's own steps bring the k-th compression nearer, each by one, and nothing puts it off. */
  lemma OnlyWorkerCounts(line: seq<Status>, move: Move, k: nat)
    requires Fifo(line) && Allowed(line, move) && k < |line| && line[k] != Finished
    ensures k < |Moved(line, move)|
    ensures Ahead(Moved(line, move), k + 1) + (if move.Start? || move.Finish? then 1 else 0) == Ahead(line, k + 1)
  {
    match move
    case Start(m) =>
      assert m <= k;
      AheadUpdate(line, k + 1, m, Running);
    case Finish(m) =>
      assert m <= k;
      AheadUpdate(line, k + 1, m, Finished);
    case Append => AheadAppend(line, [Waiting], k + 1);
    case Stay =>
  }

  /** With `total` worker steps to come at some moment and `done` of them made since. */
  ghost predicate OnSchedule(line: seq<Status>, k: nat, done: nat, total: nat) {
    k < |line| && (line[k] != Finished ==> 0 < Ahead(line, k + 1) == total - done)
  }

  lemma MoveOnSchedule(line: seq<Status>, move: Move, k: nat, done: nat, total: nat)
    requires Fifo(line) && Allowed(line, move) && OnSchedule(line, k, done, total)
    ensures OnSchedule(Moved(line, move), k, done + (if move.Start? || move.Finish? then 1 else 0), total)
  {
    if line[k] != Finished {
      OnlyWorkerCounts(line, move, k);
    }
  }

  lemma {:induction false} SomeoneIsNext(line: seq<Status>, k: nat) returns (m: nat)
    requires k < |line| && line[k] == Waiting && forall j :: 0 <= j < |line| ==> line[j] != Running
    ensures m <= k && IsNext(line, m)
  {
    m := k;
    if j :| 0 <= j < k && line[j] == Waiting {
      m := SomeoneIsNext(line, j);
    }
  }

  /** As long as a compression is unfinished the worker has a step to make. */
  lemma WorkerIsNeverStuck(s: State, k: nat)
    requires Listed(s) && k < |s.order| && Line(s)[k] != Finished
    ensures exists f :: EnabledForOne(s, WorkerStarts(f)) || EnabledForOne(s, WorkerFinishes(f))
  {
    if j :| 0 <= j < |s.order| && Line(s)[j] == Running {
      assert EnabledForOne(s, WorkerFinishes(s.order[j]));
    } else {
      var m := SomeoneIsNext(Line(s), k);
      assert IndexIn(s.order, s.order[m]) == m;
      assert EnabledForOne(s, WorkerStarts(s.order[m]));
    }
  }

  /** A wait never hangs: while a handler waits for a compression, either its result arrives or the worker has
      a step to make, and neither needs a handler to move. */
  lemma WaitMakesProgress(states: seq<State>, steps: seq<Step>, i: nat, h: Handler, f: Future)
    requires IsOneWorkerRun(states, steps) && i <= |steps|
    requires h in states[i].pcs && states[i].pcs[h].AwaitingResults? && f in states[i].pcs[h].left
    ensures Listed(states[i])
    ensures Enabled(states[i], ResultArrives(h, f)) ||
            exists g :: EnabledForOne(states[i], WorkerStarts(g)) || EnabledForOne(states[i], WorkerFinishes(g))
  {
    LeftAreTasks(states, steps, i, h);
    RunKeepsFifo(states, steps, i);
    if Unfinished(states[i], f) {
      WorkerIsNeverStuck(states[i], IndexIn(states[i].order, f));
    }
  }

  /** Worker steps among those from number i up to (not including) number j. */
  function WorkerSteps(steps: seq<Step>, i: nat, j: nat): nat
    requires j <= |steps|
  {
    if j <= i then 0 else WorkerSteps(steps, i, j - 1) + (if IsWorkerStep(steps[j - 1]) then 1 else 0)
  }

  ghost predicate Scheduled(s: State, k: nat, done: nat, total: nat) {
    Listed(s) && OnSchedule(Line(s), k, done, total)
  }

  lemma StartsScheduled(s: State, k: nat)
    requires Listed(s) && k < |s.order|
    ensures Scheduled(s, k, 0, Ahead(Line(s), k + 1))
  {
  }

  /** One step of the one worker or of anybody else. */
  ghost predicate OneStep(s: State, step: Step, s': State) {
    Listed(s) && Fifo(Line(s)) && EnabledForOne(s, step) && s' == Next(s, step)
  }

  /** The steps from number i up to (not including) number j, one by one. */
  ghost predicate StepByStep(states: seq<State>, steps: seq<Step>, i: nat, j: nat)
    requires j <= |steps| < |states|
  {
    j <= i || (StepByStep(states, steps, i, j - 1) && OneStep(states[j - 1], steps[j - 1], states[j]))
  }

  lemma {:induction false} RunIsStepByStep(states: seq<State>, steps: seq<Step>, i: nat, j: nat)
    requires IsOneWorkerRun(states, steps) && j <= |steps|
    ensures StepByStep(states, steps, i, j)
  {
    if i < j {
      RunIsStepByStep(states, steps, i, j - 1);
      RunKeepsFifo(states, steps, j - 1);
      assert EnabledForOne(states[j - 1], steps[j - 1]) && states[(j - 1) + 1] == Next(states[j - 1], steps[j - 1]);
    }
  }

  lemma StepStaysScheduled(s: State, step: Step, s': State, k: nat, done: nat, total: nat)
    requires OneStep(s, step, s') && Scheduled(s, k, done, total)
    ensures Scheduled(s', k, done + (if IsWorkerStep(step) then 1 else 0), total)
  {
    NextKeepsListed(s, step);
    NextLine(s, step);
    MoveOnSchedule(Line(s), MoveOf(s, step), k, done, total);
  }

  lemma {:induction false} StaysScheduled(states: seq<State>, steps: seq<Step>, i: nat, j: nat, k: nat, total: nat)
    requires i <= j <= |steps| < |states|
    requires StepByStep(states, steps, i, j) && Scheduled(states[i], k, 0, total)
    ensures Scheduled(states[j], k, WorkerSteps(steps, i, j), total)
  {
    if i < j {
      StaysScheduled(states, steps, i, j - 1, k, total);
      StepStaysScheduled(states[j - 1], steps[j - 1], states[j], k, WorkerSteps(steps, i, j - 1), total);
    }
  }

  lemma StepKeepsPlace(s: State, step: Step, s': State, k: nat)
    requires OneStep(s, step, s') && k < |s.order|
    ensures k < |s'.order| && s'.order[k] == s.order[k]
  {
  }

  lemma {:induction false} KeepsPlace(states: seq<State>, steps: seq<Step>, i: nat, j: nat, k: nat)
    requires i <= j <= |steps| < |states|
    requires StepByStep(states, steps, i, j) && k < |states[i].order|
    ensures k < |states[j].order| && states[j].order[k] == states[i].order[k]
  {
    if i < j {
      KeepsPlace(states, steps, i, j - 1, k);
      StepKeepsPlace(states[j - 1], steps[j - 1], states[j], k);
    }
  }

  /** And it ends: as long as the k-th compression is unfinished, what the worker has done since some moment
      and what it still has to do add up to what was to do at that moment, whatever handlers submit meanwhile.
      So the compression is finished after at most that many worker steps. */
  lemma WaitIsBounded(states: seq<State>, steps: seq<Step>, i: nat, j: nat, k: nat)
    requires IsOneWorkerRun(states, steps) && i <= j <= |steps| && k < |states[i].order|
    ensures k < |states[j].order| && states[j].order[k] == states[i].order[k]
    ensures Listed(states[i])
    ensures Scheduled(states[j], k, WorkerSteps(steps, i, j), Ahead(Line(states[i]), k + 1))
  {
    RunKeepsFifo(states, steps, i);
    StartsScheduled(states[i], k);
    RunIsStepByStep(states, steps, i, j);
    StaysScheduled(states, steps, i, j, k, Ahead(Line(states[i]), k + 1));
    KeepsPlace(states, steps, i, j, k);
  }

  lemma {:induction false} LeftAreTasks(states: seq<State>, steps: seq<Step>, i: nat, h: Handler)
    requires IsRun(states, steps) && i <= |steps|
    requires h in states[i].pcs && states[i].pcs[h].AwaitingResults?
    ensures forall f :: f in states[i].pcs[h].left ==> f in states[i].tasks
  {
    if i > 0 {
      var s, step := states[i - 1], steps[i - 1];
      assert Enabled(s, step) && states[(i - 1) + 1] == Next(s, step);
      RunKeepsInv(states, steps, i - 1);
      if step != Snapshot(h) {
        LeftAreTasks(states, steps, i - 1, h);
      }
    }
  }

  /** No handler is ever stuck: it can take its next step, or waits for a compression that is not finished. */
  lemma HandlerGoesOn(states: seq<State>, steps: seq<Step>, i: nat, h: Handler, f: Future, path: Path)
    requires IsRun(states, steps) && i <= |steps| && h in states[i].pcs
    ensures var s := states[i];
      match s.pcs[h]
      case Idle => Enabled(s, Snapshot(h))
      case AwaitingResults(left) =>
        (left == {} ==> Enabled(s, StartRenaming(h)))
        && (f in left ==> Enabled(s, ResultArrives(h, f)) || Unfinished(s, f))
      case Renaming =>
        Enabled(s, SkipCompression(h)) && (f !in s.tasks && path.owner == h ==> Enabled(s, Submit(h, f, path)))
      case Submitted(_) => Enabled(s, AddPending(h))
      case Added(_) => Enabled(s, AddCallback(h))
  {
    if states[i].pcs[h].AwaitingResults? {
      LeftAreTasks(states, steps, i, h);
    }
  }
}
