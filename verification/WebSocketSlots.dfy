/** The limit on simultaneous WebSocket subscriptions: a counter changed only under a lock, by handlers
    that are coroutines and may be suspended, fail or be cancelled at any await. */
module WebSocketSlots {
  import opened Wrappers

  const MAX_CONNECTIONS := 100

  type Handler = nat

  datatype Task = NotCreated | Running | Over

  // Where a handler is, whenever it is suspended. What it does between two suspensions is one step: taking a
  // free lock does not suspend, nothing is awaited between admission and the try block, and only a
  // rejection holds the lock across an await, while the close frame is sent.
  datatype Pc =
    | Queuing                              // waiting for the lock, to be admitted
    | Rejecting
    | Rejected
    | GivenUp                              // cancelled before it was admitted
    | Connecting                           // in the try block: accept, connect, subscribe
    | Serving(pump: Task, watch: Task)     // waiting for the first task to end
    | Stopping(pump: Task, watch: Task)    // both cancelled if still running, waiting for both
    | Blocked(pump: Task, watch: Task)     // in the outer finally, waiting for the lock, to release
    | Released
    | Lost                                 // cancelled there

  datatype State = State(count: int, holder: Option<Handler>, pcs: map<Handler, Pc>)

  datatype Step =
    | Arrive(h: Handler)
    | EnterCheck(h: Handler)
    | CancelledBefore(h: Handler)
    | CloseSent(h: Handler)
    | ConnectFails(h: Handler)
    | StartTasks(h: Handler)
    | PumpEnds(h: Handler)
    | WatchEnds(h: Handler)
    | StopServing(h: Handler)
    | BothStopped(h: Handler)
    | Release(h: Handler)
    | CancelledAtLock(h: Handler)

  predicate Suspended(pc: Pc) { pc.Queuing? || pc.Blocked? }

  /** The lock is taken, or others wait for it. */
  predicate Contended(s: State) {
    s.holder.Some? || exists h :: h in s.pcs && Suspended(s.pcs[h])
  }

  predicate Enabled(s: State, step: Step) {
    match step
    case Arrive(h) => h !in s.pcs
    case EnterCheck(h) => h in s.pcs && s.pcs[h] == Queuing && s.holder == None
    case CancelledBefore(h) => h in s.pcs && s.pcs[h] == Queuing
    case CloseSent(h) => h in s.pcs && s.pcs[h] == Rejecting
    case ConnectFails(h) => h in s.pcs && s.pcs[h] == Connecting
    case StartTasks(h) => h in s.pcs && s.pcs[h] == Connecting
    case PumpEnds(h) => h in s.pcs && (s.pcs[h].Serving? || s.pcs[h].Stopping?) && s.pcs[h].pump == Running
    case WatchEnds(h) => h in s.pcs && (s.pcs[h].Serving? || s.pcs[h].Stopping?) && s.pcs[h].watch == Running
    // The wait returns when a task has ended, or is itself cancelled: either way the tasks are stopped.
    case StopServing(h) => h in s.pcs && s.pcs[h].Serving?
    case BothStopped(h) => h in s.pcs && s.pcs[h] == Stopping(Over, Over)
    case Release(h) => h in s.pcs && s.pcs[h].Blocked? && s.holder == None
    case CancelledAtLock(h) => h in s.pcs && s.pcs[h].Blocked?
  }

  function Move(s: State, h: Handler, pc: Pc): State { s.(pcs := s.pcs[h := pc]) }

  /** With the lock: admitted, or turned away. */
  function Check(s: State, h: Handler): State {
    if s.count >= MAX_CONNECTIONS then Move(s, h, Rejecting).(holder := Some(h))
    else Move(s, h, Connecting).(count := s.count + 1)
  }

  /** At the end of the try block: gives the slot back, or waits for the lock. */
  function Leave(s: State, h: Handler, pump: Task, watch: Task): State {
    if Contended(s) then Move(s, h, Blocked(pump, watch)) else Move(s, h, Released).(count := s.count - 1)
  }

  function Next(s: State, step: Step): State
    requires Enabled(s, step)
  {
    match step
    case Arrive(h) => if Contended(s) then Move(s, h, Queuing) else Check(s, h)
    case EnterCheck(h) => Check(s, h)
    case CancelledBefore(h) => Move(s, h, GivenUp)
    case CloseSent(h) => Move(s, h, Rejected).(holder := None)
    case ConnectFails(h) => Leave(s, h, NotCreated, NotCreated)
    case StartTasks(h) => Move(s, h, Serving(Running, Running))
    case PumpEnds(h) =>
      var watch := s.pcs[h].watch;
      Move(s, h, if s.pcs[h].Serving? then Serving(Over, watch) else Stopping(Over, watch))
    case WatchEnds(h) =>
      var pump := s.pcs[h].pump;
      Move(s, h, if s.pcs[h].Serving? then Serving(pump, Over) else Stopping(pump, Over))
    case StopServing(h) => Move(s, h, Stopping(s.pcs[h].pump, s.pcs[h].watch))
    case BothStopped(h) => Leave(s, h, Over, Over)
    case Release(h) => Move(s, h, Released).(count := s.count - 1)
    case CancelledAtLock(h) => Move(s, h, Lost)
  }

  const Nobody := State(0, None, map[])

  ghost predicate IsRun(states: seq<State>, steps: seq<Step>) {
    && |states| == |steps| + 1
    && states[0] == Nobody
    && forall i :: 0 <= i < |steps| ==> Enabled(states[i], steps[i]) && states[i + 1] == Next(states[i], steps[i])
  }

  lemma RunStep(states: seq<State>, steps: seq<Step>, i: nat)
    requires IsRun(states, steps) && 0 < i <= |steps|
    ensures Enabled(states[i - 1], steps[i - 1]) && states[i] == Next(states[i - 1], steps[i - 1])
  {
    assert states[(i - 1) + 1] == Next(states[i - 1], steps[i - 1]);
  }

  // --- The invariant ---

  /** Admitted and not released. */
  predicate HasSlot(pc: Pc) { pc.Connecting? || pc.Serving? || pc.Stopping? || pc.Blocked? || pc.Lost? }

  function Slots(s: State): set<Handler> {
    set h | h in s.pcs && HasSlot(s.pcs[h])
  }

  ghost predicate Counted(s: State) {
    s.count == |Slots(s)| && 0 <= s.count <= MAX_CONNECTIONS
  }

  ghost predicate LockHeldByRejecting(s: State) {
    && (s.holder.Some? ==> s.holder.value in s.pcs && s.pcs[s.holder.value] == Rejecting)
    && (forall h :: h in s.pcs && s.pcs[h] == Rejecting ==> s.holder == Some(h))
  }

  lemma SlotsChange(s: State, h: Handler, pc: Pc)
    ensures Slots(Move(s, h, pc)) == if HasSlot(pc) then Slots(s) + {h} else Slots(s) - {h}
  {
  }

  lemma NextCount(s: State, step: Step)
    requires Enabled(s, step)
    ensures var s' := Next(s, step);
      && step.h in s'.pcs && s'.pcs == s.pcs[step.h := s'.pcs[step.h]]
      && s'.count - s.count ==
        (if HasSlot(s'.pcs[step.h]) then 1 else 0) - (if step.h in s.pcs && HasSlot(s.pcs[step.h]) then 1 else 0)
      && (s'.count > s.count ==> s.count < MAX_CONNECTIONS)
  {
  }

  lemma OneMoreOrLess(slots: set<Handler>, h: Handler)
    ensures |slots + {h}| == |slots| + (if h in slots then 0 else 1)
    ensures |slots - {h}| == |slots| - (if h in slots then 1 else 0)
  {
    assert h in slots ==> slots + {h} == slots && slots - {h} + {h} == slots;
    assert h !in slots ==> slots - {h} == slots;
  }

  lemma NextKeepsCounted(s: State, step: Step)
    requires Counted(s) && Enabled(s, step)
    ensures Counted(Next(s, step))
  {
    var s' := Next(s, step);
    NextCount(s, step);
    SlotsChange(s, step.h, s'.pcs[step.h]);
    assert Slots(s') == Slots(Move(s, step.h, s'.pcs[step.h]));
    assert step.h in Slots(s) <==> step.h in s.pcs && HasSlot(s.pcs[step.h]);
    OneMoreOrLess(Slots(s), step.h);
    assert s'.count == |Slots(s')|;
  }

  lemma NextKeepsLock(s: State, step: Step)
    requires LockHeldByRejecting(s) && Enabled(s, step)
    ensures LockHeldByRejecting(Next(s, step))
  {
  }

  lemma {:induction false} RunKeepsInv(states: seq<State>, steps: seq<Step>, i: nat)
    requires IsRun(states, steps) && i <= |steps|
    ensures Counted(states[i]) && LockHeldByRejecting(states[i])
  {
    if i == 0 {
      assert Slots(states[0]) == {};
    } else {
      RunKeepsInv(states, steps, i - 1);
      RunStep(states, steps, i);
      NextKeepsCounted(states[i - 1], steps[i - 1]);
      NextKeepsLock(states[i - 1], steps[i - 1]);
    }
  }

  /** In every interleaving the counter is the number of admitted handlers that have not released, and
      stays between 0 and the limit. */
  lemma CounterCountsSlots(states: seq<State>, steps: seq<Step>, i: nat)
    requires IsRun(states, steps) && i <= |steps|
    ensures states[i].count == |Slots(states[i])| && 0 <= states[i].count <= 100
  {
    RunKeepsInv(states, steps, i);
  }

  // --- One handler's life ---

  function PcOf(s: State, h: Handler): Option<Pc> { At(s.pcs, h) }

  /** How often, up to state number i, a step of h has raised the counter, and lowered it. */
  function Raises(states: seq<State>, steps: seq<Step>, i: nat, h: Handler): nat
    requires i <= |steps| < |states|
  {
    if i == 0 then 0
    else
      var raised := steps[i - 1].h == h && states[i].count > states[i - 1].count;
      Raises(states, steps, i - 1, h) + (if raised then 1 else 0)
  }

  function Lowers(states: seq<State>, steps: seq<Step>, i: nat, h: Handler): nat
    requires i <= |steps| < |states|
  {
    if i == 0 then 0
    else
      var lowered := steps[i - 1].h == h && states[i].count < states[i - 1].count;
      Lowers(states, steps, i - 1, h) + (if lowered then 1 else 0)
  }

  predicate TasksDone(pc: Pc) {
    (pc.Serving? || pc.Stopping? || pc.Blocked?) ==> pc.pump != Running && pc.watch != Running
  }

  ghost predicate LifeOk(pc: Option<Pc>, raises: nat, lowers: nat) {
    && raises == (if pc.Some? && (HasSlot(pc.value) || pc.value.Released?) then 1 else 0)
    && lowers == (if pc == Some(Released) then 1 else 0)
    && (pc.Some? && pc.value.Blocked? ==> TasksDone(pc.value))
  }

  lemma NextKeepsLife(s: State, step: Step, raises: nat, lowers: nat)
    requires Enabled(s, step) && LifeOk(PcOf(s, step.h), raises, lowers)
    ensures var s' := Next(s, step);
      LifeOk(PcOf(s', step.h), raises + (if s'.count > s.count then 1 else 0),
             lowers + (if s'.count < s.count then 1 else 0))
    ensures Next(s, step).count < s.count ==> step.h in s.pcs && TasksDone(s.pcs[step.h])
  {
  }

  /** A handler raises the counter once if it is admitted and never otherwise, and lowers it once if it has
      released and never otherwise: a rejected one never does. */
  lemma {:induction false} ReleasesExactlyOnce(states: seq<State>, steps: seq<Step>, i: nat, h: Handler)
    requires IsRun(states, steps) && i <= |steps|
    ensures LifeOk(PcOf(states[i], h), Raises(states, steps, i, h), Lowers(states, steps, i, h))
  {
    if i > 0 {
      ReleasesExactlyOnce(states, steps, i - 1, h);
      RunStep(states, steps, i);
      if steps[i - 1].h == h {
        NextKeepsLife(states[i - 1], steps[i - 1], Raises(states, steps, i - 1, h), Lowers(states, steps, i - 1, h));
      } else {
        OthersStay(states[i - 1], steps[i - 1], h);
      }
    }
  }

  lemma OthersStay(s: State, step: Step, h: Handler)
    requires Enabled(s, step) && step.h != h
    ensures PcOf(Next(s, step), h) == PcOf(s, h)
  {
  }

  /** Whoever lowers the counter has both its tasks behind it. */
  lemma ReleaseAfterTasks(states: seq<State>, steps: seq<Step>, i: nat)
    requires IsRun(states, steps) && 0 < i <= |steps| && states[i].count < states[i - 1].count
    ensures steps[i - 1].h in states[i - 1].pcs && TasksDone(states[i - 1].pcs[steps[i - 1].h])
  {
    RunStep(states, steps, i);
    ReleasesExactlyOnce(states, steps, i - 1, steps[i - 1].h);
    var h := steps[i - 1].h;
    NextKeepsLife(states[i - 1], steps[i - 1], Raises(states, steps, i - 1, h), Lowers(states, steps, i - 1, h));
  }

  // --- Who is admitted, and that everybody gets on ---

  /** A newcomer waits if the lock is taken or waited for. Whoever has the lock is admitted if fewer than 100 slots are
      taken, and turned away, holding the lock, if not. */
  lemma AdmissionDecides(s: State, h: Handler)
    ensures h !in s.pcs && Contended(s) ==> Next(s, Arrive(h)) == s.(pcs := s.pcs[h := Queuing])
    ensures h !in s.pcs && !Contended(s) && s.count < 100 ==>
      Next(s, Arrive(h)) == State(s.count + 1, None, s.pcs[h := Connecting])
    ensures h !in s.pcs && !Contended(s) && s.count >= 100 ==>
      Next(s, Arrive(h)) == State(s.count, Some(h), s.pcs[h := Rejecting])
    ensures At(s.pcs, h) == Some(Queuing) && s.holder == None && s.count < 100 ==>
      Next(s, EnterCheck(h)) == State(s.count + 1, None, s.pcs[h := Connecting])
    ensures At(s.pcs, h) == Some(Queuing) && s.holder == None && s.count >= 100 ==>
      Next(s, EnterCheck(h)) == State(s.count, Some(h), s.pcs[h := Rejecting])
  {
  }

  /** Nobody is turned away unless all 100 slots were taken at that moment. */
  lemma {:induction false} RejectedOnlyWhenFull(states: seq<State>, steps: seq<Step>, i: nat, h: Handler)
    requires IsRun(states, steps) && i <= |steps|
    requires PcOf(states[i], h) == Some(Rejecting) || PcOf(states[i], h) == Some(Rejected)
    ensures exists k :: 0 <= k < i && steps[k] in {Arrive(h), EnterCheck(h)} && states[k].count == 100
  {
    RunStep(states, steps, i);
    RunKeepsInv(states, steps, i - 1);
    var was := PcOf(states[i - 1], h);
    if steps[i - 1].h != h {
      OthersStay(states[i - 1], steps[i - 1], h);
    }
    if was == Some(Rejecting) || was == Some(Rejected) {
      RejectedOnlyWhenFull(states, steps, i - 1, h);
    } else {
      assert steps[i - 1] in {Arrive(h), EnterCheck(h)} && states[i - 1].count == 100;
    }
  }

  predicate Cancels(step: Step) { step.CancelledBefore? || step.CancelledAtLock? || step.ConnectFails? }

  /** What a handler does next when nothing goes wrong, or, while another one holds the lock it needs, what that one
      does next. */
  function Onward(s: State, h: Handler): Step
    requires h in s.pcs && !Ended(s.pcs[h])
  {
    match s.pcs[h]
    case Rejecting => CloseSent(h)
    case Connecting => StartTasks(h)
    case Serving(_, _) => StopServing(h)
    case Stopping(pump, watch) => if pump == Running then PumpEnds(h) else if watch == Running then WatchEnds(h)
                                  else BothStopped(h)
    case Queuing => if s.holder.Some? then CloseSent(s.holder.value) else EnterCheck(h)
    case Blocked(_, _) => if s.holder.Some? then CloseSent(s.holder.value) else Release(h)
    case _ => CancelledAtLock(h)
  }

  /** Nobody is ever stuck: in every state of every run, a handler that has not ended can go on, or waits for the lock
      and its holder can. */
  lemma NobodyIsStuck(states: seq<State>, steps: seq<Step>, i: nat, h: Handler)
    requires IsRun(states, steps) && i <= |steps|
    requires h in states[i].pcs && !Ended(states[i].pcs[h])
    ensures var step := Onward(states[i], h);
      && Enabled(states[i], step) && !Cancels(step)
      && (step.h == h || (Suspended(states[i].pcs[h]) && states[i].holder == Some(step.h)))
  {
    RunKeepsInv(states, steps, i);
    RunCreatesTasks(states, steps, i);
  }

  // --- Tasks end by steps of their own ---

  /** A task is over only if it took its last step, and exists only if it was created. */
  ghost predicate TasksTookSteps(pc: Option<Pc>, past: seq<Step>, h: Handler) {
    if pc.Some? && (pc.value.Serving? || pc.value.Stopping? || pc.value.Blocked?) then
      && (pc.value.pump == Over ==> PumpEnds(h) in past) && (pc.value.watch == Over ==> WatchEnds(h) in past)
      && (StartTasks(h) in past <==> pc.value.pump != NotCreated)
      && (pc.value.pump == NotCreated <==> pc.value.watch == NotCreated)
    else
      pc == None || pc.value.Queuing? || pc.value.Rejecting? || pc.value.Connecting? ==> StartTasks(h) !in past
  }

  lemma NextTakesStep(s: State, step: Step, past: seq<Step>)
    requires Enabled(s, step) && TasksTookSteps(PcOf(s, step.h), past, step.h)
    ensures TasksTookSteps(PcOf(Next(s, step), step.h), past + [step], step.h)
  {
  }

  lemma {:induction false} RunTakesSteps(states: seq<State>, steps: seq<Step>, i: nat, h: Handler)
    requires IsRun(states, steps) && i <= |steps|
    ensures TasksTookSteps(PcOf(states[i], h), steps[..i], h)
  {
    if i > 0 {
      RunTakesSteps(states, steps, i - 1, h);
      RunStep(states, steps, i);
      assert steps[..i] == steps[..i - 1] + [steps[i - 1]];
      if steps[i - 1].h == h {
        NextTakesStep(states[i - 1], steps[i - 1], steps[..i - 1]);
      } else {
        OthersStay(states[i - 1], steps[i - 1], h);
      }
    }
  }

  /** A slot whose handler had started its tasks is given back only after both tasks have ended. */
  lemma SlotOutlivesTasks(states: seq<State>, steps: seq<Step>, i: nat)
    requires IsRun(states, steps) && 0 < i <= |steps| && states[i].count < states[i - 1].count
    requires StartTasks(steps[i - 1].h) in steps[..i]
    ensures PumpEnds(steps[i - 1].h) in steps[..i] && WatchEnds(steps[i - 1].h) in steps[..i]
  {
    var h := steps[i - 1].h;
    ReleaseAfterTasks(states, steps, i);
    RunTakesSteps(states, steps, i - 1, h);
    RunStep(states, steps, i);
    assert steps[..i] == steps[..i - 1] + [steps[i - 1]];
    LoweringStep(states[i - 1], steps[i - 1]);
  }

  lemma LoweringStep(s: State, step: Step)
    requires Enabled(s, step) && Next(s, step).count < s.count
    ensures step.ConnectFails? || step.BothStopped? || step.Release?
  {
  }

  // --- Slots that do not come back ---

  predicate Ended(pc: Pc) { pc.Rejected? || pc.GivenUp? || pc.Released? || pc.Lost? }

  function LostHandlers(s: State): set<Handler> {
    set h | h in s.pcs && s.pcs[h] == Lost
  }

  /** A lost slot stays lost. */
  lemma {:induction false} LostForever(states: seq<State>, steps: seq<Step>, i: nat, j: nat)
    requires IsRun(states, steps) && i <= j <= |steps|
    ensures LostHandlers(states[i]) <= LostHandlers(states[j]) && |LostHandlers(states[j])| <= states[j].count
  {
    RunKeepsInv(states, steps, j);
    assert LostHandlers(states[j]) <= Slots(states[j]);
    Smaller(LostHandlers(states[j]), Slots(states[j]));
    if i < j {
      LostForever(states, steps, i, j - 1);
      RunStep(states, steps, j);
    }
  }

  lemma Smaller(a: set<Handler>, b: set<Handler>)
    requires a <= b
    ensures |a| <= |b|
  {
    assert b == a + (b - a);
  }

  /** Only a full house can make anybody wait for the lock, so only then can a slot get lost. */
  lemma {:induction false} TroubleNeedsFullHouse(states: seq<State>, steps: seq<Step>, i: nat)
    requires IsRun(states, steps) && i <= |steps|
    requires Contended(states[i]) || LostHandlers(states[i]) != {}
    ensures exists k :: 0 <= k <= i && states[k].count == 100
  {
    if i > 0 {
      var s := states[i - 1];
      RunStep(states, steps, i);
      RunKeepsInv(states, steps, i - 1);
      if Contended(s) || LostHandlers(s) != {} {
        TroubleNeedsFullHouse(states, steps, i - 1);
      } else if s.count < MAX_CONNECTIONS {
        QuietStep(s, steps[i - 1]);
      } else {
        assert states[i - 1].count == 100;
      }
    }
  }

  lemma QuietStep(s: State, step: Step)
    requires Enabled(s, step) && !Contended(s) && LostHandlers(s) == {} && s.count < MAX_CONNECTIONS
    ensures !Contended(Next(s, step)) && LostHandlers(Next(s, step)) == {}
  {
    var s' := Next(s, step);
    assert !step.CancelledAtLock?;
    forall h | h in s'.pcs
      ensures !Suspended(s'.pcs[h]) && s'.pcs[h] != Lost
    {
      if h != step.h {
        assert h !in LostHandlers(s) && !Suspended(s.pcs[h]);
      }
    }
  }

  lemma {:induction false} LostByCancellation(states: seq<State>, steps: seq<Step>, i: nat)
    requires IsRun(states, steps) && i <= |steps|
    ensures LostHandlers(states[i]) == {} <==> forall k :: 0 <= k < i ==> !steps[k].CancelledAtLock?
  {
    if i > 0 {
      LostByCancellation(states, steps, i - 1);
      LostForever(states, steps, i - 1, i);
      RunStep(states, steps, i);
      NextLoses(states[i - 1], steps[i - 1]);
    }
  }

  lemma NextLoses(s: State, step: Step)
    requires Enabled(s, step)
    ensures LostHandlers(Next(s, step)) == LostHandlers(s) + (if step.CancelledAtLock? then {step.h} else {})
  {
  }

  /** Once every handler has ended, the counter is the number of lost handlers, which is zero exactly if
      none was cancelled while it waited to release. So every slot comes back unless the limit was reached. */
  lemma AllSlotsComeBack(states: seq<State>, steps: seq<Step>, i: nat)
    requires IsRun(states, steps) && i <= |steps|
    requires forall h :: h in states[i].pcs ==> Ended(states[i].pcs[h])
    ensures states[i].count == |LostHandlers(states[i])|
    ensures states[i].count == 0 <==> forall k :: 0 <= k < i ==> !steps[k].CancelledAtLock?
    ensures (forall k :: 0 <= k <= i ==> states[k].count < 100) ==> states[i].count == 0
  {
    RunKeepsInv(states, steps, i);
    LostByCancellation(states, steps, i);
    assert Slots(states[i]) == LostHandlers(states[i]);
    if LostHandlers(states[i]) != {} {
      TroubleNeedsFullHouse(states, steps, i);
    }
  }

  // --- A run that loses one ---

  lemma Extend(states: seq<State>, steps: seq<Step>, step: Step)
    requires IsRun(states, steps) && Enabled(states[|steps|], step)
    ensures IsRun(states + [Next(states[|steps|], step)], steps + [step])
  {
  }

  function Inside(n: nat): (pcs: map<Handler, Pc>)
    ensures forall h: Handler :: h in pcs <==> h < n
    ensures forall h :: h in pcs ==> pcs[h] == Connecting
  {
    if n == 0 then map[] else Inside(n - 1)[n - 1 := Connecting]
  }

  function FullHouse(n: nat): State { State(n, None, Inside(n)) }

  lemma OneMoreInside(n: nat)
    requires n < MAX_CONNECTIONS
    ensures Enabled(FullHouse(n), Arrive(n)) && Next(FullHouse(n), Arrive(n)) == FullHouse(n + 1)
  {
    assert !Contended(FullHouse(n));
  }

  lemma {:induction false} Filling(n: nat) returns (states: seq<State>, steps: seq<Step>)
    requires n <= MAX_CONNECTIONS
    ensures IsRun(states, steps) && states[|steps|] == FullHouse(n)
  {
    if n == 0 {
      states, steps := [Nobody], [];
    } else {
      states, steps := Filling(n - 1);
      OneMoreInside(n - 1);
      Extend(states, steps, Arrive(n - 1));
      states, steps := states + [FullHouse(n)], steps + [Arrive(n - 1)];
    }
  }

  ghost predicate LosesSlot(states: seq<State>, steps: seq<Step>) {
    IsRun(states, steps) && LostHandlers(states[|steps|]) != {}
  }

  // While one handler is being turned away, another one that wants to leave waits for the lock; if it is
  // cancelled there, its slot is lost.

  predicate HoldsLiveSlot(s: State, h: Handler) {
    h in s.pcs && HasSlot(s.pcs[h]) && s.pcs[h] != Lost
  }

  /** The next step towards the end of the try block, and then out of the handler. */
  function StepOut(pc: Pc, h: Handler): Step
    requires HasSlot(pc) && pc != Lost
  {
    match pc
    case Connecting => ConnectFails(h)
    case Serving(_, _) => StopServing(h)
    case Stopping(pump, watch) =>
      if pump == Running then PumpEnds(h)
      else if watch == Running then WatchEnds(h)
      else BothStopped(h)
    case Blocked(_, _) => CancelledAtLock(h)
  }

  function Distance(pc: Pc): nat {
    match pc
    case Serving(_, _) => 5
    case Stopping(pump, watch) => 2 + (if pump == Running then 1 else 0) + (if watch == Running then 1 else 0)
    case Connecting => 2
    case Blocked(_, _) => 1
    case _ => 0
  }

  ghost predicate TasksCreated(s: State) {
    forall h :: h in s.pcs && (s.pcs[h].Serving? || s.pcs[h].Stopping?) ==>
      s.pcs[h].pump != NotCreated && s.pcs[h].watch != NotCreated
  }

  lemma {:induction false} RunCreatesTasks(states: seq<State>, steps: seq<Step>, i: nat)
    requires IsRun(states, steps) && i <= |steps|
    ensures TasksCreated(states[i])
  {
    if i > 0 {
      RunCreatesTasks(states, steps, i - 1);
      RunStep(states, steps, i);
    }
  }

  lemma StepOutBringsCloser(s: State, h: Handler)
    requires Contended(s) && TasksCreated(s) && HoldsLiveSlot(s, h)
    ensures Enabled(s, StepOut(s.pcs[h], h))
    ensures var s' := Next(s, StepOut(s.pcs[h], h));
      if s.pcs[h].Blocked? then h in LostHandlers(s')
      else Contended(s') && HoldsLiveSlot(s', h) && Distance(s'.pcs[h]) < Distance(s.pcs[h])
  {
    var s' := Next(s, StepOut(s.pcs[h], h));
    if !s.pcs[h].Blocked? && s.holder.None? {
      var g :| g in s.pcs && Suspended(s.pcs[g]);
      assert g in s'.pcs && Suspended(s'.pcs[g]);
    }
  }

  ghost predicate LosesSlotOf(states: seq<State>, steps: seq<Step>, h: Handler) {
    IsRun(states, steps) && h in LostHandlers(states[|steps|])
  }

  /** Continued by `more`, through the states `after`, the run loses the slot of h. */
  ghost predicate GoesOnToLose(states: seq<State>, steps: seq<Step>, after: seq<State>, more: seq<Step>, h: Handler) {
    LosesSlotOf(states + after, steps + more, h)
  }

  /** As long as the lock is taken or others wait for it, any handler with a slot can be led out and cancelled
      at the lock. */
  lemma {:induction false} LedOut(states: seq<State>, steps: seq<Step>, h: Handler)
    returns (after: seq<State>, more: seq<Step>)
    requires IsRun(states, steps) && Contended(states[|steps|]) && HoldsLiveSlot(states[|steps|], h)
    ensures LosesSlotOf(states + after, steps + more, h)
    decreases Distance(states[|steps|].pcs[h])
  {
    var s := states[|steps|];
    var step := StepOut(s.pcs[h], h);
    RunCreatesTasks(states, steps, |steps|);
    StepOutBringsCloser(s, h);
    Extend(states, steps, step);
    after, more := [Next(s, step)], [step];
    if !s.pcs[h].Blocked? {
      var a, m := LedOut(states + after, steps + more, h);
      Regroup(states, after, a);
      Regroup(steps, more, m);
      after, more := after + a, more + m;
    }
  }

  /** With every slot taken and nobody at the lock, a newcomer is turned away. */
  lemma ContentionFollows(s: State, newcomer: Handler) returns (step: Step)
    requires s.count >= MAX_CONNECTIONS && !Contended(s) && newcomer !in s.pcs
    ensures Enabled(s, step) && Contended(Next(s, step))
    ensures forall h :: HoldsLiveSlot(s, h) ==> HoldsLiveSlot(Next(s, step), h)
  {
    step := Arrive(newcomer);
  }

  /** Whenever the limit has been reached, the run can go on so that the slot of any handler that still holds
      one is lost. */
  lemma CancelledAtFullHouse(states: seq<State>, steps: seq<Step>, newcomer: Handler, h: Handler)
    requires IsRun(states, steps) && states[|steps|].count == 100
    requires newcomer !in states[|steps|].pcs && HoldsLiveSlot(states[|steps|], h)
    ensures exists after, more :: GoesOnToLose(states, steps, after, more, h)
  {
    var s := states[|steps|];
    if Contended(s) {
      var after, more := LedOut(states, steps, h);
      assert GoesOnToLose(states, steps, after, more, h);
    } else {
      var step := ContentionFollows(s, newcomer);
      Extend(states, steps, step);
      var a, m := LedOut(states + [Next(s, step)], steps + [step], h);
      Regroup(states, [Next(s, step)], a);
      Regroup(steps, [step], m);
      assert GoesOnToLose(states, steps, [Next(s, step)] + a, [step] + m, h);
    }
  }

  lemma SlotCanBeLost()
    ensures exists states, steps :: LosesSlot(states, steps)
  {
    var n := MAX_CONNECTIONS;
    var states, steps := Filling(n);
    assert HoldsLiveSlot(FullHouse(n), 0);
    CancelledAtFullHouse(states, steps, n, 0);
    var after, more :| GoesOnToLose(states, steps, after, more, 0);
    assert LosesSlot(states + after, steps + more);
  }
}
