/** The audit log's bounded queue: requests put lines without waiting, one listener thread writes them. */
module AuditQueue {
  import opened Wrappers

  const QUEUE_MAXSIZE := 10000

  type Line = string

  datatype Entry = Record(line: Line) | Sentinel

  // What the listener did with a line: written, or lost to an error of the file handler.
  datatype Outcome = Outcome(line: Line, written: bool)

  datatype Stop = NotAsked | Accepted | Refused

  datatype State = State(
    queue: seq<Entry>,
    listening: bool,
    handling: Option<Line>,    // taken from the queue and not yet written
    handled: seq<Outcome>,
    accepted: seq<Line>,       // every line ever put, in order
    late: seq<Line>,           // those put after the sentinel
    dropped: nat,
    uncounted: nat,            // put or dropped by a request that has not yet counted its event
    events: nat,
    stop: Stop)

  const Start := State([], true, None, [], [], [], 0, 0, 0, NotAsked)

  datatype Step = Put(line: Line) | Count | Take | Handle(ok: bool) | AskStop

  predicate Enabled(s: State, step: Step) {
    match step
    case Put(_) => true
    case Count => s.uncounted > 0
    case Take => s.listening && s.handling == None && s.queue != []
    case Handle(_) => s.handling.Some?
    case AskStop => s.stop == NotAsked
  }

  function Next(s: State, step: Step): State
    requires Enabled(s, step)
  {
    match step
    case Put(line) =>
      var t := s.(uncounted := s.uncounted + 1);
      if |s.queue| >= QUEUE_MAXSIZE then t.(dropped := s.dropped + 1)
      else t.(queue := s.queue + [Record(line)], accepted := s.accepted + [line],
              late := if s.stop == Accepted then s.late + [line] else s.late)
    case Count => s.(uncounted := s.uncounted - 1, events := s.events + 1)
    case Take =>
      if s.queue[0] == Sentinel then s.(queue := s.queue[1..], listening := false)
      else s.(queue := s.queue[1..], handling := Some(s.queue[0].line))
    case Handle(ok) => s.(handling := None, handled := s.handled + [Outcome(s.handling.value, ok)])
    case AskStop =>
      if |s.queue| >= QUEUE_MAXSIZE then s.(stop := Refused)
      else s.(queue := s.queue + [Sentinel], stop := Accepted)
  }

  ghost predicate IsRun(states: seq<State>, steps: seq<Step>) {
    && |states| == |steps| + 1
    && states[0] == Start
    && forall i :: 0 <= i < |steps| ==> Enabled(states[i], steps[i]) && states[i + 1] == Next(states[i], steps[i])
  }

  // --- Reading a state ---

  function Lines(entries: seq<Entry>): seq<Line> {
    if entries == [] then []
    else if entries[0] == Sentinel then Lines(entries[1..])
    else [entries[0].line] + Lines(entries[1..])
  }

  function Done(handled: seq<Outcome>): seq<Line> {
    seq(|handled|, i requires 0 <= i < |handled| => handled[i].line)
  }

  function Only(handled: seq<Outcome>, written: bool): seq<Line> {
    if handled == [] then []
    else if handled[0].written == written then [handled[0].line] + Only(handled[1..], written)
    else Only(handled[1..], written)
  }

  function InHand(s: State): seq<Line> {
    if s.handling.Some? then [s.handling.value] else []
  }

  function Records(lines: seq<Line>): seq<Entry> {
    seq(|lines|, i requires 0 <= i < |lines| => Record(lines[i]))
  }

  function AfterSentinel(entries: seq<Entry>): Option<seq<Entry>> {
    if entries == [] then None
    else if entries[0] == Sentinel then Some(entries[1..])
    else AfterSentinel(entries[1..])
  }

  // --- The invariant ---

  /** Every accepted line is handled, in hand or queued, in the order of acceptance. */
  ghost predicate InOrder(s: State) {
    s.accepted == Done(s.handled) + (InHand(s) + Lines(s.queue))
  }

  ghost predicate Tallied(s: State) {
    s.events + s.uncounted == |s.accepted| + s.dropped
  }

  ghost predicate StopSeen(s: State) {
    if s.stop != Accepted then s.listening && s.late == [] && AfterSentinel(s.queue) == None
    else if s.listening then AfterSentinel(s.queue) == Some(Records(s.late))
    else s.handling == None && s.queue == Records(s.late)
  }

  ghost predicate Inv(s: State) {
    |s.queue| <= QUEUE_MAXSIZE && InOrder(s) && Tallied(s) && StopSeen(s)
  }

  lemma {:induction false} LinesAppend(entries: seq<Entry>, e: Entry)
    ensures Lines(entries + [e]) == Lines(entries) + (if e == Sentinel then [] else [e.line])
  {
    if entries != [] {
      LinesAppend(entries[1..], e);
      assert (entries + [e])[0] == entries[0] && (entries + [e])[1..] == entries[1..] + [e];
    }
  }

  lemma NoneAfterNothing(e: Entry)
    ensures AfterSentinel([e]) == if e == Sentinel then Some([]) else None
  {
    assert [e][1..] == [];
  }

  lemma {:induction false} AfterSentinelAppend(entries: seq<Entry>, e: Entry)
    ensures AfterSentinel(entries + [e]) ==
      match AfterSentinel(entries)
      case Some(rest) => Some(rest + [e])
      case None => if e == Sentinel then Some([]) else None
  {
    NoneAfterNothing(e);
    if entries == [] {
      assert entries + [e] == [e];
    } else {
      AfterSentinelAppend(entries[1..], e);
      assert (entries + [e])[0] == entries[0] && (entries + [e])[1..] == entries[1..] + [e];
    }
  }

  lemma NextKeepsOrder(s: State, step: Step)
    requires Enabled(s, step) && InOrder(s)
    ensures InOrder(Next(s, step))
  {
    match step
    case Put(line) =>
      LinesAppend(s.queue, Record(line));
      Regroup(Done(s.handled), InHand(s) + Lines(s.queue), [line]);
      Regroup(InHand(s), Lines(s.queue), [line]);
    case Take =>
    case Handle(ok) =>
      assert Done(s.handled + [Outcome(s.handling.value, ok)]) == Done(s.handled) + [s.handling.value];
      Regroup(Done(s.handled), [s.handling.value], Lines(s.queue));
    case AskStop => LinesAppend(s.queue, Sentinel);
    case Count =>
  }

  lemma NextKeepsStop(s: State, step: Step)
    requires Enabled(s, step) && StopSeen(s)
    ensures StopSeen(Next(s, step))
  {
    match step
    case Put(line) =>
      AfterSentinelAppend(s.queue, Record(line));
      assert Records(s.late + [line]) == Records(s.late) + [Record(line)];
    case AskStop =>
      AfterSentinelAppend(s.queue, Sentinel);
      assert Records([]) == [];
    case _ =>
  }

  lemma NextKeepsInv(s: State, step: Step)
    requires Enabled(s, step) && Inv(s)
    ensures Inv(Next(s, step))
  {
    NextKeepsOrder(s, step);
    NextKeepsStop(s, step);
  }

  lemma {:induction false} RunKeepsInv(states: seq<State>, steps: seq<Step>)
    requires IsRun(states, steps)
    ensures Inv(states[|steps|])
  {
    if steps != [] {
      var n := |steps| - 1;
      RunKeepsInv(states[..n + 1], steps[..n]);
      NextKeepsInv(states[n], steps[n]);
    }
  }

  // --- What a run guarantees ---

  lemma {:induction false} OnlyCounts(handled: seq<Outcome>)
    ensures |Only(handled, true)| + |Only(handled, false)| == |handled|
  {
    if handled != [] {
      OnlyCounts(handled[1..]);
    }
  }

  lemma {:induction false} AllWritten(handled: seq<Outcome>)
    requires Only(handled, false) == []
    ensures Only(handled, true) == Done(handled)
  {
    if handled != [] {
      assert handled[0].written;
      AllWritten(handled[1..]);
      assert Done(handled) == [handled[0].line] + Done(handled[1..]);
    }
  }

  /** Every event counted or about to be is in exactly one place: written, lost to a handler error, in the
      listener's hand, queued, or counted as dropped. */
  lemma EventsAreConserved(states: seq<State>, steps: seq<Step>)
    requires IsRun(states, steps)
    ensures var s := states[|steps|];
      s.events + s.uncounted ==
      |Only(s.handled, true)| + |Only(s.handled, false)| + |InHand(s)| + |Lines(s.queue)| + s.dropped
  {
    RunKeepsInv(states, steps);
    OnlyCounts(states[|steps|].handled);
  }

  lemma QueueIsBounded(states: seq<State>, steps: seq<Step>)
    requires IsRun(states, steps)
    ensures |states[|steps|].queue| <= 10000
  {
    RunKeepsInv(states, steps);
  }

  /** Without handler errors the file holds a prefix of the accepted lines. */
  lemma WrittenInOrder(states: seq<State>, steps: seq<Step>)
    requires IsRun(states, steps)
    ensures Done(states[|steps|].handled) <= states[|steps|].accepted
    ensures Only(states[|steps|].handled, false) == [] ==>
      Only(states[|steps|].handled, true) <= states[|steps|].accepted
  {
    RunKeepsInv(states, steps);
    if Only(states[|steps|].handled, false) == [] {
      AllWritten(states[|steps|].handled);
    }
  }

  /** Once the listener has ended, what stays queued is what was put after the sentinel, for good. */
  lemma EndedListenerLeavesLateLines(states: seq<State>, steps: seq<Step>)
    requires IsRun(states, steps) && !states[|steps|].listening
    ensures Lines(states[|steps|].queue) == states[|steps|].late
    ensures states[|steps|].queue == [] <==> states[|steps|].late == []
    ensures states[|steps|].accepted == Done(states[|steps|].handled) + states[|steps|].late
  {
    RunKeepsInv(states, steps);
    LinesOfRecords(states[|steps|].late);
  }

  lemma {:induction false} LinesOfRecords(lines: seq<Line>)
    ensures Lines(Records(lines)) == lines
  {
    if lines != [] {
      assert Records(lines)[1..] == Records(lines[1..]);
      LinesOfRecords(lines[1..]);
    }
  }

  /** A stop that finds the queue full is swallowed, and the listener never ends. */
  lemma RefusedStopLeavesListener(states: seq<State>, steps: seq<Step>)
    requires IsRun(states, steps) && states[|steps|].stop == Refused
    ensures states[|steps|].listening
  {
    RunKeepsInv(states, steps);
  }

  // --- The logger itself ---

  class AuditLogger {
    var queue: seq<Entry>
    var listening: bool
    var handling: Option<Line>   // what the listener has in hand
    var dropped: nat
    var events: nat
    ghost var handled: seq<Outcome>
    ghost var accepted: seq<Line>
    ghost var late: seq<Line>
    ghost var uncounted: nat
    ghost var stop: Stop

    ghost function Snapshot(): State
      reads this
    {
      State(queue, listening, handling, handled, accepted, late, dropped, uncounted, events, stop)
    }

    constructor ()
      ensures Snapshot() == Start
    {
      queue, listening, handling, dropped, events := [], true, None, 0, 0;
      handled, accepted, late, uncounted, stop := [], [], [], 0, NotAsked;
    }

    method Enqueue(line: Line)
      modifies this
      ensures Snapshot() == Next(old(Snapshot()), Put(line))
      ensures queue == if |old(queue)| < 10000 then old(queue) + [Record(line)] else old(queue)
      ensures dropped == if |old(queue)| < 10000 then old(dropped) else old(dropped) + 1
      ensures accepted == if |old(queue)| < 10000 then old(accepted) + [line] else old(accepted)
    {
      if |queue| < QUEUE_MAXSIZE {
        queue := queue + [Record(line)];
        accepted := accepted + [line];
        late := if stop == Accepted then late + [line] else late;
      } else {
        dropped := dropped + 1;
      }
      uncounted := uncounted + 1;
    }

    method IncrementEventCount()
      requires uncounted > 0
      modifies this`events, this`uncounted
      ensures Snapshot() == Next(old(Snapshot()), Count)
      ensures events == old(events) + 1
    {
      events := events + 1;
      uncounted := uncounted - 1;
    }

    /** One turn of the listener: handle the line in hand, or else take the next entry, and end if that is the
        sentinel. */
    method ListenerTurn(ok: bool)
      requires handling.Some? || (listening && queue != [])
      modifies this`queue, this`listening, this`handling, this`handled
      ensures Snapshot() == Next(old(Snapshot()), if old(handling).Some? then Handle(ok) else Take)
      ensures old(handling).Some? ==>
        && handling == None && queue == old(queue) && listening == old(listening)
        && handled == old(handled) + [Outcome(old(handling).value, ok)]
      ensures old(handling).None? ==>
        && queue == old(queue)[1..] && handled == old(handled)
        && (listening <==> old(queue)[0] != Sentinel)
        && handling == (if listening then Some(old(queue)[0].line) else None)
    {
      if handling.Some? {
        handled := handled + [Outcome(handling.value, ok)];
        handling := None;
      } else {
        var head := queue[0];
        queue := queue[1..];
        if head == Sentinel {
          listening := false;
        } else {
          handling := Some(head.line);
        }
      }
    }

    /** Ask the listener to stop, whatever it is doing, and wait for it; requests run on the waiting thread, so
        none puts a line meanwhile. The returned count covers every line handled or dropped, except those of
        requests that had not counted theirs. */
    method Shutdown() returns (count: nat)
      requires Inv(Snapshot()) && stop == NotAsked
      modifies this
      ensures Inv(Snapshot())
      ensures stop == if |old(queue)| < 10000 then Accepted else Refused
      ensures stop == Accepted ==> !listening && queue == [] && Done(handled) == accepted
      ensures stop == Refused ==>
        listening && queue == old(queue) && handling == old(handling) && handled == old(handled)
      ensures accepted == old(accepted) && dropped == old(dropped) && uncounted == old(uncounted)
      ensures stop == Accepted ==> count + uncounted == |handled| + dropped
    {
      NextKeepsInv(Snapshot(), AskStop);
      if |queue| < QUEUE_MAXSIZE {
        queue := queue + [Sentinel];
        stop := Accepted;
        while listening
          invariant Inv(Snapshot()) && stop == Accepted && late == []
          invariant accepted == old(accepted) && dropped == old(dropped)
          invariant uncounted == old(uncounted) && events == old(events)
          decreases listening, |queue|, handling.Some?
        {
          var ok: bool := *;
          NextKeepsInv(Snapshot(), if handling.Some? then Handle(ok) else Take);
          ListenerTurn(ok);
        }
      } else {
        stop := Refused;
      }
      count := events;
    }
  }
}
