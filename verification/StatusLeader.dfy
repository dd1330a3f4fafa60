/** Electing the one worker that logs a STATUS line in each period: every worker tries, once a period, to
    set a key that does not exist, with an expiry shorter than the period. Times are in milliseconds. */
module StatusLeader {
  const INTERVAL := 600000
  const TTL := 480000

  type Worker = nat
  datatype Win = Win(worker: Worker, time: int)

  // `workers` holds, for every live worker, when it last tried; the key is free from `freeAt` on. A worker
  // that dies does not come back: its replacement is another one (`seen` holds all there ever were).
  datatype State = State(now: int, freeAt: int, workers: map<Worker, int>, seen: set<Worker>, wins: seq<Win>)

  datatype Step = Tick(to: int) | Join(w: Worker) | Retry(w: Worker) | Die(w: Worker)

  /** `slack` bounds everything a loop iteration does besides sleeping: a live worker tries again no later
      than INTERVAL + slack after its last attempt, so time cannot pass that point before it does. */
  predicate Enabled(slack: nat, s: State, step: Step) {
    match step
    case Tick(to) => s.now <= to && forall w :: w in s.workers ==> to <= s.workers[w] + INTERVAL + slack
    case Join(w) => w !in s.seen
    case Retry(w) => w in s.workers && s.now >= s.workers[w] + INTERVAL
    case Die(w) => w in s.workers
  }

  /** SET key pid NX EX ttl. */
  function Attempt(s: State, w: Worker): State {
    var tried := s.(workers := s.workers[w := s.now]);
    if s.now >= s.freeAt then tried.(freeAt := s.now + TTL, wins := s.wins + [Win(w, s.now)]) else tried
  }

  function Next(s: State, step: Step): State {
    match step
    case Tick(to) => s.(now := to)
    case Join(w) => Attempt(s.(seen := s.seen + {w}), w)
    case Retry(w) => Attempt(s, w)
    case Die(w) => s.(workers := s.workers - {w})
  }

  ghost predicate Init(s: State) {
    s.workers == map[] && s.seen == {} && s.wins == [] && s.freeAt <= s.now + TTL
  }

  ghost predicate IsRun(slack: nat, states: seq<State>, steps: seq<Step>) {
    && |states| == |steps| + 1
    && Init(states[0])
    && forall i :: 0 <= i < |steps| ==>
      Enabled(slack, states[i], steps[i]) && states[i + 1] == Next(states[i], steps[i])
  }

  // --- The invariant ---

  ghost predicate Spaced(wins: seq<Win>) {
    forall i, j :: 0 <= i < j < |wins| ==> wins[j].time >= wins[i].time + TTL
  }

  ghost predicate Inv(slack: nat, s: State) {
    && Spaced(s.wins)
    && s.workers.Keys <= s.seen
    && (s.wins != [] ==> LastWin(s))
    && (forall w :: w in s.workers ==>
      s.workers[w] < s.freeAt && s.workers[w] <= s.now <= s.workers[w] + INTERVAL + slack)
  }

  /** The key expires TTL after the last win, and the winner, if alive, has not tried since. */
  ghost predicate LastWin(s: State)
    requires s.wins != []
  {
    var last := s.wins[|s.wins| - 1];
    && s.freeAt == last.time + TTL && last.time <= s.now && last.worker in s.seen
    && (last.worker in s.workers ==> s.workers[last.worker] == last.time)
  }

  lemma NextKeepsInv(slack: nat, s: State, step: Step)
    requires Inv(slack, s) && Enabled(slack, s, step)
    ensures Inv(slack, Next(s, step))
  {
  }

  lemma {:induction false} RunKeepsInv(slack: nat, states: seq<State>, steps: seq<Step>, i: nat)
    requires IsRun(slack, states, steps) && i <= |steps|
    ensures Inv(slack, states[i])
  {
    if i > 0 {
      RunKeepsInv(slack, states, steps, i - 1);
      assert Enabled(slack, states[i - 1], steps[i - 1]) && states[(i - 1) + 1] == Next(states[i - 1], steps[i - 1]);
      NextKeepsInv(slack, states[i - 1], steps[i - 1]);
    }
  }

  /** Who has won and is alive has not won since its last attempt; one worker's wins are a period apart. */
  ghost predicate OwnWinsSpaced(s: State) {
    && (forall i :: 0 <= i < |s.wins| ==> s.wins[i].worker in s.seen)
    && (forall i :: 0 <= i < |s.wins| && s.wins[i].worker in s.workers ==>
          s.wins[i].time <= s.workers[s.wins[i].worker])
    && (forall i, j :: 0 <= i < j < |s.wins| && s.wins[i].worker == s.wins[j].worker ==>
          s.wins[j].time >= s.wins[i].time + INTERVAL)
  }

  lemma NextKeepsOwn(slack: nat, s: State, step: Step)
    requires OwnWinsSpaced(s) && s.workers.Keys <= s.seen && Enabled(slack, s, step)
    ensures OwnWinsSpaced(Next(s, step))
  {
  }

  lemma {:induction false} RunKeepsOwn(slack: nat, states: seq<State>, steps: seq<Step>, i: nat)
    requires IsRun(slack, states, steps) && i <= |steps|
    ensures OwnWinsSpaced(states[i])
  {
    if i > 0 {
      RunKeepsOwn(slack, states, steps, i - 1);
      RunKeepsInv(slack, states, steps, i - 1);
      assert Enabled(slack, states[i - 1], steps[i - 1]) && states[(i - 1) + 1] == Next(states[i - 1], steps[i - 1]);
      NextKeepsOwn(slack, states[i - 1], steps[i - 1]);
    }
  }

  /** Two wins are 480 seconds apart whoever won them, and 600 seconds if the same worker did. */
  lemma WinsAreApart(slack: nat, states: seq<State>, steps: seq<Step>, i: nat, j: nat, k: nat)
    requires IsRun(slack, states, steps) && i <= |steps| && j < k < |states[i].wins|
    ensures var wins := states[i].wins;
      && wins[k].time >= wins[j].time + 480000
      && (wins[j].worker == wins[k].worker ==> wins[k].time >= wins[j].time + 600000)
  {
    RunKeepsInv(slack, states, steps, i);
    RunKeepsOwn(slack, states, steps, i);
  }

  // --- The clock is never blocked ---

  /** The live workers that must try before the clock can move on. */
  function Due(slack: nat, s: State): set<Worker> {
    set w | w in s.workers && s.now >= s.workers[w] + INTERVAL + slack
  }

  /** The clock can move on, or else some worker can try again, and then one worker fewer is in the way. So the
      guard of Tick only says that workers are not slower than their slack; it never stops time. */
  lemma TimeCanPass(slack: nat, s: State)
    ensures Enabled(slack, s, Tick(s.now + 1)) <==> Due(slack, s) == {}
    ensures forall w :: w in Due(slack, s) ==>
      Enabled(slack, s, Retry(w)) && |Due(slack, Next(s, Retry(w)))| < |Due(slack, s)|
  {
    if !Enabled(slack, s, Tick(s.now + 1)) {
      var w :| w in s.workers && s.now + 1 > s.workers[w] + INTERVAL + slack;
      assert w in Due(slack, s);
    }
    forall w | w in Due(slack, s)
      ensures |Due(slack, Next(s, Retry(w)))| < |Due(slack, s)|
    {
      assert Due(slack, Next(s, Retry(w))) == Due(slack, s) - {w};
    }
  }

  // --- Never too many lines ---

  function CountIn(wins: seq<Win>, from: int, to: int): nat {
    if wins == [] then 0
    else CountIn(wins[..|wins| - 1], from, to) + (if from <= wins[|wins| - 1].time <= to then 1 else 0)
  }

  lemma {:induction false} SpacedWinsReach(wins: seq<Win>, from: int, to: int)
    requires Spaced(wins) && CountIn(wins, from, to) > 0
    ensures exists i :: 0 <= i < |wins| && from + (CountIn(wins, from, to) - 1) * TTL <= wins[i].time <= to
  {
    var n := |wins| - 1;
    var before := wins[..n];
    if CountIn(before, from, to) > 0 {
      SpacedWinsReach(before, from, to);
      var i :| 0 <= i < |before| && from + (CountIn(before, from, to) - 1) * TTL <= before[i].time <= to;
      assert wins[i] == before[i] && wins[n].time >= wins[i].time + TTL;
    }
  }

  /** Any window of length L, wherever it lies, holds at most L / TTL + 1 wins, whatever the number of
      workers and however they interleave, start and die. */
  lemma FewWinsInWindow(slack: nat, states: seq<State>, steps: seq<Step>, i: nat, from: int, length: nat)
    requires IsRun(slack, states, steps) && i <= |steps|
    ensures CountIn(states[i].wins, from, from + length) <= length / 480000 + 1
  {
    RunKeepsInv(slack, states, steps, i);
    var n := CountIn(states[i].wins, from, from + length);
    if n > 0 {
      SpacedWinsReach(states[i].wins, from, from + length);
    }
  }

  /** A winner writes its line some time after the win, within the slack of its loop. */
  function LinesIn(wins: seq<Win>, delays: seq<nat>, from: int, to: int): nat
    requires |wins| == |delays|
  {
    if wins == [] then 0
    else
      var n := |wins| - 1;
      LinesIn(wins[..n], delays[..n], from, to) + (if from <= wins[n].time + delays[n] <= to then 1 else 0)
  }

  lemma {:induction false} LinesComeFromWins(wins: seq<Win>, delays: seq<nat>, slack: nat, from: int, to: int)
    requires |wins| == |delays| && forall i :: 0 <= i < |delays| ==> delays[i] <= slack
    ensures LinesIn(wins, delays, from, to) <= CountIn(wins, from - slack, to)
  {
    if wins != [] {
      LinesComeFromWins(wins[..|wins| - 1], delays[..|wins| - 1], slack, from, to);
    }
  }

  lemma FewLinesInWindow(slack: nat, states: seq<State>, steps: seq<Step>, i: nat, delays: seq<nat>,
      from: int, length: nat)
    requires IsRun(slack, states, steps) && i <= |steps|
    requires |delays| == |states[i].wins| && forall k :: 0 <= k < |delays| ==> delays[k] <= slack
    ensures LinesIn(states[i].wins, delays, from, from + length) <= (length + slack) / 480000 + 1
  {
    LinesComeFromWins(states[i].wins, delays, slack, from, from + length);
    FewWinsInWindow(slack, states, steps, i, from - slack, length + slack);
  }

  // --- Never too long without a line ---

  /** While the last winner lives, its win is never older than a period; while any worker lives, the last
      win is never older than the expiry plus a period. So the next win comes within those times, at the
      latest, and a dead winner's role is taken over. */
  lemma NextWinIsDue(slack: nat, states: seq<State>, steps: seq<Step>, i: nat)
    requires IsRun(slack, states, steps) && i <= |steps| && states[i].wins != []
    ensures var s := states[i];
      var last := s.wins[|s.wins| - 1];
      && (last.worker in s.workers ==> s.now <= last.time + 600000 + slack)
      && (s.workers != map[] ==> s.now < last.time + 480000 + 600000 + slack)
  {
    RunKeepsInv(slack, states, steps, i);
    var s := states[i];
    if s.workers != map[] {
      var w :| w in s.workers;
      assert s.workers[w] < s.freeAt;
    }
  }

  /** From a cold start: a worker that runs for an expiry plus a period has seen a win. */
  lemma FirstWinIsDue(slack: nat, states: seq<State>, steps: seq<Step>, i: nat)
    requires IsRun(slack, states, steps) && i <= |steps| && states[i].workers != map[]
    requires states[i].now >= states[0].now + 480000 + 600000 + slack
    ensures states[i].wins != []
  {
    RunKeepsInv(slack, states, steps, i);
    FreeAtUntilWin(slack, states, steps, i);
    var w :| w in states[i].workers;
  }

  lemma {:induction false} FreeAtUntilWin(slack: nat, states: seq<State>, steps: seq<Step>, i: nat)
    requires IsRun(slack, states, steps) && i <= |steps|
    ensures states[i].wins == [] ==> states[i].freeAt == states[0].freeAt
  {
    if i > 0 {
      FreeAtUntilWin(slack, states, steps, i - 1);
      assert states[(i - 1) + 1] == Next(states[i - 1], steps[i - 1]);
    }
  }
}
