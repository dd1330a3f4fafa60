/** The two caches behind the metrics endpoint: the response text, and inside it the key counts of the
    namespaces. Requests are coroutines that may be suspended at any await while they refresh them. */
module MetricsCache {
  import opened Wrappers

  const NS_COUNTS_TTL := 30.0
  const METRICS_TEXT_TTL := 5.0

  type Task = nat

  // Values are known by when they were read.
  datatype Counts = Counts(scanBegan: real)
  datatype Body = Body(readsBegan: real, counts: Option<Counts>)   // None: the empty table of a fresh process

  // A request that found the text expired, with the moment it looked.
  datatype Pc =
    | Reading(now: real, readsBegan: real)
    | Scanning(now: real, readsBegan: real, scanNow: real, scanBegan: real)

  datatype Served = Served(request: real, body: Body)

  datatype State = State(
    clock: real,
    counts: Option<Counts>, countsStamp: real,
    text: Option<Body>, textStamp: real,
    pcs: map<Task, Pc>,
    served: seq<Served>)

  function Start(clock: real): State {
    State(clock, None, 0.0, None, 0.0, map[], [])
  }

  datatype Step = Wait(time: real) | Request(t: Task) | ReadsArrive(t: Task) | ScanEnds(t: Task) | Fail(t: Task)

  predicate Enabled(s: State, step: Step) {
    match step
    case Wait(time) => time >= 0.0
    case Request(t) => t !in s.pcs
    case ReadsArrive(t) => t in s.pcs && s.pcs[t].Reading?
    case ScanEnds(t) => t in s.pcs && s.pcs[t].Scanning?
    case Fail(t) => t in s.pcs
  }

  /** The text is generated, stored under the moment the request looked, and returned, without a pause. */
  function Finish(s: State, t: Task, counts: Option<Counts>): State
    requires t in s.pcs
  {
    var body := Body(s.pcs[t].readsBegan, counts);
    s.(text := Some(body), textStamp := s.pcs[t].now, pcs := s.pcs - {t},
       served := s.served + [Served(s.pcs[t].now, body)])
  }

  function Next(s: State, step: Step): State
    requires Enabled(s, step)
  {
    match step
    case Wait(time) => s.(clock := s.clock + time)
    case Request(t) =>
      if s.text.Some? && s.clock - s.textStamp < METRICS_TEXT_TTL then
        s.(served := s.served + [Served(s.clock, s.text.value)])
      else s.(pcs := s.pcs[t := Reading(s.clock, s.clock)])
    case ReadsArrive(t) =>
      if s.clock - s.countsStamp < NS_COUNTS_TTL then Finish(s, t, s.counts)
      else s.(pcs := s.pcs[t := Scanning(s.pcs[t].now, s.pcs[t].readsBegan, s.clock, s.clock)])
    case ScanEnds(t) =>
      var counts := Some(Counts(s.pcs[t].scanBegan));
      Finish(s.(counts := counts, countsStamp := s.pcs[t].scanNow), t, counts)
    case Fail(t) => s.(pcs := s.pcs - {t})
  }

  ghost predicate IsRun(states: seq<State>, steps: seq<Step>) {
    && |states| == |steps| + 1
    && states[0] == Start(states[0].clock)
    && forall i :: 0 <= i < |steps| ==> Enabled(states[i], steps[i]) && states[i + 1] == Next(states[i], steps[i])
  }

  // --- The invariant ---

  /** Read no earlier than the moment, with counts at most their own lifetime older. */
  predicate FreshAt(body: Body, moment: real) {
    body.readsBegan >= moment && body.counts.Some? && body.counts.value.scanBegan > moment - NS_COUNTS_TTL
  }

  predicate FreshWhenServed(x: Served) {
    && x.body.readsBegan > x.request - METRICS_TEXT_TTL
    && x.body.counts.Some?
    && x.body.counts.value.scanBegan > x.request - METRICS_TEXT_TTL - NS_COUNTS_TTL
  }

  predicate OrderedTimes(s: State, pc: Pc) {
    && pc.now <= s.clock && pc.now <= pc.readsBegan
    && (pc.Scanning? ==> pc.now <= pc.scanNow <= pc.scanBegan && pc.scanNow <= s.clock)
  }

  /** Whatever order refreshes end in, each stamp is a lower bound for the value stored with it. */
  ghost predicate Inv(s: State) {
    && s.clock >= NS_COUNTS_TTL
    && (if s.counts.Some? then s.counts.value.scanBegan >= s.countsStamp else s.countsStamp == 0.0)
    && (s.text.Some? ==> FreshAt(s.text.value, s.textStamp))
    && (forall t :: t in s.pcs ==> OrderedTimes(s, s.pcs[t]))
    && (forall i :: 0 <= i < |s.served| ==> FreshWhenServed(s.served[i]))
  }

  lemma NextKeepsInv(s: State, step: Step)
    requires Enabled(s, step) && Inv(s)
    ensures Inv(Next(s, step))
  {
  }

  lemma {:induction false} RunKeepsInv(states: seq<State>, steps: seq<Step>)
    requires IsRun(states, steps) && states[0].clock >= NS_COUNTS_TTL
    ensures Inv(states[|steps|])
  {
    if steps != [] {
      var n := |steps| - 1;
      RunKeepsInv(states[..n + 1], steps[..n]);
      NextKeepsInv(states[n], steps[n]);
    }
  }

  /** Every body served was read less than 5 s before its request, and its counts less than 35 s before. */
  lemma ServedIsFresh(states: seq<State>, steps: seq<Step>, i: nat)
    requires IsRun(states, steps) && states[0].clock >= NS_COUNTS_TTL && i < |states[|steps|].served|
    ensures var x := states[|steps|].served[i];
      x.request - x.body.readsBegan < 5.0 && x.body.counts.Some? && x.request - x.body.counts.value.scanBegan < 35.0
  {
    RunKeepsInv(states, steps);
    assert FreshWhenServed(states[|steps|].served[i]);
  }

  /** A body generated for its own request has counts less than their own lifetime old; so only a body served
      from the text cache can have older ones, and then it is the text as it was stored. */
  lemma OnlyCachedTextIsOlder(states: seq<State>, steps: seq<Step>, i: nat)
    requires IsRun(states, steps) && states[0].clock >= NS_COUNTS_TTL && 0 < i <= |steps|
    requires |states[i].served| > |states[i - 1].served|
    ensures var x := states[i].served[|states[i].served| - 1];
      && x.body.counts.Some?
      && (x.request - x.body.counts.value.scanBegan >= 30.0 ==>
            steps[i - 1].Request? && states[i - 1].text == Some(x.body))
  {
    RunIsOk(states, steps, i - 1);
    NextServes(states[i - 1], steps[i - 1]);
    assert states[(i - 1) + 1] == Next(states[i - 1], steps[i - 1]);
  }

  /** While the stored text is less than 5 s old a request is answered with it at once and refreshes nothing; while the
      counts are less than 30 s old a refresh ends without a scan. */
  lemma CachesAreUsed(s: State, t: Task)
    ensures t !in s.pcs && s.text.Some? && s.clock - s.textStamp < 5.0 ==>
      Next(s, Request(t)) == s.(served := s.served + [Served(s.clock, s.text.value)])
    ensures t in s.pcs && s.pcs[t].Reading? && s.clock - s.countsStamp < 30.0 ==>
      var s' := Next(s, ReadsArrive(t));
      s'.pcs == s.pcs - {t} && s'.text == Some(Body(s.pcs[t].readsBegan, s.counts)) && s'.counts == s.counts
  {
  }

  lemma RunIsOk(states: seq<State>, steps: seq<Step>, i: nat)
    requires IsRun(states, steps) && states[0].clock >= NS_COUNTS_TTL && i < |steps|
    ensures Inv(states[i]) && Enabled(states[i], steps[i]) && states[i + 1] == Next(states[i], steps[i])
  {
    RunKeepsInv(states[..i + 1], steps[..i]);
  }

  lemma NextServes(s: State, step: Step)
    requires Inv(s) && Enabled(s, step) && |Next(s, step).served| > |s.served|
    ensures var x := Next(s, step).served[|Next(s, step).served| - 1];
      && x.body.counts.Some?
      && if step.Request? then s.text == Some(x.body) else x.request - x.body.counts.value.scanBegan < NS_COUNTS_TTL
  {
  }

  // --- When served reads go back in time ---

  /** A refresh ends when its text is stored. */
  predicate Finishes(s: State, step: Step)
    requires Enabled(s, step)
  {
    step.ScanEnds? || (step.ReadsArrive? && s.clock - s.countsStamp < NS_COUNTS_TTL)
  }

  /** When the refreshes that have ended, in the order in which they did, had begun to read. */
  ghost function Ended(states: seq<State>, steps: seq<Step>, i: nat): seq<real>
    requires IsRun(states, steps) && i <= |steps|
  {
    if i == 0 then [] else Ended(states, steps, i - 1) + EndedBy(states[i - 1], steps[i - 1])
  }

  function EndedBy(s: State, step: Step): seq<real>
    requires Enabled(s, step)
  {
    if Finishes(s, step) then [s.pcs[step.t].readsBegan] else []
  }

  function ReadTimes(served: seq<Served>): seq<real> {
    if served == [] then [] else ReadTimes(served[..|served| - 1]) + [served[|served| - 1].body.readsBegan]
  }

  ghost predicate NeverBack(times: seq<real>) {
    forall i, j :: 0 <= i < j < |times| ==> times[i] <= times[j]
  }

  lemma NeverBackAppend(times: seq<real>, t: real)
    ensures NeverBack(times + [t]) <==> NeverBack(times) && (times == [] || times[|times| - 1] <= t)
  {
    var more := times + [t];
    assert forall i :: 0 <= i < |times| ==> more[i] == times[i];
    if NeverBack(more) {
      assert times != [] ==> more[|times| - 1] <= more[|times|];
      forall i, j | 0 <= i < j < |times|
        ensures times[i] <= times[j]
      {
        assert more[i] <= more[j];
      }
    }
  }

  /** The stored text, the last body served and the last refresh that ended carry the same time, and both
      sequences go back or neither does. */
  ghost predicate InStep(text: Option<Body>, served: seq<real>, ended: seq<real>) {
    && (ended == [] <==> text == None) && (served == [] <==> ended == [])
    && (ended != [] ==> ended[|ended| - 1] == served[|served| - 1] == text.value.readsBegan)
    && (NeverBack(served) <==> NeverBack(ended))
  }

  lemma FinishedInStep(before: Option<Body>, text: Body, served: seq<real>, ended: seq<real>)
    requires InStep(before, served, ended)
    ensures InStep(Some(text), served + [text.readsBegan], ended + [text.readsBegan])
  {
    NeverBackAppend(served, text.readsBegan);
    NeverBackAppend(ended, text.readsBegan);
  }

  lemma ServedInStep(text: Body, served: seq<real>, ended: seq<real>)
    requires InStep(Some(text), served, ended)
    ensures InStep(Some(text), served + [text.readsBegan], ended)
  {
    NeverBackAppend(served, text.readsBegan);
  }

  lemma ReadTimesAppend(served: seq<Served>, x: Served)
    ensures ReadTimes(served + [x]) == ReadTimes(served) + [x.body.readsBegan]
  {
    assert (served + [x])[..|served|] == served;
  }

  /** What a step does to the stored text and to what has been served. */
  lemma NextTextAndServed(s: State, step: Step)
    requires Enabled(s, step)
    ensures var s' := Next(s, step);
      if Finishes(s, step) then
        s'.text.Some? && s'.text.value.readsBegan == s.pcs[step.t].readsBegan
        && ReadTimes(s'.served) == ReadTimes(s.served) + [s'.text.value.readsBegan]
      else
        s'.text == s.text
        && (ReadTimes(s'.served) == ReadTimes(s.served)
            || (s.text.Some? && ReadTimes(s'.served) == ReadTimes(s.served) + [s.text.value.readsBegan]))
  {
    var s' := Next(s, step);
    if |s'.served| > |s.served| {
      ReadTimesAppend(s.served, s'.served[|s.served|]);
    }
  }

  lemma NextStaysInStep(s: State, step: Step, ended: seq<real>)
    requires Enabled(s, step) && InStep(s.text, ReadTimes(s.served), ended)
    ensures InStep(Next(s, step).text, ReadTimes(Next(s, step).served), ended + EndedBy(s, step))
  {
    NextTextAndServed(s, step);
    if Finishes(s, step) {
      FinishedInStep(s.text, Next(s, step).text.value, ReadTimes(s.served), ended);
    } else {
      assert ended + [] == ended;
      if s.text.Some? {
        ServedInStep(s.text.value, ReadTimes(s.served), ended);
      }
    }
  }

  lemma {:induction false} RunStaysInStep(states: seq<State>, steps: seq<Step>, i: nat)
    requires IsRun(states, steps) && i <= |steps|
    ensures InStep(states[i].text, ReadTimes(states[i].served), Ended(states, steps, i))
  {
    if i > 0 {
      RunStaysInStep(states, steps, i - 1);
      assert Enabled(states[i - 1], steps[i - 1]) && states[(i - 1) + 1] == Next(states[i - 1], steps[i - 1]);
      NextStaysInStep(states[i - 1], steps[i - 1], Ended(states, steps, i - 1));
    }
  }

  /** In every run, what is served never goes back in time if and only if the refreshes ended in the order in
      which they began to read. */
  lemma ReadsGoBackExactlyWhen(states: seq<State>, steps: seq<Step>)
    requires IsRun(states, steps)
    ensures NeverBack(ReadTimes(states[|steps|].served)) <==> NeverBack(Ended(states, steps, |steps|))
  {
    RunStaysInStep(states, steps, |steps|);
  }

  /** Whatever has ended had begun to read before what is still under way. */
  ghost predicate EndedEarlier(s: State, ended: seq<real>) {
    && NeverBack(ended)
    && (ended != [] ==> UpTo(s, ended[|ended| - 1]))
    && (forall t :: t in s.pcs ==> s.pcs[t].readsBegan <= s.clock)
  }

  ghost predicate UpTo(s: State, time: real) {
    time <= s.clock && forall t :: t in s.pcs ==> time <= s.pcs[t].readsBegan
  }

  lemma NextStaysUpTo(s: State, step: Step, time: real)
    requires Enabled(s, step) && UpTo(s, time)
    ensures UpTo(Next(s, step), time)
  {
  }

  lemma FinishIsUpTo(s: State, step: Step)
    requires Enabled(s, step) && Finishes(s, step) && s.pcs[step.t].readsBegan <= s.clock
    requires forall t, u :: t in s.pcs && u in s.pcs ==> t == u
    ensures UpTo(Next(s, step), s.pcs[step.t].readsBegan)
  {
    assert forall u :: u in s.pcs ==> u == step.t;
  }

  lemma NextStaysBegun(s: State, step: Step)
    requires Enabled(s, step) && forall t :: t in s.pcs ==> s.pcs[t].readsBegan <= s.clock
    ensures forall t :: t in Next(s, step).pcs ==> Next(s, step).pcs[t].readsBegan <= Next(s, step).clock
  {
  }

  lemma NextStaysEarlier(s: State, step: Step, ended: seq<real>)
    requires Enabled(s, step) && EndedEarlier(s, ended)
    requires forall t, u :: t in s.pcs && u in s.pcs ==> t == u
    ensures EndedEarlier(Next(s, step), ended + EndedBy(s, step))
  {
    NextStaysBegun(s, step);
    if Finishes(s, step) {
      NeverBackAppend(ended, s.pcs[step.t].readsBegan);
      FinishIsUpTo(s, step);
    } else {
      assert ended + [] == ended;
      if ended != [] {
        NextStaysUpTo(s, step, ended[|ended| - 1]);
      }
    }
  }

  lemma {:induction false} RunStaysEarlier(states: seq<State>, steps: seq<Step>, i: nat)
    requires IsRun(states, steps) && i <= |steps|
    requires forall k :: 0 <= k < i ==> |states[k].pcs| <= 1
    ensures EndedEarlier(states[i], Ended(states, steps, i))
  {
    if i > 0 {
      RunStaysEarlier(states, steps, i - 1);
      assert Enabled(states[i - 1], steps[i - 1]) && states[(i - 1) + 1] == Next(states[i - 1], steps[i - 1]);
      OnlyOne(states[i - 1].pcs);
      NextStaysEarlier(states[i - 1], steps[i - 1], Ended(states, steps, i - 1));
    }
  }

  lemma TwoKeys(pcs: map<Task, Pc>, t: Task, u: Task)
    requires t in pcs && u in pcs && t != u
    ensures |pcs| >= 2
  {
    assert u in pcs.Keys - {t} && pcs.Keys == pcs.Keys - {t} + {t};
  }

  lemma OnlyOne(pcs: map<Task, Pc>)
    requires |pcs| <= 1
    ensures forall t, u :: t in pcs && u in pcs ==> t == u
  {
    forall t, u | t in pcs && u in pcs
      ensures t == u
    {
      if t != u {
        TwoKeys(pcs, t, u);
      }
    }
  }

  /** So as long as no two refreshes are under way at a time, what is served never goes back. */
  lemma OneAtATimeNeverGoesBack(states: seq<State>, steps: seq<Step>)
    requires IsRun(states, steps) && forall k :: 0 <= k < |steps| ==> |states[k].pcs| <= 1
    ensures NeverBack(ReadTimes(states[|steps|].served))
  {
    RunStaysEarlier(states, steps, |steps|);
    ReadsGoBackExactlyWhen(states, steps);
  }

  // --- What the caches do not promise ---

  /** A run whose last body was served with reads and counts of exactly these ages. */
  ghost predicate ServesAged(states: seq<State>, steps: seq<Step>, age: real, countsAge: real) {
    && IsRun(states, steps) && states[0].clock >= NS_COUNTS_TTL && states[|steps|].served != []
    && var x := states[|steps|].served[|states[|steps|].served| - 1];
       && x.request - x.body.readsBegan == age
       && x.body.counts.Some? && x.request - x.body.counts.value.scanBegan == countsAge
  }

  /** The two lifetimes add up: counts up to 35 s old are served, not only up to their 30. */
  lemma LifetimesAddUp(age: real, countsAge: real)
    requires 0.0 <= age < 5.0 && 5.0 <= countsAge - age < 30.0
    ensures exists states, steps :: ServesAged(states, steps, age, countsAge)
  {
    var s0 := Start(100.0);
    var s1 := Next(s0, Request(0));
    var s2 := Next(s1, ReadsArrive(0));
    var s3 := Next(s2, ScanEnds(0));
    var s4 := Next(s3, Wait(countsAge - age));
    var s5 := Next(s4, Request(1));
    var s6 := Next(s5, ReadsArrive(1));
    var s7 := Next(s6, Wait(age));
    var s8 := Next(s7, Request(2));
    var states := [s0, s1, s2, s3, s4, s5, s6, s7, s8];
    var steps := [Request(0), ReadsArrive(0), ScanEnds(0), Wait(countsAge - age), Request(1), ReadsArrive(1),
      Wait(age), Request(2)];
    assert ServesAged(states, steps, age, countsAge);
  }

  /** A run in which the request served as number j came after that of number i and got older reads. */
  ghost predicate GoesBack(states: seq<State>, steps: seq<Step>, i: nat, j: nat) {
    && IsRun(states, steps) && states[0].clock >= NS_COUNTS_TTL && i < j < |states[|steps|].served|
    && var served := states[|steps|].served;
       served[i].request < served[j].request && served[i].body.readsBegan > served[j].body.readsBegan
  }

  /** A slow refresh overwrites a newer one, and a later request is served older reads than an earlier one. */
  lemma ReadsCanGoBack()
    ensures exists states, steps :: GoesBack(states, steps, 0, 2)
  {
    var s0 := Start(100.0);
    var s1 := Next(s0, Request(0));
    var s2 := Next(s1, Wait(1.0));
    var s3 := Next(s2, Request(1));
    var s4 := Next(s3, ReadsArrive(1));
    var s5 := Next(s4, ScanEnds(1));
    var s6 := Next(s5, ReadsArrive(0));
    var s7 := Next(s6, Wait(1.0));
    var s8 := Next(s7, Request(2));
    var states := [s0, s1, s2, s3, s4, s5, s6, s7, s8];
    var steps := [Request(0), Wait(1.0), Request(1), ReadsArrive(1), ScanEnds(1), ReadsArrive(0),
      Wait(1.0), Request(2)];
    assert GoesBack(states, steps, 0, 2);
  }
}
