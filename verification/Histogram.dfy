/** The request counters that all workers keep in Redis. Recording a request is a pipeline of increments
    without a transaction, so pipelines interleave freely and one may stop part way. */
module Histogram {
  datatype Request = Request(status: nat, durationMs: real, namespace: string, clientId: string)

  datatype Counter = Total | Status(code: nat) | PerNamespace(ns: string) | PerClient(id: string)
                   | LatencyCount | Bucket(le: nat) | Inf

  // INCR of a counter, or INCRBYFLOAT of the latency sum, which no integer counter depends on.
  datatype Command = Incr(counter: Counter) | AddToSum(ms: real)

  const BUCKETS: seq<nat> := [5, 10, 25, 50, 100, 250, 500, 1000, 5000]

  // ------------------------------------------------------------------
  // One request's pipeline
  // ------------------------------------------------------------------

  function BucketCommands(ms: real, buckets: seq<nat>): seq<Command> {
    if buckets == [] then []
    else (if ms <= buckets[0] as real then [Incr(Bucket(buckets[0]))] else []) + BucketCommands(ms, buckets[1..])
  }

  function LatencyCommands(ms: real, buckets: seq<nat>): seq<Command> {
    if ms > 0.0 then [AddToSum(ms), Incr(LatencyCount)] + BucketCommands(ms, buckets) + [Incr(Inf)] else []
  }

  function LabelCommands(r: Request): seq<Command> {
    (if r.namespace != "" then [Incr(PerNamespace(r.namespace))] else []) +
    (if r.clientId != "" then [Incr(PerClient(r.clientId))] else [])
  }

  function HeadCommands(r: Request): seq<Command> {
    [Incr(Total), Incr(Status(r.status))] + LabelCommands(r)
  }

  function Commands(r: Request, buckets: seq<nat>): seq<Command> {
    HeadCommands(r) + LatencyCommands(r.durationMs, buckets)
  }

  function Program(r: Request): seq<Command> { Commands(r, BUCKETS) }

  /** What the program queues before it executes the pipeline. */
  method QueuePipeline(r: Request) returns (pipe: seq<Command>)
    ensures pipe == Program(r)
  {
    pipe := [Incr(Total), Incr(Status(r.status))];
    if r.namespace != "" {
      pipe := pipe + [Incr(PerNamespace(r.namespace))];
    }
    if r.clientId != "" {
      pipe := pipe + [Incr(PerClient(r.clientId))];
    }
    assert pipe == HeadCommands(r);
    if r.durationMs > 0.0 {
      pipe := pipe + [AddToSum(r.durationMs), Incr(LatencyCount)];
      pipe := QueueBuckets(pipe, r.durationMs, BUCKETS);
      pipe := pipe + [Incr(Inf)];
    }
  }

  method QueueBuckets(before: seq<Command>, ms: real, buckets: seq<nat>) returns (pipe: seq<Command>)
    ensures pipe == before + BucketCommands(ms, buckets)
  {
    pipe := before;
    for i := 0 to |buckets|
      invariant pipe + BucketCommands(ms, buckets[i..]) == before + BucketCommands(ms, buckets)
    {
      assert buckets[i..][1..] == buckets[i + 1..];
      if ms <= buckets[i] as real {
        pipe := pipe + [Incr(Bucket(buckets[i]))];
      }
    }
  }

  // ------------------------------------------------------------------
  // Any number of workers
  // ------------------------------------------------------------------

  // A pipeline that has executed its first `done` commands; an abandoned one simply stays there.
  datatype Pipe = Pipe(request: Request, program: seq<Command>, done: nat)
  datatype State = State(counters: map<Counter, nat>, pipes: seq<Pipe>)
  datatype Step = Begin(request: Request) | Advance(pipe: nat)

  function Value(s: State, c: Counter): nat {
    if c in s.counters then s.counters[c] else 0
  }

  predicate Enabled(s: State, step: Step) {
    match step
    case Begin(_) => true
    case Advance(i) => i < |s.pipes| && s.pipes[i].done < |s.pipes[i].program|
  }

  function Next(s: State, step: Step): State
    requires Enabled(s, step)
  {
    match step
    case Begin(r) => s.(pipes := s.pipes + [Pipe(r, Program(r), 0)])
    case Advance(i) =>
      var p := s.pipes[i];
      var moved := s.pipes[i := p.(done := p.done + 1)];
      match p.program[p.done]
      case Incr(c) => State(s.counters[c := Value(s, c) + 1], moved)
      case AddToSum(_) => s.(pipes := moved)
  }

  ghost predicate IsRun(states: seq<State>, steps: seq<Step>) {
    && |states| == |steps| + 1
    && states[0] == State(map[], [])
    && forall i :: 0 <= i < |steps| ==> Enabled(states[i], steps[i]) && states[i + 1] == Next(states[i], steps[i])
  }

  // --- Every counter is the sum of what the pipelines have executed ---

  function Executed(p: Pipe, c: Counter): nat {
    if p.done <= |p.program| then multiset(p.program[..p.done])[Incr(c)] else 0
  }

  function Sum(pipes: seq<Pipe>, c: Counter): nat {
    if pipes == [] then 0 else Sum(pipes[..|pipes| - 1], c) + Executed(pipes[|pipes| - 1], c)
  }

  ghost predicate Proper(pipes: seq<Pipe>, buckets: seq<nat>) {
    forall p :: p in pipes ==> p.done <= |p.program| && p.program == Commands(p.request, buckets)
  }

  ghost predicate Counted(s: State) {
    forall c :: Value(s, c) == Sum(s.pipes, c)
  }

  lemma {:induction false} SumUpdate(pipes: seq<Pipe>, i: nat, p: Pipe, c: Counter)
    requires i < |pipes|
    ensures Sum(pipes[i := p], c) == Sum(pipes, c) - Executed(pipes[i], c) + Executed(p, c)
  {
    var n := |pipes| - 1;
    if i < n {
      SumUpdate(pipes[..n], i, p, c);
      assert pipes[i := p][..n] == pipes[..n][i := p];
    } else {
      assert pipes[i := p][..n] == pipes[..n];
    }
  }

  lemma ExecutedNext(p: Pipe, c: Counter)
    requires p.done < |p.program|
    ensures Executed(p.(done := p.done + 1), c) == Executed(p, c) + (if p.program[p.done] == Incr(c) then 1 else 0)
  {
    assert p.program[..p.done + 1] == p.program[..p.done] + [p.program[p.done]];
  }

  lemma AdvanceKeepsCounted(s: State, i: nat)
    requires Counted(s) && Enabled(s, Advance(i))
    ensures Counted(Next(s, Advance(i)))
  {
    var p := s.pipes[i];
    forall c
      ensures Value(Next(s, Advance(i)), c) == Sum(Next(s, Advance(i)).pipes, c)
    {
      SumUpdate(s.pipes, i, p.(done := p.done + 1), c);
      ExecutedNext(p, c);
    }
  }

  lemma BeginKeepsCounted(s: State, r: Request)
    requires Counted(s)
    ensures Counted(Next(s, Begin(r)))
  {
    assert Next(s, Begin(r)).pipes[..|s.pipes|] == s.pipes;
  }

  lemma {:induction false} RunKeepsInv(states: seq<State>, steps: seq<Step>, i: nat)
    requires IsRun(states, steps) && i <= |steps|
    ensures Counted(states[i]) && Proper(states[i].pipes, BUCKETS)
  {
    if i > 0 {
      RunKeepsInv(states, steps, i - 1);
      var s, step := states[i - 1], steps[i - 1];
      assert Enabled(s, step) && states[(i - 1) + 1] == Next(s, step);
      match step
      case Begin(r) => BeginKeepsCounted(s, r);
      case Advance(k) => AdvanceKeepsCounted(s, k);
    }
  }

  // --- What one pipeline has executed, at any point ---

  ghost predicate Distinct(buckets: seq<nat>) {
    forall i, j :: 0 <= i < j < |buckets| ==> buckets[i] != buckets[j]
  }

  lemma {:induction false} BucketCommandsAre(ms: real, buckets: seq<nat>)
    requires Distinct(buckets)
    ensures forall x :: x in BucketCommands(ms, buckets) <==>
              x.Incr? && x.counter.Bucket? && x.counter.le in buckets && ms <= x.counter.le as real
    ensures forall x :: multiset(BucketCommands(ms, buckets))[x] <= 1
  {
    if buckets != [] {
      BucketCommandsAre(ms, buckets[1..]);
      assert buckets == [buckets[0]] + buckets[1..];
      var rest := BucketCommands(ms, buckets[1..]);
      assert Incr(Bucket(buckets[0])) !in rest;
      assert multiset(BucketCommands(ms, buckets)) ==
        (if ms <= buckets[0] as real then multiset{Incr(Bucket(buckets[0]))} else multiset{}) + multiset(rest);
    }
  }

  lemma BucketsDiffer()
    ensures Distinct(BUCKETS)
    ensures forall b :: b in BUCKETS <==> b in {5, 10, 25, 50, 100, 250, 500, 1000, 5000}
  {
  }

  predicate IsLatency(x: Command) { x.Incr? && (x.counter.LatencyCount? || x.counter.Bucket? || x.counter.Inf?) }

  lemma LabelShape(r: Request)
    ensures forall x :: multiset(LabelCommands(r))[x] <= 1
    ensures forall x :: x in LabelCommands(r) ==> x.Incr? && (x.counter.PerNamespace? || x.counter.PerClient?)
  {
  }

  lemma HeadShape(r: Request)
    ensures |HeadCommands(r)| >= 2 && HeadCommands(r)[0] == Incr(Total) && HeadCommands(r)[1] == Incr(Status(r.status))
    ensures forall x :: x in HeadCommands(r) ==>
      !IsLatency(x) && (x.Incr? && x.counter.Status? ==> x.counter.code == r.status)
  {
    LabelShape(r);
    var first, labels := [Incr(Total), Incr(Status(r.status))], LabelCommands(r);
    assert forall x :: x in HeadCommands(r) <==> x in first || x in labels;
  }

  lemma HeadOnce(r: Request, x: Command)
    ensures multiset(HeadCommands(r))[x] <= 1
  {
    LabelShape(r);
    var first, labels := [Incr(Total), Incr(Status(r.status))], LabelCommands(r);
    assert multiset(HeadCommands(r)) == multiset(first) + multiset(labels);
    assert multiset(labels)[x] > 0 <==> x in labels;
  }

  lemma LatencyShape(ms: real, buckets: seq<nat>)
    requires Distinct(buckets)
    requires ms > 0.0
    ensures |LatencyCommands(ms, buckets)| >= 2 && LatencyCommands(ms, buckets)[1] == Incr(LatencyCount)
    ensures LatencyCommands(ms, buckets)[0] == AddToSum(ms)
    ensures forall x :: x in LatencyCommands(ms, buckets) ==> x == AddToSum(ms) || IsLatency(x)
    ensures Incr(Inf) in LatencyCommands(ms, buckets)
    ensures forall b: nat :: Incr(Bucket(b)) in LatencyCommands(ms, buckets) <==> b in buckets && ms <= b as real
  {
    BucketCommandsAre(ms, buckets);
    var all, first := LatencyCommands(ms, buckets), [AddToSum(ms), Incr(LatencyCount)];
    var middle, last := BucketCommands(ms, buckets), [Incr(Inf)];
    assert all == first + middle + last && all[|all| - 1] == Incr(Inf);
    assert forall x :: x in all <==> x in first || x in middle || x in last;
  }

  lemma LatencyOnce(ms: real, buckets: seq<nat>, x: Command)
    requires Distinct(buckets)
    ensures multiset(LatencyCommands(ms, buckets))[x] <= 1
  {
    if ms > 0.0 {
      BucketCommandsAre(ms, buckets);
      var middle := BucketCommands(ms, buckets);
      assert x in middle <==> multiset(middle)[x] > 0;
      assert multiset(LatencyCommands(ms, buckets)) ==
        multiset{AddToSum(ms), Incr(LatencyCount)} + multiset(middle) + multiset{Incr(Inf)};
    }
  }

  /** No command comes twice. */
  lemma EachCommandOnce(r: Request, buckets: seq<nat>)
    requires Distinct(buckets)
    ensures forall x :: multiset(Commands(r, buckets))[x] <= 1
  {
    HeadShape(r);
    if r.durationMs > 0.0 {
      SumInHead(r, r.durationMs);
      LatencyShape(r.durationMs, buckets);
    }
    forall x
      ensures multiset(Commands(r, buckets))[x] <= 1
    {
      assert x in HeadCommands(r) ==> x !in LatencyCommands(r.durationMs, buckets);
      HeadOnce(r, x);
      LatencyOnce(r.durationMs, buckets, x);
    }
  }

  lemma PrefixCounts(program: seq<Command>, k: nat, x: Command)
    requires k <= |program| && multiset(program)[x] <= 1
    ensures multiset(program[..k])[x] == if x in program[..k] then 1 else 0
  {
    assert program == program[..k] + program[k..];
    assert multiset(program)[x] == multiset(program[..k])[x] + multiset(program[k..])[x];
    assert x in program[..k] <==> x in multiset(program[..k]);
  }

  /** Before its latency commands a request is counted under its total and its status. */
  lemma HeadOrder(r: Request, k: nat)
    requires k <= |HeadCommands(r)|
    ensures Ordered(HeadCommands(r)[..k], r.status)
  {
    HeadShape(r);
    if k > 0 {
      assert HeadCommands(r)[..k][0] == Incr(Total);
    }
  }

  /** Of the latency commands the count comes before every bucket and +Inf. */
  lemma LatencyOrder(ms: real, buckets: seq<nat>, k: nat)
    requires Distinct(buckets) && ms > 0.0 && k <= |LatencyCommands(ms, buckets)|
    ensures forall x :: x in LatencyCommands(ms, buckets)[..k] ==>
      x.AddToSum? || (IsLatency(x) && Incr(LatencyCount) in LatencyCommands(ms, buckets)[..k])
  {
    LatencyShape(ms, buckets);
    if k > 1 {
      assert LatencyCommands(ms, buckets)[..k][1] == Incr(LatencyCount);
    }
  }

  lemma OrderedBoth(head: seq<Command>, tail: seq<Command>, status: nat)
    requires Ordered(head, status) && Incr(Total) in head
    requires forall x :: x in tail ==> x.AddToSum? || (IsLatency(x) && Incr(LatencyCount) in tail)
    ensures Ordered(head + tail, status)
  {
    assert forall x :: x in head + tail <==> x in head || x in tail;
  }

  /** A request is counted before its latency is: a bucket or +Inf only after the latency count, anything
      only after the total. */
  lemma PrefixOrder(r: Request, buckets: seq<nat>, k: nat)
    requires Distinct(buckets)
    requires k <= |Commands(r, buckets)|
    ensures Ordered(Commands(r, buckets)[..k], r.status)
  {
    var head, tail := HeadCommands(r), LatencyCommands(r.durationMs, buckets);
    if k <= |head| {
      HeadOrder(r, k);
      assert (head + tail)[..k] == head[..k];
    } else {
      HeadOrder(r, |head|);
      HeadShape(r);
      assert head[..|head|] == head && head[0] in head;
      LatencyOrder(r.durationMs, buckets, k - |head|);
      assert (head + tail)[..k] == head + tail[..k - |head|];
      OrderedBoth(head, tail[..k - |head|], r.status);
    }
  }

  ghost predicate Ordered(done: seq<Command>, status: nat) {
    && (forall x :: x in done ==> Incr(Total) in done)
    && (forall x :: x in done && IsLatency(x) ==> Incr(LatencyCount) in done)
    && (forall code :: Incr(Status(code)) in done ==> code == status)
  }

  lemma OrderedCounts(p: Pipe, status: nat)
    requires p.done <= |p.program| && (forall x :: multiset(p.program)[x] <= 1)
    requires Ordered(p.program[..p.done], status)
    ensures Executed(p, Inf) <= Executed(p, LatencyCount) <= Executed(p, Total)
    ensures forall b :: Executed(p, Bucket(b)) <= Executed(p, LatencyCount)
    ensures forall code :: Executed(p, Status(code)) <= (if code == status then Executed(p, Total) else 0)
  {
    forall c
      ensures Executed(p, c) == if Incr(c) in p.program[..p.done] then 1 else 0
    {
      PrefixCounts(p.program, p.done, Incr(c));
    }
  }

  lemma PipeOrder(p: Pipe, buckets: seq<nat>)
    requires Distinct(buckets)
    requires p.done <= |p.program| && p.program == Commands(p.request, buckets)
    ensures Executed(p, Inf) <= Executed(p, LatencyCount) <= Executed(p, Total)
    ensures forall b :: Executed(p, Bucket(b)) <= Executed(p, LatencyCount)
    ensures forall code :: Executed(p, Status(code)) <= (if code == p.request.status then Executed(p, Total) else 0)
  {
    EachCommandOnce(p.request, buckets);
    PrefixOrder(p.request, buckets, p.done);
    OrderedCounts(p, p.request.status);
  }

  lemma WholeProgramMembers(r: Request, buckets: seq<nat>, x: Command)
    ensures x in Commands(r, buckets) <==> x in HeadCommands(r) || x in LatencyCommands(r.durationMs, buckets)
  {
  }

  lemma HeadMembers(r: Request, code: nat)
    ensures var head := HeadCommands(r);
      && Incr(Total) in head && (Incr(Status(code)) in head <==> code == r.status)
      && Incr(LatencyCount) !in head && Incr(Inf) !in head
  {
    HeadShape(r);
    assert HeadCommands(r)[0] in HeadCommands(r) && HeadCommands(r)[1] in HeadCommands(r);
  }

  lemma LatencyMembers(ms: real, buckets: seq<nat>, code: nat)
    requires Distinct(buckets)
    ensures var tail := LatencyCommands(ms, buckets);
      && Incr(Status(code)) !in tail
      && (Incr(LatencyCount) in tail <==> ms > 0.0) && (Incr(Inf) in tail <==> ms > 0.0)
  {
    if ms > 0.0 {
      LatencyShape(ms, buckets);
      assert LatencyCommands(ms, buckets)[1] in LatencyCommands(ms, buckets);
    }
  }

  lemma WholeProgramCounts(r: Request, buckets: seq<nat>, code: nat)
    requires Distinct(buckets)
    ensures var all := Commands(r, buckets);
      && Incr(Total) in all
      && (Incr(LatencyCount) in all <==> r.durationMs > 0.0) && (Incr(Inf) in all <==> r.durationMs > 0.0)
      && (Incr(Status(code)) in all <==> code == r.status)
  {
    HeadMembers(r, code);
    LatencyMembers(r.durationMs, buckets, code);
    WholeProgramMembers(r, buckets, Incr(Total));
    WholeProgramMembers(r, buckets, Incr(LatencyCount));
    WholeProgramMembers(r, buckets, Incr(Inf));
    WholeProgramMembers(r, buckets, Incr(Status(code)));
  }

  lemma WholeProgramBucket(r: Request, buckets: seq<nat>, b: nat)
    requires Distinct(buckets)
    ensures Incr(Bucket(b)) in Commands(r, buckets) <==> b in buckets && 0.0 < r.durationMs <= b as real
  {
    HeadShape(r);
    WholeProgramMembers(r, buckets, Incr(Bucket(b)));
    if r.durationMs > 0.0 {
      LatencyShape(r.durationMs, buckets);
    }
  }

  lemma CompleteCounts(p: Pipe, c: Counter)
    requires p.done == |p.program| && multiset(p.program)[Incr(c)] <= 1
    ensures Executed(p, c) == if Incr(c) in p.program then 1 else 0
  {
    assert p.program[..p.done] == p.program;
    PrefixCounts(p.program, p.done, Incr(c));
  }

  lemma PipeCompleteCounts(p: Pipe, buckets: seq<nat>, code: nat)
    requires Distinct(buckets)
    requires p.done == |p.program| && p.program == Commands(p.request, buckets)
    ensures Executed(p, Total) == 1
    ensures Executed(p, LatencyCount) == Executed(p, Inf) == if p.request.durationMs > 0.0 then 1 else 0
    ensures Executed(p, Status(code)) == if code == p.request.status then 1 else 0
  {
    EachCommandOnce(p.request, buckets);
    WholeProgramCounts(p.request, buckets, code);
    CompleteCounts(p, Total);
    CompleteCounts(p, LatencyCount);
    CompleteCounts(p, Inf);
    CompleteCounts(p, Status(code));
  }

  lemma PipeCompleteBucket(p: Pipe, buckets: seq<nat>, b: nat)
    requires Distinct(buckets)
    requires p.done == |p.program| && p.program == Commands(p.request, buckets)
    ensures Executed(p, Bucket(b)) == if b in buckets && 0.0 < p.request.durationMs <= b as real then 1 else 0
  {
    EachCommandOnce(p.request, buckets);
    WholeProgramBucket(p.request, buckets, b);
    CompleteCounts(p, Bucket(b));
  }

  /** What one completed pipeline has added to every counter. */
  lemma PipeComplete(p: Pipe, buckets: seq<nat>)
    requires Distinct(buckets)
    requires p.done == |p.program| && p.program == Commands(p.request, buckets)
    ensures Executed(p, Total) == 1
    ensures Executed(p, LatencyCount) == Executed(p, Inf) == if p.request.durationMs > 0.0 then 1 else 0
    ensures forall b ::
      Executed(p, Bucket(b)) == if b in buckets && 0.0 < p.request.durationMs <= b as real then 1 else 0
    ensures forall code :: Executed(p, Status(code)) == if code == p.request.status then 1 else 0
  {
    PipeCompleteCounts(p, buckets, 0);
    forall b
      ensures Executed(p, Bucket(b)) == if b in buckets && 0.0 < p.request.durationMs <= b as real then 1 else 0
    {
      PipeCompleteBucket(p, buckets, b);
    }
    forall code
      ensures Executed(p, Status(code)) == if code == p.request.status then 1 else 0
    {
      PipeCompleteCounts(p, buckets, code);
    }
  }

  lemma LabelMembers(r: Request, name: string)
    ensures Incr(PerNamespace(name)) in LabelCommands(r) <==> name == r.namespace != ""
    ensures Incr(PerClient(name)) in LabelCommands(r) <==> name == r.clientId != ""
  {
  }

  lemma WholeProgramLabels(r: Request, buckets: seq<nat>, name: string)
    requires Distinct(buckets)
    ensures Incr(PerNamespace(name)) in Commands(r, buckets) <==> name == r.namespace != ""
    ensures Incr(PerClient(name)) in Commands(r, buckets) <==> name == r.clientId != ""
  {
    LabelMembers(r, name);
    var first := [Incr(Total), Incr(Status(r.status))];
    assert forall x :: x in HeadCommands(r) <==> x in first || x in LabelCommands(r);
    WholeProgramMembers(r, buckets, Incr(PerNamespace(name)));
    WholeProgramMembers(r, buckets, Incr(PerClient(name)));
    if r.durationMs > 0.0 {
      LatencyShape(r.durationMs, buckets);
    }
  }

  /** A completed pipeline has counted its request under its namespace and its client, if it has one, and under no
      other. */
  lemma PipeCompleteLabels(p: Pipe, buckets: seq<nat>, name: string)
    requires Distinct(buckets)
    requires p.done == |p.program| && p.program == Commands(p.request, buckets)
    ensures Executed(p, PerNamespace(name)) == if name == p.request.namespace != "" then 1 else 0
    ensures Executed(p, PerClient(name)) == if name == p.request.clientId != "" then 1 else 0
  {
    EachCommandOnce(p.request, buckets);
    WholeProgramLabels(p.request, buckets, name);
    CompleteCounts(p, PerNamespace(name));
    CompleteCounts(p, PerClient(name));
  }

  lemma SumInHead(r: Request, ms: real)
    ensures AddToSum(ms) !in HeadCommands(r)
  {
    LabelShape(r);
  }

  lemma SumInLatency(ms: real, buckets: seq<nat>, x: real)
    requires Distinct(buckets)
    ensures AddToSum(x) in LatencyCommands(ms, buckets) <==> x == ms > 0.0
  {
    if ms > 0.0 {
      LatencyShape(ms, buckets);
      assert LatencyCommands(ms, buckets)[0] in LatencyCommands(ms, buckets);
    }
  }

  /** The duration is added to the latency sum exactly once, if it is positive, and nothing else is. */
  lemma SumIsAddedOnce(r: Request, ms: real)
    ensures multiset(Program(r))[AddToSum(ms)] == if ms == r.durationMs > 0.0 then 1 else 0
  {
    BucketsDiffer();
    EachCommandOnce(r, BUCKETS);
    SumInHead(r, ms);
    SumInLatency(r.durationMs, BUCKETS, ms);
    WholeProgramMembers(r, BUCKETS, AddToSum(ms));
    assert AddToSum(ms) in Program(r) <==> multiset(Program(r))[AddToSum(ms)] > 0;
  }

  // --- All pipelines together ---

  /** Status counts up to (not including) a code, added up. */
  function StatusSum(s: State, codes: nat): nat {
    if codes == 0 then 0 else StatusSum(s, codes - 1) + Value(s, Status(codes - 1))
  }

  function StatusSumOf(pipes: seq<Pipe>, codes: nat): nat {
    if codes == 0 then 0 else StatusSumOf(pipes, codes - 1) + Sum(pipes, Status(codes - 1))
  }

  function StatusOf(p: Pipe, codes: nat): nat {
    if codes == 0 then 0 else StatusOf(p, codes - 1) + Executed(p, Status(codes - 1))
  }

  lemma {:induction false} StatusSumSplits(pipes: seq<Pipe>, codes: nat)
    requires pipes != []
    ensures StatusSumOf(pipes, codes) == StatusSumOf(pipes[..|pipes| - 1], codes) + StatusOf(pipes[|pipes| - 1], codes)
  {
    if codes > 0 {
      StatusSumSplits(pipes, codes - 1);
    }
  }

  lemma {:induction false} NoStatus(codes: nat)
    ensures StatusSumOf([], codes) == 0
  {
    if codes > 0 {
      NoStatus(codes - 1);
    }
  }

  lemma {:induction false} StatusOfOne(p: Pipe, buckets: seq<nat>, codes: nat)
    requires Distinct(buckets)
    requires p.done <= |p.program| && p.program == Commands(p.request, buckets)
    ensures StatusOf(p, codes) <= (if codes > p.request.status then Executed(p, Total) else 0)
    ensures p.done == |p.program| && codes > p.request.status ==> StatusOf(p, codes) == 1
    ensures codes <= p.request.status ==> StatusOf(p, codes) == 0
  {
    PipeOrder(p, buckets);
    if codes > 0 {
      StatusOfOne(p, buckets, codes - 1);
      if p.done == |p.program| {
        PipeComplete(p, buckets);
      }
    }
  }

  lemma {:induction false} SumOrder(pipes: seq<Pipe>, buckets: seq<nat>, b: nat, codes: nat)
    requires Distinct(buckets)
    requires Proper(pipes, buckets)
    ensures Sum(pipes, Inf) <= Sum(pipes, LatencyCount) <= Sum(pipes, Total)
    ensures Sum(pipes, Bucket(b)) <= Sum(pipes, LatencyCount)
    ensures StatusSumOf(pipes, codes) <= Sum(pipes, Total)
  {
    if pipes == [] {
      NoStatus(codes);
    } else {
      var last := pipes[|pipes| - 1];
      SumOrder(pipes[..|pipes| - 1], buckets, b, codes);
      PipeOrder(last, buckets);
      StatusSumSplits(pipes, codes);
      StatusOfOne(last, buckets, codes);
    }
  }

  function AtMost(pipes: seq<Pipe>, limit: real): nat {
    if pipes == [] then 0
    else AtMost(pipes[..|pipes| - 1], limit) + (if 0.0 < pipes[|pipes| - 1].request.durationMs <= limit then 1 else 0)
  }

  function Timed(pipes: seq<Pipe>): nat {
    if pipes == [] then 0
    else Timed(pipes[..|pipes| - 1]) + (if pipes[|pipes| - 1].request.durationMs > 0.0 then 1 else 0)
  }

  ghost predicate AllDone(pipes: seq<Pipe>) {
    forall p :: p in pipes ==> p.done == |p.program|
  }

  lemma {:induction false} SumDone(pipes: seq<Pipe>, buckets: seq<nat>, b: nat, codes: nat)
    requires Distinct(buckets)
    requires Proper(pipes, buckets) && AllDone(pipes) && b in buckets
    requires forall p :: p in pipes ==> p.request.status < codes
    ensures Sum(pipes, Total) == |pipes| == StatusSumOf(pipes, codes)
    ensures Sum(pipes, LatencyCount) == Sum(pipes, Inf) == Timed(pipes)
    ensures Sum(pipes, Bucket(b)) == AtMost(pipes, b as real)
  {
    if pipes == [] {
      NoStatus(codes);
    } else {
      var last := pipes[|pipes| - 1];
      SumDone(pipes[..|pipes| - 1], buckets, b, codes);
      PipeComplete(last, buckets);
      StatusSumSplits(pipes, codes);
      StatusOfOne(last, buckets, codes);
    }
  }

  lemma {:induction false} StatusSumIs(s: State, codes: nat)
    requires Counted(s)
    ensures StatusSum(s, codes) == StatusSumOf(s.pipes, codes)
  {
    if codes > 0 {
      StatusSumIs(s, codes - 1);
    }
  }

  /** In every intermediate state, whatever is unfinished or abandoned: +Inf never exceeds the latency
      count, which never exceeds the total; no bucket exceeds the latency count; and the status counts never
      add up to more than the total. */
  lemma CountersStayOrdered(states: seq<State>, steps: seq<Step>, i: nat, b: nat, codes: nat)
    requires IsRun(states, steps) && i <= |steps|
    ensures var s := states[i];
      && Value(s, Inf) <= Value(s, LatencyCount) <= Value(s, Total)
      && Value(s, Bucket(b)) <= Value(s, LatencyCount)
      && StatusSum(s, codes) <= Value(s, Total)
  {
    RunKeepsInv(states, steps, i);
    BucketsDiffer();
    SumOrder(states[i].pipes, BUCKETS, b, codes);
    StatusSumIs(states[i], codes);
  }

  /** Once every pipeline has completed, each bucket counts the requests that took some time and at most
      its bound, +Inf equals the latency count, and the status counts add up to the total. */
  lemma CompleteCountersAreExact(states: seq<State>, steps: seq<Step>, i: nat, b: nat, codes: nat)
    requires IsRun(states, steps) && i <= |steps| && AllDone(states[i].pipes)
    requires b in {5, 10, 25, 50, 100, 250, 500, 1000, 5000}
    requires forall p :: p in states[i].pipes ==> p.request.status < codes
    ensures var s := states[i];
      && Value(s, Bucket(b)) == AtMost(s.pipes, b as real)
      && Value(s, Inf) == Value(s, LatencyCount) == Timed(s.pipes)
      && StatusSum(s, codes) == Value(s, Total) == |s.pipes|
  {
    RunKeepsInv(states, steps, i);
    BucketsDiffer();
    SumDone(states[i].pipes, BUCKETS, b, codes);
    StatusSumIs(states[i], codes);
  }

  lemma {:induction false} AtMostGrows(pipes: seq<Pipe>, low: real, high: real)
    requires low <= high
    ensures AtMost(pipes, low) <= AtMost(pipes, high) <= Timed(pipes)
  {
    if pipes != [] {
      AtMostGrows(pipes[..|pipes| - 1], low, high);
    }
  }

  /** So a completed histogram is cumulative. */
  lemma CompleteHistogramIsCumulative(states: seq<State>, steps: seq<Step>, i: nat, low: nat, high: nat, codes: nat)
    requires IsRun(states, steps) && i <= |steps| && AllDone(states[i].pipes)
    requires low in {5, 10, 25, 50, 100, 250, 500, 1000, 5000} && high in {5, 10, 25, 50, 100, 250, 500, 1000, 5000}
    requires low <= high
    requires forall p :: p in states[i].pipes ==> p.request.status < codes
    ensures Value(states[i], Bucket(low)) <= Value(states[i], Bucket(high)) <= Value(states[i], Inf)
  {
    CompleteCountersAreExact(states, steps, i, low, codes);
    CompleteCountersAreExact(states, steps, i, high, codes);
    AtMostGrows(states[i].pipes, low as real, high as real);
  }

  // --- The counters of one status, one namespace, one client ---

  // The requests among the pipelines that a counter of one status, namespace or client is for.
  predicate CountsFor(r: Request, c: Counter) {
    match c
    case Status(code) => r.status == code
    case PerNamespace(ns) => r.namespace == ns != ""
    case PerClient(id) => r.clientId == id != ""
    case _ => false
  }

  function RequestsFor(pipes: seq<Pipe>, c: Counter): nat {
    if pipes == [] then 0
    else RequestsFor(pipes[..|pipes| - 1], c) + if CountsFor(pipes[|pipes| - 1].request, c) then 1 else 0
  }

  lemma PipeCompleteFor(p: Pipe, buckets: seq<nat>, c: Counter)
    requires Distinct(buckets)
    requires p.done == |p.program| && p.program == Commands(p.request, buckets)
    requires c.Status? || c.PerNamespace? || c.PerClient?
    ensures Executed(p, c) == if CountsFor(p.request, c) then 1 else 0
  {
    match c
    case Status(_) => PipeComplete(p, buckets);
    case PerNamespace(ns) => PipeCompleteLabels(p, buckets, ns);
    case PerClient(id) => PipeCompleteLabels(p, buckets, id);
  }

  lemma {:induction false} SumDoneFor(pipes: seq<Pipe>, buckets: seq<nat>, c: Counter)
    requires Distinct(buckets)
    requires Proper(pipes, buckets) && AllDone(pipes)
    requires c.Status? || c.PerNamespace? || c.PerClient?
    ensures Sum(pipes, c) == RequestsFor(pipes, c)
  {
    if pipes != [] {
      var last := pipes[|pipes| - 1];
      SumDoneFor(pipes[..|pipes| - 1], buckets, c);
      PipeCompleteFor(last, buckets, c);
    }
  }

  /** Once every pipeline has completed, the counter of a status, a namespace or a client is the number of requests
      with that status, namespace or client. */
  lemma CompleteLabelsAreExact(states: seq<State>, steps: seq<Step>, i: nat, c: Counter)
    requires IsRun(states, steps) && i <= |steps| && AllDone(states[i].pipes)
    requires c.Status? || c.PerNamespace? || c.PerClient?
    ensures Value(states[i], c) == RequestsFor(states[i].pipes, c)
  {
    RunKeepsInv(states, steps, i);
    BucketsDiffer();
    SumDoneFor(states[i].pipes, BUCKETS, c);
  }
}
