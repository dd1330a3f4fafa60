/** One Redis list with a maximum length, pushed to by scripts that run atomically. */
module BoundedQueue {
  import opened Wrappers

  type Item = string
  datatype Side = Left | Right

  // ------------------------------------------------------------------
  // What each operation means for the list
  // ------------------------------------------------------------------

  function Push(list: seq<Item>, side: Side, item: Item): seq<Item> {
    if side.Left? then [item] + list else list + [item]
  }

  function Reverse(items: seq<Item>): seq<Item> {
    if items == [] then [] else Reverse(items[1..]) + [items[0]]
  }

  /** A left batch ends up reversed in front of the list. */
  function PushAll(list: seq<Item>, side: Side, items: seq<Item>): seq<Item> {
    if side.Left? then Reverse(items) + list else list + items
  }

  /** Redis turns negative positions into positions from the end, clamps them, and keeps what is between. */
  function LTrim(list: seq<Item>, start: int, stop: int): (r: seq<Item>)
    ensures |r| <= |list|
  {
    var from := if start < 0 then start + |list| else start;
    var to := if stop < 0 then stop + |list| else stop;
    var first := if from < 0 then 0 else from;
    var last := if to >= |list| then |list| - 1 else to;
    if first > last || first >= |list| then [] else list[first..last + 1]
  }

  // ------------------------------------------------------------------
  // The list and the gateway's operations on it
  // ------------------------------------------------------------------

  class Queue {
    const max: int
    var list: seq<Item>   // an empty list is a missing key

    constructor (max: int)
      ensures this.max == max && list == []
    {
      this.max := max;
      list := [];
    }

    /** The single-push script: -1 if the list is full, else its new length. */
    method SinglePush(side: Side, item: Item) returns (r: int)
      modifies this`list
      ensures r == -1 <==> |old(list)| >= max
      ensures r == -1 ==> list == old(list)
      ensures r != -1 ==> list == if side.Left? then [item] + old(list) else old(list) + [item]
      ensures list == Apply(old(list), max, PushOne(side, item))
      ensures r != -1 ==> r == |list|
    {
      if |list| >= max {
        return -1;
      }
      list := Push(list, side, item);
      return |list|;
    }

    /** The batch script: one check for the whole batch, then one push after the other. */
    method BatchPush(side: Side, items: seq<Item>) returns (r: int)
      modifies this`list
      ensures r == -1 <==> |old(list)| + |items| > max
      ensures r == -1 ==> list == old(list)
      ensures r != -1 && side.Right? ==> list == old(list) + items
      ensures r != -1 && side.Left? ==>
        && |list| == |items| + |old(list)| && list[|items|..] == old(list)
        && forall k :: 0 <= k < |items| ==> list[|items| - 1 - k] == items[k]
      ensures list == Apply(old(list), max, PushMany(side, items))
      ensures r != -1 ==> r == |list|
    {
      var cur := |list|;
      if cur + |items| > max {
        return -1;
      }
      for i := 0 to |items|
        invariant list == PushAll(old(list), side, items[..i])
      {
        PushOneMore(old(list), side, items, i);
        list := Push(list, side, items[i]);
      }
      assert items[..|items|] == items;
      PushAllLength(list, side, items);
      PushAllLength(old(list), side, items);
      LeftBatch(old(list), items);
      return cur + |items|;
    }

    /** None stands for the 404 of an empty queue. */
    method Pop(side: Side) returns (r: Option<Item>)
      modifies this`list
      ensures r == None <==> old(list) == []
      ensures r == None ==> list == []
      ensures list == Apply(old(list), max, PopOne(side))
      ensures r.Some? ==> old(list) == (if side.Left? then [r.value] + list else list + [r.value])
    {
      if list == [] {
        return None;
      }
      if side.Left? {
        r := Some(list[0]);
        list := list[1..];
      } else {
        r := Some(list[|list| - 1]);
        list := list[..|list| - 1];
      }
    }

    /** Keeps the newest items, those at the tail. */
    method Trim(keep: nat) returns (length: nat)
      requires keep >= 1
      modifies this`list
      ensures list == Apply(old(list), max, TrimTo(keep))
      ensures |list| == if keep >= |old(list)| then |old(list)| else keep
      ensures IsSuffix(list, old(list))
      ensures length == |list|
    {
      TrimKeepsTail(list, keep);
      list := LTrim(list, 0 - keep, -1);
      length := |list|;
    }

    /** DEL, or the expiry of the key. */
    method Remove() returns (existed: bool)
      modifies this`list
      ensures list == [] && (existed <==> old(list) != [])
    {
      existed := list != [];
      list := [];
    }
  }

  lemma TrimKeepsTail(list: seq<Item>, keep: nat)
    requires keep >= 1
    ensures LTrim(list, 0 - keep, -1) == if keep >= |list| then list else list[|list| - keep..]
  {
  }

  lemma {:induction false} ReverseAppend(items: seq<Item>, item: Item)
    ensures Reverse(items + [item]) == [item] + Reverse(items)
  {
    if items != [] {
      ReverseAppend(items[1..], item);
      assert (items + [item])[1..] == items[1..] + [item];
    }
  }

  lemma PushOneMore(list: seq<Item>, side: Side, items: seq<Item>, i: nat)
    requires i < |items|
    ensures PushAll(list, side, items[..i + 1]) == Push(PushAll(list, side, items[..i]), side, items[i])
  {
    assert items[..i + 1] == items[..i] + [items[i]];
    ReverseAppend(items[..i], items[i]);
    Regroup([items[i]], Reverse(items[..i]), list);
    Regroup(list, items[..i], [items[i]]);
  }

  lemma {:induction false} ReverseLength(items: seq<Item>)
    ensures |Reverse(items)| == |items|
  {
    if items != [] {
      ReverseLength(items[1..]);
    }
  }

  /** The item a left batch sends last is the first of the new list, the one it sends first is the last. */
  lemma {:induction false} LeftBatchReverses(list: seq<Item>, items: seq<Item>, k: nat)
    requires k < |items|
    ensures |PushAll(list, Left, items)| == |list| + |items|
    ensures PushAll(list, Left, items)[|items| - 1 - k] == items[k]
    ensures PushAll(list, Left, items)[|items|..] == list
    decreases |items|
  {
    ReverseLength(items);
    ReverseLength(items[1..]);
    if k > 0 {
      LeftBatchReverses(list, items[1..], k - 1);
      assert items[1..][k - 1] == items[k];
    }
  }

  lemma LeftBatch(list: seq<Item>, items: seq<Item>)
    ensures var r := PushAll(list, Left, items);
      && |r| == |items| + |list| && r[|items|..] == list
      && forall k :: 0 <= k < |items| ==> r[|items| - 1 - k] == items[k]
  {
    ReverseLength(items);
    forall k | 0 <= k < |items|
      ensures PushAll(list, Left, items)[|items| - 1 - k] == items[k]
    {
      LeftBatchReverses(list, items, k);
    }
  }

  lemma PushAllLength(list: seq<Item>, side: Side, items: seq<Item>)
    ensures |PushAll(list, side, items)| == |list| + |items|
  {
    ReverseLength(items);
  }

  // ------------------------------------------------------------------
  // A batch against the single pushes it replaces
  // ------------------------------------------------------------------

  /** Single pushes one after the other, each refused when the list is full. */
  function PushEach(list: seq<Item>, max: int, side: Side, items: seq<Item>): (seq<Item>, bool)
    decreases |items|
  {
    if items == [] then (list, true)
    else if |list| >= max then (PushEach(list, max, side, items[1..]).0, false)
    else PushEach(Push(list, side, items[0]), max, side, items[1..])
  }

  function Batch(list: seq<Item>, max: int, side: Side, items: seq<Item>): (seq<Item>, bool) {
    if |list| + |items| > max then (list, false) else (PushAll(list, side, items), true)
  }

  lemma PushAllFromFirst(list: seq<Item>, side: Side, items: seq<Item>)
    requires items != []
    ensures PushAll(list, side, items) == PushAll(Push(list, side, items[0]), side, items[1..])
  {
    assert items == [items[0]] + items[1..];
    Regroup(Reverse(items[1..]), [items[0]], list);
    Regroup(list, [items[0]], items[1..]);
  }

  lemma {:induction false} PushEachSucceeds(list: seq<Item>, max: int, side: Side, items: seq<Item>)
    decreases |items|
    ensures PushEach(list, max, side, items).1 <==> items == [] || |list| + |items| <= max
    ensures |list| + |items| <= max ==> PushEach(list, max, side, items).0 == PushAll(list, side, items)
  {
    if items != [] {
      var pushed := Push(list, side, items[0]);
      PushEachSucceeds(pushed, max, side, items[1..]);
      PushEachSucceeds(list, max, side, items[1..]);
      PushAllFromFirst(list, side, items);
    }
  }

  /** A batch is all or nothing, and equals the single pushes exactly when all of those would succeed (the
      schema rules empty batches out). */
  lemma BatchIsAllOrNothing(list: seq<Item>, max: int, side: Side, items: seq<Item>)
    requires items != []
    ensures Batch(list, max, side, items).1 <==> PushEach(list, max, side, items).1
    ensures Batch(list, max, side, items).1 ==> Batch(list, max, side, items) == PushEach(list, max, side, items)
    ensures !Batch(list, max, side, items).1 ==> Batch(list, max, side, items).0 == list
  {
    PushEachSucceeds(list, max, side, items);
  }

  // ------------------------------------------------------------------
  // Whole runs
  // ------------------------------------------------------------------

  datatype Step = PushOne(side: Side, item: Item) | PushMany(side: Side, items: seq<Item>) | PopOne(side: Side)
                | TrimTo(keep: nat) | Vanish

  function Apply(list: seq<Item>, max: int, step: Step): seq<Item> {
    match step
    case PushOne(side, item) => if |list| >= max then list else Push(list, side, item)
    case PushMany(side, items) => Batch(list, max, side, items).0
    case PopOne(side) => if list == [] then [] else if side.Left? then list[1..] else list[..|list| - 1]
    case TrimTo(keep) => if keep >= |list| then list else list[|list| - keep..]
    case Vanish => []
  }

  function Run(list: seq<Item>, max: int, steps: seq<Step>): seq<Item> {
    if steps == [] then list else Apply(Run(list, max, steps[..|steps| - 1]), max, steps[|steps| - 1])
  }

  /** No run of pushes, batches, pops, trims, deletions and expiries takes the list over the maximum. */
  lemma {:induction false} LengthStaysBounded(list: seq<Item>, max: int, steps: seq<Step>)
    requires |list| <= max
    ensures |Run(list, max, steps)| <= max
  {
    if steps != [] {
      var before, step := Run(list, max, steps[..|steps| - 1]), steps[|steps| - 1];
      LengthStaysBounded(list, max, steps[..|steps| - 1]);
      if step.PushMany? {
        PushAllLength(before, step.side, step.items);
      }
    }
  }

  /** What one step accepts. */
  function Taken(list: seq<Item>, max: int, step: Step): seq<Item> {
    match step
    case PushOne(_, item) => if |list| >= max then [] else [item]
    case PushMany(_, items) => if |list| + |items| > max then [] else items
    case _ => []
  }

  /** What one step hands out. */
  function Given(list: seq<Item>, step: Step): seq<Item> {
    if !step.PopOne? || list == [] then []
    else if step.side.Left? then [list[0]]
    else [list[|list| - 1]]
  }

  function AcceptedBy(list: seq<Item>, max: int, steps: seq<Step>): seq<Item> {
    if steps == [] then []
    else
      var earlier := steps[..|steps| - 1];
      AcceptedBy(list, max, earlier) + Taken(Run(list, max, earlier), max, steps[|steps| - 1])
  }

  function PoppedBy(list: seq<Item>, max: int, steps: seq<Step>): seq<Item> {
    if steps == [] then []
    else
      var earlier := steps[..|steps| - 1];
      PoppedBy(list, max, earlier) + Given(Run(list, max, earlier), steps[|steps| - 1])
  }

  predicate Fifo(step: Step) {
    match step
    case PushOne(side, _) => side.Right?
    case PushMany(side, _) => side.Right?
    case PopOne(side) => side.Left?
    case _ => false
  }

  lemma FifoStep(list: seq<Item>, max: int, step: Step)
    requires Fifo(step)
    ensures Given(list, step) + Apply(list, max, step) == list + Taken(list, max, step)
  {
  }

  /** Pushing on the right and popping on the left is first in, first out, and nothing is lost: what was
      handed out followed by what is left is what was there and then accepted. */
  lemma {:induction false} FifoConservation(list: seq<Item>, max: int, steps: seq<Step>)
    requires forall i :: 0 <= i < |steps| ==> Fifo(steps[i])
    ensures PoppedBy(list, max, steps) + Run(list, max, steps) == list + AcceptedBy(list, max, steps)
  {
    if steps != [] {
      var earlier, step := steps[..|steps| - 1], steps[|steps| - 1];
      var before := Run(list, max, earlier);
      FifoConservation(list, max, earlier);
      FifoStep(before, max, step);
      Regroup(PoppedBy(list, max, earlier), Given(before, step), Apply(before, max, step));
      Regroup(PoppedBy(list, max, earlier), before, Taken(before, max, step));
      Regroup(list, AcceptedBy(list, max, earlier), Taken(before, max, step));
    }
  }
}
