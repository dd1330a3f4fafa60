/** The cap on the total size of a log directory: after a rollover the oldest archives are unlinked, one
    by one, until the total is back under the cap. */
module SizeCleanup {
  import opened Wrappers

  type Path = string
  datatype Stat = Stat(size: nat, mtime: real)
  datatype Entry = Entry(path: Path, size: nat, mtime: real)

  function Total(entries: seq<Entry>): nat {
    if entries == [] then 0 else entries[0].size + Total(entries[1..])
  }

  function Paths(entries: seq<Entry>): set<Path> {
    set e | e in entries :: e.path
  }

  ghost predicate DistinctPaths(entries: seq<Entry>) {
    forall i, j :: 0 <= i < j < |entries| ==> entries[i].path != entries[j].path
  }

  // --- Sorting by modification time; entries of equal age keep their order ---

  ghost predicate Ascending(entries: seq<Entry>) {
    forall i, j :: 0 <= i < j < |entries| ==> entries[i].mtime <= entries[j].mtime
  }

  function Insert(e: Entry, sorted: seq<Entry>): seq<Entry> {
    if sorted == [] || e.mtime <= sorted[0].mtime then [e] + sorted
    else [sorted[0]] + Insert(e, sorted[1..])
  }

  function SortByAge(entries: seq<Entry>): seq<Entry> {
    if entries == [] then [] else Insert(entries[0], SortByAge(entries[1..]))
  }

  lemma {:induction false} InsertAdds(e: Entry, sorted: seq<Entry>)
    ensures multiset(Insert(e, sorted)) == multiset{e} + multiset(sorted)
    ensures Total(Insert(e, sorted)) == e.size + Total(sorted)
  {
    if sorted == [] || e.mtime <= sorted[0].mtime {
      assert ([e] + sorted)[1..] == sorted;
    } else {
      InsertAdds(e, sorted[1..]);
      assert sorted == [sorted[0]] + sorted[1..];
      assert ([sorted[0]] + Insert(e, sorted[1..]))[1..] == Insert(e, sorted[1..]);
    }
  }

  lemma AscendingFrom(e: Entry, rest: seq<Entry>)
    requires Ascending(rest) && forall i :: 0 <= i < |rest| ==> e.mtime <= rest[i].mtime
    ensures Ascending([e] + rest)
  {
  }

  lemma {:induction false} InsertKeepsOrder(e: Entry, sorted: seq<Entry>)
    requires Ascending(sorted)
    ensures Ascending(Insert(e, sorted))
  {
    if sorted != [] && e.mtime > sorted[0].mtime {
      var rest := Insert(e, sorted[1..]);
      InsertKeepsOrder(e, sorted[1..]);
      InsertAdds(e, sorted[1..]);
      forall i | 0 <= i < |rest|
        ensures sorted[0].mtime <= rest[i].mtime
      {
        assert rest[i] in multiset(rest);
      }
      AscendingFrom(sorted[0], rest);
    } else {
      AscendingFrom(e, sorted);
    }
  }

  lemma {:induction false} SortByAgeSorts(entries: seq<Entry>)
    ensures multiset(SortByAge(entries)) == multiset(entries)
    ensures Ascending(SortByAge(entries)) && Total(SortByAge(entries)) == Total(entries)
  {
    if entries != [] {
      SortByAgeSorts(entries[1..]);
      InsertAdds(entries[0], SortByAge(entries[1..]));
      InsertKeepsOrder(entries[0], SortByAge(entries[1..]));
      assert entries == [entries[0]] + entries[1..];
    }
  }

  lemma {:induction false} OnceOnly(entries: seq<Entry>, e: Entry)
    requires DistinctPaths(entries)
    ensures multiset(entries)[e] <= 1
  {
    if entries != [] {
      OnceOnly(entries[1..], e);
      assert entries == [entries[0]] + entries[1..];
    }
  }

  lemma Repeated(entries: seq<Entry>, i: nat, j: nat)
    requires i < j < |entries| && entries[i] == entries[j]
    ensures multiset(entries)[entries[i]] >= 2
  {
    assert entries == entries[..j] + entries[j..] && entries[i] in entries[..j] && entries[j] in entries[j..];
  }

  lemma PermutedDistinct(a: seq<Entry>, b: seq<Entry>)
    requires DistinctPaths(a) && multiset(a) == multiset(b)
    ensures DistinctPaths(b)
  {
    forall i, j | 0 <= i < j < |b|
      ensures b[i].path != b[j].path
    {
      assert b[i] in multiset(b) && b[j] in multiset(b);
      if b[i] == b[j] {
        Repeated(b, i, j);
        OnceOnly(a, b[i]);
      } else {
        var x :| 0 <= x < |a| && a[x] == b[i];
        var y :| 0 <= y < |a| && a[y] == b[j];
      }
    }
  }

  lemma SortedEntries(entries: seq<Entry>)
    requires DistinctPaths(entries)
    ensures DistinctPaths(SortByAge(entries)) && Total(SortByAge(entries)) == Total(entries)
    ensures forall e :: e in SortByAge(entries) <==> e in entries
  {
    var sorted := SortByAge(entries);
    SortByAgeSorts(entries);
    PermutedDistinct(entries, sorted);
    forall e
      ensures e in sorted <==> e in entries
    {
      assert e in sorted <==> e in multiset(sorted);
    }
  }

  // --- What gets deleted ---

  /** The entries that can be unlinked at all, in order: not the active file, and the unlink works. */
  function Candidates(sorted: seq<Entry>, active: Path, stuck: set<Path>): seq<Entry> {
    if sorted == [] then []
    else if sorted[0].path == active || sorted[0].path in stuck then Candidates(sorted[1..], active, stuck)
    else [sorted[0]] + Candidates(sorted[1..], active, stuck)
  }

  function Doomed(candidates: seq<Entry>, total: int, cap: nat): seq<Entry> {
    if total <= cap || candidates == [] then []
    else [candidates[0]] + Doomed(candidates[1..], total - candidates[0].size, cap)
  }

  /** The deleted entries are the shortest prefix of the candidates that brings the total down to the
      cap, or all the candidates if none does. */
  lemma {:induction false} DoomedIsShortestPrefix(candidates: seq<Entry>, total: int, cap: nat)
    ensures var k := |Doomed(candidates, total, cap)|;
      && k <= |candidates| && Doomed(candidates, total, cap) == candidates[..k]
      && (forall j :: 0 <= j < k ==> total - Total(candidates[..j]) > cap)
      && (total - Total(candidates[..k]) <= cap || k == |candidates|)
  {
    if total > cap && candidates != [] {
      var rest, left := candidates[1..], total - candidates[0].size;
      DoomedIsShortestPrefix(rest, left, cap);
      var k := |Doomed(rest, left, cap)|;
      forall j | 0 <= j <= k
        ensures total - Total(candidates[..j + 1]) == left - Total(rest[..j])
      {
        assert candidates[..j + 1][1..] == rest[..j];
      }
      assert candidates[..k + 1] == [candidates[0]] + rest[..k];
      forall j | 0 <= j < k + 1
        ensures total - Total(candidates[..j]) > cap
      {
        if j > 0 {
          assert total - Total(candidates[..(j - 1) + 1]) == left - Total(rest[..j - 1]);
        }
      }
    }
  }

  lemma {:induction false} CandidatesAreFree(sorted: seq<Entry>, active: Path, stuck: set<Path>)
    ensures forall e :: e in Candidates(sorted, active, stuck) <==> e in sorted && e.path != active && e.path !in stuck
    ensures Ascending(sorted) ==> Ascending(Candidates(sorted, active, stuck))
  {
    if sorted != [] {
      CandidatesAreFree(sorted[1..], active, stuck);
      assert sorted == [sorted[0]] + sorted[1..];
      if Ascending(sorted) {
        FirstIsOldest(sorted, Candidates(sorted[1..], active, stuck));
      }
    }
  }

  lemma FirstIsOldest(sorted: seq<Entry>, rest: seq<Entry>)
    requires sorted != [] && Ascending(sorted) && Ascending(rest) && forall e :: e in rest ==> e in sorted[1..]
    ensures Ascending([sorted[0]] + rest)
  {
    forall i | 0 <= i < |rest|
      ensures sorted[0].mtime <= rest[i].mtime
    {
      assert rest[i] in sorted[1..];
    }
    AscendingFrom(sorted[0], rest);
  }

  /** What goes is older than, or as old as, whatever stays and could have gone. */
  lemma OldestGoFirst(entries: seq<Entry>, active: Path, stuck: set<Path>, total: int, cap: nat, d: Entry, e: Entry)
    requires var doomed := Doomed(Candidates(SortByAge(entries), active, stuck), total, cap);
      d in doomed && e !in doomed
    requires e in entries && e.path != active && e.path !in stuck
    ensures d.mtime <= e.mtime
  {
    var candidates := Candidates(SortByAge(entries), active, stuck);
    SortByAgeSorts(entries);
    CandidatesAreFree(SortByAge(entries), active, stuck);
    DoomedIsShortestPrefix(candidates, total, cap);
    assert e in multiset(entries) && e in multiset(SortByAge(entries));
    BeforeAndAfter(candidates, |Doomed(candidates, total, cap)|, d, e);
  }

  lemma BeforeAndAfter(sorted: seq<Entry>, k: nat, d: Entry, e: Entry)
    requires Ascending(sorted) && k <= |sorted| && d in sorted[..k] && e in sorted && e !in sorted[..k]
    ensures d.mtime <= e.mtime
  {
    var i :| 0 <= i < k && sorted[i] == d;
    var j :| 0 <= j < |sorted| && sorted[j] == e;
    if j < k {
      assert sorted[..k][j] == e;
    }
  }

  lemma DeletedAreOldest(entries: seq<Entry>, active: Path, stuck: set<Path>, total: int, cap: nat, deleted: seq<Entry>)
    requires deleted == Doomed(Candidates(SortByAge(entries), active, stuck), total, cap)
    ensures forall d, e ::
      d in deleted && e in entries && e.path !in Paths(deleted) && e.path != active && e.path !in stuck ==>
      d.mtime <= e.mtime
  {
    forall d, e | d in deleted && e in entries && e.path !in Paths(deleted) && e.path != active && e.path !in stuck
      ensures d.mtime <= e.mtime
    {
      OldestGoFirst(entries, active, stuck, total, cap, d, e);
    }
  }

  // --- Bookkeeping of the running total ---

  /** Total size of the listed entries that are still in the directory. */
  function OnDisk(entries: seq<Entry>, files: map<Path, Stat>): nat {
    if entries == [] then 0
    else (if entries[0].path in files then entries[0].size else 0) + OnDisk(entries[1..], files)
  }

  lemma {:induction false} OnDiskAll(entries: seq<Entry>, files: map<Path, Stat>)
    requires forall e :: e in entries ==> e.path in files
    ensures OnDisk(entries, files) == Total(entries)
  {
    if entries != [] {
      OnDiskAll(entries[1..], files);
    }
  }

  lemma {:induction false} OnDiskOther(entries: seq<Entry>, files: map<Path, Stat>, p: Path)
    requires forall e :: e in entries ==> e.path != p
    ensures OnDisk(entries, files - {p}) == OnDisk(entries, files)
  {
    if entries != [] {
      OnDiskOther(entries[1..], files, p);
    }
  }

  lemma {:induction false} OnDiskWithout(entries: seq<Entry>, files: map<Path, Stat>, e: Entry)
    requires DistinctPaths(entries) && e in entries && e.path in files
    ensures OnDisk(entries, files - {e.path}) == OnDisk(entries, files) - e.size
  {
    if entries[0] == e {
      OnDiskOther(entries[1..], files, e.path);
    } else {
      assert e in entries[1..];
      OnDiskWithout(entries[1..], files, e);
    }
  }

  // --- The directory and the operation ---

  class LogDirectory {
    const prefix: string
    const active: Path
    const maxTotalBytes: nat
    var files: map<Path, Stat>
    var diskFull: nat

    constructor (prefix: string, active: Path, maxTotalBytes: nat, files: map<Path, Stat>)
      ensures this.prefix == prefix && this.active == active && this.maxTotalBytes == maxTotalBytes
      ensures this.files == files && diskFull == 0
    {
      this.prefix, this.active, this.maxTotalBytes, this.files := prefix, active, maxTotalBytes, files;
      diskFull := 0;
    }

    /** The archives found by one pass over the directory, skipping those whose stat fails. */
    method Collect(listing: seq<Path>, archives: set<Path>, unreadable: set<Path>) returns (entries: seq<Entry>)
      requires forall i, j :: 0 <= i < j < |listing| ==> listing[i] != listing[j]
      requires forall p :: p in listing ==> p in files
      ensures DistinctPaths(entries)
      ensures Paths(entries) == set p | p in listing && p in archives && p !in unreadable
      ensures forall e :: e in entries ==> e.path in files && files[e.path] == Stat(e.size, e.mtime)
    {
      entries := [];
      for i := 0 to |listing|
        invariant DistinctPaths(entries)
        invariant Paths(entries) == set p | p in listing[..i] && p in archives && p !in unreadable
        invariant forall e :: e in entries ==> e.path in files && files[e.path] == Stat(e.size, e.mtime)
      {
        var p := listing[i];
        if p in archives && p !in unreadable {
          assert forall k :: 0 <= k < |entries| ==> entries[k].path in Paths(entries);
          var e := Entry(p, files[p].size, files[p].mtime);
          assert Paths(entries + [e]) == Paths(entries) + {p};
          entries := entries + [e];
        }
      }
      assert listing[..|listing|] == listing;
    }

    method CleanupByTotalSize(listing: seq<Path>, archives: set<Path>, unreadable: set<Path>, stuck: set<Path>)
      returns (entries: seq<Entry>, deleted: seq<Entry>, left: int)
      requires forall i, j :: 0 <= i < j < |listing| ==> listing[i] != listing[j]
      requires forall p :: p in listing ==> p in files
      modifies this`files, this`diskFull
      ensures DistinctPaths(entries) && Paths(entries) == set p | p in listing && p in archives && p !in unreadable
      ensures forall e :: e in entries ==> e.path in old(files) && old(files)[e.path] == Stat(e.size, e.mtime)
      ensures deleted == if maxTotalBytes == 0 then [] else
                Doomed(Candidates(SortByAge(entries), active, stuck), Total(entries), maxTotalBytes)
      ensures files == old(files) - Paths(deleted)
      ensures forall d, e :: d in deleted && e in entries && e.path in files && e.path != active && e.path !in stuck ==>
        d.mtime <= e.mtime
      ensures active in old(files) ==> active in files
      ensures left == OnDisk(entries, files) == Total(entries) - Total(deleted)
      ensures diskFull == old(diskFull) + (if "audit" <= prefix then |deleted| else 0)
    {
      entries := Collect(listing, archives, unreadable);
      deleted, left := [], Total(entries);
      OnDiskAll(entries, files);
      if maxTotalBytes == 0 || left <= maxTotalBytes {
        return;
      }
      var sorted := SortByAge(entries);
      SortedEntries(entries);
      DeletedAreOldest(entries, active, stuck, left, maxTotalBytes,
                       Doomed(Candidates(sorted, active, stuck), left, maxTotalBytes));
      deleted, left := UnlinkOldest(sorted, stuck, Plan(entries, sorted, active, stuck, maxTotalBytes, files));
      if |deleted| > 0 && "audit" <= prefix {
        diskFull := diskFull + |deleted|;
      }
    }

    /** The greedy loop: from the oldest on, while the total is over the cap. */
    method UnlinkOldest(sorted: seq<Entry>, stuck: set<Path>, ghost plan: Plan) returns (deleted: seq<Entry>, left: int)
      requires Ready(plan) && plan == Plan(plan.entries, sorted, active, stuck, maxTotalBytes, files)
      modifies this`files
      ensures deleted == PlannedDeletions(plan) && OnRecord(plan, files, deleted, left)
    {
      deleted, left := [], Total(sorted);
      ProgressStarts(plan);
      for i := 0 to |sorted|
        invariant Progress(plan, files, i, deleted, left)
      {
        if left <= maxTotalBytes {
          ProgressEnds(plan, files, i, deleted, left);
          return;
        }
        var e := sorted[i];
        if e.path != active && e.path !in stuck {
          UnlinkAdvances(plan, files, i, deleted, left);
          files := files - {e.path};
          left := left - e.size;
          deleted := deleted + [e];
        } else {
          SkipAdvances(plan, files, i, deleted, left);
        }
      }
      ProgressEnds(plan, files, |sorted|, deleted, left);
    }
  }

  // --- The greedy loop's progress ---

  datatype Plan = Plan(entries: seq<Entry>, sorted: seq<Entry>, active: Path, stuck: set<Path>, cap: nat,
      files: map<Path, Stat>)

  ghost predicate Ready(plan: Plan) {
    && DistinctPaths(plan.entries) && DistinctPaths(plan.sorted)
    && Total(plan.sorted) == Total(plan.entries) == OnDisk(plan.entries, plan.files)
    && forall i :: 0 <= i < |plan.sorted| ==> plan.sorted[i] in plan.entries && plan.sorted[i].path in plan.files
  }

  function PlannedDeletions(plan: Plan): seq<Entry> {
    Doomed(Candidates(plan.sorted, plan.active, plan.stuck), Total(plan.entries), plan.cap)
  }

  ghost predicate OnPlan(plan: Plan, i: nat, deleted: seq<Entry>, left: int)
    requires i <= |plan.sorted|
  {
    PlannedDeletions(plan) == deleted + Doomed(Candidates(plan.sorted[i..], plan.active, plan.stuck), left, plan.cap)
  }

  ghost predicate OnRecord(plan: Plan, files: map<Path, Stat>, deleted: seq<Entry>, left: int) {
    && files == plan.files - Paths(deleted) && plan.active !in Paths(deleted)
    && left == OnDisk(plan.entries, files) == Total(plan.entries) - Total(deleted)
  }

  ghost predicate Progress(plan: Plan, files: map<Path, Stat>, i: nat, deleted: seq<Entry>, left: int) {
    && i <= |plan.sorted| && Paths(deleted) <= Paths(plan.sorted[..i])
    && OnPlan(plan, i, deleted, left) && OnRecord(plan, files, deleted, left)
  }

  lemma ProgressStarts(plan: Plan)
    requires Ready(plan)
    ensures Progress(plan, plan.files, 0, [], Total(plan.entries))
  {
    assert plan.sorted[0..] == plan.sorted;
    assert plan.files - Paths([]) == plan.files;
  }

  lemma ProgressEnds(plan: Plan, files: map<Path, Stat>, i: nat, deleted: seq<Entry>, left: int)
    requires Progress(plan, files, i, deleted, left) && (left <= plan.cap || i == |plan.sorted|)
    ensures deleted == PlannedDeletions(plan)
  {
  }

  lemma UnlinkStaysOnPlan(plan: Plan, i: nat, deleted: seq<Entry>, left: int)
    requires i < |plan.sorted| && OnPlan(plan, i, deleted, left) && left > plan.cap
    requires plan.sorted[i].path != plan.active && plan.sorted[i].path !in plan.stuck
    ensures OnPlan(plan, i + 1, deleted + [plan.sorted[i]], left - plan.sorted[i].size)
  {
    var e := plan.sorted[i];
    var rest := Candidates(plan.sorted[i + 1..], plan.active, plan.stuck);
    CandidatesFrom(plan.sorted, i, plan.active, plan.stuck);
    DoomedFirst(e, rest, left, plan.cap);
    Regroup(deleted, [e], Doomed(rest, left - e.size, plan.cap));
  }

  lemma DoomedFirst(e: Entry, rest: seq<Entry>, total: int, cap: nat)
    requires total > cap
    ensures Doomed([e] + rest, total, cap) == [e] + Doomed(rest, total - e.size, cap)
  {
    assert ([e] + rest)[1..] == rest;
  }

  lemma UnlinkIsRecorded(plan: Plan, files: map<Path, Stat>, deleted: seq<Entry>, left: int, e: Entry)
    requires OnRecord(plan, files, deleted, left) && DistinctPaths(plan.entries)
    requires e in plan.entries && e.path in plan.files && e.path !in Paths(deleted) && e.path != plan.active
    ensures OnRecord(plan, files - {e.path}, deleted + [e], left - e.size)
  {
    OnDiskWithout(plan.entries, files, e);
    Append(deleted, e);
    assert files - {e.path} == plan.files - Paths(deleted + [e]);
  }

  lemma UnlinkAdvances(plan: Plan, files: map<Path, Stat>, i: nat, deleted: seq<Entry>, left: int)
    requires i < |plan.sorted| && Progress(plan, files, i, deleted, left) && left > plan.cap
    requires Ready(plan) && plan.sorted[i].path != plan.active && plan.sorted[i].path !in plan.stuck
    ensures Progress(plan, files - {plan.sorted[i].path}, i + 1, deleted + [plan.sorted[i]], left - plan.sorted[i].size)
  {
    PathsSoFar(plan.sorted, i);
    Append(deleted, plan.sorted[i]);
    UnlinkStaysOnPlan(plan, i, deleted, left);
    UnlinkIsRecorded(plan, files, deleted, left, plan.sorted[i]);
  }

  lemma SkipAdvances(plan: Plan, files: map<Path, Stat>, i: nat, deleted: seq<Entry>, left: int)
    requires i < |plan.sorted| && Progress(plan, files, i, deleted, left) && Ready(plan)
    requires plan.sorted[i].path == plan.active || plan.sorted[i].path in plan.stuck
    ensures Progress(plan, files, i + 1, deleted, left)
  {
    PathsSoFar(plan.sorted, i);
    CandidatesFrom(plan.sorted, i, plan.active, plan.stuck);
  }

  lemma PathsSoFar(sorted: seq<Entry>, i: nat)
    requires i < |sorted| && DistinctPaths(sorted)
    ensures Paths(sorted[..i + 1]) == Paths(sorted[..i]) + {sorted[i].path} && sorted[i].path !in Paths(sorted[..i])
  {
  }

  lemma CandidatesFrom(sorted: seq<Entry>, i: nat, active: Path, stuck: set<Path>)
    requires i < |sorted|
    ensures Candidates(sorted[i..], active, stuck) ==
      (if sorted[i].path == active || sorted[i].path in stuck then [] else [sorted[i]]) +
        Candidates(sorted[i + 1..], active, stuck)
  {
    assert sorted[i..][1..] == sorted[i + 1..];
  }

  lemma {:induction false} Append(entries: seq<Entry>, e: Entry)
    ensures Total(entries + [e]) == Total(entries) + e.size && Paths(entries + [e]) == Paths(entries) + {e.path}
  {
    if entries != [] {
      Append(entries[1..], e);
      assert (entries + [e])[1..] == entries[1..] + [e];
    }
  }
}
