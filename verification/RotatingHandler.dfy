/** The rotating handler as the object the program keeps: its fields, its methods and the gzip worker
    that shares its directory. Every method is proved against the functions of RotationRules. */
module RotatingHandler {
  import opened Wrappers
  import opened LogFiles
  import opened RotationRules
  import opened RotationEffects

  class Handler {
    const cfg: Config
    var date: nat
    var currentBytes: nat
    var plain: map<File, Lines>
    var gz: map<File, Archive>
    var job: Option<Job>

    ghost var written: map<nat, Lines>
    ghost var horizon: int
    ghost var found: nat
    ghost var trigger: nat
    ghost var lost: nat

    ghost function Snapshot(): State
      reads this
    {
      State(Disk(plain, gz), date, currentBytes, job, written, horizon, found, trigger, lost)
    }

    ghost predicate Valid()
      reads this
    {
      cfg.backupCount > 0 && Inv(cfg, Snapshot())
    }

    /** Opens today's file for appending and applies retention and the size cap to whatever an earlier run left.
        The size of the file counts from the start, or as zero if it cannot be found out. */
    constructor (cfg: Config, disk: Disk, today: nat, now: nat, sizeKnown: bool, stuck: set<File>, swept: Swept)
      ensures this.cfg == cfg && date == today && job == None && trigger == 0 && lost == 0
      ensures horizon == now - cfg.retentionDays
      ensures Disk(plain, gz) == DiskAtStart(cfg, disk, today, now, stuck, swept)
      ensures currentBytes == found == SizeAtStart(disk, today, sizeKnown)
      ensures written == KeptByDate(Disk(plain, gz), cfg.backupCount)
      ensures forall f: File :: f != File(today, 0) ==>
        (f in plain <==> f in disk.plain && (f.date >= horizon || f in stuck) && f !in swept.plain)
        && (f in plain ==> plain[f] == disk.plain[f])
      ensures forall f: File :: f in gz <==> f in disk.gz && (f.date >= horizon || f in stuck) && f !in swept.gz
      ensures forall f: File :: f in gz ==> gz[f] == disk.gz[f]
      ensures today >= horizon && File(today, 0) in disk.plain ==>
        At(plain, File(today, 0)) == At(disk.plain, File(today, 0))
      ensures today >= horizon && File(today, 0) !in disk.plain ==> At(plain, File(today, 0)) == Some([])
      ensures currentBytes ==
        if sizeKnown && File(today, 0) in disk.plain then ByteSize(disk.plain[File(today, 0)]) else 0
    {
      this.cfg, this.date, this.job := cfg, today, None;
      plain, gz := WithFile(disk, File(today, 0)).plain, WithFile(disk, File(today, 0)).gz;
      currentBytes, found := SizeAtStart(disk, today, sizeKnown), SizeAtStart(disk, today, sizeKnown);
      horizon, trigger, lost := now - cfg.retentionDays, 0, 0;
      written := map[];
      new;
      CleanUp(disk, now, stuck, swept);
      written := KeptByDate(Disk(plain, gz), cfg.backupCount);
    }

    /** True iff the record must not go to the current file; otherwise the record is counted now. */
    method ShouldRollover(line: Line, today: nat) returns (roll: bool)
      modifies this`currentBytes
      ensures roll <==> today != date || (cfg.maxBytes > 0 && old(currentBytes) + |line| + 1 >= cfg.maxBytes)
      ensures currentBytes == old(currentBytes) + if !roll && cfg.maxBytes > 0 then |line| + 1 else 0
      ensures roll == NeedsRoll(cfg, old(Snapshot()), line, today)
      ensures Snapshot() == if roll then old(Snapshot()) else Count(cfg, old(Snapshot()), line)
    {
      if today != date {
        return true;
      }
      if cfg.maxBytes > 0 {
        var msgBytes := |line| + 1;
        if currentBytes + msgBytes >= cfg.maxBytes {
          return true;
        }
        currentBytes := currentBytes + msgBytes;
      }
      return false;
    }

    /** One step of the gzip worker: open the source, finish or abandon the copy, drop the source. */
    method WorkerStep(luck: Luck)
      modifies this`plain, this`gz, this`job
      ensures Snapshot() == WorkStep(old(Snapshot()), luck)
    {
      match job
      case None =>
      case Some(Job(t, Queued)) =>
        if t in plain {
          gz := gz[t := Partial];
          job := Some(Job(t, Copying(plain[t])));
        } else {
          gz := gz - {t};
          job := None;
        }
      case Some(Job(t, Copying(lines))) =>
        if luck.copies {
          if t in gz {
            gz := gz[t := Whole(lines)];
          }
          job := Some(Job(t, Copied));
        } else {
          if luck.cleans {
            gz := gz - {t};
          }
          job := None;
        }
      case Some(Job(t, Copied)) =>
        if luck.unlinks {
          plain := plain - {t};
        }
        job := None;
    }

    method WaitPendingCompressions(luck: Luck)
      modifies this`plain, this`gz, this`job
      ensures Snapshot() == Drain(old(Snapshot()), luck)
    {
      while job.Some?
        invariant Drain(Snapshot(), luck) == Drain(old(Snapshot()), luck)
        decreases Rank(Snapshot())
      {
        WorkerStep(luck);
      }
    }

    method CompressAsync(f: File)
      modifies this`job
      ensures Snapshot() == old(Snapshot()).(job := Some(Job(f, Queued)))
    {
      job := Some(Job(f, Queued));
    }

    static method UnlinkOld<V>(files: map<File, V>, cutoff: int, stuck: set<File>) returns (left: map<File, V>)
      ensures forall f :: f in left <==> f in files && (f.date >= cutoff || f in stuck)
      ensures forall f :: f in left ==> left[f] == files[f]
      ensures left == RetainFiles(files, cutoff, stuck)
    {
      left := files;
      var listed := files.Keys;
      while listed != {}
        invariant listed <= files.Keys
        invariant left == map f | f in files && (f in listed || f.date >= cutoff || f in stuck) :: files[f]
        decreases |listed|
      {
        var f :| f in listed;
        listed := listed - {f};
        if f.date < cutoff && f !in stuck {
          left := left - {f};
        }
      }
    }

    method CleanupOldFiles(now: nat, stuck: set<File>)
      modifies this`plain, this`gz
      ensures Disk(plain, gz) == Retain(old(Disk(plain, gz)), now - cfg.retentionDays, stuck)
    {
      plain := UnlinkOld(plain, now - cfg.retentionDays, stuck);
      gz := UnlinkOld(gz, now - cfg.retentionDays, stuck);
    }

    /** Removes what the cap on the total size demands, which may be any files but the active one. */
    method CleanupByTotalSize(swept: Swept)
      modifies this`plain, this`gz
      ensures Disk(plain, gz) == SweepDisk(old(Disk(plain, gz)), date, swept)
    {
      plain := plain - (swept.plain - {File(date, 0)});
      gz := gz - swept.gz;
    }

    method CleanUp(ghost found: Disk, now: nat, stuck: set<File>, swept: Swept)
      requires Disk(plain, gz) == WithFile(found, File(date, 0))
      modifies this`plain, this`gz
      ensures Disk(plain, gz) == DiskAtStart(cfg, found, date, now, stuck, swept)
    {
      CleanupOldFiles(now, stuck);
      CleanupByTotalSize(swept);
    }

    /** Renumbers the backups from the last slot down. */
    method RenumberBackups()
      modifies this`plain, this`gz
      ensures Renumbered(old(Disk(plain, gz)), Disk(plain, gz), date, cfg.backupCount, 0)
    {
      var n := cfg.backupCount;
      var i := n;
      while i > 0
        invariant 0 <= i <= n
        invariant Renumbered(old(Disk(plain, gz)), Disk(plain, gz), date, n, i)
      {
        RenumberStep(old(Disk(plain, gz)), Disk(plain, gz), date, n, i);
        var src, dst := File(date, i), File(date, i + 1);
        if i == n {
          gz := gz - {src};
          plain := plain - {src};
        } else if src in gz {
          gz := gz[dst := gz[src]] - {src};
        } else if src in plain {
          plain := plain[dst := plain[src]] - {src};
        }
        i := i - 1;
      }
    }

    /** Renumbers the backups, then turns the active file into slot 1. */
    method ShiftBackups()
      modifies this`plain, this`gz, this`job
      ensures Snapshot() == SizeRoll(cfg, old(Snapshot()))
    {
      RenumberBackups();
      RenumberedBase(old(Disk(plain, gz)), Disk(plain, gz), date, cfg.backupCount);
      var base, target := File(date, 0), File(date, 1);
      if base in plain {
        plain := plain[target := plain[base]] - {base};
        if cfg.compress {
          CompressAsync(target);
        }
      }
    }

    method SwitchDate(e: Emission)
      modifies this
      ensures Snapshot() == DateRoll(cfg, old(Snapshot()), e)
    {
      var oldPath := File(date, 0);
      if oldPath in plain && cfg.compress {
        CompressAsync(oldPath);
      }
      date := e.rolled;
      CleanupOldFiles(e.now, e.stuck);
      ghost var cutoff := e.now - cfg.retentionDays;
      horizon := if cutoff > horizon then cutoff else horizon;
    }

    method DoRollover(e: Emission)
      modifies this
      ensures Snapshot() == Roll(cfg, old(Snapshot()), e)
    {
      WaitPendingCompressions(e.luck);
      if e.rolled != date {
        SwitchDate(e);
      } else {
        ShiftBackups();
      }
      OpenFile(e.line);
      CleanupByTotalSize(e.swept);
    }

    /** Opens the active file, which may be new, and counts from zero. */
    method OpenFile(ghost line: Line)
      modifies this
      ensures Snapshot() == Open(old(Snapshot()), line)
    {
      var base := File(date, 0);
      if base !in plain {
        plain := plain[base := []];
      }
      currentBytes := 0;
      found, trigger, lost := 0, Cost(line), 0;
    }

    method Append(line: Line, ok: bool)
      modifies this
      ensures Snapshot() == Write(old(Snapshot()), line, ok)
    {
      var base := File(date, 0);
      if ok {
        plain := plain[base := (if base in plain then plain[base] else []) + [line]];
        written := written[date := Written(Snapshot(), date) + [line]];
      } else {
        lost := lost + Cost(line);
      }
    }

    /** Logging one record: roll over if needed, then append. Below the limit the record joins the active file
        and nothing else changes; at the limit every backup moves up by one slot; at a new date the old
        active file is submitted for compression. */
    method Emit(e: Emission)
      modifies this
      ensures Snapshot() == Apply(cfg, old(Snapshot()), Event.Emit(e))
      ensures old(Valid()) && Timely(old(Snapshot()), Event.Emit(e)) ==> Valid()
      ensures e.seen == old(date) && (cfg.maxBytes <= 0 || old(currentBytes) + |e.line| + 1 < cfg.maxBytes) ==>
        && date == old(date) && job == old(job) && gz == old(gz)
        && currentBytes == old(currentBytes) + (if cfg.maxBytes > 0 then |e.line| + 1 else 0)
        && plain == old(if e.writes then Appended(plain, File(date, 0), e.line) else plain)
      ensures old(Valid() && Timely(Snapshot(), Event.Emit(e))) && old(horizon) <= old(date) == e.rolled ==>
        cfg.maxBytes > 0 && old(currentBytes) + |e.line| + 1 >= cfg.maxBytes ==>
        && currentBytes == 0 && job == (if cfg.compress then Some(Job(File(date, 1), Queued)) else None)
        && Slot(Disk(plain, gz), File(date, 0)) == (if e.writes then [e.line] else [])
        && forall i: nat :: i < cfg.backupCount && File(date, i + 1) !in e.swept.plain + e.swept.gz ==>
             Slot(Disk(plain, gz), File(date, i + 1)) == old(Slot(Disk(plain, gz), File(date, i)))
      ensures old(Valid() && Timely(Snapshot(), Event.Emit(e))) && old(horizon) <= old(date) < e.seen ==>
        && date == e.rolled && currentBytes == 0
        && job == (if cfg.compress then Some(Job(File(old(date), 0), Queued)) else None)
        && Slot(Disk(plain, gz), File(date, 0)) == (if e.writes then [e.line] else [])
        && forall f: File :: f.date < e.now - cfg.retentionDays && f != File(date, 0) && f !in e.stuck ==>
             f !in plain && f !in gz
    {
      var roll := ShouldRollover(e.line, e.seen);
      if roll {
        DoRollover(e);
      }
      Append(e.line, e.writes);
      EmitKeepsInv(cfg, old(Snapshot()), e);
      EmitEffects(cfg, old(Snapshot()), e);
    }
  }

  /** Opening a file for appending creates it. */
  function Appended(plain: map<File, Lines>, f: File, line: Line): map<File, Lines> {
    plain[f := (if f in plain then plain[f] else []) + [line]]
  }

  lemma EmitKeepsInv(cfg: Config, s: State, e: Emission)
    ensures cfg.backupCount > 0 && Inv(cfg, s) && Timely(s, Event.Emit(e)) ==> Inv(cfg, Apply(cfg, s, Event.Emit(e)))
  {
    if cfg.backupCount > 0 && Inv(cfg, s) && Timely(s, Event.Emit(e)) {
      ApplyKeepsInv(cfg, s, Event.Emit(e));
    }
  }

  /** The same for the state in which the record finds the handler. */
  lemma EmitEffects(cfg: Config, s: State, e: Emission)
    ensures var r := Apply(cfg, s, Event.Emit(e));
      && (cfg.backupCount > 0 && Inv(cfg, s) && Timely(s, Event.Emit(e)) && s.horizon <= s.date == e.rolled ==>
            cfg.maxBytes > 0 && s.bytes + |e.line| + 1 >= cfg.maxBytes ==>
            && r.bytes == 0 && r.date == s.date
            && r.job == (if cfg.compress then Some(Job(File(s.date, 1), Queued)) else None)
            && Slot(r.disk, File(s.date, 0)) == (if e.writes then [e.line] else [])
            && forall i: nat :: i < cfg.backupCount && File(s.date, i + 1) !in e.swept.plain + e.swept.gz ==>
                 Slot(r.disk, File(s.date, i + 1)) == Slot(s.disk, File(s.date, i)))
      && (cfg.backupCount > 0 && Inv(cfg, s) && Timely(s, Event.Emit(e)) && s.horizon <= s.date < e.seen ==>
            && r.date == e.rolled && r.bytes == 0
            && r.job == (if cfg.compress then Some(Job(File(s.date, 0), Queued)) else None)
            && Slot(r.disk, File(e.rolled, 0)) == (if e.writes then [e.line] else [])
            && forall f: File :: f.date < e.now - cfg.retentionDays && f != File(e.rolled, 0) && f !in e.stuck ==>
                 f !in r.disk.plain && f !in r.disk.gz)
  {
    if cfg.backupCount > 0 && Inv(cfg, s) && Timely(s, Event.Emit(e)) && s.horizon <= s.date {
      if s.date == e.rolled && cfg.maxBytes > 0 && s.bytes + |e.line| + 1 >= cfg.maxBytes {
        BigRecordShifts(cfg, s, e);
      }
      if s.date < e.seen {
        DateChangeSwitches(cfg, s, e);
      }
    }
  }

  // --- What a new handler finds ---

  function DiskAtStart(cfg: Config, disk: Disk, today: nat, now: nat, stuck: set<File>, swept: Swept): Disk {
    SweepDisk(Retain(WithFile(disk, File(today, 0)), now - cfg.retentionDays, stuck), today, swept)
  }

  function SizeAtStart(disk: Disk, today: nat, sizeKnown: bool): nat {
    if sizeKnown then ByteSize(WithFile(disk, File(today, 0)).plain[File(today, 0)]) else 0
  }

  /** No file from the future, no unfinished archive, today's base file not compressed, and two forms
      of one slot only where an unlink failed after a complete compression. */
  ghost predicate LeftInOrder(disk: Disk, today: nat) {
    && (forall f :: f in disk.plain ==> f.date <= today)
    && (forall f :: f in disk.gz ==> f.date <= today && disk.gz[f].Whole?)
    && File(today, 0) !in disk.gz
    && (forall f: File :: OneForm(disk, f))
  }

  ghost function KeptByDate(disk: Disk, n: nat): map<nat, Lines> {
    map d: nat | d in (set f | f in disk.plain.Keys + disk.gz.Keys :: f.date) :: Kept(disk, d, n)
  }

  lemma {:induction false} NothingKept(disk: Disk, d: nat, n: nat)
    requires d !in KeptByDate(disk, n)
    ensures Kept(disk, d, n) == []
  {
    assert File(d, n) in disk.plain.Keys + disk.gz.Keys ==> File(d, n).date in KeptByDate(disk, n);
    if n > 0 {
      NothingKept(disk, d, n - 1);
    }
  }

  /** What the constructor leaves, if it found out the size of the file, is a start in the sense of
      RotationRules, whatever the size cap removed. */
  lemma FreshStarts(cfg: Config, s: State, disk: Disk, now: nat, stuck: set<File>, swept: Swept)
    requires LeftInOrder(disk, s.date) && s.horizon <= s.date
    requires s.horizon == now - cfg.retentionDays && s.disk == DiskAtStart(cfg, disk, s.date, now, stuck, swept)
    requires s.bytes == s.found == SizeAtStart(disk, s.date, true)
    requires s.job == None && s.trigger == 0 && s.lost == 0 && s.written == KeptByDate(s.disk, cfg.backupCount)
    ensures Start(cfg, s)
  {
    forall f: File
      ensures OneForm(s.disk, f)
    {
      assert OneForm(disk, f);
    }
    forall d: nat
      ensures Written(s, d) == Kept(s.disk, d, cfg.backupCount)
    {
      if d !in s.written {
        NothingKept(s.disk, d, cfg.backupCount);
      }
    }
  }

  /** A directory left by a process that ended in the middle of compressing slot 1 of the same day. */
  ghost predicate LeftByCrash(disk: Disk, today: nat) {
    && (forall f :: f in disk.plain || f in disk.gz ==> f.date <= today)
    && File(today, 0) !in disk.gz && File(today, 1) in disk.plain
    && (forall f: File :: OneForm(disk, f))
    && (forall f: File :: f in disk.gz && disk.gz[f].Partial? <==> f == File(today, 1))
  }

  lemma CrashedStart(cfg: Config, s: State, disk: Disk, now: nat, stuck: set<File>, swept: Swept, f: File)
    requires LeftByCrash(disk, s.date) && s.horizon <= s.date && f.date >= s.horizon
    requires s.horizon == now - cfg.retentionDays && s.disk == DiskAtStart(cfg, disk, s.date, now, stuck, swept)
    requires File(s.date, 1) !in swept.plain && File(s.date, 1) !in swept.gz
    ensures OneForm(s.disk, f) && (f in s.disk.gz && s.disk.gz[f].Partial? <==> f == File(s.date, 1))
    ensures f == File(s.date, 1) ==> Slot(s.disk, f) == disk.plain[f]
    ensures Base(s) in s.disk.plain && Base(s) !in s.disk.gz
  {
    assert OneForm(disk, f);
  }

  /** A handler started on it loses that backup at the first size rollover, unless it is in the last slot or
      empty. */
  lemma CrashCostsNewestBackup(cfg: Config, s: State, disk: Disk, now: nat, stuck: set<File>, swept: Swept)
    requires cfg.backupCount > 0 && LeftByCrash(disk, s.date) && s.horizon <= s.date
    requires s.horizon == now - cfg.retentionDays && s.disk == DiskAtStart(cfg, disk, s.date, now, stuck, swept)
    requires File(s.date, 1) !in swept.plain && File(s.date, 1) !in swept.gz
    ensures Kept(SizeRoll(cfg, s).disk, s.date, cfg.backupCount) == Kept(s.disk, s.date, cfg.backupCount - 1)
      <==> cfg.backupCount == 1 || disk.plain[File(s.date, 1)] == []
  {
    forall f: File | f.date >= s.horizon
      ensures OneForm(s.disk, f) && (f in s.disk.gz && s.disk.gz[f].Partial? <==> f == File(s.date, 1))
    {
      CrashedStart(cfg, s, disk, now, stuck, swept, f);
    }
    CrashedStart(cfg, s, disk, now, stuck, swept, File(s.date, 1));
    PartialInSlot1Loses(cfg, s);
  }

  // --- The directory while a shift is under way: slots above i have been renumbered ---

  ghost predicate Untouched(date: nat, n: nat, i: nat, f: File) {
    f.date != date || f.slot == 0 || f.slot > n || f.slot <= i
  }

  ghost function PartShiftedGz(was: Disk, date: nat, n: nat, i: nat, f: File): Option<Archive> {
    if Untouched(date, n, i, f) then At(was.gz, f)
    else if f.slot == i + 1 then None
    else ShiftedGz(was, date, n, f)
  }

  ghost function PartShiftedPlain(was: Disk, date: nat, n: nat, i: nat, f: File): Option<Lines> {
    if Untouched(date, n, i, f) then At(was.plain, f)
    else if f.slot == i + 1 then Leftover(was, date, n, f.slot)
    else ShiftedPlain(was, date, n, f)
  }

  ghost predicate Renumbered(was: Disk, disk: Disk, date: nat, n: nat, i: nat) {
    forall f: File ::
      At(disk.gz, f) == PartShiftedGz(was, date, n, i, f) && At(disk.plain, f) == PartShiftedPlain(was, date, n, i, f)
  }

  /** One turn of the loop. */
  ghost function MoveUp(disk: Disk, date: nat, n: nat, i: nat): Disk {
    var src, dst := File(date, i), File(date, i + 1);
    if i == n then Disk(disk.plain - {src}, disk.gz - {src})
    else if src in disk.gz then Disk(disk.plain, disk.gz[dst := disk.gz[src]] - {src})
    else if src in disk.plain then Disk(disk.plain[dst := disk.plain[src]] - {src}, disk.gz)
    else disk
  }

  lemma RenumberStep(was: Disk, disk: Disk, date: nat, n: nat, i: nat)
    requires 0 < i <= n && Renumbered(was, disk, date, n, i)
    ensures Renumbered(was, MoveUp(disk, date, n, i), date, n, i - 1)
  {
    var src, dst := File(date, i), File(date, i + 1);
    assert At(disk.gz, src) == At(was.gz, src) && At(disk.plain, src) == At(was.plain, src);
    assert At(disk.gz, dst) == PartShiftedGz(was, date, n, i, dst);
    forall f: File
      ensures At(MoveUp(disk, date, n, i).gz, f) == PartShiftedGz(was, date, n, i - 1, f)
      ensures At(MoveUp(disk, date, n, i).plain, f) == PartShiftedPlain(was, date, n, i - 1, f)
    {
      assert At(disk.gz, f) == PartShiftedGz(was, date, n, i, f);
      assert At(disk.plain, f) == PartShiftedPlain(was, date, n, i, f);
    }
  }

  /** After the loop, moving the base file to slot 1 completes the shift. */
  lemma RenumberedBase(was: Disk, disk: Disk, date: nat, n: nat)
    requires Renumbered(was, disk, date, n, 0)
    ensures var base, target := File(date, 0), File(date, 1);
      && (base in disk.plain <==> base in was.plain)
      && Shift(was, date, n) ==
        if base in disk.plain then Disk(disk.plain[target := disk.plain[base]] - {base}, disk.gz) else disk
  {
    var base, target := File(date, 0), File(date, 1);
    assert At(disk.plain, base) == At(was.plain, base);
    var r := if base in disk.plain then Disk(disk.plain[target := disk.plain[base]] - {base}, disk.gz) else disk;
    forall f: File
      ensures At(r.gz, f) == ShiftedGz(was, date, n, f) && At(r.plain, f) == ShiftedPlain(was, date, n, f)
    {
      assert At(disk.gz, f) == PartShiftedGz(was, date, n, 0, f);
      assert At(disk.plain, f) == PartShiftedPlain(was, date, n, 0, f);
    }
    IsShift(was, r, date, n);
  }

  lemma IsShift(was: Disk, r: Disk, date: nat, n: nat)
    requires forall f: File ::
      At(r.gz, f) == ShiftedGz(was, date, n, f) && At(r.plain, f) == ShiftedPlain(was, date, n, f)
    ensures r == Shift(was, date, n)
  {
    forall f: File
      ensures At(r.gz, f) == At(Shift(was, date, n).gz, f) && At(r.plain, f) == At(Shift(was, date, n).plain, f)
    {
      assert At(r.gz, f) == ShiftedGz(was, date, n, f);
    }
    MapsAgree(r.plain, Shift(was, date, n).plain);
    MapsAgree(r.gz, Shift(was, date, n).gz);
  }
}
