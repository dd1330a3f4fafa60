/** What one record, one date change and one compression do to the directory, in the terms of the
    directory alone, and what that makes of the records of one date. */
module RotationEffects {
  import opened Wrappers
  import opened LogFiles
  import opened RotationRules

  // --- A record that stays below the limit ---

  /** A record of the current date that leaves the file below the limit is counted and appended;
      no file but the active one changes. */
  lemma SmallRecordStays(cfg: Config, s: State, e: Emission)
    requires e.seen == s.date
    requires cfg.maxBytes <= 0 || s.bytes + |e.line| + 1 < cfg.maxBytes
    ensures var r, base := Apply(cfg, s, Emit(e)), File(s.date, 0);
      && r.date == s.date && r.job == s.job && r.disk.gz == s.disk.gz
      && r.bytes == (if cfg.maxBytes > 0 then s.bytes + |e.line| + 1 else s.bytes)
      && (forall f: File :: f != base ==> At(r.disk.plain, f) == At(s.disk.plain, f))
      && (!e.writes ==> At(r.disk.plain, base) == At(s.disk.plain, base))
      && (e.writes && base in s.disk.plain ==> At(r.disk.plain, base) == Some(s.disk.plain[base] + [e.line]))
      && (e.writes && base !in s.disk.plain ==> At(r.disk.plain, base) == Some([e.line]))
  {
    assert [] + [e.line] == [e.line];
  }

  // --- A record that reaches the limit ---

  // The state after a rollover and the record that caused it, once the compression under way is done.
  function RolledOver(cfg: Config, s: State, e: Emission): State {
    Write(Sweep(Reopen(cfg, s, e), e.swept), e.line, e.writes)
  }

  lemma BaseAfterShift(cfg: Config, s: State, e: Emission)
    requires cfg.backupCount > 0 && s.job == None && e.rolled == s.date && Tidy(s)
    ensures var r := RolledOver(cfg, s, e);
      && r.date == s.date && r.bytes == 0
      && r.job == (if cfg.compress then Some(Job(File(s.date, 1), Queued)) else None)
      && Slot(r.disk, File(s.date, 0)) == (if e.writes then [e.line] else [])
  {
    OpenStartsEmpty(cfg, s, e);
    ShiftAt(s.disk, s.date, cfg.backupCount, File(s.date, 0));
    assert [] + [e.line] == [e.line];
  }

  lemma SlotAfterShift(cfg: Config, s: State, e: Emission, f: File)
    requires s.job == None && e.rolled == s.date && f != File(s.date, 0)
    requires f !in e.swept.plain && f !in e.swept.gz
    ensures Slot(RolledOver(cfg, s, e).disk, f) == Slot(Shift(s.disk, s.date, cfg.backupCount), f)
  {
  }

  /** A record of the current date that would reach the limit turns the active file into slot 1, moves every
      backup up by one slot (unless the size cap takes it) and starts the new file; the file in slot 1 is
      submitted for compression. */
  lemma BigRecordShifts(cfg: Config, s: State, e: Emission)
    requires cfg.backupCount > 0 && Inv(cfg, s) && s.date >= s.horizon
    requires e.luck.copies || e.luck.cleans
    requires e.seen == e.rolled == s.date
    requires cfg.maxBytes > 0 && s.bytes + |e.line| + 1 >= cfg.maxBytes
    ensures var r := Apply(cfg, s, Emit(e));
      && r.date == s.date && r.bytes == 0
      && r.job == (if cfg.compress then Some(Job(File(s.date, 1), Queued)) else None)
      && Slot(r.disk, File(s.date, 0)) == (if e.writes then [e.line] else [])
      && (forall i: nat :: i < cfg.backupCount && File(s.date, i + 1) !in e.swept.plain + e.swept.gz ==>
            Slot(r.disk, File(s.date, i + 1)) == Slot(s.disk, File(s.date, i)))
      && (forall f: File :: s.horizon <= f.date != s.date && f !in e.swept.plain + e.swept.gz ==>
            Slot(r.disk, f) == Slot(s.disk, f))
  {
    var s0, n := Drain(s, e.luck), cfg.backupCount;
    DrainKeepsInv(cfg, s, e.luck);
    var r := Apply(cfg, s, Emit(e));
    assert r == RolledOver(cfg, s0, e);
    BaseAfterShift(cfg, s0, e);
    ShiftMovesSlots(s0, n);
    forall i: nat | i < n && File(s.date, i + 1) !in e.swept.plain + e.swept.gz
      ensures Slot(r.disk, File(s.date, i + 1)) == Slot(s.disk, File(s.date, i))
    {
      SlotAfterShift(cfg, s0, e, File(s.date, i + 1));
    }
    forall f: File | s.horizon <= f.date != s.date && f !in e.swept.plain + e.swept.gz
      ensures Slot(r.disk, f) == Slot(s.disk, f)
    {
      SlotAfterShift(cfg, s0, e, f);
      ShiftLeavesOthers(s0, n, f);
    }
  }

  // --- A record of a later date ---

  lemma SwitchedActive(cfg: Config, s: State, e: Emission)
    requires s.date < e.rolled && s.job == None && Tidy(s)
    ensures var r := RolledOver(cfg, s, e);
      && r.date == e.rolled && r.bytes == 0
      && r.job == (if cfg.compress then Some(Job(File(s.date, 0), Queued)) else None)
      && Slot(r.disk, File(e.rolled, 0)) == (if e.writes then [e.line] else [])
  {
    assert File(e.rolled, 0) !in s.disk.plain && File(e.rolled, 0) !in s.disk.gz;
    assert [] + [e.line] == [e.line];
  }

  lemma SwitchedFile(cfg: Config, s: State, e: Emission, f: File)
    requires s.date < e.rolled && s.job == None && Tidy(s)
    ensures var r, stale := RolledOver(cfg, s, e), f.date < e.now - cfg.retentionDays && f !in e.stuck;
      && (f != File(e.rolled, 0) ==>
            At(r.disk.plain, f) == if stale || f in e.swept.plain then None else At(s.disk.plain, f))
      && At(r.disk.gz, f) == if stale || f in e.swept.gz then None else At(s.disk.gz, f)
  {
  }

  /** A rollover on a later date starts that date's file at zero and submits the old active file, once the
      compression under way is done. Files dated before the cutoff go, except those that cannot be unlinked,
      and with them what the size cap takes; every other file stays. */
  lemma DateChangeSwitches(cfg: Config, s: State, e: Emission)
    requires s.date < e.rolled && Inv(cfg, s) && s.date >= s.horizon
    requires e.luck.copies || e.luck.cleans
    requires e.seen != s.date || (cfg.maxBytes > 0 && s.bytes + |e.line| + 1 >= cfg.maxBytes)
    ensures var r, base, cutoff := Apply(cfg, s, Emit(e)), File(e.rolled, 0), e.now - cfg.retentionDays;
      && r.date == e.rolled && r.bytes == 0
      && r.job == (if cfg.compress then Some(Job(File(s.date, 0), Queued)) else None)
      && Slot(r.disk, base) == (if e.writes then [e.line] else [])
      && (forall f: File :: f.date < cutoff && f != base && f !in e.stuck ==>
            f !in r.disk.plain && f !in r.disk.gz)
      && (forall f: File :: f in e.swept.plain && f != base ==> f !in r.disk.plain)
      && (forall f: File :: f in e.swept.gz ==> f !in r.disk.gz)
      && (forall f: File :: f.date >= s.horizon && f != base && f !in e.swept.plain + e.swept.gz ==>
            f.date >= cutoff || f in e.stuck ==> Slot(r.disk, f) == Slot(s.disk, f))
  {
    DrainKeepsInv(cfg, s, e.luck);
    var q := Drain(s, e.luck);
    var r := Apply(cfg, s, Emit(e));
    assert r == RolledOver(cfg, q, e);
    SwitchedActive(cfg, q, e);
    forall f: File
      ensures var stale := f.date < e.now - cfg.retentionDays && f !in e.stuck;
        && (f != File(e.rolled, 0) ==>
              At(r.disk.plain, f) == if stale || f in e.swept.plain then None else At(q.disk.plain, f))
        && At(r.disk.gz, f) == if stale || f in e.swept.gz then None else At(q.disk.gz, f)
    {
      SwitchedFile(cfg, q, e, f);
    }
  }

  // --- Deletion from outside ---

  /** Exactly the named files go, but never the active one; nothing else changes. */
  lemma DeletionRemoves(cfg: Config, s: State, swept: Swept)
    ensures var r := Apply(cfg, s, Delete(swept));
      && r == s.(disk := r.disk)
      && (forall f: File :: At(r.disk.plain, f) ==
            if f in swept.plain && f != File(s.date, 0) then None else At(s.disk.plain, f))
      && (forall f: File :: At(r.disk.gz, f) == if f in swept.gz then None else At(s.disk.gz, f))
  {
  }

  // --- A compression, from the start to the end ---

  /** A compression of an existing file leaves its lines in the archive and, if it can, removes the file; one
      that fails keeps the file and, if it can, removes the archive. No other file changes. */
  lemma CompressionReplaces(s: State, t: File, luck: Luck)
    requires s.job == Some(Job(t, Queued)) && t in s.disk.plain
    ensures var r := Drain(s, luck);
      && r == s.(disk := r.disk, job := None)
      && (forall f: File :: f != t ==>
            At(r.disk.plain, f) == At(s.disk.plain, f) && At(r.disk.gz, f) == At(s.disk.gz, f))
      && (luck.copies ==> At(r.disk.gz, t) == Some(Whole(s.disk.plain[t])))
      && (luck.copies && luck.unlinks ==> t !in r.disk.plain)
      && (!luck.copies || !luck.unlinks ==> At(r.disk.plain, t) == Some(s.disk.plain[t]))
      && (!luck.copies ==> At(r.disk.gz, t) == if luck.cleans then None else Some(Partial))
  {
    var copying := WorkStep(s, luck);
    assert copying.job == Some(Job(t, Copying(s.disk.plain[t])));
    var ended := WorkStep(copying, luck);
    assert Drain(s, luck) == Drain(copying, luck) == Drain(ended, luck);
    if luck.copies {
      assert ended.job == Some(Job(t, Copied)) && Drain(ended, luck) == WorkStep(ended, luck);
    }
  }

  // --- The records of one date ---

  /** Only records of that date and steps of the worker. */
  predicate OfDate(events: seq<Event>, date: nat) {
    forall i :: 0 <= i < |events| ==> events[i].Work? || (events[i].Emit? && events[i].e.seen == date)
  }

  // The bytes of all the records, each with its newline.
  function Load(events: seq<Event>): nat {
    if events == [] then 0
    else Load(events[1..]) + if events[0].Emit? then |events[0].e.line| + 1 else 0
  }

  ghost predicate OnlyActiveGrew(s: State, r: State, lines: Lines) {
    && r.date == s.date && r.horizon == s.horizon
    && Slot(r.disk, File(s.date, 0)) == Slot(s.disk, File(s.date, 0)) + lines
    && forall f: File :: f.date >= s.horizon && f != File(s.date, 0) ==> Slot(r.disk, f) == Slot(s.disk, f)
  }

  lemma WorkOnlyCompresses(cfg: Config, s: State, luck: Luck)
    requires Inv(cfg, s) && s.date >= s.horizon && (luck.copies || luck.cleans)
    ensures OnlyActiveGrew(s, WorkStep(s, luck), []) && WorkStep(s, luck).bytes == s.bytes
  {
    WorkStepKeepsSlots(s, luck);
  }

  lemma SmallRecordOnlyAppends(cfg: Config, s: State, e: Emission)
    requires Inv(cfg, s) && s.date >= s.horizon && e.seen == s.date
    requires cfg.maxBytes <= 0 || s.bytes + |e.line| + 1 < cfg.maxBytes
    ensures OnlyActiveGrew(s, Apply(cfg, s, Emit(e)), Taken(Emit(e)))
  {
    SmallRecordStays(cfg, s, e);
  }

  lemma GrewTwice(s: State, r: State, q: State, first: Lines, second: Lines)
    requires OnlyActiveGrew(s, r, first) && OnlyActiveGrew(r, q, second)
    ensures OnlyActiveGrew(s, q, first + second)
  {
    Regroup(Slot(s.disk, File(s.date, 0)), first, second);
  }

  /** Records of one date that together stay below the limit, with any steps of the worker between them, are
      all found in the active file behind what it held; every backup still reads as before. */
  lemma {:induction false} SmallRecordsNeverShift(cfg: Config, s: State, events: seq<Event>)
    requires cfg.backupCount > 0 && Inv(cfg, s) && s.date >= s.horizon
    requires TimelyRun(cfg, s, events) && OfDate(events, s.date)
    requires cfg.maxBytes <= 0 || s.bytes + Load(events) < cfg.maxBytes
    ensures var r := Run(cfg, s, events);
      && OnlyActiveGrew(s, r, Accepted(events)) && Inv(cfg, r)
      && r.bytes == (if cfg.maxBytes > 0 then s.bytes + Load(events) else s.bytes)
    decreases |events|
  {
    if events != [] {
      var q := Apply(cfg, s, events[0]);
      ApplyKeepsInv(cfg, s, events[0]);
      match events[0] {
        case Work(luck) => WorkOnlyCompresses(cfg, s, luck);
        case Emit(e) => SmallRecordOnlyAppends(cfg, s, e);
      }
      SmallRecordsNeverShift(cfg, q, events[1..]);
      GrewTwice(s, q, Run(cfg, s, events), Taken(events[0]), Accepted(events[1..]));
    }
  }

  /** The active file is turned into a backup by the first record that makes the date's records reach the
      limit, and by none before it: slot 1 then holds what the active file held and all the earlier records. */
  lemma RotatesAtTheLimit(cfg: Config, s: State, events: seq<Event>, e: Emission)
    requires cfg.backupCount > 0 && cfg.maxBytes > 0 && Inv(cfg, s) && s.date >= s.horizon
    requires TimelyRun(cfg, s, events) && OfDate(events, s.date)
    requires e.seen == e.rolled == s.date && (e.luck.copies || e.luck.cleans) && e.swept == Swept({}, {})
    requires s.bytes + Load(events) < cfg.maxBytes <= s.bytes + Load(events) + |e.line| + 1
    ensures var r := Apply(cfg, Run(cfg, s, events), Emit(e));
      && r.bytes == 0 && Slot(r.disk, File(s.date, 0)) == (if e.writes then [e.line] else [])
      && Slot(r.disk, File(s.date, 1)) == Slot(s.disk, File(s.date, 0)) + Accepted(events)
      && forall i: nat :: 0 < i < cfg.backupCount ==>
           Slot(r.disk, File(s.date, i + 1)) == Slot(s.disk, File(s.date, i))
  {
    SmallRecordsNeverShift(cfg, s, events);
    var q := Run(cfg, s, events);
    BigRecordShifts(cfg, q, e);
    assert Slot(Apply(cfg, q, Emit(e)).disk, File(s.date, 0 + 1)) == Slot(q.disk, File(s.date, 0));
  }
}
