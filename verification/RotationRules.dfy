/** The states of one rotating handler together with its background compression, what each event does
    to them, and what holds after any run of events. */
module RotationRules {
  import opened Wrappers
  import opened LogFiles

  datatype Config = Config(maxBytes: int, backupCount: nat, retentionDays: int, compress: bool)

  // A compression handed to the gzip worker. Once the source is open, its lines stay readable
  // through the open file even if the directory entry disappears.
  datatype Phase = Queued | Copying(lines: Lines) | Copied
  datatype Job = Job(target: File, phase: Phase)

  // How the file system treats one compression: whether the copy succeeds, whether a failed copy's
  // partial archive can be removed, and whether the source can be unlinked afterwards.
  datatype Luck = Luck(copies: bool, cleans: bool, unlinks: bool)

  /** `date`, `bytes`, `disk` and `job` are the program's state. The rest is history: every line
      accepted for a date, the latest retention cutoff, the size found when the handler started (zero
      after a rollover), the size of the record that caused the last rollover, and the bytes counted for
      records whose write failed since the active file was opened. */
  datatype State = State(disk: Disk, date: nat, bytes: nat, job: Option<Job>,
                         written: map<nat, Lines>, horizon: int, found: nat, trigger: nat, lost: nat)

  // Files that the cap on the total size, or anybody else, removes from the directory.
  datatype Swept = Swept(plain: set<File>, gz: set<File>)

  // One record: the date seen by the rollover test, by the rollover itself and by retention; what happens
  // to the compression it waits for; the files retention cannot unlink; what the size cap removes at the
  // end of the rollover; whether the write works.
  datatype Emission = Emission(line: Line, seen: nat, rolled: nat, now: nat,
                               luck: Luck, stuck: set<File>, swept: Swept, writes: bool)
  datatype Event = Emit(e: Emission) | Work(luck: Luck) | Delete(swept: Swept)

  function Base(s: State): File { File(s.date, 0) }

  function Written(s: State, date: nat): Lines {
    if date in s.written then s.written[date] else []
  }

  function Cost(line: Line): nat { |line| + 1 }

  // --- The gzip worker ---

  function WorkStep(s: State, luck: Luck): State {
    match s.job
    case None => s
    case Some(Job(t, Queued)) =>
      if t in s.disk.plain then
        s.(disk := s.disk.(gz := s.disk.gz[t := Partial]), job := Some(Job(t, Copying(s.disk.plain[t]))))
      else
        s.(disk := s.disk.(gz := s.disk.gz - {t}), job := None)
    case Some(Job(t, Copying(lines))) =>
      if luck.copies then
        s.(disk := s.disk.(gz := if t in s.disk.gz then s.disk.gz[t := Whole(lines)] else s.disk.gz),
           job := Some(Job(t, Copied)))
      else
        s.(disk := s.disk.(gz := if luck.cleans then s.disk.gz - {t} else s.disk.gz), job := None)
    case Some(Job(t, Copied)) =>
      s.(disk := s.disk.(plain := if luck.unlinks then s.disk.plain - {t} else s.disk.plain), job := None)
  }

  function Rank(s: State): nat {
    match s.job
    case None => 0
    case Some(Job(_, Copied)) => 1
    case Some(Job(_, Copying(_))) => 2
    case Some(Job(_, Queued)) => 3
  }

  /** Waiting for the pending compression: the worker runs until it has nothing left to do. */
  function Drain(s: State, luck: Luck): (r: State)
    ensures r.job == None
    decreases Rank(s)
  {
    if s.job.None? then s else Drain(WorkStep(s, luck), luck)
  }

  // --- The handler ---

  function Submit(cfg: Config, s: State, f: File): State {
    if cfg.compress then s.(job := Some(Job(f, Queued))) else s
  }

  /** Retention unlinks every file dated before the cutoff, except those whose unlink fails. */
  function RetainFiles<V>(files: map<File, V>, cutoff: int, stuck: set<File>): map<File, V> {
    map f | f in files && (f.date >= cutoff || f in stuck) :: files[f]
  }

  function Retain(disk: Disk, cutoff: int, stuck: set<File>): Disk {
    Disk(RetainFiles(disk.plain, cutoff, stuck), RetainFiles(disk.gz, cutoff, stuck))
  }

  function DateRoll(cfg: Config, s: State, e: Emission): State {
    var cutoff := e.now - cfg.retentionDays;
    var s1 := if Base(s) in s.disk.plain then Submit(cfg, s, Base(s)) else s;
    s1.(date := e.rolled, disk := Retain(s.disk, cutoff, e.stuck),
        horizon := if cutoff > s.horizon then cutoff else s.horizon)
  }

  function SizeRoll(cfg: Config, s: State): State {
    var s1 := s.(disk := Shift(s.disk, s.date, cfg.backupCount));
    if Base(s) in s.disk.plain then Submit(cfg, s1, File(s.date, 1)) else s1
  }

  /** Opening a file for appending creates it if it is missing. */
  function WithFile(disk: Disk, f: File): Disk {
    if f in disk.plain then disk else disk.(plain := disk.plain[f := []])
  }

  function Open(s: State, line: Line): State {
    s.(disk := WithFile(s.disk, Base(s)),
       bytes := 0, found := 0, trigger := Cost(line), lost := 0)
  }

  /** The active file is never removed. */
  function SweepDisk(disk: Disk, date: nat, swept: Swept): Disk {
    Disk(disk.plain - (swept.plain - {File(date, 0)}), disk.gz - swept.gz)
  }

  function Sweep(s: State, swept: Swept): State {
    s.(disk := SweepDisk(s.disk, s.date, swept))
  }

  function Reopen(cfg: Config, s: State, e: Emission): State {
    Open(if e.rolled != s.date then DateRoll(cfg, s, e) else SizeRoll(cfg, s), e.line)
  }

  function Roll(cfg: Config, s: State, e: Emission): State {
    Sweep(Reopen(cfg, Drain(s, e.luck), e), e.swept)
  }

  predicate NeedsRoll(cfg: Config, s: State, line: Line, seen: nat) {
    seen != s.date || (cfg.maxBytes > 0 && s.bytes + Cost(line) >= cfg.maxBytes)
  }

  function Count(cfg: Config, s: State, line: Line): State {
    if cfg.maxBytes > 0 then s.(bytes := s.bytes + Cost(line)) else s
  }

  function Write(s: State, line: Line, ok: bool): State {
    var before := if Base(s) in s.disk.plain then s.disk.plain[Base(s)] else [];
    if ok then
      s.(disk := s.disk.(plain := s.disk.plain[Base(s) := before + [line]]),
         written := s.written[s.date := Written(s, s.date) + [line]])
    else s.(lost := s.lost + Cost(line))
  }

  function Apply(cfg: Config, s: State, event: Event): State {
    match event
    case Work(luck) => WorkStep(s, luck)
    case Delete(swept) => Sweep(s, swept)
    case Emit(e) =>
      Write(if NeedsRoll(cfg, s, e.line, e.seen) then Roll(cfg, s, e) else Count(cfg, s, e.line), e.line, e.writes)
  }

  function Run(cfg: Config, s: State, events: seq<Event>): State
    decreases |events|
  {
    if events == [] then s else Run(cfg, Apply(cfg, s, events[0]), events[1..])
  }

  predicate Expired(s: State, swept: Swept) {
    forall f :: f in swept.plain + swept.gz ==> f.date < s.horizon
  }

  /** The clock never runs backwards, a partial archive left by a failed copy can be removed, and the size
      cap removes nothing that retention would keep. */
  predicate Timely(s: State, event: Event) {
    match event
    case Work(luck) => luck.copies || luck.cleans
    case Delete(swept) => Expired(s, swept)
    case Emit(e) => s.date <= e.seen <= e.rolled <= e.now && (e.luck.copies || e.luck.cleans) && Expired(s, e.swept)
  }

  predicate TimelyRun(cfg: Config, s: State, events: seq<Event>)
    decreases |events|
  {
    events == [] || (Timely(s, events[0]) && TimelyRun(cfg, Apply(cfg, s, events[0]), events[1..]))
  }

  // --- The invariant ---

  ghost predicate Tidy(s: State) {
    && (forall f :: f in s.disk.plain ==> f.date <= s.date)
    && (forall f :: f in s.disk.gz ==> f.date <= s.date)
    && Base(s) in s.disk.plain && Base(s) !in s.disk.gz
  }

  /** Only slots 0 and 1 may hold both forms, and then the archive is unfinished or has the same lines. */
  ghost predicate OneForm(disk: Disk, f: File) {
    f in disk.plain && f in disk.gz ==> f.slot <= 1 && (disk.gz[f].Partial? || disk.gz[f].lines == disk.plain[f])
  }

  ghost predicate UnderWay(s: State, f: File) {
    s.job.Some? && s.job.value.target == f && s.job.value.phase.Copying?
  }

  ghost predicate WellFormed(s: State) {
    forall f: File :: f.date >= s.horizon ==>
      OneForm(s.disk, f) && (f in s.disk.gz && s.disk.gz[f].Partial? ==> UnderWay(s, f))
  }

  ghost predicate PhaseOk(disk: Disk, t: File, phase: Phase)
    requires t in disk.plain
  {
    match phase
    case Queued => t !in disk.gz
    case Copying(lines) => t in disk.gz && disk.gz[t] == Partial && lines == disk.plain[t]
    case Copied => t in disk.gz && disk.gz[t] == Whole(disk.plain[t])
  }

  ghost predicate JobOk(s: State) {
    s.job.Some? ==>
      var t := s.job.value.target;
      && t.slot <= 1 && t.date <= s.date && t != Base(s)
      && (t.date >= s.horizon ==> t in s.disk.plain && PhaseOk(s.disk, t, s.job.value.phase))
  }

  ghost predicate NothingLost(cfg: Config, s: State) {
    forall d: nat :: d >= s.horizon ==> IsSuffix(Kept(s.disk, d, cfg.backupCount), Written(s, d))
  }

  ghost predicate Sized(cfg: Config, s: State) {
    cfg.maxBytes > 0 ==>
      && Base(s) in s.disk.plain
      && ByteSize(s.disk.plain[Base(s)]) + s.lost == s.bytes + s.trigger
      && (s.bytes < cfg.maxBytes || s.bytes == s.found)
      && (s.found == 0 || s.trigger == 0)
  }

  ghost predicate Sound(cfg: Config, s: State) {
    Tidy(s) && WellFormed(s) && JobOk(s) && NothingLost(cfg, s)
  }

  ghost predicate Inv(cfg: Config, s: State) {
    Sound(cfg, s) && Sized(cfg, s)
  }

  /** A handler just started on a directory left by earlier runs. */
  ghost predicate Start(cfg: Config, s: State) {
    && Tidy(s) && s.job == None && s.trigger == 0 && s.lost == 0
    && s.bytes == s.found == ByteSize(s.disk.plain[Base(s)])
    && (forall f: File :: f.date >= s.horizon ==> OneForm(s.disk, f) && (f in s.disk.gz ==> s.disk.gz[f].Whole?))
    && (forall d: nat :: d >= s.horizon ==> Written(s, d) == Kept(s.disk, d, cfg.backupCount))
  }

  // --- The worker never changes what a reader finds ---

  lemma WorkStepKeepsSlots(s: State, luck: Luck)
    requires WellFormed(s) && JobOk(s)
    requires luck.copies || luck.cleans
    ensures WellFormed(WorkStep(s, luck)) && JobOk(WorkStep(s, luck))
    ensures forall f: File :: f.date >= s.horizon ==> Slot(WorkStep(s, luck).disk, f) == Slot(s.disk, f)
  {
    forall f: File | f.date >= s.horizon
      ensures OneForm(WorkStep(s, luck).disk, f)
      ensures f in WorkStep(s, luck).disk.gz && WorkStep(s, luck).disk.gz[f].Partial? ==> UnderWay(WorkStep(s, luck), f)
      ensures Slot(WorkStep(s, luck).disk, f) == Slot(s.disk, f)
    {
      if s.job.Some? && s.job.value.target == f {
        WorkStepOnTarget(s, luck, f);
      } else {
        WorkStepElsewhere(s, luck, f);
      }
    }
    WorkStepKeepsJob(s, luck);
  }

  lemma WorkStepOnTarget(s: State, luck: Luck, f: File)
    requires s.job.Some? && s.job.value.target == f && f.date >= s.horizon && JobOk(s) && OneForm(s.disk, f)
    requires luck.copies || luck.cleans
    ensures var s' := WorkStep(s, luck);
      && OneForm(s'.disk, f) && Slot(s'.disk, f) == Slot(s.disk, f)
      && (f in s'.disk.gz && s'.disk.gz[f].Partial? ==> UnderWay(s', f))
  {
  }

  lemma WorkStepElsewhere(s: State, luck: Luck, f: File)
    requires s.job.Some? ==> s.job.value.target != f
    requires OneForm(s.disk, f) && (f in s.disk.gz && s.disk.gz[f].Partial? ==> UnderWay(s, f))
    ensures var s' := WorkStep(s, luck);
      && OneForm(s'.disk, f) && Slot(s'.disk, f) == Slot(s.disk, f)
      && (f in s'.disk.gz ==> s'.disk.gz[f].Whole?)
  {
  }

  lemma WorkStepKeepsJob(s: State, luck: Luck)
    requires JobOk(s)
    ensures JobOk(WorkStep(s, luck))
  {
  }

  lemma WorkStepKeepsInv(cfg: Config, s: State, luck: Luck)
    requires Inv(cfg, s)
    requires luck.copies || luck.cleans
    ensures Inv(cfg, WorkStep(s, luck))
  {
    WorkStepKeepsSlots(s, luck);
    WorkStepLeavesBase(s, luck);
    SameSlotsLoseNothing(cfg, s, WorkStep(s, luck));
  }

  lemma WorkStepLeavesBase(s: State, luck: Luck)
    requires Tidy(s) && JobOk(s)
    ensures var s' := WorkStep(s, luck);
      Tidy(s') && s'.disk.plain[Base(s)] == s.disk.plain[Base(s)] && s' == s.(disk := s'.disk, job := s'.job)
  {
  }

  lemma SameSlotsLoseNothing(cfg: Config, s: State, s': State)
    requires NothingLost(cfg, s) && s'.written == s.written && s'.horizon == s.horizon
    requires forall f: File :: f.date >= s.horizon ==> Slot(s'.disk, f) == Slot(s.disk, f)
    ensures NothingLost(cfg, s')
  {
    forall d: nat | d >= s.horizon
      ensures IsSuffix(Kept(s'.disk, d, cfg.backupCount), Written(s', d))
    {
      KeptFrame(s.disk, s'.disk, d, cfg.backupCount);
    }
  }

  lemma {:induction false} DrainKeepsInv(cfg: Config, s: State, luck: Luck)
    requires Inv(cfg, s)
    requires luck.copies || luck.cleans
    ensures Inv(cfg, Drain(s, luck))
    ensures Drain(s, luck).date == s.date && Drain(s, luck).written == s.written && Drain(s, luck).horizon == s.horizon
    ensures forall f: File :: f.date >= s.horizon ==> Slot(Drain(s, luck).disk, f) == Slot(s.disk, f)
    decreases Rank(s)
  {
    if s.job.Some? {
      WorkStepKeepsInv(cfg, s, luck);
      WorkStepKeepsSlots(s, luck);
      DrainKeepsInv(cfg, WorkStep(s, luck), luck);
    }
  }

  // --- A size rollover drops the oldest slot and nothing else ---

  lemma ShiftMovesSlots(s: State, n: nat)
    requires n > 0 && s.job == None && s.date >= s.horizon
    requires Tidy(s) && WellFormed(s)
    ensures Slot(Shift(s.disk, s.date, n), Base(s)) == []
    ensures forall i: nat :: i < n ==>
      Slot(Shift(s.disk, s.date, n), File(s.date, i + 1)) == Slot(s.disk, File(s.date, i))
  {
    ShiftAt(s.disk, s.date, n, Base(s));
    forall i: nat | i < n
      ensures Slot(Shift(s.disk, s.date, n), File(s.date, i + 1)) == Slot(s.disk, File(s.date, i))
    {
      assert OneForm(s.disk, File(s.date, i)) && OneForm(s.disk, File(s.date, i + 1));
      ShiftAt(s.disk, s.date, n, File(s.date, i + 1));
      SlotMoves(s.disk, Shift(s.disk, s.date, n), s.date, n, i);
    }
  }

  ghost predicate ShiftedThere(disk: Disk, r: Disk, date: nat, n: nat, f: File) {
    At(r.plain, f) == ShiftedPlain(disk, date, n, f) && At(r.gz, f) == ShiftedGz(disk, date, n, f)
  }

  lemma ShiftAt(disk: Disk, date: nat, n: nat, f: File)
    ensures ShiftedThere(disk, Shift(disk, date, n), date, n, f)
  {
  }

  /** One slot: whichever forms it and the next one hold, a reader finds its lines in the next one. */
  lemma SlotMoves(disk: Disk, r: Disk, date: nat, n: nat, i: nat)
    requires i < n && File(date, 0) in disk.plain && File(date, 0) !in disk.gz
    requires OneForm(disk, File(date, i)) && OneForm(disk, File(date, i + 1))
    requires File(date, i) in disk.gz ==> disk.gz[File(date, i)].Whole?
    requires ShiftedThere(disk, r, date, n, File(date, i + 1))
    ensures Slot(r, File(date, i + 1)) == Slot(disk, File(date, i))
  {
  }

  lemma SizeRollDropsOldest(cfg: Config, s: State)
    requires cfg.backupCount > 0 && s.job == None && s.date >= s.horizon
    requires Tidy(s) && WellFormed(s)
    ensures Kept(s.disk, s.date, cfg.backupCount) ==
            Slot(s.disk, File(s.date, cfg.backupCount)) + Kept(SizeRoll(cfg, s).disk, s.date, cfg.backupCount)
    ensures Kept(SizeRoll(cfg, s).disk, s.date, cfg.backupCount) == Kept(s.disk, s.date, cfg.backupCount - 1)
  {
    ShiftMovesSlots(s, cfg.backupCount);
    KeptShift(s.disk, SizeRoll(cfg, s).disk, s.date, cfg.backupCount);
  }

  lemma ShiftLeavesOthers(s: State, n: nat, f: File)
    requires n > 0
    requires f.date != s.date || f.slot > n
    ensures Slot(Shift(s.disk, s.date, n), f) == Slot(s.disk, f)
    ensures At(Shift(s.disk, s.date, n).plain, f) == At(s.disk.plain, f)
    ensures At(Shift(s.disk, s.date, n).gz, f) == At(s.disk.gz, f)
  {
    ShiftAt(s.disk, s.date, n, f);
  }

  lemma SizeRollWellFormed(cfg: Config, s: State, line: Line)
    requires cfg.backupCount > 0 && s.job == None
    requires Tidy(s) && WellFormed(s)
    ensures var r := Open(SizeRoll(cfg, s), line); Tidy(r) && WellFormed(r) && JobOk(r)
  {
    var n := cfg.backupCount;
    var d := Shift(s.disk, s.date, n);
    ShiftAt(s.disk, s.date, n, Base(s));
    ShiftAt(s.disk, s.date, n, File(s.date, 1));
    forall f: File
      ensures f in d.plain || f in d.gz ==> f.date <= s.date
      ensures f.date >= s.horizon ==> OneForm(d, f) && (f in d.gz ==> d.gz[f].Whole?)
    {
      ShiftAt(s.disk, s.date, n, f);
      ShiftedDates(s.disk, d, s.date, n, f);
      if f.date >= s.horizon {
        OneFormNear(s, f);
        ShiftedOneForm(s.disk, d, s.date, n, f);
      }
    }
    ReopenedWellFormed(cfg, s, d, line);
  }

  lemma ReopenedWellFormed(cfg: Config, s: State, d: Disk, line: Line)
    requires s.job == None && d == Shift(s.disk, s.date, cfg.backupCount)
    requires forall f: File :: f in d.plain || f in d.gz ==> f.date <= s.date
    requires forall f: File :: f.date >= s.horizon ==> OneForm(d, f) && (f in d.gz ==> d.gz[f].Whole?)
    requires Base(s) !in d.plain && Base(s) !in d.gz && File(s.date, 1) !in d.gz && File(s.date, 1) in d.plain
    ensures var r := Open(SizeRoll(cfg, s), line); Tidy(r) && WellFormed(r) && JobOk(r)
  {
    var r := Open(SizeRoll(cfg, s), line);
    assert r.disk == Disk(d.plain[Base(s) := []], d.gz);
    forall f: File | f.date >= r.horizon
      ensures OneForm(r.disk, f) && (f in r.disk.gz ==> r.disk.gz[f].Whole?)
    {
      assert OneForm(d, f);
    }
  }

  lemma OneFormNear(s: State, f: File)
    requires WellFormed(s) && s.job == None && f.date >= s.horizon
    ensures OneForm(s.disk, f) && (f in s.disk.gz ==> s.disk.gz[f].Whole?)
    ensures f.slot > 0 ==>
      var prev := File(f.date, f.slot - 1); OneForm(s.disk, prev) && (prev in s.disk.gz ==> s.disk.gz[prev].Whole?)
  {
    if f.slot > 0 {
      assert OneForm(s.disk, File(f.date, f.slot - 1));
    }
  }

  lemma ShiftedOneForm(disk: Disk, r: Disk, date: nat, n: nat, f: File)
    requires n > 0 && File(date, 0) !in disk.gz
    requires OneForm(disk, f) && (f in disk.gz ==> disk.gz[f].Whole?)
    requires f.slot > 0 ==>
      var prev := File(f.date, f.slot - 1); OneForm(disk, prev) && (prev in disk.gz ==> disk.gz[prev].Whole?)
    requires ShiftedThere(disk, r, date, n, f)
    ensures OneForm(r, f) && (f in r.gz ==> r.gz[f].Whole?)
  {
  }

  lemma ShiftedDates(disk: Disk, r: Disk, date: nat, n: nat, f: File)
    requires forall g :: g in disk.plain || g in disk.gz ==> g.date <= date
    requires ShiftedThere(disk, r, date, n, f)
    ensures f in r.plain || f in r.gz ==> f.date <= date
  {
  }

  lemma OtherDatesStay(s: State, n: nat, d: nat)
    requires n > 0 && d != s.date
    ensures Kept(Shift(s.disk, s.date, n), d, n) == Kept(s.disk, d, n)
  {
    forall i: nat | i <= n
      ensures Slot(s.disk, File(d, i)) == Slot(Shift(s.disk, s.date, n), File(d, i))
    {
      ShiftLeavesOthers(s, n, File(d, i));
    }
    KeptFrame(s.disk, Shift(s.disk, s.date, n), d, n);
  }

  lemma SizeRollKeeps(cfg: Config, s: State, d: nat)
    requires cfg.backupCount > 0 && s.job == None && d >= s.horizon
    requires Sound(cfg, s)
    ensures IsSuffix(Kept(SizeRoll(cfg, s).disk, d, cfg.backupCount), Written(s, d))
  {
    if d == s.date {
      SizeRollDropsOldest(cfg, s);
      SuffixOfSuffix(Slot(s.disk, File(d, cfg.backupCount)), Kept(SizeRoll(cfg, s).disk, d, cfg.backupCount),
        Written(s, d));
    } else {
      OtherDatesStay(s, cfg.backupCount, d);
    }
  }

  lemma OpenKeepsNothingLost(cfg: Config, s: State, line: Line)
    requires Base(s) !in s.disk.gz && NothingLost(cfg, s)
    ensures NothingLost(cfg, Open(s, line))
  {
    var r := Open(s, line);
    forall d: nat | d >= s.horizon
      ensures IsSuffix(Kept(r.disk, d, cfg.backupCount), Written(r, d))
    {
      KeptFrame(s.disk, r.disk, d, cfg.backupCount);
    }
  }

  lemma SizeRollIsSound(cfg: Config, s: State, line: Line)
    requires cfg.backupCount > 0 && s.job == None
    requires Sound(cfg, s)
    ensures Sound(cfg, Open(SizeRoll(cfg, s), line))
  {
    SizeRollWellFormed(cfg, s, line);
    assert NothingLost(cfg, SizeRoll(cfg, s)) by {
      forall d: nat | d >= s.horizon
        ensures IsSuffix(Kept(SizeRoll(cfg, s).disk, d, cfg.backupCount), Written(s, d))
      {
        SizeRollKeeps(cfg, s, d);
      }
    }
    OpenKeepsNothingLost(cfg, SizeRoll(cfg, s), line);
  }

  // --- A date rollover keeps every date inside the retention horizon ---

  lemma DateRollIsSound(cfg: Config, s: State, e: Emission)
    requires s.job == None && s.date < e.rolled
    requires Sound(cfg, s)
    ensures Sound(cfg, Open(DateRoll(cfg, s, e), e.line))
  {
    var r := Open(DateRoll(cfg, s, e), e.line);
    assert Base(r) !in s.disk.plain && Base(r) !in s.disk.gz;
    forall f: File | f.date >= r.horizon
      ensures OneForm(r.disk, f) && (f in r.disk.gz ==> r.disk.gz[f].Whole?)
      ensures Slot(r.disk, f) == Slot(s.disk, f)
    {
      assert OneForm(s.disk, f);
    }
    forall d: nat | d >= r.horizon
      ensures IsSuffix(Kept(r.disk, d, cfg.backupCount), Written(r, d))
    {
      KeptFrame(s.disk, r.disk, d, cfg.backupCount);
    }
  }

  // --- Writing ---

  lemma WriteKeepsLines(cfg: Config, s: State, line: Line, d: nat)
    requires Sound(cfg, s) && d >= s.horizon
    ensures IsSuffix(Kept(Write(s, line, true).disk, d, cfg.backupCount), Written(Write(s, line, true), d))
  {
    var r := Write(s, line, true);
    assert IsSuffix(Kept(s.disk, d, cfg.backupCount), Written(s, d));
    if d == s.date {
      KeptAppend(s.disk, r.disk, d, cfg.backupCount, line);
    } else {
      KeptFrame(s.disk, r.disk, d, cfg.backupCount);
    }
  }

  lemma WriteIsSound(cfg: Config, s: State, line: Line)
    requires Sound(cfg, s)
    ensures Sound(cfg, Write(s, line, true))
  {
    var r := Write(s, line, true);
    forall f: File | f.date >= s.horizon
      ensures OneForm(r.disk, f)
    {
      assert OneForm(s.disk, f);
    }
    forall d: nat | d >= s.horizon
      ensures IsSuffix(Kept(r.disk, d, cfg.backupCount), Written(r, d))
    {
      WriteKeepsLines(cfg, s, line, d);
    }
  }

  lemma WriteKeepsInv(cfg: Config, s: State, line: Line, ok: bool)
    requires Sound(cfg, s)
    requires cfg.maxBytes > 0 ==>
      && ByteSize(s.disk.plain[Base(s)]) + s.lost + Cost(line) == s.bytes + s.trigger
      && (s.bytes < cfg.maxBytes || s.bytes == s.found)
      && (s.found == 0 || s.trigger == 0)
    ensures Inv(cfg, Write(s, line, ok))
  {
    if ok {
      ByteSizeAppend(s.disk.plain[Base(s)], line);
      WriteIsSound(cfg, s, line);
    }
  }

  // --- Whole runs ---

  lemma ApplyKeepsInv(cfg: Config, s: State, event: Event)
    requires cfg.backupCount > 0
    requires Inv(cfg, s) && Timely(s, event)
    ensures Inv(cfg, Apply(cfg, s, event))
  {
    match event
    case Work(luck) => WorkStepKeepsInv(cfg, s, luck);
    case Delete(swept) => SweepIsSound(cfg, s, swept);
    case Emit(e) =>
      if NeedsRoll(cfg, s, e.line, e.seen) {
        RollIsSound(cfg, s, e);
        WriteKeepsInv(cfg, Roll(cfg, s, e), e.line, e.writes);
      } else {
        WriteKeepsInv(cfg, Count(cfg, s, e.line), e.line, e.writes);
      }
  }

  lemma SweepIsSound(cfg: Config, s: State, swept: Swept)
    requires Sound(cfg, s) && Expired(s, swept)
    ensures Sound(cfg, Sweep(s, swept)) && Sweep(s, swept).disk.plain[Base(s)] == s.disk.plain[Base(s)]
  {
    var r := Sweep(s, swept);
    forall f: File | f.date >= s.horizon
      ensures At(r.disk.plain, f) == At(s.disk.plain, f) && At(r.disk.gz, f) == At(s.disk.gz, f)
      ensures Slot(r.disk, f) == Slot(s.disk, f) && OneForm(r.disk, f)
    {
      assert OneForm(s.disk, f);
    }
    SameSlotsLoseNothing(cfg, s, r);
  }

  lemma RollIsSound(cfg: Config, s: State, e: Emission)
    requires cfg.backupCount > 0
    requires Inv(cfg, s) && Timely(s, Emit(e))
    ensures var r := Roll(cfg, s, e);
      Sound(cfg, r) && r.disk.plain[Base(r)] == [] && r.bytes == r.found == r.lost == 0 && r.trigger == Cost(e.line)
  {
    var s0 := Drain(s, e.luck);
    DrainKeepsInv(cfg, s, e.luck);
    if e.rolled != s.date {
      DateRollIsSound(cfg, s0, e);
    } else {
      SizeRollIsSound(cfg, s0, e.line);
    }
    OpenStartsEmpty(cfg, s0, e);
    SweepIsSound(cfg, Reopen(cfg, s0, e), e.swept);
  }

  /** A rollover opens an empty file and counts from zero. */
  lemma OpenStartsEmpty(cfg: Config, s: State, e: Emission)
    requires cfg.backupCount > 0 && s.job == None && s.date <= e.rolled
    requires Tidy(s)
    ensures var r := Reopen(cfg, s, e);
      && Base(r) in r.disk.plain && r.disk.plain[Base(r)] == []
      && r.bytes == r.found == r.lost == 0 && r.trigger == Cost(e.line)
  {
    assert At(Shift(s.disk, s.date, cfg.backupCount).plain, Base(s)) == None;
  }

  /** After any run, for every date inside the retention horizon, what is still readable is the most
      recent part of what was written, and the directory is well formed. */
  lemma {:induction false} RunKeepsInv(cfg: Config, s: State, events: seq<Event>)
    requires cfg.backupCount > 0
    requires Inv(cfg, s) && TimelyRun(cfg, s, events)
    ensures Inv(cfg, Run(cfg, s, events))
    decreases |events|
  {
    if events != [] {
      ApplyKeepsInv(cfg, s, events[0]);
      RunKeepsInv(cfg, Apply(cfg, s, events[0]), events[1..]);
    }
  }

  lemma StartHasInv(cfg: Config, s: State)
    requires Start(cfg, s)
    ensures Inv(cfg, s)
  {
  }

  // --- What a run means for a reader of the directory ---

  function Taken(event: Event): Lines {
    if event.Emit? && event.e.writes then [event.e.line] else []
  }

  function Accepted(events: seq<Event>): Lines
    decreases |events|
  {
    if events == [] then [] else Taken(events[0]) + Accepted(events[1..])
  }

  lemma ApplyWrites(cfg: Config, s: State, event: Event)
    requires Timely(s, event)
    ensures Apply(cfg, s, event).date >= s.date
    ensures Apply(cfg, s, event).date == s.date ==>
      Written(Apply(cfg, s, event), s.date) == Written(s, s.date) + Taken(event)
  {
    match event
    case Work(luck) =>
    case Delete(swept) =>
    case Emit(e) => RollWritesNothing(cfg, s, e);
  }

  lemma RollWritesNothing(cfg: Config, s: State, e: Emission)
    ensures Roll(cfg, s, e).written == s.written
    ensures Roll(cfg, s, e).date == e.rolled
  {
    DrainWritesNothing(s, e.luck);
  }

  lemma {:induction false} RunWrites(cfg: Config, s: State, events: seq<Event>)
    requires TimelyRun(cfg, s, events)
    ensures Run(cfg, s, events).date >= s.date
    ensures Run(cfg, s, events).date == s.date ==>
      Written(Run(cfg, s, events), s.date) == Written(s, s.date) + Accepted(events)
    decreases |events|
  {
    if events != [] {
      ApplyWrites(cfg, s, events[0]);
      RunWrites(cfg, Apply(cfg, s, events[0]), events[1..]);
      Regroup(Written(s, s.date), Taken(events[0]), Accepted(events[1..]));
    }
  }

  lemma {:induction false} DrainWritesNothing(s: State, luck: Luck)
    ensures Drain(s, luck).date == s.date && Drain(s, luck).written == s.written
    decreases Rank(s)
  {
    if s.job.Some? {
      DrainWritesNothing(WorkStep(s, luck), luck);
    }
  }

  /** During a day, the numbered backups from the oldest to the newest followed by the active file
      always read as a suffix of what was there at the start followed by every accepted record. */
  lemma RotationKeepsSuffix(cfg: Config, s: State, events: seq<Event>)
    requires cfg.backupCount > 0
    requires Start(cfg, s) && TimelyRun(cfg, s, events)
    requires Run(cfg, s, events).date == s.date && s.date >= s.horizon && s.date >= Run(cfg, s, events).horizon
    ensures IsSuffix(Kept(Run(cfg, s, events).disk, s.date, cfg.backupCount),
                     Kept(s.disk, s.date, cfg.backupCount) + Accepted(events))
  {
    StartHasInv(cfg, s);
    RunKeepsInv(cfg, s, events);
    RunWrites(cfg, s, events);
  }

  /** The active file holds exactly what is counted plus the record that caused the last rollover (less
      what failed to be written), so it stays below the limit plus that one record. */
  lemma ActiveFileBound(cfg: Config, s: State, events: seq<Event>)
    requires cfg.backupCount > 0 && cfg.maxBytes > 0
    requires Start(cfg, s) && TimelyRun(cfg, s, events)
    ensures var r := Run(cfg, s, events);
      && Base(r) in r.disk.plain
      && ByteSize(r.disk.plain[Base(r)]) + r.lost == r.bytes + r.trigger
      && (r.trigger > 0 || s.found < cfg.maxBytes ==> ByteSize(r.disk.plain[Base(r)]) < cfg.maxBytes + r.trigger)
  {
    StartHasInv(cfg, s);
    RunKeepsInv(cfg, s, events);
    RunFound(cfg, s, events);
  }

  lemma {:induction false} RunFound(cfg: Config, s: State, events: seq<Event>)
    ensures Run(cfg, s, events).found == s.found || Run(cfg, s, events).found == 0
    decreases |events|
  {
    if events != [] {
      if events[0].Emit? && !NeedsRoll(cfg, s, events[0].e.line, events[0].e.seen) {
        assert Apply(cfg, s, events[0]).found == s.found;
      }
      RunFound(cfg, Apply(cfg, s, events[0]), events[1..]);
    }
  }

  // --- No compression ever costs a finished archive ---

  /** Nothing is asked of luck, of retention or of what gets deleted: only that the clock does not run backwards. */
  predicate Clocked(s: State, event: Event) {
    event.Emit? ==> s.date <= event.e.seen <= event.e.rolled
  }

  predicate ClockedRun(cfg: Config, s: State, events: seq<Event>)
    decreases |events|
  {
    events == [] || (Clocked(s, events[0]) && ClockedRun(cfg, Apply(cfg, s, events[0]), events[1..]))
  }

  /** No archive is in the way of a compression: a queued one finds none at its target, and one under way
      only its own. The source may be gone at any time. */
  ghost predicate TargetIsFree(disk: Disk, job: Job) {
    match job.phase
    case Queued => job.target !in disk.gz
    case Copying(_) => job.target in disk.gz ==> disk.gz[job.target] == Partial
    case Copied => true
  }

  ghost predicate ArchivesSafe(s: State) {
    && Base(s) !in s.disk.gz
    && (forall f :: f in s.disk.gz ==> f.date <= s.date)
    && (s.job.Some? ==>
          s.job.value.target.date <= s.date && s.job.value.target != Base(s) && TargetIsFree(s.disk, s.job.value))
  }

  ghost predicate KeepsArchives(a: Disk, b: Disk) {
    forall f :: f in a.gz && a.gz[f].Whole? ==> f in b.gz && b.gz[f] == a.gz[f]
  }

  lemma WorkStepIsSafe(s: State, luck: Luck)
    requires ArchivesSafe(s)
    ensures ArchivesSafe(WorkStep(s, luck)) && KeepsArchives(s.disk, WorkStep(s, luck).disk)
  {
  }

  lemma {:induction false} DrainIsSafe(s: State, luck: Luck)
    requires ArchivesSafe(s)
    ensures ArchivesSafe(Drain(s, luck)) && KeepsArchives(s.disk, Drain(s, luck).disk)
    ensures Drain(s, luck).date == s.date
    decreases Rank(s)
  {
    if s.job.Some? {
      WorkStepIsSafe(s, luck);
      DrainIsSafe(WorkStep(s, luck), luck);
    }
  }

  /** A shift moves every archive of the date up by one slot, drops the last, and leaves slot 1 free. */
  lemma ShiftedArchives(disk: Disk, date: nat, n: nat, f: File)
    requires n > 0
    ensures At(Shift(disk, date, n).gz, File(date, 1)) == None
    ensures f in Shift(disk, date, n).gz && f !in disk.gz ==> f.date == date && f.slot > 1
    ensures f in disk.gz && f.date == date && 0 < f.slot < n ==> At(Shift(disk, date, n).gz, Up(f)) == Some(disk.gz[f])
    ensures f in disk.gz && (f.date != date || f.slot == 0 || f.slot > n) ==>
      At(Shift(disk, date, n).gz, f) == Some(disk.gz[f])
  {
    ShiftAt(disk, date, n, File(date, 1));
    ShiftAt(disk, date, n, f);
    ShiftAt(disk, date, n, Up(f));
  }

  lemma ReopenIsSafe(cfg: Config, s: State, e: Emission)
    requires cfg.backupCount > 0 && s.job == None && s.date <= e.rolled
    requires ArchivesSafe(s)
    ensures ArchivesSafe(Reopen(cfg, s, e))
  {
    if e.rolled == s.date {
      forall f
        ensures f in Shift(s.disk, s.date, cfg.backupCount).gz ==> f.date <= s.date && f != Base(s)
      {
        ShiftedArchives(s.disk, s.date, cfg.backupCount, f);
      }
      ShiftedArchives(s.disk, s.date, cfg.backupCount, Base(s));
    }
  }

  lemma ApplyIsSafe(cfg: Config, s: State, event: Event)
    requires cfg.backupCount > 0
    requires ArchivesSafe(s) && Clocked(s, event)
    ensures ArchivesSafe(Apply(cfg, s, event))
  {
    match event
    case Work(luck) => WorkStepIsSafe(s, luck);
    case Delete(swept) =>
    case Emit(e) =>
      if NeedsRoll(cfg, s, e.line, e.seen) {
        DrainIsSafe(s, e.luck);
        ReopenIsSafe(cfg, Drain(s, e.luck), e);
      }
  }

  lemma {:induction false} RunIsSafe(cfg: Config, s: State, events: seq<Event>)
    requires cfg.backupCount > 0
    requires ArchivesSafe(s) && ClockedRun(cfg, s, events)
    ensures ArchivesSafe(Run(cfg, s, events))
    decreases |events|
  {
    if events != [] {
      ApplyIsSafe(cfg, s, events[0]);
      RunIsSafe(cfg, Apply(cfg, s, events[0]), events[1..]);
    }
  }

  /** After any run, whatever was deleted and whenever, no step of the worker removes or changes a finished
      archive, not even when its source is gone before it was opened; nor does waiting for it. And a copy that
      succeeds finishes its archive, if that is still there. */
  lemma WorkerNeverCostsAnArchive(cfg: Config, s: State, events: seq<Event>, luck: Luck)
    requires cfg.backupCount > 0
    requires Tidy(s) && s.job == None && ClockedRun(cfg, s, events)
    ensures var r := Run(cfg, s, events);
      && KeepsArchives(r.disk, WorkStep(r, luck).disk)
      && KeepsArchives(r.disk, Drain(r, luck).disk)
      && (r.job.Some? && r.job.value.phase.Copying? && r.job.value.target in r.disk.gz && luck.copies ==>
            WorkStep(r, luck).disk.gz[r.job.value.target] == Whole(r.job.value.phase.lines))
  {
    RunIsSafe(cfg, s, events);
    WorkStepIsSafe(Run(cfg, s, events), luck);
    DrainIsSafe(Run(cfg, s, events), luck);
  }

  /** The ways in which a finished archive leaves the directory. */
  predicate Disposes(cfg: Config, s: State, event: Event, f: File) {
    match event
    case Work(_) => false
    case Delete(swept) => f in swept.gz
    case Emit(e) =>
      && NeedsRoll(cfg, s, e.line, e.seen)
      && if e.rolled != s.date then f.date < e.now - cfg.retentionDays || f in e.swept.gz
         else f == File(s.date, cfg.backupCount) || f in e.swept.gz || Up(f) in e.swept.gz
  }

  /** Whatever happens, a finished archive stays in its slot or moves up by one, unless it is in the last slot
      of a size rollover, too old for retention, or deleted by the size cap or from outside. */
  lemma ArchivesAreDisposedOnPurpose(cfg: Config, s: State, event: Event, f: File)
    requires cfg.backupCount > 0
    requires ArchivesSafe(s) && Clocked(s, event)
    requires f in s.disk.gz && s.disk.gz[f].Whole? && !Disposes(cfg, s, event, f)
    ensures var r := Apply(cfg, s, event).disk;
      At(r.gz, f) == Some(s.disk.gz[f]) || At(r.gz, Up(f)) == Some(s.disk.gz[f])
  {
    match event
    case Work(luck) => WorkStepIsSafe(s, luck);
    case Delete(swept) =>
    case Emit(e) =>
      if NeedsRoll(cfg, s, e.line, e.seen) {
        DrainIsSafe(s, e.luck);
        RollMovesArchive(cfg, Drain(s, e.luck), e, f);
      }
  }

  lemma RollMovesArchive(cfg: Config, s: State, e: Emission, f: File)
    requires cfg.backupCount > 0 && f in s.disk.gz && f != Base(s) && f.date <= s.date <= e.rolled
    requires if e.rolled != s.date then f.date >= e.now - cfg.retentionDays else f != File(s.date, cfg.backupCount)
    ensures var r := Reopen(cfg, s, e).disk;
      At(r.gz, f) == Some(s.disk.gz[f]) || (e.rolled == s.date && At(r.gz, Up(f)) == Some(s.disk.gz[f]))
  {
    if e.rolled == s.date {
      ShiftedArchives(s.disk, s.date, cfg.backupCount, f);
    }
  }

  // --- When the partial archive of a failed copy cannot be removed ---

  lemma {:induction false} KeptShiftWithGap(a: Disk, b: Disk, date: nat, n: nat)
    requires n > 0
    requires Slot(b, File(date, 0)) == []
    requires forall i: nat :: i < n && i != 1 ==> Slot(b, File(date, i + 1)) == Slot(a, File(date, i))
    requires Slot(b, File(date, 2)) == []
    ensures |Kept(b, date, n)| + (if n > 1 then |Slot(a, File(date, 1))| else 0) == |Kept(a, date, n - 1)|
  {
    if n > 1 {
      KeptShiftWithGap(a, b, date, n - 1);
      assert n - 1 != 1 ==> Slot(b, File(date, (n - 1) + 1)) == Slot(a, File(date, n - 1));
    } else {
      assert Slot(b, File(date, 0 + 1)) == Slot(a, File(date, 0));
      assert Kept(b, date, 1) == Slot(b, File(date, 1)) + (Slot(b, File(date, 0)) + []);
    }
  }

  /** One slot of a shift with a partial archive in slot 1: slot 2 becomes unreadable, the others move. */
  lemma StuckSlot(disk: Disk, r: Disk, date: nat, n: nat, i: nat)
    requires i < n && File(date, 0) in disk.plain && File(date, 0) !in disk.gz
    requires OneForm(disk, File(date, i)) && OneForm(disk, File(date, i + 1))
    requires i == 1 ==> File(date, 1) in disk.gz && disk.gz[File(date, 1)].Partial?
    requires i != 1 && File(date, i) in disk.gz ==> disk.gz[File(date, i)].Whole?
    requires ShiftedThere(disk, r, date, n, File(date, i + 1))
    ensures Slot(r, File(date, i + 1)) == if i == 1 then [] else Slot(disk, File(date, i))
  {
  }

  /** Within the horizon slot 1 holds the only partial archive. */
  ghost predicate PartialInSlot1(s: State) {
    forall f: File :: f.date >= s.horizon ==>
      OneForm(s.disk, f) && (f in s.disk.gz && s.disk.gz[f].Partial? <==> f == File(s.date, 1))
  }

  lemma StuckSlots(s: State, n: nat)
    requires n > 0 && s.date >= s.horizon && Base(s) in s.disk.plain && Base(s) !in s.disk.gz
    requires PartialInSlot1(s)
    ensures Slot(Shift(s.disk, s.date, n), Base(s)) == []
    ensures forall i: nat :: i < n ==>
      Slot(Shift(s.disk, s.date, n), File(s.date, i + 1)) == if i == 1 then [] else Slot(s.disk, File(s.date, i))
  {
    ShiftAt(s.disk, s.date, n, Base(s));
    forall i: nat | i < n
      ensures Slot(Shift(s.disk, s.date, n), File(s.date, i + 1)) ==
        if i == 1 then [] else Slot(s.disk, File(s.date, i))
    {
      assert OneForm(s.disk, File(s.date, i)) && OneForm(s.disk, File(s.date, i + 1));
      ShiftAt(s.disk, s.date, n, File(s.date, i + 1));
      StuckSlot(s.disk, Shift(s.disk, s.date, n), s.date, n, i);
    }
  }

  lemma EmptySlot1Moves(a: Disk, b: Disk, date: nat, n: nat)
    requires n > 0 && (n == 1 || Slot(a, File(date, 1)) == []) && Slot(b, File(date, 0)) == []
    requires forall i: nat :: i < n ==> Slot(b, File(date, i + 1)) == if i == 1 then [] else Slot(a, File(date, i))
    ensures Kept(b, date, n) == Kept(a, date, n - 1)
  {
    forall i: nat | i < n
      ensures Slot(b, File(date, i + 1)) == Slot(a, File(date, i))
    {
    }
    KeptShift(a, b, date, n);
  }

  lemma FullSlot1IsLost(a: Disk, b: Disk, date: nat, n: nat)
    requires n > 1 && Slot(a, File(date, 1)) != [] && Slot(b, File(date, 0)) == []
    requires forall i: nat :: i < n ==> Slot(b, File(date, i + 1)) == if i == 1 then [] else Slot(a, File(date, i))
    ensures Kept(b, date, n) != Kept(a, date, n - 1)
  {
    assert Slot(b, File(date, 1 + 1)) == [];
    KeptShiftWithGap(a, b, date, n);
  }

  lemma PartialShift(a: Disk, b: Disk, date: nat, n: nat)
    requires n > 0 && Slot(b, File(date, 0)) == []
    requires forall i: nat :: i < n ==> Slot(b, File(date, i + 1)) == if i == 1 then [] else Slot(a, File(date, i))
    ensures Kept(b, date, n) == Kept(a, date, n - 1) <==> n == 1 || Slot(a, File(date, 1)) == []
  {
    if n == 1 || Slot(a, File(date, 1)) == [] {
      EmptySlot1Moves(a, b, date, n);
    } else {
      FullSlot1IsLost(a, b, date, n);
    }
  }

  /** With a partial archive in slot 1, however it got there, a shift drops the last slot and nothing else
      exactly if slot 1 is the last or reads as empty. */
  lemma PartialInSlot1Loses(cfg: Config, s: State)
    requires cfg.backupCount > 0 && s.date >= s.horizon && Base(s) in s.disk.plain && Base(s) !in s.disk.gz
    requires PartialInSlot1(s)
    ensures Kept(SizeRoll(cfg, s).disk, s.date, cfg.backupCount) == Kept(s.disk, s.date, cfg.backupCount - 1)
      <==> cfg.backupCount == 1 || Slot(s.disk, File(s.date, 1)) == []
  {
    StuckSlots(s, cfg.backupCount);
    PartialShift(s.disk, SizeRoll(cfg, s).disk, s.date, cfg.backupCount);
  }

  lemma FailedCopyStaysBehind(s: State, lines: Lines, luck: Luck)
    requires Tidy(s) && WellFormed(s) && JobOk(s) && s.date >= s.horizon
    requires s.job == Some(Job(File(s.date, 1), Copying(lines))) && !luck.copies && !luck.cleans
    ensures WorkStep(s, luck).disk == s.disk && Slot(s.disk, File(s.date, 1)) == lines
    ensures PartialInSlot1(s)
  {
    forall f: File | f.date >= s.horizon
      ensures OneForm(s.disk, f) && (f in s.disk.gz && s.disk.gz[f].Partial? <==> f == File(s.date, 1))
    {
      assert OneForm(s.disk, f);
    }
  }

  /** A failed copy whose partial archive stays behind costs the newest backup at the next shift,
      unless that backup is the one the shift drops anyway or is empty. */
  lemma StuckPartialLoses(cfg: Config, s: State, lines: Lines, luck: Luck)
    requires cfg.backupCount > 0 && s.date >= s.horizon
    requires Inv(cfg, s) && s.job == Some(Job(File(s.date, 1), Copying(lines)))
    requires !luck.copies
    ensures var failed := WorkStep(s, luck);
      Kept(SizeRoll(cfg, failed).disk, s.date, cfg.backupCount) == Kept(failed.disk, s.date, cfg.backupCount - 1)
      <==> luck.cleans || cfg.backupCount == 1 || lines == []
  {
    var failed := WorkStep(s, luck);
    if luck.cleans {
      WorkStepKeepsInv(cfg, s, luck);
      SizeRollDropsOldest(cfg, failed);
    } else {
      FailedCopyStaysBehind(s, lines, luck);
      PartialInSlot1Loses(cfg, failed);
    }
  }

  // --- A run in which that happens ---

  // The handler starts with one archived backup and a line in the active file. The limit is two lines.
  function StuckStart(z: Line, a: Line): State {
    var disk := Disk(map[File(0, 0) := [a]], map[File(0, 1) := Whole([z])]);
    State(disk, 0, Cost(a), None, map[0 := [z, a]], 0, Cost(a), 0, 0)
  }

  function StuckConfig(a: Line): Config { Config(2 * Cost(a), 3, 7, true) }

  function Plainly(line: Line): Event {
    Emit(Emission(line, 0, 0, 0, Luck(true, true, true), {}, Swept({}, {}), true))
  }

  /** The second line rolls over; the compression of the backup is opened, fails, and cannot clean up; the
      third line fits, and the fourth rolls over again. */
  function StuckEvents(b: Line, c: Line, d: Line): seq<Event> {
    [Plainly(b), Work(Luck(true, true, true)), Work(Luck(false, false, true)), Plainly(c), Plainly(d)]
  }

  // The slots of day 0, in both forms.
  datatype View = View(p0: Option<Lines>, p1: Option<Lines>, p2: Option<Lines>, p3: Option<Lines>,
                       g0: Option<Archive>, g1: Option<Archive>, g2: Option<Archive>, g3: Option<Archive>)

  function Look(disk: Disk): View {
    View(At(disk.plain, File(0, 0)), At(disk.plain, File(0, 1)), At(disk.plain, File(0, 2)), At(disk.plain, File(0, 3)),
         At(disk.gz, File(0, 0)), At(disk.gz, File(0, 1)), At(disk.gz, File(0, 2)), At(disk.gz, File(0, 3)))
  }

  lemma LookShift(disk: Disk)
    requires Look(disk).p0.Some? && Look(disk).p2 == Look(disk).p3 == None
    ensures var v := Look(disk);
      Look(Shift(disk, 0, 3)) == View(None, v.p0, if v.g1.None? then v.p1 else None, None, v.g0, None, v.g1, v.g2)
  {
    ShiftAt(disk, 0, 3, File(0, 0));
    ShiftAt(disk, 0, 3, File(0, 1));
    ShiftAt(disk, 0, 3, File(0, 2));
    ShiftAt(disk, 0, 3, File(0, 3));
  }

  /** A rollover on day 0 by a plain record with no compression pending. */
  lemma PlainRoll(cfg: Config, s: State, line: Line)
    requires cfg.backupCount == 3 && cfg.compress && s.date == 0 && s.job == None && NeedsRoll(cfg, s, line, 0)
    requires Look(s.disk).p0.Some? && Look(s.disk).p2 == Look(s.disk).p3 == None
    ensures var r, v := Apply(cfg, s, Plainly(line)), Look(s.disk);
      && Look(r.disk) == View(Some([line]), v.p0, if v.g1.None? then v.p1 else None, None, v.g0, None, v.g1, v.g2)
      && r.date == 0 && r.bytes == 0 && r.job == Some(Job(File(0, 1), Queued))
      && Written(r, 0) == Written(s, 0) + [line]
  {
    LookShift(s.disk);
    assert Base(s) in s.disk.plain;
    var q := Reopen(cfg, s, Plainly(line).e);
    assert Look(q.disk) == Look(Shift(s.disk, 0, 3)).(p0 := Some([]));
    var w := Sweep(q, Swept({}, {}));
    assert Look(w.disk) == Look(q.disk);
    assert Drain(s, Plainly(line).e.luck) == s && Roll(cfg, s, Plainly(line).e) == w;
    assert Apply(cfg, s, Plainly(line)) == Write(w, line, true);
    LookWrite(w, line);
    assert [] + [line] == [line];
  }

  lemma LookWrite(s: State, line: Line)
    requires s.date == 0 && Look(s.disk).p0.Some?
    ensures Look(Write(s, line, true).disk) == Look(s.disk).(p0 := Some(Look(s.disk).p0.value + [line]))
    ensures Written(Write(s, line, true), 0) == Written(s, 0) + [line]
  {
  }

  /** Opening the source of the compression in slot 1, and failing without removing the partial archive. */
  lemma StuckWork(cfg: Config, s: State)
    requires s.date == 0 && s.job == Some(Job(File(0, 1), Queued)) && Look(s.disk).p1.Some?
    ensures var r := Apply(cfg, Apply(cfg, s, Work(Luck(true, true, true))), Work(Luck(false, false, true)));
      Look(r.disk) == Look(s.disk).(g1 := Some(Partial)) && r == s.(disk := r.disk, job := None)
  {
  }

  lemma StuckRun(z: Line, a: Line, b: Line, c: Line, d: Line)
    requires |z| == |a| == |b| == |c| == |d|
    ensures var r := Run(StuckConfig(a), StuckStart(z, a), StuckEvents(b, c, d));
      && Look(r.disk) == View(Some([d]), Some([b, c]), None, None, None, None, Some(Partial), Some(Whole([z])))
      && Written(r, 0) == [z, a, b, c, d]
  {
    var cfg, s0 := StuckConfig(a), StuckStart(z, a);
    LookStart(z, a);
    StuckFirstHalf(cfg, s0, b);
    StuckSecondHalf(cfg, StuckHalfway(cfg, s0, b), c, d);
    FiveLines(z, a, b, c, d);
    StuckRunUnrolled(cfg, s0, b, c, d);
  }

  lemma LookStart(z: Line, a: Line)
    ensures Look(StuckStart(z, a).disk) == View(Some([a]), None, None, None, None, Some(Whole([z])), None, None)
    ensures Written(StuckStart(z, a), 0) == [z, a]
  {
  }

  lemma FiveLines(z: Line, a: Line, b: Line, c: Line, d: Line)
    ensures [z, a] + [b] + [c] + [d] == [z, a, b, c, d] && [b] + [c] == [b, c]
  {
  }

  function StuckHalfway(cfg: Config, s: State, b: Line): State {
    Apply(cfg, Apply(cfg, Apply(cfg, s, Plainly(b)), Work(Luck(true, true, true))), Work(Luck(false, false, true)))
  }

  lemma StuckFirstHalf(cfg: Config, s: State, b: Line)
    requires cfg.backupCount == 3 && cfg.compress && s.date == 0 && s.job == None && NeedsRoll(cfg, s, b, 0)
    requires Look(s.disk).p0.Some? && Look(s.disk).p2 == Look(s.disk).p3 == None && Look(s.disk).g1.Some?
    ensures var r, v := StuckHalfway(cfg, s, b), Look(s.disk);
      && Look(r.disk) == View(Some([b]), v.p0, None, None, v.g0, Some(Partial), v.g1, v.g2)
      && r.date == 0 && r.bytes == 0 && r.job == None && Written(r, 0) == Written(s, 0) + [b]
  {
    PlainRoll(cfg, s, b);
    StuckWork(cfg, Apply(cfg, s, Plainly(b)));
  }

  lemma StuckSecondHalf(cfg: Config, s: State, c: Line, d: Line)
    requires cfg.backupCount == 3 && cfg.compress && s.date == 0 && s.bytes == 0 && s.job == None
    requires Cost(c) < cfg.maxBytes <= Cost(c) + Cost(d)
    requires Look(s.disk).p0.Some? && Look(s.disk).p2 == Look(s.disk).p3 == None && Look(s.disk).g1.Some?
    ensures var r, v := Apply(cfg, Apply(cfg, s, Plainly(c)), Plainly(d)), Look(s.disk);
      && Look(r.disk) == View(Some([d]), Some(v.p0.value + [c]), None, None, v.g0, None, v.g1, v.g2)
      && Written(r, 0) == Written(s, 0) + [c] + [d]
  {
    LookWrite(Count(cfg, s, c), c);
    var s1 := Apply(cfg, s, Plainly(c));
    assert s1 == Write(Count(cfg, s, c), c, true);
    PlainRoll(cfg, s1, d);
  }

  lemma StuckRunUnrolled(cfg: Config, s: State, b: Line, c: Line, d: Line)
    ensures Run(cfg, s, StuckEvents(b, c, d)) ==
      Apply(cfg, Apply(cfg, StuckHalfway(cfg, s, b), Plainly(c)), Plainly(d))
  {
    var e1, e2, e3 := Plainly(b), Work(Luck(true, true, true)), Work(Luck(false, false, true));
    var e4, e5 := Plainly(c), Plainly(d);
    var s1 := Apply(cfg, s, e1);
    var s2 := Apply(cfg, s1, e2);
    var s3 := Apply(cfg, s2, e3);
    assert StuckEvents(b, c, d) == [e1] + ([e2] + ([e3] + ([e4] + ([e5] + []))));
    RunFirst(cfg, s, e1, [e2] + ([e3] + ([e4] + ([e5] + []))));
    RunFirst(cfg, s1, e2, [e3] + ([e4] + ([e5] + [])));
    RunFirst(cfg, s2, e3, [e4] + ([e5] + []));
    RunFirst(cfg, s3, e4, [e5] + []);
    RunFirst(cfg, Apply(cfg, s3, e4), e5, []);
  }

  lemma RunFirst(cfg: Config, s: State, first: Event, rest: seq<Event>)
    ensures Run(cfg, s, [first] + rest) == Run(cfg, Apply(cfg, s, first), rest)
  {
    assert ([first] + rest)[1..] == rest;
  }

  lemma {:induction false} EmptyDay(disk: Disk, d: nat, n: nat)
    requires forall f :: f in disk.plain || f in disk.gz ==> f.date != d
    ensures Kept(disk, d, n) == []
  {
    if n > 0 {
      EmptyDay(disk, d, n - 1);
    }
  }

  lemma StuckStartKept(z: Line, a: Line)
    ensures Kept(StuckStart(z, a).disk, 0, 3) == [z, a]
  {
    var disk := StuckStart(z, a).disk;
    LookStart(z, a);
    ReadSlots(disk, [], [], [z], [a]);
  }

  lemma ReadSlots(disk: Disk, s3: Lines, s2: Lines, s1: Lines, s0: Lines)
    requires Slot(disk, File(0, 3)) == s3 && Slot(disk, File(0, 2)) == s2
    requires Slot(disk, File(0, 1)) == s1 && Slot(disk, File(0, 0)) == s0
    ensures Kept(disk, 0, 3) == s3 + (s2 + (s1 + s0))
  {
    assert Kept(disk, 0, 0) == s0 + [] == s0;
    assert Kept(disk, 0, 1) == s1 + s0;
    assert Kept(disk, 0, 2) == s2 + (s1 + s0);
  }

  lemma StuckStarts(z: Line, a: Line)
    ensures Start(StuckConfig(a), StuckStart(z, a))
  {
    var s := StuckStart(z, a);
    ByteSizeAppend([], a);
    assert [] + [a] == [a];
    StuckStartKept(z, a);
    forall d: nat | d != 0
      ensures Written(s, d) == Kept(s.disk, d, 3)
    {
      EmptyDay(s.disk, d, 3);
    }
  }

  /** From a proper start, with lines of one length and a limit of two lines: in the end an older backup is
      readable and a newer one is not. */
  lemma StuckPartialBreaksSuffix(z: Line, a: Line, b: Line, c: Line, d: Line)
    requires |z| == |a| == |b| == |c| == |d| && a != z
    ensures var cfg, s := StuckConfig(a), StuckStart(z, a);
      var r := Run(cfg, s, StuckEvents(b, c, d));
      && Start(cfg, s)
      && Kept(r.disk, 0, 3) == [z, b, c, d] && Written(r, 0) == [z, a, b, c, d]
      && !IsSuffix(Kept(r.disk, 0, 3), Written(r, 0))
  {
    StuckStarts(z, a);
    StuckRun(z, a, b, c, d);
    var disk := Run(StuckConfig(a), StuckStart(z, a), StuckEvents(b, c, d)).disk;
    ReadView(disk, z, b, c, d);
    assert [z, a, b, c, d][1..][0] == a;
  }

  lemma ReadView(disk: Disk, z: Line, b: Line, c: Line, d: Line)
    requires Look(disk) == View(Some([d]), Some([b, c]), None, None, None, None, Some(Partial), Some(Whole([z])))
    ensures Kept(disk, 0, 3) == [z, b, c, d]
  {
    var v := Look(disk);
    assert v.g0 == None && v.g1 == None && v.g2 == Some(Partial) && v.g3 == Some(Whole([z]));
    assert v.p0 == Some([d]) && v.p1 == Some([b, c]) && v.p2 == None;
    ReadSlots(disk, [z], [], [b, c], [d]);
    assert [z] + ([] + ([b, c] + [d])) == [z, b, c, d];
  }
}
