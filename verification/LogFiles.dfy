/** The part of a log directory that one rotating handler owns: for every date a base file (slot 0)
    and numbered backups (slots 1, 2, ...), each of them plain or gzip-compressed. */
module LogFiles {
  import opened Wrappers

  type Line = seq<bv8>   // one encoded record, without its newline
  type Lines = seq<Line>

  datatype File = File(date: nat, slot: nat)

  // An archive that is still being written is Partial; gzip keeps the lines of a complete one.
  datatype Archive = Partial | Whole(lines: Lines)

  datatype Disk = Disk(plain: map<File, Lines>, gz: map<File, Archive>)

  function ByteSize(lines: Lines): nat {
    if lines == [] then 0 else ByteSize(lines[..|lines| - 1]) + |lines[|lines| - 1]| + 1
  }

  lemma ByteSizeAppend(lines: Lines, line: Line)
    ensures ByteSize(lines + [line]) == ByteSize(lines) + |line| + 1
  {
    assert (lines + [line])[..|lines|] == lines;
  }

  /** What a reader finds in a slot: a complete archive, or else the plain file, or nothing. */
  function Read(plain: Option<Lines>, gz: Option<Archive>): Lines {
    if gz.Some? && gz.value.Whole? then gz.value.lines
    else if plain.Some? then plain.value
    else []
  }

  function Slot(disk: Disk, f: File): Lines {
    Read(At(disk.plain, f), At(disk.gz, f))
  }

  /** Everything still readable for a date: slots n, ..., 1 and then the base file. */
  function Kept(disk: Disk, date: nat, n: nat): Lines {
    Slot(disk, File(date, n)) + (if n == 0 then [] else Kept(disk, date, n - 1))
  }

  lemma {:induction false} KeptFrame(a: Disk, b: Disk, date: nat, n: nat)
    requires forall i: nat :: i <= n ==> Slot(a, File(date, i)) == Slot(b, File(date, i))
    ensures Kept(a, date, n) == Kept(b, date, n)
  {
    if n > 0 {
      KeptFrame(a, b, date, n - 1);
    }
  }

  lemma {:induction false} KeptShift(a: Disk, b: Disk, date: nat, n: nat)
    requires n > 0
    requires Slot(b, File(date, 0)) == []
    requires forall i: nat :: i < n ==> Slot(b, File(date, i + 1)) == Slot(a, File(date, i))
    ensures Kept(b, date, n) == Kept(a, date, n - 1)
  {
    if n > 1 {
      KeptShift(a, b, date, n - 1);
      assert Slot(b, File(date, n)) == Slot(a, File(date, n - 1));
    } else {
      assert Slot(b, File(date, 0 + 1)) == Slot(a, File(date, 0));
      assert Kept(b, date, 1) == Slot(b, File(date, 1)) + (Slot(b, File(date, 0)) + []);
    }
  }

  lemma {:induction false} KeptAppend(a: Disk, b: Disk, date: nat, n: nat, line: Line)
    requires Slot(b, File(date, 0)) == Slot(a, File(date, 0)) + [line]
    requires forall i: nat :: 0 < i <= n ==> Slot(b, File(date, i)) == Slot(a, File(date, i))
    ensures Kept(b, date, n) == Kept(a, date, n) + [line]
  {
    if n > 0 {
      KeptAppend(a, b, date, n - 1, line);
      assert Slot(a, File(date, n)) + (Kept(a, date, n - 1) + [line]) ==
        (Slot(a, File(date, n)) + Kept(a, date, n - 1)) + [line];
    }
  }

  // --- What one backup shift does, file by file ---

  /** A plain file survives in place only if its own slot also held an archive (the archive alone
      is renamed) and the slot is not the last one (which is unlinked in both forms). */
  function Leftover(disk: Disk, date: nat, n: nat, slot: nat): Option<Lines> {
    if n == 0 || (slot < n && File(date, slot) in disk.gz) then At(disk.plain, File(date, slot)) else None
  }

  function ShiftedGz(disk: Disk, date: nat, n: nat, f: File): Option<Archive> {
    if f.date != date || f.slot == 0 || f.slot > n then At(disk.gz, f)
    else if f.slot == 1 then None
    else At(disk.gz, File(date, f.slot - 1))
  }

  function ShiftedPlain(disk: Disk, date: nat, n: nat, f: File): Option<Lines> {
    if f.date != date || (f.slot > n && f.slot > 1) then At(disk.plain, f)
    else if f.slot == 0 then None
    else if f.slot == 1 && File(date, 0) in disk.plain then At(disk.plain, File(date, 0))
    else if f.slot > 1 && File(date, f.slot - 1) !in disk.gz && File(date, f.slot - 1) in disk.plain then
      At(disk.plain, File(date, f.slot - 1))
    else Leftover(disk, date, n, f.slot)
  }

  function Up(f: File): File {
    File(f.date, f.slot + 1)
  }

  /** The whole directory after a shift of `date` with n backup slots. */
  function Shift(disk: Disk, date: nat, n: nat): (r: Disk)
    ensures forall f: File :: At(r.plain, f) == ShiftedPlain(disk, date, n, f)
    ensures forall f: File :: At(r.gz, f) == ShiftedGz(disk, date, n, f)
  {
    var plainFiles := disk.plain.Keys + set f | f in disk.plain :: Up(f);
    var gzFiles := disk.gz.Keys + set f | f in disk.gz :: Up(f);
    ShiftStaysNear(disk, date, n);
    Disk(map f | f in plainFiles && ShiftedPlain(disk, date, n, f).Some? :: ShiftedPlain(disk, date, n, f).value,
         map f | f in gzFiles && ShiftedGz(disk, date, n, f).Some? :: ShiftedGz(disk, date, n, f).value)
  }

  lemma ShiftStaysNear(disk: Disk, date: nat, n: nat)
    ensures forall f: File :: ShiftedPlain(disk, date, n, f).Some? ==>
      f in disk.plain || exists g :: g in disk.plain && Up(g) == f
    ensures forall f: File :: ShiftedGz(disk, date, n, f).Some? ==>
      f in disk.gz || exists g :: g in disk.gz && Up(g) == f
  {
    forall f: File | ShiftedPlain(disk, date, n, f).Some? && f !in disk.plain
      ensures exists g :: g in disk.plain && Up(g) == f
    {
      assert Up(File(date, f.slot - 1)) == f;
    }
    forall f: File | ShiftedGz(disk, date, n, f).Some? && f !in disk.gz
      ensures exists g :: g in disk.gz && Up(g) == f
    {
      assert Up(File(date, f.slot - 1)) == f;
    }
  }
}
