/** The rotating writer as it runs: renames and removals on a file system, one at a time. */
module RotatingWriter {
  import opened Basics
  import opened RotationDisk
  import opened RotationModel
  import opened Msgpack
  import opened Sequences

  class FileSystem {
    var files: Disk

    constructor (files: Disk)
      ensures this.files == files
    {
      this.files := files;
    }

    /** Does nothing when there is no such file. */
    method Remove(n: Name)
      modifies this
      ensures files == old(files) - {n}
    {
      files := files - {n};
    }

    /** Replaces to; fails, changing nothing, when there is no file from. */
    method Rename(from: Name, to: Name) returns (ok: bool)
      requires from != to
      modifies this
      ensures ok <==> from in old(files)
      ensures files == Renamed(old(files), from, to)
    {
      ok := from in files;
      if ok {
        files := files[to := files[from]] - {from};
      }
    }

    /** Opens for appending, creating an empty file if need be, and says how long it is. */
    method OpenAppend(n: Name, now: int) returns (size: nat)
      modifies this
      ensures files == old(files)[n := if n in old(files) then old(files)[n] else File([], now)]
      ensures size == Length(files[n].chunks)
    {
      if n !in files {
        files := files[n := File([], now)];
      }
      size := Length(files[n].chunks);
    }

    method Append(n: Name, p: Bytes, now: int)
      requires n in files
      modifies this
      ensures files == old(files)[n := Appended(old(files)[n], p, now)]
    {
      files := files[n := Appended(files[n], p, now)];
    }

    /** Copies from to a compressed file with the same contents once unpacked. */
    method Gzip(from: Name, to: Name, now: int)
      requires from in files
      modifies this
      ensures files == old(files)[to := File(old(files)[from].chunks, now)]
    {
      files := files[to := File(files[from].chunks, now)];
    }
  }

  /** Slots above i + 1 hold what was one slot below, slot i + 1 is empty, the rest is as it was. */
  ghost predicate ShiftedAbove(c: FileConfig, start: Disk, d: Disk, i: nat) {
    && At(d, Backup(c, i + 1)) == None
    && (forall j :: i + 1 < j <= c.maxBackups ==> At(d, Backup(c, j)) == At(start, Backup(c, j - 1)))
    && (forall j :: 1 <= j <= i ==> At(d, Backup(c, j)) == At(start, Backup(c, j)))
    && (forall n :: !(1 <= SlotNumber(c, n) <= c.maxBackups) ==> At(d, n) == At(start, n))
  }

  function Renamed(d: Disk, from: Name, to: Name): Disk {
    if from in d then d[to := d[from]] - {from} else d
  }

  lemma RenamedAt(d: Disk, from: Name, to: Name, n: Name)
    requires from != to
    ensures At(Renamed(d, from, to), n) ==
            if from !in d then At(d, n) else if n == from then None else if n == to then At(d, from) else At(d, n)
  {}

  lemma ShiftOne(c: FileConfig, start: Disk, d: Disk, i: nat)
    requires 1 <= i < c.maxBackups && ShiftedAbove(c, start, d, i)
    ensures ShiftedAbove(c, start, Renamed(d, Backup(c, i), Backup(c, i + 1)), i - 1)
  {
    var d' := Renamed(d, Backup(c, i), Backup(c, i + 1));
    hide Renamed;
    forall n
      ensures At(d', n) == if Backup(c, i) !in d then At(d, n) else if n == Backup(c, i) then None
                           else if n == Backup(c, i + 1) then At(d, Backup(c, i)) else At(d, n)
    {
      RenamedAt(d, Backup(c, i), Backup(c, i + 1), n);
    }
  }

  /** What the shift of the backups leaves at the name n. */
  function ShiftedUp(c: FileConfig, d: Disk, n: Name): Option<File> {
    if 1 < SlotNumber(c, n) <= c.maxBackups then At(d, Backup(c, SlotNumber(c, n) - 1))
    else if SlotNumber(c, n) == 1 && c.maxBackups > 0 then None
    else At(d, n)
  }

  /** What moving the log to the first backup leaves at the name n. */
  function LiveMoved(c: FileConfig, d: Disk, n: Name, now: int): Option<File>
    requires Live in d
  {
    if n == Live || (c.compress && n == Plain(1)) then None
    else if n == Backup(c, 1) then Some(Moved(c, d[Live], now))
    else At(d, n)
  }

  lemma ShiftedAndMoved(c: FileConfig, d: Disk, shifted: Disk, now: int, moved: Disk)
    requires Live in d && Live in shifted && shifted[Live] == d[Live]
    requires forall n :: At(shifted, n) == ShiftedUp(c, d, n)
    requires forall n :: At(moved, n) == LiveMoved(c, shifted, n, now)
    ensures forall n :: At(moved, n) == if n == Live then None else MovedTo(c, d, n, now)
  {
    forall n
      ensures At(moved, n) == if n == Live then None else MovedTo(c, d, n, now)
    {
      assert At(shifted, n) == ShiftedUp(c, d, n) && At(moved, n) == LiveMoved(c, shifted, n, now);
    }
  }

  lemma AppendedWrites(c: FileConfig, d: Disk, mid: Disk, w: Write, d': Disk)
    requires Live in d && Live in mid && d' == mid[Live := Appended(mid[Live], w.data, w.now)]
    requires if Full(c, d[Live], w.data) then Rotates(c, d, w.now, mid) else mid == d
    ensures Writes(c, d, w, d')
  {
    hide MovedTo, PruneOne, Length;
    if Full(c, d[Live], w.data) {
      assert At(mid, Live) == Some(File([], w.now));
      forall n | n != Live
        ensures At(d', n) == PruneOne(c, MovedTo(c, d, n, w.now), w.now)
      {
        assert At(d', n) == At(mid, n);
      }
    }
  }

  class RotatingWriter {
    const cfg: FileConfig
    const fs: FileSystem
    var size: nat
    ghost var rotations: nat

    /** Between calls the log exists and its length is known. */
    ghost predicate Valid()
      reads this, fs
    {
      Live in fs.files && size == Length(fs.files[Live].chunks)
    }

    ghost function View(): Shelf
      requires Live in fs.files
      reads this, fs
    {
      ShelfOn(cfg, fs.files, rotations)
    }

    /** The limit on the size is given in units of 2^20 bytes. */
    constructor (maxSizeMB: int, maxBackups: int, maxAgeDays: int, compress: bool, fs: FileSystem, now: int)
      modifies fs
      ensures cfg == FileConfig(0x10_0000 * maxSizeMB, maxBackups, maxAgeDays, compress)
      ensures this.fs == fs && Valid() && rotations == 0
      ensures fs.files == old(fs.files)[Live := if Live in old(fs.files) then old(fs.files)[Live] else File([], now)]
    {
      this.cfg, this.fs := FileConfig(maxSizeMB * 1024 * 1024, maxBackups, maxAgeDays, compress), fs;
      rotations, size := 0, 0;
      new;
      size := fs.OpenAppend(Live, now);
    }

    method Open(now: int)
      modifies this`size, fs
      ensures Valid()
      ensures fs.files == old(fs.files)[Live := if Live in old(fs.files) then old(fs.files)[Live] else File([], now)]
    {
      size := fs.OpenAppend(Live, now);
    }

    /** One write: what it does to every name on the disk, and so to the files as values. */
    method Write(p: Bytes, now: int) returns (n: nat)
      requires Valid()
      modifies this`size, this`rotations, fs
      ensures Valid() && n == |p|
      ensures Writes(cfg, old(fs.files), RotationModel.Write.Write(p, now), fs.files)
      ensures View() == Written(cfg, old(View()), p, now)
    {
      if cfg.maxBytes > 0 && size > 0 && size + |p| > cfg.maxBytes {
        Rotate(now);
      }
      ghost var w, mid := RotationModel.Write.Write(p, now), fs.files;
      LengthAppend(mid[Live].chunks, p);
      fs.Append(Live, p, now);
      n := |p|;
      size := size + n;
      AppendedWrites(cfg, old(fs.files), mid, w, fs.files);
      hide Writes, Rotates, Rotated, Written;
      WritesShelf(cfg, old(fs.files), w, fs.files, old(rotations));
    }

    method Rotate(now: int)
      requires Valid()
      modifies this`size, this`rotations, fs
      ensures Valid() && rotations == old(rotations) + 1
      ensures Rotates(cfg, old(fs.files), now, fs.files)
      ensures View() == Rotated(cfg, old(View()), now)
    {
      ghost var start := fs.files;
      ShiftBackups();
      ghost var shifted := fs.files;
      assert At(shifted, Live) == At(start, Live);
      MoveLive(now);
      ghost var moved := fs.files;
      ShiftedAndMoved(cfg, start, shifted, now, moved);
      PruneAge(now);
      assert At(fs.files, Live) == None;
      Open(now);
      rotations := rotations + 1;
      RotatesShelf(cfg, start, now, fs.files, old(rotations));
    }

    /** Makes the log the first backup; compressing goes by way of the uncompressed name. */
    method MoveLive(now: int)
      requires Live in fs.files
      modifies fs
      ensures forall n :: At(fs.files, n) == LiveMoved(cfg, old(fs.files), n, now)
    {
      if cfg.compress {
        var ok := fs.Rename(Live, Plain(1));
        if ok {
          fs.Gzip(Plain(1), Backup(cfg, 1), now);
          fs.Remove(Plain(1));
        }
      } else {
        var _ := fs.Rename(Live, Backup(cfg, 1));
      }
    }

    /** Renaming from the highest slot down moves every backup up by one, as if at once. */
    method ShiftBackups()
      modifies fs
      ensures forall n :: At(fs.files, n) == ShiftedUp(cfg, old(fs.files), n)
    {
      if cfg.maxBackups > 0 {
        fs.Remove(Backup(cfg, cfg.maxBackups));
        var i := cfg.maxBackups - 1;
        while i >= 1
          invariant 0 <= i < cfg.maxBackups
          invariant ShiftedAbove(cfg, old(fs.files), fs.files, i)
        {
          ShiftOne(cfg, old(fs.files), fs.files, i);
          var _ := fs.Rename(Backup(cfg, i), Backup(cfg, i + 1));
          i := i - 1;
        }
        forall n
          ensures At(fs.files, n) == ShiftedUp(cfg, old(fs.files), n)
        {
          assert 1 <= SlotNumber(cfg, n) ==> n == Backup(cfg, SlotNumber(cfg, n));
        }
      }
    }

    /** Removes every backup file, of either kind, last written before the cutoff: more than the given
        number of days, of 86400 seconds, ago. */
    method PruneAge(now: int)
      modifies fs
      ensures forall n ::
                var f := old(At(fs.files, n));
                At(fs.files, n) == if n != Live && f.Some? && cfg.maxAgeDays > 0
                                      && now - f.value.mtime > 86400 * cfg.maxAgeDays then None else f
      ensures forall n ::
                At(fs.files, n) == if n == Live then old(At(fs.files, n)) else PruneOne(cfg, old(At(fs.files, n)), now)
    {
      if cfg.maxAgeDays <= 0 {
        return;
      }
      var cutoff := now - cfg.maxAgeDays * DAY;
      var entries := fs.files.Keys;
      while entries != {}
        invariant entries <= old(fs.files.Keys)
        invariant forall n :: n in entries ==> At(fs.files, n) == old(At(fs.files, n))
        invariant forall n :: n !in entries ==>
                    At(fs.files, n) == if n == Live then old(At(fs.files, n))
                        else PruneOne(cfg, old(At(fs.files, n)), now)
        decreases entries
      {
        var e :| e in entries;
        entries := entries - {e};
        if e == Live {
          continue;
        }
        if fs.files[e].mtime < cutoff {
          fs.Remove(e);
        }
      }
    }
  }
}
