/** Rotation on the disk: what one write does to every name, and what runs of writes leave. */
module RotationDisk {
  import opened Basics
  import opened RotationModel
  import opened Msgpack
  import opened Sequences

  /** The names next to the log: the log itself, name.i and name.i.gz. */
  datatype Name = Live | Plain(i: nat) | Gz(i: nat)

  type Disk = map<Name, File>

  function At(d: Disk, n: Name): Option<File> {
    if n in d then Some(d[n]) else None
  }

  function Backup(c: FileConfig, i: nat): Name {
    if c.compress then Gz(i) else Plain(i)
  }

  /** Which numbered backup n is, 0 when it is none. */
  function SlotNumber(c: FileConfig, n: Name): nat {
    match n
    case Live => 0
    case Plain(i) => if c.compress then 0 else i
    case Gz(i) => if c.compress then i else 0
  }

  /** What rotation moves to the name n: the log to the first backup, an uncompressed first backup
      away when compressing, and the backups within the limit up by one. */
  function MovedTo(c: FileConfig, d: Disk, n: Name, now: int): Option<File>
    requires Live in d
  {
    if n == Backup(c, 1) then Some(Moved(c, d[Live], now))
    else if c.compress && n == Plain(1) then None
    else if 1 < SlotNumber(c, n) <= c.maxBackups then At(d, Backup(c, SlotNumber(c, n) - 1))
    else At(d, n)
  }

  /** d' is what rotation makes of d, name by name. */
  ghost predicate Rotates(c: FileConfig, d: Disk, now: int, d': Disk)
    requires Live in d
  {
    forall n :: At(d', n) == if n == Live then Some(File([], now)) else PruneOne(c, MovedTo(c, d, n, now), now)
  }

  /** d' is what a write makes of d, name by name. */
  ghost predicate Writes(c: FileConfig, d: Disk, w: Write, d': Disk)
    requires Live in d
  {
    if Full(c, d[Live], w.data) then
      forall n :: At(d', n) == if n == Live then Some(Appended(File([], w.now), w.data, w.now))
                               else PruneOne(c, MovedTo(c, d, n, w.now), w.now)
    else
      forall n :: At(d', n) == if n == Live then Some(Appended(d[Live], w.data, w.now)) else At(d, n)
  }

  // ---------- the disk as a shelf ----------

  /** The number of backups that rotation fills: the first is filled even when the limit is zero. */
  function Slots(c: FileConfig): (n: nat)
    ensures n >= 1
  {
    if c.maxBackups > 0 then c.maxBackups else 1
  }

  function SlotsOn(c: FileConfig, d: Disk): (r: seq<Option<File>>)
    ensures |r| == Slots(c)
  {
    seq(Slots(c), i requires 0 <= i < Slots(c) => At(d, Backup(c, i + 1)))
  }

  function ShelfOn(c: FileConfig, d: Disk, rotations: nat): Shelf
    requires Live in d
  {
    Shelf(d[Live], SlotsOn(c, d), rotations)
  }

  lemma RotatesShelf(c: FileConfig, d: Disk, now: int, d': Disk, r: nat)
    requires Live in d && Rotates(c, d, now, d')
    ensures Live in d' && ShelfOn(c, d', r + 1) == Rotated(c, ShelfOn(c, d, r), now)
  {
    assert At(d', Live) == Some(File([], now));
    forall i | 0 <= i < Slots(c)
      ensures SlotsOn(c, d')[i] == Rotated(c, ShelfOn(c, d, r), now).slots[i]
    {
      assert At(d', Backup(c, i + 1)) == PruneOne(c, MovedTo(c, d, Backup(c, i + 1), now), now);
    }
  }

  /** On the disk, a write is the write on values. */
  lemma WritesShelf(c: FileConfig, d: Disk, w: Write, d': Disk, r: nat)
    requires Live in d && Writes(c, d, w, d')
    ensures Live in d'
    ensures ShelfOn(c, d', if Full(c, d[Live], w.data) then r + 1 else r) == Written(c, ShelfOn(c, d, r), w.data, w.now)
  {
    if Full(c, d[Live], w.data) {
      assert At(d', Live) == Some(Appended(File([], w.now), w.data, w.now));
      var mid := d'[Live := File([], w.now)];
      assert Rotates(c, d, w.now, mid);
      RotatesShelf(c, d, w.now, mid, r);
      assert SlotsOn(c, mid) == SlotsOn(c, d');
    } else {
      assert At(d', Live) == Some(Appended(d[Live], w.data, w.now));
      assert SlotsOn(c, d') == SlotsOn(c, d);
    }
  }

  // ---------- runs ----------

  /** The writes lead from d to d'. */
  ghost predicate Leads(c: FileConfig, d: Disk, ops: seq<Write>, d': Disk)
    decreases |ops|
  {
    if ops == [] then d' == d
    else exists mid: Disk ::
      Leads(c, d, ops[..|ops| - 1], mid) && Live in mid && Writes(c, mid, ops[|ops| - 1], d')
  }

  /** Any run on a disk is the run on its shelf. */
  lemma {:induction false} LeadsToShelf(c: FileConfig, d: Disk, ops: seq<Write>, d': Disk)
    requires Live in d && Leads(c, d, ops, d')
    ensures Live in d'
    ensures ShelfOn(c, d', |Unlimited(c, d[Live], ops).rotated|) == After(c, ShelfOn(c, d, 0), ops)
    ensures After(c, ShelfOn(c, d, 0), ops).live == Unlimited(c, d[Live], ops).live
    decreases |ops|
  {
    if ops != [] {
      var n := |ops| - 1;
      var mid: Disk :| Leads(c, d, ops[..n], mid) && Live in mid && Writes(c, mid, ops[n], d');
      LeadsToShelf(c, d, ops[..n], mid);
      WritesShelf(c, mid, ops[n], d', |Unlimited(c, d[Live], ops[..n]).rotated|);
    }
  }

  /** The names a rotation fills or empties. */
  predicate Managed(c: FileConfig, n: Name) {
    n == Live || 1 <= SlotNumber(c, n) <= Slots(c) || (c.compress && n == Plain(1))
  }

  /** What is left, after the run, of a backup that it did not move. */
  function Aged(c: FileConfig, h: History, f: Option<File>): Option<File> {
    if h.rotated == [] then f else PruneOne(c, f, h.last)
  }

  lemma LastRotation(c: FileConfig, d: Disk, ops: seq<Write>, start: int)
    requires Live in d && Monotone(start, ops)
    ensures var h := Unlimited(c, d[Live], ops); ops != [] && h.rotated != [] ==> h.last <= ops[|ops| - 1].now
  {
    Retention(c, ShelfOn(c, d, 0), ops, start);
  }

  lemma OtherStep(c: FileConfig, d: Disk, w: Write, d': Disk, n: Name)
    requires Live in d && Writes(c, d, w, d') && !Managed(c, n)
    ensures At(d', n) == if Full(c, d[Live], w.data) then PruneOne(c, At(d, n), w.now) else At(d, n)
  {
    hide Full, PruneOne;
    assert MovedTo(c, d, n, w.now) == At(d, n);
  }

  lemma AgedStep(c: FileConfig, h: History, w: Write, f: Option<File>)
    requires h.rotated != [] ==> h.last <= w.now
    ensures Aged(c, Recorded(c, h, w), f)
            == if Full(c, h.live, w.data) then PruneOne(c, Aged(c, h, f), w.now) else Aged(c, h, f)
  {
    hide Full;
  }

  /** No rotation touches any other file, but for its age. */
  lemma {:induction false} OthersUntouched(c: FileConfig, d: Disk, ops: seq<Write>, d': Disk, start: int, n: Name)
    requires Live in d && Leads(c, d, ops, d') && Monotone(start, ops) && !Managed(c, n)
    ensures At(d', n) == Aged(c, Unlimited(c, d[Live], ops), At(d, n))
    decreases |ops|
  {
    hide Writes, After, Length, Managed, PruneOne, Recorded, Full, Aged, Monotone;
    if ops != [] {
      var k := |ops| - 1;
      var mid: Disk :| Leads(c, d, ops[..k], mid) && Live in mid && Writes(c, mid, ops[k], d');
      hide Leads;
      MonotonePrefix(start, ops);
      OthersUntouched(c, d, ops[..k], mid, start, n);
      LeadsToShelf(c, d, ops[..k], mid);
      LastRotation(c, d, ops[..k], start);
      OtherStep(c, mid, ops[k], d', n);
      AgedStep(c, Unlimited(c, d[Live], ops[..k]), ops[k], At(d, n));
    } else {
      assert Aged(c, Unlimited(c, d[Live], []), At(d, n)) == At(d, n) by {
        NothingAged(c, d[Live], At(d, n));
      }
    }
  }

  lemma NothingAged(c: FileConfig, live: File, f: Option<File>)
    ensures Aged(c, Unlimited(c, live, []), f) == f
  {}

  lemma MonotonePrefix(start: int, ops: seq<Write>)
    requires ops != [] && Monotone(start, ops)
    ensures Monotone(start, ops[..|ops| - 1])
    ensures |ops| > 1 ==> ops[..|ops| - 1][|ops| - 2].now <= ops[|ops| - 1].now
  {}

  /** A limit of zero backups is not "no limit".  Whatever is written, the log is the live file, the
      first backup is the last file that was rotated, if any was, and no other name ever gets a
      file: all other rotated files are gone.  As always, what is too old at the last rotation goes. */
  lemma ZeroBackupsKeepOne(c: FileConfig, d: Disk, ops: seq<Write>, d': Disk, start: int)
    requires c.maxBackups <= 0 && Monotone(start, ops)
    requires Live in d && Leads(c, d, ops, d')
    ensures var h := Unlimited(c, d[Live], ops);
            && At(d', Live) == Some(h.live)
            && At(d', Backup(c, 1))
               == Aged(c, h, if h.rotated == [] then At(d, Backup(c, 1)) else Some(h.rotated[|h.rotated| - 1]))
            && forall n :: n != Live && n != Backup(c, 1) && !(c.compress && n == Plain(1)) ==>
                 At(d', n) == Aged(c, h, At(d, n))
  {
    hide Writes, After, Length, Managed, Unlimited, PruneOne, Leads, Monotone;
    var h, s := Unlimited(c, d[Live], ops), ShelfOn(c, d, 0);
    LeadsToShelf(c, d, ops, d');
    Retention(c, s, ops, start);
    assert SlotsOn(c, d')[0] == At(d', Backup(c, 1)) && s.slots[0] == At(d, Backup(c, 1));
    assert Line(h, s.slots)[..1] == [if h.rotated == [] then s.slots[0] else Some(h.rotated[|h.rotated| - 1])];
    forall n | n != Live && n != Backup(c, 1) && !(c.compress && n == Plain(1))
      ensures At(d', n) == Aged(c, h, At(d, n))
    {
      OnlyFirstManaged(c, n);
      OthersUntouched(c, d, ops, d', start, n);
    }
  }

  lemma OnlyFirstManaged(c: FileConfig, n: Name)
    requires c.maxBackups <= 0
    ensures Managed(c, n) <==> n == Live || n == Backup(c, 1) || (c.compress && n == Plain(1))
  {}

  /** Without an age limit, every write is still there exactly when there is a backup for each rotated
      file and the inherited backups they pushed out were empty; a limit of zero has one backup. */
  lemma LosesNothingOnDisk(c: FileConfig, d: Disk, ops: seq<Write>, d': Disk, start: int)
    requires c.maxAgeDays <= 0 && Monotone(start, ops)
    requires Live in d && Leads(c, d, ops, d')
    ensures var k, r := Slots(c), |Unlimited(c, d[Live], ops).rotated|;
            Live in d' &&
            (Stored(ShelfOn(c, d', r)) == Stored(ShelfOn(c, d, 0)) + Data(ops) <==>
             r <= k && forall i :: k - r <= i < k ==> ChunksOf(SlotsOn(c, d)[i]) == [])
  {
    hide Leads, After, Unlimited, Stored, SlotsOn;
    LeadsToShelf(c, d, ops, d');
    LosesNothingByNumber(c, ShelfOn(c, d, 0), ops, start);
    Retention(c, ShelfOn(c, d, 0), ops, start);
  }

  /** Three writes, of a byte each, with a limit of a byte and of zero backups: the first is lost. */
  lemma ZeroBackupsLoseOne(c: FileConfig)
    requires c.maxBytes == 1 && c.maxBackups == 0 && c.maxAgeDays == 0 && !c.compress
    ensures var d, d' := map[Live := File([], 0)], map[Live := File([[3]], 0), Plain(1) := File([[2]], 0)];
            && Leads(c, d, [Write([1], 0), Write([2], 0), Write([3], 0)], d')
            && Stored(ShelfOn(c, d', 2)) == [[2], [3]]
  {
    var d, d1 := map[Live := File([], 0)], map[Live := File([[1]], 0)];
    var d2 := map[Live := File([[2]], 0), Plain(1) := File([[1]], 0)];
    var d3 := map[Live := File([[3]], 0), Plain(1) := File([[2]], 0)];
    var w1, w2, w3 := Write([1], 0), Write([2], 0), Write([3], 0);
    FirstByte(c, d, w1, d1);
    NextByte(c, d1, w2, d2, 1, 2);
    NextByte(c, d2, w3, d3, 2, 3);
    OnlySlot(c, d3, File([[2]], 0));
    assert Leads(c, d, [], d);
    hide *;
    LeadsStep(c, d, [], d, w1, d1);
    Empty([w1]);
    LeadsStep(c, d, [w1], d1, w2, d2);
    assert [w1] + [w2] == [w1, w2];
    LeadsStep(c, d, [w1, w2], d2, w3, d3);
    assert [w1, w2] + [w3] == [w1, w2, w3];
  }

  lemma OnlySlot(c: FileConfig, d: Disk, f: File)
    requires c.maxBackups == 0 && !c.compress && Live in d && d[Live].chunks == [[3]]
    requires Plain(1) in d && d[Plain(1)] == f && f.chunks == [[2]]
    ensures Stored(ShelfOn(c, d, 2)) == [[2], [3]]
  {
    assert SlotsOn(c, d) == [Some(f)];
    assert Older([]) == [] && [Some(f)][1..] == [];
  }

  lemma FirstByte(c: FileConfig, d: Disk, w: Write, d': Disk)
    requires d == map[Live := File([], 0)] && w == Write([1], 0) && d' == map[Live := File([[1]], 0)]
    ensures Writes(c, d, w, d')
  {
    assert Length([]) == 0 && !Full(c, d[Live], w.data);
    assert [] + [w.data] == [[1]];
  }

  lemma NextByte(c: FileConfig, d: Disk, w: Write, d': Disk, a: Byte, b: Byte)
    requires c.maxBytes == 1 && c.maxBackups == 0 && c.maxAgeDays == 0 && !c.compress
    requires Live in d && d[Live] == File([[a]], 0) && d.Keys <= {Live, Plain(1)} && w == Write([b], 0)
    requires d' == map[Live := File([[b]], 0), Plain(1) := File([[a]], 0)]
    ensures Writes(c, d, w, d')
  {
    OneByte(a);
    assert Full(c, d[Live], w.data);
    assert [] + [w.data] == [[b]];
    hide Length, Full;
    forall n
      ensures At(d', n) == if n == Live then Some(Appended(File([], 0), w.data, 0))
                           else PruneOne(c, MovedTo(c, d, n, 0), 0)
    {}
  }

  lemma OneByte(b: Byte)
    ensures Length([[b]]) == 1
  {
    assert [[b]][..0] == [] && Length([]) == 0;
  }

  lemma LeadsStep(c: FileConfig, d: Disk, ops: seq<Write>, mid: Disk, w: Write, d': Disk)
    requires Leads(c, d, ops, mid) && Live in mid && Writes(c, mid, w, d')
    ensures Leads(c, d, ops + [w], d')
  {
    assert (ops + [w])[..|ops|] == ops;
  }

  // ---------- how old a backup may be ----------

  /** After any run with a rotation, the last of them at time t: of the backups that there is a number
      for, exactly those are there that were last written no more than the given number of days, of
      86400 seconds, before t, or all of them if no days are given. */
  lemma AgesExactly(c: FileConfig, d: Disk, ops: seq<Write>, d': Disk, start: int, i: nat)
    requires Live in d && Leads(c, d, ops, d') && Monotone(start, ops)
    requires Unlimited(c, d[Live], ops).rotated != [] && i < Slots(c)
    ensures var h := Unlimited(c, d[Live], ops);
            var f := Line(h, SlotsOn(c, d))[i];
            At(d', Backup(c, i + 1)) ==
            if f.Some? && c.maxAgeDays > 0 && h.last - f.value.mtime > 86400 * c.maxAgeDays then None else f
  {
    hide Writes, After, Length, Managed, Unlimited, Leads, Monotone;
    var h, s := Unlimited(c, d[Live], ops), ShelfOn(c, d, 0);
    LeadsToShelf(c, d, ops, d');
    Retention(c, s, ops, start);
    assert SlotsOn(c, d')[i] == At(d', Backup(c, i + 1));
    assert Line(h, s.slots)[..Slots(c)][i] == Line(h, s.slots)[i];
  }

  /** When the live file was last written: at the latest write that had data or began the file, which
      is also the time of the last rotation if that is no earlier. */
  lemma {:induction false} LiveTime(c: FileConfig, live: File, ops: seq<Write>, start: int)
    requires Monotone(start, ops) && ops != []
    ensures var h, n := Unlimited(c, live, ops), |ops| - 1;
            var before := Unlimited(c, live, ops[..n]);
            h.live.mtime ==
            if ops[n].data != [] || |h.rotated| > |before.rotated| then ops[n].now else before.live.mtime
    ensures var h, n := Unlimited(c, live, ops), |ops| - 1;
            var before := Unlimited(c, live, ops[..n]);
            |h.rotated| > |before.rotated| ==>
              && h.last == ops[n].now && h.rotated[|before.rotated|].chunks == before.live.chunks
              && h.rotated[|before.rotated|].mtime == if c.compress then ops[n].now else before.live.mtime
  {}

  /** Three days' names for one rotation, at a limit of 30 days: an hour is no age, 31 days are too many. */
  lemma AgeExample(c: FileConfig)
    requires c.maxBytes == 1 && c.maxBackups == 3 && c.maxAgeDays == 30 && !c.compress
    ensures var now := 10_000_000;
            var d := map[Live := File([[1]], now - 3600), Plain(1) := File([[2]], now - 30 * 86400),
                         Plain(2) := File([[3]], now - 31 * 86400)];
            var d' := map[Live := File([[4]], now), Plain(1) := File([[1]], now - 3600),
                          Plain(2) := File([[2]], now - 30 * 86400)];
            Writes(c, d, Write([4], now), d')
  {
    var now := 10_000_000;
    var d := map[Live := File([[1]], now - 3600), Plain(1) := File([[2]], now - 30 * 86400),
                 Plain(2) := File([[3]], now - 31 * 86400)];
    var d' := map[Live := File([[4]], now), Plain(1) := File([[1]], now - 3600),
                  Plain(2) := File([[2]], now - 30 * 86400)];
    var w := Write([4], now);
    OneByte(1);
    assert Full(c, d[Live], w.data);
    assert [] + [w.data] == [[4]];
    hide Length, Full;
    forall n
      ensures At(d', n) == if n == Live then Some(Appended(File([], now), w.data, now))
                           else PruneOne(c, MovedTo(c, d, n, now), now)
    {}
  }
}
