/**
 The rotating log writer on values.  A file is the sequence of writes appended to it; its bytes
 are their concatenation.
 */
module RotationModel {
  import opened Basics
  import opened Msgpack
  import opened Sequences

  type Chunks = seq<Bytes>

  datatype File = File(chunks: Chunks, mtime: int)

  datatype FileConfig = FileConfig(maxBytes: int, maxBackups: int, maxAgeDays: int, compress: bool)

  const DAY := 24 * 60 * 60

  function Length(chunks: Chunks): nat {
    if chunks == [] then 0 else Length(chunks[..|chunks| - 1]) + |chunks[|chunks| - 1]|
  }

  /** The live file and the numbered backups, newest first; rotations counts those of this run. */
  datatype Shelf = Shelf(live: File, slots: seq<Option<File>>, rotations: nat)

  predicate Expired(c: FileConfig, mtime: int, now: int) {
    c.maxAgeDays > 0 && mtime < now - c.maxAgeDays * DAY
  }

  function PruneOne(c: FileConfig, f: Option<File>, now: int): Option<File> {
    if f.Some? && Expired(c, f.value.mtime, now) then None else f
  }

  function Prune(c: FileConfig, slots: seq<Option<File>>, now: int): (r: seq<Option<File>>)
    ensures |r| == |slots|
  {
    seq(|slots|, i requires 0 <= i < |slots| => PruneOne(c, slots[i], now))
  }

  /** The shift: every backup moves up one slot, all at once, and the live file becomes the first. */
  function Shifted(f: File, slots: seq<Option<File>>): seq<Option<File>>
    requires slots != []
  {
    [Some(f)] + slots[..|slots| - 1]
  }

  /** The live file once it is a backup; compressing writes a new file. */
  function Moved(c: FileConfig, live: File, now: int): File {
    File(live.chunks, if c.compress then now else live.mtime)
  }

  function Rotated(c: FileConfig, s: Shelf, now: int): Shelf
    requires s.slots != []
  {
    Shelf(File([], now), Prune(c, Shifted(Moved(c, s.live, now), s.slots), now), s.rotations + 1)
  }

  predicate Full(c: FileConfig, live: File, p: Bytes) {
    c.maxBytes > 0 && Length(live.chunks) > 0 && Length(live.chunks) + |p| > c.maxBytes
  }

  predicate MustRotate(c: FileConfig, s: Shelf, p: Bytes) {
    Full(c, s.live, p)
  }

  function Appended(f: File, p: Bytes, now: int): File {
    File(f.chunks + [p], if p == [] then f.mtime else now)
  }

  function Written(c: FileConfig, s: Shelf, p: Bytes, now: int): Shelf
    requires s.slots != []
  {
    var t := if MustRotate(c, s, p) then Rotated(c, s, now) else s;
    t.(live := Appended(t.live, p, now))
  }

  datatype Write = Write(data: Bytes, now: int)

  function After(c: FileConfig, s: Shelf, ops: seq<Write>): (r: Shelf)
    requires s.slots != []
    ensures |r.slots| == |s.slots|
  {
    if ops == [] then s
    else Written(c, After(c, s, ops[..|ops| - 1]), ops[|ops| - 1].data, ops[|ops| - 1].now)
  }

  function Data(ops: seq<Write>): (r: Chunks)
    ensures |r| == |ops|
  {
    seq(|ops|, i requires 0 <= i < |ops| => ops[i].data)
  }

  /** The clock never goes back, and starts at start or later. */
  predicate Monotone(start: int, ops: seq<Write>) {
    && (ops != [] ==> start <= ops[0].now)
    && forall i, j :: 0 <= i <= j < |ops| ==> ops[i].now <= ops[j].now
  }

  // ---------- what is stored ----------

  function ChunksOf(f: Option<File>): Chunks {
    if f.Some? then f.value.chunks else []
  }

  /** The writes in the backups, oldest first. */
  function Older(slots: seq<Option<File>>): Chunks {
    if slots == [] then [] else Older(slots[1..]) + ChunksOf(slots[0])
  }

  function Stored(s: Shelf): Chunks {
    Older(s.slots) + s.live.chunks
  }

  ghost predicate Suffix<T>(a: seq<T>, b: seq<T>) {
    |a| <= |b| && a == b[|b| - |a|..]
  }

  // Older files have older times, and nothing is newer than now.
  predicate OrderedSlots(slots: seq<Option<File>>, latest: int) {
    && (forall i :: 0 <= i < |slots| && slots[i].Some? ==> slots[i].value.mtime <= latest)
    && (forall i, j :: 0 <= i < j < |slots| && slots[i].Some? && slots[j].Some? ==>
        slots[j].value.mtime <= slots[i].value.mtime)
  }

  predicate Ordered(s: Shelf, now: int) {
    OrderedSlots(s.slots, s.live.mtime) && s.live.mtime <= now
  }

  lemma SuffixConcat<T>(a: seq<T>, b: seq<T>, t: seq<T>)
    requires Suffix(a, b)
    ensures Suffix(a + t, b + t)
  {}

  lemma SuffixTrans<T>(a: seq<T>, b: seq<T>, c: seq<T>)
    requires Suffix(a, b) && Suffix(b, c)
    ensures Suffix(a, c)
  {}

  lemma SuffixOf<T>(a: seq<T>, b: seq<T>)
    ensures Suffix(b, a + b)
  {}

  /** Pruning by age removes backups from the old end only: whatever is older than a removed
      backup is gone too. */
  lemma PruneCutsOldEnd(c: FileConfig, slots: seq<Option<File>>, now: int, latest: int)
    requires c.maxAgeDays > 0 ==> OrderedSlots(slots, latest)
    ensures forall i, j :: 0 <= i < j < |slots| && slots[i].Some? && Prune(c, slots, now)[i] == None ==>
        Prune(c, slots, now)[j] == None
  {
    forall i, j | 0 <= i < j < |slots| && slots[i].Some? && Prune(c, slots, now)[i] == None
      ensures Prune(c, slots, now)[j] == None
    {
      assert PruneOne(c, slots[i], now) == None;
      assert slots[j].Some? ==> slots[j].value.mtime <= slots[i].value.mtime;
    }
  }

  lemma {:induction false} OlderConcat(a: seq<Option<File>>, b: seq<Option<File>>)
    ensures Older(a + b) == Older(b) + Older(a)
  {
    if a == [] {
      Empty(b);
      Empty(Older(b));
    } else {
      assert (a + b)[1..] == a[1..] + b;
      OlderConcat(a[1..], b);
      Assoc(Older(b), Older(a[1..]), ChunksOf(a[0]));
    }
  }

  lemma {:induction false} OlderNothing(slots: seq<Option<File>>)
    requires forall i :: 0 <= i < |slots| ==> slots[i] == None
    ensures Older(slots) == []
  {
    if slots != [] {
      OlderNothing(slots[1..]);
    }
  }

  lemma {:induction false} PruneKeepsSuffix(c: FileConfig, slots: seq<Option<File>>, now: int, latest: int)
    requires c.maxAgeDays > 0 ==> OrderedSlots(slots, latest)
    ensures Suffix(Older(Prune(c, slots, now)), Older(slots))
  {
    if slots != [] {
      var pruned := Prune(c, slots, now);
      assert pruned[1..] == Prune(c, slots[1..], now);
      if slots[0].Some? && pruned[0] == None {
        PruneCutsOldEnd(c, slots, now, latest);
        OlderNothing(pruned);
      } else {
        PruneKeepsSuffix(c, slots[1..], now, latest);
        SuffixConcat(Older(pruned[1..]), Older(slots[1..]), ChunksOf(slots[0]));
      }
    }
  }

  lemma ShiftKeepsSuffix(live: Chunks, f: File, slots: seq<Option<File>>)
    requires slots != [] && f.chunks == live
    ensures Suffix(Older(Shifted(f, slots)), Older(slots) + live)
  {
    var n := |slots| - 1;
    SplitAt(slots, n);
    OlderConcat(slots[..n], slots[n..]);
    SuffixOf(Older(slots[n..]), Older(slots[..n]));
    hide Suffix;
    SuffixConcat(Older(slots[..n]), Older(slots), live);
    Singleton(Some(f), slots[..n]);
  }

  lemma RotateKeepsSuffix(c: FileConfig, s: Shelf, now: int)
    requires s.slots != [] && (c.maxAgeDays > 0 ==> Ordered(s, now))
    ensures Suffix(Stored(Rotated(c, s, now)), Stored(s))
  {
    var shifted := Shifted(Moved(c, s.live, now), s.slots);
    hide Suffix, Older;
    PruneKeepsSuffix(c, shifted, now, now);
    ShiftKeepsSuffix(s.live.chunks, Moved(c, s.live, now), s.slots);
    SuffixTrans(Older(Prune(c, shifted, now)), Older(shifted), Stored(s));
    Empty(Older(Prune(c, shifted, now)));
  }

  lemma OrderedAfterWrite(c: FileConfig, s: Shelf, p: Bytes, now: int)
    requires s.slots != [] && Ordered(s, now)
    ensures Ordered(Written(c, s, p, now), now)
  {}

  lemma WriteKeepsSuffix(c: FileConfig, s: Shelf, p: Bytes, now: int)
    requires s.slots != [] && (c.maxAgeDays > 0 ==> Ordered(s, now))
    ensures Suffix(Stored(Written(c, s, p, now)), Stored(s) + [p])
  {
    var t := if MustRotate(c, s, p) then Rotated(c, s, now) else s;
    if MustRotate(c, s, p) {
      RotateKeepsSuffix(c, s, now);
    }
    SuffixConcat(Stored(t), Stored(s), [p]);
    Assoc(Older(t.slots), t.live.chunks, [p]);
  }

  lemma {:induction false} OrderedAfter(c: FileConfig, s: Shelf, ops: seq<Write>, start: int)
    requires s.slots != [] && Ordered(s, start) && Monotone(start, ops)
    ensures Ordered(After(c, s, ops), if ops == [] then start else ops[|ops| - 1].now)
  {
    if ops != [] {
      var n := |ops| - 1;
      OrderedAfter(c, s, ops[..n], start);
      OrderedAfterWrite(c, After(c, s, ops[..n]), ops[n].data, ops[n].now);
    }
  }

  /** Whatever the run of writes, the files hold, oldest first and ending with the live file,
      the tail of everything ever written: nothing is lost in the middle, reordered or
      repeated, and the cut is between two writes. */
  lemma {:induction false} StoredIsSuffix(c: FileConfig, s: Shelf, ops: seq<Write>, start: int)
    requires s.slots != [] && Monotone(start, ops)
    requires c.maxAgeDays > 0 ==> Ordered(s, start)
    ensures Suffix(Stored(After(c, s, ops)), Stored(s) + Data(ops))
  {
    hide Stored, Ordered, Written;
    if ops == [] {
      Empty(Stored(s));
    } else {
      var n := |ops| - 1;
      hide Suffix;
      var before := After(c, s, ops[..n]);
      StoredIsSuffix(c, s, ops[..n], start);
      if c.maxAgeDays > 0 {
        OrderedAfter(c, s, ops[..n], start);
      }
      WriteKeepsSuffix(c, before, ops[n].data, ops[n].now);
      SuffixConcat(Stored(before), Stored(s) + Data(ops[..n]), [ops[n].data]);
      assert Data(ops) == Data(ops[..n]) + [ops[n].data];
      Assoc(Stored(s), Data(ops[..n]), [ops[n].data]);
      SuffixTrans(Stored(After(c, s, ops)), Stored(before) + [ops[n].data], Stored(s) + Data(ops));
    }
  }

  // ---------- how much is stored ----------

  /** At most the limit, or nothing before its last write. */
  predicate Bounded(c: FileConfig, chunks: Chunks) {
    Length(chunks) <= c.maxBytes || (chunks != [] && Length(chunks[..|chunks| - 1]) == 0)
  }

  /** The file just newer than slot i. */
  function Newer(s: Shelf, i: nat): Chunks
    requires i < |s.slots|
  {
    if i == 0 then s.live.chunks else ChunksOf(s.slots[i - 1])
  }

  predicate InRun(s: Shelf, i: int) {
    0 <= i < |s.slots| && i < s.rotations && s.slots[i].Some?
  }

  ghost predicate Sizes(c: FileConfig, s: Shelf) {
    && (s.rotations > 0 ==> c.maxBytes > 0 && Bounded(c, s.live.chunks))
    && (forall i :: InRun(s, i) ==> Length(s.slots[i].value.chunks) + Length(Newer(s, i)) > c.maxBytes)
    && (forall i :: InRun(s, i) && i < s.rotations - 1 ==> Bounded(c, s.slots[i].value.chunks))
    && (forall i :: InRun(s, i) && i > 0 ==> s.slots[i - 1].Some?)
  }

  lemma LengthAppend(chunks: Chunks, p: Bytes)
    ensures Length(chunks + [p]) == Length(chunks) + |p|
  {
    assert (chunks + [p])[..|chunks|] == chunks;
  }

  lemma AppendSizes(c: FileConfig, s: Shelf, p: Bytes, now: int)
    requires Sizes(c, s) && !MustRotate(c, s, p)
    ensures Sizes(c, s.(live := Appended(s.live, p, now)))
  {
    var t := s.(live := Appended(s.live, p, now));
    LengthAppend(s.live.chunks, p);
    assert t.live.chunks[..|s.live.chunks|] == s.live.chunks;
    forall i | InRun(t, i)
      ensures Length(t.slots[i].value.chunks) + Length(Newer(t, i)) > c.maxBytes
      ensures i > 0 ==> t.slots[i - 1].Some?
    {
      assert InRun(s, i);
    }
  }

  lemma RotateSizes(c: FileConfig, s: Shelf, p: Bytes, now: int)
    requires s.slots != [] && Sizes(c, s) && MustRotate(c, s, p)
    requires c.maxAgeDays > 0 ==> Ordered(s, now)
    ensures Sizes(c, Written(c, s, p, now))
  {
    var f := Moved(c, s.live, now);
    var shifted := Shifted(f, s.slots);
    var t := Written(c, s, p, now);
    LengthAppend([], p);
    PruneCutsOldEnd(c, shifted, now, now);
    forall i | InRun(t, i)
      ensures i > 0 ==> t.slots[i - 1].Some?
      ensures Length(t.slots[i].value.chunks) + Length(Newer(t, i)) > c.maxBytes
      ensures i < t.rotations - 1 ==> Bounded(c, t.slots[i].value.chunks)
    {
      assert t.slots[i] == PruneOne(c, shifted[i], now) == shifted[i];
      if i > 0 {
        assert InRun(s, i - 1) && shifted[i] == s.slots[i - 1];
        if i > 1 {
          assert shifted[i - 1] == s.slots[i - 2] && s.slots[i - 2].Some?;
        }
        assert t.slots[i - 1] == PruneOne(c, shifted[i - 1], now);
      }
    }
  }

  lemma {:induction false} SizesHold(c: FileConfig, s: Shelf, ops: seq<Write>, start: int)
    requires s.slots != [] && s.rotations == 0 && Monotone(start, ops)
    requires c.maxAgeDays > 0 ==> Ordered(s, start)
    ensures Sizes(c, After(c, s, ops))
  {
    if ops != [] {
      var n := |ops| - 1;
      SizesHold(c, s, ops[..n], start);
      if c.maxAgeDays > 0 {
        OrderedAfter(c, s, ops[..n], start);
      }
      var before := After(c, s, ops[..n]);
      if MustRotate(c, before, ops[n].data) {
        RotateSizes(c, before, ops[n].data, ops[n].now);
      } else {
        AppendSizes(c, before, ops[n].data, ops[n].now);
      }
    }
  }

  function Total(s: Shelf): nat {
    Length(s.live.chunks) + TotalOf(s.slots)
  }

  function TotalOf(slots: seq<Option<File>>): nat {
    if slots == [] then 0 else Length(ChunksOf(slots[0])) + TotalOf(slots[1..])
  }

  /** The pairs among n neighbours. */
  function Pairs(n: nat): nat {
    if n < 2 then 0 else Pairs(n - 2) + 1
  }

  lemma {:induction false} PairsHalf(n: nat)
    ensures Pairs(n) == n / 2
  {
    if n >= 2 {
      PairsHalf(n - 2);
    }
  }

  /** Slot i and its newer neighbour, the first file for slot 0, together exceed m. */
  predicate PairExceeds(first: nat, slots: seq<Option<File>>, m: int, i: nat)
    requires i < |slots|
  {
    Length(ChunksOf(slots[i])) + (if i == 0 then first else Length(ChunksOf(slots[i - 1]))) > m
  }

  lemma Distribute(n: nat, m: nat)
    ensures (n + 1) * m == n * m + m
  {}

  /** Sizes of which every neighbouring two exceed m add up to more than m for every pair. */
  lemma {:induction false} PairsAddUp(first: nat, slots: seq<Option<File>>, m: nat)
    requires forall i :: 0 <= i < |slots| ==> PairExceeds(first, slots, m, i)
    ensures first + TotalOf(slots) >= Pairs(|slots| + 1) * m + Pairs(|slots| + 1)
    decreases |slots|
  {
    if |slots| >= 2 {
      forall i | 0 <= i < |slots[2..]|
        ensures PairExceeds(Length(ChunksOf(slots[1])), slots[2..], m, i)
      {
        assert PairExceeds(first, slots, m, i + 2) && slots[2..][i] == slots[i + 2];
        if i > 0 {
          assert slots[2..][i - 1] == slots[i + 1];
        }
      }
      PairsAddUp(Length(ChunksOf(slots[1])), slots[2..], m);
      assert slots[1..][1..] == slots[2..];
      assert Pairs(|slots| + 1) == Pairs(|slots[2..]| + 1) + 1;
      Distribute(Pairs(|slots[2..]| + 1), m);
      assert PairExceeds(first, slots, m, 0);
    } else if |slots| == 1 {
      assert slots[1..] == [] && PairExceeds(first, slots, m, 0);
    }
  }

  lemma {:induction false} AllAtMost(slots: seq<Option<File>>, m: nat)
    requires forall i :: 0 <= i < |slots| ==> Length(ChunksOf(slots[i])) <= m
    ensures TotalOf(slots) <= |slots| * m
  {
    if slots != [] {
      AllAtMost(slots[1..], m);
      Distribute(|slots[1..]|, m);
    }
  }

  /** Once every slot was filled by this run, more than half the limit per file is kept. */
  lemma RetainsAtLeast(c: FileConfig, s: Shelf, ops: seq<Write>, start: int)
    requires s.slots != [] && s.rotations == 0 && Monotone(start, ops)
    requires c.maxAgeDays > 0 ==> Ordered(s, start)
    requires var t := After(c, s, ops);
             t.rotations >= |t.slots| && forall i :: 0 <= i < |t.slots| ==> t.slots[i].Some?
    ensures Total(After(c, s, ops)) > (|s.slots| + 1) / 2 * c.maxBytes
  {
    SizesHold(c, s, ops, start);
    hide *;
    var t := After(c, s, ops);
    NeighboursExceed(c, t);
    PairsAddUp(Length(t.live.chunks), t.slots, c.maxBytes);
    PairsHalf(|s.slots| + 1);
    TotalParts(t);
    Exceeds(Pairs(|s.slots| + 1), c.maxBytes, Total(t));
  }

  lemma NeighboursExceed(c: FileConfig, t: Shelf)
    requires Sizes(c, t) && t.slots != [] && t.rotations >= |t.slots|
    requires forall i :: 0 <= i < |t.slots| ==> t.slots[i].Some?
    ensures c.maxBytes > 0
    ensures forall i :: 0 <= i < |t.slots| ==> PairExceeds(Length(t.live.chunks), t.slots, c.maxBytes, i)
  {
    hide Length;
    forall i | 0 <= i < |t.slots|
      ensures PairExceeds(Length(t.live.chunks), t.slots, c.maxBytes, i)
    {
      assert InRun(t, i) && ChunksOf(t.slots[i]) == t.slots[i].value.chunks;
    }
  }

  lemma TotalParts(s: Shelf)
    ensures Total(s) == Length(s.live.chunks) + TotalOf(s.slots)
  {}

  lemma Exceeds(p: nat, m: nat, total: nat)
    requires p > 0 && total >= p * m + p
    ensures total > p * m
  {}

  /** Every file this run began is within the limit. */
  ghost predicate Fit(c: FileConfig, s: Shelf) {
    && (s.rotations > 0 ==> Length(s.live.chunks) <= c.maxBytes)
    && forall i :: InRun(s, i) && i < s.rotations - 1 ==> Length(s.slots[i].value.chunks) <= c.maxBytes
  }

  lemma RotateFits(c: FileConfig, s: Shelf, p: Bytes, now: int)
    requires s.slots != [] && Fit(c, s) && MustRotate(c, s, p) && |p| <= c.maxBytes
    ensures Fit(c, Written(c, s, p, now))
  {
    var shifted := Shifted(Moved(c, s.live, now), s.slots);
    var t := Written(c, s, p, now);
    LengthAppend([], p);
    forall i | InRun(t, i) && i < t.rotations - 1
      ensures Length(t.slots[i].value.chunks) <= c.maxBytes
    {
      assert t.slots[i] == PruneOne(c, shifted[i], now) == shifted[i];
      assert i > 0 ==> InRun(s, i - 1) && shifted[i] == s.slots[i - 1];
    }
  }

  lemma AppendFits(c: FileConfig, s: Shelf, p: Bytes, now: int)
    requires s.slots != [] && Fit(c, s) && !MustRotate(c, s, p) && |p| <= c.maxBytes
    requires s.rotations > 0 ==> c.maxBytes > 0
    ensures Fit(c, Written(c, s, p, now))
  {
    var t := Written(c, s, p, now);
    LengthAppend(s.live.chunks, p);
    assert forall i :: InRun(t, i) ==> InRun(s, i);
  }

  lemma {:induction false} SmallWritesFit(c: FileConfig, s: Shelf, ops: seq<Write>)
    requires s.slots != [] && s.rotations == 0
    requires forall i :: 0 <= i < |ops| ==> |ops[i].data| <= c.maxBytes
    ensures Fit(c, After(c, s, ops)) && (After(c, s, ops).rotations > 0 ==> c.maxBytes > 0)
  {
    if ops != [] {
      var n := |ops| - 1;
      SmallWritesFit(c, s, ops[..n]);
      var before := After(c, s, ops[..n]);
      hide Fit;
      if MustRotate(c, before, ops[n].data) {
        RotateFits(c, before, ops[n].data, ops[n].now);
      } else {
        AppendFits(c, before, ops[n].data, ops[n].now);
      }
    }
  }

  /** Once the inherited file is gone too, and no single write exceeds the limit, no more than
      the limit per file is kept. */
  lemma RetainsAtMost(c: FileConfig, s: Shelf, ops: seq<Write>)
    requires s.slots != [] && s.rotations == 0 && c.maxBytes >= 0
    requires forall i :: 0 <= i < |ops| ==> |ops[i].data| <= c.maxBytes
    requires After(c, s, ops).rotations > |s.slots|
    ensures Total(After(c, s, ops)) <= (|s.slots| + 1) * c.maxBytes
  {
    SmallWritesFit(c, s, ops);
    var t := After(c, s, ops);
    forall i | 0 <= i < |t.slots|
      ensures Length(ChunksOf(t.slots[i])) <= c.maxBytes
    {
      assert t.slots[i].Some? ==> InRun(t, i);
    }
    AllAtMost(t.slots, c.maxBytes);
    Distribute(|s.slots|, c.maxBytes);
  }

  // ---------- exactly what is stored ----------

  /** What a writer that never removes anything would have: the files it rotated, oldest first, the
      live file, and the time of the last rotation. */
  datatype History = History(rotated: seq<File>, live: File, last: int)

  function Recorded(c: FileConfig, h: History, w: Write): History {
    if Full(c, h.live, w.data)
    then History(h.rotated + [Moved(c, h.live, w.now)], Appended(File([], w.now), w.data, w.now), w.now)
    else h.(live := Appended(h.live, w.data, w.now))
  }

  function Unlimited(c: FileConfig, live: File, ops: seq<Write>): History {
    if ops == [] then History([], live, 0)
    else Recorded(c, Unlimited(c, live, ops[..|ops| - 1]), ops[|ops| - 1])
  }

  function NewestFirst(fs: seq<File>): (r: seq<Option<File>>)
    ensures |r| == |fs|
  {
    seq(|fs|, i requires 0 <= i < |fs| => Some(fs[|fs| - 1 - i]))
  }

  /** Every backup there ever was, newest first, inherited ones last. */
  function Line(h: History, slots: seq<Option<File>>): (r: seq<Option<File>>)
    ensures |r| == |h.rotated| + |slots|
  {
    NewestFirst(h.rotated) + slots
  }

  /** The backups of the line that k slots and the age limit leave. */
  function Kept(c: FileConfig, h: History, line: seq<Option<File>>, k: nat): seq<Option<File>>
    requires k <= |line|
  {
    if h.rotated == [] then line[..k] else Prune(c, line[..k], h.last)
  }

  /** Retention, exactly: after any writes the slots are the newest of all backups there ever were,
      less those that had expired at the last rotation. */
  lemma {:induction false} Retention(c: FileConfig, s: Shelf, ops: seq<Write>, start: int)
    requires s.slots != [] && s.rotations == 0 && Monotone(start, ops)
    ensures var h, t := Unlimited(c, s.live, ops), After(c, s, ops);
            && t.live == h.live && t.rotations == |h.rotated|
            && t.slots == Kept(c, h, Line(h, s.slots), |s.slots|)
            && (ops != [] && h.rotated != [] ==> h.last <= ops[|ops| - 1].now)
  {
    if ops != [] {
      var n := |ops| - 1;
      Retention(c, s, ops[..n], start);
      var h, t := Unlimited(c, s.live, ops[..n]), After(c, s, ops[..n]);
      if n > 0 {
        assert ops[..n][n - 1] == ops[n - 1];
      }
      if MustRotate(c, t, ops[n].data) {
        RotationKeeps(c, h, t, s.slots, ops[n].now);
      }
    }
  }

  lemma RotationKeeps(c: FileConfig, h: History, t: Shelf, slots: seq<Option<File>>, now: int)
    requires slots != [] && t.slots == Kept(c, h, Line(h, slots), |slots|) && t.live == h.live
    requires h.rotated != [] ==> h.last <= now
    ensures var f := Moved(c, h.live, now);
            var h' := History(h.rotated + [f], File([], now), now);
            Rotated(c, t, now).slots == Kept(c, h', Line(h', slots), |slots|)
  {
    var f := Moved(c, h.live, now);
    var h' := History(h.rotated + [f], File([], now), now);
    assert Line(h', slots) == [Some(f)] + Line(h, slots);
  }

  lemma {:induction false} RotatedHoldData(c: FileConfig, live: File, ops: seq<Write>)
    ensures forall f :: f in Unlimited(c, live, ops).rotated ==> f.chunks != []
  {
    if ops != [] {
      RotatedHoldData(c, live, ops[..|ops| - 1]);
    }
  }

  lemma LineStep(h: History, f: File, slots: seq<Option<File>>)
    ensures Older(Line(h.(rotated := h.rotated + [f]), slots)) == Older(Line(h, slots)) + f.chunks
  {
    var more := Line(h.(rotated := h.rotated + [f]), slots);
    assert more[1..] == Line(h, slots);
  }

  /** The line and the live file hold everything ever written. */
  lemma {:induction false} LineHoldsAll(c: FileConfig, s: Shelf, ops: seq<Write>)
    ensures var h := Unlimited(c, s.live, ops);
            Older(Line(h, s.slots)) + h.live.chunks == Stored(s) + Data(ops)
  {
    hide Older, Length;
    if ops == [] {
      Empty(s.slots);
      Empty(Stored(s));
    } else {
      var n := |ops| - 1;
      LineHoldsAll(c, s, ops[..n]);
      var g := Unlimited(c, s.live, ops[..n]);
      assert Data(ops) == Data(ops[..n]) + [ops[n].data];
      Assoc(Stored(s), Data(ops[..n]), [ops[n].data]);
      Assoc(Older(Line(g, s.slots)), g.live.chunks, [ops[n].data]);
      if Full(c, g.live, ops[n].data) {
        LineStep(g, Moved(c, g.live, ops[n].now), s.slots);
        Empty([ops[n].data]);
      }
    }
  }

  /** The backup at this place of the line was removed, for its number or for its age. */
  predicate Dropped(c: FileConfig, h: History, line: seq<Option<File>>, k: nat, i: nat)
    requires i < |line|
  {
    i >= k || (h.rotated != [] && line[i].Some? && Expired(c, line[i].value.mtime, h.last))
  }

  /** Nothing is lost exactly when every backup that was removed was empty. */
  lemma LosesNothingExactly(c: FileConfig, s: Shelf, ops: seq<Write>, start: int)
    requires s.slots != [] && s.rotations == 0 && Monotone(start, ops)
    ensures var h := Unlimited(c, s.live, ops);
            var line := Line(h, s.slots);
            Stored(After(c, s, ops)) == Stored(s) + Data(ops) <==>
            forall i :: 0 <= i < |line| && Dropped(c, h, line, |s.slots|, i) ==> ChunksOf(line[i]) == []
  {
    var h, t := Unlimited(c, s.live, ops), After(c, s, ops);
    var line, k := Line(h, s.slots), |s.slots|;
    Retention(c, s, ops, start);
    LineHoldsAll(c, s, ops);
    hide Unlimited, After, Length;
    KeptSize(c, h, line, k);
    var kept := Kept(c, h, line, k);
    if forall i :: 0 <= i < |line| && Dropped(c, h, line, k, i) ==> ChunksOf(line[i]) == [] {
      KeptAll(c, h, line, k);
    }
    assert |Stored(t)| == |Older(kept)| + |h.live.chunks|;
  }

  lemma {:induction false} SizeOfPrefix(slots: seq<Option<File>>, kept: seq<Option<File>>)
    requires |kept| <= |slots|
    requires forall i :: 0 <= i < |kept| ==> |ChunksOf(kept[i])| <= |ChunksOf(slots[i])|
    ensures |Older(kept)| <= |Older(slots)|
    ensures (exists i :: 0 <= i < |kept| && |ChunksOf(kept[i])| < |ChunksOf(slots[i])|) ==>
        |Older(kept)| < |Older(slots)|
    ensures (exists i :: |kept| <= i < |slots| && ChunksOf(slots[i]) != []) ==> |Older(kept)| < |Older(slots)|
  {
    if kept != [] {
      assert kept[0] == kept[..1][0];
      SizeOfPrefix(slots[1..], kept[1..]);
      forall i | 1 <= i < |slots|
        ensures slots[1..][i - 1] == slots[i] && (i < |kept| ==> kept[1..][i - 1] == kept[i])
      {}
    } else if slots != [] {
      SizeOfPrefix(slots[1..], kept);
      forall i | 1 <= i < |slots|
        ensures slots[1..][i - 1] == slots[i]
      {}
    }
  }

  /** Whatever is removed makes the rest smaller, unless it was empty. */
  lemma KeptSize(c: FileConfig, h: History, line: seq<Option<File>>, k: nat)
    requires k <= |line|
    ensures (exists i :: 0 <= i < |line| && Dropped(c, h, line, k, i) && ChunksOf(line[i]) != []) ==>
              |Older(Kept(c, h, line, k))| < |Older(line)|
  {
    var kept := Kept(c, h, line, k);
    if i: nat :| i < |line| && Dropped(c, h, line, k, i) && ChunksOf(line[i]) != [] {
      assert i < k ==> kept[i] == None && |ChunksOf(kept[i])| < |ChunksOf(line[i])|;
      SizeOfPrefix(line, kept);
    }
  }

  lemma {:induction false} SameChunks(a: seq<Option<File>>, b: seq<Option<File>>)
    requires |a| == |b| && forall i :: 0 <= i < |a| ==> ChunksOf(a[i]) == ChunksOf(b[i])
    ensures Older(a) == Older(b)
  {
    if a != [] {
      SameChunks(a[1..], b[1..]);
    }
  }

  lemma {:induction false} NoChunks(slots: seq<Option<File>>)
    requires forall i :: 0 <= i < |slots| ==> ChunksOf(slots[i]) == []
    ensures Older(slots) == []
  {
    if slots != [] {
      NoChunks(slots[1..]);
    }
  }

  lemma KeptAll(c: FileConfig, h: History, line: seq<Option<File>>, k: nat)
    requires k <= |line|
    requires forall i :: 0 <= i < |line| && Dropped(c, h, line, k, i) ==> ChunksOf(line[i]) == []
    ensures Older(Kept(c, h, line, k)) == Older(line)
  {
    hide Older;
    KeptFront(c, h, line, k);
    forall i | 0 <= i < |line[k..]|
      ensures ChunksOf(line[k..][i]) == []
    {
      assert Dropped(c, h, line, k, k + i) && line[k..][i] == line[k + i];
    }
    hide *;
    NoChunks(line[k..]);
    OlderConcat(line[..k], line[k..]);
    SplitAt(line, k);
    Empty(Older(line[..k]));
  }

  lemma KeptFront(c: FileConfig, h: History, line: seq<Option<File>>, k: nat)
    requires k <= |line|
    requires forall i :: 0 <= i < |line| && Dropped(c, h, line, k, i) ==> ChunksOf(line[i]) == []
    ensures Older(Kept(c, h, line, k)) == Older(line[..k])
  {
    var kept := Kept(c, h, line, k);
    hide Older;
    forall i | 0 <= i < k
      ensures ChunksOf(kept[i]) == ChunksOf(line[..k][i])
    {
      assert Dropped(c, h, line, k, i) ==> ChunksOf(line[i]) == [];
    }
    SameChunks(kept, line[..k]);
  }

  /** Without an age limit, exactly the backups beyond the last slot are dropped. */
  lemma DroppedByNumber(c: FileConfig, h: History, slots: seq<Option<File>>)
    requires c.maxAgeDays <= 0 && forall f :: f in h.rotated ==> f.chunks != []
    ensures var line, k, r := Line(h, slots), |slots|, |h.rotated|;
            (forall i :: 0 <= i < |line| && Dropped(c, h, line, k, i) ==> ChunksOf(line[i]) == []) <==>
            r <= k && forall i :: k - r <= i < k ==> ChunksOf(slots[i]) == []
  {
    var line, k, r := Line(h, slots), |slots|, |h.rotated|;
    if r > k {
      assert line[k] == Some(h.rotated[r - 1 - k]) && h.rotated[r - 1 - k] in h.rotated;
      assert Dropped(c, h, line, k, k);
    } else {
      forall i | k - r <= i < k
        ensures line[i + r] == slots[i] && Dropped(c, h, line, k, i + r)
      {}
      forall i | k <= i < k + r
        ensures line[i] == slots[i - r]
      {}
    }
  }

  /** Without an age limit, nothing is lost exactly when there are slots for all rotated files and
      the inherited backups pushed out by them were empty. */
  lemma LosesNothingByNumber(c: FileConfig, s: Shelf, ops: seq<Write>, start: int)
    requires s.slots != [] && s.rotations == 0 && Monotone(start, ops) && c.maxAgeDays <= 0
    ensures var k, r := |s.slots|, After(c, s, ops).rotations;
            Stored(After(c, s, ops)) == Stored(s) + Data(ops) <==>
            r <= k && forall i :: k - r <= i < k ==> ChunksOf(s.slots[i]) == []
  {
    hide Unlimited, After, Stored, Data, Line, Dropped, Kept;
    LosesNothingExactly(c, s, ops, start);
    Retention(c, s, ops, start);
    RotatedHoldData(c, s.live, ops);
    DroppedByNumber(c, Unlimited(c, s.live, ops), s.slots);
  }
}
