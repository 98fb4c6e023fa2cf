/** Histograms: 20 slots of 64 bits, the time of creation, the sum, and 18 cumulative counters. */
module MetricsHistogram {

  const SLOTS := 20
  const TWO64 := 0x1_0000_0000_0000_0000

  type Word = n: int | 0 <= n < TWO64

  type Histogram = h: seq<Word> | |h| == SLOTS witness seq(SLOTS, _ => 0)

  type Counter = i: nat | 2 <= i < SLOTS witness 2

  function Pow2(k: nat): (p: nat)
    ensures p > 0
  {
    if k == 0 then 1 else 2 * Pow2(k - 1)
  }

  /** The least k with v <= 2^k. */
  function CeilLog2(v: nat): nat
    requires v >= 1
  {
    if v == 1 then 0 else CeilLog2((v + 1) / 2) + 1
  }

  lemma {:induction false} CeilLog2Is(v: nat, k: nat)
    requires v >= 1
    ensures CeilLog2(v) <= k <==> v <= Pow2(k)
  {
    if v > 1 && k > 0 {
      CeilLog2Is((v + 1) / 2, k - 1);
    }
  }

  function Clamped(b: int): (c: Counter) {
    if b < 2 then 2 else if b >= SLOTS then SLOTS - 1 else b
  }

  /** The first counter a sample is counted in.  For a sample of 0 that is what converting minus
      infinity to an integer makes of it, which the language leaves open: some counter zero. */
  function Bucket(zero: Counter, v: nat): Counter {
    if v == 0 then zero else Clamped(CeilLog2(v) - 3)
  }

  /** The bound printed for counter i; the last one has none. */
  function Bound(i: nat): nat
  {
    Pow2(i + 3)
  }

  lemma BucketIs(zero: Counter, v: nat, i: nat)
    requires 2 <= i < SLOTS
    ensures Bucket(zero, v) <= i <==> i == SLOTS - 1 || (if v == 0 then zero <= i else v <= Bound(i))
  {
    if v > 0 {
      CeilLog2Is(v, i + 3);
    }
  }

  function Inc(n: Word, d: nat): Word {
    (n + d) % TWO64
  }

  function Sampled(zero: Counter, h: Histogram, v: nat): Histogram {
    seq(SLOTS, i requires 0 <= i < SLOTS =>
      if i == 0 then h[0] else if i == 1 then Inc(h[1], v) else if i >= Bucket(zero, v) then Inc(h[i], 1) else h[i])
  }

  function Fresh(created: Word): Histogram {
    seq(SLOTS, i requires 0 <= i < SLOTS => if i == 0 then created else 0)
  }

  function AfterSamples(zero: Counter, created: Word, vs: seq<nat>): Histogram
  {
    if vs == [] then Fresh(created)
    else Sampled(zero, AfterSamples(zero, created, vs[..|vs| - 1]), vs[|vs| - 1])
  }

  // ---------- what the slots mean ----------

  function Sum(vs: seq<nat>): nat {
    if vs == [] then 0 else Sum(vs[..|vs| - 1]) + vs[|vs| - 1]
  }

  function CountAtMost(vs: seq<nat>, bound: nat): nat {
    if vs == [] then 0 else CountAtMost(vs[..|vs| - 1], bound) + if vs[|vs| - 1] <= bound then 1 else 0
  }

  lemma IncMod(a: nat, b: nat)
    ensures Inc(a % TWO64, b) == (a + b) % TWO64
  {
    var q := a / TWO64;
    assert a + b == a % TWO64 + b + q * TWO64;
    AddMultiple(a % TWO64 + b, q);
  }

  lemma {:induction false} AddMultiple(x: nat, q: nat)
    ensures (x + q * TWO64) % TWO64 == x % TWO64
  {
    if q > 0 {
      AddMultiple(x, q - 1);
      assert x + q * TWO64 == x + (q - 1) * TWO64 + TWO64;
    }
  }

  /** How many samples slot i counts: those at most its bound, and those of 0 only from slot zero on. */
  function CountedIn(zero: Counter, vs: seq<nat>, i: nat): int {
    CountAtMost(vs, Bound(i)) - if i < zero then CountAtMost(vs, 0) else 0
  }

  lemma CountedStep(zero: Counter, vs: seq<nat>, v: nat, i: nat)
    requires 2 <= i < SLOTS - 1
    ensures CountedIn(zero, vs + [v], i) == CountedIn(zero, vs, i) + if Bucket(zero, v) <= i then 1 else 0
    ensures CountedIn(zero, vs, i) >= 0
  {
    hide Bucket, Pow2;
    assert (vs + [v])[..|vs|] == vs;
    BucketIs(zero, v, i);
    CountGrows(vs, 0, Bound(i));
  }

  /** The slots, after any samples: the sum, the samples at most each bound, and all of them,
      each as far as 64 bits go. */
  lemma {:induction false} SlotsCount(zero: Counter, created: Word, vs: seq<nat>)
    ensures var h := AfterSamples(zero, created, vs);
            && h[0] == created
            && h[1] == Sum(vs) % TWO64
            && (forall i :: 2 <= i < SLOTS - 1 ==> h[i] == CountedIn(zero, vs, i) % TWO64)
            && h[SLOTS - 1] == |vs| % TWO64
  {
    if vs != [] {
      var before, v := vs[..|vs| - 1], vs[|vs| - 1];
      SlotsCount(zero, created, before);
      hide Bucket, Inc, CountedIn;
      IncMod(Sum(before), v);
      IncMod(|before|, 1);
      forall i | 2 <= i < SLOTS - 1
        ensures AfterSamples(zero, created, vs)[i] == CountedIn(zero, vs, i) % TWO64
      {
        assert vs == before + [v];
        CountedStep(zero, before, v, i);
        IncMod(CountedIn(zero, before, i), 1);
      }
      BucketIs(zero, v, SLOTS - 1);
    } else {
      assert forall i :: CountedIn(zero, vs, i) == 0;
    }
  }

  predicate Cumulative(h: Histogram) {
    forall i :: 2 <= i < SLOTS - 1 ==> h[i] <= h[i + 1]
  }

  lemma {:induction false} CountGrows(vs: seq<nat>, a: nat, b: nat)
    requires a <= b
    ensures CountAtMost(vs, a) <= CountAtMost(vs, b) <= |vs|
  {
    if vs != [] {
      CountGrows(vs[..|vs| - 1], a, b);
    }
  }

  lemma {:induction false} Pow2Grows(j: nat, k: nat)
    requires j <= k
    ensures Pow2(j) <= Pow2(k)
  {
    if j < k {
      Pow2Grows(j, k - 1);
    }
  }

  lemma CountedGrows(zero: Counter, vs: seq<nat>, i: nat)
    ensures 0 <= CountedIn(zero, vs, i) <= CountedIn(zero, vs, i + 1) <= |vs|
  {
    hide CountAtMost, Pow2;
    Pow2Grows(i + 3, i + 4);
    CountGrows(vs, 0, Bound(i));
    CountGrows(vs, Bound(i), Bound(i + 1));
  }

  lemma SamplesAreCumulative(zero: Counter, created: Word, vs: seq<nat>)
    requires |vs| < TWO64
    ensures Cumulative(AfterSamples(zero, created, vs))
  {
    SlotsCount(zero, created, vs);
    var h := AfterSamples(zero, created, vs);
    hide AfterSamples, CountAtMost, Bound, CountedIn;
    forall i | 2 <= i < SLOTS - 1
      ensures h[i] <= h[i + 1]
    {
      CountedGrows(zero, vs, i);
      SmallMod(CountedIn(zero, vs, i));
      SmallMod(CountedIn(zero, vs, i + 1));
    }
  }

  lemma SmallMod(n: nat)
    requires n < TWO64
    ensures n % TWO64 == n
  {}

  // ---------- which counters are printed, and reading them back ----------

  predicate Skipped(h: Histogram, i: Counter, first: bool)
  {
    h[i] == 0 || (h[i] == h[i - 1] && h[i] == h[SLOTS - 1] && i != SLOTS - 1 && !first)
  }

  /** The counters printed from i on; first until one was printed. */
  function Printed(h: Histogram, i: nat, first: bool): seq<Counter>
    requires 2 <= i <= SLOTS
    decreases SLOTS - i
  {
    if i == SLOTS then []
    else if Skipped(h, i, first) then Printed(h, i + 1, first)
    else [i] + Printed(h, i + 1, false)
  }

  /** The value a reader gives counter i: that of the last printed one up to it, or zero. */
  function ReadBack(h: Histogram, printed: seq<Counter>, i: Counter): Word
  {
    if printed == [] then 0
    else if printed[|printed| - 1] <= i then h[printed[|printed| - 1]]
    else ReadBack(h, printed[..|printed| - 1], i)
  }

  predicate Increasing(s: seq<nat>) {
    forall i, j :: 0 <= i < j < |s| ==> s[i] < s[j]
  }

  lemma {:induction false} PrintedShape(h: Histogram, i: nat, first: bool)
    requires 2 <= i <= SLOTS
    ensures var p := Printed(h, i, first);
            && (forall n :: 0 <= n < |p| ==> i <= p[n] && h[p[n]] != 0)
            && Increasing(p)
            && (i < SLOTS && h[SLOTS - 1] != 0 ==> p != [] && p[|p| - 1] == SLOTS - 1)
    decreases SLOTS - i
  {
    hide Skipped;
    if i < SLOTS {
      SkippedFacts(h, i, first);
      PrintedShape(h, i + 1, first && Skipped(h, i, first));
    }
  }

  lemma SkippedFacts(h: Histogram, i: Counter, first: bool)
    ensures h[i] == 0 ==> Skipped(h, i, first)
    ensures i == SLOTS - 1 && h[i] != 0 ==> !Skipped(h, i, first)
  {}

  lemma {:induction false} ReadBackSplit(h: Histogram, a: seq<Counter>, b: seq<Counter>, i: Counter)
    requires forall n :: 0 <= n < |b| ==> i < b[n]
    ensures ReadBack(h, a + b, i) == ReadBack(h, a, i)
  {
    if b == [] {
      assert a + b == a;
    } else {
      assert (a + b)[|a + b| - 1] == b[|b| - 1];
      assert (a + b)[..|a + b| - 1] == a + b[..|b| - 1];
      ReadBackSplit(h, a, b[..|b| - 1], i);
    }
  }

  /** What was printed before i already tells counter i - 1. */
  predicate ReadSoFar(h: Histogram, before: seq<Counter>, i: nat, first: bool)
    requires 2 <= i <= SLOTS
  {
    && (forall n :: 0 <= n < |before| ==> before[n] < i)
    && (first <==> before == [])
    && (i > 2 ==> h[i - 1] == if before == [] then 0 else h[before[|before| - 1]])
  }

  function WithPrinted(h: Histogram, before: seq<Counter>, i: Counter, first: bool): seq<Counter> {
    if Skipped(h, i, first) then before else before + [i]
  }

  lemma ReadLast(h: Histogram, before: seq<Counter>, i: Counter)
    requires forall n :: 0 <= n < |before| ==> before[n] < i
    ensures ReadBack(h, before, i) == if before == [] then 0 else h[before[|before| - 1]]
    ensures ReadBack(h, before + [i], i) == h[i]
  {}

  lemma SkippedIsLast(h: Histogram, before: seq<Counter>, i: Counter, first: bool)
    requires Cumulative(h) && ReadSoFar(h, before, i, first) && Skipped(h, i, first)
    ensures h[i] == if before == [] then 0 else h[before[|before| - 1]]
  {
    if before != [] {
      assert before[|before| - 1] < i;
      assert h[i - 1] <= h[i];
    }
  }

  lemma ReadSoFarStep(h: Histogram, before: seq<Counter>, i: Counter, first: bool)
    requires Cumulative(h) && ReadSoFar(h, before, i, first)
    ensures var now := WithPrinted(h, before, i, first);
            && ReadSoFar(h, now, i + 1, first && Skipped(h, i, first))
            && ReadBack(h, now, i) == h[i]
  {
    hide Cumulative, ReadBack;
    ReadLast(h, before, i);
    if Skipped(h, i, first) {
      SkippedIsLast(h, before, i, first);
    }
  }

  lemma {:induction false} ReadsBackFrom(h: Histogram, before: seq<Counter>, i: Counter, first: bool, k: Counter)
    requires Cumulative(h) && i <= k && ReadSoFar(h, before, i, first)
    ensures ReadBack(h, before + Printed(h, i, first), k) == h[k]
    decreases SLOTS - i
  {
    var now, first' := WithPrinted(h, before, i, first), first && Skipped(h, i, first);
    ReadSoFarStep(h, before, i, first);
    PrintedShape(h, i + 1, first');
    assert before + Printed(h, i, first) == now + Printed(h, i + 1, first');
    hide Skipped, ReadSoFar, WithPrinted, ReadBack, Cumulative, Printed;
    if k == i {
      ReadBackSplit(h, now, Printed(h, i + 1, first'), i);
    } else {
      ReadsBackFrom(h, now, i + 1, first', k);
    }
  }

  /** Leaving counters out loses nothing: every one of them can be read back. */
  lemma SparseIsLossless(h: Histogram, k: Counter)
    requires Cumulative(h)
    ensures ReadBack(h, Printed(h, 2, true), k) == h[k]
  {
    ReadsBackFrom(h, [], 2, true, k);
    assert [] + Printed(h, 2, true) == Printed(h, 2, true);
  }

  /** Every counter before i is zero. */
  predicate ZeroBefore(h: Histogram, i: nat)
  {
    forall j :: 2 <= j < i && j < SLOTS ==> h[j] == 0
  }

  lemma {:induction false} PrintedFrom(h: Histogram, i: nat, first: bool, k: Counter)
    requires 2 <= i <= SLOTS && i <= k && (first <==> ZeroBefore(h, i))
    ensures k in Printed(h, i, first) <==>
              h[k] != 0 && (k == SLOTS - 1 || h[k] != h[k - 1] || h[k] != h[SLOTS - 1] || ZeroBefore(h, k))
    decreases SLOTS - i
  {
    if i < SLOTS {
      var first' := first && Skipped(h, i, first);
      assert ZeroBefore(h, i + 1) <==> ZeroBefore(h, i) && h[i] == 0;
      PrintedShape(h, i + 1, first');
      if k == i {
        NotLater(Printed(h, i + 1, first'), i);
      } else {
        PrintedFrom(h, i + 1, first', k);
      }
    }
  }

  lemma NotLater(p: seq<Counter>, i: nat)
    requires forall n :: 0 <= n < |p| ==> i < p[n]
    ensures i !in p
  {}

  /** Which counters are printed: those that are not zero, but for one that repeats the one before it
      and has the total already, unless it is the first of all or the last slot. */
  lemma PrintedExactly(h: Histogram, k: Counter)
    ensures k in Printed(h, 2, true) <==>
              h[k] != 0 && (k == 19 || h[k] != h[k - 1] || h[k] != h[19] || forall j :: 2 <= j < k ==> h[j] == 0)
  {
    PrintedFrom(h, 2, true, k);
  }

  /** The last counter, printed as +Inf and as the count, is printed exactly when it is not
      zero, and then once, last. */
  lemma TotalPrintedOnce(h: Histogram)
    ensures var p := Printed(h, 2, true);
            && Increasing(p)
            && (h[SLOTS - 1] != 0 <==> p != [] && p[|p| - 1] == SLOTS - 1)
  {
    PrintedShape(h, 2, true);
  }
}
