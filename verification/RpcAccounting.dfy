/**
 The two updates at the end of every call: a counter, then, but for generators, a duration sample.
 Handlers run side by side, and each update is one critical section of the registry's lock.
 */
module RpcAccounting {
  import opened Basics
  import opened MetricsHistogram
  import opened MetricsKeys
  import opened Sequences

  const CALLS := "rpc_calls_total"
  const TIMES := "rpc_calls_time_us"

  /** The registry, and for each label set how many handlers are between their two updates. */
  datatype World = World(
    counts: map<string, Word>, histograms: map<string, Histogram>, between: multiset<Labels>)

  const INIT := World(map[], map[], multiset{})

  datatype Event =
    | CountCall(labels: Labels)
    | SampleCall(labels: Labels, elapsed: nat, now: Word)
    | ServiceCount(key: string, val: Word, labels: Labels)
    | ServiceSample(key: string, sample: nat, labels: Labels, now: Word)

  ghost function Counted(m: map<string, Word>, key: string, labels: Labels, val: Word): map<string, Word> {
    var k := KeyText(key, labels);
    m[k := if k in m then Inc(m[k], val) else val]
  }

  ghost function WithSample(zero: Counter, m: map<string, Histogram>, key: string, labels: Labels, val: nat,
                            now: Word): map<string, Histogram> {
    var k := KeyText(key, labels);
    m[k := Sampled(zero, if k in m then m[k] else Fresh(now), val)]
  }

  /** Label names have no equals sign, and a service's own metrics have other names than these two. */
  predicate Can(w: World, e: Event) {
    && GoodLabels(e.labels)
    && (e.SampleCall? ==> e.labels in w.between)
    && (e.ServiceCount? ==> Lacks('{', e.key) && e.key != CALLS)
    && (e.ServiceSample? ==> Lacks('{', e.key) && e.key != TIMES)
  }

  /** generators tells the label sets of generator methods, which are not timed; zero is the first
      counter of a sample of 0. */
  ghost function Step(zero: Counter, generators: iset<Labels>, w: World, e: Event): World
    requires Can(w, e)
  {
    match e
    case CountCall(labels) =>
      w.(counts := Counted(w.counts, CALLS, labels, 1),
         between := if labels in generators then w.between else w.between + multiset{labels})
    case SampleCall(labels, elapsed, now) =>
      w.(histograms := WithSample(zero, w.histograms, TIMES, labels, elapsed, now),
         between := w.between - multiset{labels})
    case ServiceCount(key, val, labels) => w.(counts := Counted(w.counts, key, labels, val))
    case ServiceSample(key, val, labels, now) => w.(histograms := WithSample(zero, w.histograms, key, labels, val, now))
  }

  ghost function Run(zero: Counter, generators: iset<Labels>, es: seq<Event>): Option<World> {
    if es == [] then Some(INIT)
    else
      var p := Run(zero, generators, es[..|es| - 1]);
      if p.Some? && Can(p.value, es[|es| - 1]) then Some(Step(zero, generators, p.value, es[|es| - 1])) else None
  }

  ghost function Calls(w: World, labels: Labels): Word {
    var k := KeyText(CALLS, labels);
    if k in w.counts then w.counts[k] else 0
  }

  ghost function Timed(w: World, labels: Labels): Word {
    TotalAt(w.histograms, KeyText(TIMES, labels))
  }

  ghost predicate Balanced(w: World, labels: Labels) {
    Calls(w, labels) == (Timed(w, labels) + w.between[labels]) % TWO64
  }

  lemma OtherKey(key: string, labels: Labels, key': string, labels': Labels)
    requires Lacks('{', key) && Lacks('{', key') && GoodLabels(labels) && GoodLabels(labels')
    ensures KeyText(key, labels) == KeyText(key', labels') <==> key == key' && labels == labels'
  {
    if KeyText(key, labels) == KeyText(key', labels') {
      KeyInjective(key, labels, key', labels');
    }
  }

  lemma SampledTotal(zero: Counter, h: Histogram, v: nat)
    ensures Sampled(zero, h, v)[SLOTS - 1] == Inc(h[SLOTS - 1], 1)
  {}

  lemma Shift(a: Word, b: nat, n: nat)
    requires a == (b + n) % TWO64
    ensures Inc(a, 1) == (b + (n + 1)) % TWO64
  {
    IncMod(b + n, 1);
  }

  lemma OwnNames()
    ensures Lacks('{', CALLS) && Lacks('{', TIMES)
  {}

  lemma CountBalanced(zero: Counter, generators: iset<Labels>, w: World, e: Event, labels: Labels)
    requires e.CountCall? || e.ServiceCount?
    requires Can(w, e) && labels !in generators && GoodLabels(labels) && Balanced(w, labels)
    ensures Balanced(Step(zero, generators, w, e), labels)
  {
    hide KeyText, WithSample, GoodLabels, Lacks, Inc;
    OwnNames();
    OtherKey(if e.CountCall? then CALLS else e.key, e.labels, CALLS, labels);
    if e.CountCall? && e.labels == labels {
      Shift(Calls(w, labels), Timed(w, labels), w.between[labels]);
    }
  }

  lemma Unshift(a: Word, b: Word, n: nat)
    requires n > 0 && a == (b + n) % TWO64
    ensures a == (Inc(b, 1) + (n - 1)) % TWO64
  {
    IncMod(b + 1, n - 1);
  }

  ghost function TotalAt(m: map<string, Histogram>, k: string): Word {
    if k in m then m[k][SLOTS - 1] else 0
  }

  lemma SampleCounts(zero: Counter, m: map<string, Histogram>, key: string, labels: Labels, val: nat, now: Word,
                     k: string)
    ensures TotalAt(WithSample(zero, m, key, labels, val, now), k)
            == if k == KeyText(key, labels) then Inc(TotalAt(m, k), 1) else TotalAt(m, k)
  {
    hide Sampled, Inc, KeyText;
    SampledTotal(zero, if k in m then m[k] else Fresh(now), val);
  }

  lemma SampleBalanced(zero: Counter, generators: iset<Labels>, w: World, e: Event, labels: Labels)
    requires e.SampleCall? || e.ServiceSample?
    requires Can(w, e) && labels !in generators && GoodLabels(labels) && Balanced(w, labels)
    ensures Balanced(Step(zero, generators, w, e), labels)
  {
    hide KeyText, WithSample, Counted, Inc, GoodLabels, TotalAt, Lacks;
    OwnNames();
    var key, k := if e.SampleCall? then TIMES else e.key, KeyText(TIMES, labels);
    OtherKey(key, e.labels, TIMES, labels);
    SampleCounts(zero, w.histograms, key, e.labels, if e.SampleCall? then e.elapsed else e.sample, e.now, k);
    if e.SampleCall? && e.labels == labels {
      Unshift(Calls(w, labels), Timed(w, labels), w.between[labels]);
    }
  }

  /** Over every interleaving of handlers: for each label set of a method that is not a generator,
      the call counter is ahead of the number of timed calls by exactly the handlers between their
      two updates (as far as 64 bits go), so the two agree whenever none is. */
  lemma {:induction false} CallsAreTimed(zero: Counter, generators: iset<Labels>, es: seq<Event>, labels: Labels)
    requires Run(zero, generators, es).Some? && labels !in generators && GoodLabels(labels)
    ensures Balanced(Run(zero, generators, es).value, labels)
  {
    if es != [] {
      var e := es[|es| - 1];
      CallsAreTimed(zero, generators, es[..|es| - 1], labels);
      var w := Run(zero, generators, es[..|es| - 1]).value;
      hide Balanced, Step;
      if e.CountCall? || e.ServiceCount? {
        CountBalanced(zero, generators, w, e, labels);
      } else {
        SampleBalanced(zero, generators, w, e, labels);
      }
    }
  }

  // ---------- what was counted and timed, read off the events ----------

  /** How many calls with these labels were counted. */
  function CallsIn(es: seq<Event>, labels: Labels): nat {
    if es == [] then 0
    else
      var e := es[|es| - 1];
      CallsIn(es[..|es| - 1], labels) + if e.CountCall? && e.labels == labels then 1 else 0
  }

  /** The durations that were sampled for these labels, in order. */
  function TimesIn(es: seq<Event>, labels: Labels): seq<nat> {
    if es == [] then []
    else
      var e := es[|es| - 1];
      TimesIn(es[..|es| - 1], labels) + if e.SampleCall? && e.labels == labels then [e.elapsed] else []
  }

  /** When the first of them was. */
  function FirstTime(es: seq<Event>, labels: Labels): Word {
    if es == [] then 0
    else
      var e := es[|es| - 1];
      if e.SampleCall? && e.labels == labels && TimesIn(es[..|es| - 1], labels) == [] then e.now
      else FirstTime(es[..|es| - 1], labels)
  }

  ghost predicate Accounted(zero: Counter, w: World, es: seq<Event>, labels: Labels) {
    var calls, times := KeyText("rpc_calls_total", labels), KeyText("rpc_calls_time_us", labels);
    && (calls in w.counts <==> CallsIn(es, labels) > 0)
    && (calls in w.counts ==> w.counts[calls] == CallsIn(es, labels) % 0x1_0000_0000_0000_0000)
    && (times in w.histograms <==> TimesIn(es, labels) != [])
    && (times in w.histograms ==>
          w.histograms[times] == AfterSamples(zero, FirstTime(es, labels), TimesIn(es, labels)))
  }

  lemma CountAt(m: map<string, Word>, key: string, labels: Labels, val: Word, k: string)
    ensures var m' := Counted(m, key, labels, val);
            if k == KeyText(key, labels) then k in m' && m'[k] == Inc(if k in m then m[k] else 0, val)
            else (k in m' <==> k in m) && (k in m ==> m'[k] == m[k])
  {
    hide KeyText;
  }

  lemma SampleAt(zero: Counter, m: map<string, Histogram>, key: string, labels: Labels, val: nat, now: Word, k: string)
    ensures var m' := WithSample(zero, m, key, labels, val, now);
            if k == KeyText(key, labels)
            then k in m' && m'[k] == Sampled(zero, if k in m then m[k] else Fresh(now), val)
            else (k in m' <==> k in m) && (k in m ==> m'[k] == m[k])
  {
    hide KeyText, Sampled;
  }

  lemma AccountedCount(zero: Counter, generators: iset<Labels>, w: World, es: seq<Event>, labels: Labels)
    requires es != [] && (es[|es| - 1].CountCall? || es[|es| - 1].ServiceCount?)
    requires Can(w, es[|es| - 1]) && GoodLabels(labels) && Accounted(zero, w, es[..|es| - 1], labels)
    ensures Accounted(zero, Step(zero, generators, w, es[|es| - 1]), es, labels)
  {
    hide KeyText, GoodLabels, Lacks, AfterSamples, Counted;
    var e, before := es[|es| - 1], es[..|es| - 1];
    var key, k := if e.CountCall? then CALLS else e.key, KeyText(CALLS, labels);
    OwnNames();
    OtherKey(key, e.labels, CALLS, labels);
    CountAt(w.counts, key, e.labels, if e.CountCall? then 1 else e.val, k);
    IncMod(CallsIn(before, labels), 1);
    Empty(TimesIn(before, labels));
  }

  lemma AccountedSample(zero: Counter, generators: iset<Labels>, w: World, es: seq<Event>, labels: Labels)
    requires es != [] && (es[|es| - 1].SampleCall? || es[|es| - 1].ServiceSample?)
    requires Can(w, es[|es| - 1]) && GoodLabels(labels) && Accounted(zero, w, es[..|es| - 1], labels)
    ensures Accounted(zero, Step(zero, generators, w, es[|es| - 1]), es, labels)
  {
    hide KeyText, GoodLabels, Lacks, Sampled, WithSample, AfterSamples, Fresh, Counted;
    var e, before := es[|es| - 1], es[..|es| - 1];
    var key, k := if e.SampleCall? then TIMES else e.key, KeyText(TIMES, labels);
    OwnNames();
    OtherKey(key, e.labels, TIMES, labels);
    SampleAt(zero, w.histograms, key, e.labels, if e.SampleCall? then e.elapsed else e.sample, e.now, k);
    Empty(TimesIn(before, labels));
    NextSample(zero, FirstTime(es, labels), TimesIn(before, labels), if e.SampleCall? then e.elapsed else 0);
    FirstStays(es, labels);
    hide FirstTime;
  }

  lemma FirstStays(es: seq<Event>, labels: Labels)
    requires es != []
    ensures var e, before := es[|es| - 1], es[..|es| - 1];
            FirstTime(es, labels) == if e.SampleCall? && e.labels == labels && TimesIn(before, labels) == [] then e.now
                                     else FirstTime(before, labels)
  {}

  lemma NextSample(zero: Counter, created: Word, vs: seq<nat>, v: nat)
    ensures AfterSamples(zero, created, vs + [v]) == Sampled(zero, AfterSamples(zero, created, vs), v)
    ensures AfterSamples(zero, created, []) == Fresh(created)
  {
    hide Sampled;
    assert (vs + [v])[..|vs|] == vs;
  }

  /** Over every interleaving, for each label set: the call counter is the number of calls counted, and
      the histogram is that of exactly the durations sampled. */
  lemma {:induction false} CallsAreAccounted(zero: Counter, generators: iset<Labels>, es: seq<Event>, labels: Labels)
    requires Run(zero, generators, es).Some? && GoodLabels(labels)
    ensures Accounted(zero, Run(zero, generators, es).value, es, labels)
  {
    if es != [] {
      var e := es[|es| - 1];
      CallsAreAccounted(zero, generators, es[..|es| - 1], labels);
      var w := Run(zero, generators, es[..|es| - 1]).value;
      hide Accounted, Step;
      if e.CountCall? || e.ServiceCount? {
        AccountedCount(zero, generators, w, es, labels);
      } else {
        AccountedSample(zero, generators, w, es, labels);
      }
    }
  }
}
