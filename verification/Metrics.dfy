/** The metrics registry and its OpenMetrics renderer, as they run. */
module Metrics {
  import opened MetricsHistogram
  import opened MetricsKeys
  import opened MetricFamilies
  import opened Sequences
  import opened Basics
  import Msgpack

  // ---------- rendered items ----------

  datatype Kind = InfoKind | CounterKind | GaugeKind | HistogramKind

  datatype Item =
    | Header(name: string, help: string, kind: Kind)
    | Series(key: string, kind: Kind)

  /** Every series with the value text and kind it is rendered with. */
  datatype Registry = Registry(
    all: map<string, string>, kinds: map<string, Kind>, help: map<string, string>, histograms: map<string, Histogram>)
  {
    function KindOf(k: string): Kind {
      if k in kinds then kinds[k] else InfoKind
    }

    predicate Valid() {
      && (forall k :: k in kinds && kinds[k] == HistogramKind ==> k in histograms)
      && (forall k :: k in all && KindOf(k) == InfoKind ==> k != "")
    }
  }

  function KindName(kind: Kind): string {
    match kind
    case InfoKind => "info"
    case CounterKind => "counter"
    case GaugeKind => "gauge"
    case HistogramKind => "histogram"
  }

  function HelpText(reg: Registry, name: string, kind: Kind): string {
    if name in reg.help then reg.help[name] else "Generic Metrics: " + KindName(kind)
  }

  function ItemsFor(reg: Registry, k: string, last: string): seq<Item> {
    var name, kind := BaseName(k), reg.KindOf(k);
    (if name != last then [Header(name, HelpText(reg, name, kind), kind)] else []) + [Series(k, kind)]
  }

  /** What is emitted for keys, the last family emitted being last. */
  function Items(reg: Registry, keys: seq<string>, last: string): seq<Item> {
    if keys == [] then [] else ItemsFor(reg, keys[0], last) + Items(reg, keys[1..], BaseName(keys[0]))
  }

  function HeaderNames(items: seq<Item>): seq<string> {
    if items == [] then []
    else (if items[0].Header? then [items[0].name] else []) + HeaderNames(items[1..])
  }

  function SeriesKeys(items: seq<Item>): seq<string> {
    if items == [] then []
    else (if items[0].Series? then [items[0].key] else []) + SeriesKeys(items[1..])
  }

  /** Every series stands below a header of its own family, with no other header in between; header is
      that of the family before, if there is one. */
  predicate UnderOwnHeader(items: seq<Item>, header: Option<string>) {
    items == [] ||
    (if items[0].Header? then UnderOwnHeader(items[1..], Some(items[0].name))
     else Some(BaseName(items[0].key)) == header && UnderOwnHeader(items[1..], header))
  }

  lemma SeriesShape(series: Item, rest: seq<Item>, last: Option<string>)
    requires series.Series?
    ensures SeriesKeys([series] + rest) == [series.key] + SeriesKeys(rest)
    ensures HeaderNames([series] + rest) == HeaderNames(rest)
    ensures UnderOwnHeader([series] + rest, last) <==> Some(BaseName(series.key)) == last && UnderOwnHeader(rest, last)
  {
    Singleton(series, rest);
    Empty(HeaderNames(rest));
  }

  lemma HeaderShape(header: Item, rest: seq<Item>, last: Option<string>)
    requires header.Header?
    ensures SeriesKeys([header] + rest) == SeriesKeys(rest)
    ensures HeaderNames([header] + rest) == [header.name] + HeaderNames(rest)
    ensures UnderOwnHeader([header] + rest, last) <==> UnderOwnHeader(rest, Some(header.name))
  {
    Singleton(header, rest);
    Empty(SeriesKeys(rest));
  }

  /** Each key once, in order; the headers are those of the families; and every series stands under its
      own, but for those of the empty name with no header before them. */
  lemma {:induction false} ItemsShape(reg: Registry, keys: seq<string>, last: string, header: Option<string>)
    requires header == Some(last) || (header == None && last == "")
    ensures SeriesKeys(Items(reg, keys, last)) == keys
    ensures HeaderNames(Items(reg, keys, last)) == Headers(NamesOf(keys), last)
    ensures UnderOwnHeader(Items(reg, keys, last), header) <==> header.Some? || keys == [] || BaseName(keys[0]) != ""
    decreases |keys|
  {
    hide BaseName, HelpText, SeriesKeys, HeaderNames, UnderOwnHeader;
    if keys == [] {
      NoItemsShape(header);
    } else {
      var name, kind := BaseName(keys[0]), reg.KindOf(keys[0]);
      var series, rest := Series(keys[0], kind), Items(reg, keys[1..], name);
      var now := if name != last then Some(name) else header;
      ItemsShape(reg, keys[1..], name, now);
      assert NamesOf(keys)[1..] == NamesOf(keys[1..]) && NamesOf(keys)[0] == name;
      assert keys == [keys[0]] + keys[1..];
      SeriesShape(series, rest, now);
      if name != last {
        var first := Header(name, HelpText(reg, name, kind), kind);
        HeaderShape(first, [series] + rest, header);
        Assoc([first], [series], rest);
      } else {
        Empty([series]);
        Empty(Headers(NamesOf(keys)[1..], name));
      }
    }
  }

  lemma NoItemsShape(header: Option<string>)
    ensures SeriesKeys([]) == [] && HeaderNames([]) == [] && UnderOwnHeader([], header)
  {}

  /** The rendering of a registry: every series once; each below its family's header exactly when the
      first has a name at all; and one header per family exactly when no family with a name is split
      by a longer name that sorts between a series without labels and one with. */
  lemma FamiliesRendered(reg: Registry)
    ensures var keys := SortedKeys(reg.all.Keys);
            var items := Items(reg, keys, "");
            && SeriesKeys(items) == keys
            && (UnderOwnHeader(items, None) <==> keys == [] || BaseName(keys[0]) != "")
            && (Distinct(HeaderNames(items)) <==> forall b, l, m :: b != "" ==> !SplitFamily(reg.all.Keys, b, l, m))
  {
    ItemsShape(reg, SortedKeys(reg.all.Keys), "", None);
    OneHeaderPerFamily(reg.all.Keys);
  }

  /** A split family, in a registry of three series: "a" is announced twice. */
  lemma SplitFamilyExample(reg: Registry)
    requires reg.all.Keys == {"a", "a_b", "a{x=\"1\"}"}
    ensures !Distinct(HeaderNames(Items(reg, SortedKeys(reg.all.Keys), "")))
  {
    assert BaseName("a") == "a" && BaseName("a_b") == "a_b";
    assert "a" + "{" <= "a{x=\"1\"}";
    FamilyFromPrefix("a", "a{x=\"1\"}");
    assert SplitFamily(reg.all.Keys, "a", "a{x=\"1\"}", "a_b");
    FamiliesRendered(reg);
  }

  // ---------- the text ----------

  function BucketText(base: string, labels: string, h: Histogram, i: Counter): string {
    var le := if i == SLOTS - 1 then "+Inf" else Msgpack.Decimal(Bound(i));
    AddLabel(base + "_bucket" + labels, "le", le) + " " + Msgpack.Decimal(h[i]) + "\n" +
    if i == SLOTS - 1 then base + "_count" + labels + " " + Msgpack.Decimal(h[i]) + "\n" else ""
  }

  function BucketsText(base: string, labels: string, h: Histogram, slots: seq<Counter>): string {
    if slots == [] then "" else BucketText(base, labels, h, slots[0]) + BucketsText(base, labels, h, slots[1..])
  }

  function HistogramText(base: string, labels: string, h: Histogram): string {
    BucketsText(base, labels, h, Printed(h, 2, true))
    + (base + "_sum" + labels + " " + Msgpack.Decimal(h[1]) + "\n")
    + (base + "_created" + labels + " " + Msgpack.Decimal(h[0]) + "\n")
  }

  function HeaderText(name: string, help: string, kind: Kind): string {
    "# HELP " + name + " " + help + "\n# TYPE " + name + " " + KindName(kind) + "\n"
  }

  /** The item is a header, or a series of the registry. */
  predicate ItemOf(reg: Registry, item: Item) {
    item.Series? ==> item.key in reg.all && item.kind == reg.KindOf(item.key)
  }

  function ItemText(reg: Registry, item: Item): string
    requires reg.Valid() && ItemOf(reg, item)
  {
    match item
    case Header(name, help, kind) => HeaderText(name, help, kind)
    case Series(k, kind) =>
      match kind
      case InfoKind => AddLabel(k, "info", reg.all[k]) + " 1\n"
      case HistogramKind => HistogramText(BaseName(k), k[|BaseName(k)|..], reg.histograms[k])
      case _ => k + " " + reg.all[k] + "\n"
  }

  predicate Rendered(reg: Registry, items: seq<Item>) {
    forall i :: 0 <= i < |items| ==> ItemOf(reg, items[i])
  }

  function ItemsText(reg: Registry, items: seq<Item>): string
    requires reg.Valid() && Rendered(reg, items)
  {
    if items == [] then "" else ItemsText(reg, items[..|items| - 1]) + ItemText(reg, items[|items| - 1])
  }

  method RenderHistogram(base: string, labels: string, h: Histogram) returns (text: string)
    ensures text == HistogramText(base, labels, h)
  {
    hide AddLabel, Msgpack.Decimal, Bound;
    text := "";
    var first := true;
    ghost var all := BucketsText(base, labels, h, Printed(h, 2, true));
    for i := 2 to SLOTS
      invariant all == text + BucketsText(base, labels, h, Printed(h, i, first))
    {
      if h[i] == 0 || (h[i] == h[i - 1] && h[i] == h[SLOTS - 1] && i != SLOTS - 1 && !first) {
        continue;
      }
      Singleton(i as Counter, Printed(h, i + 1, false));
      Assoc(text, BucketText(base, labels, h, i), BucketsText(base, labels, h, Printed(h, i + 1, false)));
      var le := "+Inf";
      if i != SLOTS - 1 {
        le := Msgpack.Decimal(Bound(i));
      }
      var line := AddLabel(base + "_bucket" + labels, "le", le) + " " + Msgpack.Decimal(h[i]) + "\n";
      if le == "+Inf" {
        DecimalIsNotInf(Bound(i));
        line := line + (base + "_count" + labels + " " + Msgpack.Decimal(h[i]) + "\n");
      }
      Empty(line);
      text := text + line;
      first := false;
    }
    Empty(text);
    text := text + (base + "_sum" + labels + " " + Msgpack.Decimal(h[1]) + "\n");
    text := text + (base + "_created" + labels + " " + Msgpack.Decimal(h[0]) + "\n");
  }

  lemma {:induction false} DecimalIsNotInf(n: nat)
    ensures Msgpack.Decimal(n)[0] != '+'
    decreases n
  {
    if n >= 10 {
      DecimalIsNotInf(n / 10);
    }
  }

  // ---------- the registry ----------

  class Store {
    var help: map<string, string>
    var info: map<string, string>
    var counts: map<string, Word>
    var gauges: map<string, Word>
    var histograms: map<string, Histogram>
    /** What the rounded logarithm of 0 gives once converted to an integer and lowered by 3. */
    const logZero: int

    constructor (logZero: int)
      ensures this.logZero == logZero
      ensures help == map[] && info == map[] && counts == map[] && gauges == map[] && histograms == map[]
    {
      this.logZero := logZero;
      help, info, counts, gauges, histograms := map[], map[], map[], map[], map[];
    }

    /** The help text of a family. */
    method SetHelp(key: string, text: string)
      modifies `help
      ensures help == old(help)[key := text]
    {
      help := help[key := text];
    }

    method SetInfo(key: string, val: string, labels: Labels)
      modifies `info
      ensures info == old(info)[KeyText(key, labels) := val]
    {
      var k := KeyWithLabels(key, labels);
      info := info[k := val];
    }

    method SetGauge(key: string, val: Word, labels: Labels)
      modifies `gauges
      ensures gauges == old(gauges)[KeyText(key, labels) := val]
    {
      var k := KeyWithLabels(key, labels);
      gauges := gauges[k := val];
    }

    method Count(key: string, val: Word, labels: Labels)
      modifies `counts
      ensures var k := KeyText(key, labels);
              counts == old(counts)[k := if k in old(counts) then Inc(old(counts)[k], val) else val]
    {
      var k := KeyWithLabels(key, labels);
      var sum := val;
      if k in counts {
        sum := Inc(counts[k], val);
      }
      counts := counts[k := sum];
    }

    /** One sample, at time now. */
    method Sample(key: string, val: nat, labels: Labels, now: Word)
      modifies `histograms
      ensures var k := KeyText(key, labels);
              var start := if k in old(histograms) then old(histograms)[k] else Fresh(now);
              histograms == old(histograms)[k := Sampled(Clamped(logZero), start, val)]
    {
      var bucket: int := if val == 0 then logZero else CeilLog2(val) - 3;
      var k := KeyWithLabels(key, labels);
      var histogram: Histogram := if k in histograms then histograms[k] else Fresh(now);
      ghost var start := histogram;
      histogram := histogram[1 := Inc(histogram[1], val)];
      if bucket < 2 {
        bucket := 2;
      } else if bucket >= SLOTS {
        bucket := SLOTS - 1;
      }
      for i := bucket to SLOTS
        invariant forall j :: 0 <= j < SLOTS ==>
                    histogram[j] == if j == 1 then Inc(start[1], val)
                        else if bucket <= j < i then Inc(start[j], 1) else start[j]
      {
        histogram := histogram[i := Inc(histogram[i], 1)];
      }
      assert histogram == Sampled(Clamped(logZero), start, val);
      histograms := histograms[k := histogram];
    }
  }

  function WordTexts(m: map<string, Word>): map<string, string> {
    map k | k in m :: Msgpack.Decimal(m[k])
  }

  /** Every series of the merged registries: histograms come before gauges, these before counters, and
      these before infos. */
  function Collected(
    info: map<string, string>, help: map<string, string>, counts: map<string, Word>, gauges: map<string, Word>,
    histograms: map<string, Histogram>): Registry
  {
    Registry(AllTexts(info, counts, gauges, histograms), AllKinds(counts, gauges, histograms), help, histograms)
  }

  function AllTexts(info: map<string, string>, counts: map<string, Word>, gauges: map<string, Word>,
                    histograms: map<string, Histogram>): map<string, string>
  {
    map k | k in info.Keys + counts.Keys + gauges.Keys + histograms.Keys ::
      if k in histograms then "" else if k in gauges then Msgpack.Decimal(gauges[k])
      else if k in counts then Msgpack.Decimal(counts[k]) else info[k]
  }

  function AllKinds(counts: map<string, Word>, gauges: map<string, Word>, histograms: map<string, Histogram>)
    : map<string, Kind>
  {
    map k | k in counts.Keys + gauges.Keys + histograms.Keys ::
      if k in histograms then HistogramKind else if k in gauges then GaugeKind else CounterKind
  }

  ghost function Snapshot(pub: Store, priv: Store): Registry
    reads pub, priv
  {
    Collected(pub.info + priv.info, pub.help + priv.help, pub.counts + priv.counts, pub.gauges + priv.gauges,
              pub.histograms + priv.histograms)
  }

  /** What is set in one of two maps, the second one first. */
  ghost predicate Holds<T(!new)>(a: map<string, T>, b: map<string, T>, k: string, val: T) {
    if k in b then b[k] == val else k in a && a[k] == val
  }

  /** A series k of both stores: a key set as several kinds is a histogram rather than a gauge, a gauge
      rather than a counter, and a counter rather than an info; a key set in both stores is what the
      second one has. */
  ghost predicate SeriesMerged(pub: Store, priv: Store, reg: Registry, k: string)
    requires k in reg.all
    reads pub, priv
  {
    if k in pub.histograms || k in priv.histograms then
      && reg.KindOf(k) == HistogramKind
      && k in reg.histograms && Holds(pub.histograms, priv.histograms, k, reg.histograms[k])
    else if k in pub.gauges || k in priv.gauges then
      && reg.KindOf(k) == GaugeKind
      && exists v: Word :: Holds(pub.gauges, priv.gauges, k, v) && reg.all[k] == Msgpack.Decimal(v)
    else if k in pub.counts || k in priv.counts then
      && reg.KindOf(k) == CounterKind
      && exists v: Word :: Holds(pub.counts, priv.counts, k, v) && reg.all[k] == Msgpack.Decimal(v)
    else reg.KindOf(k) == InfoKind && Holds(pub.info, priv.info, k, reg.all[k])
  }

  /** The registry has the series and help texts of both stores and no others. */
  ghost predicate Merges(pub: Store, priv: Store, reg: Registry)
    reads pub, priv
  {
    && (forall k :: k in reg.all <==>
          || k in pub.info || k in pub.counts || k in pub.gauges || k in pub.histograms
          || k in priv.info || k in priv.counts || k in priv.gauges || k in priv.histograms)
    && (forall k :: k in reg.all ==> SeriesMerged(pub, priv, reg, k))
    && (forall n :: n in reg.help <==> n in pub.help || n in priv.help)
    && (forall n :: n in reg.help ==> Holds(pub.help, priv.help, n, reg.help[n]))
  }

  lemma SumHolds<T(!new)>(a: map<string, T>, b: map<string, T>, k: string)
    requires k in a || k in b
    ensures k in a + b && Holds(a, b, k, (a + b)[k])
  {}

  lemma CollectedAt(info: map<string, string>, help: map<string, string>, counts: map<string, Word>,
                    gauges: map<string, Word>, histograms: map<string, Histogram>, k: string)
    ensures var reg := Collected(info, help, counts, gauges, histograms);
            && (k in reg.all <==> k in info || k in counts || k in gauges || k in histograms)
            && reg.histograms == histograms && reg.help == help
            && (k in reg.all ==>
                  if k in histograms then reg.KindOf(k) == HistogramKind
                  else if k in gauges then reg.KindOf(k) == GaugeKind && reg.all[k] == Msgpack.Decimal(gauges[k])
                  else if k in counts then reg.KindOf(k) == CounterKind && reg.all[k] == Msgpack.Decimal(counts[k])
                  else reg.KindOf(k) == InfoKind && reg.all[k] == info[k])
  {
    hide Msgpack.Decimal;
  }

  lemma SnapshotMergesAt(pub: Store, priv: Store, k: string)
    ensures var reg := Snapshot(pub, priv);
            && (k in reg.all <==>
                  || k in pub.info || k in pub.counts || k in pub.gauges || k in pub.histograms
                  || k in priv.info || k in priv.counts || k in priv.gauges || k in priv.histograms)
            && (k in reg.all ==> SeriesMerged(pub, priv, reg, k))
  {
    hide Collected, Msgpack.Decimal, Holds, Registry.KindOf;
    CollectedAt(pub.info + priv.info, pub.help + priv.help, pub.counts + priv.counts, pub.gauges + priv.gauges,
                pub.histograms + priv.histograms, k);
    if k in pub.histograms || k in priv.histograms {
      SumHolds(pub.histograms, priv.histograms, k);
    } else if k in pub.gauges || k in priv.gauges {
      SumHolds(pub.gauges, priv.gauges, k);
    } else if k in pub.counts || k in priv.counts {
      SumHolds(pub.counts, priv.counts, k);
    } else if k in pub.info || k in priv.info {
      SumHolds(pub.info, priv.info, k);
    }
  }

  lemma SnapshotMerges(pub: Store, priv: Store)
    ensures Merges(pub, priv, Snapshot(pub, priv))
  {
    hide SeriesMerged, Collected, Holds;
    var reg := Snapshot(pub, priv);
    CollectedAt(pub.info + priv.info, pub.help + priv.help, pub.counts + priv.counts, pub.gauges + priv.gauges,
                pub.histograms + priv.histograms, "");
    forall k
      ensures k in reg.all <==>
              || k in pub.info || k in pub.counts || k in pub.gauges || k in pub.histograms
              || k in priv.info || k in priv.counts || k in priv.gauges || k in priv.histograms
      ensures k in reg.all ==> SeriesMerged(pub, priv, reg, k)
    {
      SnapshotMergesAt(pub, priv, k);
    }
    forall n | n in reg.help
      ensures Holds(pub.help, priv.help, n, reg.help[n])
    {
      SumHolds(pub.help, priv.help, n);
    }
  }

  /** Gives every key of texts its text and this kind, whatever it had before. */
  method Announce(all: map<string, string>, kinds: map<string, Kind>, texts: map<string, string>, kind: Kind)
    returns (all': map<string, string>, kinds': map<string, Kind>)
    ensures Overlaid(all, texts, all')
    ensures kinds'.Keys == kinds.Keys + texts.Keys
    ensures forall k :: k in kinds' ==> kinds'[k] == if k in texts then kind else kinds[k]
  {
    all', kinds' := all, kinds;
    var todo := texts.Keys;
    while todo != {}
      invariant todo <= texts.Keys
      invariant all'.Keys == all.Keys + (texts.Keys - todo) && kinds'.Keys == kinds.Keys + (texts.Keys - todo)
      invariant forall k :: k in all' ==> all'[k] == if k in texts && k !in todo then texts[k] else all[k]
      invariant forall k :: k in kinds' ==> kinds'[k] == if k in texts && k !in todo then kind else kinds[k]
      decreases todo
    {
      var k :| k in todo;
      todo := todo - {k};
      kinds' := kinds'[k := kind];
      all' := all'[k := texts[k]];
    }
  }

  function NoTexts(m: map<string, Histogram>): map<string, string> {
    map k | k in m :: ""
  }

  /** r is m with every entry of values in place of what m has. */
  ghost predicate Overlaid<T(!new)>(m: map<string, T>, values: map<string, T>, r: map<string, T>) {
    r.Keys == m.Keys + values.Keys && forall k :: k in r ==> r[k] == if k in values then values[k] else m[k]
  }

  lemma TextsOverlaid(info: map<string, string>, counts: map<string, Word>, gauges: map<string, Word>,
                      histograms: map<string, Histogram>, a: map<string, string>, b: map<string, string>,
                      d: map<string, string>)
    requires Overlaid(info, WordTexts(counts), a) && Overlaid(a, WordTexts(gauges), b)
    requires Overlaid(b, NoTexts(histograms), d)
    ensures d == AllTexts(info, counts, gauges, histograms)
  {
    hide Msgpack.Decimal;
    var all := AllTexts(info, counts, gauges, histograms);
    TextKeys(counts, gauges, histograms);
    assert d.Keys == all.Keys;
    forall k | k in d
      ensures d[k] == all[k]
    {
      if k in histograms {
        assert NoTexts(histograms)[k] == "";
      } else if k in gauges {
        assert WordTexts(gauges)[k] == Msgpack.Decimal(gauges[k]);
      } else if k in counts {
        assert WordTexts(counts)[k] == Msgpack.Decimal(counts[k]);
      }
    }
  }

  lemma TextKeys(counts: map<string, Word>, gauges: map<string, Word>, histograms: map<string, Histogram>)
    ensures WordTexts(counts).Keys == counts.Keys && WordTexts(gauges).Keys == gauges.Keys
    ensures NoTexts(histograms).Keys == histograms.Keys
  {}

  /** The loops over counters, gauges and histograms. */
  method Gather(info: map<string, string>, help: map<string, string>, counts: map<string, Word>,
                gauges: map<string, Word>, histograms: map<string, Histogram>) returns (reg: Registry)
    ensures reg == Collected(info, help, counts, gauges, histograms)
  {
    TextKeys(counts, gauges, histograms);
    hide AllTexts, AllKinds, Overlaid, WordTexts, NoTexts;
    var a, ka := Announce(info, map[], WordTexts(counts), CounterKind);
    var b, kb := Announce(a, ka, WordTexts(gauges), GaugeKind);
    var d, kd := Announce(b, kb, NoTexts(histograms), HistogramKind);
    TextsOverlaid(info, counts, gauges, histograms, a, b, d);
    KindsOverlaid(counts, gauges, histograms, ka, kb, kd);
    reg := Registry(d, kd, help, histograms);
  }

  lemma KindsOverlaid(counts: map<string, Word>, gauges: map<string, Word>, histograms: map<string, Histogram>,
                      a: map<string, Kind>, b: map<string, Kind>, d: map<string, Kind>)
    requires a.Keys == counts.Keys && forall k :: k in a ==> a[k] == CounterKind
    requires b.Keys == a.Keys + gauges.Keys && forall k :: k in b ==> b[k] == if k in gauges then GaugeKind else a[k]
    requires d.Keys == b.Keys + histograms.Keys
    requires forall k :: k in d ==> d[k] == if k in histograms then HistogramKind else b[k]
    ensures d == AllKinds(counts, gauges, histograms)
  {
    var kinds := AllKinds(counts, gauges, histograms);
    forall k
      ensures k in d <==> k in kinds
      ensures k in d ==> d[k] == kinds[k]
    {}
  }

  /** Renders both registries.  Adding a label to an empty key panics, so no info key is empty. */
  method RenderOpenMetrics(pub: Store, priv: Store) returns (text: string)
    requires Snapshot(pub, priv).Valid()
    ensures var reg := Snapshot(pub, priv);
            var items := Items(reg, SortedKeys(reg.all.Keys), "");
            Rendered(reg, items) && text == ItemsText(reg, items) + "# EOF\n" && Merges(pub, priv, reg)
  {
    SnapshotMerges(pub, priv);
    hide Items, ItemsText, Rendered, SortedKeys, Collected, Merges;
    var info, help := pub.info + priv.info, pub.help + priv.help;
    var counts, gauges := pub.counts + priv.counts, pub.gauges + priv.gauges;
    var reg := Gather(info, help, counts, gauges, pub.histograms + priv.histograms);
    text := RenderKeys(reg);
    text := text + "# EOF\n";
  }

  /** The loop over the sorted keys. */
  method RenderKeys(reg: Registry) returns (output: string)
    requires reg.Valid()
    ensures var items := Items(reg, SortedKeys(reg.all.Keys), "");
            Rendered(reg, items) && output == ItemsText(reg, items)
  {
    hide SortedKeys, ItemText, ItemsText, Less, Rendered, Items, ItemsFor, IndexOf;
    var keys := Sort(reg.all.Keys);
    NothingRendered(reg, keys);
    var lastMetric := "";
    output := "";
    ghost var items := [];
    for i := 0 to |keys|
      invariant items + Items(reg, keys[i..], lastMetric) == Items(reg, keys, "")
      invariant Rendered(reg, items) && output == ItemsText(reg, items)
    {
      var k := keys[i];
      assert k in keys;
      KeyRendered(reg, items, keys[i..], lastMetric);
      var vType := if k in reg.kinds then reg.kinds[k] else InfoKind;
      var baseName := BaseName(k);
      ghost var start := items;
      assert keys[i..][1..] == keys[i + 1..];
      if baseName != lastMetric {
        var vHelp := "Generic Metrics: " + KindName(vType);
        if baseName in reg.help {
          vHelp := reg.help[baseName];
        }
        output := output + HeaderText(baseName, vHelp, vType);
      }
      items := items + ItemsFor(reg, k, lastMetric);
      var text := RenderSeries(reg, k, vType);
      output := output + text;
      lastMetric := baseName;
    }
    assert keys[|keys|..] == [];
    Empty(items);
    NoItems(reg, lastMetric);
  }

  lemma NoItems(reg: Registry, last: string)
    ensures Items(reg, [], last) == []
  {}

  method RenderSeries(reg: Registry, k: string, vType: Kind) returns (text: string)
    requires reg.Valid() && ItemOf(reg, Series(k, vType))
    ensures text == ItemText(reg, Series(k, vType))
  {
    match vType {
      case InfoKind =>
        text := AddLabel(k, "info", reg.all[k]) + " 1\n";
      case HistogramKind =>
        var baseName := BaseName(k);
        text := RenderHistogram(baseName, k[|baseName|..], reg.histograms[k]);
      case _ =>
        text := k + " " + reg.all[k] + "\n";
    }
  }

  lemma NothingRendered(reg: Registry, keys: seq<string>)
    requires reg.Valid()
    ensures Rendered(reg, []) && ItemsText(reg, []) == "" && Items(reg, [], "") == []
    ensures [] + Items(reg, keys[0..], "") == Items(reg, keys, "")
  {
    assert keys[0..] == keys;
  }

  /** What one turn of the loop adds. */
  lemma KeyRendered(reg: Registry, items: seq<Item>, keys: seq<string>, last: string)
    requires reg.Valid() && Rendered(reg, items) && keys != [] && keys[0] in reg.all
    ensures var k := keys[0]; var name, kind, after := BaseName(k), reg.KindOf(k), items + ItemsFor(reg, k, last);
            && Rendered(reg, after) && ItemOf(reg, Series(k, kind))
            && ItemsText(reg, after) ==
               (if name != last then ItemsText(reg, items) + HeaderText(name, HelpText(reg, name, kind), kind)
                else ItemsText(reg, items)) + ItemText(reg, Series(k, kind))
            && after + Items(reg, keys[1..], name) == items + Items(reg, keys, last)
  {
    hide AddLabel, IndexOf;
    var k := keys[0];
    var name, kind := BaseName(k), reg.KindOf(k);
    var header := Header(name, HelpText(reg, name, kind), kind);
    Assoc(items, ItemsFor(reg, k, last), Items(reg, keys[1..], name));
    if name != last {
      ItemAdded(reg, items, header);
      ItemAdded(reg, items + [header], Series(k, kind));
      Assoc(items, [header], [Series(k, kind)]);
    } else {
      ItemAdded(reg, items, Series(k, kind));
      Empty([Series(k, kind)]);
    }
  }

  lemma ItemAdded(reg: Registry, items: seq<Item>, item: Item)
    requires reg.Valid() && Rendered(reg, items) && ItemOf(reg, item)
    ensures Rendered(reg, items + [item])
    ensures ItemsText(reg, items + [item]) == ItemsText(reg, items) + ItemText(reg, item)
  {
    assert (items + [item])[..|items|] == items;
  }
}
