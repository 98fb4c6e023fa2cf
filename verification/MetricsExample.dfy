/** One scrape, spelled out. */
module MetricsExample {
  import opened MetricsHistogram
  import opened MetricsKeys
  import opened MetricFamilies
  import opened Metrics
  import opened MetricLines
  import opened Sequences
  import Msgpack

  /** Two samples, 40 and 100, taken by a histogram made at time 5. */
  const TWO_SAMPLES: Histogram := [5, 140, 0, 1, 2, 2, 2, 2, 2, 2, 2, 2, 2, 2, 2, 2, 2, 2, 2, 2]

  lemma Buckets(zero: Counter)
    ensures Bucket(zero, 40) == 3 && Bucket(zero, 100) == 4
  {
    assert CeilLog2(2) == 1 && CeilLog2(3) == 2 && CeilLog2(5) == 3 && CeilLog2(4) == 2;
    assert CeilLog2(10) == 4 && CeilLog2(20) == 5 && CeilLog2(40) == 6;
    assert CeilLog2(7) == 3 && CeilLog2(13) == 4 && CeilLog2(25) == 5 && CeilLog2(50) == 6 && CeilLog2(100) == 7;
  }

  lemma SampledTwice(zero: Counter)
    ensures AfterSamples(zero, 5, [40, 100]) == TWO_SAMPLES
  {
    Buckets(zero);
    hide Bucket;
    var vs: seq<nat> := [40, 100];
    assert vs[..1] == [40] && vs[..1][..0] == [];
    assert AfterSamples(zero, 5, []) == Fresh(5);
    assert AfterSamples(zero, 5, vs[..1]) == Sampled(zero, Fresh(5), 40);
    assert AfterSamples(zero, 5, vs) == Sampled(zero, Sampled(zero, Fresh(5), 40), 100);
  }

  lemma {:induction false} PrintedTail(i: nat)
    requires 5 <= i <= 19
    ensures Printed(TWO_SAMPLES, i, false) == [19]
    decreases 19 - i
  {
    if i < 19 {
      PrintedTail(i + 1);
      assert Skipped(TWO_SAMPLES, i, false);
    } else {
      assert Printed(TWO_SAMPLES, 20, false) == [];
    }
  }

  lemma PrintedThree()
    ensures Printed(TWO_SAMPLES, 2, true) == [3, 4, 19]
  {
    PrintedTail(5);
    assert Printed(TWO_SAMPLES, 4, false) == [4] + [19];
    assert Printed(TWO_SAMPLES, 3, true) == [3] + ([4] + [19]);
    assert Skipped(TWO_SAMPLES, 2, true);
    assert Printed(TWO_SAMPLES, 2, true) == Printed(TWO_SAMPLES, 3, true);
  }

  lemma SmallNumbers()
    ensures Msgpack.Decimal(1) == "1" && Msgpack.Decimal(2) == "2" && Msgpack.Decimal(5) == "5"
    ensures Msgpack.Decimal(64) == "64" && Msgpack.Decimal(128) == "128" && Msgpack.Decimal(140) == "140"
    ensures Msgpack.Decimal(3) == "3" && Msgpack.Decimal(7) == "7"
    ensures Bound(3) == 64 && Bound(4) == 128
  {
    assert Msgpack.Natural(1) == "1" && Msgpack.Natural(6) == "6";
    assert Msgpack.Natural(12) == "12" && Msgpack.Natural(14) == "14";
    assert Pow2(3) == 8 && Pow2(6) == 64 && Pow2(7) == 128;
  }

  lemma Escapes()
    ensures EscapeLabel("64") == "64" && EscapeLabel("128") == "128" && EscapeLabel("+Inf") == "+Inf"
  {
    assert EscapeLabel("4") == "4" && EscapeLabel("8") == "8" && EscapeLabel("28") == "28";
    assert EscapeLabel("f") == "f" && EscapeLabel("nf") == "nf" && EscapeLabel("Inf") == "Inf";
  }

  lemma BucketLabels()
    ensures AddLabel("t_bucket", "le", "64") == "t_bucket{le=\"64\"}"
    ensures AddLabel("t_bucket", "le", "128") == "t_bucket{le=\"128\"}"
    ensures AddLabel("t_bucket", "le", "+Inf") == "t_bucket{le=\"+Inf\"}"
  {
    Escapes();
  }

  lemma BucketLinesOne(i: Counter, h: Histogram, le: string, rest: seq<Counter>)
    requires le == if i == 19 then "+Inf" else Msgpack.Decimal(Bound(i))
    ensures BucketLines("t", "", h, [i] + rest) ==
            [AddLabel("t_bucket", "le", le) + " " + Msgpack.Decimal(h[i])]
            + (if i == 19 then ["t_count " + Msgpack.Decimal(h[i])] else []) + BucketLines("t", "", h, rest)
  {
    hide AddLabel, Msgpack.Decimal, Bound;
    Singleton(i, rest);
    assert "t" + "_bucket" + "" == "t_bucket" && "t" + "_count" + "" + " " == "t_count ";
  }

  lemma TwoSamplesLines()
    ensures HistogramLines("t", "", TWO_SAMPLES) == SAMPLES_LINES
  {
    var h := TWO_SAMPLES;
    PrintedThree();
    SmallNumbers();
    BucketLabels();
    hide AddLabel, Msgpack.Decimal, Bound, Printed;
    BucketLinesOne(3, h, "64", [4] + ([19] + []));
    BucketLinesOne(4, h, "128", [19] + []);
    BucketLinesOne(19, h, "+Inf", []);
    assert [3] + ([4] + ([19] + [])) == [3, 4, 19];
    assert BucketLines("t", "", h, []) == [];
    Texts();
    assert BucketLines("t", "", h, [3, 4, 19]) ==
           ["t_bucket{le=\"64\"} 1"] + [] + (["t_bucket{le=\"128\"} 2"] + []
           + (["t_bucket{le=\"+Inf\"} 2"] + ["t_count 2"] + []));
  }

  lemma Texts()
    ensures "t_bucket{le=\"64\"}" + " " + "1" == "t_bucket{le=\"64\"} 1"
    ensures "t_bucket{le=\"128\"}" + " " + "2" == "t_bucket{le=\"128\"} 2"
    ensures "t_bucket{le=\"+Inf\"}" + " " + "2" == "t_bucket{le=\"+Inf\"} 2"
    ensures "t_count " + "2" == "t_count 2"
    ensures "t" + "_sum" + "" + " " + "140" == "t_sum 140" && "t" + "_created" + "" + " " + "5" == "t_created 5"
  {}

  // ---------- the whole scrape ----------

  const CALLS_KEY := "calls{m=\"x\"}"
  const KEYS := ["app", CALLS_KEY, "t", "temp"]

  const APP_HEADER := Header("app", "Generic Metrics: info", InfoKind)
  const APP := Series("app", InfoKind)
  const CALLS_HEADER := Header("calls", "Calls.", CounterKind)
  const CALLS := Series(CALLS_KEY, CounterKind)
  const TIMES_HEADER := Header("t", "Generic Metrics: histogram", HistogramKind)
  const TIMES := Series("t", HistogramKind)
  const TEMP_HEADER := Header("temp", "Generic Metrics: gauge", GaugeKind)
  const TEMP := Series("temp", GaugeKind)

  const APP_LINES := ["# HELP app " + "Generic Metrics: info", "# TYPE app info", "app{info=\"v\\\"1\"} 1"]
  const CALLS_LINES := ["# HELP calls Calls.", "# TYPE calls counter", "calls{m=\"x\"} 3"]
  const SAMPLES_LINES := ["t_bucket{le=\"64\"} 1", "t_bucket{le=\"128\"} 2", "t_bucket{le=\"+Inf\"} 2", "t_count 2",
                          "t_sum 140", "t_created 5"]
  const TIMES_LINES := ["# HELP t " + "Generic Metrics: histogram", "# TYPE t histogram"] + SAMPLES_LINES
  const TEMP_LINES := ["# HELP temp " + "Generic Metrics: gauge", "# TYPE temp gauge", "temp 7"]

  ghost function ExampleRegistry(): Registry {
    Collected(map["app" := "v\"1"], map["calls" := "Calls."], map[CALLS_KEY := 3], map["temp" := 7],
              map["t" := TWO_SAMPLES])
  }

  lemma ExampleSorted()
    ensures Sorted(KEYS)
  {
    assert Less("app", CALLS_KEY) && Less("app", "t") && Less("app", "temp");
    assert Less(CALLS_KEY, "t") && Less(CALLS_KEY, "temp");
    assert Less("", "emp") && Less("t", "temp");
  }

  lemma ExampleHolds(k: string)
    ensures var reg := ExampleRegistry();
            && (k in reg.all <==> k in KEYS)
            && reg.help == map["calls" := "Calls."]
            && reg.histograms == map["t" := TWO_SAMPLES]
            && (k == "app" ==> reg.KindOf(k) == InfoKind && reg.all[k] == "v\"1")
            && (k == CALLS_KEY ==> reg.KindOf(k) == CounterKind && reg.all[k] == Msgpack.Decimal(3))
            && (k == "t" ==> reg.KindOf(k) == HistogramKind)
            && (k == "temp" ==> reg.KindOf(k) == GaugeKind && reg.all[k] == Msgpack.Decimal(7))
  {
    hide Msgpack.Decimal, Collected;
    CollectedAt(map["app" := "v\"1"], map["calls" := "Calls."], map[CALLS_KEY := 3], map["temp" := 7],
                map["t" := TWO_SAMPLES], k);
    KeysDiffer();
  }

  lemma KeysDiffer()
    ensures KEYS[0] == "app" && KEYS[1] == CALLS_KEY && KEYS[2] == "t" && KEYS[3] == "temp"
    ensures |CALLS_KEY| == 12 && "app" != "t"
  {}

  lemma ExampleValid()
    ensures ExampleRegistry().Valid()
  {
    var reg := ExampleRegistry();
    hide Msgpack.Decimal, ExampleRegistry, Registry.KindOf;
    forall k | k in reg.all
      ensures reg.KindOf(k) == InfoKind ==> k != ""
      ensures reg.KindOf(k) == HistogramKind ==> k in reg.histograms
    {
      ExampleHolds(k);
      KeysDiffer();
    }
    KindsKnown();
  }

  lemma KindsKnown()
    ensures var reg := ExampleRegistry();
            forall k :: k in reg.kinds ==> k in reg.all && reg.KindOf(k) == reg.kinds[k]
  {
    hide Msgpack.Decimal;
  }

  lemma ExampleKeys()
    ensures ExampleRegistry().Valid() && SortedKeys(ExampleRegistry().all.Keys) == KEYS
  {
    hide ExampleRegistry, Registry.KindOf, SortedKeys;
    var keys := ExampleRegistry().all.Keys;
    forall x
      ensures x in KEYS <==> x in keys
    {
      ExampleHolds(x);
    }
    ExampleHolds("");
    ExampleValid();
    ExampleSorted();
    SortedUnique(KEYS, SortedKeys(keys));
  }

  lemma ExampleNames()
    ensures BaseName("app") == "app" && BaseName(CALLS_KEY) == "calls"
    ensures BaseName("t") == "t" && BaseName("temp") == "temp"
  {
    assert Lacks('{', "app") && Lacks('{', "calls") && Lacks('{', "t") && Lacks('{', "temp");
    hide Lacks, IndexOf;
    IndexOfFirst('{', "app", "");
    IndexOfFirst('{', "calls", "m=\"x\"}");
    IndexOfFirst('{', "t", "");
    IndexOfFirst('{', "temp", "");
    assert CALLS_KEY == "calls" + (['{'] + "m=\"x\"}");
  }

  lemma ItemsCons(reg: Registry, k: string, rest: seq<string>, last: string, name: string, kind: Kind, help: string)
    requires BaseName(k) == name != last && reg.KindOf(k) == kind
    requires if name in reg.help then reg.help[name] == help else "Generic Metrics: " + KindName(kind) == help
    ensures Items(reg, [k] + rest, last) == [Header(name, help, kind), Series(k, kind)] + Items(reg, rest, name)
  {
    hide BaseName, KindName, Registry.KindOf;
    Singleton(k, rest);
    assert [Header(name, help, kind)] + [Series(k, kind)] == [Header(name, help, kind), Series(k, kind)];
  }

  lemma Helps()
    ensures "Generic Metrics: " + KindName(InfoKind) == "Generic Metrics: info"
    ensures "Generic Metrics: " + KindName(GaugeKind) == "Generic Metrics: gauge"
    ensures "Generic Metrics: " + KindName(HistogramKind) == "Generic Metrics: histogram"
    ensures "app" != "calls" && "t" != "calls" && "temp" != "calls" && "temp" != "t"
  {
    assert |"app"| == 3 && |"calls"| == 5 && |"t"| == 1 && |"temp"| == 4;
  }

  lemma ExampleItems(reg: Registry)
    requires reg.help == map["calls" := "Calls."]
    requires reg.KindOf("app") == InfoKind && reg.KindOf(CALLS_KEY) == CounterKind
    requires reg.KindOf("t") == HistogramKind && reg.KindOf("temp") == GaugeKind
    ensures Items(reg, KEYS, "")
            == [APP_HEADER, APP] + ([CALLS_HEADER, CALLS] + ([TIMES_HEADER, TIMES] + ([TEMP_HEADER, TEMP] + [])))
  {
    ExampleNames();
    Helps();
    hide Items, BaseName, KindName, Registry.KindOf;
    ItemsCons(reg, "app", [CALLS_KEY] + (["t"] + (["temp"] + [])), "", "app", InfoKind, "Generic Metrics: info");
    ItemsCons(reg, CALLS_KEY, ["t"] + (["temp"] + []), "app", "calls", CounterKind, "Calls.");
    ItemsCons(reg, "t", ["temp"] + [], "calls", "t", HistogramKind, "Generic Metrics: histogram");
    ItemsCons(reg, "temp", [], "t", "temp", GaugeKind, "Generic Metrics: gauge");
    NoItems(reg, "temp");
    hide APP_HEADER, APP, CALLS_HEADER, CALLS, TIMES_HEADER, TIMES, TEMP_HEADER, TEMP;
    assert ["app"] + ([CALLS_KEY] + (["t"] + (["temp"] + []))) == KEYS;
  }

  lemma AddedLines(reg: Registry, header: Item, series: Item, rest: seq<Item>)
    requires reg.Valid() && Rendered(reg, rest) && ItemOf(reg, header) && ItemOf(reg, series)
    ensures Rendered(reg, [header, series] + rest)
    ensures AllLines(reg, [header, series] + rest)
            == (ItemLines(reg, header) + ItemLines(reg, series)) + AllLines(reg, rest)
  {
    hide ItemLines, Registry.Valid, ItemOf;
    var two := [header, series];
    assert two[..1] == [header] && two[..1][..0] == [];
    assert Rendered(reg, two);
    LinesConcat(reg, two, rest);
    Empty(ItemLines(reg, header));
    assert AllLines(reg, two[..1]) == ItemLines(reg, header);
  }

  lemma {:induction false} LinesConcat(reg: Registry, a: seq<Item>, b: seq<Item>)
    requires reg.Valid() && Rendered(reg, a) && Rendered(reg, b)
    ensures Rendered(reg, a + b) && AllLines(reg, a + b) == AllLines(reg, a) + AllLines(reg, b)
    decreases |b|
  {
    hide ItemLines, Registry.Valid, ItemOf;
    if b == [] {
      Empty(a);
      Empty(AllLines(reg, a));
    } else {
      var n := |b| - 1;
      assert (a + b)[..|a + b| - 1] == a + b[..n];
      LinesConcat(reg, a, b[..n]);
      Assoc(AllLines(reg, a), AllLines(reg, b[..n]), ItemLines(reg, b[n]));
    }
  }

  lemma AppLabel()
    ensures AddLabel("app", "info", "v\"1") == "app{info=\"v\\\"1\"}"
  {
    assert EscapeLabel("1") == "1" && EscapeLabel("\"1") == "\\\"1" && EscapeLabel("v\"1") == "v\\\"1";
    hide EscapeLabel;
  }

  lemma AppLines(reg: Registry)
    requires reg.Valid() && "app" in reg.all && reg.KindOf("app") == InfoKind && reg.all["app"] == "v\"1"
    ensures ItemLines(reg, APP_HEADER) + ItemLines(reg, APP) == APP_LINES
  {
    AppHeader(reg);
    AppSeries(reg);
    hide ItemLines;
  }

  lemma AppHeader(reg: Registry)
    requires reg.Valid()
    ensures ItemLines(reg, APP_HEADER) == ["# HELP app " + "Generic Metrics: info", "# TYPE app info"]
  {
    assert "# HELP " + "app" + " " == "# HELP app ";
    assert "# TYPE " + "app" + " " + "info" == "# TYPE app info";
  }

  lemma AppSeries(reg: Registry)
    requires reg.Valid() && "app" in reg.all && reg.KindOf("app") == InfoKind && reg.all["app"] == "v\"1"
    ensures ItemLines(reg, APP) == ["app{info=\"v\\\"1\"} 1"]
  {
    AppLabel();
    hide AddLabel, HistogramLines, BaseName;
    assert "app{info=\"v\\\"1\"}" + " 1" == "app{info=\"v\\\"1\"} 1";
  }

  lemma CallsLines(reg: Registry)
    requires reg.Valid() && CALLS_KEY in reg.all && reg.KindOf(CALLS_KEY) == CounterKind && reg.all[CALLS_KEY] == "3"
    ensures ItemLines(reg, CALLS_HEADER) + ItemLines(reg, CALLS)
            == CALLS_LINES
  {
    assert "calls{m=\"x\"}" + " " + "3" == "calls{m=\"x\"} 3";
    assert "# HELP " + "calls" + " " + "Calls." == "# HELP calls Calls.";
    assert "# TYPE " + "calls" + " " + "counter" == "# TYPE calls counter";
  }

  lemma TimesLines(reg: Registry)
    requires reg.Valid() && "t" in reg.all && reg.KindOf("t") == HistogramKind
    requires "t" in reg.histograms && reg.histograms["t"] == TWO_SAMPLES
    ensures ItemLines(reg, TIMES_HEADER) + ItemLines(reg, TIMES) == TIMES_LINES
  {
    TwoSamplesLines();
    TimesHeader(reg);
    TimesSeries(reg);
    hide ItemLines;
  }

  lemma TimesHeader(reg: Registry)
    requires reg.Valid()
    ensures ItemLines(reg, TIMES_HEADER) == ["# HELP t " + "Generic Metrics: histogram", "# TYPE t histogram"]
  {
    assert "# HELP " + "t" + " " == "# HELP t ";
    assert "# TYPE " + "t" + " " + "histogram" == "# TYPE t histogram";
  }

  lemma TimesSeries(reg: Registry)
    requires reg.Valid() && "t" in reg.all && reg.KindOf("t") == HistogramKind && "t" in reg.histograms
    ensures ItemLines(reg, TIMES) == HistogramLines("t", "", reg.histograms["t"])
  {
    ExampleNames();
    hide HistogramLines, BaseName;
    assert "t"[1..] == "";
  }

  lemma TempLines(reg: Registry)
    requires reg.Valid() && "temp" in reg.all && reg.KindOf("temp") == GaugeKind && reg.all["temp"] == "7"
    ensures ItemLines(reg, TEMP_HEADER) + ItemLines(reg, TEMP) == TEMP_LINES
  {
    hide HistogramLines, BaseName, AddLabel;
    TempTexts();
  }

  lemma TempTexts()
    ensures "temp" + " " + "7" == "temp 7"
    ensures "# HELP " + "temp" + " " == "# HELP temp "
    ensures "# TYPE " + "temp" + " " + "gauge" == "# TYPE temp gauge"
  {}

  /** An info, a counter with a label and a help text of its own, a histogram of the samples 40 and 100,
      and a gauge, line by line. */
  lemma ExampleScrape()
    ensures var reg := ExampleRegistry();
            var items := Items(reg, SortedKeys(reg.all.Keys), "");
            && reg.Valid() && Rendered(reg, items)
            && AllLines(reg, items) == APP_LINES + (CALLS_LINES + (TIMES_LINES + TEMP_LINES))
  {
    var reg := ExampleRegistry();
    ExampleKeys();
    SmallNumbers();
    ExampleHolds("app");
    ExampleHolds(CALLS_KEY);
    ExampleHolds("t");
    ExampleHolds("temp");
    assert forall k :: k in KEYS ==> k in reg.all by {
      forall k | k in KEYS
        ensures k in reg.all
      {
        ExampleHolds(k);
      }
    }
    hide *;
    ExampleItems(reg);
    NoneRendered(reg);
    ScrapeLines(reg);
  }

  lemma NoneRendered(reg: Registry)
    requires reg.Valid()
    ensures Rendered(reg, []) && AllLines(reg, []) == []
  {}

  lemma ScrapeLines(reg: Registry)
    requires reg.Valid() && (forall k :: k in KEYS ==> k in reg.all)
    requires reg.KindOf("app") == InfoKind && reg.KindOf(CALLS_KEY) == CounterKind
    requires reg.KindOf("t") == HistogramKind && reg.KindOf("temp") == GaugeKind
    requires "app" in reg.all && CALLS_KEY in reg.all && "temp" in reg.all && "t" in reg.all
    requires reg.all["app"] == "v\"1" && reg.all[CALLS_KEY] == "3" && reg.all["temp"] == "7"
    requires "t" in reg.histograms && reg.histograms["t"] == TWO_SAMPLES
    ensures var items := [APP_HEADER, APP] + ([CALLS_HEADER, CALLS]
                         + ([TIMES_HEADER, TIMES] + ([TEMP_HEADER, TEMP] + [])));
            Rendered(reg, items) && AllLines(reg, items) == APP_LINES + (CALLS_LINES + (TIMES_LINES + TEMP_LINES))
  {
    hide *;
    AppLines(reg);
    CallsLines(reg);
    TimesLines(reg);
    TempLines(reg);
    ExampleRendered(reg);
    NoneRendered(reg);
    AddedLines(reg, TEMP_HEADER, TEMP, []);
    AddedLines(reg, TIMES_HEADER, TIMES, [TEMP_HEADER, TEMP] + []);
    AddedLines(reg, CALLS_HEADER, CALLS, [TIMES_HEADER, TIMES] + ([TEMP_HEADER, TEMP] + []));
    AddedLines(reg, APP_HEADER, APP, [CALLS_HEADER, CALLS] + ([TIMES_HEADER, TIMES] + ([TEMP_HEADER, TEMP] + [])));
    Empty(TEMP_LINES);
  }

  lemma ExampleRendered(reg: Registry)
    requires reg.Valid() && (forall k :: k in KEYS ==> k in reg.all)
    requires reg.KindOf("app") == InfoKind && reg.KindOf(CALLS_KEY) == CounterKind
    requires reg.KindOf("t") == HistogramKind && reg.KindOf("temp") == GaugeKind
    ensures ItemOf(reg, APP_HEADER) && ItemOf(reg, APP) && ItemOf(reg, CALLS_HEADER) && ItemOf(reg, CALLS)
    ensures ItemOf(reg, TIMES_HEADER) && ItemOf(reg, TIMES) && ItemOf(reg, TEMP_HEADER) && ItemOf(reg, TEMP)
  {}
}
