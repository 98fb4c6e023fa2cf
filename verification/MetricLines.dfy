/** The rendered metrics as lines of text. */
module MetricLines {
  import opened MetricsHistogram
  import opened MetricsKeys
  import opened MetricFamilies
  import opened Metrics
  import opened Sequences
  import Msgpack
  import Json
  import JsonRoundTrip

  // ---------- lines ----------

  function Unlines(ls: seq<string>): string {
    if ls == [] then "" else Unlines(ls[..|ls| - 1]) + (ls[|ls| - 1] + "\n")
  }

  /** The lines of a text, without their ends; what follows the last end is a line too, if anything. */
  function SplitLines(text: string): seq<string> {
    if text == "" then []
    else
      var r := SplitLines(text[1..]);
      if text[0] == '\n' then [""] + r
      else if r == [] then [[text[0]]]
      else [[text[0]] + r[0]] + r[1..]
  }

  predicate Clean(s: string) {
    Lacks('\n', s)
  }

  predicate AllClean(ls: seq<string>) {
    forall i :: 0 <= i < |ls| ==> Clean(ls[i])
  }

  lemma CleanConcat(a: string, b: string)
    ensures Clean(a + b) <==> Clean(a) && Clean(b)
  {
    assert forall x :: x in a + b <==> x in a || x in b;
  }

  lemma AllCleanConcat(a: seq<string>, b: seq<string>)
    ensures AllClean(a + b) <==> AllClean(a) && AllClean(b)
  {
    assert forall i :: 0 <= i < |a| ==> (a + b)[i] == a[i];
    assert forall i :: 0 <= i < |b| ==> (a + b)[|a| + i] == b[i];
  }

  lemma {:induction false} SplitClean(text: string)
    ensures AllClean(SplitLines(text))
  {
    if text != "" {
      SplitClean(text[1..]);
      var r := SplitLines(text[1..]);
      if r != [] {
        CleanConcat([text[0]], r[0]);
      }
    }
  }

  lemma {:induction false} SplitFirst(l: string, t: string)
    requires Clean(l)
    ensures SplitLines(l + "\n" + t) == [l] + SplitLines(t)
  {
    var text := l + "\n" + t;
    if l == "" {
      assert text == ['\n'] + t;
      Singleton('\n', t);
    } else {
      CleanConcat([l[0]], l[1..]);
      assert [l[0]] + l[1..] == l && l[0] in l;
      SplitFirst(l[1..], t);
      assert text[0] == l[0] && text[1..] == l[1..] + "\n" + t;
    }
  }

  lemma {:induction false} UnlinesConcat(a: seq<string>, b: seq<string>)
    ensures Unlines(a + b) == Unlines(a) + Unlines(b)
  {
    if b == [] {
      Empty(a);
      Empty(Unlines(a));
    } else {
      var n := |b| - 1;
      assert (a + b)[..|a + b| - 1] == a + b[..n];
      UnlinesConcat(a, b[..n]);
      Assoc(Unlines(a), Unlines(b[..n]), b[n] + "\n");
    }
  }

  lemma {:induction false} SplitUnlines(ls: seq<string>)
    requires AllClean(ls)
    ensures SplitLines(Unlines(ls)) == ls
  {
    if ls != [] {
      SplitUnlines(ls[1..]);
      SplitAt(ls, 1);
      UnlinesConcat(ls[..1], ls[1..]);
      assert Unlines(ls[..1]) == ls[0] + "\n" by {
        assert ls[..1] == [ls[0]] && [ls[0]][..0] == [];
        Empty(ls[0] + "\n");
      }
      SplitFirst(ls[0], Unlines(ls[1..]));
    }
  }

  /** Lines are read back from their text exactly when none of them contains a line end. */
  lemma SplitsExactly(ls: seq<string>)
    ensures SplitLines(Unlines(ls)) == ls <==> AllClean(ls)
  {
    SplitClean(Unlines(ls));
    if AllClean(ls) {
      SplitUnlines(ls);
    }
  }

  // ---------- the lines of a registry ----------

  function BucketLines(base: string, labels: string, h: Histogram, slots: seq<Counter>): seq<string> {
    if slots == [] then []
    else
      var i := slots[0];
      var le := if i == SLOTS - 1 then "+Inf" else Msgpack.Decimal(Bound(i));
      [AddLabel(base + "_bucket" + labels, "le", le) + " " + Msgpack.Decimal(h[i])]
      + (if i == SLOTS - 1 then [base + "_count" + labels + " " + Msgpack.Decimal(h[i])] else [])
      + BucketLines(base, labels, h, slots[1..])
  }

  function HistogramLines(base: string, labels: string, h: Histogram): seq<string> {
    BucketLines(base, labels, h, Printed(h, 2, true))
    + [base + "_sum" + labels + " " + Msgpack.Decimal(h[1]), base + "_created" + labels + " " + Msgpack.Decimal(h[0])]
  }

  /** Two lines for a header, one for each sample. */
  function ItemLines(reg: Registry, item: Item): seq<string>
    requires reg.Valid() && ItemOf(reg, item)
  {
    match item
    case Header(name, help, kind) => ["# HELP " + name + " " + help, "# TYPE " + name + " " + KindName(kind)]
    case Series(k, kind) =>
      match kind
      case InfoKind => [AddLabel(k, "info", reg.all[k]) + " 1"]
      case HistogramKind => HistogramLines(BaseName(k), k[|BaseName(k)|..], reg.histograms[k])
      case _ => [k + " " + reg.all[k]]
  }

  function AllLines(reg: Registry, items: seq<Item>): seq<string>
    requires reg.Valid() && Rendered(reg, items)
  {
    if items == [] then [] else AllLines(reg, items[..|items| - 1]) + ItemLines(reg, items[|items| - 1])
  }

  lemma UnlinesOne(l: string)
    ensures Unlines([l]) == l + "\n"
  {
    assert [l][..0] == [];
    Empty(l + "\n");
  }

  lemma UnlinesTwo(l: string, m: string)
    ensures Unlines([l, m]) == (l + "\n") + (m + "\n")
  {
    UnlinesOne(l);
    UnlinesOne(m);
    UnlinesConcat([l], [m]);
    assert [l, m] == [l] + [m];
  }

  lemma {:induction false} BucketsAreLines(base: string, labels: string, h: Histogram, slots: seq<Counter>)
    ensures BucketsText(base, labels, h, slots) == Unlines(BucketLines(base, labels, h, slots))
  {
    hide AddLabel, Msgpack.Decimal, Bound, Unlines;
    if slots == [] {
      NoLines();
    } else {
      BucketsAreLines(base, labels, h, slots[1..]);
      var i := slots[0];
      var le := if i == SLOTS - 1 then "+Inf" else Msgpack.Decimal(Bound(i));
      var first := AddLabel(base + "_bucket" + labels, "le", le) + " " + Msgpack.Decimal(h[i]);
      var more := if i == SLOTS - 1 then [base + "_count" + labels + " " + Msgpack.Decimal(h[i])] else [];
      UnlinesOne(first);
      NoLines();
      if i == SLOTS - 1 {
        UnlinesOne(more[0]);
      }
      UnlinesConcat([first], more);
      UnlinesConcat([first] + more, BucketLines(base, labels, h, slots[1..]));
    }
  }

  lemma NoLines()
    ensures Unlines([]) == "" && AllClean([])
  {}

  lemma ItemIsLines(reg: Registry, item: Item)
    requires reg.Valid() && ItemOf(reg, item)
    ensures ItemText(reg, item) == Unlines(ItemLines(reg, item))
  {
    hide AddLabel, Msgpack.Decimal, IndexOf, Unlines, BucketsText, BucketLines, KindName;
    match item
    case Header(name, help, kind) =>
      UnlinesTwo("# HELP " + name + " " + help, "# TYPE " + name + " " + KindName(kind));
      HeaderJoined(name, help, KindName(kind));
    case Series(k, kind) =>
      match kind {
        case InfoKind =>
          UnlinesOne(AddLabel(k, "info", reg.all[k]) + " 1");
          Assoc(AddLabel(k, "info", reg.all[k]), " 1", "\n");
        case HistogramKind =>
          HistogramIsLines(BaseName(k), k[|BaseName(k)|..], reg.histograms[k]);
        case _ =>
          UnlinesOne(k + " " + reg.all[k]);
      }
  }

  lemma HeaderJoined(name: string, help: string, kind: string)
    ensures "# HELP " + name + " " + help + "\n# TYPE " + name + " " + kind + "\n"
            == ("# HELP " + name + " " + help + "\n") + ("# TYPE " + name + " " + kind + "\n")
  {
    var a := "# HELP " + name + " " + help;
    assert "\n# TYPE " == "\n" + "# TYPE ";
    assert a + "\n# TYPE " + name + " " + kind + "\n" == a + "\n" + "# TYPE " + name + " " + kind + "\n";
  }

  lemma HistogramIsLines(base: string, labels: string, h: Histogram)
    ensures HistogramText(base, labels, h) == Unlines(HistogramLines(base, labels, h))
  {
    hide AddLabel, Msgpack.Decimal, Unlines, BucketsText, BucketLines, Printed;
    var p := Printed(h, 2, true);
    var sum := base + "_sum" + labels + " " + Msgpack.Decimal(h[1]);
    var created := base + "_created" + labels + " " + Msgpack.Decimal(h[0]);
    BucketsAreLines(base, labels, h, p);
    UnlinesTwo(sum, created);
    UnlinesConcat(BucketLines(base, labels, h, p), [sum, created]);
    Assoc(BucketsText(base, labels, h, p), sum + "\n", created + "\n");
  }

  lemma {:induction false} TextIsLines(reg: Registry, items: seq<Item>)
    requires reg.Valid() && Rendered(reg, items)
    ensures ItemsText(reg, items) == Unlines(AllLines(reg, items))
  {
    hide ItemText, ItemLines, Unlines;
    if items == [] {
      NoLines();
    } else {
      var n := |items| - 1;
      TextIsLines(reg, items[..n]);
      ItemIsLines(reg, items[n]);
      UnlinesConcat(AllLines(reg, items[..n]), ItemLines(reg, items[n]));
    }
  }

  // ---------- which lines are clean ----------

  lemma DecimalClean(n: nat)
    ensures Clean(Msgpack.Decimal(n))
  {
    JsonRoundTrip.NaturalDigits(n);
  }

  lemma {:induction false} EscapedClean(v: string)
    ensures Clean(EscapeLabel(v))
  {
    if v != "" {
      EscapedClean(v[1..]);
      CleanConcat(EscapeChar(v[0]), EscapeLabel(v[1..]));
    }
  }

  /** An added label brings no line end. */
  lemma LabelClean(key: string, k: string, v: string)
    requires key != "" && Clean(k)
    ensures Clean(AddLabel(key, k, v)) <==> Clean(key)
  {
    hide EscapeLabel;
    EscapedClean(v);
    var n := |key| - 1;
    var open := if key[n] == '}' then key[..n] + "," else key + "{";
    CleanConcat(key[..n], [key[n]]);
    assert key == key[..n] + [key[n]];
    CleanConcat(if key[n] == '}' then key[..n] else key, if key[n] == '}' then "," else "{");
    CleanConcat(open, k);
    CleanConcat(open + k, "=\"");
    CleanConcat(open + k + "=\"", EscapeLabel(v));
    CleanConcat(open + k + "=\"" + EscapeLabel(v), "\"}");
  }

  lemma SampleClean(base: string, suffix: string, labels: string, n: nat)
    requires Clean(suffix)
    ensures Clean(base + suffix + labels + " " + Msgpack.Decimal(n)) <==> Clean(base) && Clean(labels)
  {
    hide Clean;
    DecimalClean(n);
    CleanConcat(base, suffix);
    CleanConcat(base + suffix, labels);
    CleanConcat(base + suffix + labels, " ");
    CleanConcat(base + suffix + labels + " ", Msgpack.Decimal(n));
    assert Clean(" ") by {
      LiteralsClean();
    }
  }

  lemma LiteralsClean()
    ensures Clean(" ") && Clean(" 1") && Clean("# HELP ") && Clean("# TYPE ") && Clean("le") && Clean("info")
    ensures Clean("_bucket") && Clean("_count") && Clean("_sum") && Clean("_created") && Clean("# EOF")
    ensures forall kind :: Clean(KindName(kind)) && Clean("Generic Metrics: " + KindName(kind))
  {}

  lemma {:induction false} BucketsClean(base: string, labels: string, h: Histogram, slots: seq<Counter>)
    requires Clean(base) && Clean(labels)
    ensures AllClean(BucketLines(base, labels, h, slots))
  {
    hide AddLabel, Msgpack.Decimal, Clean, Bound;
    if slots != [] {
      BucketsClean(base, labels, h, slots[1..]);
      var i := slots[0];
      var le := if i == SLOTS - 1 then "+Inf" else Msgpack.Decimal(Bound(i));
      LiteralsClean();
      CleanConcat(base, "_bucket");
      CleanConcat(base + "_bucket", labels);
      LabelClean(base + "_bucket" + labels, "le", le);
      CleanConcat(AddLabel(base + "_bucket" + labels, "le", le), " ");
      DecimalClean(h[i]);
      CleanConcat(AddLabel(base + "_bucket" + labels, "le", le) + " ", Msgpack.Decimal(h[i]));
      SampleClean(base, "_count", labels, h[i]);
    }
  }

  lemma HistogramClean(k: string, h: Histogram)
    ensures AllClean(HistogramLines(BaseName(k), k[|BaseName(k)|..], h)) <==> Clean(k)
  {
    hide AddLabel, Msgpack.Decimal, Clean, BucketLines, Printed, IndexOf;
    var base, labels := BaseName(k), k[|BaseName(k)|..];
    CleanConcat(base, labels);
    assert k == base + labels;
    LiteralsClean();
    SampleClean(base, "_sum", labels, h[1]);
    SampleClean(base, "_created", labels, h[0]);
    var last := [base + "_sum" + labels + " " + Msgpack.Decimal(h[1]),
                 base + "_created" + labels + " " + Msgpack.Decimal(h[0])];
    AllCleanConcat(BucketLines(base, labels, h, Printed(h, 2, true)), last);
    assert AllClean(last) ==> Clean(last[0]);
    if Clean(base) && Clean(labels) {
      BucketsClean(base, labels, h, Printed(h, 2, true));
    }
  }

  /** Nothing in the item contains a line end. */
  predicate ItemClean(item: Item) {
    match item
    case Header(name, help, _) => Clean(name) && Clean(help)
    case Series(k, _) => Clean(k)
  }

  /** Values of counters and gauges are numbers. */
  predicate PlainValues(reg: Registry) {
    forall k :: k in reg.all && (reg.KindOf(k) == CounterKind || reg.KindOf(k) == GaugeKind) ==> Clean(reg.all[k])
  }

  lemma ItemLinesClean(reg: Registry, item: Item)
    requires reg.Valid() && ItemOf(reg, item) && PlainValues(reg)
    ensures AllClean(ItemLines(reg, item)) <==> ItemClean(item)
  {
    hide AddLabel, Clean, BaseName, HistogramLines, KindName;
    LiteralsClean();
    var ls := ItemLines(reg, item);
    match item
    case Header(name, help, kind) =>
      CleanConcat("# HELP ", name);
      CleanConcat("# HELP " + name, " ");
      CleanConcat("# HELP " + name + " ", help);
      CleanConcat("# TYPE ", name);
      CleanConcat("# TYPE " + name, " ");
      CleanConcat("# TYPE " + name + " ", KindName(kind));
      assert AllClean(ls) ==> Clean(ls[0]);
    case Series(k, kind) =>
      match kind {
        case InfoKind =>
          LabelClean(k, "info", reg.all[k]);
          CleanConcat(AddLabel(k, "info", reg.all[k]), " 1");
          assert AllClean(ls) <==> Clean(ls[0]);
        case HistogramKind =>
          HistogramClean(k, reg.histograms[k]);
        case _ =>
          CleanConcat(k, " ");
          CleanConcat(k + " ", reg.all[k]);
          assert AllClean(ls) <==> Clean(ls[0]);
      }
  }

  lemma {:induction false} LinesClean(reg: Registry, items: seq<Item>)
    requires reg.Valid() && Rendered(reg, items) && PlainValues(reg)
    ensures AllClean(AllLines(reg, items)) <==> AllItemsClean(items)
  {
    hide ItemLines, ItemClean;
    if items != [] {
      var n := |items| - 1;
      LinesClean(reg, items[..n]);
      ItemLinesClean(reg, items[n]);
      hide AllClean;
      AllCleanConcat(AllLines(reg, items[..n]), ItemLines(reg, items[n]));
      assert forall i :: 0 <= i < n ==> items[..n][i] == items[i];
    } else {
      NoLines();
    }
  }

  /** Every key, and every help text that is emitted, has no line end. */
  predicate CleanSource(reg: Registry, keys: seq<string>, last: string) {
    && (forall i :: 0 <= i < |keys| ==> Clean(keys[i]))
    && (forall n :: n in Headers(NamesOf(keys), last) && n in reg.help ==> Clean(reg.help[n]))
  }

  lemma {:induction false} ItemsClean(reg: Registry, keys: seq<string>, last: string)
    ensures AllItemsClean(Items(reg, keys, last)) <==> CleanSource(reg, keys, last)
  {
    hide Clean, BaseName, KindName, AllItemsClean, ItemsFor;
    if keys != [] {
      hide CleanSource;
      var k := keys[0];
      var name := BaseName(k);
      ItemsClean(reg, keys[1..], name);
      HeadClean(reg, k, last);
      ConcatItemsClean(ItemsFor(reg, k, last), Items(reg, keys[1..], name));
      SourceCons(reg, keys, last);
    } else {
      NoItemsClean();
    }
  }

  predicate AllItemsClean(items: seq<Item>) {
    forall i :: 0 <= i < |items| ==> ItemClean(items[i])
  }

  lemma NoItemsClean()
    ensures AllItemsClean([])
  {}

  lemma ConcatItemsClean(a: seq<Item>, b: seq<Item>)
    ensures AllItemsClean(a + b) <==> AllItemsClean(a) && AllItemsClean(b)
  {
    assert forall i :: 0 <= i < |a| ==> (a + b)[i] == a[i];
    assert forall i :: 0 <= i < |b| ==> (a + b)[|a| + i] == b[i];
  }

  lemma HeadClean(reg: Registry, k: string, last: string)
    ensures AllItemsClean(ItemsFor(reg, k, last)) <==>
            Clean(k) && (BaseName(k) != last && BaseName(k) in reg.help ==> Clean(reg.help[BaseName(k)]))
  {
    var name, kind := BaseName(k), reg.KindOf(k);
    LiteralsClean();
    CleanConcat(name, k[|name|..]);
    assert k == name + k[|name|..];
    var items := ItemsFor(reg, k, last);
    if name != last {
      assert items == [Header(name, HelpText(reg, name, kind), kind), Series(k, kind)];
      assert ItemClean(items[0]) && ItemClean(items[1]) <==> forall i :: 0 <= i < 2 ==> ItemClean(items[i]);
    } else {
      assert items == [Series(k, kind)];
      assert ItemClean(items[0]) <==> forall i :: 0 <= i < 1 ==> ItemClean(items[i]);
    }
  }

  lemma SourceCons(reg: Registry, keys: seq<string>, last: string)
    requires keys != []
    ensures var name := BaseName(keys[0]);
            CleanSource(reg, keys, last) <==>
              && Clean(keys[0])
              && (name != last && name in reg.help ==> Clean(reg.help[name]))
              && CleanSource(reg, keys[1..], name)
  {
    hide Clean, BaseName;
    var name := BaseName(keys[0]);
    assert NamesOf(keys)[1..] == NamesOf(keys[1..]) && NamesOf(keys)[0] == name;
    assert forall i :: 0 < i < |keys| ==> keys[i] == keys[1..][i - 1];
    var rest := Headers(NamesOf(keys[1..]), name);
    assert Headers(NamesOf(keys), last) == (if name != last then [name] else []) + rest;
  }

  /** The rendered text is made of two lines for each header and one for each sample; read line by
      line it gives back exactly these if and only if no key and no help text that is emitted has a
      line end in it.  Label values may have. */
  lemma LinesExactly(info: map<string, string>, help: map<string, string>, counts: map<string, Word>,
                     gauges: map<string, Word>, histograms: map<string, Histogram>)
    requires Collected(info, help, counts, gauges, histograms).Valid()
    ensures var reg := Collected(info, help, counts, gauges, histograms);
            var keys := SortedKeys(reg.all.Keys);
            var items := Items(reg, keys, "");
            Rendered(reg, items) &&
            var text, lines := ItemsText(reg, items) + "# EOF\n", AllLines(reg, items) + ["# EOF"];
            && text == Unlines(lines)
            && (SplitLines(text) == lines <==> CleanSource(reg, keys, ""))
  {
    var reg := Collected(info, help, counts, gauges, histograms);
    var keys := SortedKeys(reg.all.Keys);
    var items := Items(reg, keys, "");
    NumbersPlain(info, help, counts, gauges, histograms);
    hide Collected, Items, ItemsText, AllLines, CleanSource, ItemClean, Unlines, SplitLines, SortedKeys;
    AllRendered(reg, keys, "");
    TextIsLines(reg, items);
    UnlinesOne("# EOF");
    UnlinesConcat(AllLines(reg, items), ["# EOF"]);
    SplitsExactly(AllLines(reg, items) + ["# EOF"]);
    AllCleanConcat(AllLines(reg, items), ["# EOF"]);
    LiteralsClean();
    LinesClean(reg, items);
    ItemsClean(reg, keys, "");
  }

  lemma NumbersPlain(info: map<string, string>, help: map<string, string>, counts: map<string, Word>,
                     gauges: map<string, Word>, histograms: map<string, Histogram>)
    ensures PlainValues(Collected(info, help, counts, gauges, histograms))
  {
    hide Msgpack.Decimal, Clean;
    var reg := Collected(info, help, counts, gauges, histograms);
    forall k | k in reg.all && (reg.KindOf(k) == CounterKind || reg.KindOf(k) == GaugeKind)
      ensures Clean(reg.all[k])
    {
      if k in gauges {
        DecimalClean(gauges[k]);
      } else {
        DecimalClean(counts[k]);
      }
    }
  }

  lemma {:induction false} AllRendered(reg: Registry, keys: seq<string>, last: string)
    requires forall i :: 0 <= i < |keys| ==> keys[i] in reg.all
    ensures Rendered(reg, Items(reg, keys, last))
  {
    hide BaseName, HelpText;
    if keys != [] {
      AllRendered(reg, keys[1..], BaseName(keys[0]));
    }
  }

  // ---------- an example ----------

  lemma OneKeySorted(k: string)
    ensures SortedKeys({k}) == [k]
  {
    var s := SortedKeys({k});
    assert k in s && forall i :: 0 <= i < |s| ==> s[i] in s;
    if |s| > 1 {
      assert s[0] == k && s[1] == k && Less(s[0], s[1]);
      LessTotal(k, k);
    }
  }

  lemma ExampleItems(reg: Registry, help: string)
    requires reg.all == map["a" := "0"] && reg.kinds == map["a" := CounterKind] && reg.help == map["a" := help]
    ensures Items(reg, ["a"], "") == [Header("a", help, CounterKind), Series("a", CounterKind)]
  {
    assert BaseName("a") == "a";
    assert ["a"][1..] == [];
  }

  lemma ExampleText(reg: Registry, help: string)
    requires reg.Valid() && reg.all == map["a" := "0"] && reg.kinds == map["a" := CounterKind]
    ensures var items := [Header("a", help, CounterKind), Series("a", CounterKind)];
            Rendered(reg, items) && ItemsText(reg, items) == HeaderText("a", help, CounterKind) + "a 0\n"
  {
    var items := [Header("a", help, CounterKind), Series("a", CounterKind)];
    assert items[..1][..0] == [] && items[..1] == [items[0]];
    assert ItemsText(reg, items[..1]) == HeaderText("a", help, CounterKind);
    assert "a" + " " + "0" + "\n" == "a 0\n";
  }

  /** Whatever follows a line end in a help text becomes a line of its own. */
  lemma HelpBreaks(name: string, first: string, second: string, kind: Kind, rest: string)
    requires Clean(name) && Clean(first) && Clean(second)
    ensures SplitLines(HeaderText(name, first + "\n" + second, kind) + rest)
            == ["# HELP " + name + " " + first, second, "# TYPE " + name + " " + KindName(kind)] + SplitLines(rest)
  {
    var a, b, d := "# HELP " + name + " " + first, second, "# TYPE " + name + " " + KindName(kind);
    LiteralsClean();
    CleanConcat("# HELP ", name);
    CleanConcat("# HELP " + name, " ");
    CleanConcat("# HELP " + name + " ", first);
    CleanConcat("# TYPE ", name);
    CleanConcat("# TYPE " + name, " ");
    CleanConcat("# TYPE " + name + " ", KindName(kind));
    BreakJoined(name, first, second, KindName(kind), rest);
    assert HeaderText(name, first + "\n" + second, kind) + rest == a + "\n" + (b + "\n" + (d + "\n" + rest));
    hide Clean, KindName, HeaderText, SplitLines;
    SplitFirst(d, rest);
    SplitFirst(b, d + "\n" + rest);
    SplitFirst(a, b + "\n" + (d + "\n" + rest));
    assert [a] + ([b] + ([d] + SplitLines(rest))) == [a, b, d] + SplitLines(rest);
  }

  lemma BreakJoined(name: string, first: string, second: string, kind: string, rest: string)
    ensures "# HELP " + name + " " + (first + "\n" + second) + "\n# TYPE " + name + " " + kind + "\n" + rest
            == "# HELP " + name + " " + first + "\n" + (second + "\n" + ("# TYPE " + name + " " + kind + "\n" + rest))
  {
    HeaderJoined(name, first + "\n" + second, kind);
    assert "# HELP " + name + " " + (first + "\n" + second) == "# HELP " + name + " " + first + "\n" + second;
  }

  /** A help text with a line end in it announces a family that does not exist. */
  lemma ForgedHeader()
    ensures var help := map["a" := "x" + "\n" + "# TYPE b counter"];
            var reg := Collected(map[], help, map["a" := 0], map[], map[]);
            var items := Items(reg, SortedKeys(reg.all.Keys), "");
            && reg.Valid() && Rendered(reg, items)
            && SplitLines(ItemsText(reg, items) + "# EOF\n")
               == ["# HELP a x", "# TYPE b counter", "# TYPE a counter", "a 0", "# EOF"]
  {
    var help := "x" + "\n" + "# TYPE b counter";
    var reg := Collected(map[], map["a" := help], map["a" := 0], map[], map[]);
    assert Msgpack.Decimal(0) == "0";
    assert reg.all == map["a" := "0"] && reg.kinds == map["a" := CounterKind];
    assert reg.all.Keys == {"a"};
    OneKeySorted("a");
    ExampleItems(reg, help);
    ExampleText(reg, help);
    ExampleRest();
    hide *;
    ExampleNames();
    HelpBreaks("a", "x", "# TYPE b counter", CounterKind, "a 0\n" + "# EOF\n");
    Assoc(HeaderText("a", help, CounterKind), "a 0\n", "# EOF\n");
  }

  lemma ExampleNames()
    ensures "# HELP " + "a" + " " + "x" == "# HELP a x"
    ensures "# TYPE " + "a" + " " + KindName(CounterKind) == "# TYPE a counter"
    ensures Clean("a") && Clean("x") && Clean("# TYPE b counter")
  {}

  lemma ExampleRest()
    ensures SplitLines("a 0\n" + "# EOF\n") == ["a 0", "# EOF"]
  {
    assert Clean("a 0") && Clean("# EOF") && SplitLines("") == [];
    hide SplitLines, Clean;
    SplitFirst("# EOF", "");
    Empty("# EOF" + "\n");
    SplitFirst("a 0", "# EOF\n");
    assert "a 0" + "\n" == "a 0\n" && "# EOF" + "\n" == "# EOF\n";
    assert ["a 0"] + (["# EOF"] + []) == ["a 0", "# EOF"];
  }
}
