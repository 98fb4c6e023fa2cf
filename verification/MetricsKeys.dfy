/** Series keys: a name and its labels in one text, and how to take them apart again. */
module MetricsKeys {
  import opened Basics
  import opened Sequences

  // ---------- the order strings are sorted in ----------

  predicate Less(a: string, b: string) {
    if b == "" then false
    else if a == "" then true
    else a[0] < b[0] || (a[0] == b[0] && Less(a[1..], b[1..]))
  }

  lemma {:induction false} LessTotal(a: string, b: string)
    ensures Less(a, b) || a == b || Less(b, a)
    ensures !(Less(a, b) && Less(b, a)) && !Less(a, a)
  {
    if a != "" {
      LessTotal(a[1..], a[1..]);
      if b != "" {
        LessTotal(a[1..], b[1..]);
        assert a == [a[0]] + a[1..] && b == [b[0]] + b[1..];
      }
    }
  }

  lemma {:induction false} LessTransitive(a: string, b: string, c: string)
    requires Less(a, b) && Less(b, c)
    ensures Less(a, c)
  {
    if a != "" && a[0] == b[0] == c[0] {
      LessTransitive(a[1..], b[1..], c[1..]);
    }
  }

  predicate Sorted(s: seq<string>) {
    forall i, j :: 0 <= i < j < |s| ==> Less(s[i], s[j])
  }

  function Insert(x: string, s: seq<string>): seq<string> {
    if s == [] || Less(x, s[0]) then [x] + s else [s[0]] + Insert(x, s[1..])
  }

  lemma {:induction false} InsertSorted(x: string, s: seq<string>)
    requires Sorted(s) && x !in s
    ensures Sorted(Insert(x, s))
    ensures forall y :: y in Insert(x, s) <==> y == x || y in s
  {
    if s == [] {
    } else if Less(x, s[0]) {
      forall j | 0 < j < |s|
        ensures Less(x, s[j])
      {
        LessTransitive(x, s[0], s[j]);
      }
    } else {
      LessTotal(x, s[0]);
      InsertSorted(x, s[1..]);
      var r := Insert(x, s[1..]);
      forall j | 0 <= j < |r|
        ensures Less(s[0], r[j])
      {
        assert r[j] in r;
      }
      assert s == [s[0]] + s[1..];
    }
  }

  lemma {:induction false} SortedUnique(s: seq<string>, t: seq<string>)
    requires Sorted(s) && Sorted(t) && forall x :: x in s <==> x in t
    ensures s == t
  {
    assert t != [] ==> t[0] in t;
    if s != [] {
      assert s[0] in t;
      assert t[0] in s;
      LessTotal(s[0], t[0]);
      var i :| 0 <= i < |s| && s[i] == t[0];
      var j :| 0 <= j < |t| && t[j] == s[0];
      assert s[0] == t[0];
      TailElements(s);
      TailElements(t);
      SortedUnique(s[1..], t[1..]);
      assert s == [s[0]] + s[1..] && t == [t[0]] + t[1..];
    }
  }

  lemma TailElements(s: seq<string>)
    requires s != [] && Sorted(s)
    ensures forall x :: x in s[1..] <==> x in s && x != s[0]
  {
    LessTotal(s[0], s[0]);
    forall x | x in s[1..]
      ensures x in s && x != s[0]
    {
      var i :| 1 <= i < |s| && s[i] == x;
      LessTotal(s[0], s[i]);
    }
  }

  /** The elements of keys in order. */
  ghost function SortedKeys(keys: set<string>): (s: seq<string>)
    ensures Sorted(s) && forall x :: x in s <==> x in keys
  {
    if !exists k :: k in keys then []
    else
      var k :| k in keys;
      var rest := SortedKeys(keys - {k});
      InsertSorted(k, rest);
      Insert(k, rest)
  }

  method Sort(keys: set<string>) returns (s: seq<string>)
    ensures s == SortedKeys(keys)
  {
    s := [];
    var todo := keys;
    while todo != {}
      invariant todo <= keys
      invariant Sorted(s) && forall x :: x in s <==> x in keys && x !in todo
      decreases todo
    {
      var k :| k in todo;
      todo := todo - {k};
      InsertSorted(k, s);
      s := Insert(k, s);
    }
    SortedUnique(s, SortedKeys(keys));
  }

  // ---------- label values ----------

  function EscapeChar(c: char): string {
    if c == '\\' then "\\\\" else if c == '\"' then "\\\"" else if c == '\n' then "\\n" else [c]
  }

  function EscapeLabel(v: string): string {
    if v == "" then "" else EscapeChar(v[0]) + EscapeLabel(v[1..])
  }

  /** A label value after its opening quote. */
  function ParseLabelValue(s: string): (r: Option<Parsed<string>>)
    ensures r.Some? ==> |r.value.rest| < |s|
    decreases |s|
  {
    if s == "" then None
    else if s[0] == '\"' then Some(Parsed("", s[1..]))
    else if s[0] == '\\' then
      if |s| == 1 then None
      else if s[1] == 'n' then Prepend('\n', ParseLabelValue(s[2..]))
      else if s[1] == '\\' || s[1] == '\"' then Prepend(s[1], ParseLabelValue(s[2..]))
      else None
    else Prepend(s[0], ParseLabelValue(s[1..]))
  }

  lemma EscapedCharParses(c: char, rest: string)
    ensures ParseLabelValue(EscapeChar(c) + rest) == Prepend(c, ParseLabelValue(rest))
  {
    var s := EscapeChar(c) + rest;
    if |EscapeChar(c)| == 1 {
      Singleton(c, rest);
    } else {
      assert s[2..] == rest && s[0] == '\\' && s[1] == EscapeChar(c)[1];
    }
  }

  lemma {:induction false} EscapedParses(v: string, rest: string)
    ensures ParseLabelValue(EscapeLabel(v) + ("\"" + rest)) == Some(Parsed(v, rest))
  {
    if v == "" {
      Empty("\"" + rest);
      Singleton('\"', rest);
    } else {
      EscapedParses(v[1..], rest);
      Assoc(EscapeChar(v[0]), EscapeLabel(v[1..]), "\"" + rest);
      EscapedCharParses(v[0], EscapeLabel(v[1..]) + ("\"" + rest));
      assert [v[0]] + v[1..] == v;
    }
  }

  // ---------- keys ----------

  type Labels = map<string, string>

  datatype Pair = Pair(name: string, value: string)

  function PairText(p: Pair): string {
    p.name + "=\"" + EscapeLabel(p.value) + "\""
  }

  /** The labels one after another, each after a comma. */
  function PairsText(ps: seq<Pair>): string {
    if ps == [] then "" else PairsText(ps[..|ps| - 1]) + "," + PairText(ps[|ps| - 1])
  }

  function PairsOf(names: seq<string>, labels: Labels): seq<Pair>
    requires forall n :: n in names ==> n in labels
  {
    seq(|names|, i requires 0 <= i < |names| => Pair(names[i], labels[names[i]]))
  }

  function SeriesText(key: string, ps: seq<Pair>): string {
    if ps == [] then key
    else key + "{" + (assert |PairsText(ps)| > 0; PairsText(ps)[1..]) + "}"
  }

  ghost function KeyText(key: string, labels: Labels): string {
    SeriesText(key, PairsOf(SortedKeys(labels.Keys), labels))
  }

  /** The series key for a name and its labels: the labels sorted by name, so that it does not
      depend on the order a map is walked in. */
  method KeyWithLabels(key: string, labels: Labels) returns (r: string)
    ensures r == KeyText(key, labels)
  {
    ghost var sorted := SortedKeys(labels.Keys);
    assert sorted != [] ==> sorted[0] in labels;
    if |labels| < 1 {
      return key;
    }
    ghost var some :| some in labels;
    assert some in sorted;
    var keys := Sort(labels.Keys);
    ghost var ps := PairsOf(keys, labels);
    var lText := "";
    for i := 0 to |keys|
      invariant lText == PairsText(ps[..i])
    {
      var lab := keys[i];
      lText := lText + "," + (lab + "=\"" + EscapeLabel(labels[lab]) + "\"");
      assert ps[..i + 1][..i] == ps[..i] && ps[..i + 1][i] == ps[i];
    }
    assert ps[..|keys|] == ps;
    r := key + "{" + lText[1..] + "}";
  }

  function IndexOf(c: char, s: string): (n: nat)
    ensures n <= |s| && (n < |s| ==> s[n] == c) && forall i :: 0 <= i < n ==> s[i] != c
  {
    if s == "" || s[0] == c then 0 else 1 + IndexOf(c, s[1..])
  }

  function BaseName(s: string): string {
    s[..IndexOf('{', s)]
  }

  /** One label and what follows it. */
  function ParsePair(s: string): (r: Option<Parsed<Pair>>)
    ensures r.Some? ==> |r.value.rest| < |s|
  {
    var n := IndexOf('=', s);
    if n + 1 >= |s| || s[n + 1] != '\"' then None
    else
      var v := ParseLabelValue(s[n + 2..]);
      if v.None? then None else Some(Parsed(Pair(s[..n], v.value.value), v.value.rest))
  }

  /** Labels separated by commas, up to a closing brace at the very end. */
  function ParsePairs(s: string): (r: Option<seq<Pair>>)
    decreases |s|
  {
    var p := ParsePair(s);
    if p.None? then None
    else if p.value.rest == "}" then Some([p.value.value])
    else if p.value.rest == "" || p.value.rest[0] != ',' then None
    else
      var more := ParsePairs(p.value.rest[1..]);
      if more.None? then None else Some([p.value.value] + more.value)
  }

  /** A series key, taken apart. */
  function ParseSeries(s: string): Option<(string, seq<Pair>)>
  {
    var n := IndexOf('{', s);
    if n == |s| then Some((s, []))
    else
      var ps := ParsePairs(s[n + 1..]);
      if ps.None? then None else Some((s[..n], ps.value))
  }

  predicate Lacks(c: char, s: string) {
    forall x :: x in s ==> x != c
  }

  lemma {:induction false} IndexOfFirst(c: char, a: string, b: string)
    requires Lacks(c, a)
    ensures IndexOf(c, a + ([c] + b)) == |a|
    ensures (a + ([c] + b))[..|a|] == a && (a + ([c] + b))[|a| + 1..] == b
    ensures IndexOf(c, a) == |a|
  {
    if a != "" {
      assert a[0] in a && forall x :: x in a[1..] ==> x in a;
      IndexOfFirst(c, a[1..], b);
      assert (a + ([c] + b))[1..] == a[1..] + ([c] + b);
    }
  }

  lemma PairParts(name: string, value: string, rest: string)
    ensures name + "=\"" + value + "\"" + rest == name + ("=" + ("\"" + (value + ("\"" + rest))))
  {}

  lemma PairParses(p: Pair, rest: string)
    requires Lacks('=', p.name)
    ensures ParsePair(PairText(p) + rest) == Some(Parsed(p, rest))
  {
    hide ParseLabelValue, EscapeLabel, IndexOf;
    var value := EscapeLabel(p.value) + ("\"" + rest);
    var s := p.name + ("=" + ("\"" + value));
    PairParts(p.name, EscapeLabel(p.value), rest);
    IndexOfFirst('=', p.name, "\"" + value);
    EscapedParses(p.value, rest);
    assert s[|p.name| + 2..] == value && s[|p.name| + 1] == '\"';
  }

  /** The labels without the first comma, built from the front. */
  function Listed(ps: seq<Pair>): string {
    if ps == [] then "" else if |ps| == 1 then PairText(ps[0]) else PairText(ps[0]) + "," + Listed(ps[1..])
  }

  lemma {:induction false} ListedAppend(ps: seq<Pair>, p: Pair)
    requires ps != []
    ensures Listed(ps + [p]) == Listed(ps) + "," + PairText(p)
  {
    assert (ps + [p])[1..] == ps[1..] + [p] && (ps + [p])[0] == ps[0];
    if |ps| == 1 {
      assert ps[1..] + [p] == [p];
    } else {
      ListedAppend(ps[1..], p);
      assert PairText(ps[0]) + "," + (Listed(ps[1..]) + "," + PairText(p))
          == PairText(ps[0]) + "," + Listed(ps[1..]) + "," + PairText(p);
    }
  }

  lemma {:induction false} PairsTextListed(ps: seq<Pair>)
    requires ps != []
    ensures PairsText(ps) == "," + Listed(ps)
  {
    var n := |ps| - 1;
    if n == 0 {
      assert ps[..0] == [];
      assert "" + "," + PairText(ps[0]) == "," + PairText(ps[0]);
    } else {
      PairsTextListed(ps[..n]);
      ListedAppend(ps[..n], ps[n]);
      assert ps == ps[..n] + [ps[n]];
      assert ("," + Listed(ps[..n])) + "," + PairText(ps[n]) == "," + (Listed(ps[..n]) + "," + PairText(ps[n]));
    }
  }

  predicate GoodNames(ps: seq<Pair>) {
    forall i :: 0 <= i < |ps| ==> Lacks('=', ps[i].name)
  }

  lemma MorePairs(s: string, p: Pair, more: string)
    requires ParsePair(s) == Some(Parsed(p, "," + more))
    ensures ParsePairs(s) == var r := ParsePairs(more); if r.None? then None else Some([p] + r.value)
  {
    Singleton(',', more);
  }

  lemma {:induction false} ListedParses(ps: seq<Pair>)
    requires ps != [] && GoodNames(ps)
    ensures ParsePairs(Listed(ps) + "}") == Some(ps)
  {
    hide ParsePair, PairText;
    if |ps| == 1 {
      PairParses(ps[0], "}");
      assert ps == [ps[0]];
    } else {
      var more := Listed(ps[1..]) + "}";
      assert Listed(ps) + "}" == PairText(ps[0]) + ("," + more);
      PairParses(ps[0], "," + more);
      ListedParses(ps[1..]);
      MorePairs(Listed(ps) + "}", ps[0], more);
      assert ps == [ps[0]] + ps[1..];
    }
  }

  /** A series text parses back to its name and labels, in order. */
  lemma SeriesParses(key: string, ps: seq<Pair>)
    requires Lacks('{', key) && GoodNames(ps)
    ensures ParseSeries(SeriesText(key, ps)) == Some((key, ps))
  {
    hide IndexOf, ParsePairs, Listed, SeriesText;
    IndexOfFirst('{', key, "");
    if ps == [] {
      BareSeries(key);
    } else {
      ListedSeries(key, ps);
      var body := Listed(ps) + "}";
      assert key + "{" + Listed(ps) + "}" == key + ("{" + body);
      IndexOfFirst('{', key, body);
      ListedParses(ps);
    }
  }

  predicate GoodLabels(labels: Labels) {
    forall n :: n in labels ==> Lacks('=', n)
  }

  lemma KeyParses(key: string, labels: Labels)
    requires Lacks('{', key) && GoodLabels(labels)
    ensures ParseSeries(KeyText(key, labels)) == Some((key, PairsOf(SortedKeys(labels.Keys), labels)))
  {
    var names := SortedKeys(labels.Keys);
    forall i | 0 <= i < |names|
      ensures Lacks('=', names[i])
    {
      assert names[i] in names;
    }
    SeriesParses(key, PairsOf(names, labels));
  }

  /** Different names or labels have different keys. */
  lemma KeyInjective(key: string, labels: Labels, key': string, labels': Labels)
    requires Lacks('{', key) && GoodLabels(labels) && Lacks('{', key') && GoodLabels(labels')
    requires KeyText(key, labels) == KeyText(key', labels')
    ensures key == key' && labels == labels'
  {
    KeyParses(key, labels);
    KeyParses(key', labels');
    var ns, ns' := SortedKeys(labels.Keys), SortedKeys(labels'.Keys);
    var ps, ps' := PairsOf(ns, labels), PairsOf(ns', labels');
    assert ps == ps' && |ns| == |ps| == |ns'|;
    forall i | 0 <= i < |ns|
      ensures ns[i] == ns'[i] && labels[ns[i]] == labels'[ns'[i]]
    {
      assert ps[i] == ps'[i];
    }
    assert ns == ns';
    assert labels.Keys == labels'.Keys;
    forall k | k in labels
      ensures labels[k] == labels'[k]
    {
      assert k in ns;
      var i :| 0 <= i < |ns| && ns[i] == k;
    }
  }

  // ---------- one more label ----------

  function AddLabel(key: string, k: string, v: string): string
    requires key != ""
  {
    var n := |key| - 1;
    if key[n] == '}' then key[..n] + "," + k + "=\"" + EscapeLabel(v) + "\"}"
    else key + "{" + k + "=\"" + EscapeLabel(v) + "\"}"
  }

  lemma AddBeforeBrace(open: string, k: string, v: string)
    ensures AddLabel(open + "}", k, v) == open + "," + PairText(Pair(k, v)) + "}"
  {
    assert (open + "}")[..|open|] == open;
    LabelText(open + ",", Pair(k, v));
  }

  lemma ListedSeries(key: string, ps: seq<Pair>)
    requires ps != []
    ensures SeriesText(key, ps) == key + "{" + Listed(ps) + "}"
  {
    PairsTextListed(ps);
    assert PairsText(ps)[1..] == Listed(ps);
  }

  lemma AddToLabels(key: string, ps: seq<Pair>, k: string, v: string)
    requires ps != []
    ensures SeriesText(key, ps) != ""
    ensures AddLabel(SeriesText(key, ps), k, v) == SeriesText(key, ps + [Pair(k, v)])
  {
    hide AddLabel, SeriesText, PairText, Listed;
    ListedSeries(key, ps);
    ListedSeries(key, ps + [Pair(k, v)]);
    ListedAppend(ps, Pair(k, v));
    AddBeforeBrace(key + "{" + Listed(ps), k, v);
    assert key + "{" + Listed(ps) + "," + PairText(Pair(k, v)) + "}"
        == key + "{" + (Listed(ps) + "," + PairText(Pair(k, v))) + "}";
  }

  lemma LabelText(before: string, p: Pair)
    ensures before + p.name + "=\"" + EscapeLabel(p.value) + "\"}" == before + PairText(p) + "}"
  {}

  lemma AddToName(key: string, k: string, v: string)
    requires key != "" && key[|key| - 1] != '}'
    ensures AddLabel(key, k, v) == SeriesText(key, [Pair(k, v)])
  {
    PairsTextListed([Pair(k, v)]);
    LabelText(key + "{", Pair(k, v));
    assert PairsText([Pair(k, v)])[1..] == PairText(Pair(k, v));
  }

  /** Adding a label to a series key adds it to its labels, at the end, exactly when the key has
      labels already or its name does not end in a brace. */
  lemma AddLabelAppends(key: string, ps: seq<Pair>, k: string, v: string)
    requires key != "" && Lacks('{', key) && GoodNames(ps) && Lacks('=', k)
    ensures SeriesText(key, ps) != ""
    ensures ParseSeries(AddLabel(SeriesText(key, ps), k, v)) == Some((key, ps + [Pair(k, v)])) <==>
            ps != [] || key[|key| - 1] != '}'
  {
    hide AddLabel, ParseSeries, SeriesText;
    if ps != [] {
      AddToLabels(key, ps, k, v);
      SeriesParses(key, ps + [Pair(k, v)]);
    } else {
      BareSeries(key);
      if key[|key| - 1] != '}' {
        AddToName(key, k, v);
        SeriesParses(key, [Pair(k, v)]);
        assert ps + [Pair(k, v)] == [Pair(k, v)];
      } else {
        BraceNameLost(key, k, v);
      }
    }
  }

  lemma BareSeries(key: string)
    ensures SeriesText(key, []) == key
  {}

  lemma BraceNameLost(key: string, k: string, v: string)
    requires key != "" && Lacks('{', key) && key[|key| - 1] == '}'
    ensures var r := ParseSeries(AddLabel(key, k, v)); r.None? || r.value.0 != key
  {
    var n := |key| - 1;
    var r := AddLabel(key, k, v);
    assert r[..n] == key[..n] && r[n] == ',';
    var i := IndexOf('{', r);
    if i > n {
      assert r[..i][n] == ',' && key[n] == '}';
    } else {
      assert |r[..i]| < |key|;
    }
  }
}
