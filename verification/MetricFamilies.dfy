/** Series grouped into metric families: which headers the renderer emits for sorted keys. */
module MetricFamilies {
  import opened MetricsKeys
  import opened Sequences

  /** The family headers emitted for series of these families, one after another. */
  function Headers(names: seq<string>, last: string): seq<string> {
    if names == [] then []
    else (if names[0] != last then [names[0]] else []) + Headers(names[1..], names[0])
  }

  predicate Distinct(s: seq<string>) {
    forall i, j :: 0 <= i < j < |s| ==> s[i] != s[j]
  }

  /** Equal names stand next to each other. */
  predicate Grouped(names: seq<string>) {
    forall i, j, k :: 0 <= i < j < k < |names| && names[i] == names[k] ==> names[j] == names[i]
  }

  lemma {:induction false} HeaderElements(rest: seq<string>, last: string)
    ensures forall x :: x in [last] + Headers(rest, last) <==> x in [last] + rest
  {
    if rest != [] {
      HeaderElements(rest[1..], rest[0]);
      assert rest == [rest[0]] + rest[1..];
      var more := Headers(rest[1..], rest[0]);
      forall x
        ensures x in [last] + Headers(rest, last) <==> x in [last] + rest
      {
        assert x in [rest[0]] + more <==> x in rest;
      }
    }
  }

  /** The first name does not come back after another one. */
  predicate HeadGrouped(names: seq<string>) {
    forall j, k :: 0 < j < k < |names| && names[k] == names[0] ==> names[j] == names[0]
  }

  lemma GroupedHead(names: seq<string>)
    requires names != []
    ensures Grouped(names) <==> HeadGrouped(names) && Grouped(names[1..])
  {
    var rest := names[1..];
    assert forall i :: 0 <= i < |rest| ==> rest[i] == names[i + 1];
    if Grouped(names) {
      forall i, j, k | 0 <= i < j < k < |rest| && rest[i] == rest[k]
        ensures rest[j] == rest[i]
      {
        assert names[i + 1] == names[k + 1];
      }
    }
    if HeadGrouped(names) && Grouped(rest) {
      forall i, j, k | 0 <= i < j < k < |names| && names[i] == names[k]
        ensures names[j] == names[i]
      {
        if i > 0 {
          assert rest[i - 1] == rest[k - 1];
        }
      }
    }
  }

  lemma GroupedAfterRepeat(rest: seq<string>)
    requires rest != []
    ensures Grouped([rest[0]] + rest) <==> Grouped(rest)
  {
    hide Grouped;
    var all := [rest[0]] + rest;
    GroupedHead(all);
    GroupedHead(rest);
    Singleton(rest[0], rest);
    if HeadGrouped(rest) {
      forall j, k | 0 < j < k < |all| && all[k] == all[0]
        ensures all[j] == all[0]
      {
        assert all[j] == rest[j - 1] && all[k] == rest[k - 1];
      }
    }
  }

  lemma GroupedAfterNew(rest: seq<string>, last: string)
    requires rest != [] && rest[0] != last
    ensures Grouped([last] + rest) <==> Grouped(rest) && last !in rest
  {
    hide Grouped;
    var all := [last] + rest;
    GroupedHead(all);
    Singleton(last, rest);
    assert forall k :: 0 < k < |all| ==> all[k] == rest[k - 1];
    if HeadGrouped(all) {
      forall k | 0 <= k < |rest|
        ensures rest[k] != last
      {
        assert all[k + 1] == rest[k] && all[1] == rest[0];
      }
    }
  }

  lemma DistinctAfter(last: string, x: seq<string>)
    ensures Distinct([last] + x) <==> Distinct(x) && last !in x
  {
    var all := [last] + x;
    assert forall i :: 0 <= i < |x| ==> all[i + 1] == x[i];
    if Distinct(all) {
      forall i, j | 0 <= i < j < |x|
        ensures x[i] != x[j]
      {
        assert all[i + 1] != all[j + 1];
      }
      forall i | 0 <= i < |x|
        ensures x[i] != last
      {
        assert all[0] != all[i + 1];
      }
    }
  }

  lemma {:induction false} HeadersFrom(rest: seq<string>, last: string)
    ensures Distinct([last] + Headers(rest, last)) <==> Grouped([last] + rest)
  {
    if rest != [] {
      HeadersFrom(rest[1..], rest[0]);
      assert [rest[0]] + rest[1..] == rest;
      if rest[0] == last {
        GroupedAfterRepeat(rest);
        Empty(Headers(rest[1..], last));
      } else {
        HeaderElements(rest[1..], rest[0]);
        DistinctAfter(last, Headers(rest, last));
        GroupedAfterNew(rest, last);
      }
    }
  }

  /** How many names at the front are empty; they get no header. */
  function EmptyFront(names: seq<string>): (n: nat)
    ensures n <= |names| && (n < |names| ==> names[n] != "")
    ensures forall i :: 0 <= i < n ==> names[i] == ""
  {
    if names != [] && names[0] == "" then 1 + EmptyFront(names[1..]) else 0
  }

  lemma {:induction false} HeadersSkipFront(names: seq<string>)
    ensures Headers(names, "") == Headers(names[EmptyFront(names)..], "")
  {
    if names != [] && names[0] == "" {
      HeadersSkipFront(names[1..]);
      var n := EmptyFront(names[1..]);
      assert names[1..][n..] == names[n + 1..];
      Empty(Headers(names[1..], ""));
    }
  }

  lemma HeadersDistinctIff(names: seq<string>)
    ensures Distinct(Headers(names, "")) <==> Grouped(names[EmptyFront(names)..])
  {
    HeadersSkipFront(names);
    var rest := names[EmptyFront(names)..];
    if rest != [] {
      HeadersFrom(rest[1..], rest[0]);
      assert [rest[0]] + rest[1..] == rest;
    }
  }

  // ---------- sorted keys ----------

  function NamesOf(keys: seq<string>): (r: seq<string>)
    ensures |r| == |keys|
  {
    seq(|keys|, i requires 0 <= i < |keys| => BaseName(keys[i]))
  }

  lemma {:induction false} LessUnderPrefix(p: string, x: string, y: string)
    ensures Less(p + x, p + y) <==> Less(x, y)
  {
    if p == "" {
      Empty(x);
      Empty(y);
    } else {
      LessUnderPrefix(p[1..], x, y);
      assert (p + x)[1..] == p[1..] + x && (p + y)[1..] == p[1..] + y;
    }
  }

  lemma {:induction false} BetweenSharesPrefix(p: string, x: string, y: string, z: string)
    requires Less(p + x, y) && Less(y, p + z)
    ensures p <= y
  {
    if p != "" {
      assert (p + x)[1..] == p[1..] + x && (p + z)[1..] == p[1..] + z;
      assert y != "" && y[0] == p[0];
      BetweenSharesPrefix(p[1..], x, y[1..], z);
    }
  }

  /** A key of family b is b itself or b and labels. */
  lemma FamilyOf(key: string)
    ensures var b := BaseName(key);
            && Lacks('{', b) && b <= key
            && (key == b || b + "{" <= key)
  {
    var n := IndexOf('{', key);
    assert forall i :: 0 <= i < n ==> key[..n][i] != '{';
  }

  lemma {:induction false} FamilyFromPrefix(b: string, key: string)
    requires Lacks('{', b) && b + "{" <= key
    ensures BaseName(key) == b
  {
    IndexOfFirst('{', b, key[|b| + 1..]);
    assert key == b + (['{'] + key[|b| + 1..]);
  }

  lemma LongerFamily(b: string, key: string)
    requires Lacks('{', b) && b <= key && |key| > |b| && key[|b|] != '{'
    ensures BaseName(key) != b
  {
    assert |BaseName(key)| == IndexOf('{', key);
  }

  /** The series named b alone, the one with labels, and between them one of a longer name. */
  ghost predicate SplitFamily(keys: set<string>, b: string, labelled: string, longer: string) {
    && Lacks('{', b) && b in keys
    && labelled in keys && b + "{" <= labelled
    && longer in keys && b <= longer && |longer| > |b| && longer[|b|] < '{'
  }

  lemma BetweenLabelled(b: string, x: string, y: string, z: string)
    requires Lacks('{', b) && b + "{" <= x && b + "{" <= z && Less(x, y) && Less(y, z)
    ensures BaseName(y) == b
  {
    var p := b + "{";
    assert x == p + x[|p|..] && z == p + z[|p|..];
    BetweenSharesPrefix(p, x[|p|..], y, z[|p|..]);
    FamilyFromPrefix(b, y);
  }

  lemma LessHead(x: string, y: string)
    requires Less(x, y)
    ensures y != "" && (x != "" ==> x[0] <= y[0])
  {}

  lemma Behind(b: string, z: string)
    requires b <= z
    ensures z == b + z[|b|..]
  {}

  lemma AfterName(b: string, y: string, z: string)
    requires b + "{" <= z && Less(b, y) && Less(y, z)
    ensures b <= y && |y| > |b| && y[|b|] <= '{'
  {
    hide Less;
    assert (b + "{")[|b|] == '{' && b <= b + "{";
    var tail := z[|b|..];
    Behind(b, z);
    assert tail[0] == z[|b|] == '{';
    Empty(b);
    BetweenSharesPrefix(b, "", y, tail);
    Behind(b, y);
    TailBetween(b, y[|b|..], tail);
  }

  lemma TailBetween(b: string, rest: string, tail: string)
    requires Less(b, b + rest) && Less(b + rest, b + tail) && tail != ""
    ensures rest != "" && rest[0] <= tail[0]
  {
    hide Less;
    Empty(b);
    LessUnderPrefix(b, "", rest);
    LessUnderPrefix(b, rest, tail);
    LessHead("", rest);
    LessHead(rest, tail);
  }

  lemma InBetween(x: string, y: string, z: string)
    requires Less(x, y) && Less(y, z) && BaseName(x) == BaseName(z) != BaseName(y)
    ensures var b := BaseName(x);
            x == b && b + "{" <= z && b <= y && |y| > |b| && y[|b|] < '{'
  {
    hide Less, BaseName;
    var b := BaseName(x);
    FamilyOf(x);
    FamilyOf(z);
    if b + "{" <= x {
      if z == b {
        NameFirst(b, x);
        LessTransitive(x, y, z);
        LessTotal(x, z);
      } else {
        BetweenLabelled(b, x, y, z);
      }
    } else {
      if z == b {
        LessTransitive(x, y, z);
        LessTotal(x, z);
      } else {
        AfterName(b, y, z);
        if y[|b|] == '{' {
          FamilyFromPrefix(b, y);
        }
      }
    }
  }

  lemma NameFirst(b: string, key: string)
    requires b + "{" <= key
    ensures Less(b, key)
  {
    assert b == b + "" && key == b + key[|b|..];
    LessUnderPrefix(b, "", key[|b|..]);
  }

  lemma SplitIsBetween(b: string, labelled: string, longer: string)
    requires Lacks('{', b) && b + "{" <= labelled
    requires b <= longer && |longer| > |b| && longer[|b|] < '{'
    ensures Less(b, longer) && Less(longer, labelled)
    ensures BaseName(b) == b && BaseName(labelled) == b && BaseName(longer) != b
  {
    assert b == b + "" && longer == b + longer[|b|..] && labelled == b + labelled[|b|..];
    LessUnderPrefix(b, "", longer[|b|..]);
    LessUnderPrefix(b, longer[|b|..], labelled[|b|..]);
    IndexOfFirst('{', b, "");
    FamilyFromPrefix(b, labelled);
    LongerFamily(b, longer);
  }

  lemma SortedPosition(keys: seq<string>, x: string, y: string) returns (i: nat, j: nat)
    requires Sorted(keys) && x in keys && y in keys && Less(x, y)
    ensures i < j < |keys| && keys[i] == x && keys[j] == y
  {
    i :| 0 <= i < |keys| && keys[i] == x;
    j :| 0 <= j < |keys| && keys[j] == y;
    LessTotal(x, y);
  }

  /** Sorting brings the series of every family together, except those of a family that has a
      series without labels, one with, and a neighbour whose longer name sorts in between. */
  lemma SortedKeysGrouped(keys: set<string>)
    ensures Grouped(NamesOf(SortedKeys(keys))) <==> forall b, l, m :: !SplitFamily(keys, b, l, m)
  {
    var s := SortedKeys(keys);
    var names := NamesOf(s);
    if !Grouped(names) {
      var i, j, k :| 0 <= i < j < k < |names| && names[i] == names[k] && names[j] != names[i];
      InBetween(s[i], s[j], s[k]);
      FamilyOf(s[i]);
      assert s[i] in s && s[j] in s && s[k] in s;
      assert SplitFamily(keys, s[i], s[k], s[j]);
    }
    if b, l, m :| SplitFamily(keys, b, l, m) {
      SplitIsBetween(b, l, m);
      var i, j := SortedPosition(s, b, m);
      var j', k := SortedPosition(s, m, l);
      LessTotal(s[j], s[j]);
      assert j == j';
      assert names[i] == names[k] != names[j];
    }
  }

  lemma EmptyFirst(s: seq<string>)
    requires Sorted(s) && "" in s
    ensures s[0] == "" && BaseName("") == ""
  {
    var i :| 0 <= i < |s| && s[i] == "";
    assert i == 0 || Less(s[0], s[i]);
  }

  lemma SplitBehindFront(keys: set<string>, b: string, l: string, m: string)
    requires b != "" && SplitFamily(keys, b, l, m)
    ensures var names := NamesOf(SortedKeys(keys)); !Grouped(names[EmptyFront(names)..])
  {
    var s := SortedKeys(keys);
    var names := NamesOf(s);
    SplitIsBetween(b, l, m);
    var i, j := SortedPosition(s, b, m);
    var j', k := SortedPosition(s, m, l);
    LessTotal(s[j], s[j]);
    assert j == j' && names[i] == b && names[j] != b && names[k] == b;
    hide *;
    SplitBehind(names, i, j, k);
  }

  lemma SplitBehind(names: seq<string>, i: nat, j: nat, k: nat)
    requires i < j < k < |names| && names[i] == names[k] != names[j] && names[i] != ""
    ensures !Grouped(names[EmptyFront(names)..])
  {
    var n := EmptyFront(names);
    var rest := names[n..];
    assert i >= n;
    assert rest[i - n] == names[i] && rest[j - n] == names[j] && rest[k - n] == names[k];
  }

  lemma SplitFound(keys: set<string>, n: nat, i: nat, j: nat, k: nat)
    requires n == EmptyFront(NamesOf(SortedKeys(keys))) && n <= i < j < k < |SortedKeys(keys)|
    requires var names := NamesOf(SortedKeys(keys)); names[i] == names[k] != names[j]
    ensures var s := SortedKeys(keys); s[i] != "" && SplitFamily(keys, s[i], s[k], s[j])
  {
    var s := SortedKeys(keys);
    hide SortedKeys, IndexOf, Less;
    assert s[i] in s && s[j] in s && s[k] in s;
    InBetween(s[i], s[j], s[k]);
    FamilyOf(s[i]);
    if s[i] == "" {
      EmptyFirst(s);
      LessTotal("", "");
    }
  }

  lemma UngroupedFound(names: seq<string>, n: nat) returns (i: nat, j: nat, k: nat)
    requires n <= |names| && !Grouped(names[n..])
    ensures n <= i < j < k < |names| && names[i] == names[k] != names[j]
  {
    var rest := names[n..];
    i, j, k :| 0 <= i < j < k < |rest| && rest[i] == rest[k] && rest[j] != rest[i];
    i, j, k := n + i, n + j, n + k;
  }

  /** Each family has one header exactly when no family with a name is split. */
  lemma OneHeaderPerFamily(keys: set<string>)
    ensures Distinct(Headers(NamesOf(SortedKeys(keys)), "")) <==>
            forall b, l, m :: b != "" ==> !SplitFamily(keys, b, l, m)
  {
    hide *;
    var names := NamesOf(SortedKeys(keys));
    var n := EmptyFront(names);
    HeadersDistinctIff(names);
    if !Grouped(names[n..]) {
      var i, j, k := UngroupedFound(names, n);
      SplitFound(keys, n, i, j, k);
    }
    if b, l, m :| b != "" && SplitFamily(keys, b, l, m) {
      SplitBehindFront(keys, b, l, m);
    }
  }
}
