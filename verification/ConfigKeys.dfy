/** Which configurations the change-detection key tells apart. */
module ConfigKeys {
  import opened Basics
  import opened LogModel
  import opened Sequences
  import Msgpack
  import Json
  import JsonRoundTrip

  // ---------- texts and their pieces between bars ----------

  function Pieces(s: string): (ps: seq<string>)
    ensures ps != []
  {
    if s == "" then [""]
    else if s[0] == '|' then [""] + Pieces(s[1..])
    else [[s[0]] + Pieces(s[1..])[0]] + Pieces(s[1..])[1..]
  }

  predicate BarFree(s: string) {
    forall i :: 0 <= i < |s| ==> s[i] != '|'
  }

  lemma {:induction false} PiecesConcat(a: string, b: string)
    ensures Pieces(a + "|" + b) == Pieces(a) + Pieces(b)
  {
    var s := a + "|" + b;
    if a == "" {
      assert s == ['|'] + b && s[1..] == b;
    } else {
      assert s[0] == a[0] && s[1..] == a[1..] + "|" + b;
      PiecesConcat(a[1..], b);
    }
  }

  lemma {:induction false} JoinedPieces(s: string)
    ensures Join(Pieces(s)) == s
  {
    if s != "" {
      JoinedPieces(s[1..]);
      var ps, qs := Pieces(s), Pieces(s[1..]);
      assert ps[1..] == if s[0] == '|' then qs else qs[1..];
      assert s == [s[0]] + s[1..];
    }
  }

  lemma SamePieces(s: string, t: string)
    requires Pieces(s) == Pieces(t)
    ensures s == t
  {
    JoinedPieces(s);
    JoinedPieces(t);
  }

  lemma {:induction false} OnePiece(s: string)
    requires BarFree(s)
    ensures Pieces(s) == [s]
  {
    if s != "" {
      OnePiece(s[1..]);
      assert s == [s[0]] + s[1..];
    }
  }

  lemma {:induction false} BarMakesPieces(s: string)
    requires !BarFree(s)
    ensures |Pieces(s)| > 1
  {
    assert s != "";
    if s[0] != '|' {
      var i :| 0 <= i < |s| && s[i] == '|';
      assert s[1..][i - 1] == '|';
      BarMakesPieces(s[1..]);
    }
  }

  function AllPieces(fields: seq<string>): seq<string> {
    if fields == [] then [] else Pieces(fields[0]) + AllPieces(fields[1..])
  }

  lemma {:induction false} PiecesOfJoin(fields: seq<string>)
    requires fields != []
    ensures Pieces(Join(fields)) == AllPieces(fields)
  {
    if |fields| == 1 {
      assert fields[1..] == [];
      Empty(Pieces(fields[0]));
    } else {
      PiecesOfJoin(fields[1..]);
      PiecesConcat(fields[0], Join(fields[1..]));
    }
  }

  lemma {:induction false} JoinConcat(a: seq<string>, b: seq<string>)
    requires a != [] && b != []
    ensures Join(a + b) == Join(a) + "|" + Join(b)
  {
    assert (a + b)[0] == a[0] && (a + b)[1..] == a[1..] + b;
    if |a| > 1 {
      JoinConcat(a[1..], b);
      Assoc(a[0] + "|", Join(a[1..]), "|" + Join(b));
      Assoc(Join(a[1..]), "|", Join(b));
      Assoc(a[0] + "|" + Join(a[1..]), "|", Join(b));
    } else {
      Empty(b);
    }
  }

  lemma JoinAfter(a: seq<string>, x: seq<string>, y: seq<string>)
    requires x != [] && y != [] && Join(x) == Join(y)
    ensures Join(a + x) == Join(a + y)
  {
    hide Join;
    if a == [] {
      Empty(x);
      Empty(y);
    } else {
      JoinConcat(a, x);
      JoinConcat(a, y);
    }
  }

  lemma JoinBefore(x: seq<string>, y: seq<string>, b: seq<string>)
    requires x != [] && y != [] && Join(x) == Join(y)
    ensures Join(x + b) == Join(y + b)
  {
    hide Join;
    if b == [] {
      Empty(x);
      Empty(y);
    } else {
      JoinConcat(x, b);
      JoinConcat(y, b);
    }
  }

  /** A field may be given as its pieces. */
  lemma JoinNested(a: seq<string>, mid: seq<string>, b: seq<string>)
    requires mid != []
    ensures Join(a + [Join(mid)] + b) == Join(a + mid + b)
  {
    assert Join([Join(mid)]) == Join(mid);
    JoinAfter(a, [Join(mid)], mid);
    JoinBefore(a + [Join(mid)], a + mid, b);
  }

  // ---------- numbers and flags ----------

  ghost predicate IsDecimal(s: string) {
    exists n: Int64 :: s == Msgpack.Decimal(n)
  }

  predicate IsFlag(s: string) {
    s == "true" || s == "false"
  }

  predicate IsFormat(s: string) {
    s == "text" || s == "json"
  }

  lemma DecimalFacts(m: Int64, n: Int64)
    ensures BarFree(Msgpack.Decimal(m)) && IsDecimal(Msgpack.Decimal(m)) && !IsFlag(Msgpack.Decimal(m))
    ensures !IsFormat(Msgpack.Decimal(m))
    ensures Msgpack.Decimal(m) == Msgpack.Decimal(n) ==> m == n
  {
    hide Msgpack.Natural, Json.ParseValue;
    var k: int := m;
    NaturalChars(if k < 0 then -k else k);
    JsonRoundTrip.ParsesInt(m, "");
    JsonRoundTrip.ParsesInt(n, "");
    Empty(Msgpack.Decimal(m));
  }

  lemma NaturalChars(n: nat)
    ensures var s := Msgpack.Natural(n); BarFree(s) && s[0] != 't' && s[0] != 'f' && s[0] != 'j'
  {
    hide Msgpack.Natural;
    JsonRoundTrip.NaturalDigits(n);
    var s := Msgpack.Natural(n);
    forall i | 0 <= i < |s|
      ensures Json.IsDigit(s[i])
    {
      assert s[i] in s;
    }
  }

  lemma DecimalPiece(n: Int64)
    ensures Pieces(Msgpack.Decimal(n)) == [Msgpack.Decimal(n)]
  {
    DecimalFacts(n, n);
    OnePiece(Msgpack.Decimal(n));
  }

  lemma FlagPiece(b: bool)
    ensures Pieces(BoolText(b)) == [BoolText(b)] && IsFlag(BoolText(b)) && !IsDecimal(BoolText(b))
  {
    OnePiece(BoolText(b));
    if IsDecimal(BoolText(b)) {
      var n: Int64 :| BoolText(b) == Msgpack.Decimal(n);
      DecimalFacts(n, n);
    }
  }

  // ---------- the pieces of a key ----------

  function NumbersOf(c: Config): (r: seq<string>)
    ensures |r| == 4
  {
    [Msgpack.Decimal(c.maxSizeMB), Msgpack.Decimal(c.maxBackups), Msgpack.Decimal(c.maxAgeDays), BoolText(c.compress)]
  }

  function FrontOf(c: Config): seq<string> {
    Pieces(c.target) + Pieces(c.format)
  }

  function BackOf(c: Config): seq<string> {
    Pieces(c.addr) + Pieces(c.facility) + Pieces(c.tag)
  }

  function KeyPieces(c: Config): seq<string> {
    FrontOf(c) + [Msgpack.Decimal(c.level), BoolText(c.source)] + Pieces(c.path) + NumbersOf(c) + BackOf(c)
  }

  lemma {:induction false} AllPiecesConcat(a: seq<string>, b: seq<string>)
    ensures AllPieces(a + b) == AllPieces(a) + AllPieces(b)
  {
    if a == [] {
      Empty(b);
      Empty(AllPieces(b));
    } else {
      assert (a + b)[0] == a[0] && (a + b)[1..] == a[1..] + b;
      AllPiecesConcat(a[1..], b);
      Assoc(Pieces(a[0]), AllPieces(a[1..]), AllPieces(b));
    }
  }

  lemma AllPiecesOne(s: string)
    ensures AllPieces([s]) == Pieces(s)
  {
    Empty(Pieces(s));
  }

  lemma AllPiecesTwo(s: string, t: string)
    ensures AllPieces([s, t]) == Pieces(s) + Pieces(t)
  {
    AllPiecesOne(s);
    AllPiecesOne(t);
    AllPiecesConcat([s], [t]);
    assert [s, t] == [s] + [t];
  }

  lemma NumberPieces(c: Config)
    ensures AllPieces(NumbersOf(c)) == NumbersOf(c)
  {
    var ns := NumbersOf(c);
    DecimalPiece(c.maxSizeMB);
    DecimalPiece(c.maxBackups);
    DecimalPiece(c.maxAgeDays);
    FlagPiece(c.compress);
    AllPiecesTwo(ns[0], ns[1]);
    AllPiecesTwo(ns[2], ns[3]);
    AllPiecesConcat([ns[0], ns[1]], [ns[2], ns[3]]);
    assert ns == [ns[0], ns[1]] + [ns[2], ns[3]];
  }

  lemma KeyHasPieces(c: Config)
    ensures Pieces(ConfigKey(c)) == KeyPieces(c)
  {
    hide Pieces, AllPieces, Msgpack.Decimal, BoolText;
    var l, s := Msgpack.Decimal(c.level), BoolText(c.source);
    PiecesOfJoin(Fields(c));
    assert Fields(c) == [c.target, c.format] + [l, s] + [c.path] + NumbersOf(c) + ([c.addr, c.facility] + [c.tag]);
    AllPiecesTwo(c.target, c.format);
    DecimalPiece(c.level);
    FlagPiece(c.source);
    AllPiecesTwo(l, s);
    AllPiecesOne(c.path);
    NumberPieces(c);
    AllPiecesTwo(c.addr, c.facility);
    AllPiecesOne(c.tag);
    AllPiecesConcat([c.addr, c.facility], [c.tag]);
    AllPiecesConcat([c.target, c.format], [l, s]);
    AllPiecesConcat([c.target, c.format] + [l, s], [c.path]);
    AllPiecesConcat([c.target, c.format] + [l, s] + [c.path], NumbersOf(c));
    AllPiecesConcat([c.target, c.format] + [l, s] + [c.path] + NumbersOf(c), [c.addr, c.facility] + [c.tag]);
  }

  /** Where level and size limit stand among the pieces. */
  function LevelAt(c: Config): nat {
    |FrontOf(c)|
  }

  function LimitAt(c: Config): nat {
    LevelAt(c) + 2 + |Pieces(c.path)|
  }

  lemma PieceAt(c: Config)
    ensures var x, j, q := KeyPieces(c), LevelAt(c), LimitAt(c);
            && j >= 2 && q >= j + 3 && |x| == q + 4 + |BackOf(c)| && |BackOf(c)| >= 3
            && x[..j] == FrontOf(c) && x[j] == Msgpack.Decimal(c.level) && x[j + 1] == BoolText(c.source)
            && x[j + 2..q] == Pieces(c.path) && x[q..q + 4] == NumbersOf(c) && x[q + 4..] == BackOf(c)
  {
    hide Pieces, Msgpack.Decimal, BoolText;
  }

  lemma PieceKinds(c: Config)
    ensures var x, j, q := KeyPieces(c), LevelAt(c), LimitAt(c);
            && q + 4 <= |x| && j + 2 < q
            && IsDecimal(x[j]) && IsFlag(x[j + 1])
            && IsDecimal(x[q]) && IsDecimal(x[q + 1]) && IsDecimal(x[q + 2]) && IsFlag(x[q + 3])
  {
    hide KeyPieces, LevelAt, LimitAt, IsFlag, IsDecimal, Pieces, BoolText, Msgpack.Decimal;
    PieceAt(c);
    DecimalFacts(c.level, 0);
    FlagPiece(c.source);
    DecimalFacts(c.maxSizeMB, 0);
    DecimalFacts(c.maxBackups, 0);
    DecimalFacts(c.maxAgeDays, 0);
    FlagPiece(c.compress);
    var x, q := KeyPieces(c), LimitAt(c);
    assert x[q] == x[q..q + 4][0] && x[q + 1] == x[q..q + 4][1] && x[q + 2] == x[q..q + 4][2]
        && x[q + 3] == x[q..q + 4][3];
  }

  lemma NotBoth(s: string)
    ensures !(IsDecimal(s) && IsFlag(s))
  {
    FlagPiece(s == "true");
  }

  // ---------- which configurations have a key of their own ----------

  /** What could be a level and a flag, with more after it. */
  ghost predicate LevelIn(ps: seq<string>, i: int) {
    0 <= i < |ps| - 2 && IsDecimal(ps[i]) && IsFlag(ps[i + 1])
  }

  /** What could be the three limits and a flag, not at the start. */
  ghost predicate LimitsIn(ps: seq<string>, i: int) {
    1 <= i < |ps| - 3 && IsDecimal(ps[i]) && IsDecimal(ps[i + 1]) && IsDecimal(ps[i + 2]) && IsFlag(ps[i + 3])
  }

  ghost predicate Ambiguous(ps: seq<string>) {
    exists i :: LevelIn(ps, i) || LimitsIn(ps, i)
  }

  /** No text but the path has a bar. */
  predicate PlainFields(c: Config) {
    BarFree(c.target) && BarFree(c.format) && BarFree(c.addr) && BarFree(c.facility) && BarFree(c.tag)
  }

  ghost predicate ToldApart(c: Config) {
    PlainFields(c) && !Ambiguous(Pieces(c.path))
  }

  lemma PlainEnds(c: Config)
    requires PlainFields(c)
    ensures FrontOf(c) == [c.target, c.format] && BackOf(c) == [c.addr, c.facility, c.tag]
  {
    hide Pieces;
    OnePiece(c.target);
    OnePiece(c.format);
    OnePiece(c.addr);
    OnePiece(c.facility);
    OnePiece(c.tag);
  }

  /** A level with its flag stands at j, limits with theirs at q. */
  ghost predicate Marks(x: seq<string>, j: nat, q: nat) {
    && 2 <= j && j + 3 <= q && q + 7 <= |x|
    && IsDecimal(x[j]) && IsFlag(x[j + 1])
    && IsDecimal(x[q]) && IsDecimal(x[q + 1]) && IsDecimal(x[q + 2]) && IsFlag(x[q + 3])
  }

  lemma OtherMarks(x: seq<string>, ps: seq<string>, j: nat, q: nat)
    requires Marks(x, 2, |ps| + 4) && |x| == |ps| + 11 && x[4..|ps| + 4] == ps
    requires Marks(x, j, q)
    ensures Ambiguous(ps) || (j == 2 && q == |ps| + 4)
  {
    hide IsDecimal, IsFlag;
    forall i | 0 <= i < |ps|
      ensures ps[i] == x[i + 4]
    {
      assert ps[i] == x[4..|ps| + 4][i];
    }
    if j == 3 {
      NotBoth(x[3]);
    } else if j > 3 {
      assert LevelIn(ps, j - 4);
    } else if q < |ps| + 4 {
      if q + 3 >= |ps| + 4 {
        NotBoth(x[q + 3]);
      } else {
        assert LimitsIn(ps, q - 4);
      }
    }
  }

  /** The level and the limits of a configuration with the same key stand at the same places, or
      they stand inside the path. */
  lemma SamePlaces(c: Config, d: Config)
    requires PlainFields(c)
    requires KeyPieces(d) == KeyPieces(c)
    ensures Ambiguous(Pieces(c.path)) || (LevelAt(d) == LevelAt(c) && LimitAt(d) == LimitAt(c))
  {
    hide KeyPieces, IsDecimal, IsFlag, Pieces, BarFree, NumbersOf, Ambiguous;
    PlainEnds(c);
    PieceAt(c);
    PieceAt(d);
    PieceKinds(c);
    PieceKinds(d);
    hide FrontOf, BackOf;
    OtherMarks(KeyPieces(c), Pieces(c.path), LevelAt(d), LimitAt(d));
  }

  lemma SameFields(c: Config, d: Config)
    requires ToldApart(c) && KeyPieces(d) == KeyPieces(c)
    ensures FrontOf(d) == FrontOf(c) && BackOf(d) == BackOf(c) && NumbersOf(d) == NumbersOf(c)
    ensures c.path == d.path && c.level == d.level && c.source == d.source
  {
    hide KeyPieces, FrontOf, BackOf, Pieces, BarFree, NumbersOf, LevelAt, LimitAt, Ambiguous;
    PieceAt(c);
    PieceAt(d);
    SamePlaces(c, d);
    SamePieces(c.path, d.path);
    DecimalFacts(c.level, d.level);
  }

  lemma OneKey(c: Config, d: Config)
    requires ToldApart(c) && ConfigKey(d) == ConfigKey(c)
    ensures c == d
  {
    hide KeyPieces, Pieces, BarFree, Ambiguous, ConfigKey;
    KeyHasPieces(c);
    KeyHasPieces(d);
    SameFields(c, d);
    PlainEnds(c);
    var f, b := [c.target, c.format], [c.addr, c.facility, c.tag];
    SingletonParts(c.target, c.format, Pieces(d.target), Pieces(d.format));
    SingletonTriple(b, Pieces(d.addr), Pieces(d.facility), Pieces(d.tag));
    OnePiece(c.target);
    OnePiece(c.format);
    OnePiece(c.addr);
    OnePiece(c.facility);
    OnePiece(c.tag);
    SamePieces(c.target, d.target);
    SamePieces(c.format, d.format);
    SamePieces(c.addr, d.addr);
    SamePieces(c.facility, d.facility);
    SamePieces(c.tag, d.tag);
    assert NumbersOf(c)[0] == NumbersOf(d)[0] && NumbersOf(c)[1] == NumbersOf(d)[1]
        && NumbersOf(c)[2] == NumbersOf(d)[2];
    assert NumbersOf(c)[3] == NumbersOf(d)[3];
    DecimalFacts(c.maxSizeMB, d.maxSizeMB);
    DecimalFacts(c.maxBackups, d.maxBackups);
    DecimalFacts(c.maxAgeDays, d.maxAgeDays);
  }

  lemma SingletonParts(x: string, y: string, a: seq<string>, b: seq<string>)
    requires a != [] && b != [] && a + b == [x, y]
    ensures a == [x] && b == [y]
  {
    assert |a| + |b| == 2;
    assert a[0] == (a + b)[0] && b[0] == (a + b)[1];
  }

  lemma SingletonTriple(s: seq<string>, a: seq<string>, b: seq<string>, d: seq<string>)
    requires a != [] && b != [] && d != [] && |s| == 3 && a + b + d == s
    ensures a == [s[0]] && b == [s[1]] && d == [s[2]]
  {
    assert |a| + |b| + |d| == 3;
    assert a[0] == (a + b + d)[0] && b[0] == (a + b + d)[1] && d[0] == (a + b + d)[2];
  }

  // ---------- the others share a key ----------

  /** A text with a bar may give away what follows the bar to the next field, or take it from the
      field before. */
  lemma SplitAtBar(s: string) returns (a: string, b: string)
    requires !BarFree(s)
    ensures s == a + "|" + b && |a| < |s| && |b| < |s|
  {
    var i :| 0 <= i < |s| && s[i] == '|';
    a, b := s[..i], s[i + 1..];
  }

  lemma Shift(a: seq<string>, x: string, y: string, z: string, b: seq<string>)
    ensures Join(a + [x + "|" + y, z] + b) == Join(a + [x, y + "|" + z] + b)
  {
    assert Join([x, y]) == x + "|" + y && Join([y, z]) == y + "|" + z;
    JoinNested(a, [x, y], [z] + b);
    JoinNested(a + [x], [y, z], b);
    assert a + [x + "|" + y, z] + b == a + [x + "|" + y] + ([z] + b);
    assert a + [x, y + "|" + z] + b == a + [x] + [y + "|" + z] + b;
    assert a + [x, y] + ([z] + b) == a + [x] + [y, z] + b;
  }

  lemma SharedAtFront(c: Config) returns (d: Config)
    requires !(BarFree(c.target) && BarFree(c.format))
    ensures d != c && ConfigKey(d) == ConfigKey(c)
  {
    hide Join, BarFree, Msgpack.Decimal, BoolText;
    var fs := Fields(c);
    var a, b;
    FieldsCons(c);
    if !BarFree(c.target) {
      a, b := SplitAtBar(c.target);
      d := c.(target := a, format := b + "|" + c.format);
      ShiftFirst(a, b, c.format, fs[2..]);
    } else {
      a, b := SplitAtBar(c.format);
      d := c.(target := c.target + "|" + a, format := b);
      ShiftFirst(c.target, a, b, fs[2..]);
    }
    FieldsCons(d);
  }

  lemma FieldsCons(c: Config)
    ensures Fields(c) == [c.target, c.format] + Fields(c)[2..]
  {}

  lemma ShiftFirst(x: string, y: string, z: string, b: seq<string>)
    ensures Join([x + "|" + y, z] + b) == Join([x, y + "|" + z] + b)
  {
    hide Join;
    Shift([], x, y, z, b);
    Empty([x + "|" + y, z]);
    Empty([x, y + "|" + z]);
  }

  lemma SharedAtBack(c: Config) returns (d: Config)
    requires !(BarFree(c.addr) && BarFree(c.facility) && BarFree(c.tag))
    ensures d != c && ConfigKey(d) == ConfigKey(c)
  {
    hide Join, BarFree, Msgpack.Decimal, BoolText;
    var fs := Fields(c);
    var a, b;
    if !BarFree(c.addr) {
      a, b := SplitAtBar(c.addr);
      d := c.(addr := a, facility := b + "|" + c.facility);
      Shift(fs[..9], a, b, c.facility, [c.tag]);
      assert fs == fs[..9] + [a + "|" + b, c.facility] + [c.tag];
      assert Fields(d) == fs[..9] + [a, b + "|" + c.facility] + [c.tag];
    } else if !BarFree(c.facility) {
      a, b := SplitAtBar(c.facility);
      d := c.(facility := a, tag := b + "|" + c.tag);
      Shift(fs[..10], a, b, c.tag, []);
      assert fs == fs[..10] + [a + "|" + b, c.tag] + [] && Fields(d) == fs[..10] + [a, b + "|" + c.tag] + [];
    } else {
      a, b := SplitAtBar(c.tag);
      d := c.(facility := c.facility + "|" + a, tag := b);
      Shift(fs[..10], c.facility, a, b, []);
      assert fs == fs[..10] + [c.facility, a + "|" + b] + [] && Fields(d) == fs[..10] + [c.facility + "|" + a, b] + [];
    }
  }

  lemma ShorterPath(path: string, ps: seq<string>)
    requires ps != [] && |AllPieces(ps)| < |Pieces(path)|
    ensures Join(ps) != path
  {
    PiecesOfJoin(ps);
  }

  lemma {:induction false} PiecesAreBarFree(s: string)
    ensures forall p :: p in Pieces(s) ==> BarFree(p)
  {
    if s != "" {
      PiecesAreBarFree(s[1..]);
      assert Pieces(s[1..])[0] in Pieces(s[1..]);
    }
  }

  lemma {:induction false} PiecesOfPieces(ps: seq<string>)
    requires forall p :: p in ps ==> BarFree(p)
    ensures AllPieces(ps) == ps
  {
    if ps != [] {
      PiecesOfPieces(ps[1..]);
      OnePiece(ps[0]);
    }
  }

  lemma PartOfPath(path: string, i: nat, k: nat)
    requires i < k <= |Pieces(path)| && k - i < |Pieces(path)|
    ensures Join(Pieces(path)[i..k]) != path
  {
    PiecesAreBarFree(path);
    PiecesOfPieces(Pieces(path)[i..k]);
    ShorterPath(path, Pieces(path)[i..k]);
  }

  /** Level and flag are found in the path; what stands before them goes to the format. */
  lemma SharedLevel(c: Config, i: int) returns (d: Config)
    requires LevelIn(Pieces(c.path), i)
    ensures d != c && ConfigKey(d) == ConfigKey(c)
  {
    hide Join, Pieces, NumbersOf, Msgpack.Decimal;
    var ps, fs := Pieces(c.path), Fields(c);
    var n: Int64 :| ps[i] == Msgpack.Decimal(n);
    var front := fs[1..4] + ps[..i];
    d := c.(format := Join(front), level := n, source := ps[i + 1] == "true", path := Join(ps[i + 2..]));
    PartOfPath(c.path, i + 2, |ps|);
    assert ps[i + 2..|ps|] == ps[i + 2..];
    JoinedPieces(c.path);
    var back := fs[5..];
    assert fs == fs[..4] + [Join(ps)] + back;
    JoinNested(fs[..4], ps, back);
    var level := [ps[i], ps[i + 1]];
    assert Fields(d) == [c.target] + [Join(front)] + (level + [Join(ps[i + 2..])] + back);
    assert ps == ps[..i] + level + ps[i + 2..];
    assert fs[..4] == [c.target] + fs[1..4];
    hide *;
    LevelRegrouped(c.target, fs[1..4], ps[..i], level, ps[i + 2..], back);
  }

  lemma LevelRegrouped(target: string, mid: seq<string>, before: seq<string>, level: seq<string>, path: seq<string>,
                       back: seq<string>)
    requires mid != [] && path != []
    ensures Join([target] + [Join(mid + before)] + (level + [Join(path)] + back))
            == Join(([target] + mid) + (before + level + path) + back)
  {
    hide Join;
    var front := mid + before;
    JoinNested([target], front, level + [Join(path)] + back);
    assert [target] + front + (level + [Join(path)] + back) == ([target] + front + level) + [Join(path)] + back;
    JoinNested([target] + front + level, path, back);
    assert ([target] + front + level) + path + back == ([target] + mid) + (before + level + path) + back;
  }

  /** The limits and the flag are found in the path; what stands after them goes to the address. */
  lemma SharedLimits(c: Config, i: int) returns (d: Config)
    requires LimitsIn(Pieces(c.path), i)
    ensures d != c && ConfigKey(d) == ConfigKey(c)
  {
    hide Join, Pieces, NumbersOf, Msgpack.Decimal;
    var ps, fs := Pieces(c.path), Fields(c);
    var n1: Int64 :| ps[i] == Msgpack.Decimal(n1);
    var n2: Int64 :| ps[i + 1] == Msgpack.Decimal(n2);
    var n3: Int64 :| ps[i + 2] == Msgpack.Decimal(n3);
    var back := ps[i + 4..] + fs[5..10];
    d := c.(path := Join(ps[..i]), maxSizeMB := n1, maxBackups := n2, maxAgeDays := n3,
            compress := ps[i + 3] == "true", addr := Join(back));
    PartOfPath(c.path, 0, i);
    assert ps[0..i] == ps[..i];
    JoinedPieces(c.path);
    assert fs == fs[..4] + [Join(ps)] + fs[5..];
    JoinNested(fs[..4], ps, fs[5..]);
    var limits := ps[i..i + 4];
    assert Fields(d) == fs[..4] + [Join(ps[..i])] + (limits + [Join(back)] + fs[10..]);
    JoinNested(fs[..4], ps[..i], limits + [Join(back)] + fs[10..]);
    assert fs[..4] + ps[..i] + (limits + [Join(back)] + fs[10..])
           == (fs[..4] + ps[..i] + limits) + [Join(back)] + fs[10..];
    JoinNested(fs[..4] + ps[..i] + limits, back, fs[10..]);
    assert ps == ps[..i] + limits + ps[i + 4..];
    assert fs[5..] == fs[5..10] + fs[10..];
    assert fs[..4] + ps[..i] + limits + back + fs[10..] == fs[..4] + ps + fs[5..];
  }

  lemma SharedKey(c: Config) returns (d: Config)
    requires !ToldApart(c)
    ensures d != c && ConfigKey(d) == ConfigKey(c)
  {
    hide ConfigKey, Pieces, BarFree, LevelIn, LimitsIn;
    var ps := Pieces(c.path);
    if !(BarFree(c.target) && BarFree(c.format)) {
      d := SharedAtFront(c);
    } else if !PlainFields(c) {
      d := SharedAtBack(c);
    } else {
      var i :| LevelIn(ps, i) || LimitsIn(ps, i);
      if LevelIn(ps, i) {
        d := SharedLevel(c, i);
      } else {
        d := SharedLimits(c, i);
      }
    }
  }

  /** Exactly the configurations told apart have a key of their own. */
  lemma OwnKeyExactly(c: Config)
    ensures (forall d :: ConfigKey(d) == ConfigKey(c) ==> d == c) <==> ToldApart(c)
  {
    hide ConfigKey, ToldApart;
    if ToldApart(c) {
      forall d | ConfigKey(d) == ConfigKey(c)
        ensures d == c
      {
        OneKey(c, d);
      }
    } else {
      var d := SharedKey(c);
    }
  }
}
