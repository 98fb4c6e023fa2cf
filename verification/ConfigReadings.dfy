/**
 Resolved configurations, and the ways in which one of them can be read off a key: exactly which
 share their key with another one.
 */
module ConfigReadings {
  import opened Basics
  import opened LogModel
  import opened ConfigKeys
  import opened Sequences
  import Msgpack

  // ---------- resolving settings ----------

  predicate Sentinel(target: string) {
    target == "" || target == "-" || target == "auto"
  }

  function ResolvedFormat(format: string, target: string, tty: bool): string {
    if IsFormat(format) then format
    else if target == "file" || target == "syslog" then "json"
    else if tty then "text" else "json"
  }

  /** The configuration that settings of the same shape stand for; home is the default log file, if
      one can be told, and tty whether stderr is a terminal. */
  function Resolve(s: Config, home: string, tty: bool): Config {
    var asked := if Sentinel(s.target) then "file" else s.target;
    var path := if s.path == "" then home else s.path;
    var target := if asked == "file" && path == "" then "stderr" else asked;
    s.(target := target, format := ResolvedFormat(s.format, target, tty), path := path)
  }

  /** An explicit format stays; otherwise a file and syslog get JSON, and the console text on a terminal
      and JSON elsewhere.  No target, or "auto", is a file.  A file needs a name, the default one if
      need be, or else stderr is used.  Nothing else changes. */
  lemma Resolving(s: Config, home: string, tty: bool)
    ensures var c := Resolve(s, home, tty);
            && (s.format == "text" ==> c.format == "text")
            && (s.format == "json" ==> c.format == "json")
            && (s.format != "text" && s.format != "json" ==>
                  (c.format == "text" <==> c.target != "file" && c.target != "syslog" && tty)
                  && (c.format == "json" <==> c.target == "file" || c.target == "syslog" || !tty))
            && c.path == (if s.path == "" then home else s.path)
            && (s.target !in {"", "-", "auto", "file"} ==> c.target == s.target)
            && (s.target in {"", "-", "auto", "file"} ==>
                  c.target == if s.path == "" && home == "" then "stderr" else "file")
            && c == s.(target := c.target, format := c.format, path := c.path)
  {}

  predicate Resolved(c: Config) {
    IsFormat(c.format) && !Sentinel(c.target) && (c.target == "file" ==> c.path != "")
  }

  lemma ResolvedExactly(c: Config)
    ensures Resolved(c) <==> exists s, home, tty :: Resolve(s, home, tty) == c
  {
    if Resolved(c) {
      assert Resolve(c, "", false) == c;
    }
  }

  // ---------- reading a configuration off the pieces of a key ----------

  /** Where the format and the limits stand, and where facility and tag begin. */
  datatype Cut = Cut(f: nat, q: nat, g: nat, h: nat)

  ghost predicate FormatAt(x: seq<string>, f: int) {
    0 <= f && f + 3 <= |x| && IsFormat(x[f]) && IsDecimal(x[f + 1]) && IsFlag(x[f + 2])
  }

  ghost predicate LimitsAt(x: seq<string>, q: int) {
    && 0 <= q && q + 4 <= |x|
    && IsDecimal(x[q]) && IsDecimal(x[q + 1]) && IsDecimal(x[q + 2]) && IsFlag(x[q + 3])
  }

  ghost predicate Readable(x: seq<string>, r: Cut) {
    && 1 <= r.f && r.f + 4 <= r.q && r.q + 4 < r.g < r.h < |x|
    && FormatAt(x, r.f) && LimitsAt(x, r.q)
  }

  ghost function NumberIn(s: string): (n: Int64)
    requires IsDecimal(s)
    ensures s == Msgpack.Decimal(n)
  {
    var n: Int64 :| s == Msgpack.Decimal(n);
    n
  }

  ghost function Read(x: seq<string>, r: Cut): Config
    requires Readable(x, r)
  {
    Config(Join(x[..r.f]), x[r.f], NumberIn(x[r.f + 1]), x[r.f + 2] == "true", Join(x[r.f + 3..r.q]),
           NumberIn(x[r.q]), NumberIn(x[r.q + 1]), NumberIn(x[r.q + 2]), x[r.q + 3] == "true",
           Join(x[r.q + 4..r.g]), Join(x[r.g..r.h]), Join(x[r.h..]))
  }

  predicate AllBarFree(ps: seq<string>) {
    forall i :: 0 <= i < |ps| ==> BarFree(ps[i])
  }

  lemma PartPieces(x: seq<string>, i: nat, k: nat)
    requires AllBarFree(x) && i < k <= |x|
    ensures Pieces(Join(x[i..k])) == x[i..k]
  {
    var ps := x[i..k];
    forall p | p in ps
      ensures BarFree(p)
    {
      var n :| 0 <= n < |ps| && ps[n] == p;
      assert ps[n] == x[i + n];
    }
    hide Join, Pieces;
    PiecesOfJoin(ps);
    PiecesOfPieces(ps);
  }

  lemma Parts(x: seq<string>, r: Cut)
    requires r.f + 3 <= r.q && r.q + 4 <= r.g <= r.h <= |x|
    ensures x == (x[..r.f] + [x[r.f]]) + [x[r.f + 1], x[r.f + 2]] + x[r.f + 3..r.q] + x[r.q..r.q + 4]
                 + (x[r.q + 4..r.g] + x[r.g..r.h] + x[r.h..])
  {
    assert x[..r.f] + [x[r.f]] + [x[r.f + 1], x[r.f + 2]] == x[..r.f + 3];
    assert x[..r.f + 3] + x[r.f + 3..r.q] == x[..r.q];
    assert x[..r.q] + x[r.q..r.q + 4] == x[..r.q + 4];
    assert x[r.q + 4..r.g] + x[r.g..r.h] + x[r.h..] == x[r.q + 4..];
  }

  lemma ReadPieces(x: seq<string>, r: Cut)
    requires AllBarFree(x) && Readable(x, r)
    ensures var d := Read(x, r);
            && Pieces(d.target) == x[..r.f] && Pieces(d.format) == [x[r.f]] && Pieces(d.path) == x[r.f + 3..r.q]
            && Pieces(d.addr) == x[r.q + 4..r.g] && Pieces(d.facility) == x[r.g..r.h] && Pieces(d.tag) == x[r.h..]
            && NumbersOf(d) == x[r.q..r.q + 4]
            && Msgpack.Decimal(d.level) == x[r.f + 1] && BoolText(d.source) == x[r.f + 2]
  {
    hide Join, Pieces, Msgpack.Decimal, IsDecimal;
    PartPieces(x, 0, r.f);
    PartPieces(x, r.f + 3, r.q);
    PartPieces(x, r.q + 4, r.g);
    PartPieces(x, r.g, r.h);
    PartPieces(x, r.h, |x|);
    assert x[0..r.f] == x[..r.f] && x[r.h..|x|] == x[r.h..];
    OnePiece(x[r.f]);
  }

  lemma KeyPiecesAre(c: Config)
    ensures KeyPieces(c) == (Pieces(c.target) + Pieces(c.format)) + [Msgpack.Decimal(c.level), BoolText(c.source)]
                            + Pieces(c.path) + NumbersOf(c) + (Pieces(c.addr) + Pieces(c.facility) + Pieces(c.tag))
  {}

  lemma ReadKeyPieces(x: seq<string>, r: Cut)
    requires AllBarFree(x) && Readable(x, r)
    ensures KeyPieces(Read(x, r)) == x
  {
    var d := Read(x, r);
    ReadPieces(x, r);
    Parts(x, r);
    hide *;
    KeyPiecesAre(d);
  }

  lemma KeyPiecesBarFree(c: Config)
    ensures AllBarFree(KeyPieces(c))
  {
    hide ConfigKey, KeyPieces, Pieces;
    KeyHasPieces(c);
    PiecesAreBarFree(ConfigKey(c));
  }

  /** Whatever is read off a key has that key. */
  lemma ReadHasKey(c: Config, r: Cut)
    requires Readable(KeyPieces(c), r)
    ensures ConfigKey(Read(KeyPieces(c), r)) == ConfigKey(c)
  {
    hide ConfigKey, KeyPieces, Pieces, Read, Readable;
    KeyPiecesBarFree(c);
    ReadKeyPieces(KeyPieces(c), r);
    KeyHasPieces(c);
    KeyHasPieces(Read(KeyPieces(c), r));
    SamePieces(ConfigKey(c), ConfigKey(Read(KeyPieces(c), r)));
  }

  /** Where the parts of c stand in its own key. */
  function CutOf(c: Config): Cut {
    var q := LimitAt(c);
    Cut(|Pieces(c.target)|, q, q + 4 + |Pieces(c.addr)|, q + 4 + |Pieces(c.addr)| + |Pieces(c.facility)|)
  }

  lemma CutOfRead(x: seq<string>, r: Cut)
    requires AllBarFree(x) && Readable(x, r)
    ensures CutOf(Read(x, r)) == r
  {
    hide Pieces, Msgpack.Decimal, IsDecimal, NumbersOf, BoolText, Join;
    ReadPieces(x, r);
  }

  lemma FormatPiece(format: string)
    requires IsFormat(format)
    ensures Pieces(format) == [format]
  {
    OnePiece(format);
  }

  lemma OwnParts(c: Config)
    requires IsFormat(c.format)
    ensures var x, r := KeyPieces(c), CutOf(c);
            && 1 <= r.f && r.f + 4 <= r.q && r.q + 4 < r.g < r.h < |x|
            && r.q == r.f + 3 + |Pieces(c.path)| && LevelAt(c) == r.f + 1
            && x[..r.f] == Pieces(c.target) && x[r.f] == c.format && x[r.f + 3..r.q] == Pieces(c.path)
            && x[r.f + 1] == Msgpack.Decimal(c.level) && x[r.f + 2] == BoolText(c.source)
            && x[r.q..r.q + 4] == NumbersOf(c) && x[r.q + 4..] == BackOf(c)
  {
    hide Pieces, Msgpack.Decimal, BoolText, NumbersOf, KeyPieces;
    FormatPiece(c.format);
    PieceAt(c);
    var x, f := KeyPieces(c), |Pieces(c.target)|;
    assert x[..f + 1] == Pieces(c.target) + [c.format];
    assert x[..f] == x[..f + 1][..f] && x[f] == x[..f + 1][f];
  }

  lemma OwnReadable(c: Config)
    requires IsFormat(c.format)
    ensures Readable(KeyPieces(c), CutOf(c))
  {
    hide Pieces, Msgpack.Decimal, BoolText, NumbersOf, KeyPieces, BackOf, FrontOf;
    OwnParts(c);
    PieceKinds(c);
  }

  lemma OwnBack(c: Config)
    requires IsFormat(c.format)
    ensures var x, r := KeyPieces(c), CutOf(c);
            && r.q + 4 < r.g < r.h < |x|
            && x[r.q + 4..r.g] == Pieces(c.addr) && x[r.g..r.h] == Pieces(c.facility) && x[r.h..] == Pieces(c.tag)
  {
    hide Pieces, KeyPieces, FrontOf, LimitAt;
    OwnParts(c);
    var x, r := KeyPieces(c), CutOf(c);
    var back := x[r.q + 4..];
    var a, b := r.g - (r.q + 4), r.h - (r.q + 4);
    assert back[..a] == x[r.q + 4..r.g] && back[a..b] == x[r.g..r.h] && back[b..] == x[r.h..];
    assert back[..a] == Pieces(c.addr) && back[a..b] == Pieces(c.facility) && back[b..] == Pieces(c.tag);
  }

  /** A configuration with a format of its own is read off its own key. */
  lemma OwnRead(c: Config)
    requires IsFormat(c.format)
    ensures Readable(KeyPieces(c), CutOf(c)) && Read(KeyPieces(c), CutOf(c)) == c
  {
    hide Pieces, Msgpack.Decimal, BoolText, KeyPieces, BackOf, FrontOf, LimitAt, LevelAt, Join;
    OwnReadable(c);
    OwnParts(c);
    OwnBack(c);
    var x, r := KeyPieces(c), CutOf(c);
    JoinedPieces(c.target);
    JoinedPieces(c.path);
    JoinedPieces(c.addr);
    JoinedPieces(c.facility);
    JoinedPieces(c.tag);
    OwnNumbers(c, x, r);
  }

  lemma OwnNumbers(c: Config, x: seq<string>, r: Cut)
    requires Readable(x, r)
    requires x[r.f + 1] == Msgpack.Decimal(c.level) && x[r.f + 2] == BoolText(c.source)
    requires x[r.q..r.q + 4] == NumbersOf(c)
    ensures NumberIn(x[r.f + 1]) == c.level && c.source == (x[r.f + 2] == "true")
    ensures NumberIn(x[r.q]) == c.maxSizeMB && NumberIn(x[r.q + 1]) == c.maxBackups
    ensures NumberIn(x[r.q + 2]) == c.maxAgeDays && c.compress == (x[r.q + 3] == "true")
  {
    hide Msgpack.Decimal, IsDecimal;
    var ns := x[r.q..r.q + 4];
    assert ns[0] == x[r.q] && ns[1] == x[r.q + 1] && ns[2] == x[r.q + 2] && ns[3] == x[r.q + 3];
    DecimalFacts(c.level, NumberIn(x[r.f + 1]));
    DecimalFacts(c.maxSizeMB, NumberIn(x[r.q]));
    DecimalFacts(c.maxBackups, NumberIn(x[r.q + 1]));
    DecimalFacts(c.maxAgeDays, NumberIn(x[r.q + 2]));
  }

  /** The configurations with a given key and a format are exactly those that can be read off it. */
  lemma SameKeyIsRead(c: Config, d: Config)
    requires IsFormat(d.format) && ConfigKey(d) == ConfigKey(c)
    ensures Readable(KeyPieces(c), CutOf(d)) && Read(KeyPieces(c), CutOf(d)) == d
  {
    hide ConfigKey, KeyPieces, Read, Readable;
    KeyHasPieces(c);
    KeyHasPieces(d);
    OwnRead(d);
  }

  // ---------- which resolved configurations share their key with none ----------

  /** In the path, with more after it, stands what could be a format, a level and a flag. */
  ghost predicate FormatInPath(ps: seq<string>, i: int) {
    FormatAt(ps, i) && i + 3 < |ps|
  }

  /** In the path stands what could be the limits and a flag; what stands before is a path of its
      own. */
  ghost predicate LimitsInPath(c: Config, ps: seq<string>, i: int) {
    LimitsAt(ps, i) && 1 <= i && (i == 1 && c.target == "file" ==> ps[0] != "")
  }

  /** In the target stands what could be a format, a level and a flag; what stands before is a target
      of its own. */
  ghost predicate FormatInTarget(ps: seq<string>, i: int) {
    FormatAt(ps, i) && 1 <= i && (i == 1 ==> !Sentinel(ps[0]))
  }

  ghost predicate ReadOneWay(c: Config) {
    && BarFree(c.addr) && BarFree(c.facility) && BarFree(c.tag)
    && (forall i :: !FormatInPath(Pieces(c.path), i) && !LimitsInPath(c, Pieces(c.path), i))
    && (forall i :: !FormatInTarget(Pieces(c.target), i))
  }

  lemma FormatOnly(s: string)
    ensures IsFormat(s) ==> !IsDecimal(s) && !IsFlag(s)
    ensures IsFlag(s) ==> !IsDecimal(s)
  {
    NotBoth(s);
    if IsDecimal(s) {
      var n: Int64 :| s == Msgpack.Decimal(n);
      DecimalFacts(n, n);
    }
  }

  lemma PartAt(x: seq<string>, a: nat, ps: seq<string>)
    requires a + |ps| <= |x| && x[a..a + |ps|] == ps
    ensures forall k :: 0 <= k < |ps| ==> ps[k] == x[a + k]
  {
    forall k | 0 <= k < |ps|
      ensures ps[k] == x[a + k]
    {
      assert x[a..a + |ps|][k] == x[a + k];
    }
  }

  lemma PlacesInTarget(x: seq<string>, ts: seq<string>, f: nat)
    requires |ts| < |x| && x[..|ts|] == ts && IsFormat(x[|ts|])
    requires FormatAt(x, f) && f < |ts|
    ensures FormatAt(ts, f)
  {
    hide IsFormat, IsDecimal, IsFlag;
    FormatOnly(x[|ts|]);
    assert x[0..|ts|] == ts;
    PartAt(x, 0, ts);
  }

  lemma PlacesAfter(x: seq<string>, f: nat, ps: seq<string>, r: Cut)
    requires f + 3 + |ps| + 7 == |x| && x[f + 3..f + 3 + |ps|] == ps
    requires FormatAt(x, f) && LimitsAt(x, f + 3 + |ps|)
    requires Readable(x, r) && r.f >= f
    ensures r.f > f ==> FormatInPath(ps, r.f - f - 3)
    ensures r.f == f && r.q != f + 3 + |ps| ==> LimitsAt(ps, r.q - f - 3)
  {
    hide IsFormat, IsDecimal, IsFlag;
    var q := f + 3 + |ps|;
    PartAt(x, f + 3, ps);
    FormatOnly(x[r.f]);
    FormatOnly(x[r.q + 3]);
  }

  lemma ManyPieces(s: string)
    requires |Pieces(s)| > 1
    ensures !Sentinel(s) && s != "file"
  {
    OnePiece("");
    OnePiece("-");
    OnePiece("auto");
    OnePiece("file");
  }

  lemma OneString(s: string)
    ensures Join([s]) == s
  {}

  lemma ShortBack(c: Config)
    requires BarFree(c.addr) && BarFree(c.facility) && BarFree(c.tag)
    ensures |BackOf(c)| == 3
  {
    OnePiece(c.addr);
    OnePiece(c.facility);
    OnePiece(c.tag);
  }

  /** Any other reading shows in the path or in the target, if nothing after them has a bar. */
  lemma OtherReading(c: Config, r: Cut)
    requires IsFormat(c.format) && BarFree(c.addr) && BarFree(c.facility) && BarFree(c.tag)
    requires Readable(KeyPieces(c), r) && Resolved(Read(KeyPieces(c), r)) && r != CutOf(c)
    ensures !ReadOneWay(c)
  {
    var x, own := KeyPieces(c), CutOf(c);
    var ts, ps := Pieces(c.target), Pieces(c.path);
    OwnParts(c);
    OwnReadable(c);
    ShortBack(c);
    BackLength(c);
    hide *;
    if r.f < own.f {
      TargetFound(x, r, ts);
      FoundInTarget(c, r.f);
    } else {
      PathFound(c, x, own, r, ps);
    }
  }

  lemma BackLength(c: Config)
    ensures |KeyPieces(c)| == LimitAt(c) + 4 + |BackOf(c)| && CutOf(c).q == LimitAt(c)
    ensures |BackOf(c)| == 3 ==> CutOf(c) == CutOf(c).(g := LimitAt(c) + 5, h := LimitAt(c) + 6)
  {
    hide Pieces;
  }

  lemma FoundInTarget(c: Config, i: int)
    requires FormatInTarget(Pieces(c.target), i)
    ensures !ReadOneWay(c)
  {
    hide Pieces, FormatInTarget;
  }

  lemma PathFound(c: Config, x: seq<string>, own: Cut, r: Cut, ps: seq<string>)
    requires Readable(x, own) && Readable(x, r) && Resolved(Read(x, r)) && r != own && r.f >= own.f
    requires own.g == own.q + 5 && own.h == own.q + 6 && |x| == own.q + 7
    requires ps == Pieces(c.path) && own.q == own.f + 3 + |ps| && x[own.f + 3..own.q] == ps
    requires x[..own.f] == Pieces(c.target)
    ensures !ReadOneWay(c)
  {
    hide Pieces, IsFormat, IsDecimal, IsFlag, Read, Resolved, FormatAt, LimitsAt, FormatInPath, LimitsInPath,
         FormatInTarget, BarFree;
    PlacesAfter(x, own.f, ps, r);
    if r.f == own.f {
      LimitsFound(c, x, r, ps);
    }
  }

  lemma TargetFound(x: seq<string>, r: Cut, ts: seq<string>)
    requires Readable(x, r) && Resolved(Read(x, r)) && r.f < |ts| < |x| && x[..|ts|] == ts && IsFormat(x[|ts|])
    ensures FormatInTarget(ts, r.f)
  {
    hide IsFormat, IsDecimal, IsFlag, Join;
    PlacesInTarget(x, ts, r.f);
    if r.f == 1 {
      assert x[..1] == [ts[0]];
      OneString(ts[0]);
    }
  }

  lemma LimitsFound(c: Config, x: seq<string>, r: Cut, ps: seq<string>)
    requires Readable(x, r) && Resolved(Read(x, r)) && LimitsAt(ps, r.q - r.f - 3)
    requires r.f + 3 + |ps| <= |x| && x[r.f + 3..r.f + 3 + |ps|] == ps && x[..r.f] == Pieces(c.target)
    ensures LimitsInPath(c, ps, r.q - r.f - 3)
  {
    hide Pieces, IsFormat, IsDecimal, IsFlag;
    var i := r.q - r.f - 3;
    PartAt(x, r.f + 3, ps);
    JoinedPieces(c.target);
    if i == 1 && c.target == "file" {
      assert x[r.f + 3..r.q] == [ps[0]];
      OneString(ps[0]);
    }
  }

  // ---------- another reading for the rest ----------

  /** A bar after the limits: facility and tag may begin elsewhere. */
  lemma BarBehind(c: Config) returns (r: Cut)
    requires Resolved(c) && !(BarFree(c.addr) && BarFree(c.facility) && BarFree(c.tag))
    ensures Readable(KeyPieces(c), r) && Resolved(Read(KeyPieces(c), r)) && r != CutOf(c)
  {
    var x, own := KeyPieces(c), CutOf(c);
    OwnRead(c);
    OwnParts(c);
    BackHasMore(c);
    hide KeyPieces, Pieces, IsFormat, IsDecimal, IsFlag, BackOf, NumbersOf, LevelAt, LimitAt, Join, CutOf;
    r := own.(g := own.q + 5, h := if own.g == own.q + 5 && own.h == own.q + 6 then own.q + 7 else own.q + 6);
  }

  lemma BackHasMore(c: Config)
    requires !(BarFree(c.addr) && BarFree(c.facility) && BarFree(c.tag))
    ensures |BackOf(c)| > 3
  {
    if !BarFree(c.addr) {
      BarMakesPieces(c.addr);
    } else if !BarFree(c.facility) {
      BarMakesPieces(c.facility);
    } else {
      BarMakesPieces(c.tag);
    }
  }

  lemma LimitsMove(c: Config, i: int) returns (r: Cut)
    requires Resolved(c) && LimitsInPath(c, Pieces(c.path), i)
    ensures Readable(KeyPieces(c), r) && Resolved(Read(KeyPieces(c), r)) && r != CutOf(c)
    ensures r.f == CutOf(c).f && r.q < CutOf(c).q && r.g == r.q + 5 && r.h == r.q + 6
  {
    var x, own, ps := KeyPieces(c), CutOf(c), Pieces(c.path);
    OwnReadable(c);
    OwnParts(c);
    KeyPiecesBarFree(c);
    hide *;
    r := Cut(own.f, own.f + 3 + i, own.f + 8 + i, own.f + 9 + i);
    LimitsReadable(c, x, own, r, ps, i);
    ShorterPathResolved(c, x, r, ps);
  }

  lemma LimitsReadable(c: Config, x: seq<string>, own: Cut, r: Cut, ps: seq<string>, i: int)
    requires Readable(x, own) && own.q == own.f + 3 + |ps| && x[own.f + 3..own.q] == ps && LimitsInPath(c, ps, i)
    requires r == Cut(own.f, own.f + 3 + i, own.f + 8 + i, own.f + 9 + i)
    ensures Readable(x, r) && r.q < own.q && ps != [] && x[r.f + 3] == ps[0]
    ensures r.q == r.f + 4 && c.target == "file" ==> ps[0] != ""
  {
    hide IsFormat, IsDecimal, IsFlag;
    PartAt(x, own.f + 3, ps);
  }

  lemma ShorterPathResolved(c: Config, x: seq<string>, r: Cut, ps: seq<string>)
    requires AllBarFree(x) && Readable(x, r) && Resolved(c) && x[..r.f] == Pieces(c.target)
    requires ps != [] && x[r.f + 3] == ps[0] && (r.q == r.f + 4 && c.target == "file" ==> ps[0] != "")
    ensures Resolved(Read(x, r))
  {
    hide Pieces, IsFormat, IsDecimal, IsFlag, NumbersOf, Join;
    ReadPieces(x, r);
    JoinedPieces(c.target);
    if r.q > r.f + 4 {
      ManyPieces(Read(x, r).path);
      PathNotEmpty(Read(x, r).path);
    } else {
      assert x[r.f + 3..r.q] == [ps[0]];
      OneString(ps[0]);
    }
  }

  lemma FormatMoves(c: Config, i: int) returns (r: Cut)
    requires Resolved(c) && FormatInPath(Pieces(c.path), i)
    ensures Readable(KeyPieces(c), r) && Resolved(Read(KeyPieces(c), r)) && r == CutOf(c).(f := r.f) && r != CutOf(c)
    ensures !BarFree(Read(KeyPieces(c), r).target)
  {
    var x, own, ps := KeyPieces(c), CutOf(c), Pieces(c.path);
    OwnReadable(c);
    OwnParts(c);
    KeyPiecesBarFree(c);
    hide *;
    r := own.(f := own.f + 3 + i);
    LongerTargetResolved(x, own, r, ps, i);
  }

  lemma LongerTargetResolved(x: seq<string>, own: Cut, r: Cut, ps: seq<string>, i: int)
    requires AllBarFree(x) && Readable(x, own) && own.q == own.f + 3 + |ps| && x[own.f + 3..own.q] == ps
    requires FormatInPath(ps, i) && r == own.(f := own.f + 3 + i)
    ensures Readable(x, r) && Resolved(Read(x, r)) && r != own && !BarFree(Read(x, r).target)
  {
    hide Pieces, IsDecimal, IsFlag, NumbersOf, Join, BarFree, IsFormat;
    PartAt(x, own.f + 3, ps);
    ReadPieces(x, r);
    ManyPieces(Read(x, r).target);
    BarsOf(Read(x, r).target);
  }

  lemma BarsOf(s: string)
    requires |Pieces(s)| > 1
    ensures !BarFree(s)
  {
    if BarFree(s) {
      OnePiece(s);
    }
  }

  lemma FormatMovesUp(c: Config, i: int) returns (r: Cut)
    requires Resolved(c) && FormatInTarget(Pieces(c.target), i)
    ensures Readable(KeyPieces(c), r) && Resolved(Read(KeyPieces(c), r)) && r == CutOf(c).(f := r.f) && r != CutOf(c)
  {
    var x, own, ts := KeyPieces(c), CutOf(c), Pieces(c.target);
    OwnReadable(c);
    OwnParts(c);
    KeyPiecesBarFree(c);
    hide *;
    r := own.(f := i);
    ShorterTargetResolved(x, own, r, ts, i);
  }

  lemma ShorterTargetResolved(x: seq<string>, own: Cut, r: Cut, ts: seq<string>, i: int)
    requires AllBarFree(x) && Readable(x, own) && own.f == |ts| && x[..own.f] == ts
    requires FormatInTarget(ts, i) && r == own.(f := i)
    ensures Readable(x, r) && Resolved(Read(x, r)) && r != own
  {
    hide Pieces, IsDecimal, IsFlag, NumbersOf, Join, IsFormat;
    assert x[0..own.f] == ts;
    PartAt(x, 0, ts);
    ReadPieces(x, r);
    ManyPieces(Read(x, r).path);
    PathNotEmpty(Read(x, r).path);
    if i > 1 {
      ManyPieces(Read(x, r).target);
    } else {
      assert x[..1] == [ts[0]];
      OneString(ts[0]);
    }
  }

  lemma PathNotEmpty(s: string)
    requires |Pieces(s)| > 1
    ensures s != ""
  {}

  lemma OtherReadingOf(c: Config) returns (r: Cut)
    requires Resolved(c) && !ReadOneWay(c)
    ensures Readable(KeyPieces(c), r) && Resolved(Read(KeyPieces(c), r)) && r != CutOf(c)
  {
    hide KeyPieces, Pieces, Resolved, Readable, Read, CutOf, FormatInPath, LimitsInPath, FormatInTarget, BarFree;
    if !(BarFree(c.addr) && BarFree(c.facility) && BarFree(c.tag)) {
      r := BarBehind(c);
    } else if i :| FormatInPath(Pieces(c.path), i) {
      r := FormatMoves(c, i);
    } else if i :| LimitsInPath(c, Pieces(c.path), i) {
      r := LimitsMove(c, i);
    } else {
      var i :| FormatInTarget(Pieces(c.target), i);
      r := FormatMovesUp(c, i);
    }
  }

  lemma ReadOneWayOnly(c: Config, d: Config)
    requires ReadOneWay(c) && IsFormat(c.format) && Resolved(d) && ConfigKey(d) == ConfigKey(c)
    ensures d == c
  {
    hide KeyPieces, Pieces, Readable, Read, CutOf, FormatInPath, LimitsInPath, FormatInTarget, BarFree, ConfigKey,
         IsFormat;
    SameKeyIsRead(c, d);
    OwnRead(c);
    if CutOf(d) != CutOf(c) {
      OtherReading(c, CutOf(d));
    }
  }

  /** Among resolved configurations, exactly these have a key of their own. */
  lemma ResolvedKeyExactly(c: Config)
    requires Resolved(c)
    ensures (forall d :: Resolved(d) && ConfigKey(d) == ConfigKey(c) ==> d == c) <==> ReadOneWay(c)
  {
    hide ReadOneWay, ConfigKey, KeyPieces, Read, Readable, CutOf;
    if ReadOneWay(c) {
      forall d | Resolved(d) && ConfigKey(d) == ConfigKey(c)
        ensures d == c
      {
        ReadOneWayOnly(c, d);
      }
    } else {
      var r := OtherReadingOf(c);
      ReadHasKey(c, r);
      KeyPiecesBarFree(c);
      CutOfRead(KeyPieces(c), r);
    }
  }
}
