/**
 Which settings the base was built from after a run, and when a change of settings goes unnoticed.
 */
module ConfigRuns {
  import opened Basics
  import opened LogModel
  import opened LogProofs
  import opened ConfigKeys
  import opened ConfigReadings
  import opened Sequences
  import Msgpack

  // ---------- destinations ----------

  predicate IsSpace(c: char) {
    c == ' ' || c == '\t' || c == '\n' || c == '\r' || c as int == 11 || c as int == 12
  }

  function TrimLeft(s: string): string {
    if s != "" && IsSpace(s[0]) then TrimLeft(s[1..]) else s
  }

  function TrimRight(s: string): string {
    if s != "" && IsSpace(s[|s| - 1]) then TrimRight(s[..|s| - 1]) else s
  }

  function Lower(s: string): string {
    seq(|s|, i requires 0 <= i < |s| => if 'A' <= s[i] <= 'Z' then s[i] - 'A' + 'a' else s[i])
  }

  /** The facility a name stands for. */
  function Facility(name: string): Option<string> {
    var n := Lower(TrimRight(TrimLeft(name)));
    if n == "" then Some("daemon")
    else if n in {"daemon", "user", "local0", "local1", "local2", "local3", "local4", "local5", "local6", "local7"}
    then Some(n)
    else None
  }

  predicate Discards(target: string) {
    target == "none" || target == "off" || target == "discard"
  }

  /** Needs nothing that could fail. */
  predicate AlwaysOpens(c: Config) {
    Discards(c.target) || c.target == "stderr" || c.target == "stdout"
  }

  predicate CanOpen(c: Config) {
    AlwaysOpens(c) || c.target == "file" || (c.target == "syslog" && Facility(c.facility).Some?)
  }

  /** Whether the destination of c may turn out to open, or not to; files and connections may do either. */
  predicate MayOpen(c: Config, opens: bool) {
    if opens then CanOpen(c) else !AlwaysOpens(c)
  }

  datatype Destination =
    | Discard
    | Console(err: bool, format: string, source: bool)
    | Rotating(path: string, maxSizeMB: Int64, maxBackups: Int64, maxAgeDays: Int64, compress: bool,
               format: string, source: bool)
    | Syslog(addr: string, facility: string, tag: string, format: string)

  /** What a configuration asks for: the destination with the settings that are used for it, stderr if
      it cannot open, and the level. */
  datatype Intent = Intent(dest: Destination, level: Int64)

  function Asked(c: Config): Intent {
    var dest :=
      if Discards(c.target) then Discard
      else if c.target == "stdout" then Console(false, c.format, c.source)
      else if c.target == "file" then
        Rotating(c.path, c.maxSizeMB, c.maxBackups, c.maxAgeDays, c.compress, c.format, c.source)
      else if c.target == "syslog" && Facility(c.facility).Some? then
        Syslog(c.addr, Facility(c.facility).value, if c.tag == "" then "kettlingar" else c.tag, c.format)
      else Console(true, c.format, c.source);
    Intent(dest, c.level)
  }

  // ---------- which configuration is in force ----------

  /** The settings of the latest ConfigureLogging call. */
  function Latest(tr: seq<Event>): Option<Config> {
    if tr == [] then None
    else if tr[|tr| - 1].Configure? then Some(tr[|tr| - 1].cfg)
    else Latest(tr[..|tr| - 1])
  }

  predicate BuiltFrom(s: Sink, c: Config) {
    s.origin == c || s.origin == c.(target := "stderr")
  }

  ghost predicate Configured(w: World, latest: Option<Config>) {
    && LifeCycle(w)
    && (w.pending == None <==> latest == None)
    && (w.pending.Some? ==>
          && ConfigKey(w.pending.value) == ConfigKey(latest.value)
          && w.sinks != [] && BuiltFrom(w.sinks[|w.sinks| - 1], w.pending.value)
          && (w.phase == Ready ==> w.applied && w.key == ConfigKey(w.pending.value)))
    && (w.pending == None ==> !w.applied && w.phase == Ready)
  }

  lemma ConfiguredWrite(w: World, r: Record, latest: Option<Config>)
    requires Configured(w, latest)
    ensures Configured(WriteBase(w, r), latest)
  {
    WriteKeepsLifeCycle(w, r);
  }

  lemma ConfiguredFeeds(w: World, e: Event, latest: Option<Config>)
    requires e.Subscribe? || e.Unsubscribe? || e.Receive? || e.SetLevel?
    requires Configured(w, latest) && Can(w, e)
    ensures Configured(Step(w, e), latest)
  {
    FeedsKeepLifeCycle(w, e);
  }

  lemma ConfiguredOpen(w: World, cfg: Config, opens: bool, latest: Option<Config>)
    requires Configured(w, latest) && w.phase == Ready
    ensures Configured(Opening(w, cfg, opens), Some(cfg))
  {
    hide ConfigKey;
    ConfigureKeepsLifeCycle(w, Configure(cfg, opens));
  }

  lemma ConfiguredSwap(w: World, e: Event, latest: Option<Config>)
    requires e.Swap? || e.ApplyLevel?
    requires Configured(w, latest) && Can(w, e)
    ensures Configured(Step(w, e), latest)
  {
    ConfigureKeepsLifeCycle(w, e);
  }

  lemma ConfiguredRelease(w: World, latest: Option<Config>)
    requires Configured(w, latest) && Can(w, Release)
    ensures Configured(Releasing(w), latest)
  {
    ConfigureKeepsLifeCycle(w, Release);
  }

  lemma ConfiguredStep(w: World, e: Event, latest: Option<Config>)
    requires Configured(w, latest) && Can(w, e)
    ensures Configured(Step(w, e), if e.Configure? then Some(e.cfg) else latest)
  {
    if e.Handle? {
      var offered := w.(feeds := OfferAll(w.feeds, e.r, e.ctx));
      OffersKeepLifeCycle(w, offered.feeds);
      ConfiguredWrite(offered, e.r, latest);
    } else if e.Configure? {
      ConfiguredOpen(w, e.cfg, e.opens, latest);
    } else if e.Release? {
      ConfiguredRelease(w, latest);
    } else if e.Swap? || e.ApplyLevel? {
      ConfiguredSwap(w, e, latest);
    } else {
      ConfiguredFeeds(w, e, latest);
    }
  }

  lemma {:induction false} ConfiguredHolds(tr: seq<Event>)
    requires Run(tr).Some?
    ensures Configured(Run(tr).value, Latest(tr))
  {
    if tr != [] {
      ConfiguredHolds(tr[..|tr| - 1]);
      CanLast(tr);
      hide Configured, LifeCycle, Step, Can;
      ConfiguredStep(Run(tr[..|tr| - 1]).value, tr[|tr| - 1], Latest(tr[..|tr| - 1]));
    }
  }

  /** Every configuration of the run is a resolved one, and its destination opens, or does not, as it
      may. */
  ghost predicate Real(tr: seq<Event>) {
    forall i :: 0 <= i < |tr| && tr[i].Configure? ==> Resolved(tr[i].cfg) && MayOpen(tr[i].cfg, tr[i].opens)
  }

  lemma PendingKept(w: World, e: Event)
    requires Can(w, e)
    ensures Step(w, e).pending == w.pending || (e.Configure? && Step(w, e).pending == Some(e.cfg))
  {}

  lemma {:induction false} PendingResolved(tr: seq<Event>)
    requires Run(tr).Some? && Real(tr) && Run(tr).value.pending.Some?
    ensures Resolved(Run(tr).value.pending.value)
  {
    hide Resolved, MayOpen, Step, Can;
    CanLast(tr);
    var n := |tr| - 1;
    PendingKept(Run(tr[..n]).value, tr[n]);
    if Run(tr).value.pending == Run(tr[..n]).value.pending {
      assert Real(tr[..n]) by {
        assert forall i :: 0 <= i < n ==> tr[..n][i] == tr[i];
      }
      PendingResolved(tr[..n]);
    } else {
      assert tr[n].Configure?;
    }
  }

  /** A ConfigureLogging call with c has returned, in a run of the service. */
  ghost predicate Returned(tr: seq<Event>, c: Config) {
    Real(tr) && Run(tr).Some? && Run(tr).value.phase == Ready && Latest(tr) == Some(c)
  }

  ghost predicate BaseFrom(w: World, c: Config) {
    w.base.Installed? && w.base.i < |w.sinks| && BuiltFrom(w.sinks[w.base.i], c)
  }

  /** The settings the base was built for have the key of the latest ones. */
  lemma PendingInForce(tr: seq<Event>, c: Config)
    requires Returned(tr, c)
    ensures var w := Run(tr).value;
            && w.pending.Some? && Resolved(w.pending.value) && BaseFrom(w, w.pending.value)
            && ConfigKey(w.pending.value) == ConfigKey(c)
  {
    hide ConfigKey, Resolved, Real;
    ConfiguredHolds(tr);
    PendingResolved(tr);
  }

  /** When no ConfigureLogging is running, the base was built from the settings of the latest one, or
      their stderr fallback, whatever was configured before, if their key can be read one way only. */
  lemma BaseFromLatestConfig(tr: seq<Event>, c: Config)
    requires Returned(tr, c) && Resolved(c) && ReadOneWay(c)
    ensures BaseFrom(Run(tr).value, c)
  {
    hide ConfigKey, ReadOneWay, Run;
    PendingInForce(tr, c);
    ReadOneWayOnly(c, Run(tr).value.pending.value);
  }

  /** A change between two configurations with one key: the second call is ignored. */
  function UnnoticedChange(d: Config, c: Config): seq<Event> {
    [Configure(d, CanOpen(d)), Swap(d.level), ApplyLevel(d.level), Release, Configure(c, CanOpen(c))]
  }

  lemma RunStep(tr: seq<Event>, e: Event, w: World)
    requires Run(tr) == Some(w) && Can(w, e)
    ensures Run(tr + [e]) == Some(Step(w, e))
  {
    assert (tr + [e])[..|tr|] == tr;
  }

  lemma UnnoticedChangeRuns(d: Config, c: Config)
    requires ConfigKey(d) == ConfigKey(c)
    ensures var tr := UnnoticedChange(d, c);
            && Run(tr).Some? && Run(tr).value.phase == Ready && Latest(tr) == Some(c)
            && Run(tr).value.base == Installed(0) && |Run(tr).value.sinks| == 1
            && Run(tr).value.sinks[0].origin == (if CanOpen(d) then d else d.(target := "stderr"))
            && Run(tr).value.pending == Some(d)
  {
    hide ConfigKey, CanOpen;
    var t1 := [Configure(d, CanOpen(d))];
    var t2 := t1 + [Swap(d.level)];
    var t3 := t2 + [ApplyLevel(d.level)];
    var t4 := t3 + [Release];
    var w1 := Opening(INIT, d, CanOpen(d));
    var w2 := Swapping(w1, d.level);
    var w3 := w2.(level := d.level, phase := Leveled);
    var w4 := Releasing(w3);
    Empty(t1);
    assert Run([]) == Some(INIT);
    hide Run;
    RunStep([], t1[0], INIT);
    RunStep(t1, Swap(d.level), w1);
    RunStep(t2, ApplyLevel(d.level), w2);
    RunStep(t3, Release, w3);
    RunStep(t4, Configure(c, CanOpen(c)), w4);
    assert UnnoticedChange(d, c) == t4 + [Configure(c, CanOpen(c))];
  }

  lemma UnnoticedChangeReal(d: Config, c: Config)
    requires Resolved(c) && Resolved(d)
    ensures Real(UnnoticedChange(d, c))
  {
    hide Facility, Resolved;
  }

  lemma TargetInKey(c: Config, d: Config)
    requires ConfigKey(d) == ConfigKey(c) && d == c.(target := d.target)
    ensures d == c
  {
    var rest := Join(Fields(c)[1..]);
    assert Fields(d)[1..] == Fields(c)[1..];
    assert d.target + "|" + rest == c.target + "|" + rest;
    assert |d.target| == |c.target|;
    assert d.target == (d.target + "|" + rest)[..|d.target|];
    assert c.target == (c.target + "|" + rest)[..|c.target|];
  }

  /** Over every run of the service: after a call with c has returned, the base is sure to have been
      built from c, or its stderr fallback, exactly if the key of c can be read one way only. */
  lemma InForceExactly(c: Config)
    requires Resolved(c)
    ensures (forall tr :: Returned(tr, c) ==> BaseFrom(Run(tr).value, c)) <==> ReadOneWay(c)
  {
    hide Run, ConfigKey, ReadOneWay, Real, Resolved;
    if ReadOneWay(c) {
      forall tr | Returned(tr, c)
        ensures BaseFrom(Run(tr).value, c)
      {
        BaseFromLatestConfig(tr, c);
      }
    } else {
      ResolvedKeyExactly(c);
      var d :| Resolved(d) && ConfigKey(d) == ConfigKey(c) && d != c;
      UnnoticedChangeRuns(d, c);
      UnnoticedChangeReal(d, c);
      assert Returned(UnnoticedChange(d, c), c);
      if BaseFrom(Run(UnnoticedChange(d, c)).value, c) {
        TargetInKey(c, d);
      }
    }
  }

  // ---------- what is asked for ----------

  /** The base was built for settings that ask for the same as c. */
  ghost predicate InEffect(w: World, c: Config) {
    w.pending.Some? && BaseFrom(w, w.pending.value) && Asked(w.pending.value) == Asked(c)
  }

  /** However the key of c is read, the same is asked for. */
  ghost predicate ReadAlike(c: Config) {
    forall r :: Readable(KeyPieces(c), r) && Resolved(Read(KeyPieces(c), r)) ==>
                  Asked(Read(KeyPieces(c), r)) == Asked(c)
  }

  /** Over every run of the service: after a call with c has returned, what c asks for is sure to be in
      effect exactly if the same is asked for however its key is read. */
  lemma InEffectExactly(c: Config)
    requires Resolved(c)
    ensures (forall tr :: Returned(tr, c) ==> InEffect(Run(tr).value, c)) <==> ReadAlike(c)
  {
    hide Run, ConfigKey, KeyPieces, Real, Asked, Read, Readable, BaseFrom;
    if ReadAlike(c) {
      forall tr | Returned(tr, c)
        ensures InEffect(Run(tr).value, c)
      {
        PendingInForce(tr, c);
        SameKeyIsRead(c, Run(tr).value.pending.value);
      }
    } else {
      var r :| Readable(KeyPieces(c), r) && Resolved(Read(KeyPieces(c), r)) && Asked(Read(KeyPieces(c), r)) != Asked(c);
      var d := Read(KeyPieces(c), r);
      ReadHasKey(c, r);
      UnnoticedChangeRuns(d, c);
      UnnoticedChangeReal(d, c);
      assert Returned(UnnoticedChange(d, c), c);
    }
  }

  /** What stands after the source flag in the key of c. */
  function AfterSource(c: Config): seq<string> {
    Pieces(c.path) + NumbersOf(c) + BackOf(c)
  }

  /** What could be the limits and a flag, not where they are, with enough after it, and after what is
      a path of its own. */
  ghost predicate OtherLimits(c: Config, i: int) {
    var z := AfterSource(c);
    LimitsAt(z, i) && 1 <= i && i + 7 <= |z| && i != |Pieces(c.path)| && (i == 1 ==> z[0] != "")
  }

  lemma OwnAfterSource(c: Config)
    requires IsFormat(c.format)
    ensures KeyPieces(c)[CutOf(c).f + 3..] == AfterSource(c)
  {
    hide Pieces, KeyPieces, IsFormat, NumbersOf, BackOf, LimitAt, LevelAt;
    OwnParts(c);
    var x, r := KeyPieces(c), CutOf(c);
    assert x[r.f + 3..] == x[r.f + 3..r.q] + x[r.q..r.q + 4] + x[r.q + 4..];
  }

  /** For a log file, the default: not if a format may stand in its path, or other limits anywhere
      behind its beginning. */
  lemma FileAlikeExactly(c: Config)
    requires Resolved(c) && c.target == "file"
    ensures ReadAlike(c) <==>
              (forall i :: !FormatInPath(Pieces(c.path), i)) && (forall i :: !OtherLimits(c, i))
  {
    var x, own := KeyPieces(c), CutOf(c);
    hide KeyPieces, FormatInPath, OtherLimits, Read, Readable, CutOf, Asked, Resolved, Pieces;
    if i :| FormatInPath(Pieces(c.path), i) {
      var r := FormatMoves(c, i);
      UnknownTarget(Read(x, r), c);
    } else if i :| OtherLimits(c, i) {
      var r := LimitsElsewhere(c, i);
    } else {
      forall r | Readable(x, r) && Resolved(Read(x, r))
        ensures Asked(Read(x, r)) == Asked(c)
      {
        FileReadAlike(c, r);
      }
    }
  }

  lemma UnknownTarget(d: Config, c: Config)
    requires !BarFree(d.target) && (c.target == "file" || (c.target == "syslog" && Facility(c.facility).Some?))
    ensures Asked(d) != Asked(c)
  {}

  lemma LimitsElsewhere(c: Config, i: int) returns (r: Cut)
    requires Resolved(c) && c.target == "file" && OtherLimits(c, i)
    ensures Readable(KeyPieces(c), r) && Resolved(Read(KeyPieces(c), r)) && Asked(Read(KeyPieces(c), r)) != Asked(c)
  {
    var x, own, z := KeyPieces(c), CutOf(c), AfterSource(c);
    OwnReadable(c);
    OwnParts(c);
    OwnAfterSource(c);
    KeyPiecesBarFree(c);
    r := Cut(own.f, own.f + 3 + i, own.f + 8 + i, own.f + 9 + i);
    hide *;
    OtherLimitsReadable(c, x, own, z, r, i);
    ShorterPathResolved(c, x, r, z);
    OtherPath(c, x, r, i);
  }

  lemma OtherLimitsReadable(c: Config, x: seq<string>, own: Cut, z: seq<string>, r: Cut, i: int)
    requires Readable(x, own) && x[own.f + 3..] == z && z == AfterSource(c) && OtherLimits(c, i)
    requires r == Cut(own.f, own.f + 3 + i, own.f + 8 + i, own.f + 9 + i)
    ensures Readable(x, r) && z != [] && x[r.f + 3] == z[0] && (r.q == r.f + 4 ==> z[0] != "")
    ensures i != |Pieces(c.path)|
  {
    hide IsFormat, IsDecimal, IsFlag, AfterSource, Pieces;
    assert x[own.f + 3..own.f + 3 + |z|] == z;
    PartAt(x, own.f + 3, z);
  }

  lemma OtherPath(c: Config, x: seq<string>, r: Cut, i: int)
    requires AllBarFree(x) && Readable(x, r) && r.q == r.f + 3 + i && i != |Pieces(c.path)|
    requires c.target == "file" && x[..r.f] == Pieces(c.target)
    ensures Asked(Read(x, r)) != Asked(c)
  {
    hide Pieces, IsFormat, IsDecimal, IsFlag, NumbersOf, Join, Facility;
    ReadPieces(x, r);
    SamePieces(Read(x, r).target, c.target);
  }

  lemma FileReadAlike(c: Config, r: Cut)
    requires Resolved(c) && c.target == "file"
    requires Readable(KeyPieces(c), r) && Resolved(Read(KeyPieces(c), r))
    requires forall i :: !FormatInPath(Pieces(c.path), i)
    requires forall i :: !OtherLimits(c, i)
    ensures Asked(Read(KeyPieces(c), r)) == Asked(c)
  {
    var x, own := KeyPieces(c), CutOf(c);
    hide KeyPieces, CutOf, Read, Readable, FormatInPath, OtherLimits, Asked, Pieces, LevelAt, NumbersOf, BackOf,
         AfterSource;
    OwnRead(c);
    OwnParts(c);
    OwnAfterSource(c);
    FilePieces(c);
    hide *;
    FileSamePlaces(c, x, own, r);
    SameFile(x, own, r);
  }

  lemma FilePieces(c: Config)
    requires c.target == "file"
    ensures Pieces(c.target) == ["file"]
  {
    OnePiece("file");
  }

  lemma FileSamePlaces(c: Config, x: seq<string>, own: Cut, r: Cut)
    requires Readable(x, own) && Readable(x, r) && own.f == 1 && own.q == 4 + |Pieces(c.path)|
    requires x[0] == "file" && x[4..] == AfterSource(c) && x[4..own.q] == Pieces(c.path) && Resolved(Read(x, r))
    requires forall i :: !FormatInPath(Pieces(c.path), i)
    requires forall i :: !OtherLimits(c, i)
    ensures r.f == 1 && r.q == own.q
  {
    hide *;
    LimitsThere(c, x, own, r);
    FormatThere(x, own, r, Pieces(c.path));
  }

  lemma LimitsThere(c: Config, x: seq<string>, own: Cut, r: Cut)
    requires Readable(x, own) && Readable(x, r) && own.f == 1 && own.q == 4 + |Pieces(c.path)|
    requires x[0] == "file" && x[4..] == AfterSource(c) && Resolved(Read(x, r))
    ensures r.q == own.q || OtherLimits(c, r.q - 4)
  {
    hide IsFormat, IsDecimal, IsFlag, Pieces, Join, AfterSource;
    var z := AfterSource(c);
    assert x[4..4 + |z|] == z;
    PartAt(x, 4, z);
    assert LimitsAt(z, r.q - 4);
    if r.q == 5 {
      assert r.f == 1 && x[..1] == ["file"] && x[4..5] == [z[0]];
      OneString("file");
      OneString(z[0]);
    }
  }

  lemma FormatThere(x: seq<string>, own: Cut, r: Cut, ps: seq<string>)
    requires Readable(x, own) && Readable(x, r) && own.f == 1 && own.q == 4 + |ps| && x[4..own.q] == ps
    ensures r.f >= 1 && (r.q == own.q && r.f > 1 ==> FormatInPath(ps, r.f - 4))
  {
    hide IsFormat, IsDecimal, IsFlag;
    PartAt(x, 4, ps);
    FormatOnly(x[r.f]);
  }

  lemma SameFile(x: seq<string>, own: Cut, r: Cut)
    requires Readable(x, own) && Readable(x, r) && r.f == own.f && r.q == own.q && Read(x, own).target == "file"
    ensures Asked(Read(x, r)) == Asked(Read(x, own))
  {
    hide IsFormat, IsDecimal, IsFlag, Join, Facility;
  }

  // ---------- syslog ----------

  lemma KnownFacility(name: string)
    requires Facility(name).Some?
    ensures BarFree(name)
  {
    TrimLeftBars(name);
    TrimRightBars(TrimLeft(name));
    var s := TrimRight(TrimLeft(name));
    forall i | 0 <= i < |s|
      ensures s[i] != '|'
    {
      assert Lower(s)[i] == if 'A' <= s[i] <= 'Z' then s[i] - 'A' + 'a' else s[i];
    }
  }

  lemma {:induction false} TrimLeftBars(s: string)
    ensures BarFree(TrimLeft(s)) ==> BarFree(s)
  {
    if s != "" && IsSpace(s[0]) {
      TrimLeftBars(s[1..]);
      assert s == [s[0]] + s[1..];
    }
  }

  lemma {:induction false} TrimRightBars(s: string)
    ensures BarFree(TrimRight(s)) ==> BarFree(s)
  {
    if s != "" && IsSpace(s[|s| - 1]) {
      TrimRightBars(s[..|s| - 1]);
      assert s == s[..|s| - 1] + [s[|s| - 1]];
    }
  }

  /** With a facility of two pieces, or a target with a bar, syslog cannot be reached. */
  lemma NoSyslog(x: seq<string>, r: Cut, c: Config)
    requires AllBarFree(x) && Readable(x, r) && (r.h - r.g > 1 || r.f > 1)
    requires c.target == "syslog" && Facility(c.facility).Some?
    requires r.f == 1 ==> x[0] == "syslog"
    ensures Asked(Read(x, r)) != Asked(c)
  {
    hide IsFormat, IsDecimal, IsFlag, Join, Facility, Pieces, NumbersOf;
    ReadPieces(x, r);
    var d := Read(x, r);
    if r.f > 1 {
      BarsOf(d.target);
    } else {
      BarsOf(d.facility);
      if Facility(d.facility).Some? {
        KnownFacility(d.facility);
      }
      assert x[..1] == ["syslog"];
      OneString("syslog");
    }
  }

  /** For a syslog that can be reached, the two conditions are one. */
  lemma SyslogAlikeExactly(c: Config)
    requires Resolved(c) && c.target == "syslog" && Facility(c.facility).Some?
    ensures ReadAlike(c) <==> ReadOneWay(c)
  {
    hide KeyPieces, Read, Readable, Asked, Resolved, Facility, ReadOneWay, ConfigKey;
    if ReadOneWay(c) {
      forall r | Readable(KeyPieces(c), r) && Resolved(Read(KeyPieces(c), r))
        ensures Asked(Read(KeyPieces(c), r)) == Asked(c)
      {
        ReadHasKey(c, r);
        FormatOfResolved(c);
        ReadOneWayOnly(c, Read(KeyPieces(c), r));
      }
    } else {
      var r := SyslogElsewhere(c);
    }
  }

  lemma FormatOfResolved(c: Config)
    requires Resolved(c)
    ensures IsFormat(c.format)
  {}

  lemma SyslogElsewhere(c: Config) returns (r: Cut)
    requires Resolved(c) && c.target == "syslog" && Facility(c.facility).Some? && !ReadOneWay(c)
    ensures Readable(KeyPieces(c), r) && Resolved(Read(KeyPieces(c), r)) && Asked(Read(KeyPieces(c), r)) != Asked(c)
  {
    hide KeyPieces, CutOf, Read, Readable, Resolved, Pieces, FormatInPath, LimitsInPath, FormatAt, BarFree, Facility,
         Asked;
    if !(BarFree(c.addr) && BarFree(c.facility) && BarFree(c.tag)) {
      r := SyslogBehind(c);
    } else if i :| FormatInPath(Pieces(c.path), i) {
      r := FormatMoves(c, i);
      UnknownTarget(Read(KeyPieces(c), r), c);
    } else if i :| LimitsInPath(c, Pieces(c.path), i) {
      r := SyslogLimits(c, i);
    } else {
      NoFormatInSyslog(c);
      assert false;
    }
  }

  lemma NoFormatInSyslog(c: Config)
    requires c.target == "syslog"
    ensures forall i :: !FormatInTarget(Pieces(c.target), i)
  {
    OnePiece("syslog");
  }

  lemma SyslogFirst(c: Config)
    requires c.target == "syslog" && IsFormat(c.format)
    ensures CutOf(c).f == 1 && |KeyPieces(c)| >= CutOf(c).q + 7 && KeyPieces(c)[0] == "syslog"
  {
    hide Pieces, KeyPieces;
    OwnParts(c);
    PieceAt(c);
    OnePiece("syslog");
    assert KeyPieces(c)[..1][0] == "syslog";
  }

  lemma SyslogBehind(c: Config) returns (r: Cut)
    requires Resolved(c) && c.target == "syslog" && Facility(c.facility).Some?
    requires !(BarFree(c.addr) && BarFree(c.facility) && BarFree(c.tag))
    ensures Readable(KeyPieces(c), r) && Resolved(Read(KeyPieces(c), r)) && Asked(Read(KeyPieces(c), r)) != Asked(c)
  {
    var x, own := KeyPieces(c), CutOf(c);
    OwnRead(c);
    SyslogFirst(c);
    KeyPiecesBarFree(c);
    BackHasMore(c);
    BackLength(c);
    r := own.(g := own.q + 5, h := |x| - 1);
    hide *;
    SameFront(x, own, r);
    NoSyslog(x, r, c);
  }

  lemma SyslogLimits(c: Config, i: int) returns (r: Cut)
    requires Resolved(c) && c.target == "syslog" && Facility(c.facility).Some? && LimitsInPath(c, Pieces(c.path), i)
    ensures Readable(KeyPieces(c), r) && Resolved(Read(KeyPieces(c), r)) && Asked(Read(KeyPieces(c), r)) != Asked(c)
  {
    var x := KeyPieces(c);
    SyslogFirst(c);
    KeyPiecesBarFree(c);
    var r0 := LimitsMove(c, i);
    r := r0.(h := r0.q + 7);
    hide *;
    SameFront(x, r0, r);
    NoSyslog(x, r, c);
  }

  lemma FrontRead(x: seq<string>, r: Cut)
    requires Readable(x, r)
    ensures var d := Read(x, r);
            d.target == Join(x[..r.f]) && d.format == x[r.f] && d.path == Join(x[r.f + 3..r.q])
  {
    hide IsFormat, IsDecimal, IsFlag, Join;
  }

  lemma SameFront(x: seq<string>, own: Cut, r: Cut)
    requires Readable(x, own) && Resolved(Read(x, own)) && r.f == own.f && r.q == own.q
    requires r.q + 4 < r.g < r.h < |x|
    ensures Readable(x, r) && Resolved(Read(x, r))
  {
    hide IsFormat, IsDecimal, IsFlag, Join, Read, FormatAt, LimitsAt;
    FrontRead(x, own);
    FrontRead(x, r);
  }

  // ---------- an example ----------

  const OLD_FILE := Config("file", "text", 0, false, "a.log", 1, 2, 3, true, "b|5|6|7|false|", "", "")
  const NEW_FILE := Config("file", "text", 0, false, "a.log|1|2|3|true|b", 5, 6, 7, false, "", "", "")

  lemma JoinTwo(a: string, rest: seq<string>)
    requires rest != []
    ensures Join([a] + rest) == a + "|" + Join(rest)
  {
    Singleton(a, rest);
  }

  lemma JoinThree(a: string, b: string, d: string)
    ensures Join([a, b, d]) == a + "|" + (b + "|" + d)
  {
    assert Join([d]) == d;
    JoinTwo(b, [d]);
    JoinTwo(a, [b] + [d]);
    assert [a] + ([b] + [d]) == [a, b, d];
  }

  lemma JoinSix(a: string, b: string, d: string, e: string, g: string, h: string)
    ensures Join([a, b, d, e, g, h]) == a + "|" + (b + "|" + d) + "|" + (e + "|" + (g + "|" + h))
  {
    JoinThree(a, b, d);
    JoinThree(e, g, h);
    JoinConcat([a, b, d], [e, g, h]);
    assert [a, b, d] + [e, g, h] == [a, b, d, e, g, h];
  }

  lemma ExampleKey()
    ensures ConfigKey(OLD_FILE) == ConfigKey(NEW_FILE)
  {
    hide Join;
    var front, back := ["file", "text", "0", "false"], ["5", "6", "7", "false", "", "", ""];
    var path := ["a.log", "1", "2", "3", "true", "b"];
    var addr := ["b", "5", "6", "7", "false", ""];
    JoinSix("a.log", "1", "2", "3", "true", "b");
    JoinSix("b", "5", "6", "7", "false", "");
    assert Join(path) == NEW_FILE.path && Join(addr) == OLD_FILE.addr;
    assert Fields(NEW_FILE) == front + [Join(path)] + back;
    assert Fields(OLD_FILE) == (front + path[..5]) + [Join(addr)] + ["", ""];
    JoinNested(front, path, back);
    JoinNested(front + path[..5], addr, ["", ""]);
    assert front + path + back == (front + path[..5]) + addr + ["", ""];
  }

  /** Two log files, with their own names and limits, and one key: the change is not noticed. */
  lemma UnnoticedFile()
    ensures Resolved(OLD_FILE) && Resolved(NEW_FILE) && Asked(OLD_FILE) != Asked(NEW_FILE)
    ensures var tr := UnnoticedChange(OLD_FILE, NEW_FILE);
            && Returned(tr, NEW_FILE) && Run(tr).value.base == Installed(0)
            && |Run(tr).value.sinks| == 1 && Run(tr).value.sinks[0].origin == OLD_FILE
  {
    ExampleKey();
    hide ConfigKey, Run;
    assert CanOpen(OLD_FILE);
    UnnoticedChangeRuns(OLD_FILE, NEW_FILE);
    UnnoticedChangeReal(OLD_FILE, NEW_FILE);
    assert |OLD_FILE.path| == 5 && |NEW_FILE.path| > 5;
  }

  /** A key, spelled out. */
  lemma KeyExample()
    ensures ConfigKey(Config("file", "json", -4, true, "x.log", 10, 3, 7, false, "h:514", "user", "app"))
            == ("file" + "|" + ("json" + "|" + "-4") + "|" + ("true" + "|" + ("x.log" + "|" + "10"))) + "|"
               + ("3" + "|" + ("7" + "|" + "false") + "|" + ("h:514" + "|" + ("user" + "|" + "app")))
  {
    var c := Config("file", "json", -4, true, "x.log", 10, 3, 7, false, "h:514", "user", "app");
    var a, b := ["file", "json", "-4", "true", "x.log", "10"], ["3", "7", "false", "h:514", "user", "app"];
    KeyNumbers();
    assert Fields(c) == a + b;
    hide Join;
    JoinConcat(a, b);
    JoinSix("file", "json", "-4", "true", "x.log", "10");
    JoinSix("3", "7", "false", "h:514", "user", "app");
  }

  lemma KeyNumbers()
    ensures Msgpack.Decimal(-4) == "-4" && Msgpack.Decimal(10) == "10"
    ensures Msgpack.Decimal(3) == "3" && Msgpack.Decimal(7) == "7"
  {
    assert Msgpack.Natural(1) == "1";
  }

  // ---------- what asking means ----------

  /** Two configurations for the same kind of destination ask for the same exactly when these of their
      settings agree; the others are of no use to it. */
  lemma AskedExactly(c: Config, d: Config)
    requires c.target == d.target
    ensures c.target == "none" || c.target == "off" || c.target == "discard" ==>
              (Asked(c) == Asked(d) <==> c.level == d.level)
    ensures c.target == "stderr" || c.target == "stdout" ==>
              (Asked(c) == Asked(d) <==> c.level == d.level && c.format == d.format && c.source == d.source)
    ensures c.target == "file" ==>
              (Asked(c) == Asked(d) <==>
               && c.level == d.level && c.format == d.format && c.source == d.source
               && c.path == d.path && c.maxSizeMB == d.maxSizeMB && c.maxBackups == d.maxBackups
               && c.maxAgeDays == d.maxAgeDays && c.compress == d.compress)
    ensures c.target == "syslog" && Facility(c.facility).Some? && Facility(d.facility).Some? ==>
              (Asked(c) == Asked(d) <==>
               && c.level == d.level && c.format == d.format && c.addr == d.addr
               && Facility(c.facility) == Facility(d.facility)
               && (c.tag == d.tag || {c.tag, d.tag} == {"", "kettlingar"}))
  {
    hide Facility;
    assert {c.tag, d.tag} == {"", "kettlingar"} <==>
             (c.tag == "" && d.tag == "kettlingar") || (c.tag == "kettlingar" && d.tag == "");
  }

  /** Different kinds of destinations are never the same, but that one which cannot open is stderr. */
  lemma AskedApart(c: Config, d: Config)
    requires Asked(c) == Asked(d) && c.target != d.target
    ensures CanOpen(c) && CanOpen(d) ==>
              c.target in {"none", "off", "discard"} && d.target in {"none", "off", "discard"}
    ensures CanOpen(c) && !CanOpen(d) ==>
              c.target == "stderr" && c.format == d.format && c.source == d.source && c.level == d.level
  {
    hide Facility;
  }

  /** Names of facilities may have space around them and be in capitals; no name is the daemon. */
  lemma FacilityExamples()
    ensures Facility("") == Some("daemon") && Facility(" ") == Some("daemon") && Facility("daemon") == Some("daemon")
    ensures Facility(" USER ") == Some("user") && Facility("local7") == Some("local7") && Facility("kern") == None
  {
    assert TrimLeft("") == "" && TrimLeft(" ") == "" by {
      assert " "[1..] == "";
    }
    assert TrimLeft(" USER ") == "USER " && TrimRight("USER ") == "USER" by {
      assert " USER "[1..] == "USER " && "USER "[..4] == "USER";
    }
    assert Lower("") == "" && Lower("daemon") == "daemon" && Lower("USER") == "user" && Lower("local7") == "local7";
    assert Lower("kern") == "kern" && |"kern"| == 4 && "kern"[0] == 'k' && "user"[0] == 'u';
  }
}
