/** What holds after every run of the logging fan-out. */
module LogProofs {
  import opened Basics
  import opened LogModel
  import opened SubscriberLevels
  import opened Sequences

  // ---------- the sink life cycle ----------

  function Installs(base: Base): nat {
    match base
    case Bootstrap => 0
    case Installed(i) => i + 1
  }

  /** Sinks before the one to be closed next were closed once; the others, the base among
      them, are open. */
  ghost predicate LifeCycle(w: World) {
    && (w.buf.closed <==> w.base.Installed?)
    && (forall j :: 0 <= j < |w.sinks| ==> w.sinks[j].closes == if w.closer.Some? && j < w.closer.value then 1 else 0)
    && (forall j :: Installs(w.base) <= j < |w.sinks| ==> w.sinks[j].written == [])
    && match w.phase
       case Ready =>
         && |w.sinks| == Installs(w.base)
         && (w.applied <==> w.base.Installed?)
         && w.closer == (if w.base.Installed? then Some(w.base.i) else None)
       case Opened =>
         && |w.sinks| == Installs(w.base) + 1
         && (w.applied <==> w.base.Installed?)
         && w.closer == (if w.base.Installed? then Some(w.base.i) else None)
       case _ =>
         && w.sinks != [] && w.base == Installed(|w.sinks| - 1)
         && (w.applied <==> |w.sinks| > 1)
         && w.closer == (if |w.sinks| > 1 then Some(|w.sinks| - 2) else None)
  }

  lemma WriteKeepsLifeCycle(w: World, r: Record)
    requires LifeCycle(w)
    ensures LifeCycle(WriteBase(w, r))
  {}

  lemma ConfigureKeepsLifeCycle(w: World, e: Event)
    requires e.Configure? || e.Swap? || e.ApplyLevel? || e.Release?
    requires LifeCycle(w) && Can(w, e)
    ensures LifeCycle(Step(w, e))
  {}

  lemma FeedsKeepLifeCycle(w: World, e: Event)
    requires e.Subscribe? || e.Unsubscribe? || e.Receive? || e.SetLevel?
    requires LifeCycle(w) && Can(w, e)
    ensures LifeCycle(Step(w, e))
  {}

  lemma {:induction false} LifeCycleHolds(tr: seq<Event>)
    requires Run(tr).Some?
    ensures LifeCycle(Run(tr).value)
  {
    if tr != [] {
      var before, e := tr[..|tr| - 1], tr[|tr| - 1];
      LifeCycleHolds(before);
      var w := Run(before).value;
      hide LifeCycle, WriteBase;
      match e
      case Handle(r, ctx) =>
        var offered := w.(feeds := OfferAll(w.feeds, r, ctx));
        OffersKeepLifeCycle(w, offered.feeds);
        WriteKeepsLifeCycle(offered, r);
      case Configure(_, _) => ConfigureKeepsLifeCycle(w, e);
      case Swap(_) => ConfigureKeepsLifeCycle(w, e);
      case ApplyLevel(_) => ConfigureKeepsLifeCycle(w, e);
      case Release => ConfigureKeepsLifeCycle(w, e);
      case _ => FeedsKeepLifeCycle(w, e);
    }
  }

  lemma OffersKeepLifeCycle(w: World, feeds: map<nat, Feed>)
    requires LifeCycle(w)
    ensures LifeCycle(w.(feeds := feeds))
  {}

  /** The base is open, every sink it replaced is closed exactly once (the last of them still
      to be closed while ConfigureLogging runs), and so no record goes to a closed sink. */
  lemma SinksClosedOnce(tr: seq<Event>)
    requires Run(tr).Some?
    ensures var w := Run(tr).value;
            w.base.Installed? ==>
              && w.base.i < |w.sinks| && w.sinks[w.base.i].closes == 0
              && (forall j :: 0 <= j < w.base.i ==>
                    w.sinks[j].closes == if w.phase == Ready || w.phase == Opened || j < w.base.i - 1 then 1 else 0)
              && (forall j :: w.base.i < j < |w.sinks| ==> w.sinks[j].closes == 0 && w.phase == Opened)
  {
    LifeCycleHolds(tr);
  }

  // ---------- the hand-over ----------

  lemma {:induction false} LevelInForce(tr: seq<Event>)
    requires Run(tr).Some?
    ensures Run(tr).value.level == LevelAfter(tr)
  {
    if tr != [] {
      LevelInForce(tr[..|tr| - 1]);
    }
  }

  /** Everything the sinks were handed, in the order they were installed. */
  function Flatten(sinks: seq<Sink>): seq<Record> {
    if sinks == [] then [] else Flatten(sinks[..|sinks| - 1]) + sinks[|sinks| - 1].written
  }

  lemma {:induction false} FlattenWrite(sinks: seq<Sink>, i: nat, rs: seq<Record>)
    requires i < |sinks| && forall j :: i < j < |sinks| ==> sinks[j].written == []
    ensures Flatten(sinks[i := sinks[i].(written := sinks[i].written + rs)]) == Flatten(sinks) + rs
  {
    var n := |sinks| - 1;
    var sinks' := sinks[i := sinks[i].(written := sinks[i].written + rs)];
    if i == n {
      assert sinks'[..n] == sinks[..n];
      Assoc(Flatten(sinks[..n]), sinks[n].written, rs);
    } else {
      FlattenWrite(sinks[..n], i, rs);
      assert sinks'[..n] == sinks[..n][i := sinks[i].(written := sinks[i].written + rs)];
      Empty(Flatten(sinks));
      Empty(Flatten(sinks[..n]));
      Empty(Flatten(sinks'[..n]));
    }
  }

  lemma {:induction false} FlattenSame(sinks: seq<Sink>, sinks': seq<Sink>)
    requires |sinks| == |sinks'| && forall j :: 0 <= j < |sinks| ==> sinks[j].written == sinks'[j].written
    ensures Flatten(sinks) == Flatten(sinks')
  {
    if sinks != [] {
      FlattenSame(sinks[..|sinks| - 1], sinks'[..|sinks| - 1]);
    }
  }

  lemma {:induction false} FlattenNothing(sinks: seq<Sink>)
    requires forall j :: 0 <= j < |sinks| ==> sinks[j].written == []
    ensures Flatten(sinks) == []
  {
    if sinks != [] {
      FlattenNothing(sinks[..|sinks| - 1]);
    }
  }

  lemma FlattenOpened(sinks: seq<Sink>, s: Sink)
    requires s.written == []
    ensures Flatten(sinks + [s]) == Flatten(sinks)
  {
    assert (sinks + [s])[..|sinks|] == sinks;
    Empty(Flatten(sinks));
  }

  lemma AtLeastOne(l: int, s: seq<Record>, r: Record)
    ensures AtLeast(l, s + [r]) == AtLeast(l, s) + AtLeast(l, [r])
  {
    assert (s + [r])[..|s|] == s && [r][..0] == [];
    Empty(AtLeast(l, [r]));
  }

  /** Before the first swap: everything admitted is in the buffer, but for what its bound
      pushed out. */
  ghost predicate Buffered(w: World, admitted: seq<Record>) {
    && w.base == Bootstrap && !w.buf.closed && w.buf.cap == 2048
    && w.buf.recs == LastOf(2048, admitted)
    && w.buf.dropped + |w.buf.recs| == |admitted|
    && w.console == AtLeast(4, admitted)
    && Flatten(w.sinks) == []
  }

  /** After it: the sinks hold the replay and then every record admitted since, and nothing
      reaches the buffer or the console any more. */
  ghost predicate HandedOver(w: World, early: seq<Record>, l: int, admitted: seq<Record>) {
    && w.base.Installed? && w.buf.closed && w.buf.recs == []
    && w.buf.dropped + |LastOf(2048, early)| == |early|
    && w.console == AtLeast(4, early)
    && early <= admitted
    && Flatten(w.sinks) == AtLeast(l, LastOf(2048, early)) + admitted[|early|..]
  }

  ghost predicate Handed(w: World, tr: seq<Event>) {
    var n := FirstSwap(tr);
    if n == |tr| then Buffered(w, Admitted(tr))
    else tr[n].Swap? && HandedOver(w, Admitted(tr[..n]), tr[n].l, Admitted(tr))
  }

  lemma BufferWrite(w: World, r: Record, admitted: seq<Record>)
    requires Buffered(w, admitted) && r.level >= w.level
    ensures Buffered(WriteBase(w, r), admitted + [r])
  {
    hide AtLeast, Flatten;
    AtLeastOne(4, admitted, r);
    var s := admitted + [r];
    if |admitted| < 2048 {
      assert LastOf(2048, s) == s;
    } else {
      assert LastOf(2048, s) == LastOf(2048, admitted)[1..] + [r];
    }
  }

  lemma SinkWrite(w: World, r: Record, early: seq<Record>, l: int, admitted: seq<Record>)
    requires HandedOver(w, early, l, admitted) && LifeCycle(w) && r.level >= w.level
    ensures HandedOver(WriteBase(w, r), early, l, admitted + [r])
  {
    FlattenWrite(w.sinks, w.base.i, [r]);
    Assoc(AtLeast(l, LastOf(2048, early)), admitted[|early|..], [r]);
    assert (admitted + [r])[|early|..] == admitted[|early|..] + [r];
  }

  lemma FirstSwapHandsOver(w: World, l: int, admitted: seq<Record>)
    requires Buffered(w, admitted) && LifeCycle(w) && Can(w, Swap(l))
    ensures HandedOver(Step(w, Swap(l)), admitted, l, admitted)
  {
    var i, replay := |w.sinks| - 1, AtLeast(l, w.buf.recs);
    FlattenWrite(w.sinks, i, replay);
    Empty(replay);
    assert admitted[|admitted|..] == [];
  }

  /** Steps other than log calls and swaps leave what was written, and the buffer, alone. */
  predicate Quiet(e: Event) {
    !e.Handle? && !e.Swap?
  }

  predicate SameOutput(w: World, w': World) {
    w'.base == w.base && w'.buf == w.buf && w'.console == w.console && Flatten(w'.sinks) == Flatten(w.sinks)
  }

  lemma QuietConfigure(w: World, cfg: Config, opens: bool)
    ensures SameOutput(w, Opening(w, cfg, opens))
  {
    FlattenOpened(w.sinks, Sink([], 0, if opens then cfg else cfg.(target := "stderr")));
  }

  lemma QuietRelease(w: World)
    requires w.sinks != [] && w.pending.Some?
    ensures SameOutput(w, Releasing(w))
  {
    hide Flatten, ConfigKey;
    FlattenSame(w.sinks, Releasing(w).sinks);
  }

  lemma QuietStep(w: World, e: Event)
    requires Quiet(e) && Can(w, e)
    ensures SameOutput(w, Step(w, e))
  {
    hide Flatten, Opening, Releasing;
    if e.Configure? {
      QuietConfigure(w, e.cfg, e.opens);
    } else if e.Release? {
      QuietRelease(w);
    }
  }

  lemma LaterSwap(w: World, l: int, early: seq<Record>, l0: int, admitted: seq<Record>)
    requires HandedOver(w, early, l0, admitted) && LifeCycle(w) && Can(w, Swap(l))
    ensures HandedOver(Step(w, Swap(l)), early, l0, admitted)
  {}

  lemma HandleStep(tr: seq<Event>, w: World)
    requires tr != [] && tr[|tr| - 1].Handle? && LifeCycle(w)
    requires Handed(w, tr[..|tr| - 1]) && w.level == LevelAfter(tr[..|tr| - 1])
    ensures Handed(Step(w, tr[|tr| - 1]), tr)
  {
    var before, e := tr[..|tr| - 1], tr[|tr| - 1];
    var offered := w.(feeds := OfferAll(w.feeds, e.r, e.ctx));
    OffersKeepLifeCycle(w, offered.feeds);
    var n, adm := FirstSwap(before), Admitted(before);
    if e.r.level >= w.level {
      if n == |before| {
        BufferWrite(offered, e.r, adm);
      } else {
        assert tr[..n] == before[..n];
        SinkWrite(offered, e.r, Admitted(tr[..n]), tr[n].l, adm);
      }
    } else {
      Empty(adm);
      assert n < |before| ==> tr[..n] == before[..n];
    }
  }

  lemma SwapStep(tr: seq<Event>, w: World)
    requires tr != [] && tr[|tr| - 1].Swap? && LifeCycle(w)
    requires Handed(w, tr[..|tr| - 1]) && Can(w, tr[|tr| - 1])
    ensures Handed(Step(w, tr[|tr| - 1]), tr)
  {
    hide Buffered, HandedOver, LifeCycle, Step, Can, LevelAfter;
    var before, e := tr[..|tr| - 1], tr[|tr| - 1];
    var n, adm := FirstSwap(before), Admitted(before);
    Empty(adm);
    if n == |before| {
      FirstSwapHandsOver(w, e.l, adm);
    } else {
      assert tr[..n] == before[..n];
      LaterSwap(w, e.l, Admitted(tr[..n]), tr[n].l, adm);
    }
  }

  lemma OtherStep(tr: seq<Event>, w: World)
    requires tr != [] && Quiet(tr[|tr| - 1]) && LifeCycle(w)
    requires Handed(w, tr[..|tr| - 1]) && Can(w, tr[|tr| - 1])
    ensures Handed(Step(w, tr[|tr| - 1]), tr)
  {
    var before, e := tr[..|tr| - 1], tr[|tr| - 1];
    QuietStep(w, e);
    Empty(Admitted(before));
    var n := FirstSwap(before);
    assert n < |before| ==> tr[..n] == before[..n];
  }

  /** The hand-over, over every interleaving. */
  lemma {:induction false} HandOver(tr: seq<Event>)
    requires Run(tr).Some?
    ensures Handed(Run(tr).value, tr)
  {
    if tr != [] {
      var before, e := tr[..|tr| - 1], tr[|tr| - 1];
      HandOver(before);
      LifeCycleHolds(before);
      LevelInForce(before);
      var w := Run(before).value;
      hide Handed, LifeCycle, Step;
      if e.Handle? {
        HandleStep(tr, w);
      } else if e.Swap? {
        SwapStep(tr, w);
      } else {
        OtherStep(tr, w);
      }
    }
  }

  // ---------- which sink got which record ----------

  function Swaps(tr: seq<Event>): nat {
    if tr == [] then 0 else Swaps(tr[..|tr| - 1]) + if tr[|tr| - 1].Swap? then 1 else 0
  }

  /** The records admitted between swap i, counted from 0, and the next. */
  function AdmittedAfterSwap(tr: seq<Event>, i: nat): seq<Record> {
    if tr == [] then []
    else
      var e, before := tr[|tr| - 1], tr[..|tr| - 1];
      AdmittedAfterSwap(before, i)
      + (if e.Handle? && e.r.level >= LevelAfter(before) && Swaps(before) == i + 1 then [e.r] else [])
  }

  /** What the first swap replays. */
  function Replay(tr: seq<Event>): seq<Record> {
    var n := FirstSwap(tr);
    if n == |tr| then [] else AtLeast(tr[n].l, LastOf(2048, Admitted(tr[..n])))
  }

  ghost predicate Shared(w: World, tr: seq<Event>) {
    && Installs(w.base) == Swaps(tr)
    && (Swaps(tr) == 0 <==> FirstSwap(tr) == |tr|)
    && forall i :: 0 <= i < |w.sinks| ==>
         w.sinks[i].written == (if i == 0 then Replay(tr) else []) + AdmittedAfterSwap(tr, i)
  }

  lemma SameReplay(tr: seq<Event>)
    requires tr != [] && !(tr[|tr| - 1].Swap? && FirstSwap(tr[..|tr| - 1]) == |tr| - 1)
    ensures Replay(tr) == Replay(tr[..|tr| - 1])
  {
    var before := tr[..|tr| - 1];
    var n := FirstSwap(before);
    assert n < |before| ==> tr[..n] == before[..n] && tr[n] == before[n];
  }

  lemma SharedHandle(tr: seq<Event>, w: World)
    requires tr != [] && tr[|tr| - 1].Handle? && LifeCycle(w)
    requires Shared(w, tr[..|tr| - 1]) && w.level == LevelAfter(tr[..|tr| - 1])
    ensures Shared(Step(w, tr[|tr| - 1]), tr)
  {
    hide Replay, OfferAll;
    var e, before := tr[|tr| - 1], tr[..|tr| - 1];
    SameReplay(tr);
    var w' := Step(w, e);
    forall i | 0 <= i < |w'.sinks|
      ensures w'.sinks[i].written == (if i == 0 then Replay(tr) else []) + AdmittedAfterSwap(tr, i)
    {
      var start := if i == 0 then Replay(tr) else [];
      Assoc(start, AdmittedAfterSwap(before, i), [e.r]);
      Empty(AdmittedAfterSwap(before, i));
    }
  }

  lemma SwapWrites(w: World, l: int)
    requires LifeCycle(w) && Can(w, Swap(l))
    ensures var w', n := Step(w, Swap(l)), |w.sinks|;
            && |w'.sinks| == n && Installs(w'.base) == n == Installs(w.base) + 1 && w.sinks[n - 1].written == []
            && (forall i :: 0 <= i < n - 1 ==> w'.sinks[i].written == w.sinks[i].written)
            && w'.sinks[n - 1].written == (if w.applied then [] else AtLeast(l, w.buf.recs))
            && (w.applied <==> n > 1)
  {
    hide AtLeast, ConfigKey;
    Empty(AtLeast(l, w.buf.recs));
  }

  lemma SharedSwap(tr: seq<Event>, w: World)
    requires tr != [] && tr[|tr| - 1].Swap? && LifeCycle(w) && Can(w, tr[|tr| - 1])
    requires Shared(w, tr[..|tr| - 1]) && Handed(w, tr[..|tr| - 1])
    ensures Shared(Step(w, tr[|tr| - 1]), tr)
  {
    hide *;
    var e := tr[|tr| - 1];
    SwapWrites(w, e.l);
    FirstReplay(tr, w);
    SwapCounts(tr, w);
    forall i | 0 <= i < |w.sinks|
      ensures Step(w, e).sinks[i].written == (if i == 0 then Replay(tr) else []) + AdmittedAfterSwap(tr, i)
    {
      SwapSink(tr, w, Step(w, e), i);
    }
    SharedFrom(Step(w, e), tr);
  }

  lemma SharedFrom(w: World, tr: seq<Event>)
    requires Installs(w.base) == Swaps(tr) && (Swaps(tr) == 0 <==> FirstSwap(tr) == |tr|)
    requires forall i :: 0 <= i < |w.sinks| ==>
               w.sinks[i].written == (if i == 0 then Replay(tr) else []) + AdmittedAfterSwap(tr, i)
    ensures Shared(w, tr)
  {}

  lemma SwapCounts(tr: seq<Event>, w: World)
    requires tr != [] && tr[|tr| - 1].Swap? && Shared(w, tr[..|tr| - 1])
    ensures Swaps(tr) == Installs(w.base) + 1 && FirstSwap(tr) < |tr|
  {}

  lemma SwapSink(tr: seq<Event>, w: World, w': World, i: nat)
    requires tr != [] && tr[|tr| - 1].Swap? && Shared(w, tr[..|tr| - 1]) && i < |w.sinks| == |w'.sinks|
    requires Installs(w.base) == |w.sinks| - 1 && (w.applied <==> |w.sinks| > 1)
    requires i < |w.sinks| - 1 ==> w'.sinks[i].written == w.sinks[i].written
    requires i == |w.sinks| - 1 ==>
               w'.sinks[i].written == if w.applied then [] else AtLeast(tr[|tr| - 1].l, w.buf.recs)
    requires var before := tr[..|tr| - 1];
             Replay(tr) == if FirstSwap(before) == |before| then AtLeast(tr[|tr| - 1].l, w.buf.recs) else Replay(before)
    ensures w'.sinks[i].written == (if i == 0 then Replay(tr) else []) + AdmittedAfterSwap(tr, i)
  {
    hide Replay, AtLeast, FirstSwap, Swaps, AdmittedAfterSwap;
    SwapAdmits(tr, i);
    NotSwappedYet(tr[..|tr| - 1], i);
    Empty(Replay(tr));
  }

  lemma SwapAdmits(tr: seq<Event>, i: nat)
    requires tr != [] && tr[|tr| - 1].Swap?
    ensures AdmittedAfterSwap(tr, i) == AdmittedAfterSwap(tr[..|tr| - 1], i)
  {
    Empty(AdmittedAfterSwap(tr[..|tr| - 1], i));
  }

  lemma FirstReplay(tr: seq<Event>, w: World)
    requires tr != [] && tr[|tr| - 1].Swap? && Handed(w, tr[..|tr| - 1])
    ensures var before := tr[..|tr| - 1];
            Replay(tr) == if FirstSwap(before) == |before| then AtLeast(tr[|tr| - 1].l, w.buf.recs) else Replay(before)
  {
    hide Flatten, AtLeast, Admitted, LastOf;
    if FirstSwap(tr[..|tr| - 1]) < |tr| - 1 {
      SameReplay(tr);
    }
  }

  lemma OtherWrites(w: World, e: Event)
    requires Quiet(e) && Can(w, e)
    ensures var w', n := Step(w, e), |w.sinks|;
            && w'.base == w.base && n <= |w'.sinks| <= n + 1
            && (forall i :: 0 <= i < n ==> w'.sinks[i].written == w.sinks[i].written)
            && (|w'.sinks| > n ==> e.Configure? && w.phase == Ready && w'.sinks[n].written == [])
  {
    hide ConfigKey;
  }

  lemma SharedOther(tr: seq<Event>, w: World)
    requires tr != [] && Quiet(tr[|tr| - 1]) && LifeCycle(w) && Can(w, tr[|tr| - 1])
    requires Shared(w, tr[..|tr| - 1])
    ensures Shared(Step(w, tr[|tr| - 1]), tr)
  {
    hide *;
    var e := tr[|tr| - 1];
    OtherWrites(w, e);
    OtherCounts(tr, w);
    forall i | 0 <= i < |Step(w, e).sinks|
      ensures Step(w, e).sinks[i].written == (if i == 0 then Replay(tr) else []) + AdmittedAfterSwap(tr, i)
    {
      OtherSink(tr, w, Step(w, e), i);
    }
    SharedFrom(Step(w, e), tr);
  }

  lemma OtherCounts(tr: seq<Event>, w: World)
    requires tr != [] && Quiet(tr[|tr| - 1]) && LifeCycle(w) && Shared(w, tr[..|tr| - 1])
    ensures Swaps(tr) == Installs(w.base) && (Swaps(tr) == 0 <==> FirstSwap(tr) == |tr|)
    ensures w.phase == Ready ==> Swaps(tr) == |w.sinks|
  {
    hide AtLeast, Flatten, LastOf, Admitted, LevelAfter;
  }

  lemma OtherSink(tr: seq<Event>, w: World, w': World, i: nat)
    requires tr != [] && Quiet(tr[|tr| - 1]) && LifeCycle(w) && Shared(w, tr[..|tr| - 1]) && i < |w'.sinks|
    requires i < |w.sinks| ==> w'.sinks[i].written == w.sinks[i].written
    requires i >= |w.sinks| ==> i == |w.sinks| && w.phase == Ready && w'.sinks[i].written == []
    ensures w'.sinks[i].written == (if i == 0 then Replay(tr) else []) + AdmittedAfterSwap(tr, i)
  {
    var before := tr[..|tr| - 1];
    SameReplay(tr);
    NoReplayYet(before);
    NotSwappedYet(before, i);
    hide Replay;
    Empty(AdmittedAfterSwap(before, i));
  }

  lemma {:induction false} NotSwappedYet(tr: seq<Event>, i: nat)
    ensures i >= Swaps(tr) ==> AdmittedAfterSwap(tr, i) == []
  {
    if tr != [] {
      NotSwappedYet(tr[..|tr| - 1], i);
    }
  }

  lemma NoReplayYet(tr: seq<Event>)
    ensures FirstSwap(tr) == |tr| ==> Replay(tr) == []
  {}

  /** Over every interleaving: sink i got exactly the records admitted between swap i and the next, in
      lock order, and the first of them the replay before. */
  lemma {:induction false} EachSinkGets(tr: seq<Event>)
    requires Run(tr).Some?
    ensures Shared(Run(tr).value, tr)
  {
    if tr != [] {
      var before, e := tr[..|tr| - 1], tr[|tr| - 1];
      CanLast(tr);
      EachSinkGets(before);
      HandOver(before);
      LifeCycleHolds(before);
      LevelInForce(before);
      var w := Run(before).value;
      hide Handed, LifeCycle, Step, Shared, Can;
      if e.Handle? {
        SharedHandle(tr, w);
      } else if e.Swap? {
        SharedSwap(tr, w);
      } else {
        SharedOther(tr, w);
      }
    }
  }

  /** After any run, the sinks hold every record that was admitted before the first swap at or above
      its level, and then all later ones, exactly when each record but the last 2048 of those before
      it was below that level. */
  lemma ReplayIsComplete(tr: seq<Event>)
    requires Run(tr).Some? && FirstSwap(tr) < |tr|
    ensures var n := FirstSwap(tr);
            var early, l := Admitted(tr[..n]), tr[n].l;
            && |early| <= |Admitted(tr)|
            && (Flatten(Run(tr).value.sinks) == AtLeast(l, early) + Admitted(tr)[|early|..] <==>
                forall i :: 0 <= i < |early| - 2048 ==> early[i].level < l)
  {
    HandOver(tr);
    var n := FirstSwap(tr);
    var early, l := Admitted(tr[..n]), tr[n].l;
    hide Flatten, AtLeast, Admitted, Run;
    KeptAtLeast(early, l);
    var later, kept := Admitted(tr)[|early|..], LastOf(2048, early);
    if AtLeast(l, kept) + later == AtLeast(l, early) + later {
      SameFront(AtLeast(l, kept), AtLeast(l, early), later);
    }
  }

  lemma SameFront<T>(a: seq<T>, b: seq<T>, t: seq<T>)
    requires a + t == b + t
    ensures a == b
  {
    assert |a + t| == |a| + |t| && |b + t| == |b| + |t|;
    assert a == (a + t)[..|a|] && b == (b + t)[..|b|];
  }

  lemma KeptAtLeast(early: seq<Record>, l: int)
    ensures AtLeast(l, LastOf(2048, early)) == AtLeast(l, early) <==>
            forall i :: 0 <= i < |early| - 2048 ==> early[i].level < l
  {
    var n := |early| - |LastOf(2048, early)|;
    assert early == early[..n] + early[n..];
    AtLeastConcat(l, early[..n], early[n..]);
    AtLeastEmpty(l, early[..n]);
    assert |AtLeast(l, early)| == |AtLeast(l, early[..n])| + |AtLeast(l, early[n..])|;
    Empty(AtLeast(l, early[n..]));
  }

  // The same record, logged n times.
  function Logged(r: Record, n: nat): seq<Event> {
    if n == 0 then [] else Logged(r, n - 1) + [Handle(r, None)]
  }

  lemma LoggedStep(r: Record, n: nat)
    requires n > 0
    ensures Logged(r, n)[..|Logged(r, n)| - 1] == Logged(r, n - 1)
    ensures Logged(r, n)[|Logged(r, n)| - 1] == Handle(r, None)
  {}

  lemma {:induction false} LoggedMeans(r: Record, n: nat)
    requires r.level >= -8
    ensures var tr := Logged(r, n);
            && LevelAfter(tr) == -8 && FirstSwap(tr) == |tr| == n
            && |Admitted(tr)| == n && forall i :: 0 <= i < n ==> Admitted(tr)[i] == r
  {
    if n > 0 {
      LoggedMeans(r, n - 1);
      LoggedStep(r, n);
    }
  }

  lemma {:induction false} LoggedRuns(r: Record, n: nat)
    ensures var w := Run(Logged(r, n)); w.Some? && w.value.phase == Ready && !w.value.applied
  {
    if n > 0 {
      LoggedRuns(r, n - 1);
      LoggedStep(r, n);
      hide Logged;
      var w := Run(Logged(r, n - 1)).value;
      assert Run(Logged(r, n)) == Some(Step(w, Handle(r, None)));
    }
  }

  lemma {:induction false} AllAtLeast(l: int, s: seq<Record>)
    requires forall i :: 0 <= i < |s| ==> s[i].level >= l
    ensures AtLeast(l, s) == s
  {
    if s != [] {
      AllAtLeast(l, s[..|s| - 1]);
    }
  }

  /** A service that logs one record more than the buffer holds before it is configured loses one. */
  lemma ReplayLosesOne(r: Record, c: Config)
    requires r.level >= -8 && r.level >= c.level
    ensures var tr := Logged(r, 2049) + [Configure(c, true), Swap(c.level)];
            && Run(tr).Some? && |Admitted(tr)| == 2049
            && |Flatten(Run(tr).value.sinks)| == 2048
  {
    var logged := Logged(r, 2049);
    LoggedRuns(r, 2049);
    LoggedMeans(r, 2049);
    var ready := logged + [Configure(c, true)];
    assert ready[..|ready| - 1] == logged;
    var tr := ready + [Swap(c.level)];
    assert tr[..|tr| - 1] == ready;
    assert tr == logged + [Configure(c, true), Swap(c.level)];
    hide Logged;
    assert Run(ready) == Some(Opening(Run(logged).value, c, true));
    assert Admitted(tr) == Admitted(ready) == Admitted(logged);
    assert FirstSwap(ready) == |ready| && FirstSwap(tr) == |ready| && tr[..|ready|] == ready;
    HandOver(tr);
    AllAtLeast(c.level, LastOf(2048, Admitted(logged)));
  }

  lemma {:induction false} AtLeastConcat(l: int, s: seq<Record>, t: seq<Record>)
    ensures AtLeast(l, s + t) == AtLeast(l, s) + AtLeast(l, t)
  {
    if t == [] {
      Empty(s);
      Empty(AtLeast(l, s));
    } else {
      var n := |t| - 1;
      AtLeastConcat(l, s, t[..n]);
      assert (s + t)[..|s + t| - 1] == s + t[..n];
      Assoc(AtLeast(l, s), AtLeast(l, t[..n]), if t[n].level >= l then [t[n]] else []);
    }
  }

  lemma {:induction false} AtLeastEmpty(l: int, s: seq<Record>)
    ensures AtLeast(l, s) == [] <==> forall i :: 0 <= i < |s| ==> s[i].level < l
  {
    if s != [] {
      var n := |s| - 1;
      AtLeastEmpty(l, s[..n]);
      Empty(AtLeast(l, s[..n]));
      assert forall i :: 0 <= i < n ==> s[..n][i] == s[i];
    }
  }

  // ---------- subscriptions ----------

  ghost predicate FeedAccounts(w: World, tr: seq<Event>, id: nat) {
    && (id in w.feeds <==> 1 <= id <= Subscribed(tr))
    && (id !in w.feeds ==>
          Request(tr, id) == None && !OpenFeed(tr, id) && Matching(tr, id) == [] && Received(tr, id) == [])
    && (id in w.feeds ==>
          var f := w.feeds[id];
          && Request(tr, id) == Some((f.level, f.all))
          && f.live == OpenFeed(tr, id)
          && |f.queue| <= 256
          && Subsequence(Received(tr, id) + f.queue, Matching(tr, id))
          && |Received(tr, id)| + |f.queue| + f.dropped == |Matching(tr, id)|)
  }

  lemma {:induction false} SeqNumbers(tr: seq<Event>)
    requires Run(tr).Some?
    ensures Run(tr).value.seqNo == Subscribed(tr)
  {
    if tr != [] {
      SeqNumbers(tr[..|tr| - 1]);
    }
  }

  lemma {:induction false} SubsequenceDrop<T>(s: seq<T>, t: seq<T>, x: T)
    requires Subsequence(s, t)
    ensures Subsequence(s, t + [x])
    ensures Subsequence(s + [x], t + [x])
  {
    assert (t + [x])[..|t|] == t && (s + [x])[..|s|] == s;
  }

  /** One record offered to a feed. */
  lemma OfferAccounts(f: Feed, r: Record, addressed: bool, received: seq<Record>, matching: seq<Record>)
    requires |f.queue| <= 256 && Subsequence(received + f.queue, matching)
    requires |received| + |f.queue| + f.dropped == |matching|
    ensures var f', m := f.Offer(r, addressed), matching + (if f.Wants(r, addressed) then [r] else []);
            && |f'.queue| <= 256 && Subsequence(received + f'.queue, m)
            && |received| + |f'.queue| + f'.dropped == |m|
  {
    SubsequenceDrop(received + f.queue, matching, r);
    Assoc(received, f.queue, [r]);
    Empty(matching);
  }

  lemma FeedHandle(tr: seq<Event>, w: World, id: nat)
    requires tr != [] && tr[|tr| - 1].Handle?
    requires FeedAccounts(w, tr[..|tr| - 1], id)
    ensures FeedAccounts(Step(w, tr[|tr| - 1]), tr, id)
  {
    var before, e := tr[..|tr| - 1], tr[|tr| - 1];
    var w' := Step(w, e);
    assert w'.feeds == OfferAll(w.feeds, e.r, e.ctx);
    Empty(Matching(before, id));
    Empty(Received(before, id));
    if id in w.feeds {
      OfferAccounts(w.feeds[id], e.r, e.ctx == Some(id), Received(before, id), Matching(before, id));
    }
  }

  lemma FeedReceive(tr: seq<Event>, w: World, id: nat)
    requires tr != [] && tr[|tr| - 1].Receive? && Can(w, tr[|tr| - 1])
    requires FeedAccounts(w, tr[..|tr| - 1], id)
    ensures FeedAccounts(Step(w, tr[|tr| - 1]), tr, id)
  {
    var before, e := tr[..|tr| - 1], tr[|tr| - 1];
    Empty(Matching(before, id));
    Empty(Received(before, id));
    if e.id == id {
      var q := w.feeds[id].queue;
      assert Received(before, id) + [q[0]] + q[1..] == Received(before, id) + q;
    }
  }

  lemma FeedOther(tr: seq<Event>, w: World, id: nat)
    requires tr != [] && !tr[|tr| - 1].Receive? && !tr[|tr| - 1].Handle? && Can(w, tr[|tr| - 1])
    requires FeedAccounts(w, tr[..|tr| - 1], id) && w.seqNo == Subscribed(tr[..|tr| - 1])
    ensures FeedAccounts(Step(w, tr[|tr| - 1]), tr, id)
  {
    var before := tr[..|tr| - 1];
    Empty(Matching(before, id));
    Empty(Received(before, id));
  }

  lemma FeedStep(tr: seq<Event>, w: World, id: nat)
    requires tr != [] && Can(w, tr[|tr| - 1])
    requires FeedAccounts(w, tr[..|tr| - 1], id) && w.seqNo == Subscribed(tr[..|tr| - 1])
    ensures FeedAccounts(Step(w, tr[|tr| - 1]), tr, id)
  {
    hide FeedAccounts, Step, Can;
    var e := tr[|tr| - 1];
    if e.Handle? {
      FeedHandle(tr, w, id);
    } else if e.Receive? {
      FeedReceive(tr, w, id);
    } else {
      FeedOther(tr, w, id);
    }
  }

  /** Each subscription's accounts, over every interleaving: what was received and what is
      still queued is, in order, the matching records less those dropped, and the drops are
      counted. */
  lemma {:induction false} FeedsAccounted(tr: seq<Event>, id: nat)
    requires Run(tr).Some?
    ensures FeedAccounts(Run(tr).value, tr, id)
  {
    if tr != [] {
      var before := tr[..|tr| - 1];
      FeedsAccounted(before, id);
      SeqNumbers(before);
      hide FeedAccounts, Step;
      FeedStep(tr, Run(before).value, id);
    }
  }

  /** How many matching records the reader of id has not taken. */
  function Lag(tr: seq<Event>, id: nat): int {
    |Matching(tr, id)| - |Received(tr, id)|
  }

  /** The reader never fell more than a full queue behind. */
  predicate KeptUp(tr: seq<Event>, id: nat) {
    tr == [] || (KeptUp(tr[..|tr| - 1], id) && Lag(tr, id) <= 256)
  }

  function DroppedBy(w: World, id: nat): nat {
    if id in w.feeds then w.feeds[id].dropped else 0
  }

  lemma DropStep(w: World, e: Event, id: nat)
    requires Can(w, e) && (w.seqNo + 1 !in w.feeds)
    ensures DroppedBy(Step(w, e), id) >= DroppedBy(w, id)
    ensures DroppedBy(Step(w, e), id) > DroppedBy(w, id) ==>
              id in Step(w, e).feeds && |Step(w, e).feeds[id].queue| >= 256
  {
    if e.Handle? {
      assert Step(w, e).feeds == OfferAll(w.feeds, e.r, e.ctx);
    }
  }

  /** A subscription loses nothing exactly when its reader keeps up. */
  lemma {:induction false} DropsOnlyWhenBehind(tr: seq<Event>, id: nat)
    requires Run(tr).Some?
    ensures DroppedBy(Run(tr).value, id) == 0 <==> KeptUp(tr, id)
  {
    if tr != [] {
      var before := tr[..|tr| - 1];
      var w, w' := Run(before).value, Run(tr).value;
      DropsOnlyWhenBehind(before, id);
      SeqNumbers(before);
      FeedsAccounted(before, w.seqNo + 1);
      FeedsAccounted(before, id);
      FeedsAccounted(tr, id);
      hide Step, Run, Can, Matching, Received;
      CanLast(tr);
      DropStep(w, tr[|tr| - 1], id);
    }
  }

  lemma CanLast(tr: seq<Event>)
    requires tr != [] && Run(tr).Some?
    ensures Run(tr[..|tr| - 1]).Some? && Can(Run(tr[..|tr| - 1]).value, tr[|tr| - 1])
    ensures Run(tr).value == Step(Run(tr[..|tr| - 1]).value, tr[|tr| - 1])
  {}

  lemma {:induction false} SubsequenceWhole<T>(s: seq<T>, t: seq<T>)
    requires Subsequence(s, t)
    ensures |s| <= |t| && (|s| == |t| ==> s == t)
  {
    if t != [] {
      var t' := t[..|t| - 1];
      if Subsequence(s, t') {
        SubsequenceWhole(s, t');
      } else {
        SubsequenceWhole(s[..|s| - 1], t');
      }
    }
  }

  lemma NothingLostWhenKeptUp(tr: seq<Event>, id: nat)
    requires Run(tr).Some? && id in Run(tr).value.feeds && KeptUp(tr, id)
    ensures Received(tr, id) + Run(tr).value.feeds[id].queue == Matching(tr, id)
  {
    DropsOnlyWhenBehind(tr, id);
    FeedsAccounted(tr, id);
    SubsequenceWhole(Received(tr, id) + Run(tr).value.feeds[id].queue, Matching(tr, id));
  }

  // ---------- Enabled ----------

  predicate Enabled(w: World, l: int) {
    l >= if w.minSub < w.level then w.minSub else w.level
  }

  lemma {:induction false} MinSubCached(tr: seq<Event>)
    requires Run(tr).Some?
    ensures IsMinSub(Run(tr).value.minSub, LiveLevels(Run(tr).value.feeds))
  {
    if tr != [] {
      var before, e := tr[..|tr| - 1], tr[|tr| - 1];
      MinSubCached(before);
      var w := Run(before).value;
      SameLevels(w, e);
    }
  }

  lemma SameLevels(w: World, e: Event)
    requires Can(w, e)
    ensures var w' := Step(w, e);
            || w'.minSub == MinSub(LiveLevels(w'.feeds))
            || (w'.minSub == w.minSub && LiveLevels(w'.feeds) == LiveLevels(w.feeds))
  {
    var w' := Step(w, e);
    if e.Handle? || e.Receive? {
      forall id | id in w.feeds
        ensures id in w'.feeds && w'.feeds[id].live == w.feeds[id].live && w'.feeds[id].level == w.feeds[id].level
      {}
      assert w'.feeds.Keys == w.feeds.Keys;
      SameFeedLevels(w.feeds, w'.feeds);
    }
  }

  lemma SameFeedLevels(a: map<nat, Feed>, b: map<nat, Feed>)
    requires a.Keys == b.Keys && forall id :: id in a ==> a[id].live == b[id].live && a[id].level == b[id].level
    ensures LiveLevels(a) == LiveLevels(b)
  {
    forall l
      ensures l in LiveLevels(a) <==> l in LiveLevels(b)
    {
      if l in LiveLevels(a) {
        var id :| id in a && a[id].live && a[id].level == l;
        assert b[id].level in LiveLevels(b);
      }
      if l in LiveLevels(b) {
        var id :| id in b && b[id].live && b[id].level == l;
        assert a[id].level in LiveLevels(a);
      }
    }
  }

  /** Enabled admits a level exactly when the base, or some open subscription, would take a
      record of that level, or the level is at the sentinel or above. */
  lemma EnabledIsExact(tr: seq<Event>, l: int)
    requires Run(tr).Some?
    ensures var w := Run(tr).value;
            Enabled(w, l) <==> l >= LevelAfter(tr) || l >= 127
                               || exists id :: id in w.feeds && w.feeds[id].live && l >= w.feeds[id].level
  {
    MinSubCached(tr);
    LevelInForce(tr);
    var w := Run(tr).value;
    if Enabled(w, l) && w.minSub < w.level && w.minSub != 127 {
      var id :| id in w.feeds && w.feeds[id].live && w.feeds[id].level == w.minSub;
    }
    forall id | id in w.feeds && w.feeds[id].live && l >= w.feeds[id].level
      ensures Enabled(w, l)
    {
      assert w.feeds[id].level in LiveLevels(w.feeds);
    }
  }
}
