/**
 The handlers refine the step system: whatever state of it the objects show before a call, they
 show the state its steps lead to afterwards.
 */
module LogSimulation {
  import opened Basics
  import opened LogModel
  import opened SubscriberLevels
  import opened LogProofs
  import opened LogHandlers
  import opened Sequences

  ghost function LiveFeeds(feeds: map<nat, Feed>): map<nat, Feed> {
    map id | id in feeds && feeds[id].live :: feeds[id]
  }

  /** The hub and its handlers are in state w; what w says of closed sinks and subscriptions, the hub
      has let go of. */
  ghost predicate HubShows(h: Hub, w: World)
    reads h, h.BaseRepr(), h.SubsRepr()
  {
    && h.Valid() && h.level == w.level && h.minSub == w.minSub && h.seqNo == w.seqNo
    && h.Feeds() == LiveFeeds(w.feeds)
    && (forall id :: id in w.feeds ==> id <= w.seqNo)
    && match h.base
       case Tee(buf, console) =>
         w.base == Bootstrap && buf.Value() == w.buf && console.written == w.console && w.sinks == []
       case Direct(sink) =>
         w.sinks != [] && w.base == Installed(|w.sinks| - 1) && sink.Value() == w.sinks[|w.sinks| - 1]
  }

  /** Between calls of ConfigureLogging, the service is in state w. */
  ghost predicate Shows(ks: KettlingarService, w: World)
    reads ks, ks.logs, if ks.logs != null then ks.logs.BaseRepr() + ks.logs.SubsRepr() else {}
  {
    && ks.Valid() && ks.logs != null && HubShows(ks.logs, w)
    && w.phase == Ready && w.applied == ks.logApplied && (w.applied ==> w.key == ks.logKey)
    && w.closer == (if w.sinks == [] then None else Some(|w.sinks| - 1))
  }

  lemma MinSubUnique(m: int, n: int, levels: set<int>)
    requires IsMinSub(m, levels) && IsMinSub(n, levels)
    ensures m == n
  {}

  lemma LevelsShown(h: Hub, feeds: map<nat, Feed>)
    requires h.Feeds() == LiveFeeds(feeds)
    requires forall id :: id in h.subs ==> h.subs[id].level == h.Feeds()[id].level
    ensures h.Levels() == LiveLevels(feeds)
  {
    forall l
      ensures l in h.Levels() <==> l in LiveLevels(feeds)
    {
      if l in h.Levels() {
        var id :| id in h.subs && h.subs[id].level == l;
        assert id in h.Feeds();
        assert feeds[id].level in LiveLevels(feeds);
      }
      if l in LiveLevels(feeds) {
        var id :| id in feeds && feeds[id].live && feeds[id].level == l;
        assert id in LiveFeeds(feeds);
        assert h.subs[id].level in h.Levels();
      }
    }
  }

  lemma MinSubShown(h: Hub, feeds: map<nat, Feed>)
    requires h.Valid() && h.Feeds() == LiveFeeds(feeds)
    ensures h.minSub == MinSub(LiveLevels(feeds))
  {
    hide IsMinSub;
    LevelsShown(h, feeds);
    MinSubUnique(h.minSub, MinSub(LiveLevels(feeds)), LiveLevels(feeds));
  }

  lemma OffersToLive(feeds: map<nat, Feed>, r: Record, ctx: Option<nat>)
    ensures LiveFeeds(OfferAll(feeds, r, ctx)) == OfferAll(LiveFeeds(feeds), r, ctx)
  {}

  /** The steps es, if each is possible, from w. */
  ghost function Steps(w: World, es: seq<Event>): Option<World>
    decreases |es|
  {
    if es == [] then Some(w)
    else if Can(w, es[0]) then Steps(Step(w, es[0]), es[1..])
    else None
  }

  /** Installing the bootstrap logging leads to the initial state. */
  method Begin(ks: KettlingarService, console: SinkHandler)
    requires ks.Valid() && ks.logs == null && console.written == []
    modifies ks
    ensures Shows(ks, INIT)
  {
    ks.InstallLogging(console);
    LevelsShown(ks.logs, map[]);
    MinSubUnique(ks.logs.minSub, NO_SUB_SENTINEL, {});
  }

  method SimulateHandle(ks: KettlingarService, r: Record, sink: Subscription?, ghost w: World)
    requires Shows(ks, w)
    modifies ks.logs.SubsRepr(), ks.logs.BaseRepr()
    ensures var named := sink != null && sink.id in ks.logs.subs && ks.logs.subs[sink.id] == sink;
            Shows(ks, Step(w, Handle(r, if named then Some(sink.id) else None)))
  {
    hide AtLeast, IsMinSub, OfferAll;
    OffersToLive(w.feeds, r, ks.logs.Ctx(sink));
    OfferKeys(w.feeds, r, ks.logs.Ctx(sink));
    Empty(w.console);
    ks.logs.Handle(r, sink);
  }

  lemma LiveSet(feeds: map<nat, Feed>, id: nat, feed: Feed)
    requires feed.live
    ensures LiveFeeds(feeds[id := feed]) == LiveFeeds(feeds)[id := feed]
  {}

  lemma LiveClosed(feeds: map<nat, Feed>, id: nat, feed: Feed)
    requires !feed.live
    ensures LiveFeeds(feeds[id := feed]) == LiveFeeds(feeds) - {id}
  {}

  lemma OfferKeys(feeds: map<nat, Feed>, r: Record, ctx: Option<nat>)
    ensures OfferAll(feeds, r, ctx).Keys == feeds.Keys
  {}

  method SimulateSubscribe(ks: KettlingarService, level: int, all: bool, ghost w: World) returns (s: Subscription)
    requires Shows(ks, w)
    modifies ks.logs
    ensures Shows(ks, Step(w, Subscribe(level, all))) && s.id == ks.logs.seqNo
  {
    hide AtLeast, IsMinSub;
    s := ks.logs.Add(level, all);
    ghost var feeds := w.feeds[w.seqNo + 1 := Feed(level, all, [], 0, true)];
    LiveSet(w.feeds, w.seqNo + 1, Feed(level, all, [], 0, true));
    hide LiveFeeds;
    MinSubShown(ks.logs, feeds);
  }

  method SimulateUnsubscribe(ks: KettlingarService, s: Subscription, ghost w: World)
    requires Shows(ks, w) && s.id in w.feeds
    requires s.id in ks.logs.subs ==> ks.logs.subs[s.id] == s
    modifies ks.logs, s
    ensures Shows(ks, Step(w, Unsubscribe(s.id)))
  {
    hide AtLeast, IsMinSub, LiveLevels, MinSub;
    assert w.feeds[s.id].live <==> s.id in LiveFeeds(w.feeds);
    assert s.id in ks.logs.subs <==> s.id in ks.logs.Feeds();
    hide OfferAll;
    ks.logs.CloseSub(s);
    if w.feeds[s.id].live {
      ghost var feeds := w.feeds[s.id := w.feeds[s.id].(live := false)];
      LiveClosed(w.feeds, s.id, w.feeds[s.id].(live := false));
      hide LiveFeeds;
      MinSubShown(ks.logs, feeds);
    }
  }

  method SimulateReceive(ks: KettlingarService, s: Subscription, ghost w: World) returns (r: Record)
    requires Shows(ks, w) && s.id in ks.logs.subs && ks.logs.subs[s.id] == s && s.queue != []
    modifies s
    ensures Can(w, Receive(s.id, r)) && Shows(ks, Step(w, Receive(s.id, r)))
  {
    hide AtLeast, IsMinSub;
    assert ks.logs.Feeds()[s.id] == w.feeds[s.id];
    LiveSet(w.feeds, s.id, w.feeds[s.id].(queue := w.feeds[s.id].queue[1..]));
    hide LiveFeeds;
    r := s.Receive();
  }

  method SimulateSetLevel(ks: KettlingarService, l: int, ghost w: World)
    requires Shows(ks, w)
    modifies ks.logs
    ensures Shows(ks, Step(w, SetLevel(l)))
  {
    ks.logs.SetLevel(l);
  }

  /** The steps of one ConfigureLogging call with no other call in between. */
  function ConfigureSteps(w: World, cfg: Config, opens: bool, warning: Record): seq<Event> {
    if w.applied && ConfigKey(cfg) == w.key then [Configure(cfg, opens)]
    else [Configure(cfg, opens)] + (if opens then [] else [Handle(warning, None)])
         + [Swap(cfg.level), ApplyLevel(cfg.level), Release]
  }

  /** Where they lead: the state with the new sink. */
  ghost function AfterConfigure(w: World, cfg: Config, opens: bool, warning: Record): World
    requires w.phase == Ready
  {
    if w.applied && ConfigKey(cfg) == w.key then w
    else
      var w1 := Opening(w, cfg, opens);
      var w2 := if opens then w1 else Step(w1, Handle(warning, None));
      if w2.sinks == [] then w2
      else
        var w3 := Swapping(w2, cfg.level);
        var w4 := w3.(level := cfg.level, phase := Leveled);
        if w4.pending.Some? then Releasing(w4) else w4
  }

  lemma StepsCons(w: World, e: Event, es: seq<Event>)
    requires Can(w, e)
    ensures Steps(w, [e] + es) == Steps(Step(w, e), es)
  {
    Singleton(e, es);
  }

  lemma WarnedKeeps(w: World, r: Record)
    ensures var w' := Step(w, Handle(r, None));
            && w'.phase == w.phase && w'.pending == w.pending && |w'.sinks| == |w.sinks|
            && w'.applied == w.applied && w'.closer == w.closer
            && w'.level == w.level && w'.minSub == w.minSub && w'.seqNo == w.seqNo && w'.base == w.base
            && w'.feeds == OfferAll(w.feeds, r, None)
            && w'.buf == (if r.level >= w.level && w.base == Bootstrap then w.buf.Capture(r) else w.buf)
            && forall i :: 0 <= i < |w.sinks| && w.base != Installed(i) ==> w'.sinks[i] == w.sinks[i]
  {
    hide AtLeast, OfferAll;
  }

  lemma ConfigureLeads(w: World, cfg: Config, opens: bool, warning: Record)
    requires w.phase == Ready
    ensures Steps(w, ConfigureSteps(w, cfg, opens, warning)) == Some(AfterConfigure(w, cfg, opens, warning))
  {
    hide ConfigKey, AtLeast;
    if w.applied && ConfigKey(cfg) == w.key {
      StepsCons(w, Configure(cfg, opens), []);
      Empty([Configure(cfg, opens)]);
    } else {
      hide Steps;
      var w1 := Opening(w, cfg, opens);
      var w2 := if opens then w1 else Step(w1, Handle(warning, None));
      WarnedKeeps(w1, warning);
      var w3 := Swapping(w2, cfg.level);
      var w4 := w3.(level := cfg.level, phase := Leveled);
      var rest := [Swap(cfg.level), ApplyLevel(cfg.level), Release];
      SwapLeads(w2, cfg);
      if opens {
        assert ConfigureSteps(w, cfg, opens, warning) == [Configure(cfg, opens)] + rest;
        StepsCons(w, Configure(cfg, opens), rest);
      } else {
        assert ConfigureSteps(w, cfg, opens, warning) == [Configure(cfg, opens)] + ([Handle(warning, None)] + rest);
        StepsCons(w, Configure(cfg, opens), [Handle(warning, None)] + rest);
        StepsCons(w1, Handle(warning, None), rest);
      }
    }
  }

  lemma SwapLeads(w: World, cfg: Config)
    requires w.phase == Opened && w.sinks != [] && w.pending == Some(cfg)
    ensures Steps(w, [Swap(cfg.level), ApplyLevel(cfg.level), Release])
            == Some(Releasing(Swapping(w, cfg.level).(level := cfg.level, phase := Leveled)))
  {
    hide ConfigKey, AtLeast;
    var w3 := Swapping(w, cfg.level);
    var w4 := w3.(level := cfg.level, phase := Leveled);
    Empty([Release]);
    assert [Swap(cfg.level), ApplyLevel(cfg.level), Release]
        == [Swap(cfg.level)] + ([ApplyLevel(cfg.level)] + [Release]);
    StepsCons(w, Swap(cfg.level), [ApplyLevel(cfg.level)] + [Release]);
    StepsCons(w3, ApplyLevel(cfg.level), [Release]);
    StepsCons(w4, Release, []);
  }

  lemma SwappedWorld(w: World, cfg: Config)
    requires w.sinks != [] && w.pending == Some(cfg)
    requires w.closer == None || w.closer.value < |w.sinks| - 1
    ensures var t := Releasing(Swapping(w, cfg.level).(level := cfg.level, phase := Leveled));
            var last, sink := |w.sinks| - 1, w.sinks[|w.sinks| - 1];
            && t.level == cfg.level && t.minSub == w.minSub && t.seqNo == w.seqNo && t.feeds == w.feeds
            && |t.sinks| == |w.sinks| && t.base == Installed(last)
            && t.sinks[last] == (if w.applied then sink
                                 else sink.(written := sink.written + AtLeast(cfg.level, w.buf.recs)))
            && t.phase == Ready && t.applied && t.key == ConfigKey(cfg) && t.closer == Some(last)
  {
    hide ConfigKey, AtLeast;
  }

  /** What is to be seen of the state they lead to. */
  lemma ConfiguredWorld(w: World, cfg: Config, opens: bool, warning: Record)
    requires w.phase == Ready && !(w.applied && ConfigKey(cfg) == w.key)
    requires w.base == (if w.sinks == [] then Bootstrap else Installed(|w.sinks| - 1))
    requires w.closer == (if w.sinks == [] then None else Some(|w.sinks| - 1))
    requires w.applied <==> w.sinks != []
    ensures var t := AfterConfigure(w, cfg, opens, warning);
            var captured := if !opens && warning.level >= w.level && !w.applied then w.buf.Capture(warning) else w.buf;
            && t.level == cfg.level && t.minSub == w.minSub && t.seqNo == w.seqNo
            && t.feeds == (if opens then w.feeds else OfferAll(w.feeds, warning, None))
            && |t.sinks| == |w.sinks| + 1 && t.base == Installed(|w.sinks|)
            && t.sinks[|w.sinks|] == Sink(if w.applied then [] else AtLeast(cfg.level, captured.recs), 0,
                                          if opens then cfg else cfg.(target := "stderr"))
            && t.phase == Ready && t.applied && t.key == ConfigKey(cfg) && t.closer == Some(|w.sinks|)
  {
    hide ConfigKey, AtLeast, OfferAll, Step, Swapping, Releasing;
    var w1 := Opening(w, cfg, opens);
    WarnedKeeps(w1, warning);
    var w2 := if opens then w1 else Step(w1, Handle(warning, None));
    SwappedWorld(w2, cfg);
    SwapPending(w2, cfg);
    if !w.applied {
      Empty(AtLeast(cfg.level, w2.buf.recs));
    }
  }

  lemma SwapPending(w: World, cfg: Config)
    requires w.sinks != [] && w.pending == Some(cfg)
    ensures Swapping(w, cfg.level).pending == Some(cfg) && Swapping(w, cfg.level).sinks != []
  {}

  /** One whole ConfigureLogging call, whether or not the destination opens. */
  method SimulateConfigure(ks: KettlingarService, cfg: Config, opens: bool, ghost w: World)
    requires Shows(ks, w)
    modifies ks, ks.logs, ks.logs.SubsRepr(), ks.logs.BaseRepr()
    ensures var w' := Steps(w, ConfigureSteps(w, cfg, opens, ks.Warning()));
            w'.Some? && Shows(ks, w'.value)
  {
    hide AtLeast, IsMinSub, OfferAll, ConfigKey, Steps, ConfigureSteps, AfterConfigure;
    ConfigureLeads(w, cfg, opens, ks.Warning());
    if ks.Ignores(cfg) {
      IgnoredConfigure(w, cfg, opens, ks.Warning());
    } else {
      ConfiguredWorld(w, cfg, opens, ks.Warning());
      OffersToLive(w.feeds, ks.Warning(), None);
      OfferKeys(w.feeds, ks.Warning(), None);
    }
    ks.ConfigureLogging(cfg, opens);
  }

  lemma IgnoredConfigure(w: World, cfg: Config, opens: bool, warning: Record)
    requires w.phase == Ready && w.applied && ConfigKey(cfg) == w.key
    ensures AfterConfigure(w, cfg, opens, warning) == w
  {}
}
