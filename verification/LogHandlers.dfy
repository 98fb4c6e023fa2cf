/**
 The logging fan-out as it runs: handlers, subscriptions and the service object, changed in
 place.  Each method's effect is stated with the same Capture, Offer, AtLeast and MinSub the
 step system is made of.
 */
module LogHandlers {
  import opened Basics
  import opened LogModel
  import opened SubscriberLevels
  import opened LogProofs
  import opened Sequences

  /** The in-memory handler used until logging is configured. */
  class BufferHandler {
    const cap: nat
    var recs: seq<Record>
    var dropped: nat
    var closed: bool

    function Value(): Buffer
      reads this
    {
      Buffer(cap, recs, dropped, closed)
    }

    ghost predicate Valid()
      reads this
    {
      cap >= 1 && |recs| <= cap
    }

    constructor (capacity: int)
      ensures Valid()
      ensures Value() == Buffer(if capacity < 1 then 1 else capacity, [], 0, false)
    {
      cap := if capacity < 1 then 1 else capacity;
      recs, dropped, closed := [], 0, false;
    }

    method Handle(r: Record)
      requires Valid()
      modifies this
      ensures Valid()
      ensures Value() == old(Value()).Capture(r)
    {
      if closed {
        return;
      }
      if |recs| >= cap {
        recs := recs[1..] + [recs[|recs| - 1]];
        recs := recs[|recs| - 1 := r];
        dropped := dropped + 1;
        return;
      }
      recs := recs + [r];
    }

    method Drain() returns (out: seq<Record>)
      modifies this
      ensures Value() == old(Value()).Drained()
      ensures out == old(recs)
      ensures old(Valid()) ==> Valid()
    {
      out := recs;
      recs := [];
      closed := true;
    }
  }

  /** A destination, with what it was handed and how often its Closer was called. */
  class SinkHandler {
    var written: seq<Record>
    var closes: nat
    const origin: Config

    function Value(): Sink
      reads this
    {
      Sink(written, closes, origin)
    }

    constructor (origin: Config)
      ensures Value() == Sink([], 0, origin)
    {
      this.origin := origin;
      written, closes := [], 0;
    }

    method Handle(r: Record)
      modifies this
      ensures Value() == old(Value()).(written := old(written) + [r])
    {
      written := written + [r];
    }

    method Close()
      modifies this
      ensures Value() == old(Value()).(closes := old(closes) + 1)
    {
      closes := closes + 1;
    }
  }

  datatype BaseHandler =
    | Tee(buf: BufferHandler, console: SinkHandler)
    | Direct(sink: SinkHandler)

  class Subscription {
    const id: nat
    const level: int
    const all: bool
    var queue: seq<Record>
    var dropped: nat
    var closed: bool

    function Value(): Feed
      reads this
    {
      Feed(level, all, queue, dropped, !closed)
    }

    constructor (id: nat, level: int, all: bool)
      ensures this.id == id && Value() == Feed(level, all, [], 0, true)
    {
      this.id, this.level, this.all := id, level, all;
      queue, dropped, closed := [], 0, false;
    }

    /** What logging r in the context of sink, if any, does to this subscription: it gets the record if
        the level is high enough and it is for all records or for those of its own context, and counts
        a drop instead when 256 are waiting. */
    twostate predicate Took(r: Record, sink: Subscription?)
      reads this
    {
      if r.level >= level && (all || this == sink) then
        if |old(queue)| < 256 then queue == old(queue) + [r] && dropped == old(dropped)
        else queue == old(queue) && dropped == old(dropped) + 1
      else queue == old(queue) && dropped == old(dropped)
    }

    /** A send that never blocks: a full queue drops the record. */
    method TrySend(r: Record)
      modifies `queue, `dropped
      ensures Value() == if |old(queue)| < SUB_BUFFER then old(Value()).(queue := old(queue) + [r])
                         else old(Value()).(dropped := old(dropped) + 1)
    {
      if |queue| < SUB_BUFFER {
        queue := queue + [r];
      } else {
        dropped := dropped + 1;
      }
    }

    /** Sends r unless it is below the level, or meant for another subscription. */
    method Consider(r: Record, sink: Subscription?)
      requires !closed
      modifies `queue, `dropped
      ensures Value() == old(Value()).Offer(r, this == sink)
    {
      if r.level < level {
        return;
      }
      if !all && this != sink {
        return;
      }
      TrySend(r);
    }

    /** What the reader takes next. */
    method Receive() returns (r: Record)
      requires queue != []
      modifies `queue
      ensures r == old(queue)[0] && Value() == old(Value()).(queue := old(queue)[1..])
    {
      r := queue[0];
      queue := queue[1..];
    }
  }

  lemma OneRecord(l: int, r: Record)
    ensures AtLeast(l, [r]) == if r.level >= l then [r] else []
  {
    assert [r][..0] == [];
  }

  lemma NoRecords(l: int)
    ensures AtLeast(l, []) == []
  {}

  lemma OfferFields(f: Feed, r: Record, addressed: bool)
    requires f.live
    ensures var g, meant := f.Offer(r, addressed), r.level >= f.level && (f.all || addressed);
            && g.queue == (if meant && |f.queue| < 256 then f.queue + [r] else f.queue)
            && g.dropped == (if meant && |f.queue| >= 256 then f.dropped + 1 else f.dropped)
  {}

  lemma OffersMade(before: map<nat, Feed>, after: map<nat, Feed>, r: Record, ctx: Option<nat>)
    requires after.Keys == before.Keys
    requires forall id :: id in before ==> after[id] == before[id].Offer(r, ctx == Some(id))
    ensures after == OfferAll(before, r, ctx)
  {}

  /** The state shared by all handlers derived from one fan-out. */
  class Hub {
    var level: int
    var base: BaseHandler
    var subs: map<nat, Subscription>
    var seqNo: nat
    var minSub: int

    ghost function BaseRepr(): set<object>
      reads this
    {
      match base
      case Tee(buf, console) => {buf, console}
      case Direct(sink) => {sink}
    }

    ghost function SubsRepr(): set<object>
      reads this
    {
      set id | id in subs :: subs[id]
    }

    /** The open subscriptions as the step system sees them. */
    ghost function Feeds(): map<nat, Feed>
      reads this, SubsRepr()
    {
      map id | id in subs :: subs[id].Value()
    }

    /** The number of the open subscription a log call's context names. */
    ghost function Ctx(sink: Subscription?): Option<nat>
      reads this
    {
      if sink != null && sink.id in subs && subs[sink.id] == sink then Some(sink.id) else None
    }

    ghost function Levels(): set<int>
      reads this
    {
      set id | id in subs :: subs[id].level
    }

    ghost predicate Valid()
      reads this, BaseRepr(), SubsRepr()
    {
      && (forall id :: id in subs ==> subs[id].id == id && id <= seqNo && !subs[id].closed)
      && IsMinSub(minSub, Levels())
      && (base.Tee? ==> base.buf.Valid())
    }

    constructor (base: BaseHandler, level: int)
      requires base.Tee? ==> base.buf.Valid()
      ensures Valid() && this.base == base && this.level == level && subs == map[] && seqNo == 0
    {
      this.level, this.base, subs, seqNo, minSub := level, base, map[], 0, NO_SUB_SENTINEL;
    }

    /** What logging r, in the context of sink, does to the base's values. */
    twostate predicate Wrote(r: Record)
      reads this, BaseRepr()
    {
      var admitted := r.level >= old(level);
      && base == old(base)
      && (base.Tee? ==>
            && base.buf.Value() == (if admitted then old(base.buf.Value()).Capture(r) else old(base.buf.Value()))
            && base.console.written == old(base.console.written) + (if admitted then AtLeast(LEVEL_WARN, [r]) else [])
            && base.console.closes == old(base.console.closes))
      && (base.Direct? ==>
            base.sink.Value() == if admitted then old(base.sink.Value()).(written := old(base.sink.written) + [r])
                                 else old(base.sink.Value()))
    }

    /** Whether some handler would take a record of level l. */
    method Enabled(l: int) returns (b: bool)
      requires Valid()
      ensures b <==> l >= level || l >= 127 || exists id :: id in subs && l >= subs[id].level
    {
      var eff := level;
      if minSub < eff {
        eff := minSub;
      }
      b := l >= eff;
      if b && eff != level && minSub != NO_SUB_SENTINEL {
        ghost var id :| id in subs && subs[id].level == minSub;
      }
      assert forall id :: id in subs ==> subs[id].level in Levels();
    }

    method RecomputeMin()
      modifies `minSub
      ensures IsMinSub(minSub, Levels())
    {
      var m, todo := NO_SUB_SENTINEL, subs.Keys;
      while todo != {}
        invariant todo <= subs.Keys
        invariant m <= NO_SUB_SENTINEL
        invariant m == NO_SUB_SENTINEL || exists id :: id in subs && subs[id].level == m
        invariant forall id :: id in subs && id !in todo ==> m <= subs[id].level
        decreases todo
      {
        var id :| id in todo;
        if subs[id].level < m {
          m := subs[id].level;
        }
        todo := todo - {id};
      }
      minSub := m;
    }

    /** Subscribe and SubscribeContext. */
    method Add(level: int, all: bool) returns (s: Subscription)
      requires Valid()
      modifies this`subs, this`seqNo, this`minSub
      ensures Valid() && fresh(s)
      ensures seqNo == old(seqNo) + 1 && subs == old(subs)[seqNo := s]
      ensures Feeds() == old(Feeds())[seqNo := Feed(level, all, [], 0, true)]
      ensures s.id == seqNo && s.Value() == Feed(level, all, [], 0, true)
    {
      seqNo := seqNo + 1;
      s := new Subscription(seqNo, level, all);
      subs := subs[seqNo := s];
      RecomputeMin();
    }

    /** Subscription.Close: a repeated call does nothing. */
    method CloseSub(s: Subscription)
      requires Valid()
      requires s.id in subs ==> subs[s.id] == s
      modifies this`subs, this`minSub, s`closed
      ensures Valid()
      ensures subs == old(subs) - {s.id} && Feeds() == old(Feeds()) - {s.id}
      ensures s.id !in old(subs) ==> unchanged(this)
      ensures s.Value() == if s.id in old(subs) then old(s.Value()).(live := false) else old(s.Value())
    {
      if s.id in subs {
        subs := subs - {s.id};
        RecomputeMin();
        s.closed := true;
      }
    }

    method SetLevel(l: int)
      modifies `level
      ensures level == l
    {
      level := l;
    }

    /** Offers r to every subscription, then writes it to the base if the level admits it. */
    method Handle(r: Record, sink: Subscription?)
      requires Valid()
      modifies SubsRepr(), BaseRepr()
      ensures Valid() && Wrote(r)
      ensures Feeds() == OfferAll(old(Feeds()), r, Ctx(sink))
      ensures forall id :: id in subs ==> subs[id].Took(r, sink)
    {
      hide OfferAll, AtLeast, IsMinSub;
      Deliver(r, sink);
      if r.level >= level {
        WriteBase(r);
      } else if base.Tee? {
        Empty(base.console.written);
      }
    }

    /** A logger's call: records that Enabled refuses are not even made, which no one can tell. */
    method Log(r: Record, sink: Subscription?)
      requires Valid()
      modifies SubsRepr(), BaseRepr()
      ensures Valid() && Wrote(r)
      ensures Feeds() == OfferAll(old(Feeds()), r, Ctx(sink))
      ensures forall id :: id in subs ==> subs[id].Took(r, sink)
    {
      var enabled := Enabled(r.level);
      if enabled {
        Handle(r, sink);
      } else {
        OffersMade(Feeds(), Feeds(), r, Ctx(sink));
        if base.Tee? {
          Empty(base.console.written);
        }
      }
    }

    /** The first half of Handle. */
    method Deliver(r: Record, sink: Subscription?)
      requires Valid()
      modifies SubsRepr()
      ensures Valid()
      ensures Feeds() == OfferAll(old(Feeds()), r, Ctx(sink))
      ensures forall id :: id in subs ==> subs[id].Took(r, sink)
    {
      hide IsMinSub, OfferAll, Feed.Offer;
      ghost var before := Feeds();
      var todo := subs.Keys;
      while todo != {}
        invariant todo <= subs.Keys
        invariant forall id :: id in todo ==> subs[id].Value() == old(subs[id].Value())
        invariant forall id :: id in subs && id !in todo ==>
                    subs[id].Value() == old(subs[id].Value()).Offer(r, subs[id] == sink)
        invariant forall id :: id in subs ==> !subs[id].closed
        invariant unchanged(this)
        modifies SubsRepr()
        decreases todo
      {
        var id :| id in todo;
        todo := todo - {id};
        subs[id].Consider(r, sink);
      }
      OffersMade(before, Feeds(), r, Ctx(sink));
      forall id | id in subs
        ensures subs[id].Took(r, sink)
      {
        OfferFields(old(subs[id].Value()), r, subs[id] == sink);
      }
    }

    /** The base handler's own Handle; the tee asks each branch's Enabled first. */
    method WriteBase(r: Record)
      requires Valid()
      modifies BaseRepr()
      ensures base.Tee? ==>
                && base.buf.Valid()
                && base.buf.Value() == old(base.buf.Value()).Capture(r)
                && base.console.written == old(base.console.written) + AtLeast(LEVEL_WARN, [r])
                && base.console.closes == old(base.console.closes)
      ensures base.Direct? ==> base.sink.Value() == old(base.sink.Value()).(written := old(base.sink.written) + [r])
    {
      match base
      case Tee(buf, console) =>
        buf.Handle(r);
        assert [r][..0] == [];
        if r.level >= LEVEL_WARN {
          console.Handle(r);
        } else {
          Empty(console.written);
        }
      case Direct(sink) =>
        sink.Handle(r);
    }

    method SetBase(base: BaseHandler)
      requires Valid() && (base.Tee? ==> base.buf.Valid())
      modifies `base
      ensures Valid() && this.base == base
    {
      this.base := base;
    }

    /** Replays what buf captured, at or above min, into sink, and makes sink the base, all
        under the hub's lock. */
    method SetBaseFlushing(sink: SinkHandler, buf: BufferHandler?, min: int)
      requires Valid()
      modifies `base, sink, buf
      ensures Valid() && base == Direct(sink)
      ensures buf != null ==> buf.Value() == old(buf.Value()).Drained()
      ensures sink.Value() == old(sink.Value()).(written :=
                                old(sink.written) + if buf != null then AtLeast(min, old(buf.recs)) else [])
    {
      hide IsMinSub, AtLeast;
      var drained := [];
      if buf != null {
        drained := buf.Drain();
      }
      ghost var start := sink.written;
      Empty(start);
      NoRecords(min);
      for i := 0 to |drained|
        invariant sink.Value() == old(sink.Value()).(written := start + AtLeast(min, drained[..i]))
        invariant buf != null ==> buf.Value() == old(buf.Value()).Drained()
        invariant unchanged(`base) && Valid()
      {
        assert drained[..i + 1] == drained[..i] + [drained[i]];
        AtLeastOne(min, drained[..i], drained[i]);
        OneRecord(min, drained[i]);
        Assoc(start, AtLeast(min, drained[..i]), AtLeast(min, [drained[i]]));
        if drained[i].level >= min {
          sink.Handle(drained[i]);
        }
        Empty(sink.written);
      }
      assert drained[..|drained|] == drained;
      base := Direct(sink);
    }
  }

  /** The logging part of the service object. */
  class KettlingarService {
    var logs: Hub?
    var logBuffer: BufferHandler?
    var logCloser: SinkHandler?
    var logApplied: bool
    var logKey: string
    const name: string

    constructor (name: string)
      ensures logs == null && logBuffer == null && logCloser == null && !logApplied && this.name == name
    {
      this.name := name;
      logs, logBuffer, logCloser, logApplied, logKey := null, null, null, false, "";
    }

    /** What the fields and the hub's base have to do with one another. */
    ghost predicate Valid()
      reads this, logs, if logs != null then logs.BaseRepr() + logs.SubsRepr() else {}
    {
      logs != null ==>
        && logs.Valid()
        && logBuffer == (if logs.base.Tee? then logs.base.buf else null)
        && logCloser == (if logs.base.Direct? then logs.base.sink else null)
        && (logApplied <==> logs.base.Direct?)
    }

    method InstallLogging(console: SinkHandler)
      requires Valid()
      modifies this
      ensures Valid() && logs != null
      ensures old(logs) != null ==> unchanged(this)
      ensures old(logs) == null ==>
                && fresh(logs) && fresh(logs.BaseRepr() - {console})
                && logs.level == -8 && logs.subs == map[] && logs.seqNo == 0
                && logs.base.Tee? && logs.base.console == console
                && logs.base.buf.Value() == INIT.buf
    {
      if logs != null {
        return;
      }
      var buf := new BufferHandler(LOG_BUFFER_CAPACITY);
      logs := new Hub(Tee(buf, console), LEVEL_TRACE);
      logBuffer, logCloser, logApplied := buf, null, false;
    }

    /** The swap inside ConfigureLogging: the first one flushes the bootstrap buffer. */
    method SwapBase(sink: SinkHandler, level: int)
      requires Valid() && logs != null
      requires sink != logCloser && (logs.base.Tee? ==> sink != logs.base.console)
      modifies this`logBuffer, logs`base, logs`level, logBuffer, sink
      ensures logs.Valid() && logs.base == Direct(sink) && logs.level == level && logBuffer == null
      ensures logs.Feeds() == old(logs.Feeds())
      ensures sink.Value() == old(sink.Value()).(written :=
                old(sink.written) + (if old(logApplied) then [] else AtLeast(level, old(logs.base.buf.recs))))
      ensures !old(logApplied) ==> old(logBuffer).Value() == old(logBuffer.Value()).Drained()
    {
      if logApplied {
        Empty(sink.written);
        logs.SetBase(Direct(sink));
      } else {
        logs.SetBaseFlushing(sink, logBuffer, level);
        logBuffer := null;
      }
      logs.SetLevel(level);
    }

    /** Logged when a destination cannot be opened. */
    function Warning(): (r: Record)
      ensures r == Record(4, name + ": logging falling back to stderr")
    {
      Record(LEVEL_WARN, name + ": logging falling back to stderr")
    }

    /** What the base is told about a destination that may not open. */
    function Told(level: int, opens: bool): seq<Record>
    {
      if !opens && LEVEL_WARN >= level then [Warning()] else []
    }

    /** The bootstrap buffer as the swap finds it. */
    function Captured(b: Buffer, level: int, opens: bool): Buffer
    {
      if !opens && LEVEL_WARN >= level then b.Capture(Warning()) else b
    }

    /** The first half of ConfigureLogging: the new sink, stderr's if need be, in which case the old
        base and the subscribers are told. */
    method OpenSink(cfg: Config, opens: bool) returns (sink: SinkHandler)
      requires logs != null && logs.Valid()
      modifies logs.SubsRepr(), logs.BaseRepr()
      ensures fresh(sink) && sink.Value() == Sink([], 0, if opens then cfg else cfg.(target := "stderr"))
      ensures logs.Valid() && unchanged(logs)
      ensures logs.Feeds() == if opens then old(logs.Feeds()) else OfferAll(old(logs.Feeds()), Warning(), None)
      ensures logs.base.Tee? ==>
                && logs.base.buf.Value() == Captured(old(logs.base.buf.Value()), logs.level, opens)
                && logs.base.console.written == old(logs.base.console.written) + Told(logs.level, opens)
      ensures logs.base.Direct? ==>
                logs.base.sink.Value() == old(logs.base.sink.Value()).(written :=
                                            old(logs.base.sink.written) + Told(logs.level, opens))
    {
      hide OfferAll, AtLeast, IsMinSub;
      OneRecord(LEVEL_WARN, Warning());
      if opens {
        if logs.base.Direct? {
          Empty(logs.base.sink.written);
        } else {
          Empty(logs.base.console.written);
        }
        sink := new SinkHandler(cfg);
      } else {
        if logs.base.Direct? {
          Empty(logs.base.sink.written);
        }
        logs.Log(Warning(), null);
        sink := new SinkHandler(cfg.(target := "stderr"));
      }
    }

    /** Whether ConfigureLogging with cfg has nothing to do. */
    predicate Ignores(cfg: Config)
      reads this
    {
      logs == null || (logApplied && ConfigKey(cfg) == logKey)
    }

    /** Installs the sink cfg describes, or stderr's when it cannot be opened, unless cfg is
        the configuration already applied.  When it cannot, a warning is logged first, which the
        old base gets, or, by way of the buffer, the new one. */
    method ConfigureLogging(cfg: Config, opens: bool)
      requires Valid()
      modifies this, logs, if logs != null then logs.SubsRepr() + logs.BaseRepr() else {}
      ensures Valid()
      ensures old(Ignores(cfg)) ==>
                unchanged(this) && (logs != null ==>
                    unchanged(logs) && unchanged(logs.BaseRepr()) && unchanged(logs.SubsRepr()))
      ensures !old(Ignores(cfg)) ==>
                && logs == old(logs) && logApplied && logKey == ConfigKey(cfg) && logs.level == cfg.level
                && logs.base.Direct? && fresh(logs.base.sink)
                && logs.subs == old(logs.subs) && logs.seqNo == old(logs.seqNo) && logs.minSub == old(logs.minSub)
                && logs.Feeds() == (if opens then old(logs.Feeds()) else OfferAll(old(logs.Feeds()), Warning(), None))
      ensures !old(Ignores(cfg)) && old(logApplied) ==>
                && logs.base.sink.Value() == Sink([], 0, if opens then cfg else cfg.(target := "stderr"))
                && old(logCloser).written == old(logCloser.written) + Told(old(logs.level), opens)
                && old(logCloser).closes == old(logCloser.closes) + 1
      ensures !old(Ignores(cfg)) && !old(logApplied) ==>
                var buf := Captured(old(logs.base.buf.Value()), old(logs.level), opens);
                && logs.base.sink.Value()
                   == Sink(AtLeast(cfg.level, buf.recs), 0, if opens then cfg else cfg.(target := "stderr"))
                && old(logBuffer).Value() == buf.Drained()
                && old(logs.base.console).written == old(logs.base.console.written) + Told(old(logs.level), opens)
    {
      hide ConfigKey, AtLeast, IsMinSub, OfferAll, Told, Captured;
      if logs == null {
        return;
      }
      var key := ConfigKey(cfg);
      if logApplied && key == logKey {
        return;
      }
      var sink := OpenSink(cfg, opens);
      Install(sink, cfg.level, key);
    }

    /** The second half: swaps, sets the level and closes the sink that was replaced. */
    method Install(sink: SinkHandler, level: int, key: string)
      requires Valid() && logs != null
      requires sink != logCloser && (logs.base.Tee? ==> sink != logs.base.console)
      modifies this`logBuffer, this`logCloser, this`logApplied, this`logKey, logs`base, logs`level,
               logBuffer, logCloser, sink
      ensures Valid() && logApplied && logKey == key && logs.base == Direct(sink) && logs.level == level
      ensures unchanged(logs`subs, logs`seqNo, logs`minSub) && logs.Feeds() == old(logs.Feeds())
      ensures sink.Value() == old(sink.Value()).(written :=
                old(sink.written) + (if old(logApplied) then [] else AtLeast(level, old(logs.base.buf.recs))))
      ensures old(logApplied) ==> old(logCloser).Value() == old(logCloser.Value()).(closes := old(logCloser.closes) + 1)
      ensures !old(logApplied) ==> old(logBuffer).Value() == old(logBuffer.Value()).Drained()
    {
      hide AtLeast, IsMinSub;
      SwapBase(sink, level);
      if logCloser != null {
        logCloser.Close();
      }
      logCloser := sink;
      logApplied := true;
      logKey := key;
    }
  }
}
