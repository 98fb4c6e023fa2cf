/**
 The logging fan-out as a step system: one step for each critical section of the hub's mutex,
 with ConfigureLogging split into its own steps so that log calls can come between them.
 */
module LogModel {
  import opened Basics
  import Msgpack
  import opened SubscriberLevels

  datatype Record = Record(level: int, msg: string)

  const LEVEL_TRACE := -8
  const LEVEL_WARN := 4
  const LOG_BUFFER_CAPACITY := 2048
  const SUB_BUFFER := 256

  function AtLeast(l: int, s: seq<Record>): seq<Record>
  {
    if s == [] then []
    else AtLeast(l, s[..|s| - 1]) + (if s[|s| - 1].level >= l then [s[|s| - 1]] else [])
  }

  function LastOf<T>(n: nat, s: seq<T>): seq<T> {
    if |s| <= n then s else s[|s| - n..]
  }

  // ---------- the bootstrap buffer ----------

  datatype Buffer = Buffer(cap: nat, recs: seq<Record>, dropped: nat, closed: bool) {
    function Capture(r: Record): Buffer {
      if closed then this
      else if |recs| > 0 && |recs| >= cap then this.(recs := recs[1..] + [r], dropped := dropped + 1)
      else this.(recs := recs + [r])
    }

    function Drained(): Buffer {
      this.(recs := [], closed := true)
    }
  }

  // ---------- subscriptions ----------

  datatype Feed = Feed(level: int, all: bool, queue: seq<Record>, dropped: nat, live: bool) {
    /** Whether a record logged with (or without) this feed's context is for this feed. */
    predicate Wants(r: Record, addressed: bool) {
      live && r.level >= level && (all || addressed)
    }

    function Offer(r: Record, addressed: bool): Feed {
      if !Wants(r, addressed) then this
      else if |queue| < SUB_BUFFER then this.(queue := queue + [r])
      else this.(dropped := dropped + 1)
    }
  }

  ghost function LiveLevels(feeds: map<nat, Feed>): set<int> {
    set id | id in feeds && feeds[id].live :: feeds[id].level
  }

  // ---------- configuration ----------

  datatype Config = Config(
    target: string, format: string, level: Int64, source: bool,
    path: string, maxSizeMB: Int64, maxBackups: Int64, maxAgeDays: Int64, compress: bool,
    addr: string, facility: string, tag: string)

  function BoolText(b: bool): string {
    if b then "true" else "false"
  }

  function Fields(c: Config): seq<string> {
    [c.target, c.format, Msgpack.Decimal(c.level), BoolText(c.source), c.path,
     Msgpack.Decimal(c.maxSizeMB), Msgpack.Decimal(c.maxBackups), Msgpack.Decimal(c.maxAgeDays),
     BoolText(c.compress), c.addr, c.facility, c.tag]
  }

  function Join(fields: seq<string>): string {
    if fields == [] then "" else if |fields| == 1 then fields[0] else fields[0] + "|" + Join(fields[1..])
  }

  /** Summarizes a configuration for change detection. */
  function ConfigKey(c: Config): string {
    Join(Fields(c))
  }

  // ---------- the world ----------

  /** A destination built by BaseHandler: what it was handed, and how often it was closed. */
  datatype Sink = Sink(written: seq<Record>, closes: nat, origin: Config)

  datatype Base = Bootstrap | Installed(i: nat)

  /** Where ConfigureLogging is, between taking and releasing its lock. */
  datatype Phase = Ready | Opened | Swapped | Leveled

  datatype World = World(
    level: int,
    base: Base,
    buf: Buffer,
    console: seq<Record>,
    sinks: seq<Sink>,
    feeds: map<nat, Feed>,
    seqNo: nat,
    minSub: int,
    phase: Phase,
    pending: Option<Config>,
    applied: bool,
    key: string,
    closer: Option<nat>)

  /** After InstallLogging. */
  const INIT := World(LEVEL_TRACE, Bootstrap, Buffer(LOG_BUFFER_CAPACITY, [], 0, false), [], [], map[], 0,
                      NO_SUB_SENTINEL, Ready, None, false, "", None)

  datatype Event =
    | Handle(r: Record, ctx: Option<nat>)
    | Subscribe(level: int, all: bool)
    | Unsubscribe(id: nat)
    | Receive(id: nat, r: Record)
    | SetLevel(l: int)
    | Configure(cfg: Config, opens: bool)
    | Swap(l: int)
    | ApplyLevel(l: int)
    | Release

  function OfferAll(feeds: map<nat, Feed>, r: Record, ctx: Option<nat>): map<nat, Feed> {
    map id | id in feeds :: feeds[id].Offer(r, ctx == Some(id))
  }

  /** The write to the base, under the hub's lock. */
  function WriteBase(w: World, r: Record): World {
    if r.level < w.level then w
    else match w.base
      case Bootstrap =>
        w.(buf := w.buf.Capture(r), console := w.console + AtLeast(LEVEL_WARN, [r]))
      case Installed(i) =>
        if i < |w.sinks| then w.(sinks := w.sinks[i := w.sinks[i].(written := w.sinks[i].written + [r])]) else w
  }

  function Opening(w: World, cfg: Config, opens: bool): World {
    if w.applied && ConfigKey(cfg) == w.key then w
    else
      var sink := Sink([], 0, if opens then cfg else cfg.(target := "stderr"));
      w.(sinks := w.sinks + [sink], phase := Opened, pending := Some(cfg))
  }

  /** SetBase, or the first time SetBaseFlushing: replay what the buffer holds, then swap. */
  function Swapping(w: World, l: int): World
    requires w.sinks != []
  {
    var i := |w.sinks| - 1;
    var s := if w.applied then w
             else w.(sinks := w.sinks[i := w.sinks[i].(written := w.sinks[i].written + AtLeast(l, w.buf.recs))],
                     buf := w.buf.Drained());
    s.(base := Installed(i), phase := Swapped)
  }

  function Releasing(w: World): World
    requires w.sinks != [] && w.pending.Some?
  {
    var sinks := match w.closer
                 case Some(j) =>
                   if j < |w.sinks| then w.sinks[j := w.sinks[j].(closes := w.sinks[j].closes + 1)] else w.sinks
                 case None => w.sinks;
    w.(sinks := sinks, closer := Some(|w.sinks| - 1), applied := true, key := ConfigKey(w.pending.value),
       phase := Ready)
  }

  ghost function WithFeeds(w: World, feeds: map<nat, Feed>): World {
    w.(feeds := feeds, minSub := MinSub(LiveLevels(feeds)))
  }

  ghost predicate Can(w: World, e: Event) {
    match e
    case Unsubscribe(id) => id in w.feeds
    case Receive(id, r) => id in w.feeds && w.feeds[id].queue != [] && w.feeds[id].queue[0] == r
    case Configure(_, _) => w.phase == Ready
    case Swap(l) => w.phase == Opened && w.sinks != [] && w.pending.Some? && w.pending.value.level == l
    case ApplyLevel(l) => w.phase == Swapped && w.pending.Some? && w.pending.value.level == l
    case Release => w.phase == Leveled && w.sinks != [] && w.pending.Some?
    case _ => true
  }

  ghost function Step(w: World, e: Event): World
    requires Can(w, e)
  {
    match e
    case Handle(r, ctx) => WriteBase(w.(feeds := OfferAll(w.feeds, r, ctx)), r)
    case Subscribe(level, all) =>
      WithFeeds(w.(seqNo := w.seqNo + 1), w.feeds[w.seqNo + 1 := Feed(level, all, [], 0, true)])
    case Unsubscribe(id) =>
      if w.feeds[id].live then WithFeeds(w, w.feeds[id := w.feeds[id].(live := false)]) else w
    case Receive(id, r) => w.(feeds := w.feeds[id := w.feeds[id].(queue := w.feeds[id].queue[1..])])
    case SetLevel(l) => w.(level := l)
    case Configure(cfg, opens) => Opening(w, cfg, opens)
    case Swap(l) => Swapping(w, l)
    case ApplyLevel(l) => w.(level := l, phase := Leveled)
    case Release => Releasing(w)
  }

  /** The state after a run, if every step was possible. */
  ghost function Run(tr: seq<Event>): Option<World>
  {
    if tr == [] then Some(INIT)
    else
      var p := Run(tr[..|tr| - 1]);
      if p.Some? && Can(p.value, tr[|tr| - 1]) then Some(Step(p.value, tr[|tr| - 1])) else None
  }

  // ---------- what a run means, read off the events alone ----------

  /** The global level in force after tr. */
  function LevelAfter(tr: seq<Event>): int
  {
    if tr == [] then -8
    else match tr[|tr| - 1]
      case SetLevel(l) => l
      case ApplyLevel(l) => l
      case _ => LevelAfter(tr[..|tr| - 1])
  }

  /** The records at or above the level in force when they were logged, in lock order. */
  function Admitted(tr: seq<Event>): seq<Record>
  {
    if tr == [] then []
    else
      var e, before := tr[|tr| - 1], tr[..|tr| - 1];
      Admitted(before) + (if e.Handle? && e.r.level >= LevelAfter(before) then [e.r] else [])
  }

  /** The position of the first swap, or the length of tr. */
  function FirstSwap(tr: seq<Event>): (n: nat)
    ensures n <= |tr|
    ensures n < |tr| ==> tr[n].Swap?
  {
    if tr == [] then 0
    else
      var n := FirstSwap(tr[..|tr| - 1]);
      if n < |tr| - 1 || tr[|tr| - 1].Swap? then n else |tr|
  }

  /** How many subscriptions were made. */
  function Subscribed(tr: seq<Event>): nat
  {
    if tr == [] then 0
    else Subscribed(tr[..|tr| - 1]) + (if tr[|tr| - 1].Subscribe? then 1 else 0)
  }

  /** Subscription id exists and was not closed. */
  predicate OpenFeed(tr: seq<Event>, id: nat)
  {
    if tr == [] then false
    else
      var e, before := tr[|tr| - 1], tr[..|tr| - 1];
      if e.Subscribe? && Subscribed(tr) == id then true
      else OpenFeed(before, id) && !(e.Unsubscribe? && e.id == id)
  }

  /** The request that made subscription id. */
  function Request(tr: seq<Event>, id: nat): Option<(int, bool)>
  {
    if tr == [] then None
    else
      var e, before := tr[|tr| - 1], tr[..|tr| - 1];
      if e.Subscribe? && Subscribed(tr) == id then Some((e.level, e.all)) else Request(before, id)
  }

  /** The records meant for subscription id while it was open. */
  function Matching(tr: seq<Event>, id: nat): seq<Record>
  {
    if tr == [] then []
    else
      var e, before := tr[|tr| - 1], tr[..|tr| - 1];
      var q := Request(before, id);
      Matching(before, id) +
      (if e.Handle? && OpenFeed(before, id) && q.Some? && e.r.level >= q.value.0 && (q.value.1 || e.ctx == Some(id))
       then [e.r] else [])
  }

  /** What the reader of subscription id has taken. */
  function Received(tr: seq<Event>, id: nat): seq<Record>
  {
    if tr == [] then []
    else
      var e := tr[|tr| - 1];
      Received(tr[..|tr| - 1], id) + (if e.Receive? && e.id == id then [e.r] else [])
  }

  /** s is t with some elements left out. */
  ghost predicate Subsequence<T>(s: seq<T>, t: seq<T>)
  {
    if t == [] then s == []
    else
      || Subsequence(s, t[..|t| - 1])
      || (s != [] && s[|s| - 1] == t[|t| - 1] && Subsequence(s[..|s| - 1], t[..|t| - 1]))
  }
}
