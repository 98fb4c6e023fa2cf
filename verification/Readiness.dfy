/**
 Starting in the background: the parent waits on a pipe for the child to say that it is ready.
 Parent, child, crashes and the parent's timeout are steps in any order; the child's status line
 goes into the pipe piece by piece.
 */
module Readiness {
  import opened Basics
  import opened Sequences

  const STARTUP_FAILED := "ERR startup failed: "
  const LISTEN_FAILED := "ERR listen failed: "

  /** Where the child is; Signalling carries the status still to be written. */
  datatype Child =
    | Setup
    | Hooks
    | Listen
    | StateFile
    | Signalling(rest: string)
    | Running
    | Exited

  datatype Parent =
    | Spawning
    | Waiting
    | Started
    | Failed(why: string)

  datatype World = World(
    parent: Parent,
    child: Child,
    pipe: string,
    parentEnd: bool,
    childEnd: bool,
    env: bool,
    hooksDone: bool,
    bound: bool,
    status: Option<string>)

  /** The child has been started with the write end of the pipe and the variable naming it. */
  const INIT := World(Spawning, Setup, "", true, true, true, false, false, None)

  datatype Event =
    | ParentCloses
    | ParentReads
    | Timeout
    | SetupDone(ok: bool)
    | HooksRun(error: Option<string>)
    | Listening(error: Option<string>)
    | StateWritten
    | WriteSome(n: nat)
    | ClosePipe
    | Crash

  predicate IsSpace(c: char) {
    c == ' ' || '\t' <= c <= '\r'
  }

  function TrimRight(s: string): string {
    if s != "" && IsSpace(s[|s| - 1]) then TrimRight(s[..|s| - 1]) else s
  }

  function TrimLeft(s: string): string {
    if s != "" && IsSpace(s[0]) then TrimLeft(s[1..]) else s
  }

  /** What the parent makes of everything it read up to the end of the pipe. */
  function Decide(data: string): Parent
  {
    var line := TrimRight(TrimLeft(data));
    if "OK" <= line then Started
    else if "ERR " <= line then Failed(line[4..])
    else Failed("service exited before it became ready")
  }

  /** The child reports a status, at most once: without the variable it does nothing. */
  function Signal(w: World, status: string): World {
    if !w.env then w.(child := if "ERR " <= status then Exited else Running)
    else w.(env := false, status := Some(status), child := Signalling(status + "\n"))
  }

  predicate Eof(w: World) {
    !w.parentEnd && !w.childEnd
  }

  predicate Can(w: World, e: Event) {
    match e
    case ParentCloses => w.parent == Spawning
    case ParentReads => w.parent == Waiting && Eof(w)
    case Timeout => w.parent == Waiting
    case SetupDone(_) => w.child == Setup
    case HooksRun(_) => w.child == Hooks
    case Listening(_) => w.child == Listen
    case StateWritten => w.child == StateFile
    case WriteSome(n) => w.child.Signalling? && 0 < n <= |w.child.rest|
    case ClosePipe => w.child.Signalling? && w.child.rest == ""
    case Crash => w.child != Exited
  }

  function Step(w: World, e: Event): World
    requires Can(w, e)
  {
    match e
    case ParentCloses => w.(parentEnd := false, parent := Waiting)
    case ParentReads => w.(parent := Decide(w.pipe))
    case Timeout => w.(parent := Failed("timed out after 30s waiting for service to become ready"))
    case SetupDone(ok) => if ok then w.(child := Hooks) else w.(child := Exited, childEnd := false)
    case HooksRun(error) =>
      if error.Some? then Signal(w, STARTUP_FAILED + error.value) else w.(hooksDone := true, child := Listen)
    case Listening(error) =>
      if error.Some? then Signal(w, LISTEN_FAILED + error.value) else w.(bound := true, child := StateFile)
    case StateWritten => Signal(w, "OK")
    case WriteSome(n) => w.(pipe := w.pipe + w.child.rest[..n], child := Signalling(w.child.rest[n..]))
    case ClosePipe => w.(childEnd := false, child := if w.status == Some("OK") then Running else Exited)
    case Crash => w.(child := Exited, childEnd := false)
  }

  function Run(es: seq<Event>): Option<World> {
    if es == [] then Some(INIT)
    else
      var before := Run(es[..|es| - 1]);
      if before.Some? && Can(before.value, es[|es| - 1]) then Some(Step(before.value, es[|es| - 1])) else None
  }

  /** The status is one of the three the child ever reports. */
  predicate IsStatus(s: string) {
    s == "OK" || STARTUP_FAILED <= s || LISTEN_FAILED <= s
  }

  predicate Inv(w: World) {
    && (w.env <==> w.status == None)
    && (w.status == None ==>
          w.pipe == "" && !w.child.Signalling? && !w.child.Running? && (w.childEnd <==> w.child != Exited))
    && (w.status.Some? ==>
          && IsStatus(w.status.value)
          && w.pipe <= w.status.value + "\n"
          && (w.child.Signalling? ==> w.pipe + w.child.rest == w.status.value + "\n")
          && (w.child.Setup? || w.child.Hooks? || w.child.Listen? || w.child.StateFile? ==> false)
          && (w.child.Running? ==> w.status == Some("OK") && w.pipe == "OK\n" && !w.childEnd)
          && (w.status == Some("OK") ==> w.hooksDone && w.bound))
    && (w.child.Exited? ==> !w.childEnd)
    && (w.child.Signalling? ==> w.childEnd)
    && (w.child.Listen? || w.child.StateFile? ==> w.hooksDone)
    && (w.child.StateFile? ==> w.bound)
    && (w.parent != Spawning ==> !w.parentEnd)
    && (w.parent == Started ==> Decide(w.pipe) == Started && !w.childEnd)
  }

  lemma WriteKeeps(w: World, n: nat)
    requires Inv(w) && Can(w, WriteSome(n))
    ensures Inv(Step(w, WriteSome(n)))
  {
    var rest := w.child.rest;
    assert w.pipe + rest[..n] + rest[n..] == w.pipe + rest;
  }

  lemma StepKeeps(w: World, e: Event)
    requires Inv(w) && Can(w, e)
    ensures Inv(Step(w, e))
  {
    hide Decide;
    match e
    case WriteSome(n) => WriteKeeps(w, n);
    case StateWritten => assert "" + ("OK" + "\n") == "OK\n";
    case HooksRun(error) =>
      if error.Some? {
        assert "" + (STARTUP_FAILED + error.value + "\n") == STARTUP_FAILED + error.value + "\n";
        assert STARTUP_FAILED <= STARTUP_FAILED + error.value;
      }
    case Listening(error) =>
      if error.Some? {
        assert "" + (LISTEN_FAILED + error.value + "\n") == LISTEN_FAILED + error.value + "\n";
        assert LISTEN_FAILED <= LISTEN_FAILED + error.value;
      }
    case ClosePipe => assert w.pipe + "" == w.pipe;
    case _ =>
  }

  lemma {:induction false} InvHolds(es: seq<Event>)
    requires Run(es).Some?
    ensures Inv(Run(es).value)
  {
    if es != [] {
      InvHolds(es[..|es| - 1]);
      hide Inv, Step;
      StepKeeps(Run(es[..|es| - 1]).value, es[|es| - 1]);
    }
  }

  // ---------- what the parent can tell from the pipe ----------

  lemma {:induction false} TrimRightKeepsStart(s: string)
    ensures TrimRight(s) <= s
    ensures s != "" && !IsSpace(s[0]) ==> TrimRight(s) != "" && TrimRight(s)[0] == s[0]
  {
    if s != "" && IsSpace(s[|s| - 1]) {
      TrimRightKeepsStart(s[..|s| - 1]);
    }
  }

  /** Nothing of an error status, cut anywhere, reads as success. */
  lemma PartialErrorIsNoSuccess(data: string, status: string)
    requires data <= status + "\n" && (STARTUP_FAILED <= status || LISTEN_FAILED <= status)
    ensures Decide(data) != Started
  {
    if data != "" {
      assert data[0] == status[0] == 'E';
      TrimRightKeepsStart(data);
    }
  }

  lemma EmptyIsNoSuccess()
    ensures Decide("") != Started
  {}

  /** The readiness barrier: whatever the interleaving, and wherever the child crashes, the
      parent reports success only if the child had run its startup hooks and bound its
      listener. */
  lemma StartedMeansReady(es: seq<Event>)
    requires Run(es).Some? && Run(es).value.parent == Started
    ensures Run(es).value.hooksDone && Run(es).value.bound
  {
    InvHolds(es);
    var w := Run(es).value;
    if w.status == None {
      EmptyIsNoSuccess();
    } else if w.status != Some("OK") {
      PartialErrorIsNoSuccess(w.pipe, w.status.value);
    }
  }

  /** The full status line decides: success exactly for "OK", and for an error its own words. */
  lemma FullStatusDecides(status: string)
    requires IsStatus(status)
    ensures Decide(status + "\n") == Started <==> status == "OK"
    ensures "ERR " <= status ==> "ERR " <= TrimRight(status) && Decide(status + "\n") == Failed(TrimRight(status)[4..])
  {
    var data := status + "\n";
    assert status == "OK" || "ERR " <= status by {
      assert "ERR " <= STARTUP_FAILED && "ERR " <= LISTEN_FAILED;
    }
    assert TrimLeft(data) == data && data[..|data| - 1] == status;
    assert TrimRight(data) == TrimRight(status);
    if "ERR " <= status {
      TrimRightKeepsError(status);
      PartialErrorIsNoSuccess(data, status);
    } else {
      assert TrimRight("OK") == "OK";
    }
  }

  /** An error status keeps its marker when trimmed: something visible always follows it. */
  lemma {:induction false} TrimRightKeepsError(s: string)
    requires STARTUP_FAILED[..5] <= s || LISTEN_FAILED[..5] <= s
    ensures "ERR " <= TrimRight(s)
  {
    if IsSpace(s[|s| - 1]) {
      assert |s| > 5 && s[..|s| - 1][..5] == s[..5];
      TrimRightKeepsError(s[..|s| - 1]);
    }
  }

  /** No one is left waiting: once the child has exited, or said that it is ready, the parent is
      at the end of the pipe; and the timeout is always there. */
  lemma ParentCanDecide(es: seq<Event>)
    requires Run(es).Some? && Run(es).value.parent == Waiting
    ensures var w := Run(es).value;
            && Can(w, Timeout)
            && (w.child.Exited? || w.child.Running? ==> Can(w, ParentReads))
            && (w.child.Running? ==> Step(w, ParentReads).parent == Started)
  {
    InvHolds(es);
    if Run(es).value.child.Running? {
      FullStatusDecides("OK");
      assert "OK" + "\n" == "OK\n";
    }
  }

  /** A status is signalled at most once: a second one finds the variable gone. */
  lemma SignalledOnce(es: seq<Event>, e: Event)
    requires Run(es).Some? && Can(Run(es).value, e) && Run(es).value.status.Some?
    ensures Step(Run(es).value, e).status == Run(es).value.status
  {
    InvHolds(es);
  }

  // ---------- what the parent is told, read off the events ----------

  /** The status the child reports. */
  function StatusOf(es: seq<Event>): Option<string> {
    if es == [] then None
    else match es[|es| - 1]
      case HooksRun(Some(error)) => Some("ERR startup failed: " + error)
      case Listening(Some(error)) => Some("ERR listen failed: " + error)
      case StateWritten => Some("OK")
      case _ => StatusOf(es[..|es| - 1])
  }

  lemma {:induction false} StatusIs(es: seq<Event>)
    requires Run(es).Some?
    ensures Run(es).value.status == StatusOf(es)
  {
    hide Decide, TrimRight, TrimLeft;
    if es != [] {
      StatusIs(es[..|es| - 1]);
      InvHolds(es[..|es| - 1]);
    }
  }

  /** The child wrote its status and closed the pipe. */
  predicate Told(es: seq<Event>) {
    exists i :: 0 <= i < |es| && es[i] == ClosePipe
  }

  lemma {:induction false} ToldInFull(es: seq<Event>)
    requires Run(es).Some? && Told(es)
    ensures var w := Run(es).value;
            && w.status.Some? && w.pipe == w.status.value + "\n"
            && !w.child.Signalling? && !w.childEnd
            && !w.child.Setup? && !w.child.Hooks? && !w.child.Listen? && !w.child.StateFile?
  {
    hide Decide, TrimRight, TrimLeft, IsStatus;
    var n := |es| - 1;
    InvHolds(es[..n]);
    var w := Run(es[..n]).value;
    if es[n] == ClosePipe {
      assert w.pipe + "" == w.pipe;
    } else {
      var i :| 0 <= i < |es| && es[i] == ClosePipe;
      assert es[..n][i] == ClosePipe;
      ToldInFull(es[..n]);
    }
  }

  /** What the parent says once it has read a status that was written in full: that the service has
      started, or the error in the child's own words. */
  lemma ParentIsTold(es: seq<Event>)
    requires Run(es + [ParentReads]).Some? && Told(es)
    ensures var parent, status := Run(es + [ParentReads]).value.parent, StatusOf(es);
            && status.Some?
            && (status.value == "OK" ==> parent == Started)
            && (status.value != "OK" ==>
                  "ERR " <= TrimRight(status.value) && parent == Failed(TrimRight(status.value)[4..]))
  {
    assert (es + [ParentReads])[..|es|] == es;
    StatusIs(es);
    ToldInFull(es);
    InvHolds(es);
    var status := StatusOf(es).value;
    assert "ERR " <= STARTUP_FAILED && "ERR " <= LISTEN_FAILED;
    FullStatusDecides(status);
  }

  /** Without any status, the parent says that the service exited. */
  lemma ParentSeesExit(es: seq<Event>)
    requires Run(es + [ParentReads]).Some? && StatusOf(es) == None
    ensures Run(es + [ParentReads]).value.parent == Failed("service exited before it became ready")
  {
    assert (es + [ParentReads])[..|es|] == es;
    StatusIs(es);
    InvHolds(es);
  }

  /** Having closed the pipe, the child serves if its status was OK, and has exited otherwise. */
  lemma ServesAfterOk(es: seq<Event>)
    requires Run(es + [ClosePipe]).Some?
    ensures Run(es + [ClosePipe]).value.child == if StatusOf(es) == Some("OK") then Running else Exited
  {
    assert (es + [ClosePipe])[..|es|] == es;
    StatusIs(es);
  }

  lemma RunStep(es: seq<Event>, e: Event, w: World)
    requires Run(es) == Some(w) && Can(w, e)
    ensures Run(es + [e]) == Some(Step(w, e))
  {
    assert (es + [e])[..|es|] == es;
  }

  /** The child is ready and has written the first character of its status. */
  const HALF_TOLD := World(Spawning, Signalling("K\n"), "O", true, true, false, true, true, Some("OK"))

  const START := [SetupDone(true), HooksRun(None), Listening(None), StateWritten, WriteSome(1)]

  lemma StartHalf()
    ensures Run(START) == Some(HALF_TOLD)
  {
    var w1 := INIT.(child := Hooks);
    var w2 := w1.(hooksDone := true, child := Listen);
    var w3 := w2.(bound := true, child := StateFile);
    var w4 := w3.(env := false, status := Some("OK"), child := Signalling("OK\n"));
    OkInPieces();
    assert Run([]) == Some(INIT) && Step(w3, StateWritten) == w4 && Step(w4, WriteSome(1)) == HALF_TOLD;
    assert Step(INIT, SetupDone(true)) == w1 && Step(w1, HooksRun(None)) == w2 && Step(w2, Listening(None)) == w3;
    var e1, e2 := [SetupDone(true)], [SetupDone(true), HooksRun(None)];
    var e3 := [SetupDone(true), HooksRun(None), Listening(None)];
    var e4 := [SetupDone(true), HooksRun(None), Listening(None), StateWritten];
    assert [] + [SetupDone(true)] == e1 && e1 + [HooksRun(None)] == e2 && e2 + [Listening(None)] == e3;
    assert e3 + [StateWritten] == e4 && e4 + [WriteSome(1)] == START;
    hide Run, Step, Decide, START, HALF_TOLD;
    RunStep([], SetupDone(true), INIT);
    RunStep(e1, HooksRun(None), w1);
    RunStep(e2, Listening(None), w2);
    RunStep(e3, StateWritten, w3);
    RunStep(e4, WriteSome(1), w4);
  }

  /** A start, with the status written in two pieces. */
  lemma StartExample()
    ensures var w := Run(START + [ParentCloses] + [WriteSome(2)] + [ClosePipe] + [ParentReads]);
            w.Some? && w.value.parent == Started && w.value.child == Running
  {
    var w6 := HALF_TOLD.(parentEnd := false, parent := Waiting);
    var w7 := w6.(pipe := "OK\n", child := Signalling(""));
    var w8 := w7.(childEnd := false, child := Running);
    OkInPieces();
    FullStatusDecides("OK");
    assert Step(HALF_TOLD, ParentCloses) == w6 && Step(w6, WriteSome(2)) == w7 && Step(w7, ClosePipe) == w8;
    assert Step(w8, ParentReads) == w8.(parent := Started);
    StartHalf();
    hide Run, Step, Decide, START, HALF_TOLD;
    RunStep(START, ParentCloses, HALF_TOLD);
    RunStep(START + [ParentCloses], WriteSome(2), w6);
    RunStep(START + [ParentCloses] + [WriteSome(2)], ClosePipe, w7);
    RunStep(START + [ParentCloses] + [WriteSome(2)] + [ClosePipe], ParentReads, w8);
  }

  lemma OkInPieces()
    ensures "OK" + "\n" == "OK\n" && "" + "OK\n"[..1] == "O" && "OK\n"[1..] == "K\n"
    ensures "O" + "K\n"[..2] == "OK\n" && "K\n"[2..] == ""
  {}

  // ---------- the child's side, as it runs ----------

  class ReadyPipe {
    var env: Option<string>
    var written: string
    var open: bool

    constructor (env: Option<string>)
      ensures this.env == env && written == "" && open
    {
      this.env, written, open := env, "", true;
    }

    static predicate Numeric(s: string) {
      s != "" && forall c :: c in s ==> '0' <= c <= '9'
    }

    /** Reports status over the inherited descriptor and closes it, the first time only. */
    method SignalReady(status: string)
      modifies this
      ensures env == None
      ensures old(env).Some? && Numeric(old(env).value) ==> written == old(written) + status + "\n" && !open
      ensures old(env) == None || !Numeric(old(env).value) ==> written == old(written) && open == old(open)
    {
      if env == None {
        return;
      }
      var fd := env.value;
      env := None;
      if !Numeric(fd) {
        return;
      }
      written := written + (status + "\n");
      assert written == old(written) + status + "\n";
      open := false;
    }
  }
}
