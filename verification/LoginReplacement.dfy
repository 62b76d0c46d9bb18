/**
 When a login that replaces a session can begin (server/service.go, server/control.go):
 it waits for its predecessor to come to its end, and this module says exactly when
 that can still happen, over any run of any number of sessions.
 */
module LoginReplacement {
  import opened Wrappers
  import opened Channels
  import opened ServerControl
  import opened ServerSessions
  import opened ServerProgress

  predicate Admitted(e: ServerEvent, heartbeat: bool)
  {
    heartbeat || !(e.Step? && e.e.ETimeout?)
  }

  ghost predicate AllAdmitted(events: seq<ServerEvent>, heartbeat: bool)
  {
    forall e :: e in events ==> Admitted(e, heartbeat)
  }

  function RunFrom(s: Server, events: seq<ServerEvent>): Server
    decreases |events|
  {
    if events == [] then s else RunFrom(Next(s, events[0]), events[1..])
  }

  ghost predicate CanFinish(s: Server, i: nat, heartbeat: bool)
  {
    exists events: seq<ServerEvent> :: AllAdmitted(events, heartbeat) && FinishedIn(RunFrom(s, events), i)
  }

  ghost predicate CanBegin(s: Server, i: nat, heartbeat: bool)
  {
    exists events: seq<ServerEvent> :: AllAdmitted(events, heartbeat) && BegunIn(RunFrom(s, events), i)
  }

  predicate FinishedIn(s: Server, i: nat)
  {
    i < |s.sessions| && Finished(s.sessions[i])
  }

  predicate BegunIn(s: Server, i: nat)
  {
    i < |s.sessions| && Begun(s.sessions[i])
  }

  lemma NextReachable(s: Server, e: ServerEvent)
    requires Reachable(s)
    ensures Reachable(Next(s, e))
  {
    var events: seq<ServerEvent> :| Run(events) == s;
    assert (events + [e])[..|events|] == events;
    assert Run(events + [e]) == Next(s, e);
  }

  // ----- what an event does to one session

  /** Nothing, the start, a signal, or a move. */
  ghost predicate Moved(c: Ctl, c': Ctl, m: Move)
  {
    c' == c || c' == Begin(c) || c' == Signal(c) || c' == Do(c, m)
  }

  function MoveOf(s: Server, e: ServerEvent): Move
    requires !e.Login? && e.i < |s.sessions|
  {
    match e
    case Step(_, local) => Own(local)
    case Register(i) => Adds(s.sessions[i].ctl.manager.Ran? && s.sessions[i].ctl.manager.name !in s.registry)
    case Unregister(_) => Closes
    case Release(_, name) => Releases(name)
    case _ => Own(ESignal)
  }

  lemma LoginMoves(s: Server, e: ServerEvent, j: nat)
    requires e.Login? && j < |s.sessions|
    ensures j < |Next(s, e).sessions|
    ensures var c, c' := s.sessions[j].ctl, Next(s, e).sessions[j].ctl; c' == c || c' == Signal(c)
  {
  }

  lemma OwnMoves(s: Server, e: ServerEvent, j: nat)
    requires !e.Login? && j < |s.sessions|
    ensures j < |Next(s, e).sessions|
    ensures var c, c' := s.sessions[j].ctl, Next(s, e).sessions[j].ctl;
      c' == c || (e.i == j && (c' == Begin(c) || c' == Do(c, MoveOf(s, e))))
  {
  }

  lemma EventMoves(s: Server, e: ServerEvent, j: nat) returns (m: Move)
    requires j < |s.sessions|
    ensures j < |Next(s, e).sessions| && Moved(s.sessions[j].ctl, Next(s, e).sessions[j].ctl, m)
    ensures forall heartbeat :: Admitted(e, heartbeat) ==> Allowed(m, heartbeat)
  {
    if e.Login? {
      m := Own(ESignal);
      LoginMoves(s, e, j);
    } else {
      m := if e.i < |s.sessions| then MoveOf(s, e) else Own(ESignal);
      OwnMoves(s, e, j);
    }
  }

  // ----- every session fits

  ghost predicate AllFit(ss: seq<Session>)
  {
    forall i :: 0 <= i < |ss| ==> Fit(ss[i].ctl)
  }

  lemma BeginFit(c: Ctl)
    requires Fit(c)
    ensures Fit(Begin(c))
  {
  }

  lemma MovedFit(c: Ctl, c': Ctl, m: Move)
    requires Fit(c) && Moved(c, c', m)
    ensures Fit(c')
  {
    BeginFit(c);
    WriterFit(c, true);
    MoveFit(c, m);
  }

  lemma NewSessionFit(runID: Name, maxPorts: nat, poolCount: int)
    requires poolCount >= -10
    ensures Fit(NewControl(runID, maxPorts, poolCount))
  {
  }

  lemma NextFit(s: Server, e: ServerEvent)
    requires AllFit(s.sessions)
    ensures AllFit(Next(s, e).sessions)
  {
    var s' := Next(s, e);
    forall j | 0 <= j < |s'.sessions| ensures Fit(s'.sessions[j].ctl) {
      if j < |s.sessions| {
        var m := EventMoves(s, e, j);
        MovedFit(s.sessions[j].ctl, s'.sessions[j].ctl, m);
      } else {
        NewSessionFit(e.runID, e.maxPorts, e.poolCount);
      }
    }
  }

  lemma {:induction false} AlwaysFit(events: seq<ServerEvent>)
    ensures AllFit(Run(events).sessions)
  {
    if events != [] {
      AlwaysFit(events[..|events| - 1]);
      NextFit(Run(events[..|events| - 1]), events[|events| - 1]);
    }
  }

  lemma ReachableFit(s: Server)
    requires Reachable(s)
    ensures AllFit(s.sessions)
  {
    var events: seq<ServerEvent> :| Run(events) == s;
    AlwaysFit(events);
  }

  ghost predicate AllIds(ss: seq<Session>)
  {
    forall i :: 0 <= i < |ss| ==> Ids(ss[i].ctl)
  }

  lemma MovedIds(c: Ctl, c': Ctl, m: Move)
    requires Fit(c) && Ids(c) && Moved(c, c', m)
    ensures Ids(c')
  {
    GoroutineIds(c, Ping(true), true, Name(""));
    MoveIds(c, m);
  }

  lemma NextIds(s: Server, e: ServerEvent)
    requires AllFit(s.sessions) && AllIds(s.sessions)
    ensures AllIds(Next(s, e).sessions)
  {
    var s' := Next(s, e);
    forall j | 0 <= j < |s'.sessions| ensures Ids(s'.sessions[j].ctl) {
      if j < |s.sessions| {
        assert Fit(s.sessions[j].ctl);
        var m := EventMoves(s, e, j);
        MovedIds(s.sessions[j].ctl, s'.sessions[j].ctl, m);
      } else {
        assert s'.sessions[j].ctl.proxies == map[] && InWork(s'.sessions[j].ctl.manager) == {};
      }
    }
  }

  /** In every run no two names of a session stand for the same proxy object, nor for the one being registered. */
  lemma {:induction false} ObjectsAreDistinct(events: seq<ServerEvent>)
    ensures AllIds(Run(events).sessions)
  {
    if events != [] {
      AlwaysFit(events[..|events| - 1]);
      ObjectsAreDistinct(events[..|events| - 1]);
      NextIds(Run(events[..|events| - 1]), events[|events| - 1]);
    }
  }

  // ----- a doomed session holds up all its successors

  lemma MovedDoomed(c: Ctl, c': Ctl, m: Move, heartbeat: bool)
    requires Fit(c) && Moved(c, c', m) && Allowed(m, heartbeat) && Doomed(c, heartbeat)
    ensures Doomed(c', heartbeat)
  {
    assert c.boot != Waiting;
    if c' == Signal(c) { StopDoomed(c, Name(""), heartbeat); }
    if c' == Do(c, m) { MoveDoomed(c, m, heartbeat); }
  }

  lemma MoveRunID(c: Ctl, m: Move)
    requires ServerControl.Inv(c)
    ensures Do(c, m).runID == c.runID
  {
    match m {
      case Own(e) => LocalIsUnseen(c, e);
      case Adds(free) => AddFrame(c, free);
      case Closes => ReceiveFrame(c);
      case Releases(name) =>
    }
  }

  lemma MovedRunID(s: Server, e: ServerEvent, j: nat)
    requires Reachable(s) && j < |s.sessions|
    ensures j < |Next(s, e).sessions| && Next(s, e).sessions[j].ctl.runID == s.sessions[j].ctl.runID
  {
    ReachableInv(s);
    assert ServerControl.Inv(s.sessions[j].ctl);
    var m := EventMoves(s, e, j);
    MoveRunID(s.sessions[j].ctl, m);
  }

  ghost predicate SameRunIDs(s: Server, s': Server)
  {
    |s'.sessions| >= |s.sessions| && forall i :: 0 <= i < |s.sessions| ==> s'.sessions[i].ctl.runID == s.sessions[i].ctl.runID
  }

  lemma NextRunIDs(s: Server, e: ServerEvent)
    requires Reachable(s)
    ensures SameRunIDs(s, Next(s, e))
  {
    assert |Next(s, e).sessions| >= |s.sessions|;
    forall i | 0 <= i < |s.sessions| ensures Next(s, e).sessions[i].ctl.runID == s.sessions[i].ctl.runID {
      MovedRunID(s, e, i);
    }
  }

  lemma NextDoomed(s: Server, e: ServerEvent, j: nat, heartbeat: bool)
    requires Reachable(s) && Admitted(e, heartbeat) && j < |s.sessions| && Doomed(s.sessions[j].ctl, heartbeat)
    ensures j < |Next(s, e).sessions| && Doomed(Next(s, e).sessions[j].ctl, heartbeat)
  {
    ReachableFit(s);
    assert Fit(s.sessions[j].ctl);
    var m := EventMoves(s, e, j);
    MovedDoomed(s.sessions[j].ctl, Next(s, e).sessions[j].ctl, m, heartbeat);
  }

  lemma {:induction false} DoomedStays(s: Server, events: seq<ServerEvent>, j: nat, heartbeat: bool)
    requires Reachable(s) && AllAdmitted(events, heartbeat) && j < |s.sessions| && Doomed(s.sessions[j].ctl, heartbeat)
    ensures var s' := RunFrom(s, events); Reachable(s') && SameRunIDs(s, s') && Doomed(s'.sessions[j].ctl, heartbeat)
    decreases |events|
  {
    if events != [] {
      var e, s1 := events[0], Next(s, events[0]);
      assert e in events && forall x :: x in events[1..] ==> x in events;
      NextReachable(s, e);
      NextDoomed(s, e, j, heartbeat);
      NextRunIDs(s, e);
      DoomedStays(s1, events[1..], j, heartbeat);
    }
  }

  lemma DoomedNeverFinishes(s: Server, j: nat, heartbeat: bool)
    requires Reachable(s) && j < |s.sessions| && Doomed(s.sessions[j].ctl, heartbeat)
    ensures !CanFinish(s, j, heartbeat)
  {
    forall events: seq<ServerEvent> | AllAdmitted(events, heartbeat) ensures !FinishedIn(RunFrom(s, events), j) {
      NeverFinishedAfter(s, events, j, heartbeat);
    }
  }

  lemma NeverFinishedAfter(s: Server, events: seq<ServerEvent>, j: nat, heartbeat: bool)
    requires Reachable(s) && AllAdmitted(events, heartbeat) && j < |s.sessions| && Doomed(s.sessions[j].ctl, heartbeat)
    ensures !FinishedIn(RunFrom(s, events), j)
  {
    DoomedStays(s, events, j, heartbeat);
    var s' := RunFrom(s, events);
    ReachableFit(s');
    assert Fit(s'.sessions[j].ctl);
    if Finished(s'.sessions[j]) { DoneIsNotDoomed(s'.sessions[j].ctl, heartbeat); }
  }

  lemma DoomedHoldsUp(s: Server, j: nat, i: nat, heartbeat: bool)
    requires Reachable(s) && j < i < |s.sessions| && SameRun(s.sessions[j], s.sessions[i])
    requires Doomed(s.sessions[j].ctl, heartbeat)
    ensures !CanBegin(s, i, heartbeat)
  {
    forall events: seq<ServerEvent> | AllAdmitted(events, heartbeat) ensures !BegunIn(RunFrom(s, events), i) {
      DoomedStays(s, events, j, heartbeat);
      NeverFinishedAfter(s, events, j, heartbeat);
      var s' := RunFrom(s, events);
      if Begun(s'.sessions[i]) { PredecessorsGone(s', j, i); }
    }
  }

  // ----- the others can be brought to their end one after the other

  /** Only session j has changed, and no session was added. */
  ghost predicate OthersSame(s: Server, s': Server, j: nat)
  {
    |s'.sessions| == |s.sessions| && forall k :: 0 <= k < |s.sessions| && k != j ==> s'.sessions[k] == s.sessions[k]
  }

  function EventOf(m: Move, j: nat): ServerEvent
  {
    match m
    case Own(e) => Step(j, e)
    case Adds(_) => Register(j)
    case Closes => Unregister(j)
    case Releases(name) => Release(j, name)
  }

  lemma EventDoes(s: Server, j: nat, m: Move)
    requires j < |s.sessions|
    requires m.Adds? ==> s.sessions[j].ctl.manager.Ran? && m.free == (s.sessions[j].ctl.manager.name !in s.registry)
    ensures OthersSame(s, Next(s, EventOf(m, j)), j)
    ensures Next(s, EventOf(m, j)).sessions[j] == s.sessions[j].(ctl := Do(s.sessions[j].ctl, m))
  {
  }

  lemma {:induction false} FinishOne(s: Server, j: nat, heartbeat: bool) returns (events: seq<ServerEvent>)
    requires Reachable(s) && BegunIn(s, j) && !Doomed(s.sessions[j].ctl, heartbeat)
    ensures AllAdmitted(events, heartbeat) && Reachable(RunFrom(s, events))
    ensures FinishedIn(RunFrom(s, events), j) && OthersSame(s, RunFrom(s, events), j)
    ensures RunFrom(s, events).sessions[j].ctl.runID == s.sessions[j].ctl.runID
    decreases Left(s.sessions[j].ctl)
  {
    var c := s.sessions[j].ctl;
    events := [];
    if !c.stoper.Done? {
      ReachableFit(s);
      assert Fit(c);
      var m := SomethingLeadsOn(c, heartbeat, c.manager.Ran? && c.manager.name !in s.registry);
      var e := EventOf(m, j);
      EventDoes(s, j, m);
      NextReachable(s, e);
      MovedRunID(s, e, j);
      LeftIsNat(c);
      MoveFit(c, m);
      LeftIsNat(Do(c, m));
      var rest := FinishOne(Next(s, e), j, heartbeat);
      events := [e] + rest;
      assert events[1..] == rest;
    }
  }

  lemma {:induction false} RunFromPlus(s: Server, a: seq<ServerEvent>, b: seq<ServerEvent>)
    ensures RunFrom(s, a + b) == RunFrom(RunFrom(s, a), b)
    decreases |a|
  {
    if a == [] {
      assert a + b == b;
    } else {
      assert (a + b)[1..] == a[1..] + b;
      RunFromPlus(Next(s, a[0]), a[1..], b);
    }
  }

  /** Session j is of this run id, and not doomed. */
  ghost predicate NoneDoomed(s: Server, runID: Name, upTo: nat, heartbeat: bool)
  {
    forall j :: 0 <= j < upTo && j < |s.sessions| && s.sessions[j].ctl.runID == runID ==> !Doomed(s.sessions[j].ctl, heartbeat)
  }

  ghost predicate AllFinished(s: Server, runID: Name, upTo: nat)
  {
    forall j :: 0 <= j < upTo && j < |s.sessions| && s.sessions[j].ctl.runID == runID ==> Finished(s.sessions[j])
  }

  lemma StartedIsNotDoomed(c: Ctl, heartbeat: bool)
    requires Fit(c) && c.boot.Waiting?
    ensures !Doomed(Begin(c), heartbeat)
  {
  }

  /** One session, its predecessors finished, begins if it has not and comes to its end. */
  lemma BeginAndFinish(s: Server, j: nat, heartbeat: bool) returns (events: seq<ServerEvent>)
    requires Reachable(s) && j < |s.sessions| && !Doomed(s.sessions[j].ctl, heartbeat)
    requires AllFinished(s, s.sessions[j].ctl.runID, j)
    ensures AllAdmitted(events, heartbeat) && Reachable(RunFrom(s, events))
    ensures FinishedIn(RunFrom(s, events), j) && OthersSame(s, RunFrom(s, events), j)
    ensures RunFrom(s, events).sessions[j].ctl.runID == s.sessions[j].ctl.runID
  {
    if Begun(s.sessions[j]) {
      events := FinishOne(s, j, heartbeat);
    } else {
      var s1 := Next(s, Start(j));
      ReachableFit(s);
      assert Fit(s.sessions[j].ctl);
      StartBeginsIff(s, j);
      StartedIsNotDoomed(s.sessions[j].ctl, heartbeat);
      NextReachable(s, Start(j));
      MovedRunID(s, Start(j), j);
      var rest := FinishOne(s1, j, heartbeat);
      events := [Start(j)] + rest;
      assert events[1..] == rest;
    }
  }

  lemma {:induction false} FinishEarlier(s: Server, runID: Name, n: nat, heartbeat: bool) returns (events: seq<ServerEvent>)
    requires Reachable(s) && n <= |s.sessions| && NoneDoomed(s, runID, n, heartbeat)
    ensures AllAdmitted(events, heartbeat) && Reachable(RunFrom(s, events)) && AllFinished(RunFrom(s, events), runID, n)
    ensures |RunFrom(s, events).sessions| == |s.sessions|
    ensures forall k :: n <= k < |s.sessions| ==> RunFrom(s, events).sessions[k] == s.sessions[k]
  {
    if n == 0 {
      events := [];
    } else {
      events := FinishEarlier(s, runID, n - 1, heartbeat);
      var s1 := RunFrom(s, events);
      if s1.sessions[n - 1].ctl.runID == runID {
        var more := BeginAndFinish(s1, n - 1, heartbeat);
        RunFromPlus(s, events, more);
        events := events + more;
      }
    }
  }

  /** A session that has begun can finish if and only if it is not doomed. */
  lemma CanFinishIff(s: Server, i: nat, heartbeat: bool)
    requires Reachable(s) && BegunIn(s, i)
    ensures CanFinish(s, i, heartbeat) <==> !Doomed(s.sessions[i].ctl, heartbeat)
  {
    if Doomed(s.sessions[i].ctl, heartbeat) {
      DoomedNeverFinishes(s, i, heartbeat);
    } else {
      var events := FinishOne(s, i, heartbeat);
    }
  }

  /** A login can still begin if and only if it has, or no earlier session of its run id is doomed. */
  lemma CanBeginIff(s: Server, i: nat, heartbeat: bool)
    requires Reachable(s) && i < |s.sessions|
    ensures CanBegin(s, i, heartbeat) <==>
              || Begun(s.sessions[i])
              || forall j :: 0 <= j < i && s.sessions[j].ctl.runID == s.sessions[i].ctl.runID ==> !Doomed(s.sessions[j].ctl, heartbeat)
  {
    if Begun(s.sessions[i]) {
      var none: seq<ServerEvent> := [];
      assert BegunIn(RunFrom(s, none), i);
    } else if NoneDoomed(s, s.sessions[i].ctl.runID, i, heartbeat) {
      var events := FinishEarlier(s, s.sessions[i].ctl.runID, i, heartbeat);
      var s1 := RunFrom(s, events);
      StartBeginsIff(s1, i);
      RunFromPlus(s, events, [Start(i)]);
      assert RunFrom(s1, [Start(i)]) == Next(s1, Start(i)) by { assert [Start(i)][1..] == []; }
      assert BegunIn(RunFrom(s, events + [Start(i)]), i);
    } else {
      var j :| 0 <= j < i && s.sessions[j].ctl.runID == s.sessions[i].ctl.runID && Doomed(s.sessions[j].ctl, heartbeat);
      DoomedHoldsUp(s, j, i, heartbeat);
    }
  }

  // ----- it happens

  /** Session 0 is the only one, and at work. */
  ghost predicate Alone(s: Server, runID: Name, reader: Reader, manager: Manager, n: nat)
  {
    && Reachable(s) && |s.sessions| == 1 && s.byRunID == map[runID := 0]
    && s.sessions[0].ctl.runID == runID && s.sessions[0].ctl.boot.Booted?
    && s.sessions[0].ctl.reader == reader && s.sessions[0].ctl.manager == manager && |s.sessions[0].ctl.readCh.buf| == n
    && s.sessions[0].ctl.readCh.cap == 10 && !s.sessions[0].ctl.readCh.closed
  }

  lemma Started(runID: Name) returns (s: Server)
    ensures Alone(s, runID, Reading, Idle, 0)
  {
    var none: seq<ServerEvent> := [];
    assert Run(none) == NewServer();
    var s0 := NewServer();
    var s1 := Next(s0, Login(runID, 0, 0));
    NextReachable(s0, Login(runID, 0, 0));
    var s2 := Next(s1, Start(0));
    NextReachable(s1, Start(0));
    s := Next(s2, Step(0, EBoot));
    NextReachable(s2, Step(0, EBoot));
  }

  lemma OneMoreRead(s: Server, runID: Name, manager: Manager, n: nat, m: ToServer) returns (s': Server)
    requires Alone(s, runID, Reading, manager, n) && n < 10
    ensures Alone(s', runID, Reading, manager, n + 1) && s'.sessions[0].ctl.readCh.buf == s.sessions[0].ctl.readCh.buf + [m]
  {
    var s1 := Next(s, Step(0, EGet(m)));
    NextReachable(s, Step(0, EGet(m)));
    s' := Next(s1, Step(0, EForward));
    NextReachable(s1, Step(0, EForward));
  }

  /**
   A client sends a bad ping and, before it is answered, eleven messages more. The manager leaves, the reader waits for
   it for ever, and so does every later login of that client.
   */
  lemma LoginCanWaitForEver(runID: Name) returns (s: Server)
    ensures Reachable(s) && |s.sessions| == 2 && s.sessions[0].ctl.runID == s.sessions[1].ctl.runID == runID
    ensures !Begun(s.sessions[1]) && !CanBegin(s, 1, true) && !CanBegin(s, 1, false)
  {
    s := Started(runID);
    s := OneMoreRead(s, runID, Idle, 0, Ping(false));
    var e := Step(0, EReceive);
    NextReachable(s, e);
    s := Next(s, e);
    var leaving := Replying(Pong(false), true);
    assert Alone(s, runID, Reading, leaving, 0);
    for n := 0 to 10
      invariant Alone(s, runID, Reading, leaving, n)
    {
      s := OneMoreRead(s, runID, leaving, n, Ping(true));
    }
    e := Step(0, EGet(Ping(true)));
    NextReachable(s, e);
    s := Next(s, e);
    assert ReaderStuck(s.sessions[0].ctl);
    e := Login(runID, 0, 0);
    NextReachable(s, e);
    s := Next(s, e);
    assert ReaderStuck(s.sessions[0].ctl);
    DoomedHoldsUp(s, 0, 1, true);
    DoomedHoldsUp(s, 0, 1, false);
  }
}
