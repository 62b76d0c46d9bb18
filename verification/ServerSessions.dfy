/**
 All control sessions of one frps together: the map of run ids (server/control.go),
 the replacement of a session by a newer login (server/service.go) and the registry
 of proxy names (server/proxy/proxy.go). A run is any sequence of events, so any
 interleaving of the goroutines of any number of sessions.
 */
module ServerSessions {
  import opened Wrappers
  import opened ServerControl

  /** A session and the predecessor whose end its login waits for. */
  datatype Session = Session(ctl: Ctl, waitFor: Option<nat>)

  /** A registered proxy and the session that registered it. */
  datatype Entry = Entry(owner: nat, pxy: Pxy)

  /** Sessions are numbered in the order of their logins. */
  datatype Server = Server(sessions: seq<Session>, byRunID: map<Name, nat>, registry: map<Name, Entry>)

  function NewServer(): Server
  {
    Server([], map[], map[])
  }

  datatype ServerEvent =
    | Login(runID: Name, maxPorts: nat, poolCount: int)
    | Start(i: nat)
    | Step(i: nat, e: Event)
    | Register(i: nat)
    | Unregister(i: nat)
    | Release(i: nat, name: Name)
    | Forget(i: nat)

  function WithCtl(ss: seq<Session>, i: nat, c: Ctl): seq<Session>
    requires i < |ss|
  {
    ss[i := ss[i].(ctl := c)]
  }

  function Touch(s: Server, i: nat, c: Ctl): Server
    requires i < |s.sessions|
  {
    s.(sessions := WithCtl(s.sessions, i, c))
  }

  // ----- steps

  /** ControlManager.Add: the newest login of a run id replaces the entry and signals the old session. */
  function DoLogin(s: Server, runID: Name, maxPorts: nat, poolCount: int): Server
  {
    if poolCount < -10 then s
    else
      var c := NewControl(runID, maxPorts, poolCount);
      var n := |s.sessions|;
      if runID in s.byRunID && s.byRunID[runID] < n then
        var k := s.byRunID[runID];
        var s' := Touch(s, k, Signal(s.sessions[k].ctl));
        Server(s'.sessions + [Session(c, Some(k))], s.byRunID[runID := n], s.registry)
      else
        Server(s.sessions + [Session(c, None)], s.byRunID[runID := n], s.registry)
  }

  /** The predecessor, if there was one, is done. */
  predicate MayStart(ss: seq<Session>, i: nat)
    requires i < |ss|
  {
    match ss[i].waitFor
    case None => true
    case Some(w) => w < |ss| && ss[w].ctl.stoper.Done?
  }

  function DoStart(s: Server, i: nat): Server
    requires i < |s.sessions|
  {
    if MayStart(s.sessions, i) then Touch(s, i, Begin(s.sessions[i].ctl)) else s
  }

  function DoStep(s: Server, i: nat, e: Event): Server
    requires i < |s.sessions|
  {
    Touch(s, i, Local(s.sessions[i].ctl, e))
  }

  /** proxy.Manager.Add refuses a name in use. */
  function DoRegister(s: Server, i: nat): Server
    requires i < |s.sessions|
  {
    var c := s.sessions[i].ctl;
    if !c.manager.Ran? then s
    else
      var free := c.manager.name !in s.registry;
      var s' := Touch(s, i, ManagerAdd(c, free));
      if free then s'.(registry := s.registry[c.manager.name := Entry(i, c.manager.pxy)]) else s'
  }

  predicate Closing(c: Ctl)
  {
    c.manager.Idle? && c.readCh.buf != [] && c.readCh.buf[0].CloseProxy?
  }

  /** The manager receives CloseProxy: proxy.Manager.Del by name. */
  function DoUnregister(s: Server, i: nat): Server
    requires i < |s.sessions|
  {
    var c := s.sessions[i].ctl;
    if !Closing(c) then s
    else
      var s' := Touch(s, i, ManagerReceive(c));
      var name := c.readCh.buf[0].name;
      if name in c.proxies then s'.(registry := s.registry - {name}) else s'
  }

  /** One round of the stoper's loop over the session's proxies. */
  function DoRelease(s: Server, i: nat, name: Name): Server
    requires i < |s.sessions|
  {
    var c := s.sessions[i].ctl;
    if c.stoper.Releasing? && name in c.proxies && name !in c.stoper.released
    then Touch(s, i, ReleaseOne(c, name)).(registry := s.registry - {name})
    else s
  }

  /** ControlManager.Del after the session is done, unless a newer session has taken the entry. */
  function DoForget(s: Server, i: nat): Server
    requires i < |s.sessions|
  {
    var c := s.sessions[i].ctl;
    if c.stoper.Done? && c.runID in s.byRunID && s.byRunID[c.runID] == i then s.(byRunID := s.byRunID - {c.runID})
    else s
  }

  function OfSession(s: Server, e: ServerEvent): Server
    requires !e.Login? && e.i < |s.sessions|
  {
    match e
    case Start(i) => DoStart(s, i)
    case Step(i, local) => DoStep(s, i, local)
    case Register(i) => DoRegister(s, i)
    case Unregister(i) => DoUnregister(s, i)
    case Release(i, name) => DoRelease(s, i, name)
    case Forget(i) => DoForget(s, i)
  }

  function Next(s: Server, e: ServerEvent): Server
  {
    if e.Login? then DoLogin(s, e.runID, e.maxPorts, e.poolCount)
    else if e.i >= |s.sessions| then s
    else OfSession(s, e)
  }

  // ----- the invariant

  predicate Begun(t: Session)
  {
    !t.ctl.boot.Waiting?
  }

  predicate Finished(t: Session)
  {
    t.ctl.stoper.Done?
  }

  predicate Signalled(t: Session)
  {
    t.ctl.shutdownStarted
  }

  predicate SameRun(t: Session, u: Session)
  {
    t.ctl.runID == u.ctl.runID
  }

  ghost predicate SessionsKept(ss: seq<Session>)
  {
    forall i :: 0 <= i < |ss| ==> Inv(ss[i].ctl)
  }

  /** A session begins only after every earlier one of its run id is done. */
  ghost predicate Ordered(ss: seq<Session>)
  {
    forall i, j :: 0 <= i < j < |ss| && SameRun(ss[i], ss[j]) && Begun(ss[j]) ==> Finished(ss[i])
  }

  /** A session waits for the latest earlier one of its run id, unless they are all done. */
  ghost predicate WaitsRight(ss: seq<Session>, j: nat)
    requires j < |ss|
  {
    match ss[j].waitFor
    case None => forall i :: 0 <= i < j && SameRun(ss[i], ss[j]) ==> Finished(ss[i])
    case Some(w) => w < j && SameRun(ss[w], ss[j]) && forall i :: w < i < j ==> !SameRun(ss[i], ss[j])
  }

  ghost predicate Waits(ss: seq<Session>)
  {
    forall j :: 0 <= j < |ss| ==> WaitsRight(ss, j)
  }

  /** The entry of a run id is its latest login. */
  ghost predicate IsLatest(ss: seq<Session>, runID: Name, k: nat)
  {
    k < |ss| && ss[k].ctl.runID == runID && forall i :: k < i < |ss| ==> ss[i].ctl.runID != runID
  }

  ghost predicate LatestFound(ss: seq<Session>, byRunID: map<Name, nat>)
  {
    forall r :: r in byRunID ==> IsLatest(ss, r, byRunID[r])
  }

  /** A run id without an entry has only finished sessions. */
  ghost predicate MissingDone(ss: seq<Session>, byRunID: map<Name, nat>)
  {
    forall i :: 0 <= i < |ss| && ss[i].ctl.runID !in byRunID ==> Finished(ss[i])
  }

  /** A session with a newer one of its run id has been told to stop. */
  ghost predicate Replacing(ss: seq<Session>)
  {
    forall i, j :: 0 <= i < j < |ss| && SameRun(ss[i], ss[j]) ==> Signalled(ss[i])
  }

  ghost predicate SessionOrder(ss: seq<Session>, byRunID: map<Name, nat>)
  {
    Ordered(ss) && Waits(ss) && LatestFound(ss, byRunID) && MissingDone(ss, byRunID) && Replacing(ss)
  }

  /** Each registered name is held by its owner, with that owner's object. */
  ghost predicate EntryOwned(ss: seq<Session>, name: Name, e: Entry)
  {
    e.owner < |ss| && name in Held(ss[e.owner].ctl) && Held(ss[e.owner].ctl)[name] == e.pxy
  }

  ghost predicate EntriesOwned(ss: seq<Session>, registry: map<Name, Entry>)
  {
    forall name :: name in registry ==> EntryOwned(ss, name, registry[name])
  }

  ghost predicate HeldEntered(held: map<Name, Pxy>, i: nat, registry: map<Name, Entry>)
  {
    forall name :: name in held ==> name in registry && registry[name].owner == i
  }

  ghost predicate AllEntered(ss: seq<Session>, registry: map<Name, Entry>)
  {
    forall i :: 0 <= i < |ss| ==> HeldEntered(Held(ss[i].ctl), i, registry)
  }

  /** The registry is the disjoint union of what the sessions hold. */
  ghost predicate RegistryIsUnion(ss: seq<Session>, registry: map<Name, Entry>)
  {
    EntriesOwned(ss, registry) && AllEntered(ss, registry)
  }

  ghost predicate ServerInv(s: Server)
  {
    SessionsKept(s.sessions) && SessionOrder(s.sessions, s.byRunID) && RegistryIsUnion(s.sessions, s.registry)
  }

  // ----- steps of one session

  /** What a step of session i may do to the order of sessions. */
  ghost predicate Advances(ss: seq<Session>, i: nat, c: Ctl)
    requires i < |ss|
  {
    && c.runID == ss[i].ctl.runID
    && (ss[i].ctl.stoper.Done? ==> c.stoper.Done?)
    && (ss[i].ctl.shutdownStarted ==> c.shutdownStarted)
    && (ss[i].ctl.boot.Waiting? && !c.boot.Waiting? ==> MayStart(ss, i))
  }

  /** Whoever may start has only finished sessions of its run id before it. */
  lemma MayStartMeans(ss: seq<Session>, i: nat, j: nat)
    requires SessionsKept(ss) && Ordered(ss) && Waits(ss)
    requires i < j < |ss| && SameRun(ss[i], ss[j]) && MayStart(ss, j)
    ensures Finished(ss[i])
  {
    assert WaitsRight(ss, j);
    if ss[j].waitFor.Some? {
      var w := ss[j].waitFor.value;
      assert i <= w;
      assert Inv(ss[w].ctl);
      assert Begun(ss[w]);
    }
  }

  lemma AdvancesOrdered(ss: seq<Session>, i: nat, c: Ctl)
    requires SessionsKept(ss) && Ordered(ss) && Waits(ss) && i < |ss| && Advances(ss, i, c)
    ensures Ordered(WithCtl(ss, i, c))
  {
    var ss' := WithCtl(ss, i, c);
    forall a, b | 0 <= a < b < |ss'| && SameRun(ss'[a], ss'[b]) && Begun(ss'[b])
      ensures Finished(ss'[a])
    {
      if Begun(ss[b]) {
        assert Finished(ss[a]);
      } else {
        MayStartMeans(ss, a, b);
      }
    }
  }

  lemma AdvancesWaits(ss: seq<Session>, i: nat, c: Ctl)
    requires Waits(ss) && i < |ss| && Advances(ss, i, c)
    ensures Waits(WithCtl(ss, i, c))
  {
    var ss' := WithCtl(ss, i, c);
    forall j | 0 <= j < |ss'| ensures WaitsRight(ss', j) {
      assert WaitsRight(ss, j);
    }
  }

  lemma AdvancesEntries(ss: seq<Session>, byRunID: map<Name, nat>, i: nat, c: Ctl)
    requires LatestFound(ss, byRunID) && MissingDone(ss, byRunID) && Replacing(ss) && i < |ss| && Advances(ss, i, c)
    ensures LatestFound(WithCtl(ss, i, c), byRunID) && MissingDone(WithCtl(ss, i, c), byRunID) && Replacing(WithCtl(ss, i, c))
  {
    var ss' := WithCtl(ss, i, c);
    forall r | r in byRunID ensures IsLatest(ss', r, byRunID[r]) {
      assert IsLatest(ss, r, byRunID[r]);
    }
  }

  lemma AdvancesOrder(ss: seq<Session>, byRunID: map<Name, nat>, i: nat, c: Ctl)
    requires SessionsKept(ss) && SessionOrder(ss, byRunID) && i < |ss| && Advances(ss, i, c)
    ensures SessionOrder(WithCtl(ss, i, c), byRunID)
  {
    AdvancesOrdered(ss, i, c);
    AdvancesWaits(ss, i, c);
    AdvancesEntries(ss, byRunID, i, c);
  }

  lemma CtlKept(ss: seq<Session>, i: nat, c: Ctl)
    requires SessionsKept(ss) && i < |ss| && Inv(c)
    ensures SessionsKept(WithCtl(ss, i, c))
  {
  }

  /** A step of session i keeps everything if it keeps the session and the registry follows it. */
  lemma StepOf(s: Server, i: nat, c: Ctl, registry: map<Name, Entry>)
    requires ServerInv(s) && i < |s.sessions|
    requires Inv(c) && Advances(s.sessions, i, c)
    requires RegistryIsUnion(WithCtl(s.sessions, i, c), registry)
    ensures ServerInv(Server(WithCtl(s.sessions, i, c), s.byRunID, registry))
  {
    CtlKept(s.sessions, i, c);
    AdvancesOrder(s.sessions, s.byRunID, i, c);
  }

  // ----- the registry follows what sessions hold

  lemma SameHeld(ss: seq<Session>, registry: map<Name, Entry>, i: nat, c: Ctl)
    requires RegistryIsUnion(ss, registry) && i < |ss| && Held(c) == Held(ss[i].ctl)
    ensures RegistryIsUnion(WithCtl(ss, i, c), registry)
  {
    var ss' := WithCtl(ss, i, c);
    forall name | name in registry ensures EntryOwned(ss', name, registry[name]) {
      assert EntryOwned(ss, name, registry[name]);
    }
  }

  lemma OneMoreHeld(ss: seq<Session>, registry: map<Name, Entry>, i: nat, c: Ctl, name: Name, pxy: Pxy)
    requires RegistryIsUnion(ss, registry) && i < |ss| && name !in registry
    requires Held(c) == Held(ss[i].ctl)[name := pxy]
    ensures RegistryIsUnion(WithCtl(ss, i, c), registry[name := Entry(i, pxy)])
  {
    var ss', registry' := WithCtl(ss, i, c), registry[name := Entry(i, pxy)];
    forall n | n in registry' ensures EntryOwned(ss', n, registry'[n]) {
      if n != name { assert EntryOwned(ss, n, registry[n]); }
    }
    forall j | 0 <= j < |ss'| ensures HeldEntered(Held(ss'[j].ctl), j, registry') {
      assert HeldEntered(Held(ss[j].ctl), j, registry);
    }
  }

  lemma OneLessHeld(ss: seq<Session>, registry: map<Name, Entry>, i: nat, c: Ctl, name: Name)
    requires RegistryIsUnion(ss, registry) && i < |ss| && name in Held(ss[i].ctl)
    requires Held(c) == Held(ss[i].ctl) - {name}
    ensures RegistryIsUnion(WithCtl(ss, i, c), registry - {name})
  {
    var ss', registry' := WithCtl(ss, i, c), registry - {name};
    assert HeldEntered(Held(ss[i].ctl), i, registry);
    forall n | n in registry' ensures EntryOwned(ss', n, registry'[n]) {
      assert EntryOwned(ss, n, registry[n]);
    }
    forall j | 0 <= j < |ss'| ensures HeldEntered(Held(ss'[j].ctl), j, registry') {
      assert HeldEntered(Held(ss[j].ctl), j, registry);
    }
  }

  // ----- every step keeps the invariant

  lemma LocalStepKeeps(s: Server, i: nat, e: Event)
    requires ServerInv(s) && i < |s.sessions|
    ensures ServerInv(DoStep(s, i, e))
  {
    var c := s.sessions[i].ctl;
    assert Inv(c);
    LocalKeeps(c, e);
    LocalIsUnseen(c, e);
    SameHeld(s.sessions, s.registry, i, Local(c, e));
    StepOf(s, i, Local(c, e), s.registry);
  }

  lemma BeginHeld(c: Ctl)
    requires Inv(c)
    ensures Inv(Begin(c)) && Held(Begin(c)) == Held(c)
    ensures Begin(c).runID == c.runID && Begin(c).stoper == c.stoper && Begin(c).shutdownStarted == c.shutdownStarted
  {
    BeginKeeps(c);
  }

  lemma StartKeeps(s: Server, i: nat)
    requires ServerInv(s) && i < |s.sessions|
    ensures ServerInv(DoStart(s, i))
  {
    var c := s.sessions[i].ctl;
    assert Inv(c);
    if MayStart(s.sessions, i) {
      BeginHeld(c);
      SameHeld(s.sessions, s.registry, i, Begin(c));
      StepOf(s, i, Begin(c), s.registry);
    }
  }

  /** While the manager is at work, the session holds exactly its proxies. */
  lemma HeldByWorking(c: Ctl)
    requires ChannelsSafe(c) && !c.manager.ManagerExited? && !c.manager.Added?
    ensures Held(c) == c.proxies
  {
  }

  lemma AddHeld(c: Ctl, ok: bool)
    requires ChannelsSafe(c) && c.manager.Ran?
    ensures Held(c) == c.proxies
    ensures Held(ManagerAdd(c, ok)) == if ok then Held(c)[c.manager.name := c.manager.pxy] else Held(c)
  {
  }

  lemma AddFrame(c: Ctl, ok: bool)
    ensures var c' := ManagerAdd(c, ok); c'.runID == c.runID && c'.stoper == c.stoper
    ensures var c' := ManagerAdd(c, ok); c'.boot == c.boot && c'.shutdownStarted == c.shutdownStarted
  {
  }

  lemma RegisterKeeps(s: Server, i: nat)
    requires ServerInv(s) && i < |s.sessions|
    ensures ServerInv(DoRegister(s, i))
  {
    var c := s.sessions[i].ctl;
    if c.manager.Ran? {
      var name, free := c.manager.name, c.manager.name !in s.registry;
      var c' := ManagerAdd(c, free);
      assert Inv(c);
      AddHeld(c, free);
      AddFrame(c, free);
      assert HeldEntered(Held(c), i, s.registry);
      ManagerAddKeeps(c, free);
      if free {
        OneMoreHeld(s.sessions, s.registry, i, c', name, c.manager.pxy);
        StepOf(s, i, c', s.registry[name := Entry(i, c.manager.pxy)]);
      } else {
        SameHeld(s.sessions, s.registry, i, c');
        StepOf(s, i, c', s.registry);
      }
    }
  }

  lemma CloseHeld(c: Ctl)
    requires ChannelsSafe(c) && Closing(c)
    ensures Held(ManagerReceive(c)) == Held(c) - {c.readCh.buf[0].name}
    ensures Held(c) == c.proxies
  {
    HeldByWorking(c);
    HeldByWorking(ManagerReceive(c));
  }

  lemma ReceiveFrame(c: Ctl)
    ensures var c' := ManagerReceive(c); c'.runID == c.runID && c'.stoper == c.stoper
    ensures var c' := ManagerReceive(c); c'.boot == c.boot && c'.shutdownStarted == c.shutdownStarted
  {
  }

  /** The message names no proxy of the session. */
  lemma UnregisterNothing(s: Server, i: nat, c': Ctl)
    requires ServerInv(s) && i < |s.sessions| && Inv(c') && Advances(s.sessions, i, c')
    requires Held(c') == Held(s.sessions[i].ctl)
    ensures ServerInv(Server(WithCtl(s.sessions, i, c'), s.byRunID, s.registry))
  {
    SameHeld(s.sessions, s.registry, i, c');
    StepOf(s, i, c', s.registry);
  }

  lemma UnregisterOwn(s: Server, i: nat, c': Ctl, name: Name)
    requires ServerInv(s) && i < |s.sessions| && Inv(c') && Advances(s.sessions, i, c')
    requires name in Held(s.sessions[i].ctl) && Held(c') == Held(s.sessions[i].ctl) - {name}
    ensures ServerInv(Server(WithCtl(s.sessions, i, c'), s.byRunID, s.registry - {name}))
  {
    OneLessHeld(s.sessions, s.registry, i, c', name);
    StepOf(s, i, c', s.registry - {name});
  }

  lemma UnregisterKeeps(s: Server, i: nat)
    requires ServerInv(s) && i < |s.sessions|
    ensures ServerInv(DoUnregister(s, i))
  {
    var c := s.sessions[i].ctl;
    if Closing(c) {
      var c', name := ManagerReceive(c), c.readCh.buf[0].name;
      assert Inv(c);
      ManagerReceiveKeeps(c);
      CloseHeld(c);
      ReceiveFrame(c);
      if name in c.proxies {
        UnregisterOwn(s, i, c', name);
      } else {
        assert Held(c) - {name} == Held(c);
        UnregisterNothing(s, i, c');
      }
    }
  }

  lemma ReleaseHeld(c: Ctl, name: Name)
    requires ChannelsSafe(c) && c.stoper.Releasing? && name in c.proxies && name !in c.stoper.released
    ensures name in Held(c) && Held(ReleaseOne(c, name)) == Held(c) - {name}
  {
    assert c.manager.ManagerExited?;
    assert c.proxies - (c.stoper.released + {name}) == c.proxies - c.stoper.released - {name};
  }

  lemma ReleaseStepKeeps(s: Server, i: nat, name: Name)
    requires ServerInv(s) && i < |s.sessions|
    ensures ServerInv(DoRelease(s, i, name))
  {
    var c := s.sessions[i].ctl;
    if c.stoper.Releasing? && name in c.proxies && name !in c.stoper.released {
      assert Inv(c);
      ReleaseKeeps(c, name);
      ReleaseHeld(c, name);
      OneLessHeld(s.sessions, s.registry, i, ReleaseOne(c, name), name);
      StepOf(s, i, ReleaseOne(c, name), s.registry - {name});
    }
  }

  /** Forgetting a finished session leaves only finished ones without an entry. */
  lemma ForgetMissing(ss: seq<Session>, byRunID: map<Name, nat>, i: nat)
    requires SessionsKept(ss) && Ordered(ss) && MissingDone(ss, byRunID) && i < |ss| && Finished(ss[i])
    requires IsLatest(ss, ss[i].ctl.runID, i)
    ensures MissingDone(ss, byRunID - {ss[i].ctl.runID})
  {
    assert Inv(ss[i].ctl);
    assert Begun(ss[i]);
    forall j | 0 <= j < |ss| && ss[j].ctl.runID !in byRunID - {ss[i].ctl.runID} ensures Finished(ss[j]) {
      if ss[j].ctl.runID == ss[i].ctl.runID {
        assert j <= i;
        assert SameRun(ss[j], ss[i]);
      }
    }
  }

  lemma ForgetOrder(ss: seq<Session>, byRunID: map<Name, nat>, i: nat)
    requires SessionsKept(ss) && SessionOrder(ss, byRunID) && i < |ss| && Finished(ss[i])
    requires ss[i].ctl.runID in byRunID && byRunID[ss[i].ctl.runID] == i
    ensures SessionOrder(ss, byRunID - {ss[i].ctl.runID})
  {
    assert IsLatest(ss, ss[i].ctl.runID, i);
    assert MissingDone(ss, byRunID - {ss[i].ctl.runID}) by { ForgetMissing(ss, byRunID, i); }
  }

  lemma ForgetKeeps(s: Server, i: nat)
    requires ServerInv(s) && i < |s.sessions|
    ensures ServerInv(DoForget(s, i))
  {
    var runID := s.sessions[i].ctl.runID;
    if Finished(s.sessions[i]) && runID in s.byRunID && s.byRunID[runID] == i {
      ForgetOrder(s.sessions, s.byRunID, i);
    }
  }

  // ----- logins

  /** A new session at the end of the list, waiting for the right predecessor. */
  lemma AppendOrder(ss: seq<Session>, byRunID: map<Name, nat>, t: Session)
    requires SessionOrder(ss, byRunID) && t.ctl.boot.Waiting?
    requires WaitsRight(ss + [t], |ss|)
    requires forall i :: 0 <= i < |ss| && SameRun(ss[i], t) ==> Signalled(ss[i])
    ensures SessionOrder(ss + [t], byRunID[t.ctl.runID := |ss|])
  {
    var ss', m := ss + [t], byRunID[t.ctl.runID := |ss|];
    forall j | 0 <= j < |ss'| ensures WaitsRight(ss', j) {
      if j < |ss| { assert WaitsRight(ss, j); }
    }
    forall r | r in m ensures IsLatest(ss', r, m[r]) {
      if r != t.ctl.runID { assert IsLatest(ss, r, byRunID[r]); }
    }
  }

  lemma AppendRegistry(ss: seq<Session>, registry: map<Name, Entry>, t: Session)
    requires RegistryIsUnion(ss, registry) && Held(t.ctl) == map[]
    ensures RegistryIsUnion(ss + [t], registry)
  {
    var ss' := ss + [t];
    forall n | n in registry ensures EntryOwned(ss', n, registry[n]) {
      assert EntryOwned(ss, n, registry[n]);
    }
    forall j | 0 <= j < |ss'| ensures HeldEntered(Held(ss'[j].ctl), j, registry) {
      if j < |ss| { assert HeldEntered(Held(ss[j].ctl), j, registry); }
    }
  }

  lemma AppendKeeps(s: Server, t: Session)
    requires ServerInv(s) && Inv(t.ctl) && t.ctl.boot.Waiting? && Held(t.ctl) == map[]
    requires WaitsRight(s.sessions + [t], |s.sessions|)
    requires forall i :: 0 <= i < |s.sessions| && SameRun(s.sessions[i], t) ==> Signalled(s.sessions[i])
    ensures ServerInv(Server(s.sessions + [t], s.byRunID[t.ctl.runID := |s.sessions|], s.registry))
  {
    AppendOrder(s.sessions, s.byRunID, t);
    AppendRegistry(s.sessions, s.registry, t);
  }

  lemma NewSession(runID: Name, maxPorts: nat, poolCount: int)
    requires poolCount >= -10
    ensures var c := NewControl(runID, maxPorts, poolCount);
      Inv(c) && c.boot.Waiting? && Held(c) == map[] && c.runID == runID
  {
    NewControlKeeps(runID, maxPorts, poolCount);
  }

  /** Without an entry all sessions of the run id are done, hence were told to stop. */
  lemma FirstLogin(ss: seq<Session>, byRunID: map<Name, nat>, t: Session)
    requires SessionsKept(ss) && SessionOrder(ss, byRunID) && t.ctl.runID !in byRunID && t.waitFor.None?
    ensures WaitsRight(ss + [t], |ss|)
    ensures forall i :: 0 <= i < |ss| && SameRun(ss[i], t) ==> Signalled(ss[i])
  {
    forall i | 0 <= i < |ss| && SameRun(ss[i], t) ensures Signalled(ss[i]) && Finished(ss[i]) {
      assert Inv(ss[i].ctl);
    }
  }

  /** With an entry, that session is the one to wait for. */
  lemma LaterLogin(ss: seq<Session>, byRunID: map<Name, nat>, t: Session)
    requires SessionOrder(ss, byRunID) && t.ctl.runID in byRunID && t.waitFor == Some(byRunID[t.ctl.runID])
    requires byRunID[t.ctl.runID] < |ss| ==> Signalled(ss[byRunID[t.ctl.runID]])
    ensures WaitsRight(ss + [t], |ss|)
    ensures forall i :: 0 <= i < |ss| && SameRun(ss[i], t) ==> Signalled(ss[i])
  {
    var k := byRunID[t.ctl.runID];
    assert IsLatest(ss, t.ctl.runID, k);
    forall i | 0 <= i < |ss| && SameRun(ss[i], t) ensures Signalled(ss[i]) {
      assert i <= k;
      if i < k { assert SameRun(ss[i], ss[k]); }
    }
  }

  lemma SignalStepKeeps(s: Server, k: nat)
    requires ServerInv(s) && k < |s.sessions|
    ensures ServerInv(Touch(s, k, Signal(s.sessions[k].ctl)))
  {
    var c := s.sessions[k].ctl;
    assert Inv(c);
    SignalKeeps(c);
    Untouched(c, Signal(c));
    SameHeld(s.sessions, s.registry, k, Signal(c));
    StepOf(s, k, Signal(c), s.registry);
  }

  lemma ReplacingLogin(s: Server, c: Ctl)
    requires ServerInv(s) && c.runID in s.byRunID && s.byRunID[c.runID] < |s.sessions|
    requires Inv(c) && c.boot.Waiting? && Held(c) == map[]
    ensures var k := s.byRunID[c.runID];
      var s1 := Touch(s, k, Signal(s.sessions[k].ctl));
      ServerInv(Server(s1.sessions + [Session(c, Some(k))], s1.byRunID[c.runID := |s1.sessions|], s1.registry))
  {
    var k := s.byRunID[c.runID];
    var s1 := Touch(s, k, Signal(s.sessions[k].ctl));
    SignalStepKeeps(s, k);
    LaterLogin(s1.sessions, s1.byRunID, Session(c, Some(k)));
    AppendKeeps(s1, Session(c, Some(k)));
  }

  lemma FreshLogin(s: Server, c: Ctl)
    requires ServerInv(s) && c.runID !in s.byRunID
    requires Inv(c) && c.boot.Waiting? && Held(c) == map[]
    ensures ServerInv(Server(s.sessions + [Session(c, None)], s.byRunID[c.runID := |s.sessions|], s.registry))
  {
    FirstLogin(s.sessions, s.byRunID, Session(c, None));
    AppendKeeps(s, Session(c, None));
  }

  lemma LoginKeeps(s: Server, runID: Name, maxPorts: nat, poolCount: int)
    requires ServerInv(s)
    ensures ServerInv(DoLogin(s, runID, maxPorts, poolCount))
  {
    if poolCount >= -10 {
      var c := NewControl(runID, maxPorts, poolCount);
      NewSession(runID, maxPorts, poolCount);
      if runID in s.byRunID {
        assert IsLatest(s.sessions, runID, s.byRunID[runID]);
        ReplacingLogin(s, c);
      } else {
        FreshLogin(s, c);
      }
    }
  }

  predicate AboutRegistry(e: ServerEvent)
  {
    e.Register? || e.Unregister? || e.Release?
  }

  lemma RegistryStepKeeps(s: Server, e: ServerEvent)
    requires ServerInv(s) && AboutRegistry(e) && e.i < |s.sessions|
    ensures ServerInv(OfSession(s, e))
  {
    match e {
      case Register(i) => RegisterKeeps(s, i);
      case Unregister(i) => UnregisterKeeps(s, i);
      case Release(i, name) => ReleaseStepKeeps(s, i, name);
    }
  }

  lemma OtherStepKeeps(s: Server, e: ServerEvent)
    requires ServerInv(s) && !AboutRegistry(e) && !e.Login? && e.i < |s.sessions|
    ensures ServerInv(OfSession(s, e))
  {
    match e {
      case Start(i) => StartKeeps(s, i);
      case Step(i, local) => LocalStepKeeps(s, i, local);
      case Forget(i) => ForgetKeeps(s, i);
    }
  }

  lemma NextKeeps(s: Server, e: ServerEvent)
    requires ServerInv(s)
    ensures ServerInv(Next(s, e))
  {
    if e.Login? {
      LoginKeeps(s, e.runID, e.maxPorts, e.poolCount);
    } else if e.i < |s.sessions| {
      if AboutRegistry(e) { RegistryStepKeeps(s, e); } else { OtherStepKeeps(s, e); }
    }
  }

  // ----- runs

  function Run(events: seq<ServerEvent>): Server
  {
    if events == [] then NewServer() else Next(Run(events[..|events| - 1]), events[|events| - 1])
  }

  lemma {:induction false} AlwaysInv(events: seq<ServerEvent>)
    ensures ServerInv(Run(events))
  {
    if events != [] {
      AlwaysInv(events[..|events| - 1]);
      NextKeeps(Run(events[..|events| - 1]), events[|events| - 1]);
    }
  }

  // ----- what holds in every run

  /** A state of some run: any number of sessions, their steps interleaved in any way. */
  ghost predicate Reachable(s: Server)
  {
    exists events: seq<ServerEvent> :: Run(events) == s
  }

  lemma ReachableInv(s: Server)
    requires Reachable(s)
    ensures ServerInv(s)
  {
    var events: seq<ServerEvent> :| Run(events) == s;
    AlwaysInv(events);
  }

  predicate Running(t: Session)
  {
    Begun(t) && !Finished(t)
  }

  /** At most one session of a run id is begun and not done. */
  lemma AtMostOneRuns(s: Server, i: nat, j: nat)
    requires Reachable(s) && i < j < |s.sessions|
    requires SameRun(s.sessions[i], s.sessions[j])
    ensures !(Running(s.sessions[i]) && Running(s.sessions[j]))
  {
    ReachableInv(s);
  }

  /**
   The entry of a run id is the latest login; a session that is not done is that entry, or
   it has been told to stop in favour of the entry.
   */
  lemma UnfinishedIsKnown(s: Server, i: nat)
    requires Reachable(s) && i < |s.sessions| && !Finished(s.sessions[i])
    ensures var t := s.sessions[i];
      && t.ctl.runID in s.byRunID
      && i <= s.byRunID[t.ctl.runID] < |s.sessions|
      && (i < s.byRunID[t.ctl.runID] ==> Signalled(t))
      && IsLatest(s.sessions, t.ctl.runID, s.byRunID[t.ctl.runID])
  {
    ReachableInv(s);
    var runID := s.sessions[i].ctl.runID;
    assert IsLatest(s.sessions, runID, s.byRunID[runID]);
    if i < s.byRunID[runID] { assert SameRun(s.sessions[i], s.sessions[s.byRunID[runID]]); }
  }

  /** A session begins only after all its predecessors are done, with none of their names registered. */
  lemma PredecessorsGone(s: Server, i: nat, j: nat)
    requires Reachable(s) && i < j < |s.sessions|
    requires SameRun(s.sessions[i], s.sessions[j]) && Begun(s.sessions[j])
    ensures Finished(s.sessions[i])
    ensures forall name :: name in s.registry ==> s.registry[name].owner != i
  {
    ReachableInv(s);
    FinishedMeans(s, i);
  }

  /** A name is registered for a session exactly while that session holds it, with the session's own object. */
  lemma RegistryExact(s: Server, i: nat, name: Name)
    requires Reachable(s) && i < |s.sessions|
    ensures var held := Held(s.sessions[i].ctl);
      && (name in held <==> name in s.registry && s.registry[name].owner == i)
      && (name in held ==> s.registry[name].pxy == held[name])
  {
    ReachableInv(s);
    assert HeldEntered(Held(s.sessions[i].ctl), i, s.registry);
    if name in s.registry { assert EntryOwned(s.sessions, name, s.registry[name]); }
  }

  /** The session an event is about, if it exists already. */
  predicate About(e: ServerEvent, i: nat)
  {
    !e.Login? && e.i == i
  }

  lemma OthersRelease(ss: seq<Session>, registry: map<Name, Entry>, i: nat, gone: Name, name: Name)
    requires AllEntered(ss, registry) && name in registry && registry[name].owner != i
    requires i < |ss| && gone in Held(ss[i].ctl)
    ensures gone != name
  {
    assert HeldEntered(Held(ss[i].ctl), i, registry);
  }

  ghost predicate SameEntry(s: Server, s': Server, name: Name)
  {
    name in s.registry && name in s'.registry && s'.registry[name] == s.registry[name]
  }

  lemma OthersUnregister(s: Server, i: nat, name: Name)
    requires i < |s.sessions| && name in s.registry && s.registry[name].owner != i
    requires ChannelsSafe(s.sessions[i].ctl) && AllEntered(s.sessions, s.registry)
    ensures SameEntry(s, DoUnregister(s, i), name)
  {
    var c := s.sessions[i].ctl;
    if Closing(c) && c.readCh.buf[0].name in c.proxies {
      assert c.readCh.buf[0].name in Held(c) by { CloseHeld(c); }
      OthersRelease(s.sessions, s.registry, i, c.readCh.buf[0].name, name);
    }
  }

  lemma OthersStop(s: Server, i: nat, gone: Name, name: Name)
    requires i < |s.sessions| && name in s.registry && s.registry[name].owner != i
    requires ChannelsSafe(s.sessions[i].ctl) && AllEntered(s.sessions, s.registry)
    ensures SameEntry(s, DoRelease(s, i, gone), name)
  {
    var c := s.sessions[i].ctl;
    if c.stoper.Releasing? && gone in c.proxies && gone !in c.stoper.released {
      assert gone in Held(c) by { ReleaseHeld(c, gone); }
      OthersRelease(s.sessions, s.registry, i, gone, name);
    }
  }

  lemma OthersRegister(s: Server, i: nat, name: Name)
    requires i < |s.sessions| && name in s.registry
    ensures SameEntry(s, DoRegister(s, i), name)
  {
  }

  lemma RestKeepsRegistry(s: Server, i: nat, e: Event)
    requires i < |s.sessions|
    ensures DoStep(s, i, e).registry == s.registry
    ensures DoStart(s, i).registry == s.registry && DoForget(s, i).registry == s.registry
  {
  }

  lemma StepKeepsEntry(s: Server, e: ServerEvent, name: Name)
    requires !e.Login? && e.i < |s.sessions| && name in s.registry && s.registry[name].owner != e.i
    requires ChannelsSafe(s.sessions[e.i].ctl) && AllEntered(s.sessions, s.registry)
    ensures SameEntry(s, OfSession(s, e), name)
  {
    match e {
      case Register(i) => OthersRegister(s, i, name);
      case Unregister(i) => OthersUnregister(s, i, name);
      case Release(i, gone) => OthersStop(s, i, gone, name);
      case Start(i) => RestKeepsRegistry(s, i, EBoot);
      case Step(i, local) => RestKeepsRegistry(s, i, local);
      case Forget(i) => RestKeepsRegistry(s, i, EBoot);
    }
  }

  lemma EntersSafely(s: Server, i: nat)
    requires Reachable(s) && i < |s.sessions|
    ensures ChannelsSafe(s.sessions[i].ctl) && AllEntered(s.sessions, s.registry)
  {
    ReachableInv(s);
    assert Inv(s.sessions[i].ctl);
  }

  /** No step of one session, and no login, touches a name that another session has registered. */
  lemma OthersKeepTheirNames(s: Server, e: ServerEvent, name: Name)
    requires Reachable(s) && name in s.registry && !About(e, s.registry[name].owner)
    ensures SameEntry(s, Next(s, e), name)
  {
    if !e.Login? && e.i < |s.sessions| {
      EntersSafely(s, e.i);
      StepKeepsEntry(s, e, name);
    }
  }

  /** No channel of any session is ever misused, no limit exceeded, no connection handed out twice. */
  lemma SessionsAreSafe(s: Server, i: nat)
    requires Reachable(s) && i < |s.sessions|
    ensures var c := s.sessions[i].ctl;
      && !c.panicked
      && (c.maxPorts > 0 ==> c.portsUsed == PortSum(c.proxies) + InProgress(c.manager) && c.portsUsed <= c.maxPorts)
      && |c.workConnCh.buf| <= c.poolCount + 10
      && (forall a, b :: 0 <= a < b < |c.ledger.handed| ==> c.ledger.handed[a] != c.ledger.handed[b])
      && (forall conn :: conn in c.ledger.handed ==> conn !in c.workConnCh.buf)
  {
    ReachableInv(s);
    var c := s.sessions[i].ctl;
    assert Inv(c);
    HandedOnce(c);
  }

  ghost predicate AllLate(ss: seq<Session>)
  {
    forall i :: 0 <= i < |ss| ==> LossesLate(ss[i].ctl)
  }

  lemma TouchLate(ss: seq<Session>, i: nat, c: Ctl)
    requires AllLate(ss) && i < |ss| && LossesLate(c)
    ensures AllLate(WithCtl(ss, i, c))
  {
  }

  lemma LoginLate(s: Server, runID: Name, maxPorts: nat, poolCount: int)
    requires AllLate(s.sessions)
    ensures AllLate(DoLogin(s, runID, maxPorts, poolCount).sessions)
  {
    if poolCount >= -10 {
      assert LossesLate(NewControl(runID, maxPorts, poolCount));
      if runID in s.byRunID && s.byRunID[runID] < |s.sessions| {
        var k := s.byRunID[runID];
        WriterLate(s.sessions[k].ctl, true);
        TouchLate(s.sessions, k, Signal(s.sessions[k].ctl));
      }
    }
  }

  lemma SessionLate(s: Server, e: ServerEvent)
    requires AllLate(s.sessions) && !e.Login? && e.i < |s.sessions| && ChannelsSafe(s.sessions[e.i].ctl)
    ensures AllLate(OfSession(s, e).sessions)
  {
    var c := s.sessions[e.i].ctl;
    match e {
      case Start(i) => BootLate(c); TouchLate(s.sessions, i, Begin(c));
      case Step(i, local) => LocalLate(c, local); TouchLate(s.sessions, i, Local(c, local));
      case Register(i) =>
        ManagerLate(c, c.manager.Ran? && c.manager.name !in s.registry);
        TouchLate(s.sessions, i, ManagerAdd(c, c.manager.Ran? && c.manager.name !in s.registry));
      case Unregister(i) => ManagerLate(c, true); TouchLate(s.sessions, i, ManagerReceive(c));
      case Release(i, name) => ReleaseLate(c, name); TouchLate(s.sessions, i, ReleaseOne(c, name));
      case Forget(i) => assert OfSession(s, e).sessions == s.sessions;
    }
  }

  lemma {:induction false} AlwaysLate(events: seq<ServerEvent>)
    ensures AllLate(Run(events).sessions)
  {
    if events != [] {
      var s, e := Run(events[..|events| - 1]), events[|events| - 1];
      AlwaysLate(events[..|events| - 1]);
      if e.Login? {
        LoginLate(s, e.runID, e.maxPorts, e.poolCount);
      } else if e.i < |s.sessions| {
        AlwaysInv(events[..|events| - 1]);
        assert Inv(s.sessions[e.i].ctl);
        SessionLate(s, e);
      }
    }
  }

  lemma ReachableLate(s: Server, i: nat)
    requires Reachable(s) && i < |s.sessions|
    ensures LossesLate(s.sessions[i].ctl)
  {
    var events: seq<ServerEvent> :| Run(events) == s;
    AlwaysLate(events);
  }

  /**
   Every connection pooled, asked for or owed is accounted for. As long as a session serves, none is lost,
   and if its client never failed to answer, the stock has not fallen below the pool count.
   */
  lemma PoolIsAccounted(s: Server, i: nat)
    requires Reachable(s) && i < |s.sessions|
    ensures var c := s.sessions[i].ctl;
      var l := c.ledger;
      && Stock(c) == Initial(c) + l.misses + l.strays - l.discards - l.failures - l.lost - l.drained
      && (Serving(c) ==> l.lost == 0 && l.drained == 0)
      && (Serving(c) && l.failures == 0 ==> Stock(c) >= c.poolCount)
  {
    ReachableInv(s);
    ReachableLate(s, i);
    assert Inv(s.sessions[i].ctl);
    if Serving(s.sessions[i].ctl) && s.sessions[i].ctl.ledger.failures == 0 { ServingStock(s.sessions[i].ctl); }
  }

  /** A finished session has no goroutine, no open channel, no pooled connection and no registered name. */
  lemma FinishedMeans(s: Server, i: nat)
    requires Reachable(s) && i < |s.sessions| && Finished(s.sessions[i])
    ensures var c := s.sessions[i].ctl;
      && c.reader.ReaderExited? && c.manager.ManagerExited? && c.writer.WriterExited?
      && c.readCh.closed && c.sendCh.closed && c.workConnCh.closed && c.workConnCh.buf == []
    ensures forall name :: name in s.registry ==> s.registry[name].owner != i
  {
    ReachableInv(s);
    assert Inv(s.sessions[i].ctl);
    DoneMeans(s.sessions[i].ctl);
    forall name | name in s.registry ensures s.registry[name].owner != i {
      assert EntryOwned(s.sessions, name, s.registry[name]);
    }
  }

  // ----- what single steps do, in terms of positions, run ids and names

  ghost predicate OnlySession(s: Server, s': Server, i: nat)
  {
    && |s'.sessions| == |s.sessions| && s'.byRunID == s.byRunID
    && forall k :: 0 <= k < |s.sessions| && k != i ==> s'.sessions[k] == s.sessions[k]
  }

  /** A session is begun after its Start exactly if it was before, or every earlier session of its run id is finished. */
  lemma StartBeginsIff(s: Server, i: nat)
    requires Reachable(s) && i < |s.sessions|
    ensures var s' := Next(s, Start(i)); OnlySession(s, s', i) && s'.registry == s.registry
    ensures Begun(Next(s, Start(i)).sessions[i]) <==>
              || Begun(s.sessions[i])
              || forall j :: 0 <= j < i && s.sessions[j].ctl.runID == s.sessions[i].ctl.runID ==> Finished(s.sessions[j])
  {
    ReachableInv(s);
    assert WaitsRight(s.sessions, i);
    if MayStart(s.sessions, i) {
      forall j | 0 <= j < i && s.sessions[j].ctl.runID == s.sessions[i].ctl.runID ensures Finished(s.sessions[j]) {
        MayStartMeans(s.sessions, j, i);
      }
    } else {
      var w := s.sessions[i].waitFor.value;
      assert w < i && SameRun(s.sessions[w], s.sessions[i]) && !Finished(s.sessions[w]);
    }
  }

  /** All sessions of a run id with a newer one were told to stop, and every one without an entry. */
  lemma EarlierAreSignalled(s: Server, runID: Name, k: nat)
    requires ServerInv(s) && k < |s.sessions| && s.sessions[k].ctl.runID == runID
    requires runID in s.byRunID ==> k != s.byRunID[runID]
    ensures Signalled(s.sessions[k])
  {
    assert Inv(s.sessions[k].ctl);
    if runID in s.byRunID {
      assert IsLatest(s.sessions, runID, s.byRunID[runID]);
      assert SameRun(s.sessions[k], s.sessions[s.byRunID[runID]]);
    }
  }

  /**
   A login adds a session that has not begun and is the entry of its run id. The sessions told to stop are
   those that were already and all of that run id; nothing else changes in them, nor in the registry.
   */
  lemma LoginMeans(s: Server, runID: Name, maxPorts: nat, poolCount: int)
    requires Reachable(s) && poolCount >= -10
    ensures var s', n := Next(s, Login(runID, maxPorts, poolCount)), |s.sessions|;
      && |s'.sessions| == n + 1 && s'.byRunID == s.byRunID[runID := n] && s'.registry == s.registry
      && var c := s'.sessions[n].ctl;
         c.runID == runID && c.maxPorts == maxPorts && c.poolCount == poolCount && !Begun(s'.sessions[n]) && !Signalled(s'.sessions[n])
    ensures var s' := Next(s, Login(runID, maxPorts, poolCount));
      forall k :: 0 <= k < |s.sessions| ==>
        s'.sessions[k] == s.sessions[k].(ctl := s.sessions[k].ctl.(shutdownStarted :=
          Signalled(s.sessions[k]) || s.sessions[k].ctl.runID == runID))
  {
    ReachableInv(s);
    var s' := Next(s, Login(runID, maxPorts, poolCount));
    if runID in s.byRunID { assert IsLatest(s.sessions, runID, s.byRunID[runID]); }
    forall k | 0 <= k < |s.sessions|
      ensures s'.sessions[k] == s.sessions[k].(ctl := s.sessions[k].ctl.(shutdownStarted :=
        Signalled(s.sessions[k]) || s.sessions[k].ctl.runID == runID))
    {
      if s.sessions[k].ctl.runID == runID && (runID in s.byRunID ==> k != s.byRunID[runID]) {
        EarlierAreSignalled(s, runID, k);
      }
    }
  }

  /** A proxy that runs is registered for its session if and only if its name was free, and the manager goes on accordingly. */
  lemma RegisterMeans(s: Server, i: nat)
    requires Reachable(s) && i < |s.sessions| && s.sessions[i].ctl.manager.Ran?
    ensures var s', m := Next(s, Register(i)), s.sessions[i].ctl.manager;
      && OnlySession(s, s', i)
      && (if m.name in s.registry
          then s'.registry == s.registry && s'.sessions[i].ctl.manager == Failed(m.name, m.pxy)
          else s'.registry == s.registry[m.name := Entry(i, m.pxy)] && s'.sessions[i].ctl.manager == Added(m.name, m.pxy))
  {
  }

  /** CloseProxy removes a name if and only if this session registered it, and the manager goes on with the next message. */
  lemma UnregisterMeans(s: Server, i: nat)
    requires Reachable(s) && i < |s.sessions| && s.sessions[i].ctl.manager.Idle?
    requires s.sessions[i].ctl.readCh.buf != [] && s.sessions[i].ctl.readCh.buf[0].CloseProxy?
    ensures var s', c := Next(s, Unregister(i)), s.sessions[i].ctl;
      var c', name := s'.sessions[i].ctl, c.readCh.buf[0].name;
      && OnlySession(s, s', i)
      && s'.registry == (if name in s.registry && s.registry[name].owner == i then s.registry - {name} else s.registry)
      && c'.manager.Idle? && c'.readCh.buf == c.readCh.buf[1..] && c'.proxies == c.proxies - {name}
  {
    var c := s.sessions[i].ctl;
    var name := c.readCh.buf[0].name;
    EntersSafely(s, i);
    RegistryExact(s, i, name);
    HeldByWorking(c);
    if name !in c.proxies { assert c.proxies - {name} == c.proxies; }
  }

  /** No newer login of its run id came. */
  ghost predicate Newest(ss: seq<Session>, i: nat)
    requires i < |ss|
  {
    forall j :: i < j < |ss| ==> ss[j].ctl.runID != ss[i].ctl.runID
  }

  lemma EntryIsNewest(s: Server, i: nat)
    requires Reachable(s) && i < |s.sessions| && s.sessions[i].ctl.runID in s.byRunID
    ensures s.byRunID[s.sessions[i].ctl.runID] == i <==> Newest(s.sessions, i)
  {
    ReachableInv(s);
    var r := s.sessions[i].ctl.runID;
    assert IsLatest(s.sessions, r, s.byRunID[r]);
  }

  /** Forgetting a session removes its run id if and only if it is finished and no newer login of that run id came. */
  lemma ForgetMeans(s: Server, i: nat)
    requires Reachable(s) && i < |s.sessions|
    ensures var s', r := Next(s, Forget(i)), s.sessions[i].ctl.runID;
      && s'.sessions == s.sessions && s'.registry == s.registry
      && s'.byRunID == if Finished(s.sessions[i]) && Newest(s.sessions, i) then s.byRunID - {r} else s.byRunID
  {
    var r := s.sessions[i].ctl.runID;
    if r in s.byRunID {
      EntryIsNewest(s, i);
    } else {
      assert s.byRunID - {r} == s.byRunID;
    }
  }
}
