/**
 All proxies of one frpc and its frps: the wrappers ever made, the manager's map of live
 ones (client/proxy/proxy_manager.go), the two message queues they share, and the names
 frps has registered. What one name sees of this is a run of module ProxyLifecycle.
 */
module Fleet {
  import opened Wrappers
  import opened ProxyLifecycle

  /** A wrapper with its name, how often it was stopped, and the last message it sent. */
  datatype Client = Client(name: Name, w: Wrapper, stops: nat, lastSent: Option<Up>)

  datatype Tagged<T> = Tagged(name: Name, it: T)

  /** The response handler has looked a wrapper up and is about to set its status. */
  datatype Fetched = Fetched(id: nat, ok: bool)

  datatype World = World(clients: seq<Client>, live: map<Name, nat>,
                         up: seq<Tagged<Up>>, down: seq<Tagged<bool>>, handler: Option<Fetched>, reg: set<Name>)

  datatype WorldEvent =
    | CheckOne(id: nat, timedOut: bool)
    | ReportHealth(id: nat, healthy: bool)
    | ServeNext(accepts: bool)
    | FetchNext
    | SetOne(runs: bool)
    | RemoveName(name: Name)
    | AddName(name: Name, checked: bool)

  function NewWorld(): World
  {
    World([], map[], [], [], None, {})
  }

  function Tag(name: Name, sends: seq<Up>): seq<Tagged<Up>>
  {
    seq(|sends|, i requires 0 <= i < |sends| => Tagged(name, sends[i]))
  }

  /** The wrapper moves to a phase and sends. */
  function Moves(c: Client, phase: Phase, sends: seq<Up>): Client
  {
    c.(w := c.w.(phase := phase), lastSent := if sends == [] then c.lastSent else Some(sends[|sends| - 1]))
  }

  /** Wrapper.Stop: the close of its channels would panic a second time. */
  function Stop(c: Client): Client
  {
    Moves(c, Closed, [CloseProxy]).(stops := c.stops + 1)
  }

  function Put(s: World, id: nat, c: Client, sends: seq<Up>): World
    requires id < |s.clients|
  {
    s.(clients := s.clients[id := c], up := s.up + Tag(c.name, sends))
  }

  function Step(s: World, e: WorldEvent): World
  {
    match e
    case CheckOne(id, timedOut) =>
      if id >= |s.clients| then s
      else
        var c := s.clients[id];
        var sends := CheckSends(c.w, timedOut);
        Put(s, id, Moves(c, CheckPhase(c.w, timedOut), sends), sends)
    case ReportHealth(id, healthy) =>
      if id >= |s.clients| || !s.clients[id].w.checked then s
      else s.(clients := s.clients[id := s.clients[id].(w := s.clients[id].w.(healthy := healthy))])
    case ServeNext(accepts) =>
      if s.up == [] then s
      else
        var name := s.up[0].name;
        if s.up[0].it.CloseProxy? then s.(up := s.up[1..], reg := s.reg - {name})
        else
          var ok := accepts && name !in s.reg;
          s.(up := s.up[1..], down := s.down + [Tagged(name, ok)], reg := if ok then s.reg + {name} else s.reg)
    case FetchNext =>
      if s.handler.Some? || s.down == [] then s
      else
        var r := s.down[0];
        s.(down := s.down[1..], handler := if r.name in s.live then Some(Fetched(s.live[r.name], r.it)) else None)
    case SetOne(runs) =>
      if s.handler.None? then s
      else if s.handler.value.id >= |s.clients| then s.(handler := None)
      else
        var c, ok := s.clients[s.handler.value.id], s.handler.value.ok;
        var sends := StatusSends(c.w, ok, runs);
        Put(s, s.handler.value.id, Moves(c, StatusPhase(c.w, ok, runs), sends), sends).(handler := None)
    case RemoveName(name) =>
      if name !in s.live || s.live[name] >= |s.clients| then s
      else Put(s, s.live[name], Stop(s.clients[s.live[name]]), [CloseProxy]).(live := s.live - {name})
    case AddName(name, checked) =>
      if name in s.live then s
      else s.(clients := s.clients + [Client(name, NewWrapper(checked), 0, None)], live := s.live[name := |s.clients|])
  }

  function RunWorld(events: seq<WorldEvent>): World
  {
    if events == [] then NewWorld() else Step(RunWorld(events[..|events| - 1]), events[|events| - 1])
  }

  // ----- each wrapper by itself

  /** Stopped at most once, and then closed; nothing but CloseProxy was sent last from check failed and closed. */
  predicate Settled(c: Client)
  {
    && c.stops == (if c.w.phase.Closed? then 1 else 0)
    && (c.w.phase.CheckFailed? || c.w.phase.Closed? ==> c.lastSent == Some(CloseProxy))
  }

  predicate IsLive(s: World, id: nat)
    requires id < |s.clients|
  {
    s.clients[id].name in s.live && s.live[s.clients[id].name] == id
  }

  ghost predicate AllSettled(s: World)
  {
    forall id :: 0 <= id < |s.clients| ==> Settled(s.clients[id])
  }

  /** The wrappers not closed are exactly those in the manager's map. */
  ghost predicate LiveExactly(s: World)
  {
    forall id :: 0 <= id < |s.clients| ==> (IsLive(s, id) <==> !s.clients[id].w.phase.Closed?)
  }

  ghost predicate LiveNamed(s: World)
  {
    forall name :: name in s.live ==> s.live[name] < |s.clients| && s.clients[s.live[name]].name == name
  }

  ghost predicate WorldInv(s: World)
  {
    && AllSettled(s) && LiveExactly(s) && LiveNamed(s)
    && (s.handler.Some? ==> s.handler.value.id < |s.clients|)
  }

  /** A closed wrapper stays closed and sends nothing. */
  lemma ClosedIsFinal(w: Wrapper, timedOut: bool, ok: bool, runs: bool)
    requires w.phase.Closed?
    ensures CheckPhase(w, timedOut) == Closed && CheckSends(w, timedOut) == []
    ensures StatusPhase(w, ok, runs) == Closed && StatusSends(w, ok, runs) == []
  {
  }

  /** One wrapper moves, and is closed only if it already was. */
  lemma PutKeeps(s: World, id: nat, c: Client, sends: seq<Up>)
    requires WorldInv(s) && id < |s.clients| && Settled(c) && c.name == s.clients[id].name
    requires c.w.phase.Closed? <==> s.clients[id].w.phase.Closed?
    ensures WorldInv(Put(s, id, c, sends))
  {
    var s' := Put(s, id, c, sends);
    forall i | 0 <= i < |s'.clients| ensures IsLive(s', i) <==> !s'.clients[i].w.phase.Closed? {
      assert IsLive(s, i) <==> !s.clients[i].w.phase.Closed?;
    }
  }

  lemma CheckSettled(c: Client, timedOut: bool)
    requires Settled(c)
    ensures var c' := Moves(c, CheckPhase(c.w, timedOut), CheckSends(c.w, timedOut));
      Settled(c') && (c'.w.phase.Closed? <==> c.w.phase.Closed?)
  {
  }

  lemma StatusSettled(c: Client, ok: bool, runs: bool)
    requires Settled(c)
    ensures var c' := Moves(c, StatusPhase(c.w, ok, runs), StatusSends(c.w, ok, runs));
      Settled(c') && (c'.w.phase.Closed? <==> c.w.phase.Closed?)
  {
  }

  lemma RemoveKeeps(s: World, name: Name)
    requires WorldInv(s)
    ensures WorldInv(Step(s, RemoveName(name)))
  {
    if name in s.live {
      var s' := Step(s, RemoveName(name));
      assert IsLive(s, s.live[name]);
      forall i | 0 <= i < |s'.clients| ensures IsLive(s', i) <==> !s'.clients[i].w.phase.Closed? {
        assert IsLive(s, i) <==> !s.clients[i].w.phase.Closed?;
      }
    }
  }

  lemma AddKeeps(s: World, name: Name, checked: bool)
    requires WorldInv(s)
    ensures WorldInv(Step(s, AddName(name, checked)))
  {
    if name !in s.live {
      var s' := Step(s, AddName(name, checked));
      forall i | 0 <= i < |s'.clients| ensures IsLive(s', i) <==> !s'.clients[i].w.phase.Closed? {
        if i < |s.clients| { assert IsLive(s, i) <==> !s.clients[i].w.phase.Closed?; }
      }
    }
  }

  lemma QueueKeeps(s: World, e: WorldEvent)
    requires WorldInv(s) && (e.ServeNext? || e.FetchNext?)
    ensures WorldInv(Step(s, e))
  {
    var s' := Step(s, e);
    assert s'.clients == s.clients && s'.live == s.live;
    forall i | 0 <= i < |s'.clients| ensures IsLive(s', i) <==> !s'.clients[i].w.phase.Closed? {
      assert IsLive(s, i) <==> !s.clients[i].w.phase.Closed?;
    }
  }

  lemma StepKeeps(s: World, e: WorldEvent)
    requires WorldInv(s)
    ensures WorldInv(Step(s, e))
  {
    match e {
      case CheckOne(id, timedOut) =>
        if id < |s.clients| {
          var c := s.clients[id];
          CheckSettled(c, timedOut);
          PutKeeps(s, id, Moves(c, CheckPhase(c.w, timedOut), CheckSends(c.w, timedOut)), CheckSends(c.w, timedOut));
        }
      case ReportHealth(id, healthy) =>
        if id < |s.clients| {
          var c := s.clients[id];
          PutKeeps(s, id, c.(w := c.w.(healthy := healthy)), []);
        }
      case SetOne(runs) =>
        if s.handler.Some? {
          var c, ok := s.clients[s.handler.value.id], s.handler.value.ok;
          StatusSettled(c, ok, runs);
          PutKeeps(s, s.handler.value.id, Moves(c, StatusPhase(c.w, ok, runs), StatusSends(c.w, ok, runs)), StatusSends(c.w, ok, runs));
        }
      case ServeNext(_) => QueueKeeps(s, e);
      case FetchNext => QueueKeeps(s, e);
      case RemoveName(name) => RemoveKeeps(s, name);
      case AddName(name, checked) => AddKeeps(s, name, checked);
    }
  }

  lemma {:induction false} AlwaysWorldInv(events: seq<WorldEvent>)
    ensures WorldInv(RunWorld(events))
  {
    if events != [] {
      AlwaysWorldInv(events[..|events| - 1]);
      StepKeeps(RunWorld(events[..|events| - 1]), events[|events| - 1]);
    }
  }

  // ----- what one name sees

  function Of<T>(q: seq<Tagged<T>>, name: Name): seq<T>
  {
    if q == [] then [] else (if q[0].name == name then [q[0].it] else []) + Of(q[1..], name)
  }

  lemma {:induction false} OfPlus<T>(q: seq<Tagged<T>>, r: seq<Tagged<T>>, name: Name)
    ensures Of(q + r, name) == Of(q, name) + Of(r, name)
  {
    if q == [] {
      assert q + r == r;
    } else {
      assert (q + r)[1..] == q[1..] + r;
      OfPlus(q[1..], r, name);
    }
  }

  lemma {:induction false} OfTag(sends: seq<Up>, owner: Name, name: Name)
    ensures Of(Tag(owner, sends), name) == if owner == name then sends else []
    decreases |sends|
  {
    if sends != [] {
      assert Tag(owner, sends)[1..] == Tag(owner, sends[1..]);
      OfTag(sends[1..], owner, name);
    }
  }

  function CurrentOf(clients: seq<Client>, live: map<Name, nat>, name: Name): Option<Wrapper>
  {
    if name in live && live[name] < |clients| then Some(clients[live[name]].w) else None
  }

  /** A response looked up for a wrapper that has left the map since then is lost. */
  function FetchedOf(handler: Option<Fetched>, live: map<Name, nat>, name: Name): Option<bool>
  {
    if handler.Some? && name in live && live[name] == handler.value.id then Some(handler.value.ok) else None
  }

  function View(s: World, name: Name): State
  {
    State(CurrentOf(s.clients, s.live, name), Of(s.up, name), Of(s.down, name),
          FetchedOf(s.handler, s.live, name), name in s.reg)
  }

  /** The event as this name sees it. */
  function Seen(s: World, e: WorldEvent, name: Name): Event
  {
    match e
    case CheckOne(id, timedOut) => if name in s.live && s.live[name] == id then Check(timedOut) else Skip
    case ReportHealth(id, healthy) => if name in s.live && s.live[name] == id then Health(healthy) else Skip
    case ServeNext(accepts) => if s.up != [] && s.up[0].name == name then Serve(accepts) else Skip
    case FetchNext => if s.handler.None? && s.down != [] && s.down[0].name == name then Fetch else Skip
    case SetOne(runs) =>
      if s.handler.Some? && name in s.live && s.live[name] == s.handler.value.id then SetStatus(runs) else Skip
    case RemoveName(n) => if n == name then Remove else Skip
    case AddName(n, checked) => if n == name then Add(checked) else Skip
  }

  /** What the name sees changes by the event as the name sees it. */
  ghost predicate Follows(s: World, e: WorldEvent, name: Name)
  {
    View(Step(s, e), name) == Next(View(s, name), Seen(s, e, name))
  }

  lemma PutView(s: World, id: nat, c: Client, sends: seq<Up>, name: Name)
    requires WorldInv(s) && id < |s.clients| && c.name == s.clients[id].name
    ensures var v, v' := View(s, name), View(Put(s, id, c, sends), name);
      && v'.down == v.down && v'.reg == v.reg && v'.fetched == v.fetched
      && v'.up == v.up + (if c.name == name then sends else [])
      && v'.cur == if name in s.live && s.live[name] == id then Some(c.w) else v.cur
  {
    OfPlus(s.up, Tag(c.name, sends), name);
    OfTag(sends, c.name, name);
  }

  lemma CheckView(s: World, id: nat, timedOut: bool, name: Name)
    requires WorldInv(s)
    ensures Follows(s, CheckOne(id, timedOut), name)
  {
    if id < |s.clients| {
      var c := s.clients[id];
      var sends := CheckSends(c.w, timedOut);
      PutView(s, id, Moves(c, CheckPhase(c.w, timedOut), sends), sends, name);
      assert IsLive(s, id) <==> !c.w.phase.Closed?;
      if c.w.phase.Closed? { ClosedIsFinal(c.w, timedOut, true, true); }
    }
  }

  lemma SetMoves(s: World, runs: bool, name: Name)
    requires WorldInv(s) && s.handler.Some?
    ensures var id, c := s.handler.value.id, s.clients[s.handler.value.id];
      var sends := StatusSends(c.w, s.handler.value.ok, runs);
      var v, v' := View(s, name), View(Step(s, SetOne(runs)), name);
      && v'.down == v.down && v'.reg == v.reg && v'.fetched == None
      && v'.up == v.up + (if c.name == name then sends else [])
      && v'.cur == if name in s.live && s.live[name] == id
                   then Some(c.w.(phase := StatusPhase(c.w, s.handler.value.ok, runs))) else v.cur
  {
    var id, ok := s.handler.value.id, s.handler.value.ok;
    var c := s.clients[id];
    var sends := StatusSends(c.w, ok, runs);
    PutView(s, id, Moves(c, StatusPhase(c.w, ok, runs), sends), sends, name);
  }

  lemma SetView(s: World, runs: bool, name: Name)
    requires WorldInv(s)
    ensures Follows(s, SetOne(runs), name)
  {
    if s.handler.Some? {
      var c := s.clients[s.handler.value.id];
      SetMoves(s, runs, name);
      assert IsLive(s, s.handler.value.id) <==> !c.w.phase.Closed?;
      if c.w.phase.Closed? { ClosedIsFinal(c.w, true, s.handler.value.ok, runs); }
    }
  }

  lemma RemoveView(s: World, n: Name, name: Name)
    requires WorldInv(s)
    ensures Follows(s, RemoveName(n), name)
  {
    if n in s.live {
      PutView(s, s.live[n], Stop(s.clients[s.live[n]]), [CloseProxy], name);
    }
  }

  lemma OfPush<T>(q: seq<Tagged<T>>, owner: Name, x: T, name: Name)
    ensures Of(q + [Tagged(owner, x)], name) == Of(q, name) + if owner == name then [x] else []
  {
    OfPlus(q, [Tagged(owner, x)], name);
    assert [Tagged(owner, x)][1..] == [];
  }

  lemma ServeView(s: World, accepts: bool, name: Name)
    ensures Follows(s, ServeNext(accepts), name)
  {
    if s.up != [] && s.up[0].it.StartProxy? {
      OfPush(s.down, s.up[0].name, accepts && s.up[0].name !in s.reg, name);
    }
  }

  lemma FetchView(s: World, name: Name)
    requires LiveNamed(s)
    ensures Follows(s, FetchNext, name)
  {
    if s.handler.None? && s.down != [] {
      var s', r := Step(s, FetchNext), s.down[0];
      if r.name == name {
        assert FetchedOf(s'.handler, s.live, name) == if name in s.live then Some(r.it) else None;
      } else {
        assert FetchedOf(s'.handler, s.live, name) == None;
      }
    }
  }

  lemma AddView(s: World, n: Name, checked: bool, name: Name)
    requires LiveNamed(s) && (s.handler.Some? ==> s.handler.value.id < |s.clients|)
    ensures Follows(s, AddName(n, checked), name)
  {
    if n !in s.live {
      var s' := Step(s, AddName(n, checked));
      assert FetchedOf(s'.handler, s'.live, name) == FetchedOf(s.handler, s.live, name);
      assert CurrentOf(s'.clients, s'.live, name) ==
        if n == name then Some(NewWrapper(checked)) else CurrentOf(s.clients, s.live, name);
    }
  }

  lemma HealthCurrent(s: World, id: nat, healthy: bool, name: Name)
    requires id < |s.clients| && s.clients[id].w.checked && LiveNamed(s)
    ensures CurrentOf(Step(s, ReportHealth(id, healthy)).clients, s.live, name) ==
      if name in s.live && s.live[name] == id then Some(s.clients[id].w.(healthy := healthy)) else CurrentOf(s.clients, s.live, name)
  {
  }

  lemma HealthView(s: World, id: nat, healthy: bool, name: Name)
    requires LiveNamed(s)
    ensures Follows(s, ReportHealth(id, healthy), name)
  {
    if id < |s.clients| && s.clients[id].w.checked {
      HealthCurrent(s, id, healthy, name);
    }
  }

  lemma StepView(s: World, e: WorldEvent, name: Name)
    requires WorldInv(s)
    ensures Follows(s, e, name)
  {
    match e {
      case CheckOne(id, timedOut) => CheckView(s, id, timedOut, name);
      case SetOne(runs) => SetView(s, runs, name);
      case RemoveName(n) => RemoveView(s, n, name);
      case ServeNext(accepts) => ServeView(s, accepts, name);
      case FetchNext => FetchView(s, name);
      case ReportHealth(id, healthy) => HealthView(s, id, healthy, name);
      case AddName(n, checked) => AddView(s, n, checked, name);
    }
  }

  function SeenAll(events: seq<WorldEvent>, name: Name): seq<Event>
  {
    if events == [] then []
    else
      var before := events[..|events| - 1];
      SeenAll(before, name) + [Seen(RunWorld(before), events[|events| - 1], name)]
  }

  /** Every run of the whole client is, for each name, a run of that name's life. */
  lemma {:induction false} WorldRefinesLife(events: seq<WorldEvent>, name: Name)
    ensures View(RunWorld(events), name) == Run(SeenAll(events, name))
  {
    if events != [] {
      var before, seen := events[..|events| - 1], SeenAll(events, name);
      WorldRefinesLife(before, name);
      AlwaysWorldInv(before);
      StepView(RunWorld(before), events[|events| - 1], name);
      assert seen[..|seen| - 1] == SeenAll(before, name);
    }
  }

  // ----- what holds in every run

  ghost predicate Reaches(events: seq<WorldEvent>, s: World)
  {
    RunWorld(events) == s
  }

  /** In this run the name is never closed while an answer for it is pending. */
  ghost predicate NeverClosedEarly(events: seq<WorldEvent>, name: Name)
  {
    NeverPremature(SeenAll(events, name))
  }

  /** Each wrapper is stopped at most once; the last message of one in check failed or closed is CloseProxy. */
  lemma StoppedOnce(events: seq<WorldEvent>, s: World, id: nat)
    requires Reaches(events, s) && id < |s.clients|
    ensures var c := s.clients[id];
      && c.stops <= 1 && (c.stops == 1 <==> c.w.phase.Closed?)
      && (c.w.phase.CheckFailed? || c.w.phase.Closed? ==> c.lastSent == Some(CloseProxy))
  {
    AlwaysWorldInv(events);
  }

  /** Closed is absorbing. */
  lemma ClosedStays(s: World, e: WorldEvent, id: nat)
    requires WorldInv(s) && id < |s.clients| && s.clients[id].w.phase.Closed?
    ensures id < |Step(s, e).clients| && Step(s, e).clients[id].w.phase.Closed?
    ensures Step(s, e).clients[id].stops == s.clients[id].stops && Step(s, e).clients[id].lastSent == s.clients[id].lastSent
  {
    assert !IsLive(s, id);
  }

  predicate Holds(s: World, name: Name, p: Phase)
  {
    name in s.live && s.live[name] < |s.clients| && s.clients[s.live[name]].w.phase == p
  }

  /** Once the queue drains, frps holds no proxy outside the client's map, nor one that never asked. */
  lemma DrainedHoldsOnlyLive(events: seq<WorldEvent>, s: World, name: Name)
    requires Reaches(events, s) && s.up == [] && name in s.reg
    ensures Holds(s, name, WaitStart) || Holds(s, name, Running) || Holds(s, name, StartErr)
  {
    WorldRefinesLife(events, name);
    Drained(SeenAll(events, name));
  }

  lemma {:induction false} NotQueued<T>(q: seq<Tagged<T>>, name: Name, x: T)
    requires x !in Of(q, name)
    ensures Tagged(name, x) !in q
  {
    if q != [] {
      NotQueued(q[1..], name, x);
    }
  }

  /** A running proxy is registered and not being closed, unless it was closed while an answer was pending. */
  lemma RunningIsRegistered(events: seq<WorldEvent>, s: World, name: Name)
    requires Reaches(events, s) && NeverClosedEarly(events, name) && Holds(s, name, Running)
    ensures name in s.reg && Tagged(name, CloseProxy) !in s.up
  {
    WorldRefinesLife(events, name);
    RunningMeansRegistered(SeenAll(events, name));
    NotQueued(s.up, name, CloseProxy);
  }

  /** The name has no health check, and no reload drops it. */
  predicate PlainName(events: seq<WorldEvent>, name: Name)
  {
    forall e :: e in events ==> e != RemoveName(name) && e != AddName(name, true)
  }

  lemma {:induction false} PlainNameIsPlain(events: seq<WorldEvent>, name: Name)
    requires PlainName(events, name)
    ensures Plain(SeenAll(events, name))
  {
    if events != [] {
      var n := |events| - 1;
      assert forall e :: e in events[..n] ==> e in events;
      PlainNameIsPlain(events[..n], name);
      assert events[n] in events;
    }
  }

  /** Whatever happens to other names: without a health check, a running proxy is registered. */
  lemma PlainRunningIsRegistered(events: seq<WorldEvent>, s: World, name: Name)
    requires Reaches(events, s) && PlainName(events, name) && Holds(s, name, Running)
    ensures name in s.reg && Tagged(name, CloseProxy) !in s.up
  {
    PlainNameIsPlain(events, name);
    PlainIsNeverPremature(SeenAll(events, name));
    RunningIsRegistered(events, s, name);
  }

  // ----- a backend that fails its check is taken off frps

  lemma OneTag(name: Name, m: Up)
    ensures Tag(name, [m]) == [Tagged(name, m)] && Tag(name, []) == []
  {
  }

  /**
   In every run: a round with a failing check leaves the wrapper neither running nor waiting. If it did
   either, it is in check failed and exactly one CloseProxy was added; otherwise nothing happens.
   */
  lemma FailingCheckCloses(events: seq<WorldEvent>, s: World, id: nat, timedOut: bool)
    requires Reaches(events, s) && id < |s.clients| && !s.clients[id].w.healthy
    ensures var s', c := Step(s, CheckOne(id, timedOut)), s.clients[id];
      var phase := s'.clients[id].w.phase;
      && phase != Running && phase != WaitStart
      && (if c.w.phase == Running || c.w.phase == WaitStart
          then phase == CheckFailed && s'.up == s.up + [Tagged(c.name, CloseProxy)]
          else phase == c.w.phase && s'.up == s.up)
  {
    var c := s.clients[id];
    CloseSentIff(c.w, timedOut);
    RequestSentIff(c.w, timedOut);
    OneTag(c.name, CloseProxy);
    assert s.up + [] == s.up;
  }

  /** A request is added in a round exactly for a healthy wrapper that is new, recovers, or has waited long enough. */
  lemma RequestAddedIff(events: seq<WorldEvent>, s: World, id: nat, timedOut: bool)
    requires Reaches(events, s) && id < |s.clients|
    ensures var s', c := Step(s, CheckOne(id, timedOut)), s.clients[id];
      s'.up == s.up + [Tagged(c.name, StartProxy)] <==>
        c.w.healthy && (c.w.phase in {New, CheckFailed} || (timedOut && c.w.phase in {WaitStart, StartErr}))
  {
    var c := s.clients[id];
    CloseSentIff(c.w, timedOut);
    RequestSentIff(c.w, timedOut);
    OneTag(c.name, StartProxy);
    OneTag(c.name, CloseProxy);
    assert s.up + [] == s.up;
    assert (s.up + [Tagged(c.name, CloseProxy)])[|s.up|] == Tagged(c.name, CloseProxy);
    assert |s.up + [Tagged(c.name, StartProxy)]| == |s.up| + 1;
  }

  /** frps and the response handler at work, nothing else. */
  predicate OnlyDelivers(events: seq<WorldEvent>)
  {
    forall e :: e in events ==> e.ServeNext? || e.FetchNext?
  }

  predicate SameWrappers(s: World, s': World)
  {
    s'.clients == s.clients && s'.live == s.live
  }

  lemma DeliveryStep(s: World, s1: World, e: WorldEvent)
    requires SameWrappers(s, s1) && (e.ServeNext? || e.FetchNext?)
    ensures SameWrappers(s, Step(s1, e))
  {
  }

  lemma RunSnoc(events: seq<WorldEvent>, e: WorldEvent)
    ensures RunWorld(events + [e]) == Step(RunWorld(events), e)
  {
    assert (events + [e])[..|events|] == events;
  }

  lemma {:induction false} DeliveryMovesNoWrapper(before: seq<WorldEvent>, events: seq<WorldEvent>, s: World)
    requires OnlyDelivers(events) && s == RunWorld(before)
    ensures SameWrappers(s, RunWorld(before + events))
    decreases |events|
  {
    if events == [] {
      assert before + events == before;
    } else {
      var most, e := events[..|events| - 1], events[|events| - 1];
      assert e in events && forall x :: x in most ==> x in events;
      DeliveryMovesNoWrapper(before, most, s);
      DeliveryStep(s, RunWorld(before + most), e);
      RunSnoc(before + most, e);
      assert before + events == (before + most) + [e];
    }
  }

  /**
   Whatever happened before: once a running or waiting proxy has failed its check and the queue is drained, frps
   does not have it registered.
   */
  lemma FailingBackendIsDropped(events: seq<WorldEvent>, timedOut: bool, deliveries: seq<WorldEvent>, s: World, s': World, id: nat)
    requires Reaches(events, s) && id < |s.clients| && !s.clients[id].w.healthy && s.clients[id].w.phase in {Running, WaitStart}
    requires OnlyDelivers(deliveries) && Reaches(events + [CheckOne(id, timedOut)] + deliveries, s') && s'.up == []
    ensures s.clients[id].name !in s'.reg
  {
    var name := s.clients[id].name;
    var mid := events + [CheckOne(id, timedOut)];
    assert mid[..|events|] == events;
    FailingCheckCloses(events, s, id, timedOut);
    AlwaysWorldInv(events);
    assert IsLive(s, id);
    DeliveryMovesNoWrapper(mid, deliveries, RunWorld(mid));
    assert s'.clients[id].w.phase == CheckFailed && s'.live[name] == id;
    if name in s'.reg { DrainedHoldsOnlyLive(mid + deliveries, s', name); }
  }
}
