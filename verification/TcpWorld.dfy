/**
 TCP proxies and TCP groups over one port allocator (server/proxy/tcp.go,
 server/group/tcp.go): who holds which port, over every interleaving of
 registrations, failures and closes.
 */
module TcpWorld {
  import opened Wrappers
  import Spec = PortSpec

  /** A group that has members listens on realPort; lns are its members, in order of joining. */
  datatype TcpGroup = TcpGroup(groupKey: string, addr: string, port: int, realPort: int, lns: seq<nat>)

  datatype GroupError = AcquireFailed(err: Spec.PortError) | ListenFailed | ParamsInvalid | DifferentPort | AuthFailed

  /** What a call into the environment sees: the time, the bindable ports, the iteration order, whether net.Listen works. */
  datatype Env = Env(now: int, avail: set<int>, order: seq<int>, bindOk: bool)

  type Groups = map<Name, TcpGroup>

  datatype GroupState = GroupState(ports: Spec.Ports, groups: Groups)

  predicate Populated(groups: Groups, group: Name)
  {
    group in groups && groups[group].lns != []
  }

  const NEW_GROUP := TcpGroup("", "", 0, 0, [])

  // ----- TCPGroupCtl.Listen and CloseListener

  function ListenError(s: GroupState, name: Name, group: Name, groupKey: string, addr: string, port: int, env: Env): Option<GroupError>
  {
    if !Populated(s.groups, group) then
      match Spec.Pick(s.ports, name, port, env.avail, env.order)
      case Failed(e) => Some(AcquireFailed(e))
      case Got(_) => if env.bindOk then None else Some(ListenFailed)
    else if s.groups[group].addr != addr then Some(ParamsInvalid)
    else if s.groups[group].port != port then Some(DifferentPort)
    else if s.groups[group].groupKey != groupKey then Some(AuthFailed)
    else None
  }

  /** The port a first member acquires; a failing net.Listen does not give it back. */
  function AcquiredBy(s: GroupState, name: Name, group: Name, port: int, env: Env): Option<int>
  {
    if Populated(s.groups, group) then None
    else
      match Spec.Pick(s.ports, name, port, env.avail, env.order)
      case Failed(_) => None
      case Got(p) => Some(p)
  }

  function Listen(s: GroupState, name: Name, group: Name, groupKey: string, addr: string, port: int, id: nat, env: Env): GroupState
  {
    var ports := if Populated(s.groups, group) then s.ports
                 else Spec.Acquire(s.ports, name, port, env.now, env.avail, env.order);
    var groups := if group in s.groups then s.groups else s.groups[group := NEW_GROUP];
    var g := groups[group];
    GroupState(ports,
      if ListenError(s, name, group, groupKey, addr, port, env).Some? then groups
      else if Populated(s.groups, group) then groups[group := g.(lns := g.lns + [id])]
      else groups[group := TcpGroup(groupKey, addr, port, AcquiredBy(s, name, group, port, env).value, [id])])
  }

  /** A later member: address, then port, then key must be the group's, and it changes nothing but the list of members. */
  lemma LaterMemberIff(s: GroupState, name: Name, group: Name, groupKey: string, addr: string, port: int, id: nat, env: Env)
    requires Populated(s.groups, group)
    ensures var g, err := s.groups[group], ListenError(s, name, group, groupKey, addr, port, env);
      && (err == None <==> addr == g.addr && port == g.port && groupKey == g.groupKey)
      && (err == Some(ParamsInvalid) <==> addr != g.addr)
      && (err == Some(DifferentPort) <==> addr == g.addr && port != g.port)
      && (err == Some(AuthFailed) <==> addr == g.addr && port == g.port && groupKey != g.groupKey)
      && Listen(s, name, group, groupKey, addr, port, id, env) ==
           if addr == g.addr && port == g.port && groupKey == g.groupKey
           then GroupState(s.ports, s.groups[group := TcpGroup(g.groupKey, g.addr, g.port, g.realPort, g.lns + [id])])
           else s
  {
    assert s.groups[group := s.groups[group]] == s.groups;
  }

  /** A first member: the port decides, then net.Listen; the group takes what it asked for and the port it got. */
  lemma FirstMemberIff(s: GroupState, name: Name, group: Name, groupKey: string, addr: string, port: int, id: nat, env: Env)
    requires !Populated(s.groups, group)
    ensures var out, err := Spec.Pick(s.ports, name, port, env.avail, env.order), ListenError(s, name, group, groupKey, addr, port, env);
      && (err == None <==> out.Got? && env.bindOk)
      && (err == Some(ListenFailed) <==> out.Got? && !env.bindOk)
      && (out.Failed? ==> err == Some(AcquireFailed(out.err)))
      && (err == None ==>
            Listen(s, name, group, groupKey, addr, port, id, env) ==
            GroupState(Spec.Grant(s.ports, name, out.port, env.now), s.groups[group := TcpGroup(groupKey, addr, port, out.port, [id])]))
      && (err != None ==> !Populated(Listen(s, name, group, groupKey, addr, port, id, env).groups, group))
  {
  }

  function Without(lns: seq<nat>, id: nat): (out: seq<nat>)
  {
    if lns == [] then []
    else if lns[0] == id then lns[1..]
    else [lns[0]] + Without(lns[1..], id)
  }

  function CloseListener(s: GroupState, group: Name, id: nat, now: int): GroupState
    requires group in s.groups
  {
    var g := s.groups[group];
    var lns := Without(g.lns, id);
    if lns == [] then GroupState(Spec.Release(s.ports, g.realPort, now), s.groups - {group})
    else s.(groups := s.groups[group := g.(lns := lns)])
  }

  ghost predicate NoDuplicates(lns: seq<nat>)
  {
    forall i, j :: 0 <= i < j < |lns| ==> lns[i] != lns[j]
  }

  lemma {:induction false} WithoutOne(lns: seq<nat>, id: nat)
    requires NoDuplicates(lns)
    ensures NoDuplicates(Without(lns, id))
    ensures forall x :: x in Without(lns, id) <==> x in lns && x != id
  {
    if lns != [] {
      WithoutOne(lns[1..], id);
      var rest := Without(lns[1..], id);
      assert lns == [lns[0]] + lns[1..];
      forall j | 0 <= j < |rest| ensures rest[j] != lns[0] {
        assert rest[j] in rest;
      }
    }
  }

  // ----- the world: every TCP proxy object and what it holds

  datatype Reg =
    | Binding(port: int)      // acquired, net.Listen not yet done
    | Listening(port: int)
    | InGroup(group: Name)

  datatype Owner = Proxy(id: nat) | Group(name: Name) | Leaked

  /**
   owner is a history variable: for whom each port in use is held. A grant of a held port moves it to
   the new holder; an acquire by a group that then fails to listen leaves a free port to nobody.
   */
  datatype World = World(g: GroupState, regs: map<nat, Reg>, owner: map<int, Owner>)

  datatype Event =
    | Acquire(id: nat, name: Name, port: int, env: Env)
    | Bind(id: nat, env: Env)
    | Join(id: nat, name: Name, group: Name, groupKey: string, addr: string, port: int, env: Env)
    | Close(id: nat, now: int)
    | Clean(now: int)

  function Step(w: World, e: Event): World
  {
    match e
    case Acquire(id, name, port, env) =>
      if id in w.regs then w
      else
        (match Spec.Pick(w.g.ports, name, port, env.avail, env.order)
         case Failed(_) => w
         case Got(p) => World(w.g.(ports := Spec.Acquire(w.g.ports, name, port, env.now, env.avail, env.order)),
                              w.regs[id := Binding(p)], w.owner[p := Proxy(id)]))
    case Bind(id, env) =>
      if id !in w.regs || !w.regs[id].Binding? then w
      else if env.bindOk then w.(regs := w.regs[id := Listening(w.regs[id].port)])
      else FreePort(w, id, w.regs[id].port, env.now)
    case Join(id, name, group, groupKey, addr, port, env) =>
      if id in w.regs then w
      else
        var failed := ListenError(w.g, name, group, groupKey, addr, port, env).Some?;
        var p := AcquiredBy(w.g, name, group, port, env);
        World(Listen(w.g, name, group, groupKey, addr, port, id, env),
              if failed then w.regs else w.regs[id := InGroup(group)],
              if p.None? || (failed && p.value in w.g.ports.used) then w.owner
              else w.owner[p.value := if failed then Leaked else Group(group)])
    case Close(id, now) =>
      if id !in w.regs || w.regs[id].Binding? then w
      else if w.regs[id].Listening? then FreePort(w, id, w.regs[id].port, now)
      else if w.regs[id].group !in w.g.groups then w
      else
        var group := w.regs[id].group;
        var g := CloseListener(w.g, group, id, now);
        World(g, w.regs - {id}, if group in g.groups then w.owner else w.owner - {w.g.groups[group].realPort})
    case Clean(now) => w.(g := w.g.(ports := Spec.Clean(w.g.ports, now)))
  }

  function FreePort(w: World, id: nat, port: int, now: int): World
  {
    World(w.g.(ports := Spec.Release(w.g.ports, port, now)), w.regs - {id}, w.owner - {port})
  }

  /** Iterations visit the free ports; what the operating system says about any port is arbitrary. */
  ghost predicate Honest(w: World, e: Event)
  {
    (e.Acquire? || e.Join?) ==> Spec.Enumerates(e.env.order, w.g.ports.free)
  }

  /** The port that the allocator grants in this event. */
  function Granted(w: World, e: Event): Option<int>
  {
    if e.Acquire? && e.id !in w.regs then
      match Spec.Pick(w.g.ports, e.name, e.port, e.env.avail, e.env.order)
      case Failed(_) => None
      case Got(p) => Some(p)
    else if e.Join? && e.id !in w.regs then AcquiredBy(w.g, e.name, e.group, e.port, e.env)
    else None
  }

  /** The port goes to a new proxy or group, not lost to a failed listen. */
  predicate Claims(w: World, e: Event, p: int)
  {
    Granted(w, e) == Some(p) && (e.Join? ==> e.env.bindOk)
  }

  /** The port is in use, and not merely leaked. */
  predicate HeldBySomeone(owner: map<int, Owner>, p: int)
  {
    p in owner && !owner[p].Leaked?
  }

  /** A port that someone still holds goes to a new proxy or group as well. */
  predicate TakenTwice(w: World, e: Event)
  {
    var p := Granted(w, e);
    p.Some? && Claims(w, e, p.value) && HeldBySomeone(w.owner, p.value)
  }

  /** A group's first member acquires the port, which was free, and then fails to listen. */
  predicate Leaks(w: World, e: Event, p: int)
  {
    Granted(w, e) == Some(p) && !Claims(w, e, p) && p !in w.g.ports.used
  }

  /** The port granted is in use and goes to a new proxy or group, or was free and goes to nobody. */
  predicate Misgrants(w: World, e: Event)
  {
    var p := Granted(w, e);
    p.Some? && (p.value in w.g.ports.used <==> Claims(w, e, p.value))
  }

  /** The port that this event releases, if it is held. */
  function Freed(w: World, e: Event): Option<int>
  {
    match e
    case Bind(id, env) => if id in w.regs && w.regs[id].Binding? && !env.bindOk then Some(w.regs[id].port) else None
    case Close(id, now) =>
      if id !in w.regs || w.regs[id].Binding? then None
      else if w.regs[id].Listening? then Some(w.regs[id].port)
      else if w.regs[id].group !in w.g.groups || Without(w.g.groups[w.regs[id].group].lns, id) != [] then None
      else Some(w.g.groups[w.regs[id].group].realPort)
    case _ => None
  }

  /** What a step does to the ports: the grant, the release or the pass of the cleaner that it stands for, and nothing else. */
  lemma PortsFollow(w: World, allowed: set<int>, e: Event)
    requires Base(w, allowed)
    ensures var s, s' := w.g.ports, Step(w, e).g.ports;
      if Granted(w, e).Some? then s' == Spec.Grant(s, e.name, Granted(w, e).value, e.env.now)
      else if Freed(w, e).Some? then s' == Spec.Release(s, Freed(w, e).value, if e.Bind? then e.env.now else e.now)
      else if e.Clean? then s' == Spec.Clean(s, e.now)
      else s' == s
  {
  }

  function Initial(allowed: set<int>): World
  {
    World(GroupState(Spec.Initial(allowed), map[]), map[], map[])
  }

  function Exec(allowed: set<int>, events: seq<Event>): World
  {
    if events == [] then Initial(allowed)
    else Step(Exec(allowed, events[..|events| - 1]), events[|events| - 1])
  }

  ghost predicate HonestRun(allowed: set<int>, events: seq<Event>)
  {
    forall i :: 0 <= i < |events| ==> Honest(Exec(allowed, events[..i]), events[i])
  }

  // ----- the invariant

  predicate HoldsPort(regs: map<nat, Reg>, id: nat, p: int)
  {
    id in regs && (regs[id].Binding? || regs[id].Listening?) && regs[id].port == p
  }

  /** Ports held by proxies are owned by them, and only those. */
  ghost predicate ProxiesOwn(regs: map<nat, Reg>, owner: map<int, Owner>)
  {
    && (forall id :: id in regs && !regs[id].InGroup? ==> regs[id].port in owner && owner[regs[id].port] == Proxy(id))
    && (forall p :: p in owner && owner[p].Proxy? ==> HoldsPort(regs, owner[p].id, p))
  }

  /** Each populated group owns its real port, and only that. */
  ghost predicate GroupsOwn(groups: Groups, owner: map<int, Owner>)
  {
    && (forall n :: Populated(groups, n) ==> groups[n].realPort in owner && owner[groups[n].realPort] == Group(n))
    && (forall p :: p in owner && owner[p].Group? ==> Populated(groups, owner[p].name) && groups[owner[p].name].realPort == p)
  }

  /** The members of a group are exactly the proxies registered in it, each once. */
  ghost predicate MembersAre(groups: Groups, regs: map<nat, Reg>)
  {
    && (forall n :: n in groups ==> NoDuplicates(groups[n].lns))
    && (forall n, id :: n in groups && id in groups[n].lns ==> id in regs && regs[id] == InGroup(n))
    && (forall id :: id in regs && regs[id].InGroup? ==> regs[id].group in groups && id in groups[regs[id].group].lns)
  }

  /** What every run keeps: each port in use is held for someone who claims it, or for nobody. */
  ghost predicate Owned(regs: map<nat, Reg>, groups: Groups, owner: map<int, Owner>)
  {
    && (forall p :: p in owner && owner[p].Proxy? ==> HoldsPort(regs, owner[p].id, p))
    && (forall p :: p in owner && owner[p].Group? ==> Populated(groups, owner[p].name) && groups[owner[p].name].realPort == p)
  }

  ghost predicate Base(w: World, allowed: set<int>)
  {
    && Spec.Inv(w.g.ports, allowed)
    && w.owner.Keys == w.g.ports.used.Keys
    && Owned(w.regs, w.g.groups, w.owner)
    && MembersAre(w.g.groups, w.regs)
  }

  /** What runs keep in which no held port is granted again: every claim is backed as well. */
  ghost predicate Inv(w: World, allowed: set<int>)
  {
    && Spec.Inv(w.g.ports, allowed)
    && w.owner.Keys == w.g.ports.used.Keys
    && ProxiesOwn(w.regs, w.owner)
    && GroupsOwn(w.g.groups, w.owner)
    && MembersAre(w.g.groups, w.regs)
  }

  // ----- the parts of the invariant, one change at a time

  lemma GrantedKeys(s: Spec.Ports, name: Name, p: int, now: int, owner: map<int, Owner>, o: Owner)
    requires owner.Keys == s.used.Keys
    ensures owner[p := o].Keys == Spec.Grant(s, name, p, now).used.Keys
  {
  }

  lemma OwnByProxy(regs: map<nat, Reg>, owner: map<int, Owner>, id: nat, p: int)
    requires ProxiesOwn(regs, owner) && id !in regs && !HeldBySomeone(owner, p)
    ensures ProxiesOwn(regs[id := Binding(p)], owner[p := Proxy(id)])
  {
  }

  lemma OwnByOther(regs: map<nat, Reg>, owner: map<int, Owner>, p: int, o: Owner)
    requires ProxiesOwn(regs, owner) && !HeldBySomeone(owner, p) && !o.Proxy?
    ensures ProxiesOwn(regs, owner[p := o])
  {
  }

  lemma OwnWithMember(regs: map<nat, Reg>, owner: map<int, Owner>, id: nat, group: Name)
    requires ProxiesOwn(regs, owner) && id !in regs
    ensures ProxiesOwn(regs[id := InGroup(group)], owner)
  {
  }

  lemma OwnWithoutMember(regs: map<nat, Reg>, owner: map<int, Owner>, id: nat)
    requires ProxiesOwn(regs, owner) && id in regs && regs[id].InGroup?
    ensures ProxiesOwn(regs - {id}, owner)
  {
  }

  lemma OwnWithoutGroupPort(regs: map<nat, Reg>, owner: map<int, Owner>, p: int)
    requires ProxiesOwn(regs, owner) && p in owner && owner[p].Group?
    ensures ProxiesOwn(regs, owner - {p})
  {
  }

  lemma GroupsUnaffected(groups: Groups, owner: map<int, Owner>, p: int, o: Owner)
    requires GroupsOwn(groups, owner) && !HeldBySomeone(owner, p) && !o.Group?
    ensures GroupsOwn(groups, owner[p := o])
  {
  }

  lemma GroupsFirst(groups: Groups, owner: map<int, Owner>, name: Name, g: TcpGroup)
    requires GroupsOwn(groups, owner) && !Populated(groups, name) && !HeldBySomeone(owner, g.realPort) && g.lns != []
    ensures GroupsOwn(groups[name := g], owner[g.realPort := Group(name)])
  {
    var groups', owner' := groups[name := g], owner[g.realPort := Group(name)];
    forall n | Populated(groups', n) ensures groups'[n].realPort in owner' && owner'[groups'[n].realPort] == Group(n) {
      if n != name { assert Populated(groups, n); }
    }
  }

  lemma GroupsSame(groups: Groups, owner: map<int, Owner>, name: Name, g: TcpGroup)
    requires GroupsOwn(groups, owner) && Populated(groups, name) && g.lns != [] && g.realPort == groups[name].realPort
    ensures GroupsOwn(groups[name := g], owner)
  {
    forall n | Populated(groups[name := g], n)
      ensures groups[name := g][n].realPort in owner && owner[groups[name := g][n].realPort] == Group(n)
    {
      assert Populated(groups, n);
    }
  }

  lemma GroupsLast(groups: Groups, owner: map<int, Owner>, name: Name)
    requires GroupsOwn(groups, owner) && Populated(groups, name)
    ensures GroupsOwn(groups - {name}, owner - {groups[name].realPort})
  {
    forall n | Populated(groups - {name}, n)
      ensures groups[n].realPort in owner - {groups[name].realPort} && owner[groups[n].realPort] == Group(n)
    {
      assert Populated(groups, n);
    }
  }

  lemma EmptyEntry(groups: Groups, regs: map<nat, Reg>, owner: map<int, Owner>, name: Name)
    requires GroupsOwn(groups, owner) && MembersAre(groups, regs) && name !in groups
    ensures GroupsOwn(groups[name := NEW_GROUP], owner) && MembersAre(groups[name := NEW_GROUP], regs)
  {
    forall n | Populated(groups[name := NEW_GROUP], n)
      ensures groups[name := NEW_GROUP][n].realPort in owner && owner[groups[name := NEW_GROUP][n].realPort] == Group(n)
    {
      assert Populated(groups, n);
    }
  }

  lemma MembersUngrouped(groups: Groups, regs: map<nat, Reg>, id: nat, r: Reg)
    requires MembersAre(groups, regs) && id !in regs && !r.InGroup?
    ensures MembersAre(groups, regs[id := r])
  {
  }

  lemma MembersJoin(groups: Groups, regs: map<nat, Reg>, id: nat, name: Name, g: TcpGroup)
    requires MembersAre(groups, regs) && id !in regs
    requires g.lns == (if name in groups then groups[name].lns else []) + [id]
    ensures MembersAre(groups[name := g], regs[id := InGroup(name)])
  {
    assert id in g.lns;
    if name in groups { assert id !in groups[name].lns; }
  }

  lemma MembersLeave(groups: Groups, regs: map<nat, Reg>, id: nat, name: Name, g: TcpGroup)
    requires MembersAre(groups, regs) && id in regs && regs[id] == InGroup(name)
    requires g.lns == Without(groups[name].lns, id)
    ensures MembersAre(groups[name := g], regs - {id})
    ensures g.lns == [] ==> MembersAre(groups - {name}, regs - {id})
  {
    WithoutOne(groups[name].lns, id);
  }

  lemma AcquireKeeps(w: World, allowed: set<int>, e: Event)
    requires Inv(w, allowed) && e.Acquire? && Honest(w, e) && !TakenTwice(w, e)
    ensures Inv(Step(w, e), allowed)
  {
    if e.id !in w.regs {
      Spec.AcquireKeeps(w.g.ports, allowed, e.name, e.port, e.env.now, e.env.avail, e.env.order);
      match Spec.Pick(w.g.ports, e.name, e.port, e.env.avail, e.env.order) {
        case Failed(_) =>
        case Got(p) =>
          GrantedKeys(w.g.ports, e.name, p, e.env.now, w.owner, Proxy(e.id));
          OwnByProxy(w.regs, w.owner, e.id, p);
          GroupsUnaffected(w.g.groups, w.owner, p, Proxy(e.id));
          MembersUngrouped(w.g.groups, w.regs, e.id, Binding(p));
      }
    }
  }

  lemma OwnFreed(regs: map<nat, Reg>, owner: map<int, Owner>, id: nat)
    requires ProxiesOwn(regs, owner) && id in regs && !regs[id].InGroup?
    ensures ProxiesOwn(regs - {id}, owner - {regs[id].port})
  {
  }

  lemma GroupsFreed(groups: Groups, owner: map<int, Owner>, p: int)
    requires GroupsOwn(groups, owner) && p in owner && !owner[p].Group?
    ensures GroupsOwn(groups, owner - {p})
  {
  }

  lemma MembersFreed(groups: Groups, regs: map<nat, Reg>, id: nat)
    requires MembersAre(groups, regs) && id in regs && !regs[id].InGroup?
    ensures MembersAre(groups, regs - {id})
  {
  }

  lemma FreePortKeeps(w: World, allowed: set<int>, id: nat, now: int)
    requires Inv(w, allowed) && id in w.regs && !w.regs[id].InGroup?
    ensures Inv(FreePort(w, id, w.regs[id].port, now), allowed)
  {
    Spec.ReleaseKeeps(w.g.ports, allowed, w.regs[id].port, now);
    OwnFreed(w.regs, w.owner, id);
    GroupsFreed(w.g.groups, w.owner, w.regs[id].port);
    MembersFreed(w.g.groups, w.regs, id);
  }

  lemma BoundKeeps(w: World, allowed: set<int>, id: nat)
    requires Inv(w, allowed) && id in w.regs && w.regs[id].Binding?
    ensures Inv(w.(regs := w.regs[id := Listening(w.regs[id].port)]), allowed)
  {
    var regs := w.regs[id := Listening(w.regs[id].port)];
    assert ProxiesOwn(regs, w.owner);
    assert MembersAre(w.g.groups, regs);
  }

  lemma CleanedKeeps(w: World, allowed: set<int>, now: int)
    requires Inv(w, allowed)
    ensures Inv(w.(g := w.g.(ports := Spec.Clean(w.g.ports, now))), allowed)
  {
    Spec.CleanKeeps(w.g.ports, allowed, now);
  }

  /** A first member: the port goes to the group, or leaks when net.Listen fails. */
  lemma FirstJoinKeeps(w: World, allowed: set<int>, e: Event)
    requires Inv(w, allowed) && e.Join? && Honest(w, e) && e.id !in w.regs && !TakenTwice(w, e)
    requires !Populated(w.g.groups, e.group) && e.group in w.g.groups
    ensures Inv(Step(w, e), allowed)
  {
    Spec.AcquireKeeps(w.g.ports, allowed, e.name, e.port, e.env.now, e.env.avail, e.env.order);
    match Spec.Pick(w.g.ports, e.name, e.port, e.env.avail, e.env.order) {
      case Failed(_) =>
      case Got(p) =>
        var o := if e.env.bindOk then Group(e.group) else Leaked;
        GrantedKeys(w.g.ports, e.name, p, e.env.now, w.owner, o);
        if e.env.bindOk || p !in w.g.ports.used { OwnByOther(w.regs, w.owner, p, o); }
        if !e.env.bindOk && p in w.g.ports.used {
          assert w.owner.Keys == Spec.Grant(w.g.ports, e.name, p, e.env.now).used.Keys;
        } else if e.env.bindOk {
          var g := TcpGroup(e.groupKey, e.addr, e.port, p, [e.id]);
          OwnWithMember(w.regs, w.owner[p := o], e.id, e.group);
          GroupsFirst(w.g.groups, w.owner, e.group, g);
          MembersJoin(w.g.groups, w.regs, e.id, e.group, g);
        } else {
          GroupsUnaffected(w.g.groups, w.owner, p, o);
        }
    }
  }

  lemma NextJoinKeeps(w: World, allowed: set<int>, e: Event)
    requires Inv(w, allowed) && e.Join? && e.id !in w.regs
    requires Populated(w.g.groups, e.group)
    ensures Inv(Step(w, e), allowed)
  {
    if ListenError(w.g, e.name, e.group, e.groupKey, e.addr, e.port, e.env).None? {
      var g := w.g.groups[e.group];
      var g' := g.(lns := g.lns + [e.id]);
      OwnWithMember(w.regs, w.owner, e.id, e.group);
      GroupsSame(w.g.groups, w.owner, e.group, g');
      MembersJoin(w.g.groups, w.regs, e.id, e.group, g');
    }
  }

  lemma JoinKeeps(w: World, allowed: set<int>, e: Event)
    requires Inv(w, allowed) && e.Join? && Honest(w, e) && e.id !in w.regs && !TakenTwice(w, e)
    ensures Inv(Step(w, e), allowed)
  {
    if Populated(w.g.groups, e.group) {
      NextJoinKeeps(w, allowed, e);
    } else if e.group in w.g.groups {
      FirstJoinKeeps(w, allowed, e);
    } else {
      EmptyEntry(w.g.groups, w.regs, w.owner, e.group);
      var w0 := w.(g := w.g.(groups := w.g.groups[e.group := NEW_GROUP]));
      FirstJoinKeeps(w0, allowed, e);
      assert Step(w0, e).g.groups == Step(w, e).g.groups;
    }
  }

  lemma MembersLast(groups: Groups, regs: map<nat, Reg>, owner: map<int, Owner>, id: nat, name: Name)
    requires ProxiesOwn(regs, owner) && GroupsOwn(groups, owner) && Populated(groups, name)
    requires id in regs && regs[id].InGroup?
    ensures ProxiesOwn(regs - {id}, owner - {groups[name].realPort})
    ensures GroupsOwn(groups - {name}, owner - {groups[name].realPort})
  {
    OwnWithoutMember(regs, owner, id);
    OwnWithoutGroupPort(regs - {id}, owner, groups[name].realPort);
    GroupsLast(groups, owner, name);
  }

  lemma LastLeaves(w: World, allowed: set<int>, id: nat, group: Name, now: int)
    requires Inv(w, allowed) && Populated(w.g.groups, group) && id in w.regs && w.regs[id].InGroup?
    requires MembersAre(w.g.groups - {group}, w.regs - {id})
    ensures var p := w.g.groups[group].realPort;
      Inv(World(GroupState(Spec.Release(w.g.ports, p, now), w.g.groups - {group}), w.regs - {id}, w.owner - {p}), allowed)
  {
    Spec.ReleaseKeeps(w.g.ports, allowed, w.g.groups[group].realPort, now);
    MembersLast(w.g.groups, w.regs, w.owner, id, group);
  }

  lemma OthersStay(w: World, allowed: set<int>, id: nat, group: Name, g: TcpGroup)
    requires Inv(w, allowed) && Populated(w.g.groups, group) && id in w.regs && w.regs[id].InGroup?
    requires g.lns != [] && g.realPort == w.g.groups[group].realPort
    requires MembersAre(w.g.groups[group := g], w.regs - {id})
    ensures Inv(World(w.g.(groups := w.g.groups[group := g]), w.regs - {id}, w.owner), allowed)
  {
    OwnWithoutMember(w.regs, w.owner, id);
    GroupsSame(w.g.groups, w.owner, group, g);
  }

  lemma LeaveKeeps(w: World, allowed: set<int>, id: nat, now: int)
    requires Inv(w, allowed) && id in w.regs && w.regs[id].InGroup?
    ensures Inv(Step(w, Close(id, now)), allowed)
  {
    var group := w.regs[id].group;
    var g := w.g.groups[group];
    var g' := g.(lns := Without(g.lns, id));
    assert Populated(w.g.groups, group);
    MembersLeave(w.g.groups, w.regs, id, group, g');
    if g'.lns == [] {
      LastLeaves(w, allowed, id, group, now);
    } else {
      OthersStay(w, allowed, id, group, g');
    }
  }

  lemma StepKeeps(w: World, allowed: set<int>, e: Event)
    requires Inv(w, allowed) && Honest(w, e) && !TakenTwice(w, e)
    ensures Inv(Step(w, e), allowed)
  {
    match e {
      case Acquire(_, _, _, _) => AcquireKeeps(w, allowed, e);
      case Bind(id, env) =>
        if id in w.regs && w.regs[id].Binding? {
          if env.bindOk { BoundKeeps(w, allowed, id); } else { FreePortKeeps(w, allowed, id, env.now); }
        }
      case Join(id, _, _, _, _, _, _) =>
        if id !in w.regs { JoinKeeps(w, allowed, e); }
      case Close(id, now) =>
        if id in w.regs && w.regs[id].Listening? { FreePortKeeps(w, allowed, id, now); }
        else if id in w.regs && w.regs[id].InGroup? { LeaveKeeps(w, allowed, id, now); }
      case Clean(now) => CleanedKeeps(w, allowed, now);
    }
  }

  // ----- what every run keeps, whatever the operating system says

  lemma OwnedGrant(regs: map<nat, Reg>, groups: Groups, owner: map<int, Owner>, id: nat, p: int)
    requires Owned(regs, groups, owner) && id !in regs
    ensures Owned(regs[id := Binding(p)], groups, owner[p := Proxy(id)])
  {
  }

  lemma OwnedFirst(regs: map<nat, Reg>, groups: Groups, owner: map<int, Owner>, id: nat, name: Name, g: TcpGroup)
    requires Owned(regs, groups, owner) && id !in regs && g.lns != [] && !Populated(groups, name)
    ensures Owned(regs[id := InGroup(name)], groups[name := g], owner[g.realPort := Group(name)])
  {
    var groups', owner' := groups[name := g], owner[g.realPort := Group(name)];
    forall p | p in owner' && owner'[p].Group? ensures Populated(groups', owner'[p].name) && groups'[owner'[p].name].realPort == p {
      if p != g.realPort { assert Populated(groups, owner[p].name); }
    }
  }

  lemma OwnedNext(regs: map<nat, Reg>, groups: Groups, owner: map<int, Owner>, id: nat, name: Name, g: TcpGroup)
    requires Owned(regs, groups, owner) && id !in regs && Populated(groups, name)
    requires g.lns != [] && g.realPort == groups[name].realPort
    ensures Owned(regs[id := InGroup(name)], groups[name := g], owner)
  {
  }

  lemma OwnedEntry(regs: map<nat, Reg>, groups: Groups, owner: map<int, Owner>, name: Name)
    requires Owned(regs, groups, owner) && name !in groups
    ensures Owned(regs, groups[name := NEW_GROUP], owner)
  {
    forall p | p in owner && owner[p].Group? ensures owner[p].name != name {
      assert Populated(groups, owner[p].name);
    }
  }

  lemma OwnedFreed(regs: map<nat, Reg>, groups: Groups, owner: map<int, Owner>, id: nat)
    requires Owned(regs, groups, owner) && id in regs && !regs[id].InGroup?
    ensures Owned(regs - {id}, groups, owner - {regs[id].port})
  {
  }

  lemma OwnedStays(regs: map<nat, Reg>, groups: Groups, owner: map<int, Owner>, id: nat, name: Name, g: TcpGroup)
    requires Owned(regs, groups, owner) && id in regs && regs[id] == InGroup(name) && Populated(groups, name)
    requires g.lns != [] && g.realPort == groups[name].realPort
    ensures Owned(regs - {id}, groups[name := g], owner)
  {
  }

  lemma OwnedLast(regs: map<nat, Reg>, groups: Groups, owner: map<int, Owner>, id: nat, name: Name)
    requires Owned(regs, groups, owner) && id in regs && regs[id] == InGroup(name) && Populated(groups, name)
    ensures Owned(regs - {id}, groups - {name}, owner - {groups[name].realPort})
  {
    var groups', owner' := groups - {name}, owner - {groups[name].realPort};
    forall p | p in owner' && owner'[p].Group? ensures Populated(groups', owner'[p].name) && groups'[owner'[p].name].realPort == p {
      assert Populated(groups, owner[p].name) && owner[p].name != name;
    }
  }

  lemma BaseAcquire(w: World, allowed: set<int>, e: Event)
    requires Base(w, allowed) && e.Acquire? && Honest(w, e) && e.id !in w.regs
    ensures Base(Step(w, e), allowed)
  {
    Spec.AcquireKeeps(w.g.ports, allowed, e.name, e.port, e.env.now, e.env.avail, e.env.order);
    match Spec.Pick(w.g.ports, e.name, e.port, e.env.avail, e.env.order) {
      case Failed(_) =>
      case Got(p) =>
        GrantedKeys(w.g.ports, e.name, p, e.env.now, w.owner, Proxy(e.id));
        OwnedGrant(w.regs, w.g.groups, w.owner, e.id, p);
        MembersUngrouped(w.g.groups, w.regs, e.id, Binding(p));
    }
  }

  lemma BaseFirstJoin(w: World, allowed: set<int>, e: Event)
    requires Base(w, allowed) && e.Join? && Honest(w, e) && e.id !in w.regs
    requires !Populated(w.g.groups, e.group) && e.group in w.g.groups
    ensures Base(Step(w, e), allowed)
  {
    Spec.AcquireKeeps(w.g.ports, allowed, e.name, e.port, e.env.now, e.env.avail, e.env.order);
    match Spec.Pick(w.g.ports, e.name, e.port, e.env.avail, e.env.order) {
      case Failed(_) =>
      case Got(p) =>
        GrantedKeys(w.g.ports, e.name, p, e.env.now, w.owner, if e.env.bindOk then Group(e.group) else Leaked);
        if e.env.bindOk {
          var g := TcpGroup(e.groupKey, e.addr, e.port, p, [e.id]);
          OwnedFirst(w.regs, w.g.groups, w.owner, e.id, e.group, g);
          MembersJoin(w.g.groups, w.regs, e.id, e.group, g);
        } else if p in w.g.ports.used {
          assert w.owner.Keys == Spec.Grant(w.g.ports, e.name, p, e.env.now).used.Keys;
        }
    }
  }

  lemma BaseNextJoin(w: World, allowed: set<int>, e: Event)
    requires Base(w, allowed) && e.Join? && e.id !in w.regs && Populated(w.g.groups, e.group)
    ensures Base(Step(w, e), allowed)
  {
    if ListenError(w.g, e.name, e.group, e.groupKey, e.addr, e.port, e.env).None? {
      var g := w.g.groups[e.group];
      var g' := g.(lns := g.lns + [e.id]);
      OwnedNext(w.regs, w.g.groups, w.owner, e.id, e.group, g');
      MembersJoin(w.g.groups, w.regs, e.id, e.group, g');
    }
  }

  lemma NewEntryMembers(groups: Groups, regs: map<nat, Reg>, name: Name)
    requires MembersAre(groups, regs) && name !in groups
    ensures MembersAre(groups[name := NEW_GROUP], regs)
  {
  }

  lemma NewEntryStep(w: World, e: Event)
    requires e.Join? && e.id !in w.regs && e.group !in w.g.groups
    ensures Step(w.(g := w.g.(groups := w.g.groups[e.group := NEW_GROUP])), e) == Step(w, e)
  {
    assert w.g.groups[e.group := NEW_GROUP][e.group := NEW_GROUP] == w.g.groups[e.group := NEW_GROUP];
  }

  lemma BaseJoin(w: World, allowed: set<int>, e: Event)
    requires Base(w, allowed) && e.Join? && Honest(w, e) && e.id !in w.regs
    ensures Base(Step(w, e), allowed)
  {
    if Populated(w.g.groups, e.group) {
      BaseNextJoin(w, allowed, e);
    } else if e.group in w.g.groups {
      BaseFirstJoin(w, allowed, e);
    } else {
      OwnedEntry(w.regs, w.g.groups, w.owner, e.group);
      NewEntryMembers(w.g.groups, w.regs, e.group);
      BaseFirstJoin(w.(g := w.g.(groups := w.g.groups[e.group := NEW_GROUP])), allowed, e);
      NewEntryStep(w, e);
    }
  }

  lemma BaseFree(w: World, allowed: set<int>, id: nat, now: int)
    requires Base(w, allowed) && id in w.regs && !w.regs[id].InGroup?
    ensures Base(FreePort(w, id, w.regs[id].port, now), allowed)
  {
    Spec.ReleaseKeeps(w.g.ports, allowed, w.regs[id].port, now);
    OwnedFreed(w.regs, w.g.groups, w.owner, id);
    MembersFreed(w.g.groups, w.regs, id);
  }

  lemma BaseLeave(w: World, allowed: set<int>, id: nat, now: int)
    requires Base(w, allowed) && id in w.regs && w.regs[id].InGroup?
    ensures Base(Step(w, Close(id, now)), allowed)
  {
    var group := w.regs[id].group;
    var g := w.g.groups[group];
    var g' := g.(lns := Without(g.lns, id));
    assert Populated(w.g.groups, group);
    MembersLeave(w.g.groups, w.regs, id, group, g');
    if g'.lns == [] {
      Spec.ReleaseKeeps(w.g.ports, allowed, g.realPort, now);
      OwnedLast(w.regs, w.g.groups, w.owner, id, group);
    } else {
      OwnedStays(w.regs, w.g.groups, w.owner, id, group, g');
    }
  }

  lemma BaseBound(w: World, allowed: set<int>, id: nat)
    requires Base(w, allowed) && id in w.regs && w.regs[id].Binding?
    ensures Base(w.(regs := w.regs[id := Listening(w.regs[id].port)]), allowed)
  {
    var regs := w.regs[id := Listening(w.regs[id].port)];
    assert Owned(regs, w.g.groups, w.owner);
    assert MembersAre(w.g.groups, regs);
  }

  lemma BaseCleaned(w: World, allowed: set<int>, now: int)
    requires Base(w, allowed)
    ensures Base(w.(g := w.g.(ports := Spec.Clean(w.g.ports, now))), allowed)
  {
    Spec.CleanKeeps(w.g.ports, allowed, now);
  }

  lemma StepBase(w: World, allowed: set<int>, e: Event)
    requires Base(w, allowed) && Honest(w, e)
    ensures Base(Step(w, e), allowed)
  {
    match e {
      case Acquire(id, _, _, _) => if id !in w.regs { BaseAcquire(w, allowed, e); }
      case Bind(id, env) =>
        if id in w.regs && w.regs[id].Binding? {
          if env.bindOk { BaseBound(w, allowed, id); } else { BaseFree(w, allowed, id, env.now); }
        }
      case Join(id, _, _, _, _, _, _) => if id !in w.regs { BaseJoin(w, allowed, e); }
      case Close(id, now) =>
        if id in w.regs && w.regs[id].Listening? { BaseFree(w, allowed, id, now); }
        else if id in w.regs && w.regs[id].InGroup? { BaseLeave(w, allowed, id, now); }
      case Clean(now) => BaseCleaned(w, allowed, now);
    }
  }

  lemma HonestPrefix(allowed: set<int>, events: seq<Event>, n: nat)
    requires HonestRun(allowed, events) && n <= |events|
    ensures HonestRun(allowed, events[..n]) && forall k :: 0 <= k <= n ==> events[..n][..k] == events[..k]
  {
    forall i | 0 <= i < n ensures Honest(Exec(allowed, events[..n][..i]), events[..n][i]) {
      assert events[..n][..i] == events[..i];
    }
  }

  /** Whatever the operating system answers, every used port is held for a proxy or group that claims it, or leaked. */
  lemma {:induction false} AlwaysBase(allowed: set<int>, events: seq<Event>)
    requires 0 !in allowed && HonestRun(allowed, events)
    ensures Base(Exec(allowed, events), allowed)
  {
    if events != [] {
      var n := |events| - 1;
      HonestPrefix(allowed, events, n);
      AlwaysBase(allowed, events[..n]);
      StepBase(Exec(allowed, events[..n]), allowed, events[n]);
    }
  }

  /** In no step of the run is a port taken that someone still holds. */
  ghost predicate NeverTakenTwice(allowed: set<int>, events: seq<Event>)
  {
    forall i :: 0 <= i < |events| ==> !TakenTwice(Exec(allowed, events[..i]), events[i])
  }

  lemma {:induction false} AlwaysInv(allowed: set<int>, events: seq<Event>)
    requires 0 !in allowed && HonestRun(allowed, events) && NeverTakenTwice(allowed, events)
    ensures Inv(Exec(allowed, events), allowed)
  {
    if events != [] {
      var n := |events| - 1;
      HonestPrefix(allowed, events, n);
      assert NeverTakenTwice(allowed, events[..n]) by {
        forall i | 0 <= i < n ensures !TakenTwice(Exec(allowed, events[..n][..i]), events[..n][i]) {
          assert events[..n][..i] == events[..i];
        }
      }
      AlwaysInv(allowed, events[..n]);
      assert !TakenTwice(Exec(allowed, events[..n]), events[n]);
      StepKeeps(Exec(allowed, events[..n]), allowed, events[n]);
    }
  }

  // ----- what it means for the ports in use

  /** The run ends in w. */
  ghost predicate Reaches(allowed: set<int>, events: seq<Event>, w: World)
  {
    0 !in allowed && HonestRun(allowed, events) && Exec(allowed, events) == w
  }

  /** The port of each ungrouped proxy, registering or registered. */
  ghost function ProxyPorts(regs: map<nat, Reg>): map<nat, int>
  {
    map id | id in regs && !regs[id].InGroup? :: regs[id].port
  }

  ghost function GroupPorts(groups: Groups): map<Name, int>
  {
    map n | n in groups && Populated(groups, n) :: groups[n].realPort
  }

  ghost function LeakedPorts(owner: map<int, Owner>): set<int>
  {
    set p | p in owner && owner[p].Leaked?
  }

  ghost predicate Injective<A>(m: map<A, int>)
  {
    forall a, b :: a in m && b in m && m[a] == m[b] ==> a == b
  }

  lemma {:induction false} InjectiveCard<A>(m: map<A, int>)
    requires Injective(m)
    ensures |m.Values| == |m|
    decreases |m|
  {
    if m != map[] {
      var a :| a in m;
      var rest := m - {a};
      InjectiveCard(rest);
      assert rest.Values == m.Values - {m[a]} by {
        forall v | v in m.Values - {m[a]} ensures v in rest.Values {
          var b :| b in m && m[b] == v;
          assert b in rest && rest[b] == v;
        }
      }
      assert m[a] in m.Values;
      assert |rest| == |m| - 1 by { assert rest.Keys == m.Keys - {a}; }
    } else {
      assert m.Values == {};
    }
  }

  /**
   As long as no held port is taken again, the ports in use are, without overlap: one per ungrouped
   proxy registering or registered, one per group with members, and those a failed group listen left behind.
   */
  lemma PortsAccounted(allowed: set<int>, events: seq<Event>, w: World)
    requires Reaches(allowed, events, w) && NeverTakenTwice(allowed, events)
    ensures var used := w.g.ports.used.Keys;
            var proxies, groups, leaked := ProxyPorts(w.regs), GroupPorts(w.g.groups), LeakedPorts(w.owner);
            && used == proxies.Values + groups.Values + leaked
            && |used| == |proxies| + |groups| + |leaked|
  {
    AlwaysInv(allowed, events);
    CountPorts(w, allowed);
  }

  lemma CountPorts(w: World, allowed: set<int>)
    requires Inv(w, allowed)
    ensures var used := w.g.ports.used.Keys;
            var proxies, groups, leaked := ProxyPorts(w.regs), GroupPorts(w.g.groups), LeakedPorts(w.owner);
            && used == proxies.Values + groups.Values + leaked
            && |used| == |proxies| + |groups| + |leaked|
  {
    var proxies, groups := ProxyPorts(w.regs), GroupPorts(w.g.groups);
    PortsByOwner(w, allowed);
    SplitByOwner(w.owner, proxies.Values, groups.Values);
    InjectiveCard(proxies);
    InjectiveCard(groups);
  }

  lemma SplitByOwner(owner: map<int, Owner>, proxies: set<int>, groups: set<int>)
    requires forall p :: p in proxies <==> p in owner && owner[p].Proxy?
    requires forall p :: p in groups <==> p in owner && owner[p].Group?
    ensures owner.Keys == proxies + groups + LeakedPorts(owner)
    ensures |owner.Keys| == |proxies| + |groups| + |LeakedPorts(owner)|
  {
    forall p: int | p in proxies + groups + LeakedPorts(owner) ensures p in owner {
    }
    forall p: int | p in owner ensures p in proxies + groups + LeakedPorts(owner) {
    }
    assert owner.Keys == proxies + groups + LeakedPorts(owner);
    assert proxies * groups == {} by {
      forall p: int | p in proxies ensures p !in groups {
      }
    }
    assert (proxies + groups) * LeakedPorts(owner) == {} by {
      forall p: int | p in proxies + groups ensures p !in LeakedPorts(owner) {
      }
    }
  }

  lemma PortsByOwner(w: World, allowed: set<int>)
    requires Inv(w, allowed)
    ensures forall p :: p in ProxyPorts(w.regs).Values <==> p in w.owner && w.owner[p].Proxy?
    ensures forall p :: p in GroupPorts(w.g.groups).Values <==> p in w.owner && w.owner[p].Group?
    ensures Injective(ProxyPorts(w.regs)) && Injective(GroupPorts(w.g.groups))
  {
    var proxies, groups := ProxyPorts(w.regs), GroupPorts(w.g.groups);
    forall p | p in w.owner && w.owner[p].Proxy? ensures p in proxies.Values {
      assert HoldsPort(w.regs, w.owner[p].id, p);
      assert w.owner[p].id in proxies && proxies[w.owner[p].id] == p;
    }
    forall p | p in w.owner && w.owner[p].Group? ensures p in groups.Values {
      assert Populated(w.g.groups, w.owner[p].name);
      assert w.owner[p].name in groups && groups[w.owner[p].name] == p;
    }
    forall n | n in groups ensures groups[n] in w.owner && w.owner[groups[n]] == Group(n) {
      assert Populated(w.g.groups, n);
    }
  }

  // ----- exactly which ports are leaked

  /** A new proxy or group gets the port, or someone releases it. */
  predicate Recovers(w: World, e: Event, p: int)
  {
    Claims(w, e, p) || Freed(w, e) == Some(p)
  }

  lemma LeakStep(w: World, allowed: set<int>, e: Event, p: int)
    requires Base(w, allowed) && Honest(w, e)
    ensures p in LeakedPorts(Step(w, e).owner) <==> Leaks(w, e, p) || (p in LeakedPorts(w.owner) && !Recovers(w, e, p))
  {
    match e {
      case Close(id, _) =>
        if id in w.regs && w.regs[id].InGroup? { assert Populated(w.g.groups, w.regs[id].group); }
      case _ =>
    }
  }

  predicate LeaksAt(allowed: set<int>, events: seq<Event>, i: nat, p: int)
    requires i < |events|
  {
    Leaks(Exec(allowed, events[..i]), events[i], p)
  }

  predicate RecoversAt(allowed: set<int>, events: seq<Event>, i: nat, p: int)
    requires i < |events|
  {
    Recovers(Exec(allowed, events[..i]), events[i], p)
  }

  ghost function LeakTimes(allowed: set<int>, events: seq<Event>, p: int): set<int>
  {
    set i | 0 <= i < |events| && LeaksAt(allowed, events, i, p)
  }

  ghost function RecoverTimes(allowed: set<int>, events: seq<Event>, p: int): set<int>
  {
    set i | 0 <= i < |events| && RecoversAt(allowed, events, i, p)
  }

  /** Some leak comes after every recovery. */
  ghost predicate ForGood(leaks: set<int>, recoveries: set<int>)
  {
    exists i :: i in leaks && forall j :: j in recoveries ==> j <= i
  }

  /** At some point the port leaks, and nothing after that recovers it. */
  ghost predicate LeaksForGood(allowed: set<int>, events: seq<Event>, p: int)
  {
    ForGood(LeakTimes(allowed, events, p), RecoverTimes(allowed, events, p))
  }

  /** A port is leaked if and only if a group's first listen failed on it when it was free and nothing has recovered it since. */
  lemma {:induction false} LeakedIff(allowed: set<int>, events: seq<Event>, p: int)
    requires 0 !in allowed && HonestRun(allowed, events)
    ensures p in LeakedPorts(Exec(allowed, events).owner) <==> LeaksForGood(allowed, events, p)
  {
    if events != [] {
      var n := |events| - 1;
      HonestPrefix(allowed, events, n);
      LeakedIff(allowed, events[..n], p);
      AlwaysBase(allowed, events[..n]);
      assert Honest(Exec(allowed, events[..n]), events[n]);
      LeakStep(Exec(allowed, events[..n]), allowed, events[n], p);
      LeakHistory(allowed, events, n, p);
    }
  }

  ghost predicate Claimed(w: World, p: int)
  {
    p in ProxyPorts(w.regs).Values || p in GroupPorts(w.g.groups).Values
  }

  lemma ClaimOfOwner(w: World, allowed: set<int>, p: int)
    requires Base(w, allowed) && HeldBySomeone(w.owner, p)
    ensures Claimed(w, p)
  {
    match w.owner[p] {
      case Proxy(id) =>
        assert HoldsPort(w.regs, id, p);
        assert id in ProxyPorts(w.regs) && ProxyPorts(w.regs)[id] == p;
      case Group(name) =>
        assert Populated(w.g.groups, name);
        assert name in GroupPorts(w.g.groups) && GroupPorts(w.g.groups)[name] == p;
    }
  }

  /** A port that no proxy and no group claims is in use if and only if it leaked, in this sense. */
  lemma UnclaimedInUseIff(allowed: set<int>, events: seq<Event>, w: World, p: int)
    requires Reaches(allowed, events, w) && !Claimed(w, p)
    ensures p in w.g.ports.used <==> LeaksForGood(allowed, events, p)
  {
    AlwaysBase(allowed, events);
    LeakedIff(allowed, events, p);
    if p in w.g.ports.used && !w.owner[p].Leaked? { ClaimOfOwner(w, allowed, p); }
  }

  /** Without a second grant of a held port, the leaked ports are exactly those in use that nobody claims. */
  lemma LeakedIsUnclaimed(allowed: set<int>, events: seq<Event>, w: World, p: int)
    requires Reaches(allowed, events, w) && NeverTakenTwice(allowed, events)
    ensures LeaksForGood(allowed, events, p) <==> p in w.g.ports.used && !Claimed(w, p)
  {
    LeakedIff(allowed, events, p);
    AlwaysInv(allowed, events);
    PortsByOwner(w, allowed);
    InvIsBase(w, allowed);
    if p in w.g.ports.used && !Claimed(w, p) { UnclaimedInUseIff(allowed, events, w, p); }
  }

  lemma SameInPrefix(allowed: set<int>, events: seq<Event>, n: nat, i: nat, p: int)
    requires i < n <= |events|
    ensures LeaksAt(allowed, events[..n], i, p) <==> LeaksAt(allowed, events, i, p)
    ensures RecoversAt(allowed, events[..n], i, p) <==> RecoversAt(allowed, events, i, p)
  {
    assert events[..n][..i] == events[..i];
  }

  lemma LeakHistory(allowed: set<int>, events: seq<Event>, n: nat, p: int)
    requires |events| == n + 1
    ensures LeaksForGood(allowed, events, p) <==>
      LeaksAt(allowed, events, n, p) || (LeaksForGood(allowed, events[..n], p) && !RecoversAt(allowed, events, n, p))
  {
    var before := events[..n];
    forall i: int | 0 <= i < n
      ensures i in LeakTimes(allowed, before, p) <==> i in LeakTimes(allowed, events, p)
      ensures i in RecoverTimes(allowed, before, p) <==> i in RecoverTimes(allowed, events, p)
    {
      SameInPrefix(allowed, events, n, i, p);
    }
    TimesGrow(LeakTimes(allowed, before, p), RecoverTimes(allowed, before, p),
              LeakTimes(allowed, events, p), RecoverTimes(allowed, events, p), n);
  }

  lemma TimesGrow(leaks: set<int>, recoveries: set<int>, leaks': set<int>, recoveries': set<int>, n: int)
    requires forall i :: i in leaks' ==> i <= n
    requires forall i :: i in recoveries' ==> i <= n
    requires forall i :: i in leaks <==> i in leaks' && i < n
    requires forall i :: i in recoveries <==> i in recoveries' && i < n
    ensures ForGood(leaks', recoveries') <==> n in leaks' || (ForGood(leaks, recoveries) && n !in recoveries')
  {
    if ForGood(leaks', recoveries') && n !in leaks' {
      var i :| i in leaks' && forall j :: j in recoveries' ==> j <= i;
      assert i in leaks && forall j :: j in recoveries ==> j <= i;
    }
    if ForGood(leaks, recoveries) && n !in recoveries' {
      var i :| i in leaks && forall j :: j in recoveries ==> j <= i;
      assert i in leaks' && forall j :: j in recoveries' ==> j <= i;
    }
  }

  // ----- exactly when every port in use has one proxy or group of its own

  /** The ports in use are one per ungrouped proxy and one per group with members, no two the same. */
  ghost predicate OnePortEach(w: World)
  {
    && w.g.ports.used.Keys == ProxyPorts(w.regs).Values + GroupPorts(w.g.groups).Values
    && |w.g.ports.used.Keys| == |ProxyPorts(w.regs)| + |GroupPorts(w.g.groups)|
  }

  lemma InvWithoutLeaks(w: World, allowed: set<int>)
    requires Inv(w, allowed) && LeakedPorts(w.owner) == {}
    ensures OnePortEach(w)
  {
    CountPorts(w, allowed);
  }

  lemma RightGrantKeeps(w: World, allowed: set<int>, e: Event)
    requires Inv(w, allowed) && LeakedPorts(w.owner) == {} && Honest(w, e) && !Misgrants(w, e)
    ensures Inv(Step(w, e), allowed) && LeakedPorts(Step(w, e).owner) == {}
  {
    StepKeeps(w, allowed, e);
    InvIsBase(w, allowed);
    forall p: int | p in LeakedPorts(Step(w, e).owner) ensures false {
      LeakStep(w, allowed, e, p);
    }
  }

  lemma InvIsBase(w: World, allowed: set<int>)
    requires Inv(w, allowed)
    ensures Base(w, allowed)
  {
  }

  lemma OneMore<A>(m: map<A, int>, a: A, p: int)
    requires a !in m
    ensures |m[a := p]| == |m| + 1
  {
    assert m[a := p].Keys == m.Keys + {a};
  }

  /** A port that is granted is in use afterwards, and nothing else changes in that. */
  lemma GrantUses(w: World, e: Event)
    requires Granted(w, e).Some?
    ensures Step(w, e).g.ports.used.Keys == w.g.ports.used.Keys + {Granted(w, e).value}
  {
  }

  lemma ClaimAdds(w: World, e: Event)
    requires Granted(w, e).Some?
    ensures var w', p := Step(w, e), Granted(w, e).value;
      && (e.Acquire? ==> w'.regs == w.regs[e.id := Binding(p)] && w'.g.groups == w.g.groups)
      && (e.Join? && !e.env.bindOk ==> w'.regs == w.regs)
      && (e.Join? && e.env.bindOk ==> w'.regs == w.regs[e.id := InGroup(e.group)] && !Populated(w.g.groups, e.group))
      && (e.Join? && e.env.bindOk ==> w'.g.groups == w.g.groups[e.group := TcpGroup(e.groupKey, e.addr, e.port, p, [e.id])])
      && e.id !in w.regs && (e.Acquire? || e.Join?)
  {
  }

  lemma FailedListenAdds(w: World, e: Event)
    requires Granted(w, e).Some? && e.Join? && !e.env.bindOk
    ensures GroupPorts(Step(w, e).g.groups) == GroupPorts(w.g.groups)
  {
    var groups, groups' := w.g.groups, Step(w, e).g.groups;
    assert forall n :: Populated(groups', n) <==> Populated(groups, n);
  }

  lemma ProxyAdds(regs: map<nat, Reg>, id: nat, p: int)
    requires id !in regs
    ensures |ProxyPorts(regs[id := Binding(p)])| == |ProxyPorts(regs)| + 1
  {
    assert ProxyPorts(regs[id := Binding(p)]) == ProxyPorts(regs)[id := p];
    OneMore(ProxyPorts(regs), id, p);
  }

  lemma MemberAdds(regs: map<nat, Reg>, id: nat, name: Name)
    requires id !in regs
    ensures ProxyPorts(regs[id := InGroup(name)]) == ProxyPorts(regs)
  {
  }

  lemma GroupAdds(groups: Groups, name: Name, g: TcpGroup)
    requires !Populated(groups, name) && g.lns != []
    ensures |GroupPorts(groups[name := g])| == |GroupPorts(groups)| + 1
  {
    assert GroupPorts(groups[name := g]) == GroupPorts(groups)[name := g.realPort] by {
      assert forall n :: n != name ==> (Populated(groups[name := g], n) <==> Populated(groups, n));
    }
    OneMore(GroupPorts(groups), name, g.realPort);
  }

  /** A held port that is taken again has two claims; one granted to nobody has none. */
  lemma MisgrantBreaks(w: World, e: Event)
    requires OnePortEach(w) && Misgrants(w, e)
    ensures !OnePortEach(Step(w, e))
  {
    var p := Granted(w, e).value;
    GrantUses(w, e);
    ClaimAdds(w, e);
    if e.Acquire? {
      ProxyAdds(w.regs, e.id, p);
    } else if e.env.bindOk {
      MemberAdds(w.regs, e.id, e.group);
      GroupAdds(w.g.groups, e.group, TcpGroup(e.groupKey, e.addr, e.port, p, [e.id]));
    } else {
      FailedListenAdds(w, e);
    }
    if p in w.g.ports.used {
      assert w.g.ports.used.Keys + {p} == w.g.ports.used.Keys;
    } else {
      assert |w.g.ports.used.Keys + {p}| == |w.g.ports.used.Keys| + 1;
    }
  }

  predicate MisgrantsAt(allowed: set<int>, events: seq<Event>, i: nat)
    requires i < |events|
  {
    Misgrants(Exec(allowed, events[..i]), events[i])
  }

  ghost predicate NeverMisgrants(allowed: set<int>, events: seq<Event>)
  {
    forall i :: 0 <= i < |events| ==> !MisgrantsAt(allowed, events, i)
  }

  lemma SamePrefixMisgrants(allowed: set<int>, events: seq<Event>, n: nat, i: nat)
    requires i < n <= |events|
    ensures MisgrantsAt(allowed, events[..n], i) <==> MisgrantsAt(allowed, events, i)
  {
    assert events[..n][..i] == events[..i];
  }

  lemma {:induction false} RightGrantsOnly(allowed: set<int>, events: seq<Event>)
    requires 0 !in allowed && HonestRun(allowed, events) && NeverMisgrants(allowed, events)
    ensures Inv(Exec(allowed, events), allowed) && LeakedPorts(Exec(allowed, events).owner) == {}
  {
    if events != [] {
      var n := |events| - 1;
      HonestPrefix(allowed, events, n);
      forall i | 0 <= i < n ensures !MisgrantsAt(allowed, events[..n], i) {
        SamePrefixMisgrants(allowed, events, n, i);
      }
      RightGrantsOnly(allowed, events[..n]);
      assert Honest(Exec(allowed, events[..n]), events[n]);
      assert !MisgrantsAt(allowed, events, n);
      RightGrantKeeps(Exec(allowed, events[..n]), allowed, events[n]);
    }
  }

  ghost predicate AlwaysOnePortEach(allowed: set<int>, events: seq<Event>)
  {
    forall k :: 0 <= k <= |events| ==> OnePortEach(Exec(allowed, events[..k]))
  }

  /**
   At every point of a run each proxy and each group has one port in use of its own and no other port is
   in use, if and only if no grant in the run takes a held port or is lost to a failed listen.
   */
  lemma OnePortEachIff(allowed: set<int>, events: seq<Event>)
    requires 0 !in allowed && HonestRun(allowed, events)
    ensures AlwaysOnePortEach(allowed, events) <==> NeverMisgrants(allowed, events)
  {
    if NeverMisgrants(allowed, events) {
      forall k | 0 <= k <= |events| ensures OnePortEach(Exec(allowed, events[..k])) {
        PrefixNeverMisgrants(allowed, events, k);
      }
    } else {
      var i := FirstMisgrant(allowed, events);
      PrefixNeverMisgrants(allowed, events, i);
      MisgrantBreaks(Exec(allowed, events[..i]), events[i]);
      assert events[..i + 1][..i] == events[..i];
      assert !OnePortEach(Exec(allowed, events[..i + 1]));
    }
  }

  lemma PrefixNeverMisgrants(allowed: set<int>, events: seq<Event>, k: nat)
    requires 0 !in allowed && HonestRun(allowed, events) && k <= |events|
    requires forall i :: 0 <= i < k ==> !MisgrantsAt(allowed, events, i)
    ensures OnePortEach(Exec(allowed, events[..k]))
  {
    HonestPrefix(allowed, events, k);
    forall i | 0 <= i < k ensures !MisgrantsAt(allowed, events[..k], i) {
      SamePrefixMisgrants(allowed, events, k, i);
    }
    RightGrantsOnly(allowed, events[..k]);
    InvWithoutLeaks(Exec(allowed, events[..k]), allowed);
  }

  lemma {:induction false} Least(s: set<int>, k: int) returns (i: int)
    requires k in s
    ensures i in s && forall j: int :: j in s ==> i <= j
    decreases |s|
  {
    i := k;
    if j: int :| j in s && j < k {
      assert |s - {k}| < |s|;
      i := Least(s - {k}, j);
      assert j in s - {k} && i < k;
      forall l: int | l in s ensures i <= l {
        assert l == k || l in s - {k};
      }
    }
  }

  lemma FirstMisgrant(allowed: set<int>, events: seq<Event>) returns (i: nat)
    requires !NeverMisgrants(allowed, events)
    ensures i < |events| && MisgrantsAt(allowed, events, i)
    ensures forall j :: 0 <= j < i ==> !MisgrantsAt(allowed, events, j)
  {
    var times := set j | 0 <= j < |events| && MisgrantsAt(allowed, events, j);
    var k :| 0 <= k < |events| && MisgrantsAt(allowed, events, k);
    i := Least(times, k);
    forall j | 0 <= j < i ensures !MisgrantsAt(allowed, events, j) {
      assert j !in times;
    }
  }

  // ----- the members of a group asked for the same

  /** id is registered through event i, and has been ever since. */
  ghost predicate JoinedAt(allowed: set<int>, events: seq<Event>, i: nat, id: nat)
  {
    && i < |events| && events[i].Join? && events[i].id == id && id !in Exec(allowed, events[..i]).regs
    && forall k :: i < k <= |events| ==> id in Exec(allowed, events[..k]).regs
  }

  predicate AskedFor(e: Event, group: Name, g: TcpGroup)
  {
    e.Join? && e.group == group && e.addr == g.addr && e.port == g.port && e.groupKey == g.groupKey
  }

  ghost predicate JoinedAsking(allowed: set<int>, events: seq<Event>, id: nat, group: Name, g: TcpGroup)
  {
    exists i: nat :: JoinedAt(allowed, events, i, id) && AskedFor(events[i], group, g)
  }

  predicate IsMember(groups: Groups, group: Name, id: nat)
  {
    group in groups && id in groups[group].lns
  }

  /** A step either lets a member in, on the group's terms, or leaves it in a group whose terms have not changed. */
  lemma MemberStep(w: World, allowed: set<int>, e: Event, group: Name, id: nat)
    requires Base(w, allowed) && IsMember(Step(w, e).g.groups, group, id)
    ensures var g' := Step(w, e).g.groups[group];
      || (IsMember(w.g.groups, group, id)
          && w.g.groups[group].(lns := g'.lns) == g')
      || (id !in w.regs && e.Join? && e.id == id && AskedFor(e, group, g'))
  {
    match e {
      case Join(j, name, n, groupKey, addr, port, env) =>
        if j !in w.regs {
          if Populated(w.g.groups, n) {
            LaterMemberIff(w.g, name, n, groupKey, addr, port, j, env);
          } else {
            FirstMemberIff(w.g, name, n, groupKey, addr, port, j, env);
          }
        }
      case Close(j, _) =>
        if j in w.regs && w.regs[j].InGroup? && w.regs[j].group in w.g.groups {
          WithoutOne(w.g.groups[w.regs[j].group].lns, j);
        }
      case _ =>
    }
  }

  lemma JoinedLater(allowed: set<int>, events: seq<Event>, id: nat, group: Name, g: TcpGroup)
    requires events != [] && id in Exec(allowed, events).regs
    requires JoinedAsking(allowed, events[..|events| - 1], id, group, g)
    ensures JoinedAsking(allowed, events, id, group, g)
  {
    var n := |events| - 1;
    var i: nat :| JoinedAt(allowed, events[..n], i, id) && AskedFor(events[..n][i], group, g);
    assert events[..n][..i] == events[..i];
    forall k | i < k <= |events| ensures id in Exec(allowed, events[..k]).regs {
      if k <= n { assert events[..n][..k] == events[..k]; } else { assert events[..k] == events; }
    }
    assert JoinedAt(allowed, events, i, id) && AskedFor(events[i], group, g);
  }

  lemma JoinedNow(allowed: set<int>, events: seq<Event>, id: nat, group: Name, g: TcpGroup)
    requires events != [] && id !in Exec(allowed, events[..|events| - 1]).regs && id in Exec(allowed, events).regs
    requires events[|events| - 1].Join? && events[|events| - 1].id == id && AskedFor(events[|events| - 1], group, g)
    ensures JoinedAsking(allowed, events, id, group, g)
  {
    var n := |events| - 1;
    assert events[..n + 1] == events;
    assert JoinedAt(allowed, events, n, id) && AskedFor(events[n], group, g);
  }

  lemma StaysOnTerms(allowed: set<int>, events: seq<Event>, id: nat, group: Name, g: TcpGroup, g': TcpGroup)
    requires events != [] && id in Exec(allowed, events).regs && g.(lns := g'.lns) == g'
    requires JoinedAsking(allowed, events[..|events| - 1], id, group, g)
    ensures JoinedAsking(allowed, events, id, group, g')
  {
    SameTerms(allowed, events[..|events| - 1], id, group, g, g');
    JoinedLater(allowed, events, id, group, g');
  }

  /** The member was one before, on the same terms, or has come in on them. */
  ghost predicate StaysOrJoins(w: World, e: Event, w': World, group: Name, id: nat)
  {
    && IsMember(w'.g.groups, group, id) && id in w'.regs
    && (if id in w.regs then IsMember(w.g.groups, group, id) && w.g.groups[group].(lns := w'.g.groups[group].lns) == w'.g.groups[group]
        else e.Join? && e.id == id && AskedFor(e, group, w'.g.groups[group]))
  }

  lemma MemberRegistered(w: World, allowed: set<int>, group: Name, id: nat)
    requires Base(w, allowed) && IsMember(w.g.groups, group, id)
    ensures id in w.regs
  {
  }

  lemma MemberNext(w: World, allowed: set<int>, e: Event, group: Name, id: nat)
    requires Base(w, allowed) && Base(Step(w, e), allowed) && IsMember(Step(w, e).g.groups, group, id)
    ensures StaysOrJoins(w, e, Step(w, e), group, id)
  {
    MemberStep(w, allowed, e, group, id);
    MemberRegistered(Step(w, e), allowed, group, id);
    if IsMember(w.g.groups, group, id) { MemberRegistered(w, allowed, group, id); }
  }

  lemma LastStep(allowed: set<int>, events: seq<Event>, group: Name, id: nat)
    requires 0 !in allowed && HonestRun(allowed, events) && events != []
    requires IsMember(Exec(allowed, events).g.groups, group, id)
    ensures StaysOrJoins(Exec(allowed, events[..|events| - 1]), events[|events| - 1], Exec(allowed, events), group, id)
    ensures HonestRun(allowed, events[..|events| - 1])
  {
    HonestPrefix(allowed, events, |events| - 1);
    AlwaysBase(allowed, events[..|events| - 1]);
    AlwaysBase(allowed, events);
    MemberNext(Exec(allowed, events[..|events| - 1]), allowed, events[|events| - 1], group, id);
  }

  /** In every run each member of a group joined it with the group's address, port and key. */
  lemma {:induction false} MembersAskedForTheSame(allowed: set<int>, events: seq<Event>, group: Name, id: nat)
    requires 0 !in allowed && HonestRun(allowed, events) && IsMember(Exec(allowed, events).g.groups, group, id)
    ensures JoinedAsking(allowed, events, id, group, Exec(allowed, events).g.groups[group])
  {
    var before := events[..|events| - 1];
    LastStep(allowed, events, group, id);
    var g' := Exec(allowed, events).g.groups[group];
    if id in Exec(allowed, before).regs {
      MembersAskedForTheSame(allowed, before, group, id);
      StaysOnTerms(allowed, events, id, group, Exec(allowed, before).g.groups[group], g');
    } else {
      JoinedNow(allowed, events, id, group, g');
    }
  }

  lemma SameTerms(allowed: set<int>, events: seq<Event>, id: nat, group: Name, g: TcpGroup, g': TcpGroup)
    requires JoinedAsking(allowed, events, id, group, g) && g.(lns := g'.lns) == g'
    ensures JoinedAsking(allowed, events, id, group, g')
  {
    var i: nat :| JoinedAt(allowed, events, i, id) && AskedFor(events[i], group, g);
    assert JoinedAt(allowed, events, i, id) && AskedFor(events[i], group, g');
  }
}
