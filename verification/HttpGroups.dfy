/**
 Load-balancing groups of HTTP proxies (server/group/http.go): the members of a
 group share one route of the virtual-host table, and requests rotate over them.
 */
module HttpGroups {
  import opened Wrappers
  import opened Routers

  /** What a route leads to: one proxy object, or whichever member its group picks. */
  datatype Target = ViaProxy(id: nat) | ViaGroup(group: Name)

  datatype GroupError = RouterConfigConflict | GroupParamsInvalid | GroupAuthFailed | ProxyRepeated

  datatype Group = Group(groupKey: string, key: Key, createFuncs: map<Name, nat>, pxyNames: seq<Name>, index: nat)

  const NO_KEY := Key("", "", "")

  const TWO_63 := 0x8000_0000_0000_0000
  const TWO_64 := 0x1_0000_0000_0000_0000

  ghost predicate NoDuplicates(names: seq<Name>)
  {
    forall i, j :: 0 <= i < j < |names| ==> names[i] != names[j]
  }

  /** The name list is duplicate-free and lists exactly the keys of the connection functions. */
  ghost predicate GroupValid(g: Group)
  {
    && NoDuplicates(g.pxyNames)
    && (forall n :: n in g.pxyNames <==> n in g.createFuncs)
    && g.index < TWO_64
  }

  /** A group without members, left by a first registration that failed, has no route parameters. */
  ghost predicate Blank(g: Group)
  {
    g.createFuncs == map[] ==> g.key == NO_KEY
  }

  ghost predicate GroupsValid(groups: map<Name, Group>)
  {
    forall n :: n in groups ==> GroupValid(groups[n]) && Blank(groups[n])
  }

  /** The groups that have members; an empty group may linger in the map but is never observed. */
  ghost function Live(groups: map<Name, Group>): map<Name, Group>
  {
    map n | n in groups && groups[n].createFuncs != map[] :: groups[n]
  }

  ghost function GroupRoute(name: Name, g: Group): Route<Target>
  {
    Route(g.key, ViaGroup(name))
  }

  /** A group's route is in the table iff the group has members. */
  ghost predicate RoutesMatchGroups(table: set<Route<Target>>, live: map<Name, Group>)
  {
    && (forall n :: n in live ==> GroupRoute(n, live[n]) in table)
    && (forall r :: r in table && r.payload.ViaGroup? ==>
          r.payload.group in live && r == GroupRoute(r.payload.group, live[r.payload.group]))
  }

  // ----- the two operations on the abstract value (live groups, table)

  ghost function JoinError(table: set<Route<Target>>, live: map<Name, Group>, proxyName: Name, group: Name,
                           groupKey: string, key: Key): Option<GroupError>
  {
    if group !in live then
      if Registered(table, key) then Some(RouterConfigConflict) else None
    else if live[group].key != key then Some(GroupParamsInvalid)
    else if live[group].groupKey != groupKey then Some(GroupAuthFailed)
    else if proxyName in live[group].createFuncs then Some(ProxyRepeated)
    else None
  }

  /** A later member must agree on the route, then on the key, and bring a new name. */
  predicate Terms(g: Group, proxyName: Name, groupKey: string, key: Key, err: Option<GroupError>)
  {
    && (err == None <==> key == g.key && groupKey == g.groupKey && proxyName !in g.createFuncs)
    && (err == Some(GroupParamsInvalid) <==> key != g.key)
    && (err == Some(GroupAuthFailed) <==> key == g.key && groupKey != g.groupKey)
    && (err == Some(ProxyRepeated) <==> key == g.key && groupKey == g.groupKey && proxyName in g.createFuncs)
  }

  lemma JoinTerms(table: set<Route<Target>>, live: map<Name, Group>, proxyName: Name, group: Name, groupKey: string, key: Key)
    ensures var err := JoinError(table, live, proxyName, group, groupKey, key);
      if group in live then Terms(live[group], proxyName, groupKey, key, err)
      else err == if exists r :: r in table && r.key == key then Some(RouterConfigConflict) else None
  {
  }

  function Joined(g: Group, proxyName: Name, fn: nat): Group
  {
    g.(createFuncs := g.createFuncs[proxyName := fn], pxyNames := g.pxyNames + [proxyName])
  }

  function Remove(names: seq<Name>, name: Name): (out: seq<Name>)
  {
    if names == [] then []
    else if names[0] == name then names[1..]
    else [names[0]] + Remove(names[1..], name)
  }

  function Left(g: Group, proxyName: Name): Group
  {
    g.(createFuncs := g.createFuncs - {proxyName}, pxyNames := Remove(g.pxyNames, proxyName))
  }

  lemma {:induction false} RemoveAppended(names: seq<Name>, name: Name)
    requires name !in names
    ensures Remove(names + [name], name) == names
  {
    if names == [] {
    } else {
      assert (names + [name])[1..] == names[1..] + [name];
      RemoveAppended(names[1..], name);
      assert [names[0]] + names[1..] == names;
    }
  }

  lemma {:induction false} RemoveOne(names: seq<Name>, name: Name)
    requires NoDuplicates(names)
    ensures NoDuplicates(Remove(names, name))
    ensures forall n :: n in Remove(names, name) <==> n in names && n != name
  {
    if names != [] {
      RemoveOne(names[1..], name);
      assert names == [names[0]] + names[1..];
      var rest := Remove(names[1..], name);
      forall j | 0 <= j < |rest| ensures rest[j] != names[0] {
        assert rest[j] in rest;
      }
    }
  }

  /** Leaving right after joining restores the group. */
  lemma LeaveUndoesJoin(g: Group, proxyName: Name, fn: nat)
    requires GroupValid(g) && proxyName !in g.createFuncs
    ensures Left(Joined(g, proxyName, fn), proxyName) == g
  {
    RemoveAppended(g.pxyNames, proxyName);
    assert g.createFuncs[proxyName := fn] - {proxyName} == g.createFuncs;
  }

  lemma LeftValid(g: Group, proxyName: Name)
    requires GroupValid(g) && g.createFuncs - {proxyName} != map[]
    ensures GroupValid(Left(g, proxyName))
  {
    RemoveOne(g.pxyNames, proxyName);
  }

  // ----- how the operations move the invariant

  lemma SetValid(groups: map<Name, Group>, name: Name, g: Group)
    requires GroupsValid(groups) && GroupValid(g) && Blank(g)
    ensures GroupsValid(groups[name := g])
  {
  }

  lemma SetLive(groups: map<Name, Group>, name: Name, g: Group)
    ensures g.createFuncs != map[] ==> Live(groups[name := g]) == Live(groups)[name := g]
    ensures g.createFuncs == map[] && name !in groups ==> Live(groups[name := g]) == Live(groups)
  {
  }

  lemma LiveIs(groups: map<Name, Group>, name: Name)
    requires name in groups
    ensures name in Live(groups) <==> groups[name].createFuncs != map[]
    ensures name in Live(groups) ==> Live(groups)[name] == groups[name]
  {
  }

  lemma DropGroup(groups: map<Name, Group>, name: Name)
    requires GroupsValid(groups)
    ensures GroupsValid(groups - {name})
    ensures Live(groups - {name}) == Live(groups) - {name}
  {
  }

  lemma JoinedValid(g: Group, proxyName: Name, fn: nat)
    requires GroupValid(g) && proxyName !in g.createFuncs
    ensures GroupValid(Joined(g, proxyName, fn))
    ensures Joined(g, proxyName, fn).createFuncs != map[]
  {
    var g' := Joined(g, proxyName, fn);
    assert proxyName in g'.createFuncs;
    assert proxyName !in g.pxyNames;
  }

  lemma NamedGroup(g: Group)
    requires GroupValid(g) && g.pxyNames != []
    ensures |g.createFuncs| > 0
  {
    assert g.pxyNames[0] in g.createFuncs;
  }

  lemma EmptyGroup(g: Group)
    requires GroupValid(g) && |g.createFuncs| == 0
    ensures g.createFuncs == map[] && g.pxyNames == []
  {
    if g.pxyNames != [] { NamedGroup(g); }
  }

  lemma FirstJoins(table: set<Route<Target>>, live: map<Name, Group>, name: Name, g: Group)
    requires RoutesMatchGroups(table, live) && name !in live
    ensures RoutesMatchGroups(table + {GroupRoute(name, g)}, live[name := g])
  {
  }

  lemma MembersChange(table: set<Route<Target>>, live: map<Name, Group>, name: Name, g: Group)
    requires RoutesMatchGroups(table, live) && name in live && g.key == live[name].key
    ensures RoutesMatchGroups(table, live[name := g])
  {
  }

  lemma LastLeaves(table: set<Route<Target>>, live: map<Name, Group>, name: Name)
    requires RoutesMatchGroups(table, live) && name in live
    ensures RoutesMatchGroups(table - {GroupRoute(name, live[name])}, live - {name})
  {
  }

  lemma RemoveOwnRoute(table: set<Route<Target>>, r: Route<Target>)
    requires forall x, y :: x in table && y in table && x.key == y.key ==> x == y
    requires r in table
    ensures WithoutKey(table, r.key) == table - {r}
  {
  }

  /** The group is known to the controller but has no members. */
  predicate Lingers(groups: map<Name, Group>, live: map<Name, Group>, group: Name)
  {
    group in groups && group !in live
  }

  /** The live groups after a member leaves, if it is one. */
  function LeftLive(live: map<Name, Group>, proxyName: Name, group: Name): map<Name, Group>
  {
    if group !in live || live[group].createFuncs - {proxyName} == map[] then live - {group}
    else live[group := Left(live[group], proxyName)]
  }

  /** The routes after it: those of a live group go with its last member; a lingering group is removed by its empty key. */
  ghost function LeftTable(table: set<Route<Target>>, live: map<Name, Group>, proxyName: Name, group: Name, known: bool): set<Route<Target>>
  {
    if group in live then
      if live[group].createFuncs - {proxyName} == map[] then table - {GroupRoute(group, live[group])} else table
    else if known then WithoutKey(table, NO_KEY)
    else table
  }

  /** The live groups are those of the controller that have members, and their routes are the group routes of the table. */
  ghost predicate Consistent(groups: map<Name, Group>, live: map<Name, Group>, table: set<Route<Target>>)
  {
    GroupsValid(groups) && live == Live(groups) && RoutesMatchGroups(table, live)
  }

  lemma PutConsistent(groups: map<Name, Group>, live: map<Name, Group>, table: set<Route<Target>>, group: Name, g: Group)
    requires GroupsValid(groups) && live == Live(groups)
    requires GroupValid(g) && g.createFuncs != map[] && RoutesMatchGroups(table, live[group := g])
    ensures Consistent(groups[group := g], live[group := g], table)
  {
    SetValid(groups, group, g);
    SetLive(groups, group, g);
  }

  lemma NewConsistent(groups: map<Name, Group>, live: map<Name, Group>, table: set<Route<Target>>, group: Name)
    requires Consistent(groups, live, table) && group !in groups
    ensures Consistent(groups[group := Group("", NO_KEY, map[], [], 0)], live, table) && group !in live
  {
    SetValid(groups, group, Group("", NO_KEY, map[], [], 0));
    SetLive(groups, group, Group("", NO_KEY, map[], [], 0));
  }

  lemma FirstConsistent(groups: map<Name, Group>, live: map<Name, Group>, table: set<Route<Target>>, group: Name, g: Group)
    requires Consistent(groups, live, table) && group in groups && group !in live
    requires |g.pxyNames| == 1 && g.createFuncs.Keys == {g.pxyNames[0]} && g.index < TWO_64
    ensures Consistent(groups[group := g], live[group := g], table + {GroupRoute(group, g)})
  {
    assert GroupValid(g);
    FirstJoins(table, live, group, g);
    PutConsistent(groups, live, table + {GroupRoute(group, g)}, group, g);
  }

  lemma NextConsistent(groups: map<Name, Group>, live: map<Name, Group>, table: set<Route<Target>>, group: Name,
                       proxyName: Name, fn: nat)
    requires Consistent(groups, live, table) && group in groups && group in live && proxyName !in groups[group].createFuncs
    ensures var g := Joined(groups[group], proxyName, fn); Consistent(groups[group := g], live[group := g], table)
  {
    LiveIs(groups, group);
    JoinedValid(groups[group], proxyName, fn);
    MembersChange(table, live, group, Joined(groups[group], proxyName, fn));
    PutConsistent(groups, live, table, group, Joined(groups[group], proxyName, fn));
  }

  lemma BumpConsistent(groups: map<Name, Group>, live: map<Name, Group>, table: set<Route<Target>>, group: Name, newIndex: nat)
    requires Consistent(groups, live, table) && group in groups && newIndex < TWO_64
    ensures var g := groups[group].(index := newIndex);
      Consistent(groups[group := g], if group in live then live[group := g] else live, table)
  {
    var g := groups[group].(index := newIndex);
    LiveIs(groups, group);
    if group in live {
      MembersChange(table, live, group, g);
      PutConsistent(groups, live, table, group, g);
    } else {
      SetValid(groups, group, g);
      SameLive(groups, group, g);
    }
  }

  lemma StayConsistent(groups: map<Name, Group>, live: map<Name, Group>, table: set<Route<Target>>, group: Name, proxyName: Name)
    requires Consistent(groups, live, table) && group in groups && groups[group].createFuncs - {proxyName} != map[]
    ensures group in live && live[group] == groups[group]
    ensures var g := Left(groups[group], proxyName); Consistent(groups[group := g], live[group := g], table)
  {
    var g := Left(groups[group], proxyName);
    LiveIs(groups, group);
    LeftValid(groups[group], proxyName);
    MembersChange(table, live, group, g);
    PutConsistent(groups, live, table, group, g);
  }

  lemma DropConsistent(groups: map<Name, Group>, live: map<Name, Group>, table: set<Route<Target>>, group: Name)
    requires Consistent(groups, live, table) && group in groups
    ensures group in live ==> live[group] == groups[group]
    ensures group in live ==> Consistent(groups - {group}, live - {group}, table - {GroupRoute(group, live[group])})
    ensures group !in live ==> groups[group].key == NO_KEY && live - {group} == live
    ensures group !in live && !Registered(table, NO_KEY) ==>
      Consistent(groups - {group}, live - {group}, WithoutKey(table, NO_KEY))
  {
    LiveIs(groups, group);
    DropGroup(groups, group);
    if group in live {
      LastLeaves(table, live, group);
    } else {
      assert live - {group} == live;
      NothingRemoved(table, NO_KEY);
    }
  }

  class HttpGroupController {
    const vhostRouter: Routers<Target>
    var groups: map<Name, Group>
    ghost var live: map<Name, Group>  // the groups that have members

    ghost predicate Valid()
      reads this, vhostRouter
    {
      vhostRouter.Valid() && Consistent(groups, live, vhostRouter.table)
    }

    constructor (vhostRouter: Routers<Target>)
      requires vhostRouter.Valid() && vhostRouter.table == {}
      ensures Valid() && this.vhostRouter == vhostRouter && groups == map[] && live == map[]
    {
      this.vhostRouter := vhostRouter;
      groups := map[];
      live := map[];
    }

    /** HTTPGroupController.Register: the group is created on demand. */
    method Register(proxyName: Name, group: Name, groupKey: string, key: Key, fn: nat)
      returns (err: Option<GroupError>)
      requires Valid()
      modifies this, vhostRouter
      ensures Valid()
      ensures err == JoinError(old(vhostRouter.table), old(live), proxyName, group, groupKey, key)
      ensures group !in old(live) ==>
                err == if exists r :: r in old(vhostRouter.table) && r.key == key then Some(RouterConfigConflict) else None
      ensures group in old(live) ==> Terms(old(live)[group], proxyName, groupKey, key, err)
      ensures err.Some? ==> vhostRouter.table == old(vhostRouter.table) && live == old(live)
      ensures err.None? && group in old(live) ==>
                && vhostRouter.table == old(vhostRouter.table)
                && live == old(live)[group := Joined(old(live)[group], proxyName, fn)]
                && live[group].pxyNames == old(live)[group].pxyNames + [proxyName]
                && live[group].createFuncs == old(live)[group].createFuncs[proxyName := fn]
                && live[group].index == old(live)[group].index
      ensures err.None? && group !in old(live) ==>
                && vhostRouter.table == old(vhostRouter.table) + {Route(key, ViaGroup(group))}
                && group in live && live == old(live)[group := live[group]]
                && live[group].(index := 0) == Group(groupKey, key, map[proxyName := fn], [proxyName], 0)
    {
      JoinTerms(vhostRouter.table, live, proxyName, group, groupKey, key);
      if group !in groups {
        NewConsistent(groups, live, vhostRouter.table, group);
        groups := groups[group := Group("", NO_KEY, map[], [], 0)];
      }
      LiveIs(groups, group);
      if |groups[group].createFuncs| == 0 {
        EmptyGroup(groups[group]);
        err := RegisterFirst(proxyName, group, groupKey, key, fn);
      } else {
        err := RegisterNext(proxyName, group, groupKey, key, fn);
      }
    }

    /** HTTPGroup.Register, the first proxy of the group: it brings the route. */
    method RegisterFirst(proxyName: Name, group: Name, groupKey: string, key: Key, fn: nat)
      returns (err: Option<GroupError>)
      requires Valid() && group in groups && group !in live
      requires groups[group].createFuncs == map[] && groups[group].pxyNames == []
      modifies this`groups, this`live, vhostRouter
      ensures Valid()
      ensures err == if Registered(old(vhostRouter.table), key) then Some(RouterConfigConflict) else None
      ensures err.Some? ==> vhostRouter.table == old(vhostRouter.table) && live == old(live)
      ensures err.None? ==>
                && vhostRouter.table == old(vhostRouter.table) + {Route(key, ViaGroup(group))}
                && group in live && live == old(live)[group := live[group]]
                && live[group].(index := 0) == Group(groupKey, key, map[proxyName := fn], [proxyName], 0)
    {
      ghost var table := vhostRouter.table;
      var g := groups[group];
      var conflict := vhostRouter.Add(key, ViaGroup(group));
      if conflict {
        return Some(RouterConfigConflict);
      }
      g := g.(groupKey := groupKey, key := key, createFuncs := g.createFuncs[proxyName := fn], pxyNames := g.pxyNames + [proxyName]);
      FirstConsistent(groups, live, table, group, g);
      groups := groups[group := g];
      live := live[group := g];
      return None;
    }

    /** HTTPGroup.Register, the others: they must agree with the first. */
    method RegisterNext(proxyName: Name, group: Name, groupKey: string, key: Key, fn: nat)
      returns (err: Option<GroupError>)
      requires Valid() && group in groups && group in live
      modifies this`groups, this`live
      ensures Valid()
      ensures err == JoinError(vhostRouter.table, old(live), proxyName, group, groupKey, key)
      ensures live == if err.Some? then old(live) else old(live)[group := Joined(old(live)[group], proxyName, fn)]
    {
      var g := groups[group];
      LiveIs(groups, group);
      if g.key != key {
        return Some(GroupParamsInvalid);
      }
      if g.groupKey != groupKey {
        return Some(GroupAuthFailed);
      }
      if proxyName in g.createFuncs {
        return Some(ProxyRepeated);
      }
      NextConsistent(groups, live, vhostRouter.table, group, proxyName, fn);
      g := g.(createFuncs := g.createFuncs[proxyName := fn], pxyNames := g.pxyNames + [proxyName]);
      groups := groups[group := g];
      live := live[group := g];
      return None;
    }

    /**
     UnRegister. A missing group or a name that is not a member is tolerated. An empty group, left by a first
     registration that failed, takes the route without parameters with it, should someone have one.
     */
    method UnRegister(proxyName: Name, group: Name)
      requires Valid()
      modifies this, vhostRouter
      ensures !Lingers(old(groups), old(live), group) || !Registered(old(vhostRouter.table), NO_KEY) ==> Valid()
      ensures vhostRouter.Valid()
      ensures live == LeftLive(old(live), proxyName, group)
      ensures vhostRouter.table == LeftTable(old(vhostRouter.table), old(live), proxyName, group, group in old(groups))
      ensures group in groups <==> group in live
    {
      if group !in groups {
        return;
      }
      var g := groups[group];
      LiveIs(groups, group);
      var createFuncs := g.createFuncs - {proxyName};
      if |createFuncs| == 0 {
        assert createFuncs == map[];
        DropAll(group);
      } else {
        Stay(group, proxyName);
      }
    }

    /** The other members stay. */
    method Stay(group: Name, proxyName: Name)
      requires Valid() && group in groups && groups[group].createFuncs - {proxyName} != map[]
      modifies this`groups, this`live
      ensures Valid() && group in groups && group in old(live)
      ensures live == old(live)[group := Left(old(live)[group], proxyName)]
    {
      var g := groups[group];
      var names := DropName(g.pxyNames, proxyName);
      StayConsistent(groups, live, vhostRouter.table, group, proxyName);
      g := g.(createFuncs := g.createFuncs - {proxyName}, pxyNames := names);
      groups := groups[group := g];
      live := live[group := g];
    }

    /** The group is removed from the controller and its route from the table. */
    method DropAll(group: Name)
      requires Valid() && group in groups
      modifies this, vhostRouter
      ensures !Lingers(old(groups), old(live), group) || !Registered(old(vhostRouter.table), NO_KEY) ==> Valid()
      ensures vhostRouter.Valid() && group !in groups && live == old(live) - {group}
      ensures vhostRouter.table == if group in old(live) then old(vhostRouter.table) - {GroupRoute(group, old(live)[group])}
                                   else WithoutKey(old(vhostRouter.table), NO_KEY)
    {
      var g := groups[group];
      DropConsistent(groups, live, vhostRouter.table, group);
      if group in live {
        vhostRouter.UniqueKeys();
        RemoveOwnRoute(vhostRouter.table, GroupRoute(group, g));
      }
      vhostRouter.Del(g.key);
      groups := groups - {group};
      live := live - {group};
    }

    /**
     HTTPGroup.createConn: the shared counter is bumped first, then read as a signed integer.
     From 2^63 on that integer is negative and, unless divisible, indexes the list out of range.
     */
    method CreateConn(group: Name) returns (choice: Choice)
      requires Valid() && group in groups
      modifies this`groups, this`live
      ensures Valid() && groups == old(groups)[group := Bumped(old(groups)[group])]
      ensures choice == ChoiceAt(old(groups)[group], Bumped(old(groups)[group]).index)
    {
      var g := groups[group];
      var newIndex := (g.index + 1) % TWO_64;
      Bump(group, newIndex);
      choice := Choose(g, newIndex);
    }

    method Bump(group: Name, newIndex: nat)
      requires Valid() && group in groups && newIndex < TWO_64
      modifies this`groups, this`live
      ensures Valid() && groups == old(groups)[group := old(groups)[group].(index := newIndex)]
    {
      BumpConsistent(groups, live, vhostRouter.table, group, newIndex);
      var g := groups[group].(index := newIndex);
      groups := groups[group := g];
      if group in live {
        live := live[group := g];
      }
    }
  }

  lemma NothingRemoved(table: set<Route<Target>>, key: Key)
    ensures !Registered(table, key) ==> WithoutKey(table, key) == table
  {
  }

  function Bumped(g: Group): Group
  {
    g.(index := (g.index + 1) % TWO_64)
  }

  function Named(g: Group, name: Name): Choice
  {
    if name in g.createFuncs then Use(g.createFuncs[name]) else NoFunction
  }

  /** The member that a counter value selects: from 2^63 on only a value that is divisible as a negative number. */
  function ChoiceAt(g: Group, index: nat): Choice
  {
    var n := |g.pxyNames|;
    if n == 0 then NoFunction
    else if index < TWO_63 then Named(g, g.pxyNames[index % n])
    else if (TWO_64 - index) % n == 0 then Named(g, g.pxyNames[0])
    else OutOfRange
  }

  /** The counter read as a signed 64-bit integer. */
  function Signed(index: nat): int
  {
    if index < TWO_63 then index else index - TWO_64
  }

  /** The member at the truncated remainder, whose sign is that of the dividend; a negative one is out of range. */
  lemma ChoiceByRemainder(g: Group, index: nat, q: int, r: int)
    requires g.pxyNames != [] && index < TWO_64
    requires Signed(index) == q * |g.pxyNames| + r && -|g.pxyNames| < r < |g.pxyNames|
    requires (Signed(index) >= 0 ==> r >= 0) && (Signed(index) <= 0 ==> r <= 0)
    ensures ChoiceAt(g, index) == if r < 0 then OutOfRange else Named(g, g.pxyNames[r])
  {
    var n := |g.pxyNames|;
    if index < TWO_63 {
      RemainderIs(index, n, q, r);
    } else {
      RemainderIs(TWO_64 - index, n, -q, -r);
    }
  }

  lemma RemainderIs(x: nat, n: nat, q: int, r: nat)
    requires r < n && x == q * n + r
    ensures x % n == r
  {
    var d := x / n - q;
    assert x == (x / n) * n + x % n;
    assert d * n == r - x % n;
    Multiples(d, n);
  }

  lemma Multiples(d: int, n: int)
    requires n >= 0
    ensures (d >= 1 ==> d * n >= n) && (d <= -1 ==> d * n <= -n)
  {
  }

  method Choose(g: Group, newIndex: nat) returns (choice: Choice)
    requires newIndex < TWO_64
    ensures choice == ChoiceAt(g, newIndex)
  {
    if |g.pxyNames| == 0 {
      return NoFunction;
    }
    var signed := if newIndex < TWO_63 then newIndex else newIndex - TWO_64;
    // Go's remainder takes the sign of the dividend
    var at := if signed >= 0 then signed % |g.pxyNames| else -((-signed) % |g.pxyNames|);
    if at < 0 {
      return OutOfRange;
    }
    var name := g.pxyNames[at];
    return if name in g.createFuncs then Use(g.createFuncs[name]) else NoFunction;
  }

  function Later(g: Group, t: nat): Group
  {
    g.(index := (g.index + t) % TWO_64)
  }

  /** The choice of the request after t others, the counter standing at the group's index before the first. */
  function Nth(g: Group, t: nat): Choice
  {
    ChoiceAt(g, (g.index + t + 1) % TWO_64)
  }

  ghost predicate ServedBy(g: Group, choices: seq<Choice>)
  {
    forall t :: 0 <= t < |choices| ==> choices[t] == Nth(g, t)
  }

  lemma LaterNext(g: Group, t: nat)
    ensures Bumped(Later(g, t)) == Later(g, t + 1)
    ensures ChoiceAt(Later(g, t), Bumped(Later(g, t)).index) == Nth(g, t)
  {
    assert ((g.index + t) % TWO_64 + 1) % TWO_64 == (g.index + t + 1) % TWO_64;
  }

  lemma ServedMore(g: Group, choices: seq<Choice>, choice: Choice)
    requires ServedBy(g, choices) && choice == ChoiceAt(Later(g, |choices|), Bumped(Later(g, |choices|)).index)
    ensures ServedBy(g, choices + [choice]) && Bumped(Later(g, |choices|)) == Later(g, |choices| + 1)
  {
    LaterNext(g, |choices|);
  }

  /** Consecutive requests to one group, its membership unchanged meanwhile. */
  method Serve(ctl: HttpGroupController, group: Name, m: nat) returns (choices: seq<Choice>)
    requires ctl.Valid() && group in ctl.groups
    modifies ctl`groups, ctl`live
    ensures ctl.Valid() && |choices| == m && ServedBy(old(ctl.groups)[group], choices)
  {
    choices := [];
    ghost var g := ctl.groups[group];
    assert Later(g, 0) == g by { assert GroupValid(g); }
    for t := 0 to m
      invariant ctl.Valid() && group in ctl.groups && ctl.groups[group] == Later(g, t)
      invariant |choices| == t && ServedBy(g, choices)
    {
      var choice := ctl.CreateConn(group);
      ServedMore(g, choices, choice);
      choices := choices + [choice];
    }
  }

  datatype Choice = Use(fn: nat) | NoFunction | OutOfRange

  lemma SameLive(groups: map<Name, Group>, name: Name, g: Group)
    requires name in groups && name !in Live(groups) && g == groups[name].(index := g.index)
    ensures Live(groups[name := g]) == Live(groups)
  {
  }

  // ----- rotation is fair

  /** The members picked by m consecutive requests on a fixed membership, the counter standing at index. */
  ghost function Choices(names: seq<Name>, index: nat, m: nat): seq<Name>
    requires names != []
  {
    seq(m, t requires 0 <= t < m => names[(index + 1 + t) % |names|])
  }

  /** Below 2^63 the requests are served by the rotation. */
  lemma RotationServes(g: Group, m: nat, t: nat)
    requires GroupValid(g) && g.pxyNames != [] && g.index + m < TWO_63 && t < m
    ensures var n := Choices(g.pxyNames, g.index, m)[t];
      n in g.createFuncs && Nth(g, t) == Use(g.createFuncs[n])
  {
    assert Choices(g.pxyNames, g.index, m)[t] in g.pxyNames;
  }

  /** How many x in [from, from + m) are congruent to j. */
  ghost function Hits(from: nat, m: nat, n: nat, j: nat): nat
    requires n > 0
  {
    if m == 0 then 0 else Hits(from, m - 1, n, j) + if (from + m - 1) % n == j then 1 else 0
  }

  lemma SmallMod(x: nat, n: nat)
    requires x < n
    ensures x % n == x
  {
  }

  lemma {:induction false} HitsFromZero(m: nat, n: nat, j: nat)
    requires m <= n && n > 0
    ensures Hits(0, m, n, j) == if j < m then 1 else 0
  {
    if m > 0 {
      HitsFromZero(m - 1, n, j);
      SmallMod(m - 1, n);
    }
  }

  lemma {:induction false} HitsFront(from: nat, m: nat, n: nat, j: nat)
    requires n > 0
    ensures Hits(from, m + 1, n, j) == Hits(from + 1, m, n, j) + if from % n == j then 1 else 0
  {
    if m > 0 {
      HitsFront(from, m - 1, n, j);
    }
  }

  lemma ModShift(x: nat, n: nat)
    requires n > 0
    ensures (x + n) % n == x % n
  {
    var q, r := x / n, x % n;
    assert x == q * n + r;
    assert x + n == (q + 1) * n + r;
    ModUnique(x + n, q + 1, r, n);
  }

  lemma ModUnique(x: nat, q: int, r: nat, n: nat)
    requires n > 0 && r < n && x == q * n + r
    ensures x % n == r
  {
    var q', r' := x / n, x % n;
    assert x == q' * n + r';
    assert (q - q') * n == r' - r;
    if q - q' >= 1 {
      MultipleAtLeast(q - q', n);
    } else if q' - q >= 1 {
      MultipleAtLeast(q' - q, n);
    }
  }

  lemma MultipleAtLeast(d: int, n: nat)
    requires d >= 1
    ensures d * n >= n
  {
  }

  /** Any n consecutive counter values hit every residue once. */
  lemma {:induction false} WindowHitsOnce(from: nat, n: nat, j: nat)
    requires j < n
    ensures Hits(from, n, n, j) == 1
  {
    if from == 0 {
      HitsFromZero(n, n, j);
    } else {
      WindowHitsOnce(from - 1, n, j);
      HitsFront(from - 1, n, n, j);
      ModShift(from - 1, n);
    }
  }

  lemma {:induction false} HitsSplit(from: nat, a: nat, b: nat, n: nat, j: nat)
    requires n > 0
    ensures Hits(from, a + b, n, j) == Hits(from, a, n, j) + Hits(from + a, b, n, j)
  {
    if b > 0 {
      HitsSplit(from, a, b - 1, n, j);
    }
  }

  lemma {:induction false} WindowsHit(from: nat, k: nat, n: nat, j: nat)
    requires j < n
    ensures Hits(from, k * n, n, j) == k
  {
    if k > 0 {
      WindowsHit(from, k - 1, n, j);
      assert k * n == (k - 1) * n + n;
      HitsSplit(from, (k - 1) * n, n, n, j);
      WindowHitsOnce(from + (k - 1) * n, n, j);
    } else {
      assert k * n == 0;
    }
  }

  lemma {:induction false} CountIsHits(names: seq<Name>, index: nat, m: nat, j: nat)
    requires NoDuplicates(names) && j < |names|
    ensures multiset(Choices(names, index, m))[names[j]] == Hits(index + 1, m, |names|, j)
  {
    if m > 0 {
      CountIsHits(names, index, m - 1, j);
      var last := names[(index + m) % |names|];
      assert Choices(names, index, m) == Choices(names, index, m - 1) + [last];
    }
  }

  /** Rotation is fair: k rounds over n members pick each member exactly k times. */
  lemma FairRotation(g: Group, k: nat, name: Name)
    requires GroupValid(g) && name in g.pxyNames
    ensures multiset(Choices(g.pxyNames, g.index, k * |g.pxyNames|))[name] == k
  {
    var j :| 0 <= j < |g.pxyNames| && g.pxyNames[j] == name;
    CountIsHits(g.pxyNames, g.index, k * |g.pxyNames|, j);
    WindowsHit(g.index + 1, k, |g.pxyNames|, j);
  }

  lemma {:induction false} RemoveFirst(pre: seq<Name>, name: Name, post: seq<Name>)
    requires name !in pre
    ensures Remove(pre + [name] + post, name) == pre + post
  {
    if pre == [] {
      assert pre + [name] + post == [name] + post;
      assert pre + post == post;
    } else {
      assert (pre + [name] + post)[1..] == pre[1..] + [name] + post;
      RemoveFirst(pre[1..], name, post);
      assert [pre[0]] + (pre[1..] + post) == pre + post;
    }
  }

  lemma RemoveNone(names: seq<Name>, name: Name)
    requires name !in names
    ensures Remove(names, name) == names
  {
  }

  /** The slice edit of UnRegister: drop the first occurrence. */
  method DropName(names: seq<Name>, name: Name) returns (out: seq<Name>)
    ensures out == Remove(names, name)
  {
    for i := 0 to |names|
      invariant name !in names[..i]
    {
      if names[i] == name {
        assert names == names[..i] + [name] + names[i + 1..];
        RemoveFirst(names[..i], name, names[i + 1..]);
        return names[..i] + names[i + 1..];
      }
    }
    assert names[..|names|] == names;
    RemoveNone(names, name);
    return names;
  }
}
