/**
 Any number of HTTP proxies, direct and grouped, opening and closing at the same time
 against one routing table. Each registration of one key and each close function is a
 step of its own, so others may come between; the table always is exactly what the
 proxies have registered, whatever the history.
 */
module HttpWorld {
  import opened Wrappers
  import opened Routers
  import opened VhostLookup
  import opened HttpGroups
  import opened HttpProxies

  /** Run in progress, Run succeeded, or the close functions at work. */
  datatype Phase = Opening | Open | Undoing

  /** One proxy: the keys it wants, in order, and those registered and not undone. */
  datatype Reg = Reg(name: Name, conf: HttpConf, wanted: seq<Key>, keys: seq<Key>, phase: Phase)

  /** The proxies by object identity, from the start of Run to the end of Close. */
  datatype World = World(http: Http, regs: map<nat, Reg>)

  datatype Event =
    | Begin(id: nat, name: Name, conf: HttpConf, wanted: seq<Key>)
    | RegisterNext(id: nat, index: nat)
    | Finish(id: nat)
    | StartClose(id: nat)
    | UndoNext(id: nat)

  ghost predicate Refused(h: Http, reg: Reg, key: Key)
  {
    if reg.conf.Grouped() then JoinError(h.table, h.live, reg.name, reg.conf.group, reg.conf.groupKey, key).Some?
    else Registered(h.table, key)
  }

  ghost function Added(h: Http, id: nat, reg: Reg, key: Key, index: nat): Http
  {
    if reg.conf.Grouped() then Join(h, reg.name, id, reg.conf.group, reg.conf.groupKey, key, index)
    else h.(table := h.table + {Route(key, ViaProxy(id))})
  }

  /** A close function: a direct route is deleted by its key, whoever owns it. */
  ghost function Removed(h: Http, reg: Reg, key: Key): Http
  {
    if reg.conf.Grouped() then Leave(h, reg.name, reg.conf.group) else h.(table := WithoutKey(h.table, key))
  }

  predicate CanRegister(w: World, id: nat)
  {
    id in w.regs && w.regs[id].phase == Opening && |w.regs[id].keys| < |w.regs[id].wanted|
  }

  function NextKey(w: World, id: nat): Key
    requires CanRegister(w, id)
  {
    w.regs[id].wanted[|w.regs[id].keys|]
  }

  predicate CanUndo(w: World, id: nat)
  {
    id in w.regs && w.regs[id].phase == Undoing && w.regs[id].keys != []
  }

  predicate InPhase(w: World, id: nat, phase: Phase)
  {
    id in w.regs && w.regs[id].phase == phase
  }

  function WithPhase(w: World, id: nat, phase: Phase): World
    requires id in w.regs
  {
    w.(regs := w.regs[id := w.regs[id].(phase := phase)])
  }

  ghost function Register(w: World, id: nat, index: nat): World
    requires CanRegister(w, id)
  {
    var reg, key := w.regs[id], NextKey(w, id);
    World(Added(w.http, id, reg, key, index), w.regs[id := reg.(keys := reg.keys + [key])])
  }

  ghost function Undo(w: World, id: nat): World
    requires CanUndo(w, id)
  {
    var reg := w.regs[id];
    World(Removed(w.http, reg, reg.keys[0]), w.regs[id := reg.(keys := reg.keys[1..])])
  }

  ghost function Step(w: World, e: Event): World
  {
    match e
    case Begin(id, name, conf, wanted) =>
      if id in w.regs then w else w.(regs := w.regs[id := Reg(name, conf, wanted, [], Opening)])
    case RegisterNext(id, index) =>
      if !CanRegister(w, id) then w
      else if Refused(w.http, w.regs[id], NextKey(w, id)) then WithPhase(w, id, Undoing)
      else Register(w, id, index)
    case Finish(id) =>
      if InPhase(w, id, Opening) && |w.regs[id].keys| == |w.regs[id].wanted| then WithPhase(w, id, Open) else w
    case StartClose(id) =>
      if InPhase(w, id, Open) then WithPhase(w, id, Undoing) else w
    case UndoNext(id) =>
      if CanUndo(w, id) then Undo(w, id)
      else if InPhase(w, id, Undoing) then w.(regs := w.regs - {id})
      else w
  }

  ghost function Exec(events: seq<Event>): World
  {
    if events == [] then World(Http({}, map[]), map[])
    else Step(Exec(events[..|events| - 1]), events[|events| - 1])
  }

  lemma ExecStep(events: seq<Event>, e: Event)
    ensures Exec(events + [e]) == Step(Exec(events), e)
  {
    assert (events + [e])[..|events|] == events;
  }

  // ----- the invariant

  ghost predicate DirectsIn(table: set<Route<Target>>, regs: map<nat, Reg>)
  {
    forall id, k :: id in regs && !regs[id].conf.Grouped() && k in regs[id].keys ==> Route(k, ViaProxy(id)) in table
  }

  ghost predicate DirectsOut(table: set<Route<Target>>, regs: map<nat, Reg>)
  {
    forall r :: r in table && r.payload.ViaProxy? ==>
      r.payload.id in regs && !regs[r.payload.id].conf.Grouped() && r.key in regs[r.payload.id].keys
  }

  ghost predicate IsMember(live: map<Name, Group>, id: nat, reg: Reg)
  {
    && |reg.keys| == 1 && reg.conf.group in live
    && live[reg.conf.group].key == reg.keys[0] && live[reg.conf.group].groupKey == reg.conf.groupKey
    && reg.name in live[reg.conf.group].createFuncs && live[reg.conf.group].createFuncs[reg.name] == id
  }

  ghost predicate MembersIn(live: map<Name, Group>, regs: map<nat, Reg>)
  {
    forall id :: id in regs && regs[id].conf.Grouped() && regs[id].keys != [] ==> IsMember(live, id, regs[id])
  }

  ghost predicate Accounted(regs: map<nat, Reg>, group: Name, g: Group, name: Name)
    requires name in g.createFuncs
  {
    var id := g.createFuncs[name];
    && id in regs && regs[id].conf.Grouped()
    && regs[id].conf.group == group && regs[id].name == name && regs[id].keys == [g.key]
  }

  ghost predicate MembersOut(live: map<Name, Group>, regs: map<nat, Reg>)
  {
    forall group, name :: group in live && name in live[group].createFuncs ==> Accounted(regs, group, live[group], name)
  }

  ghost predicate UniqueIn(table: set<Route<Target>>)
  {
    forall r, s :: r in table && s in table && r.key == s.key ==> r == s
  }

  ghost predicate Distinct(regs: map<nat, Reg>)
  {
    forall id :: id in regs && !regs[id].conf.Grouped() ==> DistinctKeys(regs[id].keys)
  }

  /** A Run registers its keys in order; an open proxy has all of them. */
  predicate InOrder(reg: Reg)
  {
    && (reg.phase.Opening? ==> reg.keys <= reg.wanted)
    && (reg.phase.Open? ==> reg.keys == reg.wanted)
  }

  ghost predicate AllInOrder(regs: map<nat, Reg>)
  {
    forall id :: id in regs ==> InOrder(regs[id])
  }

  ghost predicate Backed(w: World)
  {
    && UniqueIn(w.http.table)
    && LiveValid(w.http.live)
    && RoutesMatchGroups(w.http.table, w.http.live)
    && DirectsIn(w.http.table, w.regs)
    && DirectsOut(w.http.table, w.regs)
    && MembersIn(w.http.live, w.regs)
    && MembersOut(w.http.live, w.regs)
    && Distinct(w.regs)
  }

  ghost predicate Inv(w: World)
  {
    Backed(w) && AllInOrder(w.regs)
  }

  // ----- steps that register and undo nothing

  /** The same registrations; phases and proxies without any key may differ. */
  ghost predicate Alike(a: map<nat, Reg>, b: map<nat, Reg>)
  {
    forall id: nat :: (Holder(a, id) <==> Holder(b, id)) && (Holder(a, id) ==> SameKeys(a[id], b[id]))
  }

  predicate Holder(regs: map<nat, Reg>, id: nat)
  {
    id in regs && regs[id].keys != []
  }

  predicate SameKeys(a: Reg, b: Reg)
  {
    a.name == b.name && a.conf == b.conf && a.keys == b.keys
  }

  lemma AlikeDirects(table: set<Route<Target>>, a: map<nat, Reg>, b: map<nat, Reg>)
    requires DirectsIn(table, a) && DirectsOut(table, a) && Distinct(a) && Alike(a, b)
    ensures DirectsIn(table, b) && DirectsOut(table, b) && Distinct(b)
  {
    forall id, k | id in b && !b[id].conf.Grouped() && k in b[id].keys ensures Route(k, ViaProxy(id)) in table {
      assert Holder(b, id) && Holder(a, id);
    }
    forall r | r in table && r.payload.ViaProxy?
      ensures r.payload.id in b && !b[r.payload.id].conf.Grouped() && r.key in b[r.payload.id].keys
    {
      assert Holder(a, r.payload.id) && Holder(b, r.payload.id);
    }
    forall id | id in b && !b[id].conf.Grouped() ensures DistinctKeys(b[id].keys) {
      if b[id].keys != [] { assert Holder(b, id) && Holder(a, id); }
    }
  }

  lemma AlikeMembers(live: map<Name, Group>, a: map<nat, Reg>, b: map<nat, Reg>)
    requires MembersIn(live, a) && MembersOut(live, a) && Alike(a, b)
    ensures MembersIn(live, b) && MembersOut(live, b)
  {
    forall id | id in b && b[id].conf.Grouped() && b[id].keys != [] ensures IsMember(live, id, b[id]) {
      assert Holder(b, id) && Holder(a, id);
      assert IsMember(live, id, a[id]);
    }
    forall g, n | g in live && n in live[g].createFuncs ensures Accounted(b, g, live[g], n) {
      assert Accounted(a, g, live[g], n);
      assert Holder(a, live[g].createFuncs[n]) && Holder(b, live[g].createFuncs[n]);
    }
  }

  lemma AlikeBacked(w: World, regs: map<nat, Reg>)
    requires Backed(w) && Alike(w.regs, regs)
    ensures Backed(World(w.http, regs))
  {
    AlikeDirects(w.http.table, w.regs, regs);
    AlikeMembers(w.http.live, w.regs, regs);
  }

  // ----- registering one key

  lemma RegisterDirectKeeps(w: World, id: nat, index: nat)
    requires Backed(w) && CanRegister(w, id) && !w.regs[id].conf.Grouped() && !Refused(w.http, w.regs[id], NextKey(w, id))
    ensures Backed(Register(w, id, index))
  {
    var w', key := Register(w, id, index), NextKey(w, id);
    var regs, regs' := w.regs, w'.regs;
    assert UniqueIn(w'.http.table);
    assert DirectsIn(w'.http.table, regs') by {
      forall i, k | i in regs' && !regs'[i].conf.Grouped() && k in regs'[i].keys ensures Route(k, ViaProxy(i)) in w'.http.table {
        assert i in regs && (k in regs[i].keys || (i == id && k == key));
      }
    }
    assert DirectsOut(w'.http.table, regs');
    assert Distinct(regs') by {
      assert key in regs[id].keys ==> Route(key, ViaProxy(id)) in w.http.table;
    }
    OtherMembers(w.http.live, regs, id, regs'[id]);
  }

  /** What a direct proxy does is nothing to the groups. */
  lemma OtherMembers(live: map<Name, Group>, regs: map<nat, Reg>, id: nat, reg: Reg)
    requires MembersIn(live, regs) && MembersOut(live, regs)
    requires id in regs && !regs[id].conf.Grouped() && !reg.conf.Grouped()
    ensures MembersIn(live, regs[id := reg]) && MembersOut(live, regs[id := reg])
  {
    var regs' := regs[id := reg];
    forall i | i in regs' && regs'[i].conf.Grouped() && regs'[i].keys != [] ensures IsMember(live, i, regs'[i]) {
      assert IsMember(live, i, regs[i]);
    }
    forall g, n | g in live && n in live[g].createFuncs ensures Accounted(regs', g, live[g], n) {
      assert Accounted(regs, g, live[g], n);
    }
  }

  lemma LiveSet(live: map<Name, Group>, name: Name, g: Group)
    requires LiveValid(live) && GroupValid(g) && g.createFuncs != map[]
    ensures LiveValid(live[name := g])
  {
  }

  lemma FirstMemberValid(groupKey: string, key: Key, name: Name, id: nat, index: nat)
    requires index < TWO_64
    ensures var g := Group(groupKey, key, map[name := id], [name], index);
            GroupValid(g) && g.createFuncs != map[]
  {
    assert name in map[name := id];
  }

  lemma JoinKeepsTable(w: World, id: nat, index: nat)
    requires Backed(w) && CanRegister(w, id) && w.regs[id].conf.Grouped() && !Refused(w.http, w.regs[id], NextKey(w, id))
    requires index < TWO_64
    ensures var h := Register(w, id, index).http;
            UniqueIn(h.table) && LiveValid(h.live) && RoutesMatchGroups(h.table, h.live)
  {
    var reg, key := w.regs[id], NextKey(w, id);
    var group, live := reg.conf.group, w.http.live;
    if group in live {
      var g := Joined(live[group], reg.name, id);
      JoinedValid(live[group], reg.name, id);
      LiveSet(live, group, g);
      MembersChange(w.http.table, live, group, g);
    } else {
      var g := Group(reg.conf.groupKey, key, map[reg.name := id], [reg.name], index);
      FirstMemberValid(reg.conf.groupKey, key, reg.name, id, index);
      LiveSet(live, group, g);
      FirstJoins(w.http.table, live, group, g);
    }
  }

  /** A grouped proxy that has registered a key is refused any other. */
  lemma OneKeyInGroup(w: World, id: nat)
    requires Backed(w) && CanRegister(w, id) && w.regs[id].conf.Grouped() && !Refused(w.http, w.regs[id], NextKey(w, id))
    ensures w.regs[id].keys == []
  {
    assert w.regs[id].keys != [] ==> IsMember(w.http.live, id, w.regs[id]);
  }

  /** A new member in a live group, or the first of a group. */
  ghost predicate JoinsLive(live: map<Name, Group>, live': map<Name, Group>, id: nat, reg: Reg, key: Key)
  {
    var g := reg.conf.group;
    && live'.Keys == live.Keys + {g}
    && (forall n :: n in live && n != g ==> live'[n] == live[n])
    && live'[g].key == key && live'[g].groupKey == reg.conf.groupKey
    && (if g in live then live[g].key == key && reg.name !in live[g].createFuncs && live'[g].createFuncs == live[g].createFuncs[reg.name := id]
        && live[g].groupKey == reg.conf.groupKey
        else live'[g].createFuncs == map[reg.name := id])
  }

  lemma RegisterJoins(w: World, id: nat, index: nat)
    requires Backed(w) && CanRegister(w, id) && w.regs[id].conf.Grouped() && !Refused(w.http, w.regs[id], NextKey(w, id))
    ensures JoinsLive(w.http.live, Register(w, id, index).http.live, id, w.regs[id], NextKey(w, id))
    ensures Register(w, id, index).regs == w.regs[id := w.regs[id].(keys := [NextKey(w, id)])]
    ensures w.regs[id].keys == []
  {
    OneKeyInGroup(w, id);
    assert [] + [NextKey(w, id)] == [NextKey(w, id)];
  }

  lemma JoinKeepsMembersIn(live: map<Name, Group>, live': map<Name, Group>, regs: map<nat, Reg>, id: nat, key: Key)
    requires MembersIn(live, regs) && id in regs && regs[id].conf.Grouped() && JoinsLive(live, live', id, regs[id], key)
    ensures MembersIn(live', regs[id := regs[id].(keys := [key])])
  {
    var regs' := regs[id := regs[id].(keys := [key])];
    forall i | i in regs' && regs'[i].conf.Grouped() && regs'[i].keys != [] ensures IsMember(live', i, regs'[i]) {
      if i != id { assert IsMember(live, i, regs[i]); }
    }
  }

  lemma JoinKeepsMembersOut(live: map<Name, Group>, live': map<Name, Group>, regs: map<nat, Reg>, id: nat, key: Key)
    requires MembersOut(live, regs) && id in regs && regs[id].conf.Grouped() && JoinsLive(live, live', id, regs[id], key)
    requires regs[id].keys == []
    ensures MembersOut(live', regs[id := regs[id].(keys := [key])])
  {
    var reg, regs' := regs[id], regs[id := regs[id].(keys := [key])];
    forall g, n | g in live' && n in live'[g].createFuncs ensures Accounted(regs', g, live'[g], n) {
      if g != reg.conf.group || n != reg.name { assert Accounted(regs, g, live[g], n); }
    }
  }

  lemma JoinKeepsDirects(w: World, id: nat, index: nat)
    requires Backed(w) && CanRegister(w, id) && w.regs[id].conf.Grouped() && !Refused(w.http, w.regs[id], NextKey(w, id))
    ensures var w' := Register(w, id, index);
            DirectsIn(w'.http.table, w'.regs) && DirectsOut(w'.http.table, w'.regs) && Distinct(w'.regs)
  {
  }

  lemma RegisterGroupedKeeps(w: World, id: nat, index: nat)
    requires Backed(w) && CanRegister(w, id) && w.regs[id].conf.Grouped() && !Refused(w.http, w.regs[id], NextKey(w, id))
    requires index < TWO_64
    ensures Backed(Register(w, id, index))
  {
    JoinKeepsTable(w, id, index);
    JoinKeepsDirects(w, id, index);
    RegisterJoins(w, id, index);
    JoinKeepsMembersIn(w.http.live, Register(w, id, index).http.live, w.regs, id, NextKey(w, id));
    JoinKeepsMembersOut(w.http.live, Register(w, id, index).http.live, w.regs, id, NextKey(w, id));
  }

  // ----- undoing one key

  /** What is deleted by its key is the proxy's own route. */
  lemma OwnRouteGoes(w: World, id: nat)
    requires Backed(w) && CanUndo(w, id) && !w.regs[id].conf.Grouped()
    ensures var r := Route(w.regs[id].keys[0], ViaProxy(id));
            r in w.http.table && Undo(w, id).http.table == w.http.table - {r}
  {
    var r := Route(w.regs[id].keys[0], ViaProxy(id));
    assert r.key in w.regs[id].keys;
    RemoveOwnRoute(w.http.table, r);
  }

  lemma UndoDirectKeepsDirects(table: set<Route<Target>>, regs: map<nat, Reg>, id: nat)
    requires DirectsIn(table, regs) && DirectsOut(table, regs) && Distinct(regs)
    requires id in regs && regs[id].keys != [] && !regs[id].conf.Grouped()
    ensures var table' := table - {Route(regs[id].keys[0], ViaProxy(id))};
            var regs' := regs[id := regs[id].(keys := regs[id].keys[1..])];
            DirectsIn(table', regs') && DirectsOut(table', regs') && Distinct(regs')
  {
    var table' := table - {Route(regs[id].keys[0], ViaProxy(id))};
    var regs' := regs[id := regs[id].(keys := regs[id].keys[1..])];
    forall i, k | i in regs' && !regs'[i].conf.Grouped() && k in regs'[i].keys ensures Route(k, ViaProxy(i)) in table' {
      assert k in regs[i].keys;
      if i == id {
        var m :| 0 <= m < |regs'[id].keys| && regs'[id].keys[m] == k;
        assert regs[id].keys[m + 1] == k;
      }
    }
    forall r | r in table' && r.payload.ViaProxy?
      ensures r.payload.id in regs' && !regs'[r.payload.id].conf.Grouped() && r.key in regs'[r.payload.id].keys
    {
      assert regs[id].keys == [regs[id].keys[0]] + regs[id].keys[1..];
    }
  }

  lemma UndoDirectKeeps(w: World, id: nat)
    requires Backed(w) && CanUndo(w, id) && !w.regs[id].conf.Grouped()
    ensures Backed(Undo(w, id))
  {
    var w' := Undo(w, id);
    OwnRouteGoes(w, id);
    UndoDirectKeepsDirects(w.http.table, w.regs, id);
    OtherMembers(w.http.live, w.regs, id, w'.regs[id]);
  }

  lemma LeaveKeepsTable(w: World, id: nat)
    requires Backed(w) && CanUndo(w, id) && w.regs[id].conf.Grouped()
    ensures var h := Undo(w, id).http;
            UniqueIn(h.table) && LiveValid(h.live) && RoutesMatchGroups(h.table, h.live)
  {
    var reg := w.regs[id];
    var group := reg.conf.group;
    assert IsMember(w.http.live, id, reg);
    var g := w.http.live[group];
    if g.createFuncs - {reg.name} == map[] {
      LastLeaves(w.http.table, w.http.live, group);
    } else {
      LeftValid(g, reg.name);
      MembersChange(w.http.table, w.http.live, group, Left(g, reg.name));
    }
  }

  lemma LeaveKeepsMembersIn(w: World, id: nat)
    requires MembersIn(w.http.live, w.regs) && CanUndo(w, id) && w.regs[id].conf.Grouped()
    ensures var w' := Undo(w, id); MembersIn(w'.http.live, w'.regs)
  {
    var w', reg := Undo(w, id), w.regs[id];
    assert IsMember(w.http.live, id, reg);
    forall i | i in w'.regs && w'.regs[i].conf.Grouped() && w'.regs[i].keys != []
      ensures IsMember(w'.http.live, i, w'.regs[i])
    {
      assert i != id;
      assert IsMember(w.http.live, i, w.regs[i]);
      if w.regs[i].conf.group == reg.conf.group {
        assert w.regs[i].name in w.http.live[reg.conf.group].createFuncs - {reg.name};
      }
    }
  }

  lemma LeaveKeepsMembersOut(w: World, id: nat)
    requires MembersOut(w.http.live, w.regs) && MembersIn(w.http.live, w.regs) && CanUndo(w, id) && w.regs[id].conf.Grouped()
    ensures var w' := Undo(w, id); MembersOut(w'.http.live, w'.regs)
  {
    var w' := Undo(w, id);
    assert IsMember(w.http.live, id, w.regs[id]);
    forall g, n | g in w'.http.live && n in w'.http.live[g].createFuncs
      ensures Accounted(w'.regs, g, w'.http.live[g], n)
    {
      assert g in w.http.live && n in w.http.live[g].createFuncs;
      assert Accounted(w.regs, g, w.http.live[g], n);
    }
  }

  lemma LeaveKeepsDirects(w: World, id: nat)
    requires Backed(w) && CanUndo(w, id) && w.regs[id].conf.Grouped()
    ensures var w' := Undo(w, id);
            DirectsIn(w'.http.table, w'.regs) && DirectsOut(w'.http.table, w'.regs) && Distinct(w'.regs)
  {
  }

  lemma UndoGroupedKeeps(w: World, id: nat)
    requires Backed(w) && CanUndo(w, id) && w.regs[id].conf.Grouped()
    ensures Backed(Undo(w, id))
  {
    LeaveKeepsTable(w, id);
    LeaveKeepsDirects(w, id);
    LeaveKeepsMembersIn(w, id);
    LeaveKeepsMembersOut(w, id);
  }

  // ----- every run

  ghost predicate CountersBounded(events: seq<Event>)
  {
    forall i :: 0 <= i < |events| && events[i].RegisterNext? ==> events[i].index < TWO_64
  }

  predicate Registers(w: World, e: Event)
  {
    e.RegisterNext? && CanRegister(w, e.id)
  }

  predicate Undoes(w: World, e: Event)
  {
    e.UndoNext? && CanUndo(w, e.id)
  }

  lemma QuietStep(w: World, e: Event)
    requires !Undoes(w, e) && (Registers(w, e) ==> Refused(w.http, w.regs[e.id], NextKey(w, e.id)))
    ensures Step(w, e).http == w.http && Alike(w.regs, Step(w, e).regs)
  {
  }

  lemma StepKeepsOrder(w: World, e: Event)
    requires AllInOrder(w.regs)
    ensures AllInOrder(Step(w, e).regs)
  {
    var w' := Step(w, e);
    forall id | id in w'.regs ensures InOrder(w'.regs[id]) {
      if id in w.regs { assert InOrder(w.regs[id]); }
    }
  }

  lemma StepKeeps(w: World, e: Event)
    requires Inv(w) && (e.RegisterNext? ==> e.index < TWO_64)
    ensures Inv(Step(w, e))
  {
    StepKeepsOrder(w, e);
    if Undoes(w, e) {
      if w.regs[e.id].conf.Grouped() { UndoGroupedKeeps(w, e.id); } else { UndoDirectKeeps(w, e.id); }
    } else if Registers(w, e) && !Refused(w.http, w.regs[e.id], NextKey(w, e.id)) {
      if w.regs[e.id].conf.Grouped() { RegisterGroupedKeeps(w, e.id, e.index); } else { RegisterDirectKeeps(w, e.id, e.index); }
    } else {
      QuietStep(w, e);
      AlikeBacked(w, Step(w, e).regs);
    }
  }

  lemma {:induction false} AlwaysInv(events: seq<Event>)
    requires CountersBounded(events)
    ensures Inv(Exec(events))
  {
    if events != [] {
      AlwaysInv(events[..|events| - 1]);
      StepKeeps(Exec(events[..|events| - 1]), events[|events| - 1]);
    }
  }

  /** The routes the proxies account for. */
  ghost function RoutesOf(regs: map<nat, Reg>): set<Route<Target>>
  {
    (set id, k | id in regs && !regs[id].conf.Grouped() && k in regs[id].keys :: Route(k, ViaProxy(id)))
    + (set id | id in regs && regs[id].conf.Grouped() && regs[id].keys != [] :: Route(regs[id].keys[0], ViaGroup(regs[id].conf.group)))
  }

  lemma GroupRouteIsClaimed(w: World, r: Route<Target>)
    requires Backed(w) && r in w.http.table && r.payload.ViaGroup?
    ensures r in RoutesOf(w.regs)
  {
    var group := r.payload.group;
    var g := w.http.live[group];
    var name :| name in g.createFuncs;
    assert Accounted(w.regs, group, g, name);
    var id := g.createFuncs[name];
    assert Route(w.regs[id].keys[0], ViaGroup(w.regs[id].conf.group)) == r;
  }

  lemma BackedTable(w: World)
    requires Backed(w)
    ensures w.http.table == RoutesOf(w.regs)
  {
    forall r | r in w.http.table ensures r in RoutesOf(w.regs) {
      if r.payload.ViaGroup? {
        GroupRouteIsClaimed(w, r);
      } else {
        assert r == Route(r.key, ViaProxy(r.payload.id));
      }
    }
    forall r | r in RoutesOf(w.regs) ensures r in w.http.table {
      if r.payload.ViaGroup? {
        var id :| id in w.regs && w.regs[id].conf.Grouped() && w.regs[id].keys != []
          && r == Route(w.regs[id].keys[0], ViaGroup(w.regs[id].conf.group));
        assert IsMember(w.http.live, id, w.regs[id]);
        assert GroupRoute(w.regs[id].conf.group, w.http.live[w.regs[id].conf.group]) in w.http.table;
      }
    }
  }

  /** At every moment of every run the table is exactly the union of what the proxies have registered. */
  lemma TableIsWhatIsRegistered(events: seq<Event>)
    requires CountersBounded(events)
    ensures Exec(events).http.table == RoutesOf(Exec(events).regs)
  {
    AlwaysInv(events);
    BackedTable(Exec(events));
  }

  // ----- what this means for one proxy

  /** Key k is registered for the proxy: by its own route, or by its group's route and its membership. */
  ghost predicate Serves(h: Http, id: nat, reg: Reg, k: Key)
  {
    if reg.conf.Grouped() then
      && Route(k, ViaGroup(reg.conf.group)) in h.table && reg.conf.group in h.live
      && reg.name in h.live[reg.conf.group].createFuncs && h.live[reg.conf.group].createFuncs[reg.name] == id
    else Route(k, ViaProxy(id)) in h.table
  }

  /** Nothing in the table or in a group leads to the proxy. */
  ghost predicate Absent(h: Http, id: nat)
  {
    && (forall r :: r in h.table ==> r.payload != ViaProxy(id))
    && (forall g, n :: g in h.live && n in h.live[g].createFuncs ==> h.live[g].createFuncs[n] != id)
  }

  /** All or nothing, whatever others do meanwhile: an open proxy serves all it wants, one that is gone has left nothing. */
  lemma AllOrNothing(events: seq<Event>, id: nat)
    requires CountersBounded(events)
    ensures var w := Exec(events);
            && (InPhase(w, id, Open) ==> forall k :: k in w.regs[id].wanted ==> Serves(w.http, id, w.regs[id], k))
            && (id !in w.regs ==> Absent(w.http, id))
  {
    var w := Exec(events);
    AlwaysInv(events);
    if InPhase(w, id, Open) {
      assert InOrder(w.regs[id]);
      forall k | k in w.regs[id].wanted ensures Serves(w.http, id, w.regs[id], k) {
        HeldIsServed(w, id, k);
      }
    }
    if id !in w.regs {
      forall g, n | g in w.http.live && n in w.http.live[g].createFuncs ensures w.http.live[g].createFuncs[n] != id {
        assert Accounted(w.regs, g, w.http.live[g], n);
      }
    }
  }

  lemma HeldIsServed(w: World, id: nat, k: Key)
    requires Backed(w) && id in w.regs && k in w.regs[id].keys
    ensures Serves(w.http, id, w.regs[id], k)
  {
    if w.regs[id].conf.Grouped() {
      assert IsMember(w.http.live, id, w.regs[id]);
      assert GroupRoute(w.regs[id].conf.group, w.http.live[w.regs[id].conf.group]) in w.http.table;
    }
  }

  /** No step of one proxy, be it a rollback or a close, takes a key from another. */
  lemma StepTouchesOnlyItself(events: seq<Event>, e: Event, other: nat, k: Key)
    requires CountersBounded(events + [e])
    requires other in Exec(events).regs && other != e.id && k in Exec(events).regs[other].keys
    ensures var w' := Exec(events + [e]);
            other in w'.regs && w'.regs[other] == Exec(events).regs[other] && Serves(w'.http, other, w'.regs[other], k)
  {
    assert Exec(events + [e]) == Step(Exec(events), e) by { ExecStep(events, e); }
    OtherStays(Exec(events), e, other);
    assert Backed(Exec(events + [e])) by { AlwaysInv(events + [e]); }
    HeldIsServed(Exec(events + [e]), other, k);
  }

  lemma OtherStays(w: World, e: Event, other: nat)
    requires other in w.regs && other != e.id
    ensures other in Step(w, e).regs && Step(w, e).regs[other] == w.regs[other]
  {
  }

  lemma AlikeRoutes(a: map<nat, Reg>, b: map<nat, Reg>, r: Route<Target>)
    requires Alike(a, b) && r in RoutesOf(a)
    ensures r in RoutesOf(b)
  {
    if r.payload.ViaGroup? {
      var id :| id in a && a[id].conf.Grouped() && a[id].keys != [] && r == Route(a[id].keys[0], ViaGroup(a[id].conf.group));
      assert Holder(a, id) && Holder(b, id);
    } else {
      assert r.key in a[r.payload.id].keys;
      assert Holder(a, r.payload.id) && Holder(b, r.payload.id);
    }
  }

  /** Two histories after which the same keys are registered answer every request alike, whatever else was tried and undone. */
  lemma LookupsDependOnRegistered(a: seq<Event>, b: seq<Event>, req: Request, x: Option<Route<Target>>, y: Option<Route<Target>>)
    requires CountersBounded(a) && CountersBounded(b)
    requires Alike(Exec(a).regs, Exec(b).regs)
    requires Answers(Exec(a).http.table, req, x) && Answers(Exec(b).http.table, req, y)
    ensures x == y
  {
    TableIsWhatIsRegistered(a);
    TableIsWhatIsRegistered(b);
    forall r | r in RoutesOf(Exec(a).regs) ensures r in RoutesOf(Exec(b).regs) {
      AlikeRoutes(Exec(a).regs, Exec(b).regs, r);
    }
    forall r | r in RoutesOf(Exec(b).regs) ensures r in RoutesOf(Exec(a).regs) {
      AlikeRoutes(Exec(b).regs, Exec(a).regs, r);
    }
    AnswerUnique(Exec(a).http.table, req, x, y);
  }

  // ----- what a registration is refused for

  predicate Peer(regs: map<nat, Reg>, h: nat, group: Name)
  {
    Holder(regs, h) && regs[h].conf.Grouped() && regs[h].conf.group == group
  }

  predicate Disagrees(peer: Reg, reg: Reg, key: Key)
    requires peer.keys != []
  {
    peer.keys[0] != key || peer.conf.groupKey != reg.conf.groupKey || peer.name == reg.name
  }

  /** With peers in its group, one that disagrees; otherwise anyone who has the key. */
  ghost predicate InTheWay(regs: map<nat, Reg>, reg: Reg, key: Key)
  {
    if reg.conf.Grouped() && exists h :: Peer(regs, h, reg.conf.group)
    then exists h :: Peer(regs, h, reg.conf.group) && Disagrees(regs[h], reg, key)
    else exists h :: Holder(regs, h) && key in regs[h].keys
  }

  lemma HolderIsRegistered(w: World, h: nat, key: Key)
    requires Backed(w) && Holder(w.regs, h) && key in w.regs[h].keys
    ensures Registered(w.http.table, key)
  {
    HeldIsServed(w, h, key);
    if w.regs[h].conf.Grouped() {
      assert Route(key, ViaGroup(w.regs[h].conf.group)) in w.http.table;
    } else {
      assert Route(key, ViaProxy(h)) in w.http.table;
    }
  }

  lemma RegisteredIff(w: World, key: Key)
    requires Backed(w)
    ensures Registered(w.http.table, key) <==> exists h :: Holder(w.regs, h) && key in w.regs[h].keys
  {
    if Registered(w.http.table, key) {
      var r :| r in w.http.table && r.key == key;
      assert r in RoutesOf(w.regs) by { BackedTable(w); }
      var h :| h in w.regs && r.key in w.regs[h].keys;
      assert Holder(w.regs, h);
    }
    if h :| Holder(w.regs, h) && key in w.regs[h].keys {
      HolderIsRegistered(w, h, key);
    }
  }

  lemma LiveIff(w: World, group: Name)
    requires Backed(w) && group.text != ""
    ensures group in w.http.live <==> exists h :: Peer(w.regs, h, group)
  {
    if group in w.http.live {
      var n :| n in w.http.live[group].createFuncs;
      assert Accounted(w.regs, group, w.http.live[group], n);
      assert Peer(w.regs, w.http.live[group].createFuncs[n], group);
    }
    if h :| Peer(w.regs, h, group) {
      assert IsMember(w.http.live, h, w.regs[h]);
    }
  }

  lemma JoinErrorIff(w: World, reg: Reg, key: Key)
    requires Backed(w) && reg.conf.Grouped() && reg.conf.group in w.http.live
    ensures Refused(w.http, reg, key) <==> exists h :: Peer(w.regs, h, reg.conf.group) && Disagrees(w.regs[h], reg, key)
  {
    var g := w.http.live[reg.conf.group];
    if Refused(w.http, reg, key) {
      var n :| n in g.createFuncs && (reg.name in g.createFuncs ==> n == reg.name);
      assert Accounted(w.regs, reg.conf.group, g, n);
      var h := g.createFuncs[n];
      assert IsMember(w.http.live, h, w.regs[h]);
      assert Peer(w.regs, h, reg.conf.group) && Disagrees(w.regs[h], reg, key);
    }
    if h :| Peer(w.regs, h, reg.conf.group) && Disagrees(w.regs[h], reg, key) {
      assert IsMember(w.http.live, h, w.regs[h]);
    }
  }

  /** A registration is refused exactly for what is registered at that moment, finished or not. */
  lemma RefusedIff(events: seq<Event>, id: nat)
    requires CountersBounded(events) && CanRegister(Exec(events), id)
    ensures var w := Exec(events);
            Refused(w.http, w.regs[id], NextKey(w, id)) <==> InTheWay(w.regs, w.regs[id], NextKey(w, id))
  {
    var w := Exec(events);
    var reg, key := w.regs[id], NextKey(w, id);
    AlwaysInv(events);
    RegisteredIff(w, key);
    if reg.conf.Grouped() {
      LiveIff(w, reg.conf.group);
      if reg.conf.group in w.http.live { JoinErrorIff(w, reg, key); }
    }
  }

  // ----- without interruption the steps are the Run and the Close of one proxy

  ghost function Repeat(w: World, e: Event, n: nat): World
  {
    if n == 0 then w else Step(Repeat(w, e, n - 1), e)
  }

  lemma RegisterIsAfterRun(h: Http, reg: Reg, id: nat, key: Key, index: nat)
    requires Accepts(h, reg.name, reg.conf, reg.keys + [key])
    ensures Accepts(h, reg.name, reg.conf, reg.keys)
    ensures var h' := AfterRun(h, reg.name, id, reg.conf, reg.keys, index);
            !Refused(h', reg, key) && Added(h', id, reg, key, index) == AfterRun(h, reg.name, id, reg.conf, reg.keys + [key], index)
  {
    AcceptsPrefix(h, reg.name, reg.conf, reg.keys + [key], reg.keys);
    if !reg.conf.Grouped() {
      FreshSnoc(h.table, reg.keys, id, key);
      MineSnoc(reg.keys, id, key);
    } else {
      assert reg.keys == [];
      assert (reg.keys + [key])[0] == key;
    }
  }

  /** A Run of its own from w, after n registrations. */
  ghost function Halfway(w: World, id: nat, reg: Reg, index: nat, n: nat): World
    requires n <= |reg.wanted|
  {
    World(AfterRun(w.http, reg.name, id, reg.conf, reg.wanted[..n], index), w.regs[id := reg.(keys := reg.wanted[..n])])
  }

  lemma NextStep(w: World, id: nat, reg: Reg, index: nat, n: nat)
    requires reg.phase == Opening && n < |reg.wanted| && Accepts(w.http, reg.name, reg.conf, reg.wanted)
    ensures Step(Halfway(w, id, reg, index, n), RegisterNext(id, index)) == Halfway(w, id, reg, index, n + 1)
  {
    var done, key := reg.wanted[..n], reg.wanted[n];
    assert reg.wanted[..n + 1] == done + [key];
    AcceptsPrefix(w.http, reg.name, reg.conf, reg.wanted, done + [key]);
    RegisterIsAfterRun(w.http, reg.(keys := done), id, key, index);
  }

  lemma {:induction false} RunSteps(w: World, id: nat, reg: Reg, index: nat, n: nat)
    requires reg.phase == Opening && n <= |reg.wanted| && Accepts(w.http, reg.name, reg.conf, reg.wanted)
    ensures Repeat(Halfway(w, id, reg, index, 0), RegisterNext(id, index), n) == Halfway(w, id, reg, index, n)
  {
    if n > 0 {
      RunSteps(w, id, reg, index, n - 1);
      NextStep(w, id, reg, index, n - 1);
    }
  }

  lemma RunBegins(w: World, id: nat, reg: Reg, index: nat)
    requires id !in w.regs && reg.phase == Opening && reg.keys == []
    ensures Step(w, Begin(id, reg.name, reg.conf, reg.wanted)) == Halfway(w, id, reg, index, 0)
  {
    assert reg.wanted[..0] == [] && Mine([], id) == {};
  }

  lemma RunEnds(w: World, id: nat, reg: Reg, index: nat)
    requires reg.phase == Opening
    ensures Step(Halfway(w, id, reg, index, |reg.wanted|), Finish(id)) ==
            World(AfterRun(w.http, reg.name, id, reg.conf, reg.wanted, index), w.regs[id := reg.(keys := reg.wanted, phase := Open)])
  {
    assert reg.wanted[..|reg.wanted|] == reg.wanted;
  }

  /** The registrations of one Run, with no one else's in between, have the effect HTTPProxy.Run promises. */
  lemma RunAlone(w: World, id: nat, name: Name, conf: HttpConf, wanted: seq<Key>, index: nat)
    requires id !in w.regs && Accepts(w.http, name, conf, wanted)
    ensures Step(Repeat(Step(w, Begin(id, name, conf, wanted)), RegisterNext(id, index), |wanted|), Finish(id)) ==
            World(AfterRun(w.http, name, id, conf, wanted, index), w.regs[id := Reg(name, conf, wanted, wanted, Open)])
  {
    var reg := Reg(name, conf, wanted, [], Opening);
    RunBegins(w, id, reg, index);
    RunSteps(w, id, reg, index, |wanted|);
    RunEnds(w, id, reg, index);
  }

  /** A Close of a direct proxy from w, after n of its close functions. */
  ghost function HalfClosed(w: World, id: nat, reg: Reg, n: nat): World
    requires n <= |reg.keys|
  {
    World(w.http.(table := w.http.table - Mine(reg.keys[..n], id)), w.regs[id := reg.(keys := reg.keys[n..], phase := Undoing)])
  }

  lemma MinusMine(table: set<Route<Target>>, keys: seq<Key>, id: nat, n: nat)
    requires n < |keys|
    ensures table - Mine(keys[..n], id) - {Route(keys[n], ViaProxy(id))} == table - Mine(keys[..n + 1], id)
  {
    assert keys[..n + 1] == keys[..n] + [keys[n]];
    MineSnoc(keys[..n], id, keys[n]);
  }

  lemma NextUndo(w: World, id: nat, reg: Reg, n: nat)
    requires n < |reg.keys| && !reg.conf.Grouped() && Backed(HalfClosed(w, id, reg, n))
    ensures Step(HalfClosed(w, id, reg, n), UndoNext(id)) == HalfClosed(w, id, reg, n + 1)
  {
    var now := HalfClosed(w, id, reg, n);
    assert reg.keys[n..][0] == reg.keys[n] && reg.keys[n..][1..] == reg.keys[n + 1..];
    assert CanUndo(now, id) && Step(now, UndoNext(id)) == Undo(now, id);
    assert Undo(now, id).regs == HalfClosed(w, id, reg, n + 1).regs;
    OwnRouteGoes(now, id);
    MinusMine(w.http.table, reg.keys, id, n);
  }

  lemma CloseStep(w: World, id: nat, reg: Reg, n: nat)
    requires n < |reg.keys| && !reg.conf.Grouped() && Inv(HalfClosed(w, id, reg, n))
    ensures Step(HalfClosed(w, id, reg, n), UndoNext(id)) == HalfClosed(w, id, reg, n + 1)
    ensures Inv(HalfClosed(w, id, reg, n + 1))
  {
    assert Step(HalfClosed(w, id, reg, n), UndoNext(id)) == HalfClosed(w, id, reg, n + 1) by { NextUndo(w, id, reg, n); }
    StepKeeps(HalfClosed(w, id, reg, n), UndoNext(id));
  }

  lemma {:induction false} CloseSteps(begun: World, w: World, id: nat, reg: Reg, n: nat)
    requires n <= |reg.keys| && !reg.conf.Grouped() && begun == HalfClosed(w, id, reg, 0) && Inv(begun)
    ensures Repeat(begun, UndoNext(id), n) == HalfClosed(w, id, reg, n) && Inv(HalfClosed(w, id, reg, n))
  {
    if n > 0 {
      CloseSteps(begun, w, id, reg, n - 1);
      CloseStep(w, id, reg, n - 1);
    }
  }

  lemma StartsClosed(w: World, id: nat)
    requires InPhase(w, id, Open) && !w.regs[id].conf.Grouped()
    ensures Step(w, StartClose(id)) == HalfClosed(w, id, w.regs[id], 0)
  {
    var reg := w.regs[id];
    assert Mine([], id) == {} && reg.keys[..0] == [] && reg.keys[0..] == reg.keys;
  }

  lemma EndsClosed(w: World, id: nat, reg: Reg)
    ensures Step(HalfClosed(w, id, reg, |reg.keys|), UndoNext(id)) ==
            World(w.http.(table := w.http.table - Mine(reg.keys, id)), w.regs - {id})
  {
    assert reg.keys[..|reg.keys|] == reg.keys;
    assert w.regs[id := reg.(keys := reg.keys[|reg.keys|..], phase := Undoing)] - {id} == w.regs - {id};
  }

  lemma CloseDirectAlone(w: World, id: nat)
    requires Inv(w) && InPhase(w, id, Open) && !w.regs[id].conf.Grouped()
    ensures CloseIsAfterClose(w, id)
  {
    var begun := Step(w, StartClose(id));
    StartsClosed(w, id);
    assert Inv(begun) by { StepKeeps(w, StartClose(id)); }
    CloseSteps(begun, w, id, w.regs[id], |w.regs[id].keys|);
    EndsClosed(w, id, w.regs[id]);
  }

  lemma LastUndone(begun: World, id: nat)
    requires CanUndo(begun, id) && |begun.regs[id].keys| == 1
    ensures Step(Undo(begun, id), UndoNext(id)) == World(Undo(begun, id).http, begun.regs - {id})
  {
    assert Undo(begun, id).regs - {id} == begun.regs - {id};
  }

  lemma CloseMemberAlone(w: World, id: nat)
    requires InPhase(w, id, Open) && w.regs[id].conf.Grouped() && |w.regs[id].keys| == 1
    ensures CloseIsAfterClose(w, id)
  {
    var begun := WithPhase(w, id, Undoing);
    assert Step(w, StartClose(id)) == begun && Repeat(begun, UndoNext(id), 0) == begun;
    assert begun.regs - {id} == w.regs - {id};
    assert Repeat(begun, UndoNext(id), 1) == Undo(begun, id);
    LastUndone(begun, id);
  }

  lemma CloseGroupedAlone(w: World, id: nat)
    requires Inv(w) && InPhase(w, id, Open) && w.regs[id].conf.Grouped()
    ensures CloseIsAfterClose(w, id)
  {
    if w.regs[id].keys == [] {
      var begun := WithPhase(w, id, Undoing);
      assert Step(w, StartClose(id)) == begun && Repeat(begun, UndoNext(id), 0) == begun;
      assert begun.regs - {id} == w.regs - {id};
    } else {
      assert IsMember(w.http.live, id, w.regs[id]);
      CloseMemberAlone(w, id);
    }
  }

  ghost predicate CloseIsAfterClose(w: World, id: nat)
    requires id in w.regs
  {
    var reg := w.regs[id];
    Step(Repeat(Step(w, StartClose(id)), UndoNext(id), |reg.keys|), UndoNext(id)) ==
    World(AfterClose(w.http, reg.name, id, reg.conf, reg.keys), w.regs - {id})
  }

  /** So do the close functions of one Close. */
  lemma CloseAlone(w: World, id: nat)
    requires Inv(w) && InPhase(w, id, Open)
    ensures CloseIsAfterClose(w, id)
  {
    if w.regs[id].conf.Grouped() { CloseGroupedAlone(w, id); } else { CloseDirectAlone(w, id); }
  }

  // ----- with interruption two of them can refuse each other

  function Crossed(name: Name, conf: HttpConf, a: Key, b: Key): seq<Event>
  {
    [Begin(0, name, conf, [a, b]), Begin(1, name, conf, [b, a]), RegisterNext(0, 0), RegisterNext(1, 0)]
  }

  /**
   Each of two proxies wants the same two keys, in the opposite order. Each registers its first key and is
   refused its second, which is undone: both fail and nothing is registered, although either alone is accepted.
   */
  lemma BothCanBeRefused(name: Name, conf: HttpConf, a: Key, b: Key)
    requires !conf.Grouped() && a != b
    ensures var start := Exec([]).http; Accepts(start, name, conf, [a, b]) && Accepts(start, name, conf, [b, a])
    ensures Exec(Crossed(name, conf, a, b) + [RegisterNext(0, 0), RegisterNext(1, 0)]
                 + [UndoNext(0), UndoNext(0), UndoNext(1), UndoNext(1)]) == Exec([])
  {
    var e := Crossed(name, conf, a, b);
    CrossedTables(name, conf, a, b);
    RefusedStep(e, 0, Route(b, ViaProxy(1)));
    RefusedStep(e + [RegisterNext(0, 0)], 1, Route(a, ViaProxy(0)));
    var f := e + [RegisterNext(0, 0)] + [RegisterNext(1, 0)];
    assert f == e + [RegisterNext(0, 0), RegisterNext(1, 0)];
    CrossedUndone(name, conf, a, b, f);
  }

  lemma RefusedStep(e: seq<Event>, id: nat, r: Route<Target>)
    requires CanRegister(Exec(e), id) && !Exec(e).regs[id].conf.Grouped()
    requires r in Exec(e).http.table && r.key == NextKey(Exec(e), id)
    ensures Exec(e + [RegisterNext(id, 0)]) == WithPhase(Exec(e), id, Undoing)
  {
    ExecStep(e, RegisterNext(id, 0));
  }

  /** One direct key that is free is registered. */
  lemma DirectStep(w: World, id: nat, key: Key)
    requires CanRegister(w, id) && w.regs[id].keys == [] && key == w.regs[id].wanted[0] && !w.regs[id].conf.Grouped()
    requires !Registered(w.http.table, key)
    ensures Step(w, RegisterNext(id, 0)) ==
            World(w.http.(table := w.http.table + {Route(key, ViaProxy(id))}), w.regs[id := w.regs[id].(keys := [key])])
  {
    assert [] + [key] == [key];
  }

  lemma CrossedTables(name: Name, conf: HttpConf, a: Key, b: Key)
    requires !conf.Grouped() && a != b
    ensures Exec(Crossed(name, conf, a, b)) ==
            World(Http({Route(a, ViaProxy(0)), Route(b, ViaProxy(1))}, map[]),
                  map[0 := Reg(name, conf, [a, b], [a], Opening), 1 := Reg(name, conf, [b, a], [b], Opening)])
  {
    var e := Crossed(name, conf, a, b);
    assert e[..3] == e[..2] + [e[2]] && e == e[..3] + [e[3]] && e[..2] == e[..1] + [e[1]] && e[..1] == [] + [e[0]];
    ExecStep([], e[0]);
    ExecStep(e[..1], e[1]);
    var w := Exec(e[..2]);
    assert w == World(Http({}, map[]), map[0 := Reg(name, conf, [a, b], [], Opening), 1 := Reg(name, conf, [b, a], [], Opening)]);
    ExecStep(e[..2], e[2]);
    DirectStep(w, 0, a);
    ExecStep(e[..3], e[3]);
    DirectStep(Exec(e[..3]), 1, b);
  }

  /** One direct key is undone, and the proxy is gone. */
  lemma DirectUndone(f: seq<Event>, id: nat, key: Key)
    requires CanUndo(Exec(f), id) && Exec(f).regs[id].keys == [key] && !Exec(f).regs[id].conf.Grouped()
    ensures Exec(f + [UndoNext(id)] + [UndoNext(id)]) ==
            World(Exec(f).http.(table := WithoutKey(Exec(f).http.table, key)), Exec(f).regs - {id})
  {
    ExecStep(f, UndoNext(id));
    ExecStep(f + [UndoNext(id)], UndoNext(id));
    LastUndone(Exec(f), id);
  }

  lemma CrossedUndone(name: Name, conf: HttpConf, a: Key, b: Key, f: seq<Event>)
    requires !conf.Grouped() && a != b
    requires Exec(f) == World(Http({Route(a, ViaProxy(0)), Route(b, ViaProxy(1))}, map[]),
                              map[0 := Reg(name, conf, [a, b], [a], Undoing), 1 := Reg(name, conf, [b, a], [b], Undoing)])
    ensures Exec(f + [UndoNext(0), UndoNext(0), UndoNext(1), UndoNext(1)]) == World(Http({}, map[]), map[])
  {
    var g := f + [UndoNext(0)] + [UndoNext(0)];
    DirectUndone(f, 0, a);
    assert WithoutKey(Exec(f).http.table, a) == {Route(b, ViaProxy(1))};
    assert Exec(f).regs - {0} == map[1 := Exec(f).regs[1]];
    DirectUndone(g, 1, b);
    assert WithoutKey(Exec(g).http.table, b) == {} && Exec(g).regs - {1} == map[];
    assert f + [UndoNext(0), UndoNext(0), UndoNext(1), UndoNext(1)] == g + [UndoNext(1)] + [UndoNext(1)];
  }
}
