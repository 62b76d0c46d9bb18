/**
 How one port can get two holders. isPortAvailable (server/ports/ports.go) tries to bind the
 port, so it refuses exactly the ports that are bound. A proxy between Acquire and its listen
 has not bound its port yet, and a group whose members ask for any port never binds the port
 it acquired, since it listens on the requested port (server/group/tcp.go).
 */
module PortSharing {
  import opened Wrappers
  import Spec = PortSpec
  import opened TcpWorld

  /** A listening proxy has bound the port, or a group whose members asked for that very port. */
  ghost predicate Bound(w: World, p: int)
  {
    || (exists id :: id in w.regs && w.regs[id] == Listening(p))
    || (exists n :: Populated(w.g.groups, n) && w.g.groups[n].port != 0 && w.g.groups[n].realPort == p)
  }

  /** The operating system never offers a port that is bound. */
  ghost predicate Realistic(w: World, e: Event)
  {
    e.Acquire? || e.Join? ==> forall p :: p in e.env.avail ==> !Bound(w, p)
  }

  ghost predicate RealisticRun(allowed: set<int>, events: seq<Event>)
  {
    forall i :: 0 <= i < |events| ==> Realistic(Exec(allowed, events[..i]), events[i])
  }

  /** The event asks the allocator for a port, for a new proxy or the first member of a group that can listen. */
  predicate AsksForPort(w: World, e: Event)
  {
    || (e.Acquire? && e.id !in w.regs)
    || (e.Join? && e.id !in w.regs && !Populated(w.g.groups, e.group) && e.env.bindOk)
  }

  /** A held port is taken again exactly by the name that had it before, on a request for any port, when the port is offered. */
  lemma TakenTwiceIff(w: World, allowed: set<int>, e: Event)
    requires Base(w, allowed) && Honest(w, e)
    ensures TakenTwice(w, e) <==>
      && AsksForPort(w, e)
      && Spec.TakesReserved(w.g.ports, e.name, e.port, e.env.avail)
      && HeldBySomeone(w.owner, w.g.ports.reserved[e.name].port)
  {
    if AsksForPort(w, e) {
      Spec.DoubleGrant(w.g.ports, allowed, e.name, e.port, e.env.avail, e.env.order);
    }
  }

  /** Under an operating system that refuses bound ports, only these two kinds of holder can lose a port. */
  lemma WhoSharesItsPort(w: World, allowed: set<int>, e: Event)
    requires Base(w, allowed) && Honest(w, e) && Realistic(w, e) && TakenTwice(w, e)
    ensures var o := w.owner[Granted(w, e).value];
      || (o.Proxy? && o.id in w.regs && w.regs[o.id].Binding?)
      || (o.Group? && Populated(w.g.groups, o.name) && w.g.groups[o.name].port == 0)
  {
    var p := Granted(w, e).value;
    TakenTwiceIff(w, allowed, e);
    assert p in e.env.avail;
    if w.owner[p].Proxy? {
      assert HoldsPort(w.regs, w.owner[p].id, p);
    }
  }

  // ----- a run in which it happens

  const SEVEN: set<int> := {7}

  const FIRST := Name("first")
  const SECOND := Name("second")
  const TEAM := Name("team")

  function Offers(order: seq<int>): Env
  {
    Env(0, SEVEN, order, true)
  }

  /** Two members join a group on any port, the first leaves, and registers again on its own. */
  function Sharing(): seq<Event>
  {
    [Join(1, FIRST, TEAM, "", "", 0, Offers([7])), Join(2, SECOND, TEAM, "", "", 0, Offers([])), Close(1, 0),
     Acquire(3, FIRST, 0, Offers([])), Bind(3, Offers([])), Close(2, 0)]
  }

  function Held(): Spec.Ports
  {
    var rec := Spec.Rec(FIRST, 7, false, 0);
    Spec.Ports({}, map[7 := rec], map[FIRST := rec])
  }

  function Team(lns: seq<nat>): Groups
  {
    map[TEAM := TcpGroup("", "", 0, 7, lns)]
  }

  /** The worlds of the run, one after the other. */
  function After(i: nat): World
  {
    match i
    case 0 => Initial(SEVEN)
    case 1 => World(GroupState(Held(), Team([1])), map[1 := InGroup(TEAM)], map[7 := Group(TEAM)])
    case 2 => World(GroupState(Held(), Team([1, 2])), map[1 := InGroup(TEAM), 2 := InGroup(TEAM)], map[7 := Group(TEAM)])
    case 3 => World(GroupState(Held(), Team([2])), map[2 := InGroup(TEAM)], map[7 := Group(TEAM)])
    case 4 => World(GroupState(Held(), Team([2])), map[2 := InGroup(TEAM), 3 := Binding(7)], map[7 := Owner.Proxy(3)])
    case 5 => World(GroupState(Held(), Team([2])), map[2 := InGroup(TEAM), 3 := Listening(7)], map[7 := Owner.Proxy(3)])
    case _ => World(GroupState(Spec.Ports(SEVEN, map[], map[FIRST := Spec.Rec(FIRST, 7, true, 0)]), map[]),
                    map[3 := Listening(7)], map[])
  }

  lemma JoinsFirst()
    ensures Step(After(0), Sharing()[0]) == After(1)
  {
    var e, w := Sharing()[0], After(0);
    assert Spec.FirstAvailable([7], SEVEN, Spec.MAX_TRY_TIMES) == 7;
    assert Spec.Pick(w.g.ports, FIRST, 0, SEVEN, [7]) == Spec.Got(7);
    assert Spec.Acquire(w.g.ports, FIRST, 0, 0, SEVEN, [7]) == Held() by { assert SEVEN - {7} == {}; }
    assert Listen(w.g, FIRST, TEAM, "", "", 0, 1, e.env).groups == Team([1]);
  }

  lemma JoinsSecond()
    ensures Step(After(1), Sharing()[1]) == After(2)
  {
    assert Team([1])[TEAM].lns + [2] == [1, 2];
  }

  lemma FirstLeaves()
    ensures Step(After(2), Sharing()[2]) == After(3)
  {
    assert Without([1, 2], 1) == [2];
    assert After(2).regs - {1} == After(3).regs;
  }

  lemma FirstReturns()
    ensures Step(After(3), Sharing()[3]) == After(4)
  {
    assert Spec.Grant(Held(), FIRST, 7, 0) == Held() by { assert {} - {7} == {}; }
  }

  lemma FirstListens()
    ensures Step(After(4), Sharing()[4]) == After(5)
  {
  }

  lemma SecondLeaves()
    ensures Step(After(5), Sharing()[5]) == After(6)
  {
    assert Without([2], 2) == [];
    assert After(5).regs - {2} == After(6).regs;
    assert Spec.Release(Held(), 7, 0) == After(6).g.ports by { assert {} + {7} == SEVEN; }
    assert Team([2]) - {TEAM} == map[];
    assert After(5).owner - {7} == map[];
  }

  lemma {:induction false} RunIs(i: nat)
    requires i <= 6
    ensures Exec(SEVEN, Sharing()[..i]) == After(i)
  {
    if i > 0 {
      RunIs(i - 1);
      assert Sharing()[..i][..i - 1] == Sharing()[..i - 1];
      match i {
        case 1 => JoinsFirst();
        case 2 => JoinsSecond();
        case 3 => FirstLeaves();
        case 4 => FirstReturns();
        case 5 => FirstListens();
        case 6 => SecondLeaves();
      }
    }
  }

  lemma RunIsAllowed(i: nat)
    requires i < 6
    ensures Honest(After(i), Sharing()[i]) && Realistic(After(i), Sharing()[i])
  {
    assert forall p :: p in Team([2])[TEAM].lns ==> p == 2;
    if i == 3 {
      assert !Bound(After(3), 7);
    }
  }

  lemma RunIsHonest()
    ensures HonestRun(SEVEN, Sharing())
  {
    forall i | 0 <= i < |Sharing()| ensures Honest(Exec(SEVEN, Sharing()[..i]), Sharing()[i]) {
      RunIs(i);
      RunIsAllowed(i);
    }
  }

  lemma RunIsRealistic()
    ensures RealisticRun(SEVEN, Sharing())
  {
    forall i | 0 <= i < |Sharing()| ensures Realistic(Exec(SEVEN, Sharing()[..i]), Sharing()[i]) {
      RunIs(i);
      RunIsAllowed(i);
    }
  }

  lemma WholeRun()
    ensures Exec(SEVEN, Sharing()) == After(6)
  {
    RunIs(6);
    assert Sharing()[..6] == Sharing();
  }

  /** The allocator counts the port as free under a running proxy. */
  ghost predicate FreedUnder(w: World, id: nat, p: int)
  {
    id in w.regs && w.regs[id] == Listening(p) && p in w.g.ports.free
  }

  /**
   With an operating system that refuses every bound port, and no listen that fails, a group and a proxy share
   port 7 after four steps; when the group ends, the allocator counts the running proxy's port as free.
   */
  lemma SharingHappens()
    ensures HonestRun(SEVEN, Sharing()) && RealisticRun(SEVEN, Sharing())
    ensures !OnePortEach(Exec(SEVEN, Sharing()[..4])) && FreedUnder(Exec(SEVEN, Sharing()), 3, 7)
  {
    RunIsHonest();
    RunIsRealistic();
    assert !OnePortEach(Exec(SEVEN, Sharing()[..4])) by { RunIs(4); TwoClaims(); }
    assert FreedUnder(Exec(SEVEN, Sharing()), 3, 7) by { WholeRun(); }
  }

  lemma TwoClaims()
    ensures !OnePortEach(After(4))
  {
    var proxies, groups := ProxyPorts(After(4).regs), GroupPorts(After(4).g.groups);
    assert proxies == map[3 := 7];
    assert Populated(After(4).g.groups, TEAM);
    assert groups == map[TEAM := 7];
    assert After(4).g.ports.used.Keys == {7};
  }
}
