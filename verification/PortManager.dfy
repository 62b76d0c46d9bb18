/**
 The port allocator as frps implements it (server/ports/ports.go): used ports and
 reservations share mutable records, so releasing a port also closes the
 reservation that points to the same record.
 */
module PortManager {
  import opened Wrappers
  import Spec = PortSpec

  class PortCtx {
    const proxyName: Name
    var port: int
    var closed: bool
    var updateTime: int

    constructor (proxyName: Name, now: int)
      ensures this.proxyName == proxyName && port == 0 && !closed && updateTime == now
    {
      this.proxyName, port, closed, updateTime := proxyName, 0, false, now;
    }

    ghost function Value(): Spec.Rec
      reads this
    {
      Spec.Rec(proxyName, port, closed, updateTime)
    }
  }

  class Manager {
    var reservedPorts: map<Name, PortCtx>
    var usedPorts: map<int, PortCtx>
    var freePorts: set<int>
    ghost const allowed: set<int>
    ghost var view: Spec.Ports  // the allocator without sharing

    ghost predicate UsedAgree()
      reads this, usedPorts.Values
    {
      && usedPorts.Keys == view.used.Keys
      && forall p :: p in usedPorts ==> usedPorts[p].Value() == view.used[p]
    }

    ghost predicate ReservedAgree()
      reads this, reservedPorts.Values
    {
      && reservedPorts.Keys == view.reserved.Keys
      && forall n :: n in reservedPorts ==> reservedPorts[n].Value() == view.reserved[n]
    }

    /** A reservation and a used entry with the same value are the same record. */
    ghost predicate Shared()
      reads this, usedPorts.Values, reservedPorts.Values
    {
      forall n, p :: n in reservedPorts && p in usedPorts && reservedPorts[n].Value() == usedPorts[p].Value()
                     ==> reservedPorts[n] == usedPorts[p]
    }

    ghost predicate Valid()
      reads this, usedPorts.Values, reservedPorts.Values
    {
      && freePorts == view.free
      && UsedAgree() && ReservedAgree() && Shared()
      && Spec.Inv(view, allowed)
    }

    /** Validity depends on the manager and its records only. */
    twostate lemma Undisturbed()
      requires old(Valid()) && unchanged(this)
      requires forall c :: c in old(usedPorts).Values ==> unchanged(c)
      requires forall c :: c in old(reservedPorts).Values ==> unchanged(c)
      ensures Valid()
    {
      forall p | p in usedPorts ensures usedPorts[p].Value() == old(usedPorts[p].Value()) {
        assert usedPorts[p] in usedPorts.Values;
      }
      forall n | n in reservedPorts ensures reservedPorts[n].Value() == old(reservedPorts[n].Value()) {
        assert reservedPorts[n] in reservedPorts.Values;
      }
      assert old(UsedAgree()) && old(ReservedAgree()) && old(Shared());
      assert UsedAgree();
      assert ReservedAgree();
      assert Shared() by {
        forall n, p | n in reservedPorts && p in usedPorts && reservedPorts[n].Value() == usedPorts[p].Value()
          ensures reservedPorts[n] == usedPorts[p]
        {
          assert old(reservedPorts[n].Value()) == old(usedPorts[p].Value());
        }
      }
    }

    /** NewManager, given the ports it may use. */
    constructor (allowPorts: set<int>)
      requires 0 !in allowPorts
      ensures Valid() && allowed == allowPorts && view == Spec.Initial(allowPorts)
    {
      reservedPorts, usedPorts, freePorts := map[], map[], allowPorts;
      allowed := allowPorts;
      view := Spec.Initial(allowPorts);
    }

    /** The new record goes into both maps. */
    method Enter(name: Name, realPort: int, now: int) returns (portCtx: PortCtx)
      modifies this`usedPorts, this`reservedPorts, this`freePorts
      ensures fresh(portCtx) && portCtx.Value() == Spec.Rec(name, realPort, false, now)
      ensures usedPorts == old(usedPorts)[realPort := portCtx] && reservedPorts == old(reservedPorts)[name := portCtx]
      ensures freePorts == old(freePorts) - {realPort}
    {
      portCtx := new PortCtx(name, now);
      usedPorts := usedPorts[realPort := portCtx];
      reservedPorts := reservedPorts[name := portCtx];
      freePorts := freePorts - {realPort};
      portCtx.port := realPort;
    }

    /** Record a grant; every path of Acquire that finds a port ends with these updates. */
    method Take(name: Name, realPort: int, now: int)
      requires Valid() && realPort in allowed
      modifies this
      ensures Valid()
      ensures view == Spec.Grant(old(view), name, realPort, now)
      ensures fresh(usedPorts.Values - old(usedPorts.Values))
    {
      EqualMeansShared();
      ghost var before := view;
      var portCtx := Enter(name, realPort, now);
      view := Spec.Grant(view, name, realPort, now);
      Taken(before, portCtx, name, realPort, now);
    }

    /** With its new record in both maps, the manager again agrees with the allocator without sharing. */
    lemma Taken(before: Spec.Ports, ctx: PortCtx, name: Name, port: int, now: int)
      requires Spec.Inv(before, allowed) && port in allowed
      requires view == Spec.Grant(before, name, port, now) && freePorts == view.free
      requires ctx.Value() == Spec.Rec(name, port, false, now)
      requires usedPorts.Keys == view.used.Keys && reservedPorts.Keys == view.reserved.Keys
      requires port in usedPorts && usedPorts[port] == ctx && name in reservedPorts && reservedPorts[name] == ctx
      requires forall p :: p in usedPorts && p != port ==> p in before.used && usedPorts[p].Value() == before.used[p]
      requires forall n :: n in reservedPorts && n != name ==> n in before.reserved && reservedPorts[n].Value() == before.reserved[n]
      requires forall n, p ::
        n in reservedPorts && n != name && p in usedPorts && p != port && before.reserved[n] == before.used[p] ==>
          reservedPorts[n] == usedPorts[p]
      ensures Valid()
    {
      Spec.GrantKeeps(before, allowed, name, port, now);
      assert UsedAgree();
      assert ReservedAgree();
      assert Shared() by {
        forall n, p | n in reservedPorts && p in usedPorts && reservedPorts[n].Value() == usedPorts[p].Value()
          ensures reservedPorts[n] == usedPorts[p]
        {
          assert view.used[p] == usedPorts[p].Value() && view.reserved[n] == reservedPorts[n].Value();
          assert n == name <==> p == port;
        }
      }
    }

    /** Acquire: the operating system grants avail, the map iteration visits the free ports in order. */
    method Acquire(name: Name, port: int, now: int, avail: set<int>, order: seq<int>) returns (out: Spec.Outcome)
      requires Valid()
      requires Spec.Enumerates(order, freePorts)
      modifies this
      ensures Valid()
      ensures out == Spec.Pick(old(view), name, port, avail, order)
      ensures view == Spec.Acquire(old(view), name, port, now, avail, order)
      ensures fresh(usedPorts.Values - old(usedPorts.Values))
    {
      Spec.AcquireKeeps(view, allowed, name, port, now, avail, order);
      if port == 0 && name in reservedPorts {
        var ctx := reservedPorts[name];
        assert ctx.Value() == view.reserved[name];
        if ctx.port in avail {
          Take(name, ctx.port, now);
          return Spec.Got(ctx.port);
        }
      }
      if port == 0 {
        var realPort := TryPorts(avail, order);
        if realPort == 0 {
          return Spec.Failed(Spec.NoAvailablePort);
        }
        Take(name, realPort, now);
        return Spec.Got(realPort);
      }
      if port in freePorts {
        if port in avail {
          Take(name, port, now);
          return Spec.Got(port);
        }
        return Spec.Failed(Spec.PortUnavailable);
      }
      if port in usedPorts {
        return Spec.Failed(Spec.PortAlreadyUsed);
      }
      return Spec.Failed(Spec.PortNotAllowed);
    }

    method Release(port: int, now: int)
      requires Valid()
      modifies this, if port in usedPorts then {usedPorts[port]} else {}
      ensures Valid()
      ensures view == Spec.Release(old(view), port, now)
    {
      if port !in usedPorts { return; }
      var ctx := usedPorts[port];
      ghost var before := view;
      OnlyHolder(port);
      EqualMeansShared();
      freePorts := freePorts + {port};
      usedPorts := usedPorts - {port};
      ctx.closed := true;
      ctx.updateTime := now;
      view := Spec.Release(view, port, now);
      Released(before, ctx, port, now);
    }

    lemma EqualMeansShared()
      requires Valid()
      ensures forall n, p :: n in reservedPorts && p in usedPorts && view.reserved[n] == view.used[p] ==> reservedPorts[n] == usedPorts[p]
    {
    }

    /** Once the record of a used port is closed, the manager again agrees with the allocator without sharing. */
    lemma Released(before: Spec.Ports, ctx: PortCtx, port: int, now: int)
      requires Spec.Inv(before, allowed) && port in before.used
      requires view == Spec.Release(before, port, now) && freePorts == view.free
      requires ctx.Value() == before.used[port].(closed := true, time := now)
      requires usedPorts.Keys == view.used.Keys && reservedPorts.Keys == before.reserved.Keys
      requires forall p :: p in usedPorts ==> usedPorts[p].Value() == before.used[p]
      requires forall n :: n in reservedPorts ==> (reservedPorts[n] == ctx <==> before.reserved[n] == before.used[port])
      requires forall n :: n in reservedPorts && reservedPorts[n] != ctx ==> reservedPorts[n].Value() == before.reserved[n]
      requires forall n, p :: n in reservedPorts && p in usedPorts && before.reserved[n] == before.used[p] ==> reservedPorts[n] == usedPorts[p]
      ensures Valid()
    {
      Spec.ReleaseKeeps(before, allowed, port, now);
      assert ReservedAgree() by {
        forall n | n in reservedPorts ensures reservedPorts[n].Value() == view.reserved[n] {
          if reservedPorts[n] == ctx {
            assert before.reserved[n].name == n;
          }
        }
      }
      assert Shared() by {
        forall n, p | n in reservedPorts && p in usedPorts && reservedPorts[n].Value() == usedPorts[p].Value()
          ensures reservedPorts[n] == usedPorts[p]
        {
          assert !before.used[p].closed;
          assert reservedPorts[n] != ctx;
        }
      }
    }

    /** The record of a used port is shared with no other used port, and with a reservation only when they are equal. */
    lemma OnlyHolder(port: int)
      requires Valid() && port in usedPorts
      ensures forall p :: p in usedPorts && p != port ==> usedPorts[p] != usedPorts[port]
      ensures forall n :: n in reservedPorts ==>
                (reservedPorts[n] == usedPorts[port] <==> view.reserved[n] == view.used[port])
      ensures forall n :: n in reservedPorts && reservedPorts[n] == usedPorts[port] ==> n == usedPorts[port].proxyName
    {
      forall p | p in usedPorts && p != port ensures usedPorts[p] != usedPorts[port] {
        assert usedPorts[p].Value() == view.used[p] && usedPorts[port].Value() == view.used[port];
      }
      forall n | n in reservedPorts
        ensures reservedPorts[n] == usedPorts[port] <==> view.reserved[n] == view.used[port]
        ensures reservedPorts[n] == usedPorts[port] ==> n == usedPorts[port].proxyName
      {
        assert reservedPorts[n].Value() == view.reserved[n] && usedPorts[port].Value() == view.used[port];
      }
    }

    /** The cleaner's loop: delete expired reservations while iterating over them, in any order. */
    method DropExpired(now: int)
      modifies this`reservedPorts
      ensures reservedPorts.Keys <= old(reservedPorts).Keys
      ensures forall n :: n in old(reservedPorts) ==>
                (n in reservedPorts <==> !Spec.Expired(old(reservedPorts)[n].Value(), now))
      ensures forall n :: n in reservedPorts ==> reservedPorts[n] == old(reservedPorts)[n]
    {
      var names := reservedPorts.Keys;
      ghost var before := reservedPorts;
      while names != {}
        invariant names <= reservedPorts.Keys <= before.Keys
        invariant forall n :: n in reservedPorts ==> reservedPorts[n] == before[n]
        invariant forall n :: n in before ==>
                    (n in reservedPorts <==> n in names || !Spec.Expired(before[n].Value(), now))
        decreases |names|
      {
        var name :| name in names;
        names := names - {name};
        var ctx := reservedPorts[name];
        if ctx.closed && now - ctx.updateTime > Spec.RESERVED_DURATION {
          reservedPorts := reservedPorts - {name};
        }
      }
    }

    /** One pass of cleanReservedPortsWorker. */
    method CleanReservedPorts(now: int)
      requires Valid()
      modifies this
      ensures Valid()
      ensures view == Spec.Clean(old(view), now)
    {
      assert forall n :: n in reservedPorts ==> reservedPorts[n].Value() == view.reserved[n];
      DropExpired(now);
      Spec.CleanKeeps(view, allowed, now);
      view := Spec.Clean(view, now);
      assert ReservedAgree();
    }
  }

  /** The bounded probing loop of Acquire. */
  method TryPorts(avail: set<int>, order: seq<int>) returns (realPort: int)
    ensures realPort == Spec.FirstAvailable(order, avail, Spec.MAX_TRY_TIMES)
  {
    var count := 0;
    for i := 0 to |order|
      invariant count == i && count <= Spec.MAX_TRY_TIMES
      invariant Spec.FirstAvailable(order, avail, Spec.MAX_TRY_TIMES)
             == Spec.FirstAvailable(order[i..], avail, Spec.MAX_TRY_TIMES - i)
    {
      count := count + 1;
      if count > Spec.MAX_TRY_TIMES {
        return 0;
      }
      assert order[i..][1..] == order[i + 1..];
      if order[i] in avail {
        return order[i];
      }
    }
    return 0;
  }
}
