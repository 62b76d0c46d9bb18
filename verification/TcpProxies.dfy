/**
 TCP groups and TCP proxies as frps runs them (server/group/tcp.go and
 server/proxy/tcp.go): objects that share the port manager and update it in place.
 */
module TcpProxies {
  import opened Wrappers
  import Spec = PortSpec
  import opened PortManager
  import W = TcpWorld

  class TcpGroupCtl {
    const portManager: Manager
    var groups: W.Groups

    ghost predicate Valid()
      reads this, portManager, portManager.usedPorts.Values, portManager.reservedPorts.Values
    {
      portManager.Valid()
    }

    ghost function State(): W.GroupState
      reads this, portManager
    {
      W.GroupState(portManager.view, groups)
    }

    constructor (portManager: Manager)
      requires portManager.Valid()
      ensures Valid() && this.portManager == portManager && groups == map[]
    {
      this.portManager := portManager;
      groups := map[];
    }

    /** TCPGroupCtl.Listen with TCPGroup.Listen: the first member acquires, the others join. */
    method Listen(proxyName: Name, group: Name, groupKey: string, addr: string, port: int, id: nat, env: W.Env)
      returns (realPort: int, err: Option<W.GroupError>)
      requires Valid()
      requires Spec.Enumerates(env.order, portManager.freePorts)
      modifies this, portManager
      ensures Valid()
      ensures err == W.ListenError(old(State()), proxyName, group, groupKey, addr, port, env)
      ensures State() == W.Listen(old(State()), proxyName, group, groupKey, addr, port, id, env)
      ensures err.None? ==> W.Populated(groups, group) && id in groups[group].lns && realPort == groups[group].realPort
      ensures W.Populated(old(groups), group) ==>
        var g := old(groups)[group];
        && (err == None <==> addr == g.addr && port == g.port && groupKey == g.groupKey)
        && (err == Some(W.ParamsInvalid) <==> addr != g.addr)
        && (err == Some(W.DifferentPort) <==> addr == g.addr && port != g.port)
        && (err == Some(W.AuthFailed) <==> addr == g.addr && port == g.port && groupKey != g.groupKey)
        && (err == None ==> groups == old(groups)[group := g.(lns := g.lns + [id])])
        && portManager.view == old(portManager.view)
    {
      realPort := 0;
      if group !in groups {
        groups := groups[group := W.NEW_GROUP];
      }
      var g := groups[group];
      if |g.lns| == 0 {
        var out := portManager.Acquire(proxyName, port, env.now, env.avail, env.order);
        if out.Failed? {
          return 0, Some(W.AcquireFailed(out.err));
        }
        realPort := out.port;
        if !env.bindOk {
          return realPort, Some(W.ListenFailed);
        }
        groups := groups[group := W.TcpGroup(groupKey, addr, port, realPort, [id])];
      } else {
        if g.addr != addr {
          return 0, Some(W.ParamsInvalid);
        }
        if g.port != port {
          return 0, Some(W.DifferentPort);
        }
        if g.groupKey != groupKey {
          return 0, Some(W.AuthFailed);
        }
        realPort := g.realPort;
        groups := groups[group := g.(lns := g.lns + [id])];
      }
      err := None;
    }

    /** TCPGroup.CloseListener: the last member returns the port. */
    method CloseListener(group: Name, id: nat, now: int)
      requires Valid() && group in groups
      modifies this, portManager, portManager.usedPorts.Values
      ensures Valid()
      ensures State() == W.CloseListener(old(State()), group, id, now)
    {
      var g := groups[group];
      var lns := DropListener(g.lns, id);
      if |lns| == 0 {
        portManager.Release(g.realPort, now);
        groups := groups - {group};
      } else {
        groups := groups[group := g.(lns := lns)];
      }
    }
  }

  /** The slice edit of CloseListener: drop the first occurrence. */
  method DropListener(lns: seq<nat>, id: nat) returns (out: seq<nat>)
    ensures out == W.Without(lns, id)
  {
    for i := 0 to |lns|
      invariant W.Without(lns, id) == lns[..i] + W.Without(lns[i..], id)
    {
      assert lns[i..][1..] == lns[i + 1..];
      if lns[i] == id {
        return lns[..i] + lns[i + 1..];
      }
      assert lns[..i + 1] == lns[..i] + [lns[i]];
    }
    assert lns[|lns|..] == [] && lns[..|lns|] == lns;
    return lns;
  }

  class TcpProxy {
    const name: Name
    const id: nat  // the identity of this object and of the listener it creates
    const group: Name
    const groupKey: string
    const bindAddr: string
    const groupCtl: TcpGroupCtl
    var remotePort: int
    var realPort: int
    var listening: bool

    predicate Grouped()
    {
      group.text != ""
    }

    constructor (name: Name, id: nat, group: Name, groupKey: string, bindAddr: string, remotePort: int, groupCtl: TcpGroupCtl)
      ensures this.name == name && this.id == id && this.group == group && this.groupKey == groupKey
      ensures this.bindAddr == bindAddr && this.remotePort == remotePort && this.groupCtl == groupCtl
      ensures realPort == 0 && !listening
    {
      this.name, this.id, this.group, this.groupKey := name, id, group, groupKey;
      this.bindAddr, this.remotePort, this.groupCtl := bindAddr, remotePort, groupCtl;
      realPort, listening := 0, false;
    }

    /** After a successful Run: the port is held for this name, or the proxy is a member of its group. */
    ghost predicate Open()
      reads this, groupCtl, groupCtl.portManager
    {
      && listening
      && (if Grouped() then W.Populated(groupCtl.groups, group) && id in groupCtl.groups[group].lns
          else realPort in groupCtl.portManager.view.used && groupCtl.portManager.view.used[realPort].name == name)
    }

    /** The grouped branch of TCPProxy.Run. */
    method RunInGroup(env: W.Env) returns (failed: bool)
      requires groupCtl.Valid() && !listening && Grouped()
      requires Spec.Enumerates(env.order, groupCtl.portManager.freePorts)
      modifies this, groupCtl, groupCtl.portManager
      ensures groupCtl.Valid()
      ensures failed <==> W.ListenError(old(groupCtl.State()), name, group, groupKey, bindAddr, old(remotePort), env).Some?
      ensures groupCtl.State() == W.Listen(old(groupCtl.State()), name, group, groupKey, bindAddr, old(remotePort), id, env)
      ensures !failed ==> Open() && remotePort == realPort == groupCtl.groups[group].realPort
    {
      var port, err := groupCtl.Listen(name, group, groupKey, bindAddr, remotePort, id, env);
      if err.Some? {
        return true;
      }
      Settle(port);
      return false;
    }

    /** The end of a successful Run. */
    method Settle(port: int)
      requires groupCtl.Valid()
      modifies this
      ensures groupCtl.Valid() && listening && realPort == port && remotePort == port
    {
      realPort, remotePort, listening := port, port, true;
      groupCtl.portManager.Undisturbed();
    }

    /** The deferred release of a port whose listener could not be opened. */
    method GiveBack(ghost before: Spec.Ports, port: int, now: int)
      requires groupCtl.Valid() && Spec.Inv(before, groupCtl.portManager.allowed)
      requires groupCtl.portManager.view == Spec.Grant(before, name, port, now)
      modifies groupCtl.portManager, groupCtl.portManager.usedPorts.Values
      ensures groupCtl.Valid()
      ensures groupCtl.portManager.view.used == before.used - {port}
      ensures groupCtl.portManager.view.free == before.free + {port}
    {
      AfterUndo(before, name, port, now);
      groupCtl.portManager.Release(port, now);
    }

    /**
     The ungrouped branch of TCPProxy.Run. Success opens the proxy on the granted port. Failure leaves no
     port in use for it, so free and used ports are as they were unless the port was someone else's.
     */
    method RunAlone(env: W.Env) returns (failed: bool)
      requires groupCtl.Valid() && !listening && !Grouped()
      requires Spec.Enumerates(env.order, groupCtl.portManager.freePorts)
      modifies this, groupCtl.portManager, groupCtl.portManager.usedPorts.Values
      ensures groupCtl.Valid()
      ensures var out := Spec.Pick(old(groupCtl.portManager.view), name, old(remotePort), env.avail, env.order);
              && (failed <==> out.Failed? || !env.bindOk)
              && (!failed ==> out == Spec.Got(realPort)
                              && groupCtl.portManager.view == Spec.Grant(old(groupCtl.portManager.view), name, realPort, env.now))
      ensures failed ==>
                var lost := Lost(Spec.Pick(old(groupCtl.portManager.view), name, old(remotePort), env.avail, env.order));
                && groupCtl.portManager.view.used == old(groupCtl.portManager.view.used) - lost
                && groupCtl.portManager.view.free == old(groupCtl.portManager.view.free) + lost
      ensures !failed ==> Open() && remotePort == realPort
    {
      ghost var before := groupCtl.portManager.view;
      Spec.AcquireKeeps(before, groupCtl.portManager.allowed, name, remotePort, env.now, env.avail, env.order);
      var out := groupCtl.portManager.Acquire(name, remotePort, env.now, env.avail, env.order);
      if out.Failed? {
        return true;
      }
      if !env.bindOk {
        GiveBack(before, out.port, env.now);
        return true;
      }
      Settle(out.port);
      return false;
    }

    /** TCPProxy.Run: on failure no port stays in use for the proxy, save a group's failed first listen. */
    method Run(env: W.Env) returns (failed: bool)
      requires groupCtl.Valid() && !listening
      requires Spec.Enumerates(env.order, groupCtl.portManager.freePorts)
      modifies this, groupCtl, groupCtl.portManager, groupCtl.portManager.usedPorts.Values
      ensures groupCtl.Valid()
      ensures !failed ==> Open() && remotePort == realPort
      ensures Grouped() && W.Populated(old(groupCtl.groups), group) ==>
        var g := old(groupCtl.groups)[group];
        && (failed <==> bindAddr != g.addr || old(remotePort) != g.port || groupKey != g.groupKey)
        && (!failed ==> realPort == g.realPort && groupCtl.groups == old(groupCtl.groups)[group := g.(lns := g.lns + [id])])
      ensures !Grouped() || !W.Populated(old(groupCtl.groups), group) ==>
        var out := Spec.Pick(old(groupCtl.portManager.view), name, old(remotePort), env.avail, env.order);
        && (failed <==> out.Failed? || !env.bindOk)
        && (!failed ==> out == Spec.Got(realPort)
                        && groupCtl.portManager.view == Spec.Grant(old(groupCtl.portManager.view), name, realPort, env.now))
        && (!failed && Grouped() ==>
              groupCtl.groups == old(groupCtl.groups)[group := W.TcpGroup(groupKey, bindAddr, old(remotePort), realPort, [id])])
      ensures !Grouped() ==> groupCtl.groups == old(groupCtl.groups)
      ensures failed && Grouped() && W.AcquiredBy(old(groupCtl.State()), name, group, old(remotePort), env).None? ==>
                groupCtl.portManager.view == old(groupCtl.portManager.view)
      ensures failed && !Grouped() ==>
                groupCtl.portManager.view.used == old(groupCtl.portManager.view.used)
                  - Lost(Spec.Pick(old(groupCtl.portManager.view), name, old(remotePort), env.avail, env.order))
    {
      if Grouped() {
        failed := RunInGroup(env);
      } else {
        failed := RunAlone(env);
      }
    }

    /** TCPProxy.Close: the group listener leaves its group, an ungrouped proxy returns its port. */
    method Close(now: int)
      requires groupCtl.Valid() && listening && (Grouped() ==> group in groupCtl.groups)
      modifies this, groupCtl, groupCtl.portManager, groupCtl.portManager.usedPorts.Values
      ensures groupCtl.Valid() && !listening
      ensures Grouped() ==> groupCtl.State() == W.CloseListener(old(groupCtl.State()), group, id, now)
      ensures !Grouped() ==>
                && groupCtl.groups == old(groupCtl.groups)
                && groupCtl.portManager.view == Spec.Release(old(groupCtl.portManager.view), old(realPort), now)
    {
      listening := false;
      if Grouped() {
        groupCtl.CloseListener(group, id, now);
      } else {
        groupCtl.portManager.Release(realPort, now);
      }
    }
  }

  /** The port that a failed Run of an ungrouped proxy releases. */
  function Lost(out: Spec.Outcome): set<int>
  {
    if out.Got? then {out.port} else {}
  }

  /** A release right after the grant leaves the port free, whoever held it before. */
  lemma AfterUndo(s: Spec.Ports, name: Name, port: int, now: int)
    ensures var s' := Spec.Release(Spec.Grant(s, name, port, now), port, now);
            s'.used == s.used - {port} && s'.free == s.free + {port}
  {
    assert s.used[port := Spec.Rec(name, port, false, now)] - {port} == s.used - {port};
    assert s.free - {port} + {port} == s.free + {port};
  }

  /** Releasing a port right after its grant restores free and used ports if and only if the port was free. */
  lemma UndoGrantIff(s: Spec.Ports, allowed: set<int>, name: Name, port: int, now: int)
    requires Spec.Inv(s, allowed) && port in allowed
    ensures var s' := Spec.Release(Spec.Grant(s, name, port, now), port, now);
            s'.free == s.free && s'.used == s.used <==> port in s.free
  {
    AfterUndo(s, name, port, now);
    if port in s.free {
      assert port !in s.used;
      assert s.used - {port} == s.used && s.free + {port} == s.free;
    } else {
      assert port in s.free + {port};
    }
  }
}
