/**
 The objects behind the steps of module ServerSessions: the two maps of frps and the
 registration of one proxy, as server/control.go and server/proxy/proxy.go write them.
 */
module ServerObjects {
  import opened Wrappers
  import opened ServerControl
  import opened ServerSessions

  /** proxy.Manager: proxies indexed by name. */
  class ProxyManager {
    var pxys: map<Name, Entry>

    constructor ()
      ensures pxys == map[]
    {
      pxys := map[];
    }

    method Add(name: Name, e: Entry) returns (ok: bool)
      modifies this
      ensures ok <==> name !in old(pxys)
      ensures pxys == if ok then old(pxys)[name := e] else old(pxys)
    {
      if name in pxys {
        return false;
      }
      pxys := pxys[name := e];
      return true;
    }

    method Del(name: Name)
      modifies this
      ensures pxys == old(pxys) - {name}
    {
      pxys := pxys - {name};
    }

    method GetByName(name: Name) returns (found: Option<Entry>)
      ensures found.Some? <==> name in pxys
      ensures found.Some? ==> found.value == pxys[name]
    {
      found := if name in pxys then Some(pxys[name]) else None;
    }
  }

  /** The part of Control that registers and closes proxies; open holds the proxies that run. */
  class Control {
    const id: nat
    const maxPorts: nat
    const pxyManager: ProxyManager
    var runID: Option<Name>
    var shutdownStarted: bool
    var proxies: map<Name, Pxy>
    var portsUsedNum: int
    var nextPxy: nat
    var open: set<nat>

    constructor (id: nat, runID: Name, maxPorts: nat, pxyManager: ProxyManager)
      ensures Valid() && this.id == id && this.maxPorts == maxPorts && this.pxyManager == pxyManager
      ensures this.runID == Some(runID) && !shutdownStarted && proxies == map[] && portsUsedNum == 0 && open == {}
    {
      this.id, this.maxPorts, this.pxyManager := id, maxPorts, pxyManager;
      this.runID, shutdownStarted := Some(runID), false;
      proxies, portsUsedNum, nextPxy, open := map[], 0, 0, {};
    }

    /** Every registered proxy is open, and the port count is the sum over them. */
    ghost predicate Valid()
      reads this
    {
      && (forall name :: name in proxies ==> proxies[name].id in open)
      && (forall i :: i in open ==> i < nextPxy)
      && (forall n, m :: n in proxies && m in proxies && n != m ==> proxies[n].id != proxies[m].id)
      && (maxPorts > 0 ==> portsUsedNum == PortSum(proxies) && portsUsedNum <= maxPorts)
    }

    method Replaced()
      modifies this
      ensures runID == None && shutdownStarted
      ensures proxies == old(proxies) && portsUsedNum == old(portsUsedNum) && nextPxy == old(nextPxy) && open == old(open)
    {
      runID := None;
      shutdownStarted := true;
    }

    /** All or nothing: a refusal leaves the count, both maps and the running proxies as they were. */
    method RegisterProxy(name: Name, ports: nat, valid: bool, runs: bool) returns (ok: bool)
      requires Valid() && (forall n :: n in proxies ==> n in pxyManager.pxys)
      modifies this, pxyManager
      ensures Valid() && (forall n :: n in proxies ==> n in pxyManager.pxys)
      ensures ok <==>
        valid && (maxPorts > 0 ==> old(portsUsedNum) + ports <= maxPorts) && runs && name !in old(pxyManager.pxys)
      ensures runID == old(runID) && shutdownStarted == old(shutdownStarted)
      ensures !ok ==>
        && portsUsedNum == old(portsUsedNum) && proxies == old(proxies)
        && open == old(open) && pxyManager.pxys == old(pxyManager.pxys)
      ensures ok ==>
        var pxy := Pxy(old(nextPxy), ports);
        && proxies == old(proxies)[name := pxy] && open == old(open) + {pxy.id}
        && pxyManager.pxys == old(pxyManager.pxys)[name := Entry(id, pxy)]
        && portsUsedNum == old(portsUsedNum) + if maxPorts > 0 then ports else 0
    {
      if !valid {
        return false;
      }
      if maxPorts > 0 {
        if portsUsedNum + ports > maxPorts {
          return false;
        }
        portsUsedNum := portsUsedNum + ports;
      }
      var pxy := Pxy(nextPxy, ports);
      nextPxy := nextPxy + 1;
      if !runs {
        GiveBack(ports);
        return false;
      }
      open := open + {pxy.id};
      var added := pxyManager.Add(name, Entry(id, pxy));
      if !added {
        open := open - {pxy.id};
        GiveBack(ports);
        return false;
      }
      PortSumWith(proxies, name, pxy);
      proxies := proxies[name := pxy];
      return true;
    }

    /** The deferred return of the ports of a failed registration. */
    method GiveBack(ports: nat)
      modifies this`portsUsedNum
      ensures portsUsedNum == old(portsUsedNum) - if maxPorts > 0 then ports else 0
    {
      if maxPorts > 0 {
        portsUsedNum := portsUsedNum - ports;
      }
    }

    /** A name this client does not hold is left alone, whoever holds it. */
    method CloseProxy(name: Name)
      requires Valid() && (forall n :: n in proxies ==> n in pxyManager.pxys)
      modifies this, pxyManager
      ensures Valid() && (forall n :: n in proxies ==> n in pxyManager.pxys)
      ensures runID == old(runID) && shutdownStarted == old(shutdownStarted)
      ensures name !in old(proxies) ==>
        && portsUsedNum == old(portsUsedNum) && proxies == old(proxies)
        && open == old(open) && pxyManager.pxys == old(pxyManager.pxys)
      ensures name in old(proxies) ==>
        var pxy := old(proxies)[name];
        && proxies == old(proxies) - {name} && open == old(open) - {pxy.id}
        && pxyManager.pxys == old(pxyManager.pxys) - {name}
        && portsUsedNum == old(portsUsedNum) - if maxPorts > 0 then pxy.ports else 0
    {
      if name !in proxies {
        return;
      }
      var pxy := proxies[name];
      PortSumWithout(proxies, name);
      GiveBack(pxy.ports);
      open := open - {pxy.id};
      pxyManager.Del(name);
      proxies := proxies - {name};
    }
  }

  /** ControlManager: the sessions of frps by run id. */
  class ControlManager {
    var ctlsByRunID: map<Name, Control>

    constructor ()
      ensures ctlsByRunID == map[]
    {
      ctlsByRunID := map[];
    }

    /** The previous session, if any, loses its run id and is told to stop. */
    method Add(runID: Name, ctl: Control) returns (previous: Option<Control>)
      requires runID in ctlsByRunID ==> ctlsByRunID[runID] != ctl
      modifies this, if runID in ctlsByRunID then {ctlsByRunID[runID]} else {}
      ensures ctlsByRunID == old(ctlsByRunID)[runID := ctl]
      ensures previous == if runID in old(ctlsByRunID) then Some(old(ctlsByRunID)[runID]) else None
      ensures previous.Some? ==>
        var p := previous.value;
        && p.runID == None && p.shutdownStarted
        && p.proxies == old(p.proxies) && p.portsUsedNum == old(p.portsUsedNum) && p.open == old(p.open)
    {
      previous := None;
      if runID in ctlsByRunID {
        ctlsByRunID[runID].Replaced();
        previous := Some(ctlsByRunID[runID]);
      }
      ctlsByRunID := ctlsByRunID[runID := ctl];
    }

    /** Only the session itself is removed, never a newer one. */
    method Del(runID: Name, ctl: Control)
      modifies this
      ensures ctlsByRunID ==
        if runID in old(ctlsByRunID) && old(ctlsByRunID)[runID] == ctl then old(ctlsByRunID) - {runID} else old(ctlsByRunID)
    {
      if runID in ctlsByRunID && ctlsByRunID[runID] == ctl {
        ctlsByRunID := ctlsByRunID - {runID};
      }
    }

    method GetByID(runID: Name) returns (found: Option<Control>)
      ensures found.Some? <==> runID in ctlsByRunID
      ensures found.Some? ==> found.value == ctlsByRunID[runID]
    {
      found := if runID in ctlsByRunID then Some(ctlsByRunID[runID]) else None;
    }
  }

  // ----- the steps of the manager goroutine do what RegisterProxy and CloseProxy do

  /** All steps from taking a NewProxy message to the reply; runs and free are Run's and the registry's answers. */
  function RegistrationSteps(c: Ctl, runs: bool, free: bool): Ctl
  {
    ManagerStore(ManagerCleanUp(ManagerAdd(ManagerRun(ManagerReceive(c), runs), free)))
  }

  lemma RegistrationIsAllOrNothing(c: Ctl, name: Name, ports: nat, valid: bool, runs: bool, free: bool)
    requires c.manager.Idle? && c.readCh.buf != [] && c.readCh.buf[0] == NewProxy(name, ports, valid)
    ensures var c' := RegistrationSteps(c, runs, free);
      var ok := valid && (c.maxPorts > 0 ==> c.portsUsed + ports <= c.maxPorts) && runs && free;
      && c'.manager == Replying(NewProxyResp(name, ok), false)
      && c'.proxies == (if ok then c.proxies[name := Pxy(c.nextPxy, ports)] else c.proxies)
      && c'.portsUsed == c.portsUsed + if ok && c.maxPorts > 0 then ports else 0
  {
    var c1 := ManagerReceive(c);
    var c2 := ManagerRun(c1, runs);
    var c3 := ManagerAdd(c2, free);
    var c4 := ManagerCleanUp(c3);
    if c1.manager.Reserved? {
      assert c1.manager == Reserved(name, Pxy(c.nextPxy, ports));
      if runs && free {
        assert c4 == c3 && c3.manager.Added?;
      } else {
        assert c3.manager.Failed?;
        assert c4.manager.Replying?;
      }
    } else {
      assert c4 == c1;
    }
  }

  /**
   Round trip: after NewProxy and CloseProxy for a name the session did not have, whatever became of the
   registration, its proxies and its port count are as before.
   */
  lemma CloseUndoesRegistration(c: Ctl, name: Name, ports: nat, valid: bool, runs: bool, free: bool)
    requires c.manager.Idle? && |c.readCh.buf| >= 2 && name !in c.proxies
    requires c.readCh.buf[0] == NewProxy(name, ports, valid) && c.readCh.buf[1] == ToServer.CloseProxy(name)
    requires !c.sendCh.closed && !c.sendCh.Full()
    ensures var c' := ManagerReceive(ManagerReply(RegistrationSteps(c, runs, free)));
      c'.manager.Idle? && c'.proxies == c.proxies && c'.portsUsed == c.portsUsed
  {
    RegistrationIsAllOrNothing(c, name, ports, valid, runs, free);
    RegistrationFrame(c, runs, free);
    var c1 := ManagerReply(RegistrationSteps(c, runs, free));
    assert c1.manager.Idle? && c1.readCh.buf[0] == ToServer.CloseProxy(name);
    if name in c1.proxies {
      assert c1.proxies - {name} == c.proxies;
    }
  }

  predicate SameChannels(c: Ctl, c': Ctl)
  {
    c'.readCh == c.readCh && c'.sendCh == c.sendCh && c'.maxPorts == c.maxPorts
  }

  lemma ManagerStepsFrame(c: Ctl, ok: bool)
    ensures SameChannels(c, ManagerRun(c, ok)) && SameChannels(c, ManagerAdd(c, ok))
    ensures SameChannels(c, ManagerCleanUp(c)) && SameChannels(c, ManagerStore(c))
  {
  }

  lemma ReceiveTakes(c: Ctl)
    requires c.manager.Idle? && c.readCh.buf != []
    ensures ManagerReceive(c).readCh == c.readCh.Pop()
    ensures ManagerReceive(c).sendCh == c.sendCh && ManagerReceive(c).maxPorts == c.maxPorts
  {
  }

  lemma RegistrationFrame(c: Ctl, runs: bool, free: bool)
    requires c.manager.Idle? && c.readCh.buf != []
    ensures var c' := RegistrationSteps(c, runs, free);
      c'.readCh == c.readCh.Pop() && c'.sendCh == c.sendCh && c'.maxPorts == c.maxPorts
  {
    var c1 := ManagerReceive(c);
    var c2 := ManagerRun(c1, runs);
    var c3 := ManagerAdd(c2, free);
    var c4 := ManagerCleanUp(c3);
    ReceiveTakes(c);
    assert SameChannels(c1, c2) by { ManagerStepsFrame(c1, runs); }
    assert SameChannels(c2, c3) by { ManagerStepsFrame(c2, free); }
    assert SameChannels(c3, c4) by { ManagerStepsFrame(c3, free); }
    assert SameChannels(c4, ManagerStore(c4)) by { ManagerStepsFrame(c4, free); }
  }
}
