/**
 The objects of client/proxy: a Wrapper with its lock-protected steps
 (proxy_wrapper.go) and the Manager with hot reload (proxy_manager.go). Phases and
 messages are those of module ProxyLifecycle.
 */
module ClientManager {
  import opened Wrappers
  import opened ProxyLifecycle
  import opened Fleet

  /** A proxy configuration; Compare is equality. */
  datatype Cfg = Cfg(name: Name, checked: bool, rest: nat)

  /** The control connection's sendCh as HandleEvent uses it: a send after its close is recovered. */
  class Outbox {
    var closed: bool
    var msgs: seq<Tagged<Up>>

    constructor ()
      ensures !closed && msgs == []
    {
      closed, msgs := false, [];
    }

    method HandleEvent(name: Name, m: Up)
      modifies this`msgs
      ensures msgs == old(msgs) + if closed then [] else [Tagged(name, m)]
    {
      if !closed {
        msgs := msgs + [Tagged(name, m)];
      }
    }
  }

  class Wrapper {
    const cfg: Cfg
    const out: Outbox
    var phase: Phase
    var healthy: bool
    var stopped: bool   // closeCh is closed

    constructor (cfg: Cfg, out: Outbox)
      ensures this.cfg == cfg && this.out == out
      ensures !stopped && phase == New && healthy == !cfg.checked && Current() == NewWrapper(cfg.checked)
    {
      this.cfg, this.out := cfg, out;
      phase, healthy, stopped := New, !cfg.checked, false;
    }

    function Current(): ProxyLifecycle.Wrapper
      reads this
    {
      ProxyLifecycle.Wrapper(phase, cfg.checked, healthy)
    }

    method Close()
      modifies out`msgs
      ensures out.msgs == old(out.msgs) + if out.closed then [] else [Tagged(cfg.name, CloseProxy)]
    {
      out.HandleEvent(cfg.name, CloseProxy);
    }

    /** Closing closeCh a second time would panic. */
    method Stop()
      requires !stopped
      modifies this, out`msgs
      ensures stopped && phase == Closed && healthy == old(healthy)
      ensures out.msgs == old(out.msgs) + if out.closed then [] else [Tagged(cfg.name, CloseProxy)]
    {
      stopped := true;
      phase := Closed;
      Close();
    }

    /** One round of checkWorker. */
    method CheckOnce(timedOut: bool)
      modifies this, out`msgs
      ensures Current() == old(Current()).(phase := CheckPhase(old(Current()), timedOut)) && stopped == old(stopped)
      ensures out.msgs == old(out.msgs) + if out.closed then [] else Tag(cfg.name, CheckSends(old(Current()), timedOut))
      ensures healthy == old(healthy) && (!healthy ==> phase != Running && phase != WaitStart)
      ensures !healthy && old(phase) in {Running, WaitStart} ==>
        phase == CheckFailed && out.msgs == old(out.msgs) + if out.closed then [] else [Tagged(cfg.name, CloseProxy)]
      ensures healthy && (old(phase) in {New, CheckFailed} || (timedOut && old(phase) in {WaitStart, StartErr})) ==>
        phase == WaitStart && out.msgs == old(out.msgs) + if out.closed then [] else [Tagged(cfg.name, StartProxy)]
      ensures healthy && (old(phase) in {Running, Closed} || (!timedOut && old(phase) in {WaitStart, StartErr})) ==>
        phase == old(phase) && out.msgs == old(out.msgs)
      ensures !healthy && old(phase) !in {Running, WaitStart} ==> phase == old(phase) && out.msgs == old(out.msgs)
    {
      ghost var before := Current();
      assert forall m: Up :: Tag(cfg.name, [m]) == [Tagged(cfg.name, m)];
      if healthy {
        if phase == New || phase == CheckFailed || (phase == WaitStart && timedOut) || (phase == StartErr && timedOut) {
          phase := WaitStart;
          out.HandleEvent(cfg.name, StartProxy);
        }
      } else {
        if phase == Running || phase == WaitStart {
          Close();
          phase := CheckFailed;
        }
      }
    }

    /** The answer of frps; runs is whether the local proxy starts. */
    method SetRunningStatus(ok: bool, runs: bool) returns (err: bool)
      modifies this, out`msgs
      ensures Current() == old(Current()).(phase := StatusPhase(old(Current()), ok, runs)) && stopped == old(stopped)
      ensures out.msgs == old(out.msgs) + if out.closed then [] else Tag(cfg.name, StatusSends(old(Current()), ok, runs))
      ensures err <==> !(old(phase) == WaitStart && ok && runs)
      ensures phase == if old(phase) != WaitStart then old(phase) else if ok && runs then Running else StartErr
      ensures out.msgs == old(out.msgs) + if old(phase) == WaitStart && ok && !runs && !out.closed then [Tagged(cfg.name, CloseProxy)] else []
    {
      assert forall m: Up :: Tag(cfg.name, [m]) == [Tagged(cfg.name, m)];
      if phase != WaitStart {
        return true;
      }
      if !ok {
        phase := StartErr;
        return true;
      }
      if !runs {
        Close();
        phase := StartErr;
        return true;
      }
      phase := Running;
      return false;
    }
  }

  type Proxies = map<Name, Wrapper>

  /** The reload keeps this proxy. */
  predicate Kept(cfg: Cfg, cfgs: map<Name, Cfg>, name: Name)
  {
    name in cfgs && cfg == cfgs[name]
  }

  /** The map files each wrapper under its own name; made has them all. */
  ghost predicate Filed(proxies: Proxies, out: Outbox, made: set<Wrapper>)
  {
    forall n :: n in proxies ==> proxies[n] in made && proxies[n].cfg.name == n && proxies[n].out == out
  }

  ghost predicate Unstopped(proxies: Proxies, made: set<Wrapper>)
    reads made
  {
    forall n :: n in proxies && proxies[n] in made ==> !proxies[n].stopped
  }

  /** One CloseProxy for each name dropped, and nothing else. */
  ghost predicate ClosesOnly(sent: seq<Tagged<Up>>, dropped: set<Name>)
  {
    forall n: Name :: Of(sent, n) == if n in dropped then [CloseProxy] else []
  }

  lemma ClosesMore(sent: seq<Tagged<Up>>, dropped: set<Name>, name: Name)
    requires ClosesOnly(sent, dropped) && name !in dropped
    ensures ClosesOnly(sent + [Tagged(name, CloseProxy)], dropped + {name})
  {
    var one := [Tagged(name, CloseProxy)];
    forall n: Name ensures Of(sent + one, n) == if n in dropped + {name} then [CloseProxy] else [] {
      OfPlus(sent, one, n);
      assert one[1..] == [];
    }
  }

  /** The queue after sends that are lost once it is closed. */
  function Posted(msgs: seq<Tagged<Up>>, closed: bool, sent: seq<Tagged<Up>>): seq<Tagged<Up>>
  {
    msgs + if closed then [] else sent
  }

  lemma PostedMore(msgs: seq<Tagged<Up>>, closed: bool, sent: seq<Tagged<Up>>, m: Tagged<Up>)
    ensures Posted(msgs, closed, sent + [m]) == Posted(msgs, closed, sent) + if closed then [] else [m]
  {
  }

  predicate Without(proxies: Proxies, was: Proxies, gone: set<Name>)
  {
    && (forall n :: n in proxies ==> n in was && n !in gone && proxies[n] == was[n])
    && (forall n :: n in was && n !in gone ==> n in proxies)
  }

  /** The names that a reload drops. */
  function Dropped(proxies: Proxies, cfgs: map<Name, Cfg>): set<Name>
  {
    set n | n in proxies && !Kept(proxies[n].cfg, cfgs, n)
  }

  /** The wrappers of gone are stopped; the others are as they were. */
  ghost predicate Halfway(was: Proxies, before: map<Name, ProxyLifecycle.Wrapper>, gone: set<Name>, made: set<Wrapper>)
    reads made
  {
    forall n :: n in was && was[n] in made ==>
      if n in gone then was[n].stopped && was[n].phase == Closed
      else !was[n].stopped && n in before && was[n].Current() == before[n]
  }

  /** Those of gone are stopped, and since the queue was start, exactly their closes were sent. */
  ghost predicate Stopping(was: Proxies, before: map<Name, ProxyLifecycle.Wrapper>, gone: set<Name>, made: set<Wrapper>,
                           out: Outbox, start: seq<Tagged<Up>>, sent: seq<Tagged<Up>>)
    reads made, out
  {
    Halfway(was, before, gone, made) && ClosesOnly(sent, gone) && out.msgs == Posted(start, out.closed, sent)
  }

  /** A wrapper newly made from its configuration. */
  ghost predicate IsNew(w: Wrapper, cfgs: map<Name, Cfg>, n: Name)
    reads w
  {
    n in cfgs && w.cfg == cfgs[n] && !w.stopped && w.Current() == NewWrapper(cfgs[n].checked)
  }

  class Manager {
    const out: Outbox
    var proxies: Proxies
    ghost var made: set<Wrapper>

    constructor (out: Outbox)
      ensures Valid() && this.out == out && proxies == map[] && made == {}
    {
      this.out := out;
      proxies, made := map[], {};
    }

    ghost predicate Valid()
      reads this, made
    {
      Filed(proxies, out, made) && Unstopped(proxies, made)
    }

    /** Stops one more wrapper of the old map. */
    method StopOne(was: Proxies, name: Name, ghost before: map<Name, ProxyLifecycle.Wrapper>, ghost gone: set<Name>,
                   ghost start: seq<Tagged<Up>>, ghost sent: seq<Tagged<Up>>)
      requires Filed(was, out, made) && Stopping(was, before, gone, made, out, start, sent)
      requires name in was && name !in gone
      modifies was[name], out`msgs
      ensures Stopping(was, before, gone + {name}, made, out, start, sent + [Tagged(name, CloseProxy)])
    {
      was[name].Stop();
      ClosesMore(sent, gone, name);
      PostedMore(start, out.closed, sent, Tagged(name, CloseProxy));
      forall n | n in was && n != name ensures was[n] != was[name] {
        assert was[n].cfg.name == n;
      }
    }

    /** The first loop of Reload: drop what is gone or changed. */
    method DropChanged(cfgs: map<Name, Cfg>, ghost before: map<Name, ProxyLifecycle.Wrapper>)
      returns (ghost gone: set<Name>, ghost sent: seq<Tagged<Up>>)
      requires Filed(proxies, out, made) && Halfway(proxies, before, {}, made)
      modifies this`proxies, made, out`msgs
      ensures gone == Dropped(old(proxies), cfgs) && Without(proxies, old(proxies), gone)
      ensures Stopping(old(proxies), before, gone, made, out, old(out.msgs), sent)
    {
      var was := proxies;
      gone, sent := {}, [];
      var rest := was.Keys;
      while rest != {}
        invariant rest <= was.Keys && Without(proxies, was, gone)
        invariant forall n :: n in gone <==> n in was && n !in rest && !Kept(was[n].cfg, cfgs, n)
        invariant Stopping(was, before, gone, made, out, old(out.msgs), sent)
        decreases |rest|
      {
        var name :| name in rest;
        rest := rest - {name};
        if !Kept(was[name].cfg, cfgs, name) {
          proxies := proxies - {name};
          StopOne(was, name, before, gone, old(out.msgs), sent);
          gone, sent := gone + {name}, sent + [Tagged(name, CloseProxy)];
        }
      }
    }

    /** The second loop of Reload: add what is missing. */
    method AddMissing(cfgs: map<Name, Cfg>)
      requires Filed(proxies, out, made) && forall n :: n in cfgs ==> cfgs[n].name == n
      modifies this`proxies, this`made
      ensures Filed(proxies, out, made) && old(made) <= made
      ensures forall n :: n in old(proxies) ==> n in proxies && proxies[n] == old(proxies)[n]
      ensures forall n :: n in cfgs ==> n in proxies
      ensures forall n :: n in proxies && n !in old(proxies) ==> fresh(proxies[n]) && IsNew(proxies[n], cfgs, n)
    {
      ghost var was := proxies;
      var rest := cfgs.Keys;
      while rest != {}
        invariant rest <= cfgs.Keys && Filed(proxies, out, made) && old(made) <= made
        invariant forall n :: n in was ==> n in proxies && proxies[n] == was[n]
        invariant forall n :: n in cfgs && n !in rest ==> n in proxies
        invariant forall n :: n in proxies && n !in was ==> fresh(proxies[n]) && IsNew(proxies[n], cfgs, n)
        decreases |rest|
      {
        var name :| name in rest;
        rest := rest - {name};
        if name !in proxies {
          var pxy := new Wrapper(cfgs[name], out);
          proxies := proxies[name := pxy];
          made := made + {pxy};
        }
      }
    }

    /**
     Hot reload: afterwards the map has exactly the new configuration's names. An unchanged
     proxy is the same object in the same state; a changed or new one is a fresh wrapper;
     each dropped one is stopped, with exactly one CloseProxy sent.
     */
    method Reload(cfgs: map<Name, Cfg>) returns (ghost sent: seq<Tagged<Up>>)
      requires Valid() && forall n :: n in cfgs ==> cfgs[n].name == n
      modifies this`proxies, this`made, made, out`msgs
      ensures Valid() && proxies.Keys == cfgs.Keys
      ensures forall n :: n in cfgs ==>
        if n in old(proxies) && old(proxies)[n].cfg == cfgs[n]
        then proxies[n] == old(proxies)[n] && proxies[n].Current() == old(proxies[n].Current())
        else fresh(proxies[n]) && IsNew(proxies[n], cfgs, n)
      ensures forall n :: n in old(proxies) && (n !in cfgs || old(proxies)[n].cfg != cfgs[n]) ==>
        old(proxies)[n].stopped && old(proxies)[n].phase == Closed
      ensures forall n :: n in Dropped(old(proxies), cfgs) <==> n in old(proxies) && (n !in cfgs || old(proxies)[n].cfg != cfgs[n])
      ensures ClosesOnly(sent, Dropped(old(proxies), cfgs))
      ensures out.msgs == Posted(old(out.msgs), out.closed, sent)
    {
      ghost var before := map n | n in proxies :: proxies[n].Current();
      ghost var gone;
      gone, sent := DropChanged(cfgs, before);
      AddMissing(cfgs);
    }

    /** Stops every wrapper; a second Close finds none. */
    method Close() returns (ghost sent: seq<Tagged<Up>>)
      requires Valid()
      modifies this`proxies, made, out`msgs
      ensures Valid() && proxies == map[]
      ensures forall n :: n in old(proxies) ==> old(proxies)[n].stopped && old(proxies)[n].phase == Closed
      ensures ClosesOnly(sent, old(proxies).Keys)
      ensures out.msgs == Posted(old(out.msgs), out.closed, sent)
    {
      ghost var before := map n | n in proxies :: proxies[n].Current();
      ghost var gone: set<Name> := {};
      sent := [];
      var rest := proxies.Keys;
      while rest != {}
        invariant rest <= proxies.Keys && proxies == old(proxies)
        invariant forall n :: n in gone <==> n in proxies && n !in rest
        invariant Stopping(proxies, before, gone, made, out, old(out.msgs), sent)
        decreases |rest|
      {
        var name :| name in rest;
        StopOne(proxies, name, before, gone, old(out.msgs), sent);
        rest := rest - {name};
        gone, sent := gone + {name}, sent + [Tagged(name, CloseProxy)];
      }
      assert gone == proxies.Keys;
      proxies := map[];
    }

    /** An answer for a name that is no longer in the map is dropped. */
    method StartProxy(name: Name, ok: bool, runs: bool) returns (err: bool)
      requires Valid()
      modifies made, out`msgs
      ensures Valid()
      ensures err <==> !(name in proxies && old(proxies[name].phase) == WaitStart && ok && runs)
      ensures name in proxies ==>
        proxies[name].Current() == old(proxies[name].Current()).(phase := StatusPhase(old(proxies[name].Current()), ok, runs))
      ensures forall n :: n in proxies && n != name ==> proxies[n].Current() == old(proxies[n].Current())
      ensures out.msgs == old(out.msgs) +
        if name in proxies && old(proxies[name].phase) == WaitStart && ok && !runs && !out.closed then [Tagged(name, CloseProxy)] else []
    {
      if name !in proxies {
        return true;
      }
      err := proxies[name].SetRunningStatus(ok, runs);
    }
  }

  lemma {:induction false} NothingQueued<T>(q: seq<Tagged<T>>)
    requires forall n: Name :: Of(q, n) == []
    ensures q == []
  {
    if q != [] {
      assert Of(q, q[0].name) == [q[0].it] + Of(q[1..], q[0].name);
    }
  }

  /** Reloading the configuration that is already loaded drops nothing, so nothing is sent. */
  lemma ReloadAgainDropsNothing(proxies: Proxies, cfgs: map<Name, Cfg>, sent: seq<Tagged<Up>>)
    requires proxies.Keys == cfgs.Keys && forall n :: n in proxies ==> proxies[n].cfg == cfgs[n]
    requires ClosesOnly(sent, Dropped(proxies, cfgs))
    ensures Dropped(proxies, cfgs) == {} && sent == []
  {
    assert Dropped(proxies, cfgs) == {};
    NothingQueued(sent);
  }
}
