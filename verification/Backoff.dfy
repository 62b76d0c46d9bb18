/**
 The reconnect loop of frpc (client/service.go) and its jittered sleep
 (pkg/util/util/util.go). Times and durations are 64-bit nanosecond counts.
 */
module Backoff {
  const SECOND := 1_000_000_000
  const MINUTE := 60 * SECOND
  const MAX_DELAY := 20 * SECOND
  const MAX_INT64 := 0x7FFF_FFFF_FFFF_FFFF

  /** Ratios are given in thousandths; raw is the random number that Int63n reduces to its range. */
  function Thousandths(min: nat, max: nat, raw: nat): (n: nat)
    ensures max > min ==> min <= n < max
  {
    if max <= min then min else raw % (max - min) + min
  }

  /** The sleep drawn by RandomSleep. */
  function Jittered(duration: nat, min: nat, max: nat, raw: nat): nat
  {
    duration * Thousandths(min, max, raw) / 1000
  }

  lemma JitterBounds(seconds: nat, min: nat, max: nat, raw: nat)
    requires min < max
    ensures seconds * min * 1_000_000 <= Jittered(seconds * SECOND, min, max, raw) <= seconds * (max - 1) * 1_000_000
  {
    var n := Thousandths(min, max, raw);
    assert seconds * SECOND * n == 1000 * (seconds * n * 1_000_000);
    Monotone(seconds, min, n);
    Monotone(seconds, n, max - 1);
  }

  lemma Monotone(unit: nat, a: nat, b: nat)
    requires a <= b
    ensures unit * a <= unit * b
  {
  }

  /** The loop's variables; both delays are in seconds here and in nanoseconds in the code. */
  datatype Loop = Loop(now: int, cutoff: int, delay: nat, counts: nat, loginDelay: nat)

  /** What the environment contributes to one sleep: a random number, and extra time passing. */
  datatype Chance = Chance(raw: nat, slack: nat)

  function Start(now: int): Loop
  {
    Loop(now, now + MINUTE, 1, 1, 1)
  }

  // ----- the wait before a reconnect

  function ReconnectWait(s: Loop, c: Chance): nat
  {
    if s.counts > 3 then Jittered(s.delay * SECOND, 900, 1100, c.raw) else Jittered(SECOND, 0, 500, c.raw)
  }

  function AfterReconnectWait(s: Loop, c: Chance): Loop
  {
    var now := s.now + ReconnectWait(s, c) + c.slack;
    if now > s.cutoff then Loop(now, now + MINUTE, 1, 1, s.loginDelay)
    else s.(now := now, delay := if s.counts > 3 then 2 * s.delay else s.delay, counts := s.counts + 1)
  }

  // ----- the wait after a failed login

  function LoginWait(s: Loop, c: Chance): nat
  {
    Jittered(s.loginDelay * SECOND, 900, 1100, c.raw)
  }

  function AfterLoginWait(s: Loop, c: Chance): Loop
  {
    s.(now := s.now + LoginWait(s, c) + c.slack, loginDelay := if 2 * s.loginDelay > 20 then 20 else 2 * s.loginDelay)
  }

  // ----- the invariant

  /** 2 to the power of k. */
  function Doubled(k: nat): (d: nat)
    ensures k >= 1 ==> d >= 2
  {
    if k == 0 then 1 else 2 * Doubled(k - 1)
  }

  predicate PowerOfTwo(n: nat)
  {
    n in {1, 2, 4, 8, 16, 32, 64}
  }

  /** By the time the delay stands at d seconds, at least 0.9 * (d - 1) seconds of the minute are gone. */
  ghost predicate Inv(s: Loop)
  {
    && PowerOfTwo(s.delay)
    && s.counts >= 1 && s.delay == Doubled(if s.counts > 4 then s.counts - 4 else 0)
    && s.now - (s.cutoff - MINUTE) >= (s.delay - 1) * 900_000_000
    && 1 <= s.loginDelay <= 20
  }

  lemma ReconnectKeeps(s: Loop, c: Chance)
    requires Inv(s)
    ensures Inv(AfterReconnectWait(s, c))
    ensures ReconnectWait(s, c) <= 70_336_000_000
    ensures s.counts <= 3 ==> ReconnectWait(s, c) < SECOND / 2
  {
    if s.counts > 3 {
      JitterBounds(s.delay, 900, 1100, c.raw);
    } else {
      JitterBounds(1, 0, 500, c.raw);
    }
  }

  lemma LoginKeeps(s: Loop, c: Chance)
    requires Inv(s)
    ensures Inv(AfterLoginWait(s, c))
    ensures LoginWait(s, c) <= 21_980_000_000
  {
    JitterBounds(s.loginDelay, 900, 1100, c.raw);
  }

  /**
   The n-th reconnect within a minute waits less than half a second while n is at most three, and then, but for
   the jitter, 1, 2, 4, ... seconds; when the minute is over everything starts again.
   */
  lemma ReconnectMeans(s: Loop, c: Chance)
    requires Inv(s)
    ensures s.counts <= 3 ==> ReconnectWait(s, c) == c.raw % 500 * 1_000_000
    ensures s.counts > 3 ==> ReconnectWait(s, c) == Doubled(s.counts - 4) * (900 + c.raw % 200) * 1_000_000
    ensures var s' := AfterReconnectWait(s, c);
      && s'.now == s.now + ReconnectWait(s, c) + c.slack && s'.loginDelay == s.loginDelay
      && (if s'.now > s.cutoff then s'.counts == 1 && s'.delay == 1 && s'.cutoff == s'.now + 60_000_000_000
          else s'.counts == s.counts + 1 && s'.cutoff == s.cutoff)
  {
    if s.counts > 3 { JitterIs(s.delay, 900, 1100, c.raw); } else { JitterIs(1, 0, 500, c.raw); }
  }

  lemma JitterIs(seconds: nat, min: nat, max: nat, raw: nat)
    requires min < max
    ensures Jittered(seconds * SECOND, min, max, raw) == seconds * (min + raw % (max - min)) * 1_000_000
  {
    var n := Thousandths(min, max, raw);
    assert seconds * SECOND * n == 1000 * (seconds * n * 1_000_000);
  }

  /** The delay before another login after k failures: 1, 2, 4, 8, 16 seconds, and then 20. */
  function Capped(k: nat): (d: nat)
    ensures 1 <= d <= 20
  {
    if k < 5 then [1, 2, 4, 8, 16][k] else 20
  }

  lemma LoginMeans(s: Loop, c: Chance, k: nat)
    requires s.loginDelay == Capped(k)
    ensures LoginWait(s, c) == Capped(k) * (900 + c.raw % 200) * 1_000_000
    ensures Capped(k) * 900_000_000 <= LoginWait(s, c) <= Capped(k) * 1_099_000_000
    ensures AfterLoginWait(s, c).loginDelay == Capped(k + 1)
  {
    JitterIs(s.loginDelay, 900, 1100, c.raw);
    JitterBounds(s.loginDelay, 900, 1100, c.raw);
  }

  /** n reconnects in a row with the shortest jitter and no time lost in between. */
  function Shortest(s: Loop, n: nat): Loop
    decreases n
  {
    if n == 0 then s else AfterReconnectWait(Shortest(s, n - 1), Chance(0, 0))
  }

  lemma ShortStep(s: Loop)
    ensures s.counts <= 3 && s.now <= s.cutoff ==> AfterReconnectWait(s, Chance(0, 0)) == s.(counts := s.counts + 1)
    ensures s.counts > 3 && s.now + s.delay * 900_000_000 <= s.cutoff ==>
              AfterReconnectWait(s, Chance(0, 0))
              == s.(now := s.now + s.delay * 900_000_000, delay := 2 * s.delay, counts := s.counts + 1)
  {
    assert s.delay * SECOND * 900 == 1000 * (s.delay * 900_000_000);
  }

  lemma {:induction false} ShortestIs(start: int, k: nat)
    requires k <= 6 && Doubled(k) <= 64
    ensures Shortest(Start(start), 3 + k) == Loop(start + (Doubled(k) - 1) * 900_000_000, start + MINUTE, Doubled(k), 4 + k, 1)
  {
    if k == 0 {
      var s0 := Start(start);
      ShortStep(s0);
      var s1 := Shortest(s0, 1);
      ShortStep(s1);
      var s2 := Shortest(s0, 2);
      ShortStep(s2);
    } else {
      ShortestIs(start, k - 1);
      ShortStep(Shortest(Start(start), 3 + (k - 1)));
    }
  }

  /** The bound is attained: short jitter lets the 64-second delay be reached inside one minute. */
  lemma BoundIsAttained(start: int)
    ensures var s := Shortest(Start(start), 9);
            s.delay == 64 && s.now <= s.cutoff && ReconnectWait(s, Chance(199, 0)) == 70_336_000_000
  {
    assert Doubled(6) == 64;
    ShortestIs(start, 6);
  }

  // ----- the loop as frpc runs it

  /** RandomSleep: between the two ratios, the upper one excluded. The product it forms fits a 64-bit integer. */
  method RandomSleep(duration: nat, min: nat, max: nat, raw: nat) returns (d: nat)
    requires duration * (if max > min then max else min) <= MAX_INT64
    ensures d == Jittered(duration, min, max, raw)
    ensures min < max ==> duration * min / 1000 <= d <= duration * (max - 1) / 1000
    ensures max <= min ==> d == duration * min / 1000
  {
    if min < max {
      Monotone(duration, min, Thousandths(min, max, raw));
      Monotone(duration, Thousandths(min, max, raw), max - 1);
    }
    var n := if max <= min then min else raw % (max - min) + min;
    d := duration * n / 1000;
  }

  class Service {
    var now: int
    var cutoffTime: int
    var reconnectDelay: int
    var reconnectCounts: int
    var delayTime: int
    ghost var view: Loop

    ghost predicate Valid()
      reads this
    {
      && Inv(view)
      && now == view.now && cutoffTime == view.cutoff && reconnectCounts == view.counts
      && reconnectDelay == view.delay * SECOND && delayTime == view.loginDelay * SECOND
    }

    constructor (start: int)
      ensures Valid() && view == Start(start)
    {
      now, cutoffTime, reconnectDelay, reconnectCounts, delayTime := start, start + MINUTE, SECOND, 1, SECOND;
      view := Start(start);
    }

    /** A working connection, or anything else that only takes time. */
    method Pass(time: nat)
      requires Valid()
      modifies this
      ensures Valid() && view == old(view).(now := old(view).now + time)
    {
      now := now + time;
      view := view.(now := now);
    }

    method WaitToReconnect(c: Chance) returns (wait: nat)
      requires Valid()
      modifies this
      ensures Valid()
      ensures wait == ReconnectWait(old(view), c) && view == AfterReconnectWait(old(view), c)
      ensures old(reconnectCounts) > 3 ==> old(reconnectDelay) * 9 <= wait * 10 <= old(reconnectDelay) * 11
      ensures old(reconnectCounts) <= 3 ==> wait < 500_000_000
      ensures now == old(now) + wait + c.slack && delayTime == old(delayTime)
      ensures if now > old(cutoffTime) then reconnectCounts == 1 && reconnectDelay == 1_000_000_000 && cutoffTime == now + 60_000_000_000
              else reconnectCounts == old(reconnectCounts) + 1 && cutoffTime == old(cutoffTime)
                   && reconnectDelay == if old(reconnectCounts) > 3 then 2 * old(reconnectDelay) else old(reconnectDelay)
    {
      ReconnectKeeps(view, c);
      ReconnectMeans(view, c);
      if reconnectCounts > 3 { JitterBounds(view.delay, 900, 1100, c.raw); }
      if reconnectCounts > 3 {
        wait := RandomSleep(reconnectDelay, 900, 1100, c.raw);
        reconnectDelay := reconnectDelay * 2;
      } else {
        wait := RandomSleep(SECOND, 0, 500, c.raw);
      }
      reconnectCounts := reconnectCounts + 1;
      now := now + wait + c.slack;
      if now > cutoffTime {
        cutoffTime := now + MINUTE;
        reconnectDelay := SECOND;
        reconnectCounts := 1;
      }
      view := AfterReconnectWait(view, c);
    }

    method WaitToLogin(c: Chance) returns (wait: nat)
      requires Valid()
      modifies this
      ensures Valid()
      ensures wait == LoginWait(old(view), c) && view == AfterLoginWait(old(view), c)
      ensures delayTime == if 2 * old(delayTime) > 20_000_000_000 then 20_000_000_000 else 2 * old(delayTime)
    {
      LoginKeeps(view, c);
      wait := RandomSleep(delayTime, 900, 1100, c.raw);
      now := now + wait + c.slack;
      delayTime := delayTime * 2;
      if delayTime > MAX_DELAY {
        delayTime := MAX_DELAY;
      }
      view := AfterLoginWait(view, c);
    }

    method LoggedIn()
      requires Valid()
      modifies this
      ensures Valid() && view == old(view).(loginDelay := 1)
    {
      delayTime := SECOND;
      view := view.(loginDelay := 1);
    }
  }

  /** One lost connection: how long it worked, the wait, and the logins that fail before one succeeds. */
  datatype Round = Round(connected: nat, chance: Chance, failures: seq<Chance>)

  /** The j-th of these waits is the capped power of two, but for the jitter. */
  ghost predicate Growing(waits: seq<nat>)
  {
    forall j :: 0 <= j < |waits| ==> Capped(j) * 900_000_000 <= waits[j] <= Capped(j) * 1_099_000_000
  }

  /** The logins that fail before one succeeds. */
  method Relogin(svc: Service, failures: seq<Chance>) returns (waits: seq<nat>)
    requires svc.Valid() && svc.view.loginDelay == 1
    modifies svc
    ensures svc.Valid() && svc.view.loginDelay == 1
    ensures |waits| == |failures| && Growing(waits)
  {
    waits := [];
    for k := 0 to |failures|
      invariant svc.Valid() && svc.view.loginDelay == Capped(k)
      invariant |waits| == k && Growing(waits)
    {
      LoginMeans(svc.view, failures[k], k);
      var wait := svc.WaitToLogin(failures[k]);
      waits := waits + [wait];
    }
    svc.LoggedIn();
  }

  /**
   keepControllerWorking over any number of lost connections, any login failures and any passing of
   time: every wait before a reconnect is below 70.4 seconds; the waits before another login are 1, 2, 4, 8, 16
   and then 20 seconds, but for the jitter, so all below 22.
   */
  method KeepControllerWorking(start: int, rounds: seq<Round>) returns (waits: seq<nat>, loginWaits: seq<seq<nat>>)
    ensures |waits| == |rounds| && |loginWaits| == |rounds|
    ensures forall i :: 0 <= i < |waits| ==> waits[i] < 70_400_000_000
    ensures forall i :: 0 <= i < |rounds| ==> |loginWaits[i]| == |rounds[i].failures| && Growing(loginWaits[i])
    ensures forall i, j :: 0 <= i < |loginWaits| && 0 <= j < |loginWaits[i]| ==> loginWaits[i][j] < 22 * SECOND
  {
    var svc := new Service(start);
    waits, loginWaits := [], [];
    for i := 0 to |rounds|
      invariant svc.Valid() && svc.view.loginDelay == 1 && |waits| == i && |loginWaits| == i
      invariant forall j :: 0 <= j < i ==> waits[j] < 70_400_000_000
      invariant forall j :: 0 <= j < i ==> |loginWaits[j]| == |rounds[j].failures| && Growing(loginWaits[j])
    {
      var round := rounds[i];
      svc.Pass(round.connected);
      ReconnectKeeps(svc.view, round.chance);
      var wait := svc.WaitToReconnect(round.chance);
      waits := waits + [wait];
      var again := Relogin(svc, round.failures);
      loginWaits := loginWaits + [again];
    }
  }
}
