/**
 The port allocator of frps (server/ports/ports.go) on values: free ports, used
 ports and the reservation each proxy name keeps for its last port.
 PortManager implements these functions on shared mutable records.

 The operating system's answer to "can this port be bound" is the set avail, and
 the order in which Go happens to iterate over the free ports is the sequence order.
 */
module PortSpec {
  import opened Wrappers

  datatype Rec = Rec(name: Name, port: int, closed: bool, time: int)

  datatype Ports = Ports(free: set<int>, used: map<int, Rec>, reserved: map<Name, Rec>)

  datatype PortError = PortAlreadyUsed | PortNotAllowed | PortUnavailable | NoAvailablePort

  datatype Outcome = Got(port: int) | Failed(err: PortError)

  const MAX_TRY_TIMES := 5
  const RESERVED_DURATION := 24 * 3600 * 1_000_000_000  // nanoseconds

  // ----- operations

  function Grant(s: Ports, name: Name, port: int, now: int): Ports
  {
    var rec := Rec(name, port, false, now);
    Ports(s.free - {port}, s.used[port := rec], s.reserved[name := rec])
  }

  /** The first port the operating system grants, looking at no more than tries of them; 0 if none. */
  function FirstAvailable(order: seq<int>, avail: set<int>, tries: nat): int
  {
    if tries == 0 || order == [] then 0
    else if order[0] in avail then order[0]
    else FirstAvailable(order[1..], avail, tries - 1)
  }

  /** The reserved port is tried first, on a request for any port. */
  predicate TakesReserved(s: Ports, name: Name, port: int, avail: set<int>)
  {
    port == 0 && name in s.reserved && s.reserved[name].port in avail
  }

  function Pick(s: Ports, name: Name, port: int, avail: set<int>, order: seq<int>): Outcome
  {
    if TakesReserved(s, name, port, avail) then Got(s.reserved[name].port)
    else if port == 0 then
      var k := FirstAvailable(order, avail, MAX_TRY_TIMES);
      if k == 0 then Failed(NoAvailablePort) else Got(k)
    else if port in s.free then
      if port in avail then Got(port) else Failed(PortUnavailable)
    else if port in s.used then Failed(PortAlreadyUsed)
    else Failed(PortNotAllowed)
  }

  function Acquire(s: Ports, name: Name, port: int, now: int, avail: set<int>, order: seq<int>): Ports
  {
    match Pick(s, name, port, avail, order)
    case Got(p) => Grant(s, name, p, now)
    case Failed(_) => s
  }

  function Release(s: Ports, port: int, now: int): Ports
  {
    if port !in s.used then s
    else
      var rec := s.used[port];
      var closed := rec.(closed := true, time := now);
      Ports(s.free + {port}, s.used - {port},
            if rec.name in s.reserved && s.reserved[rec.name] == rec then s.reserved[rec.name := closed] else s.reserved)
  }

  predicate Expired(rec: Rec, now: int)
  {
    rec.closed && now - rec.time > RESERVED_DURATION
  }

  /** One pass of cleanReservedPortsWorker. */
  function Clean(s: Ports, now: int): Ports
  {
    s.(reserved := map n | n in s.reserved && !Expired(s.reserved[n], now) :: s.reserved[n])
  }

  // ----- the invariant

  /** order lists the free ports, each once. */
  ghost predicate Enumerates(order: seq<int>, free: set<int>)
  {
    && (forall i, j :: 0 <= i < j < |order| ==> order[i] != order[j])
    && (forall p :: p in order <==> p in free)
  }

  ghost predicate Partition(s: Ports, allowed: set<int>)
  {
    s.free !! s.used.Keys && s.free + s.used.Keys == allowed && 0 !in allowed
  }

  ghost predicate UsedValid(s: Ports)
  {
    forall p :: p in s.used ==> s.used[p].port == p && !s.used[p].closed
  }

  /** A name that holds the port of its reservation holds it through that very record. */
  ghost predicate ReservedValid(s: Ports, allowed: set<int>)
  {
    forall n :: n in s.reserved ==>
      && s.reserved[n].name == n && s.reserved[n].port in allowed
      && (s.reserved[n].port in s.used && s.used[s.reserved[n].port].name == n ==>
            s.used[s.reserved[n].port] == s.reserved[n])
  }

  ghost predicate Inv(s: Ports, allowed: set<int>)
  {
    Partition(s, allowed) && UsedValid(s) && ReservedValid(s, allowed)
  }

  lemma {:induction false} FirstAvailableIsListed(order: seq<int>, avail: set<int>, tries: nat)
    ensures var k := FirstAvailable(order, avail, tries);
            k != 0 ==> k in order && k in avail
    ensures 0 !in order && FirstAvailable(order, avail, tries) == 0 ==>
              forall i :: 0 <= i < |order| && i < tries ==> order[i] !in avail
  {
    if tries > 0 && order != [] && order[0] !in avail {
      FirstAvailableIsListed(order[1..], avail, tries - 1);
      forall i | 0 < i < |order| && i < tries
        ensures 0 !in order && FirstAvailable(order, avail, tries) == 0 ==> order[i] !in avail
      {
        assert order[1..][i - 1] == order[i];
      }
    }
  }

  /** A granted port is allowed and available, and free unless it came from the reservation. */
  lemma GotIsAllowed(s: Ports, allowed: set<int>, name: Name, port: int, avail: set<int>, order: seq<int>)
    requires Inv(s, allowed) && Enumerates(order, s.free)
    requires Pick(s, name, port, avail, order).Got?
    ensures var p := Pick(s, name, port, avail, order).port;
            p in allowed && p in avail && (p in s.free || TakesReserved(s, name, port, avail))
  {
    FirstAvailableIsListed(order, avail, MAX_TRY_TIMES);
  }

  /**
   A grant goes to a port someone still holds exactly when the reserved path is taken for a held
   port that the operating system nevertheless reports as available.
   */
  lemma DoubleGrant(s: Ports, allowed: set<int>, name: Name, port: int, avail: set<int>, order: seq<int>)
    requires Inv(s, allowed) && Enumerates(order, s.free)
    ensures (Pick(s, name, port, avail, order).Got? && Pick(s, name, port, avail, order).port in s.used)
            <==> TakesReserved(s, name, port, avail) && s.reserved[name].port in s.used
  {
    if Pick(s, name, port, avail, order).Got? {
      GotIsAllowed(s, allowed, name, port, avail, order);
    }
  }

  lemma GrantKeeps(s: Ports, allowed: set<int>, name: Name, port: int, now: int)
    requires Inv(s, allowed) && port in allowed
    ensures Inv(Grant(s, name, port, now), allowed)
  {
  }

  lemma AcquireKeeps(s: Ports, allowed: set<int>, name: Name, port: int, now: int, avail: set<int>, order: seq<int>)
    requires Inv(s, allowed) && Enumerates(order, s.free)
    ensures Inv(Acquire(s, name, port, now, avail, order), allowed)
    ensures Pick(s, name, port, avail, order).Got? ==> Pick(s, name, port, avail, order).port in allowed
  {
    match Pick(s, name, port, avail, order) {
      case Got(p) =>
        GotIsAllowed(s, allowed, name, port, avail, order);
        GrantKeeps(s, allowed, name, p, now);
      case Failed(_) =>
    }
  }

  lemma ReleaseKeeps(s: Ports, allowed: set<int>, port: int, now: int)
    requires Inv(s, allowed)
    ensures Inv(Release(s, port, now), allowed)
  {
  }

  lemma CleanKeeps(s: Ports, allowed: set<int>, now: int)
    requires Inv(s, allowed)
    ensures Inv(Clean(s, now), allowed)
  {
  }

  // ----- what the errors mean

  /** Each refusal of a specific port is equivalent to one state of that port. */
  lemma RefusalsExact(s: Ports, allowed: set<int>, name: Name, port: int, avail: set<int>, order: seq<int>)
    requires Inv(s, allowed) && port != 0
    ensures var out := Pick(s, name, port, avail, order);
            && (out == Failed(PortNotAllowed) <==> port !in allowed)
            && (out == Failed(PortAlreadyUsed) <==> port in s.used)
            && (out == Failed(PortUnavailable) <==> port in allowed && port !in s.used && port !in avail)
            && (out == Got(port) <==> port in allowed && port !in s.used && port in avail)
            && out != Failed(NoAvailablePort)
  {
    assert port in allowed <==> port in s.free || port in s.used;
  }

  lemma PrefixSet(order: seq<int>, free: set<int>, n: nat) returns (tried: set<int>)
    requires Enumerates(order, free) && n <= |order|
    ensures tried == (set i | 0 <= i < n :: order[i]) && |tried| == n && tried <= free
  {
    if n == 0 {
      tried := {};
    } else {
      var before := PrefixSet(order, free, n - 1);
      tried := before + {order[n - 1]};
    }
  }

  lemma EnumeratesAll(order: seq<int>, free: set<int>)
    requires Enumerates(order, free)
    ensures |order| == |free|
  {
    var all := PrefixSet(order, free, |order|);
    forall p | p in free ensures p in all {
      assert p in order;
    }
    assert all == free;
  }

  /** A failed request for any port has seen min(5, |free|) distinct free ports, all unavailable. */
  lemma RandomFailureMeans(s: Ports, allowed: set<int>, name: Name, avail: set<int>, order: seq<int>)
    requires Inv(s, allowed) && Enumerates(order, s.free)
    requires Pick(s, name, 0, avail, order).Failed?
    ensures Pick(s, name, 0, avail, order) == Failed(NoAvailablePort)
    ensures exists tried: set<int> :: tried <= s.free && tried !! avail
              && |tried| == if |s.free| < 5 then |s.free| else 5
    ensures |s.free| <= 5 ==> s.free !! avail
    ensures name in s.reserved ==> s.reserved[name].port !in avail
  {
    FirstAvailableIsListed(order, avail, MAX_TRY_TIMES);
    EnumeratesAll(order, s.free);
    var n := if |order| < MAX_TRY_TIMES then |order| else MAX_TRY_TIMES;
    var tried := PrefixSet(order, s.free, n);
    assert tried !! avail;
    if |s.free| <= MAX_TRY_TIMES {
      SubsetFull(tried, s.free);
    }
  }

  /** The i-th port tried is the first available one among the first five. */
  ghost predicate FoundAt(order: seq<int>, avail: set<int>, p: int, i: nat)
  {
    i < 5 && i < |order| && order[i] == p && p in avail && forall j :: 0 <= j < i ==> order[j] !in avail
  }

  lemma {:induction false} FirstAvailableAt(order: seq<int>, avail: set<int>, tries: nat) returns (i: nat)
    requires FirstAvailable(order, avail, tries) != 0
    ensures i < tries && i < |order| && order[i] == FirstAvailable(order, avail, tries) && order[i] in avail
    ensures forall j :: 0 <= j < i ==> order[j] !in avail
  {
    if order[0] in avail {
      i := 0;
    } else {
      i := FirstAvailableAt(order[1..], avail, tries - 1);
      assert forall j :: 0 < j <= i ==> order[j] == order[1..][j - 1];
      i := i + 1;
    }
  }

  /** A request for any port gets the reserved port if that is available, and else the first available of the first five tried. */
  lemma RandomGrantIff(s: Ports, allowed: set<int>, name: Name, avail: set<int>, order: seq<int>, p: int)
    requires Inv(s, allowed) && Enumerates(order, s.free)
    ensures Pick(s, name, 0, avail, order) == Got(p) <==>
      if name in s.reserved && s.reserved[name].port in avail then p == s.reserved[name].port
      else exists i: nat :: FoundAt(order, avail, p, i)
  {
    if !(name in s.reserved && s.reserved[name].port in avail) {
      assert 0 !in order;
      if Pick(s, name, 0, avail, order) == Got(p) {
        var i := FirstAvailableAt(order, avail, MAX_TRY_TIMES);
        assert FoundAt(order, avail, p, i);
      }
      if i: nat :| FoundAt(order, avail, p, i) {
        FoundIsFirst(order, avail, MAX_TRY_TIMES, i);
      }
    }
  }

  lemma {:induction false} FoundIsFirst(order: seq<int>, avail: set<int>, tries: nat, i: nat)
    requires i < tries && i < |order| && order[i] in avail && forall j :: 0 <= j < i ==> order[j] !in avail
    ensures FirstAvailable(order, avail, tries) == order[i]
  {
    if i > 0 {
      assert order[0] !in avail;
      FoundIsFirst(order[1..], avail, tries - 1, i - 1);
    }
  }

  lemma SubsetFull(a: set<int>, b: set<int>)
    requires a <= b && |a| == |b|
    ensures a == b
  {
    assert b == a + (b - a);
    assert |b| == |a| + |b - a|;
    assert b - a == {};
  }

  // ----- whole runs

  datatype Op =
    | DoAcquire(name: Name, port: int, now: int, avail: set<int>, order: seq<int>)
    | DoRelease(relPort: int, relNow: int)
    | DoClean(cleanNow: int)

  function Apply(s: Ports, op: Op): Ports
  {
    match op
    case DoAcquire(name, port, now, avail, order) => Acquire(s, name, port, now, avail, order)
    case DoRelease(port, now) => Release(s, port, now)
    case DoClean(now) => Clean(s, now)
  }

  /** Go iterates over the free ports; what the operating system says about any port is arbitrary. */
  ghost predicate Honest(s: Ports, op: Op)
  {
    op.DoAcquire? ==> Enumerates(op.order, s.free)
  }

  function RunAll(s: Ports, ops: seq<Op>): Ports
    decreases |ops|
  {
    if ops == [] then s else RunAll(Apply(s, ops[0]), ops[1..])
  }

  ghost predicate HonestRun(s: Ports, ops: seq<Op>)
    decreases |ops|
  {
    ops == [] || (Honest(s, ops[0]) && HonestRun(Apply(s, ops[0]), ops[1..]))
  }

  function Initial(allowed: set<int>): Ports
  {
    Ports(allowed, map[], map[])
  }

  lemma ApplyKeeps(s: Ports, allowed: set<int>, op: Op)
    requires Inv(s, allowed) && Honest(s, op)
    ensures Inv(Apply(s, op), allowed)
  {
    match op {
      case DoAcquire(name, port, now, avail, order) => AcquireKeeps(s, allowed, name, port, now, avail, order);
      case DoRelease(port, now) => ReleaseKeeps(s, allowed, port, now);
      case DoClean(now) => CleanKeeps(s, allowed, now);
    }
  }

  /** Free and used ports partition the allowed set after any run. */
  lemma {:induction false} RunKeeps(s: Ports, allowed: set<int>, ops: seq<Op>)
    requires Inv(s, allowed) && HonestRun(s, ops)
    ensures Inv(RunAll(s, ops), allowed)
    decreases |ops|
  {
    if ops != [] {
      ApplyKeeps(s, allowed, ops[0]);
      RunKeeps(Apply(s, ops[0]), allowed, ops[1..]);
    }
  }

  // ----- sticky ports

  /** name has a reservation of port, released at time if at all, and no longer holds the port through it. */
  ghost predicate Remembers(s: Ports, name: Name, port: int, time: int)
  {
    && name in s.reserved && s.reserved[name].port == port
    && (s.reserved[name].closed ==> s.reserved[name].time == time)
    && (port in s.used ==> s.used[port] != s.reserved[name])
  }

  predicate Foreign(op: Op, name: Name)
  {
    op.DoAcquire? ==> op.name != name
  }

  /** An operation of another name, or a cleaning pass within 24 hours of time. */
  ghost predicate LeavesAlone(op: Op, name: Name, time: int)
  {
    Foreign(op, name) && (op.DoClean? ==> op.cleanNow - time <= 86_400_000_000_000)
  }

  lemma ReleaseRemembers(s: Ports, allowed: set<int>, name: Name, port: int, now: int)
    requires Inv(s, allowed) && name in s.reserved && s.reserved[name].port == port && !s.reserved[name].closed
    ensures Remembers(Release(s, port, now), name, port, now)
  {
  }

  lemma {:induction false} NeverReturns(s: Ports, ops: seq<Op>, name: Name)
    requires name !in s.reserved && forall i :: 0 <= i < |ops| ==> Foreign(ops[i], name)
    ensures name !in RunAll(s, ops).reserved
    decreases |ops|
  {
    if ops != [] {
      assert Foreign(ops[0], name);
      NeverReturns(Apply(s, ops[0]), ops[1..], name);
    }
  }

  /** Other names and releases never touch it; a cleaning pass drops it or leaves it. */
  lemma ForeignStep(s: Ports, allowed: set<int>, op: Op, name: Name, port: int, time: int)
    requires Inv(s, allowed) && Remembers(s, name, port, time) && Foreign(op, name)
    ensures var s' := Apply(s, op);
      if op.DoClean? && s.reserved[name].closed && op.cleanNow - time > RESERVED_DURATION then name !in s'.reserved
      else Remembers(s', name, port, time) && s'.reserved[name] == s.reserved[name]
  {
  }

  /** No cleaning pass comes more than 24 hours after time. */
  ghost predicate NoLateClean(ops: seq<Op>, time: int)
  {
    forall i :: 0 <= i < |ops| && ops[i].DoClean? ==> ops[i].cleanNow - time <= 86_400_000_000_000
  }

  /**
   Whatever other names do and whatever is released, a reservation that was released at time is still
   there, unchanged, if and only if no cleaning pass came more than 24 hours later.
   */
  lemma {:induction false} ReservationSurvivesIff(s: Ports, allowed: set<int>, ops: seq<Op>, name: Name, port: int, time: int)
    requires Inv(s, allowed) && HonestRun(s, ops)
    requires Remembers(s, name, port, time) && forall i :: 0 <= i < |ops| ==> Foreign(ops[i], name)
    ensures name in RunAll(s, ops).reserved <==> !s.reserved[name].closed || NoLateClean(ops, time)
    ensures name in RunAll(s, ops).reserved ==>
              Remembers(RunAll(s, ops), name, port, time) && RunAll(s, ops).reserved[name] == s.reserved[name]
    decreases |ops|
  {
    if ops != [] {
      var s', rest := Apply(s, ops[0]), ops[1..];
      assert Foreign(ops[0], name);
      ApplyKeeps(s, allowed, ops[0]);
      ForeignStep(s, allowed, ops[0], name, port, time);
      NoLateCleanSplit(ops, time);
      if name in s'.reserved {
        ReservationSurvivesIff(s', allowed, rest, name, port, time);
      } else {
        NeverReturns(s', rest, name);
      }
    }
  }

  lemma NoLateCleanSplit(ops: seq<Op>, time: int)
    requires ops != []
    ensures NoLateClean(ops, time) <==>
              (ops[0].DoClean? ==> ops[0].cleanNow - time <= 86_400_000_000_000) && NoLateClean(ops[1..], time)
  {
    forall i | 1 <= i < |ops| ensures ops[i] == ops[1..][i - 1] {
    }
    assert NoLateClean(ops, time) ==> NoLateClean(ops[1..], time);
  }

  /** The reservation of name is the open record rec of a port granted to it. */
  ghost predicate Holding(s: Ports, name: Name, port: int, rec: Rec)
  {
    && rec.name == name && rec.port == port && !rec.closed
    && name in s.reserved && s.reserved[name] == rec && port in s.used
  }

  ghost predicate KeepsHold(op: Op, name: Name, port: int)
  {
    match op
    case DoAcquire(other, _, _, _, _) => other != name
    case DoRelease(p, _) => p != port
    case DoClean(_) => true
  }

  /** The operation is granted the port. */
  predicate Takes(s: Ports, op: Op, port: int)
  {
    op.DoAcquire? && Pick(s, op.name, op.port, op.avail, op.order) == Got(port)
  }

  ghost predicate NeverTaken(s: Ports, ops: seq<Op>, port: int)
    decreases |ops|
  {
    ops == [] || (!Takes(s, ops[0], port) && NeverTaken(Apply(s, ops[0]), ops[1..], port))
  }

  /**
   Until its port is released a reservation stays open, whatever other names do. The port itself stays
   with its holder if and only if it is never granted again meanwhile, for which see DoubleGrant.
   */
  lemma {:induction false} HoldSurvivesIff(s: Ports, allowed: set<int>, ops: seq<Op>, name: Name, port: int, rec: Rec)
    requires Inv(s, allowed) && HonestRun(s, ops) && Holding(s, name, port, rec)
    requires forall i :: 0 <= i < |ops| ==> KeepsHold(ops[i], name, port)
    ensures Holding(RunAll(s, ops), name, port, rec)
    ensures RunAll(s, ops).used[port] == rec <==> s.used[port] == rec && NeverTaken(s, ops, port)
    decreases |ops|
  {
    if ops != [] {
      var op := ops[0];
      var s' := Apply(s, op);
      ApplyKeeps(s, allowed, op);
      assert KeepsHold(op, name, port);
      HoldStep(s, allowed, op, name, port, rec);
      HoldSurvivesIff(s', allowed, ops[1..], name, port, rec);
    }
  }

  lemma HoldStep(s: Ports, allowed: set<int>, op: Op, name: Name, port: int, rec: Rec)
    requires Inv(s, allowed) && Holding(s, name, port, rec) && KeepsHold(op, name, port)
    ensures Holding(Apply(s, op), name, port, rec)
    ensures Apply(s, op).used[port] == rec <==> s.used[port] == rec && !Takes(s, op, port)
  {
  }

  /**
   Sticky ports. A name is granted a port, others do whatever they like, and the port is released;
   then whatever other names do, and however often the cleaner runs within 24 hours, its next
   request for any port yields the same port whenever the operating system grants it.
   */
  lemma StickyPort(s: Ports, allowed: set<int>, name: Name, request: int, t0: int, avail0: set<int>, order0: seq<int>,
                   during: seq<Op>, time: int, after: seq<Op>, avail: set<int>, order: seq<int>)
    returns (port: int, s': Ports)
    requires Inv(s, allowed) && Honest(s, DoAcquire(name, request, t0, avail0, order0))
    requires Pick(s, name, request, avail0, order0).Got?
    requires HonestRun(s, [DoAcquire(name, request, t0, avail0, order0)] + during
                          + [DoRelease(Pick(s, name, request, avail0, order0).port, time)] + after)
    requires forall i :: 0 <= i < |during| ==> KeepsHold(during[i], name, Pick(s, name, request, avail0, order0).port)
    requires forall i :: 0 <= i < |after| ==> LeavesAlone(after[i], name, time)
    ensures port == Pick(s, name, request, avail0, order0).port
    ensures s' == RunAll(s, [DoAcquire(name, request, t0, avail0, order0)] + during + [DoRelease(port, time)] + after)
    ensures port in avail ==> Pick(s', name, 0, avail, order) == Got(port)
  {
    port := Pick(s, name, request, avail0, order0).port;
    var first, last := [DoAcquire(name, request, t0, avail0, order0)], [DoRelease(port, time)];
    assert first + during + last + after == first + (during + (last + after));
    RunConcat(s, first, during + (last + after));
    var s1 := Acquire(s, name, request, t0, avail0, order0);
    assert RunAll(s, first) == s1 by { assert first[1..] == []; }
    AcquireKeeps(s, allowed, name, request, t0, avail0, order0);
    RunConcat(s1, during, last + after);
    RunKeeps(s1, allowed, during);
    HoldSurvivesIff(s1, allowed, during, name, port, Rec(name, port, false, t0));
    var s2 := RunAll(s1, during);
    RunConcat(s2, last, after);
    var s3 := Release(s2, port, time);
    assert RunAll(s2, last) == s3 by { assert last[1..] == []; }
    ReleaseRemembers(s2, allowed, name, port, time);
    ReleaseKeeps(s2, allowed, port, time);
    assert forall i :: 0 <= i < |after| ==> LeavesAlone(after[i], name, time) && Foreign(after[i], name);
    ReservationSurvivesIff(s3, allowed, after, name, port, time);
    s' := RunAll(s3, after);
  }

  lemma {:induction false} RunConcat(s: Ports, a: seq<Op>, b: seq<Op>)
    requires HonestRun(s, a + b)
    ensures HonestRun(s, a) && HonestRun(RunAll(s, a), b)
    ensures RunAll(s, a + b) == RunAll(RunAll(s, a), b)
    decreases |a|
  {
    if a == [] {
      assert a + b == b;
    } else {
      assert (a + b)[1..] == a[1..] + b;
      RunConcat(Apply(s, a[0]), a[1..], b);
    }
  }

  /** The cleaner never drops a reservation through which a port is still held. */
  lemma CleanerSparesHeld(s: Ports, allowed: set<int>, port: int, now: int)
    requires Inv(s, allowed) && port in s.used
    requires s.used[port].name in s.reserved && s.reserved[s.used[port].name] == s.used[port]
    ensures s.used[port].name in Clean(s, now).reserved && Clean(s, now).reserved[s.used[port].name] == s.used[port]
  {
  }
}
