/**
 One control session on frps (server/control.go) as a step system. Each goroutine
 has a program counter and each locked region is one step. A send on a closed
 channel or a second close sets the flag panicked, except where the code guards
 the send.

 Steps that also touch the registry of proxy names are guarded by the server
 (module ServerSessions); here the registry's answer is a parameter.
 */
module ServerControl {
  import opened Wrappers
  import opened Channels

  // ----- messages

  datatype ToClient = ReqWorkConn | NewProxyResp(name: Name, ok: bool) | Pong(ok: bool)

  /** ports is the proxy's use of server ports; valid, whether its configuration is accepted. */
  datatype ToServer = NewProxy(name: Name, ports: nat, valid: bool) | CloseProxy(name: Name) | Ping(valid: bool)

  /** A proxy object of this session. */
  datatype Pxy = Pxy(id: nat, ports: nat)

  // ----- program counters

  datatype Boot = Waiting | Requesting(sent: nat) | Booted

  datatype Writer = WriterOff | Writing | WriterExited

  datatype Reader = ReaderOff | Reading | Forwarding(m: ToServer) | ReaderExited

  datatype Manager =
    | ManagerOff
    | Idle
    | Reserved(name: Name, pxy: Pxy)              // within the port limit, Run not done
    | Ran(name: Name, pxy: Pxy)                   // Run succeeded, not yet in the registry
    | Added(name: Name, pxy: Pxy)                 // in the registry, not yet among the session's proxies
    | Failed(name: Name, pxy: Pxy)                // deferred clean-up still to do
    | Replying(m: ToClient, thenExit: bool)
    | ManagerExited

  datatype Stoper =
    | StoperOff | WaitStart | WaitReader | WaitManager | WaitWriter | Draining
    | Releasing(released: set<Name>)
    | Done

  function Stage(s: Stoper): nat
  {
    match s
    case StoperOff => 0
    case WaitStart => 1
    case WaitReader => 2
    case WaitManager => 3
    case WaitWriter => 4
    case Draining => 5
    case Releasing(_) => 6
    case Done => 7
  }

  /** What has happened to requests for work connections and to the connections themselves. */
  datatype Ledger = Ledger(
    pending: nat,    // requests written to the client and not answered
    waiting: nat,    // callers of GetWorkConn that found the pool empty
    owed: nat,       // callers that took a connection and have not sent the replacement request
    misses: nat, strays: nat, discards: nat, failures: nat, lost: nat, drained: nat,
    handed: seq<nat>,  // connections given to callers
    seen: set<nat>)    // connections that ever arrived

  datatype Ctl = Ctl(
    runID: Name, maxPorts: nat, poolCount: int,
    boot: Boot, writer: Writer, reader: Reader, manager: Manager, stoper: Stoper, shutdownStarted: bool,
    sendCh: Chan<ToClient>, readCh: Chan<ToServer>, workConnCh: Chan<nat>,
    proxies: map<Name, Pxy>, nextPxy: nat, portsUsed: int,
    ledger: Ledger,
    panicked: bool)

  /** The number of work connections Start asks for. */
  function Initial(c: Ctl): nat
  {
    if c.poolCount > 0 then c.poolCount else 0
  }

  /** NewControl: make(chan) panics below a pool count of -10, so no session has one. */
  function NewControl(runID: Name, maxPorts: nat, poolCount: int): Ctl
    requires poolCount >= -10
  {
    Ctl(runID, maxPorts, poolCount, Waiting, WriterOff, ReaderOff, ManagerOff, StoperOff, false,
        Chan([], 10, false), Chan([], 10, false), Chan([], poolCount + 10, false),
        map[], 0, 0, Ledger(0, 0, 0, 0, 0, 0, 0, 0, 0, [], {}), false)
  }

  // ----- Start

  function Begin(c: Ctl): Ctl
  {
    if c.boot.Waiting? then c.(boot := Requesting(0), writer := Writing) else c
  }

  function BootStep(c: Ctl): Ctl
  {
    if !c.boot.Requesting? then c
    else if c.boot.sent < Initial(c) then
      if c.sendCh.closed then c.(panicked := true)
      else if c.sendCh.Full() then c
      else c.(boot := Requesting(c.boot.sent + 1), sendCh := c.sendCh.Push(ReqWorkConn))
    else c.(boot := Booted, reader := Reading, manager := Idle, stoper := WaitStart)
  }

  // ----- writer

  function WriterStep(c: Ctl, wrote: bool): Ctl
  {
    if !c.writer.Writing? then c
    else if c.sendCh.buf == [] then
      if c.sendCh.closed then c.(writer := WriterExited) else c
    else
      var isReq := c.sendCh.buf[0] == ReqWorkConn;
      var c' := c.(sendCh := c.sendCh.Pop(), writer := if wrote then Writing else WriterExited);
      if !isReq then c'
      else if wrote then c'.(ledger := c.ledger.(pending := c.ledger.pending + 1))
      else c'.(ledger := c.ledger.(lost := c.ledger.lost + 1))
  }

  /** The encryption of the control connection cannot be set up. */
  function WriterQuit(c: Ctl): Ctl
  {
    if c.writer.Writing? then c.(writer := WriterExited) else c
  }

  // ----- reader

  function ReaderGet(c: Ctl, m: ToServer): Ctl
  {
    if c.reader.Reading? then c.(reader := Forwarding(m)) else c
  }

  function ReaderQuit(c: Ctl): Ctl
  {
    if c.reader.Reading? then c.(reader := ReaderExited) else c
  }

  function ReaderForward(c: Ctl): Ctl
  {
    if !c.reader.Forwarding? then c
    else if c.readCh.closed then c.(panicked := true)
    else if c.readCh.Full() then c
    else c.(readCh := c.readCh.Push(c.reader.m), reader := Reading)
  }

  // ----- manager

  function ManagerReceive(c: Ctl): Ctl
  {
    if !c.manager.Idle? then c
    else if c.readCh.buf == [] then
      if c.readCh.closed then c.(manager := ManagerExited) else c
    else
      var c' := c.(readCh := c.readCh.Pop());
      match c.readCh.buf[0]
      case NewProxy(name, ports, valid) =>
        if !valid || (c.maxPorts > 0 && c.portsUsed + ports > c.maxPorts) then
          c'.(manager := Replying(NewProxyResp(name, false), false))
        else
          c'.(manager := Reserved(name, Pxy(c.nextPxy, ports)), nextPxy := c.nextPxy + 1,
              portsUsed := if c.maxPorts > 0 then c.portsUsed + ports else c.portsUsed)
      case CloseProxy(name) =>
        if name !in c.proxies then c'
        else
          c'.(proxies := c.proxies - {name},
              portsUsed := if c.maxPorts > 0 then c.portsUsed - c.proxies[name].ports else c.portsUsed)
      case Ping(valid) => c'.(manager := Replying(Pong(valid), !valid))
  }

  function ManagerTimeout(c: Ctl): Ctl
  {
    if c.manager.Idle? then c.(manager := ManagerExited) else c
  }

  function ManagerRun(c: Ctl, ok: bool): Ctl
  {
    if !c.manager.Reserved? then c
    else c.(manager := if ok then Ran(c.manager.name, c.manager.pxy) else Failed(c.manager.name, c.manager.pxy))
  }

  function ManagerAdd(c: Ctl, ok: bool): Ctl
  {
    if !c.manager.Ran? then c
    else c.(manager := if ok then Added(c.manager.name, c.manager.pxy) else Failed(c.manager.name, c.manager.pxy))
  }

  function ManagerCleanUp(c: Ctl): Ctl
  {
    if !c.manager.Failed? then c
    else c.(manager := Replying(NewProxyResp(c.manager.name, false), false),
            portsUsed := if c.maxPorts > 0 then c.portsUsed - c.manager.pxy.ports else c.portsUsed)
  }

  function ManagerStore(c: Ctl): Ctl
  {
    if !c.manager.Added? then c
    else c.(manager := Replying(NewProxyResp(c.manager.name, true), false),
            proxies := c.proxies[c.manager.name := c.manager.pxy])
  }

  function ManagerReply(c: Ctl): Ctl
  {
    if !c.manager.Replying? then c
    else if c.sendCh.closed then c.(panicked := true)
    else if c.sendCh.Full() then c
    else c.(sendCh := c.sendCh.Push(c.manager.m), manager := if c.manager.thenExit then ManagerExited else Idle)
  }

  // ----- shutdown

  /** allShutdown.Start: by an exiting goroutine, or because a newer login replaces the session. */
  function Signal(c: Ctl): Ctl
  {
    c.(shutdownStarted := true)
  }

  function Close<T>(ch: Chan<T>): Chan<T>
  {
    ch.(closed := true)
  }

  /** A connection left in the closed pool is closed. */
  function Drain(c: Ctl): Ctl
    requires c.workConnCh.buf != []
  {
    c.(workConnCh := c.workConnCh.Pop(), ledger := c.ledger.(drained := c.ledger.drained + 1))
  }

  function StoperStep(c: Ctl): Ctl
  {
    match c.stoper
    case WaitStart => if c.shutdownStarted then c.(stoper := WaitReader) else c
    case WaitReader =>
      if !c.reader.ReaderExited? then c
      else if c.readCh.closed then c.(panicked := true)
      else c.(readCh := Close(c.readCh), stoper := WaitManager)
    case WaitManager =>
      if !c.manager.ManagerExited? then c
      else if c.sendCh.closed then c.(panicked := true)
      else c.(sendCh := Close(c.sendCh), stoper := WaitWriter)
    case WaitWriter =>
      if !c.writer.WriterExited? then c
      else if c.workConnCh.closed then c.(panicked := true)
      else c.(workConnCh := Close(c.workConnCh), stoper := Draining)
    case Draining =>
      if c.workConnCh.buf == [] then c.(stoper := Releasing({})) else Drain(c)
    case Releasing(released) => if released == c.proxies.Keys then c.(stoper := Done) else c
    case _ => c
  }

  /** One round of the stoper's loop over the proxies: close it and delete its name. */
  function ReleaseOne(c: Ctl, name: Name): Ctl
  {
    if c.stoper.Releasing? && name in c.proxies && name !in c.stoper.released
    then c.(stoper := Releasing(c.stoper.released + {name}))
    else c
  }

  // ----- the work-connection pool

  /** A connection arrives: it answers a request of this session, or it is a stray. */
  function Received(l: Ledger, conn: nat, solicited: bool): Ledger
    requires solicited ==> l.pending > 0
  {
    if solicited then l.(seen := l.seen + {conn}, pending := l.pending - 1)
    else l.(seen := l.seen + {conn}, strays := l.strays + 1)
  }

  function Lose(c: Ctl): Ctl
  {
    c.(ledger := c.ledger.(lost := c.ledger.lost + 1))
  }

  function Discard(c: Ctl): Ctl
  {
    c.(ledger := c.ledger.(discards := c.ledger.discards + 1))
  }

  /** RegisterWorkConn; the panic of a send on the closed pool is recovered. */
  function Arrive(c: Ctl, conn: nat, solicited: bool): Ctl
  {
    if conn in c.ledger.seen || (solicited && c.ledger.pending == 0) then c
    else
      var c' := c.(ledger := Received(c.ledger, conn, solicited));
      if c.workConnCh.closed then Lose(c')
      else if c.workConnCh.Full() then Discard(c')
      else c'.(workConnCh := c.workConnCh.Push(conn))
  }

  /** The client cannot answer a request: no connection, or no authentication. */
  function ClientFail(c: Ctl): Ctl
  {
    if c.ledger.pending == 0 then c
    else c.(ledger := c.ledger.(pending := c.ledger.pending - 1, failures := c.ledger.failures + 1))
  }

  function TakeConn(c: Ctl, l: Ledger): Ctl
    requires c.workConnCh.buf != []
  {
    c.(workConnCh := c.workConnCh.Pop(),
       ledger := l.(owed := l.owed + 1, handed := l.handed + [c.workConnCh.buf[0]]))
  }

  /** GetWorkConn finds a connection at once. */
  function GetHit(c: Ctl): Ctl
  {
    if c.workConnCh.buf == [] then c else TakeConn(c, c.ledger)
  }

  /** GetWorkConn found none: a guarded request for one more, then it waits. */
  function GetMiss(c: Ctl): Ctl
  {
    if c.sendCh.closed || c.sendCh.Full() then c
    else c.(sendCh := c.sendCh.Push(ReqWorkConn),
            ledger := c.ledger.(misses := c.ledger.misses + 1, waiting := c.ledger.waiting + 1))
  }

  function GetAfterWait(c: Ctl): Ctl
  {
    if c.ledger.waiting == 0 || c.workConnCh.buf == [] then c
    else TakeConn(c, c.ledger.(waiting := c.ledger.waiting - 1))
  }

  /** The wait times out, or the closed pool ends it. */
  function GetGivesUp(c: Ctl): Ctl
  {
    if c.ledger.waiting == 0 then c else c.(ledger := c.ledger.(waiting := c.ledger.waiting - 1))
  }

  /** The guarded request that replaces a connection taken. */
  function Replace(c: Ctl): Ctl
  {
    if c.ledger.owed == 0 then c
    else if c.sendCh.closed then c.(ledger := c.ledger.(owed := c.ledger.owed - 1, lost := c.ledger.lost + 1))
    else if c.sendCh.Full() then c
    else c.(sendCh := c.sendCh.Push(ReqWorkConn), ledger := c.ledger.(owed := c.ledger.owed - 1))
  }

  // ----- the invariant, in four parts

  /** Channels: nothing ever panics, and the stoper closes each channel only behind its last sender. */
  ghost predicate ChannelsSafe(c: Ctl)
  {
    && !c.panicked
    && (c.boot.Waiting? <==> c.writer.WriterOff?)
    && (c.boot.Booted? <==> Stage(c.stoper) > 0)
    && (c.boot.Booted? <==> !c.reader.ReaderOff?)
    && (c.boot.Booted? <==> !c.manager.ManagerOff?)
    && (c.readCh.closed <==> Stage(c.stoper) >= 3)
    && (c.sendCh.closed <==> Stage(c.stoper) >= 4)
    && (c.workConnCh.closed <==> Stage(c.stoper) >= 5)
    && (Stage(c.stoper) >= 2 ==> c.shutdownStarted)
    && (Stage(c.stoper) >= 3 ==> c.reader.ReaderExited?)
    && (Stage(c.stoper) >= 4 ==> c.manager.ManagerExited?)
    && (Stage(c.stoper) >= 5 ==> c.writer.WriterExited?)
    && (Stage(c.stoper) >= 6 ==> c.workConnCh.buf == [])
    && |c.sendCh.buf| <= c.sendCh.cap && |c.readCh.buf| <= c.readCh.cap
    && (c.manager.Replying? ==> c.manager.m != ReqWorkConn)
  }

  function ToBoot(c: Ctl): int
  {
    match c.boot
    case Waiting => Initial(c)
    case Requesting(sent) => Initial(c) - sent
    case Booted => 0
  }

  /** Connections pooled, asked for, or about to be asked for. */
  ghost function Stock(c: Ctl): int
  {
    |c.workConnCh.buf| + Count(c.sendCh.buf, ReqWorkConn) + c.ledger.pending + c.ledger.owed + ToBoot(c)
  }

  predicate PoolShape(c: Ctl)
  {
    && c.poolCount >= -10 && c.workConnCh.cap == c.poolCount + 10
    && |c.workConnCh.buf| <= c.workConnCh.cap
    && (c.boot.Requesting? ==> c.boot.sent <= Initial(c))
  }

  predicate Accounts(stock: int, initial: nat, l: Ledger)
  {
    && stock == initial + l.misses + l.strays - l.discards - l.failures - l.lost - l.drained
    && (l.failures == 0 && l.lost == 0 && l.drained == 0 ==> stock >= initial)
  }

  /** Every change of the stock is accounted for. */
  ghost predicate PoolConserved(c: Ctl)
  {
    PoolShape(c) && Accounts(Stock(c), Initial(c), c.ledger)
  }

  /** All of s has arrived, and nothing occurs in it twice. */
  ghost predicate Unique(s: seq<nat>, seen: set<nat>)
  {
    s == [] ||
    var n := |s| - 1;
    s[n] in seen && s[n] !in s[..n] && Unique(s[..n], seen)
  }

  /** No connection is pooled or handed out twice. */
  ghost predicate ConnsUnique(c: Ctl)
  {
    Unique(c.ledger.handed + c.workConnCh.buf, c.ledger.seen)
  }

  ghost function PortSum(proxies: map<Name, Pxy>): nat
  {
    if proxies == map[] then 0
    else
      var n :| n in proxies;
      proxies[n].ports + PortSum(proxies - {n})
  }

  function InProgress(m: Manager): nat
  {
    if m.Reserved? || m.Ran? || m.Added? || m.Failed? then m.pxy.ports else 0
  }

  /** The port count is the sum over the proxies held and the one in progress, within the limit. */
  ghost predicate PortsCounted(maxPorts: nat, portsUsed: int, proxies: map<Name, Pxy>, m: Manager)
  {
    && (maxPorts > 0 ==> portsUsed == PortSum(proxies) + InProgress(m) && portsUsed <= maxPorts)
    && (maxPorts == 0 ==> portsUsed == 0)
  }

  ghost predicate QuotaKept(c: Ctl)
  {
    && PortsCounted(c.maxPorts, c.portsUsed, c.proxies, c.manager)
    && (c.manager.Added? ==> c.manager.name !in c.proxies)
    && (c.stoper.Releasing? ==> c.stoper.released <= c.proxies.Keys)
  }

  ghost predicate Inv(c: Ctl)
  {
    ChannelsSafe(c) && PoolConserved(c) && ConnsUnique(c) && QuotaKept(c)
  }

  // ----- sums over maps

  /** The sum does not depend on the order in which proxies are visited. */
  lemma {:induction false} PortSumWithout(proxies: map<Name, Pxy>, name: Name)
    requires name in proxies
    ensures PortSum(proxies) == proxies[name].ports + PortSum(proxies - {name})
    decreases |proxies|
  {
    var n :| n in proxies && PortSum(proxies) == proxies[n].ports + PortSum(proxies - {n});
    if n != name {
      assert |proxies - {n}| < |proxies| by { assert (proxies - {n}).Keys == proxies.Keys - {n}; }
      assert |proxies - {name}| < |proxies| by { assert (proxies - {name}).Keys == proxies.Keys - {name}; }
      PortSumWithout(proxies - {n}, name);
      PortSumWithout(proxies - {name}, n);
      assert proxies - {n} - {name} == proxies - {name} - {n};
    }
  }

  lemma PortSumWith(proxies: map<Name, Pxy>, name: Name, pxy: Pxy)
    requires name !in proxies
    ensures PortSum(proxies[name := pxy]) == PortSum(proxies) + pxy.ports
  {
    PortSumWithout(proxies[name := pxy], name);
    assert proxies[name := pxy] - {name} == proxies;
  }

  // ----- connections move along, they do not multiply

  lemma {:induction false} UniqueMeans(s: seq<nat>, seen: set<nat>)
    requires Unique(s, seen)
    ensures forall i :: 0 <= i < |s| ==> s[i] in seen
    ensures forall i, j :: 0 <= i < j < |s| ==> s[i] != s[j]
  {
    if s != [] {
      UniqueMeans(s[..|s| - 1], seen);
    }
  }

  lemma {:induction false} UniqueMore(s: seq<nat>, seen: set<nat>, x: nat)
    requires Unique(s, seen)
    ensures Unique(s, seen + {x})
  {
    if s != [] {
      UniqueMore(s[..|s| - 1], seen, x);
    }
  }

  lemma ConnArrives(handed: seq<nat>, buf: seq<nat>, seen: set<nat>, conn: nat)
    requires Unique(handed + buf, seen) && conn !in seen
    ensures Unique(handed + (buf + [conn]), seen + {conn}) && Unique(handed + buf, seen + {conn})
  {
    UniqueMeans(handed + buf, seen);
    UniqueMore(handed + buf, seen, conn);
    assert (handed + (buf + [conn]))[..|handed + buf|] == handed + buf;
  }

  lemma {:induction false} ConnDrained(handed: seq<nat>, buf: seq<nat>, seen: set<nat>)
    requires Unique(handed + buf, seen) && buf != []
    ensures Unique(handed + buf[1..], seen)
  {
    var n := |buf| - 1;
    assert (handed + buf)[..|handed| + n] == handed + buf[..n];
    if n == 0 {
      assert handed + buf[1..] == handed == handed + buf[..0];
    } else {
      ConnDrained(handed, buf[..n], seen);
      assert buf[..n][1..] == buf[1..][..n - 1];
      assert (handed + buf[1..])[..|handed| + n - 1] == handed + buf[..n][1..];
      assert (handed + buf[1..])[|handed| + n - 1] == buf[n];
    }
  }

  lemma ConnTaken(handed: seq<nat>, buf: seq<nat>, seen: set<nat>)
    requires Unique(handed + buf, seen) && buf != []
    ensures Unique((handed + [buf[0]]) + buf[1..], seen)
  {
    assert (handed + [buf[0]]) + buf[1..] == handed + buf;
  }

  // ----- every step keeps the invariant

  lemma NewControlKeeps(runID: Name, maxPorts: nat, poolCount: int)
    requires poolCount >= -10
    ensures Inv(NewControl(runID, maxPorts, poolCount))
  {
  }

  /** Steps that leave the proxies, the manager and the stoper alone. */
  ghost predicate SameProxies(c: Ctl, c': Ctl)
  {
    && c'.maxPorts == c.maxPorts && c'.portsUsed == c.portsUsed && c'.proxies == c.proxies
    && c'.manager == c.manager && c'.stoper == c.stoper
  }

  lemma QuotaUntouched(c: Ctl, c': Ctl)
    requires QuotaKept(c) && SameProxies(c, c')
    ensures QuotaKept(c')
  {
  }

  /** Steps of callers and arrivals, which leave the goroutines of the session alone. */
  ghost predicate SameGoroutines(c: Ctl, c': Ctl)
  {
    && c'.panicked == c.panicked && c'.boot == c.boot && c'.writer == c.writer && c'.reader == c.reader
    && c'.manager == c.manager && c'.stoper == c.stoper && c'.shutdownStarted == c.shutdownStarted
    && c'.readCh == c.readCh
    && c'.sendCh.closed == c.sendCh.closed && (|c.sendCh.buf| <= c.sendCh.cap ==> |c'.sendCh.buf| <= c'.sendCh.cap)
    && c'.workConnCh.closed == c.workConnCh.closed
    && (c.workConnCh.closed ==> |c'.workConnCh.buf| <= |c.workConnCh.buf|)
  }

  lemma GoroutinesUntouched(c: Ctl, c': Ctl)
    requires ChannelsSafe(c) && SameGoroutines(c, c')
    ensures ChannelsSafe(c')
  {
  }

  lemma BeginKeeps(c: Ctl)
    requires Inv(c)
    ensures Inv(Begin(c))
  {
    QuotaUntouched(c, Begin(c));
  }

  lemma BootStepStock(c: Ctl)
    requires c.boot.Requesting? ==> c.boot.sent <= Initial(c)
    ensures Stock(BootStep(c)) == Stock(c) && BootStep(c).ledger == c.ledger
  {
    CountPush(c.sendCh.buf, ReqWorkConn, ReqWorkConn);
  }

  lemma BootStepPool(c: Ctl)
    requires PoolConserved(c)
    ensures PoolConserved(BootStep(c))
  {
    BootStepStock(c);
    assert PoolShape(BootStep(c)) && Initial(BootStep(c)) == Initial(c);
  }

  lemma BootStepChannels(c: Ctl)
    requires ChannelsSafe(c)
    ensures ChannelsSafe(BootStep(c))
  {
  }

  /** Booting starts an idle manager and a waiting stoper. */
  lemma BootStepQuota(c: Ctl)
    requires ChannelsSafe(c) && QuotaKept(c)
    ensures QuotaKept(BootStep(c))
  {
    var c' := BootStep(c);
    assert c'.maxPorts == c.maxPorts && c'.portsUsed == c.portsUsed && c'.proxies == c.proxies;
    assert InProgress(c'.manager) == InProgress(c.manager);
  }

  lemma BootStepConns(c: Ctl)
    requires ConnsUnique(c)
    ensures ConnsUnique(BootStep(c))
  {
    assert SameConns(c, BootStep(c));
    ConnsUntouched(c, BootStep(c));
  }

  lemma BootStepKeeps(c: Ctl)
    requires Inv(c)
    ensures Inv(BootStep(c))
  {
    var c' := BootStep(c);
    assert ChannelsSafe(c') by { BootStepChannels(c); }
    assert QuotaKept(c') by { BootStepQuota(c); }
    assert PoolConserved(c') by { BootStepPool(c); }
    assert ConnsUnique(c') by { BootStepConns(c); }
  }

  lemma WriterStock(c: Ctl, wrote: bool)
    ensures var c' := WriterStep(c, wrote);
      && Stock(c') - c'.ledger.pending == Stock(c) - c.ledger.pending
           - if c.writer.Writing? && c.sendCh.buf != [] && c.sendCh.buf[0] == ReqWorkConn then 1 else 0
  {
    if c.sendCh.buf != [] { CountPop(c.sendCh.buf, ReqWorkConn); }
  }

  /** A request written is pending; one that could not be written is lost. */
  lemma WriterLedger(c: Ctl, wrote: bool)
    ensures var l, l' := c.ledger, WriterStep(c, wrote).ledger;
      if c.writer.Writing? && c.sendCh.buf != [] && c.sendCh.buf[0] == ReqWorkConn
      then l' == if wrote then l.(pending := l.pending + 1) else l.(lost := l.lost + 1)
      else l' == l
  {
  }

  lemma WriterShape(c: Ctl, wrote: bool)
    requires PoolShape(c)
    ensures PoolShape(WriterStep(c, wrote)) && Initial(WriterStep(c, wrote)) == Initial(c)
  {
  }

  lemma WriterPool(c: Ctl, wrote: bool)
    requires PoolConserved(c)
    ensures PoolConserved(WriterStep(c, wrote))
  {
    WriterStock(c, wrote);
    WriterLedger(c, wrote);
    WriterShape(c, wrote);
  }

  lemma WriterChannels(c: Ctl, wrote: bool)
    requires ChannelsSafe(c)
    ensures ChannelsSafe(WriterStep(c, wrote))
  {
  }

  lemma WriterFrame(c: Ctl, wrote: bool)
    ensures var c' := WriterStep(c, wrote); SameProxies(c, c') && SameConns(c, c')
  {
  }

  lemma WriterRest(c: Ctl, wrote: bool)
    requires ConnsUnique(c) && QuotaKept(c)
    ensures ConnsUnique(WriterStep(c, wrote)) && QuotaKept(WriterStep(c, wrote))
  {
    WriterFrame(c, wrote);
    ConnsUntouched(c, WriterStep(c, wrote));
    QuotaUntouched(c, WriterStep(c, wrote));
  }

  lemma WriterKeeps(c: Ctl, wrote: bool)
    requires Inv(c)
    ensures Inv(WriterStep(c, wrote))
  {
    var c' := WriterStep(c, wrote);
    assert PoolConserved(c') by { WriterPool(c, wrote); }
    assert ChannelsSafe(c') by { WriterChannels(c, wrote); }
    assert ConnsUnique(c') && QuotaKept(c') by { WriterRest(c, wrote); }
  }

  lemma WriterQuitKeeps(c: Ctl)
    requires Inv(c)
    ensures Inv(WriterQuit(c))
  {
    PoolUntouched(c, WriterQuit(c));
    QuotaUntouched(c, WriterQuit(c));
  }

  lemma ReaderKeeps(c: Ctl, m: ToServer)
    requires Inv(c)
    ensures Inv(ReaderGet(c, m)) && Inv(ReaderQuit(c))
  {
  }

  lemma ForwardKeeps(c: Ctl)
    requires Inv(c)
    ensures Inv(ReaderForward(c))
  {
  }

  /** Steps that leave the pool's parts alone. */
  ghost predicate SamePool(c: Ctl, c': Ctl)
  {
    && c'.workConnCh.buf == c.workConnCh.buf && c'.workConnCh.cap == c.workConnCh.cap
    && c'.sendCh.buf == c.sendCh.buf && c'.ledger == c.ledger
    && c'.boot == c.boot && c'.poolCount == c.poolCount
  }

  lemma PoolUntouched(c: Ctl, c': Ctl)
    requires PoolConserved(c) && ConnsUnique(c) && SamePool(c, c')
    ensures PoolConserved(c') && ConnsUnique(c')
  {
  }

  ghost predicate SameConns(c: Ctl, c': Ctl)
  {
    c'.workConnCh.buf == c.workConnCh.buf && c'.ledger.handed == c.ledger.handed && c'.ledger.seen == c.ledger.seen
  }

  lemma ConnsUntouched(c: Ctl, c': Ctl)
    requires ConnsUnique(c) && SameConns(c, c')
    ensures ConnsUnique(c')
  {
  }

  lemma ManagerReceiveQuota(c: Ctl)
    requires QuotaKept(c) && ChannelsSafe(c)
    ensures QuotaKept(ManagerReceive(c))
  {
    if c.manager.Idle? && c.readCh.buf != [] && c.readCh.buf[0].CloseProxy? && c.readCh.buf[0].name in c.proxies {
      PortSumWithout(c.proxies, c.readCh.buf[0].name);
    }
  }

  lemma ManagerReceiveChannels(c: Ctl)
    requires ChannelsSafe(c)
    ensures ChannelsSafe(ManagerReceive(c))
  {
  }

  lemma ManagerReceiveFrame(c: Ctl)
    ensures SamePool(c, ManagerReceive(c))
  {
  }

  lemma ManagerReceivePool(c: Ctl)
    requires PoolConserved(c) && ConnsUnique(c)
    ensures PoolConserved(ManagerReceive(c)) && ConnsUnique(ManagerReceive(c))
  {
    ManagerReceiveFrame(c);
    PoolUntouched(c, ManagerReceive(c));
  }

  lemma ManagerTimeoutKeeps(c: Ctl)
    requires Inv(c)
    ensures Inv(ManagerTimeout(c))
  {
  }

  lemma ManagerReceiveKeeps(c: Ctl)
    requires Inv(c)
    ensures Inv(ManagerReceive(c))
  {
    ManagerReceiveQuota(c);
    ManagerReceiveChannels(c);
    ManagerReceivePool(c);
  }

  lemma ManagerRunKeeps(c: Ctl, ok: bool)
    requires Inv(c)
    ensures Inv(ManagerRun(c, ok))
  {
    PoolUntouched(c, ManagerRun(c, ok));
  }

  /** The registry refuses a name that this session already holds. */
  lemma ManagerAddKeeps(c: Ctl, ok: bool)
    requires Inv(c)
    requires c.manager.Ran? && ok ==> c.manager.name !in c.proxies
    ensures Inv(ManagerAdd(c, ok))
  {
    PoolUntouched(c, ManagerAdd(c, ok));
  }

  lemma ManagerCleanUpKeeps(c: Ctl)
    requires Inv(c)
    ensures Inv(ManagerCleanUp(c))
  {
    PoolUntouched(c, ManagerCleanUp(c));
  }

  lemma ManagerStoreKeeps(c: Ctl)
    requires Inv(c)
    ensures Inv(ManagerStore(c))
  {
    PoolUntouched(c, ManagerStore(c));
    if c.manager.Added? { PortSumWith(c.proxies, c.manager.name, c.manager.pxy); }
  }

  lemma ManagerReplyKeeps(c: Ctl)
    requires Inv(c)
    ensures Inv(ManagerReply(c))
  {
    if c.manager.Replying? { CountPush(c.sendCh.buf, c.manager.m, ReqWorkConn); }
  }

  lemma SignalKeeps(c: Ctl)
    requires Inv(c)
    ensures Inv(Signal(c))
  {
    PoolUntouched(c, Signal(c));
    QuotaUntouched(c, Signal(c));
  }

  lemma DrainPool(c: Ctl)
    requires PoolConserved(c) && c.workConnCh.buf != []
    ensures PoolConserved(Drain(c))
  {
    assert Stock(Drain(c)) == Stock(c) - 1;
  }

  lemma DrainConns(c: Ctl)
    requires ConnsUnique(c) && c.workConnCh.buf != []
    ensures ConnsUnique(Drain(c))
  {
    ConnDrained(c.ledger.handed, c.workConnCh.buf, c.ledger.seen);
  }

  lemma StoperSamePool(c: Ctl)
    requires !(c.stoper.Draining? && c.workConnCh.buf != [])
    ensures SamePool(c, StoperStep(c))
  {
  }

  lemma StoperPool(c: Ctl)
    requires PoolConserved(c) && ConnsUnique(c)
    ensures PoolConserved(StoperStep(c)) && ConnsUnique(StoperStep(c))
  {
    if c.stoper.Draining? && c.workConnCh.buf != [] {
      DrainPool(c);
      DrainConns(c);
    } else {
      StoperSamePool(c);
      PoolUntouched(c, StoperStep(c));
    }
  }

  lemma StoperChannels(c: Ctl)
    requires ChannelsSafe(c)
    ensures ChannelsSafe(StoperStep(c))
  {
  }

  lemma StoperFrame(c: Ctl)
    ensures var c' := StoperStep(c); c'.maxPorts == c.maxPorts && c'.portsUsed == c.portsUsed
    ensures var c' := StoperStep(c); c'.proxies == c.proxies && c'.manager == c.manager
  {
  }

  lemma StoperReleases(c: Ctl)
    ensures var c' := StoperStep(c); c'.stoper.Releasing? ==> c'.stoper.released == {} || c'.stoper == c.stoper
  {
  }

  lemma StoperQuota(c: Ctl)
    requires QuotaKept(c)
    ensures QuotaKept(StoperStep(c))
  {
    StoperFrame(c);
    StoperReleases(c);
  }

  lemma StoperKeeps(c: Ctl)
    requires Inv(c)
    ensures Inv(StoperStep(c))
  {
    var c' := StoperStep(c);
    assert QuotaKept(c') by { StoperQuota(c); }
    assert PoolConserved(c') && ConnsUnique(c') by { StoperPool(c); }
    assert ChannelsSafe(c') by { StoperChannels(c); }
  }

  lemma ReleaseKeeps(c: Ctl, name: Name)
    requires Inv(c)
    ensures Inv(ReleaseOne(c, name))
  {
    PoolUntouched(c, ReleaseOne(c, name));
  }

  /** A connection has arrived and is still in the caller's hand. */
  ghost predicate InHand(c: Ctl)
  {
    PoolShape(c) && Accounts(Stock(c) + 1, Initial(c), c.ledger)
  }

  lemma ReceivedPool(c: Ctl, conn: nat, solicited: bool)
    requires PoolConserved(c) && (solicited ==> c.ledger.pending > 0)
    ensures InHand(c.(ledger := Received(c.ledger, conn, solicited)))
  {
    var c' := c.(ledger := Received(c.ledger, conn, solicited));
    assert Stock(c') == if solicited then Stock(c) - 1 else Stock(c);
  }

  /** A discard happens only when the pool is full, so at least the initial number stays. */
  lemma PlacedPool(c: Ctl, conn: nat)
    requires InHand(c)
    ensures PoolConserved(Lose(c))
    ensures c.workConnCh.Full() ==> PoolConserved(Discard(c))
    ensures !c.workConnCh.Full() ==> PoolConserved(c.(workConnCh := c.workConnCh.Push(conn)))
  {
    assert Stock(Lose(c)) == Stock(c) == Stock(Discard(c));
    assert Stock(c.(workConnCh := c.workConnCh.Push(conn))) == Stock(c) + 1;
  }

  lemma ArrivePool(c: Ctl, conn: nat, solicited: bool)
    requires PoolConserved(c)
    ensures PoolConserved(Arrive(c, conn, solicited))
  {
    if conn !in c.ledger.seen && (solicited ==> c.ledger.pending > 0) {
      ReceivedPool(c, conn, solicited);
      PlacedPool(c.(ledger := Received(c.ledger, conn, solicited)), conn);
    }
  }

  lemma ArrivedConns(c: Ctl, c': Ctl, conn: nat)
    requires ConnsUnique(c) && conn !in c.ledger.seen
    requires c'.ledger.handed == c.ledger.handed && c'.ledger.seen == c.ledger.seen + {conn}
    requires c'.workConnCh.buf == c.workConnCh.buf || c'.workConnCh.buf == c.workConnCh.buf + [conn]
    ensures ConnsUnique(c')
  {
    ConnArrives(c.ledger.handed, c.workConnCh.buf, c.ledger.seen, conn);
  }

  lemma ArriveConns(c: Ctl, conn: nat, solicited: bool)
    requires ConnsUnique(c)
    ensures ConnsUnique(Arrive(c, conn, solicited))
  {
    var c' := Arrive(c, conn, solicited);
    if conn in c.ledger.seen || (solicited && c.ledger.pending == 0) {
      assert c' == c;
    } else {
      ArrivedConns(c, c', conn);
    }
  }

  lemma ArriveFrame(c: Ctl, conn: nat, solicited: bool)
    ensures SameProxies(c, Arrive(c, conn, solicited)) && SameGoroutines(c, Arrive(c, conn, solicited))
  {
  }

  lemma ArriveKeeps(c: Ctl, conn: nat, solicited: bool)
    requires Inv(c)
    ensures Inv(Arrive(c, conn, solicited))
  {
    var c' := Arrive(c, conn, solicited);
    ArriveFrame(c, conn, solicited);
    assert PoolConserved(c') by { ArrivePool(c, conn, solicited); }
    assert ConnsUnique(c') by { ArriveConns(c, conn, solicited); }
    assert QuotaKept(c') by { QuotaUntouched(c, c'); }
    assert ChannelsSafe(c') by { GoroutinesUntouched(c, c'); }
  }

  lemma ClientFailKeeps(c: Ctl)
    requires Inv(c)
    ensures Inv(ClientFail(c))
  {
  }

  lemma TakenPool(c: Ctl, l: Ledger)
    requires PoolConserved(c) && c.workConnCh.buf != [] && (l == c.ledger || (c.ledger.waiting > 0 && l == c.ledger.(waiting := c.ledger.waiting - 1)))
    ensures PoolConserved(TakeConn(c, l))
  {
    assert Stock(TakeConn(c, l)) == Stock(c);
  }

  lemma TakePool(c: Ctl)
    requires PoolConserved(c)
    ensures PoolConserved(GetHit(c)) && PoolConserved(GetAfterWait(c))
  {
    if c.workConnCh.buf != [] {
      TakenPool(c, c.ledger);
      if c.ledger.waiting > 0 { TakenPool(c, c.ledger.(waiting := c.ledger.waiting - 1)); }
    }
  }

  lemma TakeConns(c: Ctl)
    requires ConnsUnique(c)
    ensures ConnsUnique(GetHit(c)) && ConnsUnique(GetAfterWait(c))
  {
    if c.workConnCh.buf != [] { ConnTaken(c.ledger.handed, c.workConnCh.buf, c.ledger.seen); }
  }

  lemma TakeFrame(c: Ctl)
    ensures SameProxies(c, GetHit(c)) && SameGoroutines(c, GetHit(c))
    ensures SameProxies(c, GetAfterWait(c)) && SameGoroutines(c, GetAfterWait(c))
  {
  }

  lemma TakeKeeps(c: Ctl)
    requires Inv(c)
    ensures Inv(GetHit(c)) && Inv(GetAfterWait(c))
  {
    var h, w := GetHit(c), GetAfterWait(c);
    TakeFrame(c);
    assert PoolConserved(h) && PoolConserved(w) by { TakePool(c); }
    assert ConnsUnique(h) && ConnsUnique(w) by { TakeConns(c); }
    assert QuotaKept(h) && QuotaKept(w) by { QuotaUntouched(c, h); QuotaUntouched(c, w); }
    assert ChannelsSafe(h) && ChannelsSafe(w) by { GoroutinesUntouched(c, h); GoroutinesUntouched(c, w); }
  }

  lemma MissPool(c: Ctl)
    requires PoolConserved(c)
    ensures PoolConserved(GetMiss(c))
  {
    CountPush(c.sendCh.buf, ReqWorkConn, ReqWorkConn);
  }

  lemma ReplacePool(c: Ctl)
    requires PoolConserved(c)
    ensures PoolConserved(Replace(c))
  {
    CountPush(c.sendCh.buf, ReqWorkConn, ReqWorkConn);
    var c' := Replace(c);
    if c.ledger.owed > 0 && c.sendCh.closed {
      assert Stock(c') == Stock(c) - 1;
    } else {
      assert Stock(c') == Stock(c);
    }
  }

  lemma MissFrame(c: Ctl)
    ensures var c' := GetMiss(c); SameProxies(c, c') && SameGoroutines(c, c') && SameConns(c, c')
  {
  }

  lemma MissKeeps(c: Ctl)
    requires Inv(c)
    ensures Inv(GetMiss(c))
  {
    var c' := GetMiss(c);
    MissFrame(c);
    assert PoolConserved(c') by { MissPool(c); }
    assert ConnsUnique(c') by { ConnsUntouched(c, c'); }
    assert QuotaKept(c') by { QuotaUntouched(c, c'); }
    assert ChannelsSafe(c') by { GoroutinesUntouched(c, c'); }
  }

  lemma GivesUpKeeps(c: Ctl)
    requires Inv(c)
    ensures Inv(GetGivesUp(c))
  {
    QuotaUntouched(c, GetGivesUp(c));
    GoroutinesUntouched(c, GetGivesUp(c));
  }

  lemma ReplaceFrame(c: Ctl)
    ensures var c' := Replace(c); SameProxies(c, c') && SameGoroutines(c, c') && SameConns(c, c')
  {
  }

  lemma ReplaceKeeps(c: Ctl)
    requires Inv(c)
    ensures Inv(Replace(c))
  {
    var c' := Replace(c);
    ReplaceFrame(c);
    assert PoolConserved(c') by { ReplacePool(c); }
    assert ConnsUnique(c') by { ConnsUntouched(c, c'); }
    assert QuotaKept(c') by { QuotaUntouched(c, c'); }
    assert ChannelsSafe(c') by { GoroutinesUntouched(c, c'); }
  }

  // ----- exactly when connections are handed out, asked for and given up, and when the writer ends

  /** A caller gets a connection if and only if one is pooled, and then the oldest. */
  lemma HandsOutIff(c: Ctl)
    ensures |GetHit(c).ledger.handed| > |c.ledger.handed| <==> c.workConnCh.buf != []
    ensures |GetAfterWait(c).ledger.handed| > |c.ledger.handed| <==> c.workConnCh.buf != [] && c.ledger.waiting > 0
    ensures forall c' :: c' in {GetHit(c), GetAfterWait(c)} && |c'.ledger.handed| > |c.ledger.handed| ==>
              && c'.ledger.handed == c.ledger.handed + [c.workConnCh.buf[0]]
              && c'.workConnCh.buf == c.workConnCh.buf[1..] && c'.ledger.owed == c.ledger.owed + 1
  {
  }

  /** A request is sent for a caller that waits, or for a connection taken, if and only if the channel is open with room. */
  lemma RequestsIff(c: Ctl)
    ensures GetMiss(c).sendCh.buf == c.sendCh.buf + [ReqWorkConn] <==> !c.sendCh.closed && |c.sendCh.buf| < c.sendCh.cap
    ensures GetMiss(c).ledger.waiting == c.ledger.waiting + 1 <==> !c.sendCh.closed && |c.sendCh.buf| < c.sendCh.cap
    ensures Replace(c).sendCh.buf == c.sendCh.buf + [ReqWorkConn] <==>
              c.ledger.owed > 0 && !c.sendCh.closed && |c.sendCh.buf| < c.sendCh.cap
    ensures c.ledger.owed > 0 ==>
              (Replace(c).ledger.owed == c.ledger.owed <==> !c.sendCh.closed && |c.sendCh.buf| >= c.sendCh.cap)
    ensures c.ledger.waiting > 0 ==> GetGivesUp(c).ledger.waiting == c.ledger.waiting - 1
    ensures c.ledger.pending > 0 ==> ClientFail(c).ledger.pending == c.ledger.pending - 1
  {
    assert |c.sendCh.buf + [ReqWorkConn]| == |c.sendCh.buf| + 1;
  }

  /** The writer ends when its channel is closed and empty, when a message cannot be written, or when it cannot start; not otherwise. */
  lemma WriterExitsIff(c: Ctl, wrote: bool)
    requires c.writer.Writing?
    ensures WriterStep(c, wrote).writer.WriterExited? <==> if c.sendCh.buf == [] then c.sendCh.closed else !wrote
    ensures WriterStep(c, wrote).sendCh.buf == if c.sendCh.buf == [] then [] else c.sendCh.buf[1..]
    ensures WriterQuit(c).writer.WriterExited?
  {
  }

  // ----- all local steps together

  datatype Event =
    | EBoot
    | EWrite(wrote: bool) | EWriterQuit
    | EGet(m: ToServer) | EReaderQuit | EForward
    | EReceive | ETimeout | ERun(ok: bool) | ECleanUp | EStore | EReply
    | ESignal | EStop
    | EArrive(conn: nat, solicited: bool) | EClientFail
    | EHit | EMiss | EAfterWait | EGivesUp | EReplace

  /** The steps of callers and arriving connections. */
  predicate FromOutside(e: Event)
  {
    e.EArrive? || e.EClientFail? || e.EHit? || e.EMiss? || e.EAfterWait? || e.EGivesUp? || e.EReplace?
  }

  function Outside(c: Ctl, e: Event): Ctl
    requires FromOutside(e)
  {
    match e
    case EArrive(conn, solicited) => Arrive(c, conn, solicited)
    case EClientFail => ClientFail(c)
    case EHit => GetHit(c)
    case EMiss => GetMiss(c)
    case EAfterWait => GetAfterWait(c)
    case EGivesUp => GetGivesUp(c)
    case EReplace => Replace(c)
  }

  predicate OfManager(e: Event)
  {
    e.EReceive? || e.ETimeout? || e.ERun? || e.ECleanUp? || e.EStore? || e.EReply?
  }

  /** The steps of the manager, except CloseProxy, which is left to the server. */
  function ManagerPart(c: Ctl, e: Event): Ctl
    requires OfManager(e)
  {
    match e
    case EReceive => if c.readCh.buf != [] && c.readCh.buf[0].CloseProxy? then c else ManagerReceive(c)
    case ETimeout => ManagerTimeout(c)
    case ERun(ok) => ManagerRun(c, ok)
    case ECleanUp => ManagerCleanUp(c)
    case EStore => ManagerStore(c)
    case EReply => ManagerReply(c)
  }

  /** The steps of the session's other goroutines. */
  function Inside(c: Ctl, e: Event): Ctl
    requires !FromOutside(e) && !OfManager(e)
  {
    match e
    case EBoot => BootStep(c)
    case EWrite(wrote) => WriterStep(c, wrote)
    case EWriterQuit => WriterQuit(c)
    case EGet(m) => ReaderGet(c, m)
    case EReaderQuit => ReaderQuit(c)
    case EForward => ReaderForward(c)
    case ESignal => Signal(c)
    case EStop => StoperStep(c)
  }

  function Local(c: Ctl, e: Event): Ctl
  {
    if FromOutside(e) then Outside(c, e) else if OfManager(e) then ManagerPart(c, e) else Inside(c, e)
  }

  lemma OutsideKeeps(c: Ctl, e: Event)
    requires Inv(c) && FromOutside(e)
    ensures Inv(Outside(c, e))
  {
    match e {
      case EArrive(conn, solicited) => ArriveKeeps(c, conn, solicited);
      case EClientFail => ClientFailKeeps(c);
      case EHit => TakeKeeps(c);
      case EMiss => MissKeeps(c);
      case EAfterWait => TakeKeeps(c);
      case EGivesUp => GivesUpKeeps(c);
      case EReplace => ReplaceKeeps(c);
    }
  }

  lemma InsideKeeps(c: Ctl, e: Event)
    requires Inv(c) && !FromOutside(e) && !OfManager(e)
    ensures Inv(Inside(c, e))
  {
    match e {
      case EBoot => BootStepKeeps(c);
      case EWrite(wrote) => WriterKeeps(c, wrote);
      case EWriterQuit => WriterQuitKeeps(c);
      case EGet(m) => ReaderKeeps(c, m);
      case EReaderQuit => ReaderKeeps(c, Ping(true));
      case EForward => ForwardKeeps(c);
      case ESignal => SignalKeeps(c);
      case EStop => StoperKeeps(c);
    }
  }

  lemma ManagerPartKeeps(c: Ctl, e: Event)
    requires Inv(c) && OfManager(e)
    ensures Inv(ManagerPart(c, e))
  {
    match e {
      case EReceive => if !(c.readCh.buf != [] && c.readCh.buf[0].CloseProxy?) { ManagerReceiveKeeps(c); }
      case ETimeout => ManagerTimeoutKeeps(c);
      case ERun(ok) => ManagerRunKeeps(c, ok);
      case ECleanUp => ManagerCleanUpKeeps(c);
      case EStore => ManagerStoreKeeps(c);
      case EReply => ManagerReplyKeeps(c);
    }
  }

  lemma LocalKeeps(c: Ctl, e: Event)
    requires Inv(c)
    ensures Inv(Local(c, e))
  {
    if FromOutside(e) { OutsideKeeps(c, e); } else if OfManager(e) { ManagerPartKeeps(c, e); } else { InsideKeeps(c, e); }
  }

  // ----- what other sessions and the registry can see of a session

  /** The names this session holds in the registry, with its own objects. */
  function Held(c: Ctl): map<Name, Pxy>
  {
    var stored := match c.stoper
                  case Done => map[]
                  case Releasing(released) => c.proxies - released
                  case _ => c.proxies;
    if c.manager.Added? then stored[c.manager.name := c.manager.pxy] else stored
  }

  /** Nothing another session could notice changes: the names held, whether the session has begun, being done. */
  ghost predicate Unseen(c: Ctl, c': Ctl)
  {
    && Held(c') == Held(c) && c'.runID == c.runID
    && (c'.boot.Waiting? <==> c.boot.Waiting?)
    && (c.shutdownStarted ==> c'.shutdownStarted)
    && (c.stoper.Done? ==> c'.stoper.Done?)
  }

  lemma Untouched(c: Ctl, c': Ctl)
    requires c'.runID == c.runID && c'.proxies == c.proxies && c'.stoper == c.stoper
    requires c.shutdownStarted ==> c'.shutdownStarted
    requires c'.boot.Waiting? <==> c.boot.Waiting?
    requires (c'.manager.Added? <==> c.manager.Added?) && (c.manager.Added? ==> c'.manager == c.manager)
    ensures Unseen(c, c')
  {
  }

  lemma WriterUnseen(c: Ctl, wrote: bool)
    ensures Unseen(c, WriterStep(c, wrote)) && Unseen(c, WriterQuit(c)) && Unseen(c, Signal(c))
  {
    Untouched(c, WriterStep(c, wrote));
    Untouched(c, WriterQuit(c));
    Untouched(c, Signal(c));
  }

  lemma ReaderUnseen(c: Ctl, m: ToServer)
    ensures Unseen(c, ReaderGet(c, m)) && Unseen(c, ReaderQuit(c)) && Unseen(c, ReaderForward(c))
  {
    Untouched(c, ReaderGet(c, m));
    Untouched(c, ReaderQuit(c));
    Untouched(c, ReaderForward(c));
  }

  lemma ManagerUnseen(c: Ctl, ok: bool)
    ensures Unseen(c, ManagerTimeout(c)) && Unseen(c, ManagerRun(c, ok))
    ensures Unseen(c, ManagerCleanUp(c)) && Unseen(c, ManagerReply(c))
  {
    Untouched(c, ManagerTimeout(c));
    Untouched(c, ManagerRun(c, ok));
    Untouched(c, ManagerCleanUp(c));
    Untouched(c, ManagerReply(c));
  }

  lemma ReceiveUnseen(c: Ctl)
    requires !(c.readCh.buf != [] && c.readCh.buf[0].CloseProxy?)
    ensures Unseen(c, ManagerReceive(c))
  {
    Untouched(c, ManagerReceive(c));
  }

  lemma ArriveUnseen(c: Ctl, conn: nat, solicited: bool)
    ensures Unseen(c, Arrive(c, conn, solicited)) && Unseen(c, ClientFail(c))
  {
    Untouched(c, Arrive(c, conn, solicited));
    Untouched(c, ClientFail(c));
  }

  lemma GetUnseen(c: Ctl)
    ensures Unseen(c, GetHit(c)) && Unseen(c, GetAfterWait(c))
  {
    Untouched(c, GetHit(c));
    Untouched(c, GetAfterWait(c));
  }

  lemma RequestUnseen(c: Ctl)
    ensures Unseen(c, GetMiss(c)) && Unseen(c, GetGivesUp(c)) && Unseen(c, Replace(c))
  {
    Untouched(c, GetMiss(c));
    Untouched(c, GetGivesUp(c));
    Untouched(c, Replace(c));
  }

  /** Booting and stopping move the counters but not the names held. */
  lemma BootUnseen(c: Ctl)
    requires ChannelsSafe(c)
    ensures Unseen(c, BootStep(c))
  {
  }

  lemma StopUnseen(c: Ctl)
    requires ChannelsSafe(c)
    ensures Unseen(c, StoperStep(c))
  {
    if c.stoper.Releasing? && c.stoper.released == c.proxies.Keys {
      assert c.proxies - c.stoper.released == map[];
    }
    if c.stoper.Draining? { assert c.proxies - {} == c.proxies; }
  }

  lemma StoreUnseen(c: Ctl)
    requires ChannelsSafe(c)
    ensures Unseen(c, ManagerStore(c))
  {
    if c.manager.Added? {
      assert Stage(c.stoper) <= 3;
    }
  }

  lemma OutsideIsUnseen(c: Ctl, e: Event)
    requires FromOutside(e)
    ensures Unseen(c, Outside(c, e))
  {
    match e {
      case EArrive(conn, solicited) => ArriveUnseen(c, conn, solicited);
      case EClientFail => ArriveUnseen(c, 0, true);
      case EHit => GetUnseen(c);
      case EMiss => RequestUnseen(c);
      case EAfterWait => GetUnseen(c);
      case EGivesUp => RequestUnseen(c);
      case EReplace => RequestUnseen(c);
    }
  }

  lemma InsideIsUnseen(c: Ctl, e: Event)
    requires ChannelsSafe(c) && !FromOutside(e) && !OfManager(e)
    ensures Unseen(c, Inside(c, e))
  {
    match e {
      case EBoot => BootUnseen(c);
      case EStop => StopUnseen(c);
      case EWrite(wrote) => WriterUnseen(c, wrote);
      case EGet(m) => ReaderUnseen(c, m);
      case EWriterQuit => WriterUnseen(c, true);
      case EReaderQuit => ReaderUnseen(c, Ping(true));
      case EForward => ReaderUnseen(c, Ping(true));
      case ESignal => WriterUnseen(c, true);
    }
  }

  lemma ManagerPartIsUnseen(c: Ctl, e: Event)
    requires ChannelsSafe(c) && OfManager(e)
    ensures Unseen(c, ManagerPart(c, e))
  {
    match e {
      case ERun(ok) => ManagerUnseen(c, ok);
      case EReceive => if c.readCh.buf != [] && c.readCh.buf[0].CloseProxy? { Untouched(c, c); } else { ReceiveUnseen(c); }
      case ETimeout => ManagerUnseen(c, true);
      case ECleanUp => ManagerUnseen(c, true);
      case EReply => ManagerUnseen(c, true);
      case EStore => StoreUnseen(c);
    }
  }

  lemma LocalIsUnseen(c: Ctl, e: Event)
    requires Inv(c)
    ensures Unseen(c, Local(c, e))
  {
    if FromOutside(e) { OutsideIsUnseen(c, e); } else if OfManager(e) { ManagerPartIsUnseen(c, e); } else { InsideIsUnseen(c, e); }
  }

  /** A session that is done has stopped its goroutines, closed its channels, emptied its pool and released its names. */
  lemma DoneMeans(c: Ctl)
    requires Inv(c) && c.stoper.Done?
    ensures c.reader.ReaderExited? && c.manager.ManagerExited? && c.writer.WriterExited?
    ensures c.readCh.closed && c.sendCh.closed && c.workConnCh.closed
    ensures c.workConnCh.buf == [] && Held(c) == map[] && !c.panicked
  {
  }

  // ----- requests and connections are lost only when the session ends

  /** A session that can still write, and whose channel for requests is open. */
  predicate Serving(c: Ctl)
  {
    !c.writer.WriterExited? && Stage(c.stoper) < 4
  }

  /** While a session serves, nothing is lost or drained. */
  predicate LossesLate(c: Ctl)
  {
    Serving(c) ==> c.ledger.lost == 0 && c.ledger.drained == 0
  }

  lemma SameLedgerLate(c: Ctl, c': Ctl)
    requires LossesLate(c) && c'.ledger.lost == c.ledger.lost && c'.ledger.drained == c.ledger.drained
    requires Serving(c') ==> Serving(c)
    ensures LossesLate(c')
  {
  }

  lemma WriterLate(c: Ctl, wrote: bool)
    requires LossesLate(c)
    ensures LossesLate(WriterStep(c, wrote)) && LossesLate(WriterQuit(c)) && LossesLate(Signal(c))
  {
  }

  lemma ReaderLate(c: Ctl, m: ToServer)
    requires LossesLate(c)
    ensures LossesLate(ReaderGet(c, m)) && LossesLate(ReaderQuit(c)) && LossesLate(ReaderForward(c))
  {
  }

  lemma ManagerLate(c: Ctl, ok: bool)
    requires LossesLate(c)
    ensures LossesLate(ManagerReceive(c)) && LossesLate(ManagerTimeout(c)) && LossesLate(ManagerRun(c, ok))
    ensures LossesLate(ManagerAdd(c, ok)) && LossesLate(ManagerCleanUp(c))
  {
    SameLedgerLate(c, ManagerReceive(c));
  }

  lemma StoreLate(c: Ctl)
    requires LossesLate(c)
    ensures LossesLate(ManagerStore(c)) && LossesLate(ManagerReply(c))
  {
  }

  lemma StopLate(c: Ctl)
    requires ChannelsSafe(c) && LossesLate(c)
    ensures LossesLate(StoperStep(c))
  {
    if !c.stoper.Draining? {
      assert StoperStep(c).ledger == c.ledger;
    }
  }

  lemma BootLate(c: Ctl)
    requires ChannelsSafe(c) && LossesLate(c)
    ensures LossesLate(BootStep(c)) && LossesLate(Begin(c))
  {
  }

  lemma ArriveLate(c: Ctl, conn: nat, solicited: bool)
    requires ChannelsSafe(c) && LossesLate(c)
    ensures LossesLate(Arrive(c, conn, solicited)) && LossesLate(ClientFail(c))
  {
  }

  lemma TakeLate(c: Ctl)
    requires LossesLate(c)
    ensures LossesLate(GetHit(c)) && LossesLate(GetAfterWait(c))
  {
  }

  lemma RequestLate(c: Ctl)
    requires ChannelsSafe(c) && LossesLate(c)
    ensures LossesLate(GetMiss(c)) && LossesLate(GetGivesUp(c)) && LossesLate(Replace(c))
  {
  }

  lemma ReleaseLate(c: Ctl, name: Name)
    requires LossesLate(c)
    ensures LossesLate(ReleaseOne(c, name))
  {
  }

  lemma OutsideLate(c: Ctl, e: Event)
    requires ChannelsSafe(c) && LossesLate(c) && FromOutside(e)
    ensures LossesLate(Outside(c, e))
  {
    match e {
      case EArrive(conn, solicited) => ArriveLate(c, conn, solicited);
      case EClientFail => ArriveLate(c, 0, true);
      case EHit => TakeLate(c);
      case EAfterWait => TakeLate(c);
      case EMiss => RequestLate(c);
      case EGivesUp => RequestLate(c);
      case EReplace => RequestLate(c);
    }
  }

  lemma InsideLate(c: Ctl, e: Event)
    requires ChannelsSafe(c) && LossesLate(c) && !FromOutside(e) && !OfManager(e)
    ensures LossesLate(Inside(c, e))
  {
    match e {
      case EBoot => BootLate(c);
      case EStop => StopLate(c);
      case EWrite(wrote) => WriterLate(c, wrote);
      case EWriterQuit => WriterLate(c, true);
      case ESignal => WriterLate(c, true);
      case EGet(m) => ReaderLate(c, m);
      case EReaderQuit => ReaderLate(c, Ping(true));
      case EForward => ReaderLate(c, Ping(true));
    }
  }

  lemma ManagerPartLate(c: Ctl, e: Event)
    requires LossesLate(c) && OfManager(e)
    ensures LossesLate(ManagerPart(c, e))
  {
    match e {
      case ERun(ok) => ManagerLate(c, ok);
      case EReceive => ManagerLate(c, true);
      case ETimeout => ManagerLate(c, true);
      case ECleanUp => ManagerLate(c, true);
      case EStore => StoreLate(c);
      case EReply => StoreLate(c);
    }
  }

  lemma LocalLate(c: Ctl, e: Event)
    requires ChannelsSafe(c) && LossesLate(c)
    ensures LossesLate(Local(c, e))
  {
    if FromOutside(e) { OutsideLate(c, e); } else if OfManager(e) { ManagerPartLate(c, e); } else { InsideLate(c, e); }
  }

  /** While a session serves and its client answers, the stock of connections never falls below the pool count. */
  lemma ServingStock(c: Ctl)
    requires PoolConserved(c) && LossesLate(c) && Serving(c) && c.ledger.failures == 0
    ensures |c.workConnCh.buf| + Count(c.sendCh.buf, ReqWorkConn) + c.ledger.pending + c.ledger.owed + ToBoot(c) >= c.poolCount
  {
  }

  /** A connection is handed out once, and is then no longer pooled. */
  lemma HandedOnce(c: Ctl)
    requires ConnsUnique(c)
    ensures forall a, b :: 0 <= a < b < |c.ledger.handed| ==> c.ledger.handed[a] != c.ledger.handed[b]
    ensures forall conn :: conn in c.ledger.handed ==> conn !in c.workConnCh.buf
  {
    var all := c.ledger.handed + c.workConnCh.buf;
    UniqueMeans(all, c.ledger.seen);
    forall a, b | 0 <= a < b < |c.ledger.handed| ensures c.ledger.handed[a] != c.ledger.handed[b] {
      assert all[a] != all[b];
    }
    forall a, b | 0 <= a < |c.ledger.handed| && 0 <= b < |c.workConnCh.buf| ensures c.ledger.handed[a] != c.workConnCh.buf[b] {
      assert all[a] != all[|c.ledger.handed| + b];
    }
  }
}
