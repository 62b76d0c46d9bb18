/**
 When a control session can still come to its end (server/control.go). Every goroutine
 of a session can block on a channel for ever; this module says exactly when that has
 become certain, and when a login that replaces a session can still begin.
 */
module ServerProgress {
  import opened Wrappers
  import opened Channels
  import opened ServerControl

  /** One step of a session, those at the registry of names included. */
  datatype Move = Own(e: Event) | Adds(free: bool) | Closes | Releases(name: Name)

  function Do(c: Ctl, m: Move): Ctl
  {
    match m
    case Own(e) => Local(c, e)
    case Adds(free) => ManagerAdd(c, free)
    case Closes => if c.manager.Idle? && c.readCh.buf != [] && c.readCh.buf[0].CloseProxy? then ManagerReceive(c) else c
    case Releases(name) => ReleaseOne(c, name)
  }

  function DoAll(c: Ctl, moves: seq<Move>): Ctl
    decreases |moves|
  {
    if moves == [] then c else DoAll(Do(c, moves[0]), moves[1..])
  }

  /** The heartbeat timeout of the manager may be off. */
  predicate Allowed(m: Move, heartbeat: bool)
  {
    heartbeat || m != Own(ETimeout)
  }

  ghost predicate AllAllowed(moves: seq<Move>, heartbeat: bool)
  {
    forall m :: m in moves ==> Allowed(m, heartbeat)
  }

  /** The session can come to its end, whatever the steps in between. */
  ghost predicate CanEnd(c: Ctl, heartbeat: bool)
  {
    exists moves: seq<Move> :: AllAllowed(moves, heartbeat) && DoAll(c, moves).stoper.Done?
  }

  // ----- the condition

  predicate Busy(m: Manager)
  {
    m.Reserved? || m.Ran? || m.Added? || m.Failed? || m.Replying?
  }

  /** The manager exits with the reply it is about to send. */
  predicate Leaving(m: Manager)
  {
    m.Replying? && m.thenExit
  }

  /** The reader waits for room in readCh. */
  predicate ReaderBlocked(c: Ctl)
  {
    c.reader.Forwarding? && c.readCh.Full()
  }

  function OnItsWay(r: Reader): seq<ToServer>
  {
    if r.Forwarding? then [r.m] else []
  }

  /** The replies to these messages, up to the one after which the manager exits. */
  function Replies(q: seq<ToServer>): nat
  {
    if q == [] then 0
    else if q[0].CloseProxy? then Replies(q[1..])
    else if q[0] == Ping(false) then 1
    else 1 + Replies(q[1..])
  }

  /** The sends to sendCh that the end of the session waits for. */
  function Owing(c: Ctl, heartbeat: bool): int
  {
    if c.boot.Requesting? then Initial(c) - c.boot.sent
    else if c.manager.ManagerOff? || c.manager.ManagerExited? then 0
    else if Leaving(c.manager) then 1
    else
      (if Busy(c.manager) then 1 else 0) +
      if !heartbeat then Replies(c.readCh.buf + OnItsWay(c.reader))
      else if ReaderBlocked(c) && c.readCh.buf != [] && !c.readCh.buf[0].CloseProxy? then 1
      else 0
  }

  /** Nobody will take a message from the full channel that the reader waits for. */
  predicate ReaderStuck(c: Ctl)
  {
    ReaderBlocked(c) && (c.manager.ManagerExited? || Leaving(c.manager))
  }

  /** The writer is gone, and what is left of sendCh is too little for what must still be sent. */
  predicate SenderStuck(c: Ctl, heartbeat: bool)
  {
    c.writer.WriterExited? && Owing(c, heartbeat) > c.sendCh.cap - |c.sendCh.buf|
  }

  predicate Doomed(c: Ctl, heartbeat: bool)
  {
    ReaderStuck(c) || SenderStuck(c, heartbeat)
  }

  /** What holds of every session besides its invariant: the sizes of the channels, and nothing is read before the start. */
  predicate Sized(c: Ctl)
  {
    && c.sendCh.cap == 10 && c.readCh.cap == 10
    && (c.reader.ReaderOff? ==> c.readCh.buf == [])
    && (c.boot.Requesting? ==> c.boot.sent <= Initial(c))
    && (c.stoper.Releasing? ==> c.stoper.released <= c.proxies.Keys)
  }

  ghost predicate Fit(c: Ctl)
  {
    ChannelsSafe(c) && Sized(c)
  }

  lemma {:induction false} RepliesMore(q: seq<ToServer>, m: ToServer)
    ensures Replies(q) <= Replies(q + [m])
  {
    if q != [] {
      assert (q + [m])[1..] == q[1..] + [m];
      RepliesMore(q[1..], m);
    }
  }

  // ----- every step keeps what is needed

  lemma OutsideFit(c: Ctl, e: Event)
    requires Fit(c) && FromOutside(e)
    ensures Fit(Outside(c, e))
    ensures SameGoroutines(c, Outside(c, e)) && Outside(c, e).readCh == c.readCh && |Outside(c, e).sendCh.buf| >= |c.sendCh.buf|
    ensures Outside(c, e).sendCh.cap == c.sendCh.cap && Outside(c, e).poolCount == c.poolCount && Outside(c, e).proxies == c.proxies
  {
    match e {
      case EArrive(conn, solicited) => ArriveFrame(c, conn, solicited);
      case EClientFail =>
      case EHit => TakeFrame(c);
      case EMiss =>
      case EAfterWait => TakeFrame(c);
      case EGivesUp =>
      case EReplace =>
    }
    GoroutinesUntouched(c, Outside(c, e));
  }

  lemma ManagerFit(c: Ctl, ok: bool)
    requires Fit(c)
    ensures Fit(ManagerTimeout(c)) && Fit(ManagerRun(c, ok)) && Fit(ManagerAdd(c, ok)) && Fit(ManagerCleanUp(c))
  {
  }

  lemma StoreFit(c: Ctl)
    requires Fit(c)
    ensures Fit(ManagerStore(c)) && Fit(ManagerReply(c))
  {
  }

  lemma ReceiveFit(c: Ctl)
    requires Fit(c)
    ensures Fit(ManagerReceive(c))
  {
    ManagerReceiveChannels(c);
  }

  lemma ReaderFit(c: Ctl, m: ToServer)
    requires Fit(c)
    ensures Fit(ReaderGet(c, m)) && Fit(ReaderQuit(c)) && Fit(ReaderForward(c))
  {
  }

  lemma WriterFit(c: Ctl, wrote: bool)
    requires Fit(c)
    ensures Fit(WriterStep(c, wrote)) && Fit(WriterQuit(c)) && Fit(Signal(c))
  {
    WriterChannels(c, wrote);
  }

  lemma BootFit(c: Ctl)
    requires Fit(c)
    ensures Fit(BootStep(c))
  {
  }

  lemma StoperFit(c: Ctl)
    requires Fit(c)
    ensures Fit(StoperStep(c))
  {
    StoperChannels(c);
    StoperFrame(c);
    StoperReleases(c);
  }

  lemma ReleaseFit(c: Ctl, name: Name)
    requires Fit(c)
    ensures Fit(ReleaseOne(c, name))
  {
  }

  // ----- no two proxies of a session are the same object

  function InWork(m: Manager): set<nat>
  {
    if Busy(m) && !m.Replying? then {m.pxy.id} else {}
  }

  ghost predicate IdsDistinct(proxies: map<Name, Pxy>, work: set<nat>, next: nat)
  {
    && (forall n :: n in proxies ==> proxies[n].id < next && proxies[n].id !in work)
    && (forall n, m :: n in proxies && m in proxies && n != m ==> proxies[n].id != proxies[m].id)
    && (forall i :: i in work ==> i < next)
  }

  ghost predicate Ids(c: Ctl)
  {
    IdsDistinct(c.proxies, InWork(c.manager), c.nextPxy)
  }

  predicate SameIds(c: Ctl, c': Ctl)
  {
    c'.proxies == c.proxies && InWork(c'.manager) <= InWork(c.manager) && c'.nextPxy == c.nextPxy
  }

  lemma GoroutineIds(c: Ctl, m: ToServer, ok: bool, name: Name)
    ensures SameIds(c, Begin(c)) && SameIds(c, Signal(c)) && SameIds(c, WriterStep(c, ok)) && SameIds(c, WriterQuit(c))
    ensures SameIds(c, ReaderGet(c, m)) && SameIds(c, ReaderQuit(c)) && SameIds(c, ReaderForward(c)) && SameIds(c, ReleaseOne(c, name))
  {
  }

  lemma ManagerIds(c: Ctl, ok: bool)
    ensures SameIds(c, ManagerTimeout(c)) && SameIds(c, ManagerRun(c, ok)) && SameIds(c, ManagerAdd(c, ok))
    ensures SameIds(c, ManagerCleanUp(c)) && SameIds(c, ManagerReply(c))
  {
  }

  lemma OutsideIds(c: Ctl, e: Event)
    requires Fit(c) && FromOutside(e)
    ensures SameIds(c, Outside(c, e))
  {
    match e {
      case EArrive(conn, solicited) => assert Arrive(c, conn, solicited).nextPxy == c.nextPxy; OutsideFit(c, e);
      case EClientFail =>
      case EHit => OutsideFit(c, e);
      case EMiss => OutsideFit(c, e);
      case EAfterWait => OutsideFit(c, e);
      case EGivesUp => OutsideFit(c, e);
      case EReplace => OutsideFit(c, e);
    }
  }

  lemma BootIds(c: Ctl)
    requires Fit(c)
    ensures SameIds(c, BootStep(c)) && SameIds(c, StoperStep(c))
  {
  }

  lemma IdsWith(proxies: map<Name, Pxy>, pxy: Pxy, name: Name, next: nat)
    requires IdsDistinct(proxies, {pxy.id}, next)
    ensures IdsDistinct(proxies[name := pxy], {}, next)
  {
    assert pxy.id in {pxy.id};
  }

  lemma StoreIds(c: Ctl)
    requires Ids(c)
    ensures Ids(ManagerStore(c))
  {
    if c.manager.Added? { IdsWith(c.proxies, c.manager.pxy, c.manager.name, c.nextPxy); }
  }

  lemma IdsLess(proxies: map<Name, Pxy>, proxies': map<Name, Pxy>, next: nat)
    requires IdsDistinct(proxies, {}, next) && proxies'.Keys <= proxies.Keys && forall n :: n in proxies' ==> proxies'[n] == proxies[n]
    ensures IdsDistinct(proxies', {}, next) && IdsDistinct(proxies', {next}, next + 1)
  {
  }

  lemma TakenIds(c: Ctl)
    requires c.manager.Idle? && c.readCh.buf != []
    ensures var c' := ManagerReceive(c);
      && c'.proxies.Keys <= c.proxies.Keys && (forall n :: n in c'.proxies ==> c'.proxies[n] == c.proxies[n])
      && (if c'.manager.Reserved? then InWork(c'.manager) == {c.nextPxy} && c'.nextPxy == c.nextPxy + 1
          else InWork(c'.manager) == {} && c'.nextPxy == c.nextPxy)
  {
  }

  lemma ReceiveIds(c: Ctl)
    requires Ids(c)
    ensures Ids(ManagerReceive(c))
  {
    if c.manager.Idle? && c.readCh.buf != [] {
      TakenIds(c);
      IdsLess(c.proxies, ManagerReceive(c).proxies, c.nextPxy);
    }
  }

  lemma LocalIds(c: Ctl, e: Event)
    requires Fit(c) && Ids(c)
    ensures Ids(Local(c, e))
  {
    if FromOutside(e) {
      OutsideIds(c, e);
    } else {
      match e {
        case EBoot => BootIds(c);
        case EStop => BootIds(c);
        case EWrite(wrote) => GoroutineIds(c, Ping(true), wrote, Name(""));
        case EWriterQuit => GoroutineIds(c, Ping(true), true, Name(""));
        case EGet(m) => GoroutineIds(c, m, true, Name(""));
        case EReaderQuit => GoroutineIds(c, Ping(true), true, Name(""));
        case EForward => GoroutineIds(c, Ping(true), true, Name(""));
        case ESignal => GoroutineIds(c, Ping(true), true, Name(""));
        case EReceive => ReceiveIds(c);
        case EStore => StoreIds(c);
        case ETimeout => ManagerIds(c, true);
        case ERun(ok) => ManagerIds(c, ok);
        case ECleanUp => ManagerIds(c, true);
        case EReply => ManagerIds(c, true);
      }
    }
  }

  /** Every step keeps the proxies of a session, the one in work included, apart by their identities. */
  lemma MoveIds(c: Ctl, m: Move)
    requires Fit(c) && Ids(c)
    ensures Ids(Do(c, m))
  {
    match m {
      case Own(e) => LocalIds(c, e);
      case Adds(free) => ManagerIds(c, free);
      case Closes => ReceiveIds(c);
      case Releases(name) => GoroutineIds(c, Ping(true), true, name);
    }
  }

  // ----- doomed is for ever

  /** All that Doomed looks at. */
  predicate SameEnds(c: Ctl, c': Ctl)
  {
    && c'.boot == c.boot && c'.poolCount == c.poolCount && c'.manager == c.manager && c'.reader == c.reader
    && c'.readCh.buf == c.readCh.buf && c'.readCh.cap == c.readCh.cap && c'.sendCh.cap == c.sendCh.cap
    && (c.writer.WriterExited? ==> c'.writer.WriterExited? && |c'.sendCh.buf| >= |c.sendCh.buf|)
  }

  lemma SameEndsDoomed(c: Ctl, c': Ctl, heartbeat: bool)
    requires Doomed(c, heartbeat) && SameEnds(c, c')
    ensures Doomed(c', heartbeat)
  {
  }

  lemma OutsideEnds(c: Ctl, e: Event)
    requires Fit(c) && FromOutside(e)
    ensures SameEnds(c, Outside(c, e))
  {
    OutsideFit(c, e);
  }

  lemma StopEnds(c: Ctl, name: Name)
    ensures SameEnds(c, StoperStep(c)) && SameEnds(c, ReleaseOne(c, name)) && SameEnds(c, Signal(c))
  {
  }

  lemma WriterEnds(c: Ctl, wrote: bool)
    ensures c.writer.WriterExited? ==> SameEnds(c, WriterStep(c, wrote)) && SameEnds(c, WriterQuit(c))
    ensures ReaderStuck(c) ==> ReaderStuck(WriterStep(c, wrote)) && ReaderStuck(WriterQuit(c))
  {
  }

  lemma BootDoomed(c: Ctl, heartbeat: bool)
    requires Fit(c) && Doomed(c, heartbeat)
    ensures Doomed(BootStep(c), heartbeat)
  {
  }

  lemma ReaderDoomed(c: Ctl, m: ToServer, heartbeat: bool)
    requires Fit(c) && Doomed(c, heartbeat)
    ensures Doomed(ReaderGet(c, m), heartbeat) && Doomed(ReaderQuit(c), heartbeat) && Doomed(ReaderForward(c), heartbeat)
  {
    if c.reader.Reading? {
      assert c.readCh.buf + [] == c.readCh.buf;
      RepliesMore(c.readCh.buf, m);
    }
    if c.reader.Forwarding? {
      assert (c.readCh.buf + [c.reader.m]) + [] == c.readCh.buf + [c.reader.m];
    }
  }

  lemma ReceiveDoomed(c: Ctl, heartbeat: bool)
    requires Fit(c) && Doomed(c, heartbeat)
    ensures Doomed(ManagerReceive(c), heartbeat)
  {
    if c.readCh.buf != [] {
      var q := c.readCh.buf + OnItsWay(c.reader);
      assert q[0] == c.readCh.buf[0] && q[1..] == c.readCh.buf[1..] + OnItsWay(c.reader);
    }
  }

  lemma ManagerDoomed(c: Ctl, ok: bool, heartbeat: bool)
    requires Fit(c) && Doomed(c, heartbeat)
    ensures heartbeat ==> Doomed(ManagerTimeout(c), heartbeat)
    ensures Doomed(ManagerRun(c, ok), heartbeat) && Doomed(ManagerAdd(c, ok), heartbeat)
    ensures Doomed(ManagerCleanUp(c), heartbeat) && Doomed(ManagerStore(c), heartbeat)
  {
  }

  lemma ReplyDoomed(c: Ctl, heartbeat: bool)
    requires Fit(c) && Doomed(c, heartbeat)
    ensures Doomed(ManagerReply(c), heartbeat)
  {
  }

  lemma MoveFit(c: Ctl, m: Move)
    requires Fit(c)
    ensures Fit(Do(c, m))
  {
    match m {
      case Own(e) => LocalFit(c, e);
      case Adds(free) => ManagerFit(c, free);
      case Closes => ReceiveFit(c);
      case Releases(name) => ReleaseFit(c, name);
    }
  }

  lemma LocalFit(c: Ctl, e: Event)
    requires Fit(c)
    ensures Fit(Local(c, e))
  {
    if FromOutside(e) {
      OutsideFit(c, e);
    } else {
      match e {
        case EBoot => BootFit(c);
        case EWrite(wrote) => WriterFit(c, wrote);
        case EWriterQuit => WriterFit(c, true);
        case EGet(m) => ReaderFit(c, m);
        case EReaderQuit => ReaderFit(c, Ping(true));
        case EForward => ReaderFit(c, Ping(true));
        case EReceive => ReceiveFit(c);
        case ETimeout => ManagerFit(c, true);
        case ERun(ok) => ManagerFit(c, ok);
        case ECleanUp => ManagerFit(c, true);
        case EStore => StoreFit(c);
        case EReply => StoreFit(c);
        case ESignal => WriterFit(c, true);
        case EStop => StoperFit(c);
      }
    }
  }

  lemma WriterDoomed(c: Ctl, wrote: bool, heartbeat: bool)
    requires Fit(c) && Doomed(c, heartbeat)
    ensures Doomed(WriterStep(c, wrote), heartbeat) && Doomed(WriterQuit(c), heartbeat)
  {
    WriterEnds(c, wrote);
    if c.writer.WriterExited? {
      SameEndsDoomed(c, WriterStep(c, wrote), heartbeat);
      SameEndsDoomed(c, WriterQuit(c), heartbeat);
    }
  }

  lemma StopDoomed(c: Ctl, name: Name, heartbeat: bool)
    requires Doomed(c, heartbeat)
    ensures Doomed(StoperStep(c), heartbeat) && Doomed(ReleaseOne(c, name), heartbeat) && Doomed(Signal(c), heartbeat)
  {
    StopEnds(c, name);
    SameEndsDoomed(c, StoperStep(c), heartbeat);
    SameEndsDoomed(c, ReleaseOne(c, name), heartbeat);
    SameEndsDoomed(c, Signal(c), heartbeat);
  }

  lemma LocalDoomed(c: Ctl, e: Event, heartbeat: bool)
    requires Fit(c) && Doomed(c, heartbeat) && (heartbeat || !e.ETimeout?)
    ensures Doomed(Local(c, e), heartbeat)
  {
    if FromOutside(e) {
      OutsideEnds(c, e);
      SameEndsDoomed(c, Outside(c, e), heartbeat);
    } else {
      match e {
        case EBoot => BootDoomed(c, heartbeat);
        case EWrite(wrote) => WriterDoomed(c, wrote, heartbeat);
        case EWriterQuit => WriterDoomed(c, true, heartbeat);
        case EGet(m) => ReaderDoomed(c, m, heartbeat);
        case EReaderQuit => ReaderDoomed(c, Ping(true), heartbeat);
        case EForward => ReaderDoomed(c, Ping(true), heartbeat);
        case EReceive => ReceiveDoomed(c, heartbeat);
        case ETimeout => ManagerDoomed(c, true, heartbeat);
        case ERun(ok) => ManagerDoomed(c, ok, heartbeat);
        case ECleanUp => ManagerDoomed(c, true, heartbeat);
        case EStore => ManagerDoomed(c, true, heartbeat);
        case EReply => ReplyDoomed(c, heartbeat);
        case ESignal => StopDoomed(c, Name(""), heartbeat);
        case EStop => StopDoomed(c, Name(""), heartbeat);
      }
    }
  }

  lemma MoveDoomed(c: Ctl, m: Move, heartbeat: bool)
    requires Fit(c) && Doomed(c, heartbeat) && Allowed(m, heartbeat)
    ensures Doomed(Do(c, m), heartbeat)
  {
    match m {
      case Own(e) => LocalDoomed(c, e, heartbeat);
      case Adds(free) => ManagerDoomed(c, free, heartbeat);
      case Closes => ReceiveDoomed(c, heartbeat);
      case Releases(name) => StopDoomed(c, name, heartbeat);
    }
  }

  lemma {:induction false} DoomedForEver(c: Ctl, moves: seq<Move>, heartbeat: bool)
    requires Fit(c) && Doomed(c, heartbeat) && AllAllowed(moves, heartbeat)
    ensures Doomed(DoAll(c, moves), heartbeat) && Fit(DoAll(c, moves))
    decreases |moves|
  {
    if moves != [] {
      assert moves[0] in moves && forall m :: m in moves[1..] ==> m in moves;
      MoveFit(c, moves[0]);
      MoveDoomed(c, moves[0], heartbeat);
      DoomedForEver(Do(c, moves[0]), moves[1..], heartbeat);
    }
  }

  lemma DoneIsNotDoomed(c: Ctl, heartbeat: bool)
    requires Fit(c) && c.stoper.Done?
    ensures !Doomed(c, heartbeat)
  {
  }

  // ----- otherwise some step leads on

  /** What is still to be done, with weights that make every step of NextMove count. */
  function Left(c: Ctl): int
  {
    |c.sendCh.buf| + 10 * |c.readCh.buf| + |c.workConnCh.buf| +
    LeftOfBoot(c) + 20 * LeftOfReader(c.reader) + 2 * LeftOfManager(c.manager) +
    (if c.shutdownStarted then 0 else 1) + 2 * (7 - Stage(c.stoper)) + (if c.writer.Writing? then 1 else 0) +
    (if c.stoper.Done? then 0 else |c.proxies| - |Released(c.stoper)|)
  }

  function LeftOfBoot(c: Ctl): int
  {
    if c.boot.Requesting? then 100 + 2 * (Initial(c) - c.boot.sent) else 0
  }

  function LeftOfReader(r: Reader): nat
  {
    if r.Forwarding? then 2 else if r.Reading? then 1 else 0
  }

  function LeftOfManager(m: Manager): nat
  {
    if m.Reserved? || m.Ran? then 5 else if m.Added? || m.Failed? then 4 else if m.Replying? then 3 else if m.Idle? then 1 else 0
  }

  function Released(s: Stoper): set<Name>
  {
    if s.Releasing? then s.released else {}
  }

  /** The move leads on: the session is no more doomed than before, and less is left to do. */
  ghost predicate LeadsOn(c: Ctl, m: Move, heartbeat: bool)
  {
    && Allowed(m, heartbeat) && !Doomed(Do(c, m), heartbeat) && Left(Do(c, m)) < Left(c)
    && !Do(c, m).boot.Waiting?
  }

  ghost predicate Goes(c: Ctl, heartbeat: bool)
  {
    Fit(c) && !c.boot.Waiting? && !Doomed(c, heartbeat) && !c.stoper.Done?
  }

  lemma WriteLeadsOn(c: Ctl, heartbeat: bool)
    requires Goes(c, heartbeat) && c.writer.Writing? && c.sendCh.buf != []
    ensures LeadsOn(c, Own(EWrite(true)), heartbeat)
  {
    var c' := WriterStep(c, true);
    assert Do(c, Own(EWrite(true))) == c';
    assert c' == c.(sendCh := c.sendCh.Pop(), ledger := c'.ledger);
  }

  lemma BootLeadsOn(c: Ctl, heartbeat: bool) returns (m: Move)
    requires Goes(c, heartbeat) && c.boot.Requesting?
    ensures LeadsOn(c, m, heartbeat) && !m.Adds?
  {
    if c.sendCh.Full() && c.boot.sent < Initial(c) {
      m := Own(EWrite(true));
      WriteLeadsOn(c, heartbeat);
    } else {
      m := Own(EBoot);
    }
  }

  lemma ReaderLeadsOn(c: Ctl, heartbeat: bool) returns (m: Move)
    requires Goes(c, heartbeat) && c.boot.Booted? && (c.reader.Reading? || (c.reader.Forwarding? && !c.readCh.Full()))
    ensures LeadsOn(c, m, heartbeat) && !m.Adds?
  {
    if c.reader.Reading? {
      m := Own(EReaderQuit);
    } else {
      m := Own(EForward);
      assert (c.readCh.buf + [c.reader.m]) + [] == c.readCh.buf + [c.reader.m];
    }
  }

  /** Nothing but the manager, its proxies and its counts has changed, and perhaps a message was taken. */
  predicate OnlyManager(c: Ctl, c': Ctl)
  {
    && c'.boot == c.boot && c'.poolCount == c.poolCount && c'.reader == c.reader && c'.writer == c.writer && c'.stoper == c.stoper
    && c'.shutdownStarted == c.shutdownStarted && c'.sendCh == c.sendCh && c'.workConnCh == c.workConnCh
    && c'.readCh.cap == c.readCh.cap && c'.readCh.closed == c.readCh.closed
  }

  lemma ReceiveOnlyManager(c: Ctl)
    requires c.manager.Idle? && c.readCh.buf != []
    ensures OnlyManager(c, ManagerReceive(c)) && ManagerReceive(c).readCh.buf == c.readCh.buf[1..]
    ensures ManagerReceive(c).proxies.Keys <= c.proxies.Keys
  {
  }

  lemma ReceiveManager(c: Ctl)
    requires c.manager.Idle? && c.readCh.buf != []
    ensures var m, m' := c.readCh.buf[0], ManagerReceive(c).manager;
      && (m.CloseProxy? ==> m'.Idle?) && (m == Ping(false) ==> Leaving(m'))
      && (!m.CloseProxy? && m != Ping(false) ==> Busy(m') && !Leaving(m'))
  {
  }

  lemma TakenLeft(c: Ctl, c': Ctl)
    requires OnlyManager(c, c') && c.manager.Idle? && c.readCh.buf != [] && c'.readCh.buf == c.readCh.buf[1..]
    requires c'.proxies.Keys <= c.proxies.Keys
    ensures Left(c') < Left(c)
  {
    SubsetCard(c'.proxies.Keys, c.proxies.Keys);
  }

  lemma TakenNotDoomed(c: Ctl, c': Ctl, heartbeat: bool)
    requires OnlyManager(c, c') && c.manager.Idle? && c.readCh.buf != [] && c'.readCh.buf == c.readCh.buf[1..]
    requires Goes(c, heartbeat) && c.boot.Booted? && (ReaderBlocked(c) || (!heartbeat && c.reader.ReaderExited?))
    requires var m, m' := c.readCh.buf[0], c'.manager;
      && (m.CloseProxy? ==> m'.Idle?) && (m == Ping(false) ==> Leaving(m'))
      && (!m.CloseProxy? && m != Ping(false) ==> Busy(m') && !Leaving(m'))
    ensures !Doomed(c', heartbeat)
  {
    var q := c.readCh.buf + OnItsWay(c.reader);
    assert q[0] == c.readCh.buf[0] && q[1..] == c'.readCh.buf + OnItsWay(c'.reader);
    assert !c'.readCh.Full();
  }

  lemma ReceiveLeadsOn(c: Ctl, heartbeat: bool) returns (m: Move)
    requires Goes(c, heartbeat) && c.boot.Booted? && c.manager.Idle? && c.readCh.buf != []
    requires ReaderBlocked(c) || (!heartbeat && c.reader.ReaderExited?)
    ensures LeadsOn(c, m, heartbeat) && !m.Adds?
  {
    var c' := ManagerReceive(c);
    ReceiveOnlyManager(c);
    ReceiveManager(c);
    TakenLeft(c, c');
    TakenNotDoomed(c, c', heartbeat);
    m := if c.readCh.buf[0].CloseProxy? then Closes else Own(EReceive);
    assert Do(c, m) == c';
  }

  /** A manager that stays at work on its message leaves the rest as doomed as it was. */
  lemma StaysBusy(c: Ctl, c': Ctl, heartbeat: bool)
    requires Goes(c, heartbeat) && OnlyManager(c, c') && c'.readCh == c.readCh
    requires Busy(c.manager) && Busy(c'.manager) && !Leaving(c.manager) && !Leaving(c'.manager)
    requires LeftOfManager(c'.manager) < LeftOfManager(c.manager) && |c'.proxies| <= |c.proxies| + 1
    ensures !Doomed(c', heartbeat) && Left(c') < Left(c)
  {
  }

  /** The manager, at work on a message, goes on; the answer of the registry does not matter. */
  lemma BusyLeadsOn(c: Ctl, heartbeat: bool, free: bool) returns (m: Move)
    requires Goes(c, heartbeat) && c.boot.Booted? && Busy(c.manager) && !c.manager.Replying?
    ensures LeadsOn(c, m, heartbeat) && (if c.manager.Ran? then m == Adds(free) else !m.Adds?)
  {
    if c.manager.Reserved? {
      m := Own(ERun(false));
      assert Do(c, m) == ManagerRun(c, false);
    } else if c.manager.Ran? {
      m := Adds(free);
    } else if c.manager.Added? {
      m := Own(EStore);
      assert Do(c, m) == ManagerStore(c);
      StoredLeft(c);
    } else {
      m := Own(ECleanUp);
      assert Do(c, m) == ManagerCleanUp(c);
    }
    StaysBusy(c, Do(c, m), heartbeat);
  }

  lemma StoredLeft(c: Ctl)
    requires c.manager.Added?
    ensures |ManagerStore(c).proxies| <= |c.proxies| + 1
  {
    assert ManagerStore(c).proxies.Keys == c.proxies.Keys + {c.manager.name};
  }

  lemma ReplyLeadsOn(c: Ctl, heartbeat: bool) returns (m: Move)
    requires Goes(c, heartbeat) && c.boot.Booted? && c.manager.Replying?
    ensures LeadsOn(c, m, heartbeat) && !m.Adds?
  {
    if c.sendCh.Full() {
      m := Own(EWrite(true));
      WriteLeadsOn(c, heartbeat);
    } else {
      m := Own(EReply);
    }
  }

  /** Reader and manager are gone, or the manager waits for a channel that is still to be closed. */
  predicate StoperActs(c: Ctl)
  {
    && c.boot.Booted? && !c.stoper.Done? && c.reader.ReaderExited?
    && (c.manager.ManagerExited? || (c.manager.Idle? && c.readCh.buf == [] && !c.readCh.closed))
  }

  lemma SignalLeadsOn(c: Ctl, heartbeat: bool)
    requires Goes(c, heartbeat) && !c.shutdownStarted
    ensures LeadsOn(c, Own(ESignal), heartbeat)
  {
    StopKeepsEnds(c, Signal(c), heartbeat);
  }

  /** Behind the closed channel the writer writes what is left, and ends. */
  lemma LastWriteLeadsOn(c: Ctl, heartbeat: bool)
    requires Goes(c, heartbeat) && c.stoper.WaitWriter? && c.writer.Writing?
    ensures LeadsOn(c, Own(EWrite(true)), heartbeat)
  {
    if c.sendCh.buf == [] {
      assert Do(c, Own(EWrite(true))) == c.(writer := WriterExited) && c.manager.ManagerExited? && c.reader.ReaderExited?;
    } else {
      WriteLeadsOn(c, heartbeat);
    }
  }

  lemma ReleaseLeadsOn(c: Ctl, heartbeat: bool, name: Name)
    requires Goes(c, heartbeat) && c.stoper.Releasing? && name in c.proxies && name !in c.stoper.released
    ensures LeadsOn(c, Releases(name), heartbeat)
  {
    assert |c.stoper.released + {name}| == |c.stoper.released| + 1;
    StopKeepsEnds(c, ReleaseOne(c, name), heartbeat);
  }

  lemma StopLeadsOn(c: Ctl, heartbeat: bool)
    requires Goes(c, heartbeat) && StoperActs(c)
    requires (c.stoper.WaitStart? ==> c.shutdownStarted) && (c.stoper.WaitWriter? ==> !c.writer.Writing?)
    requires c.stoper.Releasing? ==> c.stoper.released == c.proxies.Keys
    ensures LeadsOn(c, Own(EStop), heartbeat)
  {
    StopMoves(c);
    StopKeepsEnds(c, StoperStep(c), heartbeat);
    assert Do(c, Own(EStop)) == StoperStep(c);
  }

  lemma StoperLeadsOn(c: Ctl, heartbeat: bool) returns (m: Move)
    requires Goes(c, heartbeat) && StoperActs(c)
    ensures LeadsOn(c, m, heartbeat) && !m.Adds?
  {
    if c.stoper.WaitStart? && !c.shutdownStarted {
      m := Own(ESignal);
      SignalLeadsOn(c, heartbeat);
    } else if c.stoper.WaitWriter? && c.writer.Writing? {
      m := Own(EWrite(true));
      LastWriteLeadsOn(c, heartbeat);
    } else if n :| c.stoper.Releasing? && n in c.proxies && n !in c.stoper.released {
      m := Releases(n);
      ReleaseLeadsOn(c, heartbeat, n);
    } else {
      m := Own(EStop);
      assert c.stoper.Releasing? ==> c.stoper.released == c.proxies.Keys;
      StopLeadsOn(c, heartbeat);
    }
  }

  /** All that Doomed looks at is as it was, the writer included. */
  lemma StopKeepsEnds(c: Ctl, c': Ctl, heartbeat: bool)
    requires Goes(c, heartbeat) && SameEnds(c, c') && c'.writer == c.writer && c'.sendCh.buf == c.sendCh.buf
    ensures !Doomed(c', heartbeat) && !c'.boot.Waiting?
  {
  }

  lemma StopMoves(c: Ctl)
    requires Fit(c) && c.boot.Booted? && !c.stoper.Done? && c.reader.ReaderExited?
    requires c.manager.ManagerExited? || (c.manager.Idle? && c.readCh.buf == [] && !c.readCh.closed)
    requires (c.stoper.WaitStart? ==> c.shutdownStarted) && (c.stoper.WaitWriter? ==> !c.writer.Writing?)
    requires c.stoper.Releasing? ==> c.stoper.released == c.proxies.Keys
    ensures SameEnds(c, StoperStep(c)) && StoperStep(c).writer == c.writer && StoperStep(c).sendCh.buf == c.sendCh.buf
    ensures Left(StoperStep(c)) < Left(c)
  {
  }

  lemma SomethingLeadsOn(c: Ctl, heartbeat: bool, free: bool) returns (m: Move)
    requires Goes(c, heartbeat)
    ensures LeadsOn(c, m, heartbeat) && (m.Adds? ==> c.manager.Ran? && m == Adds(free))
  {
    if c.boot.Requesting? {
      m := BootLeadsOn(c, heartbeat);
    } else if c.reader.Reading? || (c.reader.Forwarding? && !c.readCh.Full()) {
      m := ReaderLeadsOn(c, heartbeat);
    } else if c.manager.Replying? {
      m := ReplyLeadsOn(c, heartbeat);
    } else if Busy(c.manager) {
      m := BusyLeadsOn(c, heartbeat, free);
    } else if c.manager.Idle? && c.readCh.buf != [] && (c.reader.Forwarding? || !heartbeat) {
      m := ReceiveLeadsOn(c, heartbeat);
    } else if c.manager.Idle? && heartbeat {
      m := Own(ETimeout);
    } else if c.manager.Idle? && c.readCh.closed {
      m := Own(EReceive);
    } else {
      m := StoperLeadsOn(c, heartbeat);
    }
  }

  lemma LeftIsNat(c: Ctl)
    requires Fit(c)
    ensures Left(c) >= 0
  {
    if c.stoper.Releasing? { SubsetCard(c.stoper.released, c.proxies.Keys); }
  }

  lemma SubsetCard<T>(a: set<T>, b: set<T>)
    requires a <= b
    ensures |a| <= |b|
  {
    assert b == a + (b - a);
  }

  lemma {:induction false} NotDoomedEnds(c: Ctl, heartbeat: bool) returns (moves: seq<Move>)
    requires Fit(c) && !c.boot.Waiting? && !Doomed(c, heartbeat)
    ensures AllAllowed(moves, heartbeat) && DoAll(c, moves).stoper.Done?
    decreases Left(c)
  {
    if c.stoper.Done? {
      moves := [];
    } else {
      var m := SomethingLeadsOn(c, heartbeat, false);
      MoveFit(c, m);
      LeftIsNat(Do(c, m));
      LeftIsNat(c);
      var rest := NotDoomedEnds(Do(c, m), heartbeat);
      moves := [m] + rest;
      assert moves[1..] == rest;
    }
  }

  /**
   A session that has begun can come to its end if and only if it is not doomed: its reader does not wait for a
   manager that leaves, and a writer that is gone has left room for all that must still be sent.
   */
  lemma CanEndIff(c: Ctl, heartbeat: bool)
    requires Fit(c) && !c.boot.Waiting?
    ensures CanEnd(c, heartbeat) <==> !Doomed(c, heartbeat)
  {
    if Doomed(c, heartbeat) {
      forall moves: seq<Move> | AllAllowed(moves, heartbeat) ensures !DoAll(c, moves).stoper.Done? {
        DoomedForEver(c, moves, heartbeat);
        if DoAll(c, moves).stoper.Done? { DoneIsNotDoomed(DoAll(c, moves), heartbeat); }
      }
    } else {
      var moves := NotDoomedEnds(c, heartbeat);
    }
  }
}
