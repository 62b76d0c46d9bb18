/**
 What the manager of a session answers (server/control.go): over any run each NewProxy
 and each Ping it takes is answered exactly once, in order, and CloseProxy never is.
 What was taken and what was answered is observed at the two channels.
 */
module ServerReplies {
  import opened Wrappers
  import opened Channels
  import opened ServerControl
  import opened ServerSessions
  import opened ServerProgress
  import opened LoginReplacement

  /** The message that left readCh. */
  function Taken(c: Ctl, c': Ctl): seq<ToServer>
  {
    if |c'.readCh.buf| < |c.readCh.buf| then [c.readCh.buf[0]] else []
  }

  /** The reply that entered sendCh; requests for work connections are none. */
  function Sent(c: Ctl, c': Ctl): seq<ToClient>
  {
    if |c'.sendCh.buf| > |c.sendCh.buf| && c'.sendCh.buf[|c.sendCh.buf|] != ReqWorkConn then [c'.sendCh.buf[|c.sendCh.buf|]] else []
  }

  /** Without the messages that get no answer. */
  function Asks(taken: seq<ToServer>): seq<ToServer>
  {
    if taken == [] then []
    else
      var n := |taken| - 1;
      if taken[n].CloseProxy? then Asks(taken[..n]) else Asks(taken[..n]) + [taken[n]]
  }

  predicate Answers(ask: ToServer, reply: ToClient)
  {
    match ask
    case NewProxy(name, _, valid) => reply.NewProxyResp? && reply.name == name && (reply.ok ==> valid)
    case Ping(valid) => reply == Pong(valid)
    case CloseProxy(_) => false
  }

  /** The manager is at work on this message. It exits behind the answer to a bad ping, and only then. */
  predicate AtWorkOn(m: Manager, ask: ToServer)
  {
    match m
    case Replying(reply, thenExit) => Answers(ask, reply) && (thenExit <==> ask == Ping(false))
    case Reserved(name, pxy) => ask == NewProxy(name, pxy.ports, true)
    case Ran(name, pxy) => ask == NewProxy(name, pxy.ports, true)
    case Added(name, pxy) => ask == NewProxy(name, pxy.ports, true)
    case Failed(name, pxy) => ask == NewProxy(name, pxy.ports, true)
    case _ => false
  }

  /** Every message taken is answered, in order, but for the one the manager is at work on. */
  ghost predicate Matched(asks: seq<ToServer>, replies: seq<ToClient>, m: Manager)
  {
    && |asks| == |replies| + (if Busy(m) then 1 else 0)
    && (forall k :: 0 <= k < |replies| ==> Answers(asks[k], replies[k]))
    && (Busy(m) ==> AtWorkOn(m, asks[|replies|]))
  }

  lemma AsksMore(taken: seq<ToServer>, m: ToServer)
    ensures Asks(taken + [m]) == if m.CloseProxy? then Asks(taken) else Asks(taken) + [m]
  {
    assert (taken + [m])[..|taken|] == taken;
  }

  /** What one step does to manager and channels, seen from outside. */
  ghost predicate Observed(c: Ctl, c': Ctl)
  {
    var took, sent := Taken(c, c'), Sent(c, c');
    if took != [] then
      sent == [] && c.manager.Idle? && (if took[0].CloseProxy? then c'.manager.Idle? else Busy(c'.manager) && AtWorkOn(c'.manager, took[0]))
    else if sent != [] then c.manager.Replying? && sent == [c.manager.m] && !Busy(c'.manager)
    else (Busy(c.manager) <==> Busy(c'.manager)) && (Busy(c.manager) ==> Onward(c.manager, c'.manager))
  }

  /** Still at work on the same message, whatever it is. */
  ghost predicate Onward(m: Manager, m': Manager)
  {
    forall ask :: AtWorkOn(m, ask) ==> AtWorkOn(m', ask)
  }

  lemma ObservedKeeps(c: Ctl, c': Ctl, taken: seq<ToServer>, replies: seq<ToClient>)
    requires Observed(c, c') && Matched(Asks(taken), replies, c.manager)
    ensures Matched(Asks(taken + Taken(c, c')), replies + Sent(c, c'), c'.manager)
  {
    var took, sent := Taken(c, c'), Sent(c, c');
    if took != [] {
      AsksMore(taken, took[0]);
      assert replies + [] == replies;
    } else {
      assert taken + [] == taken;
      if sent == [] { assert replies + [] == replies; }
    }
  }

  // ----- every step is so observed

  /** Neither the manager nor readCh's messages change, and no reply is sent. */
  predicate Apart(c: Ctl, c': Ctl)
  {
    c'.manager == c.manager && |c'.readCh.buf| >= |c.readCh.buf| && Sent(c, c') == []
  }

  lemma ApartObserved(c: Ctl, c': Ctl)
    requires Apart(c, c')
    ensures Observed(c, c')
  {
  }

  lemma OutsideApart(c: Ctl, e: Event)
    requires FromOutside(e)
    ensures Apart(c, Outside(c, e))
  {
    match e {
      case EArrive(conn, solicited) => ArriveApart(c, conn, solicited);
      case EMiss =>
      case EReplace =>
      case EClientFail => TakenApart(c, e);
      case EHit => TakenApart(c, e);
      case EAfterWait => TakenApart(c, e);
      case EGivesUp => TakenApart(c, e);
    }
  }

  lemma ArriveApart(c: Ctl, conn: nat, solicited: bool)
    ensures Apart(c, Arrive(c, conn, solicited))
  {
    assert Arrive(c, conn, solicited).sendCh == c.sendCh;
  }

  lemma TakenApart(c: Ctl, e: Event)
    requires e.EClientFail? || e.EHit? || e.EAfterWait? || e.EGivesUp?
    ensures Apart(c, Outside(c, e))
  {
    assert Outside(c, e).sendCh == c.sendCh;
  }

  lemma BootObserved(c: Ctl)
    requires ChannelsSafe(c)
    ensures Observed(c, BootStep(c)) && Observed(c, Begin(c)) && Observed(c, Signal(c))
  {
  }

  lemma WriterApart(c: Ctl, wrote: bool)
    ensures Apart(c, WriterStep(c, wrote)) && Apart(c, WriterQuit(c))
  {
  }

  lemma ReaderApart(c: Ctl, m: ToServer)
    ensures Apart(c, ReaderGet(c, m)) && Apart(c, ReaderQuit(c)) && Apart(c, ReaderForward(c))
  {
  }

  lemma StopApart(c: Ctl, name: Name)
    ensures Apart(c, StoperStep(c)) && Apart(c, ReleaseOne(c, name))
  {
  }

  lemma ReceiveObserved(c: Ctl)
    ensures Observed(c, ManagerReceive(c))
  {
  }

  lemma ManagerObserved(c: Ctl, ok: bool)
    ensures Observed(c, ManagerTimeout(c)) && Observed(c, ManagerRun(c, ok)) && Observed(c, ManagerAdd(c, ok))
    ensures Observed(c, ManagerCleanUp(c)) && Observed(c, ManagerStore(c))
  {
  }

  lemma ReplyObserved(c: Ctl)
    requires ChannelsSafe(c)
    ensures Observed(c, ManagerReply(c))
  {
  }

  lemma LocalObserved(c: Ctl, e: Event)
    requires ChannelsSafe(c)
    ensures Observed(c, Local(c, e))
  {
    if FromOutside(e) {
      OutsideApart(c, e);
    } else {
      match e {
        case EBoot => BootObserved(c);
        case EWrite(wrote) => WriterApart(c, wrote);
        case EWriterQuit => WriterApart(c, true);
        case EGet(m) => ReaderApart(c, m);
        case EReaderQuit => ReaderApart(c, Ping(true));
        case EForward => ReaderApart(c, Ping(true));
        case EReceive => ReceiveObserved(c); ApartObserved(c, c);
        case ETimeout => ManagerObserved(c, true);
        case ERun(ok) => ManagerObserved(c, ok);
        case ECleanUp => ManagerObserved(c, true);
        case EStore => ManagerObserved(c, true);
        case EReply => ReplyObserved(c);
        case ESignal => BootObserved(c);
        case EStop => StopApart(c, Name(""));
      }
    }
  }

  lemma MovedObserved(c: Ctl, c': Ctl, m: Move)
    requires ChannelsSafe(c) && Moved(c, c', m)
    ensures Observed(c, c')
  {
    ApartObserved(c, c);
    BootObserved(c);
    match m {
      case Own(e) => LocalObserved(c, e);
      case Adds(free) => ManagerObserved(c, free);
      case Closes => ReceiveObserved(c);
      case Releases(name) => StopApart(c, name);
    }
  }

  // ----- whole runs

  function CtlOf(s: Server, i: nat): Option<Ctl>
  {
    if i < |s.sessions| then Some(s.sessions[i].ctl) else None
  }

  function TakenBetween(c: Option<Ctl>, c': Option<Ctl>): seq<ToServer>
  {
    if c.Some? && c'.Some? then Taken(c.value, c'.value) else []
  }

  function SentBetween(c: Option<Ctl>, c': Option<Ctl>): seq<ToClient>
  {
    if c.Some? && c'.Some? then Sent(c.value, c'.value) else []
  }

  /** All messages the manager of session i has taken in this run. */
  ghost function AllTaken(events: seq<ServerEvent>, i: nat): seq<ToServer>
  {
    if events == [] then []
    else
      var before := events[..|events| - 1];
      AllTaken(before, i) + TakenBetween(CtlOf(Run(before), i), CtlOf(Run(events), i))
  }

  /** All replies it has sent. */
  ghost function AllSent(events: seq<ServerEvent>, i: nat): seq<ToClient>
  {
    if events == [] then []
    else
      var before := events[..|events| - 1];
      AllSent(before, i) + SentBetween(CtlOf(Run(before), i), CtlOf(Run(events), i))
  }

  ghost predicate MatchedFor(c: Option<Ctl>, taken: seq<ToServer>, replies: seq<ToClient>)
  {
    if c.None? then taken == [] && replies == [] else Matched(Asks(taken), replies, c.value.manager)
  }

  lemma AnsweredSoFar(s: Server, e: ServerEvent, i: nat, taken: seq<ToServer>, replies: seq<ToClient>)
    requires AllFit(s.sessions) && MatchedFor(CtlOf(s, i), taken, replies)
    ensures var c, c' := CtlOf(s, i), CtlOf(Next(s, e), i);
      MatchedFor(c', taken + TakenBetween(c, c'), replies + SentBetween(c, c'))
  {
    if i < |s.sessions| {
      assert Fit(s.sessions[i].ctl);
      var m := EventMoves(s, e, i);
      MovedObserved(s.sessions[i].ctl, Next(s, e).sessions[i].ctl, m);
      ObservedKeeps(s.sessions[i].ctl, Next(s, e).sessions[i].ctl, taken, replies);
    } else if i < |Next(s, e).sessions| {
      NewIsOff(s, e);
    }
  }

  lemma NewIsOff(s: Server, e: ServerEvent)
    requires |s.sessions| < |Next(s, e).sessions|
    ensures |Next(s, e).sessions| == |s.sessions| + 1 && Next(s, e).sessions[|s.sessions|].ctl.manager == ManagerOff
  {
  }

  lemma {:induction false} AlwaysMatched(events: seq<ServerEvent>, i: nat)
    ensures MatchedFor(CtlOf(Run(events), i), AllTaken(events, i), AllSent(events, i))
  {
    if events != [] {
      var before, e := events[..|events| - 1], events[|events| - 1];
      AlwaysMatched(before, i);
      AlwaysFit(before);
      AnsweredSoFar(Run(before), e, i, AllTaken(before, i), AllSent(before, i));
    }
  }

  /** In every run each NewProxy and each Ping taken is answered once, in order, but for one the manager is still at work on. */
  lemma EachIsAnsweredOnce(events: seq<ServerEvent>, i: nat)
    requires i < |Run(events).sessions|
    ensures Matched(Asks(AllTaken(events, i)), AllSent(events, i), Run(events).sessions[i].ctl.manager)
  {
    AlwaysMatched(events, i);
  }

  // ----- what is read is taken in order, and what is pooled is handed out in order

  /** The message the reader has got off the connection. */
  function Got(c: Ctl, c': Ctl): seq<ToServer>
  {
    if c.reader.Reading? && c'.reader.Forwarding? then [c'.reader.m] else []
  }

  /** The connection that entered the pool. */
  function Pooled(c: Ctl, c': Ctl): seq<nat>
  {
    if |c'.workConnCh.buf| > |c.workConnCh.buf| then [c'.workConnCh.buf[|c.workConnCh.buf|]] else []
  }

  /** One step moves messages along, and connections too unless it closes one of a closed pool. */
  ghost predicate InOrder(c: Ctl, c': Ctl)
  {
    && (c.readCh.buf + OnItsWay(c.reader)) + Got(c, c') == Taken(c, c') + (c'.readCh.buf + OnItsWay(c'.reader))
    && c'.ledger.drained >= c.ledger.drained
    && (c'.ledger.drained == c.ledger.drained ==> (c.ledger.handed + c.workConnCh.buf) + Pooled(c, c') == c'.ledger.handed + c'.workConnCh.buf)
  }

  /** Neither messages nor connections move. */
  predicate Still(c: Ctl, c': Ctl)
  {
    c'.readCh.buf == c.readCh.buf && c'.reader == c.reader && c'.workConnCh.buf == c.workConnCh.buf
    && c'.ledger.handed == c.ledger.handed && c'.ledger.drained == c.ledger.drained
  }

  lemma StillInOrder(c: Ctl, c': Ctl)
    requires Still(c, c')
    ensures InOrder(c, c')
  {
    assert (c.readCh.buf + OnItsWay(c.reader)) + [] == [] + (c'.readCh.buf + OnItsWay(c'.reader));
    assert (c.ledger.handed + c.workConnCh.buf) + [] == c'.ledger.handed + c'.workConnCh.buf;
  }

  lemma WriterStill(c: Ctl, wrote: bool)
    ensures Still(c, Begin(c)) && Still(c, Signal(c)) && Still(c, WriterStep(c, wrote)) && Still(c, WriterQuit(c))
  {
  }

  lemma ManagerStill(c: Ctl, ok: bool)
    ensures Still(c, ManagerTimeout(c)) && Still(c, ManagerRun(c, ok)) && Still(c, ManagerAdd(c, ok)) && Still(c, ManagerCleanUp(c))
  {
  }

  lemma ReplyStill(c: Ctl, name: Name)
    ensures Still(c, ManagerStore(c)) && Still(c, ManagerReply(c)) && Still(c, ReleaseOne(c, name))
  {
  }

  /** Steps of the writer, and of the manager behind a message taken. */
  predicate OfStill(e: Event)
  {
    e.EWrite? || e.EWriterQuit? || e.ESignal? || e.ETimeout? || e.ERun? || e.ECleanUp? || e.EStore? || e.EReply?
  }

  lemma InsideStill(c: Ctl, e: Event)
    requires e.EWrite? || e.EWriterQuit? || e.ESignal?
    ensures Still(c, Inside(c, e))
  {
    WriterStill(c, e.EWrite? && e.wrote);
  }

  lemma ManagerPartStill(c: Ctl, e: Event)
    requires OfManager(e) && !e.EReceive?
    ensures Still(c, ManagerPart(c, e))
  {
    ManagerStill(c, e.ERun? && e.ok);
    ReplyStill(c, Name(""));
  }

  lemma LocalStill(c: Ctl, e: Event)
    requires OfStill(e)
    ensures Still(c, Local(c, e))
  {
    if OfManager(e) { ManagerPartStill(c, e); } else { InsideStill(c, e); }
  }

  lemma BootInOrder(c: Ctl)
    requires Fit(c)
    ensures InOrder(c, BootStep(c))
  {
    if c.boot.Requesting? && c.boot.sent == Initial(c) {
      assert c.reader.ReaderOff? && OnItsWay(c.reader) == OnItsWay(Reading);
      assert (c.readCh.buf + []) + [] == [] + (c.readCh.buf + []);
      assert (c.ledger.handed + c.workConnCh.buf) + [] == c.ledger.handed + c.workConnCh.buf;
    } else {
      StillInOrder(c, BootStep(c));
    }
  }

  lemma SamePoolInOrder(c: Ctl, c': Ctl)
    requires c'.workConnCh.buf == c.workConnCh.buf && c'.ledger == c.ledger
    requires (c.readCh.buf + OnItsWay(c.reader)) + Got(c, c') == Taken(c, c') + (c'.readCh.buf + OnItsWay(c'.reader))
    ensures InOrder(c, c')
  {
    assert (c.ledger.handed + c.workConnCh.buf) + [] == c'.ledger.handed + c'.workConnCh.buf;
  }

  lemma ReaderInOrder(c: Ctl, m: ToServer)
    ensures InOrder(c, ReaderGet(c, m)) && InOrder(c, ReaderQuit(c)) && InOrder(c, ReaderForward(c))
  {
    StillInOrder(c, c);
    var got, quit, sent := ReaderGet(c, m), ReaderQuit(c), ReaderForward(c);
    if c.reader.Reading? {
      assert (c.readCh.buf + []) + [m] == [] + (c.readCh.buf + [m]);
      assert (c.readCh.buf + []) + [] == [] + (c.readCh.buf + []);
      SamePoolInOrder(c, got);
      SamePoolInOrder(c, quit);
    }
    if c.reader.Forwarding? {
      assert (c.readCh.buf + [c.reader.m]) + [] == [] + ((c.readCh.buf + [c.reader.m]) + []);
      if c.readCh.closed || c.readCh.Full() { StillInOrder(c, sent); } else { SamePoolInOrder(c, sent); }
    }
  }

  lemma ReceiveInOrder(c: Ctl)
    ensures InOrder(c, ManagerReceive(c))
  {
    var c' := ManagerReceive(c);
    if c.manager.Idle? && c.readCh.buf != [] {
      assert c.readCh.buf == [c.readCh.buf[0]] + c.readCh.buf[1..];
      assert (c.readCh.buf + OnItsWay(c.reader)) + [] == [c.readCh.buf[0]] + (c.readCh.buf[1..] + OnItsWay(c.reader));
      ReceiveOnlyManager(c);
      assert c'.ledger == c.ledger;
      SamePoolInOrder(c, c');
    } else {
      StillInOrder(c, c');
    }
  }

  /** The reader's side is untouched, and connections move along. */
  lemma PoolInOrder(c: Ctl, c': Ctl)
    requires c'.readCh.buf == c.readCh.buf && c'.reader == c.reader && c'.ledger.drained == c.ledger.drained
    requires (c.ledger.handed + c.workConnCh.buf) + Pooled(c, c') == c'.ledger.handed + c'.workConnCh.buf
    ensures InOrder(c, c')
  {
    assert (c.readCh.buf + OnItsWay(c.reader)) + [] == [] + (c'.readCh.buf + OnItsWay(c'.reader));
  }

  lemma ArriveInOrder(c: Ctl, conn: nat, solicited: bool)
    ensures InOrder(c, Arrive(c, conn, solicited))
  {
    var c' := Arrive(c, conn, solicited);
    if |c'.workConnCh.buf| > |c.workConnCh.buf| {
      assert (c.ledger.handed + c.workConnCh.buf) + [conn] == c.ledger.handed + (c.workConnCh.buf + [conn]);
      PoolInOrder(c, c');
    } else {
      StillInOrder(c, c');
    }
  }

  lemma TakeInOrder(c: Ctl, c': Ctl)
    requires c.workConnCh.buf != [] && c'.readCh == c.readCh && c'.reader == c.reader && c'.ledger.drained == c.ledger.drained
    requires c'.ledger.handed == c.ledger.handed + [c.workConnCh.buf[0]] && c'.workConnCh.buf == c.workConnCh.buf[1..]
    ensures InOrder(c, c')
  {
    assert (c.ledger.handed + c.workConnCh.buf) + [] == (c.ledger.handed + [c.workConnCh.buf[0]]) + c.workConnCh.buf[1..];
    PoolInOrder(c, c');
  }

  lemma OutsideInOrder(c: Ctl, e: Event)
    requires FromOutside(e)
    ensures InOrder(c, Outside(c, e))
  {
    match e {
      case EArrive(conn, solicited) => ArriveInOrder(c, conn, solicited);
      case EHit => if c.workConnCh.buf != [] { TakeInOrder(c, GetHit(c)); } else { StillInOrder(c, c); }
      case EAfterWait =>
        if c.workConnCh.buf != [] && c.ledger.waiting > 0 { TakeInOrder(c, GetAfterWait(c)); } else { StillInOrder(c, c); }
      case EClientFail => StillInOrder(c, ClientFail(c));
      case EMiss => StillInOrder(c, GetMiss(c));
      case EGivesUp => StillInOrder(c, GetGivesUp(c));
      case EReplace => StillInOrder(c, Replace(c));
    }
  }

  lemma StopInOrder(c: Ctl)
    ensures InOrder(c, StoperStep(c))
  {
    if c.stoper.Draining? && c.workConnCh.buf != [] {
      assert (c.readCh.buf + OnItsWay(c.reader)) + [] == [] + (c.readCh.buf + OnItsWay(c.reader));
    } else {
      assert Still(c, StoperStep(c)) by { StoperSamePool(c); StopEnds(c, Name("")); }
      StillInOrder(c, StoperStep(c));
    }
  }

  lemma LocalInOrder(c: Ctl, e: Event)
    requires Fit(c)
    ensures InOrder(c, Local(c, e))
  {
    if FromOutside(e) {
      OutsideInOrder(c, e);
    } else if OfStill(e) {
      LocalStill(c, e);
      StillInOrder(c, Local(c, e));
    } else {
      match e {
        case EBoot => BootInOrder(c);
        case EGet(m) => ReaderInOrder(c, m);
        case EReaderQuit => ReaderInOrder(c, Ping(true));
        case EForward => ReaderInOrder(c, Ping(true));
        case EReceive => ReceiveInOrder(c); StillInOrder(c, c);
        case EStop => StopInOrder(c);
      }
    }
  }

  lemma MoveInOrder(c: Ctl, m: Move)
    requires Fit(c)
    ensures InOrder(c, Do(c, m))
  {
    match m {
      case Own(e) => LocalInOrder(c, e);
      case Adds(free) => ManagerStill(c, free); StillInOrder(c, ManagerAdd(c, free));
      case Closes => ReceiveInOrder(c); StillInOrder(c, c);
      case Releases(name) => ReplyStill(c, name); StillInOrder(c, ReleaseOne(c, name));
    }
  }

  lemma MovedInOrder(c: Ctl, c': Ctl, m: Move)
    requires Fit(c) && Moved(c, c', m)
    ensures InOrder(c, c')
  {
    WriterStill(c, true);
    StillInOrder(c, c);
    StillInOrder(c, Begin(c));
    StillInOrder(c, Signal(c));
    MoveInOrder(c, m);
  }

  function GotBetween(c: Option<Ctl>, c': Option<Ctl>): seq<ToServer>
  {
    if c.Some? && c'.Some? then Got(c.value, c'.value) else []
  }

  function PooledBetween(c: Option<Ctl>, c': Option<Ctl>): seq<nat>
  {
    if c.Some? && c'.Some? then Pooled(c.value, c'.value) else []
  }

  /** All messages session i has read. */
  ghost function AllGot(events: seq<ServerEvent>, i: nat): seq<ToServer>
  {
    if events == [] then []
    else
      var before := events[..|events| - 1];
      AllGot(before, i) + GotBetween(CtlOf(Run(before), i), CtlOf(Run(events), i))
  }

  /** All connections ever pooled for session i. */
  ghost function AllPooled(events: seq<ServerEvent>, i: nat): seq<nat>
  {
    if events == [] then []
    else
      var before := events[..|events| - 1];
      AllPooled(before, i) + PooledBetween(CtlOf(Run(before), i), CtlOf(Run(events), i))
  }

  ghost predicate Kept(c: Option<Ctl>, got: seq<ToServer>, taken: seq<ToServer>, pooled: seq<nat>)
  {
    if c.None? then got == [] && taken == [] && pooled == []
    else
      && got == taken + (c.value.readCh.buf + OnItsWay(c.value.reader))
      && (c.value.ledger.drained == 0 ==> pooled == c.value.ledger.handed + c.value.workConnCh.buf)
  }

  lemma OrderKept(c: Ctl, c': Ctl, got: seq<ToServer>, taken: seq<ToServer>, pooled: seq<nat>)
    requires InOrder(c, c') && Kept(Some(c), got, taken, pooled)
    ensures Kept(Some(c'), got + Got(c, c'), taken + Taken(c, c'), pooled + Pooled(c, c'))
  {
    assert got + Got(c, c') == taken + ((c.readCh.buf + OnItsWay(c.reader)) + Got(c, c'));
    assert (taken + Taken(c, c')) + (c'.readCh.buf + OnItsWay(c'.reader)) == taken + (Taken(c, c') + (c'.readCh.buf + OnItsWay(c'.reader)));
  }

  lemma NewIsEmpty(s: Server, e: ServerEvent)
    requires |s.sessions| < |Next(s, e).sessions|
    ensures var c := Next(s, e).sessions[|s.sessions|].ctl;
      |Next(s, e).sessions| == |s.sessions| + 1 && c.readCh.buf == [] && c.reader == ReaderOff && c.ledger.handed == [] && c.workConnCh.buf == []
  {
  }

  lemma NextKept(s: Server, e: ServerEvent, i: nat, got: seq<ToServer>, taken: seq<ToServer>, pooled: seq<nat>)
    requires AllFit(s.sessions) && Kept(CtlOf(s, i), got, taken, pooled)
    ensures var c, c' := CtlOf(s, i), CtlOf(Next(s, e), i);
      Kept(c', got + GotBetween(c, c'), taken + TakenBetween(c, c'), pooled + PooledBetween(c, c'))
  {
    if i < |s.sessions| {
      assert Fit(s.sessions[i].ctl);
      var m := EventMoves(s, e, i);
      MovedInOrder(s.sessions[i].ctl, Next(s, e).sessions[i].ctl, m);
      OrderKept(s.sessions[i].ctl, Next(s, e).sessions[i].ctl, got, taken, pooled);
    } else if i < |Next(s, e).sessions| {
      NewIsEmpty(s, e);
    }
  }

  /**
   In every run what the manager takes is what the reader got off the connection, in order and without loss but for
   what is still on its way; and connections are handed out in the order they were pooled, none lost before the end.
   */
  lemma {:induction false} NothingOvertakes(events: seq<ServerEvent>, i: nat)
    ensures Kept(CtlOf(Run(events), i), AllGot(events, i), AllTaken(events, i), AllPooled(events, i))
  {
    if events != [] {
      var before, e := events[..|events| - 1], events[|events| - 1];
      NothingOvertakes(before, i);
      AlwaysFit(before);
      NextKept(Run(before), e, i, AllGot(before, i), AllTaken(before, i), AllPooled(before, i));
    }
  }
}
