/**
 The control connection on frpc (client/control.go) as a step system: reader, writer,
 message handler and worker, their channels, and the protected sends of the proxies. A
 send on a closed channel or a second close sets panicked, except where it is recovered.
 Message content is not looked at, except that a bad Pong ends the handler.
 */
module ClientControl {
  import opened Channels
  import opened ServerControl

  datatype ReadLoop = ReadingOn | Passing(m: ToClient) | ReadFailed | ReadSignalled | ReadDone

  datatype WriteLoop = WritingOn | WriteDone

  /** Posting: the handler itself has to tell frps that a proxy did not start. */
  datatype Handler = Selecting | Pinging | Handled(m: ToClient) | Posting(p: ToServer) | HandlerDone

  datatype Worker = AwaitClosed | AwaitReadDone | AwaitHandlerDone | AwaitWriteDone | ProxiesStopped | WorkerDone

  function Rank(w: Worker): nat
  {
    match w
    case AwaitClosed => 0
    case AwaitReadDone => 1
    case AwaitHandlerDone => 2
    case AwaitWriteDone => 3
    case ProxiesStopped => 4
    case WorkerDone => 5
  }

  /** The sequences record what passed: read off the wire, taken by the handler, accepted by sendCh, taken and written. */
  datatype Conn = Conn(
    reading: ReadLoop, writing: WriteLoop, handler: Handler, worker: Worker,
    readCh: Chan<ToClient>, sendCh: Chan<ToServer>, closedCh: bool, closedDoneCh: bool,
    got: seq<ToClient>, handled: seq<ToClient>, accepted: seq<ToServer>, taken: seq<ToServer>, written: seq<ToServer>,
    panicked: bool)

  function NewConn(): Conn
  {
    Conn(ReadingOn, WritingOn, Selecting, AwaitClosed, Chan([], 100, false), Chan([], 100, false), false, false,
         [], [], [], [], [], false)
  }

  datatype ConnEvent =
    | ReadMsg(m: ToClient) | ReadError | PassOn | SignalClosed | ReaderReturns
    | WriteNext(wrote: bool) | WriterFails
    | Heartbeat(authOk: bool) | SendPing | HeartbeatTimeout | TakeNext | FinishMsg | HandlerPosts(p: ToServer) | PostOwn
    | Post(p: ToServer)
    | WorkerNext

  /** A goroutine's own, unguarded send. */
  function SendPingStep(c: Conn): Conn
  {
    if !c.handler.Pinging? then c
    else if c.sendCh.closed then c.(panicked := true)
    else if c.sendCh.Full() then c
    else c.(sendCh := c.sendCh.Push(Ping(true)), accepted := c.accepted + [Ping(true)], handler := Selecting)
  }

  /** The handler's part of HandleEvent. */
  function PostOwnStep(c: Conn): Conn
  {
    if !c.handler.Posting? then c
    else if c.sendCh.closed then c.(handler := Selecting)
    else if c.sendCh.Full() then c
    else c.(sendCh := c.sendCh.Push(c.handler.p), accepted := c.accepted + [c.handler.p], handler := Selecting)
  }

  /** HandleEvent: the panic of a send on the closed channel is recovered. */
  function PostStep(c: Conn, m: ToServer): Conn
  {
    if c.sendCh.closed || c.sendCh.Full() then c
    else c.(sendCh := c.sendCh.Push(m), accepted := c.accepted + [m])
  }

  function PassOnStep(c: Conn): Conn
  {
    if !c.reading.Passing? then c
    else if c.readCh.closed then c.(panicked := true)
    else if c.readCh.Full() then c
    else c.(readCh := c.readCh.Push(c.reading.m), reading := ReadingOn)
  }

  function TakeStep(c: Conn): Conn
  {
    if !c.handler.Selecting? then c
    else if c.readCh.buf == [] then
      if c.readCh.closed then c.(handler := HandlerDone) else c
    else c.(readCh := c.readCh.Pop(), handler := Handled(c.readCh.buf[0]), handled := c.handled + [c.readCh.buf[0]])
  }

  function WriteStep(c: Conn, wrote: bool): Conn
  {
    if !c.writing.WritingOn? then c
    else if c.sendCh.buf == [] then
      if c.sendCh.closed then c.(writing := WriteDone) else c
    else
      var m := c.sendCh.buf[0];
      var c' := c.(sendCh := c.sendCh.Pop(), taken := c.taken + [m]);
      if wrote then c'.(written := c.written + [m]) else c'.(writing := WriteDone)
  }

  function WorkerStep(c: Conn): Conn
  {
    match c.worker
    case AwaitClosed =>
      if !c.closedCh then c
      else if c.readCh.closed then c.(panicked := true)
      else c.(readCh := c.readCh.(closed := true), worker := AwaitReadDone)
    case AwaitReadDone => if c.reading.ReadDone? then c.(worker := AwaitHandlerDone) else c
    case AwaitHandlerDone =>
      if !c.handler.HandlerDone? then c
      else if c.sendCh.closed then c.(panicked := true)
      else c.(sendCh := c.sendCh.(closed := true), worker := AwaitWriteDone)
    case AwaitWriteDone => if c.writing.WriteDone? then c.(worker := ProxiesStopped) else c
    case ProxiesStopped => if c.closedDoneCh then c.(panicked := true) else c.(closedDoneCh := true, worker := WorkerDone)
    case WorkerDone => c
  }

  function Step(c: Conn, e: ConnEvent): Conn
  {
    match e
    case ReadMsg(m) => if c.reading.ReadingOn? then c.(reading := Passing(m), got := c.got + [m]) else c
    case ReadError => if c.reading.ReadingOn? then c.(reading := ReadFailed) else c
    case PassOn => PassOnStep(c)
    case SignalClosed =>
      if !c.reading.ReadFailed? then c
      else if c.closedCh then c.(panicked := true)
      else c.(closedCh := true, reading := ReadSignalled)
    case ReaderReturns => if c.reading.ReadSignalled? then c.(reading := ReadDone) else c
    case WriteNext(wrote) => WriteStep(c, wrote)
    case WriterFails => c.(writing := WriteDone)
    case Heartbeat(authOk) =>
      if !c.handler.Selecting? then c else c.(handler := if authOk then Pinging else HandlerDone)
    case SendPing => SendPingStep(c)
    case HeartbeatTimeout => if c.handler.Selecting? then c.(handler := HandlerDone) else c
    case TakeNext => TakeStep(c)
    case FinishMsg =>
      if !c.handler.Handled? then c
      else c.(handler := if c.handler.m.Pong? && !c.handler.m.ok then HandlerDone else Selecting)
    case HandlerPosts(m) => if c.handler.Handled? && c.handler.m.NewProxyResp? then c.(handler := Posting(m)) else c
    case PostOwn => PostOwnStep(c)
    case Post(m) => PostStep(c, m)
    case WorkerNext => WorkerStep(c)
  }

  // ----- exactly when a goroutine ends, and when a message is accepted

  /** The handler ends on a heartbeat it cannot authenticate, a timeout, a bad answer, or a closed and empty channel; not otherwise. */
  lemma HandlerEndsIff(c: Conn, e: ConnEvent)
    ensures Step(c, e).handler.HandlerDone? <==>
      || c.handler.HandlerDone?
      || (c.handler.Selecting? && (e == Heartbeat(false) || e.HeartbeatTimeout?))
      || (c.handler.Selecting? && e.TakeNext? && c.readCh.buf == [] && c.readCh.closed)
      || (e.FinishMsg? && c.handler == Handled(Pong(false)))
  {
  }

  /** The writer ends when it cannot start, cannot write, or finds its channel closed and empty; not otherwise. */
  lemma WriterEndsIff(c: Conn, e: ConnEvent)
    ensures Step(c, e).writing.WriteDone? <==>
      || c.writing.WriteDone? || e.WriterFails?
      || (e.WriteNext? && if c.sendCh.buf == [] then c.sendCh.closed else !e.wrote)
  {
  }

  /** The reader passes on what it reads, and stops reading only on an error. */
  lemma ReaderGoesOn(c: Conn, e: ConnEvent)
    ensures Step(c, e).got != c.got <==> c.reading.ReadingOn? && e.ReadMsg?
    ensures c.reading.ReadingOn? && e.ReadMsg? ==> Step(c, e).got == c.got + [e.m] && Step(c, e).reading == Passing(e.m)
    ensures c.reading.ReadingOn? ==> (Step(c, e).reading != ReadingOn <==> e.ReadMsg? || e.ReadError?)
    ensures c.reading.Passing? && Step(c, e).reading != c.reading ==> e.PassOn? && Step(c, e).reading == ReadingOn
  {
  }

  lemma OthersAcceptNothing(c: Conn, e: ConnEvent)
    requires !e.Post? && !e.SendPing? && !e.PostOwn?
    ensures Step(c, e).accepted == c.accepted
  {
    if e.WorkerNext? { assert WorkerStep(c).accepted == c.accepted; }
  }

  /** A message is accepted exactly from a proxy, or from the handler that has one to send, if the channel is open with room. */
  lemma AcceptedIff(c: Conn, e: ConnEvent)
    ensures var open := !c.sendCh.closed && |c.sendCh.buf| < c.sendCh.cap;
      Step(c, e).accepted ==
        if e.Post? && open then c.accepted + [e.p]
        else if e.SendPing? && c.handler.Pinging? && open then c.accepted + [Ping(true)]
        else if e.PostOwn? && c.handler.Posting? && open then c.accepted + [c.handler.p]
        else c.accepted
  {
    if !e.Post? && !e.SendPing? && !e.PostOwn? { OthersAcceptNothing(c, e); }
  }

  /** A ping is due from an authenticated heartbeat until it is sent, and the handler has a message of its own only behind an answer to NewProxy. */
  lemma PingIsDueIff(c: Conn, e: ConnEvent)
    ensures Step(c, e).handler.Pinging? <==>
      (c.handler.Selecting? && e == Heartbeat(true)) || (c.handler.Pinging? && !(e.SendPing? && !c.sendCh.closed && |c.sendCh.buf| < c.sendCh.cap))
    ensures !c.handler.Posting? && Step(c, e).handler.Posting? <==> e.HandlerPosts? && c.handler.Handled? && c.handler.m.NewProxyResp?
  {
  }

  function RunConn(events: seq<ConnEvent>): Conn
  {
    if events == [] then NewConn() else Step(RunConn(events[..|events| - 1]), events[|events| - 1])
  }

  // ----- invariants

  /** Nothing panics; the worker closes each channel only behind its last unguarded sender. */
  predicate Safe(c: Conn)
  {
    && !c.panicked
    && (c.closedCh <==> c.reading.ReadSignalled? || c.reading.ReadDone?)
    && (c.readCh.closed <==> Rank(c.worker) >= 1)
    && (c.sendCh.closed <==> Rank(c.worker) >= 3)
    && (c.closedDoneCh <==> c.worker.WorkerDone?)
    && (Rank(c.worker) >= 1 ==> c.closedCh)
    && (Rank(c.worker) >= 2 ==> c.reading.ReadDone?)
    && (Rank(c.worker) >= 3 ==> c.handler.HandlerDone?)
    && (Rank(c.worker) >= 4 ==> c.writing.WriteDone?)
  }

  function InHand(r: ReadLoop): seq<ToClient>
  {
    if r.Passing? then [r.m] else []
  }

  predicate Inward(got: seq<ToClient>, handled: seq<ToClient>, buf: seq<ToClient>, r: ReadLoop)
  {
    got == handled + buf + InHand(r)
  }

  predicate Outward(accepted: seq<ToServer>, taken: seq<ToServer>, buf: seq<ToServer>, written: seq<ToServer>, w: WriteLoop)
  {
    accepted == taken + buf && written <= taken && (w.WritingOn? ==> written == taken)
  }

  /** Both directions keep their order: nothing is lost, repeated or overtaken on the way through a channel. */
  predicate InOrder(c: Conn)
  {
    && Inward(c.got, c.handled, c.readCh.buf, c.reading)
    && Outward(c.accepted, c.taken, c.sendCh.buf, c.written, c.writing)
  }

  lemma StepSafe(c: Conn, e: ConnEvent)
    requires Safe(c)
    ensures Safe(Step(c, e))
  {
  }

  lemma ReadInOrder(c: Conn, m: ToClient)
    requires InOrder(c)
    ensures InOrder(Step(c, ReadMsg(m))) && InOrder(PassOnStep(c)) && InOrder(TakeStep(c))
  {
    var front := c.handled + c.readCh.buf;
    if c.reading.ReadingOn? {
      assert c.got + [m] == front + [] + [m] == front + [m];
    }
    if c.reading.Passing? {
      assert front + [c.reading.m] == c.handled + (c.readCh.buf + [c.reading.m]) + [];
    }
    if c.readCh.buf != [] {
      assert c.handled + c.readCh.buf == (c.handled + [c.readCh.buf[0]]) + c.readCh.buf[1..];
    }
  }

  lemma PushInOrder(c: Conn, m: ToServer)
    requires InOrder(c)
    ensures InOrder(PostStep(c, m)) && InOrder(SendPingStep(c)) && InOrder(PostOwnStep(c))
  {
    if c.handler.Posting? { assert c.accepted + [c.handler.p] == c.taken + (c.sendCh.buf + [c.handler.p]); }
    assert c.accepted + [m] == c.taken + (c.sendCh.buf + [m]);
    assert c.accepted + [Ping(true)] == c.taken + (c.sendCh.buf + [Ping(true)]);
  }

  lemma WriteInOrder(c: Conn, wrote: bool)
    requires InOrder(c)
    ensures InOrder(WriteStep(c, wrote))
  {
    if c.sendCh.buf != [] {
      assert c.taken + c.sendCh.buf == (c.taken + [c.sendCh.buf[0]]) + c.sendCh.buf[1..];
    }
  }

  lemma RestInOrder(c: Conn, e: ConnEvent)
    requires InOrder(c)
    requires e.ReadError? || e.SignalClosed? || e.ReaderReturns? || e.WriterFails?
      || e.Heartbeat? || e.HeartbeatTimeout? || e.FinishMsg? || e.HandlerPosts?
    ensures InOrder(Step(c, e))
  {
  }

  lemma WorkerFrame(c: Conn)
    ensures WorkerStep(c).got == c.got && WorkerStep(c).handled == c.handled && WorkerStep(c).reading == c.reading
    ensures WorkerStep(c).written == c.written && WorkerStep(c).writing == c.writing
  {
  }

  lemma WorkerQueues(c: Conn)
    ensures WorkerStep(c).accepted == c.accepted && WorkerStep(c).taken == c.taken
  {
  }

  lemma WorkerBuffers(c: Conn)
    ensures WorkerStep(c).readCh.buf == c.readCh.buf && WorkerStep(c).sendCh.buf == c.sendCh.buf
  {
  }

  lemma WorkerInOrder(c: Conn)
    requires InOrder(c)
    ensures InOrder(WorkerStep(c))
  {
    WorkerFrame(c);
    WorkerQueues(c);
    WorkerBuffers(c);
  }

  lemma StepInOrder(c: Conn, e: ConnEvent)
    requires InOrder(c)
    ensures InOrder(Step(c, e))
  {
    match e {
      case ReadMsg(m) => ReadInOrder(c, m);
      case PassOn => ReadInOrder(c, ReqWorkConn);
      case TakeNext => ReadInOrder(c, ReqWorkConn);
      case WriteNext(wrote) => WriteInOrder(c, wrote);
      case SendPing => PushInOrder(c, Ping(true));
      case PostOwn => PushInOrder(c, Ping(true));
      case Post(m) => PushInOrder(c, m);
      case WorkerNext => WorkerInOrder(c);
      case _ => RestInOrder(c, e);
    }
  }

  lemma {:induction false} AlwaysSafeInOrder(events: seq<ConnEvent>)
    ensures Safe(RunConn(events)) && InOrder(RunConn(events))
  {
    if events != [] {
      AlwaysSafeInOrder(events[..|events| - 1]);
      StepSafe(RunConn(events[..|events| - 1]), events[|events| - 1]);
      StepInOrder(RunConn(events[..|events| - 1]), events[|events| - 1]);
    }
  }

  /** When closedDoneCh is closed, all goroutines have returned and every channel is closed; nothing ever panicked. */
  lemma ClosedDoneMeans(events: seq<ConnEvent>)
    ensures var c := RunConn(events);
      && !c.panicked
      && (c.closedDoneCh ==>
            c.reading.ReadDone? && c.handler.HandlerDone? && c.writing.WriteDone? &&
            c.readCh.closed && c.sendCh.closed && c.closedCh)
  {
    AlwaysSafeInOrder(events);
  }

  /** What frps receives is a prefix of what was sent, and what is handled a prefix of what was read, in order. */
  lemma PrefixesInOrder(events: seq<ConnEvent>)
    ensures var c := RunConn(events); c.written <= c.accepted && c.handled <= c.got
  {
    AlwaysSafeInOrder(events);
    var c := RunConn(events);
    assert c.got == c.handled + (c.readCh.buf + InHand(c.reading));
  }
}
