/**
 When the control of frpc can still come to its end (client/control.go), which a reconnect
 waits for: exactly when neither its reader nor its handler is blocked for ever.
 */
module ClientProgress {
  import opened Channels
  import opened ServerControl
  import opened ClientControl

  function RunFrom(c: Conn, events: seq<ConnEvent>): Conn
    decreases |events|
  {
    if events == [] then c else RunFrom(ClientControl.Step(c, events[0]), events[1..])
  }

  /** The heartbeat of the handler may be off, and with it its timeout. */
  predicate Admitted(e: ConnEvent, heartbeat: bool)
  {
    heartbeat || !(e.HeartbeatTimeout? || e.Heartbeat?)
  }

  ghost predicate AllAdmitted(events: seq<ConnEvent>, heartbeat: bool)
  {
    forall e :: e in events ==> Admitted(e, heartbeat)
  }

  ghost predicate CanEnd(c: Conn, heartbeat: bool)
  {
    exists events: seq<ConnEvent> :: AllAdmitted(events, heartbeat) && RunFrom(c, events).closedDoneCh
  }

  /** The handler has gone, or has a bad answer to a ping in hand and will go. */
  predicate HandlerLeaves(h: Handler)
  {
    h.HandlerDone? || (h.Handled? && h.m.Pong? && !h.m.ok)
  }

  /** The reader waits for room in a channel that no one empties. */
  predicate ReaderStuck(c: Conn)
  {
    c.reading.Passing? && c.readCh.Full() && HandlerLeaves(c.handler)
  }

  /** The handler waits for room in a channel that no one empties. */
  predicate HandlerStuck(c: Conn)
  {
    (c.handler.Pinging? || c.handler.Posting?) && c.writing.WriteDone? && c.sendCh.Full()
  }

  predicate Stuck(c: Conn)
  {
    ReaderStuck(c) || HandlerStuck(c)
  }

  predicate Fit(c: Conn)
  {
    Safe(c) && c.readCh.cap == 100 && c.sendCh.cap == 100 && |c.readCh.buf| <= 100
  }

  lemma StepFit(c: Conn, e: ConnEvent)
    requires Fit(c)
    ensures Fit(ClientControl.Step(c, e))
  {
    StepSafe(c, e);
  }

  lemma {:induction false} AlwaysFit(events: seq<ConnEvent>)
    ensures Fit(RunConn(events))
  {
    if events != [] {
      AlwaysFit(events[..|events| - 1]);
      StepFit(RunConn(events[..|events| - 1]), events[|events| - 1]);
    }
  }

  lemma StepStuck(c: Conn, e: ConnEvent)
    requires Fit(c) && Stuck(c)
    ensures Stuck(ClientControl.Step(c, e))
  {
  }

  lemma {:induction false} StuckForEver(c: Conn, events: seq<ConnEvent>)
    requires Fit(c) && Stuck(c)
    ensures Stuck(RunFrom(c, events)) && Fit(RunFrom(c, events))
    decreases |events|
  {
    if events != [] {
      StepFit(c, events[0]);
      StepStuck(c, events[0]);
      StuckForEver(ClientControl.Step(c, events[0]), events[1..]);
    }
  }

  // ----- otherwise some step leads on

  function LeftOfReader(r: ReadLoop): nat
  {
    match r
    case Passing(_) => 50
    case ReadingOn => 30
    case ReadFailed => 20
    case ReadSignalled => 10
    case ReadDone => 0
  }

  function LeftOfHandler(h: Handler): nat
  {
    if h.Pinging? || h.Posting? then 3 else if h.Handled? then 2 else if h.Selecting? then 1 else 0
  }

  /** What is still to be done. */
  function Left(c: Conn): nat
  {
    |c.sendCh.buf| + 10 * |c.readCh.buf| + LeftOfReader(c.reading) + LeftOfHandler(c.handler) + (5 - Rank(c.worker))
    + if c.writing.WritingOn? then 1 else 0
  }

  ghost predicate LeadsOn(c: Conn, e: ConnEvent)
  {
    Admitted(e, false) && !Stuck(ClientControl.Step(c, e)) && Left(ClientControl.Step(c, e)) < Left(c)
  }

  lemma ReaderLeadsOn(c: Conn) returns (e: ConnEvent)
    requires Fit(c) && !Stuck(c) && !c.reading.ReadDone? && !(c.reading.Passing? && c.readCh.Full())
    ensures LeadsOn(c, e)
  {
    match c.reading {
      case Passing(_) => e := PassOn;
      case ReadingOn => e := ReadError;
      case ReadFailed => e := SignalClosed;
      case ReadSignalled => e := ReaderReturns;
    }
  }

  lemma SenderLeadsOn(c: Conn) returns (e: ConnEvent)
    requires Fit(c) && !Stuck(c) && (c.handler.Pinging? || c.handler.Posting?)
    ensures LeadsOn(c, e)
  {
    e := if c.sendCh.Full() then WriteNext(true) else if c.handler.Pinging? then SendPing else PostOwn;
  }

  lemma HandlerLeadsOn(c: Conn) returns (e: ConnEvent)
    requires Fit(c) && !Stuck(c) && !c.handler.HandlerDone? && (c.readCh.buf != [] || c.readCh.closed)
    requires c.reading.ReadDone? || (c.reading.Passing? && c.readCh.Full())
    ensures LeadsOn(c, e)
  {
    match c.handler {
      case Selecting => e := TakeNext;
      case Handled(_) => e := FinishMsg;
      case _ => e := SenderLeadsOn(c);
    }
  }

  lemma WorkerLeadsOn(c: Conn) returns (e: ConnEvent)
    requires Fit(c) && !Stuck(c) && c.reading.ReadDone? && !c.worker.WorkerDone?
    requires c.readCh.closed ==> c.handler.HandlerDone?
    ensures LeadsOn(c, e)
  {
    if c.worker.AwaitWriteDone? && c.writing.WritingOn? {
      e := WriteNext(true);
    } else {
      e := WorkerNext;
      assert ClientControl.Step(c, e) == WorkerStep(c);
      WorkerFrame(c);
      WorkerBuffers(c);
    }
  }

  lemma SomethingLeadsOn(c: Conn) returns (e: ConnEvent)
    requires Fit(c) && !Stuck(c) && !c.closedDoneCh
    ensures LeadsOn(c, e)
  {
    if !c.reading.ReadDone? && !(c.reading.Passing? && c.readCh.Full()) {
      e := ReaderLeadsOn(c);
    } else if !c.reading.ReadDone? || (c.readCh.closed && !c.handler.HandlerDone?) {
      e := HandlerLeadsOn(c);
    } else {
      e := WorkerLeadsOn(c);
    }
  }

  lemma {:induction false} NotStuckEnds(c: Conn) returns (events: seq<ConnEvent>)
    requires Fit(c) && !Stuck(c)
    ensures AllAdmitted(events, false) && RunFrom(c, events).closedDoneCh
    decreases Left(c)
  {
    if c.closedDoneCh {
      events := [];
    } else {
      var e := SomethingLeadsOn(c);
      StepFit(c, e);
      var rest := NotStuckEnds(ClientControl.Step(c, e));
      events := [e] + rest;
      assert events[1..] == rest;
    }
  }

  /**
   After any run, the control can come to its end, so that a reconnect goes on, if and only if it is not stuck. The
   heartbeat does not matter for that.
   */
  lemma CanEndIff(before: seq<ConnEvent>, c: Conn, heartbeat: bool)
    requires RunConn(before) == c
    ensures CanEnd(c, heartbeat) <==> !Stuck(c)
  {
    AlwaysFit(before);
    if Stuck(c) {
      forall events: seq<ConnEvent> | AllAdmitted(events, heartbeat) ensures !RunFrom(c, events).closedDoneCh {
        StuckForEver(c, events);
      }
    } else {
      var events := NotStuckEnds(c);
      assert AllAdmitted(events, heartbeat);
    }
  }
}
