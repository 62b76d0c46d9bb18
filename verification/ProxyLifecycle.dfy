/**
 The life of one proxy name on frpc (client/proxy/proxy_wrapper.go) together with frps
 (server/control.go) over one control connection: a queue of messages up, a queue of
 responses down, and what frps has registered. Timeouts, health reports, the answer of
 frps and the local start are arbitrary. Module Fleet puts all names together.
 */
module ProxyLifecycle {
  import opened Wrappers

  datatype Phase = New | WaitStart | Running | StartErr | CheckFailed | Closed

  datatype Up = StartProxy | CloseProxy

  /** checked: there is a health check. */
  datatype Wrapper = Wrapper(phase: Phase, checked: bool, healthy: bool)

  /** The wrapper in the manager's map, the queues, the response being handled, and the registration on frps. */
  datatype State = State(cur: Option<Wrapper>, up: seq<Up>, down: seq<bool>, fetched: Option<bool>, reg: bool)

  datatype Event =
    | Check(timedOut: bool)
    | Health(healthy: bool)
    | Serve(accepts: bool)
    | Fetch
    | SetStatus(runs: bool)
    | Remove
    | Add(checked: bool)
    | Skip

  function NewWrapper(checked: bool): Wrapper
  {
    Wrapper(New, checked, !checked)
  }

  function Empty(): State
  {
    State(None, [], [], None, false)
  }

  // ----- one round of checkWorker: the new phase and the message sent

  function CheckPhase(w: Wrapper, timedOut: bool): Phase
  {
    if w.healthy then
      if w.phase.New? || w.phase.CheckFailed? || ((w.phase.WaitStart? || w.phase.StartErr?) && timedOut)
      then WaitStart else w.phase
    else if w.phase.Running? || w.phase.WaitStart? then CheckFailed
    else w.phase
  }

  function CheckSends(w: Wrapper, timedOut: bool): seq<Up>
  {
    if w.healthy then
      if w.phase.New? || w.phase.CheckFailed? || ((w.phase.WaitStart? || w.phase.StartErr?) && timedOut)
      then [StartProxy] else []
    else if w.phase.Running? || w.phase.WaitStart? then [CloseProxy]
    else []
  }

  // ----- SetRunningStatus

  function StatusPhase(w: Wrapper, ok: bool, runs: bool): Phase
  {
    if !w.phase.WaitStart? then w.phase
    else if ok && runs then Running
    else StartErr
  }

  function StatusSends(w: Wrapper, ok: bool, runs: bool): seq<Up>
  {
    if w.phase.WaitStart? && ok && !runs then [CloseProxy] else []
  }

  // ----- when each message is sent

  /** A request goes out exactly from a healthy wrapper that is new, recovers, or has waited long enough. */
  lemma RequestSentIff(w: Wrapper, timedOut: bool)
    ensures StartProxy in CheckSends(w, timedOut) <==>
              w.healthy && (w.phase in {New, CheckFailed} || (timedOut && w.phase in {WaitStart, StartErr}))
    ensures StartProxy in CheckSends(w, timedOut) ==> CheckSends(w, timedOut) == [StartProxy] && CheckPhase(w, timedOut) == WaitStart
  {
  }

  /** A close goes out exactly when the check fails for a wrapper that runs or waits. */
  lemma CloseSentIff(w: Wrapper, timedOut: bool)
    ensures CloseProxy in CheckSends(w, timedOut) <==> !w.healthy && w.phase in {Running, WaitStart}
    ensures CloseProxy in CheckSends(w, timedOut) ==> CheckSends(w, timedOut) == [CloseProxy] && CheckPhase(w, timedOut) == CheckFailed
    ensures CheckSends(w, timedOut) == [] <==> CheckPhase(w, timedOut) == w.phase && !(w.healthy && timedOut && w.phase == WaitStart)
    ensures !w.healthy ==> CheckPhase(w, timedOut) !in {Running, WaitStart}
  {
  }

  /** A new proxy asks for its registration in its first round, unless it has a health check: then it does nothing before a good report. */
  lemma NewWrapperMeans(checked: bool, timedOut: bool)
    ensures CheckSends(NewWrapper(checked), timedOut) == if checked then [] else [StartProxy]
    ensures CheckSends(NewWrapper(checked).(healthy := true), timedOut) == [StartProxy]
  {
  }

  /** An answer counts only while it is waited for: then the proxy runs, or did not start, and frps is told if it had accepted. */
  lemma AnswerMeans(w: Wrapper, ok: bool, runs: bool)
    ensures StatusPhase(w, ok, runs) == Running <==> w.phase == Running || (w.phase == WaitStart && ok && runs)
    ensures StatusPhase(w, ok, runs) == StartErr <==> w.phase == StartErr || (w.phase == WaitStart && !(ok && runs))
    ensures w.phase != WaitStart ==> StatusPhase(w, ok, runs) == w.phase
    ensures StatusSends(w, ok, runs) == if w.phase == WaitStart && ok && !runs then [CloseProxy] else []
  {
  }

  function Next(s: State, e: Event): State
  {
    match e
    case Check(timedOut) =>
      if s.cur.None? then s
      else
        var w := s.cur.value;
        s.(cur := Some(w.(phase := CheckPhase(w, timedOut))), up := s.up + CheckSends(w, timedOut))
    case Health(healthy) =>
      if s.cur.Some? && s.cur.value.checked then s.(cur := Some(s.cur.value.(healthy := healthy))) else s
    case Serve(accepts) =>
      if s.up == [] then s
      else if s.up[0].CloseProxy? then s.(up := s.up[1..], reg := false)
      else
        var ok := accepts && !s.reg;
        s.(up := s.up[1..], down := s.down + [ok], reg := s.reg || ok)
    case Fetch =>
      if s.fetched.Some? || s.down == [] then s
      else s.(down := s.down[1..], fetched := if s.cur.Some? then Some(s.down[0]) else None)
    case SetStatus(runs) =>
      if s.fetched.None? then s
      else if s.cur.None? then s.(fetched := None)
      else
        var w := s.cur.value;
        s.(cur := Some(w.(phase := StatusPhase(w, s.fetched.value, runs))),
           up := s.up + StatusSends(w, s.fetched.value, runs), fetched := None)
    case Remove =>
      if s.cur.None? then s else s.(cur := None, up := s.up + [CloseProxy], fetched := None)
    case Add(checked) =>
      if s.cur.Some? then s else s.(cur := Some(NewWrapper(checked)))
    case Skip => s
  }

  function Run(events: seq<Event>): State
  {
    if events == [] then Empty() else Next(Run(events[..|events| - 1]), events[|events| - 1])
  }

  // ----- a drained queue leaves nothing behind

  predicate InPhase(s: State, p: Phase)
  {
    s.cur.Some? && s.cur.value.phase == p
  }

  /** The name has no wrapper, or one that has nothing to do with frps now. */
  predicate Idle(s: State)
  {
    s.cur.None? || InPhase(s, New) || InPhase(s, CheckFailed)
  }

  /** Whatever frps holds, it has been told to drop. */
  predicate Quiet(s: State)
  {
    if s.up == [] then !s.reg else s.up[|s.up| - 1] == CloseProxy
  }

  predicate Tidy(s: State)
  {
    (Idle(s) ==> Quiet(s)) && !InPhase(s, Closed)
  }

  lemma NextTidy(s: State, e: Event)
    requires Tidy(s)
    ensures Tidy(Next(s, e))
  {
  }

  lemma {:induction false} AlwaysTidy(events: seq<Event>)
    ensures Tidy(Run(events))
  {
    if events != [] {
      AlwaysTidy(events[..|events| - 1]);
      NextTidy(Run(events[..|events| - 1]), events[|events| - 1]);
    }
  }

  /** Once the queue is drained, a registered name has a wrapper that asked for it. */
  lemma Drained(events: seq<Event>)
    requires Run(events).up == [] && Run(events).reg
    ensures InPhase(Run(events), WaitStart) || InPhase(Run(events), Running) || InPhase(Run(events), StartErr)
  {
    AlwaysTidy(events);
  }

  // ----- running means registered, as long as nothing is closed while an answer is pending

  /** Some request in the queue would be granted by a frps that grants what it can. */
  predicate Grants(up: seq<Up>, reg: bool)
  {
    up != [] && (if up[0].CloseProxy? then Grants(up[1..], false) else !reg || Grants(up[1..], true))
  }

  /** No CloseProxy follows a request that may be granted. */
  predicate NoCloseAfterGrant(up: seq<Up>, reg: bool)
  {
    up == [] ||
    if up[0].CloseProxy? then NoCloseAfterGrant(up[1..], false)
    else if reg then NoCloseAfterGrant(up[1..], true)
    else CloseProxy !in up[1..]
  }

  function Oks(down: seq<bool>): nat
  {
    if down == [] then 0 else (if down[0] then 1 else 0) + Oks(down[1..])
  }

  function OksInFlight(s: State): nat
  {
    Oks(s.down) + if s.fetched == Some(true) then 1 else 0
  }

  /** A positive answer is on its way or may still be given. */
  predicate Pending(s: State)
  {
    OksInFlight(s) > 0 || Grants(s.up, s.reg)
  }

  /** The event closes the proxy while an answer is pending. */
  predicate Premature(s: State, e: Event)
  {
    match e
    case Check(timedOut) => s.cur.Some? && CheckSends(s.cur.value, timedOut) == [CloseProxy] && Pending(s)
    case Remove => s.cur.Some? && Pending(s.(fetched := None))
    case _ => false
  }

  predicate Faithful(s: State)
  {
    && NoCloseAfterGrant(s.up, s.reg)
    && (Pending(s) ==> InPhase(s, WaitStart) || InPhase(s, StartErr))
    && (InPhase(s, Running) ==> s.reg && CloseProxy !in s.up)
    && OksInFlight(s) <= 1
    && (OksInFlight(s) == 1 ==> s.reg && CloseProxy !in s.up)
  }

  // ----- queues

  lemma {:induction false} PushStart(up: seq<Up>, reg: bool)
    requires NoCloseAfterGrant(up, reg)
    ensures NoCloseAfterGrant(up + [StartProxy], reg)
  {
    if up != [] {
      assert (up + [StartProxy])[1..] == up[1..] + [StartProxy];
      if up[0].CloseProxy? { PushStart(up[1..], false); }
      else if reg { PushStart(up[1..], true); }
    }
  }

  lemma {:induction false} PushClose(up: seq<Up>, reg: bool)
    requires NoCloseAfterGrant(up, reg) && !Grants(up, reg)
    ensures NoCloseAfterGrant(up + [CloseProxy], reg) && !Grants(up + [CloseProxy], reg)
  {
    if up != [] {
      assert (up + [CloseProxy])[1..] == up[1..] + [CloseProxy];
      if up[0].CloseProxy? { PushClose(up[1..], false); } else { PushClose(up[1..], true); }
    }
  }

  lemma {:induction false} NoClose(up: seq<Up>, reg: bool)
    requires CloseProxy !in up
    ensures NoCloseAfterGrant(up, reg) && !Grants(up, true)
  {
    if up != [] {
      NoClose(up[1..], reg);
    }
  }

  lemma {:induction false} OksPush(down: seq<bool>, ok: bool)
    ensures Oks(down + [ok]) == Oks(down) + if ok then 1 else 0
  {
    if down != [] {
      assert (down + [ok])[1..] == down[1..] + [ok];
      OksPush(down[1..], ok);
    }
  }

  // ----- each event keeps Faithful

  /** The wrapper starts to wait for an answer. */
  lemma AskFaithful(s: State, w: Wrapper)
    requires Faithful(s) && !InPhase(s, Running) && w.phase.WaitStart?
    ensures Faithful(s.(cur := Some(w), up := s.up + [StartProxy]))
  {
    PushStart(s.up, s.reg);
  }

  /** The wrapper is closed with no answer pending. */
  lemma CloseFaithful(s: State, cur: Option<Wrapper>)
    requires Faithful(s) && !Pending(s) && (cur.Some? ==> cur.value.phase.CheckFailed?)
    ensures Faithful(s.(cur := cur, up := s.up + [CloseProxy]))
  {
    PushClose(s.up, s.reg);
  }

  lemma CheckCases(w: Wrapper, timedOut: bool)
    ensures CheckSends(w, timedOut) == [StartProxy] ==> CheckPhase(w, timedOut).WaitStart? && !w.phase.Running?
    ensures CheckSends(w, timedOut) == [CloseProxy] ==> CheckPhase(w, timedOut).CheckFailed?
    ensures CheckSends(w, timedOut) == [StartProxy] || CheckSends(w, timedOut) == [CloseProxy]
      || (CheckSends(w, timedOut) == [] && CheckPhase(w, timedOut) == w.phase)
  {
  }

  lemma CheckFaithful(s: State, timedOut: bool)
    requires Faithful(s) && !Premature(s, Check(timedOut))
    ensures Faithful(Next(s, Check(timedOut)))
  {
    if s.cur.Some? {
      var w := s.cur.value;
      CheckCases(w, timedOut);
      if CheckSends(w, timedOut) == [StartProxy] {
        AskFaithful(s, w.(phase := CheckPhase(w, timedOut)));
      } else if CheckSends(w, timedOut) == [CloseProxy] {
        CloseFaithful(s, Some(w.(phase := CheckPhase(w, timedOut))));
      } else {
        assert s.up + [] == s.up;
        assert Next(s, Check(timedOut)) == s;
      }
    }
  }

  lemma ServeFaithful(s: State, accepts: bool)
    requires Faithful(s)
    ensures Faithful(Next(s, Serve(accepts)))
  {
    if s.up != [] && s.up[0].StartProxy? {
      OksPush(s.down, accepts && !s.reg);
      if !s.reg {
        NoClose(s.up[1..], true);
        NoClose(s.up[1..], false);
      }
    }
  }

  lemma FetchFaithful(s: State)
    requires Faithful(s)
    ensures Faithful(Next(s, Fetch))
  {
  }

  lemma SetStatusFaithful(s: State, runs: bool)
    requires Faithful(s)
    ensures Faithful(Next(s, SetStatus(runs)))
  {
    if s.fetched.Some? && s.cur.Some? {
      var w := s.cur.value;
      if StatusSends(w, s.fetched.value, runs) == [CloseProxy] {
        NoClose(s.up, true);
        PushClose(s.up, s.reg);
      } else {
        assert s.up + [] == s.up;
        if s.fetched.value { NoClose(s.up, true); }
      }
    }
  }

  lemma RemoveFaithful(s: State)
    requires Faithful(s) && !Premature(s, Remove)
    ensures Faithful(Next(s, Remove))
  {
    if s.cur.Some? {
      PushClose(s.up, s.reg);
    }
  }

  lemma NextFaithful(s: State, e: Event)
    requires Faithful(s) && !Premature(s, e)
    ensures Faithful(Next(s, e))
  {
    match e {
      case Check(timedOut) => CheckFaithful(s, timedOut);
      case Serve(accepts) => ServeFaithful(s, accepts);
      case Fetch => FetchFaithful(s);
      case SetStatus(runs) => SetStatusFaithful(s, runs);
      case Remove => RemoveFaithful(s);
      case Health(_) =>
      case Add(_) =>
      case Skip =>
    }
  }

  // ----- runs

  ghost predicate NeverPremature(events: seq<Event>)
  {
    events == [] ||
    (NeverPremature(events[..|events| - 1]) && !Premature(Run(events[..|events| - 1]), events[|events| - 1]))
  }

  lemma {:induction false} AlwaysFaithful(events: seq<Event>)
    requires NeverPremature(events)
    ensures Faithful(Run(events))
  {
    if events != [] {
      AlwaysFaithful(events[..|events| - 1]);
      NextFaithful(Run(events[..|events| - 1]), events[|events| - 1]);
    }
  }

  /** Unless a proxy was closed while an answer was pending, running means registered and not being closed. */
  lemma RunningMeansRegistered(events: seq<Event>)
    requires NeverPremature(events) && InPhase(Run(events), Running)
    ensures Run(events).reg && CloseProxy !in Run(events).up
  {
    AlwaysFaithful(events);
  }

  /** A wrapper without a health check counts as healthy. */
  predicate Sound(s: State)
  {
    s.cur.Some? && !s.cur.value.checked ==> s.cur.value.healthy
  }

  lemma NextSound(s: State, e: Event)
    requires Sound(s)
    ensures Sound(Next(s, e))
  {
  }

  lemma {:induction false} AlwaysSound(events: seq<Event>)
    ensures Sound(Run(events))
  {
    if events != [] {
      AlwaysSound(events[..|events| - 1]);
      NextSound(Run(events[..|events| - 1]), events[|events| - 1]);
    }
  }

  predicate Unchecked(s: State)
  {
    s.cur.Some? ==> !s.cur.value.checked && s.cur.value.healthy
  }

  /** The wrapper has no health check and stays in the manager's map. */
  predicate Plain(events: seq<Event>)
  {
    forall e :: e in events ==> !e.Remove? && e != Add(true)
  }

  lemma {:induction false} PlainIsNeverPremature(events: seq<Event>)
    requires Plain(events)
    ensures NeverPremature(events) && Unchecked(Run(events))
  {
    if events != [] {
      var n := |events| - 1;
      assert forall e :: e in events[..n] ==> e in events;
      PlainIsNeverPremature(events[..n]);
      assert events[n] in events;
    }
  }

  /** Without a health check and a reload that drops it, a running proxy is registered: for any resends, refusals and failures. */
  lemma PlainRunningMeansRegistered(events: seq<Event>)
    requires Plain(events) && InPhase(Run(events), Running)
    ensures Run(events).reg && CloseProxy !in Run(events).up
  {
    PlainIsNeverPremature(events);
    RunningMeansRegistered(events);
  }

  // ----- a premature close can always end in a proxy that runs while frps drops it

  function RunFrom(s: State, events: seq<Event>): State
    decreases |events|
  {
    if events == [] then s else RunFrom(Next(s, events[0]), events[1..])
  }

  ghost predicate NeverPrematureFrom(s: State, events: seq<Event>)
    decreases |events|
  {
    events == [] || (!Premature(s, events[0]) && NeverPrematureFrom(Next(s, events[0]), events[1..]))
  }

  predicate Broken(s: State)
  {
    InPhase(s, Running) && !(s.reg && CloseProxy !in s.up)
  }

  /** Some continuation, with no further premature close, ends broken. */
  ghost predicate Breaks(s: State)
  {
    exists events: seq<Event> :: NeverPrematureFrom(s, events) && Broken(RunFrom(s, events))
  }

  lemma BreaksNow(s: State)
    requires Broken(s)
    ensures Breaks(s)
  {
    var none: seq<Event> := [];
    assert NeverPrematureFrom(s, none) && Broken(RunFrom(s, none));
  }

  lemma BreaksNext(s: State, e: Event)
    requires !Premature(s, e) && Breaks(Next(s, e))
    ensures Breaks(s)
  {
    var events: seq<Event> :| NeverPrematureFrom(Next(s, e), events) && Broken(RunFrom(Next(s, e), events));
    assert ([e] + events)[1..] == events;
    assert NeverPrematureFrom(s, [e] + events) && Broken(RunFrom(s, [e] + events));
  }

  predicate Stale(s: State)
  {
    s.cur.Some? && Sound(s) && !InPhase(s, Running) && !InPhase(s, Closed) && CloseProxy in s.up
  }

  lemma BackToWaiting(s: State)
    requires Stale(s) && !InPhase(s, WaitStart)
    ensures var s' := Next(Next(s, Health(true)), Check(true));
      Stale(s') && InPhase(s', WaitStart) && s'.down == s.down && s'.fetched == s.fetched
    ensures !Premature(s, Health(true)) && !Premature(Next(s, Health(true)), Check(true))
  {
  }

  /** A positive answer that arrives while CloseProxy is on its way makes the proxy run. */
  lemma {:induction false} StaleOkBreaks(s: State)
    requires Stale(s) && OksInFlight(s) > 0
    ensures Breaks(s)
    decreases 2 * |s.down| + (if s.fetched.Some? then 1 else 0), if InPhase(s, WaitStart) then 0 else 1
  {
    if !InPhase(s, WaitStart) {
      BackToWaiting(s);
      StaleOkBreaks(Next(Next(s, Health(true)), Check(true)));
      BreaksNext(Next(s, Health(true)), Check(true));
      BreaksNext(s, Health(true));
    } else if s.fetched.None? {
      StaleOkBreaks(Next(s, Fetch));
      BreaksNext(s, Fetch);
    } else if s.fetched.value {
      assert s.up + [] == s.up;
      BreaksNow(Next(s, SetStatus(true)));
      BreaksNext(s, SetStatus(true));
    } else {
      assert s.up + [] == s.up;
      StaleOkBreaks(Next(s, SetStatus(true)));
      BreaksNext(s, SetStatus(true));
    }
  }

  /** A request that frps grants before the CloseProxy behind it does the same. */
  lemma {:induction false} StaleGrantBreaks(s: State, before: seq<Up>)
    requires Stale(s) && s.up == before + [CloseProxy] && (OksInFlight(s) > 0 || Grants(before, s.reg))
    ensures Breaks(s)
    decreases |before|
  {
    if OksInFlight(s) > 0 {
      StaleOkBreaks(s);
    } else {
      var s' := Next(s, Serve(true));
      assert s.up[1..] == before[1..] + [CloseProxy];
      OksPush(s.down, !s.reg);
      StaleGrantBreaks(s', before[1..]);
      BreaksNext(s, Serve(true));
    }
  }

  lemma PrematureCheckBreaks(s: State, timedOut: bool)
    requires Faithful(s) && Sound(s) && Premature(s, Check(timedOut))
    ensures Breaks(Next(s, Check(timedOut)))
  {
    StaleGrantBreaks(Next(s, Check(timedOut)), s.up);
  }

  lemma PrematureRemoveBreaks(s: State)
    requires Faithful(s) && Premature(s, Remove)
    ensures Breaks(Next(s, Remove))
  {
    var s' := Next(s, Remove);
    StaleGrantBreaks(Next(s', Add(false)), s.up);
    BreaksNext(s', Add(false));
  }

  lemma {:induction false} FaithfulNeverBreaks(s: State, events: seq<Event>)
    requires Faithful(s) && NeverPrematureFrom(s, events)
    ensures !Broken(RunFrom(s, events))
    decreases |events|
  {
    if events != [] {
      NextFaithful(s, events[0]);
      FaithfulNeverBreaks(Next(s, events[0]), events[1..]);
    }
  }

  /** Closing a proxy can be followed by one that runs unregistered exactly if an answer was pending. */
  lemma ClosingIsSafeIff(s: State, e: Event)
    requires Faithful(s) && Sound(s)
    ensures Breaks(Next(s, e)) <==> Premature(s, e)
  {
    if Premature(s, e) {
      match e {
        case Check(timedOut) => PrematureCheckBreaks(s, timedOut);
        case Remove => PrematureRemoveBreaks(s);
      }
    } else {
      NextFaithful(s, e);
      forall events: seq<Event> | NeverPrematureFrom(Next(s, e), events) ensures !Broken(RunFrom(Next(s, e), events)) {
        FaithfulNeverBreaks(Next(s, e), events);
      }
    }
  }

  /** In a run that was never premature so far, a step can be followed by an unregistered running proxy exactly if it is premature. */
  lemma NextStepIsSafeIff(events: seq<Event>, e: Event)
    requires NeverPremature(events)
    ensures Breaks(Next(Run(events), e)) <==> Premature(Run(events), e)
  {
    AlwaysFaithful(events);
    AlwaysSound(events);
    ClosingIsSafeIff(Run(events), e);
  }

  lemma {:induction false} RunContinues(before: seq<Event>, after: seq<Event>)
    ensures Run(before + after) == RunFrom(Run(before), after)
    decreases |after|
  {
    if after == [] {
      assert before + after == before;
    } else {
      RunContinues(before + [after[0]], after[1..]);
      assert before + after == (before + [after[0]]) + after[1..];
      assert (before + [after[0]])[..|before|] == before;
    }
  }

  lemma Pair(s: State, a: Event, b: Event, rest: seq<Event>)
    ensures RunFrom(s, [a, b] + rest) == RunFrom(Next(Next(s, a), b), rest)
  {
    assert ([a, b] + rest)[1..] == [b] + rest;
    assert ([b] + rest)[1..] == rest;
  }

  /** A health check fails once while the answer is on its way, and recovers; then everything is delivered. */
  function Flapping(): seq<Event>
  {
    [Add(true), Health(true)] + ([Check(false), Serve(true)] + ([Health(false), Check(false)] +
    ([Health(true), Check(false)] + ([Fetch, SetStatus(true)] + ([Serve(true), Serve(false)] + ([Fetch, SetStatus(true)] + []))))))
  }

  /** The health check fails after frps has granted the request. */
  lemma FlapsWhileGranted(rest: seq<Event>)
    ensures RunFrom(Empty(), [Add(true), Health(true)] + ([Check(false), Serve(true)] + ([Health(false), Check(false)] + rest)))
      == RunFrom(State(Some(Wrapper(CheckFailed, true, false)), [CloseProxy], [true], None, true), rest)
  {
    var r2 := [Health(false), Check(false)] + rest;
    Pair(Empty(), Add(true), Health(true), [Check(false), Serve(true)] + r2);
    Pair(State(Some(Wrapper(New, true, true)), [], [], None, false), Check(false), Serve(true), r2);
    var granted := State(Some(Wrapper(WaitStart, true, true)), [], [true], None, true);
    assert Next(State(Some(Wrapper(New, true, true)), [], [], None, false), Check(false)).up == [StartProxy];
    assert Next(Next(State(Some(Wrapper(New, true, true)), [], [], None, false), Check(false)), Serve(true)) == granted;
    Pair(granted, Health(false), Check(false), rest);
    assert Next(Next(granted, Health(false)), Check(false)).up == [CloseProxy];
  }

  /** It recovers, and the old answer starts the proxy. */
  lemma StaleAnswerStarts(rest: seq<Event>)
    ensures RunFrom(State(Some(Wrapper(CheckFailed, true, false)), [CloseProxy], [true], None, true),
                    [Health(true), Check(false)] + ([Fetch, SetStatus(true)] + rest))
      == RunFrom(State(Some(Wrapper(Running, true, true)), [CloseProxy, StartProxy], [], None, true), rest)
  {
    var s0 := State(Some(Wrapper(CheckFailed, true, false)), [CloseProxy], [true], None, true);
    var s1 := State(Some(Wrapper(WaitStart, true, true)), [CloseProxy, StartProxy], [true], None, true);
    Pair(s0, Health(true), Check(false), [Fetch, SetStatus(true)] + rest);
    Pair(s1, Fetch, SetStatus(true), rest);
    assert Next(Next(s0, Health(true)), Check(false)).up == [CloseProxy, StartProxy];
    assert s1.up + [] == s1.up;
  }

  /** frps closes the proxy, refuses the new request, and the client ignores the refusal. */
  lemma RefusalIgnored()
    ensures RunFrom(State(Some(Wrapper(Running, true, true)), [CloseProxy, StartProxy], [], None, true),
                    [Serve(true), Serve(false)] + ([Fetch, SetStatus(true)] + []))
      == State(Some(Wrapper(Running, true, true)), [], [], None, false)
  {
    var s0 := State(Some(Wrapper(Running, true, true)), [CloseProxy, StartProxy], [], None, true);
    var s1 := State(Some(Wrapper(Running, true, true)), [], [false], None, false);
    Pair(s0, Serve(true), Serve(false), [Fetch, SetStatus(true)] + []);
    assert s0.up[1..] == [StartProxy];
    assert Next(Next(s0, Serve(true)), Serve(false)) == s1;
    Pair(s1, Fetch, SetStatus(true), []);
    assert [false][1..] == [] && s1.up + [] == s1.up;
  }

  /** After it the proxy runs for ever, with both queues empty and nothing registered. */
  lemma FlappingEndsUnregistered()
    ensures Run(Flapping()) == State(Some(Wrapper(Running, true, true)), [], [], None, false)
  {
    RunContinues([], Flapping());
    assert [] + Flapping() == Flapping();
    var r3 := [Serve(true), Serve(false)] + ([Fetch, SetStatus(true)] + []);
    FlapsWhileGranted([Health(true), Check(false)] + ([Fetch, SetStatus(true)] + r3));
    StaleAnswerStarts(r3);
    RefusalIgnored();
  }
}
