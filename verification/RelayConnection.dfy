/**
  * The connect / disconnect / reconnect machine of a relay.
  *
  * The JavaScript code runs to completion between event-loop turns, except where it calls
  * the caller's own event handlers: those may call connect() or disconnect() again before
  * the rest of the callback runs.  The model therefore splits every callback at its
  * `triggerEvent` call: the first half pushes a frame that remembers what is left to do,
  * `Resume` runs the second half once the handlers have returned.
  *
  * Socket events, timeouts, reconnect timers and promise continuations may arrive in any
  * order and any number of times, including after they were cleared or detached.
  */
module RelayConnection {
  import opened Wrappers

  /** What remains of a callback that is waiting for the caller's handlers to return. */
  datatype Frame =
    | Opening(attempt: nat)
    | Closing(attempt: nat, wasConnected: bool, byUser: bool)
    | TimingOut(attempt: nat)
    | Erroring(attempt: nat)

  datatype Outcome = Pending | Resolved | Rejected

  /** The closure state of one connect() call, named by the attempt number it was given. */
  datatype Attempt = Attempt(
    generation: nat,      // disconnectGeneration when connect() was called
    hasSocket: bool,      // a socket was created and its handlers installed
    timerArmed: bool,     // the connection timer is set and neither cleared nor fired
    closeHandled: bool,
    outcome: Outcome,     // of the connection promise; the first settlement wins
    caught: bool)         // the catch() continuation has run

  datatype State = State(
    ws: Option<nat>,                  // the attempt whose socket is held
    connected: bool,
    connectionAttempt: nat,
    disconnectGeneration: nat,
    connectionPromise: Option<nat>,   // the attempt whose promise is held
    finalizer: Option<nat>,           // the attempt whose finalizeClose is held
    flushArmed: bool,
    reconnectAttempts: nat,
    reconnectTimer: Option<nat>,      // index into timers
    timers: seq<nat>,                 // generation captured by every reconnect timer ever set
    autoReconnect: bool,
    maxReconnectAttempts: nat,
    attempts: map<nat, Attempt>,
    frames: seq<Frame>)               // innermost callback last

  datatype Step =
    // calls by the owner of the relay, possible at any time, also inside its handlers
    | CallConnect(created: bool)
    | CallDisconnect
    | SetAutoReconnect(enable: bool)
    | SetMaxReconnectAttempts(max: nat)
    // the caller's handlers return
    | Resume
    // event-loop turns, possible only when no callback is running
    | OnOpen(a: nat)
    | OnClose(a: nat)
    | OnError(a: nat)
    | OnTimeout(a: nat)
    | OnCatch(a: nat)
    | OnSettled(a: nat)
    | OnReconnectTimer(t: nat, created: bool)

  function Init(autoReconnect: bool, max: nat): State {
    State(None, false, 0, 0, None, None, false, 0, None, [], autoReconnect, max, map[], [])
  }

  function Settle(at: Attempt, outcome: Outcome): Attempt {
    if at.outcome == Pending then at.(outcome := outcome) else at
  }

  function SettleAttempt(s: State, a: nat, outcome: Outcome): State {
    if a in s.attempts then s.(attempts := s.attempts[a := Settle(s.attempts[a], outcome)]) else s
  }

  function ClearFinalizer(f: Option<nat>, a: nat): Option<nat> {
    if f == Some(a) then None else f
  }

  function ScheduleReconnect(s: State): State {
    if s.maxReconnectAttempts > 0 && s.reconnectAttempts >= s.maxReconnectAttempts
    then s.(reconnectTimer := None)
    else s.(reconnectTimer := Some(|s.timers|), timers := s.timers + [s.disconnectGeneration])
  }

  function Connect(s: State, created: bool): State {
    if s.connected || s.connectionPromise.Some? then s
    else
      var a := s.connectionAttempt + 1;
      var held := if created then Some(a) else None;
      s.(connectionAttempt := a, ws := held, finalizer := held, connectionPromise := Some(a),
         attempts := s.attempts[a := Attempt(s.disconnectGeneration, created, created, false,
                                             if created then Pending else Rejected, false)])
  }

  /** clearTimeout, or the timer going off. */
  function Disarm(s: State, a: nat): State {
    if a in s.attempts then s.(attempts := s.attempts[a := s.attempts[a].(timerArmed := false)]) else s
  }

  /** finalizeClose up to its Disconnect event. */
  function BeginClose(s: State, a: nat, byUser: bool): State {
    if a !in s.attempts || s.attempts[a].closeHandled || (!byUser && a != s.connectionAttempt) then s
    else s.(connected := false, flushArmed := false,
            attempts := s.attempts[a := s.attempts[a].(closeHandled := true, timerArmed := false)],
            frames := s.frames + [Closing(a, s.connected, byUser)])
  }

  /** What disconnect() changes before it hands over to the held finalizer. */
  function TearDown(s: State): State {
    s.(disconnectGeneration := s.disconnectGeneration + 1,
       connectionAttempt := s.connectionAttempt + 1,
       connectionPromise := None, reconnectTimer := None,
       connected := false, flushArmed := false, ws := None)
  }

  function Disconnect(s: State): State {
    if s.ws.Some? && s.finalizer.Some? then BeginClose(TearDown(s), s.finalizer.value, true) else TearDown(s)
  }

  function BeginOpen(s: State, a: nat): State {
    if a != s.connectionAttempt then s
    else Disarm(s, a).(connected := true, flushArmed := true, reconnectAttempts := 0, reconnectTimer := None,
                       frames := s.frames + [Opening(a)])
  }

  function BeginError(s: State, a: nat): State {
    if a != s.connectionAttempt then s else Disarm(s, a).(frames := s.frames + [Erroring(a)])
  }

  function BeginTimeout(s: State, a: nat): State {
    if a != s.connectionAttempt || s.ws.None? || s.connected then Disarm(s, a)
    else Disarm(s, a).(frames := s.frames + [TimingOut(a)])
  }

  /** The attempt failed before it was connected: later socket events of it are ignored. */
  function FailAttempt(s: State, a: nat): State {
    SettleAttempt(s.(connectionPromise := None, finalizer := ClearFinalizer(s.finalizer, a),
                     connectionAttempt := s.connectionAttempt + 1), a, Rejected)
  }

  function EndClose(s: State, f: Frame): State
    requires f.Closing?
  {
    var freed := s.(finalizer := ClearFinalizer(s.finalizer, f.attempt));
    if !f.wasConnected then FailAttempt(freed, f.attempt)
    else if s.autoReconnect && !f.byUser then ScheduleReconnect(freed)
    else freed
  }

  function EndFrame(s: State, f: Frame): State {
    match f
    case Opening(a) => SettleAttempt(s, a, Resolved)
    case Closing(_, _, _) => EndClose(s, f)
    case TimingOut(a) => FailAttempt(s.(ws := None), a)
    case Erroring(a) => if !s.connected && s.connectionPromise.Some? then FailAttempt(s, a) else s
  }

  function ResumeTop(s: State): State
    requires s.frames != []
  {
    var n := |s.frames| - 1;
    EndFrame(s.(frames := s.frames[..n]), s.frames[n])
  }

  function Catch(s: State, a: nat): State {
    if a !in s.attempts || s.attempts[a].outcome != Rejected || s.attempts[a].caught then s
    else
      var done := s.(attempts := s.attempts[a := s.attempts[a].(caught := true)]);
      if s.attempts[a].generation == s.disconnectGeneration && s.autoReconnect
      then ScheduleReconnect(done) else done
  }

  function Settled(s: State, a: nat): State {
    if a !in s.attempts || s.attempts[a].outcome == Pending || s.connectionPromise != Some(a)
       || (s.attempts[a].outcome == Rejected && !s.attempts[a].caught)
    then s else s.(connectionPromise := None)
  }

  function ReconnectTimer(s: State, t: nat, created: bool): State {
    if s.reconnectTimer != Some(t) || t >= |s.timers| then s
    else if s.timers[t] != s.disconnectGeneration then s.(reconnectTimer := None)
    else Connect(s.(reconnectTimer := None, reconnectAttempts := s.reconnectAttempts + 1), created)
  }

  /** A socket handler exists only for attempts that created a socket. */
  predicate HasSocket(s: State, a: nat) {
    a in s.attempts && s.attempts[a].hasSocket
  }

  predicate ByCaller(e: Step) {
    e.CallConnect? || e.CallDisconnect? || e.SetAutoReconnect? || e.SetMaxReconnectAttempts?
  }

  /** Run-to-completion: event-loop turns wait until no callback is running. */
  predicate Enabled(s: State, e: Step) {
    match e
    case Resume => s.frames != []
    case OnOpen(a) => s.frames == [] && HasSocket(s, a)
    case OnClose(a) => s.frames == [] && HasSocket(s, a)
    case OnError(a) => s.frames == [] && HasSocket(s, a)
    case OnTimeout(a) => s.frames == [] && HasSocket(s, a)
    case OnCatch(_) => s.frames == []
    case OnSettled(_) => s.frames == []
    case OnReconnectTimer(_, _) => s.frames == []
    case _ => true
  }

  function Next(s: State, e: Step): State {
    if !Enabled(s, e) then s else
    match e
    case CallConnect(created) => Connect(s, created)
    case CallDisconnect => Disconnect(s)
    case SetAutoReconnect(enable) =>
      s.(autoReconnect := enable, reconnectTimer := if enable then s.reconnectTimer else None)
    case SetMaxReconnectAttempts(max) => s.(maxReconnectAttempts := max)
    case Resume => ResumeTop(s)
    case OnOpen(a) => BeginOpen(s, a)
    case OnClose(a) => BeginClose(s, a, false)
    case OnError(a) => BeginError(s, a)
    case OnTimeout(a) => BeginTimeout(s, a)
    case OnCatch(a) => Catch(s, a)
    case OnSettled(a) => Settled(s, a)
    case OnReconnectTimer(t, created) => ReconnectTimer(s, t, created)
  }

  function Run(s: State, steps: seq<Step>): State
    decreases |steps|
  {
    if steps == [] then s else Run(Next(s, steps[0]), steps[1..])
  }

  // ---------------------------------------------------------------- invariant

  predicate LostLive(f: Frame) {
    f.Closing? && f.wasConnected && !f.byUser
  }

  ghost predicate Inv(s: State) {
    && (forall a :: a in s.attempts ==> a <= s.connectionAttempt && s.attempts[a].generation <= s.disconnectGeneration)
    && (HasSocket(s, s.connectionAttempt) ==> s.ws == Some(s.connectionAttempt))
    && (s.connected ==> s.ws.Some?)
    && (s.flushArmed <==> s.connected)
    && (s.reconnectTimer.Some? ==> s.reconnectTimer.value < |s.timers|)
    && (forall i :: 0 <= i < |s.frames| && s.frames[i].TimingOut? ==> !s.connected)
    && (forall i :: 0 <= i < |s.frames| && LostLive(s.frames[i]) ==> !s.connected)
    && (s.finalizer.Some? ==> s.finalizer.value in s.attempts)
  }

  lemma {:induction false} ConnectKeepsInv(s: State, created: bool)
    requires Inv(s)
    ensures Inv(Connect(s, created))
  {
  }

  lemma {:induction false} BeginCloseKeepsInv(s: State, a: nat, byUser: bool)
    requires Inv(s)
    ensures Inv(BeginClose(s, a, byUser))
  {
  }

  lemma {:induction false} ScheduleKeepsInv(s: State)
    requires Inv(s)
    ensures Inv(ScheduleReconnect(s))
  {
  }

  lemma {:induction false} FailKeepsInv(s: State, a: nat)
    requires Inv(s)
    ensures Inv(FailAttempt(s, a))
  {
  }

  lemma {:induction false} EndFrameKeepsInv(s: State, f: Frame)
    requires Inv(s) && (f.TimingOut? || LostLive(f) ==> !s.connected)
    ensures Inv(EndFrame(s, f))
  {
    match f {
      case Opening(a) =>
      case Closing(a, _, _) =>
        var freed := s.(finalizer := ClearFinalizer(s.finalizer, a));
        FailKeepsInv(freed, a);
        ScheduleKeepsInv(freed);
      case TimingOut(a) =>
        FailAfterTimeout(s, a);
      case Erroring(a) => FailKeepsInv(s, a);
    }
  }

  lemma {:induction false} FailAfterTimeout(s: State, a: nat)
    requires Inv(s) && !s.connected
    ensures Inv(FailAttempt(s.(ws := None), a))
  {
  }

  lemma {:induction false} DisconnectKeepsInv(s: State)
    requires Inv(s)
    ensures Inv(Disconnect(s))
  {
    var torn := TearDown(s);
    assert Inv(torn);
    if s.ws.Some? && s.finalizer.Some? {
      BeginCloseKeepsInv(torn, s.finalizer.value, true);
    }
  }

  lemma {:induction false} CatchKeepsInv(s: State, a: nat)
    requires Inv(s)
    ensures Inv(Catch(s, a))
  {
    if a in s.attempts {
      var done := s.(attempts := s.attempts[a := s.attempts[a].(caught := true)]);
      assert Inv(done);
      ScheduleKeepsInv(done);
    }
  }

  lemma {:induction false} ReconnectTimerKeepsInv(s: State, t: nat, created: bool)
    requires Inv(s)
    ensures Inv(ReconnectTimer(s, t, created))
  {
    var fired := s.(reconnectTimer := None);
    assert Inv(fired);
    var counted := fired.(reconnectAttempts := s.reconnectAttempts + 1);
    assert Inv(counted);
    ConnectKeepsInv(counted, created);
  }

  lemma {:induction false} DisarmKeepsInv(s: State, a: nat)
    requires Inv(s)
    ensures Inv(Disarm(s, a)) && (HasSocket(s, a) ==> HasSocket(Disarm(s, a), a))
  {
  }

  lemma {:induction false} BeginOpenKeepsInv(s: State, a: nat)
    requires Inv(s) && s.frames == [] && HasSocket(s, a)
    ensures Inv(BeginOpen(s, a))
  {
    DisarmKeepsInv(s, a);
  }

  lemma {:induction false} BeginErrorKeepsInv(s: State, a: nat)
    requires Inv(s) && s.frames == []
    ensures Inv(BeginError(s, a)) && Inv(BeginTimeout(s, a))
  {
    DisarmKeepsInv(s, a);
  }

  lemma {:induction false} CallKeepsInv(s: State, e: Step)
    requires Inv(s) && ByCaller(e)
    ensures Inv(Next(s, e))
  {
    match e {
      case CallConnect(created) => ConnectKeepsInv(s, created);
      case CallDisconnect => DisconnectKeepsInv(s);
      case _ =>
    }
  }

  lemma {:induction false} ResumeKeepsInv(s: State)
    requires Inv(s) && s.frames != []
    ensures Inv(ResumeTop(s))
  {
    var n := |s.frames| - 1;
    var rest := s.(frames := s.frames[..n]);
    assert Inv(rest);
    EndFrameKeepsInv(rest, s.frames[n]);
  }

  lemma {:induction false} SettledKeepsInv(s: State, a: nat)
    requires Inv(s)
    ensures Inv(Settled(s, a))
  {
  }

  lemma {:induction false} NextKeepsInv(s: State, e: Step)
    requires Inv(s)
    ensures Inv(Next(s, e))
  {
    if ByCaller(e) {
      CallKeepsInv(s, e);
    } else if Enabled(s, e) {
      match e {
        case Resume => ResumeKeepsInv(s);
        case OnOpen(a) => BeginOpenKeepsInv(s, a);
        case OnClose(a) => BeginCloseKeepsInv(s, a, false);
        case OnError(a) => BeginErrorKeepsInv(s, a);
        case OnTimeout(a) => BeginErrorKeepsInv(s, a);
        case OnCatch(a) => CatchKeepsInv(s, a);
        case OnSettled(a) => SettledKeepsInv(s, a);
        case OnReconnectTimer(t, created) => ReconnectTimerKeepsInv(s, t, created);
      }
    }
  }

  lemma {:induction false} RunKeepsInv(s: State, steps: seq<Step>)
    requires Inv(s)
    ensures Inv(Run(s, steps))
    decreases |steps|
  {
    if steps == [] {
    } else {
      NextKeepsInv(s, steps[0]);
      RunKeepsInv(Next(s, steps[0]), steps[1..]);
    }
  }

  /** In every reachable state a connected relay holds a socket, and the flush interval is armed exactly then. */
  lemma {:induction false} ConnectedStates(autoReconnect: bool, max: nat, steps: seq<Step>)
    ensures var s := Run(Init(autoReconnect, max), steps);
            (s.connected ==> s.ws.Some?) && (s.flushArmed <==> s.connected)
  {
    RunKeepsInv(Init(autoReconnect, max), steps);
  }

  // ---------------------------------------------------------------- reconnect budget

  ghost predicate WithinBudget(s: State) {
    s.maxReconnectAttempts > 0 ==>
      && s.reconnectAttempts <= s.maxReconnectAttempts
      && (s.reconnectTimer.Some? ==> s.reconnectAttempts < s.maxReconnectAttempts)
  }

  lemma {:induction false} NextKeepsBudget(s: State, e: Step)
    requires WithinBudget(s) && !e.SetMaxReconnectAttempts?
    ensures WithinBudget(Next(s, e)) && Next(s, e).maxReconnectAttempts == s.maxReconnectAttempts
  {
    if Enabled(s, e) && e.Resume? {
      var n := |s.frames| - 1;
      EndFrameKeepsBudget(s.(frames := s.frames[..n]), s.frames[n]);
    }
  }

  lemma {:induction false} EndFrameKeepsBudget(s: State, f: Frame)
    requires WithinBudget(s)
    ensures WithinBudget(EndFrame(s, f)) && EndFrame(s, f).maxReconnectAttempts == s.maxReconnectAttempts
  {
  }

  lemma {:induction false} RunKeepsBudget(s: State, steps: seq<Step>)
    requires WithinBudget(s) && forall e :: e in steps ==> !e.SetMaxReconnectAttempts?
    ensures WithinBudget(Run(s, steps)) && Run(s, steps).maxReconnectAttempts == s.maxReconnectAttempts
    decreases |steps|
  {
    if steps == [] {
    } else {
      NextKeepsBudget(s, steps[0]);
      RunKeepsBudget(Next(s, steps[0]), steps[1..]);
    }
  }

  /** With a fixed positive maximum the reconnect counter never exceeds it, in any run. */
  lemma {:induction false} ReconnectAttemptsBounded(autoReconnect: bool, max: nat, steps: seq<Step>)
    requires max > 0 && forall e :: e in steps ==> !e.SetMaxReconnectAttempts?
    ensures Run(Init(autoReconnect, max), steps).reconnectAttempts <= max
  {
    RunKeepsBudget(Init(autoReconnect, max), steps);
  }

  // ---------------------------------------------------------------- teardown

  /** Torn down: nothing left in the state can start an attempt or mark the relay connected. */
  ghost predicate TornDown(s: State) {
    && !s.connected
    && s.reconnectTimer.None?
    && s.connectionPromise.None?
    && (forall a :: a in s.attempts ==> a < s.connectionAttempt && s.attempts[a].generation < s.disconnectGeneration)
    && (s.finalizer.Some? ==> s.finalizer.value in s.attempts)
  }

  ghost predicate HasLostLive(frames: seq<Frame>) {
    exists i :: 0 <= i < |frames| && LostLive(frames[i])
  }

  lemma {:induction false} DisconnectTearsDown(s: State)
    requires Inv(s)
    ensures var d := Disconnect(s);
            TornDown(d) && d.attempts.Keys == s.attempts.Keys && (HasLostLive(d.frames) <==> HasLostLive(s.frames))
  {
    var d := Disconnect(s);
    if d.frames != s.frames {
      assert d.frames == s.frames + [Closing(s.finalizer.value, false, true)];
    }
    if HasLostLive(s.frames) {
      var i :| 0 <= i < |s.frames| && LostLive(s.frames[i]);
      assert LostLive(d.frames[i]);
    }
  }

  /** A lost live connection would still be retried. */
  predicate Retries(s: State) {
    s.autoReconnect && (s.maxReconnectAttempts == 0 || s.reconnectAttempts < s.maxReconnectAttempts)
  }

  lemma {:induction false} TornDownFails(s: State, a: nat)
    requires TornDown(s)
    ensures var r := FailAttempt(s, a);
            TornDown(r) && r.attempts.Keys == s.attempts.Keys && r.frames == s.frames && (Retries(r) <==> Retries(s))
  {
  }

  lemma {:induction false} TornDownEndFrame(s: State, f: Frame)
    requires TornDown(s)
    ensures var r := EndFrame(s, f);
            && (!LostLive(f) || !Retries(s) ==> TornDown(r))
            && r.attempts.Keys == s.attempts.Keys && r.frames == s.frames && (Retries(r) <==> Retries(s))
  {
    match f {
      case Opening(a) =>
      case Closing(a, wasConnected, _) =>
        if !wasConnected { TornDownFails(s.(finalizer := ClearFinalizer(s.finalizer, a)), a); }
      case TimingOut(a) => TornDownFails(s.(ws := None), a);
      case Erroring(a) => TornDownFails(s, a);
    }
  }

  /** No frame under way will reconnect: none is of a lost live connection, or none may be retried. */
  ghost predicate Spent(s: State) {
    HasLostLive(s.frames) ==> !Retries(s)
  }

  lemma {:induction false} TornDownResume(s: State)
    requires TornDown(s) && Spent(s) && s.frames != []
    ensures var n := Next(s, Resume);
            TornDown(n) && Spent(n) && n.attempts.Keys == s.attempts.Keys && (HasLostLive(n.frames) ==> HasLostLive(s.frames))
  {
    var n := |s.frames| - 1;
    var rest := s.(frames := s.frames[..n]);
    TornDownEndFrame(rest, s.frames[n]);
    if HasLostLive(rest.frames) {
      var i :| 0 <= i < |rest.frames| && LostLive(rest.frames[i]);
      assert LostLive(s.frames[i]);
    }
  }

  lemma {:induction false} TornDownStep(s: State, e: Step)
    requires TornDown(s) && Spent(s) && !e.CallConnect? && (ByCaller(e) ==> !HasLostLive(s.frames))
    ensures var n := Next(s, e);
            TornDown(n) && Spent(n) && n.attempts.Keys == s.attempts.Keys && (HasLostLive(n.frames) ==> HasLostLive(s.frames))
  {
    if Enabled(s, e) {
      match e {
        case Resume => TornDownResume(s);
        case CallDisconnect =>
          if Next(s, e).frames != s.frames {
            assert Next(s, e).frames == s.frames + [Closing(s.finalizer.value, false, true)];
          }
        case _ =>
      }
    }
  }

  lemma {:induction false} TornDownRun(s: State, steps: seq<Step>)
    requires TornDown(s) && Spent(s)
    requires forall e :: e in steps ==> !e.CallConnect? && (ByCaller(e) ==> !HasLostLive(s.frames))
    ensures TornDown(Run(s, steps)) && Run(s, steps).attempts.Keys == s.attempts.Keys
    decreases |steps|
  {
    if steps == [] {
    } else {
      TornDownStep(s, steps[0]);
      TornDownRun(Next(s, steps[0]), steps[1..]);
    }
  }

  /** However the run goes on, until the owner calls connect again: no attempt starts, nothing is connected. */
  ghost predicate StaysDown(s: State, attempts: set<nat>) {
    forall steps: seq<Step> :: (forall e :: e in steps ==> !e.CallConnect?) ==>
      !Run(s, steps).connected && Run(s, steps).attempts.Keys == attempts
  }

  /** The same while the owner makes no call at all. */
  ghost predicate StaysDownUntouched(s: State, attempts: set<nat>) {
    forall steps: seq<Step> :: (forall e :: e in steps ==> !ByCaller(e)) ==>
      !Run(s, steps).connected && Run(s, steps).attempts.Keys == attempts
  }

  function Drain(n: nat): seq<Step> {
    if n == 0 then [] else [Resume] + Drain(n - 1)
  }

  lemma {:induction false} RunConcat(s: State, xs: seq<Step>, ys: seq<Step>)
    ensures Run(s, xs + ys) == Run(Run(s, xs), ys)
    decreases |xs|
  {
    if xs == [] {
      assert xs + ys == ys;
    } else {
      assert (xs + ys)[1..] == xs[1..] + ys;
      RunConcat(Next(s, xs[0]), xs[1..], ys);
    }
  }

  lemma {:induction false} DrainStep(s: State)
    requires s.frames != []
    ensures Run(s, Drain(|s.frames|)) == Run(ResumeTop(s), Drain(|s.frames| - 1))
  {
    assert Drain(|s.frames|)[1..] == Drain(|s.frames| - 1);
  }

  ghost predicate Armed(s: State) {
    s.reconnectTimer.Some? && s.reconnectTimer.value < |s.timers| && s.timers[s.reconnectTimer.value] == s.disconnectGeneration
  }

  ghost predicate WillRearm(s: State) {
    && Retries(s)
    && !s.connected && s.connectionPromise.None?
    && (forall a :: a in s.attempts ==> a <= s.connectionAttempt)
    && (Armed(s) || HasLostLive(s.frames))
  }

  lemma {:induction false} ResumeRearms(s: State)
    requires WillRearm(s) && s.frames != []
    ensures var r := ResumeTop(s); WillRearm(r) && |r.frames| == |s.frames| - 1 && r.attempts.Keys == s.attempts.Keys
  {
    var n := |s.frames| - 1;
    var rest := s.(frames := s.frames[..n]);
    EndFrameRearms(rest, s.frames[n]);
    if !LostLive(s.frames[n]) && !Armed(s) {
      var i :| 0 <= i < |s.frames| && LostLive(s.frames[i]);
      assert LostLive(rest.frames[i]);
    }
  }

  lemma {:induction false} DrainRearms(s: State)
    requires WillRearm(s)
    ensures var d := Run(s, Drain(|s.frames|));
            WillRearm(d) && d.frames == [] && d.attempts.Keys == s.attempts.Keys
    decreases |s.frames|
  {
    if s.frames == [] {
    } else {
      DrainStep(s);
      ResumeRearms(s);
      DrainRearms(ResumeTop(s));
    }
  }

  lemma {:induction false} EndFrameRearms(s: State, f: Frame)
    requires Retries(s) && !s.connected && s.connectionPromise.None?
    requires forall a :: a in s.attempts ==> a <= s.connectionAttempt
    ensures var r := EndFrame(s, f);
            && r.frames == s.frames && r.attempts.Keys == s.attempts.Keys
            && Retries(r) && !r.connected && r.connectionPromise.None?
            && (forall a :: a in r.attempts ==> a <= r.connectionAttempt)
            && (Armed(s) || LostLive(f) ==> Armed(r))
  {
    match f {
      case Opening(a) =>
      case Closing(a, wasConnected, byUser) =>
        var freed := s.(finalizer := ClearFinalizer(s.finalizer, a));
        if !wasConnected { FailRearms(freed, a); } else if !byUser { ScheduleArms(freed); }
      case TimingOut(a) => FailRearms(s.(ws := None), a);
      case Erroring(a) => FailRearms(s, a);
    }
  }

  lemma {:induction false} FailRearms(s: State, a: nat)
    requires s.connectionPromise.None?
    ensures var r := FailAttempt(s, a);
            && r.frames == s.frames && r.attempts.Keys == s.attempts.Keys && r.connected == s.connected
            && (Retries(s) ==> Retries(r)) && r.connectionPromise.None? && r.connectionAttempt > s.connectionAttempt
            && (Armed(s) ==> Armed(r))
  {
  }

  lemma {:induction false} ScheduleArms(s: State)
    requires Retries(s)
    ensures Armed(ScheduleReconnect(s))
  {
  }

  lemma {:induction false} DrainHasNoConnect(n: nat)
    ensures forall e :: e in Drain(n) ==> e == Resume
  {
    if n == 0 {
    } else {
      DrainHasNoConnect(n - 1);
    }
  }

  lemma {:induction false} RearmedConnects(s: State) returns (steps: seq<Step>)
    requires WillRearm(s)
    ensures forall e :: e in steps ==> !ByCaller(e)
    ensures Run(s, steps).attempts.Keys != s.attempts.Keys
  {
    DrainRearms(s);
    DrainHasNoConnect(|s.frames|);
    var drained := Run(s, Drain(|s.frames|));
    var e := OnReconnectTimer(drained.reconnectTimer.value, true);
    var revived := Next(drained, e);
    assert drained.connectionAttempt + 1 in revived.attempts.Keys;
    assert drained.connectionAttempt + 1 !in s.attempts.Keys;
    steps := Drain(|s.frames|) + [e];
    RunConcat(s, Drain(|s.frames|), [e]);
    RunOne(drained, e);
  }

  /** A Disconnect handler of a lost live connection that calls disconnect() does not stop the reconnect. */
  lemma {:induction false} LostLiveRevives(s: State)
    requires TornDown(s) && HasLostLive(s.frames)
    ensures !StaysDown(s, s.attempts.Keys)
    ensures Retries(s) ==> !StaysDownUntouched(s, s.attempts.Keys)
  {
    var ready := s.(autoReconnect := true, maxReconnectAttempts := 0);
    var later := RearmedConnects(ready);
    var steps := [SetAutoReconnect(true), SetMaxReconnectAttempts(0)] + later;
    RunTwo(s, SetAutoReconnect(true), SetMaxReconnectAttempts(0));
    assert Next(Next(s, SetAutoReconnect(true)), SetMaxReconnectAttempts(0)) == ready;
    RunConcat(s, [SetAutoReconnect(true), SetMaxReconnectAttempts(0)], later);
    assert Run(s, steps).attempts.Keys != s.attempts.Keys && forall e :: e in steps ==> !e.CallConnect?;
    if Retries(s) {
      var alone := RearmedConnects(s);
      assert Run(s, alone).attempts.Keys != s.attempts.Keys;
    }
  }

  lemma {:induction false} RunOne(s: State, e: Step)
    ensures Run(s, [e]) == Next(s, e)
  {
    assert [e][1..] == [];
  }

  lemma {:induction false} RunTwo(s: State, e: Step, f: Step)
    ensures Run(s, [e, f]) == Next(Next(s, e), f)
  {
    assert [e, f][1..] == [f];
    RunOne(Next(s, e), f);
  }

  /**
    * Teardown over all runs: after disconnect() and until the owner calls connect again nothing starts an
    * attempt or connects, exactly when disconnect() was not called from inside a Disconnect handler that is
    * reporting the loss of a live connection.
    */
  lemma {:induction false} DisconnectIsFinal(autoReconnect: bool, max: nat, before: seq<Step>)
    ensures var s := Run(Init(autoReconnect, max), before);
            StaysDown(Disconnect(s), s.attempts.Keys) <==> !HasLostLive(s.frames)
  {
    var s := Run(Init(autoReconnect, max), before);
    RunKeepsInv(Init(autoReconnect, max), before);
    DisconnectTearsDown(s);
    var d := Disconnect(s);
    if HasLostLive(s.frames) {
      LostLiveRevives(d);
    } else {
      forall steps: seq<Step> | forall e :: e in steps ==> !e.CallConnect?
        ensures !Run(d, steps).connected && Run(d, steps).attempts.Keys == s.attempts.Keys
      {
        TornDownRun(d, steps);
      }
    }
  }

  /**
    * The same while the owner leaves the relay alone: then it matters as well whether reconnecting is enabled
    * and the reconnect budget is not used up.
    */
  lemma {:induction false} DisconnectIsFinalUntouched(autoReconnect: bool, max: nat, before: seq<Step>)
    ensures var s := Run(Init(autoReconnect, max), before);
            StaysDownUntouched(Disconnect(s), s.attempts.Keys) <==> !(HasLostLive(s.frames) && Retries(s))
  {
    var s := Run(Init(autoReconnect, max), before);
    RunKeepsInv(Init(autoReconnect, max), before);
    DisconnectTearsDown(s);
    var d := Disconnect(s);
    assert Retries(d) <==> Retries(s);
    if HasLostLive(s.frames) && Retries(s) {
      LostLiveRevives(d);
    } else {
      forall steps: seq<Step> | forall e :: e in steps ==> !ByCaller(e)
        ensures !Run(d, steps).connected && Run(d, steps).attempts.Keys == s.attempts.Keys
      {
        TornDownRun(d, steps);
      }
    }
  }

  /** A relay whose live connection was just lost; its Disconnect handler is running. */
  function LostConnection(): State {
    State(Some(1), false, 1, 0, None, Some(1), false, 0, None, [], true, 10,
          map[1 := Attempt(0, true, false, true, Resolved, false)], [Closing(1, true, false)])
  }

  /** A relay whose socket just opened; its Connect handler is running. */
  function JustOpened(): State {
    State(Some(1), true, 1, 0, Some(1), Some(1), true, 0, None, [], true, 10,
          map[1 := Attempt(0, true, false, false, Pending, false)], [Opening(1)])
  }

  lemma {:induction false} JustOpenedIsReachable()
    ensures Run(Init(true, 10), [CallConnect(true), OnOpen(1)]) == JustOpened()
  {
    var s1 := Next(Init(true, 10), CallConnect(true));
    assert s1.attempts == map[1 := Attempt(0, true, true, false, Pending, false)];
    assert Next(s1, OnOpen(1)).attempts == JustOpened().attempts;
    RunTwo(Init(true, 10), CallConnect(true), OnOpen(1));
  }

  lemma {:induction false} JustOpenedIsLost()
    ensures Run(JustOpened(), [Resume, OnSettled(1), OnClose(1)]) == LostConnection()
  {
    var s1 := Next(JustOpened(), Resume);
    assert s1 == JustOpened().(frames := [], attempts := map[1 := Attempt(0, true, false, false, Resolved, false)]);
    var s2 := Next(s1, OnSettled(1));
    assert s2 == s1.(connectionPromise := None);
    assert Next(s2, OnClose(1)).attempts == LostConnection().attempts;
    RunTwo(JustOpened(), Resume, OnSettled(1));
    RunOne(s2, OnClose(1));
    RunConcat(JustOpened(), [Resume, OnSettled(1)], [OnClose(1)]);
    assert [Resume, OnSettled(1)] + [OnClose(1)] == [Resume, OnSettled(1), OnClose(1)];
  }

  lemma {:induction false} LostConnectionIsReachable()
    ensures Run(Init(true, 10), [CallConnect(true), OnOpen(1), Resume, OnSettled(1), OnClose(1)]) == LostConnection()
  {
    JustOpenedIsReachable();
    JustOpenedIsLost();
    RunConcat(Init(true, 10), [CallConnect(true), OnOpen(1)], [Resume, OnSettled(1), OnClose(1)]);
    assert [CallConnect(true), OnOpen(1)] + [Resume, OnSettled(1), OnClose(1)]
        == [CallConnect(true), OnOpen(1), Resume, OnSettled(1), OnClose(1)];
  }

  /** The failing call, concretely: disconnect() in that handler, and the relay is connected again later. */
  lemma {:induction false} DisconnectInHandlerReconnects()
    ensures var down := Next(LostConnection(), CallDisconnect);
            var timed := Next(down, Resume);
            var again := Next(Next(timed, OnReconnectTimer(0, true)), OnOpen(3));
            !down.connected && down.reconnectTimer.None? && again.connected
  {
    var down := Next(LostConnection(), CallDisconnect);
    assert down.frames == [Closing(1, true, false)] && down.connectionAttempt == 2;
    var timed := Next(down, Resume);
    assert timed.frames == [] && timed.reconnectTimer == Some(0) && timed.timers == [1];
    var trying := Next(timed, OnReconnectTimer(0, true));
    assert trying.connectionAttempt == 3 && HasSocket(trying, 3);
  }

  // ---------------------------------------------------------------- connect() calls are settled

  predicate IsPending(s: State, a: nat) {
    HasOutcome(s, a, Pending)
  }

  predicate HasOutcome(s: State, a: nat, outcome: Outcome) {
    a in s.attempts && s.attempts[a].outcome == outcome
  }

  /** The owner calls into the relay only between callbacks, never from inside a handler. */
  predicate CallsBetweenTurns(s: State, steps: seq<Step>)
    decreases |steps|
  {
    steps != [] ==>
      && (s.frames != [] ==> !ByCaller(steps[0]))
      && CallsBetweenTurns(Next(s, steps[0]), steps[1..])
  }

  /** Every unsettled connect() call belongs to the attempt that is still current, or to the running callback. */
  ghost predicate Settleable(s: State) {
    && |s.frames| <= 1
    && (forall a :: IsPending(s, a) ==> Accounted(s, a))
  }

  predicate Accounted(s: State, a: nat) {
    if s.frames == [] then IsCurrent(s, a) else a in s.attempts && WillSettle(s, s.frames[0], a)
  }

  predicate IsCurrent(s: State, a: nat) {
    && HasSocket(s, a) && s.attempts[a].timerArmed && !s.attempts[a].closeHandled
    && a == s.connectionAttempt && s.ws == Some(a) && !s.connected
    && s.connectionPromise == Some(a) && s.finalizer == Some(a)
  }

  predicate WillSettle(s: State, f: Frame, a: nat) {
    && f.attempt == a
    && (f.Closing? ==> !f.wasConnected)
    && (f.Erroring? ==> !s.connected && s.connectionPromise.Some?)
  }

  lemma {:induction false} EndFrameSettles(s: State, f: Frame, a: nat)
    requires IsPending(s, a) ==> a in s.attempts && WillSettle(s, f, a)
    ensures !IsPending(EndFrame(s, f), a)
  {
  }

  lemma {:induction false} ResumeSettles(s: State)
    requires Settleable(s) && s.frames != []
    ensures Settleable(ResumeTop(s)) && ResumeTop(s).frames == []
    ensures forall a :: !IsPending(ResumeTop(s), a)
  {
    var r, rest, f := ResumeTop(s), s.(frames := s.frames[..|s.frames| - 1]), s.frames[0];
    assert r == EndFrame(rest, f);
    forall a ensures !IsPending(r, a) {
      if IsPending(s, a) { assert Accounted(s, a); }
      EndFrameSettles(rest, f, a);
    }
  }

  lemma {:induction false} CallsKeepSettleable(s: State, created: bool)
    requires Inv(s) && Settleable(s) && s.frames == []
    ensures Settleable(Connect(s, created)) && Settleable(Disconnect(s))
  {
    var c := Connect(s, created);
    forall a | IsPending(c, a) ensures Accounted(c, a) {
      assert a == c.connectionAttempt || (IsPending(s, a) && Accounted(s, a));
    }
    var d := Disconnect(s);
    forall a | IsPending(d, a) ensures Accounted(d, a) {
      assert IsPending(s, a) && Accounted(s, a);
    }
  }

  lemma {:induction false} OpenKeepsSettleable(s: State, a: nat)
    requires Settleable(s) && s.frames == [] && HasSocket(s, a)
    ensures Settleable(BeginOpen(s, a))
  {
    forall b | IsPending(BeginOpen(s, a), b) ensures Accounted(BeginOpen(s, a), b) {
      assert IsPending(s, b) && Accounted(s, b);
    }
  }

  lemma {:induction false} ErrorKeepsSettleable(s: State, a: nat)
    requires Settleable(s) && s.frames == [] && HasSocket(s, a)
    ensures Settleable(BeginError(s, a))
  {
    forall b | IsPending(BeginError(s, a), b) ensures Accounted(BeginError(s, a), b) {
      assert IsPending(s, b) && Accounted(s, b);
    }
  }

  lemma {:induction false} TimeoutKeepsSettleable(s: State, a: nat)
    requires Settleable(s) && s.frames == [] && HasSocket(s, a)
    ensures Settleable(BeginTimeout(s, a))
  {
    forall b | IsPending(BeginTimeout(s, a), b) ensures Accounted(BeginTimeout(s, a), b) {
      assert IsPending(s, b) && Accounted(s, b);
    }
  }

  lemma {:induction false} CloseKeepsSettleable(s: State, a: nat)
    requires Settleable(s) && s.frames == [] && HasSocket(s, a)
    ensures Settleable(BeginClose(s, a, false))
  {
    var t := BeginClose(s, a, false);
    forall b | IsPending(t, b) ensures Accounted(t, b) {
      assert IsPending(s, b) && Accounted(s, b);
    }
  }

  lemma {:induction false} ContinuationsKeepSettleable(s: State, a: nat)
    requires Settleable(s) && s.frames == []
    ensures Settleable(Catch(s, a)) && Settleable(Settled(s, a))
  {
    forall t, b | t in [Catch(s, a), Settled(s, a)] && IsPending(t, b)
      ensures Accounted(t, b)
    {
      assert IsPending(s, b) && Accounted(s, b);
    }
  }

  lemma {:induction false} ReconnectKeepsSettleable(s: State, t: nat, created: bool)
    requires Inv(s) && Settleable(s) && s.frames == []
    ensures Settleable(ReconnectTimer(s, t, created))
  {
    var fired := s.(reconnectTimer := None);
    assert Inv(fired);
    SetterKeepsSettleable(s, fired);
    var counted := fired.(reconnectAttempts := s.reconnectAttempts + 1);
    assert Inv(counted);
    SetterKeepsSettleable(s, counted);
    CallsKeepSettleable(counted, created);
  }

  lemma {:induction false} NextKeepsSettleable(s: State, e: Step)
    requires Inv(s) && Settleable(s) && (s.frames != [] ==> !ByCaller(e))
    ensures Settleable(Next(s, e))
  {
    if Enabled(s, e) {
      match e {
        case CallConnect(created) => CallsKeepSettleable(s, created);
        case CallDisconnect => CallsKeepSettleable(s, true);
        case SetAutoReconnect(_) => SetterKeepsSettleable(s, Next(s, e));
        case SetMaxReconnectAttempts(_) => SetterKeepsSettleable(s, Next(s, e));
        case Resume => ResumeSettles(s);
        case OnOpen(a) => OpenKeepsSettleable(s, a);
        case OnClose(a) => CloseKeepsSettleable(s, a);
        case OnError(a) => ErrorKeepsSettleable(s, a);
        case OnTimeout(a) => TimeoutKeepsSettleable(s, a);
        case OnCatch(a) => ContinuationsKeepSettleable(s, a);
        case OnSettled(a) => ContinuationsKeepSettleable(s, a);
        case OnReconnectTimer(t, created) => ReconnectKeepsSettleable(s, t, created);
      }
    }
  }

  lemma {:induction false} SetterKeepsSettleable(s: State, r: State)
    requires Settleable(s)
    requires r == s.(autoReconnect := r.autoReconnect, maxReconnectAttempts := r.maxReconnectAttempts,
                     reconnectTimer := r.reconnectTimer, reconnectAttempts := r.reconnectAttempts)
    ensures Settleable(r)
  {
    forall a | IsPending(r, a) ensures Accounted(r, a) {
      assert IsPending(s, a) && Accounted(s, a);
    }
  }

  lemma {:induction false} RunKeepsSettleable(s: State, steps: seq<Step>)
    requires Inv(s) && Settleable(s) && CallsBetweenTurns(s, steps)
    ensures Inv(Run(s, steps)) && Settleable(Run(s, steps))
    decreases |steps|
  {
    if steps == [] {
    } else {
      NextKeepsInv(s, steps[0]);
      NextKeepsSettleable(s, steps[0]);
      RunKeepsSettleable(Next(s, steps[0]), steps[1..]);
    }
  }

  lemma {:induction false} TimeoutRejects(s: State, a: nat)
    requires s.frames == [] && IsCurrent(s, a) && IsPending(s, a)
    ensures HasOutcome(Next(Next(s, OnTimeout(a)), Resume), a, Rejected)
  {
    var t := Next(s, OnTimeout(a));
    assert t.frames == [TimingOut(a)] && IsPending(t, a);
  }

  /**
    * No connect() call is left hanging: while the owner calls only between callbacks, every unsettled call is
    * the current attempt, its connection timer is still set, and going off settles the call.
    */
  lemma {:induction false} TimeoutSettlesEveryPendingConnect(autoReconnect: bool, max: nat, steps: seq<Step>, a: nat)
    requires CallsBetweenTurns(Init(autoReconnect, max), steps)
    requires IsPending(Run(Init(autoReconnect, max), steps), a) && Run(Init(autoReconnect, max), steps).frames == []
    ensures var s := Run(Init(autoReconnect, max), steps);
            s.connectionAttempt == a && s.attempts[a].timerArmed && HasOutcome(Next(Next(s, OnTimeout(a)), Resume), a, Rejected)
  {
    RunKeepsSettleable(Init(autoReconnect, max), steps);
    var s := Run(Init(autoReconnect, max), steps);
    assert Accounted(s, a);
    TimeoutRejects(s, a);
  }

  // ---------------------------------------------------------------- connect() calls left hanging

  predicate OwnsFrame(s: State, a: nat) {
    exists i :: 0 <= i < |s.frames| && s.frames[i].attempt == a
  }

  predicate WillReject(s: State, a: nat) {
    exists i :: 0 <= i < |s.frames| && s.frames[i].Closing? && s.frames[i].attempt == a
  }

  /** Only the outermost callback is an event-loop turn; those inside are closes that disconnect() asked for. */
  ghost predicate Nested(s: State) {
    && (forall i :: 0 <= i < |s.frames| ==> s.frames[i].attempt <= s.connectionAttempt)
    && (forall i :: 1 <= i < |s.frames| ==> s.frames[i].Closing? && !s.frames[i].wasConnected && s.frames[i].byUser)
    && (|s.frames| > 1 ==> s.frames[0].attempt < s.connectionAttempt)
  }

  /** An unsettled connect() of the current attempt: promise and finalizer are held, and the timer or the running
      callback will settle it. */
  predicate HoldsOn(s: State, a: nat)
    requires a in s.attempts
  {
    && s.connectionPromise == Some(a) && s.finalizer == Some(a)
    && (s.attempts[a].timerArmed || (s.frames != [] && s.frames[0].attempt == a))
    && (s.connected ==> s.frames != [] && s.frames[0] == Opening(a))
  }

  /** The outermost callback is of this attempt and settles it when it returns. */
  predicate Settles(s: State, a: nat)
    requires s.frames != []
  {
    && (s.frames[0].Erroring? ==> a == s.connectionAttempt || WillReject(s, a))
    && (s.frames[0].Closing? ==> !s.frames[0].wasConnected)
  }

  predicate Watched(s: State, a: nat)
    requires a in s.attempts
  {
    && s.attempts[a].hasSocket
    && (s.attempts[a].closeHandled ==> WillReject(s, a))
    && (a == s.connectionAttempt ==> HoldsOn(s, a))
    && (s.frames != [] && s.frames[0].attempt == a ==> Settles(s, a))
  }

  ghost predicate AllWatched(s: State) {
    forall a :: IsPending(s, a) ==> Watched(s, a)
  }

  lemma {:induction false} BottomSettles(s: State)
    requires Inv(s) && AllWatched(s) && |s.frames| == 1
    ensures !IsPending(ResumeTop(s), s.frames[0].attempt)
  {
    var f := s.frames[0];
    if IsPending(s, f.attempt) {
      assert Watched(s, f.attempt) && Settles(s, f.attempt);
      if f.Erroring? { assert HoldsOn(s, f.attempt); }
    }
  }

  /** What the end of a callback of another attempt may change for this one. */
  predicate Spares(s: State, r: State, a: nat) {
    && IsPending(s, a) && a in r.attempts && r.attempts[a] == s.attempts[a] && r.frames == s.frames
    && (r.finalizer == s.finalizer || r.finalizer.None?) && (r.ws == s.ws || r.ws.None?)
    && (if r.connectionAttempt == s.connectionAttempt
        then r.connectionPromise == s.connectionPromise && r.connected == s.connected
        else r.connectionAttempt == s.connectionAttempt + 1)
  }

  lemma {:induction false} FailSpares(s: State, b: nat, a: nat)
    requires IsPending(FailAttempt(s, b), a)
    ensures a != b && Spares(s, FailAttempt(s, b), a) && FailAttempt(s, b).connectionAttempt == s.connectionAttempt + 1
  {
  }

  lemma {:induction false} EndFrameSpares(s: State, f: Frame, a: nat)
    requires IsPending(EndFrame(s, f), a)
    ensures var r := EndFrame(s, f);
            && Spares(s, r, a)
            && (r.connectionAttempt == s.connectionAttempt && f.attempt != a && s.finalizer == Some(a) ==>
                 r.finalizer == Some(a))
            && (f.Closing? && !f.wasConnected ==> f.attempt != a && r.connectionAttempt == s.connectionAttempt + 1)
  {
    match f {
      case Opening(b) =>
      case Closing(b, wasConnected, _) =>
        if !wasConnected { FailSpares(s.(finalizer := ClearFinalizer(s.finalizer, b)), b, a); }
      case TimingOut(b) => FailSpares(s.(ws := None), b, a);
      case Erroring(b) => if !s.connected && s.connectionPromise.Some? { FailSpares(s, b, a); }
    }
  }

  function Popped(s: State): State
    requires s.frames != []
  {
    s.(frames := s.frames[..|s.frames| - 1])
  }

  lemma {:induction false} PopKeepsWatched(s: State, a: nat)
    requires Inv(s) && Nested(s) && AllWatched(s) && s.frames != [] && IsPending(ResumeTop(s), a)
    ensures Watched(ResumeTop(s), a)
  {
    var r, n := ResumeTop(s), |s.frames| - 1;
    EndFrameSpares(Popped(s), s.frames[n], a);
    if n == 0 { BottomSettles(s); }
    assert Watched(s, a) && s.frames[n].attempt != a;
    if WillReject(s, a) {
      var i :| 0 <= i < |s.frames| && s.frames[i].Closing? && s.frames[i].attempt == a;
      assert r.frames[i] == s.frames[i];
    }
  }

  lemma {:induction false} PopKeepsAll(s: State)
    requires Inv(s) && Nested(s) && AllWatched(s) && s.frames != []
    ensures Nested(ResumeTop(s)) && AllWatched(ResumeTop(s))
    ensures !IsPending(ResumeTop(s), s.frames[|s.frames| - 1].attempt)
  {
    var r, n := ResumeTop(s), |s.frames| - 1;
    forall a | IsPending(r, a) ensures Watched(r, a) { PopKeepsWatched(s, a); }
    EndFrameMoves(Popped(s), s.frames[n]);
    if n == 0 { BottomSettles(s); } else { SettlesItsOwn(Popped(s), s.frames[n]); }
  }

  lemma {:induction false} EndFrameMoves(s: State, f: Frame)
    ensures var r := EndFrame(s, f); r.frames == s.frames && r.connectionAttempt >= s.connectionAttempt
  {
  }

  lemma {:induction false} EndFrameKeepsAttempts(s: State, f: Frame)
    ensures EndFrame(s, f).attempts.Keys == s.attempts.Keys
  {
  }

  lemma {:induction false} SettlesItsOwn(s: State, f: Frame)
    requires f.Closing? && !f.wasConnected
    ensures !IsPending(EndFrame(s, f), f.attempt)
  {
  }

  lemma {:induction false} ConnectKeepsAll(s: State, created: bool)
    requires Inv(s) && Nested(s) && AllWatched(s)
    ensures Nested(Connect(s, created)) && AllWatched(Connect(s, created))
  {
    var c := Connect(s, created);
    forall a | IsPending(c, a) ensures Watched(c, a) {
      assert IsPending(s, a) ==> Watched(s, a);
      assert WillReject(s, a) ==> WillReject(c, a);
    }
  }

  lemma {:induction false} PushKeepsRejects(s: State, r: State, f: Frame, a: nat)
    requires r.frames == s.frames + [f]
    ensures WillReject(s, a) || (f.Closing? && f.attempt == a) ==> WillReject(r, a)
    ensures OwnsFrame(r, a) <==> OwnsFrame(s, a) || f.attempt == a
  {
    assert r.frames[|s.frames|] == f;
    assert forall i :: 0 <= i < |s.frames| ==> r.frames[i] == s.frames[i];
  }

  lemma {:induction false} DisconnectKeepsAll(s: State)
    requires Inv(s) && Nested(s) && AllWatched(s)
    ensures Nested(Disconnect(s)) && AllWatched(Disconnect(s))
  {
    var d := Disconnect(s);
    forall a | IsPending(d, a) ensures Watched(d, a) {
      assert IsPending(s, a) && Watched(s, a);
      if d.frames != s.frames {
        assert d.frames == s.frames + [Closing(s.finalizer.value, false, true)];
        PushKeepsRejects(s, d, Closing(s.finalizer.value, false, true), a);
      }
      assert a == s.connectionAttempt ==> s.ws == Some(a) && s.finalizer == Some(a);
    }
  }

  lemma {:induction false} TurnKeepsAll(s: State, e: Step)
    requires Inv(s) && Nested(s) && AllWatched(s) && s.frames == []
    requires e.OnOpen? || e.OnClose? || e.OnError? || e.OnTimeout?
    ensures Nested(Next(s, e)) && AllWatched(Next(s, e))
  {
    var r := Next(s, e);
    forall a | IsPending(r, a) ensures Watched(r, a) {
      assert IsPending(s, a) && Watched(s, a);
      if r.frames != [] { PushKeepsRejects(s, r, r.frames[0], a); }
    }
  }

  lemma {:induction false} CatchKeepsAll(s: State, a: nat)
    requires Inv(s) && Nested(s) && AllWatched(s) && s.frames == []
    ensures Nested(Catch(s, a)) && AllWatched(Catch(s, a))
  {
    forall b | IsPending(Catch(s, a), b) ensures Watched(Catch(s, a), b) { assert IsPending(s, b) && Watched(s, b); }
  }

  lemma {:induction false} SettledKeepsAll(s: State, a: nat)
    requires Inv(s) && Nested(s) && AllWatched(s) && s.frames == []
    ensures Nested(Settled(s, a)) && AllWatched(Settled(s, a))
  {
    forall b | IsPending(Settled(s, a), b) ensures Watched(Settled(s, a), b) { assert IsPending(s, b) && Watched(s, b); }
  }

  lemma {:induction false} SetterKeepsAll(s: State, r: State)
    requires Nested(s) && AllWatched(s)
    requires r == s.(autoReconnect := r.autoReconnect, maxReconnectAttempts := r.maxReconnectAttempts,
                     reconnectTimer := r.reconnectTimer, reconnectAttempts := r.reconnectAttempts)
    ensures Nested(r) && AllWatched(r)
  {
    forall a | IsPending(r, a) ensures Watched(r, a) {
      assert IsPending(s, a) && Watched(s, a);
      assert WillReject(s, a) ==> WillReject(r, a);
    }
  }

  lemma {:induction false} TimerKeepsAll(s: State, t: nat, created: bool)
    requires Inv(s) && Nested(s) && AllWatched(s) && s.frames == []
    ensures Nested(ReconnectTimer(s, t, created)) && AllWatched(ReconnectTimer(s, t, created))
  {
    var fired := s.(reconnectTimer := None);
    SetterKeepsAll(s, fired);
    var counted := fired.(reconnectAttempts := s.reconnectAttempts + 1);
    SetterKeepsAll(s, counted);
    assert Inv(counted);
    ConnectKeepsAll(counted, created);
  }

  lemma {:induction false} NextKeepsAll(s: State, e: Step)
    requires Inv(s) && Nested(s) && AllWatched(s)
    ensures Nested(Next(s, e)) && AllWatched(Next(s, e))
  {
    if Enabled(s, e) {
      match e {
        case CallConnect(created) => ConnectKeepsAll(s, created);
        case CallDisconnect => DisconnectKeepsAll(s);
        case SetAutoReconnect(_) => SetterKeepsAll(s, Next(s, e));
        case SetMaxReconnectAttempts(_) => SetterKeepsAll(s, Next(s, e));
        case Resume => PopKeepsAll(s);
        case OnCatch(a) => CatchKeepsAll(s, a);
        case OnSettled(a) => SettledKeepsAll(s, a);
        case OnReconnectTimer(t, created) => TimerKeepsAll(s, t, created);
        case _ => TurnKeepsAll(s, e);
      }
    }
  }

  lemma {:induction false} RunKeepsAll(s: State, steps: seq<Step>)
    requires Inv(s) && Nested(s) && AllWatched(s)
    ensures var r := Run(s, steps); Inv(r) && Nested(r) && AllWatched(r)
    decreases |steps|
  {
    if steps == [] {
    } else {
      NextKeepsInv(s, steps[0]);
      NextKeepsAll(s, steps[0]);
      RunKeepsAll(Next(s, steps[0]), steps[1..]);
    }
  }

  lemma {:induction false} WatchedIsCurrent(s: State, a: nat)
    requires Inv(s) && s.frames == [] && a in s.attempts && Watched(s, a) && a == s.connectionAttempt
    ensures IsCurrent(s, a)
  {
    assert HoldsOn(s, a) && !WillReject(s, a);
  }

  lemma {:induction false} LateTimeout(s: State, a: nat)
    requires s.frames == [] && IsPending(s, a) && a != s.connectionAttempt
    ensures IsPending(Next(Next(s, OnTimeout(a)), Resume), a)
  {
    var t := Next(s, OnTimeout(a));
    assert t.frames == [] && IsPending(t, a);
  }

  /**
    * Between callbacks, whatever the owner did inside its handlers: the connection timer rejects an unsettled
    * connect() exactly when its attempt is the current one, and then it is still set.
    */
  lemma {:induction false} TimeoutSettlesExactlyTheCurrent(autoReconnect: bool, max: nat, steps: seq<Step>, a: nat)
    requires var s := Run(Init(autoReconnect, max), steps); s.frames == [] && IsPending(s, a)
    ensures var s := Run(Init(autoReconnect, max), steps);
            && (HasOutcome(Next(Next(s, OnTimeout(a)), Resume), a, Rejected) <==> a == s.connectionAttempt)
            && (a == s.connectionAttempt ==> s.attempts[a].timerArmed)
  {
    RunKeepsAll(Init(autoReconnect, max), steps);
    var s := Run(Init(autoReconnect, max), steps);
    assert Watched(s, a);
    if a == s.connectionAttempt {
      WatchedIsCurrent(s, a);
      TimeoutRejects(s, a);
    } else {
      LateTimeout(s, a);
    }
  }

  // ---------------------------------------------------------------- connect() calls that never settle

  /** disconnect() would still reach the finalizer of this attempt. */
  predicate CanBeClosed(s: State, a: nat) {
    s.finalizer == Some(a) && s.ws.Some?
  }

  ghost predicate Orphan(s: State, a: nat) {
    IsPending(s, a) && a < s.connectionAttempt && !OwnsFrame(s, a) && !CanBeClosed(s, a)
  }

  lemma {:induction false} PopKeepsOrphan(s: State, a: nat)
    requires Orphan(s, a) && s.frames != []
    ensures Orphan(ResumeTop(s), a)
  {
    var r, n := ResumeTop(s), |s.frames| - 1;
    assert s.frames[n].attempt != a;
    EndFrameKeepsPending(Popped(s), s.frames[n], a);
    EndFrameSpares(Popped(s), s.frames[n], a);
    assert forall i :: 0 <= i < |r.frames| ==> r.frames[i] == s.frames[i];
  }

  lemma {:induction false} EndFrameKeepsPending(s: State, f: Frame, a: nat)
    requires IsPending(s, a) && f.attempt != a
    ensures IsPending(EndFrame(s, f), a)
  {
  }

  /** No new callback is of this attempt, and nothing else of it comes back. */
  ghost predicate Passes(s: State, r: State, a: nat) {
    && IsPending(r, a) && a < r.connectionAttempt && !CanBeClosed(r, a)
    && (r.frames == s.frames || exists f: Frame :: r.frames == s.frames + [f] && f.attempt != a)
  }

  lemma {:induction false} DisconnectPasses(s: State, a: nat)
    requires IsPending(s, a) && a < s.connectionAttempt && !CanBeClosed(s, a)
    ensures Passes(s, Disconnect(s), a)
  {
    if s.finalizer.Some? {
      assert Disconnect(s).frames == s.frames || Disconnect(s).frames == s.frames + [Closing(s.finalizer.value, false, true)];
    }
  }

  lemma {:induction false} TurnPasses(s: State, e: Step, a: nat)
    requires IsPending(s, a) && a < s.connectionAttempt && !CanBeClosed(s, a) && Enabled(s, e)
    requires e.OnOpen? || e.OnClose? || e.OnError? || e.OnTimeout?
    ensures Passes(s, Next(s, e), a)
  {
    var r := Next(s, e);
    if r.frames != s.frames { assert r.frames == s.frames + [r.frames[0]]; }
  }

  lemma {:induction false} ConnectPasses(s: State, created: bool, a: nat)
    requires IsPending(s, a) && a < s.connectionAttempt && !CanBeClosed(s, a)
    ensures Passes(s, Connect(s, created), a)
  {
  }

  lemma {:induction false} TimerPasses(s: State, t: nat, created: bool, a: nat)
    requires IsPending(s, a) && a < s.connectionAttempt && !CanBeClosed(s, a)
    ensures Passes(s, ReconnectTimer(s, t, created), a)
  {
    ConnectPasses(s.(reconnectTimer := None, reconnectAttempts := s.reconnectAttempts + 1), created, a);
  }

  lemma {:induction false} OtherPasses(s: State, e: Step, a: nat)
    requires IsPending(s, a) && a < s.connectionAttempt && !CanBeClosed(s, a) && Enabled(s, e)
    requires e.SetAutoReconnect? || e.SetMaxReconnectAttempts? || e.OnCatch? || e.OnSettled?
    ensures Passes(s, Next(s, e), a)
  {
  }

  lemma {:induction false} PassingKeepsOrphan(s: State, r: State, a: nat)
    requires Orphan(s, a) && Passes(s, r, a)
    ensures Orphan(r, a)
  {
    if r.frames != s.frames {
      var f :| r.frames == s.frames + [f] && f.attempt != a;
      PushKeepsRejects(s, r, f, a);
    }
  }

  lemma {:induction false} NextKeepsOrphan(s: State, e: Step, a: nat)
    requires Orphan(s, a)
    ensures Orphan(Next(s, e), a)
  {
    if Enabled(s, e) {
      if e.Resume? {
        PopKeepsOrphan(s, a);
      } else {
        match e {
          case CallConnect(created) => ConnectPasses(s, created, a);
          case CallDisconnect => DisconnectPasses(s, a);
          case OnReconnectTimer(t, created) => TimerPasses(s, t, created, a);
          case OnOpen(_) => TurnPasses(s, e, a);
          case OnClose(_) => TurnPasses(s, e, a);
          case OnError(_) => TurnPasses(s, e, a);
          case OnTimeout(_) => TurnPasses(s, e, a);
          case _ => OtherPasses(s, e, a);
        }
        PassingKeepsOrphan(s, Next(s, e), a);
      }
    }
  }

  lemma {:induction false} RunKeepsOrphan(s: State, steps: seq<Step>, a: nat)
    requires Orphan(s, a)
    ensures Orphan(Run(s, steps), a)
    decreases |steps|
  {
    if steps == [] {
    } else {
      NextKeepsOrphan(s, steps[0], a);
      RunKeepsOrphan(Next(s, steps[0]), steps[1..], a);
    }
  }

  lemma {:induction false} PopFrames(s: State)
    requires s.frames != []
    ensures ResumeTop(s).frames == s.frames[..|s.frames| - 1] && ResumeTop(s).attempts.Keys == s.attempts.Keys
  {
    EndFrameMoves(Popped(s), s.frames[|s.frames| - 1]);
    EndFrameKeepsAttempts(Popped(s), s.frames[|s.frames| - 1]);
  }

  lemma {:induction false} WasPending(s: State, f: Frame, a: nat)
    requires IsPending(EndFrame(s, f), a)
    ensures IsPending(s, a)
  {
  }

  lemma {:induction false} PopKeepsOwned(s: State, a: nat)
    requires Inv(s) && Nested(s) && AllWatched(s) && s.frames != []
    requires a in s.attempts && (IsPending(s, a) ==> OwnsFrame(s, a))
    ensures var r := ResumeTop(s); |r.frames| == |s.frames| - 1 && a in r.attempts && (IsPending(r, a) ==> OwnsFrame(r, a))
  {
    var r, n := ResumeTop(s), |s.frames| - 1;
    PopFrames(s);
    PopKeepsAll(s);
    if IsPending(r, a) {
      WasPending(Popped(s), s.frames[n], a);
      var i :| 0 <= i < |s.frames| && s.frames[i].attempt == a;
      assert r.frames[i] == s.frames[i];
    }
  }

  lemma {:induction false} DrainSettles(s: State, a: nat)
    requires Inv(s) && Nested(s) && AllWatched(s) && a in s.attempts && (IsPending(s, a) ==> OwnsFrame(s, a))
    ensures !IsPending(Run(s, Drain(|s.frames|)), a)
    decreases |s.frames|
  {
    if s.frames == [] {
    } else {
      DrainStep(s);
      ResumeKeepsInv(s);
      PopKeepsAll(s);
      PopKeepsOwned(s, a);
      DrainSettles(ResumeTop(s), a);
    }
  }

  lemma {:induction false} CloseSettles(s: State, a: nat)
    requires Inv(s) && Nested(s) && AllWatched(s) && IsPending(s, a) && CanBeClosed(s, a)
    ensures var d := Disconnect(s); !IsPending(Run(s, [CallDisconnect] + Drain(|d.frames|)), a)
  {
    var d := Disconnect(s);
    DisconnectKeepsInv(s);
    DisconnectKeepsAll(s);
    assert Watched(s, a);
    if s.attempts[a].closeHandled {
      assert d.frames == s.frames;
    } else {
      PushKeepsRejects(s, d, Closing(a, false, true), a);
    }
    assert OwnsFrame(d, a);
    DrainSettles(d, a);
    assert ([CallDisconnect] + Drain(|d.frames|))[1..] == Drain(|d.frames|);
  }

  /** No continuation settles the call. */
  ghost predicate HangsForever(s: State, a: nat) {
    forall steps: seq<Step> :: IsPending(Run(s, steps), a)
  }

  /**
    * An unsettled connect() stays unsettled in every continuation exactly when no callback of it is running and
    * disconnect() would not reach its finalizer.
    */
  lemma {:induction false} HangingConnects(autoReconnect: bool, max: nat, before: seq<Step>, a: nat)
    requires IsPending(Run(Init(autoReconnect, max), before), a)
    ensures var s := Run(Init(autoReconnect, max), before);
            HangsForever(s, a) <==> !OwnsFrame(s, a) && !CanBeClosed(s, a)
  {
    RunKeepsAll(Init(autoReconnect, max), before);
    var s := Run(Init(autoReconnect, max), before);
    assert Watched(s, a);
    if OwnsFrame(s, a) {
      DrainSettles(s, a);
      assert !IsPending(Run(s, Drain(|s.frames|)), a);
    } else if CanBeClosed(s, a) {
      CloseSettles(s, a);
      assert !IsPending(Run(s, [CallDisconnect] + Drain(|Disconnect(s).frames|)), a);
    } else {
      assert a < s.connectionAttempt;
      forall steps: seq<Step> ensures IsPending(Run(s, steps), a) { RunKeepsOrphan(s, steps, a); }
    }
  }

  /** Its input: disconnect() and connect() in the Disconnect handler of an attempt that closed before it opened,
      and another connect() afterwards. */
  function ConnectInCloseHandler(): seq<Step> {
    [CallConnect(true), OnClose(1), CallDisconnect, CallConnect(true), Resume, CallConnect(true)]
  }

  /** The state before the last of these calls: the close of attempt 1 has superseded attempt 3. */
  function Superseded(): State {
    State(Some(3), false, 4, 1, None, Some(3), false, 0, None, [], true, 10,
          map[1 := Attempt(0, true, false, true, Rejected, false), 3 := Attempt(1, true, true, false, Pending, false)], [])
  }

  /** Attempt 1 was closed before it opened, and its Disconnect handler is running. */
  function ClosedEarly(): State {
    State(Some(1), false, 1, 0, Some(1), Some(1), false, 0, None, [], true, 10,
          map[1 := Attempt(0, true, false, true, Pending, false)], [Closing(1, false, false)])
  }

  lemma {:induction false} ClosedEarlyIsReachable()
    ensures Run(Init(true, 10), [CallConnect(true), OnClose(1)]) == ClosedEarly()
  {
    var s1 := Next(Init(true, 10), CallConnect(true));
    assert s1.attempts == map[1 := Attempt(0, true, true, false, Pending, false)];
    assert Next(s1, OnClose(1)).attempts == ClosedEarly().attempts;
    RunTwo(Init(true, 10), CallConnect(true), OnClose(1));
  }

  lemma {:induction false} ClosedEarlyIsSuperseded()
    ensures Run(ClosedEarly(), [CallDisconnect, CallConnect(true), Resume]) == Superseded()
  {
    var s1 := Next(ClosedEarly(), CallDisconnect);
    assert s1.frames == ClosedEarly().frames && s1.ws == None;
    var s2 := Next(s1, CallConnect(true));
    assert s2.attempts == map[1 := Attempt(0, true, false, true, Pending, false),
                              3 := Attempt(1, true, true, false, Pending, false)];
    assert Next(s2, Resume).attempts == Superseded().attempts;
    RunTwo(ClosedEarly(), CallDisconnect, CallConnect(true));
    RunOne(s2, Resume);
    RunConcat(ClosedEarly(), [CallDisconnect, CallConnect(true)], [Resume]);
    assert [CallDisconnect, CallConnect(true)] + [Resume] == [CallDisconnect, CallConnect(true), Resume];
  }

  lemma {:induction false} ConnectIsLeftHanging()
    ensures var s := Run(Init(true, 10), ConnectInCloseHandler());
            IsPending(s, 3) && s.connectionAttempt == 5 && s.frames == [] && HangsForever(s, 3)
  {
    ClosedEarlyIsReachable();
    ClosedEarlyIsSuperseded();
    RunOne(Superseded(), CallConnect(true));
    var early, later := [CallConnect(true), OnClose(1)], [CallDisconnect, CallConnect(true), Resume];
    RunConcat(ClosedEarly(), later, [CallConnect(true)]);
    RunConcat(Init(true, 10), early, later + [CallConnect(true)]);
    assert ConnectInCloseHandler() == early + (later + [CallConnect(true)]);
    HangingConnects(true, 10, ConnectInCloseHandler(), 3);
  }

  // ---------------------------------------------------------------- a failed connect() is tried again

  function Disconnects(steps: seq<Step>): nat
    decreases |steps|
  {
    if steps == [] then 0 else (if steps[0] == CallDisconnect then 1 else 0) + Disconnects(steps[1..])
  }

  lemma {:induction false} NoDisconnects(steps: seq<Step>)
    ensures Disconnects(steps) == 0 <==> CallDisconnect !in steps
    decreases |steps|
  {
    if steps == [] {
    } else {
      NoDisconnects(steps[1..]);
      assert steps == [steps[0]] + steps[1..];
    }
  }

  /** Attempts keep the generation they began in, which disconnect() alone moves on. */
  predicate KeepsGenerations(s: State, r: State, a: nat) {
    a in s.attempts ==> a in r.attempts && r.attempts[a].generation == s.attempts[a].generation
  }

  lemma {:induction false} EndFrameKeepsGenerations(s: State, f: Frame, a: nat)
    ensures KeepsGenerations(s, EndFrame(s, f), a) && EndFrame(s, f).disconnectGeneration == s.disconnectGeneration
  {
  }

  lemma {:induction false} CallKeepsGenerations(s: State, created: bool, a: nat)
    requires Inv(s)
    ensures KeepsGenerations(s, Connect(s, created), a) && KeepsGenerations(s, Disconnect(s), a)
    ensures Connect(s, created).disconnectGeneration == s.disconnectGeneration
    ensures Disconnect(s).disconnectGeneration == s.disconnectGeneration + 1
  {
  }

  lemma {:induction false} TurnKeepsGenerations(s: State, e: Step, a: nat)
    requires Inv(s) && Enabled(s, e) && !ByCaller(e) && !e.Resume? && !e.OnReconnectTimer?
    ensures KeepsGenerations(s, Next(s, e), a) && Next(s, e).disconnectGeneration == s.disconnectGeneration
  {
  }

  lemma {:induction false} NextKeepsGenerations(s: State, e: Step, a: nat)
    requires Inv(s)
    ensures KeepsGenerations(s, Next(s, e), a)
    ensures Next(s, e).disconnectGeneration == s.disconnectGeneration + if e == CallDisconnect then 1 else 0
  {
    if Enabled(s, e) {
      match e {
        case CallConnect(created) => CallKeepsGenerations(s, created, a);
        case CallDisconnect => CallKeepsGenerations(s, true, a);
        case SetAutoReconnect(_) =>
        case SetMaxReconnectAttempts(_) =>
        case Resume => EndFrameKeepsGenerations(Popped(s), s.frames[|s.frames| - 1], a);
        case OnReconnectTimer(_, created) =>
          var fired := s.(reconnectTimer := None, reconnectAttempts := s.reconnectAttempts + 1);
          assert Inv(fired);
          CallKeepsGenerations(fired, created, a);
        case _ => TurnKeepsGenerations(s, e, a);
      }
    }
  }

  lemma {:induction false} RunKeepsGenerations(s: State, steps: seq<Step>, a: nat)
    requires Inv(s)
    ensures KeepsGenerations(s, Run(s, steps), a)
    ensures Run(s, steps).disconnectGeneration == s.disconnectGeneration + Disconnects(steps)
    decreases |steps|
  {
    if steps == [] {
    } else {
      NextKeepsInv(s, steps[0]);
      NextKeepsGenerations(s, steps[0], a);
      RunKeepsGenerations(Next(s, steps[0]), steps[1..], a);
    }
  }

  /** An attempt begins in the present generation, by connect() or by a reconnect timer. */
  lemma {:induction false} BeginsInGeneration(s: State, start: Step, a: nat)
    requires a !in s.attempts && a in Next(s, start).attempts
    ensures var r := Next(s, start); r.attempts[a].generation == r.disconnectGeneration
  {
    if Enabled(s, start) && start.Resume? {
      PopFrames(s);
    }
  }

  lemma {:induction false} CatchSchedules(s: State, a: nat)
    requires Inv(s) && HasOutcome(s, a, Rejected) && !s.attempts[a].caught && s.frames == []
    ensures var t := Next(s, OnCatch(a));
            var present := s.attempts[a].generation == s.disconnectGeneration;
            && (t.reconnectTimer == Some(|s.timers|) <==> present && Retries(s))
            && (present && Retries(s) ==> t.timers == s.timers + [s.disconnectGeneration])
            && (present && s.autoReconnect && !Retries(s) ==> t.reconnectTimer.None?)
            && (!present || !s.autoReconnect ==> t.reconnectTimer == s.reconnectTimer)
            && t == s.(attempts := t.attempts, reconnectTimer := t.reconnectTimer, timers := t.timers)
            && Next(t, OnCatch(a)) == t
  {
  }

  /**
    * In every run: when the continuation of a rejected connect() runs, it arms a new reconnect timer of the present
    * generation exactly if there was no disconnect() since the step that began the attempt, reconnecting is enabled
    * and the budget is not used up.  A used-up budget leaves no timer; it runs once.
    */
  lemma {:induction false} FailedConnectIsRetried(autoReconnect: bool, max: nat, before: seq<Step>, start: Step,
                                                  since: seq<Step>, a: nat)
    requires var s0 := Run(Init(autoReconnect, max), before); a !in s0.attempts && a in Next(s0, start).attempts
    requires var s := Run(Next(Run(Init(autoReconnect, max), before), start), since);
             s.frames == [] && HasOutcome(s, a, Rejected) && !s.attempts[a].caught
    ensures var s := Run(Next(Run(Init(autoReconnect, max), before), start), since);
            var t := Next(s, OnCatch(a));
            var untouched := CallDisconnect !in since;
            && (t.reconnectTimer == Some(|s.timers|) <==> untouched && Retries(s))
            && (untouched && Retries(s) ==> t.timers == s.timers + [s.disconnectGeneration])
            && (untouched && s.autoReconnect && !Retries(s) ==> t.reconnectTimer.None?)
            && (!untouched || !s.autoReconnect ==> t.reconnectTimer == s.reconnectTimer)
            && Next(t, OnCatch(a)) == t
  {
    var s0 := Run(Init(autoReconnect, max), before);
    var s1 := Next(s0, start);
    RunKeepsInv(Init(autoReconnect, max), before);
    NextKeepsInv(s0, start);
    RunKeepsInv(s1, since);
    BeginsInGeneration(s0, start, a);
    RunKeepsGenerations(s1, since, a);
    NoDisconnects(since);
    CatchSchedules(Run(s1, since), a);
  }

  /** Every timer armed is of the present generation, and none is armed while reconnecting is disabled. */
  ghost predicate TimerIsPresent(s: State) {
    s.reconnectTimer.Some? ==> Armed(s) && s.autoReconnect
  }

  lemma {:induction false} EndFrameKeepsTimer(s: State, f: Frame)
    requires TimerIsPresent(s)
    ensures TimerIsPresent(EndFrame(s, f))
  {
  }

  lemma {:induction false} NextKeepsTimer(s: State, e: Step)
    requires TimerIsPresent(s)
    ensures TimerIsPresent(Next(s, e))
  {
    if Enabled(s, e) && e.Resume? {
      EndFrameKeepsTimer(Popped(s), s.frames[|s.frames| - 1]);
    }
  }

  lemma {:induction false} RunKeepsTimer(s: State, steps: seq<Step>)
    requires TimerIsPresent(s)
    ensures TimerIsPresent(Run(s, steps))
    decreases |steps|
  {
    if steps == [] {
    } else {
      NextKeepsTimer(s, steps[0]);
      RunKeepsTimer(Next(s, steps[0]), steps[1..]);
    }
  }

  /**
    * In every run: a timer is armed only while reconnecting is enabled, enabling it changes no timer, and the armed
    * timer going off, while the relay is neither connected nor connecting, starts one new attempt, counts it and is
    * used up.  A timer that is no longer held does nothing.
    */
  lemma {:induction false} ReconnectTimerConnects(autoReconnect: bool, max: nat, steps: seq<Step>, t: nat, created: bool)
    requires Run(Init(autoReconnect, max), steps).frames == []
    ensures var s := Run(Init(autoReconnect, max), steps);
            var r := Next(s, OnReconnectTimer(t, created));
            && (s.reconnectTimer.Some? ==> s.autoReconnect)
            && Next(s, SetAutoReconnect(false)).reconnectTimer.None?
            && Next(s, SetAutoReconnect(true)).reconnectTimer == s.reconnectTimer
            && (s.reconnectTimer == Some(t) ==>
                 r.reconnectTimer.None? && r.reconnectAttempts == s.reconnectAttempts + 1)
            && (s.reconnectTimer == Some(t) && !s.connected && s.connectionPromise.None? ==>
                 && r.connectionAttempt == s.connectionAttempt + 1 && r.connectionAttempt !in s.attempts
                 && r.attempts.Keys == s.attempts.Keys + {r.connectionAttempt}
                 && HasOutcome(r, r.connectionAttempt, if created then Pending else Rejected))
            && (s.reconnectTimer != Some(t) ==> r == s)
  {
    RunKeepsInv(Init(autoReconnect, max), steps);
    RunKeepsTimer(Init(autoReconnect, max), steps);
  }

  // ---------------------------------------------------------------- what each socket event does

  /** In every run: the opening of the current attempt's socket connects the relay, resets the reconnect counter and
      cancels the reconnect timer, and settles a pending connect() when the handlers return; any other does nothing. */
  lemma {:induction false} OpenConnects(autoReconnect: bool, max: nat, steps: seq<Step>, a: nat)
    requires var s := Run(Init(autoReconnect, max), steps); s.frames == [] && HasSocket(s, a)
    ensures var s := Run(Init(autoReconnect, max), steps);
            var t := Next(s, OnOpen(a));
            var r := Next(t, Resume);
            if a != s.connectionAttempt then t == s
            else && t.connected && t.flushArmed && t.reconnectTimer.None? && t.reconnectAttempts == 0
                 && !t.attempts[a].timerArmed && t.attempts[a].outcome == s.attempts[a].outcome
                 && r.frames == [] && r.connected && (IsPending(s, a) ==> HasOutcome(r, a, Resolved))
  {
    var s := Run(Init(autoReconnect, max), steps);
    if a == s.connectionAttempt { assert Next(s, OnOpen(a)).frames == [Opening(a)]; }
  }

  /** Events of superseded attempts do nothing. */
  lemma {:induction false} LateEvent(s: State, e: Step, a: nat)
    requires s.frames == [] && a != s.connectionAttempt && (e == OnError(a) || e == OnClose(a))
    ensures Next(Next(s, e), Resume) == s
  {
    assert Next(s, e) == s;
  }

  lemma {:induction false} ErrorOfPending(s: State, a: nat)
    requires Inv(s) && AllWatched(s) && s.frames == [] && IsPending(s, a) && a == s.connectionAttempt
    ensures var r := Next(Next(s, OnError(a)), Resume);
            HasOutcome(r, a, Rejected) && r.frames == [] && !r.connected && !s.connected && !r.attempts[a].timerArmed
  {
    assert Watched(s, a) && HoldsOn(s, a);
    var t := Next(s, OnError(a));
    assert t.frames == [Erroring(a)] && !t.connected && t.connectionPromise.Some?;
  }

  lemma {:induction false} ErrorOfOpen(s: State, a: nat)
    requires s.frames == [] && HasSocket(s, a) && a == s.connectionAttempt && s.connected
    ensures Next(Next(s, OnError(a)), Resume) == Disarm(s, a)
  {
    var t := Next(s, OnError(a));
    assert t.frames == [Erroring(a)] && t.frames[..0] == [];
  }

  /** In every run: an error event rejects a pending connect() exactly if its attempt is the current one, and leaves an
      open connection as it is but for its connection timer. */
  lemma {:induction false} ErrorRejectsTheCurrent(autoReconnect: bool, max: nat, steps: seq<Step>, a: nat)
    requires var s := Run(Init(autoReconnect, max), steps); s.frames == [] && HasSocket(s, a)
    ensures var s := Run(Init(autoReconnect, max), steps);
            var r := Next(Next(s, OnError(a)), Resume);
            && (IsPending(s, a) ==> (HasOutcome(r, a, Rejected) <==> a == s.connectionAttempt))
            && (a == s.connectionAttempt && s.connected ==>
                 r == s.(attempts := s.attempts[a := s.attempts[a].(timerArmed := false)]))
            && (a != s.connectionAttempt ==> r == s)
  {
    var s := Run(Init(autoReconnect, max), steps);
    RunKeepsAll(Init(autoReconnect, max), steps);
    if a != s.connectionAttempt {
      LateEvent(s, OnError(a), a);
    } else {
      if IsPending(s, a) { ErrorOfPending(s, a); }
      if s.connected { ErrorOfOpen(s, a); }
    }
  }

  lemma {:induction false} CloseOfPending(s: State, a: nat)
    requires Inv(s) && AllWatched(s) && s.frames == [] && IsPending(s, a) && a == s.connectionAttempt
    ensures HasOutcome(Next(Next(s, OnClose(a)), Resume), a, Rejected) && !s.connected
  {
    assert Watched(s, a) && HoldsOn(s, a) && !WillReject(s, a);
    ReportedFailure(Next(s, OnClose(a)), a);
  }

  lemma {:induction false} ReportedFailure(s: State, a: nat)
    requires s.frames == [Closing(a, false, false)] && IsPending(s, a)
    ensures HasOutcome(Next(s, Resume), a, Rejected)
  {
  }

  lemma {:induction false} CloseOfLive(s: State, a: nat)
    requires s.frames == [] && HasSocket(s, a) && a == s.connectionAttempt && s.connected && !s.attempts[a].closeHandled
    ensures var t := Next(s, OnClose(a));
            !t.connected && !t.flushArmed && t.frames == [Closing(a, true, false)]
  {
  }

  lemma {:induction false} ReportedLoss(s: State, a: nat)
    requires s.frames == [Closing(a, true, false)] && (s.reconnectTimer.Some? ==> s.reconnectTimer.value < |s.timers|)
    ensures var r := Next(s, Resume);
            && (r.reconnectTimer == Some(|s.timers|) <==> Retries(s))
            && (Retries(s) ==> r.timers == s.timers + [s.disconnectGeneration])
            && r.frames == [] && r.finalizer != Some(a) && r.connectionAttempt == s.connectionAttempt
  {
  }

  /** In every run: a close event rejects a pending connect() exactly if its attempt is the current one. */
  lemma {:induction false} CloseRejectsTheCurrent(autoReconnect: bool, max: nat, steps: seq<Step>, a: nat)
    requires var s := Run(Init(autoReconnect, max), steps); s.frames == [] && HasSocket(s, a)
    ensures var s := Run(Init(autoReconnect, max), steps);
            var r := Next(Next(s, OnClose(a)), Resume);
            && (IsPending(s, a) ==> (HasOutcome(r, a, Rejected) <==> a == s.connectionAttempt))
            && (a != s.connectionAttempt ==> r == s)
  {
    var s := Run(Init(autoReconnect, max), steps);
    RunKeepsAll(Init(autoReconnect, max), steps);
    if a != s.connectionAttempt {
      LateEvent(s, OnClose(a), a);
    } else if IsPending(s, a) {
      CloseOfPending(s, a);
    }
  }

  /**
    * In every run: the first close of the live current connection disconnects the relay and, when the handlers
    * return, arms a reconnect timer of the present generation exactly if reconnecting is enabled and the budget is
    * not used up.
    */
  lemma {:induction false} LostConnectionIsRetried(autoReconnect: bool, max: nat, steps: seq<Step>, a: nat)
    requires var s := Run(Init(autoReconnect, max), steps);
      s.frames == [] && HasSocket(s, a) && a == s.connectionAttempt && s.connected && !s.attempts[a].closeHandled
    ensures var s := Run(Init(autoReconnect, max), steps);
            var t := Next(s, OnClose(a));
            var r := Next(t, Resume);
            && !t.connected && !t.flushArmed && r.frames == []
            && (r.reconnectTimer == Some(|s.timers|) <==> Retries(s))
            && (Retries(s) ==> r.timers == s.timers + [s.disconnectGeneration])
            && r.finalizer != Some(a) && r.connectionAttempt == s.connectionAttempt
  {
    var s := Run(Init(autoReconnect, max), steps);
    RunKeepsInv(Init(autoReconnect, max), steps);
    CloseOfLive(s, a);
    ReportedLoss(Next(s, OnClose(a)), a);
  }

  // ---------------------------------------------------------------- whose finalizer is held

  /** The held finalizer is of an attempt that did not fail, and was not closed unless that is being reported. */
  ghost predicate FinalizerIsLive(s: State) {
    s.finalizer.Some? ==>
      var a := s.finalizer.value;
      && a in s.attempts && s.attempts[a].outcome != Rejected
      && (s.attempts[a].closeHandled ==> exists i :: 0 <= i < |s.frames| && s.frames[i].Closing? && s.frames[i].attempt == a)
  }

  lemma {:induction false} FailKeepsFinalizer(s: State, a: nat)
    requires FinalizerIsLive(s)
    ensures FinalizerIsLive(FailAttempt(s, a))
  {
  }

  lemma {:induction false} EndFrameKeepsFinalizer(s: State, f: Frame)
    requires s.finalizer.Some? && !(f.Closing? && s.finalizer == Some(f.attempt)) ==> FinalizerIsLive(s)
    ensures FinalizerIsLive(EndFrame(s, f))
  {
    match f {
      case Opening(a) =>
      case Closing(a, wasConnected, _) =>
        var freed := s.(finalizer := ClearFinalizer(s.finalizer, a));
        assert FinalizerIsLive(freed);
        if !wasConnected { FailKeepsFinalizer(freed, a); }
      case TimingOut(a) => FailKeepsFinalizer(s.(ws := None), a);
      case Erroring(a) => FailKeepsFinalizer(s, a);
    }
  }

  lemma {:induction false} PopKeepsFinalizer(s: State)
    requires FinalizerIsLive(s) && s.frames != []
    ensures FinalizerIsLive(ResumeTop(s))
  {
    var n := |s.frames| - 1;
    var f, rest := s.frames[n], Popped(s);
    if s.finalizer.Some? && !(f.Closing? && s.finalizer == Some(f.attempt)) {
      var a := s.finalizer.value;
      if s.attempts[a].closeHandled {
        var i :| 0 <= i < |s.frames| && s.frames[i].Closing? && s.frames[i].attempt == a;
        assert rest.frames[i] == s.frames[i];
      }
    }
    EndFrameKeepsFinalizer(rest, f);
  }

  lemma {:induction false} PushKeepsFinalizer(s: State, r: State)
    requires FinalizerIsLive(s) && |r.frames| > 0 && r.frames == s.frames + [r.frames[|r.frames| - 1]]
    requires r.finalizer == s.finalizer && s.attempts.Keys <= r.attempts.Keys
    requires forall a :: a in s.attempts ==> r.attempts[a].outcome == s.attempts[a].outcome
    requires forall a :: a in s.attempts && r.attempts[a].closeHandled && !s.attempts[a].closeHandled ==>
               var f := r.frames[|r.frames| - 1]; f.Closing? && f.attempt == a
    ensures FinalizerIsLive(r)
  {
    if s.finalizer.Some? {
      var a := s.finalizer.value;
      if s.attempts[a].closeHandled {
        var i :| 0 <= i < |s.frames| && s.frames[i].Closing? && s.frames[i].attempt == a;
        assert r.frames[i] == s.frames[i];
      }
    }
  }

  lemma {:induction false} CloseKeepsFinalizer(s: State, a: nat, byUser: bool)
    requires FinalizerIsLive(s)
    ensures FinalizerIsLive(BeginClose(s, a, byUser))
  {
    var r := BeginClose(s, a, byUser);
    if r != s { PushKeepsFinalizer(s, r); }
  }

  lemma {:induction false} TurnKeepsFinalizer(s: State, e: Step)
    requires FinalizerIsLive(s) && Enabled(s, e) && (e.OnOpen? || e.OnError? || e.OnTimeout?)
    ensures FinalizerIsLive(Next(s, e))
  {
    var r := Next(s, e);
    if r.frames != s.frames { PushKeepsFinalizer(s, r); }
  }

  lemma {:induction false} ConnectKeepsFinalizer(s: State, created: bool)
    requires FinalizerIsLive(s)
    ensures FinalizerIsLive(Connect(s, created))
  {
  }

  lemma {:induction false} OtherKeepsFinalizer(s: State, e: Step)
    requires FinalizerIsLive(s) && Enabled(s, e) && (e.OnCatch? || e.OnSettled?)
    ensures FinalizerIsLive(Next(s, e))
  {
  }

  lemma {:induction false} NextKeepsFinalizer(s: State, e: Step)
    requires FinalizerIsLive(s)
    ensures FinalizerIsLive(Next(s, e))
  {
    if Enabled(s, e) {
      match e {
        case CallConnect(created) => ConnectKeepsFinalizer(s, created);
        case CallDisconnect =>
          var torn := TearDown(s);
          assert FinalizerIsLive(torn);
          if s.ws.Some? && s.finalizer.Some? { CloseKeepsFinalizer(torn, s.finalizer.value, true); }
        case SetAutoReconnect(_) =>
        case SetMaxReconnectAttempts(_) =>
        case Resume => PopKeepsFinalizer(s);
        case OnClose(a) => CloseKeepsFinalizer(s, a, false);
        case OnReconnectTimer(_, created) =>
          ConnectKeepsFinalizer(s.(reconnectTimer := None, reconnectAttempts := s.reconnectAttempts + 1), created);
        case OnCatch(_) => OtherKeepsFinalizer(s, e);
        case OnSettled(_) => OtherKeepsFinalizer(s, e);
        case _ => TurnKeepsFinalizer(s, e);
      }
    }
  }

  lemma {:induction false} RunKeepsFinalizer(s: State, steps: seq<Step>)
    requires FinalizerIsLive(s)
    ensures FinalizerIsLive(Run(s, steps))
    decreases |steps|
  {
    if steps == [] {
    } else {
      NextKeepsFinalizer(s, steps[0]);
      RunKeepsFinalizer(Next(s, steps[0]), steps[1..]);
    }
  }

  /** In every run, between callbacks: disconnect() reports a close exactly of a socket that is held for an attempt
      that neither failed nor was closed, so of each attempt at most once. */
  lemma {:induction false} DisconnectReportsLiveSockets(autoReconnect: bool, max: nat, steps: seq<Step>)
    requires Run(Init(autoReconnect, max), steps).frames == []
    ensures var s := Run(Init(autoReconnect, max), steps);
            var frames := Next(s, CallDisconnect).frames;
            && (frames != [] <==> s.ws.Some? && s.finalizer.Some?)
            && (s.finalizer.Some? ==> && s.finalizer.value in s.attempts && !s.attempts[s.finalizer.value].closeHandled
                                      && s.attempts[s.finalizer.value].outcome != Rejected)
            && (frames != [] ==> frames == [Closing(s.finalizer.value, false, true)])
  {
    RunKeepsFinalizer(Init(autoReconnect, max), steps);
  }

  /** In every run: after the connection timeout of the current attempt no socket, promise or finalizer of it is held. */
  lemma {:induction false} TimeoutReleasesSocket(autoReconnect: bool, max: nat, steps: seq<Step>)
    requires var s := Run(Init(autoReconnect, max), steps); s.frames == [] && IsPending(s, s.connectionAttempt)
    ensures var s := Run(Init(autoReconnect, max), steps);
            var r := Next(Next(s, OnTimeout(s.connectionAttempt)), Resume);
            r.ws.None? && r.connectionPromise.None? && r.finalizer.None? && r.frames == []
  {
    RunKeepsAll(Init(autoReconnect, max), steps);
    var s := Run(Init(autoReconnect, max), steps);
    assert Watched(s, s.connectionAttempt);
    WatchedIsCurrent(s, s.connectionAttempt);
    assert Next(s, OnTimeout(s.connectionAttempt)).frames == [TimingOut(s.connectionAttempt)];
  }

  // ---------------------------------------------------------------- connect() from inside a handler

  /** The rest of this callback leaves the current attempt number alone. */
  predicate Harmless(f: Frame) {
    f.Opening? || (f.Closing? && f.wasConnected)
  }

  ghost predicate AllHarmless(frames: seq<Frame>) {
    forall i :: 0 <= i < |frames| ==> Harmless(frames[i])
  }

  lemma {:induction false} AllHarmlessButLast(frames: seq<Frame>)
    requires frames != [] && Harmless(frames[|frames| - 1])
    ensures AllHarmless(frames) <==> AllHarmless(frames[..|frames| - 1])
  {
  }

  lemma {:induction false} DrainMovesOn(s: State)
    requires !s.connected && s.connectionPromise.Some?
    ensures var d := Run(s, Drain(|s.frames|));
            && d.frames == [] && d.connectionAttempt >= s.connectionAttempt && d.attempts.Keys == s.attempts.Keys
            && !d.connected
            && (d.connectionAttempt == s.connectionAttempt <==> AllHarmless(s.frames))
            && (forall a :: HasSocket(s, a) <==> HasSocket(d, a))
    decreases |s.frames|
  {
    if s.frames == [] {
    } else {
      var n := |s.frames| - 1;
      var rest, r := s.(frames := s.frames[..n]), ResumeTop(s);
      DrainStep(s);
      EndFrameMovesOn(rest, s.frames[n]);
      if Harmless(s.frames[n]) {
        AllHarmlessButLast(s.frames);
        DrainMovesOn(r);
      } else {
        assert !AllHarmless(s.frames);
        DrainNeverBack(r);
      }
    }
  }

  lemma {:induction false} EndFrameMovesOn(s: State, f: Frame)
    requires !s.connected
    ensures var r := EndFrame(s, f);
            && r.frames == s.frames && !r.connected && r.attempts.Keys == s.attempts.Keys
            && r.connectionAttempt >= s.connectionAttempt
            && (forall a :: HasSocket(s, a) <==> HasSocket(r, a))
            && (Harmless(f) ==> r.connectionAttempt == s.connectionAttempt && r.connectionPromise == s.connectionPromise)
            && (!Harmless(f) && s.connectionPromise.Some? ==> r.connectionAttempt > s.connectionAttempt)
  {
    match f {
      case Opening(a) =>
      case Closing(a, wasConnected, _) =>
        if !wasConnected { FailMovesOn(s.(finalizer := ClearFinalizer(s.finalizer, a)), a); }
      case TimingOut(a) => FailMovesOn(s.(ws := None), a);
      case Erroring(a) => FailMovesOn(s, a);
    }
  }

  lemma {:induction false} FailMovesOn(s: State, a: nat)
    requires !s.connected
    ensures var r := FailAttempt(s, a);
            && r.frames == s.frames && !r.connected && r.attempts.Keys == s.attempts.Keys
            && r.connectionAttempt == s.connectionAttempt + 1
            && (forall b :: HasSocket(s, b) <==> HasSocket(r, b))
  {
  }

  lemma {:induction false} DrainNeverBack(s: State)
    requires !s.connected
    ensures var d := Run(s, Drain(|s.frames|));
            && d.frames == [] && d.connectionAttempt >= s.connectionAttempt && d.attempts.Keys == s.attempts.Keys
            && !d.connected
            && (forall a :: HasSocket(s, a) <==> HasSocket(d, a))
    decreases |s.frames|
  {
    if s.frames == [] {
    } else {
      var n := |s.frames| - 1;
      DrainStep(s);
      EndFrameMovesOn(s.(frames := s.frames[..n]), s.frames[n]);
      DrainNeverBack(ResumeTop(s));
    }
  }

  /**
    * A connect() call made inside handlers can still succeed exactly when no callback on the stack is one that
    * fails its own attempt on return (connection timeout, error, or close before open).
    */
  lemma {:induction false} ConnectInsideHandlers(autoReconnect: bool, max: nat, before: seq<Step>)
    requires var s := Run(Init(autoReconnect, max), before); !s.connected && s.connectionPromise.None?
    ensures var s := Run(Init(autoReconnect, max), before);
            var c := Connect(s, true);
            Next(Run(c, Drain(|c.frames|)), OnOpen(c.connectionAttempt)).connected <==> AllHarmless(s.frames)
  {
    var s := Run(Init(autoReconnect, max), before);
    RunKeepsInv(Init(autoReconnect, max), before);
    var c := Connect(s, true);
    DrainMovesOn(c);
    assert HasSocket(c, c.connectionAttempt);
  }

  // ---------------------------------------------------------------- the relay object

  /** The connection fields of a relay; each method is one atomic piece of its code and refines one step. */
  class Relay {
    var ws: Option<nat>
    var connected: bool
    var connectionAttempt: nat
    var disconnectGeneration: nat
    var connectionPromise: Option<nat>
    var finalizer: Option<nat>
    var flushArmed: bool
    var reconnectAttempts: nat
    var reconnectTimer: Option<nat>
    var timers: seq<nat>
    var autoReconnect: bool
    var maxReconnectAttempts: nat
    var attempts: map<nat, Attempt>
    var frames: seq<Frame>

    function View(): State
      reads this
    {
      State(ws, connected, connectionAttempt, disconnectGeneration, connectionPromise, finalizer, flushArmed,
            reconnectAttempts, reconnectTimer, timers, autoReconnect, maxReconnectAttempts, attempts, frames)
    }

    constructor (autoReconnect: bool, maxReconnectAttempts: nat)
      ensures View() == Init(autoReconnect, maxReconnectAttempts)
    {
      ws, connected, flushArmed := None, false, false;
      connectionAttempt, disconnectGeneration, reconnectAttempts := 0, 0, 0;
      connectionPromise, finalizer, reconnectTimer := None, None, None;
      timers, frames, attempts := [], [], map[];
      this.autoReconnect, this.maxReconnectAttempts := autoReconnect, maxReconnectAttempts;
    }

    method Connect(created: bool)
      modifies this
      ensures View() == Next(old(View()), CallConnect(created))
    {
      if connected || connectionPromise.Some? { return; }
      finalizer := None;
      connectionAttempt := connectionAttempt + 1;
      var attemptId := connectionAttempt;
      ws := None;
      if created {
        ws := Some(attemptId);
        finalizer := Some(attemptId);
        attempts := attempts[attemptId := Attempt(disconnectGeneration, true, true, false, Pending, false)];
      } else {
        attempts := attempts[attemptId := Attempt(disconnectGeneration, false, false, false, Rejected, false)];
      }
      connectionPromise := Some(attemptId);
    }

    method Disconnect()
      modifies this
      ensures View() == Next(old(View()), CallDisconnect)
    {
      var held := finalizer;
      InvalidateAttempt();
      if ws.None? { return; }
      ws := None;
      if held.Some? { FinalizeClose(held.value, true); }
    }

    /** disconnect() up to its look at the socket. */
    method InvalidateAttempt()
      modifies this
      ensures View() == TearDown(old(View())).(ws := old(ws))
    {
      disconnectGeneration := disconnectGeneration + 1;
      connectionAttempt := connectionAttempt + 1;
      connectionPromise := None;
      CancelReconnect();
      flushArmed := false;
      connected := false;
    }

    method ClearConnectionTimer(attemptId: nat)
      modifies this`attempts
      ensures View() == Disarm(old(View()), attemptId)
    {
      if attemptId in attempts {
        attempts := attempts[attemptId := attempts[attemptId].(timerArmed := false)];
      }
    }

    /** finalizeClose until its Disconnect event is delivered. */
    method FinalizeClose(attemptId: nat, byUser: bool)
      modifies this
      ensures View() == BeginClose(old(View()), attemptId, byUser)
    {
      if attemptId !in attempts || attempts[attemptId].closeHandled { return; }
      if !byUser && attemptId != connectionAttempt { return; }
      attempts := attempts[attemptId := attempts[attemptId].(closeHandled := true, timerArmed := false)];
      var wasConnected := connected;
      connected := false;
      flushArmed := false;
      frames := frames + [Closing(attemptId, wasConnected, byUser)];
    }

    method HandleClose(attemptId: nat)
      requires frames == [] && HasSocket(View(), attemptId)
      modifies this
      ensures View() == Next(old(View()), OnClose(attemptId))
    {
      FinalizeClose(attemptId, false);
    }

    method HandleOpen(attemptId: nat)
      requires frames == [] && HasSocket(View(), attemptId)
      modifies this
      ensures View() == Next(old(View()), OnOpen(attemptId))
    {
      if attemptId != connectionAttempt { return; }
      ClearConnectionTimer(attemptId);
      connected := true;
      reconnectAttempts := 0;
      CancelReconnect();
      flushArmed := true;
      frames := frames + [Opening(attemptId)];
    }

    method HandleError(attemptId: nat)
      requires frames == [] && HasSocket(View(), attemptId)
      modifies this
      ensures View() == Next(old(View()), OnError(attemptId))
    {
      if attemptId != connectionAttempt { return; }
      ClearConnectionTimer(attemptId);
      frames := frames + [Erroring(attemptId)];
    }

    method HandleTimeout(attemptId: nat)
      requires frames == [] && HasSocket(View(), attemptId)
      modifies this
      ensures View() == Next(old(View()), OnTimeout(attemptId))
    {
      ClearConnectionTimer(attemptId);
      if attemptId != connectionAttempt { return; }
      if ws.Some? && !connected {
        frames := frames + [TimingOut(attemptId)];
      }
    }

    /** The caller's handlers returned: run the rest of the innermost callback. */
    method ReturnFromHandlers()
      requires frames != []
      modifies this
      ensures View() == Next(old(View()), Step.Resume)
    {
      var n := |frames| - 1;
      var frame := frames[n];
      frames := frames[..n];
      match frame {
        case Opening(a) =>
          SettlePromise(a, Resolved);
        case Closing(a, wasConnected, byUser) =>
          FinishClose(a, wasConnected, byUser);
        case TimingOut(a) =>
          ws := None;
          Fail(a);
        case Erroring(a) =>
          if !connected && connectionPromise.Some? { Fail(a); }
      }
    }

    /** finalizeClose after its Disconnect event. */
    method FinishClose(attemptId: nat, wasConnected: bool, byUser: bool)
      modifies this
      ensures View() == EndClose(old(View()), Closing(attemptId, wasConnected, byUser))
    {
      if finalizer == Some(attemptId) { finalizer := None; }
      if !wasConnected {
        Fail(attemptId);
      } else if autoReconnect && !byUser {
        ArmReconnect();
      }
    }

    method SettlePromise(attemptId: nat, outcome: Outcome)
      modifies this`attempts
      ensures View() == SettleAttempt(old(View()), attemptId, outcome)
    {
      if attemptId in attempts && attempts[attemptId].outcome == Pending {
        attempts := attempts[attemptId := attempts[attemptId].(outcome := outcome)];
      }
      assert attempts == SettleAttempt(old(View()), attemptId, outcome).attempts;
    }

    method Fail(attemptId: nat)
      modifies this
      ensures View() == FailAttempt(old(View()), attemptId)
    {
      connectionPromise := None;
      if finalizer == Some(attemptId) { finalizer := None; }
      connectionAttempt := connectionAttempt + 1;
      SettlePromise(attemptId, Rejected);
    }

    method CancelReconnect()
      modifies this`reconnectTimer
      ensures reconnectTimer == None
    {
      reconnectTimer := None;
    }

    method ArmReconnect()
      modifies this
      ensures View() == ScheduleReconnect(old(View()))
    {
      CancelReconnect();
      if maxReconnectAttempts > 0 && reconnectAttempts >= maxReconnectAttempts { return; }
      reconnectTimer := Some(|timers|);
      timers := timers + [disconnectGeneration];
    }

    /** The catch() continuation of a rejected connection promise. */
    method CatchConnectFailure(attemptId: nat)
      requires frames == []
      modifies this
      ensures View() == Next(old(View()), OnCatch(attemptId))
    {
      if attemptId !in attempts { return; }
      var at := attempts[attemptId];
      if at.outcome != Rejected || at.caught { return; }
      attempts := attempts[attemptId := at.(caught := true)];
      if at.generation != disconnectGeneration { return; }
      if autoReconnect { ArmReconnect(); }
    }

    /** The clean-up continuation chained after the catch. */
    method ReleasePromise(attemptId: nat)
      requires frames == []
      modifies this
      ensures View() == Next(old(View()), OnSettled(attemptId))
    {
      if attemptId !in attempts { return; }
      var at := attempts[attemptId];
      if at.outcome == Pending || (at.outcome == Rejected && !at.caught) { return; }
      if connectionPromise == Some(attemptId) { connectionPromise := None; }
    }

    method FireReconnect(timer: nat, created: bool)
      requires frames == []
      modifies this
      ensures View() == Next(old(View()), OnReconnectTimer(timer, created))
    {
      if reconnectTimer != Some(timer) || timer >= |timers| { return; }
      reconnectTimer := None;
      if timers[timer] != disconnectGeneration { return; }
      reconnectAttempts := reconnectAttempts + 1;
      Connect(created);
    }

    method EnableAutoReconnect(enable: bool)
      modifies this
      ensures View() == Next(old(View()), SetAutoReconnect(enable))
    {
      autoReconnect := enable;
      if !enable { CancelReconnect(); }
    }

    method LimitReconnectAttempts(max: nat)
      modifies this
      ensures View() == Next(old(View()), SetMaxReconnectAttempts(max))
    {
      maxReconnectAttempts := max;
    }
  }
}
