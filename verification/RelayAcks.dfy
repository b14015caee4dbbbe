/**
  * Waiting for an acknowledgement: the handler lists of a relay, the loop that calls them while they
  * take themselves off the list, and the waiters of sendClientMessage.
  */
module RelayAcks {
  import opened Wrappers

  type EventId = string

  /** A list entry: the handler of a waiter, or a listener of the owner, which only observes. */
  datatype Handler = Waiter(id: nat) | Listener(name: string)

  datatype Channel = OnOk | OnError | OnDisconnect

  datatype Reply = Acknowledged(success: bool) | Failed | Disconnected | TimedOut | SendFailed

  /** One waiting sendClientMessage; `resolves` counts the calls of its resolve function. */
  datatype Wait = Wait(ackId: EventId, timerArmed: bool, resolves: nat, reply: Option<Reply>)

  datatype State = State(ok: seq<Handler>, error: seq<Handler>, disconnect: seq<Handler>, waits: map<nat, Wait>)

  datatype Step =
    | Send(id: nat, ackId: EventId, sendThrows: bool)
    | OkMessage(eventId: EventId, success: bool)
    | ErrorEvent(about: set<EventId>)   // the one id in its details, or every waited-for id its message contains
    | DisconnectEvent
    | TimerFires(id: nat)
    | AddListener(channel: Channel, name: string)
    | RemoveListener(channel: Channel, name: string)

  function Init(): State {
    State([], [], [], map[])
  }

  function List(s: State, c: Channel): seq<Handler> {
    match c case OnOk => s.ok case OnError => s.error case OnDisconnect => s.disconnect
  }

  function WithList(s: State, c: Channel, l: seq<Handler>): State {
    match c case OnOk => s.(ok := l) case OnError => s.(error := l) case OnDisconnect => s.(disconnect := l)
  }

  /** on: at the end, unless already there. */
  function Add(l: seq<Handler>, h: Handler): seq<Handler> {
    if h in l then l else l + [h]
  }

  /** off: the first occurrence is spliced out. */
  function Remove(l: seq<Handler>, h: Handler): seq<Handler> {
    if l == [] then [] else if l[0] == h then l[1..] else [l[0]] + Remove(l[1..], h)
  }

  /** Cleanup and resolve of one waiter. */
  function Resolve(s: State, id: nat, reply: Reply): State
    requires id in s.waits
  {
    var w := s.waits[id];
    var h := Waiter(id);
    State(Remove(s.ok, h), Remove(s.error, h), Remove(s.disconnect, h),
          s.waits[id := w.(timerArmed := false, resolves := w.resolves + 1,
                           reply := if w.reply.None? then Some(reply) else w.reply)])
  }

  /** Whether a waiter's handler acts on this event; listeners never do. */
  predicate Acts(s: State, h: Handler, e: Step) {
    h.Waiter? && h.id in s.waits &&
    match e
    case OkMessage(eventId, _) => s.waits[h.id].ackId == eventId
    case ErrorEvent(about) => s.waits[h.id].ackId in about
    case DisconnectEvent => true
    case _ => false
  }

  function ReplyTo(e: Step): Reply {
    match e
    case OkMessage(_, success) => Acknowledged(success)
    case ErrorEvent(_) => Failed
    case _ => Disconnected
  }

  function ChannelOf(e: Step): Channel {
    match e case OkMessage(_, _) => OnOk case ErrorEvent(_) => OnError case _ => OnDisconnect
  }

  /**
    * triggerEvent: forEach visits indices below the length the list had at the start and skips those beyond its
    * current length; a handler that takes itself off shifts the rest of the list under the moving index.
    */
  function Trigger(s: State, e: Step, index: nat, length: nat): State
    decreases length - index
  {
    var l := List(s, ChannelOf(e));
    if index >= length || index >= |l| then s
    else Trigger(if Acts(s, l[index], e) then Resolve(s, l[index].id, ReplyTo(e)) else s, e, index + 1, length)
  }

  predicate Enabled(s: State, e: Step) {
    match e
    case Send(id, _, _) => id !in s.waits
    case TimerFires(id) => id in s.waits && s.waits[id].timerArmed
    case _ => true
  }

  function Register(s: State, id: nat, ackId: EventId): State {
    var h := Waiter(id);
    State(Add(s.ok, h), Add(s.error, h), Add(s.disconnect, h), s.waits[id := Wait(ackId, true, 0, None)])
  }

  function Next(s: State, e: Step): State {
    if !Enabled(s, e) then s else
    match e
    case Send(id, ackId, sendThrows) =>
      var r := Register(s, id, ackId);
      if sendThrows then Resolve(r, id, SendFailed) else r
    case TimerFires(id) => Resolve(s, id, TimedOut)
    case AddListener(c, name) => WithList(s, c, Add(List(s, c), Listener(name)))
    case RemoveListener(c, name) => WithList(s, c, Remove(List(s, c), Listener(name)))
    case _ => Trigger(s, e, 0, |List(s, ChannelOf(e))|)
  }

  function Run(s: State, steps: seq<Step>): State
    decreases |steps|
  {
    if steps == [] then s else Run(Next(s, steps[0]), steps[1..])
  }

  // ---------------------------------------------------------------- invariant

  ghost predicate NoDuplicates(l: seq<Handler>) {
    forall i, j :: 0 <= i < j < |l| ==> l[i] != l[j]
  }

  ghost predicate ListsDistinct(s: State) {
    NoDuplicates(s.ok) && NoDuplicates(s.error) && NoDuplicates(s.disconnect)
  }

  /** A waiter owns its three handlers and an armed timer until its only resolve, and nothing afterwards. */
  ghost predicate Owned(s: State, id: nat) {
    var h := Waiter(id);
    var pending := id in s.waits && s.waits[id].resolves == 0;
    && (h in s.ok <==> pending) && (h in s.error <==> pending) && (h in s.disconnect <==> pending)
    && (id in s.waits ==> s.waits[id].resolves <= 1 && (s.waits[id].timerArmed <==> pending)
                          && (s.waits[id].reply.None? <==> pending))
  }

  lemma {:induction false} RemoveContents(l: seq<Handler>, h: Handler)
    requires NoDuplicates(l)
    ensures NoDuplicates(Remove(l, h)) && h !in Remove(l, h)
    ensures forall x :: x in Remove(l, h) <==> x in l && x != h
  {
    if l == [] {
    } else {
      assert forall x :: x in l <==> x == l[0] || x in l[1..];
      RemoveContents(l[1..], h);
      if l[0] != h {
        var r := Remove(l[1..], h);
        assert l[0] !in l[1..];
        assert Remove(l, h) == [l[0]] + r;
      }
    }
  }

  lemma {:induction false} AddContents(l: seq<Handler>, h: Handler)
    requires NoDuplicates(l)
    ensures NoDuplicates(Add(l, h)) && forall x :: x in Add(l, h) <==> x in l || x == h
  {
  }

  lemma {:induction false} ResolveKeeps(s: State, id: nat, reply: Reply, k: nat)
    requires ListsDistinct(s) && Owned(s, k) && id in s.waits && (k == id ==> s.waits[id].resolves == 0)
    ensures ListsDistinct(Resolve(s, id, reply)) && Owned(Resolve(s, id, reply), k)
  {
    RemoveContents(s.ok, Waiter(id));
    RemoveContents(s.error, Waiter(id));
    RemoveContents(s.disconnect, Waiter(id));
  }

  ghost predicate Inv(s: State) {
    ListsDistinct(s) && forall id: nat :: Owned(s, id)
  }

  lemma {:induction false} ResolveKeepsInv(s: State, id: nat, reply: Reply)
    requires Inv(s) && id in s.waits && s.waits[id].resolves == 0
    ensures Inv(Resolve(s, id, reply))
  {
    var r := Resolve(s, id, reply);
    assert Owned(s, id);
    ResolveKeeps(s, id, reply, id);
    forall k: nat ensures Owned(r, k) {
      assert Owned(s, k);
      ResolveKeeps(s, id, reply, k);
    }
  }

  lemma {:induction false} TriggerKeepsInv(s: State, e: Step, index: nat, length: nat)
    requires Inv(s)
    ensures Inv(Trigger(s, e, index, length))
    decreases length - index
  {
    var l := List(s, ChannelOf(e));
    if index < length && index < |l| {
      var h := l[index];
      if Acts(s, h, e) {
        assert Owned(s, h.id);
        assert h in l;
        ResolveKeepsInv(s, h.id, ReplyTo(e));
      }
      TriggerKeepsInv(if Acts(s, h, e) then Resolve(s, h.id, ReplyTo(e)) else s, e, index + 1, length);
    }
  }

  lemma {:induction false} RegisterKeepsInv(s: State, id: nat, ackId: EventId)
    requires Inv(s) && id !in s.waits
    ensures Inv(Register(s, id, ackId))
  {
    var h := Waiter(id);
    AddContents(s.ok, h);
    AddContents(s.error, h);
    AddContents(s.disconnect, h);
    var r := Register(s, id, ackId);
    forall k: nat ensures Owned(r, k) {
      assert Owned(s, k);
    }
  }

  lemma {:induction false} ListenerKeepsInv(s: State, c: Channel, name: string)
    requires Inv(s)
    ensures Inv(WithList(s, c, Add(List(s, c), Listener(name))))
    ensures Inv(WithList(s, c, Remove(List(s, c), Listener(name))))
  {
    AddContents(List(s, c), Listener(name));
    RemoveContents(List(s, c), Listener(name));
    forall r, k: nat | r in {WithList(s, c, Add(List(s, c), Listener(name))), WithList(s, c, Remove(List(s, c), Listener(name)))}
      ensures Owned(r, k)
    {
      assert Owned(s, k);
    }
  }

  lemma {:induction false} NextKeepsInv(s: State, e: Step)
    requires Inv(s)
    ensures Inv(Next(s, e))
  {
    if Enabled(s, e) {
      match e {
        case Send(id, ackId, sendThrows) =>
          RegisterKeepsInv(s, id, ackId);
          if sendThrows { ResolveKeepsInv(Register(s, id, ackId), id, SendFailed); }
        case TimerFires(id) =>
          assert Owned(s, id);
          ResolveKeepsInv(s, id, TimedOut);
        case AddListener(c, name) => ListenerKeepsInv(s, c, name);
        case RemoveListener(c, name) => ListenerKeepsInv(s, c, name);
        case _ => TriggerKeepsInv(s, e, 0, |List(s, ChannelOf(e))|);
      }
    }
  }

  lemma {:induction false} RunKeepsInv(s: State, steps: seq<Step>)
    requires Inv(s)
    ensures Inv(Run(s, steps))
    decreases |steps|
  {
    if steps == [] {
    } else {
      NextKeepsInv(s, steps[0]);
      RunKeepsInv(Next(s, steps[0]), steps[1..]);
    }
  }

  /**
    * In every run a waiting sendClientMessage settles at most once; until then its three handlers are registered and
    * its timer is armed, and afterwards it owns no handler and no timer.
    */
  lemma {:induction false} WaitersSettleOnce(steps: seq<Step>, id: nat)
    ensures Owned(Run(Init(), steps), id)
  {
    RunKeepsInv(Init(), steps);
  }

  // ---------------------------------------------------------------- who is called by one pass

  /** What a pass leaves on the list: whoever follows a handler that took itself off is skipped. */
  function Survivors(s: State, l: seq<Handler>, e: Step): seq<Handler>
    decreases |l|
  {
    if l == [] then []
    else if !Acts(s, l[0], e) then [l[0]] + Survivors(s, l[1..], e)
    else if |l| == 1 then []
    else [l[1]] + Survivors(s, l[2..], e)
  }

  /** The acting handlers a pass calls. */
  function CalledActors(s: State, l: seq<Handler>, e: Step): seq<Handler>
    decreases |l|
  {
    if l == [] then []
    else if !Acts(s, l[0], e) then CalledActors(s, l[1..], e)
    else [l[0]] + (if |l| == 1 then [] else CalledActors(s, l[2..], e))
  }

  lemma {:induction false} RemoveAt(l: seq<Handler>, i: nat)
    requires NoDuplicates(l) && i < |l|
    ensures Remove(l, l[i]) == l[..i] + l[i + 1..]
  {
    if i == 0 {
    } else {
      assert l[0] != l[i];
      RemoveAt(l[1..], i - 1);
    }
  }

  /** Waiters keep the event ids they wait for. */
  ghost predicate SameActs(s: State, t: State, e: Step) {
    forall h :: Acts(s, h, e) == Acts(t, h, e)
  }

  lemma {:induction false} SameSurvivors(s: State, t: State, l: seq<Handler>, e: Step)
    requires SameActs(s, t, e)
    ensures Survivors(s, l, e) == Survivors(t, l, e) && CalledActors(s, l, e) == CalledActors(t, l, e)
    decreases |l|
  {
    if l == [] {
    } else {
      assert Acts(s, l[0], e) == Acts(t, l[0], e);
      SameSurvivors(s, t, l[1..], e);
      if |l| > 1 { SameSurvivors(s, t, l[2..], e); }
    }
  }

  function AfterResolve(w: Wait, reply: Reply): Wait {
    w.(timerArmed := false, resolves := w.resolves + 1, reply := if w.reply.None? then Some(reply) else w.reply)
  }

  /** The pass called exactly the given actors, once each. */
  ghost predicate Resolved(s: State, t: State, actors: seq<Handler>, reply: Reply) {
    && t.waits.Keys == s.waits.Keys
    && forall id :: id in s.waits ==>
         t.waits[id] == if Waiter(id) in actors then AfterResolve(s.waits[id], reply) else s.waits[id]
  }

  lemma {:induction false} ResolveActs(s: State, id: nat, reply: Reply, e: Step)
    requires id in s.waits
    ensures SameActs(s, Resolve(s, id, reply), e)
  {
  }

  lemma {:induction false} ResolveList(s: State, c: Channel, i: nat, reply: Reply)
    requires ListsDistinct(s) && i < |List(s, c)| && List(s, c)[i].Waiter? && List(s, c)[i].id in s.waits
    ensures List(Resolve(s, List(s, c)[i].id, reply), c) == List(s, c)[..i] + List(s, c)[i + 1..]
    ensures ListsDistinct(Resolve(s, List(s, c)[i].id, reply))
  {
    RemoveAt(List(s, c), i);
    RemoveContents(s.ok, List(s, c)[i]);
    RemoveContents(s.error, List(s, c)[i]);
    RemoveContents(s.disconnect, List(s, c)[i]);
  }

  lemma {:induction false} ActorsAreOnTheList(s: State, l: seq<Handler>, e: Step)
    ensures forall h :: h in CalledActors(s, l, e) ==> h in l
    decreases |l|
  {
    if l == [] {
    } else {
      ActorsAreOnTheList(s, l[1..], e);
      if |l| > 1 { ActorsAreOnTheList(s, l[2..], e); }
    }
  }

  /** One pass, described by who survives and who is called. */
  lemma {:induction false} PassOutcome(s: State, e: Step, index: nat, length: nat)
    requires ListsDistinct(s) && index <= |List(s, ChannelOf(e))| <= length
    ensures PassDescribed(s, Trigger(s, e, index, length), e, index)
    decreases length - index
  {
    var l := List(s, ChannelOf(e));
    if index == |l| {
      assert l[..index] + [] == l;
    } else if Acts(s, l[index], e) {
      PassActs(s, e, index, length);
    } else {
      PassOutcome(s, e, index + 1, length);
      PassSpares(s, Trigger(s, e, index + 1, length), e, index);
    }
  }

  lemma {:induction false} PassSpares(s: State, t: State, e: Step, index: nat)
    requires index < |List(s, ChannelOf(e))| && !Acts(s, List(s, ChannelOf(e))[index], e)
    requires PassDescribed(s, t, e, index + 1)
    ensures PassDescribed(s, t, e, index)
  {
    var l := List(s, ChannelOf(e));
    var rest := l[index..];
    assert rest[1..] == l[index + 1..];
    assert l[..index] + ([l[index]] + Survivors(s, rest[1..], e)) == l[..index + 1] + Survivors(s, rest[1..], e);
  }

  ghost predicate PassDescribed(s: State, t: State, e: Step, index: nat)
    requires index <= |List(s, ChannelOf(e))|
  {
    var l := List(s, ChannelOf(e));
    && List(t, ChannelOf(e)) == l[..index] + Survivors(s, l[index..], e)
    && Resolved(s, t, CalledActors(s, l[index..], e), ReplyTo(e))
  }

  lemma {:induction false} PassActs(s: State, e: Step, index: nat, length: nat)
    requires ListsDistinct(s) && index < |List(s, ChannelOf(e))| <= length && Acts(s, List(s, ChannelOf(e))[index], e)
    ensures PassDescribed(s, Trigger(s, e, index, length), e, index)
    decreases length - index, 0
  {
    var c := ChannelOf(e);
    var l := List(s, c);
    var r := Resolve(s, l[index].id, ReplyTo(e));
    ResolveList(s, c, index, ReplyTo(e));
    if index + 1 == |l| {
      PassActsLast(s, r, e, index);
    } else {
      PassOutcome(r, e, index + 1, length);
      PassActsThenSkips(s, r, Trigger(r, e, index + 1, length), e, index);
    }
  }

  lemma {:induction false} PassActsLast(s: State, r: State, e: Step, index: nat)
    requires index + 1 == |List(s, ChannelOf(e))| && Acts(s, List(s, ChannelOf(e))[index], e)
    requires r == Resolve(s, List(s, ChannelOf(e))[index].id, ReplyTo(e))
    requires List(r, ChannelOf(e)) == List(s, ChannelOf(e))[..index] + List(s, ChannelOf(e))[index + 1..]
    ensures PassDescribed(s, r, e, index)
  {
    var l := List(s, ChannelOf(e));
    assert l[index..] == [l[index]];
  }

  lemma {:induction false} ActingHead(s: State, rest: seq<Handler>, e: Step)
    requires |rest| >= 2 && Acts(s, rest[0], e)
    ensures CalledActors(s, rest, e) == [rest[0]] + CalledActors(s, rest[2..], e)
    ensures Survivors(s, rest, e) == [rest[1]] + Survivors(s, rest[2..], e)
  {
  }

  lemma {:induction false} PassActsThenSkips(s: State, r: State, t: State, e: Step, index: nat)
    requires ListsDistinct(s) && index + 1 < |List(s, ChannelOf(e))| && Acts(s, List(s, ChannelOf(e))[index], e)
    requires r == Resolve(s, List(s, ChannelOf(e))[index].id, ReplyTo(e))
    requires List(r, ChannelOf(e)) == List(s, ChannelOf(e))[..index] + List(s, ChannelOf(e))[index + 1..]
    requires PassDescribed(r, t, e, index + 1)
    ensures PassDescribed(s, t, e, index)
  {
    var l := List(s, ChannelOf(e));
    var h, later := l[index], l[index + 2..];
    var actors, kept := CalledActors(s, later, e), Survivors(s, later, e);
    ResolveActs(s, h.id, ReplyTo(e), e);
    SameSurvivors(s, r, later, e);
    SkipOne(l, List(r, ChannelOf(e)), index);
    ActingHead(s, l[index..], e);
    assert l[index..][2..] == later;
    assert List(t, ChannelOf(e)) == l[..index] + [l[index + 1]] + kept == l[..index] + ([l[index + 1]] + kept);
    assert Resolved(s, t, [h] + actors, ReplyTo(e)) by {
      ActorsAreOnTheList(s, later, e);
      NotFurtherOn(l, index);
      assert Resolved(r, t, actors, ReplyTo(e));
      CombineResolved(s, r, t, h, actors, ReplyTo(e));
    }
  }

  lemma {:induction false} NotFurtherOn(l: seq<Handler>, index: nat)
    requires NoDuplicates(l) && index + 1 < |l|
    ensures l[index] !in l[index + 2..]
  {
  }

  lemma {:induction false} SkipOne(l: seq<Handler>, shifted: seq<Handler>, index: nat)
    requires index + 1 < |l| && shifted == l[..index] + l[index + 1..]
    ensures shifted[..index + 1] == l[..index] + [l[index + 1]] && shifted[index + 1..] == l[index + 2..]
  {
  }

  lemma {:induction false} CombineResolved(s: State, r: State, t: State, h: Handler, actors: seq<Handler>, reply: Reply)
    requires h.Waiter? && h.id in s.waits && r == Resolve(s, h.id, reply) && h !in actors
    requires Resolved(r, t, actors, reply)
    ensures Resolved(s, t, [h] + actors, reply)
  {
  }

  lemma {:induction false} AlternateActors(s: State, l: seq<Handler>, e: Step)
    requires forall h :: h in l ==> Acts(s, h, e)
    ensures |CalledActors(s, l, e)| == (|l| + 1) / 2
    ensures forall i :: 0 <= i < (|l| + 1) / 2 ==> CalledActors(s, l, e)[i] == l[2 * i]
    decreases |l|
  {
    if |l| <= 1 {
    } else {
      AlternateActors(s, l[2..], e);
    }
  }

  /** When every handler on the list acts, a pass calls exactly those at even positions. */
  lemma {:induction false} AlternateActorsAreCalled(s: State, l: seq<Handler>, e: Step, i: nat)
    requires NoDuplicates(l) && i < |l| && forall h :: h in l ==> Acts(s, h, e)
    ensures l[i] in CalledActors(s, l, e) <==> i % 2 == 0
  {
    AlternateActors(s, l, e);
    EvenPositions(l, CalledActors(s, l, e), i);
  }

  lemma {:induction false} EvenPositions(l: seq<Handler>, called: seq<Handler>, i: nat)
    requires NoDuplicates(l) && i < |l| && |called| == (|l| + 1) / 2
    requires forall k :: 0 <= k < |called| ==> called[k] == l[2 * k]
    ensures l[i] in called <==> i % 2 == 0
  {
    var half := i / 2;
    if i == 2 * half {
      assert called[half] == l[i];
    } else {
      forall k | 0 <= k < |called| ensures called[k] != l[i] {
        assert called[k] == l[2 * k] && 2 * k != i;
      }
    }
  }

  lemma {:induction false} AlternateActorsSurvive(s: State, l: seq<Handler>, e: Step)
    requires forall h :: h in l ==> Acts(s, h, e)
    ensures |Survivors(s, l, e)| == |l| / 2 && forall i :: 0 <= i < |l| / 2 ==> Survivors(s, l, e)[i] == l[2 * i + 1]
    decreases |l|
  {
    if |l| <= 1 {
    } else {
      AlternateActorsSurvive(s, l[2..], e);
    }
  }

  /**
    * In any run: one Disconnect event while only waiters are registered for it settles exactly the waiters at even
    * positions; those at odd positions stay pending, registered, with their timers armed.
    */
  lemma {:induction false} DisconnectSettlesEveryOther(steps: seq<Step>, i: nat)
    requires forall h :: h in Run(Init(), steps).disconnect ==> h.Waiter?
    requires i < |Run(Init(), steps).disconnect|
    ensures var s := Run(Init(), steps);
            var t := Next(s, DisconnectEvent);
            var id := s.disconnect[i].id;
            && |t.disconnect| == |s.disconnect| / 2
            && (forall k :: 0 <= k < |t.disconnect| ==> t.disconnect[k] == s.disconnect[2 * k + 1])
            && id in s.waits && id in t.waits
            && (if i % 2 == 0 then t.waits[id].reply == Some(Disconnected) && !t.waits[id].timerArmed
                else t.waits[id] == s.waits[id] && t.waits[id].reply.None? && t.waits[id].timerArmed)
  {
    var s := Run(Init(), steps);
    var l := s.disconnect;
    RunKeepsInv(Init(), steps);
    forall h | h in l ensures Acts(s, h, DisconnectEvent) {
      assert Owned(s, h.id);
      assert h == Waiter(h.id);
    }
    PassOutcome(s, DisconnectEvent, 0, |l|);
    assert l[0..] == l;
    AlternateActorsAreCalled(s, l, DisconnectEvent, i);
    AlternateActorsSurvive(s, l, DisconnectEvent);
    assert l[i] in l && Owned(s, l[i].id);
    assert l[..0] + Survivors(s, l, DisconnectEvent) == Survivors(s, l, DisconnectEvent);
  }

  // ---------------------------------------------------------------- who is called, by position

  /** How many handlers in a row, directly before position i, act on the event. */
  function ActingBefore(s: State, l: seq<Handler>, e: Step, i: nat): nat
    requires i <= |l|
  {
    if i == 0 || !Acts(s, l[i - 1], e) then 0 else ActingBefore(s, l, e, i - 1) + 1
  }

  lemma {:induction false} BeforeWithoutFirst(s: State, l: seq<Handler>, e: Step, i: nat)
    requires 1 <= i <= |l| && !Acts(s, l[0], e)
    ensures ActingBefore(s, l[1..], e, i - 1) == ActingBefore(s, l, e, i)
  {
    if i == 1 {
    } else {
      BeforeWithoutFirst(s, l, e, i - 1);
    }
  }

  lemma {:induction false} BeforeWithoutTwo(s: State, l: seq<Handler>, e: Step, i: nat)
    requires 2 <= i <= |l| && Acts(s, l[0], e)
    ensures ActingBefore(s, l[2..], e, i - 2) % 2 == ActingBefore(s, l, e, i) % 2
  {
    if i == 2 {
      assert ActingBefore(s, l, e, 1) == 1;
    } else {
      BeforeWithoutTwo(s, l, e, i - 1);
    }
  }

  /** An acting handler is called exactly if the acting handlers directly before it are even in number. */
  lemma {:induction false} CalledExactly(s: State, l: seq<Handler>, e: Step, i: nat)
    requires NoDuplicates(l) && i < |l| && Acts(s, l[i], e)
    ensures l[i] in CalledActors(s, l, e) <==> ActingBefore(s, l, e, i) % 2 == 0
    decreases |l|
  {
    if !Acts(s, l[0], e) {
      BeforeWithoutFirst(s, l, e, i);
      CalledExactly(s, l[1..], e, i - 1);
    } else if i >= 2 {
      BeforeWithoutTwo(s, l, e, i);
      assert l[i] != l[0];
      CalledExactly(s, l[2..], e, i - 2);
    } else {
      ActorsAreOnTheList(s, if |l| > 1 then l[2..] else [], e);
    }
  }

  ghost predicate NoNeighboursAct(s: State, l: seq<Handler>, e: Step) {
    forall i :: 0 <= i < |l| - 1 ==> !(Acts(s, l[i], e) && Acts(s, l[i + 1], e))
  }

  ghost predicate AllCalled(s: State, l: seq<Handler>, e: Step) {
    forall i :: 0 <= i < |l| && Acts(s, l[i], e) ==> l[i] in CalledActors(s, l, e)
  }

  lemma {:induction false} ApartIsCalled(s: State, l: seq<Handler>, e: Step, i: nat)
    requires NoDuplicates(l) && NoNeighboursAct(s, l, e) && i < |l| && Acts(s, l[i], e)
    ensures l[i] in CalledActors(s, l, e)
  {
    CalledExactly(s, l, e, i);
    if i > 0 {
      var j := i - 1;
      assert l[j + 1] == l[i];
      assert !Acts(s, l[j], e);
    }
  }

  lemma {:induction false} NeighbourIsMissed(s: State, l: seq<Handler>, e: Step, i: nat)
    requires NoDuplicates(l) && i + 1 < |l| && Acts(s, l[i], e) && Acts(s, l[i + 1], e)
    ensures l[i] !in CalledActors(s, l, e) || l[i + 1] !in CalledActors(s, l, e)
  {
    CalledExactly(s, l, e, i);
    CalledExactly(s, l, e, i + 1);
  }

  /** A pass calls every acting handler exactly if no two of them are neighbours. */
  lemma {:induction false} AllCalledIfApart(s: State, l: seq<Handler>, e: Step)
    requires NoDuplicates(l)
    ensures AllCalled(s, l, e) <==> NoNeighboursAct(s, l, e)
  {
    if NoNeighboursAct(s, l, e) {
      forall i | 0 <= i < |l| && Acts(s, l[i], e) ensures l[i] in CalledActors(s, l, e) {
        ApartIsCalled(s, l, e, i);
      }
    } else {
      var i :| 0 <= i < |l| - 1 && Acts(s, l[i], e) && Acts(s, l[i + 1], e);
      NeighbourIsMissed(s, l, e, i);
    }
  }

  predicate IsEvent(e: Step) {
    e.OkMessage? || e.ErrorEvent? || e.DisconnectEvent?
  }

  lemma {:induction false} EventResolves(s: State, e: Step)
    requires Inv(s) && IsEvent(e)
    ensures Resolved(s, Next(s, e), CalledActors(s, List(s, ChannelOf(e)), e), ReplyTo(e))
  {
    var l := List(s, ChannelOf(e));
    PassOutcome(s, e, 0, |l|);
    assert l[0..] == l;
  }

  // ---------------------------------------------------------------- what each event answers

  /** An event answers a message in this way: an OK or an error by its id, a disconnect in any case. */
  predicate Answers(e: Step, ackId: EventId, r: Reply) {
    || (e.OkMessage? && e.eventId == ackId && r == Acknowledged(e.success))
    || (e.ErrorEvent? && ackId in e.about && r == Failed)
    || (e.DisconnectEvent? && r == Disconnected)
  }

  predicate Concerns(e: Step, ackId: EventId) {
    (e.OkMessage? && e.eventId == ackId) || (e.ErrorEvent? && ackId in e.about) || e.DisconnectEvent?
  }

  function HandlersOf(s: State, e: Step): seq<Handler> {
    if e.OkMessage? then s.ok else if e.ErrorEvent? then s.error else s.disconnect
  }

  predicate Concerned(s: State, h: Handler, e: Step) {
    h.Waiter? && h.id in s.waits && Concerns(e, s.waits[h.id].ackId)
  }

  /** How many handlers in a row, directly before position i, wait for this event. */
  function ConcernedBefore(s: State, e: Step, i: nat): nat
    requires i <= |HandlersOf(s, e)|
  {
    if i == 0 || !Concerned(s, HandlersOf(s, e)[i - 1], e) then 0 else ConcernedBefore(s, e, i - 1) + 1
  }

  lemma {:induction false} ConcernedAct(s: State, e: Step, i: nat)
    requires IsEvent(e) && i <= |HandlersOf(s, e)|
    ensures HandlersOf(s, e) == List(s, ChannelOf(e)) && forall h :: Acts(s, h, e) <==> Concerned(s, h, e)
    ensures ActingBefore(s, HandlersOf(s, e), e, i) == ConcernedBefore(s, e, i)
  {
    if i == 0 {
    } else {
      ConcernedAct(s, e, i - 1);
    }
  }

  /** Which waiters one event settles and how, in any run: of several in a row that it concerns, every other one. */
  lemma {:induction false} EventSettlesExactly(steps: seq<Step>, e: Step, i: nat, id: nat, r: Reply)
    requires var s := Run(Init(), steps);
      && i < |HandlersOf(s, e)| && HandlersOf(s, e)[i] == Waiter(id)
      && id in s.waits && Answers(e, s.waits[id].ackId, r)
    ensures var s := Run(Init(), steps);
            var t := Next(s, e);
            && id in t.waits
            && (if ConcernedBefore(s, e, i) % 2 == 0
                then t.waits[id].reply == Some(r) && !t.waits[id].timerArmed && t.waits[id].resolves == 1
                else t.waits[id] == s.waits[id] && t.waits[id].reply.None? && t.waits[id].timerArmed)
  {
    RunKeepsInv(Init(), steps);
    EventSettles(Run(Init(), steps), e, i, id, r);
  }

  lemma {:induction false} EventSettles(s: State, e: Step, i: nat, id: nat, r: Reply)
    requires Inv(s) && i < |HandlersOf(s, e)| && HandlersOf(s, e)[i] == Waiter(id)
    requires id in s.waits && Answers(e, s.waits[id].ackId, r)
    ensures var t := Next(s, e);
            && id in t.waits
            && (if ConcernedBefore(s, e, i) % 2 == 0
                then t.waits[id].reply == Some(r) && !t.waits[id].timerArmed && t.waits[id].resolves == 1
                else t.waits[id] == s.waits[id] && t.waits[id].reply.None? && t.waits[id].timerArmed)
  {
    var l := HandlersOf(s, e);
    ConcernedAct(s, e, i);
    EventResolves(s, e);
    CalledExactly(s, l, e, i);
    assert l[i] in l && Owned(s, id);
  }

  // ---------------------------------------------------------------- which step settled a waiter, and how

  predicate Unsettled(s: State, id: nat) {
    id in s.waits ==> s.waits[id].reply.None?
  }

  /** The steps that settle a waiter: its timer, its throwing send, or an event that reaches it. */
  ghost predicate Settles(s: State, e: Step, id: nat, r: Reply) {
    || (id in s.waits && e == TimerFires(id) && r == TimedOut)
    || (id !in s.waits && e.Send? && e.id == id && e.sendThrows && r == SendFailed)
    || (id in s.waits && Answers(e, s.waits[id].ackId, r)
        && exists i :: 0 <= i < |HandlersOf(s, e)| && HandlersOf(s, e)[i] == Waiter(id) && ConcernedBefore(s, e, i) % 2 == 0)
  }

  lemma {:induction false} StepSettlesExactly(s: State, e: Step, id: nat, r: Reply)
    requires Inv(s) && Unsettled(s, id)
    ensures HasReply(Next(s, e), id, r) <==> Settles(s, e, id, r)
  {
    assert Owned(s, id);
    if IsEvent(e) {
      EventStepSettles(s, e, id, r);
    }
  }

  predicate HasReply(s: State, id: nat, r: Reply) {
    id in s.waits && s.waits[id].reply == Some(r)
  }

  lemma {:induction false} EventStepSettles(s: State, e: Step, id: nat, r: Reply)
    requires Inv(s) && Unsettled(s, id) && IsEvent(e)
    ensures HasReply(Next(s, e), id, r) <==> Settles(s, e, id, r)
  {
    var l := HandlersOf(s, e);
    assert Owned(s, id);
    ConcernedAct(s, e, 0);
    EventResolves(s, e);
    ActorsAreOnTheList(s, l, e);
    if id in s.waits && Concerned(s, Waiter(id), e) {
      var answer := if e.OkMessage? then Acknowledged(e.success) else if e.ErrorEvent? then Failed else Disconnected;
      assert Waiter(id) in l;
      var i :| 0 <= i < |l| && l[i] == Waiter(id);
      EventSettles(s, e, i, id, answer);
      assert forall j :: 0 <= j < |l| && l[j] == Waiter(id) ==> j == i;
    } else {
      CalledAct(s, l, e);
    }
  }

  lemma {:induction false} CalledAct(s: State, l: seq<Handler>, e: Step)
    ensures forall h :: h in CalledActors(s, l, e) ==> Acts(s, h, e)
    decreases |l|
  {
    if l == [] {
    } else {
      CalledAct(s, l[1..], e);
      if |l| > 1 { CalledAct(s, l[2..], e); }
    }
  }

  /** A reply stands. */
  lemma {:induction false} NextKeepsReply(s: State, e: Step, id: nat, r: Reply)
    requires Inv(s) && HasReply(s, id, r)
    ensures HasReply(Next(s, e), id, r)
  {
    assert Owned(s, id);
    if IsEvent(e) {
      EventResolves(s, e);
    }
  }

  /** This step of the run settled the waiter with this reply. */
  ghost predicate SettledAt(steps: seq<Step>, k: nat, id: nat, r: Reply) {
    && k < |steps|
    && Unsettled(Run(Init(), steps[..k]), id) && Settles(Run(Init(), steps[..k]), steps[k], id, r)
  }

  /**
    * In every run a waiter has a reply exactly if some step settled it with that reply while it was unsettled:
    * an OK message of its id with the message's success, an error about its id, a disconnect, its timer, or its
    * own throwing send.
    */
  lemma {:induction false} RepliesAreExact(steps: seq<Step>, id: nat, r: Reply)
    ensures HasReply(Run(Init(), steps), id, r) <==> Settled(steps, id, r)
    decreases |steps|
  {
    if steps == [] {
    } else {
      var n := |steps| - 1;
      var s := Run(Init(), steps[..n]);
      assert steps == steps[..n] + [steps[n]];
      RunThen(Init(), steps[..n], steps[n]);
      RunKeepsInv(Init(), steps[..n]);
      RepliesAreExact(steps[..n], id, r);
      EarlierSettlements(steps, id, r);
      if Unsettled(s, id) {
        StepSettlesExactly(s, steps[n], id, r);
        assert Settles(s, steps[n], id, r) <==> SettledAt(steps, n, id, r);
      } else {
        NextKeepsReply(s, steps[n], id, s.waits[id].reply.value);
        assert !SettledAt(steps, n, id, r);
        assert HasReply(Next(s, steps[n]), id, r) <==> HasReply(s, id, r);
      }
    }
  }

  ghost predicate Settled(steps: seq<Step>, id: nat, r: Reply) {
    exists k: nat :: SettledAt(steps, k, id, r)
  }

  lemma {:induction false} EarlierSettlements(steps: seq<Step>, id: nat, r: Reply)
    requires steps != []
    ensures Settled(steps, id, r) <==> Settled(steps[..|steps| - 1], id, r) || SettledAt(steps, |steps| - 1, id, r)
  {
    var n := |steps| - 1;
    assert forall k :: 0 <= k < n ==> steps[..n][..k] == steps[..k] && steps[..n][k] == steps[k];
    if Settled(steps, id, r) {
      var k: nat :| SettledAt(steps, k, id, r);
      assert k == n || SettledAt(steps[..n], k, id, r);
    }
    if Settled(steps[..n], id, r) {
      var k: nat :| SettledAt(steps[..n], k, id, r);
      assert SettledAt(steps, k, id, r);
    }
  }

  /** The message id of the first send of this waiter. */
  function SentId(steps: seq<Step>, id: nat): Option<EventId>
    decreases |steps|
  {
    if steps == [] then None
    else
      var n := |steps| - 1;
      var earlier := SentId(steps[..n], id);
      if earlier.None? && steps[n].Send? && steps[n].id == id then Some(steps[n].ackId) else earlier
  }

  /** In every run exactly the sends made are waiters, each for the id of its own message. */
  lemma {:induction false} WaitersAreSends(steps: seq<Step>, id: nat)
    ensures var s := Run(Init(), steps);
            && (id in s.waits <==> SentId(steps, id).Some?)
            && (id in s.waits ==> s.waits[id].ackId == SentId(steps, id).value)
    decreases |steps|
  {
    if steps == [] {
    } else {
      var n := |steps| - 1;
      var s := Run(Init(), steps[..n]);
      assert steps == steps[..n] + [steps[n]];
      RunThen(Init(), steps[..n], steps[n]);
      RunKeepsInv(Init(), steps[..n]);
      WaitersAreSends(steps[..n], id);
      if IsEvent(steps[n]) {
        EventResolves(s, steps[n]);
      }
    }
  }

  // ---------------------------------------------------------------- the owner's listeners

  /** The last of the owner's calls about this listener added it. */
  predicate Listening(steps: seq<Step>, c: Channel, name: string)
    decreases |steps|
  {
    steps != [] &&
    var n := |steps| - 1;
    (steps[n] == AddListener(c, name) || (steps[n] != RemoveListener(c, name) && Listening(steps[..n], c, name)))
  }

  /** In every run exactly those listeners are on the lists, whatever the waiters do. */
  lemma {:induction false} ListenersStay(steps: seq<Step>, c: Channel, name: string)
    ensures Listener(name) in List(Run(Init(), steps), c) <==> Listening(steps, c, name)
    decreases |steps|
  {
    if steps == [] {
    } else {
      var n := |steps| - 1;
      assert steps == steps[..n] + [steps[n]];
      RunThen(Init(), steps[..n], steps[n]);
      RunKeepsInv(Init(), steps[..n]);
      ListenersStay(steps[..n], c, name);
      NextListens(Run(Init(), steps[..n]), steps[n], c, name);
    }
  }

  lemma {:induction false} SendKeepsListeners(s: State, e: Step, c: Channel, name: string)
    requires Inv(s) && (e.Send? || e.TimerFires?)
    ensures Listener(name) in List(Next(s, e), c) <==> Listener(name) in List(s, c)
  {
    if Enabled(s, e) {
      match e {
        case Send(id, ackId, _) =>
          RegisterKeepsInv(s, id, ackId);
          ResolveKeepsListeners(Register(s, id, ackId), id, SendFailed, c, name);
        case TimerFires(id) => ResolveKeepsListeners(s, id, TimedOut, c, name);
      }
    }
  }

  lemma {:induction false} CallChangesListeners(s: State, e: Step, c: Channel, name: string)
    requires Inv(s) && (e.AddListener? || e.RemoveListener?)
    ensures Listener(name) in List(Next(s, e), c) <==>
              e == AddListener(c, name) || (e != RemoveListener(c, name) && Listener(name) in List(s, c))
  {
    AddContents(List(s, e.channel), Listener(e.name));
    RemoveContents(List(s, e.channel), Listener(e.name));
  }

  lemma {:induction false} NextListens(s: State, e: Step, c: Channel, name: string)
    requires Inv(s)
    ensures Listener(name) in List(Next(s, e), c) <==>
              e == AddListener(c, name) || (e != RemoveListener(c, name) && Listener(name) in List(s, c))
  {
    if e.Send? || e.TimerFires? {
      SendKeepsListeners(s, e, c, name);
    } else if e.AddListener? || e.RemoveListener? {
      CallChangesListeners(s, e, c, name);
    } else {
      TriggerKeepsListeners(s, e, 0, |List(s, ChannelOf(e))|, c, name);
    }
  }

  lemma {:induction false} ResolveKeepsListeners(s: State, id: nat, reply: Reply, c: Channel, name: string)
    requires ListsDistinct(s) && id in s.waits
    ensures Listener(name) in List(Resolve(s, id, reply), c) <==> Listener(name) in List(s, c)
  {
    RemoveContents(List(s, c), Waiter(id));
  }

  lemma {:induction false} TriggerKeepsListeners(s: State, e: Step, index: nat, length: nat, c: Channel, name: string)
    requires Inv(s)
    ensures Listener(name) in List(Trigger(s, e, index, length), c) <==> Listener(name) in List(s, c)
    decreases length - index
  {
    var l := List(s, ChannelOf(e));
    if index >= length || index >= |l| {
    } else {
      var h := l[index];
      if Acts(s, h, e) {
        assert Owned(s, h.id) && h in l;
        ResolveKeepsInv(s, h.id, ReplyTo(e));
        ResolveKeepsListeners(s, h.id, ReplyTo(e), c, name);
      }
      TriggerKeepsListeners(if Acts(s, h, e) then Resolve(s, h.id, ReplyTo(e)) else s, e, index + 1, length, c, name);
    }
  }

  ghost predicate NoNeighbouringWaiters(l: seq<Handler>) {
    forall i :: 0 <= i < |l| - 1 ==> !(l[i].Waiter? && l[i + 1].Waiter?)
  }

  lemma {:induction false} WaitersAct(s: State)
    requires Inv(s)
    ensures forall h :: h in s.disconnect ==> (Acts(s, h, DisconnectEvent) <==> h.Waiter?)
    ensures NoNeighboursAct(s, s.disconnect, DisconnectEvent) <==> NoNeighbouringWaiters(s.disconnect)
  {
    forall h | h in s.disconnect ensures Acts(s, h, DisconnectEvent) <==> h.Waiter? {
      if h.Waiter? { assert Owned(s, h.id) && h == Waiter(h.id); }
    }
    forall i | 0 <= i < |s.disconnect| ensures Acts(s, s.disconnect[i], DisconnectEvent) <==> s.disconnect[i].Waiter? {
      assert s.disconnect[i] in s.disconnect;
    }
  }

  ghost predicate AllDisconnected(s: State, t: State) {
    forall id :: id in s.waits && s.waits[id].reply.None? ==> id in t.waits && t.waits[id].reply == Some(Disconnected)
  }

  /** In any run one Disconnect event settles every pending waiter exactly if no two waiters are neighbours on the
      list of its handlers, which also holds the owner's listeners. */
  lemma {:induction false} DisconnectReachesEveryWaiter(steps: seq<Step>)
    ensures var s := Run(Init(), steps);
            AllDisconnected(s, Next(s, DisconnectEvent)) <==> NoNeighbouringWaiters(s.disconnect)
  {
    var s := Run(Init(), steps);
    var t, called := Next(s, DisconnectEvent), CalledActors(s, s.disconnect, DisconnectEvent);
    RunKeepsInv(Init(), steps);
    EventResolves(s, DisconnectEvent);
    WaitersAct(s);
    AllCalledIfApart(s, s.disconnect, DisconnectEvent);
    if NoNeighbouringWaiters(s.disconnect) {
      forall id | id in s.waits && s.waits[id].reply.None? ensures t.waits[id].reply == Some(Disconnected) {
        assert Owned(s, id);
        var k :| 0 <= k < |s.disconnect| && s.disconnect[k] == Waiter(id);
        assert s.disconnect[k] in called;
      }
    } else {
      var k :| 0 <= k < |s.disconnect| && Acts(s, s.disconnect[k], DisconnectEvent) && s.disconnect[k] !in called;
      var h := s.disconnect[k];
      assert h in s.disconnect && Owned(s, h.id) && h == Waiter(h.id);
      assert s.waits[h.id].reply.None? && t.waits[h.id] == s.waits[h.id];
    }
  }

  /** Two waiting sends and one Disconnect: the second still waits, for its timer. */
  lemma {:induction false} SecondWaiterIsLeft()
    ensures var s := Run(Init(), [Send(0, "a", false), Send(1, "b", false), DisconnectEvent]);
            && 0 in s.waits && s.waits[0].reply == Some(Disconnected)
            && 1 in s.waits && s.waits[1].reply.None? && s.waits[1].timerArmed && s.waits[1].resolves == 0
  {
    var sends := [Send(0, "a", false), Send(1, "b", false)];
    var s1 := Next(Init(), sends[0]);
    var s2 := Next(s1, sends[1]);
    assert s1.disconnect == [Waiter(0)] && s2.disconnect == [Waiter(0), Waiter(1)];
    assert sends[1..] == [sends[1]] && [sends[1]][1..] == [];
    assert Run(Init(), sends) == Run(s1, [sends[1]]) == s2;
    RunThen(Init(), sends, DisconnectEvent);
    assert sends + [DisconnectEvent] == [Send(0, "a", false), Send(1, "b", false), DisconnectEvent];
    assert ConcernedBefore(s2, DisconnectEvent, 0) == 0;
    assert ConcernedBefore(s2, DisconnectEvent, 1) == 1;
    EventSettlesExactly(sends, DisconnectEvent, 0, 0, Disconnected);
    EventSettlesExactly(sends, DisconnectEvent, 1, 1, Disconnected);
    RunKeepsInv(Init(), sends);
    assert Owned(s2, 1);
  }

  lemma {:induction false} RunThen(s: State, steps: seq<Step>, e: Step)
    ensures Run(s, steps + [e]) == Next(Run(s, steps), e)
    decreases |steps|
  {
    if steps == [] {
      assert ([] + [e])[1..] == [];
    } else {
      assert (steps + [e])[1..] == steps[1..] + [e];
      RunThen(Next(s, steps[0]), steps[1..], e);
    }
  }

  // ---------------------------------------------------------------- the object

  /** The handler lists and waiters of one relay, changed in place. */
  class AckWaits {
    var ok: seq<Handler>
    var error: seq<Handler>
    var disconnect: seq<Handler>
    var waits: map<nat, Wait>

    function View(): State
      reads this
    {
      State(ok, error, disconnect, waits)
    }

    constructor ()
      ensures View() == Init()
    {
      ok, error, disconnect, waits := [], [], [], map[];
    }

    /** cleanup() followed by resolve(). */
    method Settle(id: nat, reply: Reply)
      requires id in waits
      modifies this
      ensures View() == Resolve(old(View()), id, reply)
    {
      ok := Remove(ok, Waiter(id));
      error := Remove(error, Waiter(id));
      disconnect := Remove(disconnect, Waiter(id));
      var w := waits[id];
      waits := waits[id := w.(timerArmed := false, resolves := w.resolves + 1,
                              reply := if w.reply.None? then Some(reply) else w.reply)];
    }

    /** sendClientMessage from the registration of its handlers on. */
    method SendAndWait(id: nat, ackId: EventId, sendThrows: bool)
      requires id !in waits
      modifies this
      ensures View() == Next(old(View()), Send(id, ackId, sendThrows))
    {
      ok := Add(ok, Waiter(id));
      error := Add(error, Waiter(id));
      disconnect := Add(disconnect, Waiter(id));
      waits := waits[id := Wait(ackId, true, 0, None)];
      if sendThrows { Settle(id, SendFailed); }
    }

    method FireTimer(id: nat)
      requires id in waits && waits[id].timerArmed
      modifies this
      ensures View() == Next(old(View()), TimerFires(id))
    {
      Settle(id, TimedOut);
    }

    /** The forEach over the handlers of one event. */
    method TriggerEvent(e: Step)
      requires IsEvent(e)
      modifies this
      ensures View() == Next(old(View()), e)
    {
      var c := ChannelOf(e);
      var length := |List(View(), c)|;
      var index := 0;
      while index < length
        invariant index <= length
        invariant Trigger(View(), e, index, length) == Next(old(View()), e)
      {
        var handlers := List(View(), c);
        if index < |handlers| && Acts(View(), handlers[index], e) {
          Settle(handlers[index].id, ReplyTo(e));
        }
        index := index + 1;
      }
    }
  }
}
