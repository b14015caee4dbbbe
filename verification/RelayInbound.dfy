/**
  * The inbound pipeline of a relay: asynchronous validation, one buffer per subscription,
  * sorted flushes and the EOSE barrier.
  *
  * Messages, validation results, promise clean-ups, flush ticks and calls by the owner are
  * separate steps in any order.  A step that delivers events also says what the delivering
  * handler did to its own subscription (`Reaction`).  The clock of the buffers' access times is
  * strictly increasing.
  */
module RelayInbound {
  import opened Wrappers
  import opened Events
  import opened AccessTimes

  type SubId = string

  const MaxEventBuffers: nat := 1000
  const MaxEventsPerBuffer: nat := 100

  datatype Subscription = Subscription(autoClose: bool, hasEose: bool, eoseThrows: bool)

  /** What happened to one subscription id so far. */
  datatype Log = Log(
    begun: nat, refused: nat, ignored: nat,   // EVENT messages; failed validations; valid ones without subscription
    accepted: multiset<Event>,                // validated for a live subscription
    delivered: seq<Event>,                    // handed to onEvent, in order
    dropped: multiset<Event>,                 // removed by the per-buffer cap or by buffer eviction
    eoseMessages: nat, eoseReturned: nat, eoseThrown: nat)

  const NoLog := Log(0, 0, 0, multiset{}, [], multiset{}, 0, 0, 0)

  datatype State = State(
    subscriptions: map<SubId, Subscription>,
    buffers: map<SubId, seq<Event>>,
    accessTimes: map<SubId, nat>,
    clock: nat,
    pending: map<SubId, nat>,
    pendingEose: set<SubId>,
    // history
    waiting: multiset<SubId>,     // validations not yet answered
    finishing: multiset<SubId>,   // answered, clean-up not yet run
    known: set<SubId>,            // ids ever subscribed
    retired: set<SubId>,          // ids ever unsubscribed
    log: map<SubId, Log>)

  /** What an onEvent handler did while a flush was calling it. */
  datatype Reaction = Stay | Leave | HangUp

  datatype Step =
    | Subscribe(id: SubId, sub: Subscription)
    | Unsubscribe(id: SubId)
    | HangUpConnection
    | EventMessage(id: SubId)
    | EoseMessage(id: SubId, reaction: Reaction)
    | ClosedMessage(id: SubId)
    | Validated(id: SubId, event: Event, reaction: Reaction)
    | Refused(id: SubId)
    | Settle(id: SubId, reaction: Reaction)
    | FlushTick(id: SubId)

  function Init(): State {
    State(map[], map[], map[], 0, map[], {}, multiset{}, multiset{}, {}, {}, map[])
  }

  function LogOf(s: State, id: SubId): Log {
    if id in s.log then s.log[id] else NoLog
  }

  function BufferOf(s: State, id: SubId): seq<Event> {
    if id in s.buffers then s.buffers[id] else []
  }

  function PendingOf(s: State, id: SubId): nat {
    if id in s.pending then s.pending[id] else 0
  }

  // ---------------------------------------------------------------- the code's functions

  function Flush(s: State, id: SubId): State {
    if BufferOf(s, id) == [] then s
    else if id !in s.subscriptions then s.(buffers := s.buffers - {id})
    else
      var l := LogOf(s, id);
      s.(buffers := s.buffers - {id}, accessTimes := s.accessTimes - {id},
         log := s.log[id := l.(delivered := l.delivered + Sort(s.buffers[id], NewestFirst))])
  }

  function Drop(s: State, id: SubId): State {
    if id !in s.subscriptions then s
    else s.(subscriptions := s.subscriptions - {id}, buffers := s.buffers - {id},
            accessTimes := s.accessTimes - {id}, pendingEose := s.pendingEose - {id},
            pending := s.pending - {id}, retired := s.retired + {id})
  }

  function DropAll(s: State): State {
    s.(subscriptions := map[], buffers := map[], accessTimes := map[])
  }

  function React(s: State, id: SubId, r: Reaction): State {
    match r
    case Stay => s
    case Leave => Drop(s, id)
    case HangUp => DropAll(s)
  }

  /** A flush and what its handler did; without events the handler is not called. */
  function FlushAndReact(s: State, id: SubId, r: Reaction): State {
    if BufferOf(s, id) != [] && id in s.subscriptions then React(Flush(s, id), id, r) else Flush(s, id)
  }

  function WithLog(s: State, id: SubId, l: Log): State {
    s.(log := s.log[id := l])
  }

  function Unmark(s: State, id: SubId): State {
    s.(pendingEose := s.pendingEose - {id})
  }

  /** onEOSE, auto-close, and the end of the pending mark; a throwing onEOSE skips the rest. */
  function CallEose(s: State, id: SubId): State {
    if id !in s.subscriptions then Unmark(s, id)
    else
      var sub := s.subscriptions[id];
      var l := LogOf(s, id);
      if sub.hasEose && sub.eoseThrows then WithLog(s, id, l.(eoseThrown := l.eoseThrown + 1))
      else
        var called := if sub.hasEose then WithLog(s, id, l.(eoseReturned := l.eoseReturned + 1)) else s;
        Unmark(if sub.autoClose then Drop(called, id) else called, id)
  }

  function MaybeFinalizeEose(s: State, id: SubId, r: Reaction): State {
    if id !in s.pendingEose || PendingOf(s, id) > 0 then s else CallEose(FlushAndReact(s, id, r), id)
  }

  function Evict(s: State, id: SubId): State {
    var l := LogOf(s, id);
    WithLog(s.(buffers := s.buffers - {id}, accessTimes := s.accessTimes - {id}), id,
            l.(dropped := l.dropped + multiset(BufferOf(s, id))))
  }

  ghost function EvictOldestBuffer(s: State): State {
    if s.accessTimes == map[] then s else Evict(s, Oldest(s.accessTimes))
  }

  function Push(s: State, id: SubId, e: Event): State {
    var b := BufferOf(s, id);
    var l := LogOf(s, id);
    if |b| >= MaxEventsPerBuffer
    then s.(buffers := s.buffers[id := b[1..] + [e]],
            log := s.log[id := l.(accepted := l.accepted + multiset{e}, dropped := l.dropped + multiset{b[0]})])
    else s.(buffers := s.buffers[id := b + [e]],
            log := s.log[id := l.(accepted := l.accepted + multiset{e})])
  }

  function Touch(s: State, id: SubId): State {
    s.(clock := s.clock + 1, accessTimes := s.accessTimes[id := s.clock + 1])
  }

  ghost function AddToBuffer(s: State, id: SubId, e: Event): State {
    var t := Touch(s, id);
    Push(if id !in t.buffers && |t.buffers| >= MaxEventBuffers then EvictOldestBuffer(t) else t, id, e)
  }

  ghost function ProcessValidated(s: State, id: SubId, e: Event, r: Reaction): State {
    if id in s.subscriptions then MaybeFinalizeEose(AddToBuffer(s, id, e), id, r) else CountIgnored(s, id)
  }

  function CountDown(s: State, id: SubId): State {
    var current := PendingOf(s, id);
    var next := if current > 0 then current - 1 else 0;
    s.(pending := if next == 0 then s.pending - {id} else s.pending[id := next])
  }

  function DecrementPending(s: State, id: SubId, r: Reaction): State {
    var counted := CountDown(s, id);
    MaybeFinalizeEose(if PendingOf(counted, id) == 0 && id !in s.pendingEose then Flush(counted, id) else counted, id, r)
  }

  predicate Enabled(s: State, e: Step) {
    match e
    case Subscribe(id, _) => id !in s.known      // ids are 128-bit random and never drawn twice
    case Validated(id, _, _) => id in s.waiting
    case Refused(id) => id in s.waiting
    case Settle(id, _) => id in s.finishing
    case _ => true
  }

  function OpenSubscription(s: State, id: SubId, sub: Subscription): State {
    s.(subscriptions := s.subscriptions[id := sub], buffers := s.buffers[id := []], known := s.known + {id})
  }

  function BeginValidation(s: State, id: SubId): State {
    var l := LogOf(s, id);
    WithLog(s.(pending := s.pending[id := PendingOf(s, id) + 1], waiting := s.waiting + multiset{id}), id,
            l.(begun := l.begun + 1))
  }

  function MarkEose(s: State, id: SubId): State {
    var l := LogOf(s, id);
    WithLog(s.(pendingEose := s.pendingEose + {id}), id, l.(eoseMessages := l.eoseMessages + 1))
  }

  function Forget(s: State, id: SubId): State {
    s.(subscriptions := s.subscriptions - {id})
  }

  function CountRefusal(s: State, id: SubId): State {
    var l := LogOf(s, id);
    WithLog(s, id, l.(refused := l.refused + 1))
  }

  function CountIgnored(s: State, id: SubId): State {
    var l := LogOf(s, id);
    WithLog(s, id, l.(ignored := l.ignored + 1))
  }

  function Finished(s: State, id: SubId): State {
    s.(finishing := s.finishing - multiset{id})
  }

  ghost function Next(s: State, e: Step): State {
    if !Enabled(s, e) then s else
    match e
    case Subscribe(id, sub) => OpenSubscription(s, id, sub)
    case Unsubscribe(id) => Drop(s, id)
    case HangUpConnection => DropAll(s)
    case EventMessage(id) => BeginValidation(s, id)
    case EoseMessage(id, r) => MaybeFinalizeEose(MarkEose(s, id), id, r)
    case ClosedMessage(id) => Forget(s, id)
    case Validated(id, event, r) => ProcessValidated(Answered(s, id), id, event, r)
    case Refused(id) => CountRefusal(Answered(s, id), id)
    case Settle(id, r) => DecrementPending(Finished(s, id), id, r)
    case FlushTick(id) => Flush(s, id)
  }

  function Answered(s: State, id: SubId): State {
    s.(waiting := s.waiting - multiset{id}, finishing := s.finishing + multiset{id})
  }

  ghost function Run(s: State, steps: seq<Step>): State
    decreases |steps|
  {
    if steps == [] then s else Run(Next(s, steps[0]), steps[1..])
  }

  // ---------------------------------------------------------------- one id at a time

  /** Everything the relay knows about one id, apart from access times. */
  datatype Local = Local(
    sub: Option<Subscription>, buffer: Option<seq<Event>>, pending: nat, eose: bool,
    waiting: nat, finishing: nat, known: bool, retired: bool, log: Log)
  {
    function Buffer(): seq<Event> {
      if buffer.Some? then buffer.value else []
    }

    function Flush(): Local {
      if Buffer() == [] then this
      else if sub.None? then this.(buffer := None)
      else this.(buffer := None, log := log.(delivered := log.delivered + Sort(Buffer(), NewestFirst)))
    }

    function Drop(): Local {
      if sub.None? then this
      else this.(sub := None, buffer := None, pending := 0, eose := false, retired := true)
    }

    function DropAll(): Local {
      this.(sub := None, buffer := None)
    }

    function FlushAndReact(r: Reaction): Local {
      if Buffer() == [] || sub.None? then Flush()
      else match r
        case Stay => Flush()
        case Leave => Flush().Drop()
        case HangUp => Flush().DropAll()
    }

    function CallEose(): Local {
      if sub.None? then this.(eose := false)
      else if sub.value.hasEose && sub.value.eoseThrows then this.(log := log.(eoseThrown := log.eoseThrown + 1))
      else
        var called := if sub.value.hasEose then this.(log := log.(eoseReturned := log.eoseReturned + 1)) else this;
        (if sub.value.autoClose then called.Drop() else called).(eose := false)
    }

    function MaybeFinalizeEose(r: Reaction): Local {
      if !eose || pending > 0 then this else FlushAndReact(r).CallEose()
    }

    function Evict(): Local {
      this.(buffer := None, log := log.(dropped := log.dropped + multiset(Buffer())))
    }

    function Push(e: Event): Local {
      var b := Buffer();
      if |b| >= MaxEventsPerBuffer
      then this.(buffer := Some(b[1..] + [e]),
                 log := log.(accepted := log.accepted + multiset{e}, dropped := log.dropped + multiset{b[0]}))
      else this.(buffer := Some(b + [e]), log := log.(accepted := log.accepted + multiset{e}))
    }

    function Answered(): Local
      requires waiting > 0
    {
      this.(waiting := waiting - 1, finishing := finishing + 1)
    }

    function Decrement(r: Reaction): Local {
      var next := if pending > 0 then pending - 1 else 0;
      var counted := this.(pending := next);
      (if next == 0 && !eose then counted.Flush() else counted).MaybeFinalizeEose(r)
    }

    /** What a step about this very id does to it. */
    function Next(e: Step): Local {
      match e
      case Subscribe(_, sub) => if known then this else this.(sub := Some(sub), buffer := Some([]), known := true)
      case Unsubscribe(_) => Drop()
      case HangUpConnection => DropAll()
      case EventMessage(_) => this.(pending := pending + 1, waiting := waiting + 1, log := log.(begun := log.begun + 1))
      case EoseMessage(_, r) =>
        this.(eose := true, log := log.(eoseMessages := log.eoseMessages + 1)).MaybeFinalizeEose(r)
      case ClosedMessage(_) => this.(sub := None)
      case Validated(_, event, r) =>
        if waiting == 0 then this
        else if sub.Some? then Answered().Push(event).MaybeFinalizeEose(r)
        else Answered().(log := log.(ignored := log.ignored + 1))
      case Refused(_) => if waiting == 0 then this else Answered().(log := log.(refused := log.refused + 1))
      case Settle(_, r) => if finishing == 0 then this else this.(finishing := finishing - 1).Decrement(r)
      case FlushTick(_) => Flush()
    }

    /** Events delivered, buffered or dropped. */
    function Accounted(): multiset<Event> {
      multiset(log.delivered) + multiset(Buffer()) + log.dropped
    }

    predicate Inv() {
      && (sub.Some? ==> known && !retired && log.accepted == Accounted())
      && (buffer.Some? ==> known && |buffer.value| <= MaxEventsPerBuffer)
      && (retired ==> known)
      && (!known ==> log.accepted == log.dropped == multiset{} && log.delivered == [])
      && (!retired ==> pending == waiting + finishing)
      && log.eoseReturned + (if eose then 1 else 0) <= log.eoseMessages
      && log.begun == waiting + log.refused + log.ignored + |log.accepted|
    }
  }

  function At(s: State, id: SubId): Local {
    Local(if id in s.subscriptions then Some(s.subscriptions[id]) else None,
          if id in s.buffers then Some(s.buffers[id]) else None,
          PendingOf(s, id), id in s.pendingEose, s.waiting[id], s.finishing[id],
          id in s.known, id in s.retired, LogOf(s, id))
  }

  /** A step about one id leaves every other id alone, or at most evicts its buffer or hangs up on all. */
  predicate Spared(before: Local, after: Local) {
    after == before || after == before.DropAll()
  }

  predicate Bystander(before: Local, after: Local) {
    Spared(before, after) || Spared(before.Evict(), after)
  }

  lemma {:induction false} FlushOthers(s: State, id: SubId, k: SubId)
    requires k != id
    ensures At(Flush(s, id), k) == At(s, k)
  {
  }

  lemma {:induction false} FlushSelf(s: State, id: SubId)
    ensures At(Flush(s, id), id) == At(s, id).Flush()
  {
  }

  lemma {:induction false} DropOthers(s: State, id: SubId, k: SubId)
    requires k != id
    ensures At(Drop(s, id), k) == At(s, k) && At(DropAll(s), k) == At(s, k).DropAll()
  {
  }

  lemma {:induction false} DropSelf(s: State, id: SubId)
    ensures At(Drop(s, id), id) == At(s, id).Drop() && At(DropAll(s), id) == At(s, id).DropAll()
  {
  }

  lemma {:induction false} LogAt(s: State, id: SubId, l: Log, k: SubId)
    ensures At(WithLog(s, id, l), k) == if k == id then At(s, k).(log := l) else At(s, k)
    ensures At(Unmark(s, id), k) == if k == id then At(s, k).(eose := false) else At(s, k)
  {
  }

  lemma {:induction false} DropAt(s: State, id: SubId, k: SubId)
    ensures At(Drop(s, id), k) == if k == id then At(s, k).Drop() else At(s, k)
    ensures At(DropAll(s), k) == At(s, k).DropAll()
  {
    if k == id { DropSelf(s, id); } else { DropOthers(s, id, k); }
  }

  lemma {:induction false} CallEoseAt(s: State, id: SubId, k: SubId)
    ensures At(CallEose(s, id), k) == if k == id then At(s, k).CallEose() else At(s, k)
  {
    var l := LogOf(s, id);
    if id !in s.subscriptions {
      LogAt(s, id, l, k);
    } else if s.subscriptions[id].hasEose && s.subscriptions[id].eoseThrows {
      LogAt(s, id, l.(eoseThrown := l.eoseThrown + 1), k);
    } else {
      CallEoseReturnsAt(s, id, k);
    }
  }

  lemma {:induction false} CallEoseReturnsAt(s: State, id: SubId, k: SubId)
    requires id in s.subscriptions && !(s.subscriptions[id].hasEose && s.subscriptions[id].eoseThrows)
    ensures At(CallEose(s, id), k) == if k == id then At(s, k).CallEose() else At(s, k)
  {
    var sub := s.subscriptions[id];
    var l := LogOf(s, id);
    var returned := l.(eoseReturned := l.eoseReturned + 1);
    var called := if sub.hasEose then WithLog(s, id, returned) else s;
    LogAt(s, id, returned, k);
    DropAt(called, id, k);
    var closed := if sub.autoClose then Drop(called, id) else called;
    LogAt(closed, id, l, k);
    assert CallEose(s, id) == Unmark(closed, id);
  }

  lemma {:induction false} FinalizeSelf(s: State, id: SubId, r: Reaction)
    ensures At(MaybeFinalizeEose(s, id, r), id) == At(s, id).MaybeFinalizeEose(r)
  {
    FlushSelf(s, id);
    DropSelf(Flush(s, id), id);
    CallEoseAt(FlushAndReact(s, id, r), id, id);
  }

  lemma {:induction false} FinalizeOthers(s: State, id: SubId, r: Reaction, k: SubId)
    requires k != id
    ensures Spared(At(s, k), At(MaybeFinalizeEose(s, id, r), k))
  {
    FlushOthers(s, id, k);
    DropOthers(Flush(s, id), id, k);
    CallEoseAt(FlushAndReact(s, id, r), id, k);
  }

  lemma {:induction false} PushSelf(s: State, id: SubId, e: Event)
    ensures At(Push(s, id, e), id) == At(s, id).Push(e)
  {
    if |BufferOf(s, id)| >= MaxEventsPerBuffer { PushFull(s, id, e); } else { PushFitting(s, id, e); }
  }

  lemma {:induction false} PushFull(s: State, id: SubId, e: Event)
    requires |BufferOf(s, id)| >= MaxEventsPerBuffer
    ensures At(Push(s, id, e), id) == At(s, id).Push(e)
  {
  }

  lemma {:induction false} PushFitting(s: State, id: SubId, e: Event)
    requires |BufferOf(s, id)| < MaxEventsPerBuffer
    ensures At(Push(s, id, e), id) == At(s, id).Push(e)
  {
  }

  lemma {:induction false} PushOthers(s: State, id: SubId, e: Event, k: SubId)
    requires k != id
    ensures At(Push(s, id, e), k) == At(s, k)
  {
  }

  lemma {:induction false} EvictOthers(s: State, id: SubId, k: SubId)
    requires k != id
    ensures At(Evict(s, id), k) == At(s, k)
  {
  }

  lemma {:induction false} EvictSelf(s: State, id: SubId)
    ensures At(Evict(s, id), id) == At(s, id).Evict()
  {
  }

  lemma {:induction false} EvictAt(s: State, k: SubId)
    ensures At(EvictOldestBuffer(s), k) == At(s, k) || At(EvictOldestBuffer(s), k) == At(s, k).Evict()
    ensures k !in s.buffers ==> At(EvictOldestBuffer(s), k) == At(s, k)
  {
    if s.accessTimes != map[] {
      var o := Oldest(s.accessTimes);
      if o != k { EvictOthers(s, o, k); } else { EvictSelf(s, k); }
    }
  }

  lemma {:induction false} AddAt(s: State, id: SubId, e: Event, k: SubId)
    ensures k == id ==> At(AddToBuffer(s, id, e), k) == At(s, k).Push(e)
    ensures k != id ==> (At(AddToBuffer(s, id, e), k) == At(s, k) || At(AddToBuffer(s, id, e), k) == At(s, k).Evict())
  {
    var t := Touch(s, id);
    assert At(t, k) == At(s, k);
    EvictAt(t, k);
    var u := if id !in t.buffers && |t.buffers| >= MaxEventBuffers then EvictOldestBuffer(t) else t;
    if k == id { PushSelf(u, id, e); } else { PushOthers(u, id, e, k); }
  }

  lemma {:induction false} CountDownAt(s: State, id: SubId, k: SubId)
    ensures At(CountDown(s, id), k) == if k == id
      then At(s, k).(pending := if PendingOf(s, id) > 0 then PendingOf(s, id) - 1 else 0) else At(s, k)
  {
  }

  lemma {:induction false} DecrementSelf(s: State, id: SubId, r: Reaction)
    ensures At(DecrementPending(s, id, r), id) == At(s, id).Decrement(r)
  {
    CountDownAt(s, id, id);
    var counted := CountDown(s, id);
    FlushSelf(counted, id);
    FinalizeSelf(counted, id, r);
    FinalizeSelf(Flush(counted, id), id, r);
  }

  lemma {:induction false} DecrementOthers(s: State, id: SubId, r: Reaction, k: SubId)
    requires k != id
    ensures Spared(At(s, k), At(DecrementPending(s, id, r), k))
  {
    CountDownAt(s, id, k);
    var counted := CountDown(s, id);
    FlushOthers(counted, id, k);
    FinalizeOthers(counted, id, r, k);
    FinalizeOthers(Flush(counted, id), id, r, k);
  }

  lemma {:induction false} ProcessSelf(s: State, id: SubId, e: Event, r: Reaction)
    requires id in s.subscriptions
    ensures At(ProcessValidated(s, id, e, r), id) == At(s, id).Push(e).MaybeFinalizeEose(r)
  {
    AddAt(s, id, e, id);
    FinalizeSelf(AddToBuffer(s, id, e), id, r);
  }

  lemma {:induction false} ProcessOthers(s: State, id: SubId, e: Event, r: Reaction, k: SubId)
    requires id in s.subscriptions && k != id
    ensures Bystander(At(s, k), At(ProcessValidated(s, id, e, r), k))
  {
    AddAt(s, id, e, k);
    FinalizeOthers(AddToBuffer(s, id, e), id, r, k);
  }

  /** Which id a step is about; hanging up concerns every id. */
  predicate Concerns(e: Step, k: SubId) {
    match e
    case Subscribe(id, _) => id == k
    case Unsubscribe(id) => id == k
    case HangUpConnection => true
    case EventMessage(id) => id == k
    case EoseMessage(id, _) => id == k
    case ClosedMessage(id) => id == k
    case Validated(id, _, _) => id == k
    case Refused(id) => id == k
    case Settle(id, _) => id == k
    case FlushTick(id) => id == k
  }

  lemma {:induction false} OpenAt(s: State, id: SubId, sub: Subscription, k: SubId)
    requires id !in s.known
    ensures At(OpenSubscription(s, id, sub), k) ==
            if k == id then At(s, k).Next(Subscribe(id, sub)) else At(s, k)
  {
  }

  lemma {:induction false} ForgetAt(s: State, id: SubId, k: SubId)
    ensures At(Forget(s, id), k) == if k == id then At(s, k).Next(ClosedMessage(id)) else At(s, k)
  {
  }

  lemma {:induction false} BeginAt(s: State, id: SubId, k: SubId)
    ensures At(BeginValidation(s, id), k) == if k == id then At(s, k).Next(EventMessage(id)) else At(s, k)
  {
  }

  lemma {:induction false} AnsweredAt(s: State, id: SubId, k: SubId)
    requires id in s.waiting
    ensures At(Answered(s, id), k) == if k == id then At(s, k).Answered() else At(s, k)
  {
  }

  lemma {:induction false} FinishedAt(s: State, id: SubId, k: SubId)
    requires id in s.finishing
    ensures At(Finished(s, id), k) == if k == id then At(s, k).(finishing := s.finishing[k] - 1) else At(s, k)
  {
  }

  lemma {:induction false} MarkAt(s: State, id: SubId, k: SubId)
    ensures At(MarkEose(s, id), k) == if k == id
      then At(s, k).(eose := true, log := At(s, k).log.(eoseMessages := At(s, k).log.eoseMessages + 1)) else At(s, k)
  {
  }

  ghost predicate Projects(s: State, e: Step, k: SubId) {
    if Concerns(e, k) then At(Next(s, e), k) == At(s, k).Next(e) else Bystander(At(s, k), At(Next(s, e), k))
  }

  function Marked(v: Local): Local {
    v.(eose := true, log := v.log.(eoseMessages := v.log.eoseMessages + 1))
  }

  lemma {:induction false} LocalMarks(v: Local, id: SubId, r: Reaction)
    ensures v.Next(EoseMessage(id, r)) == Marked(v).MaybeFinalizeEose(r)
  {
  }

  lemma {:induction false} EoseMessageSelf(s: State, id: SubId, r: Reaction)
    ensures At(Next(s, EoseMessage(id, r)), id) == At(s, id).Next(EoseMessage(id, r))
  {
    MarkAt(s, id, id);
    LocalMarks(At(s, id), id, r);
    FinalizeSelf(MarkEose(s, id), id, r);
  }

  lemma {:induction false} EoseMessageOthers(s: State, id: SubId, r: Reaction, k: SubId)
    requires k != id
    ensures Spared(At(s, k), At(Next(s, EoseMessage(id, r)), k))
  {
    MarkAt(s, id, k);
    FinalizeOthers(MarkEose(s, id), id, r, k);
  }

  lemma {:induction false} EoseMessageAt(s: State, id: SubId, r: Reaction, k: SubId)
    ensures Projects(s, EoseMessage(id, r), k)
  {
    if k == id { EoseMessageSelf(s, id, r); } else { EoseMessageOthers(s, id, r, k); }
  }

  lemma {:induction false} IgnoredAt(s: State, id: SubId, k: SubId)
    ensures At(CountIgnored(s, id), k) ==
            if k == id then At(s, k).(log := At(s, k).log.(ignored := At(s, k).log.ignored + 1)) else At(s, k)
  {
    LogAt(s, id, LogOf(s, id).(ignored := LogOf(s, id).ignored + 1), k);
  }

  lemma {:induction false} ValidatedUnsubscribed(s: State, e: Step, k: SubId)
    requires e.Validated? && e.id in s.waiting && e.id !in s.subscriptions
    ensures At(Next(s, e), k) == if k == e.id then At(s, k).Next(e) else At(s, k)
  {
    var t := Answered(s, e.id);
    AnsweredAt(s, e.id, k);
    IgnoredAt(t, e.id, k);
    assert Next(s, e) == CountIgnored(t, e.id);
  }

  lemma {:induction false} NextValidated(s: State, id: SubId, event: Event, r: Reaction)
    requires id in s.waiting
    ensures Next(s, Validated(id, event, r)) == ProcessValidated(Answered(s, id), id, event, r)
  {
    assert Enabled(s, Validated(id, event, r));
  }

  lemma {:induction false} LocalAccepts(v: Local, e: Step)
    requires e.Validated? && v.waiting > 0 && v.sub.Some?
    ensures v.Next(e) == v.Answered().Push(e.event).MaybeFinalizeEose(e.reaction)
  {
  }

  lemma {:induction false} ValidatedSelf(s: State, id: SubId, event: Event, r: Reaction)
    requires id in s.waiting && id in s.subscriptions
    ensures At(ProcessValidated(Answered(s, id), id, event, r), id) == At(s, id).Answered().Push(event).MaybeFinalizeEose(r)
  {
    AnsweredAt(s, id, id);
    ProcessSelf(Answered(s, id), id, event, r);
  }

  lemma {:induction false} ValidatedOthers(s: State, id: SubId, event: Event, r: Reaction, k: SubId)
    requires id in s.waiting && id in s.subscriptions && k != id
    ensures Bystander(At(s, k), At(ProcessValidated(Answered(s, id), id, event, r), k))
  {
    AnsweredAt(s, id, k);
    ProcessOthers(Answered(s, id), id, event, r, k);
  }

  lemma {:induction false} ValidatedAt(s: State, e: Step, k: SubId)
    requires e.Validated? && e.id in s.waiting
    ensures Projects(s, e, k)
  {
    if e.id !in s.subscriptions {
      ValidatedUnsubscribed(s, e, k);
      Unaffected(At(s, k));
    } else if k == e.id {
      NextValidated(s, e.id, e.event, e.reaction);
      LocalAccepts(At(s, k), e);
      ValidatedSelf(s, e.id, e.event, e.reaction);
    } else {
      NextValidated(s, e.id, e.event, e.reaction);
      ValidatedOthers(s, e.id, e.event, e.reaction, k);
    }
  }

  lemma {:induction false} Unaffected(v: Local)
    ensures Bystander(v, v)
  {
  }

  lemma {:induction false} RefusedAt(s: State, id: SubId, k: SubId)
    requires id in s.waiting
    ensures At(Next(s, Refused(id)), k) == if k == id then At(s, k).Next(Refused(id)) else At(s, k)
  {
    var t := Answered(s, id);
    AnsweredAt(s, id, k);
    LogAt(t, id, LogOf(t, id).(refused := LogOf(t, id).refused + 1), k);
    assert Next(s, Refused(id)) == CountRefusal(t, id);
  }

  lemma {:induction false} SettleSelf(s: State, id: SubId, r: Reaction)
    requires id in s.finishing
    ensures At(Next(s, Settle(id, r)), id) == At(s, id).Next(Settle(id, r))
  {
    var t := Finished(s, id);
    FinishedAt(s, id, id);
    SettleSteps(At(s, id), Settle(id, r));
    DecrementSelf(t, id, r);
    assert Next(s, Settle(id, r)) == DecrementPending(t, id, r);
  }

  lemma {:induction false} SettleOthers(s: State, id: SubId, r: Reaction, k: SubId)
    requires id in s.finishing && k != id
    ensures Spared(At(s, k), At(Next(s, Settle(id, r)), k))
  {
    var t := Finished(s, id);
    FinishedAt(s, id, k);
    DecrementOthers(t, id, r, k);
    assert Next(s, Settle(id, r)) == DecrementPending(t, id, r);
  }

  lemma {:induction false} SettleAt(s: State, id: SubId, r: Reaction, k: SubId)
    requires id in s.finishing
    ensures Projects(s, Settle(id, r), k)
  {
    if k == id { SettleSelf(s, id, r); } else { SettleOthers(s, id, r, k); }
  }

  lemma {:induction false} SettleSteps(v: Local, e: Step)
    requires e.Settle? && v.finishing > 0
    ensures v.Next(e) == v.(finishing := v.finishing - 1).Decrement(e.reaction)
  {
  }

  lemma {:induction false} DecrementSteps(v: Local, r: Reaction, counted: Local)
    requires counted == v.(pending := if v.pending > 0 then v.pending - 1 else 0)
    ensures v.Decrement(r) == (if counted.pending == 0 && !counted.eose then counted.Flush() else counted).MaybeFinalizeEose(r)
  {
  }

  /** The pipeline is one independent machine per id, but for buffer eviction and hanging up. */
  lemma {:induction false} NextAt(s: State, e: Step, k: SubId)
    requires Enabled(s, e)
    ensures Projects(s, e, k)
  {
    match e {
      case Subscribe(id, sub) => OpenAt(s, id, sub, k);
      case Unsubscribe(id) => DropAt(s, id, k);
      case HangUpConnection => DropAt(s, k, k);
      case EventMessage(id) => BeginAt(s, id, k);
      case EoseMessage(id, r) => EoseMessageAt(s, id, r, k);
      case ClosedMessage(id) => ForgetAt(s, id, k);
      case Validated(_, _, _) => ValidatedAt(s, e, k);
      case Refused(id) =>
        RefusedAt(s, id, k);
        Unaffected(At(s, k));
      case Settle(id, r) => SettleAt(s, id, r, k);
      case FlushTick(id) => if k == id { FlushSelf(s, id); } else { FlushOthers(s, id, k); }
    }
  }

  // ---------------------------------------------------------------- what every step keeps

  lemma {:induction false} LocalFlush(v: Local)
    requires v.Inv()
    ensures v.Flush().Inv()
  {
    if v.Buffer() != [] && v.sub.Some? {
      var f := v.Flush();
      assert multiset(f.log.delivered) == multiset(v.log.delivered) + multiset(v.Buffer());
    }
  }

  lemma {:induction false} LocalDrops(v: Local)
    requires v.Inv()
    ensures v.Drop().Inv() && v.DropAll().Inv()
  {
  }

  lemma {:induction false} LocalEvict(v: Local)
    requires v.Inv()
    ensures v.Evict().Inv()
  {
    if v.sub.Some? { assert v.Evict().Accounted() == v.Accounted(); }
    if !v.known { assert multiset(v.Buffer()) == multiset{}; }
  }

  lemma {:induction false} LocalFinalize(v: Local, r: Reaction)
    requires v.Inv()
    ensures v.MaybeFinalizeEose(r).Inv()
  {
    LocalFlush(v);
    LocalDrops(v.Flush());
    var f := v.FlushAndReact(r);
    if v.eose && v.pending == 0 {
      assert f.Inv();
      LocalCallEose(f);
    }
  }

  /** A handler that unsubscribed cleared the mark together with the subscription. */
  lemma {:induction false} LocalCallEose(v: Local)
    requires v.Inv() && (v.sub.Some? ==> v.eose)
    ensures v.CallEose().Inv()
  {
    if v.sub.Some? {
      assert v.CallEose().log.accepted == v.log.accepted;
    }
  }

  /** Push accepts one more event, so it is the answer to one more EVENT message. */
  lemma {:induction false} PushAccounts(v: Local, e: Event)
    ensures v.Push(e).Accounted() == v.Accounted() + multiset{e}
  {
    var b := v.Buffer();
    if |b| >= MaxEventsPerBuffer {
      assert b == [b[0]] + b[1..];
    }
  }

  lemma {:induction false} LocalPush(v: Local, e: Event)
    requires v.Inv() && v.sub.Some? && v.waiting > 0
    ensures v.Answered().Push(e).Inv()
  {
    var a := v.Answered();
    assert a.Accounted() == v.Accounted();
    PushAccounts(a, e);
    assert a.Push(e).log.accepted == v.log.accepted + multiset{e};
  }

  lemma {:induction false} LocalCountDown(v: Local)
    requires v.Inv() && v.finishing > 0
    ensures v.(finishing := v.finishing - 1, pending := if v.pending > 0 then v.pending - 1 else 0).Inv()
  {
    assert v.(finishing := v.finishing - 1, pending := if v.pending > 0 then v.pending - 1 else 0).Accounted() == v.Accounted();
  }

  lemma {:induction false} LocalDecrement(v: Local, r: Reaction)
    requires v.Inv() && v.finishing > 0
    ensures v.(finishing := v.finishing - 1).Decrement(r).Inv()
  {
    var counted := v.(finishing := v.finishing - 1, pending := if v.pending > 0 then v.pending - 1 else 0);
    LocalCountDown(v);
    DecrementSteps(v.(finishing := v.finishing - 1), r, counted);
    LocalFlushThenFinalize(counted, r);
  }

  lemma {:induction false} LocalFlushThenFinalize(v: Local, r: Reaction)
    requires v.Inv()
    ensures (if v.pending == 0 && !v.eose then v.Flush() else v).MaybeFinalizeEose(r).Inv()
  {
    LocalFlush(v);
    if v.pending == 0 && !v.eose { LocalFinalize(v.Flush(), r); } else { LocalFinalize(v, r); }
  }

  lemma {:induction false} LocalMark(v: Local)
    requires v.Inv()
    ensures v.(eose := true, log := v.log.(eoseMessages := v.log.eoseMessages + 1)).Inv()
  {
    assert v.(eose := true, log := v.log.(eoseMessages := v.log.eoseMessages + 1)).Accounted() == v.Accounted();
  }

  lemma {:induction false} LocalBegins(v: Local, e: Step)
    requires v.Inv() && e.EventMessage?
    ensures v.Next(e).Inv()
  {
    assert v.Next(e).Accounted() == v.Accounted();
  }

  lemma {:induction false} LocalCounts(v: Local, e: Step)
    requires v.Inv() && (e.ClosedMessage? || e.Refused?)
    ensures v.Next(e).Inv()
  {
    assert v.Next(e).Accounted() == v.Accounted();
  }

  lemma {:induction false} LocalIgnored(v: Local, e: Step)
    requires v.Inv() && v.sub.None? && e.Validated?
    ensures v.Next(e).Inv()
  {
  }

  lemma {:induction false} LocalSubscribe(v: Local, e: Step)
    requires v.Inv() && e.Subscribe?
    ensures v.Next(e).Inv()
  {
    if !v.known { assert v.Next(e).Accounted() == multiset{}; }
  }

  lemma {:induction false} LocalEoseMessage(v: Local, e: Step)
    requires v.Inv() && e.EoseMessage?
    ensures v.Next(e).Inv()
  {
    var marked := v.(eose := true, log := v.log.(eoseMessages := v.log.eoseMessages + 1));
    LocalMark(v);
    LocalFinalize(marked, e.reaction);
    assert v.Next(e) == marked.MaybeFinalizeEose(e.reaction);
  }

  lemma {:induction false} LocalValidated(v: Local, e: Step)
    requires v.Inv() && e.Validated?
    ensures v.Next(e).Inv()
  {
    if v.sub.None? {
      LocalIgnored(v, e);
    } else if v.waiting > 0 {
      var pushed := v.Answered().Push(e.event);
      LocalPush(v, e.event);
      LocalFinalize(pushed, e.reaction);
      assert v.Next(e) == pushed.MaybeFinalizeEose(e.reaction);
    }
  }

  lemma {:induction false} LocalNextKeepsInv(v: Local, e: Step)
    requires v.Inv()
    ensures v.Next(e).Inv()
  {
    match e {
      case Subscribe(_, _) => LocalSubscribe(v, e);
      case Unsubscribe(_) => LocalDrops(v);
      case HangUpConnection => LocalDrops(v);
      case EventMessage(_) => LocalBegins(v, e);
      case EoseMessage(_, _) => LocalEoseMessage(v, e);
      case ClosedMessage(_) => LocalCounts(v, e);
      case Validated(_, _, _) => LocalValidated(v, e);
      case Refused(_) => LocalCounts(v, e);
      case Settle(_, r) => if v.finishing > 0 { LocalDecrement(v, r); }
      case FlushTick(_) => LocalFlush(v);
    }
  }

  lemma {:induction false} BystanderKeepsInv(v: Local, w: Local)
    requires v.Inv() && Bystander(v, w)
    ensures w.Inv()
  {
    LocalEvict(v);
    if Spared(v, w) { LocalDrops(v); } else { LocalDrops(v.Evict()); }
  }

  lemma {:induction false} NextKeepsInv(s: State, e: Step, k: SubId)
    requires At(s, k).Inv()
    ensures At(Next(s, e), k).Inv()
  {
    if Enabled(s, e) {
      var v := At(s, k);
      var w := At(Next(s, e), k);
      NextAt(s, e, k);
      if Concerns(e, k) { LocalNextKeepsInv(v, e); } else { BystanderKeepsInv(v, w); }
    }
  }

  lemma {:induction false} RunKeepsInv(s: State, steps: seq<Step>, k: SubId)
    requires At(s, k).Inv()
    ensures At(Run(s, steps), k).Inv()
    decreases |steps|
  {
    if steps == [] {
    } else {
      NextKeepsInv(s, steps[0], k);
      RunKeepsInv(Next(s, steps[0]), steps[1..], k);
    }
  }

  /** What is known about k after a run from the start. */
  ghost function Reached(steps: seq<Step>, k: SubId): Local {
    At(Run(Init(), steps), k)
  }

  /**
    * Conservation: for a live subscription, the events accepted are exactly those delivered, buffered or dropped;
    * every EVENT message is accounted for; the pending count is the number of validations in flight; and no
    * buffer exceeds its cap.
    */
  lemma {:induction false} EventsAreConserved(steps: seq<Step>, k: SubId)
    ensures var v := Reached(steps, k);
            && (v.sub.Some? ==> v.log.accepted == multiset(v.log.delivered) + multiset(v.Buffer()) + v.log.dropped)
            && (v.sub.Some? ==> v.pending == v.waiting + v.finishing)
            && v.log.begun == v.waiting + v.log.refused + v.log.ignored + |v.log.accepted|
            && |v.Buffer()| <= MaxEventsPerBuffer
  {
    RunKeepsInv(Init(), steps, k);
  }

  // ---------------------------------------------------------------- delivery and the EOSE barrier

  ghost predicate SortedPermutation(block: seq<Event>, buffer: seq<Event>) {
    && multiset(block) == multiset(buffer)
    && forall i, j :: 0 <= i < j < |block| ==>
         block[i].createdAt > block[j].createdAt || (block[i].createdAt == block[j].createdAt && block[i].id <= block[j].id)
  }

  /** A delivery hands over the whole buffer, newest first and lowest id first on ties. */
  ghost predicate DeliversBuffer(v: Local, w: Local) {
    || w.log.delivered == v.log.delivered
    || (|v.log.delivered| <= |w.log.delivered|
        && w.log.delivered[..|v.log.delivered|] == v.log.delivered
        && SortedPermutation(w.log.delivered[|v.log.delivered|..], v.Buffer()))
  }

  lemma {:induction false} FlushDelivers(v: Local)
    ensures DeliversBuffer(v, v.Flush())
  {
    TheOrders();
    SortOrdered(v.Buffer(), NewestFirst);
    var d := v.log.delivered;
    var block := Sort(v.Buffer(), NewestFirst);
    assert (d + block)[..|d|] == d && (d + block)[|d|..] == block;
  }

  lemma {:induction false} ReactDelivers(v: Local, r: Reaction)
    ensures v.FlushAndReact(r).log.delivered == v.Flush().log.delivered
  {
  }

  lemma {:induction false} CallDeliversNothing(v: Local)
    ensures v.CallEose().log.delivered == v.log.delivered
  {
  }

  /** Whatever else a finalization does, its deliveries are those of one flush. */
  lemma {:induction false} FinalizeDelivers(v: Local, r: Reaction)
    ensures var w := v.MaybeFinalizeEose(r);
            w.log.delivered == v.log.delivered || w.log.delivered == v.Flush().log.delivered
  {
    ReactDelivers(v, r);
    CallDeliversNothing(v.FlushAndReact(r));
  }

  /** A validation result never finalizes by itself: its own clean-up is still in flight. */
  lemma {:induction false} ValidatedDoesNotFinalize(v: Local, e: Step)
    requires v.Inv() && e.Validated? && v.sub.Some? && v.waiting > 0
    ensures v.Next(e) == v.Answered().Push(e.event)
  {
    var pushed := v.Answered().Push(e.event);
    assert pushed.pending == v.pending == v.waiting + v.finishing;
  }

  function CountedDown(v: Local): Local
    requires v.finishing > 0
  {
    v.(finishing := v.finishing - 1, pending := if v.pending > 0 then v.pending - 1 else 0)
  }

  lemma {:induction false} UnmarkedIsNotFinalized(v: Local, r: Reaction)
    ensures !v.eose ==> v.MaybeFinalizeEose(r) == v
  {
  }

  lemma {:induction false} SettleIsFinalize(v: Local, e: Step)
    requires e.Settle? && v.finishing > 0
    ensures var c := CountedDown(v);
            v.Next(e) == (if c.pending == 0 && !c.eose then c.Flush() else c.MaybeFinalizeEose(e.reaction))
  {
    var c := CountedDown(v);
    SettleSteps(v, e);
    DecrementSteps(v.(finishing := v.finishing - 1), e.reaction, c);
    UnmarkedIsNotFinalized(c.Flush(), e.reaction);
  }

  predicate DeliversLikeFlush(v: Local, w: Local) {
    w.log.delivered == v.log.delivered || w.log.delivered == v.Flush().log.delivered
  }

  lemma {:induction false} SameFlush(v: Local, u: Local, w: Local)
    requires u.log.delivered == v.log.delivered && u.buffer == v.buffer && u.sub == v.sub && DeliversLikeFlush(u, w)
    ensures DeliversLikeFlush(v, w)
  {
  }

  lemma {:induction false} MessageDelivers(v: Local, e: Step)
    requires e.EoseMessage?
    ensures DeliversLikeFlush(v, v.Next(e))
  {
    LocalMarks(v, e.id, e.reaction);
    FinalizeDelivers(Marked(v), e.reaction);
    SameFlush(v, Marked(v), v.Next(e));
  }

  lemma {:induction false} SettleDelivers(v: Local, e: Step)
    requires e.Settle? && v.finishing > 0
    ensures DeliversLikeFlush(v, v.Next(e))
  {
    SettleIsFinalize(v, e);
    FinalizeDelivers(CountedDown(v), e.reaction);
    SameFlush(v, CountedDown(v), v.Next(e));
  }

  lemma {:induction false} NextDelivers(v: Local, e: Step)
    requires v.Inv()
    ensures DeliversLikeFlush(v, v.Next(e))
  {
    if e.EoseMessage? {
      MessageDelivers(v, e);
    } else if e.Settle? && v.finishing > 0 {
      SettleDelivers(v, e);
    } else if e.Validated? && v.sub.Some? && v.waiting > 0 {
      ValidatedDoesNotFinalize(v, e);
    } else {
      OthersDoNotFinalize(v, e);
    }
  }

  lemma {:induction false} OthersDoNotFinalize(v: Local, e: Step)
    requires !e.EoseMessage? && !(e.Settle? && v.finishing > 0) && !(e.Validated? && v.sub.Some? && v.waiting > 0)
    ensures v.Next(e).log.delivered == v.log.delivered || v.Next(e).log.delivered == v.Flush().log.delivered
    ensures EoseCalls(v.Next(e)) == EoseCalls(v)
  {
  }

  lemma {:induction false} SameDelivered(v: Local, w: Local)
    requires w.log.delivered == v.log.delivered || w.log.delivered == v.Flush().log.delivered
    ensures DeliversBuffer(v, w)
  {
    FlushDelivers(v);
  }

  /** In every run, each step delivers either nothing for k or its whole buffer in NIP-01 order. */
  lemma {:induction false} EveryDeliveryIsSorted(steps: seq<Step>, e: Step, k: SubId)
    ensures DeliversBuffer(Reached(steps, k), At(Next(Run(Init(), steps), e), k))
  {
    var s := Run(Init(), steps);
    var v := At(s, k);
    if Enabled(s, e) {
      RunKeepsInv(Init(), steps, k);
      NextAt(s, e, k);
      if Concerns(e, k) { NextDelivers(v, e); } else { BystanderLog(v, At(Next(s, e), k)); }
    }
    SameDelivered(v, At(Next(s, e), k));
  }

  lemma {:induction false} BystanderLog(v: Local, w: Local)
    requires Bystander(v, w)
    ensures w.log.delivered == v.log.delivered && EoseCalls(w) == EoseCalls(v) && w.log.eoseMessages == v.log.eoseMessages
  {
  }

  function EoseCalls(v: Local): nat {
    v.log.eoseReturned + v.log.eoseThrown
  }

  /** Nothing is in flight, nothing is buffered, and every accepted event was delivered or dropped. */
  predicate Drained(v: Local) {
    && v.waiting + v.finishing == 0 && v.Buffer() == []
    && v.log.accepted == multiset(v.log.delivered) + v.log.dropped
    && v.log.begun == v.log.refused + v.log.ignored + |v.log.accepted|
  }

  lemma {:induction false} ReactKeepsCalls(v: Local, r: Reaction)
    ensures EoseCalls(v.FlushAndReact(r)) == EoseCalls(v)
    ensures v.FlushAndReact(r).sub.Some? ==> v.FlushAndReact(r) == v.Flush()
    ensures v.Flush().Buffer() == []
  {
  }

  lemma {:induction false} CallEoseCounts(v: Local)
    ensures var w := v.CallEose();
            && EoseCalls(v) <= EoseCalls(w) <= EoseCalls(v) + 1
            && (EoseCalls(w) > EoseCalls(v) ==> v.sub.Some?)
            && (v.Buffer() == [] ==> w.Buffer() == [])
            && w.waiting == v.waiting && w.finishing == v.finishing
            && w.log == v.log.(eoseReturned := w.log.eoseReturned, eoseThrown := w.log.eoseThrown)
  {
  }

  lemma {:induction false} FlushedIsDrained(v: Local)
    requires v.Inv() && v.sub.Some? && v.pending == 0 && v.Buffer() == []
    ensures Drained(v)
  {
    assert multiset(v.Buffer()) == multiset{};
  }

  lemma {:induction false} FinalizeDrains(v: Local, r: Reaction)
    requires v.Inv() && EoseCalls(v.MaybeFinalizeEose(r)) > EoseCalls(v)
    ensures Drained(v.MaybeFinalizeEose(r)) && EoseCalls(v.MaybeFinalizeEose(r)) == EoseCalls(v) + 1
  {
    var f := v.FlushAndReact(r);
    ReactKeepsCalls(v, r);
    CallEoseCounts(f);
    LocalFlush(v);
    assert v.Flush().pending == v.pending;
    FlushedIsDrained(f);
  }

  lemma {:induction false} MessageDrains(v: Local, e: Step)
    requires v.Inv() && e.EoseMessage? && EoseCalls(v.Next(e)) > EoseCalls(v)
    ensures Drained(v.Next(e)) && EoseCalls(v.Next(e)) == EoseCalls(v) + 1
  {
    LocalMark(v);
    assert v.Next(e) == Marked(v).MaybeFinalizeEose(e.reaction) && EoseCalls(Marked(v)) == EoseCalls(v);
    FinalizeDrains(Marked(v), e.reaction);
  }

  lemma {:induction false} SettleDrains(v: Local, e: Step)
    requires v.Inv() && e.Settle? && v.finishing > 0 && EoseCalls(v.Next(e)) > EoseCalls(v)
    ensures Drained(v.Next(e)) && EoseCalls(v.Next(e)) == EoseCalls(v) + 1
  {
    var c := CountedDown(v);
    LocalCountDown(v);
    SettleIsFinalize(v, e);
    assert EoseCalls(c) == EoseCalls(v) && EoseCalls(c.Flush()) == EoseCalls(v);
    FinalizeDrains(c, e.reaction);
  }

  lemma {:induction false} CallsComeFromFinalize(v: Local, e: Step)
    requires v.Inv() && EoseCalls(v.Next(e)) > EoseCalls(v)
    ensures Drained(v.Next(e)) && EoseCalls(v.Next(e)) == EoseCalls(v) + 1
  {
    if e.EoseMessage? {
      MessageDrains(v, e);
    } else if e.Settle? && v.finishing > 0 {
      SettleDrains(v, e);
    } else if e.Validated? && v.sub.Some? && v.waiting > 0 {
      ValidatedDoesNotFinalize(v, e);
    } else {
      OthersDoNotFinalize(v, e);
    }
  }

  /**
    * The EOSE barrier: in every run, a step that calls onEOSE for k calls it once, with no validation of k in
    * flight and its buffer empty, so every valid event received for k so far was delivered or dropped.
    */
  lemma {:induction false} EoseBarrier(steps: seq<Step>, e: Step, k: SubId)
    requires EoseCalls(At(Next(Run(Init(), steps), e), k)) > EoseCalls(Reached(steps, k))
    ensures Drained(At(Next(Run(Init(), steps), e), k))
    ensures EoseCalls(At(Next(Run(Init(), steps), e), k)) == EoseCalls(Reached(steps, k)) + 1
  {
    RunKeepsInv(Init(), steps, k);
    var s := Run(Init(), steps);
    NextAt(s, e, k);
    if Concerns(e, k) { CallsComeFromFinalize(At(s, k), e); } else { BystanderLog(At(s, k), At(Next(s, e), k)); }
  }

  // ---------------------------------------------------------------- how often onEOSE is called

  predicate SubscribedAs(e: Step, k: SubId, sub: Subscription) {
    e.Subscribe? && e.id == k ==> e.sub == sub
  }

  predicate Throws(sub: Subscription) {
    sub.hasEose && sub.eoseThrows
  }

  /** No onEOSE of this id has thrown or will throw. */
  predicate Quiet(v: Local, sub: Subscription) {
    v.log.eoseThrown == 0 && (v.sub.Some? ==> v.sub.value == sub)
  }

  lemma {:induction false} FinalizeQuiet(v: Local, r: Reaction, sub: Subscription)
    requires Quiet(v, sub) && !Throws(sub)
    ensures Quiet(v.MaybeFinalizeEose(r), sub)
  {
    var f := v.FlushAndReact(r);
    assert Quiet(f, sub);
    assert Quiet(f.CallEose(), sub);
  }

  lemma {:induction false} NextQuiet(v: Local, e: Step, sub: Subscription)
    requires Quiet(v, sub) && !Throws(sub) && (e.Subscribe? ==> e.sub == sub)
    ensures Quiet(v.Next(e), sub)
  {
    if e.EoseMessage? {
      FinalizeQuiet(Marked(v), e.reaction, sub);
      assert v.Next(e) == Marked(v).MaybeFinalizeEose(e.reaction);
    } else if e.Settle? && v.finishing > 0 {
      SettleIsFinalize(v, e);
      FinalizeQuiet(CountedDown(v), e.reaction, sub);
    } else if e.Validated? && v.sub.Some? && v.waiting > 0 {
      FinalizeQuiet(v.Answered().Push(e.event), e.reaction, sub);
    } else {
    }
  }

  lemma {:induction false} StepQuiet(s: State, e: Step, k: SubId, sub: Subscription)
    requires Quiet(At(s, k), sub) && !Throws(sub) && SubscribedAs(e, k, sub) && Enabled(s, e)
    ensures Quiet(At(Next(s, e), k), sub)
  {
    NextAt(s, e, k);
    if Concerns(e, k) { NextQuiet(At(s, k), e, sub); } else { BystanderQuiet(At(s, k), At(Next(s, e), k), sub); }
  }

  lemma {:induction false} BystanderQuiet(v: Local, w: Local, sub: Subscription)
    requires Quiet(v, sub) && Bystander(v, w)
    ensures Quiet(w, sub)
  {
  }

  lemma {:induction false} RunQuiet(s: State, steps: seq<Step>, k: SubId, sub: Subscription)
    requires Quiet(At(s, k), sub) && !Throws(sub) && forall e :: e in steps ==> SubscribedAs(e, k, sub)
    ensures Quiet(At(Run(s, steps), k), sub)
    decreases |steps|
  {
    if steps == [] {
    } else {
      if Enabled(s, steps[0]) { StepQuiet(s, steps[0], k, sub); }
      RunQuiet(Next(s, steps[0]), steps[1..], k, sub);
    }
  }

  /** In no run does k, subscribed with `sub`, see onEOSE called more often than EOSE messages arrived. */
  ghost predicate CallsBounded(k: SubId, sub: Subscription) {
    forall steps: seq<Step> :: (forall e :: e in steps ==> SubscribedAs(e, k, sub)) ==>
      EoseCalls(Reached(steps, k)) <= Reached(steps, k).log.eoseMessages
  }

  function ThrowingRun(k: SubId, sub: Subscription): seq<Step> {
    [Subscribe(k, sub), EoseMessage(k, Stay), EventMessage(k), Refused(k), Settle(k, Stay)]
  }

  lemma {:induction false} RunStep(s: State, e: Step, rest: seq<Step>, k: SubId)
    requires Enabled(s, e) && Concerns(e, k)
    ensures Run(s, [e] + rest) == Run(Next(s, e), rest) && At(Next(s, e), k) == At(s, k).Next(e)
  {
    assert ([e] + rest)[1..] == rest;
    NextAt(s, e, k);
  }

  /** One EOSE message and one later event that fails validation: a throwing onEOSE is called twice. */
  lemma {:induction false} ThrowingEoseIsCalledTwice(k: SubId, sub: Subscription)
    requires Throws(sub)
    ensures EoseCalls(Reached(ThrowingRun(k, sub), k)) == 2
    ensures Reached(ThrowingRun(k, sub), k).log.eoseMessages == 1
  {
    var s1 := ThrowingPrefix(k, sub);
    var s3 := ThrowingMiddle(k, sub, s1);
    RunStep(s3, Settle(k, Stay), [], k);
    assert [Settle(k, Stay)] + [] == [Settle(k, Stay)];
    SettleIsFinalize(At(s3, k), Settle(k, Stay));
  }

  lemma {:induction false} ThrowingMiddle(k: SubId, sub: Subscription, s1: State) returns (s3: State)
    requires At(s1, k) == Local(Some(sub), Some([]), 0, true, 0, 0, true, false,
                                Log(0, 0, 0, multiset{}, [], multiset{}, 1, 0, 1))
    ensures Run(s1, [EventMessage(k), Refused(k), Settle(k, Stay)]) == Run(s3, [Settle(k, Stay)])
    ensures At(s3, k) == Local(Some(sub), Some([]), 1, true, 0, 1, true, false,
                               Log(1, 1, 0, multiset{}, [], multiset{}, 1, 0, 1))
  {
    var s2 := Next(s1, EventMessage(k));
    RunStep(s1, EventMessage(k), [Refused(k), Settle(k, Stay)], k);
    assert At(s2, k).waiting == 1;
    RunStep(s2, Refused(k), [Settle(k, Stay)], k);
    s3 := Next(s2, Refused(k));
    assert [EventMessage(k)] + [Refused(k), Settle(k, Stay)] == [EventMessage(k), Refused(k), Settle(k, Stay)];
    assert [Refused(k)] + [Settle(k, Stay)] == [Refused(k), Settle(k, Stay)];
  }

  lemma {:induction false} ThrowingPrefix(k: SubId, sub: Subscription) returns (s: State)
    requires Throws(sub)
    ensures Run(Init(), ThrowingRun(k, sub)) == Run(s, [EventMessage(k), Refused(k), Settle(k, Stay)])
    ensures At(s, k) == Local(Some(sub), Some([]), 0, true, 0, 0, true, false,
                              Log(0, 0, 0, multiset{}, [], multiset{}, 1, 0, 1))
  {
    var tail := [EventMessage(k), Refused(k), Settle(k, Stay)];
    var s1 := Next(Init(), Subscribe(k, sub));
    RunStep(Init(), Subscribe(k, sub), [EoseMessage(k, Stay)] + tail, k);
    assert At(s1, k) == Local(Some(sub), Some([]), 0, false, 0, 0, true, false, NoLog);
    RunStep(s1, EoseMessage(k, Stay), tail, k);
    s := Next(s1, EoseMessage(k, Stay));
    assert ThrowingRun(k, sub) == [Subscribe(k, sub)] + ([EoseMessage(k, Stay)] + tail);
  }

  /** onEOSE calls never outnumber EOSE messages, in any run, exactly when the callback does not throw. */
  lemma {:induction false} EoseCallsNeverOutnumberMessages(k: SubId, sub: Subscription)
    ensures CallsBounded(k, sub) <==> !Throws(sub)
  {
    if Throws(sub) {
      ThrowingEoseIsCalledTwice(k, sub);
      assert forall e :: e in ThrowingRun(k, sub) ==> SubscribedAs(e, k, sub);
    } else {
      forall steps: seq<Step> | forall e :: e in steps ==> SubscribedAs(e, k, sub)
        ensures EoseCalls(Reached(steps, k)) <= Reached(steps, k).log.eoseMessages
      {
        RunKeepsInv(Init(), steps, k);
        RunQuiet(Init(), steps, k, sub);
      }
    }
  }

  // ---------------------------------------------------------------- what each step must do for its id

  function InFlight(v: Local): nat {
    v.waiting + v.finishing
  }

  /** A buffer of at most 100 events, of which the oldest gives way to a new one. */
  function Buffered(buffer: seq<Event>, e: Event): seq<Event> {
    (if |buffer| < 100 then buffer else buffer[1..]) + [e]
  }

  function GivingWay(buffer: seq<Event>): multiset<Event> {
    if |buffer| < 100 then multiset{} else multiset{buffer[0]}
  }

  /** A valid event of a live subscription is accepted and goes into its buffer, and nothing else happens yet; any other
      is ignored. */
  predicate TakesIn(v: Local, w: Local, event: Event)
    requires v.waiting > 0
  {
    && w.waiting == v.waiting - 1 && w.finishing == v.finishing + 1
    && w.sub == v.sub && w.pending == v.pending && w.eose == v.eose
    && (if v.sub.Some?
        then && w.buffer == Some(Buffered(v.Buffer(), event))
             && w.log == v.log.(accepted := v.log.accepted + multiset{event},
                                dropped := v.log.dropped + GivingWay(v.Buffer()))
        else w.buffer == v.buffer && w.log == v.log.(ignored := v.log.ignored + 1))
  }

  lemma {:induction false} PushTakesIn(v: Local, event: Event)
    requires v.waiting > 0 && v.sub.Some?
    ensures TakesIn(v, v.Answered().Push(event), event)
  {
    assert |v.Buffer()| < 100 ==> v.log.dropped + multiset{} == v.log.dropped;
  }

  lemma {:induction false} LocalTakesIn(v: Local, k: SubId, event: Event, r: Reaction)
    requires v.Inv() && v.waiting > 0
    ensures TakesIn(v, v.Next(Validated(k, event, r)), event)
  {
    if v.sub.Some? {
      ValidatedDoesNotFinalize(v, Validated(k, event, r));
      PushTakesIn(v, event);
    }
  }

  lemma {:induction false} ValidEventIsBuffered(steps: seq<Step>, k: SubId, event: Event, r: Reaction)
    requires Reached(steps, k).waiting > 0
    ensures TakesIn(Reached(steps, k), At(Next(Run(Init(), steps), Validated(k, event, r)), k), event)
  {
    RunKeepsInv(Init(), steps, k);
    NextAt(Run(Init(), steps), Validated(k, event, r), k);
    LocalTakesIn(Reached(steps, k), k, event, r);
  }

  /** The whole buffer is handed over, in NIP-01 order, and none is left. */
  ghost predicate HandsOver(v: Local, w: Local) {
    && w.Buffer() == [] && |v.log.delivered| <= |w.log.delivered|
    && w.log.delivered[..|v.log.delivered|] == v.log.delivered
    && SortedPermutation(w.log.delivered[|v.log.delivered|..], v.Buffer())
  }

  lemma {:induction false} FlushHandsOver(v: Local)
    requires v.sub.Some?
    ensures HandsOver(v, v.Flush())
  {
    TheOrders();
    SortOrdered(v.Buffer(), NewestFirst);
    if v.Buffer() == [] { assert v.log.delivered[|v.log.delivered|..] == []; } else { FlushDelivers(v); }
  }

  /** What an EOSE that nothing holds back leads to for a live subscription: its buffer is handed over, onEOSE is called
      unless the handler has just left, then the mark goes and an auto-closing subscription with it; a throwing
      callback keeps both. */
  ghost predicate Finalized(v: Local, w: Local, r: Reaction)
    requires v.sub.Some?
  {
    var sub := v.sub.value;
    && HandsOver(v, w)
    && (if v.Buffer() != [] && r != Stay then EoseCalls(w) == EoseCalls(v) && w.sub.None? && !w.eose
        else && EoseCalls(w) == EoseCalls(v) + (if sub.hasEose then 1 else 0)
             && (if Throws(sub) then w.eose && w.sub == v.sub
                 else !w.eose && w.sub == if sub.autoClose then None else v.sub))
  }

  lemma {:induction false} CallEoseAnswers(v: Local)
    ensures var w := v.CallEose();
            && w.log.delivered == v.log.delivered && (v.Buffer() == [] ==> w.Buffer() == [])
            && (v.sub.None? ==> w == v.(eose := false))
            && (v.sub.Some? ==>
                 && EoseCalls(w) == EoseCalls(v) + (if v.sub.value.hasEose then 1 else 0)
                 && (if Throws(v.sub.value) then w.eose == v.eose && w.sub == v.sub
                     else !w.eose && w.sub == if v.sub.value.autoClose then None else v.sub))
  {
  }

  lemma {:induction false} FinalizeAnswers(v: Local, r: Reaction)
    requires v.sub.Some? && v.eose && v.pending == 0
    ensures Finalized(v, v.MaybeFinalizeEose(r), r)
  {
    FlushHandsOver(v);
    var f := v.FlushAndReact(r);
    ReactDelivers(v, r);
    CallEoseAnswers(f);
    ReactKeepsCalls(v, r);
    ReactEmpties(v, r);
    assert v.MaybeFinalizeEose(r) == f.CallEose();
  }

  lemma {:induction false} ReactEmpties(v: Local, r: Reaction)
    requires v.sub.Some?
    ensures var f := v.FlushAndReact(r);
            && f.Buffer() == [] && (f.sub.Some? <==> v.Buffer() == [] || r == Stay)
            && (f.sub.Some? ==> f.sub == v.sub && f.eose == v.eose)
  {
  }

  lemma {:induction false} FinalizedAlike(u: Local, v: Local, w: Local, r: Reaction)
    requires u.sub == v.sub && v.sub.Some? && u.buffer == v.buffer && u.log.delivered == v.log.delivered
    requires EoseCalls(u) == EoseCalls(v)
    ensures Finalized(u, w, r) ==> Finalized(v, w, r)
    ensures HandsOver(u, w) ==> HandsOver(v, w)
  {
  }

  lemma {:induction false} FinalizeKeepsMessages(v: Local, r: Reaction)
    ensures v.MaybeFinalizeEose(r).log.eoseMessages == v.log.eoseMessages
  {
    CallEoseCounts(v.FlushAndReact(r));
  }

  /** An EOSE message finalizes at once if no validation is in flight, and otherwise leaves the mark and nothing else. */
  ghost predicate AnswersMessage(v: Local, w: Local, r: Reaction)
    requires v.sub.Some?
  {
    && w.log.eoseMessages == v.log.eoseMessages + 1
    && (if InFlight(v) == 0 then Finalized(v, w, r)
        else w == v.(eose := true, log := v.log.(eoseMessages := v.log.eoseMessages + 1)))
  }

  lemma {:induction false} LocalAnswersMessage(v: Local, k: SubId, r: Reaction)
    requires v.Inv() && v.sub.Some?
    ensures AnswersMessage(v, v.Next(EoseMessage(k, r)), r)
  {
    LocalMarks(v, k, r);
    var marked := Marked(v);
    FinalizeKeepsMessages(marked, r);
    if InFlight(v) == 0 {
      FinalizeAnswers(marked, r);
      FinalizedAlike(marked, v, marked.MaybeFinalizeEose(r), r);
    }
  }

  lemma {:induction false} EoseMessageIsAnswered(steps: seq<Step>, k: SubId, r: Reaction)
    requires Reached(steps, k).sub.Some?
    ensures AnswersMessage(Reached(steps, k), At(Next(Run(Init(), steps), EoseMessage(k, r)), k), r)
  {
    RunKeepsInv(Init(), steps, k);
    NextAt(Run(Init(), steps), EoseMessage(k, r), k);
    LocalAnswersMessage(Reached(steps, k), k, r);
  }

  /** The end of the last validation in flight hands the buffer over and, if an EOSE is outstanding, finalizes it; the
      end of any other validation does neither. */
  ghost predicate AnswersLast(v: Local, w: Local, r: Reaction)
    requires v.sub.Some? && v.finishing > 0
  {
    if InFlight(v) > 1 then w == v.(finishing := v.finishing - 1, pending := InFlight(v) - 1)
    else if v.eose then Finalized(v, w, r)
    else HandsOver(v, w) && EoseCalls(w) == EoseCalls(v) && w.sub == v.sub && !w.eose
  }

  lemma {:induction false} LocalAnswersLast(v: Local, k: SubId, r: Reaction)
    requires v.Inv() && v.sub.Some? && v.finishing > 0
    ensures AnswersLast(v, v.Next(Settle(k, r)), r)
  {
    var counted := CountedDown(v);
    SettleIsFinalize(v, Settle(k, r));
    if InFlight(v) == 1 {
      if v.eose {
        FinalizeAnswers(counted, r);
        FinalizedAlike(counted, v, counted.MaybeFinalizeEose(r), r);
      } else {
        FlushHandsOver(counted);
        FinalizedAlike(counted, v, counted.Flush(), r);
      }
    }
  }

  lemma {:induction false} LastValidationIsAnswered(steps: seq<Step>, k: SubId, r: Reaction)
    requires Reached(steps, k).sub.Some? && Reached(steps, k).finishing > 0
    ensures AnswersLast(Reached(steps, k), At(Next(Run(Init(), steps), Settle(k, r)), k), r)
  {
    RunKeepsInv(Init(), steps, k);
    NextAt(Run(Init(), steps), Settle(k, r), k);
    LocalAnswersLast(Reached(steps, k), k, r);
  }

  /** In every run: a flush tick hands over the buffer of a live subscription and throws away any other; unsubscribing
      and hanging up end the subscription and clear its buffer, unsubscribing also its pending count and mark; a CLOSED
      message ends the subscription and leaves the rest. */
  lemma {:induction false} TicksAndEndings(steps: seq<Step>, k: SubId)
    ensures var s, v := Run(Init(), steps), Reached(steps, k);
            var tick, gone := At(Next(s, FlushTick(k)), k), At(Next(s, Unsubscribe(k)), k);
            && (if v.sub.Some? then HandsOver(v, tick) else tick.Buffer() == [] && tick.log == v.log)
            && (v.sub.Some? ==> gone == Local(None, None, 0, false, v.waiting, v.finishing, v.known, true, v.log))
            && (v.sub.None? ==> gone == v)
            && At(Next(s, HangUpConnection), k) == v.(sub := None, buffer := None)
            && At(Next(s, ClosedMessage(k)), k) == v.(sub := None)
  {
    var s := Run(Init(), steps);
    NextAt(s, FlushTick(k), k);
    NextAt(s, Unsubscribe(k), k);
    NextAt(s, HangUpConnection, k);
    NextAt(s, ClosedMessage(k), k);
    var v := Reached(steps, k);
    if v.sub.Some? { FlushHandsOver(v); }
  }

  /** In every run an id is subscribed as asked, with nothing buffered; an EVENT message of any id begins a validation
      and raises the pending count. */
  lemma {:induction false} SubscriptionsBegin(steps: seq<Step>, k: SubId, sub: Subscription)
    ensures var s, v := Run(Init(), steps), Reached(steps, k);
            var subscribed, begun := At(Next(s, Subscribe(k, sub)), k), At(Next(s, EventMessage(k)), k);
            && (if v.known then subscribed == v else subscribed == v.(sub := Some(sub), buffer := Some([]), known := true))
            && begun == v.(waiting := v.waiting + 1, pending := v.pending + 1, log := v.log.(begun := v.log.begun + 1))
  {
    var s := Run(Init(), steps);
    if k !in s.known { NextAt(s, Subscribe(k, sub), k); }
    NextAt(s, EventMessage(k), k);
  }

  // ---------------------------------------------------------------- when access times end

  predicate Delivered(v: Local, w: Local) {
    w.log.delivered != v.log.delivered
  }

  predicate Retired(v: Local, w: Local) {
    w.retired && !v.retired
  }

  /** A handler that was called while an EOSE was finalized hung up. */
  predicate HungUp(s: State, t: State, e: Step) {
    || e == HangUpConnection
    || (e.EoseMessage? && e.reaction == HangUp && Delivered(At(s, e.id), At(t, e.id)))
    || (e.Settle? && e.reaction == HangUp && Delivered(At(s, e.id), At(t, e.id)) && e.id in s.pendingEose)
  }

  /** A flush would call the handler. */
  predicate Calls(v: Local) {
    v.Buffer() != [] && v.sub.Some?
  }

  /** The EOSE is outstanding and nothing holds it back. */
  predicate Due(v: Local) {
    v.eose && v.pending == 0
  }

  predicate AutoCloses(v: Local, r: Reaction) {
    v.sub.Some? && (Calls(v) ==> r == Stay) && v.sub.value.autoClose && !Throws(v.sub.value)
  }

  lemma {:induction false} FlushTimes(s: State, id: SubId)
    ensures Flush(s, id).accessTimes == if Calls(At(s, id)) then s.accessTimes - {id} else s.accessTimes
  {
  }

  lemma {:induction false} LocalFlushDelivers(v: Local)
    ensures Delivered(v, v.Flush()) <==> Calls(v)
  {
    if Calls(v) {
      assert v.Buffer()[0] in multiset(Sort(v.Buffer(), NewestFirst));
      assert |v.Flush().log.delivered| > |v.log.delivered|;
    }
  }

  lemma {:induction false} CallEoseTimes(s: State, id: SubId)
    ensures CallEose(s, id).accessTimes ==
            if id in s.subscriptions && s.subscriptions[id].autoClose && !Throws(s.subscriptions[id]) then s.accessTimes - {id}
            else s.accessTimes
  {
  }

  lemma {:induction false} ReactTimes(s: State, id: SubId, r: Reaction)
    ensures var t := FlushAndReact(s, id, r);
            && t.accessTimes == (if !Calls(At(s, id)) then s.accessTimes else if r == HangUp then map[] else s.accessTimes - {id})
            && (id in t.subscriptions <==> id in s.subscriptions && (Calls(At(s, id)) ==> r == Stay))
            && (id in t.subscriptions ==> t.subscriptions[id] == s.subscriptions[id])
  {
    FlushTimes(s, id);
  }

  lemma {:induction false} FinalizeTimes(s: State, id: SubId, r: Reaction)
    ensures var t, v := MaybeFinalizeEose(s, id, r), At(s, id);
            t.accessTimes == if !Due(v) then s.accessTimes
                             else if Calls(v) && r == HangUp then map[]
                             else if Calls(v) || AutoCloses(v, r) then s.accessTimes - {id}
                             else s.accessTimes
  {
    var v := At(s, id);
    if Due(v) {
      ReactTimes(s, id, r);
      CallEoseTimes(FlushAndReact(s, id, r), id);
    }
  }

  lemma {:induction false} LocalFinalizeEnds(v: Local, r: Reaction)
    requires v.sub.Some? ==> !v.retired
    ensures var w := v.MaybeFinalizeEose(r);
            && (Delivered(v, w) <==> Due(v) && Calls(v))
            && (Retired(v, w) <==> Due(v) && ((Calls(v) && r == Leave) || AutoCloses(v, r)))
  {
    LocalFlushDelivers(v);
    ReactDelivers(v, r);
    CallDeliversNothing(v.FlushAndReact(r));
  }

  /** A step that is no accepted validation keeps the access times but those of the ids it delivers, retires or hangs up on. */
  ghost predicate TimesEnd(s: State, t: State, e: Step) {
    && (forall k :: k in t.accessTimes <==>
         k in s.accessTimes && !Delivered(At(s, k), At(t, k)) && !Retired(At(s, k), At(t, k)) && !HungUp(s, t, e))
    && (forall k :: k in t.accessTimes ==> t.accessTimes[k] == s.accessTimes[k])
  }

  lemma {:induction false} BystanderStays(v: Local, w: Local)
    requires Bystander(v, w)
    ensures !Delivered(v, w) && !Retired(v, w)
  {
  }

  lemma {:induction false} TimesEndIf(s: State, t: State, e: Step, id: SubId)
    requires Enabled(s, e) && t == Next(s, e) && e != HangUpConnection && (forall k :: Concerns(e, k) <==> k == id)
    requires t.accessTimes == if HungUp(s, t, e) then map[]
                              else if Delivered(At(s, id), At(t, id)) || Retired(At(s, id), At(t, id)) then s.accessTimes - {id}
                              else s.accessTimes
    ensures TimesEnd(s, t, e)
  {
    forall k | k != id ensures !Delivered(At(s, k), At(t, k)) && !Retired(At(s, k), At(t, k)) {
      NextAt(s, e, k);
      BystanderStays(At(s, k), At(t, k));
    }
    if HungUp(s, t, e) {
      assert t.accessTimes == map[];
    } else if Delivered(At(s, id), At(t, id)) || Retired(At(s, id), At(t, id)) {
      assert forall k :: k in t.accessTimes <==> k in s.accessTimes && k != id;
    } else {
      assert t.accessTimes == s.accessTimes;
    }
  }

  lemma {:induction false} MessageTimes(s: State, id: SubId, r: Reaction)
    requires id in s.subscriptions ==> id !in s.retired
    ensures TimesEnd(s, Next(s, EoseMessage(id, r)), EoseMessage(id, r))
  {
    var e, marked := EoseMessage(id, r), MarkEose(s, id);
    MarkAt(s, id, id);
    FinalizeTimes(marked, id, r);
    FinalizeSelf(marked, id, r);
    LocalFinalizeEnds(At(marked, id), r);
    TimesEndIf(s, Next(s, e), e, id);
  }

  lemma {:induction false} CountedTimes(s: State, id: SubId)
    requires id in s.finishing
    ensures var counted := CountDown(Finished(s, id), id);
            At(counted, id) == CountedDown(At(s, id)) && counted.accessTimes == s.accessTimes
  {
    FinishedAt(s, id, id);
    CountDownAt(Finished(s, id), id, id);
  }

  lemma {:induction false} SettleOutstanding(s: State, id: SubId, r: Reaction)
    requires id in s.finishing && (id in s.subscriptions ==> id !in s.retired) && id in s.pendingEose
    ensures TimesEnd(s, Next(s, Settle(id, r)), Settle(id, r))
  {
    var e, counted := Settle(id, r), CountDown(Finished(s, id), id);
    CountedTimes(s, id);
    NextAt(s, e, id);
    SettleIsFinalize(At(s, id), e);
    SettleState(s, id, r);
    FinalizeTimes(counted, id, r);
    LocalFinalizeEnds(At(counted, id), r);
    TimesEndIf(s, Next(s, e), e, id);
  }

  lemma {:induction false} SettleUnmarked(s: State, id: SubId, r: Reaction)
    requires id in s.finishing && (id in s.subscriptions ==> id !in s.retired) && id !in s.pendingEose
    ensures TimesEnd(s, Next(s, Settle(id, r)), Settle(id, r))
  {
    var e, counted := Settle(id, r), CountDown(Finished(s, id), id);
    CountedTimes(s, id);
    NextAt(s, e, id);
    SettleIsFinalize(At(s, id), e);
    SettleState(s, id, r);
    FlushTimes(counted, id);
    LocalFlushDelivers(At(counted, id));
    TimesEndIf(s, Next(s, e), e, id);
  }

  lemma {:induction false} SettleState(s: State, id: SubId, r: Reaction)
    requires id in s.finishing
    ensures var counted := CountDown(Finished(s, id), id);
            Next(s, Settle(id, r)) == if id in s.pendingEose then MaybeFinalizeEose(counted, id, r)
                                      else if PendingOf(counted, id) == 0 then Flush(counted, id) else counted
  {
  }

  lemma {:induction false} OtherTimes(s: State, e: Step, id: SubId)
    requires Enabled(s, e) && (id in s.subscriptions ==> id !in s.retired)
    requires e == FlushTick(id) || e == Unsubscribe(id)
    ensures TimesEnd(s, Next(s, e), e)
  {
    if e.FlushTick? {
      FlushTimes(s, id);
      FlushSelf(s, id);
      LocalFlushDelivers(At(s, id));
    }
    TimesEndIf(s, Next(s, e), e, id);
  }

  lemma {:induction false} QuietTimes(s: State, e: Step)
    requires e.Subscribe? || e.EventMessage? || e.ClosedMessage? || e.Refused? || (e.Validated? && e.id !in s.subscriptions)
    requires Enabled(s, e)
    ensures TimesEnd(s, Next(s, e), e)
  {
    NextAt(s, e, e.id);
    TimesEndIf(s, Next(s, e), e, e.id);
  }

  /** In every run the access time of an id ends with its delivery, its unsubscription or a hang-up, and not otherwise. */
  lemma {:induction false} AccessTimesEnd(steps: seq<Step>, e: Step)
    requires Enabled(Run(Init(), steps), e) && (e.Validated? ==> e.id !in Run(Init(), steps).subscriptions)
    ensures TimesEnd(Run(Init(), steps), Next(Run(Init(), steps), e), e)
  {
    var s := Run(Init(), steps);
    if e != HangUpConnection {
      RunKeepsInv(Init(), steps, e.id);
      assert At(s, e.id).Inv();
    }
    match e {
      case EoseMessage(id, r) => MessageTimes(s, id, r);
      case Settle(id, r) => if id in s.pendingEose { SettleOutstanding(s, id, r); } else { SettleUnmarked(s, id, r); }
      case FlushTick(id) => OtherTimes(s, e, id);
      case Unsubscribe(id) => OtherTimes(s, e, id);
      case HangUpConnection =>
      case _ => QuietTimes(s, e);
    }
  }

  // ---------------------------------------------------------------- eviction

  lemma {:induction false} FlushKeepsClock(s: State, id: SubId)
    requires FromClock(s.accessTimes, s.clock)
    ensures FromClock(Flush(s, id).accessTimes, s.clock) && Flush(s, id).clock == s.clock
  {
    FlushTimes(s, id);
    RemovalKeepsClock(s.accessTimes, s.clock, id);
  }

  lemma {:induction false} ReactClock(s: State, id: SubId, r: Reaction)
    ensures FlushAndReact(s, id, r).clock == s.clock
  {
  }

  lemma {:induction false} CallEoseClock(s: State, id: SubId)
    ensures CallEose(s, id).clock == s.clock
  {
  }

  lemma {:induction false} FinalizeClock(s: State, id: SubId, r: Reaction)
    ensures MaybeFinalizeEose(s, id, r).clock == s.clock
  {
    ReactClock(s, id, r);
    CallEoseClock(FlushAndReact(s, id, r), id);
  }

  lemma {:induction false} FinalizeKeepsClock(s: State, id: SubId, r: Reaction)
    requires FromClock(s.accessTimes, s.clock)
    ensures FromClock(MaybeFinalizeEose(s, id, r).accessTimes, s.clock) && MaybeFinalizeEose(s, id, r).clock == s.clock
  {
    FinalizeTimes(s, id, r);
    FinalizeClock(s, id, r);
    RemovalKeepsClock(s.accessTimes, s.clock, id);
  }

  lemma {:induction false} AddKeepsClock(s: State, id: SubId, e: Event)
    requires FromClock(s.accessTimes, s.clock)
    ensures var t := AddToBuffer(s, id, e); FromClock(t.accessTimes, t.clock)
  {
    var t := Touch(s, id);
    assert FromClock(t.accessTimes, t.clock) && id in t.accessTimes;
    RemovalKeepsClock(t.accessTimes, t.clock, Oldest(t.accessTimes));
  }

  lemma {:induction false} NextKeepsClock(s: State, e: Step)
    requires FromClock(s.accessTimes, s.clock)
    ensures var t := Next(s, e); FromClock(t.accessTimes, t.clock)
  {
    if Enabled(s, e) {
      match e {
        case EoseMessage(id, r) => FinalizeKeepsClock(MarkEose(s, id), id, r);
        case Validated(id, event, r) =>
          var a := Answered(s, id);
          if id in s.subscriptions {
            AddKeepsClock(a, id, event);
            FinalizeKeepsClock(AddToBuffer(a, id, event), id, r);
          }
        case Settle(id, r) =>
          var counted := CountDown(Finished(s, id), id);
          FlushKeepsClock(counted, id);
          FinalizeKeepsClock(counted, id, r);
          FinalizeKeepsClock(Flush(counted, id), id, r);
        case FlushTick(id) => FlushKeepsClock(s, id);
        case _ =>
      }
    }
  }

  lemma {:induction false} RunKeepsClock(s: State, steps: seq<Step>)
    requires FromClock(s.accessTimes, s.clock)
    ensures var t := Run(s, steps); FromClock(t.accessTimes, t.clock)
    decreases |steps|
  {
    if steps == [] {
    } else {
      NextKeepsClock(s, steps[0]);
      RunKeepsClock(Next(s, steps[0]), steps[1..]);
    }
  }

  lemma {:induction false} ValidatedState(s: State, id: SubId, event: Event, r: Reaction)
    requires At(s, id).Inv() && id in s.waiting && id in s.subscriptions
    ensures Next(s, Validated(id, event, r)) == AddToBuffer(Answered(s, id), id, event)
  {
    NextValidated(s, id, event, r);
    var a := AddToBuffer(Answered(s, id), id, event);
    AnsweredAt(s, id, id);
    AddAt(Answered(s, id), id, event, id);
    assert At(a, id).pending == At(s, id).pending > 0;
    assert PendingOf(a, id) > 0;
  }

  /** The access times with this id as the youngest. */
  ghost predicate Youngest(before: map<SubId, nat>, after: map<SubId, nat>, id: SubId) {
    && after.Keys == before.Keys + {id}
    && forall k :: k in before && k != id ==> after[k] == before[k] < after[id]
  }

  /**
    * In every run an accepted event makes its id the youngest.  Only when a new buffer is needed and 1000 are there,
    * one is evicted: that of the id of oldest access time, the new one included; its events are counted as dropped.
    */
  lemma {:induction false} EvictionTakesOldest(steps: seq<Step>, id: SubId, event: Event, r: Reaction)
    requires var s := Run(Init(), steps); id in s.waiting && id in s.subscriptions
    ensures AddsOne(Run(Init(), steps), Next(Run(Init(), steps), Validated(id, event, r)), id, event)
  {
    var s := Run(Init(), steps);
    RunKeepsClock(Init(), steps);
    RunKeepsInv(Init(), steps, id);
    ValidatedState(s, id, event, r);
    AddEvicts(Answered(s, id), id, event);
    AddsOneAlike(s, Answered(s, id), AddToBuffer(Answered(s, id), id, event), id, event);
  }

  lemma {:induction false} AddsOneAlike(s: State, a: State, t: State, id: SubId, event: Event)
    requires a.buffers == s.buffers && a.accessTimes == s.accessTimes && a.log == s.log && AddsOne(a, t, id, event)
    ensures AddsOne(s, t, id, event)
  {
    var added := Buffered(BufferOf(s, id), event);
    forall times, oldest | Evicts(a, t, id, added, times, oldest) ensures Evicts(s, t, id, added, times, oldest) {
    }
  }

  /** The oldest of these times goes with its buffer. */
  ghost predicate Evicts(s: State, t: State, id: SubId, added: seq<Event>, times: map<SubId, nat>, oldest: SubId) {
    && IsOldest(times, oldest) && t.buffers == (s.buffers - {oldest})[id := added] && t.accessTimes == times - {oldest}
    && (oldest != id ==> LogOf(t, oldest).dropped == LogOf(s, oldest).dropped + multiset(BufferOf(s, oldest)))
  }

  /** The event is buffered, and a buffer is evicted if a new one is needed and 1000 are there. */
  ghost predicate AddsOne(s: State, t: State, id: SubId, event: Event) {
    var added := Buffered(BufferOf(s, id), event);
    exists times :: Youngest(s.accessTimes, times, id) &&
      if id in s.buffers || |s.buffers| < 1000 then t.buffers == s.buffers[id := added] && t.accessTimes == times
      else exists oldest :: Evicts(s, t, id, added, times, oldest)
  }

  lemma {:induction false} PushBuffers(s: State, id: SubId, event: Event)
    ensures var t := Push(s, id, event);
            && t.accessTimes == s.accessTimes && t.buffers == s.buffers[id := Buffered(BufferOf(s, id), event)]
            && forall k :: k != id ==> LogOf(t, k) == LogOf(s, k)
  {
  }

  lemma {:induction false} EvictionOf(s: State, id: SubId, event: Event, oldest: SubId, added: seq<Event>)
    requires IsOldest(s.accessTimes, oldest) && id !in s.buffers && added == Buffered([], event)
    ensures Evicts(s, Push(Evict(s, oldest), id, event), id, added, s.accessTimes, oldest)
  {
    PushBuffers(Evict(s, oldest), id, event);
  }

  lemma {:induction false} TouchMakesYoungest(s: State, id: SubId)
    requires FromClock(s.accessTimes, s.clock)
    ensures Youngest(s.accessTimes, Touch(s, id).accessTimes, id)
  {
  }

  lemma {:induction false} AddEvicts(s: State, id: SubId, event: Event)
    requires FromClock(s.accessTimes, s.clock)
    ensures AddsOne(s, AddToBuffer(s, id, event), id, event)
  {
    TouchMakesYoungest(s, id);
    if id in s.buffers || |s.buffers| < 1000 { AddStays(s, id, event); } else { AddTakesOldest(s, id, event); }
  }

  lemma {:induction false} AddStays(s: State, id: SubId, event: Event)
    requires id in s.buffers || |s.buffers| < 1000
    ensures var t, touched := AddToBuffer(s, id, event), Touch(s, id);
            t.buffers == s.buffers[id := Buffered(BufferOf(s, id), event)] && t.accessTimes == touched.accessTimes
  {
    PushBuffers(Touch(s, id), id, event);
  }

  lemma {:induction false} AddTakesOldest(s: State, id: SubId, event: Event)
    requires id !in s.buffers && |s.buffers| >= 1000
    ensures exists oldest ::
              Evicts(s, AddToBuffer(s, id, event), id, Buffered(BufferOf(s, id), event), Touch(s, id).accessTimes, oldest)
  {
    var touched := Touch(s, id);
    assert id in touched.accessTimes;
    var oldest := Oldest(touched.accessTimes);
    EvictionOf(touched, id, event, oldest, Buffered(BufferOf(s, id), event));
    var t := Push(Evict(touched, oldest), id, event);
    assert t == AddToBuffer(s, id, event);
    assert Evicts(s, t, id, Buffered(BufferOf(s, id), event), touched.accessTimes, oldest);
  }

  // ---------------------------------------------------------------- the relay object

  function FlushTicks(ids: seq<SubId>): seq<Step> {
    if ids == [] then [] else [FlushTick(ids[0])] + FlushTicks(ids[1..])
  }

  lemma {:induction false} FlushTicksSnoc(s: State, ids: seq<SubId>, id: SubId)
    ensures Run(s, FlushTicks(ids + [id])) == Flush(Run(s, FlushTicks(ids)), id)
    decreases |ids|
  {
    if ids == [] {
      assert FlushTicks([id])[1..] == [];
    } else {
      assert (ids + [id])[1..] == ids[1..] + [id];
      assert FlushTicks(ids)[1..] == FlushTicks(ids[1..]);
      assert FlushTicks(ids + [id])[1..] == FlushTicks(ids[1..] + [id]);
      FlushTicksSnoc(Flush(s, ids[0]), ids[1..], id);
    }
  }

  /** The inbound fields of a relay.  Ghost fields record what the model's history needs. */
  class Pipeline {
    var subscriptions: map<SubId, Subscription>
    var eventBuffers: map<SubId, seq<Event>>
    var eventBufferAccessTimes: map<SubId, nat>
    var clock: nat
    var pendingValidationCounts: map<SubId, nat>
    var pendingEoseSubscriptions: set<SubId>
    ghost var waiting: multiset<SubId>
    ghost var finishing: multiset<SubId>
    ghost var known: set<SubId>
    ghost var retired: set<SubId>
    ghost var log: map<SubId, Log>

    ghost function View(): State
      reads this
    {
      State(subscriptions, eventBuffers, eventBufferAccessTimes, clock, pendingValidationCounts,
            pendingEoseSubscriptions, waiting, finishing, known, retired, log)
    }

    /** Access times come from the strictly increasing clock. */
    ghost predicate Valid()
      reads this
    {
      FromClock(eventBufferAccessTimes, clock)
    }

    constructor ()
      ensures Valid() && View() == Init()
    {
      subscriptions, eventBuffers, eventBufferAccessTimes, clock := map[], map[], map[], 0;
      pendingValidationCounts, pendingEoseSubscriptions := map[], {};
      waiting, finishing, known, retired, log := multiset{}, multiset{}, {}, {}, map[];
    }

    method SubscribeAs(id: SubId, sub: Subscription)
      requires Valid() && id !in known
      modifies this
      ensures Valid() && View() == OpenSubscription(old(View()), id, sub)
    {
      subscriptions := subscriptions[id := sub];
      eventBuffers := eventBuffers[id := []];
      known := known + {id};
    }

    method UnsubscribeFrom(id: SubId)
      requires Valid()
      modifies this
      ensures Valid() && View() == Drop(old(View()), id)
    {
      if id !in subscriptions { return; }
      subscriptions := subscriptions - {id};
      DropBuffer(id);
      DropEose(id);
      retired := retired + {id};
    }

    method DropBuffer(id: SubId)
      requires Valid()
      modifies this`eventBuffers, this`eventBufferAccessTimes
      ensures Valid() && eventBuffers == old(eventBuffers) - {id}
      ensures eventBufferAccessTimes == old(eventBufferAccessTimes) - {id}
    {
      RemovalKeepsClock(eventBufferAccessTimes, clock, id);
      eventBuffers := eventBuffers - {id};
      eventBufferAccessTimes := eventBufferAccessTimes - {id};
    }

    method DropEose(id: SubId)
      modifies this`pendingEoseSubscriptions, this`pendingValidationCounts
      ensures pendingEoseSubscriptions == old(pendingEoseSubscriptions) - {id}
      ensures pendingValidationCounts == old(pendingValidationCounts) - {id}
    {
      pendingEoseSubscriptions := pendingEoseSubscriptions - {id};
      pendingValidationCounts := pendingValidationCounts - {id};
    }

    method ClearForDisconnect()
      requires Valid()
      modifies this
      ensures Valid() && View() == DropAll(old(View()))
    {
      subscriptions, eventBuffers, eventBufferAccessTimes := map[], map[], map[];
    }

    method FlushSubscriptionBuffer(id: SubId)
      requires Valid()
      modifies this
      ensures Valid() && View() == Flush(old(View()), id)
    {
      if id !in eventBuffers || |eventBuffers[id]| == 0 { return; }
      if id !in subscriptions {
        eventBuffers := eventBuffers - {id};
        return;
      }
      var sortedEvents := Sort(eventBuffers[id], NewestFirst);
      eventBuffers := eventBuffers - {id};
      eventBufferAccessTimes := eventBufferAccessTimes - {id};
      Deliver(id, sortedEvents);
    }

    /** onEvent for each event in turn. */
    method Deliver(id: SubId, events: seq<Event>)
      modifies this`log
      ensures log == old(log)[id := LogOf(old(View()), id).(delivered := LogOf(old(View()), id).delivered + events)]
    {
      ghost var l := LogOf(View(), id);
      log := log[id := l];
      assert l.delivered + events[..0] == l.delivered;
      for i := 0 to |events|
        invariant log == old(log)[id := l.(delivered := l.delivered + events[..i])]
      {
        log := log[id := l.(delivered := log[id].delivered + [events[i]])];
        assert l.delivered + events[..i] + [events[i]] == l.delivered + events[..i + 1];
      }
      assert events[..|events|] == events;
    }

    /** One tick of the flush interval. */
    method FlushAllBuffers() returns (ghost visited: seq<SubId>)
      requires Valid()
      modifies this
      ensures Valid() && View() == Run(old(View()), FlushTicks(visited))
      ensures forall id :: id in visited <==> id in old(eventBuffers)
    {
      var todo := eventBuffers.Keys;
      visited := [];
      while todo != {}
        invariant Valid() && View() == Run(old(View()), FlushTicks(visited))
        invariant forall id :: id in visited || id in todo <==> id in old(eventBuffers)
      {
        var id :| id in todo;
        FlushTicksSnoc(old(View()), visited, id);
        FlushSubscriptionBuffer(id);
        visited := visited + [id];
        todo := todo - {id};
      }
    }

    method EvictOldestEventBuffer()
      requires Valid()
      modifies this
      ensures Valid() && View() == EvictOldestBuffer(old(View()))
    {
      if eventBufferAccessTimes == map[] { return; }
      var oldestId := FindOldest(eventBufferAccessTimes);
      OldestIsUnique(eventBufferAccessTimes, clock, oldestId);
      ghost var l := LogOf(View(), oldestId);
      log := log[oldestId := l.(dropped := l.dropped + multiset(BufferOf(View(), oldestId)))];
      eventBuffers := eventBuffers - {oldestId};
      eventBufferAccessTimes := eventBufferAccessTimes - {oldestId};
    }

    method AddToEventBuffer(id: SubId, event: Event)
      requires Valid()
      modifies this
      ensures Valid() && View() == AddToBuffer(old(View()), id, event)
    {
      clock := clock + 1;
      eventBufferAccessTimes := eventBufferAccessTimes[id := clock];
      assert View() == Touch(old(View()), id);
      if id !in eventBuffers && |eventBuffers| >= MaxEventBuffers { EvictOldestEventBuffer(); }
      ghost var touched := View();
      Append(id, event);
      assert View() == Push(touched, id, event);
    }

    method Append(id: SubId, event: Event)
      requires Valid()
      modifies this
      ensures Valid() && View() == Push(old(View()), id, event)
    {
      var buffer := if id in eventBuffers then eventBuffers[id] else [];
      ghost var l := LogOf(View(), id);
      if |buffer| >= MaxEventsPerBuffer {
        l := l.(dropped := l.dropped + multiset{buffer[0]});
        buffer := buffer[1..];
      }
      eventBuffers := eventBuffers[id := buffer + [event]];
      log := log[id := l.(accepted := l.accepted + multiset{event})];
    }

    /** What the delivering handler did. */
    method RunReaction(id: SubId, reaction: Reaction)
      requires Valid()
      modifies this
      ensures Valid() && View() == React(old(View()), id, reaction)
    {
      match reaction {
        case Stay =>
        case Leave => UnsubscribeFrom(id);
        case HangUp => ClearForDisconnect();
      }
    }

    method FinalizeEose(id: SubId, reaction: Reaction)
      requires Valid()
      modifies this
      ensures Valid() && View() == MaybeFinalizeEose(old(View()), id, reaction)
    {
      if id !in pendingEoseSubscriptions { return; }
      if id in pendingValidationCounts && pendingValidationCounts[id] > 0 { return; }
      var delivers := id in eventBuffers && |eventBuffers[id]| > 0 && id in subscriptions;
      FlushSubscriptionBuffer(id);
      if delivers { RunReaction(id, reaction); }
      FireEose(id);
    }

    method FireEose(id: SubId)
      requires Valid()
      modifies this
      ensures Valid() && View() == CallEose(old(View()), id)
    {
      if id in subscriptions {
        var subscription := subscriptions[id];
        if subscription.hasEose {
          ghost var l := LogOf(View(), id);
          if subscription.eoseThrows {
            log := log[id := l.(eoseThrown := l.eoseThrown + 1)];
            return;
          }
          log := log[id := l.(eoseReturned := l.eoseReturned + 1)];
        }
        if subscription.autoClose { UnsubscribeFrom(id); }
      }
      pendingEoseSubscriptions := pendingEoseSubscriptions - {id};
    }

    /** An EVENT message: its validation begins. */
    method ReceiveEvent(id: SubId)
      requires Valid()
      modifies this
      ensures Valid() && View() == BeginValidation(old(View()), id)
    {
      var current := if id in pendingValidationCounts then pendingValidationCounts[id] else 0;
      pendingValidationCounts := pendingValidationCounts[id := current + 1];
      waiting := waiting + multiset{id};
      ghost var earlier := if id in log then log[id] else NoLog;
      log := log[id := earlier.(begun := earlier.begun + 1)];
    }

    /** The validation of an event succeeded. */
    method ProcessValidatedEvent(id: SubId, event: Event, reaction: Reaction)
      requires Valid() && id in waiting
      modifies this
      ensures Valid() && View() == ProcessValidated(Answered(old(View()), id), id, event, reaction)
    {
      waiting, finishing := waiting - multiset{id}, finishing + multiset{id};
      ghost var answered := View();
      assert answered == Answered(old(View()), id);
      if id in subscriptions {
        AddToEventBuffer(id, event);
        FinalizeEose(id, reaction);
      } else {
        log := log[id := LogOf(View(), id).(ignored := LogOf(View(), id).ignored + 1)];
        assert View() == CountIgnored(answered, id);
      }
    }

    /** The clean-up that follows every validation. */
    method DecrementPendingValidation(id: SubId, reaction: Reaction)
      requires Valid() && id in finishing
      modifies this
      ensures Valid() && View() == DecrementPending(Finished(old(View()), id), id, reaction)
    {
      finishing := finishing - multiset{id};
      ghost var finished := View();
      var current := if id in pendingValidationCounts then pendingValidationCounts[id] else 0;
      var next := if current > 0 then current - 1 else 0;
      if next == 0 {
        pendingValidationCounts := pendingValidationCounts - {id};
        assert View() == CountDown(finished, id);
        if id !in pendingEoseSubscriptions { FlushSubscriptionBuffer(id); }
      } else {
        pendingValidationCounts := pendingValidationCounts[id := next];
        assert View() == CountDown(finished, id);
      }
      FinalizeEose(id, reaction);
    }

    method MarkEosePending(id: SubId, reaction: Reaction)
      requires Valid()
      modifies this
      ensures Valid() && View() == MaybeFinalizeEose(MarkEose(old(View()), id), id, reaction)
    {
      pendingEoseSubscriptions := pendingEoseSubscriptions + {id};
      log := log[id := LogOf(View(), id).(eoseMessages := LogOf(View(), id).eoseMessages + 1)];
      assert View() == MarkEose(old(View()), id);
      FinalizeEose(id, reaction);
    }

    /** A CLOSED message forgets the subscription and nothing else. */
    method ReceiveClosed(id: SubId)
      requires Valid()
      modifies this
      ensures Valid() && View() == Forget(old(View()), id)
    {
      subscriptions := subscriptions - {id};
    }
  }
}
