/**
  * The NIP-46 remote signer as a state machine over whole runs: request ids, sessions and their
  * permissions, authentication challenges, and the signatures it hands out.
  *
  * Rate limiting and decryption decide whether a request arrives at all; what a step of the
  * environment decides (the permission handler's answer, whether signing works, fresh
  * challenge ids) is part of the step.
  */
module Bunker {
  import opened Wrappers

  type Client = string

  const MaxRequestAge: nat := 120000

  /** An empty secret means that none is required. */
  datatype Options = Options(signer: string, secret: string, defaults: set<string>, requireAuth: bool, authTimeout: nat)

  datatype Session = Session(permissions: set<string>, lastSeen: nat)

  datatype Challenge = Challenge(id: string, client: Client, created: nat, permissions: set<string>)

  datatype Request =
    | Connect(remote: string, secret: string, requested: set<string>, challengeId: string)
    // kindText: the kind in the event data, if it parses; handler: the permission handler's answer, if it gives one
    | SignEvent(kindText: Option<string>, handler: Option<bool>)
    | Disconnect
    | OtherRequest

  /** A signature under way: who asked for which kind, and what the permission handler said. */
  datatype Signing = Signing(client: Client, kindText: string, handler: Option<bool>)

  /** What the bunker did, in order. */
  datatype Entry =
    | Dispatched(id: string, time: nat)
    | Connected(client: Client, permissions: set<string>)
    | Challenged(challengeId: string, client: Client, permissions: set<string>)
    | Approved(client: Client, permissions: set<string>)
    | Left(client: Client)
    | Authorised(signing: Signing)
    | Signed(signing: Signing)
    | Stopped

  datatype State = State(
    options: Options, now: nat,
    sessions: map<Client, Session>,
    challenges: seq<Challenge>,        // in insertion order
    usedIds: map<string, nat>,
    signing: multiset<Signing>,        // permission checked, signature awaited
    log: seq<Entry>)

  datatype Step =
    | Wait(milliseconds: nat)
    | Receive(client: Client, id: string, request: Request)
    | FinishSigning(signing: Signing, ok: bool)
    | Resolve(client: Client)
    | ChallengeTimeout(id: string)
    | Cleanup
    | Stop

  function Init(options: Options): State {
    State(options, 0, map[], [], map[], multiset{}, [])
  }

  function Append(s: State, e: Entry): State {
    s.(log := s.log + [e])
  }

  function OpenSession(s: State, client: Client, requested: set<string>): State {
    s.(sessions := s.sessions[client := Session(s.options.defaults + requested, s.now)])
  }

  /** Map.set: a known id keeps its place. */
  function SetChallenge(challenges: seq<Challenge>, c: Challenge): seq<Challenge> {
    if challenges == [] then [c]
    else if challenges[0].id == c.id then [c] + challenges[1..]
    else [challenges[0]] + SetChallenge(challenges[1..], c)
  }

  function DropChallenge(challenges: seq<Challenge>, id: string): seq<Challenge> {
    if challenges == [] then []
    else if challenges[0].id == id then challenges[1..]
    else [challenges[0]] + DropChallenge(challenges[1..], id)
  }

  function FreshChallenges(challenges: seq<Challenge>, now: nat, timeout: nat): seq<Challenge> {
    if challenges == [] then []
    else (if now - challenges[0].created > timeout then [] else [challenges[0]]) + FreshChallenges(challenges[1..], now, timeout)
  }

  function FirstChallengeOf(challenges: seq<Challenge>, client: Client): Option<Challenge> {
    if challenges == [] then None
    else if challenges[0].client == client then Some(challenges[0])
    else FirstChallengeOf(challenges[1..], client)
  }

  function Issue(s: State, client: Client, id: string, requested: set<string>): State {
    Append(s.(challenges := SetChallenge(s.challenges, Challenge(id, client, s.now, requested))),
           Challenged(id, client, requested))
  }

  function Admit(s: State, client: Client, requested: set<string>): State {
    Append(OpenSession(s, client, requested), Connected(client, requested))
  }

  function HandleConnect(s: State, client: Client, r: Request): State
    requires r.Connect?
  {
    if r.remote != s.options.signer then s
    else if s.options.secret != "" && r.secret != s.options.secret then s
    else if s.options.requireAuth && client !in s.sessions then Issue(s, client, r.challengeId, r.requested)
    else Admit(s, client, r.requested)
  }

  function KindPermission(kindText: string): string {
    "sign_event:" + kindText
  }

  /** hasPermission for signing, apart from refreshing lastSeen. */
  predicate MaySign(s: State, client: Client, r: Request)
    requires r.SignEvent?
  {
    client in s.sessions &&
    if r.handler.Some? then r.handler.value
    else
      || "sign_event" in s.sessions[client].permissions
      || (r.kindText.Some? && KindPermission(r.kindText.value) in s.sessions[client].permissions)
  }

  function Seen(s: State, client: Client): State {
    if client in s.sessions then s.(sessions := s.sessions[client := s.sessions[client].(lastSeen := s.now)]) else s
  }

  function Begin(s: State, w: Signing): State {
    Append(s.(signing := s.signing + multiset{w}), Authorised(w))
  }

  /** A signature that fails leaves no result. Neither leaving nor stopping cancels one under way. */
  function Finish(s: State, w: Signing, ok: bool): State {
    if w !in s.signing then s
    else
      var done := s.(signing := s.signing - multiset{w});
      if ok then Append(done, Signed(w)) else done
  }

  function HandleSign(s: State, client: Client, r: Request): State
    requires r.SignEvent?
  {
    var seen := Seen(s, client);
    if MaySign(s, client, r) && r.kindText.Some? then Begin(seen, Signing(client, r.kindText.value, r.handler)) else seen
  }

  function Leave(s: State, client: Client): State {
    Append(s.(sessions := s.sessions - {client}), Left(client))
  }

  function Handle(s: State, client: Client, r: Request): State {
    match r
    case Connect(_, _, _, _) => HandleConnect(s, client, r)
    case SignEvent(_, _) => HandleSign(s, client, r)
    case Disconnect => Leave(s, client)
    case OtherRequest => s
  }

  function Accept(s: State, id: string): State {
    Append(s.(usedIds := s.usedIds[id := s.now]), Dispatched(id, s.now))
  }

  function ResolveFor(s: State, client: Client): State {
    match FirstChallengeOf(s.challenges, client)
    case None => s
    case Some(c) =>
      Append(OpenSession(s.(challenges := DropChallenge(s.challenges, c.id)), client, c.permissions),
             Approved(client, c.permissions))
  }

  function RecentIds(usedIds: map<string, nat>, now: nat): map<string, nat> {
    map id | id in usedIds && now - usedIds[id] <= MaxRequestAge :: usedIds[id]
  }

  function Halt(s: State): State {
    Append(s.(sessions := map[], challenges := [], usedIds := map[]), Stopped)
  }

  function Next(s: State, e: Step): State {
    match e
    case Wait(ms) => s.(now := s.now + ms)
    case Receive(client, id, request) => if id == "" || id in s.usedIds then s else Handle(Accept(s, id), client, request)
    case FinishSigning(w, ok) => Finish(s, w, ok)
    case Resolve(client) => ResolveFor(s, client)
    case ChallengeTimeout(id) => s.(challenges := DropChallenge(s.challenges, id))
    case Cleanup =>
      s.(usedIds := RecentIds(s.usedIds, s.now), challenges := FreshChallenges(s.challenges, s.now, s.options.authTimeout))
    case Stop => Halt(s)
  }

  function Run(s: State, steps: seq<Step>): State
    decreases |steps|
  {
    if steps == [] then s else Run(Next(s, steps[0]), steps[1..])
  }

  // ---------------------------------------------------------------- what the log says

  predicate Gone(e: Entry, client: Client) {
    e.Stopped? || e == Left(client)
  }

  predicate IsGrant(e: Entry, client: Client) {
    (e.Connected? || e.Approved?) && e.client == client
  }

  function Last(log: seq<Entry>): Entry
    requires log != []
  {
    log[|log| - 1]
  }

  function Front(log: seq<Entry>): (r: seq<Entry>)
    requires log != []
    ensures |r| < |log|
  {
    log[..|log| - 1]
  }

  /** The permissions of the client's last accepted connect or approval since it left or the bunker stopped. */
  function LastGrant(log: seq<Entry>, client: Client): Option<set<string>>
    decreases |log|
  {
    if log == [] || Gone(Last(log), client) then None
    else if IsGrant(Last(log), client) then Some(Last(log).permissions)
    else LastGrant(Front(log), client)
  }

  /** A challenge of the client was approved since it left or the bunker stopped. */
  predicate ApprovedSince(log: seq<Entry>, client: Client)
    decreases |log|
  {
    && log != [] && !Gone(Last(log), client)
    && ((Last(log).Approved? && Last(log).client == client) || ApprovedSince(Front(log), client))
  }

  function Approvals(log: seq<Entry>, client: Client): nat
    decreases |log|
  {
    if log == [] then 0
    else Approvals(Front(log), client) + if Last(log).Approved? && Last(log).client == client then 1 else 0
  }

  function ChallengesIssued(log: seq<Entry>, client: Client): nat
    decreases |log|
  {
    if log == [] then 0
    else ChallengesIssued(Front(log), client) + if Last(log).Challenged? && Last(log).client == client then 1 else 0
  }

  /** The client was challenged with exactly these permissions since the bunker last stopped. */
  predicate ChallengedSince(log: seq<Entry>, client: Client, permissions: set<string>)
    decreases |log|
  {
    && log != [] && !Last(log).Stopped?
    && (IsChallenge(Last(log), client, permissions) || ChallengedSince(Front(log), client, permissions))
  }

  predicate IsChallenge(e: Entry, client: Client, permissions: set<string>) {
    e.Challenged? && e.client == client && e.permissions == permissions
  }

  /** The latest dispatch of a request id since the bunker last stopped. */
  function LastDispatch(log: seq<Entry>, id: string): Option<nat>
    decreases |log|
  {
    if log == [] || Last(log).Stopped? then None
    else if Last(log).Dispatched? && Last(log).id == id then Some(Last(log).time)
    else LastDispatch(Front(log), id)
  }

  /** How often this signature was authorised, and how often it was produced. */
  function Authorisations(log: seq<Entry>, w: Signing): nat
    decreases |log|
  {
    if log == [] then 0 else Authorisations(Front(log), w) + if Last(log) == Authorised(w) then 1 else 0
  }

  function Results(log: seq<Entry>, w: Signing): nat
    decreases |log|
  {
    if log == [] then 0 else Results(Front(log), w) + if Last(log) == Signed(w) then 1 else 0
  }

  // ---------------------------------------------------------------- why each entry may stand there

  /** The session's permissions, or the handler's yes, cover signing this kind. */
  predicate Covers(permissions: set<string>, w: Signing) {
    if w.handler.Some? then w.handler.value
    else "sign_event" in permissions || KindPermission(w.kindText) in permissions
  }

  /** Whether the bunker was entitled to do this after the given log. */
  predicate Justifies(options: Options, log: seq<Entry>, e: Entry) {
    match e
    case Dispatched(id, t) => LastDispatch(log, id).Some? ==> t - LastDispatch(log, id).value > MaxRequestAge
    case Connected(c, _) => options.requireAuth ==> ApprovedSince(log, c)
    case Approved(c, p) => ChallengedSince(log, c, p) && Approvals(log, c) < ChallengesIssued(log, c)
    case Authorised(w) =>
      && LastGrant(log, w.client).Some?
      && Covers(options.defaults + LastGrant(log, w.client).value, w)
      && (options.requireAuth ==> ApprovedSince(log, w.client))
    case Signed(w) => Results(log, w) < Authorisations(log, w)
    case _ => true
  }

  predicate Justified(options: Options, log: seq<Entry>)
    decreases |log|
  {
    log == [] || (Justified(options, Front(log)) && Justifies(options, Front(log), Last(log)))
  }

  lemma {:induction false} JustifiedAt(options: Options, log: seq<Entry>, i: nat)
    requires Justified(options, log) && i < |log|
    ensures Justifies(options, log[..i], log[i])
  {
    var n := |log| - 1;
    if i == n {
    } else {
      JustifiedAt(options, log[..n], i);
      assert log[..n][..i] == log[..i];
    }
  }

  // ---------------------------------------------------------------- pending challenges

  function PendingOf(challenges: seq<Challenge>, client: Client): nat {
    if challenges == [] then 0 else (if challenges[0].client == client then 1 else 0) + PendingOf(challenges[1..], client)
  }

  /** Map keys: no two pending challenges share an id. */
  predicate DistinctIds(challenges: seq<Challenge>) {
    challenges == [] || ((forall d :: d in challenges[1..] ==> d.id != challenges[0].id) && DistinctIds(challenges[1..]))
  }

  lemma {:induction false} ConsKeepsDistinct(head: Challenge, rest: seq<Challenge>)
    requires DistinctIds(rest) && forall d :: d in rest ==> d.id != head.id
    ensures DistinctIds([head] + rest)
  {
    assert ([head] + rest)[1..] == rest;
  }

  lemma {:induction false} ConsCounts(head: Challenge, rest: seq<Challenge>, client: Client)
    ensures PendingOf([head] + rest, client) == (if head.client == client then 1 else 0) + PendingOf(rest, client)
  {
    assert ([head] + rest)[1..] == rest;
  }

  lemma {:induction false} SetChallengeAdds(challenges: seq<Challenge>, c: Challenge, client: Client)
    requires DistinctIds(challenges)
    ensures var r := SetChallenge(challenges, c);
      && DistinctIds(r)
      && (forall d :: d in r ==> d == c || d in challenges)
      && PendingOf(r, client) <= PendingOf(challenges, client) + if c.client == client then 1 else 0
    decreases |challenges|
  {
    if challenges == [] {
      ConsKeepsDistinct(c, []);
      ConsCounts(c, [], client);
    } else {
      var head, rest := challenges[0], challenges[1..];
      assert challenges == [head] + rest;
      ConsCounts(head, rest, client);
      if head.id == c.id {
        ConsKeepsDistinct(c, rest);
        ConsCounts(c, rest, client);
      } else {
        SetChallengeAdds(rest, c, client);
        ConsKeepsDistinct(head, SetChallenge(rest, c));
        ConsCounts(head, SetChallenge(rest, c), client);
      }
    }
  }

  lemma {:induction false} DropChallengeKeepsOthers(challenges: seq<Challenge>, id: string, client: Client)
    requires DistinctIds(challenges)
    ensures var r := DropChallenge(challenges, id);
      && DistinctIds(r)
      && (forall d :: d in r <==> d in challenges && d.id != id)
      && PendingOf(r, client) <= PendingOf(challenges, client)
    decreases |challenges|
  {
    if challenges == [] {
    } else {
      var head, rest := challenges[0], challenges[1..];
      assert challenges == [head] + rest;
      ConsCounts(head, rest, client);
      if head.id != id {
        DropChallengeKeepsOthers(rest, id, client);
        ConsKeepsDistinct(head, DropChallenge(rest, id));
        ConsCounts(head, DropChallenge(rest, id), client);
      }
    }
  }

  lemma {:induction false} FreshChallengesAreRecent(challenges: seq<Challenge>, now: nat, timeout: nat, client: Client)
    requires DistinctIds(challenges)
    ensures var r := FreshChallenges(challenges, now, timeout);
      && DistinctIds(r)
      && (forall d :: d in r <==> d in challenges && now - d.created <= timeout)
      && PendingOf(r, client) <= PendingOf(challenges, client)
    decreases |challenges|
  {
    if challenges == [] {
    } else {
      var head, rest := challenges[0], challenges[1..];
      assert challenges == [head] + rest;
      ConsCounts(head, rest, client);
      FreshChallengesAreRecent(rest, now, timeout, client);
      var kept := FreshChallenges(rest, now, timeout);
      if now - head.created > timeout {
        assert [] + kept == kept;
      } else {
        ConsKeepsDistinct(head, kept);
        ConsCounts(head, kept, client);
      }
    }
  }

  lemma {:induction false} FirstChallengeIsPending(challenges: seq<Challenge>, client: Client)
    requires DistinctIds(challenges)
    ensures match FirstChallengeOf(challenges, client)
      case None => PendingOf(challenges, client) == 0
      case Some(c) =>
        && c in challenges && c.client == client
        && PendingOf(DropChallenge(challenges, c.id), client) + 1 == PendingOf(challenges, client)
    decreases |challenges|
  {
    if challenges == [] {
    } else {
      var head, rest := challenges[0], challenges[1..];
      assert challenges == [head] + rest;
      ConsCounts(head, rest, client);
      if head.client == client {
        assert DropChallenge(challenges, head.id) == rest;
      } else {
        FirstChallengeIsPending(rest, client);
        match FirstChallengeOf(rest, client)
        case None =>
        case Some(c) =>
          ConsCounts(head, DropChallenge(rest, c.id), client);
      }
    }
  }

  // ---------------------------------------------------------------- the invariant, part by part

  /** A forgotten id was last dispatched too long ago. */
  predicate IdsMatchLog(s: State, id: string) {
    match LastDispatch(s.log, id)
    case None => id !in s.usedIds
    case Some(t) => t <= s.now && if id in s.usedIds then s.usedIds[id] == t else s.now - t > MaxRequestAge
  }

  predicate SessionMatchesLog(s: State, client: Client) {
    && (client in s.sessions <==> LastGrant(s.log, client).Some?)
    && (client in s.sessions ==> s.sessions[client].permissions == s.options.defaults + LastGrant(s.log, client).value)
    && (client in s.sessions && s.options.requireAuth ==> ApprovedSince(s.log, client))
  }

  predicate ChallengesMatchLog(s: State, client: Client) {
    && DistinctIds(s.challenges)
    && (forall c :: c in s.challenges && c.client == client ==> ChallengedSince(s.log, client, c.permissions))
    && Approvals(s.log, client) + PendingOf(s.challenges, client) <= ChallengesIssued(s.log, client)
  }

  /** Every authorisation is under way, or has ended with a result or without one. */
  predicate SigningMatchesLog(s: State, w: Signing) {
    Results(s.log, w) + s.signing[w] <= Authorisations(s.log, w)
  }

  ghost predicate Inv(s: State) {
    && (forall id :: IdsMatchLog(s, id))
    && (forall client :: SessionMatchesLog(s, client))
    && (forall client :: ChallengesMatchLog(s, client))
    && (forall w :: SigningMatchesLog(s, w))
    && Justified(s.options, s.log)
  }

  /** What an append leaves for the log functions to unfold. */
  lemma {:induction false} AppendUnfolds(log: seq<Entry>, e: Entry)
    ensures Front(log + [e]) == log && Last(log + [e]) == e
  {
  }

  lemma {:induction false} AppendKeepsChallenges(log: seq<Entry>, e: Entry, client: Client, p: set<string>)
    requires !e.Stopped?
    ensures ChallengedSince(log, client, p) ==> ChallengedSince(log + [e], client, p)
  {
    AppendUnfolds(log, e);
  }

  lemma {:induction false} AppendKeepsJustified(options: Options, log: seq<Entry>, e: Entry)
    requires Justified(options, log) && Justifies(options, log, e)
    ensures Justified(options, log + [e])
  {
    AppendUnfolds(log, e);
  }

  // ---------------------------------------------------------------- what a step leaves of it: request ids

  lemma {:induction false} IdsAppend(s: State, t: State, e: Entry, id: string)
    requires IdsMatchLog(s, id) && t.log == s.log + [e] && t.usedIds == s.usedIds && t.now == s.now
    requires !e.Stopped? && !e.Dispatched?
    ensures IdsMatchLog(t, id)
  {
    AppendUnfolds(s.log, e);
  }

  lemma {:induction false} AcceptKeepsIds(s: State, accepted: string, id: string)
    requires IdsMatchLog(s, id)
    ensures IdsMatchLog(Accept(s, accepted), id)
  {
    AppendUnfolds(s.log, Dispatched(accepted, s.now));
  }

  lemma {:induction false} HaltKeepsIds(s: State, id: string)
    ensures IdsMatchLog(Halt(s), id)
  {
    AppendUnfolds(s.log, Stopped);
  }

  lemma {:induction false} HandleKeepsIds(s: State, caller: Client, r: Request, id: string)
    requires IdsMatchLog(s, id)
    ensures IdsMatchLog(Handle(s, caller, r), id)
  {
    var t := Handle(s, caller, r);
    if t.log != s.log { IdsAppend(s, t, Last(t.log), id); }
  }

  lemma {:induction false} NextKeepsIds(s: State, e: Step, id: string)
    requires IdsMatchLog(s, id)
    ensures IdsMatchLog(Next(s, e), id)
  {
    var t := Next(s, e);
    match e
    case Receive(client, accepted, r) =>
      if t != s {
        AcceptKeepsIds(s, accepted, id);
        HandleKeepsIds(Accept(s, accepted), client, r, id);
      }
    case Stop => HaltKeepsIds(s, id);
    case FinishSigning(_, _) => if t.log != s.log { IdsAppend(s, t, Last(t.log), id); }
    case Resolve(_) => if t.log != s.log { IdsAppend(s, t, Last(t.log), id); }
    case _ =>
  }

  // ---------------------------------------------------------------- sessions, step by step

  lemma {:induction false} SessionAppend(s: State, t: State, e: Entry, client: Client)
    requires SessionMatchesLog(s, client) && t.log == s.log + [e] && t.options == s.options
    requires !Gone(e, client) && !IsGrant(e, client)
    requires client in t.sessions <==> client in s.sessions
    requires client in s.sessions ==> t.sessions[client].permissions == s.sessions[client].permissions
    ensures SessionMatchesLog(t, client)
  {
    AppendUnfolds(s.log, e);
  }

  lemma {:induction false} SessionGranted(s: State, t: State, e: Entry, client: Client)
    requires SessionMatchesLog(s, client) && t.log == s.log + [e] && t.options == s.options
    requires IsGrant(e, client) && client in t.sessions
    requires t.sessions[client].permissions == t.options.defaults + e.permissions
    requires e.Connected? && t.options.requireAuth ==> client in s.sessions
    ensures SessionMatchesLog(t, client)
  {
    AppendUnfolds(s.log, e);
  }

  lemma {:induction false} SessionGone(s: State, t: State, e: Entry, client: Client)
    requires t.log == s.log + [e] && Gone(e, client) && client !in t.sessions
    ensures SessionMatchesLog(t, client)
  {
    AppendUnfolds(s.log, e);
  }

  lemma {:induction false} ConnectKeepsSession(s: State, caller: Client, r: Request, client: Client)
    requires r.Connect? && SessionMatchesLog(s, client)
    ensures SessionMatchesLog(HandleConnect(s, caller, r), client)
  {
    var t := HandleConnect(s, caller, r);
    if t != s {
      var e := if s.options.requireAuth && caller !in s.sessions then Challenged(r.challengeId, caller, r.requested)
               else Connected(caller, r.requested);
      assert t.log == s.log + [e];
      if IsGrant(e, client) { SessionGranted(s, t, e, client); } else { SessionAppend(s, t, e, client); }
    }
  }

  lemma {:induction false} SignKeepsSession(s: State, caller: Client, r: Request, client: Client)
    requires r.SignEvent? && SessionMatchesLog(s, client)
    ensures SessionMatchesLog(HandleSign(s, caller, r), client)
  {
    var t := HandleSign(s, caller, r);
    if t.log != s.log {
      SessionAppend(s, t, Authorised(Signing(caller, r.kindText.value, r.handler)), client);
    }
  }

  lemma {:induction false} LeaveKeepsSession(s: State, caller: Client, client: Client)
    requires SessionMatchesLog(s, client)
    ensures SessionMatchesLog(Leave(s, caller), client)
  {
    var t := Leave(s, caller);
    if caller == client { SessionGone(s, t, Left(caller), client); } else { SessionAppend(s, t, Left(caller), client); }
  }

  lemma {:induction false} ResolveKeepsSession(s: State, approved: Client, client: Client)
    requires SessionMatchesLog(s, client)
    ensures SessionMatchesLog(ResolveFor(s, approved), client)
  {
    var t := ResolveFor(s, approved);
    match FirstChallengeOf(s.challenges, approved)
    case None =>
    case Some(c) =>
      var e := Approved(approved, c.permissions);
      if approved == client { SessionGranted(s, t, e, client); } else { SessionAppend(s, t, e, client); }
  }

  lemma {:induction false} HandleKeepsSession(s: State, caller: Client, r: Request, client: Client)
    requires SessionMatchesLog(s, client)
    ensures SessionMatchesLog(Handle(s, caller, r), client)
  {
    match r
    case Connect(_, _, _, _) => ConnectKeepsSession(s, caller, r, client);
    case SignEvent(_, _) => SignKeepsSession(s, caller, r, client);
    case Disconnect => LeaveKeepsSession(s, caller, client);
    case OtherRequest =>
  }

  lemma {:induction false} NextKeepsSession(s: State, e: Step, client: Client)
    requires SessionMatchesLog(s, client)
    ensures SessionMatchesLog(Next(s, e), client)
  {
    var t := Next(s, e);
    match e
    case Receive(caller, id, r) =>
      if id != "" && id !in s.usedIds {
        var a := Accept(s, id);
        SessionAppend(s, a, Dispatched(id, s.now), client);
        HandleKeepsSession(a, caller, r, client);
      }
    case FinishSigning(w, ok) => if t.log != s.log { SessionAppend(s, t, Signed(w), client); }
    case Resolve(approved) => ResolveKeepsSession(s, approved, client);
    case Stop => SessionGone(s, t, Stopped, client);
    case _ =>
  }

  // ---------------------------------------------------------------- challenges

  lemma {:induction false} ChallengesAppend(s: State, t: State, e: Entry, client: Client)
    requires ChallengesMatchLog(s, client) && t.log == s.log + [e] && t.challenges == s.challenges
    requires !e.Stopped? && !e.Challenged? && !e.Approved?
    ensures ChallengesMatchLog(t, client)
  {
    AppendUnfolds(s.log, e);
    forall c | c in s.challenges && c.client == client ensures ChallengedSince(t.log, client, c.permissions) {
      AppendKeepsChallenges(s.log, e, client, c.permissions);
    }
  }

  lemma {:induction false} IssueKeepsChallenges(s: State, caller: Client, id: string, p: set<string>, client: Client)
    requires ChallengesMatchLog(s, client)
    ensures ChallengesMatchLog(Issue(s, caller, id, p), client)
  {
    var t, e, c := Issue(s, caller, id, p), Challenged(id, caller, p), Challenge(id, caller, s.now, p);
    SetChallengeAdds(s.challenges, c, client);
    AppendUnfolds(s.log, e);
    forall d | d in t.challenges && d.client == client ensures ChallengedSince(t.log, client, d.permissions) {
      if d == c {
        assert IsChallenge(e, client, p);
      } else {
        AppendKeepsChallenges(s.log, e, client, d.permissions);
      }
    }
  }

  lemma {:induction false} ResolveKeepsChallenges(s: State, approved: Client, client: Client)
    requires ChallengesMatchLog(s, client)
    ensures ChallengesMatchLog(ResolveFor(s, approved), client)
  {
    match FirstChallengeOf(s.challenges, approved)
    case None =>
    case Some(c) =>
      var t, e := ResolveFor(s, approved), Approved(approved, c.permissions);
      FirstChallengeIsPending(s.challenges, approved);
      DropChallengeKeepsOthers(s.challenges, c.id, client);
      AppendUnfolds(s.log, e);
      forall d | d in t.challenges && d.client == client ensures ChallengedSince(t.log, client, d.permissions) {
        AppendKeepsChallenges(s.log, e, client, d.permissions);
      }
  }

  lemma {:induction false} HaltKeepsChallenges(s: State, client: Client)
    requires ChallengesMatchLog(s, client)
    ensures ChallengesMatchLog(Halt(s), client)
  {
    AppendUnfolds(s.log, Stopped);
  }

  lemma {:induction false} HandleKeepsChallenges(s: State, caller: Client, r: Request, client: Client)
    requires ChallengesMatchLog(s, client)
    ensures ChallengesMatchLog(Handle(s, caller, r), client)
  {
    var t := Handle(s, caller, r);
    if r.Connect? && t.challenges != s.challenges {
      IssueKeepsChallenges(s, caller, r.challengeId, r.requested, client);
    } else if t.log != s.log {
      var e := Last(t.log);
      if e.Challenged? {
        IssueKeepsChallenges(s, caller, r.challengeId, r.requested, client);
      } else {
        ChallengesAppend(s, t, e, client);
      }
    }
  }

  lemma {:induction false} NextKeepsChallenges(s: State, e: Step, client: Client)
    requires ChallengesMatchLog(s, client)
    ensures ChallengesMatchLog(Next(s, e), client)
  {
    var t := Next(s, e);
    match e
    case Wait(_) =>
    case Receive(caller, id, r) =>
      if id != "" && id !in s.usedIds {
        ChallengesAppend(s, Accept(s, id), Dispatched(id, s.now), client);
        HandleKeepsChallenges(Accept(s, id), caller, r, client);
      }
    case FinishSigning(w, ok) => if t.log != s.log { ChallengesAppend(s, t, Signed(w), client); }
    case Resolve(approved) => ResolveKeepsChallenges(s, approved, client);
    case ChallengeTimeout(id) => DropChallengeKeepsOthers(s.challenges, id, client);
    case Cleanup => FreshChallengesAreRecent(s.challenges, s.now, s.options.authTimeout, client);
    case Stop => HaltKeepsChallenges(s, client);
  }

  // ---------------------------------------------------------------- signatures under way

  lemma {:induction false} SigningAppend(s: State, t: State, e: Entry, w: Signing)
    requires SigningMatchesLog(s, w) && t.log == s.log + [e]
    requires t.signing[w] + (if e == Signed(w) then 1 else 0) <= s.signing[w] + if e == Authorised(w) then 1 else 0
    ensures SigningMatchesLog(t, w)
  {
    AppendUnfolds(s.log, e);
  }

  lemma {:induction false} HandleKeepsSigning(s: State, caller: Client, r: Request, w: Signing)
    requires SigningMatchesLog(s, w)
    ensures SigningMatchesLog(Handle(s, caller, r), w)
  {
    var t := Handle(s, caller, r);
    if t.log != s.log { SigningAppend(s, t, Last(t.log), w); }
  }

  lemma {:induction false} NextKeepsSigning(s: State, e: Step, w: Signing)
    requires SigningMatchesLog(s, w)
    ensures SigningMatchesLog(Next(s, e), w)
  {
    var t := Next(s, e);
    match e
    case Receive(caller, id, r) =>
      if id != "" && id !in s.usedIds {
        SigningAppend(s, Accept(s, id), Dispatched(id, s.now), w);
        HandleKeepsSigning(Accept(s, id), caller, r, w);
      }
    case Wait(_) =>
    case ChallengeTimeout(_) =>
    case Cleanup =>
    case _ => if t.log != s.log { SigningAppend(s, t, Last(t.log), w); }
  }

  // ---------------------------------------------------------------- every entry is justified

  lemma {:induction false} HandleKeepsJustified(s: State, caller: Client, r: Request)
    requires Justified(s.options, s.log) && SessionMatchesLog(s, caller)
    ensures Justified(s.options, Handle(s, caller, r).log)
  {
    var t := Handle(s, caller, r);
    match r
    case Connect(_, _, _, _) => if t.log != s.log { AppendKeepsJustified(s.options, s.log, Last(t.log)); }
    case SignEvent(_, _) => if t.log != s.log { AppendKeepsJustified(s.options, s.log, Last(t.log)); }
    case Disconnect => AppendKeepsJustified(s.options, s.log, Left(caller));
    case OtherRequest =>
  }

  lemma {:induction false} ReceiveKeepsJustified(s: State, caller: Client, id: string, r: Request)
    requires Justified(s.options, s.log) && SessionMatchesLog(s, caller) && IdsMatchLog(s, id) && id !in s.usedIds
    ensures Justified(s.options, Handle(Accept(s, id), caller, r).log)
  {
    var a := Accept(s, id);
    AppendKeepsJustified(s.options, s.log, Dispatched(id, s.now));
    SessionAppend(s, a, Dispatched(id, s.now), caller);
    HandleKeepsJustified(a, caller, r);
  }

  lemma {:induction false} ResolveKeepsJustified(s: State, approved: Client)
    requires Justified(s.options, s.log) && ChallengesMatchLog(s, approved)
    ensures Justified(s.options, ResolveFor(s, approved).log)
  {
    FirstChallengeIsPending(s.challenges, approved);
    match FirstChallengeOf(s.challenges, approved)
    case None =>
    case Some(c) => AppendKeepsJustified(s.options, s.log, Approved(approved, c.permissions));
  }

  lemma {:induction false} FinishKeepsJustified(s: State, w: Signing, ok: bool)
    requires Justified(s.options, s.log) && SigningMatchesLog(s, w)
    ensures Justified(s.options, Finish(s, w, ok).log)
  {
    if w in s.signing && ok { AppendKeepsJustified(s.options, s.log, Signed(w)); }
  }

  lemma {:induction false} NextKeepsJustified(s: State, e: Step)
    requires Inv(s)
    ensures Justified(s.options, Next(s, e).log)
  {
    match e
    case Receive(caller, id, r) => if id != "" && id !in s.usedIds { ReceiveKeepsJustified(s, caller, id, r); }
    case FinishSigning(w, ok) => FinishKeepsJustified(s, w, ok);
    case Resolve(approved) => ResolveKeepsJustified(s, approved);
    case Stop => AppendKeepsJustified(s.options, s.log, Stopped);
    case _ =>
  }

  lemma {:induction false} OptionsStay(s: State, e: Step)
    ensures Next(s, e).options == s.options
  {
  }

  lemma {:induction false} NextKeepsInv(s: State, e: Step)
    requires Inv(s)
    ensures Inv(Next(s, e))
  {
    OptionsStay(s, e);
    NextKeepsJustified(s, e);
    forall id ensures IdsMatchLog(Next(s, e), id) { NextKeepsIds(s, e, id); }
    forall c ensures SessionMatchesLog(Next(s, e), c) { NextKeepsSession(s, e, c); }
    forall c ensures ChallengesMatchLog(Next(s, e), c) { NextKeepsChallenges(s, e, c); }
    forall w ensures SigningMatchesLog(Next(s, e), w) { NextKeepsSigning(s, e, w); }
  }

  lemma {:induction false} RunKeepsInv(s: State, steps: seq<Step>)
    requires Inv(s)
    ensures Inv(Run(s, steps))
    decreases |steps|
  {
    if steps == [] {
    } else {
      NextKeepsInv(s, steps[0]);
      RunKeepsInv(Next(s, steps[0]), steps[1..]);
    }
  }

  lemma {:induction false} Reachable(options: Options, steps: seq<Step>)
    ensures Inv(Run(Init(options), steps)) && Run(Init(options), steps).options == options
  {
    assert Inv(Init(options));
    RunKeepsInv(Init(options), steps);
    OptionsAreFixed(Init(options), steps);
  }

  lemma {:induction false} OptionsAreFixed(s: State, steps: seq<Step>)
    ensures Run(s, steps).options == s.options
    decreases |steps|
  {
    if steps == [] {
    } else {
      OptionsStay(s, steps[0]);
      OptionsAreFixed(Next(s, steps[0]), steps[1..]);
    }
  }

  // ---------------------------------------------------------------- reading the log functions entry by entry

  /** The given entry granted these permissions, and the client neither left nor was granted others since. */
  predicate GrantAt(log: seq<Entry>, i: nat, client: Client, permissions: set<string>) {
    && i < |log| && IsGrant(log[i], client) && log[i].permissions == permissions
    && forall j :: i < j < |log| ==> !Gone(log[j], client) && !IsGrant(log[j], client)
  }

  lemma {:induction false} LastGrantStands(log: seq<Entry>, client: Client) returns (i: nat)
    requires LastGrant(log, client).Some?
    ensures GrantAt(log, i, client, LastGrant(log, client).value)
  {
    var n := |log| - 1;
    if IsGrant(log[n], client) {
      i := n;
    } else {
      i := LastGrantStands(log[..n], client);
      forall j | i < j < |log| ensures !Gone(log[j], client) && !IsGrant(log[j], client) {
        assert j == n || log[j] == log[..n][j];
      }
    }
  }

  /** In session exactly when some grant stands: it was not followed by leaving or a stop. */
  lemma {:induction false} GrantStandsUntilGone(log: seq<Entry>, client: Client, i: nat)
    requires i < |log| && IsGrant(log[i], client)
    requires forall j :: i < j < |log| ==> !Gone(log[j], client)
    ensures LastGrant(log, client).Some?
    decreases |log|
  {
    var n := |log| - 1;
    if IsGrant(log[n], client) {
    } else {
      assert i < n;
      GrantStandsUntilGone(log[..n], client, i);
    }
  }

  lemma {:induction false} LastApproval(log: seq<Entry>, client: Client) returns (i: nat)
    requires ApprovedSince(log, client)
    ensures i < |log| && log[i].Approved? && log[i].client == client
    ensures forall j :: i < j < |log| ==> !Gone(log[j], client)
  {
    var n := |log| - 1;
    if log[n].Approved? && log[n].client == client {
      i := n;
    } else {
      i := LastApproval(log[..n], client);
      forall j | i < j < |log| ensures !Gone(log[j], client) {
        assert j == n || log[j] == log[..n][j];
      }
    }
  }

  lemma {:induction false} LastChallenge(log: seq<Entry>, client: Client, p: set<string>) returns (i: nat)
    requires ChallengedSince(log, client, p)
    ensures i < |log| && log[i].Challenged? && log[i].client == client && log[i].permissions == p
    ensures forall j :: i < j < |log| ==> !log[j].Stopped?
  {
    var n := |log| - 1;
    if log[n].Challenged? && log[n].client == client && log[n].permissions == p {
      i := n;
    } else {
      i := LastChallenge(log[..n], client, p);
      forall j | i < j < |log| ensures !log[j].Stopped? {
        assert j == n || log[j] == log[..n][j];
      }
    }
  }

  lemma {:induction false} AuthorisationIsInLog(log: seq<Entry>, w: Signing) returns (i: nat)
    requires Authorisations(log, w) > 0
    decreases |log|
    ensures i < |log| && log[i] == Authorised(w)
  {
    var n := |log| - 1;
    if log[n] == Authorised(w) {
      i := n;
    } else {
      i := AuthorisationIsInLog(log[..n], w);
    }
  }

  // ---------------------------------------------------------------- request ids

  /** In a justified log the latest dispatch of an id is no earlier than any other since the last stop. */
  lemma {:induction false} LastDispatchIsLatest(options: Options, log: seq<Entry>, i: nat, id: string, t: nat)
    requires Justified(options, log) && i < |log| && log[i] == Dispatched(id, t)
    requires forall k :: i < k < |log| ==> !log[k].Stopped?
    ensures LastDispatch(log, id).Some? && LastDispatch(log, id).value >= t
    decreases |log|
  {
    var n := |log| - 1;
    if i == n {
    } else {
      LastDispatchIsLatest(options, log[..n], i, id, t);
    }
  }

  /** Two dispatches of one request id, with no stop between them, are more than two minutes apart. */
  lemma {:induction false} DispatchesAreSpaced(options: Options, steps: seq<Step>, i: nat, j: nat)
    requires var log := Run(Init(options), steps).log;
      && i < j < |log| && log[i].Dispatched? && log[j].Dispatched? && log[i].id == log[j].id
      && forall k :: i < k < j ==> !log[k].Stopped?
    ensures var log := Run(Init(options), steps).log; log[j].time - log[i].time > MaxRequestAge
  {
    var log := Run(Init(options), steps).log;
    Reachable(options, steps);
    JustifiedAt(options, log, j);
    JustifiedPrefix(options, log, j);
    LastDispatchIsLatest(options, log[..j], i, log[i].id, log[i].time);
  }

  lemma {:induction false} JustifiedPrefix(options: Options, log: seq<Entry>, i: nat)
    requires Justified(options, log) && i <= |log|
    ensures Justified(options, log[..i])
  {
    var n := |log| - 1;
    if i == |log| {
      assert log[..i] == log;
    } else {
      JustifiedPrefix(options, log[..n], i);
      assert log[..n][..i] == log[..i];
    }
  }

  /** A request whose id was dispatched within the last two minutes changes nothing at all. */
  lemma {:induction false} ReplayIsIgnored(options: Options, steps: seq<Step>, i: nat, client: Client, request: Request)
    requires var s := Run(Init(options), steps);
      && i < |s.log| && s.log[i].Dispatched? && s.now - s.log[i].time <= MaxRequestAge
      && forall k :: i < k < |s.log| ==> !s.log[k].Stopped?
    ensures var s := Run(Init(options), steps); Next(s, Receive(client, s.log[i].id, request)) == s
  {
    var s := Run(Init(options), steps);
    Reachable(options, steps);
    LastDispatchIsLatest(options, s.log, i, s.log[i].id, s.log[i].time);
    assert IdsMatchLog(s, s.log[i].id);
  }

  // ---------------------------------------------------------------- sessions

  /** A session is an accepted connect or approval that nothing ended, and holds its permissions and the defaults. */
  lemma {:induction false} SessionsAreGrants(options: Options, steps: seq<Step>, client: Client)
    ensures var s := Run(Init(options), steps);
      client in s.sessions <==> exists i: nat, p :: GrantAt(s.log, i, client, p)
    ensures var s := Run(Init(options), steps);
      forall i: nat, p :: GrantAt(s.log, i, client, p) ==>
        client in s.sessions && s.sessions[client].permissions == options.defaults + p
  {
    var s := Run(Init(options), steps);
    Reachable(options, steps);
    assert SessionMatchesLog(s, client);
    if client in s.sessions {
      var i := LastGrantStands(s.log, client);
    }
    forall i: nat, p | GrantAt(s.log, i, client, p)
      ensures client in s.sessions && s.sessions[client].permissions == options.defaults + p
    {
      GrantIsLast(s.log, i, client, p);
    }
  }

  lemma {:induction false} GrantIsLast(log: seq<Entry>, i: nat, client: Client, p: set<string>)
    requires GrantAt(log, i, client, p)
    ensures LastGrant(log, client) == Some(p)
    decreases |log|
  {
    var n := |log| - 1;
    if i == n {
    } else {
      GrantIsLast(log[..n], i, client, p);
    }
  }

  // ---------------------------------------------------------------- sessions and the requests received

  /** A connect request of this client that names the signer and gives the secret, if one is required. */
  predicate Knocks(options: Options, e: Step, client: Client) {
    && e.Receive? && e.client == client && e.request.Connect?
    && e.request.remote == options.signer && (options.secret == "" || e.request.secret == options.secret)
  }

  /** The client's session has these permissions, or one of its pending challenges would give it them. */
  ghost predicate Offers(s: State, client: Client, permissions: set<string>) {
    || (client in s.sessions && s.sessions[client].permissions == permissions)
    || exists c :: c in s.challenges && c.client == client && s.options.defaults + c.permissions == permissions
  }

  /** Sessions and challenges at most went. */
  ghost predicate OffersLess(s: State, t: State) {
    && t.options == s.options && DistinctIds(t.challenges)
    && (forall c :: c in t.sessions ==> c in s.sessions && t.sessions[c].permissions == s.sessions[c].permissions)
    && (forall c :: c in t.challenges ==> c in s.challenges)
  }

  lemma {:induction false} OffersOfLess(s: State, t: State, client: Client, permissions: set<string>)
    requires OffersLess(s, t) && Offers(t, client, permissions)
    ensures Offers(s, client, permissions)
  {
  }

  lemma {:induction false} ConnectOffers(s: State, caller: Client, r: Request, client: Client, permissions: set<string>)
    requires r.Connect? && DistinctIds(s.challenges)
    requires Offers(HandleConnect(s, caller, r), client, permissions) && !Offers(s, client, permissions)
    ensures caller == client && permissions == s.options.defaults + r.requested && r.remote == s.options.signer
    ensures s.options.secret == "" || r.secret == s.options.secret
  {
    SetChallengeAdds(s.challenges, Challenge(r.challengeId, caller, s.now, r.requested), client);
  }

  lemma {:induction false} ConnectKeepsDistinct(s: State, caller: Client, r: Request)
    requires r.Connect? && DistinctIds(s.challenges)
    ensures DistinctIds(HandleConnect(s, caller, r).challenges) && HandleConnect(s, caller, r).options == s.options
  {
    SetChallengeAdds(s.challenges, Challenge(r.challengeId, caller, s.now, r.requested), caller);
  }

  lemma {:induction false} OthersOfferLess(s: State, caller: Client, r: Request)
    requires !r.Connect? && DistinctIds(s.challenges)
    ensures OffersLess(s, Handle(s, caller, r))
  {
  }

  lemma {:induction false} ResolveOffersNothingNew(s: State, approved: Client, client: Client, permissions: set<string>)
    requires DistinctIds(s.challenges)
    ensures DistinctIds(ResolveFor(s, approved).challenges) && ResolveFor(s, approved).options == s.options
    ensures Offers(ResolveFor(s, approved), client, permissions) ==> Offers(s, client, permissions)
  {
    match FirstChallengeOf(s.challenges, approved)
    case None =>
    case Some(c) =>
      FirstChallengeIsPending(s.challenges, approved);
      DropChallengeKeepsOthers(s.challenges, c.id, approved);
  }

  lemma {:induction false} ExpiryOffersLess(s: State, e: Step)
    requires (e.ChallengeTimeout? || e.Cleanup?) && DistinctIds(s.challenges)
    ensures OffersLess(s, Next(s, e))
  {
    if e.ChallengeTimeout? {
      DropChallengeKeepsOthers(s.challenges, e.id, "");
    } else {
      FreshChallengesAreRecent(s.challenges, s.now, s.options.authTimeout, "");
    }
  }

  /** Only a connect request that passes offers a client new permissions. */
  lemma {:induction false} NextOffers(s: State, e: Step, client: Client, permissions: set<string>)
    requires DistinctIds(s.challenges)
    ensures DistinctIds(Next(s, e).challenges) && Next(s, e).options == s.options
    ensures Offers(Next(s, e), client, permissions) && !Offers(s, client, permissions) ==>
              Knocks(s.options, e, client) && permissions == s.options.defaults + e.request.requested
  {
    var t := Next(s, e);
    match e
    case Receive(caller, id, r) =>
      if t != s {
        var a := Accept(s, id);
        assert OffersLess(s, a) && OffersLess(a, s);
        if Offers(a, client, permissions) { OffersOfLess(s, a, client, permissions); }
        if r.Connect? {
          ConnectKeepsDistinct(a, caller, r);
          if Offers(t, client, permissions) && !Offers(a, client, permissions) {
            ConnectOffers(a, caller, r, client, permissions);
          }
        } else {
          OthersOfferLess(a, caller, r);
          if Offers(t, client, permissions) { OffersOfLess(a, t, client, permissions); }
        }
      }
    case Resolve(approved) => ResolveOffersNothingNew(s, approved, client, permissions);
    case _ =>
      if e.ChallengeTimeout? || e.Cleanup? { ExpiryOffersLess(s, e); }
      assert OffersLess(s, t);
      if Offers(t, client, permissions) { OffersOfLess(s, t, client, permissions); }
  }

  lemma {:induction false} OffersComeFromConnects(s: State, steps: seq<Step>, client: Client, permissions: set<string>)
    returns (i: nat)
    requires DistinctIds(s.challenges)
    requires Offers(Run(s, steps), client, permissions) && !Offers(s, client, permissions)
    ensures i < |steps| && Knocks(s.options, steps[i], client)
    ensures permissions == s.options.defaults + steps[i].request.requested
    decreases |steps|
  {
    NextOffers(s, steps[0], client, permissions);
    var n := Next(s, steps[0]);
    if Offers(n, client, permissions) {
      i := 0;
    } else {
      var j := OffersComeFromConnects(n, steps[1..], client, permissions);
      i := j + 1;
    }
  }

  /** Every session goes back to a connect request of that client with the right signer and secret, and holds
      the permissions it asked for and the defaults; so where a secret is required no run opens a session
      without it. */
  lemma {:induction false} SessionsNeedAConnect(options: Options, steps: seq<Step>, client: Client) returns (i: nat)
    requires client in Run(Init(options), steps).sessions
    ensures i < |steps| && Knocks(options, steps[i], client)
    ensures Run(Init(options), steps).sessions[client].permissions == options.defaults + steps[i].request.requested
  {
    var s := Run(Init(options), steps);
    i := OffersComeFromConnects(Init(options), steps, client, s.sessions[client].permissions);
  }

  /** Where challenges are required, every session goes back to a challenge of that client: issued, later
      approved with the permissions it was issued with, and the client has not left since. */
  lemma {:induction false} SessionsGoBackToAChallenge(options: Options, steps: seq<Step>, client: Client)
    returns (issued: nat, approved: nat)
    requires options.requireAuth && client in Run(Init(options), steps).sessions
    ensures var log := Run(Init(options), steps).log;
      && issued < approved < |log|
      && log[issued].Challenged? && log[issued].client == client
      && log[approved] == Approved(client, log[issued].permissions)
      && (forall k :: issued < k < approved ==> !log[k].Stopped?)
      && (forall k :: approved < k < |log| ==> !Gone(log[k], client))
  {
    var s := Run(Init(options), steps);
    Reachable(options, steps);
    assert SessionMatchesLog(s, client);
    approved, issued := ApprovalGoesBackToAChallenge(options, s.log, client);
  }

  lemma {:induction false} ApprovalGoesBackToAChallenge(options: Options, log: seq<Entry>, client: Client)
    returns (approved: nat, issued: nat)
    requires Justified(options, log) && ApprovedSince(log, client)
    ensures issued < approved < |log|
    ensures log[issued].Challenged? && log[issued].client == client
    ensures log[approved] == Approved(client, log[issued].permissions)
    ensures forall k :: issued < k < approved ==> !log[k].Stopped?
    ensures forall k :: approved < k < |log| ==> !Gone(log[k], client)
  {
    approved := LastApproval(log, client);
    JustifiedAt(options, log, approved);
    issued := LastChallenge(log[..approved], client, log[approved].permissions);
    forall k | issued < k < approved ensures !log[k].Stopped? {
      assert log[k] == log[..approved][k];
    }
  }

  /** Each approval uses up a challenge of that client. */
  lemma {:induction false} ApprovalsNeverOutnumberChallenges(options: Options, steps: seq<Step>, client: Client)
    ensures var s := Run(Init(options), steps);
      Approvals(s.log, client) + PendingOf(s.challenges, client) <= ChallengesIssued(s.log, client)
  {
    Reachable(options, steps);
    assert ChallengesMatchLog(Run(Init(options), steps), client);
  }

  // ---------------------------------------------------------------- signatures

  /** Every result goes back to a check at which that client had a session covering that kind, and, where
      challenges are required, an approved challenge since it last left. */
  lemma {:induction false} ResultsAreAuthorised(options: Options, steps: seq<Step>, i: nat)
    returns (checked: nat, granted: nat, permissions: set<string>)
    requires i < |Run(Init(options), steps).log| && Run(Init(options), steps).log[i].Signed?
    ensures var log := Run(Init(options), steps).log; var w := log[i].signing;
      && granted < checked < i && log[checked] == Authorised(w)
      && GrantAt(log[..checked], granted, w.client, permissions)
      && Covers(options.defaults + permissions, w)
      && (options.requireAuth ==> ApprovedSince(log[..checked], w.client))
  {
    var log := Run(Init(options), steps).log;
    var w := log[i].signing;
    Reachable(options, steps);
    JustifiedAt(options, log, i);
    checked := AuthorisationIsInLog(log[..i], w);
    JustifiedAt(options, log, checked);
    permissions := LastGrant(log[..checked], w.client).value;
    granted := LastGrantStands(log[..checked], w.client);
  }

  /** One check yields at most one result, and the checks not accounted for by results include those under way. */
  lemma {:induction false} ResultsNeverOutnumberChecks(options: Options, steps: seq<Step>, w: Signing)
    ensures var s := Run(Init(options), steps); Results(s.log, w) + s.signing[w] <= Authorisations(s.log, w)
  {
    Reachable(options, steps);
    assert SigningMatchesLog(Run(Init(options), steps), w);
  }

  /** Nobody ended the client's session from that entry on, or it was granted one again and kept it. */
  ghost predicate InSessionSince(log: seq<Entry>, checked: nat, client: Client) {
    || (forall k :: checked <= k < |log| ==> !Gone(log[k], client))
    || exists g :: checked <= g < |log| && IsGrant(log[g], client) && forall k :: g < k < |log| ==> !Gone(log[k], client)
  }

  /** The client is still in session when the result appears exactly when it did not go in between, or came back. */
  lemma {:induction false} InSessionAtTheResult(log: seq<Entry>, checked: nat, client: Client)
    requires checked <= |log| && LastGrant(log[..checked], client).Some?
    ensures LastGrant(log, client).Some? <==> InSessionSince(log, checked, client)
  {
    var before := LastGrantStands(log[..checked], client);
    assert log[before] == log[..checked][before];
    if forall k :: checked <= k < |log| ==> !Gone(log[k], client) {
      forall k | before < k < |log| ensures !Gone(log[k], client) {
        assert k >= checked || log[k] == log[..checked][k];
      }
      GrantStandsUntilGone(log, client, before);
    }
    if g :| checked <= g < |log| && IsGrant(log[g], client) && forall k :: g < k < |log| ==> !Gone(log[k], client) {
      GrantStandsUntilGone(log, client, g);
    }
    if LastGrant(log, client).Some? {
      var g := LastGrantStands(log, client);
      assert g >= checked || forall k :: checked <= k < |log| ==> !Gone(log[k], client);
    }
  }

  /** When an awaited signature succeeds, its client still has a session exactly if, since the check that
      authorised it, the client did not leave and the bunker did not stop, or a new session was granted. */
  lemma {:induction false} ResultComesInSession(options: Options, steps: seq<Step>, w: Signing, checked: nat)
    requires var s := Run(Init(options), steps); w in s.signing && checked < |s.log| && s.log[checked] == Authorised(w)
    ensures var s := Run(Init(options), steps);
            var t := Next(s, FinishSigning(w, true));
            && t.log == s.log + [Signed(w)]
            && (w.client in t.sessions <==> InSessionSince(s.log, checked, w.client))
  {
    var s := Run(Init(options), steps);
    Reachable(options, steps);
    JustifiedAt(options, s.log, checked);
    InSessionAtTheResult(s.log, checked, w.client);
    assert SessionMatchesLog(s, w.client);
  }

  /** A signature under way when its client leaves is still produced: the result can come after the session. */
  lemma {:induction false} AResultCanComeAfterLeaving(options: Options, client: Client)
    requires !options.requireAuth
    ensures exists steps ::
      var s := Run(Init(options), steps);
      |s.log| > 0 && s.log[|s.log| - 1] == Signed(Signing(client, "1", None)) && client !in s.sessions
  {
    var w := Signing(client, "1", None);
    var steps := [
      Receive(client, "a", Connect(options.signer, options.secret, {"sign_event"}, "")),
      Receive(client, "b", SignEvent(Some("1"), None)),
      Receive(client, "c", Disconnect),
      FinishSigning(w, true)];
    var s1 := Next(Init(options), steps[0]);
    assert s1.sessions == map[client := Session(options.defaults + {"sign_event"}, 0)];
    var s2 := Next(s1, steps[1]);
    assert w in s2.signing;
    var s3 := Next(s2, steps[2]);
    assert client !in s3.sessions && w in s3.signing;
    var s4 := Next(s3, steps[3]);
    RunOfFour(Init(options), steps[0], steps[1], steps[2], steps[3]);
    assert Run(Init(options), steps) == s4;
  }

  lemma {:induction false} RunOfFour(s: State, a: Step, b: Step, c: Step, d: Step)
    ensures Run(s, [a, b, c, d]) == Next(Next(Next(Next(s, a), b), c), d)
  {
    assert [a, b, c, d][1..] == [b, c, d];
    assert [b, c, d][1..] == [c, d];
    assert [c, d][1..] == [d];
    assert [d][1..] == [];
    var last := Next(Next(Next(s, a), b), c);
    assert Run(last, [d]) == Run(Next(last, d), []) == Next(last, d);
    assert Run(Next(Next(s, a), b), [c, d]) == Run(last, [d]);
    assert Run(Next(s, a), [b, c, d]) == Run(Next(Next(s, a), b), [c, d]);
  }

  // ---------------------------------------------------------------- what each step must do

  /** No dispatch of this id, since the last stop, within the last two minutes. */
  predicate LongAgo(log: seq<Entry>, id: string, now: nat) {
    forall i :: 0 <= i < |log| && log[i].Dispatched? && log[i].id == id && (forall k :: i < k < |log| ==> !log[k].Stopped?) ==>
      now - log[i].time > 120000
  }

  predicate NeverSinceStop(log: seq<Entry>, id: string) {
    forall i :: 0 <= i < |log| && log[i].Dispatched? && log[i].id == id ==> exists k :: i < k < |log| && log[k].Stopped?
  }

  lemma {:induction false} LastDispatchIsIn(log: seq<Entry>, id: string) returns (i: nat)
    requires LastDispatch(log, id).Some?
    ensures i < |log| && log[i] == Dispatched(id, LastDispatch(log, id).value)
    ensures forall k :: i < k < |log| ==> !log[k].Stopped?
    decreases |log|
  {
    var n := |log| - 1;
    if log[n].Dispatched? && log[n].id == id {
      i := n;
    } else {
      i := LastDispatchIsIn(log[..n], id);
    }
  }

  lemma {:induction false} LastDispatchIsRecent(options: Options, log: seq<Entry>, id: string, now: nat)
    requires Justified(options, log)
    ensures LongAgo(log, id, now) <==> LastDispatch(log, id).None? || now - LastDispatch(log, id).value > MaxRequestAge
    ensures NeverSinceStop(log, id) <==> LastDispatch(log, id).None?
  {
    if LastDispatch(log, id).Some? {
      var i := LastDispatchIsIn(log, id);
    }
    forall i | 0 <= i < |log| && log[i].Dispatched? && log[i].id == id && forall k :: i < k < |log| ==> !log[k].Stopped?
      ensures LastDispatch(log, id).Some? && LastDispatch(log, id).value >= log[i].time
    {
      LastDispatchIsLatest(options, log, i, id, log[i].time);
    }
  }

  predicate Dispatches(s: State, client: Client, id: string, r: Request) {
    Dispatched(id, s.now) in Next(s, Receive(client, id, r)).log[|s.log|..]
  }

  lemma {:induction false} DispatchesIfUnused(s: State, client: Client, id: string, r: Request)
    ensures |Next(s, Receive(client, id, r)).log| >= |s.log|
    ensures Dispatches(s, client, id, r) <==> id != "" && id !in s.usedIds
  {
    var t := Next(s, Receive(client, id, r));
    if id != "" && id !in s.usedIds {
      assert t.log[|s.log|..][0] == Dispatched(id, s.now);
    }
  }

  /** A request whose id was not dispatched since the last stop is dispatched; right after a cleanup, exactly those
      requests are that have an id not dispatched within the last 120000 ms since the last stop. */
  lemma {:induction false} DispatchedExactly(options: Options, steps: seq<Step>, client: Client, id: string, r: Request)
    ensures var s := Run(Init(options), steps);
            id != "" && NeverSinceStop(s.log, id) ==> Dispatches(s, client, id, r)
    ensures var s := Next(Run(Init(options), steps), Cleanup);
            Dispatches(s, client, id, r) <==> id != "" && LongAgo(s.log, id, s.now)
  {
    var s := Run(Init(options), steps);
    var cleaned := Next(s, Cleanup);
    Reachable(options, steps);
    NextKeepsInv(s, Cleanup);
    assert IdsMatchLog(s, id) && IdsMatchLog(cleaned, id);
    LastDispatchIsRecent(options, s.log, id, s.now);
    DispatchesIfUnused(s, client, id, r);
    DispatchesIfUnused(cleaned, client, id, r);
  }

  function Waited(steps: seq<Step>): nat
    decreases |steps|
  {
    if steps == [] then 0 else (if steps[0].Wait? then steps[0].milliseconds else 0) + Waited(steps[1..])
  }

  /** Only waiting moves the clock. */
  lemma {:induction false} ClockIsWaited(s: State, steps: seq<Step>)
    ensures Run(s, steps).now == s.now + Waited(steps)
    decreases |steps|
  {
    if steps == [] {
    } else {
      StepWaits(s, steps[0]);
      ClockIsWaited(Next(s, steps[0]), steps[1..]);
    }
  }

  lemma {:induction false} StepWaits(s: State, e: Step)
    ensures Next(s, e).now == s.now + if e.Wait? then e.milliseconds else 0
  {
  }

  /** The handler's word decides; without it the permissions do. */
  predicate Permits(permissions: set<string>, kind: string, handler: Option<bool>) {
    handler == Some(true) || (handler == None && ("sign_event" in permissions || "sign_event:" + kind in permissions))
  }

  /** Some standing grant, with the defaults, permits the client to sign this kind. */
  ghost predicate GrantPermits(options: Options, log: seq<Entry>, client: Client, kind: string, handler: Option<bool>) {
    exists i: nat, p :: GrantAt(log, i, client, p) && Permits(options.defaults + p, kind, handler)
  }

  ghost predicate HasGrant(log: seq<Entry>, client: Client) {
    exists i: nat, p :: GrantAt(log, i, client, p)
  }

  lemma {:induction false} GrantsDecide(s: State, client: Client, kind: string, handler: Option<bool>)
    requires SessionMatchesLog(s, client)
    ensures HasGrant(s.log, client) <==> client in s.sessions
    ensures GrantPermits(s.options, s.log, client, kind, handler) <==>
              client in s.sessions && Permits(s.sessions[client].permissions, kind, handler)
  {
    if client in s.sessions {
      var i := LastGrantStands(s.log, client);
      assert GrantAt(s.log, i, client, LastGrant(s.log, client).value);
    }
    forall i: nat, p | GrantAt(s.log, i, client, p)
      ensures client in s.sessions && s.sessions[client].permissions == s.options.defaults + p
    {
      GrantIsLast(s.log, i, client, p);
    }
  }

  /**
    * In every run: a sign_event request with a fresh id starts a signature exactly if its event data gives a kind,
    * the client has a standing grant, and the handler says yes or, where it says nothing, the defaults and that
    * grant hold `sign_event` or `sign_event:` and the kind. Apart from that it only refreshes the client's lastSeen.
    */
  lemma {:induction false} SignRequestIsAnswered(options: Options, steps: seq<Step>, client: Client, id: string,
                                                 kindText: Option<string>, handler: Option<bool>)
    requires id != "" && id !in Run(Init(options), steps).usedIds
    ensures var s := Run(Init(options), steps);
            var t := Next(s, Receive(client, id, SignEvent(kindText, handler)));
            && (if kindText.Some? && GrantPermits(options, s.log, client, kindText.value, handler)
                then && t.log == s.log + [Dispatched(id, s.now), Authorised(Signing(client, kindText.value, handler))]
                     && t.signing == s.signing + multiset{Signing(client, kindText.value, handler)}
                else t.log == s.log + [Dispatched(id, s.now)] && t.signing == s.signing)
            && t.sessions.Keys == s.sessions.Keys && t.challenges == s.challenges && t.now == s.now
            && (forall c :: c in s.sessions ==>
                 t.sessions[c] == if c == client then s.sessions[c].(lastSeen := s.now) else s.sessions[c])
  {
    var s := Run(Init(options), steps);
    Reachable(options, steps);
    assert SessionMatchesLog(s, client);
    if kindText.Some? { GrantsDecide(s, client, kindText.value, handler); }
    SignAnswered(Accept(s, id), client, kindText, handler);
  }

  lemma {:induction false} SignAnswered(s: State, client: Client, kindText: Option<string>, handler: Option<bool>)
    ensures var t := HandleSign(s, client, SignEvent(kindText, handler));
            && (if kindText.Some? && client in s.sessions && Permits(s.sessions[client].permissions, kindText.value, handler)
                then && t.log == s.log + [Authorised(Signing(client, kindText.value, handler))]
                     && t.signing == s.signing + multiset{Signing(client, kindText.value, handler)}
                else t.log == s.log && t.signing == s.signing)
            && t.sessions.Keys == s.sessions.Keys && t.challenges == s.challenges && t.now == s.now
            && (forall c :: c in s.sessions ==>
                 t.sessions[c] == if c == client then s.sessions[c].(lastSeen := s.now) else s.sessions[c])
  {
  }

  /**
    * In every run: a connect request with a fresh id is refused for a wrong signer or secret; with challenges
    * required and no standing grant it leaves a pending challenge for what it requested; otherwise it is granted.
    */
  lemma {:induction false} ConnectIsAnswered(options: Options, steps: seq<Step>, client: Client, id: string, remote: string,
                                             secret: string, requested: set<string>, challengeId: string)
    requires id != "" && id !in Run(Init(options), steps).usedIds
    ensures var s := Run(Init(options), steps);
            var t := Next(s, Receive(client, id, Connect(remote, secret, requested, challengeId)));
            var c := Challenge(challengeId, client, s.now, requested);
            if remote != options.signer || (options.secret != "" && secret != options.secret)
            then t.log == s.log + [Dispatched(id, s.now)] && t.challenges == s.challenges && t.sessions == s.sessions
            else if options.requireAuth && !HasGrant(s.log, client)
            then && t.log == s.log + [Dispatched(id, s.now), Challenged(challengeId, client, requested)]
                 && t.sessions == s.sessions && c in t.challenges
                 && ((forall d :: d in s.challenges ==> d.id != challengeId) ==> t.challenges == s.challenges + [c])
                 && (forall d: Challenge :: d.id != challengeId ==> (d in t.challenges <==> d in s.challenges))
            else && t.log == s.log + [Dispatched(id, s.now), Connected(client, requested)]
                 && t.challenges == s.challenges
                 && t.sessions == s.sessions[client := Session(options.defaults + requested, s.now)]
  {
    var s := Run(Init(options), steps);
    Reachable(options, steps);
    assert SessionMatchesLog(s, client) && ChallengesMatchLog(s, client);
    GrantsDecide(s, client, "", None);
    SetChallengePlaces(s.challenges, Challenge(challengeId, client, s.now, requested));
  }

  lemma {:induction false} SetChallengePlaces(challenges: seq<Challenge>, c: Challenge)
    requires DistinctIds(challenges)
    ensures var r := SetChallenge(challenges, c);
            && c in r && (forall d: Challenge :: d.id != c.id ==> (d in r <==> d in challenges))
            && ((forall d :: d in challenges ==> d.id != c.id) ==> r == challenges + [c])
    decreases |challenges|
  {
    if challenges == [] {
    } else {
      var head, rest := challenges[0], challenges[1..];
      assert challenges == [head] + rest;
      SetChallengePlaces(rest, c);
      if head.id != c.id { assert [head] + (rest + [c]) == challenges + [c]; }
    }
  }

  /** Those of the pending challenges that satisfy a condition, in order. */
  function Those(challenges: seq<Challenge>, keep: Challenge -> bool): seq<Challenge> {
    if challenges == [] then [] else (if keep(challenges[0]) then [challenges[0]] else []) + Those(challenges[1..], keep)
  }

  function Others(id: string): Challenge -> bool {
    (c: Challenge) => c.id != id
  }

  function Unexpired(now: nat, timeout: nat): Challenge -> bool {
    (c: Challenge) => now - c.created <= timeout
  }

  lemma {:induction false} DropIsThose(challenges: seq<Challenge>, id: string)
    requires DistinctIds(challenges)
    ensures DropChallenge(challenges, id) == Those(challenges, Others(id))
    decreases |challenges|
  {
    if challenges == [] {
    } else if challenges[0].id == id {
      AllThose(challenges[1..], Others(id));
      assert [] + Those(challenges[1..], Others(id)) == challenges[1..];
    } else {
      DropIsThose(challenges[1..], id);
    }
  }

  lemma {:induction false} AllThose(challenges: seq<Challenge>, keep: Challenge -> bool)
    requires forall c :: c in challenges ==> keep(c)
    ensures Those(challenges, keep) == challenges
    decreases |challenges|
  {
    if challenges == [] {
    } else {
      AllThose(challenges[1..], keep);
    }
  }

  lemma {:induction false} FreshIsThose(challenges: seq<Challenge>, now: nat, timeout: nat)
    ensures FreshChallenges(challenges, now, timeout) == Those(challenges, Unexpired(now, timeout))
    decreases |challenges|
  {
    if challenges == [] {
    } else {
      FreshIsThose(challenges[1..], now, timeout);
    }
  }

  /** In every run a challenge's timer forgets that challenge, and cleaning up those older than the timeout; the
      others keep their order. */
  lemma {:induction false} ChallengesExpire(options: Options, steps: seq<Step>, id: string)
    ensures var s := Run(Init(options), steps);
            && Next(s, ChallengeTimeout(id)).challenges == Those(s.challenges, Others(id))
            && Next(s, Cleanup).challenges == Those(s.challenges, Unexpired(s.now, options.authTimeout))
  {
    var s := Run(Init(options), steps);
    Reachable(options, steps);
    assert ChallengesMatchLog(s, "");
    DropIsThose(s.challenges, id);
    FreshIsThose(s.challenges, s.now, options.authTimeout);
  }

  /** The oldest pending challenge of the client. */
  predicate IsOldest(challenges: seq<Challenge>, i: nat, client: Client) {
    i < |challenges| && challenges[i].client == client && forall j :: 0 <= j < i ==> challenges[j].client != client
  }

  lemma {:induction false} FirstIsOldest(challenges: seq<Challenge>, client: Client, i: nat)
    ensures IsOldest(challenges, i, client) ==> FirstChallengeOf(challenges, client) == Some(challenges[i])
    ensures (forall c :: c in challenges ==> c.client != client) ==> FirstChallengeOf(challenges, client) == None
    decreases |challenges|
  {
    if challenges == [] {
    } else {
      FirstIsOldest(challenges[1..], client, if i == 0 then 0 else i - 1);
    }
  }

  /** In every run: resolving the challenge of a client takes its oldest pending one, logs the approval and opens a
      session with the permissions it was issued with; without a pending challenge nothing happens. */
  lemma {:induction false} ResolveIsAnswered(options: Options, steps: seq<Step>, client: Client, i: nat)
    ensures var s := Run(Init(options), steps);
            var t := Next(s, Resolve(client));
            && ((forall c :: c in s.challenges ==> c.client != client) ==> t == s)
            && (IsOldest(s.challenges, i, client) ==>
                 var c := s.challenges[i];
                 && t.log == s.log + [Approved(client, c.permissions)]
                 && t.sessions == s.sessions[client := Session(options.defaults + c.permissions, s.now)]
                 && t.challenges == Those(s.challenges, Others(c.id)))
  {
    var s := Run(Init(options), steps);
    Reachable(options, steps);
    assert ChallengesMatchLog(s, client);
    FirstIsOldest(s.challenges, client, i);
    if IsOldest(s.challenges, i, client) { DropIsThose(s.challenges, s.challenges[i].id); }
  }

  // ---------------------------------------------------------------- the object

  /** Setting an entry when the search for its id has passed the first i entries. */
  function SetFrom(challenges: seq<Challenge>, i: nat, c: Challenge): seq<Challenge>
    requires i <= |challenges|
  {
    challenges[..i] + SetChallenge(challenges[i..], c)
  }

  lemma {:induction false} SetMovesOn(challenges: seq<Challenge>, i: nat, c: Challenge)
    requires i < |challenges| && challenges[i].id != c.id
    ensures SetFrom(challenges, i, c) == SetFrom(challenges, i + 1, c)
  {
    assert challenges[i..][1..] == challenges[i + 1..];
    assert challenges[..i + 1] == challenges[..i] + [challenges[i]];
  }

  lemma {:induction false} SetStops(challenges: seq<Challenge>, i: nat, c: Challenge)
    requires i <= |challenges| && (i < |challenges| ==> challenges[i].id == c.id)
    ensures SetFrom(challenges, i, c) == if i < |challenges| then challenges[i := c] else challenges + [c]
  {
    if i < |challenges| {
      assert challenges[i..][1..] == challenges[i + 1..];
      assert challenges[i := c] == challenges[..i] + ([c] + challenges[i + 1..]);
    } else {
      assert challenges[..i] == challenges;
    }
  }

  /** Deleting an id when the search for it has passed the first i entries. */
  function DropFrom(challenges: seq<Challenge>, i: nat, id: string): seq<Challenge>
    requires i <= |challenges|
  {
    challenges[..i] + DropChallenge(challenges[i..], id)
  }

  lemma {:induction false} DropMovesOn(challenges: seq<Challenge>, i: nat, id: string)
    requires i < |challenges| && challenges[i].id != id
    ensures DropFrom(challenges, i, id) == DropFrom(challenges, i + 1, id)
  {
    assert challenges[i..][1..] == challenges[i + 1..];
    assert challenges[..i + 1] == challenges[..i] + [challenges[i]];
  }

  lemma {:induction false} DropStops(challenges: seq<Challenge>, i: nat, id: string)
    requires i <= |challenges| && (i < |challenges| ==> challenges[i].id == id)
    ensures DropFrom(challenges, i, id) == if i < |challenges| then challenges[..i] + challenges[i + 1..] else challenges
  {
    if i < |challenges| {
      assert challenges[i..][1..] == challenges[i + 1..];
    } else {
      assert challenges[..i] == challenges;
    }
  }

  /** The bunker's fields. The clock is what Date.now() answers; the log is what the proofs speak about. */
  class RemoteSigner {
    const options: Options
    var now: nat
    var connectedClients: map<Client, Session>
    var pendingAuthChallenges: seq<Challenge>
    var usedRequestIds: map<string, nat>
    var signing: multiset<Signing>
    ghost var log: seq<Entry>

    ghost function View(): State
      reads this
    {
      State(options, now, connectedClients, pendingAuthChallenges, usedRequestIds, signing, log)
    }

    constructor (options: Options)
      ensures View() == Init(options)
    {
      this.options := options;
      now := 0;
      connectedClients := map[];
      pendingAuthChallenges := [];
      usedRequestIds := map[];
      signing := multiset{};
      log := [];
    }

    method IsReplayAttack(requestId: string) returns (replay: bool)
      modifies this
      ensures replay == (requestId in old(usedRequestIds))
      ensures View() == if replay then old(View()) else Accept(old(View()), requestId)
    {
      if requestId in usedRequestIds {
        return true;
      }
      usedRequestIds := usedRequestIds[requestId := now];
      log := log + [Dispatched(requestId, now)];
      return false;
    }

    method CreateAuthChallenge(client: Client, id: string, requested: set<string>)
      modifies this
      ensures View() == Issue(old(View()), client, id, requested)
    {
      var challenge := Challenge(id, client, now, requested);
      var i := 0;
      while i < |pendingAuthChallenges| && pendingAuthChallenges[i].id != id
        invariant 0 <= i <= |pendingAuthChallenges| && View() == old(View())
        invariant SetChallenge(pendingAuthChallenges, challenge) == SetFrom(pendingAuthChallenges, i, challenge)
      {
        SetMovesOn(pendingAuthChallenges, i, challenge);
        i := i + 1;
      }
      SetStops(pendingAuthChallenges, i, challenge);
      if i < |pendingAuthChallenges| {
        pendingAuthChallenges := pendingAuthChallenges[i := challenge];
      } else {
        pendingAuthChallenges := pendingAuthChallenges + [challenge];
      }
      log := log + [Challenged(id, client, requested)];
    }

    method HandleConnect(client: Client, remote: string, secret: string, requested: set<string>, challengeId: string)
      modifies this
      ensures View() == Handle(old(View()), client, Connect(remote, secret, requested, challengeId))
    {
      if remote != options.signer {
        return;
      }
      if options.secret != "" && secret != options.secret {
        return;
      }
      if options.requireAuth && client !in connectedClients {
        CreateAuthChallenge(client, challengeId, requested);
        return;
      }
      connectedClients := connectedClients[client := Session(options.defaults + requested, now)];
      log := log + [Connected(client, requested)];
    }

    method HasPermission(client: Client, kindText: Option<string>, handler: Option<bool>) returns (ok: bool)
      modifies this`connectedClients
      ensures ok == MaySign(old(View()), client, SignEvent(kindText, handler))
      ensures View() == Seen(old(View()), client)
    {
      if client !in connectedClients {
        return false;
      }
      var session := connectedClients[client];
      connectedClients := connectedClients[client := session.(lastSeen := now)];
      if handler.Some? {
        return handler.value;
      }
      if "sign_event" in session.permissions {
        return true;
      }
      return kindText.Some? && KindPermission(kindText.value) in session.permissions;
    }

    /** Up to the point where the signature is awaited. */
    method HandleSignEvent(client: Client, kindText: Option<string>, handler: Option<bool>)
      modifies this
      ensures View() == Handle(old(View()), client, SignEvent(kindText, handler))
    {
      var ok := HasPermission(client, kindText, handler);
      if !ok || kindText.None? {
        return;
      }
      var w := Signing(client, kindText.value, handler);
      signing := signing + multiset{w};
      log := log + [Authorised(w)];
    }

    method SigningSettles(w: Signing, ok: bool) returns (result: bool)
      modifies this
      ensures View() == Next(old(View()), FinishSigning(w, ok))
      ensures result <==> w in old(signing) && ok
    {
      if w !in signing {
        return false;
      }
      signing := signing - multiset{w};
      if ok {
        log := log + [Signed(w)];
      }
      return ok;
    }

    method HandleDisconnect(client: Client)
      modifies this
      ensures View() == Handle(old(View()), client, Disconnect)
    {
      connectedClients := connectedClients - {client};
      log := log + [Left(client)];
    }

    /** A decrypted request, parsed. */
    method HandleRequest(client: Client, id: string, request: Request)
      modifies this
      ensures View() == Next(old(View()), Receive(client, id, request))
    {
      if id == "" {
        return;
      }
      var replay := IsReplayAttack(id);
      if replay {
        return;
      }
      match request
      case Connect(remote, secret, requested, challengeId) => HandleConnect(client, remote, secret, requested, challengeId);
      case SignEvent(kindText, handler) => HandleSignEvent(client, kindText, handler);
      case Disconnect => HandleDisconnect(client);
      case OtherRequest =>
    }

    method ResolveAuthChallenge(client: Client) returns (resolved: bool)
      modifies this
      ensures View() == Next(old(View()), Resolve(client))
      ensures resolved <==> FirstChallengeOf(old(pendingAuthChallenges), client).Some?
    {
      var i := 0;
      while i < |pendingAuthChallenges|
        invariant 0 <= i <= |pendingAuthChallenges| && View() == old(View())
        invariant FirstChallengeOf(pendingAuthChallenges, client) == FirstChallengeOf(pendingAuthChallenges[i..], client)
      {
        assert pendingAuthChallenges[i..][1..] == pendingAuthChallenges[i + 1..];
        if pendingAuthChallenges[i].client == client {
          var challenge := pendingAuthChallenges[i];
          DeleteChallenge(challenge.id);
          connectedClients := connectedClients[client := Session(options.defaults + challenge.permissions, now)];
          log := log + [Approved(client, challenge.permissions)];
          return true;
        }
        i := i + 1;
      }
      return false;
    }

    /** Map.delete, which is also what a challenge's timer does. */
    method DeleteChallenge(id: string)
      modifies this`pendingAuthChallenges
      ensures View() == Next(old(View()), ChallengeTimeout(id))
    {
      var i := 0;
      ghost var before := pendingAuthChallenges;
      while i < |pendingAuthChallenges| && pendingAuthChallenges[i].id != id
        invariant 0 <= i <= |before| && pendingAuthChallenges == before
        invariant DropChallenge(before, id) == DropFrom(before, i, id)
      {
        DropMovesOn(before, i, id);
        i := i + 1;
      }
      DropStops(before, i, id);
      if i < |pendingAuthChallenges| {
        pendingAuthChallenges := pendingAuthChallenges[..i] + pendingAuthChallenges[i + 1..];
      }
    }

    method CleanupOldRequestIds()
      modifies this`usedRequestIds
      ensures usedRequestIds == RecentIds(old(usedRequestIds), now)
    {
      var ids := usedRequestIds.Keys;
      while ids != {}
        invariant ids <= old(usedRequestIds).Keys
        invariant usedRequestIds.Keys <= old(usedRequestIds).Keys
        invariant forall id :: id in old(usedRequestIds) ==>
          (id in usedRequestIds <==> id in ids || now - old(usedRequestIds)[id] <= MaxRequestAge)
        invariant forall id :: id in usedRequestIds ==> usedRequestIds[id] == old(usedRequestIds)[id]
        decreases |ids|
      {
        var id :| id in ids;
        if now - usedRequestIds[id] > MaxRequestAge {
          usedRequestIds := usedRequestIds - {id};
        }
        ids := ids - {id};
      }
    }

    method CleanupChallenges()
      modifies this`pendingAuthChallenges
      ensures pendingAuthChallenges == FreshChallenges(old(pendingAuthChallenges), now, options.authTimeout)
    {
      var i := 0;
      ghost var goal := FreshChallenges(pendingAuthChallenges, now, options.authTimeout);
      while i < |pendingAuthChallenges|
        invariant 0 <= i <= |pendingAuthChallenges|
        invariant goal == pendingAuthChallenges[..i] + FreshChallenges(pendingAuthChallenges[i..], now, options.authTimeout)
        decreases |pendingAuthChallenges| - i
      {
        ghost var done, rest := pendingAuthChallenges[..i], pendingAuthChallenges[i..];
        assert rest[1..] == pendingAuthChallenges[i + 1..];
        if now - pendingAuthChallenges[i].created > options.authTimeout {
          pendingAuthChallenges := pendingAuthChallenges[..i] + pendingAuthChallenges[i + 1..];
          assert pendingAuthChallenges[..i] == done && pendingAuthChallenges[i..] == rest[1..];
        } else {
          i := i + 1;
          assert pendingAuthChallenges[..i] == done + [rest[0]];
        }
      }
      assert pendingAuthChallenges[..i] == pendingAuthChallenges && pendingAuthChallenges[i..] == [];
    }

    method CleanupStep()
      modifies this
      ensures View() == Next(old(View()), Cleanup)
    {
      CleanupOldRequestIds();
      CleanupChallenges();
    }

    method StopBunker()
      modifies this
      ensures View() == Next(old(View()), Stop)
    {
      connectedClients := map[];
      pendingAuthChallenges := [];
      usedRequestIds := map[];
      log := log + [Stopped];
    }
  }
}
