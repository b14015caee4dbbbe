/**
  * The NIP-29 group reducers: from an unordered log of snapshots and put/remove events to the
  * members, the admins and one pubkey's membership status.
  *
  * JavaScript Sets and Maps keep insertion order, and the reducers return arrays in that order,
  * so results are modelled as sequences and compared exactly.
  */
module GroupReducers {
  import opened Wrappers
  import opened Events

  const AdminsKind: nat := 39001
  const MembersKind: nat := 39002
  const PutUser: nat := 9000
  const RemoveUser: nat := 9001
  const JoinRequest: nat := 9021
  const LeaveRequest: nat := 9022

  type Log = seq<Event>

  // ---------------------------------------------------------------- tags

  predicate GroupIdChar(c: char) {
    'a' <= c <= 'z' || '0' <= c <= '9' || c == '_' || c == '-'
  }

  predicate IsGroupId(id: string) {
    id != "" && forall i :: 0 <= i < |id| ==> GroupIdChar(id[i])
  }

  predicate IsPubkey(p: string) {
    |p| == 64 && forall i :: 0 <= i < 64 ==> '0' <= p[i] <= '9' || 'a' <= p[i] <= 'f'
  }

  function TagValue(tag: Option<Tag>): Option<string> {
    if tag.Some? && |tag.value| >= 2 then Some(tag.value[1]) else None
  }

  function FirstTagValue(tags: seq<Tag>, name: string): Option<string> {
    TagValue(FindTag(tags, name))
  }

  function ValidatedPubkey(tag: Option<Tag>): Option<string> {
    match TagValue(tag)
    case Some(p) => if IsPubkey(p) then Some(p) else None
    case None => None
  }

  function ValidatedPubkeys(tags: seq<Tag>): seq<string> {
    if tags == [] then []
    else
      var rest := ValidatedPubkeys(tags[1..]);
      if Named(tags[0], "p") && ValidatedPubkey(Some(tags[0])).Some? then [tags[0][1]] + rest else rest
  }

  /** Non-empty values after the pubkey. */
  function RoleValues(tag: Tag): seq<string> {
    if |tag| <= 2 then [] else NonEmpty(tag[2..])
  }

  function NonEmpty(values: seq<string>): seq<string> {
    if values == [] then [] else (if values[0] == "" then [] else [values[0]]) + NonEmpty(values[1..])
  }

  predicate IsSnapshotKind(kind: nat) {
    39000 <= kind <= 39003
  }

  function ScopedGroupId(e: Event): Option<string> {
    var d, h := FirstTagValue(e.tags, "d"), FirstTagValue(e.tags, "h");
    var id := if IsSnapshotKind(e.kind) then (if d.Some? then d else h) else (if h.Some? then h else d);
    if id.Some? && IsGroupId(id.value) then id else None
  }

  // ---------------------------------------------------------------- scoping

  function Filter(events: Log, keep: Event -> bool): (r: Log)
    ensures forall e :: e in r <==> e in events && keep(e)
  {
    if events == [] then []
    else (if keep(events[0]) then [events[0]] else []) + Filter(events[1..], keep)
  }

  function ScopedIds(events: Log): set<string> {
    set e | e in events && ScopedGroupId(e).Some? :: ScopedGroupId(e).value
  }

  /** filterEventsByGroupId; the errors are a mixed log without a group id and an invalid group id. */
  function Scoped(events: Log, groupId: Option<string>): Result<Log> {
    match groupId
    case None => if |ScopedIds(events)| > 1 then Err else Ok(events)
    case Some(id) => if IsGroupId(id) then Ok(InGroup(events, id)) else Err
  }

  function InGroup(events: Log, id: string): Log {
    Filter(events, e => ScopedGroupId(e) == Some(id))
  }

  // ---------------------------------------------------------------- snapshots

  predicate IsSnapshot(e: Event, kind: nat) {
    e.kind == kind && FirstTagValue(e.tags, "d").Some? && IsGroupId(FirstTagValue(e.tags, "d").value)
  }

  /** The first event in reverse log order. */
  function Latest(events: Log): Option<Event> {
    var sorted := Sort(events, LatestFirst);
    if sorted == [] then None else Some(sorted[0])
  }

  function LatestSnapshot(events: Log, kind: nat): Option<Event> {
    Latest(Filter(events, e => IsSnapshot(e, kind)))
  }

  predicate IsModeration(e: Event) {
    e.kind == PutUser || e.kind == RemoveUser
  }

  /** Strictly after in log order. */
  predicate After(e: Event, snapshot: Event) {
    !OldestFirst(e, snapshot)
  }

  /** The put/remove events newer than the snapshot, in log order. */
  function Moderation(events: Log, snapshot: Option<Event>): Log {
    Sort(Filter(events, ModeratesAfter(snapshot)), OldestFirst)
  }

  function ModeratesAfter(snapshot: Option<Event>): Event -> bool {
    e => IsModeration(e) && (snapshot.Some? ==> After(e, snapshot.value))
  }

  // ---------------------------------------------------------------- insertion-ordered sets and maps

  function AddTo(s: seq<string>, x: string): seq<string> {
    if x in s then s else s + [x]
  }

  function RemoveFrom(s: seq<string>, x: string): (r: seq<string>)
    ensures forall y :: y in r <==> y in s && y != x
  {
    if s == [] then [] else (if s[0] == x then [] else [s[0]]) + RemoveFrom(s[1..], x)
  }

  function ToSet(xs: seq<string>): seq<string> {
    if xs == [] then [] else AddTo(ToSet(xs[..|xs| - 1]), xs[|xs| - 1])
  }

  datatype Admin = Admin(pubkey: string, roles: seq<string>)

  function SetRoles(admins: seq<Admin>, a: Admin): seq<Admin> {
    if admins == [] then [a]
    else if admins[0].pubkey == a.pubkey then [a] + admins[1..]
    else [admins[0]] + SetRoles(admins[1..], a)
  }

  function DropAdmin(admins: seq<Admin>, pubkey: string): seq<Admin> {
    if admins == [] then []
    else (if admins[0].pubkey == pubkey then [] else [admins[0]]) + DropAdmin(admins[1..], pubkey)
  }

  // ---------------------------------------------------------------- the reducers

  function Target(e: Event): Option<string> {
    ValidatedPubkey(FindTag(e.tags, "p"))
  }

  function MemberStep(members: seq<string>, e: Event): seq<string> {
    match Target(e)
    case None => members
    case Some(p) =>
      if e.kind == PutUser then AddTo(members, p)
      else if e.kind == RemoveUser then RemoveFrom(members, p) else members
  }

  function SnapshotMembers(snapshot: Option<Event>): seq<string> {
    if snapshot.Some? then ToSet(ValidatedPubkeys(snapshot.value.tags)) else []
  }

  function AdminStep(admins: seq<Admin>, e: Event): seq<Admin> {
    match Target(e)
    case None => admins
    case Some(p) =>
      var roles := RoleValues(FindTag(e.tags, "p").value);
      if e.kind == RemoveUser || roles == [] then DropAdmin(admins, p) else SetRoles(admins, Admin(p, roles))
  }

  /** Admins listed by a snapshot's tags, later entries for one pubkey replacing earlier roles. */
  function ListedAdmins(tags: seq<Tag>): seq<Admin> {
    if tags == [] then []
    else
      var tag := tags[|tags| - 1];
      var before := ListedAdmins(tags[..|tags| - 1]);
      if Named(tag, "p") && ValidatedPubkey(Some(tag)).Some? then SetRoles(before, Admin(tag[1], RoleValues(tag)))
      else before
  }

  function SnapshotAdmins(snapshot: Option<Event>): seq<Admin> {
    if snapshot.Some? then ListedAdmins(snapshot.value.tags) else []
  }

  function Fold<S>(start: S, events: Log, step: (S, Event) -> S): S {
    if events == [] then start else Fold(step(start, events[0]), events[1..], step)
  }

  function Members(scoped: Log): seq<string> {
    var snapshot := LatestSnapshot(scoped, MembersKind);
    Fold(SnapshotMembers(snapshot), Moderation(scoped, snapshot), MemberStep)
  }

  function Admins(scoped: Log): seq<Admin> {
    var snapshot := LatestSnapshot(scoped, AdminsKind);
    Fold(SnapshotAdmins(snapshot), Moderation(scoped, snapshot), AdminStep)
  }

  datatype Status = Initial | Pending | Granted

  /** Join/leave requests by the pubkey and put/remove events whose first p tag names it. */
  predicate Relevant(e: Event, pubkey: string) {
    if e.kind == JoinRequest || e.kind == LeaveRequest then e.pubkey == pubkey
    else IsModeration(e) && FirstTagValue(e.tags, "p") == Some(pubkey)
  }

  function LatestRelevant(scoped: Log, pubkey: string): Option<Event> {
    Latest(Filter(scoped, e => Relevant(e, pubkey)))
  }

  function Decide(isMember: bool, latest: Option<Event>): Status {
    match latest
    case None => if isMember then Granted else Initial
    case Some(e) =>
      if e.kind == JoinRequest then (if isMember then Granted else Pending)
      else if e.kind == PutUser then Granted
      else if isMember then Granted else Initial
  }

  function StatusOf(scoped: Log, pubkey: string): Status {
    Decide(pubkey in Members(scoped), LatestRelevant(scoped, pubkey))
  }

  function ReduceGroupMembers(events: Log, groupId: Option<string>): Result<seq<string>> {
    match Scoped(events, groupId) case Err => Err case Ok(scoped) => Ok(Members(scoped))
  }

  function ReduceGroupAdmins(events: Log, groupId: Option<string>): Result<seq<Admin>> {
    match Scoped(events, groupId) case Err => Err case Ok(scoped) => Ok(Admins(scoped))
  }

  function ReduceGroupMembershipStatus(events: Log, pubkey: string, groupId: Option<string>): Result<Status> {
    if !IsPubkey(pubkey) then Err
    else match Scoped(events, groupId)
      case Err => Err
      case Ok(scoped) =>
        match ReduceGroupMembers(scoped, None) case Err => Err case Ok(_) => Ok(StatusOf(scoped, pubkey))
  }

  // ---------------------------------------------------------------- only the set of events matters

  ghost predicate SameEvents(a: Log, b: Log) {
    forall e :: e in a <==> e in b
  }

  /** An id determines its event in this log. */
  ghost predicate Consistent(events: Log) {
    forall a, b :: a in events && b in events && a.id == b.id ==> a == b
  }

  lemma {:induction false} LatestIsLast(events: Log)
    ensures events == [] <==> Latest(events).None?
    ensures events != [] ==> Latest(events).value in events
    ensures forall e :: e in events ==> OldestFirst(e, Latest(events).value)
  {
    TheOrders();
    SortOrdered(events, LatestFirst);
    SortSameElements(events, LatestFirst);
    var sorted := Sort(events, LatestFirst);
    if events != [] {
      assert events[0] in sorted;
      forall e | e in events ensures OldestFirst(e, sorted[0]) {
        var k :| 0 <= k < |sorted| && sorted[k] == e;
        assert k == 0 || LatestFirst(sorted[0], sorted[k]);
      }
    }
    if sorted != [] { assert sorted[0] in events; }
  }

  lemma {:induction false} EmptyTogether(a: Log, b: Log)
    requires SameEvents(a, b)
    ensures a == [] <==> b == []
  {
    if a != [] { assert a[0] in b; }
    if b != [] { assert b[0] in a; }
  }

  lemma {:induction false} LatestOfSame(a: Log, b: Log)
    requires SameEvents(a, b) && Consistent(a)
    ensures Latest(a) == Latest(b)
  {
    LatestIsLast(a);
    LatestIsLast(b);
    EmptyTogether(a, b);
    if a != [] {
      assert Latest(a).value in b && Latest(b).value in a;
      SameKey(Latest(a).value, Latest(b).value);
    }
  }

  lemma {:induction false} SameKey(x: Event, y: Event)
    requires OldestFirst(x, y) && OldestFirst(y, x)
    ensures x.id == y.id
  {
  }

  /** Applying one event twice in a row is applying it once. */
  ghost predicate Idempotent<S(!new)>(step: (S, Event) -> S) {
    forall s, e :: step(step(s, e), e) == step(s, e)
  }

  lemma {:induction false} FoldOfSame<S(!new)>(start: S, xs: Log, ys: Log, step: (S, Event) -> S)
    requires Ordered(xs, OldestFirst) && Ordered(ys, OldestFirst) && SameEvents(xs, ys) && Consistent(xs)
    requires Idempotent(step)
    ensures Fold(start, xs, step) == Fold(start, ys, step)
    decreases |xs| + |ys|
  {
    EmptyTogether(xs, ys);
    if xs == [] {
    } else {
      HeadsAgree(xs, ys);
      if |xs| > 1 && xs[1] == xs[0] {
        assert forall e :: e in xs <==> e in xs[1..];
        FoldOfSame(start, xs[1..], ys, step);
        FoldTwice(start, xs, step);
      } else if |ys| > 1 && ys[1] == ys[0] {
        assert forall e :: e in ys <==> e in ys[1..];
        FoldOfSame(start, xs, ys[1..], step);
        FoldTwice(start, ys, step);
      } else {
        HeadOnce(xs);
        HeadOnce(ys);
        assert forall e :: e in xs <==> e == xs[0] || e in xs[1..];
        assert forall e :: e in ys <==> e == ys[0] || e in ys[1..];
        FoldOfSame(step(start, xs[0]), xs[1..], ys[1..], step);
      }
    }
  }

  lemma {:induction false} HeadsAgree(xs: Log, ys: Log)
    requires Ordered(xs, OldestFirst) && Ordered(ys, OldestFirst) && SameEvents(xs, ys) && Consistent(xs)
    requires xs != [] && ys != []
    ensures xs[0] == ys[0]
  {
    assert xs[0] in ys && ys[0] in xs;
    var i :| 0 <= i < |xs| && xs[i] == ys[0];
    var j :| 0 <= j < |ys| && ys[j] == xs[0];
    assert i == 0 || OldestFirst(xs[0], xs[i]);
    assert j == 0 || OldestFirst(ys[0], ys[j]);
  }

  lemma {:induction false} HeadOnce(xs: Log)
    requires Ordered(xs, OldestFirst) && Consistent(xs) && xs != [] && (|xs| > 1 ==> xs[1] != xs[0])
    ensures xs[0] !in xs[1..]
  {
    forall k | 1 <= k < |xs| ensures xs[k] != xs[0] {
      assert xs[1] in xs && xs[1].id != xs[0].id && OldestFirst(xs[0], xs[1]);
      assert k == 1 || OldestFirst(xs[1], xs[k]);
    }
  }

  lemma {:induction false} FoldTwice<S(!new)>(start: S, xs: Log, step: (S, Event) -> S)
    requires |xs| > 1 && xs[1] == xs[0] && Idempotent(step)
    ensures Fold(start, xs, step) == Fold(start, xs[1..], step)
  {
    var once := step(start, xs[0]);
    assert step(once, xs[0]) == once;
    assert Fold(start, xs, step) == Fold(once, xs[1..], step) == Fold(once, xs[1..][1..], step);
  }

  lemma {:induction false} AddedOnce(s: seq<string>, x: string)
    ensures x in AddTo(s, x) && x !in RemoveFrom(s, x)
  {
  }

  lemma {:induction false} RemoveAbsent(s: seq<string>, x: string)
    requires x !in s
    ensures RemoveFrom(s, x) == s
  {
    if s == [] {
    } else {
      RemoveAbsent(s[1..], x);
    }
  }

  lemma {:induction false} MemberStepIdempotent()
    ensures Idempotent(MemberStep)
  {
    forall s: seq<string>, e ensures MemberStep(MemberStep(s, e), e) == MemberStep(s, e) {
      match Target(e) {
        case None =>
        case Some(p) =>
          AddedOnce(s, p);
          RemoveAbsent(RemoveFrom(s, p), p);
      }
    }
  }

  lemma {:induction false} SetRolesTwice(s: seq<Admin>, a: Admin)
    ensures SetRoles(SetRoles(s, a), a) == SetRoles(s, a)
  {
    if s == [] {
    } else {
      if s[0].pubkey != a.pubkey { SetRolesTwice(s[1..], a); }
    }
  }

  lemma {:induction false} DropAdminTwice(s: seq<Admin>, p: string)
    ensures DropAdmin(DropAdmin(s, p), p) == DropAdmin(s, p)
  {
    if s == [] {
    } else {
      DropAdminTwice(s[1..], p);
      var rest := DropAdmin(s[1..], p);
      if s[0].pubkey == p { assert DropAdmin(s, p) == rest; } else { assert ([s[0]] + rest)[1..] == rest; }
    }
  }

  lemma {:induction false} AdminStepIdempotent()
    ensures Idempotent(AdminStep)
  {
    forall s: seq<Admin>, e ensures AdminStep(AdminStep(s, e), e) == AdminStep(s, e) {
      match Target(e) {
        case None =>
        case Some(p) =>
          SetRolesTwice(s, Admin(p, RoleValues(FindTag(e.tags, "p").value)));
          DropAdminTwice(s, p);
      }
    }
  }

  lemma {:induction false} ModerationOfSame(a: Log, b: Log, snapshot: Option<Event>)
    requires SameEvents(a, b) && Consistent(a)
    ensures var x, y := Moderation(a, snapshot), Moderation(b, snapshot);
            && SameEvents(x, y) && Consistent(x)
            && Ordered(x, OldestFirst) && Ordered(y, OldestFirst)
  {
    TheOrders();
    var keep := ModeratesAfter(snapshot);
    SortSameElements(Filter(a, keep), OldestFirst);
    SortSameElements(Filter(b, keep), OldestFirst);
    SortOrdered(Filter(a, keep), OldestFirst);
    SortOrdered(Filter(b, keep), OldestFirst);
  }

  lemma {:induction false} MembersOfSame(a: Log, b: Log)
    requires SameEvents(a, b) && Consistent(a)
    ensures Members(a) == Members(b)
  {
    LatestOfSame(Filter(a, e => IsSnapshot(e, MembersKind)), Filter(b, e => IsSnapshot(e, MembersKind)));
    var snapshot := LatestSnapshot(a, MembersKind);
    ModerationOfSame(a, b, snapshot);
    MemberStepIdempotent();
    FoldOfSame(SnapshotMembers(snapshot), Moderation(a, snapshot), Moderation(b, snapshot), MemberStep);
  }

  lemma {:induction false} AdminsOfSame(a: Log, b: Log)
    requires SameEvents(a, b) && Consistent(a)
    ensures Admins(a) == Admins(b)
  {
    LatestOfSame(Filter(a, e => IsSnapshot(e, AdminsKind)), Filter(b, e => IsSnapshot(e, AdminsKind)));
    var snapshot := LatestSnapshot(a, AdminsKind);
    ModerationOfSame(a, b, snapshot);
    AdminStepIdempotent();
    FoldOfSame(SnapshotAdmins(snapshot), Moderation(a, snapshot), Moderation(b, snapshot), AdminStep);
  }

  lemma {:induction false} ScopedOfSame(a: Log, b: Log, groupId: Option<string>)
    requires SameEvents(a, b) && Consistent(a)
    ensures Scoped(a, groupId).Ok? == Scoped(b, groupId).Ok?
    ensures Scoped(a, groupId).Ok? ==>
              SameEvents(Scoped(a, groupId).value, Scoped(b, groupId).value) && Consistent(Scoped(a, groupId).value)
  {
    assert ScopedIds(a) == ScopedIds(b);
  }

  lemma {:induction false} StatusOfSame(a: Log, b: Log, pubkey: string)
    requires SameEvents(a, b) && Consistent(a)
    ensures StatusOf(a, pubkey) == StatusOf(b, pubkey)
  {
    MembersOfSame(a, b);
    LatestRelevantOfSame(a, b, pubkey);
  }

  lemma {:induction false} LatestRelevantOfSame(a: Log, b: Log, pubkey: string)
    requires SameEvents(a, b) && Consistent(a)
    ensures LatestRelevant(a, pubkey) == LatestRelevant(b, pubkey)
  {
    LatestOfSame(Filter(a, e => Relevant(e, pubkey)), Filter(b, e => Relevant(e, pubkey)));
  }

  /** The members depend only on the set of events: order and repetitions of the log do not matter. */
  lemma {:induction false} MembersDependOnTheSetOfEvents(a: Log, b: Log, groupId: Option<string>)
    requires SameEvents(a, b) && Consistent(a)
    ensures ReduceGroupMembers(a, groupId) == ReduceGroupMembers(b, groupId)
  {
    ScopedOfSame(a, b, groupId);
    if Scoped(a, groupId).Ok? { MembersOfSame(Scoped(a, groupId).value, Scoped(b, groupId).value); }
  }

  /** So do the admins with their roles ... */
  lemma {:induction false} AdminsDependOnTheSetOfEvents(a: Log, b: Log, groupId: Option<string>)
    requires SameEvents(a, b) && Consistent(a)
    ensures ReduceGroupAdmins(a, groupId) == ReduceGroupAdmins(b, groupId)
  {
    ScopedOfSame(a, b, groupId);
    if Scoped(a, groupId).Ok? { AdminsOfSame(Scoped(a, groupId).value, Scoped(b, groupId).value); }
  }

  /** ... and every membership status. */
  lemma {:induction false} StatusDependsOnTheSetOfEvents(a: Log, b: Log, pubkey: string, groupId: Option<string>)
    requires SameEvents(a, b) && Consistent(a)
    ensures ReduceGroupMembershipStatus(a, pubkey, groupId) == ReduceGroupMembershipStatus(b, pubkey, groupId)
  {
    ScopedOfSame(a, b, groupId);
    if Scoped(a, groupId).Ok? {
      var x, y := Scoped(a, groupId).value, Scoped(b, groupId).value;
      ScopedOfSame(x, y, None);
      StatusOfSame(x, y, pubkey);
    }
  }

  // ---------------------------------------------------------------- one group in a mixed log

  lemma {:induction false} OneGroupIsNotMixed(events: Log, id: string)
    ensures |ScopedIds(InGroup(events, id))| <= 1
  {
    var ids := ScopedIds(InGroup(events, id));
    assert ids <= {id};
    SubsetSize(ids, {id});
  }

  lemma {:induction false} SubsetSize<T>(a: set<T>, b: set<T>)
    requires a <= b
    ensures |a| <= |b|
  {
    assert b == a + (b - a);
  }

  /** Reducing a mixed log for one group is reducing that group's events alone. */
  lemma {:induction false} ExplicitGroupIsThatGroupAlone(events: Log, id: string, pubkey: string)
    requires IsGroupId(id)
    ensures ReduceGroupMembers(events, Some(id)) == ReduceGroupMembers(InGroup(events, id), None)
    ensures ReduceGroupAdmins(events, Some(id)) == ReduceGroupAdmins(InGroup(events, id), None)
    ensures ReduceGroupMembershipStatus(events, pubkey, Some(id))
         == ReduceGroupMembershipStatus(InGroup(events, id), pubkey, None)
  {
    OneGroupIsNotMixed(events, id);
  }

  // ---------------------------------------------------------------- snapshot compaction

  lemma {:induction false} FilterConcat(a: Log, b: Log, keep: Event -> bool)
    ensures Filter(a + b, keep) == Filter(a, keep) + Filter(b, keep)
    decreases |a|
  {
    if a == [] {
      assert a + b == b;
    } else {
      assert (a + b)[1..] == a[1..] + b;
      FilterConcat(a[1..], b, keep);
    }
  }

  lemma {:induction false} FilterNone(a: Log, keep: Event -> bool)
    requires forall e :: e in a ==> !keep(e)
    ensures Filter(a, keep) == []
  {
    if a == [] {
    } else {
      FilterNone(a[1..], keep);
    }
  }

  lemma {:induction false} FilterSame(a: Log, k1: Event -> bool, k2: Event -> bool)
    requires forall e :: e in a ==> k1(e) == k2(e)
    ensures Filter(a, k1) == Filter(a, k2)
  {
    if a == [] {
    } else {
      FilterSame(a[1..], k1, k2);
    }
  }

  lemma {:induction false} FoldConcat<S>(start: S, a: Log, b: Log, step: (S, Event) -> S)
    ensures Fold(start, a + b, step) == Fold(Fold(start, a, step), b, step)
    decreases |a|
  {
    if a == [] {
      assert a + b == b;
    } else {
      assert (a + b)[1..] == a[1..] + b;
      FoldConcat(step(start, a[0]), a[1..], b, step);
    }
  }

  ghost predicate NoDuplicates(s: seq<string>) {
    forall i, j :: 0 <= i < j < |s| ==> s[i] != s[j]
  }

  lemma {:induction false} ToSetHasNoDuplicates(xs: seq<string>)
    ensures NoDuplicates(ToSet(xs))
    ensures NoDuplicates(xs) ==> ToSet(xs) == xs
    ensures forall x :: x in ToSet(xs) <==> x in xs
  {
    if xs == [] {
    } else {
      var n := |xs| - 1;
      ToSetHasNoDuplicates(xs[..n]);
      assert xs == xs[..n] + [xs[n]];
    }
  }

  lemma {:induction false} PrependDistinct(x: string, s: seq<string>)
    requires NoDuplicates(s) && x !in s
    ensures NoDuplicates([x] + s)
  {
  }

  lemma {:induction false} RemoveKeepsNoDuplicates(s: seq<string>, x: string)
    requires NoDuplicates(s)
    ensures NoDuplicates(RemoveFrom(s, x))
  {
    if s == [] {
    } else {
      RemoveKeepsNoDuplicates(s[1..], x);
      assert forall y :: y in s[1..] ==> y != s[0];
      var rest := RemoveFrom(s[1..], x);
      if s[0] == x { assert RemoveFrom(s, x) == rest; } else { PrependDistinct(s[0], rest); }
    }
  }

  lemma {:induction false} FoldHasNoDuplicates(start: seq<string>, events: Log)
    requires NoDuplicates(start)
    ensures NoDuplicates(Fold(start, events, MemberStep))
    decreases |events|
  {
    if events == [] {
    } else {
      match Target(events[0]) {
        case None =>
        case Some(p) => RemoveKeepsNoDuplicates(start, p);
      }
      FoldHasNoDuplicates(MemberStep(start, events[0]), events[1..]);
    }
  }

  lemma {:induction false} MembersHaveNoDuplicates(scoped: Log)
    ensures NoDuplicates(Members(scoped))
  {
    var snapshot := LatestSnapshot(scoped, MembersKind);
    if snapshot.Some? { ToSetHasNoDuplicates(ValidatedPubkeys(snapshot.value.tags)); }
    FoldHasNoDuplicates(SnapshotMembers(snapshot), Moderation(scoped, snapshot));
  }

  /** Strictly before a snapshot in log order. */
  predicate Before(e: Event, snapshot: Event) {
    OldestFirst(e, snapshot) && !OldestFirst(snapshot, e)
  }

  ghost predicate Splits(prefix: Log, snap: Event, suffix: Log) {
    && IsSnapshot(snap, MembersKind)
    && (forall e :: e in prefix ==> Before(e, snap))
    && (forall e :: e in suffix ==> After(e, snap))
  }

  /** The latest event of a log cut in two is the latest of the second part, unless that is empty. */
  lemma {:induction false} LatestOfConcat(a: Log, b: Log)
    requires forall x, y :: x in a && y in b ==> Before(x, y)
    ensures Latest(a + b) == if b == [] then Latest(a) else Latest(b)
  {
    TheOrders();
    if b == [] {
      assert a + b == a;
    } else {
      SortReversed(a, b);
      assert Sort(b, LatestFirst) != [] by { SortSameElements(b, LatestFirst); assert b[0] in Sort(b, LatestFirst); }
    }
  }

  lemma {:induction false} SortReversed(a: Log, b: Log)
    requires forall x, y :: x in a && y in b ==> Before(x, y)
    ensures Sort(a + b, LatestFirst) == Sort(b, LatestFirst) + Sort(a, LatestFirst)
    decreases |a|
  {
    if a == [] {
      assert a + b == b && Sort(b, LatestFirst) + [] == Sort(b, LatestFirst);
    } else {
      assert (a + b)[1..] == a[1..] + b;
      SortReversed(a[1..], b);
      SortSameElements(b, LatestFirst);
      InsertBehind(a[0], Sort(b, LatestFirst), Sort(a[1..], LatestFirst));
    }
  }

  lemma {:induction false} InsertBehind(e: Event, xs: Log, ys: Log)
    requires forall x :: x in xs ==> Before(e, x)
    ensures Insert(e, xs + ys, LatestFirst) == xs + Insert(e, ys, LatestFirst)
    decreases |xs|
  {
    if xs == [] {
      assert xs + ys == ys;
    } else {
      assert (xs + ys)[1..] == xs[1..] + ys;
      InsertBehind(e, xs[1..], ys);
      assert xs[0] in xs && !LatestFirst(e, xs[0]);
      assert xs + Insert(e, ys, LatestFirst) == [xs[0]] + (xs[1..] + Insert(e, ys, LatestFirst));
    }
  }

  /** What is left of the suffix after the snapshot, whichever snapshot is the latest. */
  lemma {:induction false} ModerationSplits(prefix: Log, suffix: Log, snapshot: Option<Event>)
    requires forall x, y :: x in prefix && y in suffix ==> Before(x, y)
    ensures Moderation(prefix + suffix, snapshot) == Moderation(prefix, snapshot) + Moderation(suffix, snapshot)
  {
    var keep := ModeratesAfter(snapshot);
    var a, b := Filter(prefix, keep), Filter(suffix, keep);
    FilterConcat(prefix, suffix, keep);
    forall x, y | x in a && y in b ensures OldestFirst(x, y) {
      assert Before(x, y);
    }
    SortConcat(a, b);
  }

  lemma {:induction false} NothingBeforeModerates(prefix: Log, snapshot: Event)
    requires forall e :: e in prefix ==> Before(e, snapshot)
    ensures Moderation(prefix, Some(snapshot)) == []
  {
    FilterNone(prefix, ModeratesAfter(Some(snapshot)));
  }

  lemma {:induction false} EverythingAfterModerates(suffix: Log, snapshot: Option<Event>)
    requires snapshot.Some? ==> forall e :: e in suffix ==> After(e, snapshot.value)
    ensures Moderation(suffix, snapshot) == Moderation(suffix, None)
  {
    FilterSame(suffix, ModeratesAfter(snapshot), ModeratesAfter(None));
  }

  lemma {:induction false} SnapshotIsNoModeration(snap: Event, snapshot: Option<Event>)
    requires IsSnapshot(snap, MembersKind)
    ensures Moderation([snap], snapshot) == []
  {
    FilterNone([snap], ModeratesAfter(snapshot));
  }

  ghost predicate Precedes(a: Log, b: Log) {
    forall x, y :: x in a && y in b ==> Before(x, y)
  }

  lemma {:induction false} SplitPrecedes(prefix: Log, snap: Event, suffix: Log)
    requires Splits(prefix, snap, suffix)
    ensures Precedes(prefix, suffix) && Precedes(prefix + [snap], suffix) && Precedes(prefix, [snap])
  {
    assert forall y :: y in suffix ==> Before(snap, y);
  }

  /** The latest members snapshot, with and without the new one. */
  lemma {:induction false} LatestSnapshotSplits(prefix: Log, snap: Event, suffix: Log)
    requires Splits(prefix, snap, suffix)
    ensures var later := LatestSnapshot(suffix, MembersKind);
            && LatestSnapshot(prefix + [snap] + suffix, MembersKind) == (if later.Some? then later else Some(snap))
            && LatestSnapshot(prefix + suffix, MembersKind)
                 == (if later.Some? then later else LatestSnapshot(prefix, MembersKind))
  {
    var keep := e => IsSnapshot(e, MembersKind);
    SplitPrecedes(prefix, snap, suffix);
    FilterConcat(prefix, suffix, keep);
    FilterConcat(prefix + [snap], suffix, keep);
    FilterConcat(prefix, [snap], keep);
    assert Filter([snap], keep) == [snap];
    LatestOfConcat(Filter(prefix, keep), Filter(suffix, keep));
    LatestOfConcat(Filter(prefix, keep) + [snap], Filter(suffix, keep));
    LatestOfConcat(Filter(prefix, keep), [snap]);
    LatestIsLast(Filter(suffix, keep));
    LatestIsLast([snap]);
  }

  lemma {:induction false} CompactionWithLaterSnapshot(prefix: Log, snap: Event, suffix: Log)
    requires Splits(prefix, snap, suffix) && LatestSnapshot(suffix, MembersKind).Some?
    ensures Members(prefix + [snap] + suffix) == Members(prefix + suffix)
  {
    var later := LatestSnapshot(suffix, MembersKind);
    LatestSnapshotSplits(prefix, snap, suffix);
    SplitPrecedes(prefix, snap, suffix);
    ModerationSplits(prefix, suffix, later);
    ModerationSplits(prefix + [snap], suffix, later);
    ModerationSplits(prefix, [snap], later);
    SnapshotIsNoModeration(snap, later);
    assert Moderation(prefix, later) + [] == Moderation(prefix, later);
  }

  lemma {:induction false} CompactionWithoutLaterSnapshot(prefix: Log, snap: Event, suffix: Log)
    requires Splits(prefix, snap, suffix) && LatestSnapshot(suffix, MembersKind).None?
    requires ValidatedPubkeys(snap.tags) == Members(prefix)
    ensures Members(prefix + [snap] + suffix) == Members(prefix + suffix)
  {
    LatestSnapshotSplits(prefix, snap, suffix);
    SplitPrecedes(prefix, snap, suffix);
    WithNewSnapshot(prefix, snap, suffix);
    WithOldSnapshot(prefix, snap, suffix);
    MembersHaveNoDuplicates(prefix);
    ToSetHasNoDuplicates(ValidatedPubkeys(snap.tags));
  }

  lemma {:induction false} WithNewSnapshot(prefix: Log, snap: Event, suffix: Log)
    requires Splits(prefix, snap, suffix) && LatestSnapshot(suffix, MembersKind).None?
    ensures Members(prefix + [snap] + suffix)
         == Fold(SnapshotMembers(Some(snap)), Moderation(suffix, None), MemberStep)
  {
    LatestSnapshotSplits(prefix, snap, suffix);
    SplitPrecedes(prefix, snap, suffix);
    ModerationSplits(prefix + [snap], suffix, Some(snap));
    ModerationSplits(prefix, [snap], Some(snap));
    NothingBeforeModerates(prefix, snap);
    SnapshotIsNoModeration(snap, Some(snap));
    EverythingAfterModerates(suffix, Some(snap));
    assert [] + [] + Moderation(suffix, None) == Moderation(suffix, None);
  }

  lemma {:induction false} OldSnapshotPrecedes(prefix: Log, suffix: Log)
    requires Precedes(prefix, suffix)
    ensures var snapshot := LatestSnapshot(prefix, MembersKind);
            snapshot.Some? ==> forall e :: e in suffix ==> After(e, snapshot.value)
  {
    var snapshots := Filter(prefix, e => IsSnapshot(e, MembersKind));
    LatestIsLast(snapshots);
    var latest := Latest(snapshots);
    if latest.Some? {
      forall e | e in suffix ensures After(e, latest.value) { assert Before(latest.value, e); }
    }
  }

  lemma {:induction false} WithOldSnapshot(prefix: Log, snap: Event, suffix: Log)
    requires Splits(prefix, snap, suffix) && LatestSnapshot(suffix, MembersKind).None?
    ensures Members(prefix + suffix) == Fold(Members(prefix), Moderation(suffix, None), MemberStep)
  {
    var old' := LatestSnapshot(prefix, MembersKind);
    LatestSnapshotSplits(prefix, snap, suffix);
    SplitPrecedes(prefix, snap, suffix);
    ModerationSplits(prefix, suffix, old');
    OldSnapshotPrecedes(prefix, suffix);
    EverythingAfterModerates(suffix, old');
    FoldConcat(SnapshotMembers(old'), Moderation(prefix, old'), Moderation(suffix, None), MemberStep);
  }

  lemma {:induction false} CompactionScope(prefix: Log, snap: Event, suffix: Log, groupId: Option<string>)
      returns (before: Log, rest: Log)
    requires Splits(prefix, snap, suffix) && Scoped(prefix + [snap] + suffix, groupId).Ok?
    requires groupId.Some? ==> ScopedGroupId(snap) == groupId
    ensures Splits(before, snap, rest) && Scoped(prefix, groupId) == Ok(before)
    ensures Scoped(prefix + [snap] + suffix, groupId) == Ok(before + [snap] + rest)
    ensures Scoped(prefix + suffix, groupId) == Ok(before + rest)
  {
    match groupId {
      case None =>
        var all := prefix + [snap] + suffix;
        assert ScopedIds(prefix + suffix) <= ScopedIds(all) && ScopedIds(prefix) <= ScopedIds(all);
        SubsetSize(ScopedIds(prefix + suffix), ScopedIds(all));
        SubsetSize(ScopedIds(prefix), ScopedIds(all));
        before, rest := prefix, suffix;
      case Some(id) =>
        var keep := e => ScopedGroupId(e) == Some(id);
        FilterConcat(prefix + [snap], suffix, keep);
        FilterConcat(prefix, [snap], keep);
        FilterConcat(prefix, suffix, keep);
        assert Filter([snap], keep) == [snap];
        before, rest := InGroup(prefix, id), InGroup(suffix, id);
    }
  }

  /**
    * Snapshot compaction: a members snapshot that lists what the log before it reduces to, and that sorts between
    * that log and the rest, changes nothing.
    */
  lemma {:induction false} SnapshotCompaction(prefix: Log, snap: Event, suffix: Log, groupId: Option<string>)
    requires Splits(prefix, snap, suffix)
    requires Scoped(prefix + [snap] + suffix, groupId).Ok?
    requires groupId.Some? ==> ScopedGroupId(snap) == groupId
    requires ReduceGroupMembers(prefix, groupId) == Ok(ValidatedPubkeys(snap.tags))
    ensures ReduceGroupMembers(prefix + [snap] + suffix, groupId) == ReduceGroupMembers(prefix + suffix, groupId)
  {
    var before, rest := CompactionScope(prefix, snap, suffix, groupId);
    CompactionInGroup(before, snap, rest);
  }

  lemma {:induction false} CompactionInGroup(prefix: Log, snap: Event, suffix: Log)
    requires Splits(prefix, snap, suffix) && ValidatedPubkeys(snap.tags) == Members(prefix)
    ensures Members(prefix + [snap] + suffix) == Members(prefix + suffix)
  {
    if LatestSnapshot(suffix, MembersKind).Some? {
      CompactionWithLaterSnapshot(prefix, snap, suffix);
    } else {
      CompactionWithoutLaterSnapshot(prefix, snap, suffix);
    }
  }

  ghost predicate SamePubkeys(xs: seq<string>, ys: seq<string>) {
    forall p :: p in xs <==> p in ys
  }

  /** When it lists them in another order, or some of them more than once, the members stay the same as a set. */
  lemma {:induction false} SnapshotCompactionAsSets(prefix: Log, snap: Event, suffix: Log, groupId: Option<string>)
    requires Splits(prefix, snap, suffix)
    requires Scoped(prefix + [snap] + suffix, groupId).Ok?
    requires groupId.Some? ==> ScopedGroupId(snap) == groupId
    requires var members := ReduceGroupMembers(prefix, groupId);
             members.Ok? && SamePubkeys(ValidatedPubkeys(snap.tags), members.value)
    ensures var all := ReduceGroupMembers(prefix + [snap] + suffix, groupId);
            var without := ReduceGroupMembers(prefix + suffix, groupId);
            all.Ok? && without.Ok? && SamePubkeys(all.value, without.value)
  {
    var before, rest := CompactionScope(prefix, snap, suffix, groupId);
    if LatestSnapshot(rest, MembersKind).Some? {
      CompactionWithLaterSnapshot(before, snap, rest);
    } else {
      WithNewSnapshot(before, snap, rest);
      WithOldSnapshot(before, snap, rest);
      ToSetHasNoDuplicates(ValidatedPubkeys(snap.tags));
      ModerationContents(rest, None);
      FoldOfSamePubkeys(SnapshotMembers(Some(snap)), Members(before), Moderation(rest, None));
    }
  }

  lemma {:induction false} FoldOfSamePubkeys(xs: seq<string>, ys: seq<string>, events: Log)
    requires SamePubkeys(xs, ys) && forall e :: e in events ==> IsModeration(e)
    ensures SamePubkeys(Fold(xs, events, MemberStep), Fold(ys, events, MemberStep))
    decreases |events|
  {
    if events == [] {
    } else {
      var e := events[0];
      forall p ensures p in MemberStep(xs, e) <==> p in MemberStep(ys, e) {
        StepMembership(xs, e, p);
        StepMembership(ys, e, p);
      }
      FoldOfSamePubkeys(MemberStep(xs, e), MemberStep(ys, e), events[1..]);
    }
  }

  // ---------------------------------------------------------------- membership status

  lemma {:induction false} StepMembership(members: seq<string>, e: Event, p: string)
    requires IsModeration(e)
    ensures p in MemberStep(members, e) <==> if Target(e) == Some(p) then e.kind == PutUser else p in members
  {
  }

  lemma {:induction false} NobodyTargets(start: seq<string>, events: Log, p: string)
    requires forall e :: e in events ==> IsModeration(e) && Target(e) != Some(p)
    ensures p in Fold(start, events, MemberStep) <==> p in start
    decreases |events|
  {
    if events == [] {
    } else {
      StepMembership(start, events[0], p);
      NobodyTargets(MemberStep(start, events[0]), events[1..], p);
    }
  }

  /** The last put or remove of a pubkey decides. */
  lemma {:induction false} LastTargetDecides(start: seq<string>, events: Log, p: string, j: nat)
    requires j < |events| && Target(events[j]) == Some(p)
    requires forall i :: j < i < |events| ==> Target(events[i]) != Some(p)
    requires forall e :: e in events ==> IsModeration(e)
    ensures p in Fold(start, events, MemberStep) <==> events[j].kind == PutUser
    decreases |events|
  {
    StepMembership(start, events[0], p);
    if j > 0 {
      LastTargetDecides(MemberStep(start, events[0]), events[1..], p, j - 1);
    } else {
      NobodyTargets(MemberStep(start, events[0]), events[1..], p);
    }
  }

  function LastTarget(events: Log, p: string): (j: int)
    ensures -1 <= j < |events|
    ensures j >= 0 ==> Target(events[j]) == Some(p)
    ensures forall i :: j < i < |events| ==> Target(events[i]) != Some(p)
  {
    if events == [] then -1
    else
      var n := |events| - 1;
      if Target(events[n]) == Some(p) then n else LastTarget(events[..n], p)
  }

  lemma {:induction false} ModerationContents(scoped: Log, snapshot: Option<Event>)
    ensures Ordered(Moderation(scoped, snapshot), OldestFirst)
    ensures forall e :: e in Moderation(scoped, snapshot) <==>
              e in scoped && IsModeration(e) && (snapshot.Some? ==> After(e, snapshot.value))
  {
    TheOrders();
    SortOrdered(Filter(scoped, ModeratesAfter(snapshot)), OldestFirst);
    SortSameElements(Filter(scoped, ModeratesAfter(snapshot)), OldestFirst);
  }

  lemma {:induction false} TargetIsRelevant(e: Event, p: string)
    requires IsPubkey(p) && IsModeration(e)
    ensures Target(e) == Some(p) <==> Relevant(e, p)
  {
  }

  /** The latest relevant event, when it is a put that the reduction counts, makes its pubkey a member. */
  lemma {:induction false} CountedPutMakesMember(scoped: Log, p: string, put: Event)
    requires Consistent(scoped) && IsPubkey(p) && LatestRelevant(scoped, p) == Some(put) && put.kind == PutUser
    requires var snapshot := LatestSnapshot(scoped, MembersKind); snapshot.Some? ==> After(put, snapshot.value)
    ensures p in Members(scoped)
  {
    var snapshot := LatestSnapshot(scoped, MembersKind);
    var events := Moderation(scoped, snapshot);
    ModerationContents(scoped, snapshot);
    LatestIsLast(Filter(scoped, e => Relevant(e, p)));
    TargetIsRelevant(put, p);
    var k :| 0 <= k < |events| && events[k] == put;
    var j := LastTarget(events, p);
    assert j >= k && events[j] in events && events[j] in scoped;
    TargetIsRelevant(events[j], p);
    assert OldestFirst(events[j], put);
    assert j == k || OldestFirst(put, events[j]);
    SameKey(events[j], put);
    LastTargetDecides(SnapshotMembers(snapshot), events, p, j);
  }

  /** When it is not newer than the members snapshot, the snapshot decides. */
  lemma {:induction false} SupersededPutLeavesSnapshot(scoped: Log, p: string, put: Event)
    requires IsPubkey(p) && LatestRelevant(scoped, p) == Some(put) && put.kind == PutUser
    requires var snapshot := LatestSnapshot(scoped, MembersKind); snapshot.Some? && !After(put, snapshot.value)
    ensures p in Members(scoped) <==> p in SnapshotMembers(LatestSnapshot(scoped, MembersKind))
  {
    var snapshot := LatestSnapshot(scoped, MembersKind);
    var events := Moderation(scoped, snapshot);
    ModerationContents(scoped, snapshot);
    LatestIsLast(Filter(scoped, e => Relevant(e, p)));
    forall e | e in events ensures Target(e) != Some(p) {
      TargetIsRelevant(e, p);
      assert After(e, snapshot.value);
    }
    NobodyTargets(SnapshotMembers(snapshot), events, p);
  }

  /** The latest relevant event is a put, but not newer than a members snapshot that omits the pubkey. */
  predicate SupersededPut(scoped: Log, p: string) {
    var latest, snapshot := LatestRelevant(scoped, p), LatestSnapshot(scoped, MembersKind);
    && latest.Some? && latest.value.kind == PutUser
    && snapshot.Some? && !After(latest.value, snapshot.value)
    && p !in SnapshotMembers(snapshot)
  }

  lemma {:induction false} MembersAreNotSuperseded(scoped: Log, p: string)
    requires Consistent(scoped) && IsPubkey(p) && SupersededPut(scoped, p)
    ensures p !in Members(scoped)
  {
    SupersededPutLeavesSnapshot(scoped, p, LatestRelevant(scoped, p).value);
  }

  lemma {:induction false} LatestPutDecides(scoped: Log, p: string, put: Event)
    requires Consistent(scoped) && IsPubkey(p) && LatestRelevant(scoped, p) == Some(put) && put.kind == PutUser
    ensures p in Members(scoped) || SupersededPut(scoped, p)
  {
    var snapshot := LatestSnapshot(scoped, MembersKind);
    if snapshot.Some? && !After(put, snapshot.value) {
      SupersededPutLeavesSnapshot(scoped, p, put);
    } else {
      CountedPutMakesMember(scoped, p, put);
    }
  }

  predicate IsPut(latest: Option<Event>) {
    latest.Some? && latest.value.kind == PutUser
  }

  lemma {:induction false} GrantedIs(isMember: bool, latest: Option<Event>)
    ensures Decide(isMember, latest) == Granted <==> isMember || IsPut(latest)
  {
  }

  lemma {:induction false} SupersededIsPut(scoped: Log, p: string)
    ensures SupersededPut(scoped, p) ==> IsPut(LatestRelevant(scoped, p))
  {
  }

  lemma {:induction false} StatusAgreesInGroup(scoped: Log, p: string)
    requires Consistent(scoped) && IsPubkey(p)
    ensures StatusOf(scoped, p) == Granted <==> p in Members(scoped) || SupersededPut(scoped, p)
    ensures !(p in Members(scoped) && SupersededPut(scoped, p))
  {
    var latest, isMember := LatestRelevant(scoped, p), p in Members(scoped);
    GrantedIs(isMember, latest);
    SupersededIsPut(scoped, p);
    if SupersededPut(scoped, p) {
      MembersAreNotSuperseded(scoped, p);
    } else if IsPut(latest) {
      LatestPutDecides(scoped, p, latest.value);
    }
  }

  /**
    * Membership status against the member reduction: Granted is exactly being a member, but for one case that is
    * never a member: the latest relevant event is a put not newer than a members snapshot omitting the pubkey.
    * Without a members snapshot Granted is exactly being a member.
    */
  lemma {:induction false} GrantedMeansMember(events: Log, p: string, groupId: Option<string>)
    requires Consistent(events) && IsPubkey(p) && Scoped(events, groupId).Ok?
    ensures var scoped := Scoped(events, groupId).value;
            var status := ReduceGroupMembershipStatus(events, p, groupId);
            var members := ReduceGroupMembers(events, groupId);
            && members.Ok? && status.Ok?
            && (status.value == Granted <==> p in members.value || SupersededPut(scoped, p))
            && (SupersededPut(scoped, p) ==> p !in members.value)
            && (LatestSnapshot(scoped, MembersKind).None? ==> (status.value == Granted <==> p in members.value))
  {
    var scoped := Scoped(events, groupId).value;
    if groupId.Some? { OneGroupIsNotMixed(events, groupId.value); }
    StatusAgreesInGroup(scoped, p);
  }

  /** A put at time 1, and a members snapshot at time 2 that lists nobody. */
  function SupersededLog(p: string): Log {
    [Event(1, "", 1, PutUser, [["h", "g"], ["p", p]]), Event(2, "", 2, MembersKind, [["d", "g"]])]
  }

  /** In that log the pubkey is not a member and yet Granted. */
  lemma {:induction false} SupersededPutIsGranted(p: string)
    requires IsPubkey(p)
    ensures var log := SupersededLog(p);
            && Consistent(log) && Scoped(log, Some("g")) == Ok(log) && SupersededPut(log, p)
            && ReduceGroupMembershipStatus(log, p, Some("g")) == Ok(Granted)
            && ReduceGroupMembers(log, Some("g")).Ok? && p !in ReduceGroupMembers(log, Some("g")).value
  {
    var log := SupersededLog(p);
    SupersededLogIsInGroup(p);
    var relevant, snapshots := Filter(log, e => Relevant(e, p)), Filter(log, e => IsSnapshot(e, MembersKind));
    SupersededLogTags(p);
    assert log[0] in relevant && log[1] in snapshots;
    LatestIsLast(relevant);
    LatestIsLast(snapshots);
    assert LatestRelevant(log, p) == Some(log[0]) && LatestSnapshot(log, MembersKind) == Some(log[1]);
    GrantedMeansMember(log, p, Some("g"));
  }

  lemma {:induction false} SupersededLogTags(p: string)
    requires IsPubkey(p)
    ensures var log := SupersededLog(p);
            && Relevant(log[0], p) && !Relevant(log[1], p) && log[0] in log && log[1] in log
            && IsSnapshot(log[1], MembersKind) && !IsSnapshot(log[0], MembersKind)
            && ValidatedPubkeys(log[1].tags) == [] && ScopedGroupId(log[0]) == ScopedGroupId(log[1]) == Some("g")
  {
    var log := SupersededLog(p);
    assert "h"[0] == 'h' && "p"[0] == 'p' && "d"[0] == 'd' && "g"[0] == 'g';
    var tags := log[0].tags;
    assert !Named(tags[0], "p") && tags[1..] == [["p", p]];
    assert FindTag(tags, "p") == FindTag([["p", p]], "p") == Some(["p", p]);
    assert log[1].tags[1..] == [];
  }

  lemma {:induction false} SupersededLogIsInGroup(p: string)
    requires IsPubkey(p)
    ensures InGroup(SupersededLog(p), "g") == SupersededLog(p)
  {
    SupersededLogTags(p);
    FilterAll(SupersededLog(p), e => ScopedGroupId(e) == Some("g"));
  }

  lemma {:induction false} FilterAll(events: Log, keep: Event -> bool)
    requires forall e :: e in events ==> keep(e)
    ensures Filter(events, keep) == events
    decreases |events|
  {
    if events == [] {
    } else {
      FilterAll(events[1..], keep);
    }
  }

  // ---------------------------------------------------------------- the loops

  /** reduceGroupMembers: a Set updated in a loop over the sorted moderation events. */
  method ReduceMembers(events: Log, groupId: Option<string>) returns (r: Result<seq<string>>)
    ensures r == ReduceGroupMembers(events, groupId)
  {
    var scoped := Scoped(events, groupId);
    if scoped.Err? { return Err; }
    var snapshot := LatestSnapshot(scoped.value, MembersKind);
    var members := [];
    if snapshot.Some? { members := ToSet(ValidatedPubkeys(snapshot.value.tags)); }
    var moderation := Moderation(scoped.value, snapshot);
    for i := 0 to |moderation|
      invariant Fold(members, moderation[i..], MemberStep) == Members(scoped.value)
    {
      var event := moderation[i];
      assert moderation[i..][1..] == moderation[i + 1..];
      var target := Target(event);
      if target.Some? {
        if event.kind == PutUser {
          members := AddTo(members, target.value);
        } else if event.kind == RemoveUser {
          members := RemoveFrom(members, target.value);
        }
      }
    }
    r := Ok(members);
  }

  /** reduceGroupAdmins: a Map from pubkey to roles updated in a loop. */
  method ReduceAdmins(events: Log, groupId: Option<string>) returns (r: Result<seq<Admin>>)
    ensures r == ReduceGroupAdmins(events, groupId)
  {
    var scoped := Scoped(events, groupId);
    if scoped.Err? { return Err; }
    var snapshot := LatestSnapshot(scoped.value, AdminsKind);
    var admins := [];
    if snapshot.Some? { admins := ReadAdmins(snapshot.value.tags); }
    var moderation := Moderation(scoped.value, snapshot);
    for i := 0 to |moderation|
      invariant Fold(admins, moderation[i..], AdminStep) == Admins(scoped.value)
    {
      assert moderation[i..][1..] == moderation[i + 1..];
      admins := Moderate(admins, moderation[i]);
    }
    r := Ok(admins);
  }

  /** One turn of that loop. */
  method Moderate(admins: seq<Admin>, event: Event) returns (next: seq<Admin>)
    ensures next == AdminStep(admins, event)
  {
    next := admins;
    var tag := FindTag(event.tags, "p");
    var target := ValidatedPubkey(tag);
    if target.Some? {
      var roles := RoleValues(tag.value);
      if event.kind == RemoveUser || |roles| == 0 {
        next := DropAdmin(admins, target.value);
      } else {
        next := SetRoles(admins, Admin(target.value, roles));
      }
    }
  }

  /** The loop over a snapshot's p tags. */
  method ReadAdmins(tags: seq<Tag>) returns (admins: seq<Admin>)
    ensures admins == ListedAdmins(tags)
  {
    admins := [];
    for i := 0 to |tags|
      invariant admins == ListedAdmins(tags[..i])
    {
      assert tags[..i + 1][..i] == tags[..i];
      if Named(tags[i], "p") && ValidatedPubkey(Some(tags[i])).Some? {
        admins := SetRoles(admins, Admin(tags[i][1], RoleValues(tags[i])));
      }
    }
    assert tags[..|tags|] == tags;
  }
}
