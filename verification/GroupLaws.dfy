/**
  * What the reductions of NIP-29 group logs mean, pubkey by pubkey: who is a member, who is an admin with which
  * roles, and which status somebody has, in terms of the events and their tags alone.
  *
  * Event kinds: 9000 puts a user, 9001 removes one, 9021 and 9022 ask to join and to leave, and 39000 to 39003 are
  * the snapshots of the group, 39001 of its admins and 39002 of its members.
  */
module GroupLaws {
  import opened Wrappers
  import opened Events
  import opened GroupReducers

  // ---------------------------------------------------------------- tags, keys and ids

  predicate Starts(tag: Tag, name: string) {
    |tag| > 0 && tag[0] == name
  }

  ghost predicate FirstNamed(tags: seq<Tag>, name: string, i: nat) {
    i < |tags| && Starts(tags[i], name) && forall j :: 0 <= j < i ==> !Starts(tags[j], name)
  }

  /** The first tag of that name has this value. */
  ghost predicate HasValue(tags: seq<Tag>, name: string, value: string) {
    exists i: nat :: FirstNamed(tags, name, i) && |tags[i]| >= 2 && tags[i][1] == value
  }

  predicate IsKey(p: string) {
    |p| == 64 && forall c :: c in p ==> c in "0123456789abcdef"
  }

  predicate IdChar(c: char) {
    c in "abcdefghijklmnopqrstuvwxyz" || c in "0123456789" || c == '_' || c == '-'
  }

  predicate IsId(id: string) {
    |id| > 0 && forall c :: c in id ==> IdChar(c)
  }

  lemma {:induction false} KeyChars(c: char)
    ensures c in "0123456789abcdef" <==> '0' <= c <= '9' || 'a' <= c <= 'f'
  {
    var digits := "0123456789abcdef";
    if '0' <= c <= '9' {
      assert digits[c as int - 48] == c;
    } else if 'a' <= c <= 'f' {
      assert digits[c as int - 87] == c;
    }
  }

  lemma {:induction false} Letters(c: char)
    ensures c in "abcdefghijklmnopqrstuvwxyz" <==> 'a' <= c <= 'z'
  {
    var letters := "abcdefghijklmnopqrstuvwxyz";
    if 'a' <= c <= 'z' { assert letters[c as int - 97] == c; }
  }

  lemma {:induction false} Digits(c: char)
    ensures c in "0123456789" <==> '0' <= c <= '9'
  {
    var digits := "0123456789";
    if '0' <= c <= '9' { assert digits[c as int - 48] == c; }
  }

  lemma {:induction false} KeysAndIds(s: string)
    ensures IsPubkey(s) <==> IsKey(s)
    ensures IsGroupId(s) <==> IsId(s)
  {
    forall i | 0 <= i < |s|
      ensures s[i] in "0123456789abcdef" <==> '0' <= s[i] <= '9' || 'a' <= s[i] <= 'f'
      ensures IdChar(s[i]) <==> GroupIdChar(s[i])
    {
      KeyChars(s[i]);
      Letters(s[i]);
      Digits(s[i]);
    }
  }

  lemma {:induction false} FindTagIsFirst(tags: seq<Tag>, name: string)
    ensures FindTag(tags, name).Some? ==> exists i: nat :: FirstNamed(tags, name, i) && FindTag(tags, name).value == tags[i]
    ensures FindTag(tags, name).None? ==> forall i :: 0 <= i < |tags| ==> !Starts(tags[i], name)
    decreases |tags|
  {
    if tags == [] {
    } else if Starts(tags[0], name) {
      assert FirstNamed(tags, name, 0);
    } else {
      FindTagIsFirst(tags[1..], name);
      if FindTag(tags[1..], name).Some? {
        var i: nat :| FirstNamed(tags[1..], name, i) && FindTag(tags[1..], name).value == tags[1..][i];
        assert FirstNamed(tags, name, i + 1);
      }
    }
  }

  lemma {:induction false} FirstIsUnique(tags: seq<Tag>, name: string, i: nat, j: nat)
    requires FirstNamed(tags, name, i) && FirstNamed(tags, name, j)
    ensures i == j
  {
  }

  lemma {:induction false} ValueIs(tags: seq<Tag>, name: string, value: string)
    ensures FirstTagValue(tags, name) == Some(value) <==> HasValue(tags, name, value)
  {
    FindTagIsFirst(tags, name);
    if FindTag(tags, name).Some? {
      var i: nat :| FirstNamed(tags, name, i) && FindTag(tags, name).value == tags[i];
      forall j: nat | FirstNamed(tags, name, j) ensures j == i { FirstIsUnique(tags, name, i, j); }
    }
  }

  // ---------------------------------------------------------------- which events are in scope

  /** The group an event belongs to: the snapshots name it first in `d`, the others first in `h`. */
  ghost predicate BelongsTo(e: Event, id: string) {
    var first, second := if 39000 <= e.kind <= 39003 then "d" else "h", if 39000 <= e.kind <= 39003 then "h" else "d";
    IsId(id) && (HasValue(e.tags, first, id) || ((forall v :: !HasValue(e.tags, first, v)) && HasValue(e.tags, second, id)))
  }

  lemma {:induction false} ScopedIdIs(e: Event, id: string)
    ensures ScopedGroupId(e) == Some(id) <==> BelongsTo(e, id)
  {
    KeysAndIds(id);
    forall name, v ensures FirstTagValue(e.tags, name) == Some(v) <==> HasValue(e.tags, name, v) { ValueIs(e.tags, name, v); }
    var first := if 39000 <= e.kind <= 39003 then "d" else "h";
    if FirstTagValue(e.tags, first).Some? { assert HasValue(e.tags, first, FirstTagValue(e.tags, first).value); }
  }

  /** Two events of different groups. */
  ghost predicate Mixed(events: Log) {
    exists a, b, x, y :: a in events && b in events && BelongsTo(a, x) && BelongsTo(b, y) && x != y
  }

  lemma {:induction false} TwoIds(ids: set<string>, x: string, y: string)
    requires x in ids && y in ids && x != y
    ensures |ids| > 1
  {
    assert |ids - {x}| > 0 by { assert y in ids - {x}; }
  }

  lemma {:induction false} PickTwo(ids: set<string>) returns (x: string, y: string)
    requires |ids| > 1
    ensures x in ids && y in ids && x != y
  {
    x :| x in ids;
    assert |ids - {x}| > 0;
    y :| y in ids - {x};
  }

  lemma {:induction false} MixedIs(events: Log)
    ensures |ScopedIds(events)| > 1 <==> Mixed(events)
  {
    var ids := ScopedIds(events);
    if |ids| > 1 {
      var x, y := PickTwo(ids);
      var a :| a in events && ScopedGroupId(a) == Some(x);
      var b :| b in events && ScopedGroupId(b) == Some(y);
      ScopedIdIs(a, x);
      ScopedIdIs(b, y);
    }
    if Mixed(events) {
      var a, b, x, y :| a in events && b in events && BelongsTo(a, x) && BelongsTo(b, y) && x != y;
      ScopedIdIs(a, x);
      ScopedIdIs(b, y);
      TwoIds(ids, x, y);
    }
  }

  /** Reducing fails exactly for an id that is none, or without one for a log of several groups; in scope are the events
      of the group, or all. */
  lemma {:induction false} ScopeIsExact(events: Log, groupId: Option<string>)
    ensures Scoped(events, groupId).Ok? <==> if groupId.Some? then IsId(groupId.value) else !Mixed(events)
    ensures Scoped(events, groupId).Ok? ==> forall e ::
              e in Scoped(events, groupId).value <==> e in events && (groupId.Some? ==> BelongsTo(e, groupId.value))
  {
    match groupId {
      case None => MixedIs(events);
      case Some(id) =>
        KeysAndIds(id);
        forall e ensures ScopedGroupId(e) == Some(id) <==> BelongsTo(e, id) { ScopedIdIs(e, id); }
    }
  }

  // ---------------------------------------------------------------- snapshots and the last word

  /** Later in log order: by time, and by id among equal times. */
  predicate Later(a: Event, b: Event) {
    a.createdAt > b.createdAt || (a.createdAt == b.createdAt && a.id > b.id)
  }

  /** A snapshot of that kind with a group id in its `d` tag. */
  ghost predicate ValidSnapshot(e: Event, kind: nat) {
    e.kind == kind && exists id :: HasValue(e.tags, "d", id) && IsId(id)
  }

  ghost predicate NewestSnapshot(scoped: Log, kind: nat, snap: Event) {
    && snap in scoped && ValidSnapshot(snap, kind)
    && forall x :: x in scoped && ValidSnapshot(x, kind) ==> x == snap || Later(snap, x)
  }

  lemma {:induction false} SnapshotIs(e: Event, kind: nat)
    ensures IsSnapshot(e, kind) <==> ValidSnapshot(e, kind)
  {
    forall v ensures FirstTagValue(e.tags, "d") == Some(v) <==> HasValue(e.tags, "d", v) { ValueIs(e.tags, "d", v); }
    forall v ensures IsGroupId(v) <==> IsId(v) { KeysAndIds(v); }
    if IsSnapshot(e, kind) { assert HasValue(e.tags, "d", FirstTagValue(e.tags, "d").value); }
  }

  lemma {:induction false} NewestIsLatest(scoped: Log, kind: nat, snap: Event)
    requires Consistent(scoped)
    ensures LatestSnapshot(scoped, kind) == Some(snap) <==> NewestSnapshot(scoped, kind, snap)
  {
    var snapshots := Filter(scoped, e => IsSnapshot(e, kind));
    LatestIsLast(snapshots);
    forall e ensures IsSnapshot(e, kind) <==> ValidSnapshot(e, kind) { SnapshotIs(e, kind); }
    assert forall e :: e in snapshots <==> e in scoped && ValidSnapshot(e, kind);
    if snapshots != [] {
      var latest := Latest(snapshots).value;
      assert latest in snapshots;
      assert forall x :: x in snapshots && x != latest ==> x.id != latest.id;
    }
  }

  /** A put or remove that is later than the newest snapshot. */
  ghost predicate Counts(scoped: Log, kind: nat, e: Event) {
    && e in scoped && (e.kind == 9000 || e.kind == 9001)
    && forall snap :: NewestSnapshot(scoped, kind, snap) ==> Later(e, snap)
  }

  ghost predicate IsAbout(e: Event, p: string) {
    IsKey(p) && HasValue(e.tags, "p", p)
  }

  /** The last counted put or remove of this pubkey. */
  ghost predicate LastWord(scoped: Log, kind: nat, p: string, e: Event) {
    && Counts(scoped, kind, e) && IsAbout(e, p)
    && forall x :: Counts(scoped, kind, x) && IsAbout(x, p) ==> x == e || Later(e, x)
  }

  lemma {:induction false} TargetIs(e: Event, p: string)
    ensures Target(e) == Some(p) <==> IsAbout(e, p)
  {
    KeysAndIds(p);
    ValueIs(e.tags, "p", p);
  }

  lemma {:induction false} ModerationIs(scoped: Log, kind: nat, e: Event)
    requires Consistent(scoped)
    ensures e in Moderation(scoped, LatestSnapshot(scoped, kind)) <==> Counts(scoped, kind, e)
  {
    var snapshot := LatestSnapshot(scoped, kind);
    ModerationContents(scoped, snapshot);
    forall snap ensures snapshot == Some(snap) <==> NewestSnapshot(scoped, kind, snap) { NewestIsLatest(scoped, kind, snap); }
  }

  lemma {:induction false} OneLastWord(scoped: Log, kind: nat, p: string, a: Event, b: Event)
    requires LastWord(scoped, kind, p, a) && LastWord(scoped, kind, p, b)
    ensures a == b
  {
  }

  lemma {:induction false} LastWordIs(scoped: Log, kind: nat, p: string) returns (j: int)
    requires Consistent(scoped)
    ensures var events := Moderation(scoped, LatestSnapshot(scoped, kind));
            && j == LastTarget(events, p) && -1 <= j < |events|
            && (forall e :: LastWord(scoped, kind, p, e) <==> j >= 0 && e == events[j])
  {
    var snapshot := LatestSnapshot(scoped, kind);
    var events := Moderation(scoped, snapshot);
    ModerationContents(scoped, snapshot);
    j := LastTarget(events, p);
    forall e ensures Target(e) == Some(p) <==> IsAbout(e, p) { TargetIs(e, p); }
    forall e ensures e in events <==> Counts(scoped, kind, e) { ModerationIs(scoped, kind, e); }
    if j >= 0 {
      assert events[j] in events && Counts(scoped, kind, events[j]) && IsAbout(events[j], p);
      forall x | Counts(scoped, kind, x) && IsAbout(x, p) ensures x == events[j] || Later(events[j], x) {
        var i :| 0 <= i < |events| && events[i] == x;
        assert i <= j && (i == j || OldestFirst(x, events[j]));
        assert x.id == events[j].id ==> x == events[j];
      }
      assert LastWord(scoped, kind, p, events[j]);
      forall e | LastWord(scoped, kind, p, e) ensures e == events[j] { OneLastWord(scoped, kind, p, e, events[j]); }
    } else {
      assert forall i :: 0 <= i < |events| ==> Target(events[i]) != Some(p);
      assert forall e :: e in events ==> Target(e) != Some(p);
    }
  }

  /** The last entry for this pubkey among the tags of a snapshot. */
  ghost predicate LastEntry(tags: seq<Tag>, p: string, i: nat) {
    && IsKey(p) && i < |tags| && EntryFor(tags[i], p)
    && forall j :: i < j < |tags| ==> !EntryFor(tags[j], p)
  }

  predicate EntryFor(tag: Tag, p: string) {
    |tag| >= 2 && tag[0] == "p" && tag[1] == p
  }

  // ---------------------------------------------------------------- members

  lemma {:induction false} ListedPubkeys(tags: seq<Tag>, p: string)
    ensures p in ValidatedPubkeys(tags) <==> IsKey(p) && exists i :: 0 <= i < |tags| && EntryFor(tags[i], p)
    decreases |tags|
  {
    KeysAndIds(p);
    if tags == [] {
    } else {
      ListedPubkeys(tags[1..], p);
      if IsKey(p) {
        if i :| 0 <= i < |tags| && EntryFor(tags[i], p) { assert i == 0 || EntryFor(tags[1..][i - 1], p); }
        if i :| 0 <= i < |tags[1..]| && EntryFor(tags[1..][i], p) { assert EntryFor(tags[i + 1], p); }
      }
    }
  }

  lemma {:induction false} SomeEntryIsLast(tags: seq<Tag>, p: string, i: nat) returns (last: nat)
    requires IsKey(p) && i < |tags| && EntryFor(tags[i], p)
    ensures LastEntry(tags, p, last)
    decreases |tags| - i
  {
    if j :| i < j < |tags| && EntryFor(tags[j], p) {
      last := SomeEntryIsLast(tags, p, j);
    } else {
      last := i;
    }
  }

  /** The newest members snapshot lists the pubkey. */
  ghost predicate ListedIn(scoped: Log, kind: nat, p: string) {
    exists snap, i: nat :: NewestSnapshot(scoped, kind, snap) && LastEntry(snap.tags, p, i)
  }

  lemma {:induction false} SnapshotMembersAre(scoped: Log, p: string)
    requires Consistent(scoped)
    ensures p in SnapshotMembers(LatestSnapshot(scoped, 39002)) <==> ListedIn(scoped, 39002, p)
  {
    var snapshot := LatestSnapshot(scoped, 39002);
    forall snap ensures snapshot == Some(snap) <==> NewestSnapshot(scoped, 39002, snap) { NewestIsLatest(scoped, 39002, snap); }
    if snapshot.Some? {
      var tags := snapshot.value.tags;
      ListedPubkeys(tags, p);
      ToSetHasNoDuplicates(ValidatedPubkeys(tags));
      if IsKey(p) {
        if i: nat :| i < |tags| && EntryFor(tags[i], p) { var last := SomeEntryIsLast(tags, p, i); }
      }
    }
  }

  /**
    * Who is a member: a pubkey whose last counted put or remove is a put, and one without any that the newest members
    * snapshot lists.
    */
  lemma {:induction false} MembersAre(events: Log, groupId: Option<string>, p: string)
    requires Consistent(events) && Scoped(events, groupId).Ok?
    ensures var scoped := Scoped(events, groupId).value;
            var members := ReduceGroupMembers(events, groupId);
            members.Ok? &&
            (p in members.value <==>
              || (exists e :: LastWord(scoped, 39002, p, e) && e.kind == 9000)
              || ((forall e :: !LastWord(scoped, 39002, p, e)) && ListedIn(scoped, 39002, p)))
  {
    var scoped := Scoped(events, groupId).value;
    var snapshot := LatestSnapshot(scoped, 39002);
    var moderation := Moderation(scoped, snapshot);
    ModerationContents(scoped, snapshot);
    var j := LastWordIs(scoped, 39002, p);
    if j >= 0 {
      LastTargetDecides(SnapshotMembers(snapshot), moderation, p, j);
      assert LastWord(scoped, 39002, p, moderation[j]);
    } else {
      NobodyTargets(SnapshotMembers(snapshot), moderation, p);
      SnapshotMembersAre(scoped, p);
    }
  }

  // ---------------------------------------------------------------- roles

  /** The roles are the values at these positions: all that are not empty, in order. */
  ghost predicate Picks(values: seq<string>, roles: seq<string>, at: seq<nat>) {
    && |at| == |roles| && (forall i, j :: 0 <= i < j < |at| ==> at[i] < at[j])
    && (forall k: nat :: k in at <==> k < |values| && values[k] != "")
    && (forall i :: 0 <= i < |at| ==> at[i] < |values| && roles[i] == values[at[i]])
  }

  /** The non-empty values of a tag after its pubkey, in order. */
  ghost predicate AreRoles(roles: seq<string>, tag: Tag) {
    |tag| >= 2 && exists at :: Picks(tag[2..], roles, at)
  }

  function Shifted(at: seq<nat>): (r: seq<nat>)
    ensures |r| == |at| && forall i :: 0 <= i < |r| ==> r[i] == at[i] + 1
  {
    seq(|at|, i requires 0 <= i < |at| => at[i] + 1)
  }

  lemma {:induction false} ShiftedContents(at: seq<nat>, k: nat)
    ensures k in Shifted(at) <==> k > 0 && k - 1 in at
  {
    if k > 0 && k - 1 in at {
      var i :| 0 <= i < |at| && at[i] == k - 1;
      assert Shifted(at)[i] == k;
    }
    if k in Shifted(at) {
      var i :| 0 <= i < |at| && Shifted(at)[i] == k;
      assert at[i] == k - 1;
    }
  }

  lemma {:induction false} PositionsGrow(values: seq<string>, rest: seq<nat>, k: nat)
    requires values != [] && forall i: nat :: i in rest <==> i < |values[1..]| && values[1..][i] != ""
    ensures k in Shifted(rest) <==> 0 < k < |values| && values[k] != ""
  {
    ShiftedContents(rest, k);
    if 0 < k < |values| { assert values[1..][k - 1] == values[k]; }
  }

  lemma {:induction false} PicksLater(values: seq<string>, roles: seq<string>, rest: seq<nat>)
    requires values != [] && values[0] == "" && Picks(values[1..], roles, rest)
    ensures Picks(values, roles, Shifted(rest))
  {
    forall k: nat ensures k in Shifted(rest) <==> k < |values| && values[k] != "" { PositionsGrow(values, rest, k); }
  }

  lemma {:induction false} ZeroFirst(later: seq<nat>)
    requires (forall i, j :: 0 <= i < j < |later| ==> later[i] < later[j]) && forall i :: 0 <= i < |later| ==> later[i] > 0
    ensures var at := [0] + later; forall i, j :: 0 <= i < j < |at| ==> at[i] < at[j]
    ensures forall k :: k in [0] + later <==> k == 0 || k in later
  {
  }

  lemma {:induction false} LaterValues(values: seq<string>, roles: seq<string>, rest: seq<nat>)
    requires values != [] && Picks(values[1..], roles, rest)
    ensures var at, all := [0] + Shifted(rest), [values[0]] + roles;
            forall i :: 0 <= i < |at| ==> at[i] < |values| && all[i] == values[at[i]]
  {
    var at, all := [0] + Shifted(rest), [values[0]] + roles;
    forall i | 0 <= i < |at| ensures at[i] < |values| && all[i] == values[at[i]] {
      if i > 0 { assert at[i] == rest[i - 1] + 1 && values[1..][rest[i - 1]] == values[at[i]]; }
    }
  }

  lemma {:induction false} PicksFirst(values: seq<string>, roles: seq<string>, rest: seq<nat>)
    requires values != [] && values[0] != "" && Picks(values[1..], roles, rest)
    ensures Picks(values, [values[0]] + roles, [0] + Shifted(rest))
  {
    ZeroFirst(Shifted(rest));
    LaterValues(values, roles, rest);
    forall k: nat ensures k in [0] + Shifted(rest) <==> k < |values| && values[k] != "" { PositionsGrow(values, rest, k); }
  }

  lemma {:induction false} NonEmptyPicks(values: seq<string>) returns (at: seq<nat>)
    ensures Picks(values, NonEmpty(values), at)
    decreases |values|
  {
    if values == [] {
      at := [];
    } else {
      var rest := NonEmptyPicks(values[1..]);
      var roles := NonEmpty(values[1..]);
      if values[0] == "" {
        at := Shifted(rest);
        PicksLater(values, roles, rest);
        assert [] + roles == roles;
      } else {
        at := [0] + Shifted(rest);
        PicksFirst(values, roles, rest);
      }
    }
  }

  lemma {:induction false} HeadIsIn(s: seq<nat>)
    requires s != []
    ensures s[0] in s
  {
  }

  lemma {:induction false} SamePositions(a: seq<nat>, b: seq<nat>)
    requires (forall i, j :: 0 <= i < j < |a| ==> a[i] < a[j]) && (forall i, j :: 0 <= i < j < |b| ==> b[i] < b[j])
    requires forall k: nat :: k in a <==> k in b
    ensures a == b
    decreases |a|
  {
    if a == [] {
      if b != [] {
        HeadIsIn(b);
        assert false;
      }
    } else {
      assert a[0] in b;
      assert b[0] in a;
      assert a[0] == b[0];
      forall k: nat ensures k in a[1..] <==> k in b[1..] {
        assert k in a <==> k == a[0] || k in a[1..];
        assert k in b <==> k == b[0] || k in b[1..];
      }
      SamePositions(a[1..], b[1..]);
      assert a == [a[0]] + a[1..] && b == [b[0]] + b[1..];
    }
  }

  lemma {:induction false} RolesAre(tag: Tag, roles: seq<string>)
    requires |tag| >= 2
    ensures roles == RoleValues(tag) <==> AreRoles(roles, tag)
  {
    var values := tag[2..];
    var at := NonEmptyPicks(values);
    assert NonEmpty(values) == RoleValues(tag);
    if AreRoles(roles, tag) {
      var other :| Picks(values, roles, other);
      SamePositions(at, other);
    }
  }

  // ---------------------------------------------------------------- admins

  ghost predicate DistinctAdmins(admins: seq<Admin>) {
    forall i, j :: 0 <= i < j < |admins| ==> admins[i].pubkey != admins[j].pubkey
  }

  lemma {:induction false} SetRolesContents(admins: seq<Admin>, a: Admin)
    requires DistinctAdmins(admins)
    ensures DistinctAdmins(SetRoles(admins, a))
    ensures forall x :: x in SetRoles(admins, a) <==> x == a || (x in admins && x.pubkey != a.pubkey)
  {
    if admins == [] {
    } else {
      var head, rest := admins[0], admins[1..];
      assert forall x :: x in admins <==> x == head || x in rest;
      assert forall x :: x in rest ==> x.pubkey != head.pubkey;
      if head.pubkey == a.pubkey {
        PrependAdmin(a, rest);
      } else {
        SetRolesContents(rest, a);
        PrependAdmin(head, SetRoles(rest, a));
      }
    }
  }

  lemma {:induction false} PrependAdmin(a: Admin, rest: seq<Admin>)
    requires DistinctAdmins(rest) && forall x :: x in rest ==> x.pubkey != a.pubkey
    ensures DistinctAdmins([a] + rest) && forall x :: x in [a] + rest <==> x == a || x in rest
  {
  }

  lemma {:induction false} DropAdminContents(admins: seq<Admin>, p: string)
    requires DistinctAdmins(admins)
    ensures DistinctAdmins(DropAdmin(admins, p))
    ensures forall x :: x in DropAdmin(admins, p) <==> x in admins && x.pubkey != p
  {
    if admins == [] {
    } else {
      var head, rest := admins[0], admins[1..];
      assert forall x :: x in admins <==> x == head || x in rest;
      assert forall x :: x in rest ==> x.pubkey != head.pubkey;
      DropAdminContents(rest, p);
      if head.pubkey == p {
        assert [] + DropAdmin(rest, p) == DropAdmin(rest, p);
      } else {
        PrependAdmin(head, DropAdmin(rest, p));
      }
    }
  }

  /** What a put or remove grants its target. */
  predicate Grants(e: Event, roles: seq<string>) {
    e.kind == 9000 && roles != [] && FindTag(e.tags, "p").Some? && roles == RoleValues(FindTag(e.tags, "p").value)
  }

  lemma {:induction false} AdminStepContents(admins: seq<Admin>, e: Event, a: Admin)
    requires DistinctAdmins(admins) && (e.kind == 9000 || e.kind == 9001)
    ensures DistinctAdmins(AdminStep(admins, e))
    ensures a in AdminStep(admins, e) <==> if Target(e) == Some(a.pubkey) then Grants(e, a.roles) else a in admins
  {
    match Target(e) {
      case None =>
      case Some(p) =>
        DropAdminContents(admins, p);
        SetRolesContents(admins, Admin(p, RoleValues(FindTag(e.tags, "p").value)));
    }
  }

  lemma {:induction false} FoldWithoutTarget(start: seq<Admin>, events: Log, a: Admin)
    requires DistinctAdmins(start)
    requires forall e :: e in events ==> (e.kind == 9000 || e.kind == 9001) && Target(e) != Some(a.pubkey)
    ensures DistinctAdmins(Fold(start, events, AdminStep)) && (a in Fold(start, events, AdminStep) <==> a in start)
    decreases |events|
  {
    if events == [] {
    } else {
      AdminStepContents(start, events[0], a);
      FoldWithoutTarget(AdminStep(start, events[0]), events[1..], a);
    }
  }

  lemma {:induction false} LastTargetGrants(start: seq<Admin>, events: Log, a: Admin, j: nat)
    requires DistinctAdmins(start) && j < |events| && Target(events[j]) == Some(a.pubkey)
    requires forall i :: j < i < |events| ==> Target(events[i]) != Some(a.pubkey)
    requires forall e :: e in events ==> e.kind == 9000 || e.kind == 9001
    ensures DistinctAdmins(Fold(start, events, AdminStep))
    ensures a in Fold(start, events, AdminStep) <==> Grants(events[j], a.roles)
    decreases |events|
  {
    AdminStepContents(start, events[0], a);
    if j == 0 {
      FoldWithoutTarget(AdminStep(start, events[0]), events[1..], a);
    } else {
      LastTargetGrants(AdminStep(start, events[0]), events[1..], a, j - 1);
    }
  }

  /** The last entry for the admin's pubkey has its roles. */
  ghost predicate EntersWith(tags: seq<Tag>, a: Admin) {
    exists i: nat :: LastEntry(tags, a.pubkey, i) && a.roles == RoleValues(tags[i])
  }

  lemma {:induction false} EntersGrow(tags: seq<Tag>, a: Admin)
    requires tags != []
    ensures var n := |tags| - 1;
            EntersWith(tags, a) <==> if IsKey(a.pubkey) && EntryFor(tags[n], a.pubkey) then a.roles == RoleValues(tags[n])
                                     else EntersWith(tags[..n], a)
  {
    var n := |tags| - 1;
    LastEntryGrows(tags, a.pubkey);
    if IsKey(a.pubkey) && EntryFor(tags[n], a.pubkey) {
      assert LastEntry(tags, a.pubkey, n);
    } else {
      forall i: nat
        ensures LastEntry(tags, a.pubkey, i) && a.roles == RoleValues(tags[i]) <==>
                LastEntry(tags[..n], a.pubkey, i) && a.roles == RoleValues(tags[..n][i])
      {
        if i < n { assert tags[..n][i] == tags[i]; }
      }
    }
  }

  lemma {:induction false} ListedAdminsAre(tags: seq<Tag>, a: Admin)
    ensures DistinctAdmins(ListedAdmins(tags))
    ensures a in ListedAdmins(tags) <==> EntersWith(tags, a)
    decreases |tags|
  {
    if tags == [] {
    } else {
      var n := |tags| - 1;
      ListedAdminsAre(tags[..n], a);
      EntersGrow(tags, a);
      if |tags[n]| >= 2 {
        KeysAndIds(tags[n][1]);
        SetRolesContents(ListedAdmins(tags[..n]), Admin(tags[n][1], RoleValues(tags[n])));
      }
    }
  }

  lemma {:induction false} LastEntryGrows(tags: seq<Tag>, p: string)
    requires tags != []
    ensures var n := |tags| - 1;
            forall i: nat :: LastEntry(tags, p, i) <==>
              if IsKey(p) && EntryFor(tags[n], p) then i == n else i < n && LastEntry(tags[..n], p, i)
  {
  }

  /** Such an event gives its target these roles, which are the non-empty values after the pubkey in its first p tag. */
  ghost predicate GivesRoles(e: Event, roles: seq<string>) {
    e.kind == 9000 && roles != [] && exists i: nat :: FirstNamed(e.tags, "p", i) && AreRoles(roles, e.tags[i])
  }

  lemma {:induction false} GrantsAre(e: Event, p: string, roles: seq<string>)
    requires IsAbout(e, p)
    ensures Grants(e, roles) <==> GivesRoles(e, roles)
  {
    FindTagIsFirst(e.tags, "p");
    var i: nat :| FirstNamed(e.tags, "p", i) && |e.tags[i]| >= 2 && e.tags[i][1] == p;
    forall j: nat | FirstNamed(e.tags, "p", j) ensures j == i { FirstIsUnique(e.tags, "p", i, j); }
    RolesAre(e.tags[i], roles);
  }

  /** The newest admins snapshot lists the pubkey, last with these roles, which may be none. */
  ghost predicate ListedWith(scoped: Log, p: string, roles: seq<string>) {
    exists snap, i: nat :: NewestSnapshot(scoped, 39001, snap) && LastEntry(snap.tags, p, i) && AreRoles(roles, snap.tags[i])
  }

  lemma {:induction false} SnapshotAdminsAre(scoped: Log, a: Admin)
    requires Consistent(scoped)
    ensures DistinctAdmins(SnapshotAdmins(LatestSnapshot(scoped, 39001)))
    ensures a in SnapshotAdmins(LatestSnapshot(scoped, 39001)) <==> ListedWith(scoped, a.pubkey, a.roles)
  {
    var snapshot := LatestSnapshot(scoped, 39001);
    forall snap ensures snapshot == Some(snap) <==> NewestSnapshot(scoped, 39001, snap) { NewestIsLatest(scoped, 39001, snap); }
    if snapshot.Some? {
      var tags := snapshot.value.tags;
      ListedAdminsAre(tags, a);
      forall i: nat | LastEntry(tags, a.pubkey, i)
        ensures a.roles == RoleValues(tags[i]) <==> AreRoles(a.roles, tags[i])
      {
        RolesAre(tags[i], a.roles);
      }
    }
  }

  /**
    * Who is an admin with which roles: a pubkey whose last counted put or remove is a put with roles, and one without
    * any that the newest admins snapshot lists.  Nobody is listed twice.
    */
  lemma {:induction false} AdminsAre(events: Log, groupId: Option<string>, a: Admin)
    requires Consistent(events) && Scoped(events, groupId).Ok?
    ensures var scoped := Scoped(events, groupId).value;
            var admins := ReduceGroupAdmins(events, groupId);
            && admins.Ok? && DistinctAdmins(admins.value)
            && (a in admins.value <==>
                 || (exists e :: LastWord(scoped, 39001, a.pubkey, e) && GivesRoles(e, a.roles))
                 || ((forall e :: !LastWord(scoped, 39001, a.pubkey, e)) && ListedWith(scoped, a.pubkey, a.roles)))
  {
    var scoped := Scoped(events, groupId).value;
    var snapshot := LatestSnapshot(scoped, 39001);
    SnapshotAdminsAre(scoped, a);
    AdminOfModeration(scoped, a, SnapshotAdmins(snapshot));
  }

  lemma {:induction false} AdminOfModeration(scoped: Log, a: Admin, start: seq<Admin>)
    requires Consistent(scoped) && DistinctAdmins(start)
    ensures var admins := Fold(start, Moderation(scoped, LatestSnapshot(scoped, 39001)), AdminStep);
            && DistinctAdmins(admins)
            && (a in admins <==>
                 || (exists e :: LastWord(scoped, 39001, a.pubkey, e) && GivesRoles(e, a.roles))
                 || ((forall e :: !LastWord(scoped, 39001, a.pubkey, e)) && a in start))
  {
    var snapshot := LatestSnapshot(scoped, 39001);
    var moderation := Moderation(scoped, snapshot);
    ModerationContents(scoped, snapshot);
    var j := LastWordIs(scoped, 39001, a.pubkey);
    if j >= 0 {
      LastTargetGrants(start, moderation, a, j);
      assert LastWord(scoped, 39001, a.pubkey, moderation[j]);
      GrantsAre(moderation[j], a.pubkey, a.roles);
    } else {
      FoldWithoutTarget(start, moderation, a);
    }
  }

  // ---------------------------------------------------------------- membership status

  /** A request by the pubkey, or a put or remove whose first p tag names it. */
  ghost predicate Concerns(e: Event, p: string) {
    || ((e.kind == 9021 || e.kind == 9022) && e.pubkey == p)
    || ((e.kind == 9000 || e.kind == 9001) && HasValue(e.tags, "p", p))
  }

  ghost predicate NewestConcern(scoped: Log, p: string, e: Event) {
    e in scoped && Concerns(e, p) && forall x :: x in scoped && Concerns(x, p) ==> x == e || Later(e, x)
  }

  lemma {:induction false} LatestRelevantIs(scoped: Log, p: string, e: Event)
    requires Consistent(scoped)
    ensures LatestRelevant(scoped, p) == Some(e) <==> NewestConcern(scoped, p, e)
  {
    var relevant := Filter(scoped, x => Relevant(x, p));
    LatestIsLast(relevant);
    forall x ensures Relevant(x, p) <==> Concerns(x, p) { ValueIs(x.tags, "p", p); }
    assert forall x :: x in relevant <==> x in scoped && Concerns(x, p);
    if relevant != [] {
      var latest := Latest(relevant).value;
      assert latest in relevant;
      assert forall x :: x in relevant && x != latest ==> x.id != latest.id;
    }
  }

  /**
    * Which status a pubkey has: it is granted for members and if its newest concern is a put, pending for others if
    * that is a request to join, and otherwise initial.  It fails exactly for no pubkey and for a log out of scope.
    */
  lemma {:induction false} StatusIs(events: Log, p: string, groupId: Option<string>)
    requires Consistent(events)
    ensures ReduceGroupMembershipStatus(events, p, groupId).Ok? <==> IsKey(p) && Scoped(events, groupId).Ok?
    ensures ReduceGroupMembershipStatus(events, p, groupId).Ok? ==>
              var scoped := Scoped(events, groupId).value;
              var status := ReduceGroupMembershipStatus(events, p, groupId).value;
              var isMember := p in ReduceGroupMembers(events, groupId).value;
              && (status == Granted <==> isMember || exists e :: NewestConcern(scoped, p, e) && e.kind == 9000)
              && (status == Status.Pending <==> !isMember && exists e :: NewestConcern(scoped, p, e) && e.kind == 9021)
  {
    KeysAndIds(p);
    if IsKey(p) && Scoped(events, groupId).Ok? {
      var scoped := Scoped(events, groupId).value;
      if groupId.Some? { OneGroupIsNotMixed(events, groupId.value); }
      var latest := LatestRelevant(scoped, p);
      forall e ensures latest == Some(e) <==> NewestConcern(scoped, p, e) { LatestRelevantIs(scoped, p, e); }
      if latest.Some? { assert NewestConcern(scoped, p, latest.value); }
    }
  }
}
