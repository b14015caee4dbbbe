/**
  * Nostr events, the orders the library sorts them by, and sorting itself.
  *
  * Event ids are 64-digit lower-case hex strings; on those, string order is the order of the
  * numbers they denote, so an id is modelled by that number.
  */
module Events {
  import opened Wrappers

  type Tag = seq<string>

  datatype Event = Event(id: nat, pubkey: string, createdAt: int, kind: nat, tags: seq<Tag>)

  predicate Named(tag: Tag, name: string) {
    tag != [] && tag[0] == name
  }

  /** The first tag of that name. */
  function FindTag(tags: seq<Tag>, name: string): Option<Tag> {
    if tags == [] then None else if Named(tags[0], name) then Some(tags[0]) else FindTag(tags[1..], name)
  }

  /** Delivery order: newest first, lowest id first on ties. */
  predicate NewestFirst(a: Event, b: Event) {
    a.createdAt > b.createdAt || (a.createdAt == b.createdAt && a.id <= b.id)
  }

  /** Log order: oldest first, lowest id first on ties. */
  predicate OldestFirst(a: Event, b: Event) {
    a.createdAt < b.createdAt || (a.createdAt == b.createdAt && a.id <= b.id)
  }

  /** Reverse log order. */
  predicate LatestFirst(a: Event, b: Event) {
    OldestFirst(b, a)
  }

  /** An id determines its event. */
  ghost predicate UniqueIds(events: set<Event>) {
    forall a, b :: a in events && b in events && a.id == b.id ==> a == b
  }

  ghost predicate Ordered(events: seq<Event>, leq: (Event, Event) -> bool) {
    forall i, j :: 0 <= i < j < |events| ==> leq(events[i], events[j])
  }

  ghost predicate IsOrder(leq: (Event, Event) -> bool) {
    && (forall a, b :: leq(a, b) || leq(b, a))
    && (forall a, b, c :: leq(a, b) && leq(b, c) ==> leq(a, c))
  }

  lemma TheOrders()
    ensures IsOrder(NewestFirst) && IsOrder(OldestFirst) && IsOrder(LatestFirst)
  {
  }

  /** A stable sort, as Array.prototype.sort with a consistent comparator. */
  function Sort(events: seq<Event>, leq: (Event, Event) -> bool): (r: seq<Event>)
    ensures multiset(r) == multiset(events)
  {
    if events == [] then [] else
    assert events == [events[0]] + events[1..];
    Insert(events[0], Sort(events[1..], leq), leq)
  }

  function Insert(e: Event, sorted: seq<Event>, leq: (Event, Event) -> bool): (r: seq<Event>)
    ensures multiset(r) == multiset{e} + multiset(sorted)
  {
    if sorted == [] || leq(e, sorted[0]) then [e] + sorted
    else
      assert sorted == [sorted[0]] + sorted[1..];
      [sorted[0]] + Insert(e, sorted[1..], leq)
  }

  lemma {:induction false} InsertOrdered(e: Event, sorted: seq<Event>, leq: (Event, Event) -> bool)
    requires IsOrder(leq) && Ordered(sorted, leq)
    ensures Ordered(Insert(e, sorted, leq), leq)
  {
    if sorted != [] && !leq(e, sorted[0]) {
      InsertOrdered(e, sorted[1..], leq);
      var rest := Insert(e, sorted[1..], leq);
      forall i | 0 <= i < |rest| ensures leq(sorted[0], rest[i]) {
        assert rest[i] in multiset(rest);
        assert rest[i] == e || rest[i] in sorted[1..];
      }
    } else if sorted != [] {
      forall j | 0 <= j < |sorted| ensures leq(e, sorted[j]) {
        assert j == 0 || leq(sorted[0], sorted[j]);
      }
    }
  }

  /** Sorting yields the same events, in order. */
  lemma {:induction false} SortOrdered(events: seq<Event>, leq: (Event, Event) -> bool)
    requires IsOrder(leq)
    ensures Ordered(Sort(events, leq), leq)
  {
    if events == [] {
    } else {
      SortOrdered(events[1..], leq);
      InsertOrdered(events[0], Sort(events[1..], leq), leq);
    }
  }

  lemma {:induction false} SortSameElements(events: seq<Event>, leq: (Event, Event) -> bool)
    ensures forall e :: e in Sort(events, leq) <==> e in events
  {
    forall e ensures e in Sort(events, leq) <==> e in events {
      assert e in multiset(Sort(events, leq)) <==> e in multiset(events);
    }
  }

  /** Sorting a log whose first part precedes the second sorts the parts. */
  lemma {:induction false} SortConcat(xs: seq<Event>, ys: seq<Event>)
    requires forall x, y :: x in xs && y in ys ==> OldestFirst(x, y)
    ensures Sort(xs + ys, OldestFirst) == Sort(xs, OldestFirst) + Sort(ys, OldestFirst)
    decreases |xs|
  {
    if xs == [] {
      assert xs + ys == ys;
    } else {
      assert (xs + ys)[1..] == xs[1..] + ys;
      SortConcat(xs[1..], ys);
      SortSameElements(ys, OldestFirst);
      InsertBefore(xs[0], Sort(xs[1..], OldestFirst), Sort(ys, OldestFirst));
    }
  }

  lemma {:induction false} InsertBefore(e: Event, xs: seq<Event>, ys: seq<Event>)
    requires forall y :: y in ys ==> OldestFirst(e, y)
    ensures Insert(e, xs + ys, OldestFirst) == Insert(e, xs, OldestFirst) + ys
    decreases |xs|
  {
    if xs == [] {
      assert xs + ys == ys;
    } else {
      assert (xs + ys)[1..] == xs[1..] + ys;
      if !OldestFirst(e, xs[0]) {
        InsertBefore(e, xs[1..], ys);
        assert [xs[0]] + (Insert(e, xs[1..], OldestFirst) + ys) == [xs[0]] + Insert(e, xs[1..], OldestFirst) + ys;
      }
    }
  }
}
