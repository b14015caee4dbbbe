/**
  * The relay's stores of latest replaceable and addressable events, bounded by eviction of the
  * key with the oldest access time, and the client's lookup across several relays.
  *
  * Access times come from a strictly increasing clock.
  */
module RelayStores {
  import opened Wrappers
  import opened Events
  import opened AccessTimes

  const MaxAddressableEvents: nat := 50000
  const MaxReplaceablePubkeys: nat := 10000
  const MaxReplaceableKinds: nat := 50

  // ---------------------------------------------------------------- a bounded store

  datatype Store<K, V> = Store(items: map<K, V>, times: map<K, nat>, clock: nat)

  function Touch<K, V>(s: Store<K, V>, k: K): Store<K, V> {
    s.(clock := s.clock + 1, times := s.times[k := s.clock + 1])
  }

  function Evict<K, V>(s: Store<K, V>, o: K): Store<K, V> {
    s.(items := s.items - {o}, times := s.times - {o})
  }

  /** Before storing under a new key at capacity, the key with the oldest access time goes. */
  ghost function MakeRoom<K(!new), V>(s: Store<K, V>, k: K, cap: nat): Store<K, V> {
    if k !in s.items && |s.items| >= cap && s.times != map[] then Evict(s, Oldest(s.times)) else s
  }

  function Put<K, V>(s: Store<K, V>, k: K, v: V): Store<K, V> {
    s.(items := s.items[k := v])
  }

  /** Every stored key has an access time, and access times are distinct and in the past. */
  ghost predicate Tracked<K(!new), V>(s: Store<K, V>) {
    s.items.Keys <= s.times.Keys && FromClock(s.times, s.clock)
  }

  /** Keys that were read while missing: they have an access time but no entry. */
  function Phantoms<K, V>(s: Store<K, V>): set<K> {
    s.times.Keys - s.items.Keys
  }

  lemma {:induction false} TouchKeepsTracked<K(!new), V>(s: Store<K, V>, k: K)
    requires Tracked(s)
    ensures Tracked(Touch(s, k))
    ensures forall j :: j in s.times && j != k ==> s.times[j] < Touch(s, k).times[k]
  {
  }

  /** The key just touched is the newest, so with room for one key it is never the one evicted. */
  lemma {:induction false} OldestIsAnother<K(!new), V>(s: Store<K, V>, k: K, cap: nat)
    requires Tracked(s) && k !in s.items && |s.items| >= cap >= 1
    ensures var t := Touch(s, k); t.times != map[] && Oldest(t.times) != k && Oldest(t.times) in s.times
  {
    var t := Touch(s, k);
    assert k in t.times;
    var j :| j in s.items;
    assert j in t.times && t.times[j] < t.times[k];
  }

  lemma {:induction false} MakeRoomKeepsTracked<K(!new), V>(s: Store<K, V>, k: K, cap: nat)
    requires Tracked(s) && cap >= 1
    ensures var r := MakeRoom(Touch(s, k), k, cap); Tracked(r) && k in r.times && (k in s.items <==> k in r.items)
  {
    TouchKeepsTracked(s, k);
    if k !in s.items && |s.items| >= cap { OldestIsAnother(s, k, cap); }
  }

  /** An insertion at capacity takes out the key with the oldest access time, never the inserted one, and no other. */
  lemma {:induction false} InsertionEvictsOldest<K(!new), V>(s: Store<K, V>, k: K, v: V, cap: nat)
    requires Tracked(s) && k !in s.items && |s.items| >= cap >= 1
    ensures var t := Put(MakeRoom(Touch(s, k), k, cap), k, v);
            exists o :: o in s.times && o != k && (forall j :: j in s.times && j != k ==> s.times[o] <= s.times[j])
                     && t.items == (s.items - {o})[k := v]
  {
    OldestIsAnother(s, k, cap);
    var o := Oldest(Touch(s, k).times);
    forall j | j in s.times && j != k ensures s.times[o] <= s.times[j] {
      assert j in Touch(s, k).times && Touch(s, k).times[j] == s.times[j];
    }
  }

  // ---------------------------------------------------------------- the size bound

  datatype Use<K, V> = Write(key: K, value: V) | Read(key: K) | Clear

  ghost function Next<K(!new), V>(s: Store<K, V>, u: Use<K, V>, cap: nat): Store<K, V> {
    match u
    case Write(k, v) => Put(MakeRoom(Touch(s, k), k, cap), k, v)
    case Read(k) => Touch(s, k)
    case Clear => Store(map[], map[], s.clock)
  }

  /** A read that gives a missing key an access time. */
  predicate CreatesPhantom<K, V>(s: Store<K, V>, u: Use<K, V>) {
    u.Read? && u.key !in s.items && u.key !in s.times
  }

  ghost function Run<K(!new), V>(s: Store<K, V>, uses: seq<Use<K, V>>, cap: nat): Store<K, V>
    decreases |uses|
  {
    if uses == [] then s else Run(Next(s, uses[0], cap), uses[1..], cap)
  }

  ghost function Created<K(!new), V>(s: Store<K, V>, uses: seq<Use<K, V>>, cap: nat): nat
    decreases |uses|
  {
    if uses == [] then 0
    else (if CreatesPhantom(s, uses[0]) then 1 else 0) + Created(Next(s, uses[0], cap), uses[1..], cap)
  }

  /** The size stays within the cap plus the phantoms created so far and no longer present. */
  ghost predicate Bounded<K(!new), V>(s: Store<K, V>, cap: nat, created: nat) {
    && Tracked(s)
    && |s.items| + |Phantoms(s)| <= cap + created
    && |Phantoms(s)| <= created
  }

  lemma {:induction false} SetRemove<K>(a: set<K>, x: K)
    ensures |a - {x}| == if x in a then |a| - 1 else |a|
  {
    if x !in a { assert a - {x} == a; }
  }

  lemma {:induction false} KeyCount<K, V>(m: map<K, V>)
    ensures |m| == |m.Keys|
  {
  }

  lemma {:induction false} SetAddOutside<K>(a: set<K>, items: set<K>, k: K)
    ensures |(a + {k}) - items| == |a - items| + (if k in items || k in a then 0 else 1)
  {
    if k in items || k in a {
      assert (a + {k}) - items == a - items;
    } else {
      assert (a + {k}) - items == (a - items) + {k};
    }
  }

  lemma {:induction false} TouchCounts<K(!new), V>(s: Store<K, V>, k: K)
    ensures |Phantoms(Touch(s, k))| == |Phantoms(s)| + (if k in s.items || k in s.times then 0 else 1)
  {
    SetAddOutside(s.times.Keys, s.items.Keys, k);
    assert Touch(s, k).times.Keys == s.times.Keys + {k};
  }

  lemma {:induction false} ReadKeepsBounded<K(!new), V>(s: Store<K, V>, k: K, cap: nat, created: nat)
    requires Bounded(s, cap, created)
    ensures Bounded(Touch(s, k), cap, created + if CreatesPhantom(s, Read(k)) then 1 else 0)
  {
    TouchKeepsTracked(s, k);
    TouchCounts(s, k);
  }

  lemma {:induction false} EvictItems<K(!new), V>(s: Store<K, V>, o: K)
    ensures |Evict(s, o).items| == (if o in s.items then |s.items| - 1 else |s.items|)
  {
    var e := Evict(s, o);
    KeyCount(s.items);
    KeyCount(e.items);
    SetRemove(s.items.Keys, o);
    assert e.items.Keys == s.items.Keys - {o};
  }

  lemma {:induction false} EvictPhantoms<K(!new), V>(s: Store<K, V>, o: K)
    requires o in s.times
    ensures |Phantoms(Evict(s, o))| == (if o in s.items then |Phantoms(s)| else |Phantoms(s)| - 1)
  {
    SetRemove(Phantoms(s), o);
    assert Phantoms(Evict(s, o)) == Phantoms(s) - {o};
  }

  lemma {:induction false} InsertCounts<K(!new), V>(s: Store<K, V>, k: K, v: V)
    requires k in s.times
    ensures var p := Put(s, k, v);
            if k in s.items then |p.items| == |s.items| && Phantoms(p) == Phantoms(s)
            else |p.items| == |s.items| + 1 && |Phantoms(p)| == |Phantoms(s)| - 1
  {
    var p := Put(s, k, v);
    KeyCount(s.items);
    KeyCount(p.items);
    if k in s.items {
      assert p.items.Keys == s.items.Keys;
    } else {
      assert p.items.Keys == s.items.Keys + {k};
      SetRemove(Phantoms(s), k);
      assert Phantoms(p) == Phantoms(s) - {k};
    }
  }

  /** Making room costs one entry or one phantom, and only at capacity. */
  lemma {:induction false} MakeRoomCounts<K(!new), V>(s: Store<K, V>, k: K, cap: nat)
    requires Tracked(s) && cap >= 1
    ensures var t := Touch(s, k);
            var r := MakeRoom(t, k, cap);
            if k in s.items || |s.items| < cap then r == t
            else |r.items| + |Phantoms(r)| == |s.items| + |Phantoms(t)| - 1 && |Phantoms(r)| <= |Phantoms(t)|
  {
    if k !in s.items && |s.items| >= cap {
      OldestIsAnother(s, k, cap);
      EvictItems(Touch(s, k), Oldest(Touch(s, k).times));
      EvictPhantoms(Touch(s, k), Oldest(Touch(s, k).times));
    }
  }

  lemma {:induction false} WriteCounts<K(!new), V>(s: Store<K, V>, k: K, v: V, cap: nat)
    requires Tracked(s) && cap >= 1
    ensures var n := Next(s, Write(k, v), cap);
            && |Phantoms(n)| <= |Phantoms(s)|
            && (|n.items| + |Phantoms(n)| <= |s.items| + |Phantoms(s)| || (|n.items| <= cap && |n.items| == |s.items| + 1))
  {
    TouchCounts(s, k);
    MakeRoomKeepsTracked(s, k, cap);
    MakeRoomCounts(s, k, cap);
    InsertCounts(MakeRoom(Touch(s, k), k, cap), k, v);
  }

  lemma {:induction false} WriteKeepsBounded<K(!new), V>(s: Store<K, V>, k: K, v: V, cap: nat, created: nat)
    requires Bounded(s, cap, created) && cap >= 1
    ensures Bounded(Next(s, Write(k, v), cap), cap, created)
  {
    WriteCounts(s, k, v, cap);
    MakeRoomKeepsTracked(s, k, cap);
    PutKeepsTracked(MakeRoom(Touch(s, k), k, cap), k, v);
  }

  lemma {:induction false} PutKeepsTracked<K(!new), V>(s: Store<K, V>, k: K, v: V)
    requires Tracked(s) && k in s.times
    ensures Tracked(Put(s, k, v))
  {
  }

  lemma {:induction false} NextKeepsBounded<K(!new), V>(s: Store<K, V>, u: Use<K, V>, cap: nat, created: nat)
    requires Bounded(s, cap, created) && cap >= 1
    ensures Bounded(Next(s, u, cap), cap, created + if CreatesPhantom(s, u) then 1 else 0)
  {
    match u {
      case Write(k, v) => WriteKeepsBounded(s, k, v, cap, created);
      case Read(k) => ReadKeepsBounded(s, k, cap, created);
      case Clear => assert Phantoms(Next(s, u, cap)) == {};
    }
  }

  lemma {:induction false} RunKeepsBounded<K(!new), V>(s: Store<K, V>, uses: seq<Use<K, V>>, cap: nat, created: nat)
    requires Bounded(s, cap, created) && cap >= 1
    ensures Bounded(Run(s, uses, cap), cap, created + Created(s, uses, cap))
    decreases |uses|
  {
    if uses == [] {
    } else {
      NextKeepsBounded(s, uses[0], cap, created);
      RunKeepsBounded(Next(s, uses[0], cap), uses[1..], cap, created + if CreatesPhantom(s, uses[0]) then 1 else 0);
    }
  }

  /**
    * The bound over all runs: at most cap entries plus one for every read that created an access time for a missing
    * key, less those still present; so at most cap when missing keys are never read.
    */
  lemma {:induction false} StoreIsBounded<K(!new), V>(uses: seq<Use<K, V>>, cap: nat)
    requires cap >= 1
    ensures var empty: Store<K, V> := Store(map[], map[], 0);
            var s := Run(empty, uses, cap);
            && s.items.Keys <= s.times.Keys
            && |s.items| <= cap + Created(empty, uses, cap) - |Phantoms(s)|
            && (Created(empty, uses, cap) == 0 ==> |s.items| <= cap)
  {
    var empty: Store<K, V> := Store(map[], map[], 0);
    assert Phantoms(empty) == {};
    RunKeepsBounded(empty, uses, cap, 0);
  }

  // ---------------------------------------------------------------- the bound is attained

  function ReadAll<K, V>(keys: seq<K>): seq<Use<K, V>> {
    if keys == [] then [] else [Read(keys[0])] + ReadAll(keys[1..])
  }

  function WriteAll<K, V>(keys: seq<K>, value: V): seq<Use<K, V>> {
    if keys == [] then [] else [Write(keys[0], value)] + WriteAll(keys[1..], value)
  }

  ghost predicate Distinct<K(!new)>(keys: seq<K>) {
    forall i, j :: 0 <= i < j < |keys| ==> keys[i] != keys[j]
  }

  /** Whatever was read while missing is older than everything stored. */
  ghost predicate PhantomsFirst<K(!new), V>(s: Store<K, V>) {
    Tracked(s) && forall j, k :: j in Phantoms(s) && k in s.items ==> s.times[j] < s.times[k]
  }

  lemma {:induction false} TailIsDistinct<K(!new)>(keys: seq<K>)
    requires Distinct(keys) && keys != []
    ensures Distinct(keys[1..]) && keys[0] !in keys[1..]
  {
  }

  lemma {:induction false} ReadFirst<K(!new), V>(s: Store<K, V>, keys: seq<K>, cap: nat)
    requires keys != [] && keys[0] !in s.times && keys[0] !in s.items
    ensures Run(s, ReadAll(keys), cap) == Run(Touch(s, keys[0]), ReadAll(keys[1..]), cap)
    ensures Created(s, ReadAll(keys), cap) == 1 + Created(Touch(s, keys[0]), ReadAll(keys[1..]), cap)
  {
    assert ReadAll<K, V>(keys)[1..] == ReadAll(keys[1..]);
  }

  lemma {:induction false} ReadsLeavePhantoms<K(!new), V>(s: Store<K, V>, keys: seq<K>, cap: nat)
    requires Tracked(s) && s.items == map[] && Distinct(keys) && forall k :: k in keys ==> k !in s.times
    ensures var t := Run(s, ReadAll(keys), cap);
            && Tracked(t) && t.items == map[] && |Phantoms(t)| == |Phantoms(s)| + |keys|
            && forall k :: k in t.times ==> k in s.times || k in keys
    ensures Created(s, ReadAll(keys), cap) == |keys|
    decreases |keys|
  {
    if keys == [] {
    } else {
      var k, rest := keys[0], keys[1..];
      assert keys == [k] + rest;
      TailIsDistinct(keys);
      ReadFirst(s, keys, cap);
      TouchKeepsTracked(s, k);
      TouchCounts(s, k);
      ReadsLeavePhantoms(Touch(s, k), rest, cap);
    }
  }

  /** A new key is stored without loss of an entry while there is room or a phantom to evict. */
  lemma {:induction false} WriteAdds<K(!new), V>(s: Store<K, V>, k: K, v: V, cap: nat)
    requires PhantomsFirst(s) && k !in s.times && (|s.items| < cap || Phantoms(s) != {})
    ensures var n := Next(s, Write(k, v), cap);
            && PhantomsFirst(n) && |n.items| == |s.items| + 1
            && |Phantoms(n)| == |Phantoms(s)| - (if |s.items| < cap then 0 else 1)
            && forall j :: j in n.times ==> j in s.times || j == k
  {
    if |s.items| < cap { WriteFits(s, k, v); } else { WriteEvictsPhantom(s, k, v); }
  }

  /** The key about to be stored was touched last. */
  ghost predicate Ready<K(!new), V>(s: Store<K, V>, k: K) {
    && Tracked(s) && k in s.times && k !in s.items
    && (forall j :: j in s.times && j != k ==> s.times[j] < s.times[k])
    && (forall j, i :: j in s.times && j !in s.items && j != k && i in s.items ==> s.times[j] < s.times[i])
  }

  lemma {:induction false} TouchReady<K(!new), V>(s: Store<K, V>, k: K)
    requires PhantomsFirst(s) && k !in s.times
    ensures Ready(Touch(s, k), k)
  {
    TouchKeepsTracked(s, k);
    forall j, i | j in s.times && j !in s.items && i in s.items ensures s.times[j] < s.times[i] {
      assert j in Phantoms(s);
    }
  }

  lemma {:induction false} EvictReady<K(!new), V>(s: Store<K, V>, k: K, o: K)
    requires Ready(s, k) && o != k
    ensures Ready(Evict(s, o), k)
  {
  }

  lemma {:induction false} PutFirst<K(!new), V>(s: Store<K, V>, k: K, v: V)
    requires Ready(s, k)
    ensures PhantomsFirst(Put(s, k, v))
  {
    PutKeepsTracked(s, k, v);
    var p := Put(s, k, v);
    forall j, i | j in Phantoms(p) && i in p.items ensures p.times[j] < p.times[i] {
      assert j in s.times && j !in s.items && j != k;
    }
  }

  lemma {:induction false} WriteFits<K(!new), V>(s: Store<K, V>, k: K, v: V)
    requires PhantomsFirst(s) && k !in s.times && k !in s.items
    ensures var n := Put(Touch(s, k), k, v);
            PhantomsFirst(n) && |n.items| == |s.items| + 1 && |Phantoms(n)| == |Phantoms(s)|
  {
    TouchCounts(s, k);
    TouchReady(s, k);
    PutFirst(Touch(s, k), k, v);
    InsertCounts(Touch(s, k), k, v);
  }

  lemma {:induction false} WriteEvictsPhantom<K(!new), V>(s: Store<K, V>, k: K, v: V)
    requires PhantomsFirst(s) && k !in s.times && k !in s.items && Phantoms(s) != {}
    ensures var t := Touch(s, k);
            t.times != map[] &&
            var n := Put(Evict(t, Oldest(t.times)), k, v);
            PhantomsFirst(n) && |n.items| == |s.items| + 1 && |Phantoms(n)| == |Phantoms(s)| - 1
  {
    OldestIsPhantom(s, k);
    EvictThenPut(s, k, v, Oldest(Touch(s, k).times));
  }

  lemma {:induction false} EvictThenPut<K(!new), V>(s: Store<K, V>, k: K, v: V, o: K)
    requires PhantomsFirst(s) && k !in s.times && k !in s.items && o in Phantoms(s)
    ensures var n := Put(Evict(Touch(s, k), o), k, v);
            PhantomsFirst(n) && |n.items| == |s.items| + 1 && |Phantoms(n)| == |Phantoms(s)| - 1
  {
    var t := Touch(s, k);
    TouchCounts(s, k);
    TouchReady(s, k);
    EvictReady(t, k, o);
    EvictItems(t, o);
    EvictPhantoms(t, o);
    PutFirst(Evict(t, o), k, v);
    InsertCounts(Evict(t, o), k, v);
  }

  lemma {:induction false} OldestIsPhantom<K(!new), V>(s: Store<K, V>, k: K)
    requires PhantomsFirst(s) && k !in s.times && Phantoms(s) != {}
    ensures var t := Touch(s, k); t.times != map[] && Oldest(t.times) in Phantoms(s)
  {
    var t := Touch(s, k);
    TouchKeepsTracked(s, k);
    var j :| j in Phantoms(s);
    assert j in t.times && t.times[j] < t.times[k];
    var o := Oldest(t.times);
    assert t.times[o] <= t.times[j];
  }

  lemma {:induction false} WritesFill<K(!new), V>(s: Store<K, V>, keys: seq<K>, v: V, cap: nat)
    requires PhantomsFirst(s) && Distinct(keys) && forall k :: k in keys ==> k !in s.times
    requires |keys| <= |Phantoms(s)| + if |s.items| < cap then cap - |s.items| else 0
    ensures |Run(s, WriteAll(keys, v), cap).items| == |s.items| + |keys|
    ensures Created(s, WriteAll(keys, v), cap) == 0
    decreases |keys|
  {
    if keys == [] {
    } else {
      var n := Next(s, Write(keys[0], v), cap);
      assert WriteAll(keys, v)[1..] == WriteAll(keys[1..], v);
      WriteAdds(s, keys[0], v, cap);
      WritesFill(n, keys[1..], v, cap);
    }
  }

  lemma {:induction false} RunJoin<K(!new), V>(s: Store<K, V>, xs: seq<Use<K, V>>, ys: seq<Use<K, V>>, cap: nat)
    ensures Run(s, xs + ys, cap) == Run(Run(s, xs, cap), ys, cap)
    ensures Created(s, xs + ys, cap) == Created(s, xs, cap) + Created(Run(s, xs, cap), ys, cap)
    decreases |xs|
  {
    if xs == [] {
      assert xs + ys == ys;
    } else {
      assert (xs + ys)[1..] == xs[1..] + ys;
      RunJoin(Next(s, xs[0], cap), xs[1..], ys, cap);
    }
  }

  /** Reading n missing keys and then writing cap + n others leaves cap + n entries: the bound cannot be lowered. */
  lemma {:induction false} BoundIsAttained<K(!new), V>(missing: seq<K>, written: seq<K>, v: V, cap: nat)
    requires Distinct(missing + written) && |written| == cap + |missing|
    ensures var empty: Store<K, V> := Store(map[], map[], 0);
            var uses := ReadAll(missing) + WriteAll(written, v);
            |Run(empty, uses, cap).items| == cap + |missing| && Created(empty, uses, cap) == |missing|
  {
    var empty: Store<K, V> := Store(map[], map[], 0);
    var all := missing + written;
    forall i, j | 0 <= i < j < |missing| ensures missing[i] != missing[j] { assert all[i] != all[j]; }
    forall i, j | 0 <= i < j < |written| ensures written[i] != written[j] {
      assert all[|missing| + i] != all[|missing| + j];
    }
    forall i, j | 0 <= i < |missing| && 0 <= j < |written| ensures missing[i] != written[j] {
      assert all[i] != all[|missing| + j];
    }
    ReadsLeavePhantoms(empty, missing, cap);
    WritesFill(Run(empty, ReadAll(missing), cap), written, v, cap);
    RunJoin(empty, ReadAll(missing), WriteAll(written, v), cap);
  }

  // ---------------------------------------------------------------- addressable events

  datatype Address = Address(kind: nat, pubkey: string, dValue: string)

  /** A d tag without a value reads as the text "undefined". */
  function AddressOf(e: Event): Address {
    var d := FindTag(e.tags, "d");
    Address(e.kind, e.pubkey, if d.None? then "" else if |d.value| < 2 then "undefined" else d.value[1])
  }

  predicate Better(a: Event, b: Event) {
    a.createdAt > b.createdAt || (a.createdAt == b.createdAt && a.id < b.id)
  }

  /** The latest of a set of events: greatest time, lowest id on ties. */
  ghost predicate IsBest(e: Event, events: set<Event>) {
    && e in events
    && forall x :: x in events ==>
         x == e || e.createdAt > x.createdAt || (e.createdAt == x.createdAt && e.id < x.id)
  }

  /** The d tag that counts is the first; without a value it reads as undefined. */
  ghost predicate HasD(e: Event, d: string) {
    || ((forall i :: 0 <= i < |e.tags| ==> !IsD(e.tags[i])) && d == "")
    || exists i :: 0 <= i < |e.tags| && IsD(e.tags[i]) && (forall j :: 0 <= j < i ==> !IsD(e.tags[j])) &&
         d == if |e.tags[i]| >= 2 then e.tags[i][1] else "undefined"
  }

  predicate IsD(tag: Tag) {
    |tag| > 0 && tag[0] == "d"
  }

  lemma {:induction false} FirstD(tags: seq<Tag>)
    ensures match FindTag(tags, "d")
            case None => forall i :: 0 <= i < |tags| ==> !IsD(tags[i])
            case Some(tag) => exists i :: 0 <= i < |tags| && IsD(tags[i]) && tag == tags[i] &&
                                forall j :: 0 <= j < i ==> !IsD(tags[j])
    decreases |tags|
  {
    if tags == [] {
    } else if IsD(tags[0]) {
    } else {
      FirstD(tags[1..]);
      if FindTag(tags[1..], "d").Some? {
        var i :| 0 <= i < |tags[1..]| && IsD(tags[1..][i]) && (forall j :: 0 <= j < i ==> !IsD(tags[1..][j]))
                 && FindTag(tags, "d").value == tags[1..][i];
        assert tags[i + 1] == tags[1..][i];
        assert forall j :: 1 <= j < i + 1 ==> tags[j] == tags[1..][j - 1];
      }
    }
  }

  /** Two events share an address exactly if they share kind, pubkey and d value. */
  lemma {:induction false} AddressesAre(e: Event, d: string)
    ensures AddressOf(e) == Address(e.kind, e.pubkey, d) <==> HasD(e, d)
    ensures AddressOf(e).kind == e.kind && AddressOf(e).pubkey == e.pubkey
  {
    FirstD(e.tags);
  }

  type AddressStore = Store<Address, Event>

  datatype AddressStep = Process(event: Event) | Lookup(address: Address) | Reset

  function Keep(s: AddressStore, e: Event): Event {
    var k := AddressOf(e);
    if k in s.items && !Better(e, s.items[k]) then s.items[k] else e
  }

  function UseOf(s: AddressStore, step: AddressStep): Use<Address, Event> {
    match step
    case Process(e) => Write(AddressOf(e), Keep(s, e))
    case Lookup(k) => Read(k)
    case Reset => Clear
  }

  ghost function NextAddress(s: AddressStore, step: AddressStep): AddressStore {
    Next(s, UseOf(s, step), MaxAddressableEvents)
  }

  ghost function RunAddress(s: AddressStore, steps: seq<AddressStep>): AddressStore
    decreases |steps|
  {
    if steps == [] then s else RunAddress(NextAddress(s, steps[0]), steps[1..])
  }

  /** The store is never evicted or reset while it holds k. */
  ghost predicate KeepsAddress(s: AddressStore, steps: seq<AddressStep>, k: Address)
    decreases |steps|
  {
    steps != [] ==>
      var n := NextAddress(s, steps[0]);
      (k in s.items ==> k in n.items) && KeepsAddress(n, steps[1..], k)
  }

  ghost function ProcessedFor(steps: seq<AddressStep>, k: Address): set<Event> {
    set step | step in steps && step.Process? && AddressOf(step.event) == k :: step.event
  }

  /** s holds the best of `seen` for k, or nothing when nothing was seen. */
  ghost predicate HoldsBest(s: AddressStore, k: Address, seen: set<Event>) {
    if seen == {} then k !in s.items else k in s.items && IsBest(s.items[k], seen)
  }

  lemma {:induction false} BestWithOneMore(old': Event, e: Event, seen: set<Event>)
    requires IsBest(old', seen) && UniqueIds(seen + {e})
    ensures IsBest(if Better(e, old') then e else old', seen + {e})
  {
    assert e in seen + {e} && old' in seen + {e};
  }

  lemma {:induction false} OtherKeyUntouched(s: AddressStore, step: AddressStep, k: Address)
    requires Tracked(s) && !(step.Process? && AddressOf(step.event) == k)
    requires k in s.items ==> k in NextAddress(s, step).items
    ensures var n := NextAddress(s, step); (k in n.items <==> k in s.items) && (k in s.items ==> n.items[k] == s.items[k])
  {
  }

  lemma {:induction false} NextTracked(s: AddressStore, step: AddressStep)
    requires Tracked(s)
    ensures Tracked(NextAddress(s, step))
  {
    match step {
      case Process(e) =>
        MakeRoomKeepsTracked(s, AddressOf(e), MaxAddressableEvents);
        PutKeepsTracked(MakeRoom(Touch(s, AddressOf(e)), AddressOf(e), MaxAddressableEvents), AddressOf(e), Keep(s, e));
      case Lookup(k) => TouchKeepsTracked(s, k);
      case Reset =>
    }
  }

  lemma {:induction false} ProcessHoldsBest(s: AddressStore, e: Event, seen: set<Event>)
    requires Tracked(s) && HoldsBest(s, AddressOf(e), seen) && UniqueIds(seen + {e})
    ensures HoldsBest(NextAddress(s, Process(e)), AddressOf(e), seen + {e})
  {
    var k := AddressOf(e);
    var n := NextAddress(s, Process(e));
    assert n.items[k] == Keep(s, e);
    if seen != {} {
      BestWithOneMore(s.items[k], e, seen);
    } else {
      assert seen + {e} == {e};
    }
  }

  lemma {:induction false} ProcessedHead(steps: seq<AddressStep>, k: Address)
    requires steps != []
    ensures ProcessedFor(steps, k) ==
      (if steps[0].Process? && AddressOf(steps[0].event) == k then {steps[0].event} else {}) + ProcessedFor(steps[1..], k)
  {
    assert forall x :: x in steps <==> x == steps[0] || x in steps[1..];
  }

  lemma {:induction false} RunHoldsBest(s: AddressStore, steps: seq<AddressStep>, k: Address, seen: set<Event>)
    requires Tracked(s) && HoldsBest(s, k, seen) && KeepsAddress(s, steps, k)
    requires UniqueIds(seen + ProcessedFor(steps, k))
    ensures HoldsBest(RunAddress(s, steps), k, seen + ProcessedFor(steps, k))
    decreases |steps|
  {
    if steps == [] {
      assert seen + ProcessedFor(steps, k) == seen;
    } else {
      var step := steps[0];
      var n := NextAddress(s, step);
      NextTracked(s, step);
      ProcessedHead(steps, k);
      if step.Process? && AddressOf(step.event) == k {
        assert seen + ProcessedFor(steps, k) == seen + {step.event} + ProcessedFor(steps[1..], k);
        ProcessHoldsBest(s, step.event, seen);
        RunHoldsBest(n, steps[1..], k, seen + {step.event});
      } else {
        OtherKeyUntouched(s, step, k);
        RunHoldsBest(n, steps[1..], k, seen);
      }
    }
  }

  const NoAddresses: AddressStore := Store(map[], map[], 0)

  /**
    * Between evictions the stored event is the latest of all events processed for its address, in whatever order they
    * arrived and whatever else was processed or read meanwhile.
    */
  lemma {:induction false} AddressableKeepsLatest(steps: seq<AddressStep>, k: Address)
    requires KeepsAddress(NoAddresses, steps, k) && UniqueIds(ProcessedFor(steps, k))
    ensures var s := RunAddress(NoAddresses, steps);
            if ProcessedFor(steps, k) == {} then k !in s.items
            else k in s.items && IsBest(s.items[k], ProcessedFor(steps, k))
  {
    assert {} + ProcessedFor(steps, k) == ProcessedFor(steps, k);
    RunHoldsBest(NoAddresses, steps, k, {});
  }

  lemma {:induction false} BestIsUnique(a: Event, b: Event, events: set<Event>)
    requires IsBest(a, events) && IsBest(b, events)
    ensures a == b
  {
    assert a == b || (Better(a, b) && Better(b, a));
  }

  /** Two relays that processed the same events for an address agree on it. */
  lemma {:induction false} ArrivalOrderDoesNotMatter(xs: seq<AddressStep>, ys: seq<AddressStep>, k: Address)
    requires KeepsAddress(NoAddresses, xs, k) && KeepsAddress(NoAddresses, ys, k)
    requires ProcessedFor(xs, k) == ProcessedFor(ys, k) && UniqueIds(ProcessedFor(xs, k))
    ensures var s, t := RunAddress(NoAddresses, xs), RunAddress(NoAddresses, ys);
            (k in s.items <==> k in t.items) && (k in s.items ==> s.items[k] == t.items[k])
  {
    AddressableKeepsLatest(xs, k);
    AddressableKeepsLatest(ys, k);
    var s, t := RunAddress(NoAddresses, xs), RunAddress(NoAddresses, ys);
    if k in s.items { BestIsUnique(s.items[k], t.items[k], ProcessedFor(xs, k)); }
  }

  ghost function UsesOf(s: AddressStore, steps: seq<AddressStep>): seq<Use<Address, Event>>
    decreases |steps|
  {
    if steps == [] then [] else [UseOf(s, steps[0])] + UsesOf(NextAddress(s, steps[0]), steps[1..])
  }

  lemma {:induction false} AddressRunIsStoreRun(s: AddressStore, steps: seq<AddressStep>)
    ensures RunAddress(s, steps) == Run(s, UsesOf(s, steps), MaxAddressableEvents)
    decreases |steps|
  {
    if steps == [] {
    } else {
      AddressRunIsStoreRun(NextAddress(s, steps[0]), steps[1..]);
    }
  }

  /** The addressable store obeys the size bound. */
  lemma {:induction false} AddressableStoreIsBounded(steps: seq<AddressStep>)
    ensures var s := RunAddress(NoAddresses, steps);
            |s.items| <= 50000 + Created(NoAddresses, UsesOf(NoAddresses, steps), 50000) - |Phantoms(s)|
  {
    AddressRunIsStoreRun(NoAddresses, steps);
    StoreIsBounded(UsesOf(NoAddresses, steps), MaxAddressableEvents);
  }

  // ---------------------------------------------------------------- replaceable events

  /** The stored events of one pubkey, one per kind, in the order their kinds were first stored. */
  type KindMap = seq<Event>

  function KindIndex(km: KindMap, kind: nat): (i: int)
    ensures -1 <= i < |km|
    ensures i >= 0 ==> km[i].kind == kind
    ensures i < 0 <==> forall j :: 0 <= j < |km| ==> km[j].kind != kind
  {
    if km == [] then -1
    else if km[0].kind == kind then 0
    else
      var i := KindIndex(km[1..], kind);
      if i < 0 then -1 else i + 1
  }

  /** The first of the events with the smallest time. */
  function OldestIndex(km: KindMap): (i: nat)
    requires km != []
    ensures i < |km| && forall j :: 0 <= j < |km| ==> km[i].createdAt <= km[j].createdAt
    ensures forall j :: 0 <= j < i ==> km[i].createdAt < km[j].createdAt
  {
    if |km| == 1 then 0
    else
      var n := |km| - 1;
      var i := OldestIndex(km[..n]);
      if km[n].createdAt < km[i].createdAt then n else i
  }

  function RemoveAt(km: KindMap, i: nat): KindMap
    requires i < |km|
  {
    km[..i] + km[i + 1..]
  }

  function StoreKind(km: KindMap, e: Event): KindMap {
    var i := KindIndex(km, e.kind);
    if i >= 0 then (if e.createdAt > km[i].createdAt then km[i := e] else km)
    else (if |km| >= MaxReplaceableKinds then RemoveAt(km, OldestIndex(km)) else km) + [e]
  }

  predicate OnePerKind(km: KindMap) {
    |km| <= MaxReplaceableKinds && forall i, j :: 0 <= i < j < |km| ==> km[i].kind != km[j].kind
  }

  /** A pubkey never holds more kinds than its cap, nor two events of one kind. */
  lemma {:induction false} StoreKindKeepsOnePerKind(km: KindMap, e: Event)
    requires OnePerKind(km)
    ensures OnePerKind(StoreKind(km, e))
  {
  }

  function Held(km: KindMap, kind: nat): Option<Event> {
    var i := KindIndex(km, kind);
    if i >= 0 then Some(km[i]) else None
  }

  /** The newer of what is held and what arrives; what is held wins ties. */
  function Newer(held: Option<Event>, e: Event): Option<Event> {
    if held.Some? && e.createdAt <= held.value.createdAt then held else Some(e)
  }

  lemma {:induction false} HeldIsAt(km: KindMap, i: nat)
    requires OnePerKind(km) && i < |km|
    ensures KindIndex(km, km[i].kind) == i
  {
  }

  lemma {:induction false} StoreKindHolds(km: KindMap, e: Event, kind: nat)
    requires OnePerKind(km)
    requires e.kind != kind && Held(km, kind).Some? ==> Held(StoreKind(km, e), kind).Some?
    ensures Held(StoreKind(km, e), kind) == if e.kind == kind then Newer(Held(km, kind), e) else Held(km, kind)
  {
    var r := StoreKind(km, e);
    StoreKindKeepsOnePerKind(km, e);
    var i := KindIndex(r, kind);
    if e.kind == kind {
      var k := KindIndex(km, kind);
      if k >= 0 { HeldIsAt(r, k); } else { HeldIsAt(r, |r| - 1); }
    } else if i >= 0 {
      assert r[i] in km;
      var j :| 0 <= j < |km| && km[j] == r[i];
      HeldIsAt(km, j);
    }
  }

  type PubkeyStore = Store<string, KindMap>

  datatype PubkeyStep = ProcessFor(event: Event) | LookupPubkey(pubkey: string) | ResetPubkeys

  function KindsOf(s: PubkeyStore, pubkey: string): KindMap {
    if pubkey in s.items then s.items[pubkey] else []
  }

  /** The eviction ignores an oldest key that is the empty text. */
  ghost function MakeRoomForPubkey(s: PubkeyStore, pubkey: string): PubkeyStore {
    if s.times != map[] && Oldest(s.times) == "" then s else MakeRoom(s, pubkey, MaxReplaceablePubkeys)
  }

  ghost function NextPubkey(s: PubkeyStore, step: PubkeyStep): PubkeyStore {
    match step
    case ProcessFor(e) => Put(MakeRoomForPubkey(Touch(s, e.pubkey), e.pubkey), e.pubkey, StoreKind(KindsOf(s, e.pubkey), e))
    case LookupPubkey(p) => Touch(s, p)
    case ResetPubkeys => Store(map[], map[], s.clock)
  }

  ghost function RunPubkey(s: PubkeyStore, steps: seq<PubkeyStep>): PubkeyStore
    decreases |steps|
  {
    if steps == [] then s else RunPubkey(NextPubkey(s, steps[0]), steps[1..])
  }

  function Latest(s: PubkeyStore, pubkey: string, kind: nat): Option<Event> {
    Held(KindsOf(s, pubkey), kind)
  }

  predicate IsFor(step: PubkeyStep, pubkey: string, kind: nat) {
    step.ProcessFor? && step.event.pubkey == pubkey && step.event.kind == kind
  }

  /** Neither the pubkey nor this kind of it is evicted or reset while it is held. */
  ghost predicate KeepsKind(s: PubkeyStore, steps: seq<PubkeyStep>, pubkey: string, kind: nat)
    decreases |steps|
  {
    steps != [] ==>
      var n := NextPubkey(s, steps[0]);
      (Latest(s, pubkey, kind).Some? ==> Latest(n, pubkey, kind).Some?) && KeepsKind(n, steps[1..], pubkey, kind)
  }

  function Arrivals(steps: seq<PubkeyStep>, pubkey: string, kind: nat): seq<Event> {
    if steps == [] then []
    else (if IsFor(steps[0], pubkey, kind) then [steps[0].event] else []) + Arrivals(steps[1..], pubkey, kind)
  }

  /** The first arrival among those of greatest time. */
  function FirstNewest(held: Option<Event>, arrivals: seq<Event>): Option<Event>
    decreases |arrivals|
  {
    if arrivals == [] then held else FirstNewest(Newer(held, arrivals[0]), arrivals[1..])
  }

  ghost predicate AllOnePerKind(s: PubkeyStore) {
    forall p :: p in s.items ==> OnePerKind(s.items[p])
  }

  lemma {:induction false} NextPubkeyInvariant(s: PubkeyStore, step: PubkeyStep)
    requires Tracked(s) && AllOnePerKind(s)
    ensures Tracked(NextPubkey(s, step)) && AllOnePerKind(NextPubkey(s, step))
  {
    match step {
      case ProcessFor(e) =>
        StoreKindKeepsOnePerKind(KindsOf(s, e.pubkey), e);
        var room := MakeRoomForPubkey(Touch(s, e.pubkey), e.pubkey);
        TouchKeepsTracked(s, e.pubkey);
        MakeRoomKeepsTracked(s, e.pubkey, MaxReplaceablePubkeys);
        PutKeepsTracked(room, e.pubkey, StoreKind(KindsOf(s, e.pubkey), e));
      case LookupPubkey(p) => TouchKeepsTracked(s, p);
      case ResetPubkeys =>
    }
  }

  lemma {:induction false} NextLatest(s: PubkeyStore, step: PubkeyStep, pubkey: string, kind: nat)
    requires Tracked(s) && AllOnePerKind(s)
    requires var n := NextPubkey(s, step); Latest(s, pubkey, kind).Some? ==> Latest(n, pubkey, kind).Some?
    ensures var n := NextPubkey(s, step);
            Latest(n, pubkey, kind)
              == if IsFor(step, pubkey, kind) then Newer(Latest(s, pubkey, kind), step.event) else Latest(s, pubkey, kind)
  {
    if step.ProcessFor? && step.event.pubkey == pubkey {
      assert KindsOf(NextPubkey(s, step), pubkey) == StoreKind(KindsOf(s, pubkey), step.event);
      StoreKindHolds(KindsOf(s, pubkey), step.event, kind);
    }
  }

  /** Between evictions the store's event for a kind is the fold over its arrivals. */
  lemma {:induction false} ReplaceableFolds(s: PubkeyStore, steps: seq<PubkeyStep>, pubkey: string, kind: nat)
    requires Tracked(s) && AllOnePerKind(s) && KeepsKind(s, steps, pubkey, kind)
    ensures Latest(RunPubkey(s, steps), pubkey, kind)
         == FirstNewest(Latest(s, pubkey, kind), Arrivals(steps, pubkey, kind))
    ensures AllOnePerKind(RunPubkey(s, steps))
    decreases |steps|
  {
    if steps == [] {
    } else {
      var n := NextPubkey(s, steps[0]);
      NextPubkeyInvariant(s, steps[0]);
      NextLatest(s, steps[0], pubkey, kind);
      ReplaceableFolds(n, steps[1..], pubkey, kind);
      var rest := Arrivals(steps[1..], pubkey, kind);
      if IsFor(steps[0], pubkey, kind) {
        assert Arrivals(steps, pubkey, kind)[1..] == rest;
      } else {
        assert Arrivals(steps, pubkey, kind) == rest;
      }
    }
  }

  /** In every run each pubkey keeps within its cap of kinds. */
  lemma {:induction false} KindCapHolds(s: PubkeyStore, steps: seq<PubkeyStep>)
    requires Tracked(s) && AllOnePerKind(s)
    ensures forall p :: p in RunPubkey(s, steps).items ==> |RunPubkey(s, steps).items[p]| <= 50
    decreases |steps|
  {
    if steps == [] {
    } else {
      NextPubkeyInvariant(s, steps[0]);
      KindCapHolds(NextPubkey(s, steps[0]), steps[1..]);
    }
  }

  // ---------------------------------------------------------------- how many pubkeys

  const NoPubkeys: PubkeyStore := Store(map[], map[], 0)

  /** A step that names a pubkey names a non-empty one. */
  predicate NamesPubkey(step: PubkeyStep) {
    match step
    case ProcessFor(e) => e.pubkey != ""
    case LookupPubkey(p) => p != ""
    case ResetPubkeys => true
  }

  function PubkeyUse(s: PubkeyStore, step: PubkeyStep): Use<string, KindMap> {
    match step
    case ProcessFor(e) => Write(e.pubkey, StoreKind(KindsOf(s, e.pubkey), e))
    case LookupPubkey(p) => Read(p)
    case ResetPubkeys => Clear
  }

  lemma {:induction false} NextIsStoreUse(s: PubkeyStore, step: PubkeyStep)
    requires Tracked(s) && AllOnePerKind(s) && "" !in s.times && NamesPubkey(step)
    ensures NextPubkey(s, step) == Next(s, PubkeyUse(s, step), MaxReplaceablePubkeys) && "" !in NextPubkey(s, step).times
  {
    if step.ProcessFor? {
      var t := Touch(s, step.event.pubkey);
      assert step.event.pubkey in t.times;
      assert Oldest(t.times) in t.times;
    }
  }

  /** How many lookups gave a missing pubkey an access time. */
  ghost function CreatedBy(s: PubkeyStore, steps: seq<PubkeyStep>): nat
    decreases |steps|
  {
    if steps == [] then 0
    else (if CreatesPhantom(s, PubkeyUse(s, steps[0])) then 1 else 0) + CreatedBy(NextPubkey(s, steps[0]), steps[1..])
  }

  lemma {:induction false} EmptyKeyStays(s: PubkeyStore, step: PubkeyStep)
    requires "" in s.times || !NamesPubkey(step)
    ensures step.ResetPubkeys? || "" in NextPubkey(s, step).times
  {
    if step.ProcessFor? {
      var t := Touch(s, step.event.pubkey);
      assert "" in t.times;
    }
  }

  /** While the empty pubkey has no access time, the bound holds, also when it had one before a reset. */
  lemma {:induction false} NextPubkeyKeepsBounded(s: PubkeyStore, step: PubkeyStep, created: nat)
    requires Tracked(s) && AllOnePerKind(s) && ("" !in s.times ==> Bounded(s, MaxReplaceablePubkeys, created))
    ensures var n := NextPubkey(s, step);
            "" !in n.times ==>
              Bounded(n, MaxReplaceablePubkeys, created + if CreatesPhantom(s, PubkeyUse(s, step)) then 1 else 0)
  {
    if "" in s.times || !NamesPubkey(step) {
      EmptyKeyStays(s, step);
      if step.ResetPubkeys? { assert Phantoms(NextPubkey(s, step)) == {}; }
    } else {
      NextIsStoreUse(s, step);
      NextKeepsBounded(s, PubkeyUse(s, step), MaxReplaceablePubkeys, created);
    }
  }

  lemma {:induction false} RunPubkeyKeepsBounded(s: PubkeyStore, steps: seq<PubkeyStep>, created: nat)
    requires Tracked(s) && AllOnePerKind(s) && ("" !in s.times ==> Bounded(s, MaxReplaceablePubkeys, created))
    ensures var t := RunPubkey(s, steps);
            && Tracked(t) && AllOnePerKind(t)
            && ("" !in t.times ==> Bounded(t, MaxReplaceablePubkeys, created + CreatedBy(s, steps)))
    decreases |steps|
  {
    if steps == [] {
    } else {
      NextPubkeyInvariant(s, steps[0]);
      NextPubkeyKeepsBounded(s, steps[0], created);
      RunPubkeyKeepsBounded(NextPubkey(s, steps[0]), steps[1..],
                            created + if CreatesPhantom(s, PubkeyUse(s, steps[0])) then 1 else 0);
    }
  }

  ghost predicate AllNamed(steps: seq<PubkeyStep>) {
    forall e :: e in steps ==> NamesPubkey(e)
  }

  lemma {:induction false} NamedKeepsOut(s: PubkeyStore, steps: seq<PubkeyStep>)
    requires Tracked(s) && AllOnePerKind(s) && "" !in s.times && AllNamed(steps)
    ensures "" !in RunPubkey(s, steps).times
    decreases |steps|
  {
    if steps == [] {
    } else {
      NextPubkeyInvariant(s, steps[0]);
      NextIsStoreUse(s, steps[0]);
      NamedKeepsOut(NextPubkey(s, steps[0]), steps[1..]);
    }
  }

  /** The keys that eviction would take before it meets the empty one. */
  ghost function Older(s: PubkeyStore): set<string>
    requires "" in s.times
  {
    set k | k in s.times && s.times[k] < s.times[""]
  }

  /** A new pubkey adds an entry or uses up a key older than the empty one. */
  lemma {:induction false} NewPubkeyGrows(s: PubkeyStore, e: Event)
    requires Tracked(s) && "" in s.times && e.pubkey !in s.times
    ensures var n := NextPubkey(s, ProcessFor(e));
            && "" in n.times && (forall k :: k in n.times ==> k in s.times || k == e.pubkey)
            && |s.items| <= |n.items| <= |s.items| + 1
            && |n.items| + |Older(s)| > |s.items| + |Older(n)| && |Older(n)| <= |Older(s)|
  {
    var p, v := e.pubkey, StoreKind(KindsOf(s, e.pubkey), e);
    if MakeRoomForPubkey(Touch(s, p), p) == Touch(s, p) {
      NewPubkeyFits(s, p, v);
    } else {
      NewPubkeyEvicts(s, p, v);
    }
  }

  lemma {:induction false} NewPubkeyFits(s: PubkeyStore, p: string, v: KindMap)
    requires Tracked(s) && "" in s.times && p !in s.times
    ensures var n := Put(Touch(s, p), p, v);
            "" in n.times && |n.items| == |s.items| + 1 && |Older(n)| == |Older(s)|
  {
    TouchKeepsTracked(s, p);
    InsertCounts(Touch(s, p), p, v);
    assert Older(Put(Touch(s, p), p, v)) == Older(s);
  }

  lemma {:induction false} NewPubkeyEvicts(s: PubkeyStore, p: string, v: KindMap)
    requires Tracked(s) && "" in s.times && p !in s.times && MakeRoomForPubkey(Touch(s, p), p) != Touch(s, p)
    ensures var n := Put(Evict(Touch(s, p), Oldest(Touch(s, p).times)), p, v);
            "" in n.times && |s.items| <= |n.items| <= |s.items| + 1 && |Older(n)| < |Older(s)|
  {
    var t := Touch(s, p);
    EvictionUsesOlder(s, p);
    EvictItems(t, Oldest(t.times));
    InsertCounts(Evict(t, Oldest(t.times)), p, v);
  }

  lemma {:induction false} EvictionUsesOlder(s: PubkeyStore, p: string)
    requires Tracked(s) && "" in s.times && p !in s.times && MakeRoomForPubkey(Touch(s, p), p) != Touch(s, p)
    ensures var t := Touch(s, p);
            var o := Oldest(t.times);
            && o in s.times && o != p && "" in Evict(t, o).times
            && |Older(Evict(t, o))| < |Older(s)|
  {
    var t := Touch(s, p);
    var o := Oldest(t.times);
    TouchKeepsTracked(s, p);
    assert "" in t.times && t.times[""] < t.times[p];
    assert t.times[o] < t.times[""];
    SetRemove(Older(s), o);
    assert Older(Evict(t, o)) == Older(s) - {o};
  }

  function EventOf(pubkey: string): Event {
    Event(0, pubkey, 0, 0, [])
  }

  /** One event of each of these pubkeys, in turn. */
  function Newcomers(pubkeys: seq<string>): seq<PubkeyStep> {
    if pubkeys == [] then [] else [ProcessFor(EventOf(pubkeys[0]))] + Newcomers(pubkeys[1..])
  }

  /** Distinct non-empty pubkeys without an access time. */
  ghost predicate AreNew(s: PubkeyStore, pubkeys: seq<string>) {
    Distinct(pubkeys) && forall p :: p in pubkeys ==> p != "" && p !in s.times
  }

  lemma {:induction false} NewcomerArrives(s: PubkeyStore, pubkeys: seq<string>)
    requires Tracked(s) && AllOnePerKind(s) && "" in s.times && AreNew(s, pubkeys) && pubkeys != []
    ensures var n := NextPubkey(s, ProcessFor(EventOf(pubkeys[0])));
            Tracked(n) && AllOnePerKind(n) && "" in n.times && AreNew(n, pubkeys[1..])
  {
    var e := EventOf(pubkeys[0]);
    assert pubkeys[0] in pubkeys;
    TailIsDistinct(pubkeys);
    NewPubkeyGrows(s, e);
    NextPubkeyInvariant(s, ProcessFor(e));
    assert forall p :: p in pubkeys[1..] ==> p in pubkeys;
  }

  /** A prefix of any long enough list of new pubkeys brings the store to exactly n entries. */
  lemma {:induction false} EverySizeIsReached(s: PubkeyStore, pubkeys: seq<string>, n: nat) returns (m: nat)
    requires Tracked(s) && AllOnePerKind(s) && "" in s.times && AreNew(s, pubkeys)
    requires |s.items| <= n <= |s.items| + |pubkeys| - |Older(s)|
    ensures m <= |pubkeys| && |RunPubkey(s, Newcomers(pubkeys[..m])).items| == n
    decreases |pubkeys|
  {
    if |s.items| == n {
      m := 0;
    } else {
      var e := EventOf(pubkeys[0]);
      assert pubkeys[0] in pubkeys;
      NewPubkeyGrows(s, e);
      NewcomerArrives(s, pubkeys);
      var k := EverySizeIsReached(NextPubkey(s, ProcessFor(e)), pubkeys[1..], n);
      m := k + 1;
      assert pubkeys[..m][1..] == pubkeys[1..][..k];
      assert Newcomers(pubkeys[..m])[1..] == Newcomers(pubkeys[1..][..k]);
    }
  }

  lemma {:induction false} NewcomersAreNamed(s: PubkeyStore, pubkeys: seq<string>)
    requires forall p :: p in pubkeys ==> p != ""
    ensures AllNamed(Newcomers(pubkeys)) && CreatedBy(s, Newcomers(pubkeys)) == 0
    decreases |pubkeys|
  {
    if pubkeys == [] {
    } else {
      assert pubkeys[0] in pubkeys && forall p :: p in pubkeys[1..] ==> p in pubkeys;
      assert Newcomers(pubkeys)[1..] == Newcomers(pubkeys[1..]);
      NewcomersAreNamed(NextPubkey(s, ProcessFor(EventOf(pubkeys[0]))), pubkeys[1..]);
    }
  }

  /** Once the empty pubkey has an access time, one event each of enough new pubkeys, whichever they are, brings the
      store to any larger size: at most as many are lost as had an older access time. */
  lemma {:induction false} EmptyKeyEndsEviction(before: seq<PubkeyStep>, pubkeys: seq<string>, n: nat) returns (m: nat)
    requires var s := RunPubkey(NoPubkeys, before);
      && "" in s.times && AreNew(s, pubkeys)
      && |s.items| <= n <= |s.items| + |pubkeys| - |Older(s)|
    ensures m <= |pubkeys|
    ensures var s := RunPubkey(NoPubkeys, before);
            var steps := Newcomers(pubkeys[..m]);
            AllNamed(steps) && CreatedBy(s, steps) == 0 && |RunPubkey(s, steps).items| == n
  {
    var s := RunPubkey(NoPubkeys, before);
    EmptyIsBounded();
    RunPubkeyKeepsBounded(NoPubkeys, before, 0);
    m := EverySizeIsReached(s, pubkeys, n);
    assert forall p :: p in pubkeys[..m] ==> p in pubkeys;
    NewcomersAreNamed(s, pubkeys[..m]);
  }

  lemma {:induction false} LongestKey(keys: set<string>) returns (i: nat)
    ensures forall k :: k in keys ==> |k| <= i
    decreases |keys|
  {
    if keys == {} {
      i := 0;
    } else {
      var k :| k in keys;
      i := LongestKey(keys - {k});
      if i < |k| { i := |k|; }
    }
  }

  lemma {:induction false} SomeAreNew(s: PubkeyStore, count: nat) returns (pubkeys: seq<string>)
    ensures |pubkeys| == count && AreNew(s, pubkeys)
  {
    var i := LongestKey(s.times.Keys);
    pubkeys := seq(count, k requires 0 <= k < count => seq(i + 1 + k, _ => 'f'));
    assert forall k :: 0 <= k < count ==> |pubkeys[k]| == i + 1 + k;
  }

  lemma {:induction false} EmptyIsBounded()
    ensures Bounded(NoPubkeys, MaxReplaceablePubkeys, 0) && AllOnePerKind(NoPubkeys)
  {
    assert Phantoms(NoPubkeys) == {};
  }

  /** However the run goes on without naming the empty pubkey, the size bound holds. */
  ghost predicate StaysWithin(s: PubkeyStore, created: nat) {
    forall steps: seq<PubkeyStep> :: AllNamed(steps) ==>
      var t := RunPubkey(s, steps);
      |t.items| <= 10000 + created + CreatedBy(s, steps) - |Phantoms(t)|
  }

  /** After any run the replaceable store stays bounded exactly if the empty pubkey has no access time. */
  lemma {:induction false} PubkeyStoreIsBounded(before: seq<PubkeyStep>)
    ensures var s := RunPubkey(NoPubkeys, before);
            StaysWithin(s, CreatedBy(NoPubkeys, before)) <==> "" !in s.times
  {
    var s, created := RunPubkey(NoPubkeys, before), CreatedBy(NoPubkeys, before);
    EmptyIsBounded();
    RunPubkeyKeepsBounded(NoPubkeys, before, 0);
    if "" in s.times {
      var more := MaxReplaceablePubkeys + created + 1;
      var pubkeys := SomeAreNew(s, more + |Older(s)|);
      var m := EmptyKeyEndsEviction(before, pubkeys, |s.items| + more);
      var steps := Newcomers(pubkeys[..m]);
      assert |RunPubkey(s, steps).items| > MaxReplaceablePubkeys + created + CreatedBy(s, steps);
    } else {
      forall steps: seq<PubkeyStep> | AllNamed(steps)
        ensures var t := RunPubkey(s, steps);
                |t.items| <= 10000 + created + CreatedBy(s, steps) - |Phantoms(t)|
      {
        NamedKeepsOut(s, steps);
        RunPubkeyKeepsBounded(s, steps, created);
      }
    }
  }

  /** The shortest such run: one lookup of the empty pubkey, and every new pubkey stays. */
  lemma {:induction false} EmptyLookupEndsEviction(pubkeys: seq<string>)
    requires Distinct(pubkeys) && "" !in pubkeys
    ensures |RunPubkey(NoPubkeys, [LookupPubkey("")] + Newcomers(pubkeys)).items| == |pubkeys|
  {
    var lookup := [LookupPubkey("")];
    var s := Touch(NoPubkeys, "");
    assert lookup[1..] == [] && RunPubkey(NoPubkeys, lookup) == s;
    assert Older(s) == {};
    var m := EmptyKeyEndsEviction(lookup, pubkeys, |pubkeys|);
    AtMostOneEach(s, pubkeys[..m]);
    assert pubkeys[..m] == pubkeys;
    assert (lookup + Newcomers(pubkeys))[1..] == Newcomers(pubkeys);
  }

  lemma {:induction false} AtMostOneEach(s: PubkeyStore, pubkeys: seq<string>)
    requires Tracked(s) && AllOnePerKind(s) && "" in s.times && AreNew(s, pubkeys)
    ensures |RunPubkey(s, Newcomers(pubkeys)).items| <= |s.items| + |pubkeys|
    decreases |pubkeys|
  {
    if pubkeys == [] {
    } else {
      assert pubkeys[0] in pubkeys && Newcomers(pubkeys)[1..] == Newcomers(pubkeys[1..]);
      NewPubkeyGrows(s, EventOf(pubkeys[0]));
      NewcomerArrives(s, pubkeys);
      AtMostOneEach(NextPubkey(s, ProcessFor(EventOf(pubkeys[0]))), pubkeys[1..]);
    }
  }

  // ---------------------------------------------------------------- which replaceable event is kept

  ghost predicate IsNewest(e: Event, events: seq<Event>) {
    e in events && forall x :: x in events ==> x.createdAt <= e.createdAt
  }

  /** No two different events share the greatest time. */
  ghost predicate NewestIsUnique(events: seq<Event>) {
    forall x, y :: IsNewest(x, events) && IsNewest(y, events) ==> x == y
  }

  lemma {:induction false} FirstNewestIsNewest(held: Event, arrivals: seq<Event>)
    ensures FirstNewest(Some(held), arrivals).Some? && IsNewest(FirstNewest(Some(held), arrivals).value, [held] + arrivals)
    ensures IsNewest(held, [held] + arrivals) ==> FirstNewest(Some(held), arrivals) == Some(held)
    decreases |arrivals|
  {
    if arrivals == [] {
    } else {
      var next := Newer(Some(held), arrivals[0]).value;
      FirstNewestIsNewest(next, arrivals[1..]);
      assert forall x :: x in [held] + arrivals <==> x == held || x == arrivals[0] || x in arrivals[1..];
      assert forall x :: x in [next] + arrivals[1..] <==> x == next || x in arrivals[1..];
      assert arrivals[0] in [held] + arrivals;
    }
  }

  ghost predicate SameArrivals(xs: seq<Event>, ys: seq<Event>) {
    multiset(xs) == multiset(ys)
  }

  lemma {:induction false} MoveToFront(xs: seq<Event>, x: Event) returns (ys: seq<Event>)
    requires x in xs
    ensures SameArrivals(xs, ys) && ys != [] && ys[0] == x
  {
    var i :| 0 <= i < |xs| && xs[i] == x;
    assert xs == xs[..i] + [x] + xs[i + 1..];
    ys := [x] + xs[..i] + xs[i + 1..];
  }

  lemma {:induction false} FrontNewestWins(xs: seq<Event>)
    requires xs != [] && IsNewest(xs[0], xs)
    ensures FirstNewest(None, xs) == Some(xs[0])
  {
    assert [xs[0]] + xs[1..] == xs;
    FirstNewestIsNewest(xs[0], xs[1..]);
  }

  lemma {:induction false} SameMembers(xs: seq<Event>, ys: seq<Event>)
    requires SameArrivals(xs, ys)
    ensures forall e :: e in xs <==> e in ys
  {
    forall e ensures e in xs <==> e in ys {
      assert e in multiset(xs) <==> e in multiset(ys);
    }
  }

  lemma {:induction false} FoldOrderMatters(events: seq<Event>)
    ensures (forall xs, ys :: SameArrivals(xs, events) && SameArrivals(ys, events) ==>
              FirstNewest(None, xs) == FirstNewest(None, ys))
       <==> NewestIsUnique(events)
  {
    if NewestIsUnique(events) {
      forall xs, ys | SameArrivals(xs, events) && SameArrivals(ys, events)
        ensures FirstNewest(None, xs) == FirstNewest(None, ys)
      {
        UniqueNewestIsStored(events, xs);
        UniqueNewestIsStored(events, ys);
      }
    } else {
      var x, y :| IsNewest(x, events) && IsNewest(y, events) && x != y;
      var xs := MoveToFront(events, x);
      var ys := MoveToFront(events, y);
      SameMembers(events, xs);
      SameMembers(events, ys);
      FrontNewestWins(xs);
      FrontNewestWins(ys);
      assert SameArrivals(xs, events) && SameArrivals(ys, events);
    }
  }

  lemma {:induction false} UniqueNewestIsStored(events: seq<Event>, xs: seq<Event>)
    requires NewestIsUnique(events) && SameArrivals(xs, events)
    ensures if events == [] then FirstNewest(None, xs) == None
            else FirstNewest(None, xs).Some? && IsNewest(FirstNewest(None, xs).value, events)
  {
    if events != [] { assert events[0] in events; }
    SameMembers(xs, events);
    if xs != [] {
      assert xs[0] in events && [xs[0]] + xs[1..] == xs;
      FirstNewestIsNewest(xs[0], xs[1..]);
    }
  }

  // ---------------------------------------------------------------- the replaceable store between evictions

  /** Index i is the first of those of greatest time. */
  ghost predicate IsFirstNewest(i: nat, all: seq<Event>) {
    && i < |all|
    && (forall j :: 0 <= j < |all| ==> all[j].createdAt <= all[i].createdAt)
    && (forall j :: 0 <= j < i ==> all[j].createdAt < all[i].createdAt)
  }

  lemma {:induction false} FoldPicksFirst(held: Event, arrivals: seq<Event>) returns (i: nat)
    ensures IsFirstNewest(i, [held] + arrivals) && FirstNewest(Some(held), arrivals) == Some(([held] + arrivals)[i])
    decreases |arrivals|
  {
    if arrivals == [] {
      i := 0;
    } else {
      var first := arrivals[0];
      var all := [held] + arrivals;
      if first.createdAt > held.createdAt {
        var j := FoldPicksFirst(first, arrivals[1..]);
        var later := [first] + arrivals[1..];
        assert later == all[1..] && all[0] == held;
        i := j + 1;
        forall k | 0 <= k < |all|
          ensures all[k].createdAt <= all[i].createdAt && (k < i ==> all[k].createdAt < all[i].createdAt)
        {
          assert later[0] == first && (k > 0 ==> all[k] == later[k - 1]) && all[i] == later[j];
        }
      } else {
        var j := FoldPicksFirst(held, arrivals[1..]);
        var later := [held] + arrivals[1..];
        i := if j == 0 then 0 else j + 1;
        forall k | 0 <= k < |all|
          ensures all[k].createdAt <= all[i].createdAt && (k < i ==> all[k].createdAt < all[i].createdAt)
        {
          assert later[0] == all[0] == held && all[1] == first && (k > 1 ==> all[k] == later[k - 1]);
          assert all[i] == later[j];
        }
      }
    }
  }

  function HeldFirst(held: Option<Event>, arrivals: seq<Event>): seq<Event> {
    (if held.Some? then [held.value] else []) + arrivals
  }

  ghost predicate IsFirstOf(found: Option<Event>, all: seq<Event>) {
    if all == [] then found.None? else exists i: nat :: IsFirstNewest(i, all) && found == Some(all[i])
  }

  lemma {:induction false} FoldIsFirst(held: Option<Event>, arrivals: seq<Event>)
    ensures IsFirstOf(FirstNewest(held, arrivals), HeldFirst(held, arrivals))
  {
    if held.Some? {
      var i := FoldPicksFirst(held.value, arrivals);
    } else if arrivals != [] {
      assert HeldFirst(held, arrivals) == [arrivals[0]] + arrivals[1..];
      var i := FoldPicksFirst(arrivals[0], arrivals[1..]);
    }
  }

  /** Between evictions the replaceable store holds, of what it held and what arrived since, the first event
      among those of greatest time. */
  lemma {:induction false} ReplaceableKeepsFirstNewest(s: PubkeyStore, steps: seq<PubkeyStep>, pubkey: string, kind: nat)
    requires Tracked(s) && AllOnePerKind(s) && KeepsKind(s, steps, pubkey, kind)
    ensures Latest(RunPubkey(s, steps), pubkey, kind)
         == FirstNewest(Latest(s, pubkey, kind), Arrivals(steps, pubkey, kind))
    ensures IsFirstOf(Latest(RunPubkey(s, steps), pubkey, kind),
                      HeldFirst(Latest(s, pubkey, kind), Arrivals(steps, pubkey, kind)))
    ensures AllOnePerKind(RunPubkey(s, steps))
  {
    ReplaceableFolds(s, steps, pubkey, kind);
    FoldIsFirst(Latest(s, pubkey, kind), Arrivals(steps, pubkey, kind));
  }

  /** A run from the empty store in which these events of a kind arrive, in some order, and none is evicted. */
  ghost predicate Delivers(steps: seq<PubkeyStep>, events: seq<Event>, pubkey: string, kind: nat) {
    KeepsKind(NoPubkeys, steps, pubkey, kind) && SameArrivals(Arrivals(steps, pubkey, kind), events)
  }

  ghost predicate OrderIndependent(events: seq<Event>, pubkey: string, kind: nat) {
    forall xs, ys :: Delivers(xs, events, pubkey, kind) && Delivers(ys, events, pubkey, kind) ==>
      Latest(RunPubkey(NoPubkeys, xs), pubkey, kind) == Latest(RunPubkey(NoPubkeys, ys), pubkey, kind)
  }

  function Feed(events: seq<Event>): seq<PubkeyStep> {
    if events == [] then [] else [ProcessFor(events[0])] + Feed(events[1..])
  }

  ghost predicate OfKind(events: seq<Event>, pubkey: string, kind: nat) {
    forall e :: e in events ==> e.pubkey == pubkey && e.kind == kind
  }

  lemma {:induction false} FeedStep(s: PubkeyStore, e: Event)
    requires Tracked(s) && AllOnePerKind(s) && s.items.Keys <= {e.pubkey}
    ensures var n := NextPubkey(s, ProcessFor(e));
            n.items.Keys <= {e.pubkey} && Latest(n, e.pubkey, e.kind).Some?
  {
    assert e.pubkey !in s.items ==> s.items == map[];
    StoreKindHolds(KindsOf(s, e.pubkey), e, e.kind);
  }

  lemma {:induction false} FeedKeepsKind(s: PubkeyStore, events: seq<Event>, pubkey: string, kind: nat)
    requires Tracked(s) && AllOnePerKind(s) && s.items.Keys <= {pubkey} && OfKind(events, pubkey, kind)
    ensures KeepsKind(s, Feed(events), pubkey, kind) && Arrivals(Feed(events), pubkey, kind) == events
    decreases |events|
  {
    if events == [] {
    } else {
      var step := ProcessFor(events[0]);
      assert Feed(events)[1..] == Feed(events[1..]);
      FeedStep(s, events[0]);
      NextPubkeyInvariant(s, step);
      FeedKeepsKind(NextPubkey(s, step), events[1..], pubkey, kind);
    }
  }

  lemma {:induction false} FeedDelivers(events: seq<Event>, order: seq<Event>, pubkey: string, kind: nat)
    requires OfKind(events, pubkey, kind) && SameArrivals(order, events)
    ensures Delivers(Feed(order), events, pubkey, kind)
    ensures Latest(RunPubkey(NoPubkeys, Feed(order)), pubkey, kind) == FirstNewest(None, order)
  {
    SameMembers(order, events);
    FeedKeepsKind(NoPubkeys, order, pubkey, kind);
    ReplaceableFolds(NoPubkeys, Feed(order), pubkey, kind);
  }

  /** What the replaceable store holds of these events is independent of the order of their arrival exactly when no
      two different ones share the greatest time. */
  lemma {:induction false} ReplaceableOrderMatters(events: seq<Event>, pubkey: string, kind: nat)
    requires OfKind(events, pubkey, kind)
    ensures OrderIndependent(events, pubkey, kind) <==> NewestIsUnique(events)
  {
    FoldOrderMatters(events);
    if NewestIsUnique(events) {
      forall xs, ys | Delivers(xs, events, pubkey, kind) && Delivers(ys, events, pubkey, kind)
        ensures Latest(RunPubkey(NoPubkeys, xs), pubkey, kind) == Latest(RunPubkey(NoPubkeys, ys), pubkey, kind)
      {
        ReplaceableFolds(NoPubkeys, xs, pubkey, kind);
        ReplaceableFolds(NoPubkeys, ys, pubkey, kind);
      }
    } else {
      var xs, ys :| SameArrivals(xs, events) && SameArrivals(ys, events) && FirstNewest(None, xs) != FirstNewest(None, ys);
      FeedDelivers(events, xs, pubkey, kind);
      FeedDelivers(events, ys, pubkey, kind);
    }
  }

  // ---------------------------------------------------------------- lookup across relays

  function Pick(latest: Option<Event>, found: Option<Event>): Option<Event> {
    if found.Some? && (latest.None? || Better(found.value, latest.value)) then found else latest
  }

  /** The loop of the client's lookups over what each relay holds. */
  function Merge(latest: Option<Event>, found: seq<Option<Event>>): Option<Event>
    decreases |found|
  {
    if found == [] then latest else Merge(Pick(latest, found[0]), found[1..])
  }

  lemma {:induction false} MergeTurn(latest: Option<Event>, found: seq<Option<Event>>, i: nat)
    requires i < |found|
    ensures Merge(latest, found[i..]) == Merge(Pick(latest, found[i]), found[i + 1..])
  {
    assert found[i..][1..] == found[i + 1..];
  }

  ghost function Union(seen: seq<set<Event>>): set<Event> {
    set i, e | 0 <= i < |seen| && e in seen[i] :: e
  }

  ghost predicate IsBestOf(found: Option<Event>, seen: set<Event>) {
    if seen == {} then found.None? else found.Some? && IsBest(found.value, seen)
  }

  lemma {:induction false} PickIsBest(a: Option<Event>, b: Option<Event>, x: set<Event>, y: set<Event>)
    requires IsBestOf(a, x) && IsBestOf(b, y) && UniqueIds(x + y)
    ensures IsBestOf(Pick(a, b), x + y)
  {
    if x == {} { assert x + y == y; }
    else if y == {} { assert x + y == x; }
    else { assert a.value in x + y && b.value in x + y; }
  }

  /** The lookup over relays is the latest over everything they saw together, in any order of the relays. */
  lemma {:induction false} MergeIsBest(latest: Option<Event>, before: set<Event>, found: seq<Option<Event>>,
                                       seen: seq<set<Event>>)
    requires |found| == |seen| && IsBestOf(latest, before) && UniqueIds(before + Union(seen))
    requires forall i :: 0 <= i < |found| ==> IsBestOf(found[i], seen[i])
    ensures IsBestOf(Merge(latest, found), before + Union(seen))
    decreases |found|
  {
    if found == [] {
      assert before + Union(seen) == before;
    } else {
      UnionHead(seen);
      assert before + seen[0] + Union(seen[1..]) == before + Union(seen);
      assert UniqueIds(before + seen[0]);
      PickIsBest(latest, found[0], before, seen[0]);
      MergeIsBest(Pick(latest, found[0]), before + seen[0], found[1..], seen[1..]);
    }
  }

  lemma {:induction false} UnionHead(seen: seq<set<Event>>)
    requires seen != []
    ensures Union(seen) == seen[0] + Union(seen[1..])
  {
    forall e ensures e in Union(seen) <==> e in seen[0] + Union(seen[1..]) {
      if e in Union(seen) {
        var i :| 0 <= i < |seen| && e in seen[i];
        assert i == 0 || e in seen[1..][i - 1];
      }
      if e in Union(seen[1..]) {
        var i :| 0 <= i < |seen[1..]| && e in seen[1..][i];
        assert e in seen[i + 1];
      }
    }
  }

  function Stored(s: AddressStore, k: Address): Option<Event> {
    if k in s.items then Some(s.items[k]) else None
  }

  /** What each relay of a list of runs holds for k, and what it saw of k. */
  ghost function HeldBy(runs: seq<seq<AddressStep>>, k: Address): seq<Option<Event>> {
    seq(|runs|, i requires 0 <= i < |runs| => Stored(RunAddress(NoAddresses, runs[i]), k))
  }

  ghost function SeenBy(runs: seq<seq<AddressStep>>, k: Address): seq<set<Event>> {
    seq(|runs|, i requires 0 <= i < |runs| => ProcessedFor(runs[i], k))
  }

  /** The lookup over all relays agrees with one store that processed everything any of them processed. */
  lemma {:induction false} LookupAgreesWithOneStore(runs: seq<seq<AddressStep>>, all: seq<AddressStep>, k: Address)
    requires forall i :: 0 <= i < |runs| ==> KeepsAddress(NoAddresses, runs[i], k)
    requires KeepsAddress(NoAddresses, all, k)
    requires ProcessedFor(all, k) == Union(SeenBy(runs, k)) && UniqueIds(ProcessedFor(all, k))
    ensures Merge(None, HeldBy(runs, k)) == Stored(RunAddress(NoAddresses, all), k)
  {
    var found, seen := HeldBy(runs, k), SeenBy(runs, k);
    forall i | 0 <= i < |runs| ensures IsBestOf(found[i], seen[i]) {
      assert forall e :: e in seen[i] ==> e in Union(seen);
      AddressableKeepsLatest(runs[i], k);
    }
    assert {} + Union(seen) == Union(seen);
    MergeIsBest(None, {}, found, seen);
    AddressableKeepsLatest(all, k);
    var merged := Merge(None, found);
    if merged.Some? { BestIsUnique(merged.value, RunAddress(NoAddresses, all).items[k], Union(seen)); }
  }

  // ---------------------------------------------------------------- replaceable lookup across relays

  /** What each relay holds for a pubkey and kind. */
  ghost function KindHeldBy(runs: seq<seq<PubkeyStep>>, pubkey: string, kind: nat): seq<Option<Event>> {
    seq(|runs|, i requires 0 <= i < |runs| => Latest(RunPubkey(NoPubkeys, runs[i]), pubkey, kind))
  }

  ghost predicate Arrived(runs: seq<seq<PubkeyStep>>, pubkey: string, kind: nat, e: Event) {
    exists i :: 0 <= i < |runs| && e in Arrivals(runs[i], pubkey, kind)
  }

  lemma {:induction false} HeldIsNewest(steps: seq<PubkeyStep>, pubkey: string, kind: nat)
    requires KeepsKind(NoPubkeys, steps, pubkey, kind)
    ensures var held, all := Latest(RunPubkey(NoPubkeys, steps), pubkey, kind), Arrivals(steps, pubkey, kind);
            if all == [] then held.None? else held.Some? && IsNewest(held.value, all)
  {
    var all := Arrivals(steps, pubkey, kind);
    ReplaceableFolds(NoPubkeys, steps, pubkey, kind);
    if all != [] {
      assert all == [all[0]] + all[1..];
      FirstNewestIsNewest(all[0], all[1..]);
    }
  }

  lemma {:induction false} PickIsNewer(latest: Option<Event>, found: Option<Event>)
    ensures var p := Pick(latest, found);
            && (p == latest || p == found)
            && (latest.Some? ==> p.Some? && p.value.createdAt >= latest.value.createdAt)
            && (found.Some? ==> p.Some? && p.value.createdAt >= found.value.createdAt)
  {
  }

  lemma {:induction false} MergeIsNewest(latest: Option<Event>, found: seq<Option<Event>>)
    ensures var m := Merge(latest, found);
            && (m == latest || m in found)
            && (latest.Some? ==> m.Some? && m.value.createdAt >= latest.value.createdAt)
            && (forall i :: 0 <= i < |found| && found[i].Some? ==> m.Some? && m.value.createdAt >= found[i].value.createdAt)
    decreases |found|
  {
    if found == [] {
    } else {
      PickIsNewer(latest, found[0]);
      MergeIsNewest(Pick(latest, found[0]), found[1..]);
      assert forall i :: 1 <= i < |found| ==> found[i] == found[1..][i - 1];
    }
  }

  /** The lookup of a replaceable event over relays finds an event of greatest time among all that arrived anywhere. */
  lemma {:induction false} ReplaceableLookupIsNewest(runs: seq<seq<PubkeyStep>>, pubkey: string, kind: nat)
    requires forall i :: 0 <= i < |runs| ==> KeepsKind(NoPubkeys, runs[i], pubkey, kind)
    ensures var m := Merge(None, KindHeldBy(runs, pubkey, kind));
            && (m.Some? ==> Arrived(runs, pubkey, kind, m.value))
            && (forall e :: Arrived(runs, pubkey, kind, e) ==> m.Some? && e.createdAt <= m.value.createdAt)
  {
    var found := KindHeldBy(runs, pubkey, kind);
    var m := Merge(None, found);
    MergeIsNewest(None, found);
    forall i | 0 <= i < |runs|
      ensures found[i].Some? ==> found[i].value in Arrivals(runs[i], pubkey, kind)
      ensures forall e :: e in Arrivals(runs[i], pubkey, kind) ==> m.Some? && e.createdAt <= m.value.createdAt
    {
      HeldIsNewest(runs[i], pubkey, kind);
    }
  }

  // ---------------------------------------------------------------- the objects

  lemma {:induction false} RoomKeepsOwn<K(!new), V>(s: Store<K, V>, k: K, cap: nat)
    ensures var room := MakeRoom(Touch(s, k), k, cap);
      && (k in room.items <==> k in s.items) && (k in s.items ==> room.items[k] == s.items[k])
  {
  }

  lemma {:induction false} ClockMayAdvance<K(!new), V>(s: Store<K, V>)
    requires Tracked(s)
    ensures Tracked(s.(clock := s.clock + 1))
  {
  }

  /** The event stores of one relay. */
  class EventStores {
    var addressableEvents: map<Address, Event>
    var addressableEventAccessTimes: map<Address, nat>
    var replaceableEvents: map<string, KindMap>
    var replaceableEventAccessTimes: map<string, nat>
    var clock: nat

    function Addressable(): AddressStore
      reads this
    {
      Store(addressableEvents, addressableEventAccessTimes, clock)
    }

    function Replaceable(): PubkeyStore
      reads this
    {
      Store(replaceableEvents, replaceableEventAccessTimes, clock)
    }

    /** Both stores' access times come from the one clock. */
    ghost predicate Valid()
      reads this
    {
      Tracked(Addressable()) && Tracked(Replaceable()) && AllOnePerKind(Replaceable())
    }

    constructor ()
      ensures Valid() && Addressable() == NoAddresses && Replaceable().items == map[]
    {
      addressableEvents, addressableEventAccessTimes, clock := map[], map[], 0;
      replaceableEvents, replaceableEventAccessTimes := map[], map[];
    }

    method ProcessAddressableEvent(event: Event)
      requires Valid()
      modifies this
      ensures Valid() && Addressable() == NextAddress(old(Addressable()), Process(event))
      ensures replaceableEvents == old(replaceableEvents) && replaceableEventAccessTimes == old(replaceableEventAccessTimes)
    {
      ghost var before := Addressable();
      NextTracked(before, Process(event));
      ClockMayAdvance(Replaceable());
      var addressId := AddressOf(event);
      RoomKeepsOwn(before, addressId, MaxAddressableEvents);
      TouchAddress(addressId);
      if addressId !in addressableEvents || Better(event, addressableEvents[addressId]) {
        addressableEvents := addressableEvents[addressId := event];
      }
      ghost var room := MakeRoom(Touch(before, addressId), addressId, MaxAddressableEvents);
      assert addressableEvents == Put(room, addressId, Keep(before, event)).items;
    }

    /** The access, and an eviction if the address is new to a full store. */
    method TouchAddress(addressId: Address)
      requires FromClock(addressableEventAccessTimes, clock)
      modifies this`clock, this`addressableEvents, this`addressableEventAccessTimes
      ensures clock == old(clock) + 1
      ensures Addressable() == MakeRoom(Touch(old(Addressable()), addressId), addressId, MaxAddressableEvents)
    {
      ghost var touched := Touch(Addressable(), addressId);
      clock := clock + 1;
      addressableEventAccessTimes := addressableEventAccessTimes[addressId := clock];
      assert Addressable() == touched && addressId in touched.times;
      if addressId !in addressableEvents && |addressableEvents| >= MaxAddressableEvents {
        EvictOldestAddressable();
      }
    }

    method EvictOldestAddressable()
      requires FromClock(addressableEventAccessTimes, clock) && addressableEventAccessTimes != map[]
      modifies this`addressableEvents, this`addressableEventAccessTimes
      ensures Addressable() == Evict(old(Addressable()), Oldest(old(addressableEventAccessTimes)))
    {
      var oldestId := FindOldest(addressableEventAccessTimes);
      OldestIsUnique(addressableEventAccessTimes, clock, oldestId);
      addressableEvents := addressableEvents - {oldestId};
      addressableEventAccessTimes := addressableEventAccessTimes - {oldestId};
    }

    /** A lookup counts as an access, also when nothing is found. */
    method GetLatestAddressableEvent(address: Address) returns (found: Option<Event>)
      requires Valid()
      modifies this
      ensures Valid() && Addressable() == Touch(old(Addressable()), address)
      ensures found == Stored(old(Addressable()), address)
    {
      clock := clock + 1;
      addressableEventAccessTimes := addressableEventAccessTimes[address := clock];
      found := if address in addressableEvents then Some(addressableEvents[address]) else None;
    }

    method ProcessReplaceableEvent(event: Event)
      requires Valid()
      modifies this
      ensures Valid() && Replaceable() == NextPubkey(old(Replaceable()), ProcessFor(event))
      ensures addressableEvents == old(addressableEvents) && addressableEventAccessTimes == old(addressableEventAccessTimes)
    {
      ghost var before := Replaceable();
      NextPubkeyInvariant(before, ProcessFor(event));
      ClockMayAdvance(Addressable());
      var pubkey := event.pubkey;
      RoomKeepsOwn(before, pubkey, MaxReplaceablePubkeys);
      assert pubkey in Touch(before, pubkey).times;
      TouchPubkey(pubkey);
      var kindMap := if pubkey in replaceableEvents then replaceableEvents[pubkey] else [];
      assert kindMap == KindsOf(before, pubkey);
      kindMap := UpdateKindMap(kindMap, event);
      replaceableEvents := replaceableEvents[pubkey := kindMap];
      ghost var room := MakeRoomForPubkey(Touch(before, pubkey), pubkey);
      assert Replaceable() == Put(room, pubkey, StoreKind(KindsOf(before, pubkey), event));
    }

    method TouchPubkey(pubkey: string)
      requires FromClock(replaceableEventAccessTimes, clock)
      modifies this`clock, this`replaceableEvents, this`replaceableEventAccessTimes
      ensures clock == old(clock) + 1
      ensures Replaceable() == MakeRoomForPubkey(Touch(old(Replaceable()), pubkey), pubkey)
    {
      ghost var touched := Touch(Replaceable(), pubkey);
      clock := clock + 1;
      replaceableEventAccessTimes := replaceableEventAccessTimes[pubkey := clock];
      assert Replaceable() == touched && pubkey in touched.times;
      if pubkey !in replaceableEvents && |replaceableEvents| >= MaxReplaceablePubkeys {
        EvictOldestPubkey();
      }
    }

    static method UpdateKindMap(stored: KindMap, event: Event) returns (kindMap: KindMap)
      ensures kindMap == StoreKind(stored, event)
    {
      kindMap := stored;
      var existing := KindIndex(kindMap, event.kind);
      if existing < 0 {
        if |kindMap| >= MaxReplaceableKinds { kindMap := RemoveAt(kindMap, OldestIndex(kindMap)); }
        kindMap := kindMap + [event];
      } else if event.createdAt > kindMap[existing].createdAt {
        kindMap := kindMap[existing := event];
      }
    }

    method EvictOldestPubkey()
      requires FromClock(replaceableEventAccessTimes, clock) && replaceableEventAccessTimes != map[]
      modifies this`replaceableEvents, this`replaceableEventAccessTimes
      ensures var o := Oldest(old(replaceableEventAccessTimes));
              Replaceable() == if o == "" then old(Replaceable()) else Evict(old(Replaceable()), o)
    {
      var oldestPubkey := FindOldest(replaceableEventAccessTimes);
      OldestIsUnique(replaceableEventAccessTimes, clock, oldestPubkey);
      if oldestPubkey != "" {
        replaceableEvents := replaceableEvents - {oldestPubkey};
        replaceableEventAccessTimes := replaceableEventAccessTimes - {oldestPubkey};
      }
    }

    method GetLatestReplaceableEvent(pubkey: string, kind: nat) returns (found: Option<Event>)
      requires Valid()
      modifies this
      ensures Valid() && Replaceable() == Touch(old(Replaceable()), pubkey)
      ensures found == Latest(old(Replaceable()), pubkey, kind)
    {
      clock := clock + 1;
      replaceableEventAccessTimes := replaceableEventAccessTimes[pubkey := clock];
      var kindMap := if pubkey in replaceableEvents then replaceableEvents[pubkey] else [];
      found := Held(kindMap, kind);
    }
  }

  /** The client: a collection of relays. */
  class Nostr {
    const relays: seq<EventStores>

    constructor (relays: seq<EventStores>)
      ensures this.relays == relays
    {
      this.relays := relays;
    }

    /** What the relays hold for an address, in the order the client goes through them. */
    ghost function Found(address: Address): seq<Option<Event>>
      reads relays
    {
      seq(|relays|, i requires 0 <= i < |relays| reads relays => Stored(relays[i].Addressable(), address))
    }

    ghost function FoundKind(pubkey: string, kind: nat): seq<Option<Event>>
      reads relays
    {
      seq(|relays|, i requires 0 <= i < |relays| reads relays => Latest(relays[i].Replaceable(), pubkey, kind))
    }

    method GetLatestReplaceableEvent(pubkey: string, kind: nat) returns (latest: Option<Event>)
      requires forall i :: 0 <= i < |relays| ==> relays[i].Valid()
      requires forall i, j :: 0 <= i < j < |relays| ==> relays[i] != relays[j]
      modifies relays
      ensures latest == Merge(None, old(FoundKind(pubkey, kind)))
      ensures forall i :: 0 <= i < |relays| ==>
                relays[i].Valid() && relays[i].Replaceable() == Touch(old(relays[i].Replaceable()), pubkey)
    {
      latest := None;
      ghost var found := FoundKind(pubkey, kind);
      assert found[0..] == found;
      for i := 0 to |relays|
        invariant forall j :: 0 <= j < i ==>
          relays[j].Valid() && relays[j].Replaceable() == Touch(old(relays[j].Replaceable()), pubkey)
        invariant forall j :: i <= j < |relays| ==> unchanged(relays[j])
        invariant Merge(latest, found[i..]) == Merge(None, found[0..])
      {
        MergeTurn(latest, found, i);
        assert old(relays[i].Valid()) && found[i] == old(Latest(relays[i].Replaceable(), pubkey, kind));
        latest := Consult(i, latest, pubkey, kind);
      }
    }

    method Consult(i: nat, latest: Option<Event>, pubkey: string, kind: nat) returns (better: Option<Event>)
      requires i < |relays| && relays[i].Valid()
      modifies relays[i]
      ensures relays[i].Valid() && relays[i].Replaceable() == Touch(old(relays[i].Replaceable()), pubkey)
      ensures better == Pick(latest, old(Latest(relays[i].Replaceable(), pubkey, kind)))
    {
      better := latest;
      var event := relays[i].GetLatestReplaceableEvent(pubkey, kind);
      if event.Some? && (latest.None? || Better(event.value, latest.value)) {
        better := event;
      }
    }

    method ConsultAddress(i: nat, latest: Option<Event>, address: Address) returns (better: Option<Event>)
      requires i < |relays| && relays[i].Valid()
      modifies relays[i]
      ensures relays[i].Valid() && relays[i].Addressable() == Touch(old(relays[i].Addressable()), address)
      ensures better == Pick(latest, old(Stored(relays[i].Addressable(), address)))
    {
      better := latest;
      var event := relays[i].GetLatestAddressableEvent(address);
      if event.Some? && (latest.None? || Better(event.value, latest.value)) {
        better := event;
      }
    }

    method GetLatestAddressableEvent(address: Address) returns (latest: Option<Event>)
      requires forall i :: 0 <= i < |relays| ==> relays[i].Valid()
      requires forall i, j :: 0 <= i < j < |relays| ==> relays[i] != relays[j]
      modifies relays
      ensures latest == Merge(None, old(Found(address)))
      ensures forall i :: 0 <= i < |relays| ==>
                relays[i].Valid() && relays[i].Addressable() == Touch(old(relays[i].Addressable()), address)
    {
      latest := None;
      ghost var found := Found(address);
      assert found[0..] == found;
      for i := 0 to |relays|
        invariant forall j :: 0 <= j < i ==>
          relays[j].Valid() && relays[j].Addressable() == Touch(old(relays[j].Addressable()), address)
        invariant forall j :: i <= j < |relays| ==> unchanged(relays[j])
        invariant Merge(latest, found[i..]) == Merge(None, found[0..])
      {
        MergeTurn(latest, found, i);
        assert old(relays[i].Valid()) && found[i] == old(Stored(relays[i].Addressable(), address));
        latest := ConsultAddress(i, latest, address);
      }
    }
  }
}
