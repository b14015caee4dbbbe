/** Access-time bookkeeping shared by the relay's bounded collections: which key was used longest ago. */
module AccessTimes {

  ghost predicate IsOldest<K(!new)>(times: map<K, nat>, k: K) {
    k in times && forall j :: j in times ==> times[k] <= times[j]
  }

  /** Times taken from a strictly increasing clock that now shows `clock`. */
  ghost predicate FromClock<K(!new)>(times: map<K, nat>, clock: nat) {
    && (forall k :: k in times ==> times[k] <= clock)
    && (forall j, k :: j in times && k in times && times[j] == times[k] ==> j == k)
  }

  lemma {:induction false} RemovalKeepsClock<K(!new)>(times: map<K, nat>, clock: nat, k: K)
    requires FromClock(times, clock)
    ensures FromClock(times - {k}, clock)
  {
  }

  lemma {:induction false} OldestExists<K(!new)>(times: map<K, nat>)
    requires times != map[]
    ensures exists k :: IsOldest(times, k)
    decreases |times|
  {
    var k :| k in times;
    var rest := times - {k};
    assert rest.Keys == times.Keys - {k};
    if rest == map[] {
      assert forall j :: j in times ==> j == k || j in rest;
      assert IsOldest(times, k);
    } else {
      OldestExists(rest);
      var o :| IsOldest(rest, o);
      assert forall j :: j in times ==> j == k || j in rest;
      if times[k] <= times[o] { assert IsOldest(times, k); } else { assert IsOldest(times, o); }
    }
  }

  ghost function Oldest<K(!new)>(times: map<K, nat>): (k: K)
    requires times != map[]
    ensures IsOldest(times, k)
  {
    OldestExists(times);
    var k :| IsOldest(times, k);
    k
  }

  /** With a strictly increasing clock the oldest key is unique, so any search for it finds the same one. */
  lemma {:induction false} OldestIsUnique<K(!new)>(times: map<K, nat>, clock: nat, k: K)
    requires FromClock(times, clock) && IsOldest(times, k)
    ensures Oldest(times) == k
  {
    assert times[Oldest(times)] == times[k];
  }

  /** The linear search of the eviction functions. */
  method FindOldest<K(==, !new)>(times: map<K, nat>) returns (oldest: K)
    requires times != map[]
    ensures IsOldest(times, oldest)
  {
    var todo := times.Keys;
    oldest :| oldest in todo;
    todo := todo - {oldest};
    while todo != {}
      invariant todo <= times.Keys && oldest in times
      invariant forall j :: j in times ==> j in todo || times[oldest] <= times[j]
    {
      var k :| k in todo;
      if times[k] < times[oldest] { oldest := k; }
      todo := todo - {k};
    }
  }
}
