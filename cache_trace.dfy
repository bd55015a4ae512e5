/**
  The life of one cache as a sequence of events: each `Add` stamped with its
  time and each sweep of the reaper. Replaying the events gives the entries
  that `Get` observes afterwards.
*/
module CacheTrace {
  import opened Wrappers
  import opened PokeCache

  datatype Event = Put(key: string, val: Bytes, at: int) | Sweep(at: int)

  /** The effect of one event on the entries, as `Cache.Add` and `Cache.Reap` perform it. */
  function Apply(entries: map<string, Entry>, interval: int, e: Event): map<string, Entry> {
    match e
    case Put(key, val, at) => entries[key := Entry(val, at)]
    case Sweep(at) => Reaped(entries, at - interval)
  }

  /** The entries of a cache created empty with `interval` after the events `evs`. */
  function Replay(interval: int, evs: seq<Event>): map<string, Entry>
    decreases |evs|
  {
    if evs == [] then map[]
    else Apply(Replay(interval, evs[..|evs| - 1]), interval, evs[|evs| - 1])
  }

  predicate IsPutOf(e: Event, key: string) {
    e.Put? && e.key == key
  }

  /** The index of the last `Add` of `key`, if any. */
  function LastPut(evs: seq<Event>, key: string): (r: Option<nat>)
    ensures r.Some? ==> r.value < |evs| && IsPutOf(evs[r.value], key)
    ensures r.Some? ==> forall j :: r.value < j < |evs| ==> !IsPutOf(evs[j], key)
    ensures r.None? ==> forall j :: 0 <= j < |evs| ==> !IsPutOf(evs[j], key)
    decreases |evs|
  {
    if evs == [] then None
    else if IsPutOf(evs[|evs| - 1], key) then Some(|evs| - 1)
    else LastPut(evs[..|evs| - 1], key)
  }

  /** Some sweep after event `i` ran more than one interval after event `i`'s time. */
  predicate SweptAfter(evs: seq<Event>, i: nat, interval: int)
    requires i < |evs|
  {
    exists j :: i < j < |evs| && evs[j].Sweep? && evs[j].at - interval > evs[i].at
  }

  /**
    What `Get(key)` sees after any sequence of adds and sweeps: the value of the
    last `Add` of `key`, unless a later sweep ran more than one interval after
    that `Add`; otherwise a miss.
  */
  lemma {:induction false} ReplayLookup(interval: int, evs: seq<Event>, key: string)
    ensures key in Replay(interval, evs) <==>
      LastPut(evs, key).Some? && !SweptAfter(evs, LastPut(evs, key).value, interval)
    ensures key in Replay(interval, evs) ==>
      var i := LastPut(evs, key).value;
      Replay(interval, evs)[key] == Entry(evs[i].val, evs[i].at)
    decreases |evs|
  {
    if evs != [] {
      var n := |evs| - 1;
      var prefix := evs[..n];
      ReplayLookup(interval, prefix, key);
      var e := evs[n];
      if !IsPutOf(e, key) {
        assert LastPut(evs, key) == LastPut(prefix, key);
        if LastPut(prefix, key).Some? {
          var i := LastPut(prefix, key).value;
          SweptAfterExtend(prefix, e, i, interval);
          assert prefix + [e] == evs;
        }
      }
    }
  }

  /** One more event adds to the sweeps after event `i` only if it is itself a late sweep. */
  lemma SweptAfterExtend(evs: seq<Event>, e: Event, i: nat, interval: int)
    requires i < |evs|
    ensures SweptAfter(evs + [e], i, interval) <==>
      SweptAfter(evs, i, interval) || (e.Sweep? && e.at - interval > evs[i].at)
  {
    var evs' := evs + [e];
    if SweptAfter(evs, i, interval) {
      var j :| i < j < |evs| && evs[j].Sweep? && evs[j].at - interval > evs[i].at;
      assert evs'[j] == evs[j];
    }
    if e.Sweep? && e.at - interval > evs[i].at {
      assert evs'[|evs|] == e;
    }
    if SweptAfter(evs', i, interval) {
      var j :| i < j < |evs'| && evs'[j].Sweep? && evs'[j].at - interval > evs'[i].at;
      assert j < |evs| ==> evs[j] == evs'[j];
    }
  }

  /** Add then Get: the value just added is found, whatever came before. */
  lemma AddThenGet(interval: int, evs: seq<Event>, key: string, val: Bytes, now: int)
    ensures Lookup(Replay(interval, evs + [Put(key, val, now)]), key) == Some(val)
  {
    var evs' := evs + [Put(key, val, now)];
    ReplayLookup(interval, evs', key);
  }

  /** A key that was never added is not found. */
  lemma NeverAddedMisses(interval: int, evs: seq<Event>, key: string)
    requires forall j :: 0 <= j < |evs| ==> !IsPutOf(evs[j], key)
    ensures Lookup(Replay(interval, evs), key) == None
  {
    ReplayLookup(interval, evs, key);
  }

  /** No premature expiry: if every sweep after the last add of `key` ran at most one
      interval after it, the added value is still found. */
  lemma NoPrematureExpiry(interval: int, evs: seq<Event>, key: string)
    requires LastPut(evs, key).Some?
    requires forall j :: LastPut(evs, key).value < j < |evs| && evs[j].Sweep? ==>
      evs[j].at - evs[LastPut(evs, key).value].at <= interval
    ensures Lookup(Replay(interval, evs), key) == Some(evs[LastPut(evs, key).value].val)
  {
    ReplayLookup(interval, evs, key);
  }

  /** Expiry: once a sweep runs more than one interval after the last add of `key`,
      `key` is not found. */
  lemma ExpiredAfterSweep(interval: int, evs: seq<Event>, key: string, j: nat)
    requires LastPut(evs, key).Some?
    requires LastPut(evs, key).value < j < |evs| && evs[j].Sweep?
    requires evs[j].at - evs[LastPut(evs, key).value].at > interval
    ensures Lookup(Replay(interval, evs), key) == None
  {
    ReplayLookup(interval, evs, key);
  }

  /** The reaper's ticks: it sweeps at `n * interval` for n = 1, 2, ... after the cache is
      created at time 0. The first tick that removes an entry added at `t0 >= 0` is tick
      number `t0 / interval + 2`, which comes at most two intervals after `t0`; the tick
      before it is at most one interval after `t0` and keeps the entry. */
  lemma {:induction false} RemovingTick(t0: int, interval: int)
    requires interval > 0 && t0 >= 0
    ensures var n := t0 / interval + 2;
      n >= 2 && n * interval - t0 > interval && n * interval <= t0 + 2 * interval
      && (n - 1) * interval - t0 <= interval
  {
    var q, r := t0 / interval, t0 % interval;
    assert t0 == q * interval + r && 0 <= r < interval;
    assert (q + 2) * interval == q * interval + 2 * interval;
    assert (q + 1) * interval == q * interval + interval;
  }

  /**
    Bounded staleness: with the reaper ticking every interval, an entry added at
    `t0 >= 0` is gone after the tick numbered `t0 / interval + 2`, no later than
    `t0 + 2 * interval`.
  */
  lemma StalenessBound(interval: int, evs: seq<Event>, key: string, j: nat)
    requires interval > 0
    requires LastPut(evs, key).Some? && evs[LastPut(evs, key).value].at >= 0
    requires LastPut(evs, key).value < j < |evs|
    requires evs[j] == Sweep((evs[LastPut(evs, key).value].at / interval + 2) * interval)
    ensures evs[j].at <= evs[LastPut(evs, key).value].at + 2 * interval
    ensures Lookup(Replay(interval, evs), key) == None
  {
    RemovingTick(evs[LastPut(evs, key).value].at, interval);
    ExpiredAfterSweep(interval, evs, key, j);
  }
}
