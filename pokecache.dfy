/**
  `pokecache.Cache`: an in-memory map from request URL to raw response bytes,
  each entry stamped with the time it was added; a reaper removes entries older
  than one interval. Wall-clock time is an explicit `now` (nanoseconds) and the
  background reaper is an explicit `Reap(now)` step.
*/
module PokeCache {
  import opened Wrappers

  newtype byte = b: int | 0 <= b < 256
  type Bytes = seq<byte>

  /** Go's `time.Duration` units, in nanoseconds. */
  const Millisecond: int := 1_000_000
  const Second: int := 1_000_000_000

  /** A cached value and the time it was added. */
  datatype Entry = Entry(val: Bytes, createdAt: int)

  /** What `Get` reports for `key`: the stored bytes, or absence. */
  function Lookup(entries: map<string, Entry>, key: string): (r: Option<Bytes>)
    ensures r.Some? <==> key in entries
    ensures r.Some? ==> r.value == entries[key].val
  {
    if key in entries then Some(entries[key].val) else None
  }

  /** The entries a reap keeps: those created at or after `cutoff`. */
  function Reaped(entries: map<string, Entry>, cutoff: int): (r: map<string, Entry>)
    ensures forall k :: k in r <==> k in entries && entries[k].createdAt >= cutoff
    ensures forall k :: k in r ==> r[k] == entries[k]
  {
    map k | k in entries && entries[k].createdAt >= cutoff :: entries[k]
  }

  /** Reaping at `now` keeps an entry exactly when at most one interval has passed since it was added. */
  lemma ReapKeepsFresh(entries: map<string, Entry>, interval: int, now: int, key: string)
    requires key in entries
    ensures Lookup(Reaped(entries, now - interval), key)
         == if now - entries[key].createdAt <= interval then Some(entries[key].val) else None
  {
  }

  class Cache {
    var entries: map<string, Entry>
    const interval: int

    /** `NewCache(interval)`: an empty cache whose reaper uses `interval`. */
    constructor (interval: int)
      ensures this.interval == interval && entries == map[]
    {
      this.interval := interval;
      entries := map[];
    }

    /** `Add`: insert or overwrite the entry for `key`, stamped with `now`. */
    method Add(key: string, val: Bytes, now: int)
      modifies this
      ensures entries == old(entries)[key := Entry(val, now)]
    {
      entries := entries[key := Entry(val, now)];
    }

    /** `Get`: the stored bytes and true, or empty bytes and false; it never checks expiry. */
    method Get(key: string) returns (val: Bytes, found: bool)
      ensures found <==> key in entries
      ensures found ==> val == entries[key].val
      ensures !found ==> val == []
    {
      if key in entries {
        val, found := entries[key].val, true;
      } else {
        val, found := [], false;
      }
    }

    /** One sweep of the reaper at time `now`: remove every entry created before `now - interval`. */
    method Reap(now: int)
      modifies this
      ensures entries == Reaped(old(entries), now - interval)
    {
      entries := Reaped(entries, now - interval);
    }
  }
}
