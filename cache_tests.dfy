/**
  The scenarios of pokecache/cache_test.go, run against the `Cache` class with
  the sleeps replaced by explicit times and the reaper by explicit sweeps.
*/
module CacheTests {
  import opened Wrappers
  import opened PokeCache
  import opened CacheTrace

  /** Plays a sequence of adds and reaper sweeps on a fresh cache; the result is what `Replay` says. */
  method Play(interval: int, evs: seq<Event>) returns (c: Cache)
    ensures c.interval == interval
    ensures c.entries == Replay(interval, evs)
  {
    c := new Cache(interval);
    for i := 0 to |evs|
      invariant c.interval == interval
      invariant c.entries == Replay(interval, evs[..i])
    {
      assert evs[..i + 1][..i] == evs[..i];
      match evs[i]
      case Put(key, val, at) => c.Add(key, val, at);
      case Sweep(at) => c.Reap(at);
    }
    assert evs[..|evs|] == evs;
  }

  /** TestAddGet: in a fresh cache, `Add(key, val)` then `Get(key)` finds exactly `val`. */
  method AddGet(interval: int, key: string, val: Bytes, now: int) returns (got: Bytes, ok: bool)
    ensures ok && got == val
  {
    var cache := new Cache(interval);
    cache.Add(key, val, now);
    got, ok := cache.Get(key);
  }

  /**
    TestCache and TestReapLoop in general form: add at `added`, get at once, let the
    reaper sweep at `sweptAt`, get again. The first get hits; the second hits exactly
    when no more than one interval separates the add from the sweep.
  */
  method AddSweepGet(interval: int, key: string, val: Bytes, added: int, sweptAt: int)
    returns (first: bool, firstVal: Bytes, later: bool)
    ensures first && firstVal == val
    ensures later <==> sweptAt - added <= interval
  {
    var cache := new Cache(interval);
    cache.Add(key, val, added);
    firstVal, first := cache.Get(key);
    cache.Reap(sweptAt);
    var _, found := cache.Get(key);
    later := found;
  }

  /** The bytes of "testData". */
  const TestData: Bytes := [116, 101, 115, 116, 68, 97, 116, 97]

  /** The bytes of "testdata". */
  const TestDataLower: Bytes := [116, 101, 115, 116, 100, 97, 116, 97]

  /**
    TestReapLoop with the reaper ticking every 5ms from creation: the entry, added
    1ns after creation, survives the tick at 5ms and is gone after the tick at 10ms,
    when the test looks again.
  */
  method ReapLoop() returns (first: bool, later: bool)
    ensures first && !later
  {
    var cache := new Cache(5 * Millisecond);
    cache.Add("https://example.com", TestDataLower, 1);
    var _, hit := cache.Get("https://example.com");
    first := hit;
    cache.Reap(5 * Millisecond);
    cache.Reap(10 * Millisecond);
    var _, hitLater := cache.Get("https://example.com");
    later := hitLater;
  }

  /**
    TestCache as written, with the reaper ticking every 2s from creation: the entry,
    added 1ns after creation, survives the tick at 2s (its cutoff is time 0), and the
    next tick is at 4s, so the get 3s after the add still finds it.
  */
  method TestCacheAsWritten() returns (first: bool, atThreeSeconds: bool)
    ensures first && atThreeSeconds
  {
    var cache := new Cache(2 * Second);
    cache.Add("testKey", TestData, 1);
    var _, hit := cache.Get("testKey");
    first := hit;
    cache.Reap(2 * Second);
    var _, hitLater := cache.Get("testKey");
    atThreeSeconds := hitLater;
  }

  /**
    TestCache waiting past two intervals, as bounded staleness requires: after the
    ticks at 2s and 4s the entry is gone.
  */
  method TestCacheTwoIntervals() returns (first: bool, afterTwoIntervals: bool)
    ensures first && !afterTwoIntervals
  {
    var cache := new Cache(2 * Second);
    cache.Add("testKey", TestData, 1);
    var _, hit := cache.Get("testKey");
    first := hit;
    cache.Reap(2 * Second);
    cache.Reap(4 * Second);
    var _, hitLater := cache.Get("testKey");
    afterTwoIntervals := hitLater;
  }
}
