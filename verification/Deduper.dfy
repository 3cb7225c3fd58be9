/** cmd/aggregator/main.go: alerts seen before are suppressed; a cleanup loop evicts old entries. */
module Dedup {
  import opened Clock
  import opened Ticks

  /** Detector, symbol, and the alert's timestamp truncated to the window, in whole seconds. */
  datatype Key = Key(detector: Detector, symbol: Str, bucket: int)

  function KeyOf(window: Duration, a: Alert): Key {
    Key(a.detector, a.symbol, UnixSecond(Truncate(a.timestamp, window)))
  }

  type Cache = map<Key, Time>

  // ---------------------------------------------------------------- atomic steps, as values

  /** What one goroutine does between taking and releasing the lock, or before taking it. */
  datatype Event =
    | Arrive(alert: Alert, now: Time)  // isDup
    | ReadClock(now: Time)             // cleanup computes its cutoff, not holding the lock
    | Sweep                            // cleanup deletes, holding the lock

  /** The cleanup goroutine's local cutoff, while it waits for the lock. */
  datatype Cleaner = Idle | Waiting(cutoff: Time)

  datatype State = State(cache: Cache, cleaner: Cleaner)

  const INITIAL := State(map[], Idle)

  function Evict(cache: Cache, cutoff: Time): Cache {
    map k | k in cache && cache[k] >= cutoff :: cache[k]
  }

  function IsDup(window: Duration, cache: Cache, a: Alert): bool {
    KeyOf(window, a) in cache
  }

  function Insert(window: Duration, cache: Cache, a: Alert, now: Time): Cache {
    if IsDup(window, cache, a) then cache else cache[KeyOf(window, a) := now]
  }

  function Next(window: Duration, s: State, e: Event): State {
    match e
    case Arrive(a, now) => s.(cache := Insert(window, s.cache, a, now))
    case ReadClock(now) => s.(cleaner := Waiting(now - 2 * window))
    case Sweep => if s.cleaner.Idle? then s else State(Evict(s.cache, s.cleaner.cutoff), Idle)
  }

  // ---------------------------------------------------------------- the deduper, in place

  class Deduper {
    var cache: Cache
    const window: Duration

    constructor (window: Duration)
      ensures cache == map[] && this.window == window
    {
      this.window := window;
      cache := map[];
    }

    /** `now` is read while the lock is held. */
    method Check(a: Alert, now: Time) returns (dup: bool)
      modifies this`cache
      ensures dup == IsDup(window, old(cache), a)
      ensures cache == Insert(window, old(cache), a, now)
    {
      var key := Key(a.detector, a.symbol, UnixSecond(Truncate(a.timestamp, window)));
      if key in cache {
        return true;
      }
      cache := cache[key := now];
      return false;
    }

    /** One pass of the cleanup loop, its cutoff computed beforehand. */
    method Clean(cutoff: Time)
      modifies this`cache
      ensures cache == Evict(old(cache), cutoff)
    {
      var keys := cache.Keys;
      while keys != {}
        invariant keys <= cache.Keys
        invariant Evict(cache, cutoff) == Evict(old(cache), cutoff)
        invariant forall k :: k in cache && k !in keys ==> cache[k] >= cutoff
        decreases keys
      {
        var k :| k in keys;
        if cache[k] < cutoff {
          cache := cache - {k};
        }
        keys := keys - {k};
      }
    }
  }
}
