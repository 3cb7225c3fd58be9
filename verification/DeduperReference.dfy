/** The deduper against a reference that has no cache: only alerts, clock readings and sweeps. */
module DedupReference {
  import opened Clock
  import opened Dedup
  import opened DedupRuns
  import opened Ticks

  // ---------------------------------------------------------------- the reference

  /** Two alerts that count as one: same detector, same symbol, same window of time. */
  predicate Alike(window: Duration, a: Alert, b: Alert)
    requires window > 0
  {
    a.detector == b.detector && a.symbol == b.symbol && a.timestamp / window == b.timestamp / window
  }

  /** The clock reading that a sweep just before event `n` would use: the last one not yet swept; -1 if none. */
  function Reading(events: seq<Event>, n: nat): (r: int)
    requires n <= |events|
    ensures -1 <= r < n && (r >= 0 ==> events[r].ReadClock?)
  {
    if n == 0 then -1
    else if events[n - 1].ReadClock? then n - 1
    else if events[n - 1].Sweep? then -1
    else Reading(events, n - 1)
  }

  /** Event `s` sweeps away what arrived at `at`: its clock was read more than two windows later. */
  predicate SweepsAway(window: Duration, events: seq<Event>, s: nat, at: Time) {
    && s < |events| && events[s].Sweep? && Reading(events, s) >= 0
    && at < events[Reading(events, s)].now - 2 * window
  }

  /** Some sweep between the arrival `j` and event `n` has forgotten it. */
  predicate Forgotten(window: Duration, events: seq<Event>, j: nat, n: nat)
    requires j < |events| && events[j].Arrive?
  {
    exists s :: j < s < n && SweepsAway(window, events, s, events[j].now)
  }

  /** An arrival is forwarded when every alike alert forwarded before it has been forgotten. */
  predicate Forwards(window: Duration, events: seq<Event>, i: nat)
    requires window > 0 && i < |events|
    decreases i
  {
    && events[i].Arrive?
    && forall j :: 0 <= j < i && Forwards(window, events, j) && Alike(window, events[j].alert, events[i].alert)
                   ==> Forgotten(window, events, j, i)
  }

  // ---------------------------------------------------------------- keys

  /** Two alerts have one key exactly when they are alike, for windows of at least a second. */
  lemma AlikeIff(window: Duration, a: Alert, b: Alert)
    requires window >= SECOND
    ensures KeyOf(window, a) == KeyOf(window, b) <==> Alike(window, a, b)
  {
    var p, q := a.timestamp / window, b.timestamp / window;
    assert Truncate(a.timestamp, window) == p * window && Truncate(b.timestamp, window) == q * window;
    if KeyOf(window, a) == KeyOf(window, b) {
      SameBucket(window, a.timestamp, b.timestamp);
      SameMultiple(p, q, window);
    }
  }

  lemma SameMultiple(p: int, q: int, w: int)
    requires w > 0 && p * w == q * w
    ensures p == q
  {
    MultiplesApart(p, q, w);
    MultiplesApart(q, p, w);
  }

  // ---------------------------------------------------------------- the cache holds what is remembered

  lemma {:induction false} CleanerIs(window: Duration, events: seq<Event>, n: nat)
    requires n <= |events|
    ensures var r, cleaner := Reading(events, n), StateAt(window, events, n).cleaner;
            if r < 0 then cleaner == Idle else cleaner == Waiting(events[r].now - 2 * window)
  {
    if n > 0 {
      CleanerIs(window, events, n - 1);
    }
  }

  /** A forwarded arrival with this key that no sweep has forgotten. */
  predicate Remembered(window: Duration, events: seq<Event>, j: nat, n: nat, k: Key) {
    Passed(window, events, j) && KeyOf(window, events[j].alert) == k && !Forgotten(window, events, j, n)
  }

  lemma ForgottenStep(window: Duration, events: seq<Event>, j: nat, n: nat)
    requires j < n <= |events| && events[j].Arrive?
    ensures Forgotten(window, events, j, n)
            <==> (j < n - 1 && Forgotten(window, events, j, n - 1))
                 || (j < n - 1 && SweepsAway(window, events, n - 1, events[j].now))
  {
    hide SweepsAway;
  }

  /** What one event does to the entry of a key. */
  lemma EntryStep(window: Duration, events: seq<Event>, n: nat, k: Key)
    requires 0 < n <= |events|
    ensures var e := events[n - 1];
            var before, after := StateAt(window, events, n - 1).cache, StateAt(window, events, n).cache;
            if e.Arrive? && KeyOf(window, e.alert) == k && k !in before then k in after && after[k] == e.now
            else if k in before && !SweepsAway(window, events, n - 1, before[k])
            then k in after && after[k] == before[k]
            else k !in after
  {
    CleanerIs(window, events, n - 1);
    hide Reading, KeyOf;
  }

  lemma {:induction false} CachedIsRemembered(window: Duration, events: seq<Event>, n: nat, k: Key) returns (j: nat)
    requires n <= |events| && k in StateAt(window, events, n).cache
    ensures j < n && Remembered(window, events, j, n, k) && StateAt(window, events, n).cache[k] == events[j].now
  {
    hide StateAt, SweepsAway, Forgotten, KeyOf, Reading;
    NothingCached(window, events);
    EntryStep(window, events, n, k);
    if k in StateAt(window, events, n - 1).cache {
      j := CachedIsRemembered(window, events, n - 1, k);
      ForgottenStep(window, events, j, n);
    } else {
      j := n - 1;
      ForgottenStep(window, events, j, n);
    }
  }

  lemma NothingCached(window: Duration, events: seq<Event>)
    ensures StateAt(window, events, 0).cache == map[]
  {}

  lemma {:induction false} RememberedIsCached(window: Duration, events: seq<Event>, j: nat, n: nat, k: Key)
    requires j < n <= |events| && Remembered(window, events, j, n, k)
    ensures k in StateAt(window, events, n).cache && StateAt(window, events, n).cache[k] == events[j].now
  {
    hide StateAt, SweepsAway, Forgotten, KeyOf, Reading;
    EntryStep(window, events, n, k);
    if j < n - 1 {
      ForgottenStep(window, events, j, n);
      RememberedIsCached(window, events, j, n - 1, k);
    }
  }

  // ---------------------------------------------------------------- the two agree

  /**
   * In every interleaving of arrivals, clock readings and sweeps, exactly those arrivals are forwarded that
   * the reference forwards.
   */
  lemma {:induction false} ForwardedIff(window: Duration, events: seq<Event>, i: nat)
    requires window >= SECOND && i < |events|
    ensures Passed(window, events, i) <==> Forwards(window, events, i)
  {
    if events[i].Arrive? {
      var k := KeyOf(window, events[i].alert);
      forall j | 0 <= j < i
        ensures Passed(window, events, j) <==> Forwards(window, events, j)
        ensures Forwards(window, events, j)
                ==> (KeyOf(window, events[j].alert) == k <==> Alike(window, events[j].alert, events[i].alert))
      {
        ForwardedIff(window, events, j);
        if events[j].Arrive? {
          AlikeIff(window, events[j].alert, events[i].alert);
        }
      }
      hide StateAt, SweepsAway, Forgotten, KeyOf, Alike, Reading;
      if k in StateAt(window, events, i).cache {
        var j := CachedIsRemembered(window, events, i, k);
        assert Forwards(window, events, j) && !Forgotten(window, events, j, i);
      } else {
        forall j | 0 <= j < i && Forwards(window, events, j) && Alike(window, events[j].alert, events[i].alert)
          ensures Forgotten(window, events, j, i)
        {
          if !Forgotten(window, events, j, i) {
            RememberedIsCached(window, events, j, i, k);
          }
        }
      }
    }
  }

  /** A new deduper object, driven through any interleaving, forwards exactly what the reference forwards. */
  method Drive(window: Duration, events: seq<Event>) returns (forwarded: seq<bool>)
    requires window >= SECOND
    ensures |forwarded| == |events|
    ensures forall i :: 0 <= i < |events| ==> (forwarded[i] <==> Forwards(window, events, i))
  {
    hide KeyOf, Evict;
    var d := new Deduper(window);
    var cleaner := Idle;
    forwarded := [];
    for i := 0 to |events|
      invariant fresh(d) && d.window == window && |forwarded| == i
      invariant State(d.cache, cleaner) == StateAt(window, events, i)
      invariant forall j :: 0 <= j < i ==> (forwarded[j] <==> Passed(window, events, j))
    {
      match events[i] {
        case Arrive(alert, now) =>
          var dup := d.Check(alert, now);
          forwarded := forwarded + [!dup];
        case ReadClock(now) =>
          cleaner := Waiting(now - 2 * window);
          forwarded := forwarded + [false];
        case Sweep =>
          if cleaner.Waiting? {
            d.Clean(cleaner.cutoff);
            cleaner := Idle;
          }
          forwarded := forwarded + [false];
      }
    }
    hide Forwards, Passed;
    forall i | 0 <= i < |events|
      ensures forwarded[i] <==> Forwards(window, events, i)
    {
      ForwardedIff(window, events, i);
    }
  }
}
