/** The deduper over every interleaving of arrivals and cleanup. */
module DedupRuns {
  import opened Algebra
  import opened Clock
  import opened Dedup
  import opened Runs
  import opened Ticks

  /** The shared state after the first `n` events. */
  function StateAt(window: Duration, events: seq<Event>, n: nat): State
    requires n <= |events|
  {
    if n == 0 then INITIAL else Next(window, StateAt(window, events, n - 1), events[n - 1])
  }

  /** Event `i` is an arrival that is forwarded. */
  predicate Passed(window: Duration, events: seq<Event>, i: nat) {
    i < |events| && events[i].Arrive? && !IsDup(window, StateAt(window, events, i).cache, events[i].alert)
  }

  predicate Suppressed(window: Duration, events: seq<Event>, i: nat) {
    i < |events| && events[i].Arrive? && IsDup(window, StateAt(window, events, i).cache, events[i].alert)
  }

  predicate SameKey(window: Duration, e: Event, f: Event) {
    e.Arrive? && f.Arrive? && KeyOf(window, e.alert) == KeyOf(window, f.alert)
  }

  /** Clock readings never go back, across both goroutines. */
  ghost predicate MonotoneClock(events: seq<Event>) {
    forall i, j :: 0 <= i < j < |events| && !events[i].Sweep? && !events[j].Sweep? ==> events[i].now <= events[j].now
  }

  // ---------------------------------------------------------------- suppression is justified

  /** Whatever is cached was put there by a forwarded alert, at its arrival time. */
  lemma {:induction false} CachedWasPassed(window: Duration, events: seq<Event>, n: nat, k: Key) returns (j: nat)
    requires n <= |events| && k in StateAt(window, events, n).cache
    ensures j < n && Passed(window, events, j)
    ensures KeyOf(window, events[j].alert) == k && events[j].now == StateAt(window, events, n).cache[k]
  {
    if k in StateAt(window, events, n - 1).cache {
      j := CachedWasPassed(window, events, n - 1, k);
    } else {
      j := n - 1;
    }
  }

  /** An alert is suppressed only if an earlier one with its key was forwarded. */
  lemma SuppressedOnlyAfterPass(window: Duration, events: seq<Event>, i: nat)
    requires Suppressed(window, events, i)
    ensures exists j: nat :: j < i && Passed(window, events, j) && SameKey(window, events[j], events[i])
  {
    var j := CachedWasPassed(window, events, i, KeyOf(window, events[i].alert));
    assert SameKey(window, events[j], events[i]);
  }

  // ---------------------------------------------------------------- eviction takes its time

  lemma {:induction false} CutoffWasRead(window: Duration, events: seq<Event>, n: nat) returns (r: nat)
    requires n <= |events| && StateAt(window, events, n).cleaner.Waiting?
    ensures r < n && events[r].ReadClock?
    ensures StateAt(window, events, n).cleaner.cutoff == events[r].now - 2 * window
  {
    if events[n - 1].ReadClock? {
      r := n - 1;
    } else {
      r := CutoffWasRead(window, events, n - 1);
    }
  }

  /** A forwarded alert stays cached until a cleanup that read the clock more than two windows later. */
  lemma {:induction false} KeptOrExpired(window: Duration, events: seq<Event>, i: nat, n: nat) returns (r: nat)
    requires Passed(window, events, i) && i < n <= |events|
    ensures var k, cache := KeyOf(window, events[i].alert), StateAt(window, events, n).cache;
            || (k in cache && cache[k] == events[i].now)
            || (r < n && events[r].ReadClock? && events[i].now < events[r].now - 2 * window)
  {
    r := 0;
    if n > i + 1 {
      r := KeptOrExpired(window, events, i, n - 1);
      var before := StateAt(window, events, n - 1);
      if events[n - 1].Sweep? && before.cleaner.Waiting? {
        var source := CutoffWasRead(window, events, n - 1);
        if events[i].now < before.cleaner.cutoff {
          r := source;
        }
      }
    }
  }

  /** Two forwarded alerts with one key are more than two windows apart in arrival time. */
  lemma RepeatsAreFarApart(window: Duration, events: seq<Event>, i: nat, j: nat)
    requires MonotoneClock(events)
    requires i < j && Passed(window, events, i) && Passed(window, events, j) && SameKey(window, events[i], events[j])
    ensures events[j].now - events[i].now > 2 * window
  {
    var r := KeptOrExpired(window, events, i, j);
  }

  // ---------------------------------------------------------------- what the key identifies

  /**
   * The key is documented as the timestamp truncated to the window, but it keeps only the second:
   * the two agree exactly for windows of at least one second.
   */
  lemma BucketIsTruncationIff(window: Duration)
    ensures (forall s: Time, t: Time | UnixSecond(Truncate(s, window)) == UnixSecond(Truncate(t, window)) ::
               Truncate(s, window) == Truncate(t, window))
            <==> window >= SECOND
  {
    if window >= SECOND {
      forall s: Time, t: Time | UnixSecond(Truncate(s, window)) == UnixSecond(Truncate(t, window))
        ensures Truncate(s, window) == Truncate(t, window)
      {
        SameBucket(window, s, t);
      }
    } else {
      var later: Time := if window <= 0 then 1 else window;
      assert UnixSecond(Truncate(0, window)) == UnixSecond(Truncate(later, window));
      assert Truncate(0, window) != Truncate(later, window);
    }
  }

  lemma SameBucket(window: Duration, s: Time, t: Time)
    requires window >= SECOND && UnixSecond(Truncate(s, window)) == UnixSecond(Truncate(t, window))
    ensures Truncate(s, window) == Truncate(t, window) && -window < s - t < window
  {
    var p, q := s / window, t / window;
    assert Truncate(s, window) == p * window && Truncate(t, window) == q * window;
    MultiplesApart(p, q, window);
    MultiplesApart(q, p, window);
  }

  lemma MultiplesApart(p: int, q: int, w: int)
    requires w > 0
    ensures p < q ==> q * w - p * w >= w
  {
    if p < q {
      NonNegativeCount(q - p - 1, w);
      assert (q - p - 1) * w == q * w - p * w - w;
    }
  }

  // ---------------------------------------------------------------- once per key

  /**
   * Every alert arrives between `early` before its timestamp and `late` after it. The timestamp is the
   * exchange's and the arrival is read off another clock, so alerts can be early as well as late.
   */
  ghost predicate Timely(events: seq<Event>, early: int, late: int) {
    forall i :: 0 <= i < |events| && events[i].Arrive? ==>
      events[i].alert.timestamp - early <= events[i].now <= events[i].alert.timestamp + late
  }

  ghost predicate AtMostOncePerKey(window: Duration, events: seq<Event>) {
    forall i: nat, j: nat :: i < j && Passed(window, events, i) && Passed(window, events, j)
      ==> !SameKey(window, events[i], events[j])
  }

  lemma TimelyPassesOnce(window: Duration, events: seq<Event>, early: int, late: int)
    requires window >= SECOND && early + late <= window + 1
    requires MonotoneClock(events) && Timely(events, early, late)
    ensures AtMostOncePerKey(window, events)
  {
    forall i: nat, j: nat | i < j && Passed(window, events, i) && Passed(window, events, j)
      ensures !SameKey(window, events[i], events[j])
    {
      if SameKey(window, events[i], events[j]) {
        RepeatsAreFarApart(window, events, i, j);
        SameBucket(window, events[i].alert.timestamp, events[j].alert.timestamp);
        assert false;
      }
    }
  }

  /**
   * A repeat that slips through: two alerts at the ends of one bucket, the first as early as allowed, with
   * a cleanup in between.
   */
  function SlowRun(window: Duration, early: int): seq<Event> {
    var back := 2 * window + 1 - early;
    [Arrive(BucketEnd(0), -early), ReadClock(back), Sweep, Arrive(BucketEnd(window - 1), back)]
  }

  function BucketEnd(at: Time): Alert {
    Alert(VolumeSpike, [], [], 0.0, 0.0, at)
  }

  lemma OneBucket(window: Duration)
    requires window > 0
    ensures KeyOf(window, BucketEnd(0)) == KeyOf(window, BucketEnd(window - 1))
  {
    TruncatesToZero(0, window);
    TruncatesToZero(window - 1, window);
    hide Truncate, UnixSecond;
  }

  lemma TruncatesToZero(t: Time, window: Duration)
    requires 0 <= t < window
    ensures Truncate(t, window) == 0
  {
    SmallModulo(t, window);
  }

  lemma SmallModulo(x: nat, n: nat)
    requires x < n
    ensures x % n == x
  {}

  lemma SlowRunStates(window: Duration, early: int)
    ensures var events, k := SlowRun(window, early), KeyOf(window, BucketEnd(0));
            && StateAt(window, events, 0) == INITIAL
            && StateAt(window, events, 1) == State(map[k := -early], Idle)
            && StateAt(window, events, 2) == State(map[k := -early], Waiting(1 - early))
            && StateAt(window, events, 3) == State(map[], Idle)
  {
    hide KeyOf;
  }

  lemma SlowRunRepeats(window: Duration, early: int, late: int)
    requires window > 0 && early + late >= window + 2
    ensures !AtMostOncePerKey(window, SlowRun(window, early))
    ensures MonotoneClock(SlowRun(window, early)) && Timely(SlowRun(window, early), early, late)
  {
    var events := SlowRun(window, early);
    hide KeyOf, StateAt;
    OneBucket(window);
    SlowRunStates(window, early);
    assert Passed(window, events, 0) && Passed(window, events, 3) && SameKey(window, events[0], events[3]);
  }

  /**
   * With a window of at least a second, no key is ever forwarded twice, in any interleaving, exactly when
   * the arrival times stray from the timestamps by at most the window (plus a nanosecond), early and late
   * taken together.
   */
  lemma OncePerKeyIff(window: Duration, early: int, late: int)
    requires window >= SECOND
    ensures (forall events | MonotoneClock(events) && Timely(events, early, late) :: AtMostOncePerKey(window, events))
            <==> early + late <= window + 1
  {
    if early + late <= window + 1 {
      forall events | MonotoneClock(events) && Timely(events, early, late)
        ensures AtMostOncePerKey(window, events)
      {
        TimelyPassesOnce(window, events, early, late);
      }
    } else {
      SlowRunRepeats(window, early, late);
    }
  }

  /** So each key that arrives in time is forwarded exactly once. */
  lemma EachKeyOnce(window: Duration, events: seq<Event>, early: int, late: int, i: nat) returns (j: nat)
    requires window >= SECOND && early + late <= window + 1
    requires MonotoneClock(events) && Timely(events, early, late)
    requires i < |events| && events[i].Arrive?
    ensures j <= i && Passed(window, events, j) && SameKey(window, events[j], events[i])
    ensures forall l: nat :: Passed(window, events, l) && SameKey(window, events[l], events[i]) ==> l == j
  {
    j := i;
    if Suppressed(window, events, i) {
      j := CachedWasPassed(window, events, i, KeyOf(window, events[i].alert));
    }
    TimelyPassesOnce(window, events, early, late);
    forall l: nat | Passed(window, events, l) && SameKey(window, events[l], events[i])
      ensures l == j
    {
      assert SameKey(window, events[l], events[j]) && SameKey(window, events[j], events[l]);
    }
  }

  // ---------------------------------------------------------------- after a detector's cooldown

  /** The arrivals of one detector's alerts for one symbol, in order. */
  function ArrivalsOf(d: Detector, sym: Str, events: seq<Event>): seq<Alert> {
    if events == [] then []
    else
      var e := events[|events| - 1];
      ArrivalsOf(d, sym, events[..|events| - 1])
      + if e.Arrive? && e.alert.detector == d && e.alert.symbol == sym then [e.alert] else []
  }

  lemma {:induction false} ArrivalIndex(d: Detector, sym: Str, events: seq<Event>, i: nat) returns (p: nat)
    requires i < |events| && events[i].Arrive? && events[i].alert.detector == d && events[i].alert.symbol == sym
    ensures p == |ArrivalsOf(d, sym, events[..i])| < |ArrivalsOf(d, sym, events)|
    ensures ArrivalsOf(d, sym, events)[p] == events[i].alert
  {
    var n := |events| - 1;
    if i < n {
      p := ArrivalIndex(d, sym, events[..n], i);
      assert events[..n][..i] == events[..i];
    } else {
      p := |ArrivalsOf(d, sym, events[..i])|;
    }
  }

  /** Alerts of one bucket are less than a window apart, so few of them fit between cooldowns. */
  lemma BucketSpan(window: Duration, cooldown: Duration, alerts: seq<Alert>, i: nat, j: nat)
    requires window >= SECOND && Spaced(alerts, cooldown)
    requires i < j < |alerts| && KeyOf(window, alerts[i]) == KeyOf(window, alerts[j])
    ensures (j - i) * cooldown < window
  {
    SameBucket(window, alerts[i].timestamp, alerts[j].timestamp);
  }

  function CountKey(window: Duration, alerts: seq<Alert>, k: Key): nat {
    if alerts == [] then 0
    else CountKey(window, alerts[..|alerts| - 1], k) + if KeyOf(window, alerts[|alerts| - 1]) == k then 1 else 0
  }

  /** The first alert of a bucket is at least as many places before the last as there are others. */
  lemma {:induction false} CountSpans(window: Duration, alerts: seq<Alert>, k: Key) returns (i: nat, j: nat)
    requires CountKey(window, alerts, k) > 0
    ensures i <= j < |alerts| && KeyOf(window, alerts[i]) == k == KeyOf(window, alerts[j])
    ensures CountKey(window, alerts, k) <= j - i + 1
  {
    var n := |alerts| - 1;
    if KeyOf(window, alerts[n]) != k {
      i, j := CountSpans(window, alerts[..n], k);
    } else if CountKey(window, alerts[..n], k) == 0 {
      i, j := n, n;
    } else {
      i, j := CountSpans(window, alerts[..n], k);
      j := n;
    }
  }

  /** A dedup bucket receives at most ceil(window / cooldown) alerts from one spaced source. */
  lemma BucketHoldsFew(window: Duration, cooldown: Duration, alerts: seq<Alert>, k: Key)
    requires window >= SECOND && 0 < cooldown && Spaced(alerts, cooldown)
    ensures CountKey(window, alerts, k) <= (window + cooldown - 1) / cooldown
  {
    if CountKey(window, alerts, k) > 0 {
      var i, j := CountSpans(window, alerts, k);
      if i < j {
        BucketSpan(window, cooldown, alerts, i, j);
      }
      CeilingBound(j - i, cooldown, window);
    } else {
      CeilingBound(0, cooldown, window);
    }
  }

  lemma CeilingBound(m: nat, c: int, w: int)
    requires c > 0 && w > 0 && m * c < w
    ensures m + 1 <= (w + c - 1) / c
  {
    var q := (w + c - 1) / c;
    assert w + c - 1 < q * c + c;
    assert (m + 1) * c == m * c + c;
    MultiplesApart(q, m + 1, c);
  }

  /** A cooldown of at least one window makes every key new: nothing of that source is suppressed. */
  lemma SpacedIsNeverSuppressed(window: Duration, cooldown: Duration, d: Detector, sym: Str, events: seq<Event>, i: nat)
    requires SECOND <= window <= cooldown && Spaced(ArrivalsOf(d, sym, events), cooldown)
    requires i < |events| && events[i].Arrive? && events[i].alert.detector == d && events[i].alert.symbol == sym
    ensures Passed(window, events, i)
  {
    if Suppressed(window, events, i) {
      var j := CachedWasPassed(window, events, i, KeyOf(window, events[i].alert));
      var p := ArrivalIndex(d, sym, events, j);
      var q := ArrivalIndex(d, sym, events, i);
      EarlierArrival(d, sym, events, j, i);
      BucketSpan(window, cooldown, ArrivalsOf(d, sym, events), p, q);
      AtLeastOneCooldown(q - p, cooldown, window);
    }
  }

  lemma AtLeastOneCooldown(m: nat, c: int, w: int)
    requires m > 0 && w <= c && 0 < c
    ensures m * c >= w
  {
    assert (m - 1) * c >= 0;
  }

  lemma {:induction false} EarlierArrival(d: Detector, sym: Str, events: seq<Event>, j: nat, i: nat)
    requires j < i <= |events| && events[j].Arrive? && events[j].alert.detector == d && events[j].alert.symbol == sym
    ensures |ArrivalsOf(d, sym, events[..j])| < |ArrivalsOf(d, sym, events[..i])|
  {
    var p := ArrivalIndex(d, sym, events[..i], j);
    assert events[..i][..j] == events[..j];
  }
}
