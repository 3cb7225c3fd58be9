/**
 * A perfectly steady stream of trades, of any period: when the volume-spike detector nevertheless
 * reports a spike, and which ticks raise alerts.
 */
module SteadyStream {
  import opened Algebra
  import opened Clock
  import opened Common
  import opened RingBuffers
  import opened RingHistory
  import opened Runs
  import opened Ticks
  import opened VolumeSpikes
  import opened VolumeSpikeRuns

  /** `n` copies of the trade `t`, one every `d`. */
  function SteadyTicks(t: Tick, d: Duration, n: nat): seq<Tick> {
    if n == 0 then [] else SteadyTicks(t, d, n - 1) + [SteadyTick(t, d, n - 1)]
  }

  function SteadyTick(t: Tick, d: Duration, k: nat): Tick {
    t.(timestamp := TimeOf(t.timestamp, d, k))
  }

  /** `k` periods. */
  function Span(d: Duration, k: int): int {
    k * d
  }

  /** When tick `k` arrives; also used for moments before the stream starts. */
  function TimeOf(start: Time, d: Duration, k: int): Time {
    start + Span(d, k)
  }

  function SteadyEntries(t: Tick, d: Duration, n: nat): (es: seq<Entry>)
    ensures |es| == n
  {
    if n == 0 then []
    else SteadyEntries(t, d, n - 1) + [Entry(TimeOf(t.timestamp, d, n - 1), t.volume)]
  }

  lemma {:induction false} EntriesOfSteady(t: Tick, d: Duration, n: nat)
    ensures |SteadyTicks(t, d, n)| == n && EntriesOf(SteadyTicks(t, d, n)) == SteadyEntries(t, d, n)
  {
    if n > 0 {
      EntriesOfSteady(t, d, n - 1);
    }
  }

  lemma {:induction false} SteadyEntryAt(t: Tick, d: Duration, n: nat, i: nat)
    requires i < n
    ensures SteadyEntries(t, d, n)[i].at == TimeOf(t.timestamp, d, i)
  {
    if i < n - 1 {
      SteadyEntryAt(t, d, n - 1, i);
    }
  }

  lemma TimesAreOrdered(start: Time, d: Duration, i: int, j: int)
    requires d > 0
    ensures i < j <==> TimeOf(start, d, i) < TimeOf(start, d, j)
  {
    if i < j {
      assert (j - i) * d > 0;
    } else {
      assert (i - j) * d >= 0;
    }
    assert (j - i) * d == Span(d, j) - Span(d, i);
  }

  lemma SteadyIsChronological(t: Tick, d: Duration, n: nat)
    requires d > 0
    ensures Chronological(SteadyEntries(t, d, n))
  {
    forall i, j | 0 <= i < j < n
      ensures SteadyEntries(t, d, n)[i].at <= SteadyEntries(t, d, n)[j].at
    {
      SteadyEntryAt(t, d, n, i);
      SteadyEntryAt(t, d, n, j);
      TimesAreOrdered(t.timestamp, d, i, j);
    }
  }

  /** How many of the first `n` ticks come after the one numbered `q`. */
  function Later(n: nat, q: int): nat {
    if q < 0 then n else if n <= q + 1 then 0 else n - q - 1
  }

  /** A moment between tick `q` and the next one. */
  predicate Between(start: Time, d: Duration, q: int, at: Time) {
    TimeOf(start, d, q) <= at < TimeOf(start, d, q + 1)
  }

  lemma {:induction false} CountLater(t: Tick, d: Duration, n: nat, q: int, cutoff: Time)
    requires d > 0 && Between(t.timestamp, d, q, cutoff)
    ensures CountAfter(SteadyEntries(t, d, n), cutoff) == Later(n, q)
  {
    if n > 0 {
      hide CountAfter, TimeOf, Later;
      CountLater(t, d, n - 1, q, cutoff);
      LaterStep(SteadyEntries(t, d, n - 1), t.volume, t.timestamp, d, n - 1, q, cutoff);
    }
  }

  lemma LaterStep(es: seq<Entry>, v: real, start: Time, d: Duration, k: nat, q: int, cutoff: Time)
    requires d > 0 && Between(start, d, q, cutoff) && CountAfter(es, cutoff) == Later(k, q)
    ensures CountAfter(es + [Entry(TimeOf(start, d, k), v)], cutoff) == Later(k + 1, q)
  {
    hide CountAfter, SumAfter, TimeOf;
    TimesAreOrdered(start, d, q, k);
    TimesAreOrdered(start, d, k, q + 1);
    TimesAreOrdered(start, d, q + 1, k);
    CountStep(es, Entry(TimeOf(start, d, k), v), cutoff);
  }

  lemma CountStep(es: seq<Entry>, e: Entry, cutoff: Time)
    ensures CountAfter(es + [e], cutoff) == CountAfter(es, cutoff) + if e.at > cutoff then 1 else 0
    ensures SumAfter(es + [e], cutoff) == SumAfter(es, cutoff) + if e.at > cutoff then e.value else 0.0
  {
    assert (es + [e])[..|es|] == es;
  }

  /** The volume of `c` trades. */
  function Volume(v: real, c: nat): real {
    v * c as real
  }

  lemma {:induction false} UniformVolume(es: seq<Entry>, v: real, cutoff: Time, c: nat)
    requires forall e :: e in es ==> e.value == v
    requires c == CountAfter(es, cutoff)
    ensures SumAfter(es, cutoff) == Volume(v, c)
  {
    if es != [] {
      var n := |es| - 1;
      var c' := CountAfter(es[..n], cutoff);
      UniformVolume(es[..n], v, cutoff, c');
      assert es == es[..n] + [es[n]];
      CountStep(es[..n], es[n], cutoff);
      hide *;
      OneMore(v, c', c);
    }
  }

  lemma OneMore(v: real, c: nat, c': nat)
    requires c' == c || c' == c + 1
    ensures Volume(v, c') == Volume(v, c) + if c' == c then 0.0 else v
  {}

  lemma {:induction false} SteadyValues(t: Tick, d: Duration, n: nat)
    ensures forall e :: e in SteadyEntries(t, d, n) ==> e.value == t.volume
  {
    if n > 0 {
      SteadyValues(t, d, n - 1);
    }
  }

  /** How many ticks one period apart a window takes. */
  function Periods(window: Duration, d: Duration): (c: nat)
    requires 0 < window && 0 < d
    ensures Span(d, c - 1) < window <= Span(d, c) && 0 < c
  {
    var c := (window + d - 1) / d;
    DivisionBounds(window, d, c);
    c
  }

  lemma DivisionBounds(w: int, d: int, c: int)
    requires 0 < w && 0 < d && c == (w + d - 1) / d
    ensures (c - 1) * d < w <= c * d && 0 < c
  {
    var r := (w + d - 1) % d;
    assert w + d - 1 == c * d + r;
    assert (c - 1) * d == c * d - d;
    PositiveFactor(c, d);
  }

  lemma PositiveFactor(x: int, y: int)
    requires y > 0 && x * y > 0
    ensures x > 0
  {}

  /** The ticks a buffer still holds of a window, after `n` of them. */
  function Held(n: nat, window: Duration, d: Duration, cap: nat): nat
    requires 0 < window && 0 < d
  {
    Min(Min(n, Periods(window, d)), cap)
  }

  /** Any window, any period, any capacity: the sum counts the last ticks of the window that still fit. */
  lemma SteadySum(cap: nat, t: Tick, d: Duration, n: nat, window: Duration)
    requires d > 0 && n > 0 && 0 < cap && 0 < window
    ensures PushAll(Empty(cap), SteadyEntries(t, d, n)).SumSince(TimeOf(t.timestamp, d, n - 1), window)
            == Volume(t.volume, Held(n, window, d, cap))
  {
    var es, cutoff := SteadyEntries(t, d, n), TimeOf(t.timestamp, d, n - 1) - window;
    hide *;
    SteadyCount(cap, t, d, n, window);
    WindowSum(cap, es, TimeOf(t.timestamp, d, n - 1), window);
    HeldValues(cap, t, d, n);
    UniformVolume(Last(cap, es), t.volume, cutoff, Held(n, window, d, cap));
  }

  lemma SteadyCount(cap: nat, t: Tick, d: Duration, n: nat, window: Duration)
    requires d > 0 && n > 0 && 0 < cap && 0 < window
    ensures CountAfter(Last(cap, SteadyEntries(t, d, n)), TimeOf(t.timestamp, d, n - 1) - window)
            == Held(n, window, d, cap)
  {
    hide Periods, SteadyEntries, TimeOf, Span, CountAfter, Last, Later, Between, Chronological, Min;
    var cutoff, c := TimeOf(t.timestamp, d, n - 1) - window, Periods(window, d);
    WindowStart(t.timestamp, d, n - 1, c, window);
    CountLater(t, d, n, n - 1 - c, cutoff);
    LaterIsMin(n, c);
    SteadyIsChronological(t, d, n);
    WindowCount(cap, SteadyEntries(t, d, n), cutoff);
  }

  lemma HeldValues(cap: nat, t: Tick, d: Duration, n: nat)
    ensures forall e :: e in Last(cap, SteadyEntries(t, d, n)) ==> e.value == t.volume
  {
    SteadyValues(t, d, n);
    hide SteadyEntries;
  }

  lemma LaterIsMin(n: nat, c: nat)
    requires 0 < c
    ensures Later(n, n - 1 - c) == Min(n, c)
  {}

  lemma WindowStart(start: Time, d: Duration, k: int, c: nat, window: Duration)
    requires Span(d, c - 1) < window <= Span(d, c)
    ensures Between(start, d, k - c, TimeOf(start, d, k) - window)
  {
    assert Span(d, k - c) == Span(d, k) - Span(d, c);
    assert Span(d, k - c + 1) == Span(d, k) - Span(d, c - 1);
  }

  // ---------------------------------------------------------------- the spike condition

  lemma {:induction false} FirstSeenIsFirst(cfg: Config, ticks: seq<Tick>)
    requires ticks != [] && ticks[0].timestamp != ZERO_TIME
    ensures Run(Stepper(cfg), INITIAL, ticks).0.firstSeen == ticks[0].timestamp
  {
    hide Buffer.Push, IsSpike;
    if |ticks| > 1 {
      FirstSeenIsFirst(cfg, ticks[..|ticks| - 1]);
    }
  }

  /** The state compared on tick number `k`, which includes that tick. */
  function SteadyState(cfg: Config, t: Tick, d: Duration, k: nat): SpikeState {
    Record(Run(Stepper(cfg), INITIAL, SteadyTicks(t, d, k)).0, SteadyTick(t, d, k))
  }

  lemma SteadyFirstSeen(cfg: Config, t: Tick, d: Duration, k: nat)
    requires t.timestamp != ZERO_TIME
    ensures SteadyState(cfg, t, d, k).firstSeen == t.timestamp
  {
    hide Buffer.Push;
    if k > 0 {
      EntriesOfSteady(t, d, k);
      SteadyStart(t, d, k);
      FirstSeenIsFirst(cfg, SteadyTicks(t, d, k));
    }
  }

  lemma {:induction false} SteadyStart(t: Tick, d: Duration, n: nat)
    requires n > 0
    ensures |SteadyTicks(t, d, n)| == n && SteadyTicks(t, d, n)[0] == t
  {
    if n > 1 {
      SteadyStart(t, d, n - 1);
    }
  }

  lemma SteadyBuffers(cfg: Config, t: Tick, d: Duration, k: nat)
    ensures var s := SteadyState(cfg, t, d, k);
            && s.short == PushAll(Empty(SHORT_CAPACITY), SteadyEntries(t, d, k + 1))
            && s.long == PushAll(Empty(LONG_CAPACITY), SteadyEntries(t, d, k + 1))
  {
    assert SteadyTicks(t, d, k + 1) == SteadyTicks(t, d, k) + [SteadyTick(t, d, k)];
    hide Run, Record, PushAll, SteadyTicks, SteadyTick, EntriesOf, SteadyEntries;
    RecordedHistory(cfg, SteadyTicks(t, d, k), SteadyTick(t, d, k));
    EntriesOfSteady(t, d, k + 1);
  }

  lemma SteadyVolumes(cfg: Config, t: Tick, d: Duration, k: nat)
    requires d > 0
    ensures var s, now := SteadyState(cfg, t, d, k), TimeOf(t.timestamp, d, k);
            && s.short.SumSince(now, cfg.shortWindow)
               == Volume(t.volume, Held(k + 1, cfg.shortWindow, d, SHORT_CAPACITY))
            && s.long.SumSince(now, cfg.longWindow)
               == Volume(t.volume, Held(k + 1, cfg.longWindow, d, LONG_CAPACITY))
  {
    assert 0 < SHORT_CAPACITY && 0 < LONG_CAPACITY;
    hide *;
    SteadyBuffers(cfg, t, d, k);
    SteadySum(SHORT_CAPACITY, t, d, k + 1, cfg.shortWindow);
    SteadySum(LONG_CAPACITY, t, d, k + 1, cfg.longWindow);
  }

  predicate RateExceeds(short: real, long: real, shortSecs: real, longSecs: real, mult: real)
    requires shortSecs > 0.0 && longSecs > 0.0
  {
    short / shortSecs > long / longSecs * mult
  }

  /** With `m` ticks in a short window of length `a` and `n` in a long one of length `b`. */
  predicate FillExceeds(m: nat, n: nat, a: nat, b: nat, mult: real) {
    m as real * b as real > n as real * a as real * mult
  }

  lemma SpikeMeans(cfg: Config, s: SpikeState, now: Time, elapsed: int, short: real, long: real)
    requires elapsed == now - s.firstSeen
    requires short == s.short.SumSince(now, cfg.shortWindow) && long == s.long.SumSince(now, cfg.longWindow)
    ensures IsSpike(cfg, s, now)
            <==> elapsed >= MIN_HISTORY && long != 0.0
                 && RateExceeds(short, long, Seconds(cfg.shortWindow), Seconds(cfg.longWindow), cfg.multiplier)
  {
    SubAtLeast(now, s.firstSeen, MIN_HISTORY);
    hide Buffer.SumSince, Seconds, Sub;
  }

  /**
   * The spike condition of a steady stream, for any windows, multiplier and period: the short window
   * holds more than `multiplier` times as many ticks, for its length, as the long one.
   */
  lemma SteadySpikeIff(cfg: Config, t: Tick, d: Duration, k: nat)
    requires t.timestamp != ZERO_TIME && t.volume > 0.0 && d > 0
    ensures IsSpike(cfg, SteadyState(cfg, t, d, k), TimeOf(t.timestamp, d, k))
            <==> Span(d, k) >= MIN_HISTORY
                 && FillExceeds(Held(k + 1, cfg.shortWindow, d, SHORT_CAPACITY),
                                Held(k + 1, cfg.longWindow, d, LONG_CAPACITY),
                                cfg.shortWindow, cfg.longWindow, cfg.multiplier)
  {
    hide *;
    Elapsed(t.timestamp, d, k, cfg.longWindow);
    var s, now := SteadyState(cfg, t, d, k), TimeOf(t.timestamp, d, k);
    var short, long := s.short.SumSince(now, cfg.shortWindow), s.long.SumSince(now, cfg.longWindow);
    SteadyFirstSeen(cfg, t, d, k);
    SteadyVolumes(cfg, t, d, k);
    SecondsScale(cfg.shortWindow);
    SecondsScale(cfg.longWindow);
    SpikeMeans(cfg, s, now, Span(d, k), short, long);
    RateIsFill(t.volume, Held(k + 1, cfg.shortWindow, d, SHORT_CAPACITY),
               Held(k + 1, cfg.longWindow, d, LONG_CAPACITY),
               cfg.shortWindow, cfg.longWindow, Seconds(NANOSECOND),
               Seconds(cfg.shortWindow), Seconds(cfg.longWindow), cfg.multiplier, short, long);
  }

  lemma Elapsed(start: Time, d: Duration, k: nat, window: Duration)
    requires 0 < d && 0 < window
    ensures TimeOf(start, d, k) - start == Span(d, k) && Held(k + 1, window, d, LONG_CAPACITY) > 0
  {}

  lemma RateIsFill(v: real, m: nat, n: nat, a: nat, b: nat, sec: real,
                   shortSecs: real, longSecs: real, mult: real, short: real, long: real)
    requires v > 0.0 && sec > 0.0 && a > 0 && b > 0 && n > 0
    requires shortSecs == a as real * sec && longSecs == b as real * sec
    requires short == Volume(v, m) && long == Volume(v, n)
    ensures shortSecs > 0.0 && longSecs > 0.0 && long != 0.0
    ensures RateExceeds(short, long, shortSecs, longSecs, mult) <==> FillExceeds(m, n, a, b, mult)
  {
    RateAlgebra(v, m as real, n as real, a as real, b as real, sec, shortSecs, longSecs, mult, short, long);
  }

  lemma SecondsScale(w: Duration)
    requires 0 < w
    ensures Seconds(w) == (w as nat) as real * Seconds(NANOSECOND) && Seconds(NANOSECOND) > 0.0
  {}

  lemma RateAlgebra(v: real, m: real, n: real, a: real, b: real, sec: real,
                    shortSecs: real, longSecs: real, mult: real, short: real, long: real)
    requires v > 0.0 && sec > 0.0 && a > 0.0 && b > 0.0 && n > 0.0
    requires shortSecs == a * sec && longSecs == b * sec && short == v * m && long == v * n
    ensures shortSecs > 0.0 && longSecs > 0.0 && long != 0.0
    ensures short / shortSecs > long / longSecs * mult <==> m * b > n * a * mult
  {
    PositiveFactors(a, sec, shortSecs);
    PositiveFactors(b, sec, longSecs);
    PositiveFactors(v, n, long);
    var x, y, common := short / shortSecs, long / longSecs, v / sec;
    PositiveQuotient(v, sec, common);
    assert x * a == common * m by {
      Rescale(x, a, sec, short, common, m, v);
    }
    assert y * b == common * n by {
      Rescale(y, b, sec, long, common, n, v);
    }
    CompareScaled(x, y * mult, a * b, common * (m * b), common * (n * a * mult));
    CompareScaled(m * b, n * a * mult, common, common * (m * b), common * (n * a * mult));
  }

  lemma Rescale(x: real, a: real, sec: real, volume: real, common: real, m: real, v: real)
    requires a > 0.0 && sec > 0.0 && a * sec > 0.0 && x == volume / (a * sec) && volume == v * m && common == v / sec
    ensures x * a == common * m
  {
    assert x * (a * sec) == volume;
    assert common * sec == v;
    assert (x * a) * sec == (common * m) * sec;
  }

  // ---------------------------------------------------------------- the shipped configuration

  /**
   * Trades at least 3600/19 s apart never fill the hour enough. Otherwise the long window must hold fewer
   * than twenty minutes' worth of ticks, and its buffer must not be full.
   */
  predicate StillFilling(d: Duration, k: nat)
    requires 0 < d
  {
    19 * d >= HOUR || k + 1 < Min(20 * Periods(MINUTE, d), LONG_CAPACITY)
  }

  /** With the shipped windows and multiplier, for every period and every tick. */
  lemma SteadyDefaultIff(t: Tick, d: Duration, k: nat)
    requires t.timestamp != ZERO_TIME && t.volume > 0.0 && d > 0
    ensures IsSpike(DEFAULTS, SteadyState(DEFAULTS, t, d, k), TimeOf(t.timestamp, d, k))
            <==> Span(d, k) >= MIN_HISTORY && StillFilling(d, k)
  {
    SteadySpikeIff(DEFAULTS, t, d, k);
    var m, n := Held(k + 1, MINUTE, d, SHORT_CAPACITY), Held(k + 1, HOUR, d, LONG_CAPACITY);
    DefaultFill(m, n);
    hide IsSpike, SteadyState, TimeOf, FillExceeds, Span, Held, StillFilling;
    if Span(d, k) >= MIN_HISTORY {
      FillingIff(d, k);
    }
  }

  lemma DefaultFill(m: nat, n: nat)
    ensures FillExceeds(m, n, MINUTE, HOUR, 3.0) <==> n < 20 * m
  {}

  lemma FillingIff(d: Duration, k: nat)
    requires 0 < d && Span(d, k) >= MIN_HISTORY
    ensures StillFilling(d, k)
            <==> Held(k + 1, HOUR, d, LONG_CAPACITY) < 20 * Held(k + 1, MINUTE, d, SHORT_CAPACITY)
  {
    var a, b := Periods(MINUTE, d), Periods(HOUR, d);
    assert LONG_CAPACITY == 20 * SHORT_CAPACITY;
    hide Periods, Span;
    SpanOrder(d, a - 1, k);
    if 19 * d >= HOUR {
      SpanIs(d, 19);
      SpanOrder(d, b - 1, 19);
    } else {
      SpanIs(d, 19);
      SpanOrder(d, 19, b);
      if a > 1 {
        SpanIs(d, 60 * (a - 1));
        SpanIs(d, a - 1);
        SpanOrder(d, 60 * (a - 1), b);
      }
    }
  }

  lemma SpanIs(d: Duration, k: int)
    ensures Span(d, k) == k * d
  {}

  lemma SpanOrder(d: Duration, m: int, n: int)
    requires d > 0
    ensures m < n <==> Span(d, m) < Span(d, n)
  {
    TimesAreOrdered(0, d, m, n);
  }

  /** When the period divides a minute: until the twentieth minute is complete or the buffer is full. */
  lemma SteadyWholePeriods(t: Tick, d: Duration, k: nat, a: nat)
    requires t.timestamp != ZERO_TIME && t.volume > 0.0 && d > 0 && Span(d, a) == MINUTE
    ensures IsSpike(DEFAULTS, SteadyState(DEFAULTS, t, d, k), TimeOf(t.timestamp, d, k))
            <==> Span(d, k) >= MIN_HISTORY && Span(d, k + 1) < 20 * MINUTE && k + 1 < LONG_CAPACITY
  {
    SteadyDefaultIff(t, d, k);
    WholePeriods(d, a);
    hide IsSpike, SteadyState, TimeOf, Periods, Span;
    SpanOrder(d, k + 1, 20 * a);
  }

  lemma WholePeriods(d: Duration, a: nat)
    requires d > 0 && Span(d, a) == MINUTE
    ensures Periods(MINUTE, d) == a && 19 * d < HOUR && Span(d, 20 * a) == 20 * MINUTE
  {
    var c := Periods(MINUTE, d);
    SpanOrder(d, c - 1, a);
    SpanOrder(d, a, c);
    hide *;
    SpanIs(d, a);
    SpanIs(d, 20 * a);
    NoLonger(d, a);
  }

  lemma NoLonger(d: Duration, a: nat)
    requires d > 0 && a * d == MINUTE
    ensures d <= MINUTE && 19 * d < HOUR
  {
    assert a > 0;
    NonNegativeCount(a - 1, d);
    assert a * d == (a - 1) * d + d;
  }

  /** The first tick with five minutes of history. */
  function FirstEligible(d: Duration): (k: nat)
    requires 0 < d
    ensures forall j: nat :: Span(d, j) >= MIN_HISTORY <==> j >= k
  {
    var k := Periods(MIN_HISTORY, d);
    assert forall j: nat :: Span(d, j) >= MIN_HISTORY <==> j >= k by {
      forall j: nat
        ensures Span(d, j) >= MIN_HISTORY <==> j >= k
      {
        SpanOrder(d, k - 1, j);
        SpanOrder(d, j, k);
        SpanOrder(d, j, k - 1);
      }
    }
    k
  }

  // ---------------------------------------------------------------- which ticks raise alerts

  /** The alerts of tick `k`. */
  function AlertsOn(t: Tick, d: Duration, k: nat): seq<Alert> {
    OnTick(DEFAULTS, Run(Stepper(DEFAULTS), INITIAL, SteadyTicks(t, d, k)).0, SteadyTick(t, d, k)).1
  }

  /** No tick outside the spike condition raises an alert, ever. */
  lemma SteadyFallsSilent(t: Tick, d: Duration, k: nat)
    requires t.timestamp != ZERO_TIME && t.volume > 0.0 && d > 0 && AlertsOn(t, d, k) != []
    ensures FirstEligible(d) <= k && StillFilling(d, k)
  {
    assert IsSpike(DEFAULTS, SteadyState(DEFAULTS, t, d, k), TimeOf(t.timestamp, d, k));
    hide IsSpike, SteadyState, TimeOf, OnTick, StillFilling;
    SteadyDefaultIff(t, d, k);
  }

  /** The last alert so far lies no later than the last tick. */
  lemma {:induction false} LastAlertIsPast(t: Tick, d: Duration, k: nat)
    requires d > 0
    ensures var at := Run(Stepper(DEFAULTS), INITIAL, SteadyTicks(t, d, k)).0.lastAlert;
            at == ZERO_TIME || at <= TimeOf(t.timestamp, d, k - 1)
  {
    hide *;
    if k == 0 {
      NothingYet(t, d);
    } else {
      LastAlertIsPast(t, d, k - 1);
      AlertTimeStep(t, d, k - 1);
      TimesAreOrdered(t.timestamp, d, k - 2, k - 1);
    }
  }

  lemma NothingYet(t: Tick, d: Duration)
    ensures Run(Stepper(DEFAULTS), INITIAL, SteadyTicks(t, d, 0)).0.lastAlert == ZERO_TIME
  {}

  /** Only an alert moves the last alert, to its own time. */
  lemma AlertTimeStep(t: Tick, d: Duration, k: nat)
    ensures var before := Run(Stepper(DEFAULTS), INITIAL, SteadyTicks(t, d, k)).0.lastAlert;
            var after := Run(Stepper(DEFAULTS), INITIAL, SteadyTicks(t, d, k + 1)).0.lastAlert;
            after == if AlertsOn(t, d, k) == [] then before else TimeOf(t.timestamp, d, k)
  {
    var x := SteadyTick(t, d, k);
    assert SteadyTicks(t, d, k + 1) == SteadyTicks(t, d, k) + [x];
    hide IsSpike, Buffer.Push, Run, SteadyTicks, TimeOf;
    RunExtends(Stepper(DEFAULTS), INITIAL, SteadyTicks(t, d, k), x);
  }

  /** A spike raises an alert unless the last one is less than the cooldown ago. */
  lemma SpikeAlerts(t: Tick, d: Duration, k: nat, last: Time)
    requires t.timestamp != ZERO_TIME && t.volume > 0.0 && d > 0 && FirstEligible(d) <= k && StillFilling(d, k)
    requires last == Run(Stepper(DEFAULTS), INITIAL, SteadyTicks(t, d, k)).0.lastAlert
    requires TimeOf(t.timestamp, d, k) - last >= ALERT_COOLDOWN
    ensures AlertsOn(t, d, k) != []
  {
    SteadyDefaultIff(t, d, k);
    SubAtLeast(TimeOf(t.timestamp, d, k), last, ALERT_COOLDOWN);
    hide IsSpike, Buffer.Push, Run, SteadyTicks, TimeOf, StillFilling, FirstEligible;
  }

  lemma {:induction false} SteadyWarmup(t: Tick, d: Duration, k: nat)
    requires t.timestamp != ZERO_TIME && t.volume > 0.0 && d > 0 && k <= FirstEligible(d)
    ensures Run(Stepper(DEFAULTS), INITIAL, SteadyTicks(t, d, k)).0.lastAlert == ZERO_TIME
  {
    hide *;
    if k == 0 {
      NothingYet(t, d);
    } else {
      SteadyWarmup(t, d, k - 1);
      AlertTimeStep(t, d, k - 1);
      if AlertsOn(t, d, k - 1) != [] {
        SteadyFallsSilent(t, d, k - 1);
      }
    }
  }

  /** When the first eligible tick still meets the condition: unless the long buffer is already full. */
  lemma FirstStillFillingIff(d: Duration)
    requires 0 < d
    ensures StillFilling(d, FirstEligible(d)) <==> Span(d, LONG_CAPACITY - 2) >= MIN_HISTORY
  {
    var a, k := Periods(MINUTE, d), FirstEligible(d);
    assert k <= LONG_CAPACITY - 2 <==> Span(d, LONG_CAPACITY - 2) >= MIN_HISTORY;
    hide Periods, FirstEligible, Span;
    SpanIs(d, 5 * a);
    SpanIs(d, a);
    assert Span(d, 5 * a) >= MIN_HISTORY;
    assert k <= 5 * a;
    SpanIs(d, LONG_CAPACITY - 2);
  }

  /**
   * The first eligible tick of a perfectly steady stream raises an alert exactly when the long buffer is
   * not full by then, at up to about 333 trades a second; otherwise no tick ever does.
   */
  lemma SteadyFalseAlarmIff(t: Tick, d: Duration)
    requires t.timestamp > ZERO_TIME && t.volume > 0.0 && d > 0
    ensures AlertsOn(t, d, FirstEligible(d)) != [] <==> Span(d, LONG_CAPACITY - 2) >= MIN_HISTORY
    ensures (exists k: nat :: AlertsOn(t, d, k) != []) <==> Span(d, LONG_CAPACITY - 2) >= MIN_HISTORY
  {
    var first := FirstEligible(d);
    assert Span(d, first) >= MIN_HISTORY >= ALERT_COOLDOWN;
    LaterIsFuller(d, first);
    FirstTime(t, d, first);
    hide *;
    FirstStillFillingIff(d);
    if Span(d, LONG_CAPACITY - 2) >= MIN_HISTORY {
      SteadyWarmup(t, d, first);
      SpikeAlerts(t, d, first, ZERO_TIME);
    }
    forall k: nat | AlertsOn(t, d, k) != []
      ensures Span(d, LONG_CAPACITY - 2) >= MIN_HISTORY
    {
      SteadyFallsSilent(t, d, k);
    }
  }

  lemma LaterIsFuller(d: Duration, first: nat)
    requires 0 < d
    ensures forall k: nat :: first <= k && StillFilling(d, k) ==> StillFilling(d, first)
  {
    hide Periods;
  }

  lemma FirstTime(t: Tick, d: Duration, k: nat)
    requires t.timestamp > ZERO_TIME && Span(d, k) >= ALERT_COOLDOWN
    ensures TimeOf(t.timestamp, d, k) - ZERO_TIME >= ALERT_COOLDOWN && t.timestamp != ZERO_TIME
  {}

  /** Trades at least 3600/19 s apart: every tick after the first five minutes raises an alert, for ever. */
  lemma SparseNeverSilent(t: Tick, d: Duration, k: nat)
    requires t.timestamp > ZERO_TIME && t.volume > 0.0 && d > 0 && 19 * d >= HOUR
    ensures AlertsOn(t, d, k) != [] <==> FirstEligible(d) <= k
  {
    assert StillFilling(d, k) && d >= ALERT_COOLDOWN;
    assert FirstEligible(d) <= k ==> Span(d, k) >= MIN_HISTORY >= ALERT_COOLDOWN;
    if FirstEligible(d) <= k {
      FirstTime(t, d, k);
      TimeStep(t.timestamp, d, k);
      hide *;
      LastAlertIsPast(t, d, k);
      SpikeAlerts(t, d, k, Run(Stepper(DEFAULTS), INITIAL, SteadyTicks(t, d, k)).0.lastAlert);
    } else if AlertsOn(t, d, k) != [] {
      hide *;
      SteadyFallsSilent(t, d, k);
    }
  }

  lemma TimeStep(start: Time, d: Duration, k: nat)
    ensures TimeOf(start, d, k) - TimeOf(start, d, k - 1) == d
  {}
}
