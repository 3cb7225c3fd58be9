/** The detectors do not depend on the units of their input: volume for spikes, each leg's price for correlation. */
module DetectorInvariance {
  import opened Algebra
  import opened Clock
  import opened Common
  import opened Pearson
  import opened RingBuffers
  import opened Runs
  import opened Ticks
  import Corr = CorrelationBreakdown
  import Spike = VolumeSpikes

  // ---------------------------------------------------------------- buffers of scaled values

  function ScaledEntry(e: Entry, a: real): Entry {
    e.(value := a * e.value)
  }

  function ScaledEntries(es: seq<Entry>, a: real): (r: seq<Entry>)
    ensures |r| == |es|
  {
    seq(|es|, i requires 0 <= i < |es| => ScaledEntry(es[i], a))
  }

  function ScaledBuffer(b: Buffer, a: real): Buffer {
    b.(items := ScaledEntries(b.items, a))
  }

  lemma {:induction false} SumScales(es: seq<Entry>, cutoff: Time, a: real)
    ensures SumAfter(ScaledEntries(es, a), cutoff) == a * SumAfter(es, cutoff)
  {
    if es != [] {
      var n := |es| - 1;
      SumScales(es[..n], cutoff, a);
      assert ScaledEntries(es, a)[..n] == ScaledEntries(es[..n], a);
      hide ScaledEntries;
      OneMoreScales(a, SumAfter(es[..n], cutoff), if es[n].at > cutoff then es[n].value else 0.0);
    }
  }

  lemma OneMoreScales(a: real, x: real, y: real)
    ensures a * (x + y) == a * x + a * y
  {}

  lemma PushScales(b: Buffer, at: Time, v: real, a: real, av: real)
    requires av == a * v
    ensures ScaledBuffer(b, a).Push(at, av) == ScaledBuffer(b.Push(at, v), a)
  {
    assert ScaledEntry(Entry(at, v), a) == Entry(at, av);
    hide ScaledEntry;
    assert ScaledEntries(b.items + [Entry(at, v)], a) == ScaledEntries(b.items, a) + [ScaledEntry(Entry(at, v), a)];
    LastScales(b.cap, b.items + [Entry(at, v)], a);
    hide Last, ScaledEntries;
  }

  lemma LastScales(n: nat, es: seq<Entry>, a: real)
    ensures Last(n, ScaledEntries(es, a)) == ScaledEntries(Last(n, es), a)
  {}

  // ---------------------------------------------------------------- volume spikes

  function ScaledTick(t: Tick, a: real): Tick {
    t.(volume := a * t.volume)
  }

  function ScaledTicks(ticks: seq<Tick>, a: real): seq<Tick> {
    seq(|ticks|, i requires 0 <= i < |ticks| => ScaledTick(ticks[i], a))
  }

  function ScaledState(s: Spike.SpikeState, a: real): Spike.SpikeState {
    s.(short := ScaledBuffer(s.short, a), long := ScaledBuffer(s.long, a))
  }

  /** The alert reports rates in the new unit; everything else stays. */
  function ScaledAlert(x: Alert, a: real): Alert {
    x.(value := a * x.value, threshold := a * x.threshold)
  }

  function ScaledAlerts(alerts: seq<Alert>, a: real): seq<Alert> {
    seq(|alerts|, i requires 0 <= i < |alerts| => ScaledAlert(alerts[i], a))
  }

  lemma RecordScales(s: Spike.SpikeState, t: Tick, a: real)
    ensures Spike.Record(ScaledState(s, a), ScaledTick(t, a)) == ScaledState(Spike.Record(s, t), a)
  {
    hide ScaledBuffer, Buffer.Push;
    var volume := ScaledTick(t, a).volume;
    PushScales(s.short, t.timestamp, t.volume, a, volume);
    PushScales(s.long, t.timestamp, t.volume, a, volume);
  }

  lemma VolumeScales(b: Buffer, now: Time, window: Duration, a: real)
    ensures ScaledBuffer(b, a).SumSince(now, window) == a * b.SumSince(now, window)
  {
    hide SumAfter, ScaledEntries;
    SumScales(b.items, now - window, a);
  }

  lemma RatesScale(cfg: Spike.Config, s: Spike.SpikeState, now: Time, a: real)
    ensures Spike.ShortRate(cfg, ScaledState(s, a), now) == a * Spike.ShortRate(cfg, s, now)
    ensures Spike.LongRate(cfg, ScaledState(s, a), now) == a * Spike.LongRate(cfg, s, now)
  {
    hide Buffer.SumSince, ScaledBuffer, Seconds;
    var short, long := ScaledBuffer(s.short, a), ScaledBuffer(s.long, a);
    VolumeScales(s.short, now, cfg.shortWindow, a);
    VolumeScales(s.long, now, cfg.longWindow, a);
    ScaledQuotient(a, s.short.SumSince(now, cfg.shortWindow), Seconds(cfg.shortWindow),
                   short.SumSince(now, cfg.shortWindow));
    ScaledQuotient(a, s.long.SumSince(now, cfg.longWindow), Seconds(cfg.longWindow),
                   long.SumSince(now, cfg.longWindow));
  }

  lemma ThresholdScales(cfg: Spike.Config, s: Spike.SpikeState, now: Time, a: real)
    ensures Spike.Threshold(cfg, ScaledState(s, a), now) == a * Spike.Threshold(cfg, s, now)
  {
    hide Spike.LongRate, ScaledState;
    RatesScale(cfg, s, now, a);
    ScaledTimes(a, Spike.LongRate(cfg, s, now), cfg.multiplier, Spike.LongRate(cfg, ScaledState(s, a), now),
                Spike.Threshold(cfg, s, now), Spike.Threshold(cfg, ScaledState(s, a), now));
  }

  lemma SpikeIsInvariant(cfg: Spike.Config, s: Spike.SpikeState, now: Time, a: real)
    requires a > 0.0
    ensures Spike.IsSpike(cfg, ScaledState(s, a), now) <==> Spike.IsSpike(cfg, s, now)
  {
    var long := s.long.SumSince(now, cfg.longWindow);
    hide Buffer.SumSince, ScaledBuffer, Spike.ShortRate, Spike.Threshold;
    VolumeScales(s.long, now, cfg.longWindow, a);
    SignIsInvariant(a, long, ScaledBuffer(s.long, a).SumSince(now, cfg.longWindow));
    RatesScale(cfg, s, now, a);
    ThresholdScales(cfg, s, now, a);
    CompareScaled(Spike.ShortRate(cfg, s, now), Spike.Threshold(cfg, s, now), a,
                  Spike.ShortRate(cfg, ScaledState(s, a), now), Spike.Threshold(cfg, ScaledState(s, a), now));
  }

  lemma ScaledTimes(a: real, x: real, m: real, ax: real, xm: real, axm: real)
    requires ax == a * x && xm == x * m && axm == ax * m
    ensures axm == a * xm
  {}

  lemma SpikeStepIsInvariant(cfg: Spike.Config, s: Spike.SpikeState, t: Tick, a: real)
    requires a > 0.0
    ensures var (s', alerts) := Spike.OnTick(cfg, s, t);
            Spike.OnTick(cfg, ScaledState(s, a), ScaledTick(t, a)) == (ScaledState(s', a), ScaledAlerts(alerts, a))
  {
    var s', now := Spike.Record(s, t), t.timestamp;
    hide ScaledBuffer, Spike.Record, Spike.IsSpike, Spike.ShortRate, Spike.Threshold, Spike.LongRate;
    RecordScales(s, t, a);
    SpikeIsInvariant(cfg, s', now, a);
    RatesScale(cfg, s', now, a);
    ThresholdScales(cfg, s', now, a);
    var x := Alert(VolumeSpike, t.symbol, t.exchange,
                   Spike.ShortRate(cfg, s', now), Spike.Threshold(cfg, s', now), now);
    var z := ScaledState(s', a);
    assert ScaledAlert(x, a) == x.(value := Spike.ShortRate(cfg, z, now), threshold := Spike.Threshold(cfg, z, now));
    assert ScaledAlerts([], a) == [];
    assert ScaledAlerts([x], a) == [ScaledAlert(x, a)];
    assert ScaledState(s'.(lastAlert := now), a) == z.(lastAlert := now);
    var u := ScaledTick(t, a);
    assert u.timestamp == now && u.symbol == t.symbol && u.exchange == t.exchange;
    hide ScaledAlert, ScaledAlerts, ScaledState, ScaledTick;
  }

  /**
   * Multiplying every volume by a positive constant leaves the alerts of every run where they were: same
   * ticks, same symbols, the two reported rates multiplied.
   */
  lemma {:induction false} SpikeRunIsInvariant(cfg: Spike.Config, ticks: seq<Tick>, a: real)
    requires a > 0.0
    ensures var (s, alerts) := Run(Spike.Stepper(cfg), Spike.INITIAL, ticks);
            Run(Spike.Stepper(cfg), Spike.INITIAL, ScaledTicks(ticks, a))
            == (ScaledState(s, a), ScaledAlerts(alerts, a))
  {
    hide *;
    if ticks == [] {
      NothingScales(cfg, a);
    } else {
      var before, t := ticks[..|ticks| - 1], ticks[|ticks| - 1];
      assert ticks == before + [t];
      SpikeRunIsInvariant(cfg, before, a);
      ExtendScales(cfg, before, t, a);
    }
  }

  lemma NothingScales(cfg: Spike.Config, a: real)
    ensures ScaledTicks([], a) == []
    ensures Run(Spike.Stepper(cfg), Spike.INITIAL, []) == (ScaledState(Spike.INITIAL, a), ScaledAlerts([], a))
    ensures Run(Spike.Stepper(cfg), Spike.INITIAL, []) == (Spike.INITIAL, [])
  {
    assert ScaledAlerts([], a) == [] && ScaledEntries([], a) == [];
  }

  lemma ExtendScales(cfg: Spike.Config, before: seq<Tick>, t: Tick, a: real)
    requires a > 0.0
    requires var (s, alerts) := Run(Spike.Stepper(cfg), Spike.INITIAL, before);
             Run(Spike.Stepper(cfg), Spike.INITIAL, ScaledTicks(before, a))
             == (ScaledState(s, a), ScaledAlerts(alerts, a))
    ensures var (s, alerts) := Run(Spike.Stepper(cfg), Spike.INITIAL, before + [t]);
            Run(Spike.Stepper(cfg), Spike.INITIAL, ScaledTicks(before + [t], a))
            == (ScaledState(s, a), ScaledAlerts(alerts, a))
  {
    assert ScaledTicks(before + [t], a) == ScaledTicks(before, a) + [ScaledTick(t, a)];
    hide ScaledTicks, ScaledTick, ScaledState, Spike.OnTick, Run;
    var (s, alerts) := Run(Spike.Stepper(cfg), Spike.INITIAL, before);
    RunExtends(Spike.Stepper(cfg), Spike.INITIAL, before, t);
    RunExtends(Spike.Stepper(cfg), Spike.INITIAL, ScaledTicks(before, a), ScaledTick(t, a));
    SpikeStepIsInvariant(cfg, s, t, a);
    AlertsConcat(alerts, Spike.OnTick(cfg, s, t).1, a);
  }

  lemma AlertsConcat(x: seq<Alert>, y: seq<Alert>, a: real)
    ensures ScaledAlerts(x + y, a) == ScaledAlerts(x, a) + ScaledAlerts(y, a)
  {}

  // ---------------------------------------------------------------- correlation

  /** The prices of the two legs in other units. */
  function PricedTick(p: Corr.Pair, t: Tick, a: real, b: real): Tick {
    t.(price := if t.symbol == p.a then a * t.price else if t.symbol == p.b then b * t.price else t.price)
  }

  function PricedTicks(p: Corr.Pair, ticks: seq<Tick>, a: real, b: real): seq<Tick> {
    seq(|ticks|, i requires 0 <= i < |ticks| => PricedTick(p, ticks[i], a, b))
  }

  function PricedQuotes(q: Corr.Quotes, a: real, b: real): Corr.Quotes {
    Corr.Quotes(a * q.a, b * q.b)
  }

  function PricedState(s: Corr.PairState, a: real, b: real): Corr.PairState {
    s.(snapshot := PricedQuotes(s.snapshot, a, b), latest := PricedQuotes(s.latest, a, b))
  }

  lemma QuoteScales(p: Corr.Pair, s: Corr.PairState, t: Tick, a: real, b: real)
    ensures Corr.Quote(p, PricedState(s, a, b), PricedTick(p, t, a, b)) == PricedState(Corr.Quote(p, s, t), a, b)
  {}

  /** A log-return is that of the ratio of two prices in the same unit. */
  lemma SampleScales(math: Corr.Math, s: Corr.PairState, now: Time, a: real, b: real)
    requires a > 0.0 && b > 0.0
    ensures Corr.Sample(math, PricedState(s, a, b), now) == PricedState(Corr.Sample(math, s, now), a, b)
  {
    hide Buffer.Push;
    var z := PricedState(s, a, b);
    CompareScaled(s.snapshot.a, 0.0, a, z.snapshot.a, 0.0);
    CompareScaled(s.snapshot.b, 0.0, b, z.snapshot.b, 0.0);
    if s.snapshot.a > 0.0 && s.snapshot.b > 0.0 {
      ScaledRatio(s.latest.a, s.snapshot.a, a, z.latest.a, z.snapshot.a);
      ScaledRatio(s.latest.b, s.snapshot.b, b, z.latest.b, z.snapshot.b);
    }
  }

  lemma JudgeScales(cfg: Corr.Config, math: Corr.Math, p: Corr.Pair, s: Corr.PairState, now: Time, a: real, b: real)
    requires math.Exact()
    ensures var (s', alerts) := Corr.Judge(cfg, math, p, s, now);
            Corr.Judge(cfg, math, p, PricedState(s, a, b), now) == (PricedState(s', a, b), alerts)
  {
    hide Correlation, Buffer.Slice, Corr.Math.Exact, PricedQuotes;
  }

  lemma PairStepIsInvariant(cfg: Corr.Config, math: Corr.Math, p: Corr.Pair, s: Corr.PairState, t: Tick, a: real,
                            b: real)
    requires math.Exact() && a > 0.0 && b > 0.0
    ensures var (s', alerts) := Corr.OnTick(cfg, math, p, s, t);
            Corr.OnTick(cfg, math, p, PricedState(s, a, b), PricedTick(p, t, a, b)) == (PricedState(s', a, b), alerts)
  {
    var q, now := Corr.Quote(p, s, t), t.timestamp;
    QuoteScales(p, s, t, a, b);
    SignIsInvariant(a, q.latest.a, PricedState(q, a, b).latest.a);
    SignIsInvariant(b, q.latest.b, PricedState(q, a, b).latest.b);
    SampleScales(math, q, now, a, b);
    JudgeScales(cfg, math, p, Corr.Sample(math, q, now), now, a, b);
    hide Corr.Quote, Corr.Sample, Corr.Judge, Corr.Math.Exact, PricedQuotes;
  }

  /** Multiplying each leg's prices by a positive constant of its own leaves every run's alerts as they were. */
  lemma {:induction false} PairRunIsInvariant(cfg: Corr.Config, math: Corr.Math, p: Corr.Pair, ticks: seq<Tick>,
                                              a: real, b: real)
    requires math.Exact() && a > 0.0 && b > 0.0
    ensures var (s, alerts) := Run(Corr.Stepper(cfg, math, p), Corr.INITIAL, ticks);
            Run(Corr.Stepper(cfg, math, p), Corr.INITIAL, PricedTicks(p, ticks, a, b))
            == (PricedState(s, a, b), alerts)
  {
    hide *;
    if ticks == [] {
      NothingPriced(cfg, math, p, a, b);
    } else {
      var before, t := ticks[..|ticks| - 1], ticks[|ticks| - 1];
      assert ticks == before + [t];
      PairRunIsInvariant(cfg, math, p, before, a, b);
      ExtendPriced(cfg, math, p, before, t, a, b);
    }
  }

  lemma NothingPriced(cfg: Corr.Config, math: Corr.Math, p: Corr.Pair, a: real, b: real)
    requires math.Exact()
    ensures PricedTicks(p, [], a, b) == []
    ensures Run(Corr.Stepper(cfg, math, p), Corr.INITIAL, []) == (PricedState(Corr.INITIAL, a, b), [])
    ensures Run(Corr.Stepper(cfg, math, p), Corr.INITIAL, []) == (Corr.INITIAL, [])
  {
    hide Corr.OnTick, Corr.Math.Exact;
  }

  lemma ExtendPriced(cfg: Corr.Config, math: Corr.Math, p: Corr.Pair, before: seq<Tick>, t: Tick, a: real, b: real)
    requires math.Exact() && a > 0.0 && b > 0.0
    requires var (s, alerts) := Run(Corr.Stepper(cfg, math, p), Corr.INITIAL, before);
             Run(Corr.Stepper(cfg, math, p), Corr.INITIAL, PricedTicks(p, before, a, b))
             == (PricedState(s, a, b), alerts)
    ensures var (s, alerts) := Run(Corr.Stepper(cfg, math, p), Corr.INITIAL, before + [t]);
            Run(Corr.Stepper(cfg, math, p), Corr.INITIAL, PricedTicks(p, before + [t], a, b))
            == (PricedState(s, a, b), alerts)
  {
    assert PricedTicks(p, before + [t], a, b) == PricedTicks(p, before, a, b) + [PricedTick(p, t, a, b)];
    hide PricedTicks, PricedTick, PricedState, Corr.OnTick, Corr.Math.Exact, Run;
    var step := Corr.Stepper(cfg, math, p);
    RunExtends(step, Corr.INITIAL, before, t);
    RunExtends(step, Corr.INITIAL, PricedTicks(p, before, a, b), PricedTick(p, t, a, b));
    PairStepIsInvariant(cfg, math, p, Run(step, Corr.INITIAL, before).0, t, a, b);
  }
}
