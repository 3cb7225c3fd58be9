/** What holds over every run of the volume-spike detector. */
module VolumeSpikeRuns {
  import opened Algebra
  import opened Clock
  import opened Common
  import opened RingBuffers
  import opened RingHistory
  import opened Runs
  import opened Ticks
  import opened VolumeSpikes

  // ---------------------------------------------------------------- isolation and cooldown

  function LastAlert(): SpikeState -> Time {
    (s: SpikeState) => s.lastAlert
  }

  lemma StepIsCool(cfg: Config, s: SpikeState, t: Tick)
    ensures CoolStep(Stepper(cfg), LastAlert(), ALERT_COOLDOWN, s, t)
    ensures forall a :: a in OnTick(cfg, s, t).1 ==> a.symbol == t.symbol
  {
    hide IsSpike, ShortRate, Threshold, Buffer.Push;
  }

  lemma StepperContract(cfg: Config)
    ensures LabelsOwnSymbol(Stepper(cfg))
    ensures RespectsCooldown(Stepper(cfg), LastAlert(), ALERT_COOLDOWN)
  {
    forall s: SpikeState, t: Tick
      ensures CoolStep(Stepper(cfg), LastAlert(), ALERT_COOLDOWN, s, t)
    {
      StepIsCool(cfg, s, t);
    }
    forall s: SpikeState, t: Tick, a | a in Stepper(cfg)(s, t).1
      ensures a.symbol == t.symbol
    {
      StepIsCool(cfg, s, t);
    }
  }

  /**
   * In any interleaved stream a symbol's alerts are those of a fresh detector fed that symbol alone,
   * and they are spaced by the cooldown however the ticks are stamped.
   */
  lemma SymbolsAreIsolated(cfg: Config, ticks: seq<Tick>, sym: Str)
    ensures var own := AlertsOf(sym, RunOwn(Stepper(cfg), INITIAL, ticks).1);
            own == Run(Stepper(cfg), INITIAL, TicksOf(sym, ticks)).1 && Spaced(own, ALERT_COOLDOWN)
  {
    StepperContract(cfg);
    NonInterference(Stepper(cfg), INITIAL, ticks, sym);
    AlertsAreSpaced(Stepper(cfg), LastAlert(), ALERT_COOLDOWN, INITIAL, TicksOf(sym, ticks));
  }

  /** A new detector object fed a whole stream, tick by tick: the run on values, hence isolated symbols. */
  method Watch(cfg: Config, ticks: seq<Tick>) returns (alerts: seq<Alert>)
    ensures alerts == RunOwn(Stepper(cfg), INITIAL, ticks).1
    ensures forall sym :: AlertsOf(sym, alerts) == Run(Stepper(cfg), INITIAL, TicksOf(sym, ticks)).1
                          && Spaced(AlertsOf(sym, alerts), ALERT_COOLDOWN)
  {
    hide OnTick, Run, RunOwn, AlertsOf, Spaced, VolumeSpikeDetector.Valid;
    var d := new VolumeSpikeDetector(cfg);
    alerts := [];
    NothingRun(Stepper(cfg), INITIAL);
    for i := 0 to |ticks|
      invariant d.Valid() && d.cfg == cfg && fresh(d.Repr)
      invariant (d.states, alerts) == RunOwn(Stepper(cfg), INITIAL, ticks[..i])
    {
      var more := d.Tick(ticks[i]);
      OwnExtends(Stepper(cfg), INITIAL, ticks[..i], ticks[i]);
      assert ticks[..i + 1] == ticks[..i] + [ticks[i]];
      alerts := alerts + more;
    }
    assert ticks[..|ticks|] == ticks;
    forall sym
      ensures AlertsOf(sym, alerts) == Run(Stepper(cfg), INITIAL, TicksOf(sym, ticks)).1
              && Spaced(AlertsOf(sym, alerts), ALERT_COOLDOWN)
    {
      SymbolsAreIsolated(cfg, ticks, sym);
    }
  }

  // ---------------------------------------------------------------- the history behind a state

  function EntriesOf(ticks: seq<Tick>): (es: seq<Entry>)
    ensures |es| == |ticks|
  {
    seq(|ticks|, i requires 0 <= i < |ticks| => Entry(ticks[i].timestamp, ticks[i].volume))
  }

  /** Both buffers hold what one history leaves in them. */
  lemma {:induction false} BuffersFollowHistory(cfg: Config, ticks: seq<Tick>)
    ensures var s := Run(Stepper(cfg), INITIAL, ticks).0;
            && s.short == PushAll(Empty(SHORT_CAPACITY), EntriesOf(ticks))
            && s.long == PushAll(Empty(LONG_CAPACITY), EntriesOf(ticks))
  {
    if ticks != [] {
      var n := |ticks| - 1;
      BuffersFollowHistory(cfg, ticks[..n]);
      assert EntriesOf(ticks)[..n] == EntriesOf(ticks[..n]);
    }
  }

  /** The state compared on a tick already includes that tick. */
  lemma RecordedHistory(cfg: Config, ticks: seq<Tick>, t: Tick)
    ensures var s := Record(Run(Stepper(cfg), INITIAL, ticks).0, t);
            && s.short == PushAll(Empty(SHORT_CAPACITY), EntriesOf(ticks + [t]))
            && s.long == PushAll(Empty(LONG_CAPACITY), EntriesOf(ticks + [t]))
  {
    BuffersFollowHistory(cfg, ticks);
    assert EntriesOf(ticks + [t])[..|ticks|] == EntriesOf(ticks);
  }

  // ---------------------------------------------------------------- the ratio of the two rates

  lemma {:induction false} LaterCutoffSumsLess(es: seq<Entry>, early: Time, late: Time)
    requires NonNegative(es) && early <= late
    ensures SumAfter(es, late) <= SumAfter(es, early)
  {
    if es != [] {
      LaterCutoffSumsLess(es[..|es| - 1], early, late);
    }
  }

  /** The short buffer's content is a suffix of the long buffer's, so its sum is no larger. */
  lemma ShortVolumeIsPart(es: seq<Entry>, now: Time, short: Duration, long: Duration)
    requires NonNegative(es) && short <= long
    ensures PushAll(Empty(SHORT_CAPACITY), es).SumSince(now, short)
            <= PushAll(Empty(LONG_CAPACITY), es).SumSince(now, long)
  {
    assert 0 < SHORT_CAPACITY <= LONG_CAPACITY;
    hide *;
    WindowSum(SHORT_CAPACITY, es, now, short);
    WindowSum(LONG_CAPACITY, es, now, long);
    NestedSums(SHORT_CAPACITY, LONG_CAPACITY, es, now - long, now - short);
  }

  lemma NestedSums(m: nat, n: nat, es: seq<Entry>, early: Time, late: Time)
    requires 0 < m <= n && NonNegative(es) && early <= late
    ensures SumAfter(Last(m, es), late) <= SumAfter(Last(n, es), early)
  {
    var s, l := Last(m, es), Last(n, es);
    HistorySplits(n, es);
    LastWithinLast(m, n, es);
    NonNegativeParts(Dropped(n, es), l);
    hide *;
    SuffixSumsLess(l[..|l| - |s|], s, early, late);
  }

  lemma LastWithinLast<T>(m: nat, n: nat, s: seq<T>)
    requires m <= n
    ensures Last(n, s) == Last(n, s)[..|Last(n, s)| - |Last(m, s)|] + Last(m, s)
  {}

  lemma SuffixSumsLess(older: seq<Entry>, s: seq<Entry>, early: Time, late: Time)
    requires NonNegative(older + s) && early <= late
    ensures SumAfter(s, late) <= SumAfter(older + s, early)
  {
    NonNegativeParts(older, s);
    hide *;
    SumSplits(older, s, early);
    SumIsNonNegative(older, early);
    LaterCutoffSumsLess(s, early, late);
  }

  /** Every alert of a run is raised by the last tick of some prefix. */
  lemma {:induction false} AlertHasCause<S, T>(step: Step<S, T>, init: S, inputs: seq<T>, i: nat) returns (k: nat)
    requires i < |Run(step, init, inputs).1|
    ensures k < |inputs|
    ensures Run(step, init, inputs).1[i] in step(Run(step, init, inputs[..k]).0, inputs[k]).1
  {
    var n := |inputs| - 1;
    var (s, alerts) := Run(step, init, inputs[..n]);
    if i < |alerts| {
      k := AlertHasCause(step, init, inputs[..n], i);
      assert inputs[..n][..k] == inputs[..k];
    } else {
      k := n;
    }
  }

  /** The ratio that the alert message reports. */
  function Ratio(cfg: Config, s: SpikeState, now: Time): real
    requires LongRate(cfg, s, now) != 0.0
  {
    ShortRate(cfg, s, now) / LongRate(cfg, s, now)
  }

  function WindowRatio(cfg: Config): real {
    Seconds(cfg.longWindow) / Seconds(cfg.shortWindow)
  }

  /**
   * With non-negative volumes, in any timestamp order, every alert's ratio of short rate to long
   * rate lies in (multiplier, longWindow/shortWindow].
   */
  lemma AlertRatioIsBounded(cfg: Config, ticks: seq<Tick>, t: Tick)
    requires cfg.shortWindow <= cfg.longWindow && NoNegativeVolume(ticks + [t])
    requires OnTick(cfg, Run(Stepper(cfg), INITIAL, ticks).0, t).1 != []
    ensures var s := Record(Run(Stepper(cfg), INITIAL, ticks).0, t);
            && LongRate(cfg, s, t.timestamp) > 0.0
            && cfg.multiplier < Ratio(cfg, s, t.timestamp) <= WindowRatio(cfg)
  {
    var before := Run(Stepper(cfg), INITIAL, ticks).0;
    assert IsSpike(cfg, Record(before, t), t.timestamp);
    hide OnTick, IsSpike, Record, Ratio, WindowRatio, ShortRate, LongRate, Threshold, Buffer.SumSince;
    VolumesAreOrdered(cfg, ticks, t);
    SpikeRatio(cfg, Record(before, t), t.timestamp);
  }

  lemma VolumesAreOrdered(cfg: Config, ticks: seq<Tick>, t: Tick)
    requires cfg.shortWindow <= cfg.longWindow && NoNegativeVolume(ticks + [t])
    ensures var s := Record(Run(Stepper(cfg), INITIAL, ticks).0, t);
            0.0 <= s.short.SumSince(t.timestamp, cfg.shortWindow) <= s.long.SumSince(t.timestamp, cfg.longWindow)
  {
    var es := EntriesOf(ticks + [t]);
    assert NonNegative(es) && 0 < SHORT_CAPACITY;
    hide *;
    RecordedHistory(cfg, ticks, t);
    ShortVolumeIsPart(es, t.timestamp, cfg.shortWindow, cfg.longWindow);
    SumSinceNeverExceeds(SHORT_CAPACITY, es, t.timestamp, cfg.shortWindow);
  }

  lemma SpikeRatio(cfg: Config, s: SpikeState, now: Time)
    requires IsSpike(cfg, s, now)
    requires 0.0 <= s.short.SumSince(now, cfg.shortWindow) <= s.long.SumSince(now, cfg.longWindow)
    ensures LongRate(cfg, s, now) > 0.0
    ensures cfg.multiplier < Ratio(cfg, s, now) <= WindowRatio(cfg)
  {
    hide Buffer.SumSince, Seconds;
    RatioAlgebra(s.short.SumSince(now, cfg.shortWindow), s.long.SumSince(now, cfg.longWindow),
                 Seconds(cfg.shortWindow), Seconds(cfg.longWindow),
                 ShortRate(cfg, s, now), LongRate(cfg, s, now), cfg.multiplier);
  }

  lemma RatioAlgebra(short: real, long: real, shortSecs: real, longSecs: real, x: real, y: real, m: real)
    requires 0.0 <= short <= long != 0.0 && shortSecs > 0.0 && longSecs > 0.0
    requires x == short / shortSecs && y == long / longSecs && x > y * m
    ensures y > 0.0 && m < x / y <= longSecs / shortSecs
  {
    var q, r := x / y, longSecs / shortSecs;
    assert y > 0.0;
    assert q * y == x && r * shortSecs == longSecs;
    CancelLess(m, q, y);
    assert x * shortSecs == short && y * longSecs == long;
    assert y * shortSecs > 0.0;
    assert q * (y * shortSecs) == short && r * (y * shortSecs) == long;
    CancelLessEqual(q, r, y * shortSecs);
  }

  /** A single late trade makes the two sums equal: the ratio is then the whole window ratio. */
  function LateTrade(): seq<Tick> {
    [Tick([], [], 0.0, 0.0, Buy, 1), Tick([], [], 0.0, 1.0, Buy, 1 + MIN_HISTORY)]
  }

  lemma LateTradeSums(w: Duration)
    requires w > 0
    ensures SumAfter(EntriesOf(LateTrade()), 1 + MIN_HISTORY - w) == 1.0
  {
    var es := EntriesOf(LateTrade());
    assert es[..1] == [es[0]] && es[..1][..0] == [];
    assert SumAfter(es[..1], 1 + MIN_HISTORY - w) == 0.0;
  }

  lemma LateTradeTimes(cfg: Config)
    ensures var s := Run(Stepper(cfg), INITIAL, [LateTrade()[0]]).0;
            s.firstSeen == 1 && s.lastAlert == ZERO_TIME
  {
    var t0 := LateTrade()[0];
    assert [] + [t0] == [t0];
    hide Buffer.Push, Buffer.SumSince;
    RunExtends(Stepper(cfg), INITIAL, [], t0);
  }

  lemma LateTradeVolumes(cfg: Config)
    ensures var s := Record(Run(Stepper(cfg), INITIAL, [LateTrade()[0]]).0, LateTrade()[1]);
            && s.short.SumSince(1 + MIN_HISTORY, cfg.shortWindow) == 1.0
            && s.long.SumSince(1 + MIN_HISTORY, cfg.longWindow) == 1.0
  {
    var t0, t1, es := LateTrade()[0], LateTrade()[1], EntriesOf(LateTrade());
    assert [t0] + [t1] == LateTrade() && t1.timestamp == 1 + MIN_HISTORY;
    assert |es| == 2 < SHORT_CAPACITY < LONG_CAPACITY;
    hide Run, PushAll, SumAfter, Buffer.SumSince, EntriesOf, LateTrade;
    RecordedHistory(cfg, [t0], t1);
    WindowSum(SHORT_CAPACITY, es, t1.timestamp, cfg.shortWindow);
    WindowSum(LONG_CAPACITY, es, t1.timestamp, cfg.longWindow);
    LateTradeSums(cfg.shortWindow);
    LateTradeSums(cfg.longWindow);
  }

  lemma LateTradeAlerts(cfg: Config)
    requires cfg.multiplier < WindowRatio(cfg)
    ensures Run(Stepper(cfg), INITIAL, LateTrade()).1 != []
  {
    var t0, t1 := LateTrade()[0], LateTrade()[1];
    assert LateTrade() == [t0] + [t1];
    LateTradeTimes(cfg);
    LateTradeVolumes(cfg);
    InverseRates(Seconds(cfg.shortWindow), Seconds(cfg.longWindow), cfg.multiplier);
    RunExtends(Stepper(cfg), INITIAL, [t0], t1);
    hide Run, Record, Buffer.SumSince, Seconds;
    assert IsSpike(cfg, Record(Run(Stepper(cfg), INITIAL, [t0]).0, t1), t1.timestamp);
  }

  lemma InverseRates(shortSecs: real, longSecs: real, m: real)
    requires shortSecs > 0.0 && longSecs > 0.0 && m < longSecs / shortSecs
    ensures 1.0 / shortSecs > 1.0 / longSecs * m
  {
    var p, q, r := 1.0 / shortSecs, 1.0 / longSecs, longSecs / shortSecs;
    assert p * shortSecs == 1.0 && q * longSecs == 1.0 && r * shortSecs == longSecs;
    assert q > 0.0;
    assert q * r == p by {
      assert (q * r) * shortSecs == 1.0;
    }
    assert q * (r - m) > 0.0;
  }

  lemma AlertNeedsRatio(cfg: Config, ticks: seq<Tick>, k: nat)
    requires cfg.shortWindow <= cfg.longWindow && NoNegativeVolume(ticks) && k < |ticks|
    requires Stepper(cfg)(Run(Stepper(cfg), INITIAL, ticks[..k]).0, ticks[k]).1 != []
    ensures cfg.multiplier < WindowRatio(cfg)
  {
    assert NoNegativeVolume(ticks[..k] + [ticks[k]]);
    hide OnTick, NoNegativeVolume, Run, Ratio, WindowRatio, Record;
    AlertRatioIsBounded(cfg, ticks[..k], ticks[k]);
  }

  /** Some stream of non-negative volumes raises an alert exactly when the multiplier is below the window ratio. */
  lemma AlertsPossibleIff(cfg: Config)
    requires cfg.shortWindow <= cfg.longWindow
    ensures (exists ticks :: NoNegativeVolume(ticks) && Run(Stepper(cfg), INITIAL, ticks).1 != [])
            <==> cfg.multiplier < WindowRatio(cfg)
  {
    assert NoNegativeVolume(LateTrade());
    hide *;
    if cfg.multiplier < WindowRatio(cfg) {
      LateTradeAlerts(cfg);
    }
    forall ticks | NoNegativeVolume(ticks) && Run(Stepper(cfg), INITIAL, ticks).1 != []
      ensures cfg.multiplier < WindowRatio(cfg)
    {
      var k := AlertHasCause(Stepper(cfg), INITIAL, ticks, 0);
      AlertNeedsRatio(cfg, ticks, k);
    }
  }
}
