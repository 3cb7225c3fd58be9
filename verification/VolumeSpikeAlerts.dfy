/** Exactly when the volume-spike detector alerts, and what it reports, read off the stream. */
module VolumeSpikeAlerts {
  import opened Algebra
  import opened Clock
  import opened Common
  import opened RingBuffers
  import opened RingHistory
  import opened Runs
  import opened Ticks
  import opened VolumeSpikeRuns
  import opened VolumeSpikes

  /** The volume after `cutoff`, over the last `n` ticks. */
  function VolumeAfter(n: nat, ticks: seq<Tick>, cutoff: Time): real {
    SumAfter(Last(n, EntriesOf(ticks)), cutoff)
  }

  /** The volumes that a tick compares: of the short window over 5000 ticks, of the long one over 100000. */
  function Recent(cfg: Config, ticks: seq<Tick>, t: Tick): real {
    VolumeAfter(5_000, ticks + [t], t.timestamp - cfg.shortWindow)
  }

  function Hourly(cfg: Config, ticks: seq<Tick>, t: Tick): real {
    VolumeAfter(100_000, ticks + [t], t.timestamp - cfg.longWindow)
  }

  /** Five minutes of history, some volume, and no alert in the last 30 seconds. */
  ghost predicate Prepared(cfg: Config, ticks: seq<Tick>, t: Tick, alerts: seq<Alert>) {
    && Sub(t.timestamp, FirstStamp(ticks + [t])) >= 5 * MINUTE
    && Hourly(cfg, ticks, t) != 0.0
    && Sub(t.timestamp, LastTime(alerts)) >= 30 * SECOND
  }

  // ---------------------------------------------------------------- the state behind a run

  lemma {:induction false} FirstSeenIs(cfg: Config, ticks: seq<Tick>)
    ensures Run(Stepper(cfg), INITIAL, ticks).0.firstSeen == FirstStamp(ticks)
  {
    if ticks != [] {
      var before, t := ticks[..|ticks| - 1], ticks[|ticks| - 1];
      assert ticks == before + [t];
      FirstSeenIs(cfg, before);
      FirstStampExtends(before, t);
      hide IsSpike, ShortRate, Threshold, FirstStamp, Buffer.Push;
    }
  }

  lemma VolumesAre(cfg: Config, ticks: seq<Tick>, t: Tick, s: SpikeState)
    requires s == Record(Run(Stepper(cfg), INITIAL, ticks).0, t)
    ensures s.short.SumSince(t.timestamp, cfg.shortWindow) == Recent(cfg, ticks, t)
    ensures s.long.SumSince(t.timestamp, cfg.longWindow) == Hourly(cfg, ticks, t)
  {
    hide Run, Record, EntriesOf, PushAll, Last, SumAfter;
    RecordedHistory(cfg, ticks, t);
    HistorySplits(5_000, EntriesOf(ticks + [t]));
    HistorySplits(100_000, EntriesOf(ticks + [t]));
  }

  lemma TimesAre(cfg: Config, ticks: seq<Tick>, t: Tick, s: SpikeState)
    requires s == Record(Run(Stepper(cfg), INITIAL, ticks).0, t)
    ensures s.firstSeen == FirstStamp(ticks + [t]) && s.lastAlert == LastTime(Run(Stepper(cfg), INITIAL, ticks).1)
  {
    FirstSeenIs(cfg, ticks);
    FirstStampExtends(ticks, t);
    StepperContract(cfg);
    assert LastAlert()(INITIAL) == ZERO_TIME;
    hide Run, FirstStamp, LastTime, RespectsCooldown, Buffer.Push, OnTick;
    LastIsRemembered(Stepper(cfg), LastAlert(), ALERT_COOLDOWN, INITIAL, ticks);
  }

  // ---------------------------------------------------------------- the alert

  function Rate(volume: real, window: Duration): real
    requires window > 0
  {
    volume / Seconds(window)
  }

  /** The multiple of the long window's rate. */
  function Multiple(cfg: Config, hourly: real): real {
    Rate(hourly, cfg.longWindow) * cfg.multiplier
  }

  /** The alert raised on these two volumes, when the short window's rate is large enough. */
  function Verdict(cfg: Config, t: Tick, recent: real, hourly: real): seq<Alert> {
    var value, threshold := Rate(recent, cfg.shortWindow), Multiple(cfg, hourly);
    if value > threshold then [Alert(VolumeSpike, t.symbol, t.exchange, value, threshold, t.timestamp)] else []
  }

  lemma StepVerdict(cfg: Config, before: SpikeState, t: Tick, s: SpikeState)
    requires s == Record(before, t)
    ensures var recent, hourly := s.short.SumSince(t.timestamp, cfg.shortWindow),
                                  s.long.SumSince(t.timestamp, cfg.longWindow);
            OnTick(cfg, before, t).1
            == if Sub(t.timestamp, s.firstSeen) >= MIN_HISTORY && hourly != 0.0
                  && Sub(t.timestamp, s.lastAlert) >= ALERT_COOLDOWN
               then Verdict(cfg, t, recent, hourly) else []
  {
    var recent, hourly := s.short.SumSince(t.timestamp, cfg.shortWindow),
                          s.long.SumSince(t.timestamp, cfg.longWindow);
    var value, threshold := ShortRate(cfg, s, t.timestamp), Threshold(cfg, s, t.timestamp);
    RatesAre(cfg, s, t.timestamp, recent, hourly);
    VerdictIs(cfg, t, recent, hourly, value, threshold);
    hide Verdict, ShortRate, Threshold, Record, Buffer.SumSince, Seconds;
  }

  lemma RatesAre(cfg: Config, s: SpikeState, now: Time, recent: real, hourly: real)
    requires recent == s.short.SumSince(now, cfg.shortWindow) && hourly == s.long.SumSince(now, cfg.longWindow)
    ensures ShortRate(cfg, s, now) == Rate(recent, cfg.shortWindow)
    ensures Threshold(cfg, s, now) == Multiple(cfg, hourly)
  {
    hide Buffer.SumSince, Seconds;
  }

  lemma VerdictIs(cfg: Config, t: Tick, recent: real, hourly: real, value: real, threshold: real)
    requires value == Rate(recent, cfg.shortWindow) && threshold == Multiple(cfg, hourly)
    ensures Verdict(cfg, t, recent, hourly)
            == if value > threshold then [Alert(VolumeSpike, t.symbol, t.exchange, value, threshold, t.timestamp)]
               else []
  {
    hide Rate, Multiple;
  }

  /** For any stream: a tick adds this alert when the detector is prepared, and otherwise none. */
  lemma AlertsExactly(cfg: Config, ticks: seq<Tick>, t: Tick)
    ensures var alerts := Run(Stepper(cfg), INITIAL, ticks).1;
            Run(Stepper(cfg), INITIAL, ticks + [t]).1
            == alerts + if Prepared(cfg, ticks, t, alerts)
                        then Verdict(cfg, t, Recent(cfg, ticks, t), Hourly(cfg, ticks, t)) else []
  {
    var s := Record(Run(Stepper(cfg), INITIAL, ticks).0, t);
    VolumesAre(cfg, ticks, t, s);
    TimesAre(cfg, ticks, t, s);
    StepVerdict(cfg, Run(Stepper(cfg), INITIAL, ticks).0, t, s);
    RunExtends(Stepper(cfg), INITIAL, ticks, t);
    hide Run, Record, Recent, Hourly, Buffer.SumSince, FirstStamp, LastTime, Verdict, OnTick;
  }

  /** The alerts that the last of `ticks + [t]` adds to those before. */
  function Added(cfg: Config, ticks: seq<Tick>, t: Tick): seq<Alert> {
    var before, after := Run(Stepper(cfg), INITIAL, ticks).1, Run(Stepper(cfg), INITIAL, ticks + [t]).1;
    if |before| <= |after| then after[|before|..] else []
  }

  /** Without a division: the recent volume against the long window's, each for its window's length. */
  ghost predicate Outpaces(cfg: Config, recent: real, hourly: real) {
    recent * Seconds(cfg.longWindow) > cfg.multiplier * hourly * Seconds(cfg.shortWindow)
  }

  /** The two rates in their order, and where and when. */
  ghost predicate Reports(cfg: Config, t: Tick, a: Alert, recent: real, hourly: real) {
    && a.value * Seconds(cfg.shortWindow) == recent
    && a.threshold * Seconds(cfg.longWindow) == cfg.multiplier * hourly
    && a.value > a.threshold
    && a.detector == VolumeSpike && a.symbol == t.symbol && a.exchange == t.exchange && a.timestamp == t.timestamp
  }

  /**
   * On any stream a tick raises exactly one alert if and only if the detector is prepared and the recent
   * volume outpaces the long window's; the alert reports the recent rate as its value and the multiple of
   * the long rate, which is smaller, as its threshold.
   */
  lemma AlertsIff(cfg: Config, ticks: seq<Tick>, t: Tick)
    ensures var alerts, more := Run(Stepper(cfg), INITIAL, ticks).1, Added(cfg, ticks, t);
            var recent, hourly := Recent(cfg, ticks, t), Hourly(cfg, ticks, t);
            && Run(Stepper(cfg), INITIAL, ticks + [t]).1 == alerts + more && |more| <= 1
            && (more != [] <==> Prepared(cfg, ticks, t, alerts) && Outpaces(cfg, recent, hourly))
            && (more != [] ==> Reports(cfg, t, more[0], recent, hourly))
  {
    var prepared := Prepared(cfg, ticks, t, Run(Stepper(cfg), INITIAL, ticks).1);
    var recent, hourly := Recent(cfg, ticks, t), Hourly(cfg, ticks, t);
    var more := if prepared then Verdict(cfg, t, recent, hourly) else [];
    hide *;
    AlertsExactly(cfg, ticks, t);
    AddedIs(cfg, ticks, t, more);
    VerdictMeans(cfg, t, recent, hourly);
    Outcome(cfg, t, prepared, recent, hourly, more);
  }

  lemma AddedIs(cfg: Config, ticks: seq<Tick>, t: Tick, more: seq<Alert>)
    requires Run(Stepper(cfg), INITIAL, ticks + [t]).1 == Run(Stepper(cfg), INITIAL, ticks).1 + more
    ensures Added(cfg, ticks, t) == more
  {
    hide Run;
  }

  lemma Outcome(cfg: Config, t: Tick, prepared: bool, recent: real, hourly: real, more: seq<Alert>)
    requires more == if prepared then Verdict(cfg, t, recent, hourly) else []
    ensures |more| <= 1 && (more != [] <==> prepared && Outpaces(cfg, recent, hourly))
    ensures more != [] ==> Reports(cfg, t, more[0], recent, hourly)
  {
    VerdictMeans(cfg, t, recent, hourly);
    hide *;
  }

  lemma VerdictMeans(cfg: Config, t: Tick, recent: real, hourly: real)
    ensures var alerts := Verdict(cfg, t, recent, hourly);
            && |alerts| <= 1 && (alerts != [] <==> Outpaces(cfg, recent, hourly))
            && (alerts != [] ==> Reports(cfg, t, alerts[0], recent, hourly))
  {
    hide Seconds;
    var x, y := Seconds(cfg.shortWindow), Seconds(cfg.longWindow);
    CompareRates(recent, hourly, cfg.multiplier, x, y, recent / x, hourly / y, hourly / y * cfg.multiplier,
                 cfg.multiplier * hourly);
  }

  lemma CompareRates(recent: real, hourly: real, m: real, x: real, y: real, value: real, rate: real, threshold: real,
                     multiple: real)
    requires x > 0.0 && y > 0.0 && value == recent / x && rate == hourly / y && threshold == rate * m
    requires multiple == m * hourly
    ensures value * x == recent && threshold * y == multiple
    ensures value > threshold <==> recent * y > multiple * x
  {
    assert value * x == recent && rate * y == hourly;
    assert threshold * y == m * (rate * y);
    PositiveProduct(x, y);
    assert recent * y == (x * y) * value && multiple * x == (x * y) * threshold;
    CompareScaled(value, threshold, x * y, recent * y, multiple * x);
  }
}
