/** Exactly when the order-flow detector alerts, and what it reports, read off the stream. */
module OrderFlowAlerts {
  import opened Algebra
  import opened Clock
  import opened Common
  import opened OrderFlow
  import opened OrderFlowRuns
  import opened RingBuffers
  import opened RingHistory
  import opened Runs
  import opened Ticks

  /** The volume of one side after `cutoff`, over the last 5000 trades of that side. */
  function SideVolume(side: Side, ticks: seq<Tick>, cutoff: Time): real {
    SumAfter(Last(5_000, VolumesOf(side, ticks)), cutoff)
  }

  /** The volume of both sides. */
  function BothVolumes(ticks: seq<Tick>, cutoff: Time): real {
    SideVolume(Buy, ticks, cutoff) + SideVolume(Sell, ticks, cutoff)
  }

  /** What holds before a ratio is compared: enough ticks, history and volume, and no alert just now. */
  ghost predicate Prepared(cfg: Config, ticks: seq<Tick>, t: Tick, alerts: seq<Alert>, total: real) {
    && |ticks| + 1 >= cfg.minTicks
    && Sub(t.timestamp, FirstStamp(ticks + [t])) >= cfg.minHistory
    && total >= cfg.minVolume && total != 0.0
    && Sub(t.timestamp, LastTime(alerts)) >= cfg.cooldown
  }

  // ---------------------------------------------------------------- the state behind a run

  lemma {:induction false} FirstSeenIs(cfg: Config, ticks: seq<Tick>)
    ensures Run(Stepper(cfg), INITIAL, ticks).0.firstSeen == FirstStamp(ticks)
  {
    if ticks != [] {
      var before, t := ticks[..|ticks| - 1], ticks[|ticks| - 1];
      assert ticks == before + [t];
      FirstSeenIs(cfg, before);
      FirstStampExtends(before, t);
      hide HasRatio, Ratio, Reached, FirstStamp;
    }
  }

  lemma VolumesAre(cfg: Config, ticks: seq<Tick>, t: Tick, s: FlowState)
    requires s == Record(Run(Stepper(cfg), INITIAL, ticks).0, t)
    ensures s.buys.SumSince(t.timestamp, cfg.window) == SideVolume(Buy, ticks + [t], t.timestamp - cfg.window)
    ensures s.sells.SumSince(t.timestamp, cfg.window) == SideVolume(Sell, ticks + [t], t.timestamp - cfg.window)
    ensures s.totalTicks == |ticks| + 1
  {
    hide Run, Record, VolumesOf, PushAll, Last;
    BuffersFollowSides(cfg, ticks);
    RecordFollows(Run(Stepper(cfg), INITIAL, ticks).0, ticks, t);
    assert FollowsSides(s, ticks + [t]);
    hide *;
    SidesAre(cfg, ticks + [t], t.timestamp, s);
  }

  lemma SidesAre(cfg: Config, ticks: seq<Tick>, now: Time, s: FlowState)
    requires FollowsSides(s, ticks)
    ensures s.buys.SumSince(now, cfg.window) == SideVolume(Buy, ticks, now - cfg.window)
    ensures s.sells.SumSince(now, cfg.window) == SideVolume(Sell, ticks, now - cfg.window)
    ensures s.totalTicks == |ticks|
  {
    hide VolumesOf, PushAll, Last, SumAfter;
    HistorySplits(5_000, VolumesOf(Buy, ticks));
    HistorySplits(5_000, VolumesOf(Sell, ticks));
  }

  lemma TimesAre(cfg: Config, ticks: seq<Tick>, t: Tick, s: FlowState)
    requires s == Record(Run(Stepper(cfg), INITIAL, ticks).0, t)
    ensures s.firstSeen == FirstStamp(ticks + [t]) && s.lastAlert == LastTime(Run(Stepper(cfg), INITIAL, ticks).1)
  {
    FirstSeenIs(cfg, ticks);
    FirstStampExtends(ticks, t);
    StepperContract(cfg);
    assert LastAlert()(INITIAL) == ZERO_TIME;
    hide Run, FirstStamp, LastTime, RespectsCooldown, Buffer.Push, OnTick;
    LastIsRemembered(Stepper(cfg), LastAlert(), cfg.cooldown, INITIAL, ticks);
  }

  // ---------------------------------------------------------------- the alert

  /** The alert that a tick raises on these volumes, if the ratio is far enough from the middle. */
  function Verdict(cfg: Config, t: Tick, buys: real, total: real): seq<Alert>
    requires total != 0.0
  {
    var share := buys / total;
    if share >= cfg.upperThreshold then
      [Alert(OrderFlowImbalance, t.symbol, t.exchange, share, cfg.upperThreshold, t.timestamp)]
    else if share <= cfg.lowerThreshold then
      [Alert(OrderFlowImbalance, t.symbol, t.exchange, share, cfg.lowerThreshold, t.timestamp)]
    else []
  }

  lemma StepVerdict(cfg: Config, before: FlowState, t: Tick, s: FlowState, buys: real, total: real)
    requires s == Record(before, t) && buys == BuyVolume(cfg, s, t.timestamp)
    requires total == TotalVolume(cfg, s, t.timestamp)
    ensures OnTick(cfg, before, t).1
            == if && s.totalTicks >= cfg.minTicks && Sub(t.timestamp, s.firstSeen) >= cfg.minHistory
                  && total >= cfg.minVolume && total != 0.0 && Sub(t.timestamp, s.lastAlert) >= cfg.cooldown
               then Verdict(cfg, t, buys, total) else []
  {
    hide Record, BuyVolume, TotalVolume;
  }

  /** For any stream: a tick adds this alert when the detector is prepared, and otherwise none. */
  lemma AlertsExactly(cfg: Config, ticks: seq<Tick>, t: Tick)
    ensures var alerts, cutoff := Run(Stepper(cfg), INITIAL, ticks).1, t.timestamp - cfg.window;
            var buys := SideVolume(Buy, ticks + [t], cutoff);
            var total := BothVolumes(ticks + [t], cutoff);
            Run(Stepper(cfg), INITIAL, ticks + [t]).1
            == alerts + if Prepared(cfg, ticks, t, alerts, total) then Verdict(cfg, t, buys, total) else []
  {
    var s := Record(Run(Stepper(cfg), INITIAL, ticks).0, t);
    VolumesAre(cfg, ticks, t, s);
    TimesAre(cfg, ticks, t, s);
    StepVerdict(cfg, Run(Stepper(cfg), INITIAL, ticks).0, t, s, BuyVolume(cfg, s, t.timestamp),
                TotalVolume(cfg, s, t.timestamp));
    RunExtends(Stepper(cfg), INITIAL, ticks, t);
    hide Run, Record, SideVolume, Buffer.SumSince, FirstStamp, LastTime, OnTick, Verdict;
  }

  /** The alerts that the last of `ticks + [t]` adds to those before. */
  function Added(cfg: Config, ticks: seq<Tick>, t: Tick): seq<Alert> {
    var before, after := Run(Stepper(cfg), INITIAL, ticks).1, Run(Stepper(cfg), INITIAL, ticks + [t]).1;
    if |before| <= |after| then after[|before|..] else []
  }

  /** Without a division, on the volumes themselves: the share of buying has reached a threshold. */
  ghost predicate FarFromMiddle(cfg: Config, buys: real, total: real) {
    buys >= cfg.upperThreshold * total || buys <= cfg.lowerThreshold * total
  }

  /**
   * With non-negative volumes a tick raises exactly one alert if and only if the detector is prepared and
   * the share of buying has reached a threshold; the alert reports that share, and that threshold.
   */
  lemma AlertsIff(cfg: Config, ticks: seq<Tick>, t: Tick)
    requires NoNegativeVolume(ticks + [t])
    ensures var alerts, more := Run(Stepper(cfg), INITIAL, ticks).1, Added(cfg, ticks, t);
            var buys := SideVolume(Buy, ticks + [t], t.timestamp - cfg.window);
            var total := BothVolumes(ticks + [t], t.timestamp - cfg.window);
            && Run(Stepper(cfg), INITIAL, ticks + [t]).1 == alerts + more && |more| <= 1
            && (more != [] <==> Prepared(cfg, ticks, t, alerts, total) && FarFromMiddle(cfg, buys, total))
            && (more != [] ==> Reports(cfg, t, more[0], buys, total))
  {
    var alerts, cutoff := Run(Stepper(cfg), INITIAL, ticks).1, t.timestamp - cfg.window;
    var buys := SideVolume(Buy, ticks + [t], cutoff);
    var total := BothVolumes(ticks + [t], cutoff);
    var prepared := Prepared(cfg, ticks, t, alerts, total);
    assert prepared ==> total != 0.0;
    var more := if prepared then Verdict(cfg, t, buys, total) else [];
    hide *;
    AlertsExactly(cfg, ticks, t);
    SharesAreNonNegative(ticks + [t], cutoff);
    AddedIs(cfg, ticks, t, more);
    Outcome(cfg, t, prepared, buys, total, more);
  }

  lemma AddedIs(cfg: Config, ticks: seq<Tick>, t: Tick, more: seq<Alert>)
    requires Run(Stepper(cfg), INITIAL, ticks + [t]).1 == Run(Stepper(cfg), INITIAL, ticks).1 + more
    ensures Added(cfg, ticks, t) == more
  {
    hide Run;
  }

  lemma Outcome(cfg: Config, t: Tick, prepared: bool, buys: real, total: real, more: seq<Alert>)
    requires total >= 0.0 && (prepared ==> total != 0.0)
    requires more == if prepared then Verdict(cfg, t, buys, total) else []
    ensures |more| <= 1 && (more != [] <==> prepared && FarFromMiddle(cfg, buys, total))
    ensures more != [] ==> Reports(cfg, t, more[0], buys, total)
  {
    if prepared {
      VerdictMeans(cfg, t, buys, total);
    }
    hide Verdict, Reports, FarFromMiddle;
  }

  /** The share of buying, the threshold it has reached (the upper one if both), and where and when. */
  ghost predicate Reports(cfg: Config, t: Tick, a: Alert, buys: real, total: real) {
    && a.value * total == buys
    && a.threshold == (if buys >= cfg.upperThreshold * total then cfg.upperThreshold else cfg.lowerThreshold)
    && a.detector == OrderFlowImbalance && a.symbol == t.symbol && a.exchange == t.exchange
    && a.timestamp == t.timestamp
  }

  lemma VerdictMeans(cfg: Config, t: Tick, buys: real, total: real)
    requires total > 0.0
    ensures var alerts := Verdict(cfg, t, buys, total);
            && |alerts| <= 1 && (alerts != [] <==> FarFromMiddle(cfg, buys, total))
            && (alerts != [] ==> Reports(cfg, t, alerts[0], buys, total))
  {
    var share := buys / total;
    assert share * total == buys;
    CompareScaled(cfg.upperThreshold, share, total, cfg.upperThreshold * total, buys);
    CompareScaled(share, cfg.lowerThreshold, total, buys, cfg.lowerThreshold * total);
  }

  lemma SharesAreNonNegative(ticks: seq<Tick>, cutoff: Time)
    requires NoNegativeVolume(ticks)
    ensures BothVolumes(ticks, cutoff) >= 0.0
  {
    hide VolumesOf, SumAfter, NoNegativeVolume;
    VolumesAreNonNegative(Buy, ticks);
    VolumesAreNonNegative(Sell, ticks);
    SumIsNonNegative(Last(5_000, VolumesOf(Buy, ticks)), cutoff);
    SumIsNonNegative(Last(5_000, VolumesOf(Sell, ticks)), cutoff);
  }

  /** The shipped configuration: ten ticks, a minute of history, 0.01 of volume, 65 or 35 percent, 30 s apart. */
  lemma DefaultAlertsIff(ticks: seq<Tick>, t: Tick)
    requires NoNegativeVolume(ticks + [t])
    ensures var cutoff := t.timestamp - 60_000_000_000;
            var buys, total := SideVolume(Buy, ticks + [t], cutoff), BothVolumes(ticks + [t], cutoff);
            Added(DEFAULTS, ticks, t) != []
            <==> && |ticks| >= 9
                 && t.timestamp - FirstStamp(ticks + [t]) >= 60_000_000_000
                 && total >= 0.01
                 && (buys >= 0.65 * total || buys <= 0.35 * total)
                 && t.timestamp - LastTime(Run(Stepper(DEFAULTS), INITIAL, ticks).1) >= 30_000_000_000
  {
    var alerts := Run(Stepper(DEFAULTS), INITIAL, ticks).1;
    AlertsIff(DEFAULTS, ticks, t);
    SubAtLeast(t.timestamp, FirstStamp(ticks + [t]), 60_000_000_000);
    SubAtLeast(t.timestamp, LastTime(alerts), 30_000_000_000);
    hide Run, Added, SideVolume, BothVolumes, FirstStamp, LastTime, NoNegativeVolume;
  }
}
