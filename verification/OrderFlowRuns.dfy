/** What holds over every run of the order-flow detector. */
module OrderFlowRuns {
  import opened Algebra
  import opened Clock
  import opened OrderFlow
  import opened RingBuffers
  import opened RingHistory
  import opened Runs
  import opened Ticks

  // ---------------------------------------------------------------- isolation and cooldown

  function LastAlert(): FlowState -> Time {
    (s: FlowState) => s.lastAlert
  }

  lemma StepIsCool(cfg: Config, s: FlowState, t: Tick)
    ensures CoolStep(Stepper(cfg), LastAlert(), cfg.cooldown, s, t)
    ensures forall a :: a in OnTick(cfg, s, t).1 ==> a.symbol == t.symbol
  {
    hide HasRatio, Ratio, Reached, Buffer.Push;
  }

  lemma StepperContract(cfg: Config)
    ensures LabelsOwnSymbol(Stepper(cfg))
    ensures RespectsCooldown(Stepper(cfg), LastAlert(), cfg.cooldown)
  {
    forall s: FlowState, t: Tick
      ensures CoolStep(Stepper(cfg), LastAlert(), cfg.cooldown, s, t)
    {
      StepIsCool(cfg, s, t);
    }
    forall s: FlowState, t: Tick, a | a in Stepper(cfg)(s, t).1
      ensures a.symbol == t.symbol
    {
      StepIsCool(cfg, s, t);
    }
  }

  /**
   * In any interleaved stream a symbol's alerts are those of a fresh detector fed that symbol alone,
   * and they are spaced by the cooldown however the ticks are stamped.
   */
  lemma SymbolsAreIsolated(cfg: Config, ticks: seq<Tick>, sym: Str)
    requires 0 <= cfg.cooldown
    ensures var own := AlertsOf(sym, RunOwn(Stepper(cfg), INITIAL, ticks).1);
            own == Run(Stepper(cfg), INITIAL, TicksOf(sym, ticks)).1 && Spaced(own, cfg.cooldown)
  {
    StepperContract(cfg);
    NonInterference(Stepper(cfg), INITIAL, ticks, sym);
    AlertsAreSpaced(Stepper(cfg), LastAlert(), cfg.cooldown, INITIAL, TicksOf(sym, ticks));
  }

  /** A new detector object fed a whole stream, tick by tick: the run on values, hence isolated symbols. */
  method Watch(cfg: Config, ticks: seq<Tick>) returns (alerts: seq<Alert>)
    requires 0 <= cfg.cooldown
    ensures alerts == RunOwn(Stepper(cfg), INITIAL, ticks).1
    ensures forall sym :: AlertsOf(sym, alerts) == Run(Stepper(cfg), INITIAL, TicksOf(sym, ticks)).1
                          && Spaced(AlertsOf(sym, alerts), cfg.cooldown)
  {
    hide OnTick, Run, RunOwn, AlertsOf, Spaced, OrderFlowImbalanceDetector.Valid;
    var d := new OrderFlowImbalanceDetector(cfg);
    alerts := [];
    NothingRun(Stepper(cfg), INITIAL);
    for i := 0 to |ticks|
      invariant d.Valid() && d.cfg == cfg && fresh(d.Repr)
      invariant (d.states, alerts) == RunOwn(Stepper(cfg), INITIAL, ticks[..i])
    {
      var more := d.Tick(ticks[i]);
      OwnExtends(Stepper(cfg), INITIAL, ticks[..i], ticks[i]);
      assert ticks[..i + 1] == ticks[..i] + [ticks[i]];
      alerts := alerts + more;
    }
    assert ticks[..|ticks|] == ticks;
    forall sym
      ensures AlertsOf(sym, alerts) == Run(Stepper(cfg), INITIAL, TicksOf(sym, ticks)).1
              && Spaced(AlertsOf(sym, alerts), cfg.cooldown)
    {
      SymbolsAreIsolated(cfg, ticks, sym);
    }
  }

  // ---------------------------------------------------------------- the history behind an alert

  /** The volumes of one side, in order. */
  function VolumesOf(side: Side, ticks: seq<Tick>): seq<Entry> {
    if ticks == [] then []
    else
      var t := ticks[|ticks| - 1];
      VolumesOf(side, ticks[..|ticks| - 1]) + if t.side == side then [Entry(t.timestamp, t.volume)] else []
  }

  /** The buffers hold what the volumes of their sides leave in them, and every tick is counted. */
  ghost predicate FollowsSides(s: FlowState, ticks: seq<Tick>) {
    && s.buys == PushAll(Empty(CAPACITY), VolumesOf(Buy, ticks))
    && s.sells == PushAll(Empty(CAPACITY), VolumesOf(Sell, ticks))
    && s.totalTicks == |ticks|
  }

  lemma VolumesExtend(side: Side, ticks: seq<Tick>, t: Tick)
    ensures VolumesOf(side, ticks + [t])
            == VolumesOf(side, ticks) + if t.side == side then [Entry(t.timestamp, t.volume)] else []
  {
    assert (ticks + [t])[..|ticks|] == ticks;
  }

  lemma RecordFollows(s: FlowState, ticks: seq<Tick>, t: Tick)
    requires FollowsSides(s, ticks)
    ensures FollowsSides(Record(s, t), ticks + [t])
  {
    hide VolumesOf, PushAll, Buffer.Push;
    VolumesExtend(Buy, ticks, t);
    VolumesExtend(Sell, ticks, t);
    PushOne(VolumesOf(Buy, ticks), Entry(t.timestamp, t.volume));
    PushOne(VolumesOf(Sell, ticks), Entry(t.timestamp, t.volume));
    assert VolumesOf(Buy, ticks) + [] == VolumesOf(Buy, ticks);
    assert VolumesOf(Sell, ticks) + [] == VolumesOf(Sell, ticks);
  }

  lemma StepRecords(cfg: Config, s: FlowState, t: Tick, ticks: seq<Tick>)
    ensures FollowsSides(OnTick(cfg, s, t).0, ticks) <==> FollowsSides(Record(s, t), ticks)
  {
    hide HasRatio, Ratio, Reached, Record, VolumesOf, PushAll;
  }

  /** This holds in every run. */
  lemma {:induction false} BuffersFollowSides(cfg: Config, ticks: seq<Tick>)
    ensures FollowsSides(Run(Stepper(cfg), INITIAL, ticks).0, ticks)
  {
    if ticks != [] {
      var before, t := ticks[..|ticks| - 1], ticks[|ticks| - 1];
      assert ticks == before + [t];
      hide OnTick, Record, FollowsSides;
      BuffersFollowSides(cfg, before);
      var s := Run(Stepper(cfg), INITIAL, before).0;
      RecordFollows(s, before, t);
      StepRecords(cfg, s, t, ticks);
    }
  }

  lemma PushOne(es: seq<Entry>, e: Entry)
    ensures PushAll(Empty(CAPACITY), es + [e]) == PushAll(Empty(CAPACITY), es).Push(e.at, e.value)
  {
    assert (es + [e])[..|es|] == es;
  }

  lemma {:induction false} VolumesAreNonNegative(side: Side, ticks: seq<Tick>)
    requires NoNegativeVolume(ticks)
    ensures NonNegative(VolumesOf(side, ticks))
  {
    if ticks != [] {
      VolumesAreNonNegative(side, ticks[..|ticks| - 1]);
    }
  }

  /**
   * Whatever the order of the ticks: an alert of a run with non-negative volumes reports a share between
   * 0 and 1 on the far side of the threshold it names, after enough ticks and with enough volume.
   */
  lemma AlertBounds(cfg: Config, ticks: seq<Tick>, t: Tick, a: Alert)
    requires NoNegativeVolume(ticks + [t])
    requires a in OnTick(cfg, Run(Stepper(cfg), INITIAL, ticks).0, t).1
    ensures 0.0 <= a.value <= 1.0
    ensures (a.threshold == cfg.upperThreshold && a.value >= cfg.upperThreshold)
            || (a.threshold == cfg.lowerThreshold && a.value <= cfg.lowerThreshold)
    ensures |ticks| + 1 >= cfg.minTicks
    ensures SumAfter(VolumesOf(Buy, ticks + [t]), t.timestamp - cfg.window)
            + SumAfter(VolumesOf(Sell, ticks + [t]), t.timestamp - cfg.window) >= cfg.minVolume
  {
    hide *;
    var before := Run(Stepper(cfg), INITIAL, ticks).0;
    var s, all := Record(before, t), ticks + [t];
    AlertMeans(cfg, before, t, a);
    BuffersFollowSides(cfg, ticks);
    RecordFollows(before, ticks, t);
    SideVolumes(s, all, t.timestamp, cfg.window);
    ShareIsBounded(s.buys.SumSince(t.timestamp, cfg.window), s.sells.SumSince(t.timestamp, cfg.window), a.value);
  }

  lemma AlertMeans(cfg: Config, before: FlowState, t: Tick, a: Alert)
    requires a in OnTick(cfg, before, t).1
    ensures var s := Record(before, t);
            var buys, sells := s.buys.SumSince(t.timestamp, cfg.window), s.sells.SumSince(t.timestamp, cfg.window);
            buys + sells != 0.0 && buys + sells >= cfg.minVolume && a.value == buys / (buys + sells)
    ensures (a.threshold == cfg.upperThreshold && a.value >= cfg.upperThreshold)
            || (a.threshold == cfg.lowerThreshold && a.value <= cfg.lowerThreshold)
    ensures Record(before, t).totalTicks >= cfg.minTicks
  {
    hide Buffer.SumSince, Record;
  }

  lemma SideVolumes(s: FlowState, ticks: seq<Tick>, now: Time, window: Duration)
    requires FollowsSides(s, ticks) && NoNegativeVolume(ticks)
    ensures 0.0 <= s.buys.SumSince(now, window) <= SumAfter(VolumesOf(Buy, ticks), now - window)
    ensures 0.0 <= s.sells.SumSince(now, window) <= SumAfter(VolumesOf(Sell, ticks), now - window)
    ensures s.totalTicks == |ticks|
  {
    assert 0 < CAPACITY;
    VolumesAreNonNegative(Buy, ticks);
    VolumesAreNonNegative(Sell, ticks);
    hide VolumesOf, PushAll, SumAfter, Buffer.SumSince, NonNegative, NoNegativeVolume;
    SumSinceNeverExceeds(CAPACITY, VolumesOf(Buy, ticks), now, window);
    SumSinceNeverExceeds(CAPACITY, VolumesOf(Sell, ticks), now, window);
  }

  lemma ShareIsBounded(x: real, y: real, q: real)
    requires 0.0 <= x && 0.0 <= y && x + y != 0.0 && q == x / (x + y)
    ensures 0.0 <= q <= 1.0
  {}

  // ---------------------------------------------------------------- mirror symmetry

  function MirrorTick(t: Tick): Tick {
    t.(side := match t.side case Buy => Sell case Sell => Buy case OtherSide => OtherSide)
  }

  function MirrorTicks(ticks: seq<Tick>): seq<Tick> {
    seq(|ticks|, i requires 0 <= i < |ticks| => MirrorTick(ticks[i]))
  }

  function MirrorState(s: FlowState): FlowState {
    s.(buys := s.sells, sells := s.buys)
  }

  function MirrorAlert(a: Alert): Alert {
    a.(value := 1.0 - a.value, threshold := 1.0 - a.threshold)
  }

  function MirrorAlerts(alerts: seq<Alert>): seq<Alert> {
    seq(|alerts|, i requires 0 <= i < |alerts| => MirrorAlert(alerts[i]))
  }

  /** The thresholds are placed symmetrically around one half, as 0.35 and 0.65 are. */
  predicate Symmetric(cfg: Config) {
    cfg.lowerThreshold < cfg.upperThreshold && cfg.lowerThreshold + cfg.upperThreshold == 1.0
  }

  lemma MirrorRatio(cfg: Config, s: FlowState, now: Time)
    ensures HasRatio(cfg, MirrorState(s), now) <==> HasRatio(cfg, s, now)
    ensures HasRatio(cfg, s, now) ==> Ratio(cfg, MirrorState(s), now) == 1.0 - Ratio(cfg, s, now)
  {
    hide Buffer.SumSince;
    var b, total := BuyVolume(cfg, s, now), TotalVolume(cfg, s, now);
    assert TotalVolume(cfg, MirrorState(s), now) == total && BuyVolume(cfg, MirrorState(s), now) == total - b;
    if total != 0.0 {
      Complement(b, total);
    }
  }

  lemma MirrorCrossing(cfg: Config, ratio: real)
    requires Symmetric(cfg)
    ensures match Reached(cfg, ratio)
            case Neither => Reached(cfg, 1.0 - ratio) == Neither
            case Crossed(threshold) => Reached(cfg, 1.0 - ratio) == Crossed(1.0 - threshold)
  {}

  lemma MirrorStep(cfg: Config, s: FlowState, t: Tick)
    requires Symmetric(cfg)
    ensures var (s', alerts) := OnTick(cfg, s, t);
            OnTick(cfg, MirrorState(s), MirrorTick(t)) == (MirrorState(s'), MirrorAlerts(alerts))
  {
    assert Record(MirrorState(s), MirrorTick(t)) == MirrorState(Record(s, t));
    var s', now := Record(s, t), t.timestamp;
    assert MirrorAlerts([]) == [];
    hide Record, HasRatio, Ratio, Reached;
    MirrorRatio(cfg, s', now);
    assert forall a :: MirrorAlerts([a]) == [MirrorAlert(a)];
    if HasRatio(cfg, s', now) {
      MirrorCrossing(cfg, Ratio(cfg, s', now));
    }
  }

  /**
   * Buying and selling are treated alike: swapping every side gives the same alerts at the same
   * times, with value and threshold reflected around one half.
   */
  lemma {:induction false} MirrorRun(cfg: Config, ticks: seq<Tick>)
    requires Symmetric(cfg)
    ensures var (s, alerts) := Run(Stepper(cfg), INITIAL, ticks);
            Run(Stepper(cfg), INITIAL, MirrorTicks(ticks)) == (MirrorState(s), MirrorAlerts(alerts))
  {
    if ticks == [] {
      assert MirrorTicks(ticks) == [] && MirrorAlerts([]) == [];
    } else {
      var before, t := ticks[..|ticks| - 1], ticks[|ticks| - 1];
      MirrorRun(cfg, before);
      assert MirrorTicks(ticks) == MirrorTicks(before) + [MirrorTick(t)];
      var (s, alerts) := Run(Stepper(cfg), INITIAL, before);
      RunExtends(Stepper(cfg), INITIAL, MirrorTicks(before), MirrorTick(t));
      MirrorStep(cfg, s, t);
      hide OnTick;
      var more := OnTick(cfg, s, t).1;
      assert MirrorAlerts(alerts + more) == MirrorAlerts(alerts) + MirrorAlerts(more);
    }
  }
}
