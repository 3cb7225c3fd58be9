/** cmd/detector/main.go and internal/detectors/registry.go: three detectors fed one stream of ticks. */
module Worker {
  import opened Runs
  import opened Ticks
  import Corr = CorrelationBreakdown
  import CorrRuns = CorrelationRuns
  import Flow = OrderFlow
  import FlowRuns = OrderFlowRuns
  import Spike = VolumeSpikes
  import SpikeRuns = VolumeSpikeRuns

  datatype Settings = Settings(spike: Spike.Config, flow: Flow.Config, corr: Corr.Config, math: Corr.Math,
                               pairs: seq<Corr.Pair>)

  // ---------------------------------------------------------------- the worker on values

  function SpikesOn(s: Settings, before: seq<Tick>, t: Tick): seq<Alert> {
    StepOwn(Spike.Stepper(s.spike), Spike.INITIAL, RunOwn(Spike.Stepper(s.spike), Spike.INITIAL, before).0, t).1
  }

  function FlowsOn(s: Settings, before: seq<Tick>, t: Tick): seq<Alert> {
    StepOwn(Flow.Stepper(s.flow), Flow.INITIAL, RunOwn(Flow.Stepper(s.flow), Flow.INITIAL, before).0, t).1
  }

  function PairsOn(s: Settings, before: seq<Tick>, t: Tick): seq<Alert>
    requires s.math.Exact()
  {
    Corr.StepPairs(s.corr, s.math, s.pairs, Corr.RunPairs(s.corr, s.math, s.pairs, Corr.Fresh(s.pairs), before).0, t).1
  }

  /** One tick: one detector after the other. */
  function On(s: Settings, before: seq<Tick>, t: Tick): seq<Alert>
    requires s.math.Exact()
  {
    SpikesOn(s, before, t) + FlowsOn(s, before, t) + PairsOn(s, before, t)
  }

  /** Everything the worker publishes, in order. */
  function Published(s: Settings, ticks: seq<Tick>): seq<Alert>
    requires s.math.Exact()
  {
    if ticks == [] then []
    else
      var before, t := ticks[..|ticks| - 1], ticks[|ticks| - 1];
      Published(s, before) + On(s, before, t)
  }

  lemma NothingPublished(s: Settings)
    requires s.math.Exact()
    ensures Published(s, []) == []
  {}

  lemma PublishedExtends(s: Settings, before: seq<Tick>, t: Tick)
    requires s.math.Exact()
    ensures Published(s, before + [t]) == Published(s, before) + On(s, before, t)
  {
    assert (before + [t])[..|before|] == before;
    hide On, Corr.Math.Exact;
  }

  // ---------------------------------------------------------------- each detector's own alerts

  function OfDetector(d: Detector, alerts: seq<Alert>): seq<Alert> {
    if alerts == [] then []
    else
      var a := alerts[|alerts| - 1];
      OfDetector(d, alerts[..|alerts| - 1]) + if a.detector == d then [a] else []
  }

  lemma {:induction false} OfConcat(d: Detector, x: seq<Alert>, y: seq<Alert>)
    ensures OfDetector(d, x + y) == OfDetector(d, x) + OfDetector(d, y)
  {
    if y == [] {
      assert x + y == x;
    } else {
      OfConcat(d, x, y[..|y| - 1]);
      assert (x + y)[..|x + y| - 1] == x + y[..|y| - 1];
    }
  }

  ghost predicate AllOf(d: Detector, alerts: seq<Alert>) {
    forall a :: a in alerts ==> a.detector == d
  }

  lemma {:induction false} OfUniform(d: Detector, other: Detector, alerts: seq<Alert>)
    requires AllOf(other, alerts)
    ensures OfDetector(d, alerts) == if d == other then alerts else []
  {
    if alerts != [] {
      var n := |alerts| - 1;
      assert AllOf(other, alerts[..n]) && alerts[n] in alerts;
      assert alerts[n].detector == other && alerts == alerts[..n] + [alerts[n]];
      hide AllOf;
      OfUniform(d, other, alerts[..n]);
    }
  }

  lemma SpikesAreLabelled(s: Settings, before: seq<Tick>, t: Tick)
    ensures AllOf(VolumeSpike, SpikesOn(s, before, t))
  {
    hide Spike.IsSpike, Spike.Record, Spike.ShortRate, Spike.Threshold, RunOwn;
  }

  lemma FlowsAreLabelled(s: Settings, before: seq<Tick>, t: Tick)
    ensures AllOf(OrderFlowImbalance, FlowsOn(s, before, t))
  {
    hide Flow.HasRatio, Flow.Record, Flow.Ratio, Flow.Reached, RunOwn;
  }

  lemma PairsAreLabelled(s: Settings, before: seq<Tick>, t: Tick)
    requires s.math.Exact()
    ensures AllOf(Detector.CorrelationBreakdown, PairsOn(s, before, t))
  {
    hide Corr.RunPairs, Corr.Math.Exact, Corr.StepPairs;
    StepIsLabelled(s.corr, s.math, s.pairs, Corr.RunPairs(s.corr, s.math, s.pairs, Corr.Fresh(s.pairs), before).0, t);
  }

  lemma {:induction false} StepIsLabelled(cfg: Corr.Config, math: Corr.Math, pairs: seq<Corr.Pair>,
                                          m: map<Str, Corr.PairState>, t: Tick)
    requires math.Exact()
    ensures AllOf(Detector.CorrelationBreakdown, Corr.StepPairs(cfg, math, pairs, m, t).1)
  {
    if pairs != [] {
      hide Corr.OnTick, Corr.Math.Exact, Corr.PairKey;
      var before, p := pairs[..|pairs| - 1], pairs[|pairs| - 1];
      StepIsLabelled(cfg, math, before, m, t);
      var m' := Corr.StepPairs(cfg, math, before, m, t).0;
      if Corr.PairKey(p) in m' {
        OneIsLabelled(cfg, math, p, m'[Corr.PairKey(p)], t);
      }
    }
  }

  lemma OneIsLabelled(cfg: Corr.Config, math: Corr.Math, p: Corr.Pair, s: Corr.PairState, t: Tick)
    requires math.Exact()
    ensures AllOf(Detector.CorrelationBreakdown, Corr.OnTick(cfg, math, p, s, t).1)
  {
    hide Corr.WarmedUp, Corr.IsBreakdown, Corr.Sample, Corr.Quote, Corr.RecentCorrelation, Corr.Baseline,
      Corr.Math.Exact;
  }

  /** What is published splits into the runs of the three detectors. */
  lemma {:induction false} PublishedSplits(s: Settings, ticks: seq<Tick>)
    requires s.math.Exact()
    ensures var alerts := Published(s, ticks);
            && OfDetector(VolumeSpike, alerts) == RunOwn(Spike.Stepper(s.spike), Spike.INITIAL, ticks).1
            && OfDetector(OrderFlowImbalance, alerts) == RunOwn(Flow.Stepper(s.flow), Flow.INITIAL, ticks).1
            && OfDetector(Detector.CorrelationBreakdown, alerts)
               == Corr.RunPairs(s.corr, s.math, s.pairs, Corr.Fresh(s.pairs), ticks).1
  {
    if ticks != [] {
      hide *;
      var before, t := ticks[..|ticks| - 1], ticks[|ticks| - 1];
      assert ticks == before + [t];
      PublishedSplits(s, before);
      PublishedExtends(s, before, t);
      RunsExtend(s, before, t);
      PublishedTick(VolumeSpike, s, before, t);
      PublishedTick(OrderFlowImbalance, s, before, t);
      PublishedTick(Detector.CorrelationBreakdown, s, before, t);
    }
  }

  /**
   * Hence the published alerts of one detector about one symbol are those of that detector alone, fed that
   * symbol's ticks alone, and they are spaced by its cooldown.
   */
  lemma PublishedIsolates(s: Settings, ticks: seq<Tick>, sym: Str)
    requires s.math.Exact() && s.flow.cooldown >= 0
    ensures var own := AlertsOf(sym, OfDetector(VolumeSpike, Published(s, ticks)));
            && own == Run(Spike.Stepper(s.spike), Spike.INITIAL, TicksOf(sym, ticks)).1
            && Spaced(own, Spike.ALERT_COOLDOWN)
    ensures var own := AlertsOf(sym, OfDetector(OrderFlowImbalance, Published(s, ticks)));
            && own == Run(Flow.Stepper(s.flow), Flow.INITIAL, TicksOf(sym, ticks)).1
            && Spaced(own, s.flow.cooldown)
  {
    hide *;
    PublishedSplits(s, ticks);
    SpikeRuns.SymbolsAreIsolated(s.spike, ticks, sym);
    FlowRuns.SymbolsAreIsolated(s.flow, ticks, sym);
  }

  /** The same for a pair, which is fed the whole stream. */
  lemma PublishedPairIsolates(s: Settings, ticks: seq<Tick>, n: nat)
    requires s.math.Exact() && CorrRuns.DistinctKeys(s.pairs) && n < |s.pairs| && s.corr.cooldown >= 0
    ensures var alerts := OfDetector(Detector.CorrelationBreakdown, Published(s, ticks));
            var own := AlertsOf(Corr.PairKey(s.pairs[n]), alerts);
            && own == Run(Corr.Stepper(s.corr, s.math, s.pairs[n]), Corr.INITIAL, ticks).1
            && Spaced(own, s.corr.cooldown)
  {
    hide *;
    PublishedSplits(s, ticks);
    CorrRuns.PairsAreIsolated(s.corr, s.math, s.pairs, ticks, n);
    CorrRuns.AlertsAreCool(s.corr, s.math, s.pairs[n], ticks);
  }

  lemma RunsExtend(s: Settings, before: seq<Tick>, t: Tick)
    requires s.math.Exact()
    ensures RunOwn(Spike.Stepper(s.spike), Spike.INITIAL, before + [t]).1
            == RunOwn(Spike.Stepper(s.spike), Spike.INITIAL, before).1 + SpikesOn(s, before, t)
    ensures RunOwn(Flow.Stepper(s.flow), Flow.INITIAL, before + [t]).1
            == RunOwn(Flow.Stepper(s.flow), Flow.INITIAL, before).1 + FlowsOn(s, before, t)
    ensures Corr.RunPairs(s.corr, s.math, s.pairs, Corr.Fresh(s.pairs), before + [t]).1
            == Corr.RunPairs(s.corr, s.math, s.pairs, Corr.Fresh(s.pairs), before).1 + PairsOn(s, before, t)
  {
    hide RunOwn, StepOwn, Corr.RunPairs, Corr.StepPairs, Corr.Math.Exact;
    OwnExtends(Spike.Stepper(s.spike), Spike.INITIAL, before, t);
    OwnExtends(Flow.Stepper(s.flow), Flow.INITIAL, before, t);
    CorrRuns.PairsExtend(s.corr, s.math, s.pairs, Corr.Fresh(s.pairs), before, t);
  }

  /** One detector's share of one tick. */
  lemma PublishedTick(d: Detector, s: Settings, before: seq<Tick>, t: Tick)
    requires s.math.Exact()
    ensures OfDetector(d, Published(s, before + [t]))
            == OfDetector(d, Published(s, before))
               + match d
                 case VolumeSpike => SpikesOn(s, before, t)
                 case OrderFlowImbalance => FlowsOn(s, before, t)
                 case CorrelationBreakdown => PairsOn(s, before, t)
  {
    hide OfDetector, SpikesOn, FlowsOn, PairsOn, Published, AllOf, Corr.Math.Exact;
    var x, y, z := SpikesOn(s, before, t), FlowsOn(s, before, t), PairsOn(s, before, t);
    PublishedExtends(s, before, t);
    OfConcat(d, Published(s, before), x + y + z);
    OfConcat(d, x + y, z);
    OfConcat(d, x, y);
    SpikesAreLabelled(s, before, t);
    FlowsAreLabelled(s, before, t);
    PairsAreLabelled(s, before, t);
    OfUniform(d, VolumeSpike, x);
    OfUniform(d, OrderFlowImbalance, y);
    OfUniform(d, Detector.CorrelationBreakdown, z);
    var none: seq<Alert> := [];
    assert forall w: seq<Alert> :: w + none == w;
  }

  // ---------------------------------------------------------------- the worker in place

  class Registry {
    const spikes: Spike.VolumeSpikeDetector
    const flows: Flow.OrderFlowImbalanceDetector
    const pairs: Corr.CorrelationBreakdownDetector

    ghost var Repr: set<object>

    /** The detectors share no state. */
    ghost predicate Valid()
      reads this, Repr
    {
      && this in Repr && spikes in Repr && flows in Repr && pairs in Repr
      && Repr == {this} + spikes.Repr + flows.Repr + pairs.Repr
      && this !in spikes.Repr && this !in flows.Repr && this !in pairs.Repr
      && spikes.Repr !! flows.Repr && spikes.Repr !! pairs.Repr && flows.Repr !! pairs.Repr
      && spikes.Valid() && flows.Valid() && pairs.Valid()
    }

    /** Each detector is where it should be after `ticks`. */
    ghost predicate After(s: Settings, ticks: seq<Tick>)
      requires s.math.Exact() && Valid()
      reads this, Repr
    {
      && spikes.cfg == s.spike && flows.cfg == s.flow
      && pairs.cfg == s.corr && pairs.math == s.math && pairs.pairs == s.pairs
      && spikes.states == RunOwn(Spike.Stepper(s.spike), Spike.INITIAL, ticks).0
      && flows.states == RunOwn(Flow.Stepper(s.flow), Flow.INITIAL, ticks).0
      && pairs.states == Corr.RunPairs(s.corr, s.math, s.pairs, Corr.Fresh(s.pairs), ticks).0
    }

    constructor (s: Settings)
      requires s.math.Exact()
      ensures Valid() && After(s, []) && fresh(Repr)
    {
      hide Spike.VolumeSpikeDetector.Valid,
        Flow.OrderFlowImbalanceDetector.Valid,
        Corr.CorrelationBreakdownDetector.Valid,
        RunOwn, Corr.RunPairs, Corr.Fresh, Corr.Math.Exact;
      NothingRun(Spike.Stepper(s.spike), Spike.INITIAL);
      NothingRun(Flow.Stepper(s.flow), Flow.INITIAL);
      CorrRuns.NothingRun(s.corr, s.math, s.pairs, Corr.Fresh(s.pairs));
      var v := new Spike.VolumeSpikeDetector(s.spike);
      var f := new Flow.OrderFlowImbalanceDetector(s.flow);
      var c := new Corr.CorrelationBreakdownDetector(s.corr, s.math, s.pairs);
      OwnReprs(v, f, c);
      spikes, flows, pairs := v, f, c;
      Repr := {this} + v.Repr + f.Repr + c.Repr;
    }

    method OnTick(s: Settings, ghost before: seq<Tick>, t: Tick) returns (alerts: seq<Alert>)
      requires s.math.Exact() && Valid() && After(s, before)
      modifies Repr
      ensures Valid() && After(s, before + [t]) && fresh(Repr - old(Repr))
      ensures alerts == On(s, before, t)
    {
      hide Spike.VolumeSpikeDetector.Valid,
        Flow.OrderFlowImbalanceDetector.Valid,
        Corr.CorrelationBreakdownDetector.Valid,
        Corr.StepPairs, StepOwn, RunOwn, Corr.RunPairs, Corr.Math.Exact;
      OwnReprs(spikes, flows, pairs);
      var x := spikes.Tick(t);
      var y := flows.Tick(t);
      var z := pairs.Tick(t);
      OwnReprs(spikes, flows, pairs);
      Repr := {this} + spikes.Repr + flows.Repr + pairs.Repr;
      OwnExtends(Spike.Stepper(s.spike), Spike.INITIAL, before, t);
      OwnExtends(Flow.Stepper(s.flow), Flow.INITIAL, before, t);
      CorrRuns.PairsExtend(s.corr, s.math, s.pairs, Corr.Fresh(s.pairs), before, t);
      alerts := x + y + z;
    }
  }

  lemma OwnReprs(v: Spike.VolumeSpikeDetector, f: Flow.OrderFlowImbalanceDetector, c: Corr.CorrelationBreakdownDetector)
    requires v.Valid() && f.Valid() && c.Valid()
    ensures v in v.Repr && f in f.Repr && c in c.Repr
  {}

  /** A new worker fed a whole stream publishes exactly these alerts, in this order. */
  method Work(s: Settings, ticks: seq<Tick>) returns (alerts: seq<Alert>)
    requires s.math.Exact()
    ensures alerts == Published(s, ticks)
  {
    hide Registry.Valid, Registry.After, Published, On, Corr.Math.Exact;
    var registry := new Registry(s);
    alerts := [];
    assert ticks[..0] == [];
    NothingPublished(s);
    for i := 0 to |ticks|
      invariant registry.Valid() && registry.After(s, ticks[..i]) && fresh(registry.Repr)
      invariant alerts == Published(s, ticks[..i])
    {
      var more := registry.OnTick(s, ticks[..i], ticks[i]);
      PublishedExtends(s, ticks[..i], ticks[i]);
      assert ticks[..i + 1] == ticks[..i] + [ticks[i]];
      alerts := alerts + more;
    }
    assert ticks[..|ticks|] == ticks;
  }
}
