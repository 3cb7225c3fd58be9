/** The detectors' cooldowns composed with the aggregator's deduplication. */
module Pipeline {
  import opened Clock
  import opened Dedup
  import opened DedupRuns
  import opened Runs
  import opened Ticks
  import Corr = CorrelationBreakdown
  import CorrRuns = CorrelationRuns
  import Flow = OrderFlow
  import FlowRuns = OrderFlowRuns
  import Spike = VolumeSpikes
  import SpikeRuns = VolumeSpikeRuns
  import opened Worker

  /** newDeduper(time.Minute) */
  const WINDOW: Duration := MINUTE

  /** Whatever the ticks, a dedup bucket receives at most two volume-spike alerts for a symbol. */
  lemma VolumeSpikesPerBucket(cfg: Spike.Config, ticks: seq<Tick>, sym: Str, k: Key)
    ensures CountKey(WINDOW, AlertsOf(sym, RunOwn(Spike.Stepper(cfg), Spike.INITIAL, ticks).1), k) <= 2
  {
    hide Spike.OnTick, Spaced, Run, RunOwn, AlertsOf;
    SpikeRuns.SymbolsAreIsolated(cfg, ticks, sym);
    BucketHoldsFew(WINDOW, Spike.ALERT_COOLDOWN, AlertsOf(sym, RunOwn(Spike.Stepper(cfg), Spike.INITIAL, ticks).1), k);
  }

  /** The same for order-flow alerts in the shipped configuration. */
  lemma OrderFlowPerBucket(ticks: seq<Tick>, sym: Str, k: Key)
    ensures CountKey(WINDOW, AlertsOf(sym, RunOwn(Flow.Stepper(Flow.DEFAULTS), Flow.INITIAL, ticks).1), k) <= 2
  {
    hide Flow.OnTick, Spaced, Run, RunOwn, AlertsOf;
    FlowRuns.SymbolsAreIsolated(Flow.DEFAULTS, ticks, sym);
    BucketHoldsFew(WINDOW, Flow.DEFAULTS.cooldown,
                   AlertsOf(sym, RunOwn(Flow.Stepper(Flow.DEFAULTS), Flow.INITIAL, ticks).1), k);
  }

  /**
   * With one detector instance feeding the aggregator in order, no correlation alert is ever
   * suppressed, whatever else arrives and whenever cleanup runs.
   */
  lemma CorrelationAlertsPass(math: Corr.Math, pairs: seq<Corr.Pair>, ticks: seq<Tick>, n: nat, events: seq<Event>,
                              i: nat)
    requires math.Exact() && CorrRuns.DistinctKeys(pairs) && n < |pairs|
    requires var key := Corr.PairKey(pairs[n]);
             ArrivalsOf(Detector.CorrelationBreakdown, key, events)
             == AlertsOf(key, Corr.RunPairs(Corr.DEFAULTS, math, pairs, Corr.Fresh(pairs), ticks).1)
    requires i < |events| && events[i].Arrive?
    requires events[i].alert.detector == Detector.CorrelationBreakdown
        && events[i].alert.symbol == Corr.PairKey(pairs[n])
    ensures Passed(WINDOW, events, i)
  {
    assert SECOND <= WINDOW <= Corr.DEFAULTS.cooldown;
    hide Corr.OnTick, Passed, ArrivalsOf, Spaced, Corr.Math.Exact, Corr.PairKey;
    CorrRuns.PairsAreIsolated(Corr.DEFAULTS, math, pairs, ticks, n);
    CorrRuns.AlertsAreCool(Corr.DEFAULTS, math, pairs[n], ticks);
    SpacedIsNeverSuppressed(WINDOW, Corr.DEFAULTS.cooldown, Detector.CorrelationBreakdown, Corr.PairKey(pairs[n]),
                            events, i);
  }

  // ---------------------------------------------------------------- the worker feeding the aggregator

  /** The alerts that reach the deduper, in order. */
  function Arrivals(events: seq<Event>): seq<Alert> {
    if events == [] then []
    else
      var e := events[|events| - 1];
      Arrivals(events[..|events| - 1]) + if e.Arrive? then [e.alert] else []
  }

  lemma {:induction false} ArrivalsSplit(d: Detector, sym: Str, events: seq<Event>)
    ensures ArrivalsOf(d, sym, events) == AlertsOf(sym, OfDetector(d, Arrivals(events)))
  {
    if events != [] {
      var before, e := events[..|events| - 1], events[|events| - 1];
      ArrivalsSplit(d, sym, before);
      if e.Arrive? {
        OneMoreArrival(d, sym, Arrivals(before), e.alert);
      } else {
        assert Arrivals(events) == Arrivals(before);
      }
    }
  }

  lemma OneMoreArrival(d: Detector, sym: Str, alerts: seq<Alert>, a: Alert)
    ensures AlertsOf(sym, OfDetector(d, alerts + [a]))
            == AlertsOf(sym, OfDetector(d, alerts)) + if a.detector == d && a.symbol == sym then [a] else []
  {
    assert (alerts + [a])[..|alerts|] == alerts;
    var own := OfDetector(d, alerts);
    assert (own + [a])[..|own|] == own;
    var none: seq<Alert> := [];
    assert own + none == own;
    assert AlertsOf(sym, own) + none == AlertsOf(sym, own);
  }

  /**
   * End to end: whatever a worker with the shipped correlation settings publishes about a pair passes an
   * aggregator that receives its alerts in order, among all the others and whenever cleanup runs.
   */
  lemma PublishedPairPasses(s: Settings, ticks: seq<Tick>, n: nat, events: seq<Event>, i: nat)
    requires s.math.Exact() && s.corr == Corr.DEFAULTS && CorrRuns.DistinctKeys(s.pairs) && n < |s.pairs|
    requires Arrivals(events) == Published(s, ticks)
    requires i < |events| && events[i].Arrive?
    requires events[i].alert.detector == Detector.CorrelationBreakdown
        && events[i].alert.symbol == Corr.PairKey(s.pairs[n])
    ensures Passed(WINDOW, events, i)
  {
    hide *;
    PublishedSplits(s, ticks);
    ArrivalsSplit(Detector.CorrelationBreakdown, Corr.PairKey(s.pairs[n]), events);
    CorrelationAlertsPass(s.math, s.pairs, ticks, n, events, i);
  }

  /** And of what it publishes about a symbol, at most two volume-spike alerts reach one dedup bucket. */
  lemma PublishedSpikesPerBucket(s: Settings, ticks: seq<Tick>, sym: Str, events: seq<Event>, k: Key)
    requires s.math.Exact() && Arrivals(events) == Published(s, ticks)
    ensures CountKey(WINDOW, ArrivalsOf(VolumeSpike, sym, events), k) <= 2
  {
    hide *;
    PublishedSplits(s, ticks);
    ArrivalsSplit(VolumeSpike, sym, events);
    VolumeSpikesPerBucket(s.spike, ticks, sym, k);
  }
}
