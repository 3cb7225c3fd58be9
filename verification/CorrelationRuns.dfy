/** What holds over every run of the correlation detector. */
module CorrelationRuns {
  import opened Clock
  import opened Common
  import opened CorrelationBreakdown
  import opened Pearson
  import opened PearsonBounds
  import opened RingBuffers
  import opened Runs
  import opened Ticks

  // ---------------------------------------------------------------- invariants of one pair

  /** The two return buffers advance together: same capacity, count and timestamps. */
  ghost predicate Paired(s: PairState) {
    && s.returnsA.Ok() && s.returnsB.Ok() && s.returnsA.cap == s.returnsB.cap
    && |s.returnsA.items| == |s.returnsB.items|
    && forall i :: 0 <= i < |s.returnsA.items| ==> s.returnsA.items[i].at == s.returnsB.items[i].at
  }

  lemma StaysPaired(cfg: Config, math: Math, p: Pair, s: PairState, t: Tick)
    requires math.Exact() && Paired(s)
    ensures Paired(OnTick(cfg, math, p, s, t).0)
  {
    hide WarmedUp, IsBreakdown, Math.Exact, Paired, Sample, Baseline, RecentCorrelation;
    var q := Quote(p, s, t);
    SampleIsPaired(math, q, t.timestamp);
    SameBuffers(s, q);
    SameBuffers(s, OnTick(cfg, math, p, s, t).0);
    SameBuffers(Sample(math, q, t.timestamp), OnTick(cfg, math, p, s, t).0);
  }

  lemma SameBuffers(s: PairState, s': PairState)
    ensures s.returnsA == s'.returnsA && s.returnsB == s'.returnsB ==> (Paired(s) <==> Paired(s'))
  {}

  lemma SampleIsPaired(math: Math, s: PairState, now: Time)
    ensures Paired(s) ==> Paired(Sample(math, s, now))
  {}

  lemma {:induction false} AlwaysPaired(cfg: Config, math: Math, p: Pair, ticks: seq<Tick>)
    requires math.Exact()
    ensures Paired(Run(Stepper(cfg, math, p), INITIAL, ticks).0)
  {
    if ticks != [] {
      hide OnTick, Paired, Math.Exact;
      var n := |ticks| - 1;
      AlwaysPaired(cfg, math, p, ticks[..n]);
      StaysPaired(cfg, math, p, Run(Stepper(cfg, math, p), INITIAL, ticks[..n]).0, ticks[n]);
    }
  }

  /** Each recorded sample has moved the snapshot on by at least the sampling interval. */
  ghost predicate Timed(cfg: Config, s: PairState) {
    && s.snapshotAt >= ZERO_TIME
    && (s.snapshotAt == ZERO_TIME ==> s.returnsA.items == [])
    && s.snapshotAt - s.firstSeen >= |s.returnsA.items| * cfg.sampleInterval
  }

  lemma StaysTimed(cfg: Config, math: Math, p: Pair, s: PairState, t: Tick)
    requires math.Exact() && Timed(cfg, s) && t.timestamp >= ZERO_TIME && cfg.sampleInterval >= 0
    ensures Timed(cfg, OnTick(cfg, math, p, s, t).0)
  {
    var s', now := OnTick(cfg, math, p, s, t).0, t.timestamp;
    AtMostOneSample(cfg, math, p, s, t);
    hide OnTick, Math.Exact;
    if s'.snapshotAt != s.snapshotAt && s.snapshotAt != ZERO_TIME {
      SubAtLeast(now, s.snapshotAt, cfg.sampleInterval);
      OneMoreInterval(|s.returnsA.items|, |s'.returnsA.items|, cfg.sampleInterval);
    }
  }

  /** A step leaves snapshot and samples alone, takes the first snapshot, or records at most one sample in time. */
  lemma AtMostOneSample(cfg: Config, math: Math, p: Pair, s: PairState, t: Tick)
    requires math.Exact()
    ensures var s' := OnTick(cfg, math, p, s, t).0;
            || (s'.snapshotAt == s.snapshotAt && s'.firstSeen == s.firstSeen && s'.returnsA == s.returnsA)
            || (s.snapshotAt == ZERO_TIME && s'.snapshotAt == s'.firstSeen == t.timestamp && s'.returnsA == s.returnsA)
            || (s.snapshotAt != ZERO_TIME && Sub(t.timestamp, s.snapshotAt) >= cfg.sampleInterval
                && s'.snapshotAt == t.timestamp && s'.firstSeen == s.firstSeen
                && |s'.returnsA.items| <= |s.returnsA.items| + 1)
  {
    hide WarmedUp, IsBreakdown, Math.Exact, Baseline, RecentCorrelation, Paired;
  }

  lemma OneMoreInterval(m: nat, n: nat, interval: Duration)
    requires n <= m + 1 && interval >= 0
    ensures n * interval <= m * interval + interval
  {
    MoreIntervals(n, m + 1, interval);
    assert (m + 1) * interval == m * interval + interval;
  }

  ghost predicate FromZeroTime(ticks: seq<Tick>) {
    forall i :: 0 <= i < |ticks| ==> ticks[i].timestamp >= ZERO_TIME
  }

  lemma {:induction false} AlwaysTimed(cfg: Config, math: Math, p: Pair, ticks: seq<Tick>)
    requires math.Exact() && FromZeroTime(ticks) && cfg.sampleInterval >= 0
    ensures Timed(cfg, Run(Stepper(cfg, math, p), INITIAL, ticks).0)
  {
    if ticks != [] {
      hide OnTick, Timed, Math.Exact;
      var n := |ticks| - 1;
      AlwaysTimed(cfg, math, p, ticks[..n]);
      StaysTimed(cfg, math, p, Run(Stepper(cfg, math, p), INITIAL, ticks[..n]).0, ticks[n]);
    }
  }

  // ---------------------------------------------------------------- the hidden warmup

  /** With no more samples than the short window, both correlations read the same slices. */
  lemma ShortEqualsBaseline(math: Math, s: PairState, n: nat)
    requires math.Exact() && |s.returnsA.items| == |s.returnsB.items| <= n
    ensures RecentCorrelation(math, s, n) == Baseline(math, s)
  {
    assert s.returnsA.Slice(n) == s.returnsA.Slice(|s.returnsA.items|);
    assert s.returnsB.Slice(n) == s.returnsB.Slice(|s.returnsA.items|);
  }

  lemma BreakdownNeedsSamples(cfg: Config, math: Math, s: PairState)
    requires math.Exact() && Paired(s) && cfg.dropThreshold >= 0.0 && IsBreakdown(cfg, math, s)
    ensures |s.returnsA.items| > cfg.shortSamples
  {
    hide Baseline, RecentCorrelation, Math.Exact;
    if |s.returnsA.items| <= cfg.shortSamples {
      ShortEqualsBaseline(math, s, cfg.shortSamples);
    }
  }

  /** The state that was judged when an alert was raised. */
  lemma AlertMeansJudged(cfg: Config, math: Math, p: Pair, s: PairState, t: Tick)
    requires math.Exact() && OnTick(cfg, math, p, s, t).1 != []
    ensures var j := Sample(math, Quote(p, s, t), t.timestamp);
            && Judge(cfg, math, p, j, t.timestamp) == OnTick(cfg, math, p, s, t)
            && IsBreakdown(cfg, math, j) && j.snapshotAt == t.timestamp
  {
    hide IsBreakdown, WarmedUp, Baseline, RecentCorrelation, Math.Exact;
  }

  /**
   * In every run with a non-negative drop threshold, an alert has more than `shortSamples` samples
   * behind it, and, for timestamps from the zero time on, as many sampling intervals.
   */
  lemma HiddenWarmup(cfg: Config, math: Math, p: Pair, ticks: seq<Tick>, t: Tick)
    requires math.Exact() && cfg.dropThreshold >= 0.0
    requires OnTick(cfg, math, p, Run(Stepper(cfg, math, p), INITIAL, ticks).0, t).1 != []
    ensures var s := OnTick(cfg, math, p, Run(Stepper(cfg, math, p), INITIAL, ticks).0, t).0;
            && |s.returnsA.items| > cfg.shortSamples
            && ((FromZeroTime(ticks) && t.timestamp >= ZERO_TIME && cfg.sampleInterval >= 0)
                ==> t.timestamp - s.firstSeen >= (cfg.shortSamples + 1) * cfg.sampleInterval)
  {
    var before := Run(Stepper(cfg, math, p), INITIAL, ticks).0;
    var s := OnTick(cfg, math, p, before, t).0;
    AlwaysPaired(cfg, math, p, ticks);
    StaysPaired(cfg, math, p, before, t);
    AlertMeansJudged(cfg, math, p, before, t);
    JudgedState(cfg, math, p, before, t);
    if FromZeroTime(ticks) && t.timestamp >= ZERO_TIME && cfg.sampleInterval >= 0 {
      AlwaysTimed(cfg, math, p, ticks);
      StaysTimed(cfg, math, p, before, t);
      MoreIntervals(cfg.shortSamples + 1, |s.returnsA.items|, cfg.sampleInterval);
    }
  }

  lemma JudgedState(cfg: Config, math: Math, p: Pair, s: PairState, t: Tick)
    requires math.Exact() && cfg.dropThreshold >= 0.0 && Paired(OnTick(cfg, math, p, s, t).0)
    requires OnTick(cfg, math, p, s, t).1 != []
    ensures |OnTick(cfg, math, p, s, t).0.returnsA.items| > cfg.shortSamples
    ensures OnTick(cfg, math, p, s, t).0.snapshotAt == t.timestamp
  {
    AlertMeansJudged(cfg, math, p, s, t);
    hide OnTick, Quote, Sample, IsBreakdown, WarmedUp, Baseline, RecentCorrelation, Math.Exact;
    BreakdownNeedsSamples(cfg, math, Sample(math, Quote(p, s, t), t.timestamp));
  }

  lemma MoreIntervals(m: nat, n: nat, interval: Duration)
    requires m <= n && interval >= 0
    ensures m * interval <= n * interval
  {
    assert (n - m) * interval >= 0;
  }

  /** The shipped configuration: at least 721 samples and 3605 seconds. */
  lemma DefaultWarmup(math: Math, p: Pair, ticks: seq<Tick>, t: Tick)
    requires math.Exact() && FromZeroTime(ticks) && t.timestamp >= ZERO_TIME
    requires OnTick(DEFAULTS, math, p, Run(Stepper(DEFAULTS, math, p), INITIAL, ticks).0, t).1 != []
    ensures var s := OnTick(DEFAULTS, math, p, Run(Stepper(DEFAULTS, math, p), INITIAL, ticks).0, t).0;
            |s.returnsA.items| >= 721 && t.timestamp - s.firstSeen >= 3605 * SECOND
  {
    hide OnTick, Math.Exact, Run;
    HiddenWarmup(DEFAULTS, math, p, ticks, t);
  }

  /** Guards no stricter than the hidden warmup. */
  ghost predicate Slack(cfg: Config) {
    && cfg.dropThreshold >= 0.0 && cfg.sampleInterval >= 0
    && cfg.minSamples <= cfg.shortSamples + 1
    && cfg.minHistory <= (cfg.shortSamples + 1) * cfg.sampleInterval
  }

  lemma DefaultsAreSlack()
    ensures Slack(DEFAULTS) && Slack(DEFAULTS.(minSamples := 0, minHistory := 0))
  {}

  lemma BreakdownIsWarm(cfg: Config, math: Math, s: PairState, now: Time)
    requires math.Exact() && Slack(cfg) && Paired(s) && Timed(cfg, s) && s.snapshotAt == now
    requires IsBreakdown(cfg, math, s)
    ensures WarmedUp(cfg, s, now)
  {
    hide IsBreakdown, Math.Exact, Paired;
    BreakdownNeedsSamples(cfg, math, s);
    MoreIntervals(cfg.shortSamples + 1, |s.returnsA.items|, cfg.sampleInterval);
    LongEnough(now, s.firstSeen, cfg.minHistory);
  }

  lemma LongEnough(now: Time, since: Time, d: Duration)
    requires now - since >= d
    ensures Sub(now, since) >= d
  {}

  lemma SampleKeeps(cfg: Config, math: Math, p: Pair, s: PairState, t: Tick)
    requires math.Exact() && Paired(s) && Timed(cfg, s) && t.timestamp >= ZERO_TIME && cfg.sampleInterval >= 0
    requires var q := Quote(p, s, t); q.snapshotAt != ZERO_TIME && SampleDue(cfg, q, t.timestamp)
    requires t.symbol == p.a || t.symbol == p.b
    requires var q := Quote(p, s, t); q.latest.a != 0.0 && q.latest.b != 0.0
    ensures var j := Sample(math, Quote(p, s, t), t.timestamp);
            Paired(j) && Timed(cfg, j) && j.snapshotAt == t.timestamp
  {
    var j := Sample(math, Quote(p, s, t), t.timestamp);
    StaysPaired(cfg, math, p, s, t);
    StaysTimed(cfg, math, p, s, t);
    SameBuffers(j, OnTick(cfg, math, p, s, t).0);
    hide Paired, WarmedUp, IsBreakdown, Math.Exact, Baseline, RecentCorrelation;
  }

  /** One step under two settings of the warmup guards. */
  lemma GuardsAreIdle(cfg: Config, minSamples: nat, minHistory: Duration, math: Math, p: Pair, s: PairState, t: Tick)
    requires math.Exact() && Paired(s) && Timed(cfg, s) && t.timestamp >= ZERO_TIME
    requires Slack(cfg) && Slack(cfg.(minSamples := minSamples, minHistory := minHistory))
    ensures OnTick(cfg, math, p, s, t)
            == OnTick(cfg.(minSamples := minSamples, minHistory := minHistory), math, p, s, t)
  {
    var cfg' := cfg.(minSamples := minSamples, minHistory := minHistory);
    var q, now := Quote(p, s, t), t.timestamp;
    var j := Sample(math, q, now);
    hide Quote, Sample, Paired, Timed, WarmedUp, Baseline, RecentCorrelation, Math.Exact;
    if (t.symbol == p.a || t.symbol == p.b) && q.latest.a != 0.0 && q.latest.b != 0.0
       && q.snapshotAt != ZERO_TIME && SampleDue(cfg, q, now) {
      SampleKeeps(cfg, math, p, s, t);
      TimedIgnoresGuards(cfg, cfg', j);
      if IsBreakdown(cfg, math, j) {
        BreakdownIsWarm(cfg, math, j, now);
        BreakdownIsWarm(cfg', math, j, now);
      }
    }
  }

  lemma TimedIgnoresGuards(cfg: Config, cfg': Config, s: PairState)
    requires cfg.sampleInterval == cfg'.sampleInterval
    ensures Timed(cfg, s) <==> Timed(cfg', s)
  {}

  /**
   * The configured warmup never matters: any two settings of `minSamples` and `minHistory` up to the
   * hidden warmup give the same run, state and alerts alike.
   */
  lemma {:induction false} GuardsNeverBind(cfg: Config, minSamples: nat, minHistory: Duration, math: Math, p: Pair,
                                           ticks: seq<Tick>)
    requires math.Exact() && FromZeroTime(ticks)
    requires Slack(cfg) && Slack(cfg.(minSamples := minSamples, minHistory := minHistory))
    ensures Run(Stepper(cfg, math, p), INITIAL, ticks)
            == Run(Stepper(cfg.(minSamples := minSamples, minHistory := minHistory), math, p), INITIAL, ticks)
  {
    if ticks != [] {
      hide OnTick, Math.Exact, Paired, Timed;
      var n := |ticks| - 1;
      GuardsNeverBind(cfg, minSamples, minHistory, math, p, ticks[..n]);
      AlwaysPaired(cfg, math, p, ticks[..n]);
      AlwaysTimed(cfg, math, p, ticks[..n]);
      GuardsAreIdle(cfg, minSamples, minHistory, math, p, Run(Stepper(cfg, math, p), INITIAL, ticks[..n]).0, ticks[n]);
    }
  }

  // ---------------------------------------------------------------- what an alert reports

  /** The threshold is a bounded baseline less the drop; the value lies below it and above -1. */
  lemma AlertBounds(cfg: Config, math: Math, p: Pair, s: PairState, t: Tick, a: Alert)
    requires math.Exact() && a in OnTick(cfg, math, p, s, t).1
    ensures cfg.minBaseline - cfg.dropThreshold <= a.threshold <= 1.0 - cfg.dropThreshold
    ensures -1.0 <= a.value < a.threshold
    ensures a.symbol == PairKey(p) && a.timestamp == t.timestamp
  {
    AlertMeansJudged(cfg, math, p, s, t);
    var j := Sample(math, Quote(p, s, t), t.timestamp);
    hide OnTick, Quote, Sample, WarmedUp, Correlation, Baseline, RecentCorrelation;
    RecentIsBounded(math, j, cfg.shortSamples);
    BaselineIsBounded(math, j);
  }

  lemma RecentIsBounded(math: Math, s: PairState, n: nat)
    requires math.Exact()
    ensures -1.0 <= RecentCorrelation(math, s, n) <= 1.0
  {
    var xs, ys := s.returnsA.Slice(n), s.returnsB.Slice(n);
    hide Correlation, Buffer.Slice;
    CorrelationIsBounded(math.sqrt, xs, ys, Min(|xs|, |ys|));
  }

  lemma BaselineIsBounded(math: Math, s: PairState)
    requires math.Exact()
    ensures -1.0 <= Baseline(math, s) <= 1.0
  {
    RecentIsBounded(math, s, |s.returnsA.items|);
  }

  /** The shipped configuration: Threshold in [0.1, 0.6] and Value in [-1, Threshold). */
  lemma DefaultAlertBounds(math: Math, p: Pair, s: PairState, t: Tick, a: Alert)
    requires math.Exact() && a in OnTick(DEFAULTS, math, p, s, t).1
    ensures 0.1 <= a.threshold <= 0.6 && -1.0 <= a.value < a.threshold
  {
    hide OnTick, Math.Exact;
    AlertBounds(DEFAULTS, math, p, s, t, a);
  }

  // ---------------------------------------------------------------- cooldown

  function LastAlert(): PairState -> Time {
    (s: PairState) => s.lastAlert
  }

  lemma AlertsAreCool(cfg: Config, math: Math, p: Pair, ticks: seq<Tick>)
    requires math.Exact() && 0 <= cfg.cooldown
    ensures Spaced(Run(Stepper(cfg, math, p), INITIAL, ticks).1, cfg.cooldown)
  {
    forall s: PairState, t: Tick
      ensures CoolStep(Stepper(cfg, math, p), LastAlert(), cfg.cooldown, s, t)
    {
      hide WarmedUp, IsBreakdown, Sample, Baseline, RecentCorrelation, Math.Exact;
      StepIsCool(cfg, math, p, s, t);
    }
    hide OnTick, Math.Exact, Spaced, Run;
    AlertsAreSpaced(Stepper(cfg, math, p), LastAlert(), cfg.cooldown, INITIAL, ticks);
  }

  lemma StepIsCool(cfg: Config, math: Math, p: Pair, s: PairState, t: Tick)
    requires math.Exact()
    ensures CoolStep(Stepper(cfg, math, p), LastAlert(), cfg.cooldown, s, t)
  {
    SampleKeepsAlertTime(math, Quote(p, s, t), t.timestamp);
    hide WarmedUp, IsBreakdown, Sample, Baseline, RecentCorrelation, Math.Exact;
  }

  lemma SampleKeepsAlertTime(math: Math, s: PairState, now: Time)
    ensures Sample(math, s, now).lastAlert == s.lastAlert
  {}

  // ---------------------------------------------------------------- all pairs

  ghost predicate DistinctKeys(pairs: seq<Pair>) {
    forall i, j :: 0 <= i < j < |pairs| ==> PairKey(pairs[i]) != PairKey(pairs[j])
  }

  /** Within one tick, pair `i` takes exactly its own step, when its turn comes. */
  lemma {:induction false} PairStepsAlone(cfg: Config, math: Math, pairs: seq<Pair>, m: map<Str, PairState>,
                                          t: Tick, i: nat, n: nat)
    requires math.Exact() && DistinctKeys(pairs) && i < |pairs| && n <= |pairs| && Keys(pairs) <= m.Keys
    requires PairKey(pairs[i]) in m
    ensures var (m', alerts) := StepPairs(cfg, math, pairs[..n], m, t);
            var alone := OnTick(cfg, math, pairs[i], m[PairKey(pairs[i])], t);
            && m'.Keys == m.Keys
            && m'[PairKey(pairs[i])] == (if n <= i then m[PairKey(pairs[i])] else alone.0)
            && AlertsOf(PairKey(pairs[i]), alerts) == (if n <= i then [] else alone.1)
  {
    if n == 0 {
      assert pairs[..0] == [];
    } else {
      PairStepsAlone(cfg, math, pairs, m, t, i, n - 1);
      PairTurn(cfg, math, pairs, m, t, n);
      assert PairKey(pairs[n - 1]) in Keys(pairs);
      assert PairKey(pairs[n - 1]) == PairKey(pairs[i]) <==> n - 1 == i;
      hide OnTick, Math.Exact, PairKey, DistinctKeys, Keys, AlertsOf, StepPairs;
      var m' := StepPairs(cfg, math, pairs[..n - 1], m, t).0;
      PairAlerts(cfg, math, pairs[n - 1], m'[PairKey(pairs[n - 1])], t, PairKey(pairs[i]),
                 StepPairs(cfg, math, pairs[..n - 1], m, t).1);
    }
  }

  lemma PairTurn(cfg: Config, math: Math, pairs: seq<Pair>, m: map<Str, PairState>, t: Tick, n: nat)
    requires math.Exact() && 0 < n <= |pairs|
    ensures var (m', alerts) := StepPairs(cfg, math, pairs[..n - 1], m, t);
            var p := pairs[n - 1];
            PairKey(p) in m' ==>
              var (s, more) := OnTick(cfg, math, p, m'[PairKey(p)], t);
              StepPairs(cfg, math, pairs[..n], m, t) == (m'[PairKey(p) := s], alerts + more)
  {
    assert pairs[..n][..n - 1] == pairs[..n - 1];
    hide OnTick, Math.Exact, PairKey;
  }

  lemma PairAlerts(cfg: Config, math: Math, p: Pair, s: PairState, t: Tick, key: Str, alerts: seq<Alert>)
    requires math.Exact()
    ensures var more := OnTick(cfg, math, p, s, t).1;
            AlertsOf(key, alerts + more) == AlertsOf(key, alerts) + if key == PairKey(p) then more else []
  {
    var more := OnTick(cfg, math, p, s, t).1;
    hide OnTick, Math.Exact, PairKey;
    forall a | a in more
      ensures a.symbol == PairKey(p)
    {
      AlertBounds(cfg, math, p, s, t, a);
    }
    AlertsOfConcat(key, alerts, more);
    AlertsOfUniform(key, PairKey(p), more);
  }

  /**
   * Pairs do not interfere: over any tick stream each configured pair's state and alerts are those
   * of that pair running alone.
   */
  lemma {:induction false} PairsAreIsolated(cfg: Config, math: Math, pairs: seq<Pair>, ticks: seq<Tick>, i: nat)
    requires math.Exact() && DistinctKeys(pairs) && i < |pairs|
    ensures var (m, alerts) := RunPairs(cfg, math, pairs, Fresh(pairs), ticks);
            var alone := Run(Stepper(cfg, math, pairs[i]), INITIAL, ticks);
            && m.Keys == Keys(pairs)
            && m[PairKey(pairs[i])] == alone.0
            && AlertsOf(PairKey(pairs[i]), alerts) == alone.1
  {
    var key := PairKey(pairs[i]);
    assert key in Keys(pairs);
    if ticks != [] {
      hide OnTick, Math.Exact, DistinctKeys, StepPairs, PairKey;
      var n := |ticks| - 1;
      PairsAreIsolated(cfg, math, pairs, ticks[..n], i);
      var (m, alerts) := RunPairs(cfg, math, pairs, Fresh(pairs), ticks[..n]);
      assert pairs[..|pairs|] == pairs;
      PairStepsAlone(cfg, math, pairs, m, ticks[n], i, |pairs|);
      AlertsOfConcat(key, alerts, StepPairs(cfg, math, pairs, m, ticks[n]).1);
    }
  }

  lemma NothingRun(cfg: Config, math: Math, pairs: seq<Pair>, m: map<Str, PairState>)
    requires math.Exact()
    ensures RunPairs(cfg, math, pairs, m, []) == (m, [])
  {}

  lemma PairsExtend(cfg: Config, math: Math, pairs: seq<Pair>, m: map<Str, PairState>, ticks: seq<Tick>, t: Tick)
    requires math.Exact()
    ensures var (m', alerts) := RunPairs(cfg, math, pairs, m, ticks);
            var (m'', more) := StepPairs(cfg, math, pairs, m', t);
            RunPairs(cfg, math, pairs, m, ticks + [t]) == (m'', alerts + more)
  {
    assert (ticks + [t])[..|ticks|] == ticks;
    hide StepPairs, Math.Exact;
  }

  /** A new detector object fed a whole stream, tick by tick: the run on values, hence isolated pairs. */
  method Watch(cfg: Config, math: Math, pairs: seq<Pair>, ticks: seq<Tick>) returns (alerts: seq<Alert>)
    requires math.Exact()
    ensures alerts == RunPairs(cfg, math, pairs, Fresh(pairs), ticks).1
    ensures DistinctKeys(pairs) ==>
              forall i :: 0 <= i < |pairs| ==>
                AlertsOf(PairKey(pairs[i]), alerts) == Run(Stepper(cfg, math, pairs[i]), INITIAL, ticks).1
  {
    var d := new CorrelationBreakdownDetector(cfg, math, pairs);
    alerts := [];
    NothingRun(cfg, math, pairs, Fresh(pairs));
    assert ticks[..0] == [];
    hide Run, RunPairs, StepPairs, AlertsOf, Fresh, PairKey, Math.Exact, DistinctKeys,
      CorrelationBreakdownDetector.Valid;
    for i := 0 to |ticks|
      invariant d.Valid() && d.cfg == cfg && d.math == math && d.pairs == pairs
      invariant fresh(d.Repr)
      invariant (d.states, alerts) == RunPairs(cfg, math, pairs, Fresh(pairs), ticks[..i])
    {
      var more := d.Tick(ticks[i]);
      PairsExtend(cfg, math, pairs, Fresh(pairs), ticks[..i], ticks[i]);
      assert ticks[..i + 1] == ticks[..i] + [ticks[i]];
      alerts := alerts + more;
    }
    assert ticks[..|ticks|] == ticks;
    if DistinctKeys(pairs) {
      forall i | 0 <= i < |pairs|
        ensures AlertsOf(PairKey(pairs[i]), alerts) == Run(Stepper(cfg, math, pairs[i]), INITIAL, ticks).1
      {
        PairsAreIsolated(cfg, math, pairs, ticks, i);
      }
    }
  }
}
