/**
 * The correlation detector's hidden warmup is exact: a run that alerts on the first sample after it.
 * Both prices double once, together, and then stand still.
 */
module EarliestAlert {
  import opened Clock
  import opened CorrelationBreakdown
  import opened CorrelationRuns
  import opened Pearson
  import opened PearsonBounds
  import opened Replay
  import opened RingBuffers
  import opened Runs
  import opened Ticks

  /** Guards within the hidden warmup, room for its samples, and a drop that a correlation of 1 can undergo. */
  ghost predicate Reachable(cfg: Config) {
    && Slack(cfg) && 1 <= cfg.shortSamples < CAPACITY
    && cfg.minBaseline <= 1.0 && cfg.dropThreshold < 1.0
  }

  /** Of the logarithm only this is needed. */
  ghost predicate Logarithm(math: Math) {
    math.log(1.0) == 0.0 && math.log(2.0) != 0.0
  }

  // ---------------------------------------------------------------- the run

  /** The price before and after `k` samples. */
  function Doubled(k: nat): (ps: seq<real>)
    ensures |ps| == k + 1 && Positive(ps)
  {
    [1.0] + seq(k, _ => 2.0)
  }

  lemma DoubledExtends(k: nat)
    ensures Doubled(k + 1) == Doubled(k) + [2.0]
  {}

  /** The first prices, and then `k` samples of one tick per symbol each. */
  function Doubling(cfg: Config, p: Pair, start: Time, k: nat): seq<Tick>
    requires 0 <= cfg.sampleInterval
  {
    Fed(p, start, cfg.sampleInterval, Doubled(k), Doubled(k))
  }

  function After(cfg: Config, math: Math, start: Time, k: nat): PairState
    requires 0 <= cfg.sampleInterval
  {
    Recorded(math, start, cfg.sampleInterval, Doubled(k), Doubled(k))
  }

  /** One jump, then nothing. */
  lemma SampleValues(cfg: Config, math: Math, start: Time, k: nat, i: nat)
    requires Logarithm(math) && 0 <= cfg.sampleInterval && i < k
    ensures After(cfg, math, start, k).returnsA.items[i].value == if i == 0 then math.log(2.0) else 0.0
  {
    var ps := Doubled(k);
    assert ps[i + 1] / ps[i] == if i == 0 then 2.0 else 1.0;
    assert After(cfg, math, start, k).returnsA.items[i].value == math.log(ps[i + 1] / ps[i]);
    hide *;
  }

  // ---------------------------------------------------------------- the verdicts

  lemma NotYet(cfg: Config, math: Math, p: Pair, start: Time, k: nat)
    requires math.Exact() && cfg.dropThreshold >= 0.0 && 0 <= cfg.sampleInterval && k <= cfg.shortSamples
    ensures var s := After(cfg, math, start, k);
            Judge(cfg, math, p, s, At(start, cfg.sampleInterval, k)) == (s, [])
  {
    ShortEqualsBaseline(math, After(cfg, math, start, k), cfg.shortSamples);
    hide Baseline, RecentCorrelation, Math.Exact, WarmedUp, Returns;
  }

  /** The newest `n` of `n + 1` samples are all 0: no correlation. */
  lemma ShortIsZero(cfg: Config, math: Math, start: Time, n: nat)
    requires math.Exact() && Logarithm(math) && 0 <= cfg.sampleInterval && 1 <= n
    ensures RecentCorrelation(math, After(cfg, math, start, n + 1), n) == 0.0
  {
    var s := After(cfg, math, start, n + 1);
    var xs := s.returnsA.Slice(n);
    forall i | 0 <= i < n
      ensures xs[i] == 0.0
    {
      SampleValues(cfg, math, start, n + 1, i + 1);
      assert xs[i] == s.returnsA.items[i + 1].value;
    }
    assert s.returnsB.Slice(n) == xs;
    ConstantIff(xs, n);
    hide Comoment, Math.Exact, Buffer.Slice, Returns, Recorded;
    DegenerateCorrelation(math.sqrt, xs, xs, n);
  }

  /** All `n + 1` samples of the two symbols coincide and vary: correlation 1. */
  lemma BaselineIsOne(cfg: Config, math: Math, start: Time, n: nat)
    requires math.Exact() && Logarithm(math) && 0 <= cfg.sampleInterval && 1 <= n
    ensures Baseline(math, After(cfg, math, start, n + 1)) == 1.0
  {
    var s, m := After(cfg, math, start, n + 1), n + 1;
    SamplesVary(cfg, math, start, m, s);
    var xs := s.returnsA.Slice(m);
    TwoDiffer(xs, m);
    BaselineOfOne(math, s, xs);
    assert Collinear(xs, xs, 1.0, 0.0, m) && IsSqrt(math.sqrt);
    hide *;
    CollinearCorrelation(math.sqrt, xs, xs, 1.0, 0.0, m);
  }

  lemma TwoDiffer(xs: seq<real>, m: nat)
    requires 2 <= m <= |xs| && xs[0] != xs[1]
    ensures Comoment(xs, xs, m) != 0.0
  {
    ConstantIff(xs, m);
    hide Comoment;
  }

  lemma BaselineOfOne(math: Math, s: PairState, xs: seq<real>)
    requires math.Exact() && xs == s.returnsA.Slice(|s.returnsA.items|) == s.returnsB.Slice(|s.returnsA.items|)
    ensures Baseline(math, s) == Correlation(math.sqrt, xs, xs, |xs|)
  {
    hide Correlation, IsSqrt, Buffer.Slice;
  }

  lemma SamplesVary(cfg: Config, math: Math, start: Time, m: nat, s: PairState)
    requires Logarithm(math) && 0 <= cfg.sampleInterval && 2 <= m && s == After(cfg, math, start, m)
    ensures |s.returnsA.items| == m && s.returnsA.Slice(m) == s.returnsB.Slice(m)
    ensures |s.returnsA.Slice(m)| == m && s.returnsA.Slice(m)[0] != s.returnsA.Slice(m)[1]
  {
    SampleValues(cfg, math, start, m, 0);
    SampleValues(cfg, math, start, m, 1);
    var items := s.returnsA.items;
    assert |items| == m && s.returnsB.items == items;
    hide Returns, Recorded, Doubled;
    assert s.returnsA.Slice(m)[0] == items[0].value && s.returnsA.Slice(m)[1] == items[1].value;
  }

  lemma NowItAlerts(cfg: Config, math: Math, p: Pair, start: Time, n: nat, s: PairState, now: Time)
    requires math.Exact() && Logarithm(math) && Reachable(cfg) && cfg.cooldown <= start && start > ZERO_TIME
    requires n == cfg.shortSamples + 1 && s == After(cfg, math, start, n) && now == At(start, cfg.sampleInterval, n)
    ensures Judge(cfg, math, p, s, now).1 != []
  {
    hide *;
    ReachableMeans(cfg);
    AfterFacts(cfg, math, start, n);
    GuardsPass(cfg, start, now, n);
    ShortIsZero(cfg, math, start, n - 1);
    BaselineIsOne(cfg, math, start, n - 1);
    JudgeAlerts(cfg, math, p, s, now);
  }

  lemma GuardsPass(cfg: Config, start: Time, now: Time, n: nat)
    requires Reachable(cfg) && cfg.cooldown <= start && start > ZERO_TIME
    requires n == cfg.shortSamples + 1 && now - start == n * cfg.sampleInterval
    ensures Sub(now, start) >= cfg.minHistory && Sub(now, ZERO_TIME) >= cfg.cooldown && cfg.minSamples <= n
  {
    var span := n * cfg.sampleInterval;
    assert span >= 0 && cfg.minHistory <= span && cfg.minSamples <= n by {
      MoreIntervals(0, n, cfg.sampleInterval);
    }
    hide *;
    LongEnough(now, start, cfg.minHistory);
    LongEnough(now, ZERO_TIME, cfg.cooldown);
  }

  lemma JudgeAlerts(cfg: Config, math: Math, p: Pair, s: PairState, now: Time)
    requires math.Exact() && Sub(now, s.firstSeen) >= cfg.minHistory && Sub(now, s.lastAlert) >= cfg.cooldown
    requires |s.returnsA.items| >= cfg.minSamples && Baseline(math, s) >= cfg.minBaseline
    requires RecentCorrelation(math, s, cfg.shortSamples) < Baseline(math, s) - cfg.dropThreshold
    ensures Judge(cfg, math, p, s, now).1 != []
  {
    hide Math.Exact, Baseline, RecentCorrelation;
  }

  // ---------------------------------------------------------------- the whole run

  lemma {:induction false} Waiting(cfg: Config, math: Math, p: Pair, start: Time, k: nat)
    requires math.Exact() && Reachable(cfg) && p.a != p.b && start > ZERO_TIME
    requires k <= cfg.shortSamples
    ensures Run(Stepper(cfg, math, p), INITIAL, Doubling(cfg, p, start, k)) == (After(cfg, math, start, k), [])
  {
    hide *;
    ReachableMeans(cfg);
    if k == 0 {
      FirstDoubled(cfg, math, p, start);
    } else {
      Waiting(cfg, math, p, start, k - 1);
      NotYet(cfg, math, p, start, k);
      NextDoubled(cfg, math, p, start, k - 1);
    }
  }

  lemma ReachableMeans(cfg: Config)
    requires Reachable(cfg)
    ensures 0.0 <= cfg.dropThreshold < 1.0 && cfg.sampleInterval >= 0 && 1 <= cfg.shortSamples < CAPACITY
    ensures cfg.minBaseline <= 1.0
  {}

  lemma FirstDoubled(cfg: Config, math: Math, p: Pair, start: Time)
    requires math.Exact() && p.a != p.b && start > ZERO_TIME && 0 <= cfg.sampleInterval
    ensures Run(Stepper(cfg, math, p), INITIAL, Doubling(cfg, p, start, 0)) == (After(cfg, math, start, 0), [])
  {
    assert Doubled(0) == [1.0];
    FirstPrices(cfg, math, p, start, cfg.sampleInterval, 1.0, 1.0);
    hide OnTick, Run, Fed, Recorded, Math.Exact, Doubled;
  }

  lemma NextDoubled(cfg: Config, math: Math, p: Pair, start: Time, k: nat)
    requires math.Exact() && p.a != p.b && start > ZERO_TIME && 0 <= cfg.sampleInterval && k < CAPACITY
    requires Run(Stepper(cfg, math, p), INITIAL, Doubling(cfg, p, start, k)) == (After(cfg, math, start, k), [])
    ensures Run(Stepper(cfg, math, p), INITIAL, Doubling(cfg, p, start, k + 1))
            == Judge(cfg, math, p, After(cfg, math, start, k + 1), At(start, cfg.sampleInterval, k + 1))
  {
    DoubledExtends(k);
    hide Judge, OnTick, Run, Fed, Recorded, Math.Exact, At, Doubled;
    Verdict(cfg, math, p, start, cfg.sampleInterval, Doubled(k), Doubled(k), 2.0, 2.0);
  }

  /**
   * The hidden warmup cannot be improved: on this run no tick alerts before the last, which alerts with
   * shortSamples + 1 samples, shortSamples + 1 sampling intervals after the first prices.
   */
  lemma AlertsRightAfterWarmup(cfg: Config, math: Math, p: Pair, start: Time, n: nat)
    requires math.Exact() && Logarithm(math) && Reachable(cfg) && p.a != p.b
    requires start > ZERO_TIME && cfg.cooldown <= start && n == cfg.shortSamples + 1
    ensures var now := At(start, cfg.sampleInterval, n);
            var ticks, t := Doubling(cfg, p, start, n - 1) + [Leg(p.a, 2.0, now)], Leg(p.b, 2.0, now);
            var s := Run(Stepper(cfg, math, p), INITIAL, ticks);
            var (s', alerts) := OnTick(cfg, math, p, s.0, t);
            && s.1 == [] && alerts != []
            && |s'.returnsA.items| == n && now - s'.firstSeen == n * cfg.sampleInterval
  {
    Waiting(cfg, math, p, start, n - 1);
    NowItAlerts(cfg, math, p, start, n, After(cfg, math, start, n), At(start, cfg.sampleInterval, n));
    JudgeKeepsSamples(cfg, math, p, After(cfg, math, start, n), At(start, cfg.sampleInterval, n));
    AfterFacts(cfg, math, start, n);
    DoubledExtends(n - 1);
    hide Judge, OnTick, Run, Fed, Recorded, Math.Exact, At, Leg, Doubled;
    Advance(cfg, math, p, start, cfg.sampleInterval, Doubled(n - 1), Doubled(n - 1), 2.0, 2.0);
  }

  lemma AfterFacts(cfg: Config, math: Math, start: Time, k: nat)
    requires 0 <= cfg.sampleInterval
    ensures var s := After(cfg, math, start, k);
            && |s.returnsA.items| == k && s.firstSeen == start && s.lastAlert == ZERO_TIME
            && At(start, cfg.sampleInterval, k) - start == k * cfg.sampleInterval
  {}

  lemma JudgeKeepsSamples(cfg: Config, math: Math, p: Pair, s: PairState, now: Time)
    requires math.Exact()
    ensures Judge(cfg, math, p, s, now).0.returnsA == s.returnsA
    ensures Judge(cfg, math, p, s, now).0.firstSeen == s.firstSeen
  {
    hide WarmedUp, IsBreakdown, Math.Exact, RecentCorrelation, Baseline;
  }

  /** In the shipped configuration: 721 samples and 3605 seconds are enough. */
  lemma DefaultWarmupIsExact(math: Math, p: Pair, start: Time)
    requires math.Exact() && Logarithm(math) && p.a != p.b && 5 * MINUTE <= start
    ensures var now := At(start, DEFAULTS.sampleInterval, 721);
            var ticks, t := Doubling(DEFAULTS, p, start, 720) + [Leg(p.a, 2.0, now)], Leg(p.b, 2.0, now);
            var (s, alerts) := OnTick(DEFAULTS, math, p, Run(Stepper(DEFAULTS, math, p), INITIAL, ticks).0, t);
            alerts != [] && |s.returnsA.items| == 721 && now - s.firstSeen == 3605 * SECOND
  {
    DefaultsAreReachable();
    hide *;
    AlertsRightAfterWarmup(DEFAULTS, math, p, start, 721);
  }

  lemma DefaultsAreReachable()
    ensures Reachable(DEFAULTS) && DEFAULTS.shortSamples == 720 && DEFAULTS.sampleInterval == 5 * SECOND
    ensures DEFAULTS.cooldown == 5 * MINUTE > ZERO_TIME && 721 * DEFAULTS.sampleInterval == 3605 * SECOND
  {}
}
