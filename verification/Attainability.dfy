/** Exactly the settings under which the correlation detector can alert at all. */
module Attainability {
  import opened Algebra
  import opened Clock
  import opened Common
  import opened CorrelationBreakdown
  import opened CorrelationRuns
  import opened Pearson
  import opened PearsonBounds
  import opened Replay
  import opened RingBuffers
  import opened Runs
  import opened Ticks

  ghost predicate Alerted(cfg: Config, math: Math, p: Pair, ticks: seq<Tick>)
    requires math.Exact()
  {
    Run(Stepper(cfg, math, p), INITIAL, ticks).1 != []
  }

  ghost predicate CanAlert(cfg: Config, math: Math, p: Pair)
    requires math.Exact()
  {
    exists ticks: seq<Tick> :: Alerted(cfg, math, p, ticks)
  }

  /**
   * The samples fit the buffers; the baseline can be reached; the drop is less than the whole range. Unless
   * the drop is negative, the buffers hold more than the short window. A drop of 1 or more needs a recent
   * correlation below 0, hence two recent samples at least, and a baseline below 1.
   */
  predicate Attainable(cfg: Config) {
    && cfg.minSamples <= CAPACITY && cfg.minBaseline <= 1.0 && cfg.dropThreshold < 2.0
    && (0.0 <= cfg.dropThreshold ==> cfg.shortSamples < CAPACITY)
    && (1.0 <= cfg.dropThreshold ==> 2 <= cfg.shortSamples && cfg.minBaseline < 1.0)
  }

  // ---------------------------------------------------------------- an alert needs them

  lemma {:induction false} KeepsCapacity(cfg: Config, math: Math, p: Pair, ticks: seq<Tick>)
    requires math.Exact()
    ensures Run(Stepper(cfg, math, p), INITIAL, ticks).0.returnsA.cap == CAPACITY
  {
    if ticks != [] {
      hide OnTick, Math.Exact;
      var n := |ticks| - 1;
      KeepsCapacity(cfg, math, p, ticks[..n]);
      StepKeepsCapacity(cfg, math, p, Run(Stepper(cfg, math, p), INITIAL, ticks[..n]).0, ticks[n]);
    }
  }

  lemma StepKeepsCapacity(cfg: Config, math: Math, p: Pair, s: PairState, t: Tick)
    requires math.Exact()
    ensures OnTick(cfg, math, p, s, t).0.returnsA.cap == s.returnsA.cap
    ensures Sample(math, Quote(p, s, t), t.timestamp).returnsA.cap == s.returnsA.cap
  {
    hide WarmedUp, IsBreakdown, Math.Exact, Baseline, RecentCorrelation;
  }

  lemma JudgedIsPaired(math: Math, p: Pair, s: PairState, t: Tick)
    requires Paired(s)
    ensures Paired(Sample(math, Quote(p, s, t), t.timestamp))
  {
    SameBuffers(s, Quote(p, s, t));
    hide Paired, Sample;
    SampleIsPaired(math, Quote(p, s, t), t.timestamp);
  }

  /** Fewer than two recent samples have no correlation. */
  lemma TooFewRecent(math: Math, s: PairState, n: nat)
    requires math.Exact()
    ensures n < 2 ==> RecentCorrelation(math, s, n) == 0.0
  {
    var xs, ys := s.returnsA.Slice(n), s.returnsB.Slice(n);
    if n < 2 {
      assert |xs| < 2;
      hide IsSqrt, Correlation, Buffer.Slice;
      DegenerateCorrelation(math.sqrt, xs, ys, Min(|xs|, |ys|));
    }
  }

  /** The recent samples end the whole series. */
  lemma RecentIsSuffix(s: PairState, n: nat)
    requires Paired(s)
    ensures var m, k := |s.returnsA.items|, Min(n, |s.returnsA.items|);
            && |s.returnsA.Slice(m)| == |s.returnsB.Slice(m)| == m
            && s.returnsA.Slice(n) == s.returnsA.Slice(m)[m - k..]
            && s.returnsB.Slice(n) == s.returnsB.Slice(m)[m - k..]
  {}

  lemma SuffixIsCollinear(xs: seq<real>, ys: seq<real>, us: seq<real>, vs: seq<real>, a: real, b: real)
    requires |xs| == |ys| && |us| == |vs| && IsSuffix(us, xs) && IsSuffix(vs, ys) && Collinear(xs, ys, a, b, |xs|)
    ensures Collinear(us, vs, a, b, |us|)
  {
    var skip := |xs| - |us|;
    forall i | 0 <= i < |us|
      ensures vs[i] == a * us[i] + b
    {
      assert ys[skip + i] == a * xs[skip + i] + b;
    }
  }

  lemma RecentIs(math: Math, s: PairState, n: nat, xs: seq<real>, ys: seq<real>)
    requires math.Exact() && xs == s.returnsA.Slice(n) && ys == s.returnsB.Slice(n) && |xs| == |ys|
    ensures RecentCorrelation(math, s, n) == Correlation(math.sqrt, xs, ys, |xs|)
  {
    hide IsSqrt, Correlation, Buffer.Slice;
  }

  /** With a perfect baseline no recent correlation is negative. */
  lemma PerfectStaysRising(math: Math, s: PairState, n: nat)
    requires math.Exact() && Paired(s)
    ensures Baseline(math, s) == 1.0 ==> RecentCorrelation(math, s, n) >= 0.0
  {
    if Baseline(math, s) == 1.0 {
      hide *;
      PerfectIsRising(math, s, n);
    }
  }

  lemma PerfectIsRising(math: Math, s: PairState, n: nat)
    requires math.Exact() && Paired(s) && Baseline(math, s) == 1.0
    ensures RecentCorrelation(math, s, n) >= 0.0
  {
    var m := |s.returnsA.items|;
    var xs, ys, us, vs := s.returnsA.Slice(m), s.returnsB.Slice(m), s.returnsA.Slice(n), s.returnsB.Slice(n);
    assert Baseline(math, s) == RecentCorrelation(math, s, m) && IsSqrt(math.sqrt);
    RecentIsSuffix(s, n);
    assert IsSuffix(us, xs) && IsSuffix(vs, ys) && |us| == |vs| && |xs| == |ys|;
    hide *;
    RecentIs(math, s, m, xs, ys);
    RecentIs(math, s, n, us, vs);
    SuffixRises(math.sqrt, xs, ys, us, vs);
  }

  predicate IsSuffix(us: seq<real>, xs: seq<real>) {
    |us| <= |xs| && us == xs[|xs| - |us|..]
  }

  lemma SuffixRises(sqrt: real -> real, xs: seq<real>, ys: seq<real>, us: seq<real>, vs: seq<real>)
    requires IsSqrt(sqrt) && |xs| == |ys| && |us| == |vs| && IsSuffix(us, xs) && IsSuffix(vs, ys)
    requires Correlation(sqrt, xs, ys, |xs|) == 1.0
    ensures Correlation(sqrt, us, vs, |us|) >= 0.0
  {
    hide *;
    var a, b := PerfectIsCollinear(sqrt, xs, ys, |xs|);
    SuffixIsCollinear(xs, ys, us, vs, a, b);
    RisingLine(sqrt, us, vs, a, b, |us|);
  }

  lemma BreakdownNeeds(cfg: Config, math: Math, s: PairState)
    requires math.Exact() && Paired(s) && s.returnsA.cap == CAPACITY
    requires |s.returnsA.items| >= cfg.minSamples && IsBreakdown(cfg, math, s)
    ensures Attainable(cfg)
  {
    var n, base, recent := |s.returnsA.items|, Baseline(math, s), RecentCorrelation(math, s, cfg.shortSamples);
    assert n <= CAPACITY && base >= cfg.minBaseline && recent < base - cfg.dropThreshold;
    hide *;
    RecentIsBounded(math, s, cfg.shortSamples);
    BaselineIsBounded(math, s);
    TooFewRecent(math, s, cfg.shortSamples);
    PerfectStaysRising(math, s, cfg.shortSamples);
    if cfg.dropThreshold >= 0.0 {
      BreakdownNeedsSamples(cfg, math, s);
    }
    NumbersNeed(cfg, n, base, recent);
  }

  lemma NumbersNeed(cfg: Config, n: nat, base: real, recent: real)
    requires cfg.minSamples <= n <= CAPACITY && cfg.minBaseline <= base <= 1.0 && -1.0 <= recent
    requires recent < base - cfg.dropThreshold
    requires cfg.dropThreshold >= 0.0 ==> n > cfg.shortSamples
    requires cfg.shortSamples < 2 ==> recent == 0.0
    requires base == 1.0 ==> recent >= 0.0
    ensures Attainable(cfg)
  {}

  lemma StepNeeds(cfg: Config, math: Math, p: Pair, s: PairState, t: Tick)
    requires math.Exact() && Paired(s) && s.returnsA.cap == CAPACITY
    requires OnTick(cfg, math, p, s, t).1 != []
    ensures Attainable(cfg)
  {
    var j := Sample(math, Quote(p, s, t), t.timestamp);
    AlertMeansJudged(cfg, math, p, s, t);
    JudgedIsPaired(math, p, s, t);
    StepKeepsCapacity(cfg, math, p, s, t);
    hide OnTick, Sample, Quote, IsBreakdown, Math.Exact, Paired, Attainable;
    BreakdownNeeds(cfg, math, j);
  }

  lemma {:induction false} AlertNeeds(cfg: Config, math: Math, p: Pair, ticks: seq<Tick>)
    requires math.Exact() && Alerted(cfg, math, p, ticks)
    ensures Attainable(cfg)
  {
    if ticks != [] {
      hide OnTick, Math.Exact, Attainable;
      var n := |ticks| - 1;
      if Alerted(cfg, math, p, ticks[..n]) {
        AlertNeeds(cfg, math, p, ticks[..n]);
      } else {
        AlwaysPaired(cfg, math, p, ticks[..n]);
        KeepsCapacity(cfg, math, p, ticks[..n]);
        StepNeeds(cfg, math, p, Run(Stepper(cfg, math, p), INITIAL, ticks[..n]).0, ticks[n]);
      }
    }
  }

  // ---------------------------------------------------------------- a run that alerts

  /** `exp` and the logarithm are inverse. */
  ghost predicate Inverse(exp: real -> real, log: real -> real) {
    log(1.0) == 0.0 && forall v: real :: exp(v) > 0.0 && log(exp(v)) == v
  }

  /** One move on the first of `n` samples, another on the last, nothing in between. */
  function Ends(n: nat, u: real, v: real): (zs: seq<real>)
    requires 2 <= n
    ensures |zs| == n
  {
    [u] + seq(n - 2, _ => 0.0) + [v]
  }

  /** The prices behind these samples: to `x` at once, and by the factor `e` at the end. */
  function Plateau(n: nat, x: real, e: real): (ps: seq<real>)
    requires 2 <= n && x > 0.0 && e > 0.0
    ensures |ps| == n + 1 && Positive(ps)
  {
    assert x * e > 0.0;
    [1.0] + seq(n - 1, _ => x) + [x * e]
  }

  lemma PlateauReturns(math: Math, start: Time, step: Duration, n: nat, x: real, e: real, u: real, v: real)
    requires 2 <= n && x > 0.0 && e > 0.0 && math.log(1.0) == 0.0 && math.log(x) == u && math.log(e) == v
    ensures Values(Returns(math, start, step, Plateau(n, x, e))) == Ends(n, u, v)
  {
    var ps, es := Plateau(n, x, e), Returns(math, start, step, Plateau(n, x, e));
    hide At;
    forall i | 0 <= i < n
      ensures es[i].value == Ends(n, u, v)[i]
    {
      PlateauRatio(n, x, e, i);
      assert es[i].value == math.log(ps[i + 1] / ps[i]);
    }
  }

  lemma PlateauRatio(n: nat, x: real, e: real, i: nat)
    requires 2 <= n && x > 0.0 && e > 0.0 && i < n
    ensures var ps := Plateau(n, x, e);
            ps[i + 1] / ps[i] == if i == 0 then x else if i < n - 1 then 1.0 else e
  {
    var now, next := Plateau(n, x, e)[i], Plateau(n, x, e)[i + 1];
    var ratio := if i == 0 then x else if i < n - 1 then 1.0 else e;
    assert now != 0.0 && next == (if i == 0 then x else if i < n - 1 then now else now * e);
    assert next == now * ratio;
    hide *;
    Quotient(next, now, ratio);
  }

  /** The state after the samples `Ends(n, u, v)` and `Ends(n, u, w)`, with one sample per longest duration. */
  function Moved(math: Math, exp: real -> real, n: nat, u: real, v: real, w: real): PairState
    requires Inverse(exp, math.log) && 2 <= n
  {
    Recorded(math, MAX_DURATION, MAX_DURATION, Plateau(n, exp(u), exp(v)), Plateau(n, exp(u), exp(w)))
  }

  lemma MovedSamples(math: Math, exp: real -> real, n: nat, u: real, v: real, w: real)
    requires Inverse(exp, math.log) && 2 <= n
    ensures var s := Moved(math, exp, n, u, v, w);
            && |s.returnsA.items| == |s.returnsB.items| == n
            && Values(s.returnsA.items) == Ends(n, u, v) && Values(s.returnsB.items) == Ends(n, u, w)
            && s.firstSeen == MAX_DURATION && s.lastAlert == ZERO_TIME
  {
    PlateauReturns(math, MAX_DURATION, MAX_DURATION, n, exp(u), exp(v), u, v);
    PlateauReturns(math, MAX_DURATION, MAX_DURATION, n, exp(u), exp(w), u, w);
    hide Returns, Plateau, Values, Ends;
  }

  /** Such steps satisfy every sampling interval, history and cooldown, so a breakdown is an alert. */
  lemma BreakdownAlerts(cfg: Config, math: Math, exp: real -> real, p: Pair, n: nat, u: real, v: real, w: real)
    requires math.Exact() && Inverse(exp, math.log) && p.a != p.b && 2 <= n <= CAPACITY && cfg.minSamples <= n
    requires IsBreakdown(cfg, math, Moved(math, exp, n, u, v, w))
    ensures CanAlert(cfg, math, p)
  {
    var xs, ys := Plateau(n, exp(u), exp(v)), Plateau(n, exp(u), exp(w));
    MovedSamples(math, exp, n, u, v, w);
    LongSteps(n);
    assert Steady(cfg, p, MAX_DURATION, MAX_DURATION);
    assert Judge(cfg, math, p, Moved(math, exp, n, u, v, w), At(MAX_DURATION, MAX_DURATION, n)).1 != [] by {
      hide IsBreakdown, Moved, At, Math.Exact;
    }
    hide Judge, IsBreakdown, Math.Exact, Recorded, At, Plateau, Fed, Run, Steady;
    Replayed(cfg, math, p, MAX_DURATION, MAX_DURATION, xs, ys);
    assert Alerted(cfg, math, p, Fed(p, MAX_DURATION, MAX_DURATION, xs, ys));
  }

  lemma LongSteps(n: nat)
    requires 1 <= n
    ensures var now := At(MAX_DURATION, MAX_DURATION, n);
            Sub(now, MAX_DURATION) == MAX_DURATION && Sub(now, ZERO_TIME) == MAX_DURATION
  {
    MoreIntervals(1, n, MAX_DURATION);
  }

  // ---------------------------------------------------------------- the correlations on that run

  lemma MovedSlices(math: Math, exp: real -> real, n: nat, u: real, v: real, w: real, m: nat)
    requires Inverse(exp, math.log) && 2 <= n && m <= n
    ensures Moved(math, exp, n, u, v, w).returnsA.Slice(m) == Ends(n, u, v)[n - m..]
    ensures Moved(math, exp, n, u, v, w).returnsB.Slice(m) == Ends(n, u, w)[n - m..]
  {
    MovedSamples(math, exp, n, u, v, w);
    var s := Moved(math, exp, n, u, v, w);
    LastValues(s.returnsA.items, m);
    LastValues(s.returnsB.items, m);
    hide Moved, Ends, Values, Last;
  }

  lemma LastValues(es: seq<Entry>, m: nat)
    requires m <= |es|
    ensures Values(Last(m, es)) == Values(es)[|es| - m..]
  {}

  lemma MovedRecent(math: Math, exp: real -> real, n: nat, u: real, v: real, w: real, m: nat)
    requires math.Exact() && Inverse(exp, math.log) && 2 <= n && m <= n
    ensures RecentCorrelation(math, Moved(math, exp, n, u, v, w), m)
            == Correlation(math.sqrt, Ends(n, u, v)[n - m..], Ends(n, u, w)[n - m..], m)
  {
    MovedSlices(math, exp, n, u, v, w, m);
    hide Moved, Ends, RecentCorrelation, Correlation, IsSqrt, Inverse, Buffer.Slice;
    RecentIs(math, Moved(math, exp, n, u, v, w), m, Ends(n, u, v)[n - m..], Ends(n, u, w)[n - m..]);
  }

  lemma MovedBaseline(math: Math, exp: real -> real, n: nat, u: real, v: real, w: real)
    requires math.Exact() && Inverse(exp, math.log) && 2 <= n
    ensures Baseline(math, Moved(math, exp, n, u, v, w)) == Correlation(math.sqrt, Ends(n, u, v), Ends(n, u, w), n)
  {
    MovedSamples(math, exp, n, u, v, w);
    hide Moved, Ends, RecentCorrelation, Correlation, IsSqrt, Inverse, Values;
    MovedRecent(math, exp, n, u, v, w, n);
    assert Ends(n, u, v)[n - n..] == Ends(n, u, v) && Ends(n, u, w)[n - n..] == Ends(n, u, w);
  }

  /** One common move: a perfect baseline, and no correlation among later samples. */
  lemma CommonMove(sqrt: real -> real, n: nat, m: nat)
    requires IsSqrt(sqrt) && 2 <= n && m < n
    ensures var zs := Ends(n, 1.0, 0.0);
            Correlation(sqrt, zs, zs, n) == 1.0 && Correlation(sqrt, zs[n - m..], zs[n - m..], m) == 0.0
  {
    var zs := Ends(n, 1.0, 0.0);
    var recent := zs[n - m..];
    assert zs[0] != zs[1];
    ConstantIff(zs, n);
    assert forall i :: 0 <= i < m ==> recent[i] == 0.0;
    ConstantIff(recent, m);
    assert Collinear(zs, zs, 1.0, 0.0, n);
    hide *;
    CollinearCorrelation(sqrt, zs, zs, 1.0, 0.0, n);
    DegenerateCorrelation(sqrt, recent, recent, m);
  }

  /** A last move in opposite directions: the recent samples are perfectly opposed. */
  lemma OpposedMove(sqrt: real -> real, n: nat, m: nat, u: real)
    requires IsSqrt(sqrt) && 2 <= m < n
    ensures Correlation(sqrt, Ends(n, u, 1.0)[n - m..], Ends(n, u, -1.0)[n - m..], m) == -1.0
  {
    var xs, ys := Ends(n, u, 1.0)[n - m..], Ends(n, u, -1.0)[n - m..];
    assert xs[0] == 0.0 && xs[m - 1] == 1.0;
    ConstantIff(xs, m);
    assert Collinear(xs, ys, -1.0, 0.0, m);
    hide *;
    CollinearCorrelation(sqrt, xs, ys, -1.0, 0.0, m);
  }

  // ---------------------------------------------------------------- a large common move dominates

  lemma {:induction false} EndsSums(n: nat, u: real, v: real, u': real, v': real, k: nat)
    requires 2 <= n && 1 <= k < n
    ensures SumRange(Ends(n, u, v), 0, k) == u
    ensures Cross(Ends(n, u, v), Ends(n, u', v'), 0.0, 0.0, k) == u * u'
  {
    if k > 1 {
      EndsSums(n, u, v, u', v', k - 1);
      CrossStep(Ends(n, u, v), Ends(n, u', v'), 0.0, 0.0, k - 1, 0.0, 0.0);
    } else {
      CrossStep(Ends(n, u, v), Ends(n, u', v'), 0.0, 0.0, 0, u, u');
    }
  }

  lemma EndsTotals(n: nat, u: real, v: real, u': real, v': real)
    requires 2 <= n
    ensures SumRange(Ends(n, u, v), 0, n) == u + v
    ensures Cross(Ends(n, u, v), Ends(n, u', v'), 0.0, 0.0, n) == u * u' + v * v'
  {
    EndsSums(n, u, v, u', v', n - 1);
    CrossStep(Ends(n, u, v), Ends(n, u', v'), 0.0, 0.0, n - 1, v, v');
    hide Cross;
  }

  /** `n` times the comoment of two such series. */
  lemma EndsComoment(n: nat, count: real, u: real, v: real, u': real, v': real, products: real)
    requires 2 <= n && count == n as real && products == u * u' + v * v'
    ensures count * Comoment(Ends(n, u, v), Ends(n, u', v'), n) == count * products - (u + v) * (u' + v')
  {
    var xs, ys := Ends(n, u, v), Ends(n, u', v');
    var a, b := Mean(xs, n), Mean(ys, n);
    EndsTotals(n, u, v, u', v');
    EndsTotals(n, u', v', u, v);
    MeanSum(xs, n);
    MeanSum(ys, n);
    Expand(xs, ys, a, b, n);
    ComomentsAre(xs, ys, n, a, b);
    hide *;
    CountTimes(count, products, u + v, u' + v', a, b, Comoment(xs, ys, n));
  }

  lemma CountTimes(n: real, products: real, sx: real, sy: real, a: real, b: real, c: real)
    requires sx == n * a && sy == n * b && c == products - b * sx - a * sy + n * (a * b)
    ensures n * c == n * products - sx * sy
  {
    var ab := a * b;
    assert b * sx == n * ab && a * sy == n * ab;
    assert c == products - n * ab;
    assert sx * sy == n * (n * ab);
  }

  lemma EndsVary(n: nat, u: real, v: real)
    requires 3 <= n && u != 0.0
    ensures Comoment(Ends(n, u, v), Ends(n, u, v), n) != 0.0
  {
    var zs := Ends(n, u, v);
    assert zs[0] == u && zs[1] == 0.0;
    ConstantIff(zs, n);
    hide Comoment;
  }

  /** Large enough for a baseline of `rho`: the move L has rho <= (L^2 - 1) / (L^2 + 1). */
  ghost predicate Outweighs(large: real, rho: real) {
    large > 0.0 && 0.0 <= rho && rho * (large * large + 1.0) <= large * large - 1.0
  }

  lemma OutweighingMove(sqrt: real -> real, n: nat, large: real, rho: real)
    requires IsSqrt(sqrt) && 3 <= n && Outweighs(large, rho)
    ensures Correlation(sqrt, Ends(n, large, 1.0), Ends(n, large, -1.0), n) >= rho
  {
    hide IsSqrt, Correlation, Ends;
    LargeMove(sqrt, n, large, large * large, rho);
  }

  lemma LargeMove(sqrt: real -> real, n: nat, large: real, square: real, rho: real)
    requires IsSqrt(sqrt) && 3 <= n && square == large * large && large > 0.0
    requires 0.0 <= rho && rho * (square + 1.0) <= square - 1.0
    ensures Correlation(sqrt, Ends(n, large, 1.0), Ends(n, large, -1.0), n) >= rho
  {
    hide *;
    var xs, ys, count := Ends(n, large, 1.0), Ends(n, large, -1.0), n as real;
    var xx, xy, yy := Comoment(xs, xs, n), Comoment(xs, ys, n), Comoment(ys, ys, n);
    EndsVary(n, large, 1.0);
    EndsVary(n, large, -1.0);
    VariationIsNonNegative(xs, n);
    VariationIsNonNegative(ys, n);
    var root := sqrt(Variations(xs, ys, n));
    RootFacts(sqrt, xs, ys, n, xy, xx, yy, root);
    LargeComoments(n, count, large, square, xx, xy, yy);
    Dominates(count, square, rho, xx, xy, yy, root, Correlation(sqrt, xs, ys, n));
  }

  lemma LargeComoments(n: nat, count: real, large: real, square: real, xx: real, xy: real, yy: real)
    requires 3 <= n && count == n as real && square == large * large
    requires xx == Comoment(Ends(n, large, 1.0), Ends(n, large, 1.0), n)
    requires xy == Comoment(Ends(n, large, 1.0), Ends(n, large, -1.0), n)
    requires yy == Comoment(Ends(n, large, -1.0), Ends(n, large, -1.0), n)
    ensures count * xy == (count - 1.0) * (square - 1.0)
    ensures count * ((xx + yy) / 2.0) == (count - 1.0) * (square + 1.0)
  {
    hide *;
    EndsComoment(n, count, large, 1.0, large, -1.0, square - 1.0);
    EndsComoment(n, count, large, 1.0, large, 1.0, square + 1.0);
    EndsComoment(n, count, large, -1.0, large, -1.0, square + 1.0);
    CrossTerm(count, large, square, xy);
    MeanTerm(count, large, square, xx, yy);
  }

  lemma CrossTerm(n: real, large: real, square: real, xy: real)
    requires square == large * large && n * xy == n * (square - 1.0) - (large + 1.0) * (large + -1.0)
    ensures n * xy == (n - 1.0) * (square - 1.0)
  {
    assert (large + 1.0) * (large + -1.0) == square - 1.0;
  }

  lemma MeanTerm(n: real, large: real, square: real, xx: real, yy: real)
    requires square == large * large
    requires n * xx == n * (square + 1.0) - (large + 1.0) * (large + 1.0)
    requires n * yy == n * (square + 1.0) - (large + -1.0) * (large + -1.0)
    ensures n * ((xx + yy) / 2.0) == (n - 1.0) * (square + 1.0)
  {
    assert (large + 1.0) * (large + 1.0) + (large + -1.0) * (large + -1.0) == 2.0 * (square + 1.0);
    assert n * ((xx + yy) / 2.0) == (n * xx + n * yy) / 2.0;
  }

  lemma Dominates(n: real, square: real, rho: real, xx: real, xy: real, yy: real, root: real, r: real)
    requires n >= 3.0 && 0.0 <= rho && rho * (square + 1.0) <= square - 1.0
    requires n * xy == (n - 1.0) * (square - 1.0) && n * ((xx + yy) / 2.0) == (n - 1.0) * (square + 1.0)
    requires xx >= 0.0 && yy >= 0.0 && root > 0.0 && root * root == xx * yy && r * root == xy
    ensures r >= rho
  {
    hide *;
    var mean := (xx + yy) / 2.0;
    RootBelowMean(xx, yy, root, mean);
    RhoTimes(n, rho, square, mean, xy);
    ScaledOrder(rho, root, mean);
    CancelLessEqual(rho, r, root);
  }

  lemma RootBelowMean(x: real, y: real, root: real, mean: real)
    requires x >= 0.0 && y >= 0.0 && root > 0.0 && root * root == x * y && mean == (x + y) / 2.0
    ensures root <= mean
  {
    var d := (x - y) / 2.0;
    assert mean * mean == x * y + d * d;
    SquareIsNonNegative(d);
    hide *;
    SquareOrder(root, mean);
  }

  lemma RhoTimes(n: real, rho: real, square: real, mean: real, xy: real)
    requires n >= 3.0 && rho * (square + 1.0) <= square - 1.0
    requires n * xy == (n - 1.0) * (square - 1.0) && n * mean == (n - 1.0) * (square + 1.0)
    ensures rho * mean <= xy
  {
    var gap := square - 1.0 - rho * (square + 1.0);
    assert n * (xy - rho * mean) == (n - 1.0) * gap;
    NonNegativeProduct(n - 1.0, gap);
    CancelPositive(n, xy - rho * mean);
  }

  lemma ScaledOrder(a: real, x: real, y: real)
    requires a >= 0.0 && x <= y
    ensures a * x <= a * y
  {
    NonNegativeProduct(a, y - x);
  }

  // ---------------------------------------------------------------- every attainable setting alerts

  function Max(m: nat, n: nat): nat {
    if m < n then n else m
  }

  /** A drop below 1: one common move among enough samples. */
  lemma SmallDropAlerts(cfg: Config, math: Math, exp: real -> real, p: Pair)
    requires math.Exact() && Inverse(exp, math.log) && p.a != p.b
    requires Attainable(cfg) && cfg.dropThreshold < 1.0
    ensures CanAlert(cfg, math, p)
  {
    var m := cfg.shortSamples;
    var n := Max(2, Max(cfg.minSamples, if m < CAPACITY then m + 1 else 0));
    assert 2 <= n <= CAPACITY && cfg.minSamples <= n;
    assert cfg.minBaseline <= 1.0 && (n <= m ==> cfg.dropThreshold < 0.0);
    hide *;
    var recent := CommonMoveBreaks(cfg, math, exp, n, m);
    Breaks(cfg, math, Moved(math, exp, n, 1.0, 0.0, 0.0), 1.0, recent);
    BreakdownAlerts(cfg, math, exp, p, n, 1.0, 0.0, 0.0);
  }

  lemma CommonMoveBreaks(cfg: Config, math: Math, exp: real -> real, n: nat, m: nat) returns (recent: real)
    requires math.Exact() && Inverse(exp, math.log) && 2 <= n && m == cfg.shortSamples
    requires cfg.dropThreshold < (if n <= m then 0.0 else 1.0)
    ensures var s := Moved(math, exp, n, 1.0, 0.0, 0.0);
            Baseline(math, s) == 1.0 && RecentCorrelation(math, s, m) == recent
    ensures recent < 1.0 - cfg.dropThreshold
  {
    assert IsSqrt(math.sqrt);
    hide *;
    MovedBaseline(math, exp, n, 1.0, 0.0, 0.0);
    if m < n {
      CommonMove(math.sqrt, n, m);
      MovedRecent(math, exp, n, 1.0, 0.0, 0.0, m);
      recent := 0.0;
    } else {
      CommonMove(math.sqrt, n, 0);
      MovedSamples(math, exp, n, 1.0, 0.0, 0.0);
      ShortEqualsBaseline(math, Moved(math, exp, n, 1.0, 0.0, 0.0), m);
      recent := 1.0;
    }
  }

  lemma Breaks(cfg: Config, math: Math, s: PairState, base: real, recent: real)
    requires math.Exact() && Baseline(math, s) >= base && RecentCorrelation(math, s, cfg.shortSamples) == recent
    requires base >= cfg.minBaseline && recent < base - cfg.dropThreshold
    ensures IsBreakdown(cfg, math, s)
  {
    hide Math.Exact, Baseline, RecentCorrelation;
  }

  /** A drop of at least 1: a large common move, and a last one in opposite directions. */
  lemma LargeDropAlerts(cfg: Config, math: Math, exp: real -> real, p: Pair)
    requires math.Exact() && Inverse(exp, math.log) && p.a != p.b
    requires Attainable(cfg) && cfg.dropThreshold >= 1.0
    ensures CanAlert(cfg, math, p)
  {
    var m := cfg.shortSamples;
    var n := Max(cfg.minSamples, m + 1);
    var rho := if cfg.minBaseline < cfg.dropThreshold / 2.0 then cfg.dropThreshold / 2.0 else cfg.minBaseline;
    assert cfg.minBaseline <= rho && -1.0 < rho - cfg.dropThreshold && 0.0 <= rho < 1.0;
    assert 2 <= m < n <= CAPACITY && cfg.minSamples <= n;
    hide *;
    var large := Enough(rho);
    OpposedMoveBreaks(math, exp, n, m, large, rho);
    Breaks(cfg, math, Moved(math, exp, n, large, 1.0, -1.0), rho, -1.0);
    BreakdownAlerts(cfg, math, exp, p, n, large, 1.0, -1.0);
  }

  lemma OpposedMoveBreaks(math: Math, exp: real -> real, n: nat, m: nat, large: real, rho: real)
    requires math.Exact() && Inverse(exp, math.log) && 2 <= m < n
    requires Outweighs(large, rho)
    ensures var s := Moved(math, exp, n, large, 1.0, -1.0);
            Baseline(math, s) >= rho && RecentCorrelation(math, s, m) == -1.0
  {
    assert IsSqrt(math.sqrt);
    hide *;
    MovedBaseline(math, exp, n, large, 1.0, -1.0);
    OutweighingMove(math.sqrt, n, large, rho);
    MovedRecent(math, exp, n, large, 1.0, -1.0, m);
    OpposedMove(math.sqrt, n, m, large);
  }

  /** A move large enough for the baseline `rho`. */
  lemma Enough(rho: real) returns (large: real)
    requires 0.0 <= rho < 1.0
    ensures Outweighs(large, rho)
  {
    large := 2.0 / (1.0 - rho);
    assert large * (1.0 - rho) == 2.0;
    var square := large * large;
    assert square * (1.0 - rho) == 2.0 * large;
    assert large >= 2.0 by {
      NonNegativeProduct(large, rho);
    }
  }

  /**
   * The detector can alert exactly in these settings: for any two different symbols, some run alerts if and
   * only if the settings are attainable.
   */
  lemma AlertsPossibleIff(cfg: Config, math: Math, exp: real -> real, p: Pair)
    requires math.Exact() && Inverse(exp, math.log) && p.a != p.b
    ensures CanAlert(cfg, math, p) <==> Attainable(cfg)
  {
    if CanAlert(cfg, math, p) {
      var ticks: seq<Tick> :| Alerted(cfg, math, p, ticks);
      hide *;
      AlertNeeds(cfg, math, p, ticks);
    }
    if Attainable(cfg) {
      hide *;
      if cfg.dropThreshold < 1.0 {
        SmallDropAlerts(cfg, math, exp, p);
      } else {
        LargeDropAlerts(cfg, math, exp, p);
      }
    }
  }
}
