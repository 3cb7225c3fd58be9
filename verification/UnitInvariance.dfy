/** Quoting the prices in another unit changes nothing but the quoted prices. */
module UnitInvariance {
  import opened Algebra
  import opened Backtest
  import opened Common
  import opened Indicators
  import opened Pearson
  import opened Strategies

  function Scaled(p: seq<real>, a: real): (q: seq<real>)
    ensures |q| == |p|
  {
    seq(|p|, i requires 0 <= i < |p| => a * p[i])
  }

  // ---------------------------------------------------------------- indicators

  lemma {:induction false} SumScales(p: seq<real>, a: real, lo: nat, hi: nat)
    requires lo <= hi <= |p|
    ensures SumRange(Scaled(p, a), lo, hi) == a * SumRange(p, lo, hi)
  {
    if lo < hi {
      SumScales(p, a, lo, hi - 1);
      Distribute(a, SumRange(p, lo, hi - 1), p[hi - 1], SumRange(p, lo, hi));
    }
  }

  lemma Distribute(a: real, x: real, y: real, sum: real)
    requires sum == x + y
    ensures a * x + a * y == a * sum
  {}

  lemma SmaScales(p: seq<real>, a: real, end: nat, period: nat)
    requires 1 <= period && end <= |p|
    ensures BarSma(Scaled(p, a), end, period) == a * BarSma(p, end, period)
  {
    if end >= period {
      hide SumRange, Scaled;
      SumScales(p, a, end - period, end);
      ScaledQuotient(a, SumRange(p, end - period, end), period as real, SumRange(Scaled(p, a), end - period, end));
    }
  }

  lemma {:induction false} EmaScales(p: seq<real>, a: real, period: nat, i: nat)
    requires 1 <= period && i < |p|
    ensures Ema(Scaled(p, a), period, i) == a * Ema(p, period, i)
  {
    hide *;
    if i < period {
      EarlyEmaScales(p, a, period, i);
    } else {
      EmaScales(p, a, period, i - 1);
      LateEmaScales(p, a, period, i);
    }
  }

  lemma EarlyEmaScales(p: seq<real>, a: real, period: nat, i: nat)
    requires i < period && i < |p|
    ensures Ema(Scaled(p, a), period, i) == a * Ema(p, period, i)
  {
    if i == period - 1 {
      hide SumRange;
      SumScales(p, a, 0, period);
      ScaledQuotient(a, SumRange(p, 0, period), period as real, SumRange(Scaled(p, a), 0, period));
    }
  }

  lemma LateEmaScales(p: seq<real>, a: real, period: nat, i: nat)
    requires 1 <= period <= i < |p| && Ema(Scaled(p, a), period, i - 1) == a * Ema(p, period, i - 1)
    ensures Ema(Scaled(p, a), period, i) == a * Ema(p, period, i)
  {
    hide *;
    var q, k := Scaled(p, a), Alpha(period);
    ScaledAt(p, a, i);
    EmaStep(p, period, i, k, Ema(p, period, i - 1));
    EmaStep(q, period, i, k, Ema(q, period, i - 1));
    ScaleSmoothing(a, p[i], Ema(p, period, i - 1), k, q[i], Ema(q, period, i - 1), Ema(p, period, i),
                   Ema(q, period, i));
  }

  lemma ScaledAt(p: seq<real>, a: real, i: nat)
    requires i < |p|
    ensures Scaled(p, a)[i] == a * p[i]
  {}

  lemma ScaleSmoothing(a: real, x: real, last: real, k: real, ax: real, alast: real, next: real, anext: real)
    requires ax == a * x && alast == a * last
    requires next == x * k + last * (1.0 - k) && anext == ax * k + alast * (1.0 - k)
    ensures anext == a * next
  {}

  lemma AboveIsInvariant(p: seq<real>, a: real, s: Strategy, i: nat)
    requires a > 0.0 && s.Crossover? && s.Ok() && i < |p|
    ensures Above(Scaled(p, a), s, i) == Above(p, s, i)
  {
    hide Ema, BarSma, Scaled;
    EmaScales(p, a, s.fast, i);
    EmaScales(p, a, s.slow, i);
    SmaScales(p, a, i + 1, s.fast);
    SmaScales(p, a, i + 1, s.slow);
    var q := Scaled(p, a);
    CompareScaled(Average(p, s.useEMA, s.fast, i), Average(p, s.useEMA, s.slow, i), a,
                  Average(q, s.useEMA, s.fast, i), Average(q, s.useEMA, s.slow, i));
  }

  ghost predicate IsScaled(s: Strength, t: Strength, a: real) {
    t.gain == a * s.gain && t.loss == a * s.loss
  }

  lemma MovesScale(p: seq<real>, a: real, i: nat)
    requires a > 0.0 && 0 < i < |p|
    ensures Gain(Scaled(p, a), i) == a * Gain(p, i) && Loss(Scaled(p, a), i) == a * Loss(p, i)
  {
    CompareScaled(p[i], p[i - 1], a, Scaled(p, a)[i], Scaled(p, a)[i - 1]);
  }

  lemma {:induction false} TotalScales(p: seq<real>, a: real, n: nat)
    requires a > 0.0 && n < |p|
    ensures IsScaled(Total(p, n), Total(Scaled(p, a), n), a)
  {
    if n > 0 {
      hide *;
      TotalScales(p, a, n - 1);
      TotalScalesStep(p, a, n);
    }
  }

  lemma TotalScalesStep(p: seq<real>, a: real, n: nat)
    requires a > 0.0 && 0 < n < |p| && IsScaled(Total(p, n - 1), Total(Scaled(p, a), n - 1), a)
    ensures IsScaled(Total(p, n), Total(Scaled(p, a), n), a)
  {
    hide Gain, Loss, Scaled;
    MovesScale(p, a, n);
    Distribute(a, Total(p, n - 1).gain, Gain(p, n), Total(p, n).gain);
    Distribute(a, Total(p, n - 1).loss, Loss(p, n), Total(p, n).loss);
  }

  lemma {:induction false} WilderScales(p: seq<real>, a: real, period: nat, i: nat)
    requires a > 0.0 && 1 <= period <= i < |p|
    ensures IsScaled(Wilder(p, period, i), Wilder(Scaled(p, a), period, i), a)
  {
    hide *;
    if i == period {
      FirstWilderScales(p, a, period);
    } else {
      WilderScales(p, a, period, i - 1);
      WilderScalesStep(p, a, period, i);
    }
  }

  lemma FirstWilderScales(p: seq<real>, a: real, period: nat)
    requires a > 0.0 && 1 <= period < |p|
    ensures IsScaled(Wilder(p, period, period), Wilder(Scaled(p, a), period, period), a)
  {
    hide Total, Scaled;
    TotalScales(p, a, period);
    ScaledQuotient(a, Total(p, period).gain, period as real, Total(Scaled(p, a), period).gain);
    ScaledQuotient(a, Total(p, period).loss, period as real, Total(Scaled(p, a), period).loss);
  }

  lemma WilderScalesStep(p: seq<real>, a: real, period: nat, i: nat)
    requires a > 0.0 && 1 <= period < i < |p|
    requires IsScaled(Wilder(p, period, i - 1), Wilder(Scaled(p, a), period, i - 1), a)
    ensures IsScaled(Wilder(p, period, i), Wilder(Scaled(p, a), period, i), a)
  {
    hide Gain, Loss, Scaled, Smooth, IsScaled, Total;
    MovesScale(p, a, i);
    SmoothScales(Wilder(p, period, i - 1), Gain(p, i), Loss(p, i), period, a,
                 Wilder(Scaled(p, a), period, i - 1), Gain(Scaled(p, a), i), Loss(Scaled(p, a), i));
  }

  lemma SmoothScales(s: Strength, gain: real, loss: real, period: nat, a: real, t: Strength, again: real, aloss: real)
    requires a > 0.0 && 1 <= period && s.gain >= 0.0 && s.loss >= 0.0 && gain >= 0.0 && loss >= 0.0
    requires again == a * gain && aloss == a * loss && again >= 0.0 && aloss >= 0.0
    requires IsScaled(s, t, a) && t.gain >= 0.0 && t.loss >= 0.0
    ensures IsScaled(Smooth(s, gain, loss, period), Smooth(t, again, aloss, period), a)
  {
    hide *;
    PartsScale(s, t, a);
    SmoothGainScales(s, gain, loss, period, a, t, again, aloss);
    SmoothLossScales(s, gain, loss, period, a, t, again, aloss);
    PartsScale(Smooth(s, gain, loss, period), Smooth(t, again, aloss, period), a);
  }

  lemma SmoothGainScales(s: Strength, gain: real, loss: real, period: nat, a: real, t: Strength, again: real,
                         aloss: real)
    requires 1 <= period && s.gain >= 0.0 && s.loss >= 0.0 && gain >= 0.0 && loss >= 0.0
    requires again >= 0.0 && aloss >= 0.0 && t.gain >= 0.0 && t.loss >= 0.0
    requires again == a * gain && t.gain == a * s.gain
    ensures Smooth(t, again, aloss, period).gain == a * Smooth(s, gain, loss, period).gain
  {
    hide *;
    var n, count := (period - 1) as real, period as real;
    SmoothParts(s, gain, loss, period, n, count);
    SmoothParts(t, again, aloss, period, n, count);
    ScaledAverage(s.gain, gain, n, count, a, t.gain, again,
                  Smooth(s, gain, loss, period).gain, Smooth(t, again, aloss, period).gain);
  }

  lemma SmoothLossScales(s: Strength, gain: real, loss: real, period: nat, a: real, t: Strength, again: real,
                         aloss: real)
    requires 1 <= period && s.gain >= 0.0 && s.loss >= 0.0 && gain >= 0.0 && loss >= 0.0
    requires again >= 0.0 && aloss >= 0.0 && t.gain >= 0.0 && t.loss >= 0.0
    requires aloss == a * loss && t.loss == a * s.loss
    ensures Smooth(t, again, aloss, period).loss == a * Smooth(s, gain, loss, period).loss
  {
    hide *;
    var n, count := (period - 1) as real, period as real;
    SmoothParts(s, gain, loss, period, n, count);
    SmoothParts(t, again, aloss, period, n, count);
    ScaledAverage(s.loss, loss, n, count, a, t.loss, aloss,
                  Smooth(s, gain, loss, period).loss, Smooth(t, again, aloss, period).loss);
  }

  lemma PartsScale(s: Strength, t: Strength, a: real)
    ensures IsScaled(s, t, a) <==> t.gain == a * s.gain && t.loss == a * s.loss
  {}

  lemma ScaledAverage(x: real, y: real, n: real, count: real, a: real, ax: real, ay: real, average: real,
                      aaverage: real)
    requires count > 0.0 && ax == a * x && ay == a * y
    requires average * count == x * n + y && aaverage * count == ax * n + ay
    ensures aaverage == a * average
  {
    var product := a * average;
    assert ax * n == a * (x * n);
    assert product * count == a * (x * n + y);
    CancelFactor(aaverage, product, count);
  }

  lemma RsiIsInvariant(p: seq<real>, a: real, period: nat, i: nat)
    requires a > 0.0 && 1 <= period && i < |p|
    ensures Rsi(Scaled(p, a), period, i) == Rsi(p, period, i)
  {
    if i >= period {
      hide Wilder;
      WilderScales(p, a, period, i);
      RatioIsInvariant(Wilder(p, period, i), a, Wilder(Scaled(p, a), period, i));
    }
  }

  lemma RatioIsInvariant(s: Strength, a: real, t: Strength)
    requires a > 0.0 && s.gain >= 0.0 && s.loss >= 0.0 && t.gain >= 0.0 && t.loss >= 0.0
    requires IsScaled(s, t, a)
    ensures ToRsi(t) == ToRsi(s)
  {
    if s.loss != 0.0 {
      PositiveFactors(a, s.loss, t.loss);
      ScaledRatio(s.gain, s.loss, a, t.gain, t.loss);
    }
  }

  lemma {:induction false} DeviationsScale(p: seq<real>, a: real, lo: nat, hi: nat, m: real, am: real)
    requires lo <= hi <= |p| && am == a * m
    ensures SquaredDeviations(Scaled(p, a), lo, hi, am) == (a * a) * SquaredDeviations(p, lo, hi, m)
  {
    hide SquaredDeviations, Scaled;
    if lo < hi {
      DeviationsScale(p, a, lo, hi - 1, m, am);
      var d, ad := p[hi - 1] - m, Scaled(p, a)[hi - 1] - am;
      SquareStep(p, lo, hi - 1, m, d);
      SquareStep(Scaled(p, a), lo, hi - 1, am, ad);
      ScaledAt(p, a, hi - 1);
      ScaledSquare(a, p[hi - 1], m, d, Scaled(p, a)[hi - 1], am, ad,
                   SquaredDeviations(p, lo, hi - 1, m), SquaredDeviations(p, lo, hi, m),
                   SquaredDeviations(Scaled(p, a), lo, hi - 1, am), SquaredDeviations(Scaled(p, a), lo, hi, am));
    } else {
      NoDeviations(p, lo, m);
      NoDeviations(Scaled(p, a), lo, am);
    }
  }

  lemma NoDeviations(p: seq<real>, lo: nat, m: real)
    requires lo <= |p|
    ensures SquaredDeviations(p, lo, lo, m) == 0.0
  {}

  lemma ScaledSquare(a: real, x: real, m: real, d: real, ax: real, am: real, ad: real,
                     before: real, after: real, abefore: real, aafter: real)
    requires ax == a * x && am == a * m && d == x - m && ad == ax - am
    requires after == before + d * d && aafter == abefore + ad * ad && abefore == (a * a) * before
    ensures aafter == (a * a) * after
  {
    assert ad == a * d;
    assert ad * ad == (a * a) * (d * d);
    assert (a * a) * after == (a * a) * before + (a * a) * (d * d);
  }

  /** Square roots of scaled squares. */
  lemma SqrtScales(sqrt: real -> real, a: real, x: real, ax: real)
    requires IsSqrt(sqrt) && a > 0.0 && x >= 0.0 && ax == (a * a) * x && ax >= 0.0
    ensures sqrt(ax) == a * sqrt(x)
  {
    var r, s := sqrt(x), sqrt(ax);
    assert r >= 0.0 && r * r == x && s >= 0.0 && s * s == ax;
    hide IsSqrt;
    var ar := a * r;
    assert ar >= 0.0 && ar * ar == ax;
    SquareOrder(s, ar);
    SquareOrder(ar, s);
  }

  lemma {:induction false} DeviationsAreNonNegative(p: seq<real>, lo: nat, hi: nat, m: real)
    requires lo <= hi <= |p|
    ensures SquaredDeviations(p, lo, hi, m) >= 0.0
  {
    if lo < hi {
      DeviationsAreNonNegative(p, lo, hi - 1, m);
      var d := p[hi - 1] - m;
      SquareStep(p, lo, hi - 1, m, d);
      SquareIsNonNegative(d);
    }
  }

  lemma VarianceIsNonNegative(p: seq<real>, period: nat, i: nat)
    requires 1 <= period <= i + 1 <= |p|
    ensures Variance(p, period, i) >= 0.0
  {
    hide SquaredDeviations, BarSma;
    DeviationsAreNonNegative(p, i + 1 - period, i + 1, BarSma(p, i + 1, period));
  }

  lemma VarianceScales(p: seq<real>, a: real, period: nat, i: nat)
    requires 1 <= period <= i + 1 <= |p|
    ensures Variance(Scaled(p, a), period, i) == (a * a) * Variance(p, period, i)
  {
    hide SquaredDeviations, BarSma, Scaled;
    var m, q := BarSma(p, i + 1, period), Scaled(p, a);
    SmaScales(p, a, i + 1, period);
    DeviationsScale(p, a, i + 1 - period, i + 1, m, BarSma(q, i + 1, period));
    ScaledQuotient(a * a, SquaredDeviations(p, i + 1 - period, i + 1, m), period as real,
                   SquaredDeviations(q, i + 1 - period, i + 1, BarSma(q, i + 1, period)));
  }

  lemma BandScales(sqrt: real -> real, p: seq<real>, a: real, period: nat, k: real, i: nat)
    requires IsSqrt(sqrt) && a > 0.0 && 1 <= period && i < |p|
    ensures Middle(Scaled(p, a), period, i) == a * Middle(p, period, i)
    ensures Band(sqrt, Scaled(p, a), period, k, i) == a * Band(sqrt, p, period, k, i)
  {
    hide Variance, BarSma, Scaled, IsSqrt;
    if i >= period - 1 {
      var q := Scaled(p, a);
      SmaScales(p, a, i + 1, period);
      VarianceScales(p, a, period, i);
      VarianceIsNonNegative(p, period, i);
      VarianceIsNonNegative(q, period, i);
      SqrtScales(sqrt, a, Variance(p, period, i), Variance(q, period, i));
      ScaledBand(a, Middle(p, period, i), sqrt(Variance(p, period, i)), k,
                 Middle(q, period, i), sqrt(Variance(q, period, i)));
    }
  }

  lemma ScaledBand(a: real, m: real, r: real, k: real, am: real, ar: real)
    requires am == a * m && ar == a * r
    ensures am + k * ar == a * (m + k * r)
  {}

  lemma {:induction false} HighestScales(p: seq<real>, a: real, lo: nat, hi: nat)
    requires a > 0.0 && lo < |p| && lo <= hi <= |p|
    ensures Highest(Scaled(p, a), lo, hi) == a * Highest(p, lo, hi)
  {
    hide *;
    if hi > lo + 1 {
      HighestScales(p, a, lo, hi - 1);
      ScaledAt(p, a, hi - 1);
      CompareScaled(p[hi - 1], Highest(p, lo, hi - 1), a, Scaled(p, a)[hi - 1], Highest(Scaled(p, a), lo, hi - 1));
      NextHighest(p, lo, hi);
      NextHighest(Scaled(p, a), lo, hi);
    } else {
      ScaledAt(p, a, lo);
      FirstHighest(p, lo, hi);
      FirstHighest(Scaled(p, a), lo, hi);
    }
  }

  lemma NextHighest(p: seq<real>, lo: nat, hi: nat)
    requires lo + 1 < hi <= |p|
    ensures Highest(p, lo, hi) == if p[hi - 1] > Highest(p, lo, hi - 1) then p[hi - 1] else Highest(p, lo, hi - 1)
  {}

  lemma FirstHighest(p: seq<real>, lo: nat, hi: nat)
    requires lo < |p| && lo <= hi <= |p| && hi <= lo + 1
    ensures Highest(p, lo, hi) == p[lo]
  {}

  // ---------------------------------------------------------------- decisions and events

  lemma DecideIsInvariant(sqrt: real -> real, s: Strategy, p: seq<real>, a: real, pos: Position, i: nat)
    requires IsSqrt(sqrt) && a > 0.0 && s.Ok() && s.Warmup() <= i < |p|
    ensures Decide(sqrt, s, Scaled(p, a), pos, i) == Decide(sqrt, s, p, pos, i)
  {
    var q := Scaled(p, a);
    hide Above, Rsi, Band, Middle, Highest, Scaled, IsSqrt;
    ScaledAt(p, a, i);
    match s
    case Crossover(_, _, _) =>
      AboveIsInvariant(p, a, s, i - 1);
      AboveIsInvariant(p, a, s, i);
    case MeanReversion(period, _, _) =>
      RsiIsInvariant(p, a, period, i);
    case Bollinger(period, k) =>
      BandScales(sqrt, p, a, period, -k, i);
      var lower, alower := Band(sqrt, p, period, -k, i), Band(sqrt, q, period, -k, i);
      SignIsInvariant(a, lower, alower);
      CompareScaled(lower, p[i], a, alower, q[i]);
      CompareScaled(p[i], Middle(p, period, i), a, q[i], Middle(q, period, i));
    case Breakout(lookback, _) =>
      HighestScales(p, a, i - lookback, i);
      CompareScaled(p[i], Highest(p, i - lookback, i), a, q[i], Highest(q, i - lookback, i));
  }

  /** The same event at the scaled price. */
  function ScaledEvent(e: TradeEvent, a: real): TradeEvent {
    e.(price := a * e.price)
  }

  function ScaledEvents(events: seq<TradeEvent>, a: real): seq<TradeEvent> {
    seq(|events|, i requires 0 <= i < |events| => ScaledEvent(events[i], a))
  }

  /** The same bars and kinds, in the same order, for all four strategies. */
  lemma {:induction false} TradeIsInvariant(sqrt: real -> real, s: Strategy, p: seq<real>, a: real, m: nat)
    requires IsSqrt(sqrt) && a > 0.0 && s.Ok() && m <= |p|
    ensures Trade(sqrt, s, Scaled(p, a), m)
            == (ScaledEvents(Trade(sqrt, s, p, m).0, a), Trade(sqrt, s, p, m).1)
  {
    hide *;
    if m <= s.Warmup() {
      NoTradesScale(sqrt, s, p, a, m);
    } else {
      TradeIsInvariant(sqrt, s, p, a, m - 1);
      TradeScalesStep(sqrt, s, p, a, Trade(sqrt, s, p, m - 1), m);
    }
  }

  lemma NoTradesScale(sqrt: real -> real, s: Strategy, p: seq<real>, a: real, m: nat)
    requires s.Ok() && m <= |p| && m <= s.Warmup()
    ensures Trade(sqrt, s, Scaled(p, a), m)
            == (ScaledEvents(Trade(sqrt, s, p, m).0, a), Trade(sqrt, s, p, m).1)
  {
    assert ScaledEvents([], a) == [];
  }

  lemma TradeScalesStep(sqrt: real -> real, s: Strategy, p: seq<real>, a: real, run: (seq<TradeEvent>, Position),
                        m: nat)
    requires IsSqrt(sqrt) && a > 0.0 && s.Ok() && s.Warmup() < m <= |p| && run == Trade(sqrt, s, p, m - 1)
    requires Trade(sqrt, s, Scaled(p, a), m - 1) == (ScaledEvents(run.0, a), run.1)
    ensures Trade(sqrt, s, Scaled(p, a), m)
            == (ScaledEvents(Trade(sqrt, s, p, m).0, a), Trade(sqrt, s, p, m).1)
  {
    hide *;
    DecideIsInvariant(sqrt, s, p, a, run.1, m - 1);
    TradeStep(sqrt, s, p, m);
    TradeStep(sqrt, s, Scaled(p, a), m);
    ExtendIsInvariant(run, Decide(sqrt, s, p, run.1, m - 1), p, a, m - 1);
  }

  lemma ExtendIsInvariant(run: (seq<TradeEvent>, Position), kind: Signal, p: seq<real>, a: real, i: nat)
    requires i < |p|
    ensures Extend((ScaledEvents(run.0, a), run.1), kind, Scaled(p, a), i)
            == (ScaledEvents(Extend(run, kind, p, i).0, a), Extend(run, kind, p, i).1)
  {
    var e := TradeEvent(i, p[i], kind);
    assert ScaledEvent(e, a) == TradeEvent(i, Scaled(p, a)[i], kind);
    assert ScaledEvents(run.0 + [e], a) == ScaledEvents(run.0, a) + [ScaledEvent(e, a)];
  }

  // ---------------------------------------------------------------- statistics

  lemma ChangeIsInvariant(p: seq<real>, a: real, i: nat, ahead: nat)
    requires a > 0.0 && i + ahead < |p| && p[i] > 0.0 && Scaled(p, a)[i] > 0.0
    ensures Change(Scaled(p, a), i, ahead) == Change(p, i, ahead)
  {
    RelativeChange(p[i], p[i + ahead], a, Scaled(p, a)[i], Scaled(p, a)[i + ahead]);
  }

  lemma RelativeChange(x: real, y: real, a: real, ax: real, ay: real)
    requires x > 0.0 && ax > 0.0 && ax == a * x && ay == a * y
    ensures (ay - ax) / ax == (y - x) / x
  {
    var d, ad := y - x, ay - ax;
    assert ad == a * d;
    ScaledRatio(d, x, a, ad, ax);
  }

  lemma GrowthIsInvariant(x: real, y: real, a: real, ax: real, ay: real)
    requires x > 0.0 && ax > 0.0 && ax == a * x && ay == a * y
    ensures Growth(ax, ay) == Growth(x, y)
  {
    RelativeChange(x, y, a, ax, ay);
  }

  lemma ScaledIsPriced(p: seq<real>, a: real)
    requires a > 0.0 && Priced(p)
    ensures Priced(Scaled(p, a))
  {
    forall i | 0 <= i < |p|
      ensures Scaled(p, a)[i] > 0.0
    {
      PositiveFactors(a, p[i], Scaled(p, a)[i]);
    }
  }

  lemma ScaledIsOnBars(events: seq<TradeEvent>, p: seq<real>, a: real)
    requires a > 0.0 && OnBars(events, p)
    ensures OnBars(ScaledEvents(events, a), Scaled(p, a))
  {
    forall i | 0 <= i < |events|
      ensures ScaledEvents(events, a)[i].price > 0.0
    {
      PositiveFactors(a, events[i].price, ScaledEvents(events, a)[i].price);
    }
  }

  lemma ScaledEventAt(events: seq<TradeEvent>, a: real, i: nat)
    requires i < |events|
    ensures |ScaledEvents(events, a)| == |events|
    ensures ScaledEvents(events, a)[i].kind == events[i].kind
    ensures ScaledEvents(events, a)[i].price == a * events[i].price
  {}

  /** A pair of consecutive events keeps its kinds and its growth. */
  lemma PairIsInvariant(events: seq<TradeEvent>, a: real, i: nat)
    requires a > 0.0 && i + 1 < |events| == |ScaledEvents(events, a)|
    requires events[i].price > 0.0 && ScaledEvents(events, a)[i].price > 0.0
    ensures var buy, sell := ScaledEvents(events, a)[i], ScaledEvents(events, a)[i + 1];
            && buy.kind == events[i].kind && sell.kind == events[i + 1].kind
            && Growth(buy.price, sell.price) == Growth(events[i].price, events[i + 1].price)
  {
    hide Growth, ScaledEvents;
    ScaledEventAt(events, a, i);
    ScaledEventAt(events, a, i + 1);
    GrowthIsInvariant(events[i].price, events[i + 1].price, a, ScaledEvents(events, a)[i].price,
                      ScaledEvents(events, a)[i + 1].price);
  }

  /** The growth of a last buy, valued at the last close. */
  lemma TailIsInvariant(events: seq<TradeEvent>, p: seq<real>, a: real)
    requires a > 0.0 && 0 < |events| == |ScaledEvents(events, a)| && 0 < |p| == |Scaled(p, a)|
    requires events[|events| - 1].price > 0.0 && ScaledEvents(events, a)[|events| - 1].price > 0.0
    ensures var buy := ScaledEvents(events, a)[|events| - 1];
            && buy.kind == events[|events| - 1].kind
            && Growth(buy.price, Scaled(p, a)[|p| - 1]) == Growth(events[|events| - 1].price, p[|p| - 1])
  {
    hide Growth, ScaledEvents, Scaled;
    var n := |events|;
    ScaledEventAt(events, a, n - 1);
    ScaledAt(p, a, |p| - 1);
    GrowthIsInvariant(events[n - 1].price, p[|p| - 1], a, ScaledEvents(events, a)[n - 1].price, Scaled(p, a)[|p| - 1]);
  }

  lemma {:induction false} CompoundedIsInvariant(events: seq<TradeEvent>, a: real, k: nat)
    requires a > 0.0 && 2 * k <= |events|
    requires forall i :: 0 <= i < |events| ==> events[i].price > 0.0 && ScaledEvents(events, a)[i].price > 0.0
    ensures Compounded(ScaledEvents(events, a), k) == Compounded(events, k)
  {
    assert |ScaledEvents(events, a)| == |events|;
    hide *;
    if k > 0 {
      CompoundedIsInvariant(events, a, k - 1);
      PairIsInvariant(events, a, 2 * k - 2);
      CompoundedStep(events, ScaledEvents(events, a), k);
    } else {
      NothingCompounded(events);
      NothingCompounded(ScaledEvents(events, a));
    }
  }

  lemma CompoundedStep(events: seq<TradeEvent>, others: seq<TradeEvent>, k: nat)
    requires 0 < k && 2 * k <= |events| == |others|
    requires forall i :: 0 <= i < |events| ==> events[i].price > 0.0 && others[i].price > 0.0
    requires Compounded(events, k - 1) == Compounded(others, k - 1)
    requires events[2 * k - 2].kind == others[2 * k - 2].kind && events[2 * k - 1].kind == others[2 * k - 1].kind
    requires Growth(events[2 * k - 2].price, events[2 * k - 1].price)
             == Growth(others[2 * k - 2].price, others[2 * k - 1].price)
    ensures Compounded(events, k) == Compounded(others, k)
  {
    hide Growth;
  }

  lemma NothingCompounded(events: seq<TradeEvent>)
    requires forall i :: 0 <= i < |events| ==> events[i].price > 0.0
    ensures Compounded(events, 0) == 1.0
  {}

  lemma StrategyGrowthIsInvariant(events: seq<TradeEvent>, p: seq<real>, a: real)
    requires a > 0.0 && Priced(p) && OnBars(events, p)
    requires Priced(Scaled(p, a)) && OnBars(ScaledEvents(events, a), Scaled(p, a))
    ensures StrategyGrowth(ScaledEvents(events, a), Scaled(p, a)) == StrategyGrowth(events, p)
  {
    var n := |events|;
    assert n > 0 ==> events[n - 1].bar < |p|;
    hide Growth, Compounded, ScaledEvents, Scaled;
    CompoundedIsInvariant(events, a, n / 2);
    if n % 2 == 1 {
      TailIsInvariant(events, p, a);
    }
  }

  /** The rows differ only in the quoted price. */
  lemma RowsAreInvariant(events: seq<TradeEvent>, p: seq<real>, a: real, ahead: nat)
    requires a > 0.0 && Priced(p) && OnBars(events, p)
    requires Priced(Scaled(p, a)) && OnBars(ScaledEvents(events, a), Scaled(p, a))
    ensures Rows(ScaledEvents(events, a), Scaled(p, a), ahead) == ScaledRows(Rows(events, p, ahead), a)
  {
    var rows, arows := Rows(events, p, ahead), Rows(ScaledEvents(events, a), Scaled(p, a), ahead);
    forall i | 0 <= i < |events|
      ensures arows[i] == ScaledRow(rows[i], a)
    {
      if events[i].bar + ahead < |p| {
        ChangeIsInvariant(p, a, events[i].bar, ahead);
      }
    }
  }

  function ScaledRow(r: SignalRow, a: real): SignalRow {
    r.(price := a * r.price)
  }

  function ScaledRows(rows: seq<SignalRow>, a: real): seq<SignalRow> {
    seq(|rows|, i requires 0 <= i < |rows| => ScaledRow(rows[i], a))
  }

  lemma {:induction false} CountsAreInvariant(rows: seq<SignalRow>, a: real)
    ensures Wins(ScaledRows(rows, a)) == Wins(rows) && MeasuredBuys(ScaledRows(rows, a)) == MeasuredBuys(rows)
  {
    if rows != [] {
      CountsAreInvariant(rows[..|rows| - 1], a);
      assert ScaledRows(rows, a)[..|rows| - 1] == ScaledRows(rows[..|rows| - 1], a);
    }
  }

  lemma SamplesAreInvariant(events: seq<TradeEvent>, p: seq<real>, a: real, warmup: nat, ahead: nat)
    requires a > 0.0 && Priced(p) && Priced(Scaled(p, a))
    ensures Indicator(ScaledEvents(events, a), |p|, warmup, ahead) == Indicator(events, |p|, warmup, ahead)
    ensures Changes(Scaled(p, a), warmup, ahead) == Changes(p, warmup, ahead)
  {
    forall i: nat
      ensures BoughtOn(ScaledEvents(events, a), i) == BoughtOn(events, i)
    {
      BoughtOnIsInvariant(events, a, i);
    }
    assert Indicator(ScaledEvents(events, a), |p|, warmup, ahead) == Indicator(events, |p|, warmup, ahead);
    hide BoughtOn, Change;
    var ys, ays := Changes(p, warmup, ahead), Changes(Scaled(p, a), warmup, ahead);
    forall i | 0 <= i < |ys|
      ensures ays[i] == ys[i]
    {
      ChangeIsInvariant(p, a, warmup + i, ahead);
    }
    assert ays == ys;
  }

  lemma BoughtOnIsInvariant(events: seq<TradeEvent>, a: real, i: nat)
    ensures BoughtOn(ScaledEvents(events, a), i) == BoughtOn(events, i)
  {
    var scaled := ScaledEvents(events, a);
    if k :| 0 <= k < |events| && events[k].kind == Buy && events[k].bar == i {
      assert scaled[k].kind == Buy && scaled[k].bar == i;
    }
    if k :| 0 <= k < |scaled| && scaled[k].kind == Buy && scaled[k].bar == i {
      assert events[k].kind == Buy && events[k].bar == i;
    }
  }

  function ScaledResult(r: BacktestResult, a: real): BacktestResult {
    if r.NotEnoughData? then r else r.(signals := ScaledRows(r.signals, a))
  }

  lemma SummaryIsInvariant(sqrt: real -> real, events: seq<TradeEvent>, p: seq<real>, a: real, warmup: nat, ahead: nat)
    requires IsSqrt(sqrt) && a > 0.0 && Priced(p) && OnBars(events, p)
    requires Priced(Scaled(p, a)) && OnBars(ScaledEvents(events, a), Scaled(p, a))
    ensures Summary(sqrt, ScaledEvents(events, a), Scaled(p, a), warmup, ahead)
            == ScaledResult(Summary(sqrt, events, p, warmup, ahead), a)
  {
    assert |ScaledEvents(events, a)| == |events| && |Scaled(p, a)| == |p|;
    hide IsSqrt, Priced, Scaled, ScaledEvents, Rows, ScaledRows, Indicator, Changes, StrategyGrowth, Correlation,
      OnBars, Wins, MeasuredBuys;
    RowsAreInvariant(events, p, a, ahead);
    CountsAreInvariant(Rows(events, p, ahead), a);
    StrategyGrowthIsInvariant(events, p, a);
    SamplesAreInvariant(events, p, a, warmup, ahead);
  }

  /**
   * Multiplying all closes by a positive constant leaves every bar, kind, forward return, the strategy
   * return, win rate and correlation of every strategy as they were.
   */
  lemma BacktestIsInvariant(sqrt: real -> real, s: Strategy, p: seq<real>, a: real, ahead: nat)
    requires IsSqrt(sqrt) && a > 0.0 && s.Ok() && Priced(p)
    ensures Priced(Scaled(p, a))
            && Backtested(sqrt, s, Scaled(p, a), ahead) == ScaledResult(Backtested(sqrt, s, p, ahead), a)
  {
    ScaledIsPriced(p, a);
    hide *;
    ShortStaysShort(sqrt, s, p, a, ahead);
    if |p| >= s.Warmup() + 1 {
      var events := Trade(sqrt, s, p, |p|).0;
      TradeIsInvariant(sqrt, s, p, a, |p|);
      TradesAreOnBars(sqrt, s, p);
      ScaledIsOnBars(events, p, a);
      SummaryIsInvariant(sqrt, events, p, a, s.Warmup(), ahead);
      BacktestedIs(sqrt, s, p, ahead, events);
      BacktestedIs(sqrt, s, Scaled(p, a), ahead, ScaledEvents(events, a));
    }
  }

  lemma ShortStaysShort(sqrt: real -> real, s: Strategy, p: seq<real>, a: real, ahead: nat)
    requires IsSqrt(sqrt) && s.Ok() && Priced(p) && Priced(Scaled(p, a))
    ensures |Scaled(p, a)| == |p|
    ensures |p| < s.Warmup() + 1 ==>
              Backtested(sqrt, s, Scaled(p, a), ahead) == ScaledResult(Backtested(sqrt, s, p, ahead), a)
  {}

  lemma BacktestedIs(sqrt: real -> real, s: Strategy, p: seq<real>, ahead: nat, events: seq<TradeEvent>)
    requires IsSqrt(sqrt) && s.Ok() && Priced(p) && OnBars(events, p)
    requires |p| >= s.Warmup() + 1 && events == Trade(sqrt, s, p, |p|).0
    ensures Backtested(sqrt, s, p, ahead) == Summary(sqrt, events, p, s.Warmup(), ahead)
  {
    hide Trade, Summary, IsSqrt, Priced, OnBars;
  }
}
