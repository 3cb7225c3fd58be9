/** cmd/dashboard/backtest.go: what the indicators measure, without reference to their recursions. */
module IndicatorMeaning {
  import opened Algebra
  import opened Common
  import opened Indicators
  import opened Pearson
  import opened RsiMeaning
  import Samuelson
  import opened StrategyFacts
  import UnitInvariance

  // ---------------------------------------------------------------- averages on a straight line

  /** Prices that rise by `b` per bar. */
  ghost predicate OnLine(p: seq<real>, a: real, b: real) {
    forall i :: 0 <= i < |p| ==> p[i] == a + b * i as real
  }

  /** How far an average over `period` bars lags behind, in bars. */
  function Lag(period: nat): real
    requires 1 <= period
  {
    (period - 1) as real / 2.0
  }

  lemma {:induction false} SumOnLine(p: seq<real>, a: real, b: real, lo: nat, hi: nat, n: real)
    requires OnLine(p, a, b) && lo <= hi <= |p| && n == (hi - lo) as real
    ensures SumRange(p, lo, hi) == n * (a + b * lo as real) + b * (n * (n - 1.0) / 2.0)
  {
    if lo < hi {
      SumOnLine(p, a, b, lo, hi - 1, n - 1.0);
      hide SumRange;
      NextOnLine(a, b, lo as real, n, p[hi - 1]);
    }
  }

  lemma NextOnLine(a: real, b: real, lo: real, n: real, x: real)
    requires x == a + b * (lo + n - 1.0)
    ensures (n - 1.0) * (a + b * lo) + b * ((n - 1.0) * (n - 2.0) / 2.0) + x
            == n * (a + b * lo) + b * (n * (n - 1.0) / 2.0)
  {
    assert n * (n - 1.0) / 2.0 == (n - 1.0) * (n - 2.0) / 2.0 + (n - 1.0);
    assert b * (lo + n - 1.0) == b * lo + b * (n - 1.0);
  }

  /** On a straight line the simple average is the price half a window, (period - 1)/2 bars, ago. */
  lemma SmaLags(p: seq<real>, a: real, b: real, period: nat, i: nat)
    requires OnLine(p, a, b) && 1 <= period <= i + 1 <= |p|
    ensures BarSma(p, i + 1, period) == p[i] - b * Lag(period)
  {
    var n, lo := period as real, i + 1 - period;
    var sum := SumRange(p, lo, i + 1);
    SumOnLine(p, a, b, lo, i + 1, n);
    assert p[i] == a + b * i as real && lo as real == i as real + 1.0 - n;
    LagOfMean(a, b, i as real, n, lo as real, sum, p[i], Lag(period));
    hide *;
    SmaIs(p, i + 1, period, n, sum, p[i] - b * Lag(period));
  }

  lemma SmaIs(p: seq<real>, end: nat, period: nat, n: real, sum: real, mean: real)
    requires 1 <= period <= end <= |p| && n == period as real && sum == SumRange(p, end - period, end)
    requires sum == n * mean
    ensures BarSma(p, end, period) == mean
  {
    hide SumRange;
    Quotient(sum, n, mean);
  }

  lemma LagOfMean(a: real, b: real, i: real, n: real, lo: real, sum: real, x: real, lag: real)
    requires n >= 1.0 && lo == i + 1.0 - n && x == a + b * i && lag == (n - 1.0) / 2.0
    requires sum == n * (a + b * lo) + b * (n * (n - 1.0) / 2.0)
    ensures sum == n * (x - b * lag)
  {
    assert b * lo == b * i - b * (n - 1.0);
    assert n * (b * (n - 1.0)) == 2.0 * (b * (n * (n - 1.0) / 2.0));
    assert n * (b * lag) == b * (n * (n - 1.0) / 2.0);
  }

  /** And so, on every bar from its seed on, is the exponential one. */
  lemma {:induction false} EmaLags(p: seq<real>, a: real, b: real, period: nat, i: nat)
    requires OnLine(p, a, b) && 1 <= period <= i + 1 <= |p|
    ensures Ema(p, period, i) == p[i] - b * Lag(period)
  {
    hide *;
    if i == period - 1 {
      SmaLags(p, a, b, period, i);
      SeedIs(p, period);
    } else {
      EmaLags(p, a, b, period, i - 1);
      LineStep(p, a, b, i);
      EmaStep(p, period, i, Alpha(period), Ema(p, period, i - 1));
      SmoothingIs(period, Alpha(period), (period + 1) as real);
      LagIs(period, (period + 1) as real);
      LagStays(p[i], b, Alpha(period), (period + 1) as real, Lag(period), Ema(p, period, i - 1), Ema(p, period, i));
    }
  }

  lemma SeedIs(p: seq<real>, period: nat)
    requires 1 <= period <= |p|
    ensures Ema(p, period, period - 1) == BarSma(p, period, period)
  {
    hide SumRange;
  }

  lemma LineStep(p: seq<real>, a: real, b: real, i: nat)
    requires OnLine(p, a, b) && 1 <= i < |p|
    ensures p[i - 1] == p[i] - b
  {
    assert p[i] == a + b * i as real && p[i - 1] == a + b * (i - 1) as real;
  }

  lemma SmoothingIs(period: nat, k: real, n: real)
    requires 1 <= period && k == Alpha(period) && n == (period + 1) as real
    ensures k * n == 2.0
  {}

  lemma LagIs(period: nat, n: real)
    requires 1 <= period && n == (period + 1) as real
    ensures Lag(period) == n / 2.0 - 1.0 && n >= 2.0
  {}

  lemma LagStays(x: real, b: real, k: real, n: real, lag: real, last: real, now: real)
    requires k * n == 2.0 && lag == n / 2.0 - 1.0 && last == (x - b) - b * lag && now == x * k + last * (1.0 - k)
    ensures now == x - b * lag
  {
    var d := b + b * lag;
    assert last * (1.0 - k) == x * (1.0 - k) - d * (1.0 - k);
    assert d == b * (n / 2.0);
    assert d * k == (b / 2.0) * (k * n);
  }

  /**
   * On a straight line that is not flat no other smoothing factor keeps that lag, on any bar after the seed.
   */
  lemma OnlySmoothing(p: seq<real>, a: real, b: real, period: nat, i: nat, k: real)
    requires OnLine(p, a, b) && b != 0.0 && 1 <= period <= i < |p|
    ensures p[i] * k + (p[i - 1] - b * Lag(period)) * (1.0 - k) == p[i] - b * Lag(period)
            <==> k == 2.0 / (period + 1) as real
  {
    var n, lag := (period + 1) as real, Lag(period);
    assert p[i - 1] == p[i] - b && lag == n / 2.0 - 1.0;
    hide *;
    FactorIff(p[i], b, k, n, lag, 2.0 / n);
  }

  lemma FactorIff(x: real, b: real, k: real, n: real, lag: real, factor: real)
    requires b != 0.0 && n >= 2.0 && lag == n / 2.0 - 1.0 && factor == 2.0 / n
    ensures x * k + (x - b - b * lag) * (1.0 - k) == x - b * lag <==> k == factor
  {
    var d, now := b + b * lag, x * k + (x - b - b * lag) * (1.0 - k);
    assert now == x - d + d * k;
    assert d == b * (n / 2.0);
    assert d * k == (b / 2.0) * (n * k);
    assert now - (x - b * lag) == (b / 2.0) * (n * k - 2.0);
    assert factor * n == 2.0;
    if now == x - b * lag {
      ZeroFactor(b / 2.0, n * k - 2.0);
      CancelFactor(k, factor, n);
    }
  }

  lemma ZeroFactor(x: real, y: real)
    requires x != 0.0 && x * y == 0.0
    ensures y == 0.0
  {}

  // ---------------------------------------------------------------- the averages behind the RSI

  /** The rises, and the falls, from close to close. */
  function Ups(p: seq<real>): (ups: seq<real>)
    requires p != []
    ensures |ups| == |p| - 1
  {
    seq(|p| - 1, j requires 0 <= j < |p| - 1 => if p[j + 1] > p[j] then p[j + 1] - p[j] else 0.0)
  }

  function Downs(p: seq<real>): (downs: seq<real>)
    requires p != []
    ensures |downs| == |p| - 1
  {
    seq(|p| - 1, j requires 0 <= j < |p| - 1 => if p[j + 1] < p[j] then p[j] - p[j + 1] else 0.0)
  }

  lemma MovesAre(p: seq<real>, i: nat)
    requires 0 < i < |p|
    ensures Gain(p, i) == Ups(p)[i - 1] && Loss(p, i) == Downs(p)[i - 1]
  {}

  lemma {:induction false} TotalsAreSums(p: seq<real>, n: nat)
    requires n < |p|
    ensures Total(p, n) == Strength(SumRange(Ups(p), 0, n), SumRange(Downs(p), 0, n))
  {
    if n > 0 {
      hide Ups, Downs, Gain, Loss;
      TotalsAreSums(p, n - 1);
      MovesAre(p, n);
    }
  }

  /**
   * Moves averaged with geometrically decaying weights: each later move counts 1/period when it happens, and
   * everything loses 1/period of its weight per bar; the first `period` moves start as their plain mean.
   */
  function Smoothed(moves: seq<real>, period: nat, i: nat): real
    requires 1 <= period <= i <= |moves|
  {
    Weight(1.0 / period as real, i - period) * BarSma(moves, period, period)
    + Decayed(moves, 1.0 / period as real, period, i, i - 1)
  }

  lemma FirstSmoothed(moves: seq<real>, period: nat)
    requires 1 <= period <= |moves|
    ensures Smoothed(moves, period, period) == BarSma(moves, period, period)
  {
    hide BarSma;
  }

  lemma NextSmoothed(moves: seq<real>, period: nat, i: nat, k: real)
    requires 1 <= period < i <= |moves| && k == 1.0 / period as real
    ensures Smoothed(moves, period, i) == moves[i - 1] * k + Smoothed(moves, period, i - 1) * (1.0 - k)
  {
    hide *;
    var seed, w, w' := BarSma(moves, period, period), Weight(k, i - 1 - period), Weight(k, i - period);
    var sum, sum' := Decayed(moves, k, period, i - 1, i - 2), Decayed(moves, k, period, i - 1, i - 1);
    OneBarLater(moves, k, period, i - 1, i - 2);
    LastTerm(moves, k, period, i - 1);
    NextWeight(k, i - period);
    SmoothedIs(moves, period, i - 1, k, seed, w, sum);
    SmoothedIs(moves, period, i, k, seed, w', sum' + k * moves[i - 1]);
    ClosedStep(k, seed, w, w', sum, sum', Smoothed(moves, period, i - 1), moves[i - 1]);
  }

  lemma SmoothedIs(moves: seq<real>, period: nat, i: nat, k: real, seed: real, w: real, sum: real)
    requires 1 <= period <= i <= |moves| && k == 1.0 / period as real && seed == BarSma(moves, period, period)
    requires w == Weight(k, i - period) && sum == Decayed(moves, k, period, i, i - 1)
    ensures Smoothed(moves, period, i) == w * seed + sum
  {
    hide Weight, Decayed, BarSma;
  }

  lemma SmoothedStep(average: real, last: real, move: real, n: real, k: real)
    requires n >= 1.0 && k == 1.0 / n && average * n == last * (n - 1.0) + move
    ensures average == move * k + last * (1.0 - k)
  {
    assert k * n == 1.0;
    assert (move * k + last * (1.0 - k)) * n == move * (k * n) + last * n - last * (k * n);
    CancelFactor(average, move * k + last * (1.0 - k), n);
  }

  /** Wilder's averages in closed form. */
  lemma {:induction false} WilderIsWeightedSum(p: seq<real>, period: nat, i: nat)
    requires 1 <= period <= i < |p|
    ensures Wilder(p, period, i) == Strength(Smoothed(Ups(p), period, i), Smoothed(Downs(p), period, i))
  {
    hide *;
    if i == period {
      FirstWilder(p, period);
      TotalsAreSums(p, period);
      FirstSmoothed(Ups(p), period);
      FirstSmoothed(Downs(p), period);
      FirstMeans(p, period);
    } else {
      var k, n := 1.0 / period as real, period as real;
      WilderIsWeightedSum(p, period, i - 1);
      var last := Wilder(p, period, i - 1);
      NextWilder(p, period, i, last);
      MovesAre(p, i);
      NextSmoothed(Ups(p), period, i, k);
      NextSmoothed(Downs(p), period, i, k);
      OneLess(period);
      SmoothedStep(Wilder(p, period, i).gain, last.gain, Gain(p, i), n, k);
      SmoothedStep(Wilder(p, period, i).loss, last.loss, Loss(p, i), n, k);
    }
  }

  lemma OneLess(period: nat)
    requires 1 <= period
    ensures (period - 1) as real == period as real - 1.0 && period as real >= 1.0
  {}

  lemma FirstMeans(p: seq<real>, period: nat)
    requires 1 <= period < |p|
    ensures BarSma(Ups(p), period, period) == SumRange(Ups(p), 0, period) / period as real
    ensures BarSma(Downs(p), period, period) == SumRange(Downs(p), 0, period) / period as real
  {
    hide SumRange, Ups, Downs;
  }

  /** The RSI on any prices: the smoothed rises as a percentage of all smoothed moves, 100 without any. */
  lemma RsiIsWeightedShare(p: seq<real>, period: nat, i: nat)
    requires 1 <= period <= i < |p|
    ensures var up, down := Smoothed(Ups(p), period, i), Smoothed(Downs(p), period, i);
            && up >= 0.0 && down >= 0.0
            && if up + down > 0.0 then Rsi(p, period, i) * (up + down) == 100.0 * up else Rsi(p, period, i) == 100.0
  {
    var s := Wilder(p, period, i);
    WilderIsWeightedSum(p, period, i);
    assert Rsi(p, period, i) == ToRsi(s);
    hide *;
    if s.gain + s.loss > 0.0 {
      Share(s);
      ShareTimes(ToRsi(s), s.gain, s.gain + s.loss);
    } else {
      NoMoves(s);
    }
  }

  lemma ShareTimes(r: real, part: real, whole: real)
    requires whole > 0.0 && r == 100.0 * part / whole
    ensures r * whole == 100.0 * part
  {}

  /** The exponential average in closed form, with its factor written out. */
  lemma EmaWeights(p: seq<real>, period: nat, i: nat, k: real)
    requires 1 <= period <= i + 1 <= |p| && k == 2.0 / (period + 1) as real
    ensures Ema(p, period, i)
            == Weight(k, i + 1 - period) * BarSma(p, period, period) + Decayed(p, k, period, i + 1, i)
  {
    assert k == Alpha(period);
    hide *;
    EmaIsWeightedSum(p, period, i);
  }

  // ---------------------------------------------------------------- Bollinger bands

  function Squares(p: seq<real>, lo: nat, hi: nat): real
    requires lo <= hi <= |p|
  {
    if lo == hi then 0.0 else Squares(p, lo, hi - 1) + p[hi - 1] * p[hi - 1]
  }

  lemma {:induction false} DeviationsFromZero(p: seq<real>, lo: nat, hi: nat)
    requires lo <= hi <= |p|
    ensures SquaredDeviations(p, lo, hi, 0.0) == Squares(p, lo, hi)
  {
    if lo < hi {
      DeviationsFromZero(p, lo, hi - 1);
      SquareStep(p, lo, hi - 1, 0.0, p[hi - 1]);
      hide SquaredDeviations;
    }
  }

  /** Bands `k` deviations around the mean of `n` values, from their sum and sum of squares. */
  ghost predicate BandsOf(n: real, sum: real, squares: real, k: real, low: real, middle: real, up: real) {
    && n * middle == sum && up - middle == middle - low && (k >= 0.0 ==> up >= middle)
    && (n * (up - middle)) * (n * (up - middle)) == (k * k) * (n * squares - sum * sum)
  }

  /** The three bands from the sum and the sum of squares of the window, without its deviations. */
  lemma BandsFormula(sqrt: real -> real, p: seq<real>, period: nat, k: real, i: nat)
    requires IsSqrt(sqrt) && 1 <= period <= i + 1 <= |p|
    ensures BandsOf(period as real, SumRange(p, i + 1 - period, i + 1), Squares(p, i + 1 - period, i + 1), k,
                    Band(sqrt, p, period, -k, i), Middle(p, period, i), Band(sqrt, p, period, k, i))
  {
    hide *;
    var n, sum, squares := period as real, SumRange(p, i + 1 - period, i + 1), Squares(p, i + 1 - period, i + 1);
    var m, variance := BarSma(p, i + 1, period), Variance(p, period, i);
    var std, squared := sqrt(variance), SquaredDeviations(p, i + 1 - period, i + 1, m);
    WindowMeans(p, period, i, n, m, variance);
    UnitInvariance.VarianceIsNonNegative(p, period, i);
    Samuelson.RootOf(sqrt, variance, std);
    BandIs(sqrt, p, period, k, i, m, std);
    BandIs(sqrt, p, period, -k, i, m, std);
    Samuelson.ShiftCentre(p, i + 1 - period, i + 1, 0.0, m, m);
    WindowLength(period, i);
    DeviationsFromZero(p, i + 1 - period, i + 1);
    ShiftedIs(squares, sum, n, m, squared);
    BandAlgebra(n, sum, squares, m, squared, variance, std, k,
                Band(sqrt, p, period, -k, i), Band(sqrt, p, period, k, i));
  }

  lemma WindowLength(period: nat, i: nat)
    requires 1 <= period <= i + 1
    ensures (i + 1 - (i + 1 - period)) as real == period as real
  {}

  lemma WindowMeans(p: seq<real>, period: nat, i: nat, n: real, m: real, variance: real)
    requires 1 <= period <= i + 1 <= |p| && n == period as real
    requires m == BarSma(p, i + 1, period) && variance == Variance(p, period, i)
    ensures n * m == SumRange(p, i + 1 - period, i + 1)
    ensures n * variance == SquaredDeviations(p, i + 1 - period, i + 1, m)
  {
    hide SumRange, SquaredDeviations;
  }

  lemma ShiftedIs(squares: real, sum: real, n: real, m: real, squared: real)
    requires squared == Samuelson.Shifted(squares, sum, n, 0.0, m) && n * m == sum
    ensures n * squared == n * squares - sum * sum
  {
    var mm := m * m;
    assert sum * sum == n * (n * mm);
    assert m * sum == n * mm;
    assert squared == squares - 2.0 * (m * sum) + n * mm;
  }

  lemma BandAlgebra(n: real, sum: real, squares: real, m: real, squared: real, variance: real, std: real, k: real,
                    low: real, up: real)
    requires n * m == sum && n * variance == squared && std >= 0.0 && std * std == variance
    requires n * squared == n * squares - sum * sum && low == m + -k * std && up == m + k * std
    ensures BandsOf(n, sum, squares, k, low, m, up)
  {
    var d := k * std;
    assert -k * std == -d;
    assert d * d == (k * k) * variance;
    assert (n * d) * (n * d) == n * (n * (d * d));
    assert n * (n * ((k * k) * variance)) == (k * k) * (n * (n * variance));
    if k >= 0.0 {
      NonNegativeProduct(k, std);
    }
  }
}
