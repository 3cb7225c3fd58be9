/**
 * Samuelson's inequality on the Bollinger window, which contains the bar it is compared with, and
 * what it says of the number of standard deviations the strategy can be run with.
 */
module Samuelson {
  import opened Algebra
  import opened Backtest
  import opened Common
  import opened Indicators
  import opened Pearson
  import opened Strategies
  import opened UnitInvariance

  // ---------------------------------------------------------------- the inequality

  /** Squared deviations around `m + t`, from those around `m`: `n` prices with sum `sum`. */
  function Shifted(deviations: real, sum: real, n: real, m: real, t: real): real {
    deviations - 2.0 * (t * (sum - n * m)) + n * (t * t)
  }

  lemma {:induction false} ShiftCentre(p: seq<real>, lo: nat, hi: nat, m: real, t: real, c: real)
    requires lo <= hi <= |p| && c == m + t
    ensures SquaredDeviations(p, lo, hi, c)
            == Shifted(SquaredDeviations(p, lo, hi, m), SumRange(p, lo, hi), (hi - lo) as real, m, t)
  {
    if lo < hi {
      hide *;
      ShiftCentre(p, lo, hi - 1, m, t, c);
      var d, e := p[hi - 1] - m, p[hi - 1] - c;
      SquareStep(p, lo, hi - 1, m, d);
      SquareStep(p, lo, hi - 1, c, e);
      SumStep(p, lo, hi - 1);
      ShiftOne(SquaredDeviations(p, lo, hi - 1, c), SquaredDeviations(p, lo, hi - 1, m), SumRange(p, lo, hi - 1),
               (hi - 1 - lo) as real, p[hi - 1], m, t, d, e,
               SquaredDeviations(p, lo, hi, c), SquaredDeviations(p, lo, hi, m), SumRange(p, lo, hi),
               (hi - lo) as real);
    }
  }

  lemma ShiftOne(sc: real, sm: real, sum: real, n: real, x: real, m: real, t: real, d: real, e: real,
                 sc': real, sm': real, sum': real, n': real)
    requires sc == Shifted(sm, sum, n, m, t)
    requires d == x - m && e == d - t && n' == n + 1.0
    requires sc' == sc + e * e && sm' == sm + d * d && sum' == sum + x
    ensures sc' == Shifted(sm', sum', n', m, t)
  {
    assert sum' - n' * m == (sum - n * m) + d;
    assert t * ((sum - n * m) + d) == t * (sum - n * m) + t * d;
    assert e * e == d * d - 2.0 * (t * d) + t * t;
  }

  lemma SumStep(p: seq<real>, lo: nat, hi: nat)
    requires lo <= hi < |p|
    ensures SumRange(p, lo, hi + 1) == SumRange(p, lo, hi) + p[hi]
  {}

  /** The deviations of the other bars of the window add up to minus that of the last. */
  lemma OthersBalance(p: seq<real>, period: nat, i: nat, m: real, d: real)
    requires 1 <= period <= i + 1 <= |p| && m == BarSma(p, i + 1, period) && d == p[i] - m
    ensures SumRange(p, i + 1 - period, i) - (period - 1) as real * m == -d
  {
    SumStep(p, i + 1 - period, i);
    var sum := SumRange(p, i + 1 - period, i + 1);
    assert m == sum / period as real;
    assert sum == period as real * m;
    assert period as real * m == (period - 1) as real * m + m;
  }

  lemma VarianceIs(p: seq<real>, period: nat, i: nat, m: real)
    requires 1 <= period <= i + 1 <= |p| && m == BarSma(p, i + 1, period)
    ensures SquaredDeviations(p, i + 1 - period, i + 1, m) == period as real * Variance(p, period, i)
  {
    hide SquaredDeviations, BarSma;
  }

  /** Samuelson: no bar deviates from its own window's mean by more than sqrt(period - 1) standard deviations. */
  lemma SamuelsonBound(p: seq<real>, period: nat, i: nat, d: real)
    requires 1 <= period <= i + 1 <= |p| && d == p[i] - BarSma(p, i + 1, period)
    ensures d * d <= (period - 1) as real * Variance(p, period, i)
  {
    hide *;
    var m, lo, n := BarSma(p, i + 1, period), i + 1 - period, (period - 1) as real;
    var others, sum := SquaredDeviations(p, lo, i, m), SumRange(p, lo, i);
    OthersBalance(p, period, i, m, d);
    SquareStep(p, lo, i, m, d);
    VarianceIs(p, period, i, m);
    if period == 1 {
      NoOthers(p, i, m);
      assert n * m == 0.0;
      LastAlone(d, n, Variance(p, period, i));
    } else {
      var t := -d / n;
      ShiftCentre(p, lo, i, m, t, m + t);
      DeviationsAreNonNegative(p, lo, i, m + t);
      Spread(others, sum, n, m, d, t, others + d * d, Variance(p, period, i));
    }
  }

  lemma NoOthers(p: seq<real>, i: nat, m: real)
    requires i <= |p|
    ensures SumRange(p, i, i) == 0.0 == SquaredDeviations(p, i, i, m)
  {}

  lemma LastAlone(d: real, n: real, variance: real)
    requires d == 0.0 && n == 0.0
    ensures d * d <= n * variance
  {}

  lemma Spread(others: real, sum: real, n: real, m: real, d: real, t: real, all: real, variance: real)
    requires n > 0.0 && t == -d / n && sum - n * m == -d && Shifted(others, sum, n, m, t) >= 0.0
    requires all == others + d * d && all == (n + 1.0) * variance
    ensures d * d <= n * variance
  {
    assert n * t == -d;
    assert n * (t * t) == t * -d;
    assert n * (t * -d) == d * d;
    var q := t * -d;
    assert t * (sum - n * m) == q;
    assert others - q >= 0.0;
    NonNegativeProduct(n, others - q);
    assert n * others >= d * d;
    assert n * all >= (n + 1.0) * (d * d);
    assert (n + 1.0) * (n * variance - d * d) >= 0.0;
    CancelPositive(n + 1.0, n * variance - d * d);
  }

  // ---------------------------------------------------------------- no events when k * k >= period - 1

  /** Below the lower band of `k` deviations means more than `k` deviations away. */
  lemma BelowBand(d: real, k: real, std: real, variance: real, n: real)
    requires k >= 0.0 && std >= 0.0 && std * std == variance && k * k >= n && d * d <= n * variance
    ensures d >= -(k * std)
  {
    var b := k * std;
    SquareIsNonNegative(std);
    assert b * b == (k * k) * variance;
    assert (k * k) * variance >= n * variance;
    assert b >= 0.0;
    SquareOrder(d, b);
  }

  /** With that many deviations no close ever lies below the band. */
  lemma NeverBuys(sqrt: real -> real, p: seq<real>, period: nat, k: real, pos: Position, i: nat)
    requires IsSqrt(sqrt) && 1 <= period <= i < |p| && k >= 0.0 && k * k >= (period - 1) as real
    ensures Decide(sqrt, Bollinger(period, k), p, pos, i) != Buy
  {
    var d, variance := p[i] - BarSma(p, i + 1, period), Variance(p, period, i);
    var std := sqrt(variance);
    SamuelsonBound(p, period, i, d);
    VarianceIsNonNegative(p, period, i);
    RootOf(sqrt, variance, std);
    BandIs(sqrt, p, period, -k, i, BarSma(p, i + 1, period), std);
    hide *;
    BelowBand(d, k, std, variance, (period - 1) as real);
    NoBuyAbove(sqrt, p, period, k, pos, i);
  }

  lemma RootOf(sqrt: real -> real, x: real, r: real)
    requires IsSqrt(sqrt) && x >= 0.0 && r == sqrt(x)
    ensures r >= 0.0 && r * r == x
  {}

  lemma NoBuyAbove(sqrt: real -> real, p: seq<real>, period: nat, k: real, pos: Position, i: nat)
    requires 1 <= period <= i < |p| && p[i] >= Band(sqrt, p, period, -k, i)
    ensures Decide(sqrt, Bollinger(period, k), p, pos, i) != Buy
  {
    hide Band, Middle;
  }

  lemma {:induction false} NeverTrades(sqrt: real -> real, p: seq<real>, period: nat, k: real, m: nat)
    requires IsSqrt(sqrt) && 1 <= period && m <= |p| && k >= 0.0 && k * k >= (period - 1) as real
    ensures Trade(sqrt, Bollinger(period, k), p, m) == ([], FLAT)
  {
    if m > period {
      NeverTrades(sqrt, p, period, k, m - 1);
      NeverBuys(sqrt, p, period, k, FLAT, m - 1);
      DecideRespectsPosition(sqrt, Bollinger(period, k), p, FLAT, m - 1);
      hide Decide;
    }
  }

  // ---------------------------------------------------------------- one outlier reaches the bound

  /** `period` closes of 2 and then one of 1. */
  function Outlier(period: nat): (p: seq<real>)
    ensures |p| == period + 1 && Priced(p)
  {
    seq(period + 1, i => if i < period then 2.0 else 1.0)
  }

  lemma {:induction false} ConstantRun(p: seq<real>, lo: nat, hi: nat, x: real, m: real, d: real)
    requires lo <= hi <= |p| && d == x - m && forall j :: lo <= j < hi ==> p[j] == x
    ensures SumRange(p, lo, hi) == (hi - lo) as real * x
    ensures SquaredDeviations(p, lo, hi, m) == (hi - lo) as real * (d * d)
  {
    if lo < hi {
      ConstantRun(p, lo, hi - 1, x, m, d);
      SquareStep(p, lo, hi - 1, m, d);
      SumStep(p, lo, hi - 1);
      hide *;
    }
  }

  /** The outlier deviates by (period - 1) / period, and the variance is that over the period. */
  lemma OutlierWindow(period: nat, d: real)
    requires 2 <= period && d == Outlier(period)[period] - BarSma(Outlier(period), period + 1, period)
    ensures d * period as real == -((period - 1) as real)
    ensures d * d == (period - 1) as real * Variance(Outlier(period), period, period)
    ensures BarSma(Outlier(period), period + 1, period) > 1.0
  {
    var p, n := Outlier(period), (period - 1) as real;
    var m, e := BarSma(p, period + 1, period), 2.0 - BarSma(p, period + 1, period);
    ConstantRun(p, 1, period, 2.0, m, e);
    SumStep(p, 1, period);
    assert m * (n + 1.0) == n * 2.0 + 1.0;
    SquareStep(p, 1, period, m, d);
    var variance := Variance(p, period, period);
    assert variance * (n + 1.0) == n * (e * e) + d * d;
    hide *;
    OutlierAlgebra(n, m, d, e, variance);
  }

  lemma OutlierAlgebra(n: real, m: real, d: real, e: real, variance: real)
    requires n > 0.0 && d == 1.0 - m && e == 2.0 - m
    requires m * (n + 1.0) == n * 2.0 + 1.0 && variance * (n + 1.0) == n * (e * e) + d * d
    ensures d * (n + 1.0) == -n && d * d == n * variance && m > 1.0
  {
    assert d == -(n * e) by {
      assert (d + n * e) * (n + 1.0) == (1.0 + n * 2.0 - m * (n + 1.0)) * (n + 1.0);
    }
    assert d * d == n * n * (e * e);
    assert n * (n * (e * e) + d * d) == (n + 1.0) * (d * d);
    CancelFactor(n * variance, d * d, n + 1.0);
    CancelLess(1.0, m, n + 1.0);
  }

  /** With fewer deviations the outlier is bought. */
  lemma OutlierIsBought(sqrt: real -> real, period: nat, k: real)
    requires IsSqrt(sqrt) && 1 <= period && k >= 0.0 && k * k < (period - 1) as real
    ensures Trade(sqrt, Bollinger(period, k), Outlier(period), period + 1).0 == [TradeEvent(period, 1.0, Buy)]
  {
    SquareIsNonNegative(k);
    var p, n := Outlier(period), (period - 1) as real;
    assert p[period] == 1.0;
    var m, variance := BarSma(p, period + 1, period), Variance(p, period, period);
    var d, std := 1.0 - m, sqrt(variance);
    OutlierWindow(period, d);
    VarianceIsNonNegative(p, period, period);
    RootOf(sqrt, variance, std);
    BandIs(sqrt, p, period, -k, period, m, std);
    FirstEvent(sqrt, p, period, k);
    hide *;
    FarBelow(d, k, std, variance, n);
  }

  lemma FarBelow(d: real, k: real, std: real, variance: real, n: real)
    requires k >= 0.0 && std >= 0.0 && k * k < n && std * std == variance && d * d == n * variance
        && d * (n + 1.0) == -n
    ensures d < -(k * std)
  {
    var b := k * std;
    SquareIsNonNegative(k);
    CancelLess(d, 0.0, n + 1.0);
    SquareIsPositive(d, d * d);
    assert variance > 0.0;
    assert b * b == (k * k) * variance;
    CompareScaled(n, k * k, variance, variance * n, variance * (k * k));
    SquareLess(b, -d);
  }

  lemma FirstEvent(sqrt: real -> real, p: seq<real>, period: nat, k: real)
    requires 1 <= period && |p| == period + 1
    requires Band(sqrt, p, period, -k, period) != 0.0
    ensures p[period] < Band(sqrt, p, period, -k, period)
            ==> Trade(sqrt, Bollinger(period, k), p, period + 1).0 == [TradeEvent(period, p[period], Buy)]
  {}

  /**
   * The Bollinger strategy can trade at all exactly when stdDevs^2 < period - 1: below that bound some
   * price series is bought, at or above it no series of any length ever produces an event.
   */
  lemma CanTradeIff(sqrt: real -> real, period: nat, k: real)
    requires IsSqrt(sqrt) && 1 <= period && k >= 0.0
    ensures k * k < (period - 1) as real
            <==> exists p: seq<real> :: Priced(p) && Trade(sqrt, Bollinger(period, k), p, |p|).0 != []
  {
    if k * k < (period - 1) as real {
      OutlierIsBought(sqrt, period, k);
      assert Priced(Outlier(period)) && Trade(sqrt, Bollinger(period, k), Outlier(period), |Outlier(period)|).0 != [];
    } else {
      forall p: seq<real> | Priced(p)
        ensures Trade(sqrt, Bollinger(period, k), p, |p|).0 == []
      {
        NeverTrades(sqrt, p, period, k, |p|);
      }
    }
  }
}
