/** cmd/dashboard/backtest.go: moving averages, RSI and Bollinger bands. */
module Indicators {
  import opened Common

  // ---------------------------------------------------------------- simple and exponential averages

  /** The mean of the `period` prices before `end`, or 0 when there are fewer. */
  function BarSma(p: seq<real>, end: nat, period: nat): real
    requires 1 <= period && end <= |p|
  {
    if end < period then 0.0 else SumRange(p, end - period, end) / period as real
  }

  method BarSMA(prices: seq<real>, end: nat, period: nat) returns (r: real)
    requires 1 <= period && end <= |prices|
    ensures r == BarSma(prices, end, period)
  {
    if end < period {
      return 0.0;
    }
    var sum := 0.0;
    for i := end - period to end
      invariant sum == SumRange(prices, end - period, i)
    {
      sum := sum + prices[i];
    }
    return sum / period as real;
  }

  /** The smoothing factor. */
  function Alpha(period: nat): real {
    2.0 / (period + 1) as real
  }

  /** 0 before the seed, the mean of the first `period` prices at the seed, then smoothed. */
  function Ema(p: seq<real>, period: nat, i: nat): real
    requires 1 <= period && i < |p|
  {
    if i < period - 1 then 0.0
    else if i == period - 1 then SumRange(p, 0, period) / period as real
    else p[i] * Alpha(period) + Ema(p, period, i - 1) * (1.0 - Alpha(period))
  }

  method ComputeEMA(prices: seq<real>, period: nat) returns (ema: array<real>)
    requires 1 <= period
    ensures ema.Length == |prices|
    ensures forall i {:trigger ema[i]} :: 0 <= i < |prices| ==> ema[i] == Ema(prices, period, i)
  {
    var n := |prices|;
    ema := new real[n](_ => 0.0);
    if n < period {
      return;
    }
    var k := Alpha(period);
    var seed := 0.0;
    for i := 0 to period
      invariant seed == SumRange(prices, 0, i)
    {
      seed := seed + prices[i];
    }
    ema[period - 1] := seed / period as real;
    hide *;
    EmaSeed(prices, period, seed, ema[period - 1]);
    for i := period to n
      invariant forall j {:trigger ema[j]} :: 0 <= j < i ==> ema[j] == Ema(prices, period, j)
      invariant forall j :: i <= j < n ==> ema[j] == 0.0
    {
      var last := ema[i - 1];
      EmaStep(prices, period, i, k, last);
      ema[i] := prices[i] * k + last * (1.0 - k);
    }
  }

  lemma EmaSeed(p: seq<real>, period: nat, seed: real, first: real)
    requires 1 <= period <= |p| && seed == SumRange(p, 0, period) && first == seed / period as real
    ensures Ema(p, period, period - 1) == first
    ensures forall j :: 0 <= j < period - 1 ==> Ema(p, period, j) == 0.0
  {}

  lemma EmaStep(p: seq<real>, period: nat, i: nat, k: real, last: real)
    requires 1 <= period <= i < |p| && k == Alpha(period) && last == Ema(p, period, i - 1)
    ensures Ema(p, period, i) == p[i] * k + last * (1.0 - k)
  {}

  // ---------------------------------------------------------------- relative strength

  function Gain(p: seq<real>, i: nat): (g: real)
    requires 0 < i < |p|
    ensures g >= 0.0
  {
    if p[i] - p[i - 1] > 0.0 then p[i] - p[i - 1] else 0.0
  }

  function Loss(p: seq<real>, i: nat): (l: real)
    requires 0 < i < |p|
    ensures l >= 0.0
  {
    if p[i] - p[i - 1] > 0.0 then 0.0 else -(p[i] - p[i - 1])
  }

  /** Gains and losses, summed or averaged. */
  datatype Strength = Strength(gain: real, loss: real)

  function Total(p: seq<real>, n: nat): (s: Strength)
    requires n < |p|
    ensures s.gain >= 0.0 && s.loss >= 0.0
  {
    if n == 0 then Strength(0.0, 0.0)
    else
      var before := Total(p, n - 1);
      Strength(before.gain + Gain(p, n), before.loss + Loss(p, n))
  }

  /** Wilder's smoothing: the plain average at `period`, then a decaying one. */
  function Wilder(p: seq<real>, period: nat, i: nat): (s: Strength)
    requires 1 <= period <= i < |p|
    ensures s.gain >= 0.0 && s.loss >= 0.0
  {
    if i == period then
      Strength(Total(p, period).gain / period as real, Total(p, period).loss / period as real)
    else
      var before := Wilder(p, period, i - 1);
      Smooth(before, Gain(p, i), Loss(p, i), period)
  }

  function Smooth(s: Strength, gain: real, loss: real, period: nat): (r: Strength)
    requires 1 <= period && s.gain >= 0.0 && s.loss >= 0.0 && gain >= 0.0 && loss >= 0.0
    ensures r.gain >= 0.0 && r.loss >= 0.0
  {
    Strength((s.gain * (period - 1) as real + gain) / period as real,
             (s.loss * (period - 1) as real + loss) / period as real)
  }

  function ToRsi(s: Strength): real
    requires s.gain >= 0.0 && s.loss >= 0.0
  {
    if s.loss == 0.0 then 100.0 else 100.0 - 100.0 / (1.0 + s.gain / s.loss)
  }

  /** 0 stands for "not defined yet". */
  function Rsi(p: seq<real>, period: nat, i: nat): real
    requires 1 <= period && i < |p|
  {
    if i < period then 0.0 else ToRsi(Wilder(p, period, i))
  }

  method ComputeRSI(prices: seq<real>, period: nat) returns (rsi: array<real>)
    requires 1 <= period
    ensures rsi.Length == |prices|
    ensures forall i {:trigger rsi[i]} :: 0 <= i < |prices| ==> rsi[i] == Rsi(prices, period, i)
  {
    var n := |prices|;
    rsi := new real[n](_ => 0.0);
    if n < period + 1 {
      return;
    }
    var avgGain, avgLoss := 0.0, 0.0;
    for i := 1 to period + 1
      invariant avgGain == Total(prices, i - 1).gain && avgLoss == Total(prices, i - 1).loss
    {
      var d := prices[i] - prices[i - 1];
      if d > 0.0 {
        avgGain := avgGain + d;
      } else {
        avgLoss := avgLoss - d;
      }
    }
    avgGain := avgGain / period as real;
    avgLoss := avgLoss / period as real;
    assert Wilder(prices, period, period) == Strength(avgGain, avgLoss);
    hide Total, ToRsi, Smooth;
    rsi[period] := ToRsi(Strength(avgGain, avgLoss));
    for i := period + 1 to n
      invariant Wilder(prices, period, i - 1) == Strength(avgGain, avgLoss)
      invariant forall j {:trigger rsi[j]} :: 0 <= j < i ==> rsi[j] == Rsi(prices, period, j)
      invariant forall j :: i <= j < n ==> rsi[j] == 0.0
    {
      var d := prices[i] - prices[i - 1];
      var gain, loss := 0.0, 0.0;
      if d > 0.0 {
        gain := d;
      } else {
        loss := -d;
      }
      assert gain == Gain(prices, i) && loss == Loss(prices, i);
      ghost var g, l := avgGain, avgLoss;
      avgGain := (avgGain * (period - 1) as real + gain) / period as real;
      avgLoss := (avgLoss * (period - 1) as real + loss) / period as real;
      SmoothIs(g, l, gain, loss, period, avgGain, avgLoss);
      assert Wilder(prices, period, i) == Strength(avgGain, avgLoss);
      rsi[i] := ToRsi(Strength(avgGain, avgLoss));
    }
  }

  lemma SmoothParts(s: Strength, gain: real, loss: real, period: nat, n: real, count: real)
    requires 1 <= period && s.gain >= 0.0 && s.loss >= 0.0 && gain >= 0.0 && loss >= 0.0
    requires n == (period - 1) as real && count == period as real
    ensures Smooth(s, gain, loss, period).gain * count == s.gain * n + gain
    ensures Smooth(s, gain, loss, period).loss * count == s.loss * n + loss
  {}

  lemma SmoothIs(g: real, l: real, gain: real, loss: real, period: nat, g': real, l': real)
    requires 1 <= period && g >= 0.0 && l >= 0.0 && gain >= 0.0 && loss >= 0.0
    requires g' == (g * (period - 1) as real + gain) / period as real
    requires l' == (l * (period - 1) as real + loss) / period as real
    ensures Smooth(Strength(g, l), gain, loss, period) == Strength(g', l')
  {}

  // ---------------------------------------------------------------- Bollinger bands

  /** The sum of squared deviations from `m` over the prices in `[lo, hi)`. */
  function SquaredDeviations(p: seq<real>, lo: nat, hi: nat, m: real): real
    requires lo <= hi <= |p|
  {
    if lo == hi then 0.0
    else SquaredDeviations(p, lo, hi - 1, m) + (p[hi - 1] - m) * (p[hi - 1] - m)
  }

  function Middle(p: seq<real>, period: nat, i: nat): real
    requires 1 <= period && i < |p|
  {
    if i < period - 1 then 0.0 else BarSma(p, i + 1, period)
  }

  /** The mean square deviation of the window that ends with bar `i`. */
  function Variance(p: seq<real>, period: nat, i: nat): real
    requires 1 <= period <= i + 1 <= |p|
  {
    SquaredDeviations(p, i + 1 - period, i + 1, BarSma(p, i + 1, period)) / period as real
  }

  /** The band at `k` standard deviations from the middle; 0 before the first full window. */
  function Band(sqrt: real -> real, p: seq<real>, period: nat, k: real, i: nat): real
    requires 1 <= period && i < |p|
  {
    if i < period - 1 then 0.0 else Middle(p, period, i) + k * sqrt(Variance(p, period, i))
  }

  method ComputeBollinger(sqrt: real -> real, prices: seq<real>, period: nat, stdDevs: real)
      returns (upper: array<real>, middle: array<real>, lower: array<real>)
    requires 1 <= period
    ensures upper.Length == middle.Length == lower.Length == |prices|
    ensures forall i {:trigger upper[i]} :: 0 <= i < |prices| ==> upper[i] == Band(sqrt, prices, period, stdDevs, i)
    ensures forall i {:trigger middle[i]} :: 0 <= i < |prices| ==> middle[i] == Middle(prices, period, i)
    ensures forall i {:trigger lower[i]} :: 0 <= i < |prices| ==> lower[i] == Band(sqrt, prices, period, -stdDevs, i)
  {
    var n := |prices|;
    upper := new real[n](_ => 0.0);
    middle := new real[n](_ => 0.0);
    lower := new real[n](_ => 0.0);
    FirstBands(sqrt, prices, period, stdDevs, upper[..], middle[..], lower[..]);
    hide *;
    var i := period - 1;
    while i < n
      invariant period - 1 <= i
      invariant AreBands(sqrt, prices, period, stdDevs, upper[..], middle[..], lower[..], if i <= n then i else n)
    {
      ghost var us, ms, ls := upper[..], middle[..], lower[..];
      var u, m, l := BandsAt(sqrt, prices, period, stdDevs, i);
      middle[i] := m;
      upper[i] := u;
      lower[i] := l;
      assert upper[..] == us[i := u] && middle[..] == ms[i := m] && lower[..] == ls[i := l];
      NextBands(sqrt, prices, period, stdDevs, us, ms, ls, i, u, m, l);
      i := i + 1;
    }
    BandsInArrays(sqrt, prices, period, stdDevs, upper[..], middle[..], lower[..]);
  }

  /** The first `n` places hold the three bands. */
  ghost predicate AreBands(sqrt: real -> real, p: seq<real>, period: nat, k: real,
                           upper: seq<real>, middle: seq<real>, lower: seq<real>, n: nat)
  {
    && 1 <= period && n <= |p| == |upper| == |middle| == |lower|
    && forall j {:trigger upper[j]} {:trigger middle[j]} {:trigger lower[j]} :: 0 <= j < n ==>
         && upper[j] == Band(sqrt, p, period, k, j)
         && middle[j] == Middle(p, period, j)
         && lower[j] == Band(sqrt, p, period, -k, j)
  }

  lemma NextBands(sqrt: real -> real, p: seq<real>, period: nat, k: real,
                  upper: seq<real>, middle: seq<real>, lower: seq<real>, i: nat, u: real, m: real, l: real)
    requires AreBands(sqrt, p, period, k, upper, middle, lower, i) && i < |p|
    requires u == Band(sqrt, p, period, k, i) && m == Middle(p, period, i) && l == Band(sqrt, p, period, -k, i)
    ensures AreBands(sqrt, p, period, k, upper[i := u], middle[i := m], lower[i := l], i + 1)
  {
    hide Band, Middle;
  }

  lemma BandsInArrays(sqrt: real -> real, p: seq<real>, period: nat, k: real,
                      upper: seq<real>, middle: seq<real>, lower: seq<real>)
    requires AreBands(sqrt, p, period, k, upper, middle, lower, |p|)
    ensures forall j {:trigger upper[j]} :: 0 <= j < |p| ==> upper[j] == Band(sqrt, p, period, k, j)
    ensures forall j {:trigger middle[j]} :: 0 <= j < |p| ==> middle[j] == Middle(p, period, j)
    ensures forall j {:trigger lower[j]} :: 0 <= j < |p| ==> lower[j] == Band(sqrt, p, period, -k, j)
  {}

  /** The loop body: the three bands of the window that ends with bar `i`. */
  method BandsAt(sqrt: real -> real, prices: seq<real>, period: nat, stdDevs: real, i: nat)
      returns (upper: real, middle: real, lower: real)
    requires 1 <= period <= i + 1 <= |prices|
    ensures upper == Band(sqrt, prices, period, stdDevs, i)
    ensures middle == Middle(prices, period, i)
    ensures lower == Band(sqrt, prices, period, -stdDevs, i)
  {
    var sma := BarSMA(prices, i + 1, period);
    middle := sma;
    hide BarSma;
    var variance := 0.0;
    for j := i + 1 - period to i + 1
      invariant variance == SquaredDeviations(prices, i + 1 - period, j, sma)
    {
      var d := prices[j] - sma;
      SquareStep(prices, i + 1 - period, j, sma, d);
      variance := variance + d * d;
    }
    var std := sqrt(variance / period as real);
    BandIs(sqrt, prices, period, stdDevs, i, sma, std);
    BandIs(sqrt, prices, period, -stdDevs, i, sma, std);
    upper := sma + stdDevs * std;
    lower := sma - stdDevs * std;
  }

  lemma SquareStep(p: seq<real>, lo: nat, j: nat, m: real, d: real)
    requires lo <= j < |p| && d == p[j] - m
    ensures SquaredDeviations(p, lo, j + 1, m) == SquaredDeviations(p, lo, j, m) + d * d
  {}

  lemma BandIs(sqrt: real -> real, p: seq<real>, period: nat, k: real, i: nat, sma: real, std: real)
    requires 1 <= period <= i + 1 <= |p| && sma == BarSma(p, i + 1, period) && std == sqrt(Variance(p, period, i))
    ensures Middle(p, period, i) == sma && Band(sqrt, p, period, k, i) == sma + k * std
  {
    hide BarSma, Variance;
  }

  /** Before the first full window all three are 0. */
  lemma FirstBands(sqrt: real -> real, p: seq<real>, period: nat, k: real,
                   upper: seq<real>, middle: seq<real>, lower: seq<real>)
    requires 1 <= period && |p| == |upper| == |middle| == |lower|
    requires forall j :: 0 <= j < |p| ==> upper[j] == middle[j] == lower[j] == 0.0
    ensures AreBands(sqrt, p, period, k, upper, middle, lower, if period - 1 <= |p| then period - 1 else |p|)
  {}
}
