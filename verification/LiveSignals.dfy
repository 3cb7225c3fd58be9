/** cmd/dashboard/livestrategy.go: the signal a live session reads off the most recent closes. */
module LiveSignals {
  import opened Indicators
  import opened Strategies

  // ---------------------------------------------------------------- what the signals mean

  /** Which side of its two thresholds an RSI lies on; 0 is no RSI. */
  function Classify(rsi: real, oversold: real, overbought: real): Signal {
    if rsi == 0.0 then Hold else if rsi < oversold then Buy else if rsi > overbought then Sell else Hold
  }

  /** The last RSI before bar `n` that is not 0; 0 when there is none. */
  function LastRsi(p: seq<real>, period: nat, n: nat): real
    requires 1 <= period && n <= |p|
  {
    if n == 0 then 0.0
    else if Rsi(p, period, n - 1) != 0.0 then Rsi(p, period, n - 1)
    else LastRsi(p, period, n - 1)
  }

  /** Where bar `i` lies against its bands. */
  function Banded(sqrt: real -> real, p: seq<real>, period: nat, k: real, i: nat): Signal
    requires 1 <= period && i < |p|
  {
    var lower, upper := Band(sqrt, p, period, -k, i), Band(sqrt, p, period, k, i);
    if lower > 0.0 && p[i] < lower then Buy
    else if upper > 0.0 && p[i] > Middle(p, period, i) then Sell
    else Hold
  }

  /** Which average is on top on bar `i`, once both exist. */
  function Side(p: seq<real>, s: Strategy, i: nat): Signal
    requires s.Crossover? && s.Ok() && i < |p|
  {
    if i < s.slow then Hold else if Above(p, s, i) then Buy else Sell
  }

  /**
   * The live signal on the closes `p`, the last of them the current price; only Bollinger needs one. A
   * series too short for the strategy, the empty one included, gives no signal.
   */
  function Live(sqrt: real -> real, s: Strategy, p: seq<real>): Signal
    requires s.Ok() && (s.Bollinger? ==> p != [])
  {
    var n := |p|;
    match s
    case Crossover(_, slow, _) => if n < slow + 1 then Hold else Side(p, s, n - 1)
    case MeanReversion(period, oversold, overbought) => Classify(LastRsi(p, period, n), oversold, overbought)
    case Bollinger(period, k) => Banded(sqrt, p, period, k, n - 1)
    case Breakout(lookback, _) =>
      if n < lookback + 1 then Hold
      else if p[n - 1] > Highest(p, n - 1 - lookback, n - 1) then Buy
      else Hold
  }

  // ---------------------------------------------------------------- the programs

  method LiveSignalCrossover(sqrt: real -> real, closes: seq<real>, fast: nat, slow: nat, useEMA: bool)
        returns (r: Signal)
    requires 1 <= fast && 1 <= slow
    ensures r == Live(sqrt, Crossover(fast, slow, useEMA), closes)
  {
    var n := |closes|;
    if n < slow + 1 {
      return Hold;
    }
    hide Ema, BarSma;
    var f, s;
    if useEMA {
      var fe := ComputeEMA(closes, fast);
      var se := ComputeEMA(closes, slow);
      f, s := fe[n - 1], se[n - 1];
    } else {
      f := BarSMA(closes, n, fast);
      s := BarSMA(closes, n, slow);
    }
    return if f > s then Buy else Sell;
  }

  method LiveSignalRSI(sqrt: real -> real, closes: seq<real>, period: nat, oversold: real, overbought: real)
        returns (r: Signal)
    requires 1 <= period
    ensures r == Live(sqrt, MeanReversion(period, oversold, overbought), closes)
  {
    var rsi := ComputeRSI(closes, period);
    hide Rsi;
    var i := rsi.Length;
    while i > 0
      invariant 0 <= i <= |closes|
      invariant LastRsi(closes, period, |closes|) == LastRsi(closes, period, i)
    {
      i := i - 1;
      if rsi[i] == 0.0 {
        continue;
      }
      if rsi[i] < oversold {
        return Buy;
      }
      if rsi[i] > overbought {
        return Sell;
      }
      return Hold;
    }
    return Hold;
  }

  /** The source indexes the last close: callers pass at least one. */
  method LiveSignalBollinger(sqrt: real -> real, closes: seq<real>, period: nat, stdDevs: real) returns (r: Signal)
    requires 1 <= period && closes != []
    ensures r == Live(sqrt, Bollinger(period, stdDevs), closes)
  {
    hide Band, Middle;
    var upper, middle, lower := ComputeBollinger(sqrt, closes, period, stdDevs);
    var n := |closes|;
    var last := closes[n - 1];
    if lower[n - 1] > 0.0 && last < lower[n - 1] {
      return Buy;
    }
    if upper[n - 1] > 0.0 && last > middle[n - 1] {
      return Sell;
    }
    return Hold;
  }

  method LiveSignalBreakout(sqrt: real -> real, closes: seq<real>, lookback: nat, holdBars: int) returns (r: Signal)
    ensures r == Live(sqrt, Breakout(lookback, holdBars), closes)
  {
    var n := |closes|;
    if n < lookback + 1 {
      return Hold;
    }
    var maxClose := closes[n - lookback - 1];
    var i := n - lookback;
    while i < n - 1
      invariant n - lookback <= i
      invariant maxClose == Highest(closes, n - 1 - lookback, if i <= n - 1 then i else n - 1)
    {
      if closes[i] > maxClose {
        maxClose := closes[i];
      }
      i := i + 1;
    }
    return if closes[n - 1] > maxClose then Buy else Hold;
  }

  /** The strategies a session can be started with, other than custom code. */
  datatype Name = SmaCrossover | EmaCrossover | RsiMeanReversion | BollingerBands | BreakoutHigh | Unknown

  /** Live sessions run with fixed parameters; a breakout session has no holding period. */
  method ComputeLiveSignal(sqrt: real -> real, name: Name, closes: seq<real>) returns (r: Signal)
    requires name.BollingerBands? ==> closes != []
    ensures r == match name
                 case SmaCrossover => Live(sqrt, Crossover(9, 21, false), closes)
                 case EmaCrossover => Live(sqrt, Crossover(9, 21, true), closes)
                 case RsiMeanReversion => Live(sqrt, MeanReversion(14, 30.0, 70.0), closes)
                 case BollingerBands => Live(sqrt, Bollinger(20, 2.0), closes)
                 case BreakoutHigh => Live(sqrt, Breakout(20, 0), closes)
                 case Unknown => Hold
  {
    hide Live;
    match name {
      case SmaCrossover => r := LiveSignalCrossover(sqrt, closes, 9, 21, false);
      case EmaCrossover => r := LiveSignalCrossover(sqrt, closes, 9, 21, true);
      case RsiMeanReversion => r := LiveSignalRSI(sqrt, closes, 14, 30.0, 70.0);
      case BollingerBands => r := LiveSignalBollinger(sqrt, closes, 20, 2.0);
      case BreakoutHigh => r := LiveSignalBreakout(sqrt, closes, 20, 0);
      case Unknown => r := Hold;
    }
  }
}
