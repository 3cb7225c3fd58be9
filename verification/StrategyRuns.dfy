/** cmd/dashboard/backtest.go: the four backtest loops, proved against the bar-by-bar decisions. */
module StrategyRuns {
  import opened Backtest
  import opened Indicators
  import opened Pearson
  import opened Strategies

  /** The part of the run a loop has built so far. */
  ghost predicate Traded(sqrt: real -> real, s: Strategy, p: seq<real>, m: nat, events: seq<TradeEvent>,
                         inPosition: bool) {
    && s.Ok() && m <= |p|
    && Trade(sqrt, s, p, m).0 == events
    && Trade(sqrt, s, p, m).1.held == inPosition
  }

  /** One more bar, for the strategies that do not look at the entry bar. */
  lemma Continues(sqrt: real -> real, s: Strategy, p: seq<real>, i: nat, events: seq<TradeEvent>, inPosition: bool,
                  pos: Position)
    requires s.Ok() && !s.Breakout? && s.Warmup() <= i < |p| && Traded(sqrt, s, p, i, events, inPosition)
    requires pos.held == inPosition
    ensures var kind := Decide(sqrt, s, p, pos, i);
            && (kind == Hold ==> Traded(sqrt, s, p, i + 1, events, inPosition))
            && (kind != Hold ==> Traded(sqrt, s, p, i + 1, events + [TradeEvent(i, p[i], kind)], kind == Buy))
  {
    SamePosition(sqrt, s, p, Trade(sqrt, s, p, i).1, pos, i);
    hide Decide;
  }

  lemma SamePosition(sqrt: real -> real, s: Strategy, p: seq<real>, a: Position, b: Position, i: nat)
    requires s.Ok() && !s.Breakout? && s.Warmup() <= i < |p| && a.held == b.held
    ensures Decide(sqrt, s, p, a, i) == Decide(sqrt, s, p, b, i)
  {
    hide Above, Rsi, Band, Middle;
  }

  method MovingAverages(closes: seq<real>, fast: nat, slow: nat, useEMA: bool)
      returns (fastMA: array<real>, slowMA: array<real>)
    requires 1 <= fast && 1 <= slow
    ensures fastMA.Length == slowMA.Length == |closes|
    ensures forall i {:trigger fastMA[i]} :: slow <= i < |closes| ==> fastMA[i] == Average(closes, useEMA, fast, i)
    ensures forall i {:trigger slowMA[i]} :: slow <= i < |closes| ==> slowMA[i] == Average(closes, useEMA, slow, i)
  {
    var n := |closes|;
    if useEMA {
      fastMA := ComputeEMA(closes, fast);
      slowMA := ComputeEMA(closes, slow);
    } else {
      fastMA := new real[n](_ => 0.0);
      slowMA := new real[n](_ => 0.0);
      hide BarSma;
      var i := slow;
      while i < n
        invariant slow <= i
        invariant forall j {:trigger fastMA[j]} :: slow <= j < i && j < n ==> fastMA[j] == BarSma(closes, j + 1, fast)
        invariant forall j {:trigger slowMA[j]} :: slow <= j < i && j < n ==> slowMA[j] == BarSma(closes, j + 1, slow)
      {
        var f := BarSMA(closes, i + 1, fast);
        var s := BarSMA(closes, i + 1, slow);
        fastMA[i] := f;
        slowMA[i] := s;
        i := i + 1;
      }
    }
  }

  method RunCrossover(sqrt: real -> real, closes: seq<real>, fast: nat, slow: nat, forwardDays: nat, useEMA: bool)
      returns (r: BacktestResult)
    requires IsSqrt(sqrt) && Priced(closes) && 1 <= fast && 1 <= slow
    ensures r == Backtested(sqrt, Crossover(fast, slow, useEMA), closes, forwardDays)
  {
    var n := |closes|;
    if n < slow + 2 {
      return NotEnoughData(slow + 2, n);
    }
    var fastMA, slowMA := MovingAverages(closes, fast, slow, useEMA);
    ghost var strategy := Crossover(fast, slow, useEMA);
    var events: seq<TradeEvent> := [];
    var inPosition := false;
    hide Average, Summary, IsSqrt, Priced, Trade;
    StartsFlat(sqrt, strategy, closes);
    for i := slow + 1 to n
      invariant Traded(sqrt, strategy, closes, i, events, inPosition)
      modifies {}
    {
      var prevAbove := fastMA[i - 1] > slowMA[i - 1];
      var currAbove := fastMA[i] > slowMA[i];
      Continues(sqrt, strategy, closes, i, events, inPosition, Position(inPosition, 0));
      CrossoverDecision(sqrt, strategy, closes, Position(inPosition, 0), i, prevAbove, currAbove);
      hide Traded, Decide;
      if !prevAbove && currAbove && !inPosition {
        inPosition := true;
        events := events + [TradeEvent(i, closes[i], Buy)];
      } else if prevAbove && !currAbove && inPosition {
        inPosition := false;
        events := events + [TradeEvent(i, closes[i], Sell)];
      }
    }
    ReportIs(sqrt, strategy, closes, events, inPosition, forwardDays);
    hide Backtested, Traded, OnBars;
    r := ComputeResult(sqrt, events, closes, slow + 1, forwardDays);
  }

  lemma CrossoverDecision(sqrt: real -> real, s: Strategy, p: seq<real>, pos: Position, i: nat, prev: bool, curr: bool)
    requires s.Crossover? && s.Ok() && s.Warmup() <= i < |p|
    requires prev == (Average(p, s.useEMA, s.fast, i - 1) > Average(p, s.useEMA, s.slow, i - 1))
    requires curr == (Average(p, s.useEMA, s.fast, i) > Average(p, s.useEMA, s.slow, i))
    ensures Decide(sqrt, s, p, pos, i)
            == if !prev && curr && !pos.held then Buy else if prev && !curr && pos.held then Sell else Hold
  {
    hide Average;
  }

  lemma RsiDecision(sqrt: real -> real, s: Strategy, p: seq<real>, pos: Position, i: nat, rsi: real)
    requires s.MeanReversion? && s.Ok() && s.Warmup() <= i < |p| && rsi == Rsi(p, s.period, i)
    ensures Decide(sqrt, s, p, pos, i)
            == if rsi == 0.0 then Hold
               else if rsi < s.oversold && !pos.held then Buy
               else if rsi > s.overbought && pos.held then Sell
               else Hold
  {
    hide Rsi;
  }

  lemma BandDecision(sqrt: real -> real, s: Strategy, p: seq<real>, pos: Position, i: nat, lower: real, middle: real)
    requires s.Bollinger? && s.Ok() && s.Warmup() <= i < |p|
    requires lower == Band(sqrt, p, s.period, -s.stdDevs, i) && middle == Middle(p, s.period, i)
    ensures Decide(sqrt, s, p, pos, i)
            == if lower == 0.0 then Hold
               else if p[i] < lower && !pos.held then Buy
               else if p[i] > middle && pos.held then Sell
               else Hold
  {
    hide Band, Middle;
  }

  /** After the last bar the events are those of the whole backtest. */
  lemma ReportIs(sqrt: real -> real, s: Strategy, p: seq<real>, events: seq<TradeEvent>, inPosition: bool, ahead: nat)
    requires IsSqrt(sqrt) && s.Ok() && Priced(p) && |p| >= s.Warmup() + 1
    requires Traded(sqrt, s, p, |p|, events, inPosition)
    ensures OnBars(events, p) && Backtested(sqrt, s, p, ahead) == Summary(sqrt, events, p, s.Warmup(), ahead)
  {
    hide Trade, Summary, IsSqrt, Priced, OnBars;
    TradesAreOnBars(sqrt, s, p);
  }

  lemma StartsFlat(sqrt: real -> real, s: Strategy, p: seq<real>)
    requires s.Ok() && s.Warmup() <= |p|
    ensures Traded(sqrt, s, p, s.Warmup(), [], false)
  {}

  method RunRSI(sqrt: real -> real, closes: seq<real>, period: nat, oversold: real, overbought: real, forwardDays: nat)
      returns (r: BacktestResult)
    requires IsSqrt(sqrt) && Priced(closes) && 1 <= period
    ensures r == Backtested(sqrt, MeanReversion(period, oversold, overbought), closes, forwardDays)
  {
    var n := |closes|;
    if n < period + 2 {
      return NotEnoughData(period + 2, n);
    }
    var rsi := ComputeRSI(closes, period);
    ghost var strategy := MeanReversion(period, oversold, overbought);
    var events: seq<TradeEvent> := [];
    var inPosition := false;
    hide Rsi, Summary, IsSqrt, Priced, Trade;
    StartsFlat(sqrt, strategy, closes);
    for i := period + 1 to n
      invariant Traded(sqrt, strategy, closes, i, events, inPosition)
      modifies {}
    {
      Continues(sqrt, strategy, closes, i, events, inPosition, Position(inPosition, 0));
      RsiDecision(sqrt, strategy, closes, Position(inPosition, 0), i, rsi[i]);
      hide Traded, Decide;
      if rsi[i] == 0.0 {
        continue;
      }
      if rsi[i] < oversold && !inPosition {
        inPosition := true;
        events := events + [TradeEvent(i, closes[i], Buy)];
      } else if rsi[i] > overbought && inPosition {
        inPosition := false;
        events := events + [TradeEvent(i, closes[i], Sell)];
      }
    }
    ReportIs(sqrt, strategy, closes, events, inPosition, forwardDays);
    hide Backtested, Traded, OnBars;
    r := ComputeResult(sqrt, events, closes, period + 1, forwardDays);
  }

  method RunBollinger(sqrt: real -> real, closes: seq<real>, period: nat, stdDevs: real, forwardDays: nat)
      returns (r: BacktestResult)
    requires IsSqrt(sqrt) && Priced(closes) && 1 <= period
    ensures r == Backtested(sqrt, Bollinger(period, stdDevs), closes, forwardDays)
  {
    var n := |closes|;
    if n < period + 1 {
      return NotEnoughData(period + 1, n);
    }
    var _, middle, lower := ComputeBollinger(sqrt, closes, period, stdDevs);
    ghost var strategy := Bollinger(period, stdDevs);
    var events: seq<TradeEvent> := [];
    var inPosition := false;
    hide Band, Middle, Summary, IsSqrt, Priced, Trade;
    StartsFlat(sqrt, strategy, closes);
    for i := period to n
      invariant Traded(sqrt, strategy, closes, i, events, inPosition)
      modifies {}
    {
      Continues(sqrt, strategy, closes, i, events, inPosition, Position(inPosition, 0));
      BandDecision(sqrt, strategy, closes, Position(inPosition, 0), i, lower[i], middle[i]);
      hide Traded, Decide;
      if lower[i] == 0.0 {
        continue;
      }
      if closes[i] < lower[i] && !inPosition {
        inPosition := true;
        events := events + [TradeEvent(i, closes[i], Buy)];
      } else if closes[i] > middle[i] && inPosition {
        inPosition := false;
        events := events + [TradeEvent(i, closes[i], Sell)];
      }
    }
    ReportIs(sqrt, strategy, closes, events, inPosition, forwardDays);
    hide Backtested, Traded, OnBars;
    r := ComputeResult(sqrt, events, closes, period, forwardDays);
  }

  method MaxBefore(closes: seq<real>, i: nat, lookback: nat) returns (maxClose: real)
    requires lookback <= i < |closes|
    ensures maxClose == Highest(closes, i - lookback, i)
  {
    maxClose := closes[i - lookback];
    var j := i - lookback + 1;
    while j < i
      invariant i - lookback + 1 <= j
      invariant j <= i || lookback == 0
      invariant maxClose == Highest(closes, i - lookback, if j <= i then j else i)
    {
      if closes[j] > maxClose {
        maxClose := closes[j];
      }
      j := j + 1;
    }
  }

  method RunBreakout(sqrt: real -> real, closes: seq<real>, lookback: nat, holdBars: int, forwardDays: nat)
      returns (r: BacktestResult)
    requires IsSqrt(sqrt) && Priced(closes)
    ensures r == Backtested(sqrt, Breakout(lookback, holdBars), closes, forwardDays)
  {
    var n := |closes|;
    if n < lookback + 1 {
      return NotEnoughData(lookback + 1, n);
    }
    ghost var strategy := Breakout(lookback, holdBars);
    var events: seq<TradeEvent> := [];
    var inPosition := false;
    var entryBar := 0;
    hide Highest, Summary, IsSqrt, Priced;
    for i := lookback to n
      invariant Trade(sqrt, strategy, closes, i) == (events, Position(inPosition, entryBar))
    {
      if inPosition {
        if i >= entryBar + holdBars {
          inPosition := false;
          events := events + [TradeEvent(i, closes[i], Sell)];
        }
        continue;
      }
      var maxClose := MaxBefore(closes, i, lookback);
      if closes[i] > maxClose {
        inPosition := true;
        entryBar := i;
        events := events + [TradeEvent(i, closes[i], Buy)];
      }
    }
    TradesAreOnBars(sqrt, strategy, closes);
    r := ComputeResult(sqrt, events, closes, lookback, forwardDays);
  }
}
