/** cmd/dashboard/backtest.go: what the strategies hold and trade, read off the indicators bar by bar. */
module StrategyReading {
  import opened Backtest
  import opened Common
  import opened Indicators
  import opened LiveAgreement
  import opened LiveSignals
  import opened Pearson
  import opened Strategies

  // ---------------------------------------------------------------- events

  /** An event lies exactly on the bars that change the position, at their close. */
  lemma EventsAreTurns(sqrt: real -> real, s: Strategy, p: seq<real>, m: nat)
    requires s.Ok() && m < |p|
    ensures var (before, after) := (Trade(sqrt, s, p, m), Trade(sqrt, s, p, m + 1));
            var held, held' := before.1.held, after.1.held;
            after.0 == before.0 + if held' != held then [TradeEvent(m, p[m], if held' then Buy else Sell)] else []
  {
    var before := Trade(sqrt, s, p, m);
    if m < s.Warmup() {
      NothingTraded(sqrt, s, p, m);
      NothingTraded(sqrt, s, p, m + 1);
      hide Trade;
    } else {
      TradeStep(sqrt, s, p, m + 1);
      DecideRespectsPosition(sqrt, s, p, before.1, m);
      hide Trade, Decide;
      assert before.0 + [] == before.0;
    }
  }

  // ---------------------------------------------------------------- crossover

  /** The average of the last bars, exponential or simple; 0 while there are too few. */
  function AverageOf(p: seq<real>, exponential: bool, period: nat, i: nat): real
    requires 1 <= period && i < |p|
  {
    if i + 1 < period then 0.0
    else if exponential then Ema(p, period, i)
    else BarSma(p, i + 1, period)
  }

  /** A crossover holds when the fast average lies above the slow one and at some bar since `slow` did not. */
  lemma CrossoverHeldIff(sqrt: real -> real, fast: nat, slow: nat, useEMA: bool, p: seq<real>, i: nat)
    requires 1 <= fast && 1 <= slow <= i < |p|
    ensures Trade(sqrt, Crossover(fast, slow, useEMA), p, i + 1).1.held
            <==> && AverageOf(p, useEMA, fast, i) > AverageOf(p, useEMA, slow, i)
                 && exists j: nat :: slow <= j <= i && AverageOf(p, useEMA, fast, j) <= AverageOf(p, useEMA, slow, j)
  {
    var s := Crossover(fast, slow, useEMA);
    HeldIff(sqrt, s, p, i);
    forall j: nat | slow <= j <= i
      ensures Above(p, s, j) <==> AverageOf(p, useEMA, fast, j) > AverageOf(p, useEMA, slow, j)
    {
      hide SumRange;
    }
    hide Above, AverageOf, Trade;
  }

  // ---------------------------------------------------------------- RSI and Bollinger

  /** A value below the level at which the strategy buys. */
  predicate Low(sqrt: real -> real, s: Strategy, p: seq<real>, i: nat)
    requires s.Ok() && (s.MeanReversion? || s.Bollinger?) && i < |p|
  {
    if s.MeanReversion? then Rsi(p, s.period, i) != 0.0 && Rsi(p, s.period, i) < s.oversold
    else Band(sqrt, p, s.period, -s.stdDevs, i) != 0.0 && p[i] < Band(sqrt, p, s.period, -s.stdDevs, i)
  }

  /** A value above the level at which it sells. */
  predicate High(sqrt: real -> real, s: Strategy, p: seq<real>, i: nat)
    requires s.Ok() && (s.MeanReversion? || s.Bollinger?) && i < |p|
  {
    if s.MeanReversion? then Rsi(p, s.period, i) != 0.0 && Rsi(p, s.period, i) > s.overbought
    else Band(sqrt, p, s.period, -s.stdDevs, i) != 0.0 && p[i] > Middle(p, s.period, i)
  }

  /** The two levels are in order: the thresholds of RSI by choice, the bands by themselves. */
  ghost predicate InOrder(sqrt: real -> real, s: Strategy, p: seq<real>) {
    if s.MeanReversion? then s.oversold <= s.overbought
    else s.Bollinger? && s.stdDevs >= 0.0 && IsSqrt(sqrt) && Priced(p)
  }

  lemma NotBoth(sqrt: real -> real, s: Strategy, p: seq<real>, i: nat)
    requires s.Ok() && (s.MeanReversion? || s.Bollinger?) && s.Warmup() <= i < |p| && InOrder(sqrt, s, p)
    ensures !(Low(sqrt, s, p, i) && High(sqrt, s, p, i))
  {
    if s.Bollinger? {
      BandsAreOrdered(sqrt, p, s.period, s.stdDevs, i);
    }
    hide IsSqrt, Priced, Band, Middle, Rsi;
  }

  lemma DecideTurns(sqrt: real -> real, s: Strategy, p: seq<real>, pos: Position, i: nat)
    requires s.Ok() && (s.MeanReversion? || s.Bollinger?) && s.Warmup() <= i < |p|
    requires !(Low(sqrt, s, p, i) && High(sqrt, s, p, i))
    ensures Act(pos, Decide(sqrt, s, p, pos, i), i).held
            <==> Low(sqrt, s, p, i) || (pos.held && !High(sqrt, s, p, i))
  {
    hide Band, Middle, Rsi;
  }

  /** The first bar on which the strategy may act: one later for RSI than for the bands. */
  function First(s: Strategy): nat
    requires s.MeanReversion? || s.Bollinger?
  {
    if s.MeanReversion? then s.period + 1 else s.period
  }

  /** Some bar before `m` was low, and none since was high. */
  ghost predicate LowSince(sqrt: real -> real, s: Strategy, p: seq<real>, m: nat)
    requires s.Ok() && (s.MeanReversion? || s.Bollinger?) && m <= |p|
  {
    exists j: nat :: First(s) <= j < m && Low(sqrt, s, p, j) && NoneHigh(sqrt, s, p, j, m)
  }

  ghost predicate NoneHigh(sqrt: real -> real, s: Strategy, p: seq<real>, j: nat, m: nat)
    requires s.Ok() && (s.MeanReversion? || s.Bollinger?) && m <= |p|
  {
    forall k: nat :: j < k < m ==> !High(sqrt, s, p, k)
  }

  lemma LowSinceStep(sqrt: real -> real, s: Strategy, p: seq<real>, m: nat)
    requires s.Ok() && (s.MeanReversion? || s.Bollinger?) && s.Warmup() < m <= |p|
    ensures LowSince(sqrt, s, p, m)
            <==> Low(sqrt, s, p, m - 1) || (LowSince(sqrt, s, p, m - 1) && !High(sqrt, s, p, m - 1))
  {
    hide Low, High;
    forall j: nat | j < m - 1
      ensures NoneHigh(sqrt, s, p, j, m) <==> NoneHigh(sqrt, s, p, j, m - 1) && !High(sqrt, s, p, m - 1)
    {}
    assert NoneHigh(sqrt, s, p, m - 1, m);
    hide NoneHigh;
  }

  /** RSI and Bollinger hold exactly when some bar was low and no bar since was high. */
  lemma {:induction false} HeldSinceLow(sqrt: real -> real, s: Strategy, p: seq<real>, m: nat)
    requires s.Ok() && (s.MeanReversion? || s.Bollinger?) && InOrder(sqrt, s, p) && m <= |p|
    ensures Trade(sqrt, s, p, m).1.held <==> LowSince(sqrt, s, p, m)
  {
    hide *;
    if m > s.Warmup() {
      HeldSinceLow(sqrt, s, p, m - 1);
      var run := Trade(sqrt, s, p, m - 1);
      TradeStep(sqrt, s, p, m);
      ExtendActs(run, Decide(sqrt, s, p, run.1, m - 1), p, m - 1);
      NotBoth(sqrt, s, p, m - 1);
      DecideTurns(sqrt, s, p, run.1, m - 1);
      LowSinceStep(sqrt, s, p, m);
    } else {
      NeverLow(sqrt, s, p, m);
    }
  }

  lemma NeverLow(sqrt: real -> real, s: Strategy, p: seq<real>, m: nat)
    requires s.Ok() && (s.MeanReversion? || s.Bollinger?) && m <= s.Warmup() && m <= |p|
    ensures !Trade(sqrt, s, p, m).1.held && !LowSince(sqrt, s, p, m)
  {
    hide Low;
  }

  // ---------------------------------------------------------------- breakout

  /** What a breakout must exceed: a close of the lookback that no other exceeds. */
  lemma {:induction false} HighestIsMaximum(p: seq<real>, lo: nat, hi: nat) returns (at: nat)
    requires lo < hi <= |p|
    ensures lo <= at < hi && p[at] == Highest(p, lo, hi)
    ensures forall j :: lo <= j < hi ==> p[j] <= Highest(p, lo, hi)
  {
    at := lo;
    if hi > lo + 1 {
      at := HighestIsMaximum(p, lo, hi - 1);
      if p[hi - 1] > Highest(p, lo, hi - 1) {
        at := hi - 1;
      }
    }
  }

  // ---------------------------------------------------------------- live signals

  /** The last bar whose RSI is not the sentinel 0. */
  ghost predicate LastDefined(p: seq<real>, period: nat, n: nat, j: nat)
    requires 1 <= period && n <= |p|
  {
    j < n && Rsi(p, period, j) != 0.0 && forall k: nat :: j < k < n ==> Rsi(p, period, k) == 0.0
  }

  lemma {:induction false} LastRsiAt(p: seq<real>, period: nat, n: nat, j: nat)
    requires 1 <= period && n <= |p| && LastDefined(p, period, n, j)
    ensures LastRsi(p, period, n) == Rsi(p, period, j)
  {
    hide Rsi;
    if j < n - 1 {
      assert LastDefined(p, period, n - 1, j);
      LastRsiAt(p, period, n - 1, j);
    }
  }

  lemma {:induction false} FindLast(p: seq<real>, period: nat, n: nat) returns (j: nat)
    requires 1 <= period && n <= |p| && LastRsi(p, period, n) != 0.0
    ensures LastDefined(p, period, n, j)
  {
    hide Rsi;
    if Rsi(p, period, n - 1) != 0.0 {
      j := n - 1;
    } else {
      j := FindLast(p, period, n - 1);
    }
  }

  /** A live RSI session is told the side of the last RSI that is not 0. */
  lemma LiveRsiIff(sqrt: real -> real, period: nat, oversold: real, overbought: real, p: seq<real>)
    requires 1 <= period
    ensures var want := Live(sqrt, MeanReversion(period, oversold, overbought), p);
            && (want == Buy <==> exists j: nat :: LastDefined(p, period, |p|, j) && Rsi(p, period, j) < oversold)
            && (want == Sell <==> exists j: nat :: LastDefined(p, period, |p|, j) && Rsi(p, period, j) >= oversold
                                                   && Rsi(p, period, j) > overbought)
  {
    forall j: nat | LastDefined(p, period, |p|, j)
      ensures LastRsi(p, period, |p|) == Rsi(p, period, j) != 0.0
    {
      LastRsiAt(p, period, |p|, j);
    }
    if LastRsi(p, period, |p|) != 0.0 {
      var j := FindLast(p, period, |p|);
    }
    hide LastRsi, Rsi, LastDefined;
  }

  /** A live crossover session, which of its averages is on top, once both exist. */
  lemma LiveCrossoverIff(sqrt: real -> real, fast: nat, slow: nat, useEMA: bool, p: seq<real>)
    requires 1 <= fast && 1 <= slow
    ensures var want := Live(sqrt, Crossover(fast, slow, useEMA), p);
            if |p| <= slow then want == Hold
            else if AverageOf(p, useEMA, fast, |p| - 1) > AverageOf(p, useEMA, slow, |p| - 1) then want == Buy
            else want == Sell
  {
    hide SumRange;
  }

  /** A live Bollinger session: below a positive lower band, above the middle, or neither. */
  lemma LiveBollingerIff(sqrt: real -> real, period: nat, k: real, p: seq<real>)
    requires IsSqrt(sqrt) && 1 <= period <= |p| && k >= 0.0 && Priced(p)
    ensures var want, i := Live(sqrt, Bollinger(period, k), p), |p| - 1;
            var low := Band(sqrt, p, period, -k, i);
            && (want == Buy <==> low > 0.0 && p[i] < low)
            && (want == Sell <==> p[i] > Middle(p, period, i))
  {
    BandsAreOrdered(sqrt, p, period, k, |p| - 1);
    hide IsSqrt, Priced, Band, Middle;
  }

  /** A live breakout session is told to buy when the last close exceeds every close of the lookback, else nothing. */
  lemma LiveBreakoutIff(sqrt: real -> real, lookback: nat, holdBars: int, p: seq<real>)
    requires 1 <= lookback
    ensures var want := Live(sqrt, Breakout(lookback, holdBars), p);
            && want != Sell
            && (want == Buy
                <==> lookback < |p| && forall j :: |p| - 1 - lookback <= j < |p| - 1 ==> p[|p| - 1] > p[j])
  {
    if lookback < |p| {
      var at := HighestIsMaximum(p, |p| - 1 - lookback, |p| - 1);
    }
  }
}
