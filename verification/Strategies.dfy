/** cmd/dashboard/backtest.go: the four strategies as decisions taken bar by bar. */
module Strategies {
  import opened Indicators

  datatype Strategy =
    | Crossover(fast: nat, slow: nat, useEMA: bool)
    | MeanReversion(period: nat, oversold: real, overbought: real)
    | Bollinger(period: nat, stdDevs: real)
    | Breakout(lookback: nat, holdBars: int)
  {
    /** Averaging periods are at least one bar. */
    predicate Ok() {
      match this
      case Crossover(fast, slow, _) => 1 <= fast && 1 <= slow
      case MeanReversion(period, _, _) => 1 <= period
      case Bollinger(period, _) => 1 <= period
      case Breakout(_, _) => true
    }

    /** The first bar on which the strategy may act. */
    function Warmup(): nat {
      match this
      case Crossover(_, slow, _) => slow + 1
      case MeanReversion(period, _, _) => period + 1
      case Bollinger(period, _) => period
      case Breakout(lookback, _) => lookback
    }
  }

  /** What a strategy or a live signal asks for. */
  datatype Signal = Buy | Sell | Hold

  datatype Position = Position(held: bool, entryBar: nat)

  const FLAT := Position(false, 0)

  datatype TradeEvent = TradeEvent(bar: nat, price: real, kind: Signal)

  // ---------------------------------------------------------------- decisions

  function Average(p: seq<real>, useEMA: bool, period: nat, i: nat): real
    requires 1 <= period && i < |p|
  {
    if useEMA then Ema(p, period, i) else BarSma(p, i + 1, period)
  }

  /** The fast average lies above the slow one. */
  predicate Above(p: seq<real>, s: Strategy, i: nat)
    requires s.Crossover? && s.Ok() && i < |p|
  {
    Average(p, s.useEMA, s.fast, i) > Average(p, s.useEMA, s.slow, i)
  }

  /** The largest price in `[lo, hi)`, never below the one at `lo`. */
  function Highest(p: seq<real>, lo: nat, hi: nat): real
    requires lo < |p| && lo <= hi <= |p|
  {
    if hi <= lo + 1 then p[lo]
    else
      var m := Highest(p, lo, hi - 1);
      if p[hi - 1] > m then p[hi - 1] else m
  }

  /** The action on bar `i`, given the position so far. */
  function Decide(sqrt: real -> real, s: Strategy, p: seq<real>, pos: Position, i: nat): Signal
    requires s.Ok() && s.Warmup() <= i < |p|
  {
    match s
    case Crossover(_, _, _) =>
      if !Above(p, s, i - 1) && Above(p, s, i) && !pos.held then Buy
      else if Above(p, s, i - 1) && !Above(p, s, i) && pos.held then Sell
      else Hold
    case MeanReversion(period, oversold, overbought) =>
      var rsi := Rsi(p, period, i);
      if rsi == 0.0 then Hold
      else if rsi < oversold && !pos.held then Buy
      else if rsi > overbought && pos.held then Sell
      else Hold
    case Bollinger(period, k) =>
      var lower := Band(sqrt, p, period, -k, i);
      if lower == 0.0 then Hold
      else if p[i] < lower && !pos.held then Buy
      else if p[i] > Middle(p, period, i) && pos.held then Sell
      else Hold
    case Breakout(lookback, holdBars) =>
      if pos.held then if i >= pos.entryBar + holdBars then Sell else Hold
      else if p[i] > Highest(p, i - lookback, i) then Buy
      else Hold
  }

  function Act(pos: Position, kind: Signal, i: nat): Position {
    match kind
    case Buy => Position(true, i)
    case Sell => pos.(held := false)
    case Hold => pos
  }

  // ---------------------------------------------------------------- whole runs

  /** Bar `i` appended to what came before. */
  function Extend(run: (seq<TradeEvent>, Position), kind: Signal, p: seq<real>, i: nat): (seq<TradeEvent>, Position)
    requires i < |p|
  {
    (if kind == Hold then run.0 else run.0 + [TradeEvent(i, p[i], kind)], Act(run.1, kind, i))
  }

  /** The events on bars before `m`, and the position they leave. */
  function Trade(sqrt: real -> real, s: Strategy, p: seq<real>, m: nat): (seq<TradeEvent>, Position)
    requires s.Ok() && m <= |p|
  {
    if m <= s.Warmup() then ([], FLAT)
    else
      var run := Trade(sqrt, s, p, m - 1);
      Extend(run, Decide(sqrt, s, p, run.1, m - 1), p, m - 1)
  }

  lemma NothingTraded(sqrt: real -> real, s: Strategy, p: seq<real>, m: nat)
    requires s.Ok() && m <= |p| && m <= s.Warmup()
    ensures Trade(sqrt, s, p, m) == ([], FLAT)
  {}

  lemma TradeStep(sqrt: real -> real, s: Strategy, p: seq<real>, m: nat)
    requires s.Ok() && s.Warmup() < m <= |p|
    ensures var run := Trade(sqrt, s, p, m - 1);
            Trade(sqrt, s, p, m) == Extend(run, Decide(sqrt, s, p, run.1, m - 1), p, m - 1)
  {
    hide Decide, Extend;
  }

  /** Events alternate buy, sell, ..., on strictly later bars from `warmup` on, each at its bar's close. */
  ghost predicate Alternating(events: seq<TradeEvent>, p: seq<real>, warmup: nat, m: nat) {
    && (forall i :: 0 <= i < |events| ==>
          && warmup <= events[i].bar < m && events[i].bar < |p|
          && events[i].price == p[events[i].bar]
          && events[i].kind == (if i % 2 == 0 then Buy else Sell))
    && (forall i, j :: 0 <= i < j < |events| ==> events[i].bar < events[j].bar)
  }

  /** A buy only when flat, a sell only when holding. */
  lemma DecideRespectsPosition(sqrt: real -> real, s: Strategy, p: seq<real>, pos: Position, i: nat)
    requires s.Ok() && s.Warmup() <= i < |p|
    ensures Decide(sqrt, s, p, pos, i) == Buy ==> !pos.held
    ensures Decide(sqrt, s, p, pos, i) == Sell ==> pos.held
  {
    hide Above, Rsi, Band, Middle, Highest;
  }

  predicate Odd(n: nat) {
    n % 2 == 1
  }

  /** The events alternate, and the position says whose turn it is. */
  ghost predicate WellFormed(run: (seq<TradeEvent>, Position), p: seq<real>, warmup: nat, m: nat) {
    var (events, pos) := run;
    Alternating(events, p, warmup, m) && pos.held == Odd(|events|)
  }

  /** In every run of every strategy, buys and sells strictly alternate. */
  lemma {:induction false} TradesAlternate(sqrt: real -> real, s: Strategy, p: seq<real>, m: nat)
    requires s.Ok() && m <= |p|
    ensures WellFormed(Trade(sqrt, s, p, m), p, s.Warmup(), m)
  {
    if m > s.Warmup() {
      hide Decide, WellFormed, Extend;
      var run := Trade(sqrt, s, p, m - 1);
      TradesAlternate(sqrt, s, p, m - 1);
      DecideRespectsPosition(sqrt, s, p, run.1, m - 1);
      ExtendKeepsForm(run, Decide(sqrt, s, p, run.1, m - 1), p, s.Warmup(), m);
    }
  }

  lemma ExtendKeepsForm(run: (seq<TradeEvent>, Position), kind: Signal, p: seq<real>, warmup: nat, m: nat)
    requires warmup < m <= |p| && WellFormed(run, p, warmup, m - 1)
    requires kind == Buy ==> !run.1.held
    requires kind == Sell ==> run.1.held
    ensures WellFormed(Extend(run, kind, p, m - 1), p, warmup, m)
  {
    hide Alternating, Odd;
    AlternatingExtends(run.0, p, warmup, m);
    NextParity(|run.0|);
  }

  lemma NextParity(n: nat)
    ensures Odd(n + 1) <==> !Odd(n)
  {}

  lemma AlternatingExtends(events: seq<TradeEvent>, p: seq<real>, warmup: nat, m: nat)
    requires warmup < m <= |p| && Alternating(events, p, warmup, m - 1)
    ensures Alternating(events, p, warmup, m)
    ensures !Odd(|events|) ==> Alternating(events + [TradeEvent(m - 1, p[m - 1], Buy)], p, warmup, m)
    ensures Odd(|events|) ==> Alternating(events + [TradeEvent(m - 1, p[m - 1], Sell)], p, warmup, m)
  {}
}
