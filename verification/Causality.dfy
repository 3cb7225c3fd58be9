/** No look-ahead: what a strategy does up to a bar depends on no later price. */
module Causality {
  import opened Common
  import opened Indicators
  import opened Strategies

  /** The two price series coincide on the first `m` bars. */
  ghost predicate Agree(p: seq<real>, q: seq<real>, m: nat) {
    m <= |p| && m <= |q| && forall j :: 0 <= j < m ==> p[j] == q[j]
  }

  lemma {:induction false} SumIsCausal(p: seq<real>, q: seq<real>, lo: nat, hi: nat)
    requires lo <= hi && Agree(p, q, hi)
    ensures SumRange(p, lo, hi) == SumRange(q, lo, hi)
  {
    if lo < hi {
      SumIsCausal(p, q, lo, hi - 1);
    }
  }

  lemma {:induction false} EmaIsCausal(p: seq<real>, q: seq<real>, period: nat, i: nat)
    requires 1 <= period && Agree(p, q, i + 1)
    ensures Ema(p, period, i) == Ema(q, period, i)
  {
    if i == period - 1 {
      SumIsCausal(p, q, 0, period);
    } else if i >= period {
      EmaIsCausal(p, q, period, i - 1);
    }
  }

  lemma SmaIsCausal(p: seq<real>, q: seq<real>, period: nat, i: nat)
    requires 1 <= period && Agree(p, q, i + 1)
    ensures BarSma(p, i + 1, period) == BarSma(q, i + 1, period)
  {
    if i + 1 >= period {
      SumIsCausal(p, q, i + 1 - period, i + 1);
    }
  }

  lemma AboveIsCausal(p: seq<real>, q: seq<real>, s: Strategy, i: nat)
    requires s.Crossover? && s.Ok() && Agree(p, q, i + 1)
    ensures Above(p, s, i) == Above(q, s, i)
  {
    hide Ema, BarSma, Agree;
    EmaIsCausal(p, q, s.fast, i);
    EmaIsCausal(p, q, s.slow, i);
    SmaIsCausal(p, q, s.fast, i);
    SmaIsCausal(p, q, s.slow, i);
  }

  lemma {:induction false} TotalIsCausal(p: seq<real>, q: seq<real>, n: nat)
    requires Agree(p, q, n + 1)
    ensures Total(p, n) == Total(q, n)
  {
    if n > 0 {
      TotalIsCausal(p, q, n - 1);
    }
  }

  lemma {:induction false} WilderIsCausal(p: seq<real>, q: seq<real>, period: nat, i: nat)
    requires 1 <= period <= i && Agree(p, q, i + 1)
    ensures Wilder(p, period, i) == Wilder(q, period, i)
  {
    hide Smooth, Total;
    if i == period {
      TotalIsCausal(p, q, period);
    } else {
      WilderIsCausal(p, q, period, i - 1);
    }
  }

  lemma RsiIsCausal(p: seq<real>, q: seq<real>, period: nat, i: nat)
    requires 1 <= period && Agree(p, q, i + 1)
    ensures Rsi(p, period, i) == Rsi(q, period, i)
  {
    if i >= period {
      WilderIsCausal(p, q, period, i);
    }
  }

  lemma {:induction false} DeviationsAreCausal(p: seq<real>, q: seq<real>, lo: nat, hi: nat, m: real)
    requires lo <= hi && Agree(p, q, hi)
    ensures SquaredDeviations(p, lo, hi, m) == SquaredDeviations(q, lo, hi, m)
  {
    if lo < hi {
      DeviationsAreCausal(p, q, lo, hi - 1, m);
    }
  }

  lemma BandIsCausal(sqrt: real -> real, p: seq<real>, q: seq<real>, period: nat, k: real, i: nat)
    requires 1 <= period && Agree(p, q, i + 1)
    ensures Middle(p, period, i) == Middle(q, period, i)
    ensures Band(sqrt, p, period, k, i) == Band(sqrt, q, period, k, i)
  {
    SmaIsCausal(p, q, period, i);
    if i >= period - 1 {
      DeviationsAreCausal(p, q, i + 1 - period, i + 1, BarSma(p, i + 1, period));
      hide BarSma, SquaredDeviations;
      assert Variance(p, period, i) == Variance(q, period, i);
    }
  }

  lemma {:induction false} HighestIsCausal(p: seq<real>, q: seq<real>, lo: nat, hi: nat)
    requires lo <= hi && Agree(p, q, if hi > lo then hi else lo + 1)
    ensures Highest(p, lo, hi) == Highest(q, lo, hi)
  {
    if hi > lo + 1 {
      HighestIsCausal(p, q, lo, hi - 1);
    }
  }

  lemma DecideIsCausal(sqrt: real -> real, s: Strategy, p: seq<real>, q: seq<real>, pos: Position, i: nat)
    requires s.Ok() && s.Warmup() <= i && Agree(p, q, i + 1)
    ensures Decide(sqrt, s, p, pos, i) == Decide(sqrt, s, q, pos, i)
  {
    match s
    case Crossover(_, _, _) =>
      AboveIsCausal(p, q, s, i - 1);
      AboveIsCausal(p, q, s, i);
    case MeanReversion(period, _, _) =>
      RsiIsCausal(p, q, period, i);
    case Bollinger(period, k) =>
      BandIsCausal(sqrt, p, q, period, -k, i);
    case Breakout(lookback, _) =>
      HighestIsCausal(p, q, i - lookback, i);
  }

  lemma {:induction false} TradeIsCausal(sqrt: real -> real, s: Strategy, p: seq<real>, q: seq<real>, m: nat)
    requires s.Ok() && Agree(p, q, m)
    ensures Trade(sqrt, s, p, m) == Trade(sqrt, s, q, m)
  {
    hide *;
    if m > s.Warmup() {
      Shorter(p, q, m);
      TradeIsCausal(sqrt, s, p, q, m - 1);
      DecideIsCausal(sqrt, s, p, q, Trade(sqrt, s, p, m - 1).1, m - 1);
      SameExtension(sqrt, s, p, q, m);
    } else {
      Shorter(p, q, m);
      NothingTraded(sqrt, s, p, m);
      NothingTraded(sqrt, s, q, m);
    }
  }

  lemma Shorter(p: seq<real>, q: seq<real>, m: nat)
    requires Agree(p, q, m)
    ensures m <= |p| && m <= |q| && (m > 0 ==> Agree(p, q, m - 1) && p[m - 1] == q[m - 1])
  {}

  lemma SameExtension(sqrt: real -> real, s: Strategy, p: seq<real>, q: seq<real>, m: nat)
    requires s.Ok() && s.Warmup() < m <= |p| && m <= |q| && p[m - 1] == q[m - 1]
    requires Trade(sqrt, s, p, m - 1) == Trade(sqrt, s, q, m - 1)
    requires var pos := Trade(sqrt, s, p, m - 1).1; Decide(sqrt, s, p, pos, m - 1) == Decide(sqrt, s, q, pos, m - 1)
    ensures Trade(sqrt, s, p, m) == Trade(sqrt, s, q, m)
  {
    hide Trade, Decide;
    TradeStep(sqrt, s, p, m);
    TradeStep(sqrt, s, q, m);
  }

  /** The events on bars before `m`. */
  function Before(events: seq<TradeEvent>, m: nat): seq<TradeEvent> {
    if events == [] then []
    else
      var e := events[|events| - 1];
      Before(events[..|events| - 1], m) + if e.bar < m then [e] else []
  }

  lemma {:induction false} AllBefore(events: seq<TradeEvent>, m: nat)
    requires forall i :: 0 <= i < |events| ==> events[i].bar < m
    ensures Before(events, m) == events
  {
    if events != [] {
      AllBefore(events[..|events| - 1], m);
    }
  }

  lemma {:induction false} RunKeepsItsPast(sqrt: real -> real, s: Strategy, p: seq<real>, m: nat, n: nat)
    requires s.Ok() && m <= n <= |p|
    ensures Before(Trade(sqrt, s, p, n).0, m) == Trade(sqrt, s, p, m).0
  {
    hide *;
    if m == n {
      PastIsAll(sqrt, s, p, m);
    } else {
      RunKeepsItsPast(sqrt, s, p, m, n - 1);
      if n > s.Warmup() {
        var run := Trade(sqrt, s, p, n - 1);
        TradeStep(sqrt, s, p, n);
        LaterEventDropped(run, Decide(sqrt, s, p, run.1, n - 1), p, n - 1, m);
      } else {
        NothingTraded(sqrt, s, p, n);
        NothingTraded(sqrt, s, p, n - 1);
      }
    }
  }

  lemma PastIsAll(sqrt: real -> real, s: Strategy, p: seq<real>, m: nat)
    requires s.Ok() && m <= |p|
    ensures Before(Trade(sqrt, s, p, m).0, m) == Trade(sqrt, s, p, m).0
  {
    hide Trade, Before;
    TradesAlternate(sqrt, s, p, m);
    AllBefore(Trade(sqrt, s, p, m).0, m);
  }

  lemma LaterEventDropped(run: (seq<TradeEvent>, Position), kind: Signal, p: seq<real>, i: nat, m: nat)
    requires m <= i < |p|
    ensures Before(Extend(run, kind, p, i).0, m) == Before(run.0, m)
  {
    var e := TradeEvent(i, p[i], kind);
    assert (run.0 + [e])[..|run.0|] == run.0;
  }

  /** For all four strategies: the events on a prefix of the closes are exactly the earlier events of the full run. */
  lemma NoLookAhead(sqrt: real -> real, s: Strategy, p: seq<real>, m: nat)
    requires s.Ok() && m <= |p|
    ensures Trade(sqrt, s, p[..m], m).0 == Before(Trade(sqrt, s, p, |p|).0, m)
  {
    hide Trade;
    TradeIsCausal(sqrt, s, p[..m], p, m);
    RunKeepsItsPast(sqrt, s, p, m, |p|);
  }
}
