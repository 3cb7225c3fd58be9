/** cmd/dashboard/backtest.go: what a report's forward returns and win rate say about the closes. */
module ForwardReturns {
  import opened Algebra
  import opened Backtest
  import opened Pearson
  import opened Strategies

  /** Only one percentage leads from one close to another, and it is positive when the close has risen. */
  lemma OnlyOne(p: seq<real>, i: nat, ahead: nat, percent: real, other: real)
    requires i + ahead < |p| && p[i] > 0.0 && LeadsTo(p, i, ahead, percent)
    ensures LeadsTo(p, i, ahead, other) ==> other == percent
    ensures percent > 0.0 <==> p[i + ahead] > p[i]
  {
    var x, q := p[i], percent / 100.0;
    assert x * (1.0 + q) == x + x * q;
    assert q > 0.0 ==> x * q > 0.0;
    assert q <= 0.0 ==> x * -q >= 0.0 && x * q == -(x * -q);
    if LeadsTo(p, i, ahead, other) {
      CancelFactor(1.0 + other / 100.0, 1.0 + q, x);
    }
  }

  // ---------------------------------------------------------------- the win rate

  /** How many of the rows are buys with a later bar, and how many of those were followed by a higher close. */
  function JudgedBuys(rows: seq<SignalRow>, n: nat, ahead: nat): nat {
    if rows == [] then 0
    else
      var r := rows[|rows| - 1];
      JudgedBuys(rows[..|rows| - 1], n, ahead) + if r.kind == Buy && r.bar + ahead < n then 1 else 0
  }

  function WonBuys(rows: seq<SignalRow>, p: seq<real>, ahead: nat): nat {
    if rows == [] then 0
    else
      var r := rows[|rows| - 1];
      WonBuys(rows[..|rows| - 1], p, ahead)
      + if r.kind == Buy && r.bar + ahead < |p| && p[r.bar + ahead] > p[r.bar] then 1 else 0
  }

  lemma {:induction false} CountsAre(rows: seq<SignalRow>, p: seq<real>, ahead: nat)
    requires Priced(p) && RowsRead(rows, p, ahead)
    ensures MeasuredBuys(rows) == JudgedBuys(rows, |p|, ahead) && Wins(rows) == WonBuys(rows, p, ahead)
  {
    if rows != [] {
      var r := rows[|rows| - 1];
      assert RowReads(r, p, ahead);
      CountsAre(rows[..|rows| - 1], p, ahead);
      if r.bar + ahead < |p| {
        OnlyOne(p, r.bar, ahead, r.forward.percent, r.forward.percent);
      }
      hide LeadsTo;
    }
  }

  /** The share of the judged buys that won, in percent; 0 when none can be judged. */
  ghost predicate IsWinRate(rate: real, rows: seq<SignalRow>, p: seq<real>, ahead: nat) {
    && rate * JudgedBuys(rows, |p|, ahead) as real == 100.0 * WonBuys(rows, p, ahead) as real
    && (JudgedBuys(rows, |p|, ahead) == 0 ==> rate == 0.0)
  }

  lemma WinRateReads(rows: seq<SignalRow>, p: seq<real>, ahead: nat)
    requires Priced(p) && RowsRead(rows, p, ahead)
    ensures IsWinRate(WinRate(rows), rows, p, ahead)
  {
    CountsAre(rows, p, ahead);
    hide Wins, MeasuredBuys, WonBuys, JudgedBuys, RowsRead;
    if MeasuredBuys(rows) == 0 {
      NoneWon(rows, p, ahead);
    } else {
      Percentage(Wins(rows) as real, MeasuredBuys(rows) as real, WinRate(rows));
    }
  }

  lemma Percentage(part: real, whole: real, percent: real)
    requires whole != 0.0 && percent == part / whole * 100.0
    ensures percent * whole == 100.0 * part
  {
    var share := part / whole;
    assert share * whole == part;
  }

  lemma {:induction false} NoneWon(rows: seq<SignalRow>, p: seq<real>, ahead: nat)
    ensures WonBuys(rows, p, ahead) <= JudgedBuys(rows, |p|, ahead)
  {
    if rows != [] {
      NoneWon(rows[..|rows| - 1], p, ahead);
    }
  }

  // ---------------------------------------------------------------- every backtest

  /**
   * The report of every backtest: each signal's forward return leads from its close to the later one, and
   * the win rate is the share of buys followed by a higher close.
   */
  lemma ReportReads(sqrt: real -> real, s: Strategy, p: seq<real>, ahead: nat)
    requires IsSqrt(sqrt) && s.Ok() && Priced(p) && Backtested(sqrt, s, p, ahead).Report?
    ensures var r := Backtested(sqrt, s, p, ahead);
            && RowsRead(r.signals, p, ahead) && IsWinRate(r.winRate, r.signals, p, ahead)
            && forall i :: 0 <= i < |r.signals| ==> r.signals[i].bar < |p| && r.signals[i].price == p[r.signals[i].bar]
  {
    var events := Trade(sqrt, s, p, |p|).0;
    TradesAlternate(sqrt, s, p, |p|);
    TradesAreOnBars(sqrt, s, p);
    var rows := Rows(events, p, ahead);
    RowsAreRead(events, p, ahead);
    hide Trade, RowReads, IsWinRate, WinRate, StrategyGrowth, Correlation, Indicator, Changes;
    WinRateReads(rows, p, ahead);
  }

  /** The bars that the correlation compares: all from the warmup on that have a later bar, bought or not. */
  lemma SamplesRead(events: seq<TradeEvent>, p: seq<real>, warmup: nat, ahead: nat)
    requires Priced(p)
    ensures var xs, ys := Indicator(events, |p|, warmup, ahead), Changes(p, warmup, ahead);
            && |xs| == |ys| && (if warmup + ahead < |p| then warmup + |ys| + ahead == |p| else ys == [])
            && (forall i :: 0 <= i < |ys| ==> LeadsTo(p, warmup + i, ahead, ys[i]))
            && (forall i :: 0 <= i < |xs| ==> xs[i] == if BoughtOn(events, warmup + i) then 1.0 else 0.0)
  {
    ChangesLead(p, warmup, ahead);
    hide BoughtOn, LeadsTo, Change;
  }

  /**
   * The rest of the report: one row per event, the correlation of exactly those two series, and the counts;
   * an error exactly when no bar could be traded.
   */
  lemma ReportCounts(sqrt: real -> real, s: Strategy, p: seq<real>, ahead: nat)
    requires IsSqrt(sqrt) && s.Ok() && Priced(p)
    ensures var r, events := Backtested(sqrt, s, p, ahead), Trade(sqrt, s, p, |p|).0;
            var xs, ys := Indicator(events, |p|, s.Warmup(), ahead), Changes(p, s.Warmup(), ahead);
            && (r.Report? <==> s.Warmup() < |p|)
            && (r.NotEnoughData? ==> r.need == s.Warmup() + 1 && r.got == |p|)
            && (r.Report? ==>
                  && |xs| == |ys| && r.correlation == Correlation(sqrt, xs, ys, |ys|)
                  && r.numSignals == |r.signals| == |events| && r.barsUsed == |p|
                  && forall i :: 0 <= i < |events| ==>
                       r.signals[i].bar == events[i].bar && r.signals[i].kind == events[i].kind)
  {
    TradesAreOnBars(sqrt, s, p);
    hide Trade, Correlation, StrategyGrowth, WinRate, BoughtOn, Change;
  }
}
