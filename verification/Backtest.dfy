/** cmd/dashboard/backtest.go: from closes to trade events, and from trade events to statistics. */
module Backtest {
  import opened Pearson
  import opened Strategies

  // ---------------------------------------------------------------- the report

  datatype Forward = NoForward | ForwardReturn(percent: real)

  datatype SignalRow = SignalRow(bar: nat, price: real, kind: Signal, forward: Forward)

  datatype BacktestResult =
    | NotEnoughData(need: nat, got: nat)
    | Report(signals: seq<SignalRow>, stratReturn: real, winRate: real, correlation: real,
             numSignals: nat, barsUsed: nat)

  /** Prices, and therefore the events' prices, are positive; events lie on bars. */
  ghost predicate Priced(p: seq<real>) {
    forall i :: 0 <= i < |p| ==> p[i] > 0.0
  }

  ghost predicate OnBars(events: seq<TradeEvent>, p: seq<real>) {
    forall i :: 0 <= i < |events| ==> events[i].bar < |p| && events[i].price > 0.0
  }

  /** The percentage change from bar `i` to `ahead` bars later. */
  function Change(p: seq<real>, i: nat, ahead: nat): real
    requires i + ahead < |p| && p[i] > 0.0
  {
    (p[i + ahead] - p[i]) / p[i] * 100.0
  }

  /** `percent` is the change of the close from bar `i` to `ahead` bars later. */
  predicate LeadsTo(p: seq<real>, i: nat, ahead: nat, percent: real)
    requires i + ahead < |p|
  {
    p[i] * (1.0 + percent / 100.0) == p[i + ahead]
  }

  lemma ChangeLeads(p: seq<real>, i: nat, ahead: nat)
    requires i + ahead < |p| && p[i] > 0.0
    ensures LeadsTo(p, i, ahead, Change(p, i, ahead))
  {
    var q := (p[i + ahead] - p[i]) / p[i];
    assert q * p[i] == p[i + ahead] - p[i];
    assert Change(p, i, ahead) / 100.0 == q;
    assert p[i] * (1.0 + q) == p[i] + q * p[i];
  }

  function Row(e: TradeEvent, p: seq<real>, ahead: nat): SignalRow
    requires e.bar < |p| && p[e.bar] > 0.0
  {
    SignalRow(e.bar, e.price, e.kind,
              if e.bar + ahead < |p| then ForwardReturn(Change(p, e.bar, ahead)) else NoForward)
  }

  /** The factor by which a position bought and sold at these prices grows. */
  function Growth(buy: real, sell: real): real
    requires buy > 0.0
  {
    1.0 + (sell - buy) / buy
  }

  /** The growth over the first `k` pairs of consecutive events that are a buy and a sell. */
  function Compounded(events: seq<TradeEvent>, k: nat): real
    requires 2 * k <= |events| && forall i :: 0 <= i < |events| ==> events[i].price > 0.0
  {
    if k == 0 then 1.0
    else
      var buy, sell := events[2 * k - 2], events[2 * k - 1];
      Compounded(events, k - 1) * if buy.kind == Buy && sell.kind == Sell then Growth(buy.price, sell.price) else 1.0
  }

  /** An odd buy at the end is valued at the last close. */
  function StrategyGrowth(events: seq<TradeEvent>, p: seq<real>): real
    requires Priced(p) && OnBars(events, p)
  {
    var n := |events|;
    var closed := Compounded(events, n / 2);
    if n % 2 == 1 && events[n - 1].kind == Buy then closed * Growth(events[n - 1].price, p[|p| - 1]) else closed
  }

  predicate IsMeasuredBuy(r: SignalRow) {
    r.kind == Buy && r.forward.ForwardReturn?
  }

  function MeasuredBuys(rows: seq<SignalRow>): nat {
    if rows == [] then 0
    else MeasuredBuys(rows[..|rows| - 1]) + if IsMeasuredBuy(rows[|rows| - 1]) then 1 else 0
  }

  function Wins(rows: seq<SignalRow>): nat {
    if rows == [] then 0
    else
      var r := rows[|rows| - 1];
      Wins(rows[..|rows| - 1]) + if IsMeasuredBuy(r) && r.forward.percent > 0.0 then 1 else 0
  }

  function WinRate(rows: seq<SignalRow>): real {
    if MeasuredBuys(rows) == 0 then 0.0
    else Wins(rows) as real / MeasuredBuys(rows) as real * 100.0
  }

  predicate BoughtOn(events: seq<TradeEvent>, i: nat) {
    exists k :: 0 <= k < |events| && events[k].kind == Buy && events[k].bar == i
  }

  /** How many bars from `warmup` on have a forward return. */
  function Measurable(n: nat, warmup: nat, ahead: nat): nat {
    if warmup + ahead < n then n - warmup - ahead else 0
  }

  /** 1 on bars with a buy, 0 elsewhere. */
  function Indicator(events: seq<TradeEvent>, n: nat, warmup: nat, ahead: nat): seq<real> {
    seq(Measurable(n, warmup, ahead), i requires 0 <= i => if BoughtOn(events, warmup + i) then 1.0 else 0.0)
  }

  function Changes(p: seq<real>, warmup: nat, ahead: nat): seq<real>
    requires Priced(p)
  {
    seq(Measurable(|p|, warmup, ahead),
        i requires 0 <= i < Measurable(|p|, warmup, ahead) && Priced(p) => Change(p, warmup + i, ahead))
  }

  function Rows(events: seq<TradeEvent>, p: seq<real>, ahead: nat): (rows: seq<SignalRow>)
    requires Priced(p) && OnBars(events, p)
    ensures |rows| == |events|
  {
    seq(|events|, i requires 0 <= i < |events| && Priced(p) && OnBars(events, p) => Row(events[i], p, ahead))
  }

  /** A row has a forward return exactly when the later bar exists, and it leads there. */
  ghost predicate RowReads(r: SignalRow, p: seq<real>, ahead: nat) {
    && r.bar < |p|
    && (r.forward.ForwardReturn? <==> r.bar + ahead < |p|)
    && (r.bar + ahead < |p| ==> LeadsTo(p, r.bar, ahead, r.forward.percent))
  }

  ghost predicate RowsRead(rows: seq<SignalRow>, p: seq<real>, ahead: nat) {
    forall i :: 0 <= i < |rows| ==> RowReads(rows[i], p, ahead)
  }

  lemma RowsAreRead(events: seq<TradeEvent>, p: seq<real>, ahead: nat)
    requires Priced(p) && OnBars(events, p)
    ensures RowsRead(Rows(events, p, ahead), p, ahead)
  {
    forall i | 0 <= i < |events|
      ensures RowReads(Row(events[i], p, ahead), p, ahead)
    {
      var e := events[i];
      if e.bar + ahead < |p| {
        ChangeLeads(p, e.bar, ahead);
      }
      hide LeadsTo, Change;
    }
    hide Row, RowReads;
  }

  lemma ChangesLead(p: seq<real>, warmup: nat, ahead: nat)
    requires Priced(p)
    ensures var ys := Changes(p, warmup, ahead);
            && |ys| == Measurable(|p|, warmup, ahead)
            && forall i :: 0 <= i < |ys| ==> LeadsTo(p, warmup + i, ahead, ys[i])
  {
    var ys := Changes(p, warmup, ahead);
    forall i | 0 <= i < |ys|
      ensures LeadsTo(p, warmup + i, ahead, ys[i])
    {
      ChangeLeads(p, warmup + i, ahead);
    }
    hide LeadsTo, Change;
  }

  /** What the statistics of a list of events mean. */
  function Summary(sqrt: real -> real, events: seq<TradeEvent>, p: seq<real>, warmup: nat, ahead: nat): BacktestResult
    requires IsSqrt(sqrt) && Priced(p) && OnBars(events, p)
  {
    var rows := Rows(events, p, ahead);
    var m := Measurable(|p|, warmup, ahead);
    Report(rows, (StrategyGrowth(events, p) - 1.0) * 100.0, WinRate(rows),
           Correlation(sqrt, Indicator(events, |p|, warmup, ahead), Changes(p, warmup, ahead), m),
           |events|, |p|)
  }

  /** A whole backtest. */
  function Backtested(sqrt: real -> real, s: Strategy, p: seq<real>, ahead: nat): BacktestResult
    requires IsSqrt(sqrt) && s.Ok() && Priced(p)
  {
    if |p| < s.Warmup() + 1 then NotEnoughData(s.Warmup() + 1, |p|)
    else
      TradesAreOnBars(sqrt, s, p);
      Summary(sqrt, Trade(sqrt, s, p, |p|).0, p, s.Warmup(), ahead)
  }

  lemma TradesAreOnBars(sqrt: real -> real, s: Strategy, p: seq<real>)
    requires s.Ok() && Priced(p)
    ensures OnBars(Trade(sqrt, s, p, |p|).0, p)
  {
    hide Trade;
    TradesAlternate(sqrt, s, p, |p|);
  }

  // ---------------------------------------------------------------- computeResult

  method ComputeResult(sqrt: real -> real, events: seq<TradeEvent>, closes: seq<real>, warmup: nat, forwardDays: nat)
      returns (r: BacktestResult)
    requires IsSqrt(sqrt) && Priced(closes) && OnBars(events, closes)
    ensures r == Summary(sqrt, events, closes, warmup, forwardDays)
  {
    var n := |closes|;
    var signals := SignalRows(events, closes, forwardDays);
    var stratReturn := StratReturn(events, closes);
    var wins, buyN := CountWins(signals);
    var winRate := 0.0;
    if buyN > 0 {
      winRate := wins as real / buyN as real * 100.0;
    }
    var xs, ys := Samples(events, closes, warmup, forwardDays);
    var correlation := TwoPass(sqrt, xs, ys);
    r := Report(signals, (stratReturn - 1.0) * 100.0, winRate, correlation, |signals|, n);
  }

  method SignalRows(events: seq<TradeEvent>, closes: seq<real>, forwardDays: nat) returns (signals: seq<SignalRow>)
    requires Priced(closes) && OnBars(events, closes)
    ensures signals == Rows(events, closes, forwardDays)
    ensures RowsRead(signals, closes, forwardDays)
  {
    var n := |closes|;
    signals := [];
    for i := 0 to |events|
      invariant |signals| == i
      invariant forall j :: 0 <= j < i ==> signals[j] == Row(events[j], closes, forwardDays)
    {
      var e := events[i];
      var row := SignalRow(e.bar, e.price, e.kind, NoForward);
      if e.bar + forwardDays < n {
        row := row.(forward := ForwardReturn((closes[e.bar + forwardDays] - closes[e.bar]) / closes[e.bar] * 100.0));
      }
      signals := signals + [row];
    }
    RowsAreRead(events, closes, forwardDays);
    hide RowsRead;
  }

  method StratReturn(events: seq<TradeEvent>, closes: seq<real>) returns (stratReturn: real)
    requires Priced(closes) && OnBars(events, closes)
    ensures stratReturn == StrategyGrowth(events, closes)
  {
    stratReturn := 1.0;
    var i := 0;
    hide Growth;
    while i + 1 < |events|
      invariant i % 2 == 0 && i <= |events|
      invariant stratReturn == Compounded(events, i / 2)
    {
      ghost var k := i / 2 + 1;
      assert 2 * k - 2 == i && 2 * k - 1 == i + 1;
      if events[i].kind == Buy && events[i + 1].kind == Sell {
        stratReturn := stratReturn * Growth(events[i].price, events[i + 1].price);
      }
      i := i + 2;
      assert i / 2 == k;
    }
    assert i / 2 == |events| / 2;
    if |events| % 2 == 1 && events[|events| - 1].kind == Buy {
      stratReturn := stratReturn * Growth(events[|events| - 1].price, closes[|closes| - 1]);
    }
  }

  method CountWins(signals: seq<SignalRow>) returns (wins: nat, buyN: nat)
    ensures wins == Wins(signals) && buyN == MeasuredBuys(signals)
  {
    wins, buyN := 0, 0;
    for i := 0 to |signals|
      invariant wins == Wins(signals[..i]) && buyN == MeasuredBuys(signals[..i])
    {
      assert signals[..i + 1][..i] == signals[..i];
      var s := signals[i];
      if s.kind == Buy && s.forward.ForwardReturn? {
        buyN := buyN + 1;
        if s.forward.percent > 0.0 {
          wins := wins + 1;
        }
      }
    }
    assert signals[..|signals|] == signals;
  }

  method Samples(events: seq<TradeEvent>, closes: seq<real>, warmup: nat, forwardDays: nat)
      returns (xs: seq<real>, ys: seq<real>)
    requires Priced(closes) && OnBars(events, closes)
    ensures xs == Indicator(events, |closes|, warmup, forwardDays)
    ensures ys == Changes(closes, warmup, forwardDays)
    ensures forall i :: 0 <= i < |ys| ==>
              warmup + i + forwardDays < |closes| && LeadsTo(closes, warmup + i, forwardDays, ys[i])
  {
    var n := |closes|;
    var indicator := new real[n](_ => 0.0);
    for k := 0 to |events|
      invariant forall i :: 0 <= i < n ==> indicator[i] == if BoughtOn(events[..k], i) then 1.0 else 0.0
    {
      forall i | 0 <= i < n
        ensures BoughtOn(events[..k + 1], i)
                <==> BoughtOn(events[..k], i) || (events[k].kind == Buy && events[k].bar == i)
      {
        BoughtOnExtends(events, k, i);
      }
      if events[k].kind == Buy {
        indicator[events[k].bar] := 1.0;
      }
    }
    assert events[..|events|] == events;
    xs, ys := [], [];
    var i := warmup;
    while i + forwardDays < n
      invariant warmup <= i && |xs| == |ys| == i - warmup <= Measurable(n, warmup, forwardDays)
      invariant forall j :: 0 <= j < |xs| ==> xs[j] == if BoughtOn(events, warmup + j) then 1.0 else 0.0
      invariant forall j :: 0 <= j < |ys| ==> ys[j] == Change(closes, warmup + j, forwardDays)
      decreases n - i
    {
      var fwd := (closes[i + forwardDays] - closes[i]) / closes[i] * 100.0;
      xs := xs + [indicator[i]];
      ys := ys + [fwd];
      i := i + 1;
    }
    ChangesLead(closes, warmup, forwardDays);
    hide Change, LeadsTo;
  }

  lemma BoughtOnExtends(events: seq<TradeEvent>, k: nat, i: nat)
    requires k < |events|
    ensures BoughtOn(events[..k + 1], i)
            <==> BoughtOn(events[..k], i) || (events[k].kind == Buy && events[k].bar == i)
  {
    var before, all := events[..k], events[..k + 1];
    assert all == before + [events[k]];
    if j :| 0 <= j < |before| && before[j].kind == Buy && before[j].bar == i {
      assert all[j] == before[j];
    }
    if events[k].kind == Buy && events[k].bar == i {
      assert all[k] == events[k];
    }
    if j :| 0 <= j < |all| && all[j].kind == Buy && all[j].bar == i {
      assert j < k ==> before[j] == all[j];
    }
  }
}
