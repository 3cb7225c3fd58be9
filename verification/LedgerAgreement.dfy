/**
 * The two trading semantics agree: the backtest's product over event pairs, and the paper-trading
 * ledger fed one bar at a time.
 */
module LedgerAgreement {
  import opened Algebra
  import opened Backtest
  import opened Ledger
  import opened Pearson
  import opened Strategies

  // ---------------------------------------------------------------- trades are self-financing

  /** Trading at the current price never changes the account's worth, whatever the signal. */
  lemma SelfFinancing(s: Session, want: Signal, price: real, now: int)
    requires s.notional != 0.0 && price != 0.0
    ensures s.Settle(want, price, now).TotalValue() == s.(currentPrice := price).TotalValue()
  {
    if want == Buy && s.position == Flat {
      var q := s.cash / price;
      assert q * price == s.cash;
    }
  }

  // ---------------------------------------------------------------- feeding events to the ledger

  /** The signal for bar `i`: the event on that bar, or hold. */
  function SignalOn(events: seq<TradeEvent>, i: nat): Signal {
    if events == [] then Hold
    else
      var e := events[|events| - 1];
      if e.bar == i then e.kind else SignalOn(events[..|events| - 1], i)
  }

  /** A session polled once per bar, at that bar's close. */
  function Fed(events: seq<TradeEvent>, p: seq<real>, capital: real, m: nat): (s: Session)
    requires m <= |p| && Priced(p) && capital != 0.0
    ensures s.notional == capital
  {
    if m == 0 then Opened(capital)
    else Fed(events, p, capital, m - 1).Apply(SignalOn(events, m - 1), p[m - 1], m - 1)
  }

  /** How many events lie before bar `m`, for events in bar order. */
  function Reached(events: seq<TradeEvent>, m: nat): (k: nat)
    ensures k <= |events|
  {
    if m == 0 then 0
    else
      var k := Reached(events, m - 1);
      if k < |events| && events[k].bar == m - 1 then k + 1 else k
  }

  lemma {:induction false} ReachedSplits(events: seq<TradeEvent>, p: seq<real>, warmup: nat, m: nat)
    requires Alternating(events, p, warmup, |p|)
    ensures forall j :: 0 <= j < |events| ==> (j < Reached(events, m) <==> events[j].bar < m)
  {
    if m > 0 {
      ReachedSplits(events, p, warmup, m - 1);
      var k := Reached(events, m - 1);
      assert k < |events| ==> events[k].bar >= m - 1;
    }
  }

  lemma {:induction false} NoSignal(events: seq<TradeEvent>, i: nat)
    requires forall j :: 0 <= j < |events| ==> events[j].bar != i
    ensures SignalOn(events, i) == Hold
  {
    if events != [] {
      NoSignal(events[..|events| - 1], i);
    }
  }

  lemma {:induction false} OneSignal(events: seq<TradeEvent>, i: nat, k: nat)
    requires k < |events| && events[k].bar == i
    requires forall j :: k < j < |events| ==> events[j].bar != i
    ensures SignalOn(events, i) == events[k].kind
  {
    if k < |events| - 1 {
      OneSignal(events[..|events| - 1], i, k);
    }
  }

  /** The signal of bar `m` is that of the next event, if it is due. */
  lemma SignalIsNext(events: seq<TradeEvent>, p: seq<real>, warmup: nat, m: nat)
    requires Alternating(events, p, warmup, |p|)
    ensures var k := Reached(events, m);
            SignalOn(events, m) == if k < |events| && events[k].bar == m then events[k].kind else Hold
  {
    ReachedSplits(events, p, warmup, m);
    var k := Reached(events, m);
    if k < |events| && events[k].bar == m {
      OneSignal(events, m, k);
    } else {
      forall j | 0 <= j < |events|
        ensures events[j].bar != m
      {
        assert k <= j ==> events[k].bar <= events[j].bar;
      }
      NoSignal(events, m);
    }
  }

  // ---------------------------------------------------------------- the ledger invariant

  function Percent(growth: real): real {
    (growth - 1.0) * 100.0
  }

  ghost predicate PricedEvents(events: seq<TradeEvent>) {
    forall i :: 0 <= i < |events| ==> events[i].price > 0.0
  }

  /** The record of event `j`: its bar, kind and price, and the profit over the pairs completed by then. */
  ghost predicate IsRecordOf(r: TradeRecord, events: seq<TradeEvent>, j: nat)
    requires j < |events| && PricedEvents(events)
  {
    && r.at == events[j].bar && r.kind == events[j].kind && r.price == events[j].price
    && r.pnl == Percent(Compounded(events, (j + 1) / 2))
  }

  /** What the account holds after the first `k` events. */
  ghost predicate Holds(s: Session, events: seq<TradeEvent>, capital: real, k: nat)
    requires k <= |events| && PricedEvents(events)
  {
    && s.notional == capital && s.trades == k
    && (if k % 2 == 0 then s.position == Flat && s.cash == capital * Compounded(events, k / 2)
        else s.position == Long && Worth(s.shares, events[k - 1].price) == capital * Compounded(events, k / 2))
  }

  ghost predicate Recorded(s: Session, events: seq<TradeEvent>, k: nat)
    requires k <= |events| && PricedEvents(events)
  {
    |s.tradeHistory| == k && forall j :: 0 <= j < k ==> IsRecordOf(s.tradeHistory[j], events, j)
  }

  lemma ProfitOf(s: Session, capital: real, growth: real)
    requires capital > 0.0 && s.notional == capital && s.TotalValue() == capital * growth
    ensures s.Profit() == Percent(growth)
  {
    var v := capital * growth;
    assert v - capital == capital * (growth - 1.0);
    Quotient(v - capital, capital, growth - 1.0);
  }

  /** Shares worth `v` at the buy are worth `v` times the growth at the sale. */
  lemma WorthGrows(shares: real, buy: real, sell: real, v: real)
    requires buy > 0.0 && Worth(shares, buy) == v
    ensures Worth(shares, sell) == v * Growth(buy, sell)
  {
    var q := (sell - buy) / buy;
    assert q * buy == sell - buy;
    assert v * (1.0 + q) == shares * (buy + q * buy);
  }

  lemma BuyStep(s: Session, events: seq<TradeEvent>, capital: real, k: nat, now: int)
    requires capital > 0.0 && PricedEvents(events) && k < |events| && k % 2 == 0 && events[k].kind == Buy
    requires Holds(s, events, capital, k) && Recorded(s, events, k) && now == events[k].bar
    ensures var s' := s.Settle(Buy, events[k].price, now);
            Holds(s', events, capital, k + 1) && Recorded(s', events, k + 1)
  {
    var price, g := events[k].price, Compounded(events, k / 2);
    var bought := s.(currentPrice := price, signal := Buy, position := Long, entryPrice := price, entryTime := now,
                     shares := s.cash / price, cash := 0.0);
    assert Worth(s.cash / price, price) == s.cash;
    hide Worth, Compounded, Growth, Percent, Session.Profit;
    ProfitOf(bought, capital, g);
    RecordStep(bought, events, k, Buy, now);
  }

  lemma SellStep(s: Session, events: seq<TradeEvent>, capital: real, k: nat, now: int)
    requires capital > 0.0 && PricedEvents(events) && 0 < k < |events| && k % 2 == 1
    requires events[k].kind == Sell && events[k - 1].kind == Buy
    requires Holds(s, events, capital, k) && Recorded(s, events, k) && now == events[k].bar
    ensures var s' := s.Settle(Sell, events[k].price, now);
            Holds(s', events, capital, k + 1) && Recorded(s', events, k + 1)
  {
    var price, g := events[k].price, Compounded(events, k / 2);
    var sold := s.(currentPrice := price, signal := Sell, position := Flat, cash := Worth(s.shares, price),
                   shares := 0.0);
    assert Compounded(events, k / 2 + 1) == g * Growth(events[k - 1].price, price);
    WorthGrows(s.shares, events[k - 1].price, price, capital * g);
    var g' := g * Growth(events[k - 1].price, price);
    assert capital * g * Growth(events[k - 1].price, price) == capital * g';
    hide Worth, Compounded, Growth, Percent, Session.Profit;
    ProfitOf(sold, capital, g');
    RecordStep(sold, events, k, Sell, now);
  }

  /** Appending the record of event `k`. */
  lemma RecordStep(s: Session, events: seq<TradeEvent>, k: nat, kind: Signal, now: int)
    requires s.notional != 0.0 && PricedEvents(events) && k < |events|
    requires Recorded(s, events, k) && events[k].kind == kind && events[k].bar == now
        && events[k].price == s.currentPrice
    requires s.Profit() == Percent(Compounded(events, (k + 1) / 2))
    ensures Recorded(s.Record(kind, now), events, k + 1)
  {
    hide Session.Profit, Percent, Compounded;
  }

  // ---------------------------------------------------------------- whole runs

  /** The account and its history follow the events; the price and profit follow the last bar. */
  ghost predicate Follows(s: Session, events: seq<TradeEvent>, p: seq<real>, capital: real, m: nat)
    requires PricedEvents(events) && m <= |p|
  {
    && Holds(s, events, capital, Reached(events, m)) && Recorded(s, events, Reached(events, m))
    && s.notional == capital != 0.0
    && (if m == 0 then s.pnl == 0.0 else s.currentPrice == p[m - 1] && s.pnl == s.Profit())
  }

  lemma EventsArePriced(events: seq<TradeEvent>, p: seq<real>, warmup: nat)
    requires Priced(p) && Alternating(events, p, warmup, |p|)
    ensures PricedEvents(events) && OnBars(events, p)
  {}

  lemma MarkKeeps(s: Session, events: seq<TradeEvent>, capital: real, k: nat, now: int)
    requires PricedEvents(events) && k <= |events| && s.notional != 0.0
    requires Holds(s, events, capital, k) && Recorded(s, events, k)
    ensures var s' := s.Mark(now);
            && Holds(s', events, capital, k) && Recorded(s', events, k)
            && s'.currentPrice == s.currentPrice && s'.notional == s.notional && s'.pnl == s'.Profit()
  {
    hide Compounded, Worth;
  }

  /** A bar without an event changes neither holdings nor history. */
  lemma HoldStep(s: Session, events: seq<TradeEvent>, capital: real, k: nat, price: real, now: int)
    requires PricedEvents(events) && k <= |events| && s.notional != 0.0 && price != 0.0
    requires Holds(s, events, capital, k) && Recorded(s, events, k)
    ensures var s' := s.Settle(Hold, price, now);
            Holds(s', events, capital, k) && Recorded(s', events, k) && s'.currentPrice == price
                && s'.notional == s.notional
  {
    hide Compounded, Worth;
  }

  lemma SettleStep(s: Session, events: seq<TradeEvent>, p: seq<real>, warmup: nat, capital: real, m: nat)
    requires capital > 0.0 && Priced(p) && Alternating(events, p, warmup, |p|) && m < |p| && PricedEvents(events)
    requires s.notional == capital
    requires Holds(s, events, capital, Reached(events, m)) && Recorded(s, events, Reached(events, m))
    ensures var s' := s.Settle(SignalOn(events, m), p[m], m);
            && Holds(s', events, capital, Reached(events, m + 1)) && Recorded(s', events, Reached(events, m + 1))
            && s'.currentPrice == p[m] && s'.notional == capital
  {
    var k := Reached(events, m);
    SignalIsNext(events, p, warmup, m);
    hide SignalOn, Holds, Recorded, Session.Settle, PricedEvents;
    if k < |events| && events[k].bar == m {
      assert events[k].price == p[m];
      if k % 2 == 0 {
        BuyStep(s, events, capital, k, m);
        PriceAfter(s, Buy, p[m], m);
      } else {
        SellStep(s, events, capital, k, m);
        PriceAfter(s, Sell, p[m], m);
      }
    } else {
      HoldStep(s, events, capital, k, p[m], m);
    }
  }

  lemma PriceAfter(s: Session, want: Signal, price: real, now: int)
    requires s.notional != 0.0 && price != 0.0
    ensures s.Settle(want, price, now).currentPrice == price && s.Settle(want, price, now).notional == s.notional
  {}

  lemma {:induction false} FedFollows(events: seq<TradeEvent>, p: seq<real>, warmup: nat, capital: real, m: nat)
    requires capital > 0.0 && Priced(p) && Alternating(events, p, warmup, |p|) && m <= |p| && PricedEvents(events)
    ensures Follows(Fed(events, p, capital, m), events, p, capital, m)
  {
    hide *;
    if m == 0 {
      OpenedFollows(events, p, capital);
    } else {
      FedFollows(events, p, warmup, capital, m - 1);
      FedStep(events, p, capital, m - 1);
      FollowsStep(Fed(events, p, capital, m - 1), events, p, warmup, capital, m - 1);
    }
  }

  lemma OpenedFollows(events: seq<TradeEvent>, p: seq<real>, capital: real)
    requires capital > 0.0 && Priced(p) && PricedEvents(events)
    ensures Follows(Fed(events, p, capital, 0), events, p, capital, 0)
  {}

  lemma FedStep(events: seq<TradeEvent>, p: seq<real>, capital: real, m: nat)
    requires m < |p| && Priced(p) && capital != 0.0
    ensures p[m] != 0.0
    ensures Fed(events, p, capital, m + 1) == Fed(events, p, capital, m).Apply(SignalOn(events, m), p[m], m)
  {
    hide Session.Apply, SignalOn;
  }

  lemma FollowsStep(s: Session, events: seq<TradeEvent>, p: seq<real>, warmup: nat, capital: real, m: nat)
    requires capital > 0.0 && Priced(p) && Alternating(events, p, warmup, |p|) && m < |p| && PricedEvents(events)
    requires Follows(s, events, p, capital, m) && s.notional != 0.0 && p[m] != 0.0
    ensures Follows(s.Apply(SignalOn(events, m), p[m], m), events, p, capital, m + 1)
  {
    hide Holds, Recorded, Reached, Alternating, Priced, PricedEvents, SignalOn, Session.Settle, Session.Mark,
      Session.Profit;
    SettleStep(s, events, p, warmup, capital, m);
    MarkKeeps(s.Settle(SignalOn(events, m), p[m], m), events, capital, Reached(events, m + 1), m);
  }

  lemma AllReached(events: seq<TradeEvent>, p: seq<real>, warmup: nat)
    requires Alternating(events, p, warmup, |p|)
    ensures Reached(events, |p|) == |events|
  {
    ReachedSplits(events, p, warmup, |p|);
    if events != [] {
      assert events[|events| - 1].bar < |p|;
    }
  }

  /** What a session holds after its last bar. */
  lemma AtEnd(s: Session, events: seq<TradeEvent>, p: seq<real>, warmup: nat, capital: real)
    requires Alternating(events, p, warmup, |p|) && PricedEvents(events) && |p| > 0
    requires Follows(s, events, p, capital, |p|)
    ensures Holds(s, events, capital, |events|) && Recorded(s, events, |events|)
    ensures s.notional == capital && s.notional != 0.0 && s.currentPrice == p[|p| - 1] && s.pnl == s.Profit()
  {
    AllReached(events, p, warmup);
    hide Alternating, PricedEvents, Holds, Recorded, Reached, Session.Profit;
  }

  /** It is worth the strategy's growth, an odd buy at the end being valued at the last close. */
  lemma WorthAtEnd(s: Session, events: seq<TradeEvent>, p: seq<real>, warmup: nat, capital: real)
    requires Priced(p) && Alternating(events, p, warmup, |p|) && PricedEvents(events) && OnBars(events, p)
    requires |p| > 0 && s.currentPrice == p[|p| - 1] && Holds(s, events, capital, |events|)
    ensures s.TotalValue() == capital * StrategyGrowth(events, p)
  {
    var n := |events|;
    if n % 2 == 1 {
      assert events[n - 1].kind == Buy;
      hide Compounded, Worth, Growth, Alternating;
      WorthGrows(s.shares, events[n - 1].price, p[|p| - 1], capital * Compounded(events, n / 2));
      Regroup(capital, Compounded(events, n / 2), Growth(events[n - 1].price, p[|p| - 1]),
              StrategyGrowth(events, p), s.TotalValue());
    } else {
      hide Compounded, Worth, Growth, Alternating;
    }
  }

  /** A session whose events are all traded reports the strategy's return. */
  lemma FinalWorth(s: Session, events: seq<TradeEvent>, p: seq<real>, warmup: nat, capital: real)
    requires capital > 0.0 && Priced(p) && Alternating(events, p, warmup, |p|)
    requires PricedEvents(events) && OnBars(events, p)
    requires Follows(s, events, p, capital, |p|) && |p| > 0
    ensures s.trades == |events| && Recorded(s, events, |events|)
    ensures s.pnl == Percent(StrategyGrowth(events, p))
  {
    hide Alternating, Priced, PricedEvents, OnBars, Follows, Recorded, StrategyGrowth, Session.TotalValue,
      Session.Profit, Percent;
    AtEnd(s, events, p, warmup, capital);
    WorthAtEnd(s, events, p, warmup, capital);
    ProfitOf(s, capital, StrategyGrowth(events, p));
  }

  lemma Regroup(capital: real, g: real, h: real, gh: real, v: real)
    requires gh == g * h && v == (capital * g) * h
    ensures v == capital * gh
  {}

  /** The history lists the report's signals, in order. */
  ghost predicate HistoryMatches(s: Session, rows: seq<SignalRow>) {
    && |s.tradeHistory| == |rows|
    && forall j :: 0 <= j < |rows| ==>
         s.tradeHistory[j].at == rows[j].bar && s.tradeHistory[j].kind == rows[j].kind
             && s.tradeHistory[j].price == rows[j].price
  }

  lemma RecordsMatchRows(s: Session, events: seq<TradeEvent>, p: seq<real>, ahead: nat)
    requires Priced(p) && OnBars(events, p) && PricedEvents(events) && Recorded(s, events, |events|)
    ensures HistoryMatches(s, Rows(events, p, ahead))
  {
    hide Compounded, Percent, Change;
  }

  /**
   * For every strategy and price series, polling a session once per bar with the backtest's events
   * ends with the backtest's return, trade count and signals.
   */
  lemma LedgerAgrees(sqrt: real -> real, strategy: Strategy, p: seq<real>, capital: real, ahead: nat)
    requires IsSqrt(sqrt) && strategy.Ok() && Priced(p) && capital > 0.0
    requires Backtested(sqrt, strategy, p, ahead).Report?
    ensures var r := Backtested(sqrt, strategy, p, ahead);
            var s := Fed(Trade(sqrt, strategy, p, |p|).0, p, capital, |p|);
            s.pnl == r.stratReturn && s.trades == r.numSignals && HistoryMatches(s, r.signals)
  {
    var events := Trade(sqrt, strategy, p, |p|).0;
    TradesAlternate(sqrt, strategy, p, |p|);
    EventsArePriced(events, p, strategy.Warmup());
    hide Trade, Priced, OnBars, PricedEvents, StrategyGrowth, Rows, Correlation, Follows, Indicator, Changes,
      Alternating, Recorded;
    FedFollows(events, p, strategy.Warmup(), capital, |p|);
    FinalWorth(Fed(events, p, capital, |p|), events, p, strategy.Warmup(), capital);
    RecordsMatchRows(Fed(events, p, capital, |p|), events, p, ahead);
  }
}
