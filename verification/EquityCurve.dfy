/** What a paper-trading session reports after any sequence of polls, from the signals and prices alone. */
module EquityCurve {
  import Backtest
  import opened Common
  import opened Ledger
  import opened LedgerAgreement
  import opened Pearson
  import opened RingHistory
  import opened Strategies

  /** A signal, the price and the clock of one poll. */
  datatype Poll = Poll(want: Signal, price: real, now: int)

  ghost predicate Priced(polls: seq<Poll>) {
    forall i :: 0 <= i < |polls| ==> polls[i].price > 0.0
  }

  /** The session after these polls. */
  function Polled(capital: real, polls: seq<Poll>): (s: Session)
    requires capital != 0.0 && Priced(polls)
    ensures s.notional == capital
  {
    if polls == [] then Opened(capital)
    else
      var last := polls[|polls| - 1];
      Polled(capital, polls[..|polls| - 1]).Apply(last.want, last.price, last.now)
  }

  // ---------------------------------------------------------------- from signals and prices alone

  /** Whether a position is held after the polls: since the last buy there was no sell. */
  predicate Held(polls: seq<Poll>) {
    if polls == [] then false
    else
      var last := polls[|polls| - 1];
      last.want == Buy || (last.want == Hold && Held(polls[..|polls| - 1]))
  }

  /** The factor by which an account has grown: with the price while it holds, not at all while it does not. */
  function Growth(polls: seq<Poll>): real
    requires Priced(polls)
  {
    if |polls| < 2 then 1.0
    else Growth(polls[..|polls| - 1]) * Factor(polls[..|polls| - 1], polls[|polls| - 1])
  }

  /** The growth from one poll to the next. */
  function Factor(before: seq<Poll>, last: Poll): real
    requires before != [] && Priced(before)
  {
    if Held(before) then last.price / before[|before| - 1].price else 1.0
  }

  /** In percent. */
  function Profit(polls: seq<Poll>): real
    requires Priced(polls)
  {
    (Growth(polls) - 1.0) * 100.0
  }

  /** One point per poll. */
  function Curve(polls: seq<Poll>): seq<EquityPoint>
    requires Priced(polls)
  {
    if polls == [] then []
    else Curve(polls[..|polls| - 1]) + [EquityPoint(polls[|polls| - 1].now, Profit(polls))]
  }

  /** The last poll opens or closes a position. */
  predicate Turns(polls: seq<Poll>)
    requires polls != []
  {
    Held(polls) != Held(polls[..|polls| - 1])
  }

  /** One record per position opened or closed, at the price and with the profit of that moment. */
  function History(polls: seq<Poll>): seq<TradeRecord>
    requires Priced(polls)
  {
    if polls == [] then []
    else
      var last := polls[|polls| - 1];
      History(polls[..|polls| - 1])
      + if Turns(polls) then
          [TradeRecord(last.now, if Held(polls) then Buy else Sell, last.price, Profit(polls))]
        else []
  }

  /** The poll that opened the last position. */
  function Entry(polls: seq<Poll>): Poll {
    if polls == [] then Poll(Hold, 0.0, 0)
    else if Turns(polls) && Held(polls) then polls[|polls| - 1]
    else Entry(polls[..|polls| - 1])
  }

  // ---------------------------------------------------------------- the session is that

  /** The position, its entry, and every change of it. */
  ghost predicate TradesRead(s: Session, polls: seq<Poll>)
    requires Priced(polls)
  {
    && (s.position == Long <==> Held(polls))
    && Entry(polls).price == s.entryPrice && Entry(polls).now == s.entryTime
    && s.trades == |History(polls)| && s.tradeHistory == History(polls)
  }

  /** What the account is worth, its profit, and the newest 2000 points of its curve. */
  ghost predicate MarksRead(s: Session, capital: real, polls: seq<Poll>)
    requires Priced(polls)
  {
    && s.notional == capital && Balances(s, Account(capital, Growth(polls)))
    && s.equityCurve == Last(2000, Curve(polls))
    && (if polls == [] then s.pnl == 0.0 && s.signal == Hold
        else s.pnl == Profit(polls) && s.currentPrice == polls[|polls| - 1].price
             && s.signal == polls[|polls| - 1].want)
  }

  ghost predicate Reads(s: Session, capital: real, polls: seq<Poll>)
    requires Priced(polls)
  {
    TradesRead(s, polls) && MarksRead(s, capital, polls)
  }

  /** What the capital has grown to. */
  function Account(capital: real, growth: real): real {
    capital * growth
  }

  /** The account holds `worth`: all in shares at the current price, or all in cash. */
  ghost predicate Balances(s: Session, worth: real) {
    if s.position == Long then Worth(s.shares, s.currentPrice) == worth && s.cash == 0.0
    else s.cash == worth && s.shares == 0.0
  }

  /** A new price changes the worth of what is held in proportion. */
  lemma NewPrice(s: Session, worth: real, price: real, worth': real)
    requires Balances(s, worth) && s.currentPrice > 0.0 && price > 0.0
    requires worth' == worth * if s.position == Long then price / s.currentPrice else 1.0
    ensures Balances(s.(currentPrice := price), worth')
  {
    if s.position == Long {
      var q := price / s.currentPrice;
      assert q * s.currentPrice == price;
      assert s.shares * price == (s.shares * s.currentPrice) * q;
    }
  }

  lemma SameWorth(s: Session, worth: real)
    requires Balances(s, worth)
    ensures s.TotalValue() == worth
  {}

  /** What trading does to an account quoted at the current price. */
  lemma SettleReads(s: Session, want: Signal, now: int, capital: real, growth: real)
    requires capital > 0.0 && s.notional == capital && s.signal == want && s.currentPrice > 0.0
    requires Balances(s, Account(capital, growth))
    ensures var s' := s.Settle(want, s.currentPrice, now);
            var held, held' := s.position == Long, s'.position == Long;
            && Balances(s', Account(capital, growth))
            && (held' <==> want == Buy || (want == Hold && held))
            && (if held' != held then
                  s'.tradeHistory == s.tradeHistory
                                     + [TradeRecord(now, if held' then Buy else Sell, s.currentPrice, Percent(growth))]
                      && s'.trades == s.trades + 1
                else s'.tradeHistory == s.tradeHistory && s'.trades == s.trades)
            && (if held' && !held then s'.entryPrice == s.currentPrice && s'.entryTime == now
                else s'.entryPrice == s.entryPrice && s'.entryTime == s.entryTime)
            && s'.equityCurve == s.equityCurve && s'.currentPrice == s.currentPrice && s'.signal == want
            && s'.notional == capital && s'.pnl == s.pnl
  {
    var worth, price := Account(capital, growth), s.currentPrice;
    if want == Buy && s.position == Flat {
      var bought := s.(position := Long, entryPrice := price, entryTime := now, shares := s.cash / price, cash := 0.0);
      assert Worth(s.cash / price, price) == s.cash;
      hide Worth;
      SameWorth(bought, worth);
      hide Balances, Session.Profit, Session.TotalValue;
      ProfitOf(bought, capital, growth);
    } else if want == Sell && s.position == Long {
      var sold := s.(position := Flat, cash := Worth(s.shares, price), shares := 0.0);
      hide Worth;
      SameWorth(sold, worth);
      hide Session.Profit, Session.TotalValue;
      ProfitOf(sold, capital, growth);
    }
  }

  // ---------------------------------------------------------------- one more poll

  lemma PricedParts(before: seq<Poll>, last: Poll)
    requires Priced(before + [last])
    ensures Priced(before) && last.price > 0.0
  {
    var polls := before + [last];
    assert polls[|before|] == last;
    assert forall i :: 0 <= i < |before| ==> polls[i] == before[i];
  }

  lemma HeldExtends(before: seq<Poll>, last: Poll)
    ensures Held(before + [last]) <==> last.want == Buy || (last.want == Hold && Held(before))
    ensures Turns(before + [last]) <==> Held(before + [last]) != Held(before)
    ensures Entry(before + [last]) == if Turns(before + [last]) && Held(before + [last]) then last else Entry(before)
  {
    assert (before + [last])[..|before|] == before;
  }

  lemma GrowthExtends(before: seq<Poll>, last: Poll)
    requires Priced(before + [last]) && Priced(before)
    ensures Growth(before + [last])
            == if before == [] then 1.0 else Growth(before) * Factor(before, last)
  {
    assert (before + [last])[..|before|] == before;
    hide Factor;
  }

  lemma ListsExtend(before: seq<Poll>, last: Poll)
    requires Priced(before + [last]) && Priced(before)
    ensures var polls := before + [last];
            && Curve(polls) == Curve(before) + [EquityPoint(last.now, Profit(polls))]
            && History(polls)
               == History(before)
                  + if Turns(polls) then
                      [TradeRecord(last.now, if Held(polls) then Buy else Sell, last.price, Profit(polls))]
                    else []
  {
    assert (before + [last])[..|before|] == before;
    hide Held, Turns, Profit;
  }

  lemma QuoteReads(s: Session, capital: real, before: seq<Poll>, last: Poll)
    requires Priced(before + [last]) && Priced(before) && Reads(s, capital, before)
    ensures Balances(s.(currentPrice := last.price, signal := last.want), Account(capital, Growth(before + [last])))
  {
    PricedParts(before, last);
    GrowthExtends(before, last);
    var worth, growth' := Account(capital, Growth(before)), Growth(before + [last]);
    assert Balances(s, worth) && (s.position == Long <==> Held(before));
    if before == [] {
      assert Growth(before) == 1.0 && !Held(before);
    } else {
      assert s.currentPrice == before[|before| - 1].price > 0.0;
      var ratio := Factor(before, last);
      assert ratio == if s.position == Long then last.price / s.currentPrice else 1.0;
      hide *;
      Regrown(capital, Growth(before), ratio, growth', worth);
      NewPrice(s, worth, last.price, worth * ratio);
      Requoted(s.(currentPrice := last.price), last.want, Account(capital, growth'));
    }
  }

  lemma Regrown(capital: real, growth: real, ratio: real, growth': real, worth: real)
    requires growth' == growth * ratio && worth == Account(capital, growth)
    ensures Account(capital, growth') == worth * ratio
  {}

  lemma Requoted(s: Session, want: Signal, worth: real)
    ensures Balances(s, worth) <==> Balances(s.(signal := want), worth)
    ensures s.(currentPrice := s.currentPrice, signal := want) == s.(signal := want)
  {}

  lemma SettleQuoted(s: Session, want: Signal, price: real, now: int)
    requires s.notional != 0.0 && price != 0.0
    ensures s.Settle(want, price, now) == s.(currentPrice := price, signal := want).Settle(want, price, now)
  {
    hide Session.Record;
  }

  /** Marking adds a point with the profit of what the account is worth. */
  lemma MarkReads(s: Session, now: int, capital: real, growth: real)
    requires capital > 0.0 && s.notional == capital && Balances(s, Account(capital, growth))
    ensures s.Mark(now)
            == s.(pnl := Percent(growth),
                  equityCurve := Last(2000, s.equityCurve + [EquityPoint(now, Percent(growth))]))
  {
    SameWorth(s, Account(capital, growth));
    hide Session.Profit, Session.TotalValue, Balances, Percent;
    ProfitOf(s, capital, growth);
  }

  lemma PollReads(s: Session, capital: real, before: seq<Poll>, last: Poll)
    requires capital > 0.0 && Priced(before + [last]) && Priced(before) && Reads(s, capital, before)
    requires s.notional != 0.0 && last.price != 0.0
    ensures Reads(s.Apply(last.want, last.price, last.now), capital, before + [last])
  {
    var polls, growth := before + [last], Growth(before + [last]);
    var quoted := s.(currentPrice := last.price, signal := last.want);
    assert TradesRead(s, before) && TradesRead(quoted, before);
    assert s.notional == capital && s.equityCurve == Last(2000, Curve(before));
    PricedParts(before, last);
    QuoteReads(s, capital, before, last);
    SettleQuoted(s, last.want, last.price, last.now);
    SettleReads(quoted, last.want, last.now, capital, growth);
    var settled := quoted.Settle(last.want, last.price, last.now);
    MarkReads(settled, last.now, capital, growth);
    var marked := settled.Mark(last.now);
    assert marked == s.Apply(last.want, last.price, last.now);
    hide Session.Settle, Session.Mark, Balances, TradesRead, MarksRead, Growth, Percent, Curve, Last, Account;
    SettledTrades(quoted, settled, before, last, growth);
    SameTrades(settled, marked, polls);
    MarkedPoints(settled, marked, capital, before, last, growth);
  }

  lemma SettledTrades(quoted: Session, settled: Session, before: seq<Poll>, last: Poll, growth: real)
    requires Priced(before + [last]) && Priced(before) && TradesRead(quoted, before)
    requires growth == Growth(before + [last]) && quoted.currentPrice == last.price
    requires var held, held' := quoted.position == Long, settled.position == Long;
             && (held' <==> last.want == Buy || (last.want == Hold && held))
             && (if held' != held then
                   settled.tradeHistory
                   == quoted.tradeHistory
                      + [TradeRecord(last.now, if held' then Buy else Sell, last.price, Percent(growth))]
                       && settled.trades == quoted.trades + 1
                 else settled.tradeHistory == quoted.tradeHistory && settled.trades == quoted.trades)
             && (if held' && !held then settled.entryPrice == last.price && settled.entryTime == last.now
                 else settled.entryPrice == quoted.entryPrice && settled.entryTime == quoted.entryTime)
    ensures TradesRead(settled, before + [last])
  {
    HeldExtends(before, last);
    ListsExtend(before, last);
    assert Percent(growth) == Profit(before + [last]);
    assert History(before) + [] == History(before);
    hide Held, Turns, Growth, History, Profit, Entry, Percent, Curve;
  }

  lemma SameTrades(s: Session, s': Session, polls: seq<Poll>)
    requires Priced(polls) && TradesRead(s, polls)
    requires s'.position == s.position && s'.entryPrice == s.entryPrice && s'.entryTime == s.entryTime
    requires s'.trades == s.trades && s'.tradeHistory == s.tradeHistory
    ensures TradesRead(s', polls)
  {
    hide Held, Entry, History;
  }

  lemma MarkedPoints(settled: Session, marked: Session, capital: real, before: seq<Poll>, last: Poll, growth: real)
    requires Priced(before + [last]) && Priced(before) && growth == Growth(before + [last])
    requires Balances(settled, Account(capital, growth)) && settled.notional == capital
    requires settled.equityCurve == Last(2000, Curve(before))
    requires settled.currentPrice == last.price && settled.signal == last.want
    requires marked
             == settled.(pnl := Percent(growth),
                         equityCurve := Last(2000, settled.equityCurve + [EquityPoint(last.now, Percent(growth))]))
    ensures MarksRead(marked, capital, before + [last])
  {
    var polls := before + [last];
    ListsExtend(before, last);
    assert Percent(growth) == Profit(polls) && polls[|polls| - 1] == last;
    assert Balances(marked, Account(capital, growth));
    hide Balances, Growth, Curve, History, Profit, Percent, Last, Turns, Held, Account;
    LastOfLast(2000, Curve(before), [EquityPoint(last.now, Profit(polls))]);
  }

  /**
   * For every sequence of signals at positive prices: position, trades and their history are those of the
   * signals, every profit is the growth of the price over the polls that held, and the curve keeps the
   * newest 2000 of them.
   */
  lemma {:induction false} SessionReads(capital: real, polls: seq<Poll>)
    requires capital > 0.0 && Priced(polls)
    ensures Reads(Polled(capital, polls), capital, polls)
  {
    hide *;
    if polls == [] {
      OpenedReads(capital);
    } else {
      var before, last := polls[..|polls| - 1], polls[|polls| - 1];
      assert polls == before + [last];
      PricedParts(before, last);
      SessionReads(capital, before);
      PolledExtends(capital, before, last);
      PollReads(Polled(capital, before), capital, before, last);
    }
  }

  lemma OpenedReads(capital: real)
    requires capital > 0.0 && Priced([])
    ensures Reads(Polled(capital, []), capital, [])
  {}

  lemma PolledExtends(capital: real, before: seq<Poll>, last: Poll)
    requires capital != 0.0 && Priced(before) && Priced(before + [last]) && last.price != 0.0
    ensures Polled(capital, before + [last]) == Polled(capital, before).Apply(last.want, last.price, last.now)
  {
    assert (before + [last])[..|before|] == before;
    hide Session.Apply;
  }

  // ---------------------------------------------------------------- the backtest's return

  /** One poll per bar, with the events of a backtest as signals. */
  function PollsOf(events: seq<TradeEvent>, p: seq<real>): (polls: seq<Poll>)
    ensures |polls| == |p|
  {
    seq(|p|, i requires 0 <= i < |p| => Poll(SignalOn(events, i), p[i], i))
  }

  lemma {:induction false} FedIsPolled(events: seq<TradeEvent>, p: seq<real>, capital: real, m: nat)
    requires m <= |p| && Backtest.Priced(p) && capital != 0.0
    ensures Priced(PollsOf(events, p)[..m])
    ensures Fed(events, p, capital, m) == Polled(capital, PollsOf(events, p)[..m])
  {
    if m > 0 {
      FedIsPolled(events, p, capital, m - 1);
      var polls := PollsOf(events, p)[..m];
      assert polls[..m - 1] == PollsOf(events, p)[..m - 1];
      hide Session.Apply, SignalOn;
    }
  }

  /** The return that a backtest reports is the growth of the closes over the bars on which it holds. */
  lemma ReturnIsHeldGrowth(sqrt: real -> real, s: Strategy, p: seq<real>, ahead: nat)
    requires IsSqrt(sqrt) && s.Ok() && Backtest.Priced(p) && Backtest.Backtested(sqrt, s, p, ahead).Report?
    ensures var polls := PollsOf(Trade(sqrt, s, p, |p|).0, p);
            Priced(polls) && Backtest.Backtested(sqrt, s, p, ahead).stratReturn == Profit(polls)
  {
    var events := Trade(sqrt, s, p, |p|).0;
    var polls := PollsOf(events, p);
    assert p != [];
    hide *;
    FedIsPolled(events, p, 1.0, |p|);
    assert polls[..|p|] == polls;
    LedgerAgrees(sqrt, s, p, 1.0, ahead);
    SessionReads(1.0, polls);
    LastProfit(Polled(1.0, polls), polls);
  }

  lemma LastProfit(s: Session, polls: seq<Poll>)
    requires Priced(polls) && polls != [] && Reads(s, 1.0, polls)
    ensures s.pnl == Profit(polls)
  {}
}
