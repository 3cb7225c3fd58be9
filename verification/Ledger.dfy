/** cmd/dashboard/livestrategy.go: the paper-trading session and its cash-and-shares ledger. */
module Ledger {
  import opened Common
  import opened Strategies

  datatype Holding = Flat | Long

  /** What is recorded at each trade; `pnl` is cumulative, in percent. */
  datatype TradeRecord = TradeRecord(at: int, kind: Signal, price: real, pnl: real)

  datatype EquityPoint = EquityPoint(at: int, pnl: real)

  const CURVE_LENGTH: nat := 2000

  // ---------------------------------------------------------------- the session, as a value

  datatype Session = Session(position: Holding, entryPrice: real, entryTime: int, cash: real, shares: real,
                             notional: real,
                             currentPrice: real, pnl: real, trades: nat, signal: Signal,
                             tradeHistory: seq<TradeRecord>, equityCurve: seq<EquityPoint>)
  {
    /** The account's worth at the current price. */
    function TotalValue(): real {
      if position == Long then Worth(shares, currentPrice) else cash
    }

    function Profit(): real
      requires notional != 0.0
    {
      (TotalValue() - notional) / notional * 100.0
    }

    /** Marks the session to the current price: profit and one more point on the curve. */
    function Mark(now: int): Session
      requires notional != 0.0
    {
      this.(pnl := Profit(), equityCurve := Last(CURVE_LENGTH, equityCurve + [EquityPoint(now, Profit())]))
    }

    function Record(kind: Signal, now: int): Session
      requires notional != 0.0
    {
      this.(trades := trades + 1,
            tradeHistory := tradeHistory + [TradeRecord(now, kind, currentPrice, Profit())])
    }

    /** A buy puts all cash into shares, a sell turns all shares into cash; anything else trades nothing. */
    function Settle(want: Signal, price: real, now: int): Session
      requires notional != 0.0 && price != 0.0
    {
      var s := this.(currentPrice := price, signal := want);
      if want == Buy && position == Flat then
        s.(position := Long, entryPrice := price, entryTime := now, shares := cash / price, cash := 0.0)
        .Record(Buy, now)
      else if want == Sell && position == Long then
        s.(position := Flat, cash := Worth(shares, price), shares := 0.0).Record(Sell, now)
      else s
    }

    /** One poll: trade if asked to, then mark to the price. */
    function Apply(want: Signal, price: real, now: int): Session
      requires notional != 0.0 && price != 0.0
    {
      Settle(want, price, now).Mark(now)
    }
  }

  function Worth(shares: real, price: real): real {
    shares * price
  }

  /** A session as it is started. */
  function Opened(capital: real): Session {
    Session(Flat, 0.0, 0, capital, 0.0, capital, 0.0, 0.0, 0, Hold, [], [])
  }

  // ---------------------------------------------------------------- the session, in place

  class LiveSession {
    var position: Holding
    var entryPrice: real
    var entryTime: int
    var cash: real
    var shares: real
    var notional: real
    var currentPrice: real
    var pnl: real
    var trades: nat
    var signal: Signal
    var tradeHistory: seq<TradeRecord>
    var equityCurve: seq<EquityPoint>

    ghost function Value(): Session
      reads this
    {
      Session(position, entryPrice, entryTime, cash, shares, notional, currentPrice, pnl, trades, signal,
              tradeHistory, equityCurve)
    }

    constructor (capital: real)
      ensures Value() == Opened(capital)
    {
      position, entryPrice, entryTime := Flat, 0.0, 0;
      cash, shares, notional := capital, 0.0, capital;
      currentPrice, pnl, trades, signal := 0.0, 0.0, 0, Hold;
      tradeHistory, equityCurve := [], [];
    }

    method TotalValue() returns (v: real)
      ensures v == Value().TotalValue()
    {
      if position == Long {
        return shares * currentPrice;
      }
      return cash;
    }

    method ProfitNow() returns (profit: real)
      requires notional != 0.0
      ensures profit == Value().Profit()
    {
      var total := TotalValue();
      profit := (total - notional) / notional * 100.0;
    }

    method RecordTrade(kind: Signal, now: int)
      requires notional != 0.0
      modifies this`trades, this`tradeHistory
      ensures Value() == old(Value()).Record(kind, now)
    {
      hide Session.Profit;
      var profit := ProfitNow();
      assert profit == old(Value()).Profit();
      trades := trades + 1;
      tradeHistory := tradeHistory + [TradeRecord(now, kind, currentPrice, profit)];
    }

    method MarkToMarket(now: int)
      requires notional != 0.0
      modifies this`pnl, this`equityCurve
      ensures Value() == old(Value()).Mark(now)
    {
      hide Session.Profit;
      var profit := ProfitNow();
      assert profit == old(Value()).Profit();
      pnl := profit;
      equityCurve := equityCurve + [EquityPoint(now, pnl)];
      if |equityCurve| > CURVE_LENGTH {
        equityCurve := equityCurve[|equityCurve| - CURVE_LENGTH..];
      }
    }

    method ApplySignal(want: Signal, price: real, now: int)
      requires notional != 0.0 && price != 0.0
      modifies this
      ensures Value() == old(Value()).Apply(want, price, now)
    {
      hide Session.Record, Session.Mark;
      currentPrice := price;
      signal := want;
      ghost var quoted := old(Value()).(currentPrice := price, signal := want);
      assert Value() == quoted;
      if want == Buy && position == Flat {
        position := Long;
        entryPrice := price;
        entryTime := now;
        shares := cash / price;
        cash := 0.0;
        assert Value() == quoted.(position := Long, entryPrice := price, entryTime := now,
                                  shares := quoted.cash / price, cash := 0.0);
        RecordTrade(Buy, now);
      } else if want == Sell && position == Long {
        cash := shares * price;
        shares := 0.0;
        position := Flat;
        assert Value() == quoted.(position := Flat, cash := Worth(quoted.shares, price), shares := 0.0);
        hide Worth;
        RecordTrade(Sell, now);
      }
      assert Value() == old(Value()).Settle(want, price, now);
      MarkToMarket(now);
    }
  }
}
