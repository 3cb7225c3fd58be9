/**
 * The backtest and the live session hold the same position: a backtest acts on edges and starts flat,
 * a session is told the level on every poll.
 */
module LiveAgreement {
  import opened Backtest
  import opened Causality
  import opened Common
  import opened Indicators
  import opened Ledger
  import opened LiveSignals
  import opened Pearson
  import Samuelson
  import opened Strategies
  import opened StrategyFacts
  import UnitInvariance

  // ---------------------------------------------------------------- a session polled once per bar

  /** The session after one poll per bar, each with the live signal on the closes up to that bar. */
  function Polled(sqrt: real -> real, s: Strategy, p: seq<real>, capital: real, m: nat): (r: Session)
    requires s.Ok() && Priced(p) && capital != 0.0 && m <= |p|
    ensures r.notional == capital
  {
    if m == 0 then Opened(capital)
    else Polled(sqrt, s, p, capital, m - 1).Apply(Live(sqrt, s, p[..m]), p[m - 1], m - 1)
  }

  /** The position after a signal. */
  predicate Obeys(held: bool, want: Signal) {
    want == Buy || (want == Hold && held)
  }

  lemma ApplyObeys(s: Session, want: Signal, price: real, now: int)
    requires s.notional != 0.0 && price != 0.0
    ensures s.Apply(want, price, now).position == Long <==> Obeys(s.position == Long, want)
  {
    hide Session.TotalValue, Worth;
  }

  lemma PollObeys(sqrt: real -> real, s: Strategy, p: seq<real>, capital: real, m: nat)
    requires s.Ok() && Priced(p) && capital != 0.0 && 0 < m <= |p|
    ensures Polled(sqrt, s, p, capital, m).position == Long
            <==> Obeys(Polled(sqrt, s, p, capital, m - 1).position == Long, Live(sqrt, s, p[..m]))
  {
    hide Live, Session.Apply, Obeys;
    ApplyObeys(Polled(sqrt, s, p, capital, m - 1), Live(sqrt, s, p[..m]), p[m - 1], m - 1);
  }

  /** What bar `i` alone says, past closes included but not past signals. */
  function Level(sqrt: real -> real, s: Strategy, p: seq<real>, i: nat): Signal
    requires s.Ok() && !s.Breakout? && i < |p|
  {
    match s
    case Crossover(_, _, _) => Side(p, s, i)
    case MeanReversion(period, oversold, overbought) => Classify(Rsi(p, period, i), oversold, overbought)
    case Bollinger(period, k) => Banded(sqrt, p, period, k, i)
  }

  /** The position after obeying the levels of the bars from `a` to `m`, starting flat. */
  predicate Obeyed(sqrt: real -> real, s: Strategy, p: seq<real>, a: nat, m: nat)
    requires s.Ok() && !s.Breakout? && m <= |p|
  {
    a < m && Obeys(Obeyed(sqrt, s, p, a, m - 1), Level(sqrt, s, p, m - 1))
  }

  // ---------------------------------------------------------------- the session obeys the levels

  lemma {:induction false} LastRsiIsCausal(p: seq<real>, q: seq<real>, period: nat, n: nat)
    requires 1 <= period && Agree(p, q, n)
    ensures LastRsi(p, period, n) == LastRsi(q, period, n)
  {
    if n > 0 {
      hide Rsi;
      RsiIsCausal(p, q, period, n - 1);
      LastRsiIsCausal(p, q, period, n - 1);
    }
  }

  lemma BandedIsCausal(sqrt: real -> real, p: seq<real>, q: seq<real>, period: nat, k: real, i: nat)
    requires 1 <= period && Agree(p, q, i + 1)
    ensures Banded(sqrt, p, period, k, i) == Banded(sqrt, q, period, k, i)
  {
    hide Band, Middle;
    BandIsCausal(sqrt, p, q, period, k, i);
    BandIsCausal(sqrt, p, q, period, -k, i);
  }

  /** The signal on a prefix: the level of its last bar, or for RSI of the last bar that had one. */
  lemma LiveOnPrefix(sqrt: real -> real, s: Strategy, p: seq<real>, m: nat)
    requires s.Ok() && !s.Breakout? && 0 < m <= |p|
    ensures Live(sqrt, s, p[..m])
            == if s.MeanReversion? then Classify(LastRsi(p, s.period, m), s.oversold, s.overbought)
               else Level(sqrt, s, p, m - 1)
  {
    hide Above, LastRsi, Banded, Classify;
    match s
    case Crossover(_, _, _) => AboveIsCausal(p[..m], p, s, m - 1);
    case MeanReversion(period, _, _) => LastRsiIsCausal(p[..m], p, period, m);
    case Bollinger(period, k) => BandedIsCausal(sqrt, p[..m], p, period, k, m - 1);
  }

  /** Repeating a signal changes nothing, so a session that skips undefined RSIs still obeys the levels. */
  lemma {:induction false} SessionObeys(sqrt: real -> real, s: Strategy, p: seq<real>, capital: real, m: nat)
    requires s.Ok() && !s.Breakout? && Priced(p) && capital != 0.0 && m <= |p|
    ensures Polled(sqrt, s, p, capital, m).position == Long <==> Obeyed(sqrt, s, p, 0, m)
  {
    hide *;
    if m == 0 {
      NothingPolled(sqrt, s, p, capital);
    } else {
      SessionObeys(sqrt, s, p, capital, m - 1);
      PollObeys(sqrt, s, p, capital, m);
      LiveOnPrefix(sqrt, s, p, m);
      ObeyedStep(sqrt, s, p, 0, m);
      if s.MeanReversion? {
        LevelIsRsi(sqrt, s, p, m - 1);
        SkippedRsi(p, s, m);
        if m > 1 {
          PollObeys(sqrt, s, p, capital, m - 1);
          LiveOnPrefix(sqrt, s, p, m - 1);
          Repeat(Polled(sqrt, s, p, capital, m - 2).position == Long, Live(sqrt, s, p[..m - 1]));
        } else {
          FirstRsi(p, s);
        }
        ObeyHold(Obeyed(sqrt, s, p, 0, m - 1));
      }
    }
  }

  lemma ObeyedStep(sqrt: real -> real, s: Strategy, p: seq<real>, a: nat, m: nat)
    requires s.Ok() && !s.Breakout? && a < m <= |p|
    ensures Obeyed(sqrt, s, p, a, m) <==> Obeys(Obeyed(sqrt, s, p, a, m - 1), Level(sqrt, s, p, m - 1))
  {
    hide Level, Obeys;
  }

  lemma Repeat(held: bool, want: Signal)
    ensures Obeys(Obeys(held, want), want) == Obeys(held, want)
  {}

  lemma ObeyHold(held: bool)
    ensures Obeys(held, Hold) == held
  {}

  lemma NothingPolled(sqrt: real -> real, s: Strategy, p: seq<real>, capital: real)
    requires s.Ok() && !s.Breakout? && Priced(p) && capital != 0.0
    ensures Polled(sqrt, s, p, capital, 0).position == Flat && !Obeyed(sqrt, s, p, 0, 0)
  {}

  lemma SkippedRsi(p: seq<real>, s: Strategy, m: nat)
    requires s.MeanReversion? && s.Ok() && 0 < m <= |p|
    ensures var level := Classify(Rsi(p, s.period, m - 1), s.oversold, s.overbought);
            var live := Classify(LastRsi(p, s.period, m), s.oversold, s.overbought);
            live == level || (level == Hold && live == Classify(LastRsi(p, s.period, m - 1), s.oversold, s.overbought))
  {
    hide Rsi;
  }

  lemma FirstRsi(p: seq<real>, s: Strategy)
    requires s.MeanReversion? && s.Ok() && p != []
    ensures Classify(Rsi(p, s.period, 0), s.oversold, s.overbought) == Hold
    ensures Classify(LastRsi(p, s.period, 1), s.oversold, s.overbought) == Hold
  {}

  lemma LevelIsRsi(sqrt: real -> real, s: Strategy, p: seq<real>, i: nat)
    requires s.Ok() && s.MeanReversion? && i < |p|
    ensures Level(sqrt, s, p, i) == Classify(Rsi(p, s.period, i), s.oversold, s.overbought)
  {}

  // ---------------------------------------------------------------- crossover

  /** From bar `lo` to bar `i`, the fast average was at some bar not above the slow one. */
  predicate WasNotAbove(p: seq<real>, s: Strategy, lo: nat, i: nat)
    requires s.Crossover? && s.Ok() && i < |p|
  {
    exists j :: lo <= j <= i && !Above(p, s, j)
  }

  /** The backtest holds exactly when fast is above slow and at some bar since `slow` was not. */
  lemma {:induction false} HeldIff(sqrt: real -> real, s: Strategy, p: seq<real>, i: nat)
    requires s.Crossover? && s.Ok() && s.slow <= i < |p|
    ensures Trade(sqrt, s, p, i + 1).1.held <==> Above(p, s, i) && WasNotAbove(p, s, s.slow, i)
  {
    hide Above;
    if i > s.slow {
      HeldIff(sqrt, s, p, i - 1);
    }
  }

  lemma CrossoverSession(sqrt: real -> real, s: Strategy, p: seq<real>, capital: real, i: nat)
    requires s.Crossover? && s.Ok() && Priced(p) && capital != 0.0 && s.slow <= i < |p|
    ensures Polled(sqrt, s, p, capital, i + 1).position == Long <==> Above(p, s, i)
  {
    hide Above, Priced, Polled, Live;
    PollObeys(sqrt, s, p, capital, i + 1);
    LiveOnPrefix(sqrt, s, p, i + 1);
  }

  /**
   * Edge-triggered equals level-triggered: after bar `i` the backtest and the session hold the same
   * position exactly when, at some bar from `slow` on, the fast average was not above the slow one.
   */
  lemma CrossoverAgreesIff(sqrt: real -> real, s: Strategy, p: seq<real>, capital: real, i: nat)
    requires s.Crossover? && s.Ok() && Priced(p) && capital != 0.0 && s.slow <= i < |p|
    ensures WasNotAbove(p, s, s.slow, i)
            <==> (Trade(sqrt, s, p, i + 1).1.held <==> Polled(sqrt, s, p, capital, i + 1).position == Long)
  {
    HeldIff(sqrt, s, p, i);
    CrossoverSession(sqrt, s, p, capital, i);
    hide Above, Trade, Polled;
  }

  // ---------------------------------------------------------------- RSI and Bollinger

  /** Some bar from `a` to `m` says buy or sell. */
  predicate Decisive(sqrt: real -> real, s: Strategy, p: seq<real>, a: nat, m: nat)
    requires s.Ok() && !s.Breakout? && m <= |p|
  {
    exists j :: a <= j < m && Level(sqrt, s, p, j) != Hold
  }

  lemma {:induction false} NothingEarly(sqrt: real -> real, s: Strategy, p: seq<real>, m: nat)
    requires s.Ok() && (s.MeanReversion? || s.Bollinger?) && m < s.Warmup() && m <= |p|
    ensures !Obeyed(sqrt, s, p, 0, m)
  {
    if m > 0 {
      hide Obeys;
      NothingEarly(sqrt, s, p, m - 1);
      EarlyLevel(sqrt, s, p, m - 1);
      ObeyHold(Obeyed(sqrt, s, p, 0, m - 1));
      hide Level;
    }
  }

  lemma EarlyLevel(sqrt: real -> real, s: Strategy, p: seq<real>, i: nat)
    requires s.Ok() && (s.MeanReversion? || s.Bollinger?) && i + 1 < s.Warmup() && i < |p|
    ensures Level(sqrt, s, p, i) == Hold
  {}

  /** Prices are positive and bands do not cross. */
  ghost predicate Sensible(s: Strategy, p: seq<real>) {
    Priced(p) && (s.Bollinger? ==> s.stdDevs >= 0.0)
  }

  /** Bar `i` can tear a holder: its RSI lies beyond overlapping thresholds, or its lower band is exactly 0. */
  predicate Tearing(sqrt: real -> real, s: Strategy, p: seq<real>, i: nat)
    requires s.Ok() && (s.MeanReversion? || s.Bollinger?) && i < |p|
  {
    if s.MeanReversion? then
      Rsi(p, s.period, i) != 0.0 && s.overbought < Rsi(p, s.period, i) < s.oversold
    else
      Band(sqrt, p, s.period, -s.stdDevs, i) == 0.0 && p[i] > Middle(p, s.period, i)
  }

  /**
   * The backtest holds but does not do what the level of bar `i` says: it sells although a session is told
   * to buy, or sits out a sale.
   */
  predicate Torn(sqrt: real -> real, s: Strategy, p: seq<real>, pos: Position, i: nat)
    requires s.Ok() && (s.MeanReversion? || s.Bollinger?) && i < |p|
  {
    pos.held && Tearing(sqrt, s, p, i)
  }

  /** Bar by bar: backtest and level agree on the position exactly when the bar is not torn. */
  lemma DecideObeysIff(sqrt: real -> real, s: Strategy, p: seq<real>, pos: Position, i: nat)
    requires IsSqrt(sqrt) && s.Ok() && (s.MeanReversion? || s.Bollinger?) && Sensible(s, p) && s.Warmup() <= i < |p|
    ensures (Act(pos, Decide(sqrt, s, p, pos, i), i).held <==> Obeys(pos.held, Level(sqrt, s, p, i)))
            <==> !Torn(sqrt, s, p, pos, i)
    ensures Torn(sqrt, s, p, pos, i) ==> Level(sqrt, s, p, i) != Hold
  {
    if s.Bollinger? {
      BandsAreOrdered(sqrt, p, s.period, s.stdDevs, i);
      assert p[i] > 0.0;
    }
    hide IsSqrt, Priced, Band, Middle, Rsi;
  }

  /** Around positive prices: the bands lie on either side of a positive middle. */
  lemma BandsAreOrdered(sqrt: real -> real, p: seq<real>, period: nat, k: real, i: nat)
    requires IsSqrt(sqrt) && Priced(p) && k >= 0.0 && 1 <= period <= i + 1 <= |p|
    ensures Band(sqrt, p, period, -k, i) <= Middle(p, period, i) <= Band(sqrt, p, period, k, i)
    ensures Middle(p, period, i) > 0.0
  {
    var variance, middle := Variance(p, period, i), Middle(p, period, i);
    UnitInvariance.VarianceIsNonNegative(p, period, i);
    Samuelson.RootOf(sqrt, variance, sqrt(variance));
    BandIs(sqrt, p, period, k, i, middle, sqrt(variance));
    BandIs(sqrt, p, period, -k, i, middle, sqrt(variance));
    PositiveSum(p, i + 1 - period, i + 1);
    PositiveMean(SumRange(p, i + 1 - period, i + 1), period as real, middle);
    hide *;
    BandOrder(middle, k, sqrt(variance));
  }

  lemma BandOrder(middle: real, k: real, std: real)
    requires k >= 0.0 && std >= 0.0
    ensures middle + -k * std <= middle <= middle + k * std
  {
    var b := k * std;
    assert b >= 0.0 && -k * std == -b;
  }

  lemma PositiveMean(sum: real, n: real, mean: real)
    requires sum > 0.0 && n > 0.0 && mean == sum / n
    ensures mean > 0.0
  {}

  lemma {:induction false} PositiveSum(p: seq<real>, lo: nat, hi: nat)
    requires lo <= hi <= |p| && Priced(p)
    ensures SumRange(p, lo, hi) >= 0.0
    ensures lo < hi ==> SumRange(p, lo, hi) > 0.0
  {
    if lo < hi {
      PositiveSum(p, lo, hi - 1);
    }
  }

  /** Some bar from `a` to `m` was torn, and no later one has been decisive. */
  predicate StillTorn(sqrt: real -> real, s: Strategy, p: seq<real>, a: nat, m: nat)
    requires s.Ok() && (s.MeanReversion? || s.Bollinger?) && m <= |p|
  {
    exists j :: a <= j < m && TornAt(sqrt, s, p, j) && QuietAfter(sqrt, s, p, j, m)
  }

  predicate TornAt(sqrt: real -> real, s: Strategy, p: seq<real>, i: nat)
    requires s.Ok() && (s.MeanReversion? || s.Bollinger?) && i < |p|
  {
    Torn(sqrt, s, p, Trade(sqrt, s, p, i).1, i)
  }

  predicate QuietAfter(sqrt: real -> real, s: Strategy, p: seq<real>, i: nat, m: nat)
    requires s.Ok() && !s.Breakout? && m <= |p|
  {
    !Decisive(sqrt, s, p, i + 1, m)
  }

  lemma StillTornStep(sqrt: real -> real, s: Strategy, p: seq<real>, a: nat, m: nat)
    requires s.Ok() && (s.MeanReversion? || s.Bollinger?) && a < m <= |p|
    ensures StillTorn(sqrt, s, p, a, m)
            <==> Torn(sqrt, s, p, Trade(sqrt, s, p, m - 1).1, m - 1)
                 || (StillTorn(sqrt, s, p, a, m - 1) && Level(sqrt, s, p, m - 1) == Hold)
  {
    hide Level, Torn, Trade;
    forall j | a <= j < m - 1
      ensures QuietAfter(sqrt, s, p, j, m) <==> QuietAfter(sqrt, s, p, j, m - 1) && Level(sqrt, s, p, m - 1) == Hold
    {
      DecisiveStep(sqrt, s, p, j + 1, m);
    }
    assert QuietAfter(sqrt, s, p, m - 1, m);
    assert TornAt(sqrt, s, p, m - 1) <==> Torn(sqrt, s, p, Trade(sqrt, s, p, m - 1).1, m - 1);
    hide QuietAfter, TornAt;
  }

  lemma DecisiveStep(sqrt: real -> real, s: Strategy, p: seq<real>, a: nat, m: nat)
    requires s.Ok() && !s.Breakout? && a < m <= |p|
    ensures Decisive(sqrt, s, p, a, m) <==> Decisive(sqrt, s, p, a, m - 1) || Level(sqrt, s, p, m - 1) != Hold
  {
    hide Level;
  }

  /** The session is ahead: it bought on the bar before the backtest's first, and no bar has been decisive since. */
  predicate Ahead(sqrt: real -> real, s: Strategy, p: seq<real>, m: nat)
    requires s.Ok() && (s.MeanReversion? || s.Bollinger?) && s.Warmup() <= m <= |p|
  {
    Level(sqrt, s, p, s.Warmup() - 1) == Buy && !Decisive(sqrt, s, p, s.Warmup(), m)
  }

  lemma {:induction false} ObeyedDiffersIff(sqrt: real -> real, s: Strategy, p: seq<real>, m: nat)
    requires IsSqrt(sqrt) && s.Ok() && (s.MeanReversion? || s.Bollinger?) && Sensible(s, p) && s.Warmup() <= m <= |p|
    ensures (Trade(sqrt, s, p, m).1.held <==> Obeyed(sqrt, s, p, 0, m))
            <==> !Ahead(sqrt, s, p, m) && !StillTorn(sqrt, s, p, s.Warmup(), m)
  {
    hide *;
    if m == s.Warmup() {
      AtWarmup(sqrt, s, p);
    } else {
      ObeyedDiffersIff(sqrt, s, p, m - 1);
      var run := Trade(sqrt, s, p, m - 1);
      TradeStep(sqrt, s, p, m);
      ExtendActs(run, Decide(sqrt, s, p, run.1, m - 1), p, m - 1);
      DecideObeysIff(sqrt, s, p, run.1, m - 1);
      ObeyedStep(sqrt, s, p, 0, m);
      StillTornStep(sqrt, s, p, s.Warmup(), m);
      AheadStep(sqrt, s, p, m);
      ObeyTwo(run.1.held, Obeyed(sqrt, s, p, 0, m - 1), Level(sqrt, s, p, m - 1));
    }
  }

  lemma ExtendActs(run: (seq<TradeEvent>, Position), kind: Signal, p: seq<real>, i: nat)
    requires i < |p|
    ensures Extend(run, kind, p, i).1 == Act(run.1, kind, i)
  {
    hide Act;
  }

  lemma AheadStep(sqrt: real -> real, s: Strategy, p: seq<real>, m: nat)
    requires s.Ok() && (s.MeanReversion? || s.Bollinger?) && s.Warmup() < m <= |p|
    ensures Ahead(sqrt, s, p, m) <==> Ahead(sqrt, s, p, m - 1) && Level(sqrt, s, p, m - 1) == Hold
  {
    DecisiveStep(sqrt, s, p, s.Warmup(), m);
    hide Level, Decisive;
  }

  /** A decisive signal leaves any two positions equal, a hold leaves them as they were. */
  lemma ObeyTwo(held: bool, long: bool, want: Signal)
    ensures want != Hold ==> Obeys(held, want) == Obeys(long, want)
    ensures want == Hold ==> Obeys(held, want) == held && Obeys(long, want) == long
  {}

  lemma AtWarmup(sqrt: real -> real, s: Strategy, p: seq<real>)
    requires s.Ok() && (s.MeanReversion? || s.Bollinger?) && s.Warmup() <= |p|
    ensures var w := s.Warmup();
            && !Trade(sqrt, s, p, w).1.held && !StillTorn(sqrt, s, p, w, w)
            && (Obeyed(sqrt, s, p, 0, w) <==> Ahead(sqrt, s, p, w))
  {
    var w := s.Warmup();
    NothingEarly(sqrt, s, p, w - 1);
    ObeyedStep(sqrt, s, p, 0, w);
    hide Obeyed, Level, Torn;
  }

  /**
   * RSI and Bollinger, on any positive prices: the backtest and the session hold the same position unless
   * the session bought on the bar before the backtest's first, or a bar was torn, and no bar has been
   * decisive since.
   */
  lemma PositionsAgreeIff(sqrt: real -> real, s: Strategy, p: seq<real>, capital: real, m: nat)
    requires IsSqrt(sqrt) && s.Ok() && (s.MeanReversion? || s.Bollinger?) && Sensible(s, p) && capital != 0.0
    requires s.Warmup() <= m <= |p|
    ensures (Trade(sqrt, s, p, m).1.held <==> Polled(sqrt, s, p, capital, m).position == Long)
            <==> !Ahead(sqrt, s, p, m) && !StillTorn(sqrt, s, p, s.Warmup(), m)
  {
    assert Priced(p);
    hide *;
    SessionObeys(sqrt, s, p, capital, m);
    ObeyedDiffersIff(sqrt, s, p, m);
  }

  // ---------------------------------------------------------------- breakout

  /** Some close before bar `m` was above all of its lookback. */
  predicate BrokeOut(p: seq<real>, lookback: nat, m: nat)
    requires m <= |p|
  {
    exists j :: lookback <= j < m && IsBreakout(p, lookback, j)
  }

  predicate IsBreakout(p: seq<real>, lookback: nat, i: nat)
    requires lookback <= i < |p|
  {
    p[i] > Highest(p, i - lookback, i)
  }

  lemma BreakoutLive(sqrt: real -> real, s: Strategy, p: seq<real>, m: nat)
    requires s.Breakout? && 0 < m <= |p|
    ensures Live(sqrt, s, p[..m]) == if s.lookback < m && IsBreakout(p, s.lookback, m - 1) then Buy else Hold
  {
    if s.lookback < m {
      HighestIsCausal(p[..m], p, m - 1 - s.lookback, m - 1);
      hide Highest;
    }
  }

  lemma BrokeOutStep(p: seq<real>, lookback: nat, m: nat)
    requires 0 < m <= |p|
    ensures BrokeOut(p, lookback, m)
            <==> BrokeOut(p, lookback, m - 1) || (lookback < m && IsBreakout(p, lookback, m - 1))
  {
    hide IsBreakout;
  }

  /** A breakout session is never told to sell: it is long exactly after the first breakout. */
  lemma {:induction false} BreakoutSession(sqrt: real -> real, s: Strategy, p: seq<real>, capital: real, m: nat)
    requires s.Breakout? && s.Ok() && Priced(p) && capital != 0.0 && m <= |p|
    ensures Polled(sqrt, s, p, capital, m).position == Long <==> BrokeOut(p, s.lookback, m)
  {
    if m > 0 {
      hide *;
      BreakoutSession(sqrt, s, p, capital, m - 1);
      PollObeys(sqrt, s, p, capital, m);
      BreakoutLive(sqrt, s, p, m);
      BrokeOutStep(p, s.lookback, m);
      ObeyHold(Polled(sqrt, s, p, capital, m - 1).position == Long);
      ObeyBuy(Polled(sqrt, s, p, capital, m - 1).position == Long);
    }
  }

  lemma ObeyBuy(held: bool)
    ensures Obeys(held, Buy)
  {}

  /** The backtest trades exactly once there has been a breakout. */
  lemma {:induction false} TradedIffBrokeOut(sqrt: real -> real, s: Strategy, p: seq<real>, m: nat)
    requires s.Breakout? && s.Ok() && m <= |p|
    ensures Trade(sqrt, s, p, m).0 != [] <==> BrokeOut(p, s.lookback, m)
  {
    hide *;
    if m > s.Warmup() {
      TradedIffBrokeOut(sqrt, s, p, m - 1);
      BreakoutHoldsExactly(sqrt, s, p, m - 1);
      BrokeOutStep(p, s.lookback, m);
      BreakoutTrades(sqrt, s, p, Trade(sqrt, s, p, m - 1), m);
    } else {
      NoBreakoutYet(sqrt, s, p, m);
    }
  }

  lemma BreakoutTrades(sqrt: real -> real, s: Strategy, p: seq<real>, run: (seq<TradeEvent>, Position), m: nat)
    requires s.Breakout? && s.Ok() && s.Warmup() < m <= |p| && run == Trade(sqrt, s, p, m - 1)
    requires HeldExactly(run, HoldPeriod(s), m - 1)
    ensures s.lookback < m
    ensures Trade(sqrt, s, p, m).0 != [] <==> run.0 != [] || IsBreakout(p, s.lookback, m - 1)
  {
    hide Highest, HoldPeriod;
  }

  lemma NoBreakoutYet(sqrt: real -> real, s: Strategy, p: seq<real>, m: nat)
    requires s.Breakout? && s.Ok() && m <= |p| && m <= s.Warmup()
    ensures Trade(sqrt, s, p, m).0 == [] && !BrokeOut(p, s.lookback, m)
  {}

  /** The bar of the last buy in an alternating list. */
  function LastBuy(events: seq<TradeEvent>): nat
    requires events != []
  {
    events[(|events| - 1) / 2 * 2].bar
  }

  /** A position is held exactly while the last buy is younger than the holding period. */
  lemma HeldWhileYoung(sqrt: real -> real, s: Strategy, p: seq<real>, m: nat)
    requires s.Breakout? && s.Ok() && m <= |p|
    ensures var (events, pos) := Trade(sqrt, s, p, m);
            pos.held <==> events != [] && m <= LastBuy(events) + HoldPeriod(s)
  {
    hide *;
    BreakoutHoldsExactly(sqrt, s, p, m);
    TradesAlternate(sqrt, s, p, m);
    YoungIff(Trade(sqrt, s, p, m), p, s.Warmup(), HoldPeriod(s), m);
  }

  lemma YoungIff(run: (seq<TradeEvent>, Position), p: seq<real>, warmup: nat, hold: nat, m: nat)
    requires HeldExactly(run, hold, m) && WellFormed(run, p, warmup, m)
    ensures run.1.held <==> run.0 != [] && m <= LastBuy(run.0) + hold
  {
    var events, n := run.0, |run.0|;
    if n > 0 {
      if Odd(n) {
        assert (n - 1) / 2 * 2 == n - 1;
      } else {
        assert (n - 1) / 2 * 2 == n - 2 && Odd(n - 1);
        assert events[n - 1].bar == events[n - 2].bar + hold;
      }
    }
  }

  /**
   * Breakout: backtest and session hold the same position exactly before the first breakout and while the
   * backtest's last buy is younger than the holding period.
   */
  lemma BreakoutAgreesIff(sqrt: real -> real, s: Strategy, p: seq<real>, capital: real, m: nat)
    requires s.Breakout? && s.Ok() && Priced(p) && capital != 0.0 && m <= |p|
    ensures var (events, pos) := Trade(sqrt, s, p, m);
            (pos.held <==> Polled(sqrt, s, p, capital, m).position == Long)
            <==> !BrokeOut(p, s.lookback, m) || (events != [] && m <= LastBuy(events) + HoldPeriod(s))
  {
    hide *;
    BreakoutSession(sqrt, s, p, capital, m);
    TradedIffBrokeOut(sqrt, s, p, m);
    HeldWhileYoung(sqrt, s, p, m);
  }

  /** Closes 1, 2, 2 with a lookback and a holding period of one bar: bought and sold, but the session stays long. */
  lemma BreakoutDiffers(sqrt: real -> real, capital: real)
    requires capital != 0.0
    ensures var s, p := Breakout(1, 1), [1.0, 2.0, 2.0];
            && Priced(p) && !Trade(sqrt, s, p, 3).1.held
            && Polled(sqrt, s, p, capital, 3).position == Long
  {
    var s, p := Breakout(1, 1), [1.0, 2.0, 2.0];
    assert Priced(p) && s.Ok();
    assert Highest(p, 0, 1) == 1.0;
    assert IsBreakout(p, 1, 1);
    assert Decide(sqrt, s, p, FLAT, 1) == Buy;
    assert Trade(sqrt, s, p, 1) == ([], FLAT);
    hide Polled, Highest, Trade;
    BreakoutSession(sqrt, s, p, capital, 3);
    TradeStep(sqrt, s, p, 2);
    var none: seq<TradeEvent> := [];
    assert none + [TradeEvent(1, 2.0, Buy)] == [TradeEvent(1, 2.0, Buy)];
    assert Trade(sqrt, s, p, 2) == ([TradeEvent(1, 2.0, Buy)], Position(true, 1));
    TradeStep(sqrt, s, p, 3);
  }
}
