/**
 * Agreement of backtest and live session read off the prices alone, and price series on which the two
 * hold different positions.
 */
module LivePrices {
  import opened Algebra
  import opened Backtest
  import opened Common
  import opened Indicators
  import opened Ledger
  import opened LiveAgreement
  import opened LiveSignals
  import opened Pearson
  import Samuelson
  import opened Strategies
  import opened StrategyFacts

  // ---------------------------------------------------------------- RSI and Bollinger

  /** What a backtest does with bar `i`: it obeys the level, but a tearing bar flips RSI and is ignored by Bollinger. */
  predicate Heeds(sqrt: real -> real, s: Strategy, p: seq<real>, held: bool, i: nat)
    requires s.Ok() && (s.MeanReversion? || s.Bollinger?) && i < |p|
  {
    if Tearing(sqrt, s, p, i) then (if s.MeanReversion? then !held else held)
    else Obeys(held, Level(sqrt, s, p, i))
  }

  /** The position that the bars from the warmup to `m` leave a backtest in. */
  predicate Heeded(sqrt: real -> real, s: Strategy, p: seq<real>, m: nat)
    requires s.Ok() && (s.MeanReversion? || s.Bollinger?) && m <= |p|
  {
    s.Warmup() < m && Heeds(sqrt, s, p, Heeded(sqrt, s, p, m - 1), m - 1)
  }

  lemma DecideHeeds(sqrt: real -> real, s: Strategy, p: seq<real>, pos: Position, i: nat)
    requires IsSqrt(sqrt) && s.Ok() && (s.MeanReversion? || s.Bollinger?) && Sensible(s, p) && s.Warmup() <= i < |p|
    ensures Act(pos, Decide(sqrt, s, p, pos, i), i).held <==> Heeds(sqrt, s, p, pos.held, i)
  {
    if s.Bollinger? {
      BandsAreOrdered(sqrt, p, s.period, s.stdDevs, i);
      assert p[i] > 0.0;
    }
    hide IsSqrt, Priced, Band, Middle, Rsi;
  }

  /** The backtest's position is a function of the levels and the tearing bars. */
  lemma {:induction false} HeldIffHeeded(sqrt: real -> real, s: Strategy, p: seq<real>, m: nat)
    requires IsSqrt(sqrt) && s.Ok() && (s.MeanReversion? || s.Bollinger?) && Sensible(s, p) && m <= |p|
    ensures Trade(sqrt, s, p, m).1.held <==> Heeded(sqrt, s, p, m)
  {
    hide *;
    if m > s.Warmup() {
      HeldIffHeeded(sqrt, s, p, m - 1);
      var run := Trade(sqrt, s, p, m - 1);
      TradeStep(sqrt, s, p, m);
      ExtendActs(run, Decide(sqrt, s, p, run.1, m - 1), p, m - 1);
      DecideHeeds(sqrt, s, p, run.1, m - 1);
      HeededStep(sqrt, s, p, m);
    } else {
      NothingHeeded(sqrt, s, p, m);
    }
  }

  lemma HeededStep(sqrt: real -> real, s: Strategy, p: seq<real>, m: nat)
    requires s.Ok() && (s.MeanReversion? || s.Bollinger?) && s.Warmup() < m <= |p|
    ensures Heeded(sqrt, s, p, m) <==> Heeds(sqrt, s, p, Heeded(sqrt, s, p, m - 1), m - 1)
  {
    hide Heeds;
  }

  lemma NothingHeeded(sqrt: real -> real, s: Strategy, p: seq<real>, m: nat)
    requires s.Ok() && (s.MeanReversion? || s.Bollinger?) && m <= s.Warmup() && m <= |p|
    ensures !Trade(sqrt, s, p, m).1.held && !Heeded(sqrt, s, p, m)
  {}

  /** Some bar from the warmup to `m` tore a holder, and no later one has been decisive. */
  predicate StillApart(sqrt: real -> real, s: Strategy, p: seq<real>, m: nat)
    requires s.Ok() && (s.MeanReversion? || s.Bollinger?) && m <= |p|
  {
    exists j :: s.Warmup() <= j < m && HolderTorn(sqrt, s, p, j) && QuietAfter(sqrt, s, p, j, m)
  }

  predicate HolderTorn(sqrt: real -> real, s: Strategy, p: seq<real>, i: nat)
    requires s.Ok() && (s.MeanReversion? || s.Bollinger?) && i < |p|
  {
    Heeded(sqrt, s, p, i) && Tearing(sqrt, s, p, i)
  }

  /** RSI and Bollinger: the condition for agreement, on prices alone. */
  lemma PositionsAgreeOnPricesIff(sqrt: real -> real, s: Strategy, p: seq<real>, capital: real, m: nat)
    requires IsSqrt(sqrt) && s.Ok() && (s.MeanReversion? || s.Bollinger?) && Sensible(s, p) && capital != 0.0
    requires s.Warmup() <= m <= |p|
    ensures (Trade(sqrt, s, p, m).1.held <==> Polled(sqrt, s, p, capital, m).position == Long)
            <==> !Ahead(sqrt, s, p, m) && !StillApart(sqrt, s, p, m)
  {
    assert Priced(p);
    hide IsSqrt, Priced, Trade, Polled, Ahead, Tearing, QuietAfter, Heeded;
    PositionsAgreeIff(sqrt, s, p, capital, m);
    forall j | s.Warmup() <= j < m
      ensures TornAt(sqrt, s, p, j) <==> HolderTorn(sqrt, s, p, j)
    {
      HeldIffHeeded(sqrt, s, p, j);
    }
  }

  /** RSI with thresholds in order: only a buy on the bar before the backtest's first can tell the two apart. */
  lemma RsiAgreesIff(sqrt: real -> real, s: Strategy, p: seq<real>, capital: real, m: nat)
    requires IsSqrt(sqrt) && s.Ok() && s.MeanReversion? && s.oversold <= s.overbought && Priced(p) && capital != 0.0
    requires s.Warmup() <= m <= |p|
    ensures (Trade(sqrt, s, p, m).1.held <==> Polled(sqrt, s, p, capital, m).position == Long)
            <==> !Ahead(sqrt, s, p, m)
  {
    assert Sensible(s, p);
    assert forall j :: s.Warmup() <= j < m ==> !HolderTorn(sqrt, s, p, j);
    hide IsSqrt, Priced, Trade, Polled, Ahead, Tearing, QuietAfter, Heeded, Sensible;
    PositionsAgreeOnPricesIff(sqrt, s, p, capital, m);
  }

  // ---------------------------------------------------------------- breakout

  /** Bar `i` is bought: it breaks out, and no earlier purchase is still held or sold on this bar. */
  predicate Bought(p: seq<real>, lookback: nat, hold: nat, i: nat)
    requires i < |p|
    decreases i, 1
  {
    lookback <= i && IsBreakout(p, lookback, i) && !Open(p, lookback, hold, i)
  }

  /** Some purchase before bar `m` is less than `hold` bars old after bar `m - 1`. */
  predicate Open(p: seq<real>, lookback: nat, hold: nat, m: nat)
    requires m <= |p|
    decreases m, 0
  {
    exists j: nat :: j < m <= j + hold && Bought(p, lookback, hold, j)
  }

  /** The position, and the bar it was entered on. */
  ghost predicate HeldSince(p: seq<real>, lookback: nat, hold: nat, pos: Position, m: nat)
    requires m <= |p|
  {
    && (pos.held <==> Open(p, lookback, hold, m))
    && (pos.held ==> pos.entryBar < m <= pos.entryBar + hold && Bought(p, lookback, hold, pos.entryBar))
  }

  lemma {:induction false} HeldIffOpen(sqrt: real -> real, s: Strategy, p: seq<real>, m: nat)
    requires s.Breakout? && s.Ok() && m <= |p|
    ensures HeldSince(p, s.lookback, HoldPeriod(s), Trade(sqrt, s, p, m).1, m)
  {
    hide *;
    if m > s.Warmup() {
      HeldIffOpen(sqrt, s, p, m - 1);
      var run := Trade(sqrt, s, p, m - 1);
      TradeStep(sqrt, s, p, m);
      ExtendActs(run, Decide(sqrt, s, p, run.1, m - 1), p, m - 1);
      OpenStep(sqrt, s, p, run.1, m);
    } else {
      NothingBought(sqrt, s, p, m);
    }
  }

  lemma NothingBought(sqrt: real -> real, s: Strategy, p: seq<real>, m: nat)
    requires s.Breakout? && s.Ok() && m <= |p| && m <= s.Warmup()
    ensures HeldSince(p, s.lookback, HoldPeriod(s), Trade(sqrt, s, p, m).1, m)
  {
    var hold := HoldPeriod(s);
    NoneOpen(p, s.lookback, hold, m);
    hide HoldPeriod, Open, Bought;
  }

  lemma NoneOpen(p: seq<real>, lookback: nat, hold: nat, m: nat)
    requires m <= |p| && m <= lookback
    ensures !Open(p, lookback, hold, m)
  {
    hide IsBreakout;
  }

  lemma OpenStep(sqrt: real -> real, s: Strategy, p: seq<real>, pos: Position, m: nat)
    requires s.Breakout? && s.Ok() && s.Warmup() < m <= |p|
    requires HeldSince(p, s.lookback, HoldPeriod(s), pos, m - 1)
    ensures HeldSince(p, s.lookback, HoldPeriod(s), Act(pos, Decide(sqrt, s, p, pos, m - 1), m - 1), m)
  {
    var i, e, hold, lookback := m - 1, pos.entryBar, HoldPeriod(s), s.lookback;
    if pos.held {
      HeldSteps(p, lookback, hold, e, i);
    } else {
      FlatSteps(p, lookback, hold, i);
    }
    BreakoutDecision(sqrt, s, p, pos, i);
    assert !pos.held ==> (Decide(sqrt, s, p, pos, i) == Buy <==> IsBreakout(p, lookback, i));
    hide Open, Bought, Decide, HoldPeriod, IsBreakout;
  }

  /** An open purchase stays the only one, until it is `hold` bars old. */
  lemma HeldSteps(p: seq<real>, lookback: nat, hold: nat, e: nat, i: nat)
    requires e < i < |p| && i <= e + hold && Bought(p, lookback, hold, e)
    ensures Open(p, lookback, hold, i + 1) <==> i < e + hold
  {
    hide IsBreakout;
    forall j: nat | e < j <= i
      ensures !Bought(p, lookback, hold, j)
    {
      assert Open(p, lookback, hold, j);
    }
  }

  /** When nothing is open, a breakout opens a purchase and nothing else does. */
  lemma FlatSteps(p: seq<real>, lookback: nat, hold: nat, i: nat)
    requires lookback <= i < |p| && 1 <= hold && !Open(p, lookback, hold, i)
    ensures Bought(p, lookback, hold, i) <==> IsBreakout(p, lookback, i)
    ensures Open(p, lookback, hold, i + 1) <==> IsBreakout(p, lookback, i)
  {
    hide IsBreakout;
  }

  /** Breakout, on prices alone: agreement before the first breakout and while a purchase is open. */
  lemma BreakoutAgreesOnPricesIff(sqrt: real -> real, s: Strategy, p: seq<real>, capital: real, m: nat)
    requires s.Breakout? && s.Ok() && Priced(p) && capital != 0.0 && m <= |p|
    ensures (Trade(sqrt, s, p, m).1.held <==> Polled(sqrt, s, p, capital, m).position == Long)
            <==> !BrokeOut(p, s.lookback, m) || Open(p, s.lookback, HoldPeriod(s), m)
  {
    hide *;
    BreakoutSession(sqrt, s, p, capital, m);
    HeldIffOpen(sqrt, s, p, m);
    BreakoutAgreesIff(sqrt, s, p, capital, m);
    HeldMeansOpen(s, p, Trade(sqrt, s, p, m).1, m);
    HeldWhileYoung(sqrt, s, p, m);
  }

  lemma HeldMeansOpen(s: Strategy, p: seq<real>, pos: Position, m: nat)
    requires s.Breakout? && m <= |p| && HeldSince(p, s.lookback, HoldPeriod(s), pos, m)
    ensures pos.held <==> Open(p, s.lookback, HoldPeriod(s), m)
  {}

  // ---------------------------------------------------------------- disagreement is real

  /** The backtest is flat while the session is long. */
  ghost predicate OnlySessionLong(sqrt: real -> real, s: Strategy, p: seq<real>, capital: real) {
    && s.Ok() && Priced(p) && capital != 0.0
    && !Trade(sqrt, s, p, |p|).1.held && Polled(sqrt, s, p, capital, |p|).position == Long
  }

  /** Closes 1, 2, 3, 4 with averages over one and two bars: above from the first bar on, so never crossed. */
  lemma CrossoverDiffers(sqrt: real -> real, capital: real)
    requires capital != 0.0
    ensures OnlySessionLong(sqrt, Crossover(1, 2, false), [1.0, 2.0, 3.0, 4.0], capital)
  {
    var s, p := Crossover(1, 2, false), [1.0, 2.0, 3.0, 4.0];
    assert SumRange(p, 2, 3) == 3.0 && SumRange(p, 1, 3) == 5.0;
    assert SumRange(p, 3, 4) == 4.0 && SumRange(p, 2, 4) == 7.0;
    assert Above(p, s, 2) && Above(p, s, 3);
    hide Above, Trade, Polled;
    HeldIff(sqrt, s, p, 3);
    CrossoverSession(sqrt, s, p, capital, 3);
  }

  /** Closes 5, 6, 1, 3 with an RSI over two bars: bought on the bar before the backtest's first, then quiet. */
  lemma RsiDiffers(sqrt: real -> real, capital: real)
    requires IsSqrt(sqrt) && capital != 0.0
    ensures OnlySessionLong(sqrt, MeanReversion(2, 30.0, 70.0), [5.0, 6.0, 1.0, 3.0], capital)
  {
    var s, p := MeanReversion(2, 30.0, 70.0), [5.0, 6.0, 1.0, 3.0];
    FirstRsis(p);
    assert Level(sqrt, s, p, 2) == Buy && Level(sqrt, s, p, 3) == Hold;
    hide Rsi, Trade, Polled, Level;
    assert Obeyed(sqrt, s, p, 0, 4);
    SessionObeys(sqrt, s, p, capital, 4);
    RsiAgreesIff(sqrt, s, p, capital, 4);
  }

  /** Gains 1, 0, 2 and losses 0, 5, 0, averaged over two bars. */
  lemma FirstRsis(p: seq<real>)
    requires |p| >= 4 && p[..4] == [5.0, 6.0, 1.0, 3.0]
    ensures Wilder(p, 2, 3) == Strength(1.25, 1.25)
    ensures 0.0 < Rsi(p, 2, 2) < 30.0 && Rsi(p, 2, 3) == 50.0
  {
    assert p[0] == 5.0 && p[1] == 6.0 && p[2] == 1.0 && p[3] == 3.0;
    assert Total(p, 1) == Strength(1.0, 0.0);
    assert Total(p, 2) == Strength(1.0, 5.0);
    assert Wilder(p, 2, 2) == Strength(0.5, 2.5);
    assert Wilder(p, 2, 3) == Strength(1.25, 1.25);
  }

  /** The same with thresholds that overlap: on an RSI of 50 the backtest turns, the session is told to buy. */
  lemma RsiTears(sqrt: real -> real, capital: real)
    requires IsSqrt(sqrt) && capital != 0.0
    ensures OnlySessionLong(sqrt, MeanReversion(2, 70.0, 30.0), [5.0, 6.0, 1.0, 3.0, 3.0], capital)
  {
    var s, p := MeanReversion(2, 70.0, 30.0), [5.0, 6.0, 1.0, 3.0, 3.0];
    FirstRsis(p);
    assert Wilder(p, 2, 4) == Strength(0.625, 0.625);
    assert Rsi(p, 2, 4) == 50.0;
    assert Level(sqrt, s, p, 3) == Buy && Level(sqrt, s, p, 4) == Buy;
    assert Tearing(sqrt, s, p, 3) && Tearing(sqrt, s, p, 4);
    hide Rsi, Trade, Polled, Level, Tearing;
    assert Obeyed(sqrt, s, p, 0, 5);
    SessionObeys(sqrt, s, p, capital, 5);
    HeldIffHeeded(sqrt, s, p, 5);
  }

  /** The bands of a window whose variance is a known square. */
  lemma BandsFrom(sqrt: real -> real, p: seq<real>, period: nat, k: real, i: nat, std: real)
    requires IsSqrt(sqrt) && 1 <= period <= i + 1 <= |p|
    requires std >= 0.0 && Variance(p, period, i) == std * std
    ensures Band(sqrt, p, period, k, i) == Middle(p, period, i) + k * std
    ensures Band(sqrt, p, period, -k, i) == Middle(p, period, i) + -k * std
  {
    var variance := Variance(p, period, i);
    var root := sqrt(variance);
    assert variance >= 0.0;
    Samuelson.RootOf(sqrt, variance, root);
    BandIs(sqrt, p, period, k, i, Middle(p, period, i), root);
    BandIs(sqrt, p, period, -k, i, Middle(p, period, i), root);
    hide *;
    SameRoot(root, std);
  }

  lemma SameRoot(x: real, y: real)
    requires x >= 0.0 && y >= 0.0 && x * x == y * y
    ensures x == y
  {
    SquareOrder(x, y);
    SquareOrder(y, x);
  }

  /** Closes 2, 1, 1 with bands at half a deviation of two bars: below the band only on the bar before the first. */
  lemma BollingerDiffers(sqrt: real -> real, capital: real)
    requires IsSqrt(sqrt) && capital != 0.0
    ensures OnlySessionLong(sqrt, Bollinger(2, 0.5), [2.0, 1.0, 1.0], capital)
  {
    var s, p := Bollinger(2, 0.5), [2.0, 1.0, 1.0];
    assert SumRange(p, 0, 2) == 3.0 && SumRange(p, 1, 3) == 2.0;
    assert Middle(p, 2, 1) == 1.5 && Middle(p, 2, 2) == 1.0;
    assert SquaredDeviations(p, 0, 2, 1.5) == 0.5 && SquaredDeviations(p, 1, 3, 1.0) == 0.0;
    assert Variance(p, 2, 1) == 0.25 && Variance(p, 2, 2) == 0.0;
    hide Variance, Middle, SumRange, SquaredDeviations;
    BandsFrom(sqrt, p, 2, 0.5, 1, 0.5);
    BandsFrom(sqrt, p, 2, 0.5, 2, 0.0);
    hide Band;
    assert Level(sqrt, s, p, 1) == Buy && Level(sqrt, s, p, 2) == Hold;
    assert !Tearing(sqrt, s, p, 2);
    hide Level, Trade, Polled, Tearing;
    assert Obeyed(sqrt, s, p, 0, 3);
    SessionObeys(sqrt, s, p, capital, 3);
    HeldIffHeeded(sqrt, s, p, 3);
  }

  /** Five closes of 2, four of 1, and 3.5: bought on the first 1, while the last has a lower band of exactly 0. */
  const DIP := [2.0, 2.0, 2.0, 2.0, 2.0, 1.0, 1.0, 1.0, 1.0, 3.5]

  /** With bands at one and a half deviations of five bars the backtest sits out the sale and keeps holding. */
  lemma BollingerTears(sqrt: real -> real, capital: real)
    requires IsSqrt(sqrt) && capital != 0.0
    ensures var s := Bollinger(5, 1.5);
            && s.Ok() && Priced(DIP)
            && Trade(sqrt, s, DIP, |DIP|).1.held && Polled(sqrt, s, DIP, capital, |DIP|).position == Flat
  {
    var s := Bollinger(5, 1.5);
    DipLevels(sqrt, s);
    assert Sensible(s, DIP);
    hide Level, Tearing, Trade, Polled, IsSqrt, Priced;
    SessionObeys(sqrt, s, DIP, capital, 10);
    HeldIffHeeded(sqrt, s, DIP, 10);
    hide Sensible;
    assert Heeded(sqrt, s, DIP, 6);
    assert Heeded(sqrt, s, DIP, 9);
    assert Heeded(sqrt, s, DIP, 10) && !Obeyed(sqrt, s, DIP, 0, 10);
  }

  lemma DipLevels(sqrt: real -> real, s: Strategy)
    requires IsSqrt(sqrt) && s == Bollinger(5, 1.5)
    ensures Level(sqrt, s, DIP, 5) == Buy && Level(sqrt, s, DIP, 9) == Sell
    ensures !Tearing(sqrt, s, DIP, 5) && Tearing(sqrt, s, DIP, 9)
    ensures forall i :: 6 <= i < 9 ==> Level(sqrt, s, DIP, i) != Sell && !Tearing(sqrt, s, DIP, i)
  {
    DipWindows();
    hide SumRange, SquaredDeviations, Middle, Variance;
    BandsFrom(sqrt, DIP, 5, 1.5, 5, 0.4);
    BandsFrom(sqrt, DIP, 5, 1.5, 9, 1.0);
    hide Band, IsSqrt;
    forall i | 6 <= i < 9
      ensures Level(sqrt, s, DIP, i) != Sell && !Tearing(sqrt, s, DIP, i)
    {
      assert DIP[i] == 1.0 < Middle(DIP, 5, i);
    }
  }

  lemma DipWindows()
    ensures Middle(DIP, 5, 5) == 1.8 && Variance(DIP, 5, 5) == 0.4 * 0.4
    ensures Middle(DIP, 5, 6) == 1.6 && Middle(DIP, 5, 7) == 1.4 && Middle(DIP, 5, 8) == 1.2
    ensures Middle(DIP, 5, 9) == 1.5 && Variance(DIP, 5, 9) == 1.0 * 1.0
  {
    assert SumRange(DIP, 1, 6) == 9.0 && SumRange(DIP, 5, 10) == 7.5;
    assert SumRange(DIP, 2, 7) == 8.0 && SumRange(DIP, 3, 8) == 7.0 && SumRange(DIP, 4, 9) == 6.0;
    assert SquaredDeviations(DIP, 1, 6, 1.8) == 0.8;
    assert SquaredDeviations(DIP, 5, 10, 1.5) == 5.0;
  }

  // ---------------------------------------------------------------- the first poll

  /** No strategy asks for anything on a single close. */
  lemma FirstPollHolds(sqrt: real -> real, s: Strategy, p: seq<real>)
    requires IsSqrt(sqrt) && s.Ok() && |p| == 1
    ensures Live(sqrt, s, p) == Hold
  {
    if s.MeanReversion? {
      FirstRsi(p, s);
    } else if s.Bollinger? && s.period == 1 {
      SingleClose(p);
      BandsFrom(sqrt, p, 1, s.stdDevs, 0, 0.0);
    }
  }

  lemma SingleClose(p: seq<real>)
    requires |p| == 1
    ensures Middle(p, 1, 0) == p[0] && Variance(p, 1, 0) == 0.0
  {
    assert SumRange(p, 0, 1) == 0.0 + p[0];
    assert BarSma(p, 1, 1) == p[0];
    SquareStep(p, 0, 0, p[0], 0.0);
    assert SquaredDeviations(p, 0, 1, p[0]) == 0.0;
  }
}
