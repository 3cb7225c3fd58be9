/** How long a breakout is held, and where an exponential average can lie. */
module StrategyFacts {
  import opened Algebra
  import opened Common
  import opened Indicators
  import opened Strategies

  // ---------------------------------------------------------------- breakout

  /** A position is held for `holdBars` bars, but for at least one. */
  function HoldPeriod(s: Strategy): nat
    requires s.Breakout?
  {
    if s.holdBars < 1 then 1 else s.holdBars
  }

  /** Every sale lies exactly one holding period after its buy; an open position is younger than that. */
  ghost predicate HeldExactly(run: (seq<TradeEvent>, Position), hold: nat, m: nat) {
    var (events, pos) := run;
    && (forall k :: 0 < k < |events| && Odd(k) ==> events[k].bar == events[k - 1].bar + hold)
    && (pos.held ==> events != [] && events[|events| - 1].bar == pos.entryBar < m <= pos.entryBar + hold)
  }

  lemma {:induction false} BreakoutHoldsExactly(sqrt: real -> real, s: Strategy, p: seq<real>, m: nat)
    requires s.Breakout? && m <= |p|
    ensures HeldExactly(Trade(sqrt, s, p, m), HoldPeriod(s), m)
  {
    assert s.Ok();
    hide *;
    if m > s.Warmup() {
      var run := Trade(sqrt, s, p, m - 1);
      BreakoutHoldsExactly(sqrt, s, p, m - 1);
      TradesAlternate(sqrt, s, p, m - 1);
      BreakoutStep(sqrt, s, p, run, m);
    } else {
      NothingHeld(sqrt, s, p, m);
    }
  }

  lemma NothingHeld(sqrt: real -> real, s: Strategy, p: seq<real>, m: nat)
    requires s.Breakout? && m <= |p| && m <= s.Warmup()
    ensures HeldExactly(Trade(sqrt, s, p, m), HoldPeriod(s), m)
  {}

  lemma BreakoutStep(sqrt: real -> real, s: Strategy, p: seq<real>, run: (seq<TradeEvent>, Position), m: nat)
    requires s.Breakout? && s.Warmup() < m <= |p| && run == Trade(sqrt, s, p, m - 1)
    requires HeldExactly(run, HoldPeriod(s), m - 1) && WellFormed(run, p, s.Warmup(), m - 1)
    ensures HeldExactly(Trade(sqrt, s, p, m), HoldPeriod(s), m)
  {
    hide Decide, Alternating, Extend, Odd;
    BreakoutDecision(sqrt, s, p, run.1, m - 1);
    HoldStep(run, Decide(sqrt, s, p, run.1, m - 1), p, HoldPeriod(s), m);
  }

  /** Sold as soon as, and no sooner than, the holding period has passed. */
  lemma BreakoutDecision(sqrt: real -> real, s: Strategy, p: seq<real>, pos: Position, i: nat)
    requires s.Breakout? && s.Warmup() <= i < |p|
    requires pos.held ==> pos.entryBar < i <= pos.entryBar + HoldPeriod(s)
    ensures var kind := Decide(sqrt, s, p, pos, i);
            if pos.held then kind == (if i == pos.entryBar + HoldPeriod(s) then Sell else Hold) else kind != Sell
  {
    hide Highest;
  }

  lemma HoldStep(run: (seq<TradeEvent>, Position), kind: Signal, p: seq<real>, hold: nat, m: nat)
    requires 0 < m <= |p| && 1 <= hold && HeldExactly(run, hold, m - 1) && run.1.held == Odd(|run.0|)
    requires if run.1.held then kind == (if m - 1 == run.1.entryBar + hold then Sell else Hold) else kind != Sell
    ensures HeldExactly(Extend(run, kind, p, m - 1), hold, m)
  {}

  // ---------------------------------------------------------------- exponential average

  /** From its seed on, the average stays between any bounds of the prices seen so far. */
  lemma {:induction false} EmaIsBounded(p: seq<real>, period: nat, i: nat, lo: real, hi: real)
    requires 1 <= period <= i + 1 <= |p| && forall j :: 0 <= j <= i ==> lo <= p[j] <= hi
    ensures lo <= Ema(p, period, i) <= hi
  {
    if i == period - 1 {
      SumIsBounded(p, period, lo, hi);
      hide SumRange;
      MeanIsBounded(SumRange(p, 0, period), period as real, lo, hi, Ema(p, period, i));
    } else {
      EmaIsBounded(p, period, i - 1, lo, hi);
      EmaStep(p, period, i, Alpha(period), Ema(p, period, i - 1));
      AlphaIsWeight(period);
      hide *;
      Between(p[i], Ema(p, period, i - 1), Alpha(period), lo, hi);
    }
  }

  lemma {:induction false} SumIsBounded(p: seq<real>, n: nat, lo: real, hi: real)
    requires n <= |p| && forall j :: 0 <= j < n ==> lo <= p[j] <= hi
    ensures n as real * lo <= SumRange(p, 0, n) <= n as real * hi
  {
    if n > 0 {
      SumIsBounded(p, n - 1, lo, hi);
    }
  }

  lemma MeanIsBounded(sum: real, n: real, lo: real, hi: real, mean: real)
    requires n > 0.0 && n * lo <= sum <= n * hi && mean == sum / n
    ensures lo <= mean <= hi
  {
    CancelLessEqual(lo, mean, n);
    CancelLessEqual(mean, hi, n);
  }

  lemma AlphaIsWeight(period: nat)
    requires 1 <= period
    ensures 0.0 < Alpha(period) <= 1.0
  {
    var n := (period + 1) as real;
    assert Alpha(period) * n == 2.0;
    CancelLessEqual(Alpha(period), 1.0, n);
  }

  lemma Between(x: real, y: real, k: real, lo: real, hi: real)
    requires lo <= x <= hi && lo <= y <= hi && 0.0 <= k <= 1.0
    ensures lo <= x * k + y * (1.0 - k) <= hi
  {
    var l := 1.0 - k;
    NonNegativeProduct(x - lo, k);
    NonNegativeProduct(y - lo, l);
    NonNegativeProduct(hi - x, k);
    NonNegativeProduct(hi - y, l);
  }

  /** The weight of a price `age` bars old. */
  function Weight(k: real, age: nat): real {
    if age == 0 then 1.0 else (1.0 - k) * Weight(k, age - 1)
  }

  /** The prices of `[lo, hi)` as bar `i` sees them: each weighs `k`, decayed once per bar since. */
  function Decayed(p: seq<real>, k: real, lo: nat, hi: nat, i: nat): real
    requires lo <= hi <= i + 1 <= |p|
  {
    if lo == hi then 0.0 else Decayed(p, k, lo, hi - 1, i) + k * Weight(k, i - (hi - 1)) * p[hi - 1]
  }

  lemma {:induction false} OneBarLater(p: seq<real>, k: real, lo: nat, hi: nat, i: nat)
    requires lo <= hi <= i + 1 < |p|
    ensures Decayed(p, k, lo, hi, i + 1) == (1.0 - k) * Decayed(p, k, lo, hi, i)
  {
    hide *;
    if lo < hi {
      OneBarLater(p, k, lo, hi - 1, i);
      var w, older := Weight(k, i + 1 - hi), Weight(k, i + 2 - hi);
      NextWeight(k, i + 2 - hi);
      NextTerm(p, k, lo, hi, i, w, k * w * p[hi - 1]);
      NextTerm(p, k, lo, hi, i + 1, older, k * older * p[hi - 1]);
      OlderTerm(k, w, older, p[hi - 1], k * w * p[hi - 1], k * older * p[hi - 1],
                Decayed(p, k, lo, hi - 1, i), Decayed(p, k, lo, hi, i),
                Decayed(p, k, lo, hi - 1, i + 1), Decayed(p, k, lo, hi, i + 1));
    } else {
      NothingDecayed(p, k, lo, i);
      NothingDecayed(p, k, lo, i + 1);
      assert (1.0 - k) * 0.0 == 0.0;
    }
  }

  lemma NothingDecayed(p: seq<real>, k: real, lo: nat, i: nat)
    requires lo <= i + 1 <= |p|
    ensures Decayed(p, k, lo, lo, i) == 0.0
  {}

  lemma NextTerm(p: seq<real>, k: real, lo: nat, hi: nat, i: nat, w: real, term: real)
    requires lo < hi <= i + 1 <= |p| && w == Weight(k, i + 1 - hi) && term == k * w * p[hi - 1]
    ensures Decayed(p, k, lo, hi, i) == Decayed(p, k, lo, hi - 1, i) + term
  {
    hide Weight;
  }

  lemma OlderTerm(k: real, w: real, older: real, x: real, term: real, term': real,
                  before: real, after: real, before': real, after': real)
    requires older == (1.0 - k) * w && term == k * w * x && term' == k * older * x
    requires after == before + term && after' == before' + term' && before' == (1.0 - k) * before
    ensures after' == (1.0 - k) * after
  {
    var l := 1.0 - k;
    assert term' == l * term;
    assert l * after == l * before + l * term;
  }

  /** The recursion in closed form: the seed and every later price, with geometrically decaying weights. */
  lemma {:induction false} EmaIsWeightedSum(p: seq<real>, period: nat, i: nat)
    requires 1 <= period <= i + 1 <= |p|
    ensures Ema(p, period, i)
            == Weight(Alpha(period), i + 1 - period) * BarSma(p, period, period)
               + Decayed(p, Alpha(period), period, i + 1, i)
  {
    hide *;
    if i < period {
      SeedIsMean(p, period);
    } else {
      var k, last := Alpha(period), Ema(p, period, i - 1);
      EmaIsWeightedSum(p, period, i - 1);
      OneBarLater(p, k, period, i, i - 1);
      EmaStep(p, period, i, k, last);
      NextWeight(k, i + 1 - period);
      LastTerm(p, k, period, i);
      ClosedStep(k, BarSma(p, period, period), Weight(k, i - period), Weight(k, i + 1 - period),
                 Decayed(p, k, period, i, i - 1), Decayed(p, k, period, i, i), last, p[i]);
    }
  }

  lemma SeedIsMean(p: seq<real>, period: nat)
    requires 1 <= period <= |p|
    ensures Ema(p, period, period - 1)
            == Weight(Alpha(period), 0) * BarSma(p, period, period)
               + Decayed(p, Alpha(period), period, period, period - 1)
  {}

  lemma NextWeight(k: real, age: nat)
    requires age > 0
    ensures Weight(k, age) == (1.0 - k) * Weight(k, age - 1)
  {}

  lemma LastTerm(p: seq<real>, k: real, lo: nat, i: nat)
    requires lo <= i < |p|
    ensures Decayed(p, k, lo, i + 1, i) == Decayed(p, k, lo, i, i) + k * p[i]
  {
    assert Weight(k, 0) == 1.0;
    NextTerm(p, k, lo, i + 1, i, 1.0, k * p[i]);
    hide *;
  }

  lemma ClosedStep(k: real, seed: real, w: real, w': real, sum: real, sum': real, last: real, x: real)
    requires last == w * seed + sum && w' == (1.0 - k) * w && sum' == (1.0 - k) * sum
    ensures x * k + last * (1.0 - k) == w' * seed + (sum' + k * x)
  {
    var l := 1.0 - k;
    assert last * l == l * (w * seed) + l * sum;
    assert w' * seed == l * (w * seed);
  }
}
