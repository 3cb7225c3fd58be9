/** cmd/dashboard/backtest.go: what the reported correlation and win rate say about the trades. */
module ReportMeaning {
  import opened Algebra
  import opened Backtest
  import opened Common
  import opened Pearson
  import opened PearsonBounds
  import opened Strategies

  // ---------------------------------------------------------------- two classes of bars

  /** How many of the first `n` marks are `v`. */
  function CountOn(xs: seq<real>, n: nat, v: real): (c: nat)
    requires n <= |xs|
    ensures c <= n
  {
    if n == 0 then 0 else CountOn(xs, n - 1, v) + if xs[n - 1] == v then 1 else 0
  }

  /** The sum of the values marked `v`. */
  function TotalOn(xs: seq<real>, ys: seq<real>, n: nat, v: real): real
    requires n <= |xs| && n <= |ys|
  {
    if n == 0 then 0.0 else TotalOn(xs, ys, n - 1, v) + if xs[n - 1] == v then ys[n - 1] else 0.0
  }

  /** The mean of the values marked `v`; 0 when there are none. */
  function MeanOn(xs: seq<real>, ys: seq<real>, n: nat, v: real): real
    requires n <= |xs| && n <= |ys|
  {
    if CountOn(xs, n, v) == 0 then 0.0 else TotalOn(xs, ys, n, v) / CountOn(xs, n, v) as real
  }

  /** Every mark is 1 or 0. */
  ghost predicate Marks(xs: seq<real>, n: nat)
    requires n <= |xs|
  {
    forall i :: 0 <= i < n ==> xs[i] == 0.0 || xs[i] == 1.0
  }

  lemma {:induction false} MarksAddUp(xs: seq<real>, n: nat)
    requires n <= |xs| && Marks(xs, n)
    ensures CountOn(xs, n, 1.0) as real == SumRange(xs, 0, n)
    ensures CountOn(xs, n, 0.0) + CountOn(xs, n, 1.0) == n
  {
    if n > 0 {
      MarksAddUp(xs, n - 1);
    }
  }

  lemma {:induction false} TotalsAddUp(xs: seq<real>, ys: seq<real>, n: nat)
    requires n <= |xs| && n <= |ys| && Marks(xs, n)
    ensures TotalOn(xs, ys, n, 1.0) == Cross(xs, ys, 0.0, 0.0, n)
    ensures TotalOn(xs, ys, n, 0.0) + TotalOn(xs, ys, n, 1.0) == SumRange(ys, 0, n)
  {
    if n > 0 {
      TotalsAddUp(xs, ys, n - 1);
      CrossStep(xs, ys, 0.0, 0.0, n - 1, xs[n - 1], ys[n - 1]);
      hide Cross;
    }
  }

  /** The comoment with a 0/1 series is a positive multiple of the difference of the two class means. */
  lemma ComomentOfMarks(xs: seq<real>, ys: seq<real>, n: nat, b: real, o: real)
    requires n <= |xs| && n <= |ys| && Marks(xs, n) && CountOn(xs, n, 1.0) > 0 && CountOn(xs, n, 0.0) > 0
    requires b == CountOn(xs, n, 1.0) as real && o == CountOn(xs, n, 0.0) as real
    ensures n as real * Comoment(xs, ys, n) == (b * o) * (MeanOn(xs, ys, n, 1.0) - MeanOn(xs, ys, n, 0.0))
  {
    hide *;
    var u, v := MeanOn(xs, ys, n, 1.0), MeanOn(xs, ys, n, 0.0);
    var mx, my := Mean(xs, n), Mean(ys, n);
    MeanTotal(xs, ys, n, 1.0, u, b);
    MeanTotal(xs, ys, n, 0.0, v, o);
    ComomentIs(xs, ys, n, mx, my);
    MarksAddUp(xs, n);
    TotalsAddUp(xs, ys, n);
    MeanSum(xs, n);
    MeanSum(ys, n);
    Expand(xs, ys, mx, my, n);
    ClassAlgebra(n as real, b, o, u, v, mx, my, SumRange(xs, 0, n), SumRange(ys, 0, n), Cross(xs, ys, 0.0, 0.0, n),
                 Comoment(xs, ys, n));
  }

  lemma MeanTotal(xs: seq<real>, ys: seq<real>, n: nat, v: real, mean: real, count: real)
    requires n <= |xs| && n <= |ys| && CountOn(xs, n, v) > 0
    requires mean == MeanOn(xs, ys, n, v) && count == CountOn(xs, n, v) as real
    ensures mean * count == TotalOn(xs, ys, n, v)
  {
    hide CountOn, TotalOn;
  }

  lemma ComomentIs(xs: seq<real>, ys: seq<real>, n: nat, mx: real, my: real)
    requires n <= |xs| && n <= |ys| && mx == Mean(xs, n) && my == Mean(ys, n)
    ensures Comoment(xs, ys, n) == Cross(xs, ys, mx, my, n)
  {}

  lemma ClassAlgebra(n: real, b: real, o: real, u: real, v: real, mx: real, my: real, sx: real, sy: real, xy: real,
                     c: real)
    requires b + o == n && sx == b && sx == n * mx && sy == n * my
    requires u * b == xy && v * o + xy == sy
    requires c == xy - my * sx - mx * sy + n * (mx * my)
    ensures n * c == (b * o) * (u - v)
  {
    assert my * sx == n * (mx * my) && mx * sy == n * (mx * my);
    assert c == xy - my * b;
    assert n * (my * b) == b * sy;
    assert n * c == n * xy - b * sy;
    assert b * sy == b * (v * o) + b * xy;
    assert n * xy == b * xy + o * xy;
    assert o * xy == (b * o) * u && b * (v * o) == (b * o) * v;
  }

  predicate Varies(ys: seq<real>, n: nat)
    requires n <= |ys|
  {
    exists i, j :: 0 <= i < j < n && ys[i] != ys[j]
  }

  /** The sign of the correlation with a 0/1 series is that of the difference of the class means. */
  lemma SignOfCorrelation(sqrt: real -> real, xs: seq<real>, ys: seq<real>, n: nat)
    requires IsSqrt(sqrt) && n <= |xs| && n <= |ys| && Marks(xs, n)
    ensures var r, u, v := Correlation(sqrt, xs, ys, n), MeanOn(xs, ys, n, 1.0), MeanOn(xs, ys, n, 0.0);
            if CountOn(xs, n, 1.0) > 0 && CountOn(xs, n, 0.0) > 0 && Varies(ys, n)
            then (r > 0.0 <==> u > v) && (r < 0.0 <==> u < v)
            else r == 0.0
  {
    hide *;
    VariesIff(xs, n);
    VariesIff(ys, n);
    BothClassesIff(xs, n);
    if CountOn(xs, n, 1.0) > 0 && CountOn(xs, n, 0.0) > 0 && Varies(ys, n) {
      SignOfRegular(sqrt, xs, ys, n, CountOn(xs, n, 1.0) as real, CountOn(xs, n, 0.0) as real,
                    Comoment(xs, ys, n), Comoment(xs, xs, n), Comoment(ys, ys, n));
    } else {
      DegenerateCorrelation(sqrt, xs, ys, n);
    }
  }

  lemma VariesIff(ys: seq<real>, n: nat)
    requires n <= |ys|
    ensures Varies(ys, n) <==> Comoment(ys, ys, n) != 0.0
  {
    hide Comoment;
    ConstantIff(ys, n);
  }

  lemma SignOfRegular(sqrt: real -> real, xs: seq<real>, ys: seq<real>, n: nat, b: real, o: real, c: real, m2X: real,
                      m2Y: real)
    requires IsSqrt(sqrt) && n <= |xs| && n <= |ys| && Marks(xs, n)
    requires CountOn(xs, n, 1.0) > 0 && CountOn(xs, n, 0.0) > 0
    requires b == CountOn(xs, n, 1.0) as real && o == CountOn(xs, n, 0.0) as real
    requires c == Comoment(xs, ys, n) && m2X == Comoment(xs, xs, n) != 0.0 && m2Y == Comoment(ys, ys, n) != 0.0
    ensures Correlation(sqrt, xs, ys, n) > 0.0 <==> MeanOn(xs, ys, n, 1.0) > MeanOn(xs, ys, n, 0.0)
    ensures Correlation(sqrt, xs, ys, n) < 0.0 <==> MeanOn(xs, ys, n, 1.0) < MeanOn(xs, ys, n, 0.0)
  {
    hide *;
    MarksAddUp(xs, n);
    ComomentOfMarks(xs, ys, n, b, o);
    PositiveProduct(b, o);
    var root := sqrt(Variations(xs, ys, n));
    RootFacts(sqrt, xs, ys, n, c, m2X, m2Y, root);
    SignsChain(Correlation(sqrt, xs, ys, n), root, c, n as real, b * o,
               MeanOn(xs, ys, n, 1.0) - MeanOn(xs, ys, n, 0.0));
  }

  lemma SignsChain(r: real, s: real, c: real, n: real, w: real, d: real)
    requires s > 0.0 && n > 0.0 && w > 0.0 && r * s == c && n * c == w * d
    ensures (r > 0.0 <==> d > 0.0) && (r < 0.0 <==> d < 0.0)
  {
    SignOfProduct(s, r, c);
    SignOfProduct(n, c, n * c);
    SignOfProduct(w, d, n * c);
  }

  lemma SignOfProduct(s: real, r: real, p: real)
    requires s > 0.0 && p == s * r
    ensures (r > 0.0 <==> p > 0.0) && (r < 0.0 <==> p < 0.0)
  {}

  lemma {:induction false} BothClassesIff(xs: seq<real>, n: nat)
    requires n <= |xs| && Marks(xs, n)
    ensures Varies(xs, n) <==> CountOn(xs, n, 1.0) > 0 && CountOn(xs, n, 0.0) > 0
  {
    OccursIff(xs, n, 1.0);
    OccursIff(xs, n, 0.0);
    if i, j :| 0 <= i < n && 0 <= j < n && xs[i] == 1.0 && xs[j] == 0.0 {
      assert if i < j then xs[i] != xs[j] else xs[j] != xs[i];
    }
  }

  lemma {:induction false} OccursIff(xs: seq<real>, n: nat, v: real)
    requires n <= |xs|
    ensures CountOn(xs, n, v) > 0 <==> exists i :: 0 <= i < n && xs[i] == v
  {
    if n > 0 {
      OccursIff(xs, n - 1, v);
    }
  }

  // ---------------------------------------------------------------- the marks of a backtest

  lemma {:induction false} SumOfMarked(xs: seq<real>, i: nat, n: nat)
    requires i < |xs| && n <= |xs| && xs[i] == 0.0
    ensures SumRange(xs[i := 1.0], 0, n) == SumRange(xs, 0, n) + if i < n then 1.0 else 0.0
  {
    if n > 0 {
      SumOfMarked(xs, i, n - 1);
    }
  }

  lemma {:induction false} SumOfNoMarks(xs: seq<real>, n: nat)
    requires n <= |xs| && forall i :: 0 <= i < n ==> xs[i] == 0.0
    ensures SumRange(xs, 0, n) == 0.0
  {
    if n > 0 {
      SumOfNoMarks(xs, n - 1);
    }
  }

  /** One more event marks its bar if it is a buy with a forward return. */
  lemma IndicatorExtends(events: seq<TradeEvent>, p: seq<real>, warmup: nat, ahead: nat, k: nat)
    requires k < |events| && Alternating(events, p, warmup, |p|)
    ensures var e := events[k];
            var before, after := Indicator(events[..k], |p|, warmup, ahead),
                                 Indicator(events[..k + 1], |p|, warmup, ahead);
            var i := e.bar - warmup;
            if e.kind == Buy && e.bar + ahead < |p|
            then i < |before| && before[i] == 0.0 && after == before[i := 1.0]
            else after == before
  {
    var n, e := Measurable(|p|, warmup, ahead), events[k];
    var before, after := Indicator(events[..k], |p|, warmup, ahead), Indicator(events[..k + 1], |p|, warmup, ahead);
    forall i | 0 <= i < n
      ensures after[i] == if e.kind == Buy && e.bar == warmup + i then 1.0 else before[i]
    {
      BoughtOnExtends(events, k, warmup + i);
    }
    if e.kind == Buy && e.bar + ahead < |p| {
      NotBoughtYet(events, p, warmup, k);
      assert after == before[e.bar - warmup := 1.0];
    } else {
      assert after == before;
    }
  }

  lemma NotBoughtYet(events: seq<TradeEvent>, p: seq<real>, warmup: nat, k: nat)
    requires k < |events| && Alternating(events, p, warmup, |p|)
    ensures !BoughtOn(events[..k], events[k].bar)
  {}

  lemma {:induction false} MarkedBuys(events: seq<TradeEvent>, p: seq<real>, warmup: nat, ahead: nat, k: nat)
    requires Priced(p) && k <= |events| && Alternating(events, p, warmup, |p|) && OnBars(events, p)
    ensures SumRange(Indicator(events[..k], |p|, warmup, ahead), 0, Measurable(|p|, warmup, ahead))
            == MeasuredBuys(Rows(events, p, ahead)[..k]) as real
  {
    hide *;
    if k == 0 {
      assert events[..0] == [] && Rows(events, p, ahead)[..0] == [];
      NoMarks(p, warmup, ahead);
    } else {
      MarkedBuys(events, p, warmup, ahead, k - 1);
      OneMoreMark(events, p, warmup, ahead, k - 1);
      RowsExtend(events, p, ahead, k - 1);
    }
  }

  lemma OneMoreMark(events: seq<TradeEvent>, p: seq<real>, warmup: nat, ahead: nat, k: nat)
    requires k < |events| && Alternating(events, p, warmup, |p|)
    ensures SumRange(Indicator(events[..k + 1], |p|, warmup, ahead), 0, Measurable(|p|, warmup, ahead))
            == SumRange(Indicator(events[..k], |p|, warmup, ahead), 0, Measurable(|p|, warmup, ahead))
               + if events[k].kind == Buy && events[k].bar + ahead < |p| then 1.0 else 0.0
  {
    var e, n, before := events[k], Measurable(|p|, warmup, ahead), Indicator(events[..k], |p|, warmup, ahead);
    assert e.bar >= warmup && |before| == n;
    IndicatorExtends(events, p, warmup, ahead, k);
    hide Indicator, Alternating, SumRange;
    if e.kind == Buy && e.bar + ahead < |p| {
      SumOfMarked(before, e.bar - warmup, n);
    }
  }

  lemma NoMarks(p: seq<real>, warmup: nat, ahead: nat)
    ensures SumRange(Indicator([], |p|, warmup, ahead), 0, Measurable(|p|, warmup, ahead)) == 0.0
    ensures MeasuredBuys([]) == 0
  {
    var xs := Indicator([], |p|, warmup, ahead);
    forall i | 0 <= i < |xs|
      ensures xs[i] == 0.0
    {
      assert !BoughtOn([], warmup + i);
    }
    SumOfNoMarks(xs, |xs|);
  }

  lemma RowsExtend(events: seq<TradeEvent>, p: seq<real>, ahead: nat, k: nat)
    requires Priced(p) && OnBars(events, p) && k < |events|
    ensures MeasuredBuys(Rows(events, p, ahead)[..k + 1])
            == MeasuredBuys(Rows(events, p, ahead)[..k]) + if events[k].kind == Buy
                && events[k].bar + ahead < |p| then 1 else 0
  {
    var rows := Rows(events, p, ahead);
    assert rows[..k + 1][..k] == rows[..k];
  }

  /** `buyN`, counted over the report's rows, is the number of marked bars in the correlation's sample. */
  lemma BuysAreMarks(events: seq<TradeEvent>, p: seq<real>, warmup: nat, ahead: nat)
    requires Priced(p) && Alternating(events, p, warmup, |p|) && OnBars(events, p)
    ensures var xs := Indicator(events, |p|, warmup, ahead);
            SumRange(xs, 0, |xs|) == MeasuredBuys(Rows(events, p, ahead)) as real && Marks(xs, |xs|)
  {
    MarkedBuys(events, p, warmup, ahead, |events|);
    assert events[..|events|] == events;
    assert Rows(events, p, ahead)[..|events|] == Rows(events, p, ahead);
  }

  /**
   * The report's correlation compares the mean forward return on the bars bought with that on all
   * others: it has the sign of the difference, and is 0 when there is nothing to compare.
   */
  lemma ReportedCorrelation(sqrt: real -> real, s: Strategy, p: seq<real>, ahead: nat)
    requires IsSqrt(sqrt) && s.Ok() && Priced(p) && Backtested(sqrt, s, p, ahead).Report?
    ensures var r := Backtested(sqrt, s, p, ahead);
            var xs := Indicator(Trade(sqrt, s, p, |p|).0, |p|, s.Warmup(), ahead);
            var ys := Changes(p, s.Warmup(), ahead);
            var n, buys := |ys|, MeasuredBuys(r.signals);
            && buys <= n == |xs|
            && if 0 < buys < n && Varies(ys, n)
               then (r.correlation > 0.0 <==> MeanOn(xs, ys, n, 1.0) > MeanOn(xs, ys, n, 0.0))
                    && (r.correlation < 0.0 <==> MeanOn(xs, ys, n, 1.0) < MeanOn(xs, ys, n, 0.0))
               else r.correlation == 0.0
  {
    var events := Trade(sqrt, s, p, |p|).0;
    var xs, ys := Indicator(events, |p|, s.Warmup(), ahead), Changes(p, s.Warmup(), ahead);
    TradesAlternate(sqrt, s, p, |p|);
    TradesAreOnBars(sqrt, s, p);
    assert Backtested(sqrt, s, p, ahead) == Summary(sqrt, events, p, s.Warmup(), ahead) by {
      hide Summary, Trade;
    }
    assert |xs| == |ys| == Measurable(|p|, s.Warmup(), ahead);
    hide Trade, Indicator, Changes, Alternating, Correlation, Varies, MeanOn, IsSqrt, Priced, MeasuredBuys,
      Backtested, Marks;
    BuysAreMarks(events, p, s.Warmup(), ahead);
    SignOfCorrelation(sqrt, xs, ys, |ys|);
    MarksAddUp(xs, |xs|);
  }

  /** The win rate is a percentage of the measured buys. */
  lemma {:induction false} WinsAreBuys(rows: seq<SignalRow>)
    ensures Wins(rows) <= MeasuredBuys(rows)
  {
    if rows != [] {
      WinsAreBuys(rows[..|rows| - 1]);
    }
  }

  lemma WinRateIsPercentage(rows: seq<SignalRow>)
    ensures 0.0 <= WinRate(rows) <= 100.0
    ensures WinRate(rows) == 100.0 <==> 0 < MeasuredBuys(rows) == Wins(rows)
  {
    WinsAreBuys(rows);
    hide Wins, MeasuredBuys;
    if MeasuredBuys(rows) > 0 {
      Ratio(Wins(rows) as real, MeasuredBuys(rows) as real, Wins(rows) as real / MeasuredBuys(rows) as real);
    }
  }

  lemma Ratio(x: real, y: real, q: real)
    requires 0.0 <= x <= y && y > 0.0 && q == x / y
    ensures 0.0 <= q <= 1.0 && (q == 1.0 <==> x == y)
  {}
}
