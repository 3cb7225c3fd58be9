/** What the RSI measures, what its sentinel 0 stands for, and what skipping that value costs. */
module RsiMeaning {
  import opened Algebra
  import opened Indicators
  import opened LiveSignals
  import opened Strategies

  // ---------------------------------------------------------------- which moves are remembered

  /** The first move that still counts on bar `i`: with period 1 nothing but the last one does. */
  function Oldest(period: nat, i: nat): nat {
    if period == 1 then i else 1
  }

  predicate Rose(p: seq<real>, lo: nat, hi: nat)
    requires 0 < lo && hi < |p|
  {
    exists j :: lo <= j <= hi && p[j] > p[j - 1]
  }

  predicate Fell(p: seq<real>, lo: nat, hi: nat)
    requires 0 < lo && hi < |p|
  {
    exists j :: lo <= j <= hi && p[j] < p[j - 1]
  }

  lemma GainIff(p: seq<real>, i: nat)
    requires 0 < i < |p|
    ensures Gain(p, i) > 0.0 <==> p[i] > p[i - 1]
    ensures Loss(p, i) > 0.0 <==> p[i] < p[i - 1]
  {}

  /** A sum, or an average, of non-negative terms is positive when one of them is. */
  lemma {:induction false} TotalIff(p: seq<real>, n: nat)
    requires n < |p|
    ensures Total(p, n).gain > 0.0 <==> Rose(p, 1, n)
    ensures Total(p, n).loss > 0.0 <==> Fell(p, 1, n)
  {
    if n > 0 {
      TotalIff(p, n - 1);
      GainIff(p, n);
      MovesExtend(p, 1, n);
      hide Rose, Fell, Gain, Loss;
    }
  }

  lemma MovesExtend(p: seq<real>, lo: nat, n: nat)
    requires 0 < lo <= n < |p|
    ensures Rose(p, lo, n) <==> Rose(p, lo, n - 1) || p[n] > p[n - 1]
    ensures Fell(p, lo, n) <==> Fell(p, lo, n - 1) || p[n] < p[n - 1]
  {}

  lemma AverageIff(x: real, y: real, period: nat, average: real)
    requires 1 <= period && x >= 0.0 && y >= 0.0 && average * period as real == x * (period - 1) as real + y
    ensures average > 0.0 <==> (period > 1 && x > 0.0) || y > 0.0
  {
    var n, count := (period - 1) as real, period as real;
    AverageSign(average, count, x * n + y);
    if period > 1 && x > 0.0 {
      PositiveProduct(x, n);
    } else {
      assert x * n == 0.0;
    }
  }

  lemma AverageSign(average: real, count: real, sum: real)
    requires count > 0.0 && average * count == sum && sum >= 0.0
    ensures average > 0.0 <==> sum > 0.0
  {}

  lemma QuotientIff(x: real, period: nat)
    requires 1 <= period && x >= 0.0
    ensures x / period as real > 0.0 <==> x > 0.0
  {}

  /** The two equations of Wilder's averages. */
  lemma FirstWilder(p: seq<real>, period: nat)
    requires 1 <= period < |p|
    ensures Wilder(p, period, period).gain == Total(p, period).gain / period as real
    ensures Wilder(p, period, period).loss == Total(p, period).loss / period as real
  {
    hide Total;
  }

  lemma NextWilder(p: seq<real>, period: nat, i: nat, s: Strength)
    requires 1 <= period < i < |p| && s == Wilder(p, period, i - 1)
    ensures Wilder(p, period, i).gain * period as real == s.gain * (period - 1) as real + Gain(p, i)
    ensures Wilder(p, period, i).loss * period as real == s.loss * (period - 1) as real + Loss(p, i)
  {
    hide *;
    WilderIsSmoothed(p, period, i);
    SmoothParts(s, Gain(p, i), Loss(p, i), period, (period - 1) as real, period as real);
  }

  lemma WilderIsSmoothed(p: seq<real>, period: nat, i: nat)
    requires 1 <= period < i < |p|
    ensures Wilder(p, period, i) == Smooth(Wilder(p, period, i - 1), Gain(p, i), Loss(p, i), period)
  {
    hide Total, Gain, Loss, Smooth;
  }

  /** The Wilder averages are positive exactly when a remembered move went that way. */
  lemma {:induction false} WilderIff(p: seq<real>, period: nat, i: nat)
    requires 1 <= period <= i < |p|
    ensures Wilder(p, period, i).gain > 0.0 <==> Rose(p, Oldest(period, i), i)
    ensures Wilder(p, period, i).loss > 0.0 <==> Fell(p, Oldest(period, i), i)
  {
    hide *;
    if i == period {
      TotalIff(p, period);
      FirstWilder(p, period);
      QuotientIff(Total(p, period).gain, period);
      QuotientIff(Total(p, period).loss, period);
      OldestIs(period, period);
    } else {
      WilderIff(p, period, i - 1);
      var before, now := Wilder(p, period, i - 1), Wilder(p, period, i);
      NextWilder(p, period, i, before);
      GainIff(p, i);
      AverageIff(before.gain, Gain(p, i), period, now.gain);
      AverageIff(before.loss, Loss(p, i), period, now.loss);
      OldestIs(period, i - 1);
      OldestIs(period, i);
      MovesExtend(p, Oldest(period, i), i);
      if period == 1 {
        NothingBefore(p, i);
      }
    }
  }

  lemma OldestIs(period: nat, i: nat)
    requires 1 <= period <= i
    ensures 1 <= Oldest(period, i) <= i && Oldest(period, i) == if period == 1 then i else 1
  {}

  lemma NothingBefore(p: seq<real>, i: nat)
    requires 0 < i <= |p|
    ensures !Rose(p, i, i - 1) && !Fell(p, i, i - 1)
  {}

  // ---------------------------------------------------------------- the RSI as a share

  lemma Share(s: Strength)
    requires s.gain >= 0.0 && s.loss >= 0.0 && s.gain + s.loss > 0.0
    ensures ToRsi(s) == 100.0 * s.gain / (s.gain + s.loss)
    ensures 0.0 <= ToRsi(s) <= 100.0
    ensures ToRsi(s) == 0.0 <==> s.gain == 0.0
    ensures ToRsi(s) == 100.0 <==> s.loss == 0.0
  {
    var g, l := s.gain, s.loss;
    var r := 100.0 * g / (g + l);
    assert r * (g + l) == 100.0 * g;
    if l == 0.0 {
      CancelFactor(r, 100.0, g);
    } else {
      var q := g / l;
      assert q * l == g;
      var u := 100.0 / (1.0 + q);
      assert u * (1.0 + q) == 100.0;
      ShareAlgebra(g, l, q, u, r);
    }
    ShareRange(g, l, r);
  }

  lemma ShareAlgebra(g: real, l: real, q: real, u: real, r: real)
    requires g >= 0.0 && l > 0.0 && q * l == g && u * (1.0 + q) == 100.0 && r * (g + l) == 100.0 * g
    ensures 100.0 - u == r
  {
    assert (1.0 + q) * l == g + l;
    assert u * (g + l) == u * (1.0 + q) * l;
    assert (100.0 - u) * (g + l) == 100.0 * g;
    CancelFactor(100.0 - u, r, g + l);
  }

  lemma ShareRange(g: real, l: real, r: real)
    requires g >= 0.0 && l >= 0.0 && g + l > 0.0 && r * (g + l) == 100.0 * g
    ensures 0.0 <= r <= 100.0 && (r == 0.0 <==> g == 0.0) && (r == 100.0 <==> l == 0.0)
  {
    var t := g + l;
    CancelPositive(t, r);
    assert t * (100.0 - r) == 100.0 * l;
    CancelPositive(t, 100.0 - r);
    if g == 0.0 {
      CancelFactor(r, 0.0, t);
    }
    if l == 0.0 {
      CancelFactor(100.0 - r, 0.0, t);
    }
  }

  /** From bar `period` on the RSI is a percentage: the share of the gains once something moved, else 100. */
  lemma RsiIsShare(p: seq<real>, period: nat, i: nat)
    requires 1 <= period <= i < |p|
    ensures 0.0 <= Rsi(p, period, i) <= 100.0
    ensures var s, from := Wilder(p, period, i), Oldest(period, i);
            if Rose(p, from, i) || Fell(p, from, i)
            then s.gain + s.loss > 0.0 && Rsi(p, period, i) == 100.0 * s.gain / (s.gain + s.loss)
            else Rsi(p, period, i) == 100.0
  {
    WilderIff(p, period, i);
    hide Wilder, ToRsi, Rose, Fell, Oldest;
    var s := Wilder(p, period, i);
    if s.gain + s.loss > 0.0 {
      Share(s);
    } else {
      NoMoves(s);
    }
  }

  lemma NoMoves(s: Strength)
    requires s.gain >= 0.0 && s.loss >= 0.0 && s.gain + s.loss <= 0.0
    ensures ToRsi(s) == 100.0
  {}

  /** 0 also marks bars without an RSI; from bar `period` on it occurs exactly when only falls are remembered. */
  lemma SentinelIff(p: seq<real>, period: nat, i: nat)
    requires 1 <= period && i < |p|
    ensures Rsi(p, period, i) == 0.0
            <==> i < period || (!Rose(p, Oldest(period, i), i) && Fell(p, Oldest(period, i), i))
    ensures Rsi(p, period, i) == 100.0 <==> period <= i && !Fell(p, Oldest(period, i), i)
  {
    if period <= i {
      WilderIff(p, period, i);
      hide Wilder, ToRsi, Rose, Fell, Oldest;
      var s := Wilder(p, period, i);
      if s.gain + s.loss > 0.0 {
        Share(s);
      } else {
        NoMoves(s);
      }
    } else {
      hide Rose, Fell, Oldest, Wilder, ToRsi;
    }
  }

  // ---------------------------------------------------------------- reflection

  /** Every move of `q` is that of `p` turned around. */
  ghost predicate Reflected(p: seq<real>, q: seq<real>) {
    |p| == |q| && forall j :: 0 < j < |p| ==> q[j] - q[j - 1] == p[j - 1] - p[j]
  }

  lemma MovesReflect(p: seq<real>, q: seq<real>, i: nat)
    requires |p| == |q| && Reflected(p, q) && 0 < i < |p|
    ensures Gain(q, i) == Loss(p, i) && Loss(q, i) == Gain(p, i)
  {}

  lemma {:induction false} TotalReflects(p: seq<real>, q: seq<real>, n: nat)
    requires |p| == |q| && Reflected(p, q) && n < |p|
    ensures Total(q, n) == Strength(Total(p, n).loss, Total(p, n).gain)
  {
    if n > 0 {
      TotalReflects(p, q, n - 1);
      MovesReflect(p, q, n);
    }
  }

  lemma {:induction false} WilderReflects(p: seq<real>, q: seq<real>, period: nat, i: nat)
    requires |p| == |q| && Reflected(p, q) && 1 <= period <= i < |p|
    ensures Wilder(q, period, i) == Strength(Wilder(p, period, i).loss, Wilder(p, period, i).gain)
  {
    hide *;
    if i == period {
      TotalReflects(p, q, period);
      FirstWilder(p, period);
      FirstWilder(q, period);
    } else {
      WilderReflects(p, q, period, i - 1);
      MovesReflect(p, q, i);
      NextWilder(p, period, i, Wilder(p, period, i - 1));
      NextWilder(q, period, i, Wilder(q, period, i - 1));
    }
  }

  /** Reflecting the prices turns an RSI into its complement, except that without any move both are 100. */
  lemma ReflectionComplements(p: seq<real>, q: seq<real>, period: nat, i: nat)
    requires Reflected(p, q) && 1 <= period <= i < |p|
    ensures var from := Oldest(period, i);
            Rsi(q, period, i) == 100.0 - Rsi(p, period, i) <==> Rose(p, from, i) || Fell(p, from, i)
  {
    WilderReflects(p, q, period, i);
    WilderIff(p, period, i);
    hide Wilder, ToRsi, Rose, Fell, Oldest, Reflected;
    var s, t := Wilder(p, period, i), Wilder(q, period, i);
    if s.gain + s.loss > 0.0 {
      Share(s);
      Share(t);
      SharesAddUp(s.gain, s.loss, ToRsi(s), ToRsi(t));
    } else {
      NoMoves(s);
      NoMoves(t);
    }
  }

  lemma SharesAddUp(g: real, l: real, r: real, r': real)
    requires g + l > 0.0 && r == 100.0 * g / (g + l) && r' == 100.0 * l / (l + g)
    ensures r' == 100.0 - r
  {
    assert r * (g + l) == 100.0 * g && r' * (g + l) == 100.0 * l;
    CancelFactor(r', 100.0 - r, g + l);
  }

  // ---------------------------------------------------------------- the most oversold series

  ghost predicate NeverRises(p: seq<real>) {
    forall j :: 0 < j < |p| ==> p[j] <= p[j - 1]
  }

  lemma FallingRsi(p: seq<real>, period: nat, i: nat)
    requires NeverRises(p) && 1 <= period && i < |p|
    ensures Rsi(p, period, i) == if period <= i && !Fell(p, Oldest(period, i), i) then 100.0 else 0.0
  {
    SentinelIff(p, period, i);
    hide Rsi, Fell, Oldest;
  }

  /** A series that only falls is never bought by the backtest: its RSI of 0 is skipped as undefined. */
  lemma {:induction false} FallingIsNeverBought(sqrt: real -> real, p: seq<real>, period: nat, oversold: real,
                                                overbought: real, m: nat)
    requires NeverRises(p) && 1 <= period && oversold <= 100.0 && m <= |p|
    ensures Trade(sqrt, MeanReversion(period, oversold, overbought), p, m) == ([], FLAT)
  {
    if m > period + 1 {
      FallingIsNeverBought(sqrt, p, period, oversold, overbought, m - 1);
      FallingRsi(p, period, m - 1);
      hide Rsi, NeverRises;
    }
  }

  /** Nor does a live session buy it: it is told to sell or to hold. */
  lemma FallingLive(sqrt: real -> real, p: seq<real>, period: nat, oversold: real, overbought: real)
    requires NeverRises(p) && 1 <= period && oversold <= 100.0 && p != []
    ensures Live(sqrt, MeanReversion(period, oversold, overbought), p) != Buy
  {
    FallingLastRsi(p, period, |p|);
    hide LastRsi;
  }

  lemma {:induction false} FallingLastRsi(p: seq<real>, period: nat, n: nat)
    requires NeverRises(p) && 1 <= period && n <= |p|
    ensures LastRsi(p, period, n) == 0.0 || LastRsi(p, period, n) == 100.0
  {
    if n > 0 {
      FallingRsi(p, period, n - 1);
      hide Rsi, NeverRises;
      FallingLastRsi(p, period, n - 1);
    }
  }
}
