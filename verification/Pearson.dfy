/**
 * Pearson correlation. The repository computes it twice: in one pass with Welford's updates
 * (internal/detectors/correlation.go) and in two passes (cmd/dashboard/backtest.go).
 * Both programs are proved against the textbook definition.
 */
module Pearson {
  import opened Algebra
  import opened Common

  /** What is assumed of `math.Sqrt`, over exact reals. */
  ghost predicate IsSqrt(sqrt: real -> real) {
    forall x: real :: x >= 0.0 ==> sqrt(x) >= 0.0 && sqrt(x) * sqrt(x) == x
  }

  /** The mean of the first `n` values; 0 before the first. */
  function Mean(s: seq<real>, n: nat): real
    requires n <= |s|
  {
    if n == 0 then 0.0 else SumRange(s, 0, n) / n as real
  }

  /** The sum of `(x - a) * (y - b)` over the first `n` pairs. */
  function Cross(xs: seq<real>, ys: seq<real>, a: real, b: real, n: nat): real
    requires n <= |xs| && n <= |ys|
  {
    if n == 0 then 0.0
    else Cross(xs, ys, a, b, n - 1) + (xs[n - 1] - a) * (ys[n - 1] - b)
  }

  /** The centred cross sum; `Comoment(xs, xs, n)` is `n` times the variance. */
  function Comoment(xs: seq<real>, ys: seq<real>, n: nat): real
    requires n <= |xs| && n <= |ys|
  {
    Cross(xs, ys, Mean(xs, n), Mean(ys, n), n)
  }

  // ---------------------------------------------------------------- facts about centred sums

  /** A cross sum in terms of the plain sums. */
  lemma {:induction false} Expand(xs: seq<real>, ys: seq<real>, a: real, b: real, n: nat)
    requires n <= |xs| && n <= |ys|
    ensures Cross(xs, ys, a, b, n)
            == Cross(xs, ys, 0.0, 0.0, n) - b * SumRange(xs, 0, n) - a * SumRange(ys, 0, n) + n as real * (a * b)
  {
    if n > 0 {
      Expand(xs, ys, a, b, n - 1);
      ExpandOne(SumRange(xs, 0, n - 1), SumRange(ys, 0, n - 1), xs[n - 1], ys[n - 1], a, b, (n - 1) as real);
    }
  }

  lemma ExpandOne(sx: real, sy: real, x: real, y: real, a: real, b: real, n: real)
    ensures - b * sx - a * sy + n * (a * b) + (x - a) * (y - b)
            == (x - 0.0) * (y - 0.0) - b * (sx + x) - a * (sy + y) + (n + 1.0) * (a * b)
  {}

  lemma MeanSum(s: seq<real>, n: nat)
    requires n <= |s|
    ensures SumRange(s, 0, n) == n as real * Mean(s, n)
  {}

  /** Moving the centres away from the means. */
  lemma Recentre(xs: seq<real>, ys: seq<real>, c: real, d: real, n: nat)
    requires n <= |xs| && n <= |ys|
    ensures Cross(xs, ys, c, d, n)
            == Comoment(xs, ys, n) + n as real * ((c - Mean(xs, n)) * (d - Mean(ys, n)))
  {
    hide Cross, Mean, SumRange;
    MeanSum(xs, n);
    MeanSum(ys, n);
    Expand(xs, ys, c, d, n);
    Expand(xs, ys, Mean(xs, n), Mean(ys, n), n);
    RecentreAlgebra(Cross(xs, ys, 0.0, 0.0, n), n as real, Mean(xs, n), Mean(ys, n), c, d);
  }

  lemma RecentreAlgebra(p: real, n: real, a: real, b: real, c: real, d: real)
    ensures p - d * (n * a) - c * (n * b) + n * (c * d)
            == p - b * (n * a) - a * (n * b) + n * (a * b) + n * ((c - a) * (d - b))
  {
    var ab, ad, cb, cd := a * b, a * d, c * b, c * d;
    assert (c - a) * (d - b) == cd - cb - ad + ab;
    assert d * (n * a) == n * ad && c * (n * b) == n * cb && b * (n * a) == n * ab && a * (n * b) == n * ab;
    assert n * (cd - cb - ad + ab) == n * cd - n * cb - n * ad + n * ab;
  }

  /** Welford's mean update. */
  lemma MeanStep(s: seq<real>, i: nat)
    requires i < |s|
    ensures Mean(s, i + 1) == Mean(s, i) + (s[i] - Mean(s, i)) / (i as real + 1.0)
  {
    var n, m, x := i as real, Mean(s, i), s[i];
    MeanSum(s, i);
    NextMean(s, i, n * m + x, n + 1.0);
    hide *;
    var q := (x - m) / (n + 1.0);
    MeanAlgebra(m, x, n, q);
    Quotient(n * m + x, n + 1.0, m + q);
  }

  lemma NextMean(s: seq<real>, i: nat, sum: real, count: real)
    requires i < |s| && sum == SumRange(s, 0, i) + s[i] && count == i as real + 1.0
    ensures Mean(s, i + 1) == sum / count
  {}

  lemma MeanAlgebra(m: real, x: real, n: real, q: real)
    requires (n + 1.0) * q == x - m
    ensures n * m + x == (n + 1.0) * (m + q)
  {}

  /** Welford's comoment update: the old deviation of `x` times the new deviation of `y`. */
  lemma ComomentStep(xs: seq<real>, ys: seq<real>, i: nat, dx: real, meanY: real)
    requires i < |xs| && i < |ys|
    requires dx == xs[i] - Mean(xs, i) && meanY == Mean(ys, i + 1)
    ensures Comoment(xs, ys, i + 1) == Comoment(xs, ys, i) + dx * (ys[i] - meanY)
  {
    hide Cross, Mean;
    var n, a, b, c := i as real, Mean(xs, i), Mean(ys, i), Mean(xs, i + 1);
    var ex, ey := xs[i] - c, ys[i] - meanY;
    CrossStep(xs, ys, c, meanY, i, ex, ey);
    Recentre(xs, ys, c, meanY, i);
    MeanStep(xs, i);
    MeanStep(ys, i);
    DeviationAlgebra(n, xs[i], ys[i], a, b, c, meanY, dx, ex, ey);
  }

  /** One more pair, given by its deviations. */
  lemma CrossStep(xs: seq<real>, ys: seq<real>, a: real, b: real, i: nat, dx: real, dy: real)
    requires i < |xs| && i < |ys| && dx == xs[i] - a && dy == ys[i] - b
    ensures Cross(xs, ys, a, b, i + 1) == Cross(xs, ys, a, b, i) + dx * dy
  {}

  lemma DeviationAlgebra(n: real, x: real, y: real, a: real, b: real, c: real, d: real, dx: real, ex: real, ey: real)
    requires n >= 0.0 && c == a + (x - a) / (n + 1.0) && d == b + (y - b) / (n + 1.0)
    requires dx == x - a && ex == x - c && ey == y - d
    ensures n * ((c - a) * (d - b)) + ex * ey == dx * ey
  {
    var e, f := (x - a) / (n + 1.0), (y - b) / (n + 1.0);
    assert dx == (n + 1.0) * e && ex == n * e && ey == n * f;
    assert n * (e * f) + (n * e) * (n * f) == ((n + 1.0) * e) * (n * f);
  }

  lemma {:induction false} SquaresAreNonNegative(xs: seq<real>, a: real, n: nat)
    requires n <= |xs|
    ensures Cross(xs, xs, a, a, n) >= 0.0
  {
    if n > 0 {
      var d := xs[n - 1] - a;
      CrossStep(xs, xs, a, a, n - 1, d, d);
      hide Cross;
      SquaresAreNonNegative(xs, a, n - 1);
      SquareIsNonNegative(d);
    }
  }

  lemma VariationIsNonNegative(xs: seq<real>, n: nat)
    requires n <= |xs|
    ensures Comoment(xs, xs, n) >= 0.0
  {
    SquaresAreNonNegative(xs, Mean(xs, n), n);
  }

  /** The product of the two variations, under the root of the correlation. */
  function Variations(xs: seq<real>, ys: seq<real>, n: nat): real
    requires n <= |xs| && n <= |ys|
  {
    Comoment(xs, xs, n) * Comoment(ys, ys, n)
  }

  /** The correlation of the first `n` pairs: 0 for fewer than two and for a constant series. */
  function Correlation(sqrt: real -> real, xs: seq<real>, ys: seq<real>, n: nat): real
    requires IsSqrt(sqrt) && n <= |xs| && n <= |ys|
  {
    if n < 2 || Comoment(xs, xs, n) == 0.0 || Comoment(ys, ys, n) == 0.0 then 0.0
    else
      RootIsPositive(sqrt, xs, ys, n);
      Comoment(xs, ys, n) / sqrt(Variations(xs, ys, n))
  }

  lemma RootIsPositive(sqrt: real -> real, xs: seq<real>, ys: seq<real>, n: nat)
    requires IsSqrt(sqrt) && n <= |xs| && n <= |ys|
    requires Comoment(xs, xs, n) != 0.0 && Comoment(ys, ys, n) != 0.0
    ensures Comoment(xs, xs, n) > 0.0 && Comoment(ys, ys, n) > 0.0
    ensures sqrt(Variations(xs, ys, n)) > 0.0
  {
    hide *;
    VariationIsNonNegative(xs, n);
    VariationIsNonNegative(ys, n);
    VariationsAre(xs, ys, n, Comoment(xs, xs, n), Comoment(ys, ys, n));
    PositiveProduct(Comoment(xs, xs, n), Comoment(ys, ys, n));
    SqrtPositive(sqrt, Variations(xs, ys, n));
  }

  lemma VariationsAre(xs: seq<real>, ys: seq<real>, n: nat, m2X: real, m2Y: real)
    requires n <= |xs| && n <= |ys| && m2X == Comoment(xs, xs, n) && m2Y == Comoment(ys, ys, n)
    ensures Variations(xs, ys, n) == m2X * m2Y
  {
    hide Comoment;
  }

  /** The regular case of the definition, for accumulators that hold the three comoments. */
  lemma RegularCorrelation(sqrt: real -> real, xs: seq<real>, ys: seq<real>, n: nat, c: real, m2X: real, m2Y: real)
    requires IsSqrt(sqrt) && 2 <= n <= |xs| && n <= |ys|
    requires c == Comoment(xs, ys, n) && m2X == Comoment(xs, xs, n) != 0.0 && m2Y == Comoment(ys, ys, n) != 0.0
    ensures sqrt(m2X * m2Y) > 0.0
    ensures Correlation(sqrt, xs, ys, n) == c / sqrt(m2X * m2Y)
  {
    hide *;
    VariationsAre(xs, ys, n, m2X, m2Y);
    RootIsPositive(sqrt, xs, ys, n);
    CorrelationIs(sqrt, xs, ys, n, c, sqrt(m2X * m2Y));
  }

  lemma CorrelationIs(sqrt: real -> real, xs: seq<real>, ys: seq<real>, n: nat, c: real, root: real)
    requires IsSqrt(sqrt) && 2 <= n <= |xs| && n <= |ys|
    requires Comoment(xs, xs, n) != 0.0 && Comoment(ys, ys, n) != 0.0
    requires c == Comoment(xs, ys, n) && root == sqrt(Variations(xs, ys, n)) > 0.0
    ensures Correlation(sqrt, xs, ys, n) == c / root
  {
    hide Comoment, IsSqrt, Variations;
  }

  lemma DegenerateCorrelation(sqrt: real -> real, xs: seq<real>, ys: seq<real>, n: nat)
    requires IsSqrt(sqrt) && n <= |xs| && n <= |ys|
    requires n < 2 || Comoment(xs, xs, n) == 0.0 || Comoment(ys, ys, n) == 0.0
    ensures Correlation(sqrt, xs, ys, n) == 0.0
  {}

  lemma SqrtPositive(sqrt: real -> real, x: real)
    requires IsSqrt(sqrt) && x > 0.0
    ensures sqrt(x) > 0.0
  {}

  // ---------------------------------------------------------------- the two programs

  /** The detector's one-pass correlation meets the definition. */
  method Welford(sqrt: real -> real, xs: seq<real>, ys: seq<real>) returns (r: real)
    requires IsSqrt(sqrt)
    ensures r == Correlation(sqrt, xs, ys, Min(|xs|, |ys|))
  {
    var n := |xs|;
    if |ys| < n {
      n := |ys|;
    }
    if n < 2 {
      return 0.0;
    }
    var count, meanX, meanY, c, m2X, m2Y := 0.0, 0.0, 0.0, 0.0, 0.0, 0.0;
    assert meanX == Mean(xs, 0) && meanY == Mean(ys, 0);
    assert c == Comoment(xs, ys, 0) == Comoment(xs, xs, 0) == Comoment(ys, ys, 0);
    hide IsSqrt, Cross, Comoment, Mean, SumRange;
    for i := 0 to n
      invariant count == i as real
      invariant meanX == Mean(xs, i) && meanY == Mean(ys, i)
      invariant c == Comoment(xs, ys, i)
      invariant m2X == Comoment(xs, xs, i)
      invariant m2Y == Comoment(ys, ys, i)
    {
      MeanStep(xs, i);
      MeanStep(ys, i);
      count := count + 1.0;
      var dx := xs[i] - meanX;
      meanX := meanX + dx / count;
      var dy := ys[i] - meanY;
      meanY := meanY + dy / count;
      ComomentStep(xs, ys, i, dx, meanY);
      ComomentStep(xs, xs, i, dx, meanX);
      ComomentStep(ys, ys, i, dy, meanY);
      c := c + dx * (ys[i] - meanY);
      m2X := m2X + dx * (xs[i] - meanX);
      m2Y := m2Y + dy * (ys[i] - meanY);
    }
    VariationIsNonNegative(xs, n);
    VariationIsNonNegative(ys, n);
    if m2X <= 0.0 || m2Y <= 0.0 {
      return 0.0;
    }
    RegularCorrelation(sqrt, xs, ys, n, c, m2X, m2Y);
    return c / sqrt(m2X * m2Y);
  }

  /** The backtester's two-pass correlation. */
  method TwoPass(sqrt: real -> real, xs: seq<real>, ys: seq<real>) returns (r: real)
    requires IsSqrt(sqrt) && |xs| == |ys|
    ensures r == Correlation(sqrt, xs, ys, |xs|)
  {
    var n := |xs|;
    if n < 2 {
      return 0.0;
    }
    var mX, mY := 0.0, 0.0;
    for i := 0 to n
      invariant mX == SumRange(xs, 0, i) && mY == SumRange(ys, 0, i)
    {
      mX := mX + xs[i];
      mY := mY + ys[i];
    }
    mX := mX / n as real;
    mY := mY / n as real;
    AroundMeans(xs, ys, n, mX, mY);
    AroundMeans(xs, xs, n, mX, mX);
    AroundMeans(ys, ys, n, mY, mY);
    hide *;
    var num, dX, dY := 0.0, 0.0, 0.0;
    for i := 0 to n
      invariant num == Cross(xs, ys, mX, mY, i)
      invariant dX == Cross(xs, xs, mX, mX, i)
      invariant dY == Cross(ys, ys, mY, mY, i)
    {
      var dx := xs[i] - mX;
      var dy := ys[i] - mY;
      CrossStep(xs, ys, mX, mY, i, dx, dy);
      CrossStep(xs, xs, mX, mX, i, dx, dx);
      CrossStep(ys, ys, mY, mY, i, dy, dy);
      num := num + dx * dy;
      dX := dX + dx * dx;
      dY := dY + dy * dy;
    }
    if dX == 0.0 || dY == 0.0 {
      DegenerateCorrelation(sqrt, xs, ys, n);
      return 0.0;
    }
    RegularCorrelation(sqrt, xs, ys, n, num, dX, dY);
    return num / sqrt(dX * dY);
  }

  lemma AroundMeans(xs: seq<real>, ys: seq<real>, n: nat, a: real, b: real)
    requires n <= |xs| && n <= |ys| && a == Mean(xs, n) && b == Mean(ys, n)
    ensures Cross(xs, ys, a, b, 0) == 0.0
    ensures Cross(xs, ys, a, b, n) == Comoment(xs, ys, n)
  {}
}
