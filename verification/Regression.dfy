/** What a correlation measures: the share of the squared deviations that a straight line explains. */
module Regression {
  import opened Algebra
  import opened Common
  import opened Pearson
  import opened PearsonBounds

  /** How far a point lies above the line `a * x + b`. */
  function Miss(x: real, y: real, a: real, b: real): real {
    y - (a * x + b)
  }

  function Square(e: real): real {
    e * e
  }

  /** The squared errors of the line over the first `n` pairs. */
  function Errors(xs: seq<real>, ys: seq<real>, a: real, b: real, n: nat): real
    requires n <= |xs| && n <= |ys|
  {
    if n == 0 then 0.0 else Errors(xs, ys, a, b, n - 1) + Square(Miss(xs[n - 1], ys[n - 1], a, b))
  }

  lemma NextError(xs: seq<real>, ys: seq<real>, a: real, b: real, n: nat, e: real)
    requires 0 < n <= |xs| && n <= |ys| && e == Miss(xs[n - 1], ys[n - 1], a, b)
    ensures Errors(xs, ys, a, b, n) == Errors(xs, ys, a, b, n - 1) + Square(e)
  {
    hide Miss, Square;
  }

  /** The errors in terms of sums around any centres, `c` being the line's distance from them. */
  lemma {:induction false} ErrorsExpand(xs: seq<real>, ys: seq<real>, a: real, b: real, mx: real, my: real, c: real,
                                        n: nat, count: real)
    requires n <= |xs| && n <= |ys| && c == my - a * mx - b && count == n as real
    ensures Errors(xs, ys, a, b, n)
            == Form(Cross(xs, xs, mx, mx, n), Cross(xs, ys, mx, my, n), Cross(ys, ys, my, my, n), -a, 1.0)
               + 2.0 * (c * Drift(SumRange(xs, 0, n), SumRange(ys, 0, n), a, mx, my, count)) + count * (c * c)
  {
    hide *;
    if n == 0 {
      NoErrors(xs, ys, a, b, mx, my, c);
    } else {
      var x, y := xs[n - 1], ys[n - 1];
      var dx, dy, e := x - mx, y - my, Miss(x, y, a, b);
      ErrorsExpand(xs, ys, a, b, mx, my, c, n - 1, count - 1.0);
      NextError(xs, ys, a, b, n, e);
      CrossStep(xs, xs, mx, mx, n - 1, dx, dx);
      CrossStep(xs, ys, mx, my, n - 1, dx, dy);
      CrossStep(ys, ys, my, my, n - 1, dy, dy);
      NextSum(xs, n);
      NextSum(ys, n);
      ErrorStep(Cross(xs, xs, mx, mx, n - 1), Cross(xs, ys, mx, my, n - 1), Cross(ys, ys, my, my, n - 1),
                Cross(xs, xs, mx, mx, n), Cross(xs, ys, mx, my, n), Cross(ys, ys, my, my, n),
                SumRange(xs, 0, n - 1), SumRange(ys, 0, n - 1), SumRange(xs, 0, n), SumRange(ys, 0, n),
                x, y, dx, dy, e, a, b, mx, my, c, count);
    }
  }

  /** How far the sums lie from the line through the centres. */
  function Drift(sx: real, sy: real, a: real, mx: real, my: real, count: real): real {
    (sy - count * my) - a * (sx - count * mx)
  }

  lemma NoErrors(xs: seq<real>, ys: seq<real>, a: real, b: real, mx: real, my: real, c: real)
    ensures Errors(xs, ys, a, b, 0)
            == Form(Cross(xs, xs, mx, mx, 0), Cross(xs, ys, mx, my, 0), Cross(ys, ys, my, my, 0), -a, 1.0)
               + 2.0 * (c * Drift(SumRange(xs, 0, 0), SumRange(ys, 0, 0), a, mx, my, 0.0)) + 0.0 * (c * c)
  {
    assert Drift(0.0, 0.0, a, mx, my, 0.0) == 0.0;
  }

  lemma NextSum(s: seq<real>, n: nat)
    requires 0 < n <= |s|
    ensures SumRange(s, 0, n) == SumRange(s, 0, n - 1) + s[n - 1]
  {}

  lemma ErrorStep(xx: real, xy: real, yy: real, xx': real, xy': real, yy': real,
                  sx: real, sy: real, sx': real, sy': real, x: real, y: real, dx: real, dy: real, e: real,
                  a: real, b: real, mx: real, my: real, c: real, count: real)
    requires dx == x - mx && dy == y - my && e == Miss(x, y, a, b) && c == my - a * mx - b
    requires xx' == xx + dx * dx && xy' == xy + dx * dy && yy' == yy + dy * dy && sx' == sx + x && sy' == sy + y
    ensures Form(xx, xy, yy, -a, 1.0) + 2.0 * (c * Drift(sx, sy, a, mx, my, count - 1.0)) + (count - 1.0) * (c * c)
            + Square(e)
            == Form(xx', xy', yy', -a, 1.0) + 2.0 * (c * Drift(sx', sy', a, mx, my, count)) + count * (c * c)
  {
    hide *;
    var d := -a * dx + 1.0 * dy;
    FormGrows(xx, xy, yy, dx, dy, -a, 1.0, xx', xy', yy', d);
    DriftGrows(sx, sy, sx', sy', x, y, dx, dy, a, mx, my, count);
    ErrorIs(x, y, dx, dy, e, a, b, mx, my, c, d);
    SquareOfSum(e, d, c, Drift(sx, sy, a, mx, my, count - 1.0), Drift(sx', sy', a, mx, my, count), count);
  }

  lemma DriftGrows(sx: real, sy: real, sx': real, sy': real, x: real, y: real, dx: real, dy: real,
                   a: real, mx: real, my: real, count: real)
    requires dx == x - mx && dy == y - my && sx' == sx + x && sy' == sy + y
    ensures Drift(sx', sy', a, mx, my, count) == Drift(sx, sy, a, mx, my, count - 1.0) + (-a * dx + 1.0 * dy)
  {
    assert a * (sx' - count * mx) == a * (sx - (count - 1.0) * mx) + a * dx;
  }

  lemma ErrorIs(x: real, y: real, dx: real, dy: real, e: real, a: real, b: real, mx: real, my: real, c: real, d: real)
    requires dx == x - mx && dy == y - my && e == Miss(x, y, a, b) && c == my - a * mx - b && d == -a * dx + 1.0 * dy
    ensures e == d + c
  {
    assert -a * dx == a * mx - a * x;
  }

  lemma SquareOfSum(e: real, d: real, c: real, drift: real, drift': real, count: real)
    requires e == d + c && drift' == drift + d
    ensures Square(e) == d * d + 2.0 * (c * drift') - 2.0 * (c * drift) + count * (c * c) - (count - 1.0) * (c * c)
  {
    assert c * drift' == c * drift + c * d;
    assert e * e == d * d + 2.0 * (c * d) + c * c;
  }

  // ---------------------------------------------------------------- the best line

  /** What a line through the means leaves, and what any other adds. */
  lemma ErrorsAre(xs: seq<real>, ys: seq<real>, a: real, b: real, n: nat, c: real)
    requires n <= |xs| && n <= |ys| && c == Mean(ys, n) - a * Mean(xs, n) - b
    ensures Errors(xs, ys, a, b, n)
            == Form(Comoment(xs, xs, n), Comoment(xs, ys, n), Comoment(ys, ys, n), -a, 1.0) + n as real * (c * c)
  {
    hide *;
    var mx, my, count := Mean(xs, n), Mean(ys, n), n as real;
    ErrorsExpand(xs, ys, a, b, mx, my, c, n, count);
    ComomentsAre(xs, xs, n, mx, mx);
    ComomentsAre(xs, ys, n, mx, my);
    ComomentsAre(ys, ys, n, my, my);
    MeanSum(xs, n);
    MeanSum(ys, n);
    NoDrift(a, mx, my, count, c, SumRange(xs, 0, n), SumRange(ys, 0, n));
  }

  lemma NoDrift(a: real, mx: real, my: real, count: real, c: real, sx: real, sy: real)
    requires sx == count * mx && sy == count * my
    ensures 2.0 * (c * Drift(sx, sy, a, mx, my, count)) == 0.0
  {}

  /** The squared deviations from the mean: the errors of the flat line through it. */
  function Spread(xs: seq<real>, ys: seq<real>, n: nat): real
    requires n <= |xs| && n <= |ys|
  {
    Errors(xs, ys, 0.0, Mean(ys, n), n)
  }

  lemma SpreadIs(xs: seq<real>, ys: seq<real>, n: nat)
    requires n <= |xs| && n <= |ys|
    ensures Spread(xs, ys, n) == Comoment(ys, ys, n)
  {
    hide *;
    FlatLine(xs, ys, n, Mean(ys, n), Mean(xs, n));
    ErrorsAre(xs, ys, 0.0, Mean(ys, n), n, 0.0);
    FlatForm(Comoment(xs, xs, n), Comoment(xs, ys, n), Comoment(ys, ys, n), n as real);
  }

  lemma FlatLine(xs: seq<real>, ys: seq<real>, n: nat, my: real, mx: real)
    requires n <= |xs| && n <= |ys| && my == Mean(ys, n)
    ensures Spread(xs, ys, n) == Errors(xs, ys, 0.0, my, n) && 0.0 == my - 0.0 * mx - my
  {
    hide Errors, Mean;
  }

  lemma FlatForm(xx: real, xy: real, yy: real, n: real)
    ensures Form(xx, xy, yy, -0.0, 1.0) + n * (0.0 * 0.0) == yy
  {}

  /** The part that the correlation leaves unexplained. */
  function Unexplained(r: real, spread: real): real {
    (1.0 - r * r) * spread
  }

  /** No line leaves less than that. */
  lemma NoLineIsBetter(sqrt: real -> real, xs: seq<real>, ys: seq<real>, a: real, b: real, n: nat)
    requires IsSqrt(sqrt) && n <= |xs| && n <= |ys|
    ensures Errors(xs, ys, a, b, n) >= Unexplained(Correlation(sqrt, xs, ys, n), Spread(xs, ys, n))
  {
    hide *;
    var xx, xy, yy := Comoment(xs, xs, n), Comoment(xs, ys, n), Comoment(ys, ys, n);
    var r, c := Correlation(sqrt, xs, ys, n), Mean(ys, n) - a * Mean(xs, n) - b;
    ErrorsAre(xs, ys, a, b, n, c);
    SpreadIs(xs, ys, n);
    FormLeaves(sqrt, xs, ys, a, n, xx, xy, yy, r);
    SquareIsNonNegative(c);
    NonNegativeProduct(n as real, c * c);
  }

  /** What correlation, variations and slope have to do with each other. */
  lemma FormLeaves(sqrt: real -> real, xs: seq<real>, ys: seq<real>, a: real, n: nat, xx: real, xy: real, yy: real,
                   r: real)
    requires IsSqrt(sqrt) && n <= |xs| && n <= |ys| && r == Correlation(sqrt, xs, ys, n)
    requires xx == Comoment(xs, xs, n) && xy == Comoment(xs, ys, n) && yy == Comoment(ys, ys, n)
    ensures Form(xx, xy, yy, -a, 1.0) >= Unexplained(r, yy)
    ensures a * xx == xy ==> Form(xx, xy, yy, -a, 1.0) == Unexplained(r, yy)
    ensures r * r * (xx * yy) == xy * xy && (xx == 0.0 || yy == 0.0 ==> r == 0.0)
    ensures xx >= 0.0 && yy >= 0.0 && (r > 0.0 <==> xy > 0.0) && (r < 0.0 <==> xy < 0.0)
  {
    hide *;
    VariationIsNonNegative(xs, n);
    VariationIsNonNegative(ys, n);
    CauchySchwarz(xs, ys, n);
    if n < 2 {
      FewVaryNot(xs, n);
      FewVaryNot(ys, n);
    }
    if xx == 0.0 || yy == 0.0 {
      DegenerateCorrelation(sqrt, xs, ys, n);
      assert xx * yy == 0.0;
      NoComoment(xy);
      DegenerateForms(xx, yy, a);
      FlatForms(xx, yy, a, r);
    } else {
      var root := sqrt(Variations(xs, ys, n));
      RootFacts(sqrt, xs, ys, n, xy, xx, yy, root);
      SignsOf(r, root, xy);
      SquaresOf(r, root, xx, xy, yy);
      CompleteSquare(xx, xy, yy, a, r);
    }
  }

  lemma FewVaryNot(xs: seq<real>, n: nat)
    requires n < 2 && n <= |xs|
    ensures Comoment(xs, xs, n) == 0.0
  {
    ConstantIff(xs, n);
    hide Comoment;
  }

  lemma NoComoment(xy: real)
    requires xy * xy <= 0.0
    ensures xy == 0.0
  {
    if xy != 0.0 {
      SquareIsPositive(xy, xy * xy);
    }
  }

  lemma DegenerateForms(xx: real, yy: real, a: real)
    requires xx >= 0.0
    ensures Form(xx, 0.0, yy, -a, 1.0) >= yy
    ensures a * xx == 0.0 ==> Form(xx, 0.0, yy, -a, 1.0) == yy
  {
    SquareIsNonNegative(a);
    NonNegativeProduct(a * a, xx);
    assert -a * -a * xx == a * a * xx == a * (a * xx);
  }

  lemma FlatForms(xx: real, yy: real, a: real, r: real)
    requires r == 0.0
    ensures Unexplained(r, yy) == yy && r * r * (xx * yy) == 0.0
  {}

  lemma SignsOf(r: real, root: real, xy: real)
    requires root > 0.0 && r * root == xy
    ensures (r > 0.0 <==> xy > 0.0) && (r < 0.0 <==> xy < 0.0)
  {}

  lemma SquaresOf(r: real, root: real, xx: real, xy: real, yy: real)
    requires root * root == xx * yy && r * root == xy
    ensures r * r * (xx * yy) == xy * xy
  {}

  lemma CompleteSquare(xx: real, xy: real, yy: real, a: real, r: real)
    requires xx > 0.0 && r * r * (xx * yy) == xy * xy
    ensures Form(xx, xy, yy, -a, 1.0) >= Unexplained(r, yy)
    ensures a * xx == xy ==> Form(xx, xy, yy, -a, 1.0) == Unexplained(r, yy)
  {
    var form, left, d := Form(xx, xy, yy, -a, 1.0), Unexplained(r, yy), a * xx - xy;
    var rr := r * r;
    assert form == a * (a * xx) - 2.0 * (a * xy) + yy;
    assert left == yy - rr * yy;
    assert xx * (rr * yy) == xy * xy;
    assert d * d == xx * (a * (a * xx)) - 2.0 * (xx * (a * xy)) + xy * xy;
    assert xx * (form - left) == d * d;
    hide *;
    SquareIsNonNegative(d);
    CancelPositive(xx, form - left);
    if a * xx == xy {
      ZeroTimes(xx, form - left, d);
    }
  }

  lemma ZeroTimes(x: real, y: real, d: real)
    requires x > 0.0 && x * y == d * d && d == 0.0
    ensures y == 0.0
  {}

  /**
   * And one line leaves exactly that, rising or falling as the correlation says: r * r is the share of the
   * squared deviations that a straight line can explain.
   */
  lemma BestLine(sqrt: real -> real, xs: seq<real>, ys: seq<real>, n: nat) returns (a: real, b: real)
    requires IsSqrt(sqrt) && n <= |xs| && n <= |ys|
    ensures var r := Correlation(sqrt, xs, ys, n);
            && Errors(xs, ys, a, b, n) == Unexplained(r, Spread(xs, ys, n))
            && (r > 0.0 <==> a > 0.0) && (r < 0.0 <==> a < 0.0)
  {
    hide *;
    var xx, xy, yy := Comoment(xs, xs, n), Comoment(xs, ys, n), Comoment(ys, ys, n);
    var r := Correlation(sqrt, xs, ys, n);
    FormLeaves(sqrt, xs, ys, 0.0, n, xx, xy, yy, r);
    a := SlopeOf(xx, xy);
    b := Mean(ys, n) - a * Mean(xs, n);
    FormLeaves(sqrt, xs, ys, a, n, xx, xy, yy, r);
    ErrorsAre(xs, ys, a, b, n, 0.0);
    SpreadIs(xs, ys, n);
    if xx == 0.0 {
      CauchySchwarz(xs, ys, n);
      assert xx * yy == 0.0;
      NoComoment(xy);
    }
    assert n as real * (0.0 * 0.0) == 0.0;
  }

  lemma SlopeOf(xx: real, xy: real) returns (a: real)
    requires xx >= 0.0
    ensures if xx == 0.0 then a == 0.0 else a * xx == xy && (a > 0.0 <==> xy > 0.0) && (a < 0.0 <==> xy < 0.0)
  {
    if xx == 0.0 {
      return 0.0;
    }
    a := xy / xx;
    SignsOf(a, xx, xy);
  }
}
