/** Cauchy-Schwarz for the comoments, and what it says about the correlation. */
module PearsonBounds {
  import opened Algebra
  import opened Common
  import opened Pearson

  function Form(xx: real, xy: real, yy: real, s: real, t: real): real {
    s * s * xx + 2.0 * (s * t) * xy + t * t * yy
  }

  /** The quadratic form of the cross sums is a sum of squares. */
  lemma {:induction false} FormIsNonNegative(xs: seq<real>, ys: seq<real>, a: real, b: real, s: real, t: real, n: nat)
    requires n <= |xs| && n <= |ys|
    ensures Form(Cross(xs, xs, a, a, n), Cross(xs, ys, a, b, n), Cross(ys, ys, b, b, n), s, t) >= 0.0
  {
    if n > 0 {
      var dx, dy := xs[n - 1] - a, ys[n - 1] - b;
      hide *;
      FormIsNonNegative(xs, ys, a, b, s, t, n - 1);
      CrossStep(xs, xs, a, a, n - 1, dx, dx);
      CrossStep(xs, ys, a, b, n - 1, dx, dy);
      CrossStep(ys, ys, b, b, n - 1, dy, dy);
      FormStep(Cross(xs, xs, a, a, n - 1), Cross(xs, ys, a, b, n - 1), Cross(ys, ys, b, b, n - 1), dx, dy, s, t,
               Cross(xs, xs, a, a, n), Cross(xs, ys, a, b, n), Cross(ys, ys, b, b, n));
    }
  }

  /** One more pair adds a square to the form. */
  lemma FormGrows(xx: real, xy: real, yy: real, dx: real, dy: real, s: real, t: real,
                  xx': real, xy': real, yy': real, d: real)
    requires xx' == xx + dx * dx && xy' == xy + dx * dy && yy' == yy + dy * dy && d == s * dx + t * dy
    ensures Form(xx', xy', yy', s, t) == Form(xx, xy, yy, s, t) + d * d
  {
    hide *;
    FormSum(xx, xy, yy, dx * dx, dx * dy, dy * dy, s, t, xx', xy', yy');
    FormSquare(dx, dy, s, t, d);
  }

  lemma FormSum(xx: real, xy: real, yy: real, p: real, q: real, r: real, s: real, t: real,
                xx': real, xy': real, yy': real)
    requires xx' == xx + p && xy' == xy + q && yy' == yy + r
    ensures Form(xx', xy', yy', s, t) == Form(xx, xy, yy, s, t) + Form(p, q, r, s, t)
  {}

  lemma FormSquare(dx: real, dy: real, s: real, t: real, d: real)
    requires d == s * dx + t * dy
    ensures Form(dx * dx, dx * dy, dy * dy, s, t) == d * d
  {
    var x, y := s * dx, t * dy;
    assert s * s * (dx * dx) == x * x && (s * t) * (dx * dy) == x * y && t * t * (dy * dy) == y * y;
    assert (x + y) * (x + y) == x * x + 2.0 * (x * y) + y * y;
  }

  lemma FormStep(xx: real, xy: real, yy: real, dx: real, dy: real, s: real, t: real, xx': real, xy': real, yy': real)
    requires xx' == xx + dx * dx && xy' == xy + dx * dy && yy' == yy + dy * dy
    requires Form(xx, xy, yy, s, t) >= 0.0
    ensures Form(xx', xy', yy', s, t) >= 0.0
  {
    hide *;
    FormGrows(xx, xy, yy, dx, dy, s, t, xx', xy', yy', s * dx + t * dy);
    SquareIsNonNegative(s * dx + t * dy);
  }

  /** Cauchy-Schwarz: after any number of pairs, C * C <= M2X * M2Y. */
  lemma CauchySchwarz(xs: seq<real>, ys: seq<real>, n: nat)
    requires n <= |xs| && n <= |ys|
    ensures Comoment(xs, ys, n) * Comoment(xs, ys, n) <= Comoment(xs, xs, n) * Comoment(ys, ys, n)
  {
    var a, b := Mean(xs, n), Mean(ys, n);
    ComomentsAre(xs, ys, n, a, b);
    ComomentsAre(xs, xs, n, a, a);
    ComomentsAre(ys, ys, n, b, b);
    hide *;
    CauchySchwarzAround(xs, ys, a, b, n);
    SameProduct(Comoment(xs, ys, n), Comoment(xs, ys, n), Cross(xs, ys, a, b, n), Cross(xs, ys, a, b, n));
    SameProduct(Comoment(xs, xs, n), Comoment(ys, ys, n), Cross(xs, xs, a, a, n), Cross(ys, ys, b, b, n));
  }

  lemma ComomentsAre(xs: seq<real>, ys: seq<real>, n: nat, a: real, b: real)
    requires n <= |xs| && n <= |ys| && a == Mean(xs, n) && b == Mean(ys, n)
    ensures Comoment(xs, ys, n) == Cross(xs, ys, a, b, n)
  {
    hide Cross, Mean;
  }

  lemma SameProduct(x: real, y: real, x': real, y': real)
    requires x == x' && y == y'
    ensures x * y == x' * y'
  {}

  lemma CauchySchwarzAround(xs: seq<real>, ys: seq<real>, a: real, b: real, n: nat)
    requires n <= |xs| && n <= |ys|
    ensures Cross(xs, ys, a, b, n) * Cross(xs, ys, a, b, n) <= Cross(xs, xs, a, a, n) * Cross(ys, ys, b, b, n)
  {
    hide *;
    var xx, xy, yy := Cross(xs, xs, a, a, n), Cross(xs, ys, a, b, n), Cross(ys, ys, b, b, n);
    SquaresAreNonNegative(xs, a, n);
    SquaresAreNonNegative(ys, b, n);
    FormIsNonNegative(xs, ys, a, b, yy, -xy, n);
    FormIsNonNegative(xs, ys, a, b, xy, -(xx + 1.0), n);
    Discriminant(xx, xy, yy);
  }

  lemma Discriminant(xx: real, xy: real, yy: real)
    requires xx >= 0.0 && yy >= 0.0
    requires Form(xx, xy, yy, yy, -xy) >= 0.0 && Form(xx, xy, yy, xy, -(xx + 1.0)) >= 0.0
    ensures xy * xy <= xx * yy
  {
    hide *;
    if yy > 0.0 {
      RegularDiscriminant(xx, xy, yy);
    } else {
      DegenerateDiscriminant(xx, xy);
      assert xx * yy == 0.0;
    }
  }

  lemma RegularDiscriminant(xx: real, xy: real, yy: real)
    requires yy > 0.0 && Form(xx, xy, yy, yy, -xy) >= 0.0
    ensures xy * xy <= xx * yy
  {
    assert Form(xx, xy, yy, yy, -xy) == yy * (xx * yy - xy * xy);
    CancelPositive(yy, xx * yy - xy * xy);
  }

  lemma DegenerateDiscriminant(xx: real, xy: real)
    requires xx >= 0.0 && Form(xx, xy, 0.0, xy, -(xx + 1.0)) >= 0.0
    ensures xy * xy <= 0.0
  {
    hide *;
    var t, q := -(xx + 1.0), xy * xy;
    DegenerateForm(xx, xy, t, q);
    CancelPositive(xx + 2.0, -q);
  }

  lemma DegenerateForm(xx: real, xy: real, t: real, q: real)
    requires t == -(xx + 1.0) && q == xy * xy
    ensures Form(xx, xy, 0.0, xy, t) == (xx + 2.0) * -q
  {
    hide *;
    SquareTimes(xy, xx, q);
    Reorder(xy, t, q);
    TimesZero(t);
    FormIs(xx, xy, 0.0, xy, t, q * xx, t * q, 0.0);
    DegenerateSum(xx, t, q);
  }

  lemma FormIs(xx: real, xy: real, yy: real, s: real, t: real, u: real, v: real, w: real)
    requires u == s * s * xx && v == (s * t) * xy && w == t * t * yy
    ensures Form(xx, xy, yy, s, t) == u + 2.0 * v + w
  {}

  lemma SquareTimes(x: real, y: real, q: real)
    requires q == x * x
    ensures q * y == x * x * y
  {}

  lemma Reorder(x: real, t: real, q: real)
    requires q == x * x
    ensures t * q == (x * t) * x
  {}

  lemma TimesZero(t: real)
    ensures t * t * 0.0 == 0.0
  {}

  lemma DegenerateSum(xx: real, t: real, q: real)
    requires t == -(xx + 1.0)
    ensures q * xx + 2.0 * (t * q) + 0.0 == (xx + 2.0) * -q
  {}

  /** The correlation is a number between -1 and 1, whatever the series. */
  lemma CorrelationIsBounded(sqrt: real -> real, xs: seq<real>, ys: seq<real>, n: nat)
    requires IsSqrt(sqrt) && n <= |xs| && n <= |ys|
    ensures -1.0 <= Correlation(sqrt, xs, ys, n) <= 1.0
  {
    hide *;
    var xx, xy, yy := Comoment(xs, xs, n), Comoment(xs, ys, n), Comoment(ys, ys, n);
    if n >= 2 && xx != 0.0 && yy != 0.0 {
      var root := sqrt(Variations(xs, ys, n));
      RootFacts(sqrt, xs, ys, n, xy, xx, yy, root);
      CauchySchwarz(xs, ys, n);
      RatioIsBounded(Correlation(sqrt, xs, ys, n), root, xy, xx, yy);
    } else {
      DegenerateCorrelation(sqrt, xs, ys, n);
    }
  }

  lemma RatioIsBounded(r: real, s: real, c: real, x: real, y: real)
    requires s > 0.0 && s * s == x * y && r * s == c && c * c <= x * y
    ensures -1.0 <= r <= 1.0
  {
    SquareOrder(c, s);
    CancelPositive(s, 1.0 - r);
    CancelPositive(s, 1.0 + r);
  }

  // ---------------------------------------------------------------- collinear series

  ghost predicate Collinear(xs: seq<real>, ys: seq<real>, a: real, b: real, n: nat)
    requires n <= |xs| && n <= |ys|
  {
    forall i :: 0 <= i < n ==> ys[i] == a * xs[i] + b
  }

  lemma {:induction false} CollinearSum(xs: seq<real>, ys: seq<real>, a: real, b: real, n: nat)
    requires n <= |xs| && n <= |ys| && Collinear(xs, ys, a, b, n)
    ensures SumRange(ys, 0, n) == a * SumRange(xs, 0, n) + b * n as real
  {
    if n > 0 {
      CollinearSum(xs, ys, a, b, n - 1);
    }
  }

  lemma CollinearMean(xs: seq<real>, ys: seq<real>, a: real, b: real, n: nat)
    requires 0 < n <= |xs| && n <= |ys| && Collinear(xs, ys, a, b, n)
    ensures Mean(ys, n) == a * Mean(xs, n) + b
  {
    CollinearSum(xs, ys, a, b, n);
    MeanSum(xs, n);
    MeanSum(ys, n);
    hide *;
    CancelCount(n as real, Mean(ys, n), a, Mean(xs, n), b);
  }

  lemma CancelCount(n: real, my: real, a: real, mx: real, b: real)
    requires n > 0.0 && n * my == a * (n * mx) + b * n
    ensures my == a * mx + b
  {
    assert n * (my - (a * mx + b)) == 0.0;
  }

  /** If every deviation of `ys` is `a` times that of `xs`, so are the cross sums with any `zs`. */
  lemma {:induction false} CrossScales(zs: seq<real>, xs: seq<real>, ys: seq<real>, c: real, mx: real, my: real,
                                       a: real, n: nat)
    requires n <= |zs| && n <= |xs| && n <= |ys|
    requires DeviationsScale(xs, ys, mx, my, a, n)
    ensures Cross(zs, ys, c, my, n) == a * Cross(zs, xs, c, mx, n)
  {
    hide *;
    if n > 0 {
      var dz, dx, dy := zs[n - 1] - c, xs[n - 1] - mx, ys[n - 1] - my;
      DeviationAt(xs, ys, mx, my, a, n, dx, dy);
      CrossScales(zs, xs, ys, c, mx, my, a, n - 1);
      CrossStep(zs, ys, c, my, n - 1, dz, dy);
      CrossStep(zs, xs, c, mx, n - 1, dz, dx);
      ScaleStep(a, dz, dx, dy, Cross(zs, xs, c, mx, n - 1), Cross(zs, xs, c, mx, n),
                Cross(zs, ys, c, my, n - 1), Cross(zs, ys, c, my, n));
    } else {
      NoCross(zs, ys, c, my);
      NoCross(zs, xs, c, mx);
    }
  }

  ghost predicate DeviationsScale(xs: seq<real>, ys: seq<real>, mx: real, my: real, a: real, n: nat)
    requires n <= |xs| && n <= |ys|
  {
    forall i :: 0 <= i < n ==> ys[i] - my == a * (xs[i] - mx)
  }

  lemma DeviationAt(xs: seq<real>, ys: seq<real>, mx: real, my: real, a: real, n: nat, dx: real, dy: real)
    requires 0 < n <= |xs| && n <= |ys| && DeviationsScale(xs, ys, mx, my, a, n)
    requires dx == xs[n - 1] - mx && dy == ys[n - 1] - my
    ensures dy == a * dx && DeviationsScale(xs, ys, mx, my, a, n - 1)
  {}

  lemma NoCross(xs: seq<real>, ys: seq<real>, a: real, b: real)
    ensures Cross(xs, ys, a, b, 0) == 0.0
  {}

  lemma ScaleStep(a: real, dz: real, dx: real, dy: real, before: real, after: real, before': real, after': real)
    requires dy == a * dx && after == before + dz * dx
    requires before' == a * before && after' == before' + dz * dy
    ensures after' == a * after
  {
    assert dz * dy == a * (dz * dx);
    assert a * after == a * before + a * (dz * dx);
  }

  lemma {:induction false} CrossSymmetric(xs: seq<real>, ys: seq<real>, a: real, b: real, n: nat)
    requires n <= |xs| && n <= |ys|
    ensures Cross(xs, ys, a, b, n) == Cross(ys, xs, b, a, n)
  {
    if n > 0 {
      CrossSymmetric(xs, ys, a, b, n - 1);
    }
  }

  lemma CollinearComoments(xs: seq<real>, ys: seq<real>, a: real, b: real, n: nat)
    requires 0 < n <= |xs| && n <= |ys| && Collinear(xs, ys, a, b, n)
    ensures Comoment(xs, ys, n) == a * Comoment(xs, xs, n)
    ensures Comoment(ys, ys, n) == a * Comoment(xs, ys, n)
  {
    hide *;
    var mx, my := Mean(xs, n), Mean(ys, n);
    CollinearMean(xs, ys, a, b, n);
    ComomentsAre(xs, xs, n, mx, mx);
    ComomentsAre(xs, ys, n, mx, my);
    ComomentsAre(ys, ys, n, my, my);
    CentredLine(xs, ys, a, b, mx, my, n);
    CrossScales(xs, xs, ys, mx, mx, my, a, n);
    CrossScales(ys, xs, ys, my, mx, my, a, n);
    CrossSymmetric(xs, ys, mx, my, n);
    SameMultiple(a, Cross(xs, xs, mx, mx, n), Cross(xs, ys, mx, my, n), Comoment(xs, xs, n), Comoment(xs, ys, n));
    SameMultiple(a, Cross(ys, xs, my, mx, n), Cross(ys, ys, my, my, n), Comoment(xs, ys, n), Comoment(ys, ys, n));
  }

  lemma SameMultiple(a: real, x: real, y: real, x': real, y': real)
    requires y == a * x && x == x' && y == y'
    ensures y' == a * x'
  {}

  lemma CentredLine(xs: seq<real>, ys: seq<real>, a: real, b: real, mx: real, my: real, n: nat)
    requires n <= |xs| && n <= |ys| && Collinear(xs, ys, a, b, n) && my == a * mx + b
    ensures DeviationsScale(xs, ys, mx, my, a, n)
  {
    forall i | 0 <= i < n
      ensures ys[i] - my == a * (xs[i] - mx)
    {}
  }

  /** On a varying series, the correlation with a*x + b is exactly the sign of a. */
  lemma CollinearCorrelation(sqrt: real -> real, xs: seq<real>, ys: seq<real>, a: real, b: real, n: nat)
    requires IsSqrt(sqrt) && 2 <= n <= |xs| && n <= |ys|
    requires Collinear(xs, ys, a, b, n) && Comoment(xs, xs, n) != 0.0
    ensures Correlation(sqrt, xs, ys, n) == if a > 0.0 then 1.0 else if a < 0.0 then -1.0 else 0.0
  {
    hide *;
    var xx, xy, yy := Comoment(xs, xs, n), Comoment(xs, ys, n), Comoment(ys, ys, n);
    CollinearComoments(xs, ys, a, b, n);
    VariationIsNonNegative(xs, n);
    if a == 0.0 {
      DegenerateCorrelation(sqrt, xs, ys, n);
    } else {
      VariationsScale(a, xx, xy, yy);
      var r, root := Correlation(sqrt, xs, ys, n), sqrt(Variations(xs, ys, n));
      RootFacts(sqrt, xs, ys, n, xy, xx, yy, root);
      SignOfRatio(a, xx, xy, yy, root, r);
    }
  }

  lemma VariationsScale(a: real, xx: real, xy: real, yy: real)
    requires a != 0.0 && xx >= 0.0 && xx != 0.0 && xy == a * xx && yy == a * xy
    ensures xx > 0.0 && yy != 0.0
  {
    SquareIsPositive(a, a * a);
    PositiveProduct(a * a, xx);
    assert yy == a * a * xx;
  }

  /** The regular case once more, without the division. */
  lemma RootFacts(sqrt: real -> real, xs: seq<real>, ys: seq<real>, n: nat, c: real, m2X: real, m2Y: real, root: real)
    requires IsSqrt(sqrt) && 2 <= n <= |xs| && n <= |ys|
    requires c == Comoment(xs, ys, n) && m2X == Comoment(xs, xs, n) != 0.0 && m2Y == Comoment(ys, ys, n) != 0.0
    requires root == sqrt(Variations(xs, ys, n))
    ensures root > 0.0 && root * root == m2X * m2Y
    ensures Correlation(sqrt, xs, ys, n) * root == c
  {
    hide *;
    VariationsAre(xs, ys, n, m2X, m2Y);
    RootIsPositive(sqrt, xs, ys, n);
    PositiveProduct(m2X, m2Y);
    SquareOfRoot(sqrt, m2X * m2Y, root);
    CorrelationIs(sqrt, xs, ys, n, c, root);
  }

  lemma SquareOfRoot(sqrt: real -> real, x: real, root: real)
    requires IsSqrt(sqrt) && x >= 0.0 && root == sqrt(x)
    ensures root * root == x
  {}

  lemma SignOfRatio(a: real, xx: real, xy: real, yy: real, s: real, r: real)
    requires a != 0.0 && xx > 0.0 && s > 0.0
    requires xy == a * xx && yy == a * xy && s * s == xx * yy && r * s == xy
    ensures r == if a > 0.0 then 1.0 else -1.0
  {
    assert xy * xy == s * s;
    var m := if a > 0.0 then xy else -xy;
    assert m > 0.0 && m * m == s * s by {
      PositiveProduct(if a > 0.0 then a else -a, xx);
    }
    SquareOrder(m, s);
    SquareOrder(s, m);
    assert m == s;
    CancelFactor(r, if a > 0.0 then 1.0 else -1.0, s);
  }

  // ---------------------------------------------------------------- perfectly correlated series

  /** The square that a pair adds to the form. */
  function Residual(x: real, y: real, a: real, b: real, s: real, t: real): real {
    s * (x - a) + t * (y - b)
  }

  /** The form is 0 only if every pair lies on the line. */
  lemma {:induction false} FormZero(xs: seq<real>, ys: seq<real>, a: real, b: real, s: real, t: real, n: nat)
    requires n <= |xs| && n <= |ys|
    requires Form(Cross(xs, xs, a, a, n), Cross(xs, ys, a, b, n), Cross(ys, ys, b, b, n), s, t) <= 0.0
    ensures forall i :: 0 <= i < n ==> Residual(xs[i], ys[i], a, b, s, t) == 0.0
  {
    hide *;
    if n > 0 {
      var dx, dy := xs[n - 1] - a, ys[n - 1] - b;
      FormIsNonNegative(xs, ys, a, b, s, t, n - 1);
      CrossStep(xs, xs, a, a, n - 1, dx, dx);
      CrossStep(xs, ys, a, b, n - 1, dx, dy);
      CrossStep(ys, ys, b, b, n - 1, dy, dy);
      LastSquare(Cross(xs, xs, a, a, n - 1), Cross(xs, ys, a, b, n - 1), Cross(ys, ys, b, b, n - 1), dx, dy, s, t,
                 Cross(xs, xs, a, a, n), Cross(xs, ys, a, b, n), Cross(ys, ys, b, b, n));
      ResidualIs(xs[n - 1], ys[n - 1], a, b, s, t, dx, dy);
      FormZero(xs, ys, a, b, s, t, n - 1);
    }
  }

  lemma ResidualIs(x: real, y: real, a: real, b: real, s: real, t: real, dx: real, dy: real)
    requires dx == x - a && dy == y - b
    ensures Residual(x, y, a, b, s, t) == s * dx + t * dy
  {}

  lemma LastSquare(xx: real, xy: real, yy: real, dx: real, dy: real, s: real, t: real, xx': real, xy': real, yy': real)
    requires xx' == xx + dx * dx && xy' == xy + dx * dy && yy' == yy + dy * dy
    requires Form(xx, xy, yy, s, t) >= 0.0 >= Form(xx', xy', yy', s, t)
    ensures Form(xx, xy, yy, s, t) <= 0.0 && s * dx + t * dy == 0.0
  {
    hide *;
    var d := s * dx + t * dy;
    FormGrows(xx, xy, yy, dx, dy, s, t, xx', xy', yy', d);
    SquareTerm(Form(xx, xy, yy, s, t), d, Form(xx', xy', yy', s, t));
  }

  /** Only points on a rising line have correlation 1. */
  lemma PerfectIsCollinear(sqrt: real -> real, xs: seq<real>, ys: seq<real>, n: nat) returns (a: real, b: real)
    requires IsSqrt(sqrt) && n <= |xs| && n <= |ys| && Correlation(sqrt, xs, ys, n) == 1.0
    ensures a > 0.0 && Collinear(xs, ys, a, b, n)
  {
    hide *;
    var xx, xy, yy := Comoment(xs, xs, n), Comoment(xs, ys, n), Comoment(ys, ys, n);
    if n < 2 || xx == 0.0 || yy == 0.0 {
      DegenerateCorrelation(sqrt, xs, ys, n);
    }
    var mx, my, root := Mean(xs, n), Mean(ys, n), sqrt(Variations(xs, ys, n));
    RootFacts(sqrt, xs, ys, n, xy, xx, yy, root);
    VariationIsNonNegative(xs, n);
    a := Slope(xx, xy, yy, root);
    b := my - a * mx;
    ComomentsAre(xs, xs, n, mx, mx);
    ComomentsAre(xs, ys, n, mx, my);
    ComomentsAre(ys, ys, n, my, my);
    FormZero(xs, ys, mx, my, -a, 1.0, n);
    OnTheLine(xs, ys, mx, my, a, b, n);
  }

  lemma Slope(xx: real, xy: real, yy: real, root: real) returns (a: real)
    requires xx > 0.0 && root > 0.0 && root * root == xx * yy && xy == root
    ensures a > 0.0 && Form(xx, xy, yy, -a, 1.0) == 0.0
  {
    a := xy / xx;
    PositiveQuotient(xy, xx, a);
    assert a * xx == xy;
    assert (a * xy) * xx == xy * xy == yy * xx;
    CancelFactor(a * xy, yy, xx);
    assert a * a * xx == a * xy;
    FormIs(xx, xy, yy, -a, 1.0, a * xy, -(a * xy), yy);
  }

  lemma OnTheLine(xs: seq<real>, ys: seq<real>, mx: real, my: real, a: real, b: real, n: nat)
    requires n <= |xs| && n <= |ys| && b == my - a * mx
    requires forall i :: 0 <= i < n ==> Residual(xs[i], ys[i], mx, my, -a, 1.0) == 0.0
    ensures Collinear(xs, ys, a, b, n)
  {
    forall i | 0 <= i < n
      ensures ys[i] == a * xs[i] + b
    {
      assert Residual(xs[i], ys[i], mx, my, -a, 1.0) == 0.0;
    }
  }

  /** On a rising line a correlation is 1, or 0 for want of variation. */
  lemma RisingLine(sqrt: real -> real, xs: seq<real>, ys: seq<real>, a: real, b: real, n: nat)
    requires IsSqrt(sqrt) && n <= |xs| && n <= |ys| && a > 0.0 && Collinear(xs, ys, a, b, n)
    ensures Correlation(sqrt, xs, ys, n) >= 0.0
  {
    hide *;
    if n < 2 || Comoment(xs, xs, n) == 0.0 {
      DegenerateCorrelation(sqrt, xs, ys, n);
    } else {
      CollinearCorrelation(sqrt, xs, ys, a, b, n);
    }
  }

  // ---------------------------------------------------------------- when a series counts as constant

  /** The guard `M2X <= 0` fires exactly on constant series. */
  lemma ConstantIff(xs: seq<real>, n: nat)
    requires n <= |xs|
    ensures Comoment(xs, xs, n) == 0.0 <==> forall i, j :: 0 <= i < j < n ==> xs[i] == xs[j]
  {
    if n > 0 {
      var m := Mean(xs, n);
      CrossZeroIff(xs, m, n);
      if forall i, j :: 0 <= i < j < n ==> xs[i] == xs[j] {
        assert forall i :: 0 <= i < n ==> xs[i] == xs[0];
        SumOfConstant(xs, xs[0], n);
        Quotient(SumRange(xs, 0, n), n as real, xs[0]);
      }
    }
  }

  lemma {:induction false} CrossZeroIff(xs: seq<real>, m: real, n: nat)
    requires n <= |xs|
    ensures Cross(xs, xs, m, m, n) == 0.0 <==> forall i :: 0 <= i < n ==> xs[i] == m
  {
    if n > 0 {
      var d := xs[n - 1] - m;
      hide *;
      CrossZeroIff(xs, m, n - 1);
      SquaresAreNonNegative(xs, m, n - 1);
      CrossStep(xs, xs, m, m, n - 1, d, d);
      SquareTerm(Cross(xs, xs, m, m, n - 1), d, Cross(xs, xs, m, m, n));
    }
  }

  lemma SquareTerm(before: real, d: real, after: real)
    requires before >= 0.0 && after == before + d * d
    ensures after == 0.0 <==> before == 0.0 && d == 0.0
  {
    if d != 0.0 {
      SquareIsPositive(d, after - before);
    }
  }

  lemma {:induction false} SumOfConstant(xs: seq<real>, c: real, n: nat)
    requires n <= |xs| && forall i :: 0 <= i < n ==> xs[i] == c
    ensures SumRange(xs, 0, n) == n as real * c
  {
    if n > 0 {
      SumOfConstant(xs, c, n - 1);
    }
  }
}
