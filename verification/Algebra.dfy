/**
 * Small facts about products and quotients of reals. They are stated on variables only: the solver
 * matches products factor by factor.
 */
module Algebra {
  lemma Quotient(p: real, q: real, r: real)
    requires q != 0.0 && p == q * r
    ensures p / q == r
  {}

  lemma SquareIsNonNegative(x: real)
    ensures x * x >= 0.0
  {}

  lemma PositiveProduct(x: real, y: real)
    requires x > 0.0 && y > 0.0
    ensures x * y > 0.0
  {}

  lemma NonNegativeProduct(x: real, y: real)
    requires x >= 0.0 && y >= 0.0
    ensures x * y >= 0.0
  {}

  lemma NonNegativeCount(x: int, y: int)
    requires x >= 0 && y >= 0
    ensures x * y >= 0
  {}

  lemma CancelPositive(p: real, q: real)
    requires p > 0.0 && p * q >= 0.0
    ensures q >= 0.0
  {}

  lemma SquareOrder(c: real, s: real)
    requires s >= 0.0 && c * c <= s * s
    ensures -s <= c <= s
  {
    if c > s {
      SquareGrows(c, s);
    } else if -c > s {
      SquareGrows(-c, s);
    }
  }

  lemma SquareGrows(c: real, s: real)
    requires 0.0 <= s < c
    ensures s * s < c * c
  {
    PositiveProduct(c - s, c + s);
  }

  /** `p` stands for `x * x`: stated on the product itself the solver would rewrite it away. */
  lemma SquareIsPositive(x: real, p: real)
    requires x != 0.0 && p == x * x
    ensures p > 0.0
  {
    SameSign(x, x, p);
  }

  lemma SameSign(x: real, y: real, p: real)
    requires (x > 0.0 && y > 0.0) || (x < 0.0 && y < 0.0)
    requires p == x * y
    ensures p > 0.0
  {}

  lemma CancelFactor(p: real, q: real, s: real)
    requires s > 0.0 && p * s == q * s
    ensures p == q
  {}

  lemma PositiveFactors(x: real, y: real, p: real)
    requires x > 0.0 && y > 0.0 && p == x * y
    ensures p > 0.0
  {}

  lemma PositiveQuotient(x: real, y: real, q: real)
    requires x > 0.0 && y > 0.0 && q == x / y
    ensures q > 0.0
  {}

  lemma CompareScaled(x: real, y: real, s: real, xs: real, ys: real)
    requires s > 0.0 && xs == s * x && ys == s * y
    ensures x > y <==> xs > ys
  {
    assert xs - ys == s * (x - y);
  }

  lemma CancelLess(p: real, q: real, s: real)
    requires s > 0.0 && q * s > s * p
    ensures p < q
  {}

  lemma SquareLess(x: real, y: real)
    requires x >= 0.0 && y >= 0.0 && x * x < y * y
    ensures x < y
  {
    assert (y - x) * (y + x) == y * y - x * x;
    CancelLess(x, y, y + x);
  }

  lemma CancelLessEqual(p: real, q: real, s: real)
    requires s > 0.0 && p * s <= q * s
    ensures p <= q
  {}

  lemma Complement(b: real, total: real)
    requires total != 0.0
    ensures (total - b) / total == 1.0 - b / total
  {
    var q := b / total;
    assert (1.0 - q) * total == total - b;
    Quotient(total - b, total, 1.0 - q);
  }

  lemma ScaledQuotient(a: real, x: real, n: real, ax: real)
    requires n != 0.0 && ax == a * x
    ensures ax / n == a * (x / n)
  {
    var q := x / n;
    assert q * n == x;
    assert (a * q) * n == ax;
    Quotient(ax, n, a * q);
  }

  lemma ScaledRatio(x: real, y: real, a: real, ax: real, ay: real)
    requires y != 0.0 && ay != 0.0 && ax == a * x && ay == a * y
    ensures ax / ay == x / y
  {
    var q := x / y;
    assert q * y == x;
    assert q * ay == ax;
    Quotient(ax, ay, q);
  }

  lemma SignIsInvariant(a: real, x: real, ax: real)
    requires a > 0.0 && ax == a * x
    ensures ax == 0.0 <==> x == 0.0
  {
    CompareScaled(x, 0.0, a, ax, 0.0);
    CompareScaled(0.0, x, a, 0.0, ax);
  }
}
