/** Sign and monotonicity facts about products of reals, each stated about a
    named term so that callers reason about it linearly. */
module RealArith {

  /** x². */
  function Square(x: real): real
  {
    x * x
  }

  /** x·y. */
  function Product(x: real, y: real): real
  {
    x * y
  }

  lemma ProductPositive(x: real, y: real)
    requires x > 0.0 && y > 0.0
    ensures Product(x, y) > 0.0
  {
  }

  lemma ProductNonNegative(x: real, y: real)
    requires x >= 0.0 && y >= 0.0
    ensures Product(x, y) >= 0.0
  {
  }

  /** A square is never negative, and it is zero only at zero. */
  lemma SquareSign(d: real)
    ensures Square(d) >= 0.0
    ensures d != 0.0 ==> Square(d) > 0.0
  {
    if d > 0.0 {
      ProductPositive(d, d);
      assert Square(d) == Product(d, d);
    } else if d < 0.0 {
      ProductPositive(-d, -d);
      assert Square(d) == Product(-d, -d);
    }
  }

  /** Multiplication of non-negative reals is monotone in both factors. */
  lemma ProductMonotone(a: real, b: real, c: real, d: real)
    requires 0.0 <= a <= b && 0.0 <= c <= d
    ensures Product(a, c) <= Product(b, d)
  {
    ProductNonNegative(b - a, c);
    ProductNonNegative(b, d - c);
    assert b * d - a * c == Product(b - a, c) + Product(b, d - c);
  }

  /** a·t = a·u + a·v when t = u + v. */
  lemma Distribute(a: real, t: real, u: real, v: real)
    requires t == u + v
    ensures a * t == a * u + a * v
  {
  }

  /** a·t = 0 when t = 0. */
  lemma MultiplyZero(a: real, t: real)
    requires t == 0.0
    ensures a * t == 0.0 && t * a == 0.0
  {
  }

  /** A nonzero factor can be cancelled from both sides of a product. */
  lemma CancelFactor(v: real, k: real, d: real)
    requires d != 0.0
    requires v * d == Product(k, d)
    ensures v == k
  {
  }
}
