/**
 * `Math.abs`, `Math.min`, `Math.max` over `real`, and the facts about
 * products and quotients of reals that the pixelation proofs rest on.
 */
module RealArith {

  function Abs(x: real): (r: real)
    ensures r >= 0.0 && (r == x || r == -x)
  {
    if x < 0.0 then -x else x
  }

  function Max(a: real, b: real): (r: real)
    ensures r >= a && r >= b && (r == a || r == b)
  {
    if a >= b then a else b
  }

  function Min(a: real, b: real): (r: real)
    ensures r <= a && r <= b && (r == a || r == b)
  {
    if a <= b then a else b
  }

  /** The sign of a product. */
  lemma ProductSign(a: real, b: real)
    ensures a >= 0.0 && b >= 0.0 ==> a * b >= 0.0
    ensures a > 0.0 && b > 0.0 ==> a * b > 0.0
    ensures a < 0.0 && b > 0.0 ==> a * b < 0.0
  {
  }

  /** Scaling by a positive factor keeps strict order. */
  lemma ScaleLess(a: real, b: real, k: real)
    requires a < b && k > 0.0
    ensures a * k < b * k
  {
    ProductSign(b - a, k);
    assert (b - a) * k == b * k - a * k;
  }

  /** Scaling by a non-negative factor keeps order. */
  lemma ScaleAtMost(a: real, b: real, k: real)
    requires a <= b && k >= 0.0
    ensures a * k <= b * k
  {
    ProductSign(b - a, k);
    assert (b - a) * k == b * k - a * k;
  }

  /** The sign of `a / k` for a positive divisor. */
  lemma QuotientSign(a: real, k: real)
    requires k > 0.0
    ensures a >= 0.0 ==> a / k >= 0.0
    ensures a > 0.0 ==> a / k > 0.0
  {
    var q := a / k;
    assert q * k == a;
    if q <= 0.0 {
      var n := -q;
      ProductSign(n, k);
      assert n * k == -a;
    }
  }

  /** How `a / k` compares with 1 for a positive divisor. */
  lemma QuotientVersusOne(a: real, k: real)
    requires k > 0.0
    ensures a >= k ==> a / k >= 1.0
    ensures a < k ==> a / k < 1.0
  {
    var q := a / k;
    assert q * k == a;
    if q >= 1.0 {
      var e := q - 1.0;
      ProductSign(e, k);
      assert e * k == a - k;
    } else {
      var e := 1.0 - q;
      ProductSign(e, k);
      assert e * k == k - a;
    }
  }

  /** The bounds of `a / k` for a positive divisor. */
  lemma DivisionBounds(a: real, k: real)
    requires k > 0.0
    ensures a >= 0.0 ==> a / k >= 0.0
    ensures a > 0.0 ==> a / k > 0.0
    ensures a >= k ==> a / k >= 1.0
    ensures a < k ==> a / k < 1.0
  {
    QuotientSign(a, k);
    QuotientVersusOne(a, k);
  }

  /** A positive number divided by a negative one is negative. */
  lemma DivisionByNegative(a: real, k: real)
    ensures a > 0.0 && k < 0.0 ==> a / k < 0.0
  {
    if a > 0.0 && k < 0.0 {
      assert a / k == -(a / -k);
      DivisionBounds(a, -k);
    }
  }

  /** Division by a positive number keeps order. */
  lemma DivisionMonotone(a: real, b: real, k: real)
    requires k > 0.0 && a <= b
    ensures a / k <= b / k
  {
    assert b / k - a / k == (b - a) / k;
    DivisionBounds(b - a, k);
  }
}
