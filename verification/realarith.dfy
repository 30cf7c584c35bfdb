/** Facts about products and quotients of reals. The solver combines
    nonlinear terms poorly, so each fact is proved here once, in a small
    lemma, and used by name elsewhere. */
module RealArith {

  /** `root` is the exact non-negative square root of `x`. */
  predicate IsSquareRoot(root: real, x: real) {
    0.0 <= root && root * root == x
  }

  lemma NonNegProduct(a: real, b: real)
    requires 0.0 <= a && 0.0 <= b
    ensures 0.0 <= a * b
  {
  }

  lemma PositiveProduct(a: real, b: real)
    requires 0.0 < a && 0.0 < b
    ensures 0.0 < a * b
  {
  }

  /** A product of non-negative factors is zero only when a factor is. */
  lemma ZeroProduct(a: real, b: real)
    requires 0.0 <= a && 0.0 <= b
    ensures a * b == 0.0 <==> a == 0.0 || b == 0.0
  {
    if a > 0.0 && b > 0.0 {
      PositiveProduct(a, b);
    }
  }

  /** A factor in [0, 1) does not enlarge a non-negative number. */
  lemma ProductBelow(a: real, b: real)
    requires 0.0 <= a && 0.0 <= b < 1.0
    ensures a * b <= a
    ensures b * a <= a
  {
    NonNegProduct(a, 1.0 - b);
  }

  /** Twice a number below two others is at most their sum. */
  lemma TwiceBelowSum(p: real, r: real, x: real)
    requires x <= p && x <= r
    ensures 2.0 * x <= p + r
  {
  }

  /** Bounds on a quotient of a non-negative number by a positive one. */
  lemma QuotientBounds(n: real, d: real)
    requires 0.0 <= n && 0.0 < d
    ensures 0.0 <= n / d
    ensures n / d == 0.0 <==> n == 0.0
    ensures n < d ==> n / d < 1.0
  {
    var q := n / d;
    assert q * d == n;
    if q < 0.0 {
      NonNegProduct(-q, d);
    }
    if n < d && q >= 1.0 {
      NonNegProduct(q - 1.0, d);
    }
  }

  /** Dividing by more gives less. */
  lemma QuotientAntitone(n: real, small: real, large: real)
    requires 0.0 <= n && 0.0 < small <= large
    ensures n / large <= n / small
  {
    var qs := n / small;
    var ql := n / large;
    assert qs * small == n && ql * large == n;
    QuotientBounds(n, small);
    NonNegProduct(qs, large - small);
    if ql > qs {
      PositiveProduct(ql - qs, large);
    }
  }

  /** Dividing a positive number by strictly more gives strictly less. */
  lemma QuotientStrictAntitone(n: real, small: real, large: real)
    requires 0.0 < n && 0.0 < small < large
    ensures n / large < n / small
  {
    var qs := n / small;
    var ql := n / large;
    assert qs * small == n && ql * large == n;
    QuotientBounds(n, small);
    PositiveProduct(qs, large - small);
    if ql >= qs {
      NonNegProduct(ql - qs, large);
    }
  }

  /** Dividing a larger number by the same positive divisor gives more. */
  lemma QuotientMonotone(x: real, y: real, n: real)
    requires x <= y && 0.0 < n
    ensures x / n <= y / n
  {
    var qx := x / n;
    var qy := y / n;
    assert qx * n == x && qy * n == y;
    if qx > qy {
      PositiveProduct(qx - qy, n);
    }
  }

  /** The exact root of a number below one is below one. */
  lemma RootBelowOne(root: real, x: real)
    requires x < 1.0
    ensures IsSquareRoot(root, x) ==> root < 1.0
  {
    if IsSquareRoot(root, x) && root >= 1.0 {
      NonNegProduct(root, root - 1.0);
    }
  }

  /** The exact root of zero is zero. */
  lemma RootOfZero(root: real)
    ensures IsSquareRoot(root, 0.0) ==> root == 0.0
  {
    if IsSquareRoot(root, 0.0) {
      ZeroProduct(root, root);
    }
  }
}
