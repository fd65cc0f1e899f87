/** One-step facts about products, squares and quotients of reals. Each nonlinear
    step is stated and shown on its own, so that a proof using it only has to chain
    inequalities between the named terms. */
module RealArith {

  /** Python's `x ** 2`. */
  function Sq(x: real): real {
    x * x
  }

  lemma MulNonNeg(a: real, b: real)
    requires 0.0 <= a && 0.0 <= b
    ensures 0.0 <= a * b
  {
  }

  lemma MulPos(a: real, b: real)
    requires 0.0 < a && 0.0 < b
    ensures 0.0 < a * b
  {
  }

  lemma MulLe(a: real, b: real, c: real)
    requires a <= b && 0.0 <= c
    ensures a * c <= b * c
  {
    MulNonNeg(b - a, c);
  }

  lemma MulLeLeft(c: real, a: real, b: real)
    requires a <= b && 0.0 <= c
    ensures c * a <= c * b
  {
    MulNonNeg(c, b - a);
  }

  /** The product of non-negative reals is monotone in both factors. */
  lemma MulMonotone(a1: real, a2: real, b1: real, b2: real)
    requires 0.0 <= a1 <= a2 && 0.0 <= b1 <= b2
    ensures a1 * b1 <= a2 * b2
  {
    MulLe(a1, a2, b1);
    MulLeLeft(a2, b1, b2);
  }

  lemma MulLt(a: real, b: real, c: real)
    requires a < b && 0.0 < c
    ensures a * c < b * c
  {
    MulPos(b - a, c);
  }

  /** Equal reals have equal squares, whatever terms name them. */
  lemma SqEq(a: real, b: real)
    requires a == b
    ensures Sq(a) == Sq(b)
  {
  }

  lemma MulEqLeft(c: real, a: real, b: real)
    requires a == b
    ensures c * a == c * b
  {
  }

  lemma SqNonNeg(a: real)
    ensures 0.0 <= Sq(a)
  {
  }

  /** Squaring is monotone on the non-negative reals. */
  lemma SqLe(a: real, b: real)
    requires 0.0 <= a <= b
    ensures Sq(a) <= Sq(b)
  {
    var d := b - a;
    var t := b + a;
    MulNonNeg(d, t);
    assert d * t == Sq(b) - Sq(a);
  }

  lemma SqLt(a: real, b: real)
    requires 0.0 <= a < b
    ensures Sq(a) < Sq(b)
  {
    var d := b - a;
    var t := b + a;
    MulPos(d, t);
    assert d * t == Sq(b) - Sq(a);
  }

  lemma SqPos(a: real)
    requires a != 0.0
    ensures 0.0 < Sq(a)
  {
    var n := if a > 0.0 then a else -a;
    SqLt(0.0, n);
    assert Sq(n) == Sq(a);
  }

  lemma DivCancel(n: real, d: real)
    requires d != 0.0
    ensures (n / d) * d == n
  {
  }

  lemma MulDivCancel(k: real, w: real)
    requires k != 0.0
    ensures (k * w) / k == w
  {
  }

  /** `(n / a) * (a / h) == n / h`. */
  lemma DivChain(n: real, a: real, h: real)
    requires a != 0.0 && h != 0.0
    ensures (n / a) * (a / h) == n / h
  {
  }

  /** `(k x)^2 / k == k x^2`. */
  lemma ScaledSq(k: real, x: real)
    requires k != 0.0
    ensures Sq(k * x) / k == k * Sq(x)
  {
    assert Sq(k * x) == k * (k * Sq(x));
    MulDivCancel(k, k * Sq(x));
  }

  lemma DivNonNeg(n: real, d: real)
    requires 0.0 <= n && 0.0 < d
    ensures 0.0 <= n / d
  {
  }

  lemma DivPos(n: real, d: real)
    requires 0.0 < n && 0.0 < d
    ensures 0.0 < n / d
  {
  }

  /** An upper bound on the numerator, scaled by the positive denominator, bounds the
      quotient. */
  lemma DivLe(n: real, d: real, k: real)
    requires 0.0 < d && n <= k * d
    ensures n / d <= k
  {
    DivNonNeg(k * d - n, d);
    assert (k * d - n) / d == k - n / d;
  }

  /** A quotient lies between two bounds when the dividend lies between their
      multiples of the (positive) divisor. */
  lemma DivBetween(n: real, d: real, lo: real, hi: real)
    requires 0.0 < d && lo * d <= n && n <= hi * d
    ensures lo <= n / d <= hi
  {
    DivLe(n, d, hi);
    DivGe(n, d, lo);
  }

  lemma DivGe(n: real, d: real, k: real)
    requires 0.0 < d && k * d <= n
    ensures k <= n / d
  {
    DivNonNeg(n - k * d, d);
    assert (n - k * d) / d == n / d - k;
  }

  /** Dividing by a larger positive number gives a smaller quotient. */
  lemma DivAntitone(n: real, d1: real, d2: real)
    requires 0.0 <= n && 0.0 < d1 <= d2
    ensures n / d2 <= n / d1
  {
    DivCancel(n, d1);
    DivNonNeg(n, d1);
    MulLe(d1, d2, n / d1);
    assert n <= (n / d1) * d2;
    DivLe(n, d2, n / d1);
  }

  /** Dividing by a positive number keeps the order. */
  lemma DivMonotone(a: real, b: real, d: real)
    requires a <= b && 0.0 < d
    ensures a / d <= b / d
  {
    DivNonNeg(b - a, d);
    assert (b - a) / d == b / d - a / d;
  }

  /** A common nonzero factor cancels from a quotient: `(k a) / (k b) == a / b`. */
  lemma DivScale(k: real, a: real, b: real)
    requires k != 0.0 && b != 0.0
    ensures (k * a) / (k * b) == a / b
  {
    assert k * b != 0.0;
    assert ((k * a) / (k * b)) * (k * b) == k * a;
    assert (a / b) * (k * b) == k * a;
  }
}
