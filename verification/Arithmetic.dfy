/** The few facts about products and Euclidean quotients that the solver is not left to find. */
module Arithmetic {

  lemma ProductMonotone(a: int, b: int, n: int)
    requires n >= 0
    ensures a <= b ==> a * n <= b * n
    ensures a < b && n > 0 ==> a * n < b * n
  {
    assert (b - a) * n == b * n - a * n;
  }

  lemma Distribute(a: int, x: int, y: int)
    ensures a * (x + y) == a * x + a * y
    ensures (x + y) * a == x * a + y * a
  {
  }

  lemma ProductSign(a: int, b: int)
    ensures (a >= 0 && b >= 0) || (a <= 0 && b <= 0) ==> a * b >= 0
    ensures (a >= 0 && b <= 0) || (a <= 0 && b >= 0) ==> a * b <= 0
  {
  }

  /** q is at most the quotient exactly when q times the divisor fits. */
  lemma QuotientAtLeast(x: int, n: int, q: int)
    requires n > 0
    ensures q <= x / n <==> q * n <= x
  {
    var k := x / n;
    assert k * n <= x < k * n + n;
    ProductMonotone(q, k, n);
    ProductMonotone(k + 1, q, n);
    assert (k + 1) * n == k * n + n;
  }

  lemma QuotientMonotone(x: int, y: int, n: int)
    requires n > 0 && x <= y
    ensures x / n <= y / n
  {
    assert x / n * n <= x;
    QuotientAtLeast(y, n, x / n);
  }

  /** Dividing loses less than one unit. */
  lemma QuotientNextStep(x: int, y: int, n: int)
    requires n > 0 && x <= y + n
    ensures x / n <= y / n + 1
  {
    assert (y + n) / n == y / n + 1 by {
      QuotientAtLeast(y + n, n, y / n + 1);
      QuotientAtLeast(y + n, n, y / n + 2);
      QuotientAtLeast(y, n, y / n);
      QuotientAtLeast(y, n, y / n + 1);
      assert (y / n + 1) * n == y / n * n + n;
      assert (y / n + 2) * n == (y / n + 1) * n + n;
    }
    QuotientMonotone(x, y + n, n);
  }
}
