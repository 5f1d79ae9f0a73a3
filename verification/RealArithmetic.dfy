/** Facts about real products and quotients, and the floor of a quotient of whole numbers. */
module RealArithmetic {

  lemma FractionInUnitInterval(part: int, whole: int)
    requires 0 <= part <= whole && whole > 0
    ensures 0.0 <= part as real / whole as real <= 1.0
  {
  }

  lemma RealProductSign(a: real, b: real)
    requires a >= 0.0 && b >= 0.0
    ensures a * b >= 0.0
  {
  }

  lemma RealProductAtLeast(a: real, b: real, low: real, bound: real)
    requires a >= low >= 0.0 && b >= bound >= 0.0
    ensures a * b >= low * bound
  {
    RealProductSign(a - low, b);
    RealProductSign(low, b - bound);
    assert a * b - low * bound == (a - low) * b + low * (b - bound);
  }

  lemma RealProductZero(a: real, b: real, c: real)
    ensures a == 0.0 || c == 0.0 ==> a * b * c == 0.0
  {
  }

  lemma FloorOfQuotient(x: int, d: int)
    requires d > 0
    ensures (x as real / d as real).Floor == x / d
  {
    var q, r := x / d, x % d;
    assert x as real == (q * d) as real + r as real;
    assert (q * d) as real == q as real * d as real;
    RealQuotientSplits(x as real, d as real, q as real, r as real);
  }

  lemma RealQuotientSplits(x: real, d: real, q: real, r: real)
    requires d > 0.0 && x == q * d + r && 0.0 <= r < d
    ensures q <= x / d < q + 1.0
  {
    FractionBelowOne(r, d);
    assert x / d == q + r / d;
  }

  lemma FractionBelowOne(r: real, d: real)
    requires 0.0 <= r < d
    ensures 0.0 <= r / d < 1.0
  {
  }

  lemma RealCancel(a: real, b: real, d: real)
    requires d > 0.0 && a * d == b * d
    ensures a == b
  {
    assert (a - b) * d == 0.0;
  }

  lemma RealComplement(x: real, d: real)
    requires d > 0.0
    ensures 1.0 - x / d == (d - x) / d
  {
    var y, z := x / d, (d - x) / d;
    assert y * d == x && z * d == d - x;
    RealCancel(1.0 - y, z, d);
  }

  lemma OtherShare(part: int, n: int)
    requires n > 0
    ensures 1.0 - part as real / n as real == (n - part) as real / n as real
  {
    RealComplement(part as real, n as real);
  }

  lemma RealProductStrict(a: real, b: real, d: real)
    requires d > 0.0
    ensures a > b <==> a * d > b * d
  {
    assert a * d - b * d == (a - b) * d;
  }

  lemma QuotientCompares(x: real, d: real, c: real)
    requires d > 0.0
    ensures x / d > c <==> x > c * d
    ensures x / d < c <==> x < c * d
  {
    var q := x / d;
    assert q * d == x;
    RealProductStrict(q, c, d);
    RealProductStrict(c, q, d);
  }
}
