/** The integer square root by bisection that both aggregators and the predictor carry. */
module Sqrt {

  /** The floor of the square root; 0 for a number that is not positive. */
  function Isqrt(n: int): (r: nat)
    ensures n <= 0 ==> r == 0
    ensures n >= 0 ==> r * r <= n < (r + 1) * (r + 1)
    decreases if n < 0 then 0 else n
  {
    if n <= 0 then 0 else
      var r := Isqrt(n - 1);
      if (r + 1) * (r + 1) <= n then r + 1 else r
  }

  lemma SquareMonotone(a: nat, b: nat)
    requires a <= b
    ensures a * a <= b * b
  {
  }

  lemma IsqrtUnique(n: nat, r: nat)
    requires r * r <= n < (r + 1) * (r + 1)
    ensures Isqrt(n) == r
  {
    var q := Isqrt(n);
    if q < r { SquareMonotone(q + 1, r); }
    if r < q { SquareMonotone(r + 1, q); }
  }

  /** A number below the square of `bound` or equal to it has a root of at most `bound`. */
  lemma IsqrtAtMost(n: int, bound: nat)
    requires n <= bound * bound
    ensures Isqrt(n) <= bound
  {
    if n > 0 && Isqrt(n) > bound { SquareMonotone(bound + 1, Isqrt(n)); }
  }

  /** Raising the radicand by at most one raises the root by at most one. */
  lemma IsqrtNextStep(n: int, m: int)
    requires m <= n + 1
    ensures Isqrt(m) <= Isqrt(n) + 1
  {
    var r := Isqrt(n);
    if n >= 0 {
      assert (r + 1) * (r + 1) >= n + 1;
    }
    IsqrtAtMost(m, r + 1);
  }

  /** How many binary digits `n` has. */
  function BitLength(n: nat): nat {
    if n == 0 then 0 else 1 + BitLength(n / 2)
  }

  lemma {:induction false} BitLengthMonotone(a: nat, b: nat)
    requires a <= b
    ensures BitLength(a) <= BitLength(b)
  {
    if a > 0 { BitLengthMonotone(a / 2, b / 2); }
  }

  /**
   The search keeps the root between `result` and `right`, and every round leaves at most
   half of the candidates, so it takes at most as many rounds as n + 1 has binary digits.
   */
  method FloorSqrt(n: int) returns (result: int, ghost rounds: nat)
    ensures n <= 0 ==> result == 0 && rounds == 0
    ensures n > 0 ==> result >= 0 && result * result <= n < (result + 1) * (result + 1)
    ensures n > 0 ==> rounds <= BitLength(n + 1)
    ensures result == Isqrt(n)
  {
    rounds := 0;
    if n <= 0 {
      return 0, 0;
    }
    var left, right := 0, n;
    result := 0;
    while left <= right
      invariant 0 <= left <= right + 1
      invariant result * result <= n < (right + 1) * (right + 1)
      invariant result == if left == 0 then 0 else left - 1
      invariant rounds + BitLength(right - left + 1) <= BitLength(n + 1)
      decreases right - left
    {
      var mid := (left + right) / 2;
      ghost var size := right - left + 1;
      if mid * mid <= n {
        result := mid;
        left := mid + 1;
      } else {
        right := mid - 1;
      }
      BitLengthMonotone(right - left + 1, size / 2);
      rounds := rounds + 1;
    }
    IsqrtUnique(n, result);
  }
}
