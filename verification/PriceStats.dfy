/** Statistics over a list of prices, as the loops of the aggregator and the predictor take them. */
module PriceStats {
  import opened Arithmetic
  import opened Folds
  import opened Sqrt

  function Value(x: int): int {
    x
  }

  function SquareFrom(center: int): int -> int {
    x => (x - center) * (x - center)
  }

  function AboveBit(center: int): int -> int {
    x => if x > center then 1 else 0
  }

  function FloorMean(prices: seq<int>): int
    requires prices != []
  {
    Total(prices, Value) / |prices|
  }

  function DeviationAbout(prices: seq<int>, center: int): int
    requires prices != []
  {
    Isqrt(Total(prices, SquareFrom(center)) / |prices|)
  }

  /** The loop that adds the prices up. */
  method AddUp(prices: seq<int>) returns (total: int)
    ensures total == Total(prices, Value)
  {
    total := 0;
    for i := 0 to |prices|
      invariant total == Total(prices[..i], Value)
    {
      TotalAppend(prices[..i], prices[i], Value);
      assert prices[..i + 1] == prices[..i] + [prices[i]];
      total := total + prices[i];
    }
    assert prices[..|prices|] == prices;
  }

  /** The loop that adds the squared differences to a mean up. */
  method AddSquares(prices: seq<int>, mean: int) returns (sum: int)
    ensures sum == Total(prices, SquareFrom(mean))
  {
    sum := 0;
    for i := 0 to |prices|
      invariant sum == Total(prices[..i], SquareFrom(mean))
    {
      TotalAppend(prices[..i], prices[i], SquareFrom(mean));
      assert prices[..i + 1] == prices[..i] + [prices[i]];
      var diff := prices[i] - mean;
      sum := sum + diff * diff;
    }
    assert prices[..|prices|] == prices;
  }

  /** The loop that counts the prices above a mean. */
  method CountAbove(prices: seq<int>, mean: int) returns (above: int)
    ensures above == Total(prices, AboveBit(mean))
  {
    above := 0;
    for i := 0 to |prices|
      invariant above == Total(prices[..i], AboveBit(mean))
    {
      TotalAppend(prices[..i], prices[i], AboveBit(mean));
      assert prices[..i + 1] == prices[..i] + [prices[i]];
      if prices[i] > mean {
        above := above + 1;
      }
    }
    assert prices[..|prices|] == prices;
  }

  // ---- How good a centre the floor mean is

  lemma {:induction false} SquaresExpanded(s: seq<int>, c: int)
    ensures Total(s, SquareFrom(c)) == Total(s, SquareFrom(0)) - 2 * c * Total(s, Value) + |s| * (c * c)
  {
    if s != [] {
      SquaresExpanded(s[1..], c);
      Distribute(2 * c, s[0], Total(s[1..], Value));
      Distribute(c * c, |s[1..]|, 1);
      SquareExpanded(s[0], c);
    }
  }

  lemma SquareExpanded(x: int, c: int)
    ensures (x - c) * (x - c) == (x - 0) * (x - 0) - 2 * c * x + c * c
  {
  }

  /** 2rd - nd^2 over the integers d, for a remainder r below n, is at most n - 2. */
  lemma OffsetBound(n: int, r: int, d: int)
    requires n >= 2 && 0 <= r < n
    ensures 2 * r * d - n * d * d <= n - 2
  {
    var t := 2 * r - n * d;
    assert 2 * r * d - n * d * d == d * t;
    if d <= 0 {
      ProductSign(n, d);
      ProductSign(d, t);
    } else if d >= 2 {
      ProductMonotone(2, d, n);
      ProductSign(d, t);
    }
  }

  /**
   Squared deviations about the floor of the mean exceed those about any other integer by
   at most n - 2.
   */
  lemma FloorMeanNearlyBest(s: seq<int>, c: int)
    requires |s| >= 2
    ensures Total(s, SquareFrom(FloorMean(s))) <= Total(s, SquareFrom(c)) + |s| - 2
  {
    SquaresExpanded(s, FloorMean(s));
    SquaresExpanded(s, c);
    FloorMeanGap(|s|, Total(s, Value), FloorMean(s), c);
  }

  lemma FloorMeanGap(n: int, sum: int, m: int, c: int)
    requires n >= 2 && m == sum / n
    ensures n * (m * m) - 2 * m * sum <= n * (c * c) - 2 * c * sum + n - 2
  {
    RecentredSquares(n, sum, m, sum % n, c - m);
    OffsetBound(n, sum % n, c - m);
  }

  lemma RecentredSquares(n: int, sum: int, m: int, r: int, d: int)
    requires sum == n * m + r
    ensures (n * (m * m) - 2 * m * sum) - (n * ((m + d) * (m + d)) - 2 * (m + d) * sum) == 2 * r * d - n * d * d
  {
    assert (m + d) * (m + d) == m * m + 2 * (m * d) + d * d;
    Distribute(n, m * m + 2 * (m * d), d * d);
    Distribute(n, m * m, 2 * (m * d));
    assert 2 * d * sum == 2 * (n * (m * d)) + 2 * r * d;
  }

  /** A standard deviation about the floor mean exceeds one about any centre by at most 1. */
  lemma DeviationsAgreeUpToOne(s: seq<int>, c: int)
    requires |s| >= 2
    ensures DeviationAbout(s, FloorMean(s)) <= DeviationAbout(s, c) + 1
  {
    FloorMeanNearlyBest(s, c);
    var x, y := Total(s, SquareFrom(FloorMean(s))), Total(s, SquareFrom(c));
    QuotientNextStep(x, y, |s|);
    IsqrtNextStep(y / |s|, x / |s|);
  }

  /** The extra 1 is needed: four prices with floor mean 0, measured about 1. */
  lemma DeviationsMayDifferByOne()
    ensures FloorMean([0, 0, 1, 2]) == 0
    ensures DeviationAbout([0, 0, 1, 2], 0) == DeviationAbout([0, 0, 1, 2], 1) + 1
  {
    var s := [0, 0, 1, 2];
    assert s[1..] == [0, 1, 2] && s[1..][1..] == [1, 2] && s[1..][1..][1..] == [2];
    assert Total([2], Value) == 2 && Total([1, 2], Value) == 3 && Total([0, 1, 2], Value) == 3;
    assert Total([2], SquareFrom(0)) == 4 && Total([1, 2], SquareFrom(0)) == 5 && Total([0, 1, 2], SquareFrom(0)) == 5;
    assert Total([2], SquareFrom(1)) == 1 && Total([1, 2], SquareFrom(1)) == 1 && Total([0, 1, 2], SquareFrom(1)) == 2;
    assert Total(s, Value) == 3 && Total(s, SquareFrom(0)) == 5 && Total(s, SquareFrom(1)) == 3;
    IsqrtUnique(1, 1);
  }

  // ---- How many prices can lie above the floor mean

  lemma {:induction false} CountAboveBounds(s: seq<int>, c: int)
    ensures 0 <= Total(s, AboveBit(c)) <= |s|
    ensures Total(s, AboveBit(c)) == |s| ==> Total(s, Value) >= |s| * (c + 1)
  {
    if s != [] {
      CountAboveBounds(s[1..], c);
      assert |s| * (c + 1) == |s[1..]| * (c + 1) + (c + 1);
    }
  }

  /** At least one price is not above the floor mean. */
  lemma NotAllAboveMean(s: seq<int>)
    requires s != []
    ensures 0 <= Total(s, AboveBit(FloorMean(s))) <= |s| - 1
  {
    CountAboveBounds(s, FloorMean(s));
    assert Total(s, Value) < |s| * (FloorMean(s) + 1);
  }
}
