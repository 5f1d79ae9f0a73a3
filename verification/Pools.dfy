/**
 The entities of the cross-chain state as values, and what their cached metrics ought to
 be: the from-scratch recomputation that the in-place updates are proved against.
 */
module Pools {
  import opened Arithmetic
  import opened Basics
  import opened Folds
  import opened PriceStats
  import opened Sqrt

  /** One chain's report about a pool. Clock readings are whole nanoseconds. */
  datatype PoolState = PoolState(
    chainID: uint32, totalLiquidity: int, price: int, volume24h: int, fees24h: int,
    timestamp: uint64, blockNumber: uint64, lastUpdated: int)

  type Chains = map<uint32, PoolState>

  /** The derived fields; the three big integers are nil until first computed. */
  datatype Metrics = Metrics(
    totalLiquidity: Option<int>, averagePrice: Option<int>, imbalanceScore: Option<int>,
    lastUpdateBlock: uint64)

  const NO_METRICS := Metrics(None, None, None, 0)

  /** The value a global pool object holds at one moment. */
  datatype Pool = Pool(chains: Chains, metrics: Metrics, lastUpdated: int)

  // ---- What is summed over the chains

  function Liquidity(s: PoolState): int {
    s.totalLiquidity
  }

  function Price(s: PoolState): int {
    s.price
  }

  function WeightedPrice(s: PoolState): int {
    s.price * s.totalLiquidity
  }

  function Volume(s: PoolState): int {
    s.volume24h
  }

  function Fees(s: PoolState): int {
    s.fees24h
  }

  function SquaredDeviation(mean: int): PoolState -> int {
    (s: PoolState) => (s.price - mean) * (s.price - mean)
  }

  function PriceAbove(mean: int): PoolState -> int {
    (s: PoolState) => if s.price > mean then 1 else 0
  }

  function LiquidityDeviation(expected: int): PoolState -> int {
    (s: PoolState) => Abs(s.totalLiquidity - expected)
  }

  // ---- From-scratch recomputation

  ghost function SumOfLiquidity(chains: Chains): int {
    SumOver(chains, Liquidity)
  }

  ghost function WeightedMean(chains: Chains): int
    requires SumOfLiquidity(chains) != 0
  {
    SumOver(chains, WeightedPrice) / SumOfLiquidity(chains)
  }

  ghost function Variance(chains: Chains, mean: int): int {
    if |chains| < 2 then 0 else SumOver(chains, SquaredDeviation(mean)) / |chains|
  }

  ghost function Score(chains: Chains, mean: int): int {
    Isqrt(Variance(chains, mean))
  }

  /** The largest block number reported, 0 if there is none. */
  ghost predicate IsLatestBlock(chains: Chains, block: uint64) {
    && (forall c :: c in chains ==> chains[c].blockNumber <= block)
    && (block == 0 || exists c :: c in chains && chains[c].blockNumber == block)
  }

  ghost function LatestBlock(chains: Chains): (block: uint64)
    ensures IsLatestBlock(chains, block)
    decreases chains.Keys
  {
    if chains.Keys == {} then 0 else
      var c :| c in chains;
      var rest := LatestBlock(chains - {c});
      assert forall d :: d in chains && d != c ==> d in chains - {c};
      assert rest != 0 ==> exists d :: d in chains - {c} && chains[d].blockNumber == rest;
      if rest < chains[c].blockNumber then chains[c].blockNumber else rest
  }

  ghost function FromScratch(chains: Chains): Metrics
    requires SumOfLiquidity(chains) != 0
  {
    var mean := WeightedMean(chains);
    Metrics(Some(SumOfLiquidity(chains)), Some(mean), Some(Score(chains, mean)), LatestBlock(chains))
  }

  /** What one recalculation leaves behind: with a zero total only the total is refreshed. */
  ghost function Recalculated(chains: Chains, before: Metrics): Metrics {
    if |chains| == 0 then before
    else if SumOfLiquidity(chains) == 0 then before.(totalLiquidity := Some(0))
    else FromScratch(chains)
  }

  ghost predicate CanRecalculate(chains: Chains) {
    |chains| > 0 && SumOfLiquidity(chains) != 0
  }

  /** The cache agrees with the reports; only a zero total lets the other fields be stale. */
  ghost predicate Coherent(pool: Pool) {
    && |pool.chains| > 0
    && pool.metrics.totalLiquidity == Some(SumOfLiquidity(pool.chains))
    && (SumOfLiquidity(pool.chains) != 0 ==> pool.metrics == FromScratch(pool.chains))
  }

  ghost predicate NonNegative(chains: Chains) {
    forall c :: c in chains ==> chains[c].totalLiquidity >= 0
  }

  // ---- Order of visiting

  /** `prices` lists the chain prices in the order `order`. */
  ghost predicate Lists(prices: seq<int>, order: seq<uint32>, chains: Chains) {
    && Visits(order, chains)
    && |prices| == |order|
    && forall i :: 0 <= i < |order| ==> prices[i] == chains[order[i]].price
  }

  /** A listing has the same count, sum, spread and number above a mean in every order. */
  lemma ListingTotals(prices: seq<int>, order: seq<uint32>, chains: Chains, mean: int)
    requires Lists(prices, order, chains)
    ensures |prices| == |chains|
    ensures Total(prices, Value) == SumOver(chains, Price)
    ensures Total(prices, SquareFrom(mean)) == SumOver(chains, SquaredDeviation(mean))
    ensures Total(prices, AboveBit(mean)) == SumOver(chains, PriceAbove(mean))
  {
    SumAlong(order, chains, prices, Value, Price);
    SumAlong(order, chains, prices, SquareFrom(mean), SquaredDeviation(mean));
    SumAlong(order, chains, prices, AboveBit(mean), PriceAbove(mean));
  }

  // ---- The statistics stay inside the data

  ghost predicate PricesWithin(chains: Chains, lo: int, hi: int) {
    forall c :: c in chains ==> lo <= chains[c].price <= hi
  }

  lemma WeightedSumWithin(chains: Chains, lo: int, hi: int)
    requires NonNegative(chains) && PricesWithin(chains, lo, hi)
    ensures lo * SumOfLiquidity(chains) <= SumOver(chains, WeightedPrice) <= hi * SumOfLiquidity(chains)
  {
    var low := (s: PoolState) => lo * s.totalLiquidity;
    var high := (s: PoolState) => hi * s.totalLiquidity;
    forall c | c in chains ensures low(chains[c]) <= WeightedPrice(chains[c]) <= high(chains[c]) {
      ProductMonotone(lo, chains[c].price, chains[c].totalLiquidity);
      ProductMonotone(chains[c].price, hi, chains[c].totalLiquidity);
    }
    SumOverMonotone(chains, low, WeightedPrice);
    SumOverMonotone(chains, WeightedPrice, high);
    SumOverScale(chains, low, lo, Liquidity);
    SumOverScale(chains, high, hi, Liquidity);
  }

  lemma LiquidityNonNegative(chains: Chains)
    requires NonNegative(chains)
    ensures SumOfLiquidity(chains) >= 0
  {
    var zero := (s: PoolState) => 0;
    SumOverConstant(chains, zero, 0);
    SumOverMonotone(chains, zero, Liquidity);
  }

  /** With non-negative weights the average lies between the extreme prices. */
  lemma MeanWithin(chains: Chains, lo: int, hi: int)
    requires NonNegative(chains) && SumOfLiquidity(chains) != 0 && PricesWithin(chains, lo, hi)
    ensures lo <= WeightedMean(chains) <= hi
  {
    LiquidityNonNegative(chains);
    WeightedSumWithin(chains, lo, hi);
    var w, t := SumOver(chains, WeightedPrice), SumOfLiquidity(chains);
    QuotientAtLeast(w, t, lo);
    QuotientAtLeast(w, t, hi + 1);
    assert (hi + 1) * t == hi * t + t;
  }

  lemma SquareWithin(x: int, center: int, d: nat)
    requires center - d <= x <= center + d
    ensures 0 <= (x - center) * (x - center) <= d * d
  {
    var gap := Abs(x - center);
    SquareMonotone(gap, d);
    assert gap * gap == (x - center) * (x - center);
  }

  lemma SquaresWithin(chains: Chains, center: int, d: nat)
    requires PricesWithin(chains, center - d, center + d)
    ensures 0 <= SumOver(chains, SquaredDeviation(center)) <= d * d * |chains|
  {
    var zero := (s: PoolState) => 0;
    var square := (s: PoolState) => d * d;
    forall c | c in chains ensures 0 <= SquaredDeviation(center)(chains[c]) <= d * d {
      SquareWithin(chains[c].price, center, d);
    }
    SumOverConstant(chains, zero, 0);
    SumOverConstant(chains, square, d * d);
    SumOverMonotone(chains, zero, SquaredDeviation(center));
    SumOverMonotone(chains, SquaredDeviation(center), square);
  }

  /** A mean of squares that are each at most `bound` is at most `bound`. */
  lemma QuotientWithin(sum: int, n: nat, bound: nat)
    requires n > 0 && 0 <= sum <= bound * n
    ensures 0 <= sum / n <= bound
  {
    QuotientAtLeast(sum, n, 0);
    QuotientAtLeast(sum, n, bound + 1);
    assert (bound + 1) * n == bound * n + n;
  }

  lemma VarianceNonNegative(chains: Chains, center: int)
    ensures Variance(chains, center) >= 0
  {
    var zero := (s: PoolState) => 0;
    forall c | c in chains ensures 0 <= SquaredDeviation(center)(chains[c]) {
      ProductSign(chains[c].price - center, chains[c].price - center);
    }
    SumOverConstant(chains, zero, 0);
    SumOverMonotone(chains, zero, SquaredDeviation(center));
  }

  /** Prices within `d` of a centre have a variance about it of at most d squared. */
  lemma VarianceWithin(chains: Chains, center: int, d: nat)
    requires PricesWithin(chains, center - d, center + d)
    ensures 0 <= Variance(chains, center) <= d * d
    ensures Score(chains, center) <= d
  {
    ProductSign(d, d);
    SquaresWithin(chains, center, d);
    if |chains| >= 2 {
      QuotientWithin(SumOver(chains, SquaredDeviation(center)), |chains|, d * d);
    }
    IsqrtAtMost(Variance(chains, center), d);
  }

  /** Average and score stay inside the range of the prices. */
  lemma StatisticsInsideTheData(chains: Chains, lo: int, hi: int)
    requires NonNegative(chains) && SumOfLiquidity(chains) != 0 && PricesWithin(chains, lo, hi)
    ensures lo <= FromScratch(chains).averagePrice.value <= hi
    ensures 0 <= FromScratch(chains).imbalanceScore.value <= hi - lo
  {
    MeanWithin(chains, lo, hi);
    VarianceWithin(chains, WeightedMean(chains), hi - lo);
  }

  /**
   The score is measured about the weighted mean, the predictor's standard deviation about
   the floor of the plain one; in any listing of two or more chains the latter is larger by
   at most 1.
   */
  lemma DispersionMeasuresAgree(chains: Chains, prices: seq<int>, order: seq<uint32>)
    requires |chains| >= 2 && SumOfLiquidity(chains) != 0 && Lists(prices, order, chains)
    ensures |prices| >= 2
    ensures DeviationAbout(prices, FloorMean(prices)) <= FromScratch(chains).imbalanceScore.value + 1
  {
    var mean := WeightedMean(chains);
    ListingTotals(prices, order, chains, mean);
    DeviationsAgreeUpToOne(prices, mean);
  }
}
