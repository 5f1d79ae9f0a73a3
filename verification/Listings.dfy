/**
 A second description of the statistics of a pool, independent of the sums over maps: the
 reports are written out in a list, in any order, and the sums recur along it over the
 fields themselves.
 */
module Listings {
  import opened Basics
  import opened Folds
  import opened Imbalance
  import opened Pools

  ghost predicate InOrder(reports: seq<PoolState>, order: seq<uint32>, chains: Chains) {
    && Visits(order, chains)
    && |reports| == |order|
    && forall i :: 0 <= i < |order| ==> reports[i] == chains[order[i]]
  }

  /** `reports` lists the report of every chain once. */
  ghost predicate IsListing(reports: seq<PoolState>, chains: Chains) {
    exists order :: InOrder(reports, order, chains)
  }

  lemma EveryPoolHasAListing(chains: Chains) returns (reports: seq<PoolState>)
    ensures IsListing(reports, chains)
  {
    var order := SomeOrder(chains);
    assert forall i :: 0 <= i < |order| ==> order[i] in order;
    reports := seq(|order|, i requires 0 <= i < |order| => chains[order[i]]);
    assert InOrder(reports, order, chains);
  }

  // ---- Sums along a listing

  function LiquidityIn(reports: seq<PoolState>): int {
    if reports == [] then 0 else reports[0].totalLiquidity + LiquidityIn(reports[1..])
  }

  function PriceTimesLiquidityIn(reports: seq<PoolState>): int {
    if reports == [] then 0 else reports[0].price * reports[0].totalLiquidity + PriceTimesLiquidityIn(reports[1..])
  }

  function PricesIn(reports: seq<PoolState>): int {
    if reports == [] then 0 else reports[0].price + PricesIn(reports[1..])
  }

  function VolumeIn(reports: seq<PoolState>): int {
    if reports == [] then 0 else reports[0].volume24h + VolumeIn(reports[1..])
  }

  function FeesIn(reports: seq<PoolState>): int {
    if reports == [] then 0 else reports[0].fees24h + FeesIn(reports[1..])
  }

  /** Squared distances of the prices from a centre. */
  function SquaresFrom(reports: seq<PoolState>, center: int): int {
    if reports == [] then 0 else
      (reports[0].price - center) * (reports[0].price - center) + SquaresFrom(reports[1..], center)
  }

  /** How many prices lie above a centre. */
  function HowManyAbove(reports: seq<PoolState>, center: int): int {
    if reports == [] then 0 else (if reports[0].price > center then 1 else 0) + HowManyAbove(reports[1..], center)
  }

  /** Distances of the liquidities from a share. */
  function DistancesFrom(reports: seq<PoolState>, share: int): int {
    if reports == [] then 0 else
      (if reports[0].totalLiquidity < share then share - reports[0].totalLiquidity
       else reports[0].totalLiquidity - share) + DistancesFrom(reports[1..], share)
  }

  lemma {:induction false} PlainTotals(reports: seq<PoolState>)
    ensures LiquidityIn(reports) == Total(reports, Liquidity)
    ensures PriceTimesLiquidityIn(reports) == Total(reports, WeightedPrice)
    ensures PricesIn(reports) == Total(reports, Price)
    ensures VolumeIn(reports) == Total(reports, Volume)
    ensures FeesIn(reports) == Total(reports, Fees)
  {
    if reports != [] {
      PlainTotals(reports[1..]);
    }
  }

  lemma {:induction false} PlainDistances(reports: seq<PoolState>, center: int)
    ensures SquaresFrom(reports, center) == Total(reports, SquaredDeviation(center))
    ensures HowManyAbove(reports, center) == Total(reports, PriceAbove(center))
    ensures DistancesFrom(reports, center) == Total(reports, LiquidityDeviation(center))
  {
    if reports != [] {
      PlainDistances(reports[1..], center);
    }
  }

  /** The sums over the map are those along any listing of it. */
  lemma SumsOfListing(reports: seq<PoolState>, chains: Chains)
    requires IsListing(reports, chains)
    ensures |reports| == |chains|
    ensures SumOver(chains, Liquidity) == LiquidityIn(reports)
    ensures SumOver(chains, WeightedPrice) == PriceTimesLiquidityIn(reports)
    ensures SumOver(chains, Price) == PricesIn(reports)
    ensures SumOver(chains, Volume) == VolumeIn(reports)
    ensures SumOver(chains, Fees) == FeesIn(reports)
  {
    var order :| InOrder(reports, order, chains);
    PlainTotals(reports);
    SumAlong(order, chains, reports, Liquidity, Liquidity);
    SumAlong(order, chains, reports, WeightedPrice, WeightedPrice);
    SumAlong(order, chains, reports, Price, Price);
    SumAlong(order, chains, reports, Volume, Volume);
    SumAlong(order, chains, reports, Fees, Fees);
  }

  lemma DistancesOfListing(reports: seq<PoolState>, chains: Chains, center: int)
    requires IsListing(reports, chains)
    ensures SumOver(chains, SquaredDeviation(center)) == SquaresFrom(reports, center)
    ensures SumOver(chains, PriceAbove(center)) == HowManyAbove(reports, center)
    ensures SumOver(chains, LiquidityDeviation(center)) == DistancesFrom(reports, center)
  {
    var order :| InOrder(reports, order, chains);
    PlainDistances(reports, center);
    SumAlong(order, chains, reports, SquaredDeviation(center), SquaredDeviation(center));
    SumAlong(order, chains, reports, PriceAbove(center), PriceAbove(center));
    SumAlong(order, chains, reports, LiquidityDeviation(center), LiquidityDeviation(center));
  }

  // ---- The metrics of a pool, read off a listing

  /** `root` is the floor of the square root of a number that is not negative. */
  predicate IsFloorRoot(root: int, n: int) {
    root >= 0 && root * root <= n < (root + 1) * (root + 1)
  }

  /** A block number is the largest in a listing, 0 for an empty one. */
  ghost predicate IsLargestBlock(block: uint64, reports: seq<PoolState>) {
    && (forall i :: 0 <= i < |reports| ==> reports[i].blockNumber <= block)
    && (block == 0 || exists i :: 0 <= i < |reports| && reports[i].blockNumber == block)
  }

  lemma LatestBlockOfListing(reports: seq<PoolState>, order: seq<uint32>, chains: Chains, block: uint64)
    requires InOrder(reports, order, chains) && IsLatestBlock(chains, block)
    ensures IsLargestBlock(block, reports)
  {
    assert forall i :: 0 <= i < |order| ==> order[i] in order;
    if block != 0 {
      var c :| c in chains && chains[c].blockNumber == block;
      assert c in order;
      var i :| 0 <= i < |order| && order[i] == c;
      assert reports[i].blockNumber == block;
    }
  }

  /** The root of a mean of squares. */
  lemma ScoreOfListing(reports: seq<PoolState>, chains: Chains, mean: int)
    requires IsListing(reports, chains)
    ensures |reports| == 1 ==> Score(chains, mean) == 0
    ensures |reports| >= 2 ==> IsFloorRoot(Score(chains, mean), SquaresFrom(reports, mean) / |reports|)
  {
    SumsOfListing(reports, chains);
    DistancesOfListing(reports, chains, mean);
    VarianceNonNegative(chains, mean);
  }

  /**
   The total, the floored mean of the prices weighted by liquidity, the floor root of the
   mean squared distance from it (0 for a single chain), and the largest block number.
   */
  ghost predicate AreMetricsOf(metrics: Metrics, reports: seq<PoolState>)
    requires LiquidityIn(reports) != 0
  {
    var mean := PriceTimesLiquidityIn(reports) / LiquidityIn(reports);
    && metrics.totalLiquidity == Some(LiquidityIn(reports))
    && metrics.averagePrice == Some(mean)
    && metrics.imbalanceScore.Some?
    && (|reports| == 1 ==> metrics.imbalanceScore.value == 0)
    && (|reports| >= 2 ==> IsFloorRoot(metrics.imbalanceScore.value, SquaresFrom(reports, mean) / |reports|))
    && IsLargestBlock(metrics.lastUpdateBlock, reports)
  }

  /** Whatever order a recalculation visits the chains in, what it stores are these metrics. */
  lemma MetricsOfListing(reports: seq<PoolState>, chains: Chains)
    requires IsListing(reports, chains) && LiquidityIn(reports) != 0
    ensures CanRecalculate(chains) && AreMetricsOf(FromScratch(chains), reports)
  {
    var order :| InOrder(reports, order, chains);
    SumsOfListing(reports, chains);
    ScoreOfListing(reports, chains, WeightedMean(chains));
    LatestBlockOfListing(reports, order, chains, LatestBlock(chains));
  }

  /** The deviation from a total: nothing below two chains, else the distances from an equal share of it. */
  function DeviationIn(reports: seq<PoolState>, total: int): int {
    if |reports| < 2 then 0 else DistancesFrom(reports, total / |reports|)
  }

  lemma DeviationOfListing(reports: seq<PoolState>, chains: Chains, total: int)
    requires IsListing(reports, chains)
    ensures DeviationFrom(chains, total) == DeviationIn(reports, total)
  {
    SumsOfListing(reports, chains);
    if |reports| >= 2 {
      DistancesOfListing(reports, chains, total / |reports|);
    }
  }
}
