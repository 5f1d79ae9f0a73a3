/**
 The predictor: reading a trend out of the spread of the chain prices, extrapolating price
 and liquidity from it, and deciding on rebalancing. It stores nothing, so the pool is a value.
 */
module Predictor {
  import opened Basics
  import opened Folds
  import opened GlobalPools
  import opened Imbalance
  import opened Pools
  import opened PriceStats
  import opened Sqrt

  datatype Direction = Up | Down | Sideways

  datatype MarketTrend = MarketTrend(direction: Direction, strength: real, confidence: real, duration: uint64)

  datatype PredictionError = NoCurrentPrice | NoCurrentLiquidity

  datatype Prediction = Prediction(
    price: int, liquidity: int, confidence: real, timeHorizon: uint64, timestamp: uint64)

  // ---- Trend

  /** Prices clustered within 1% have no trend; otherwise the share above the mean decides. */
  function DirectionFrom(n: nat, mean: int, deviation: int, above: int): (Direction, real)
    requires n > 0
  {
    if deviation < mean / 100 then (Sideways, 0.0) else
      var strength := above as real / n as real;
      if strength > 0.6 then (Up, strength)
      else if strength < 0.4 then (Down, 1.0 - strength)
      else (Sideways, 0.0)
  }

  /** The coefficient of variation, in percent, before it is read as 64 bits. */
  function Variation(mean: int, deviation: int): int
    requires mean != 0
  {
    deviation * 100 / mean
  }

  function ConfidenceFrom(mean: int, deviation: int): real {
    if mean == 0 then 0.0 else
      var variation := Int64(Variation(mean, deviation)) as real;
      if variation > 10.0 then 0.0
      else if variation > 5.0 then 0.5
      else if variation > 2.0 then 0.8
      else 1.0
  }

  ghost function PlainMean(chains: Chains): int
    requires |chains| > 0
  {
    SumOver(chains, Price) / |chains|
  }

  ghost function PlainDeviation(chains: Chains): int
    requires |chains| > 0
  {
    Isqrt(SumOver(chains, SquaredDeviation(PlainMean(chains))) / |chains|)
  }

  ghost function ChainsAboveMean(chains: Chains): int
    requires |chains| > 0
  {
    SumOver(chains, PriceAbove(PlainMean(chains)))
  }

  /** The trend of a pool, in terms that no visiting order enters. */
  ghost function TrendOf(chains: Chains): MarketTrend {
    if |chains| < 2 then MarketTrend(Sideways, 0.0, 0.0, 0) else
      var mean, deviation := PlainMean(chains), PlainDeviation(chains);
      var (direction, strength) := DirectionFrom(|chains|, mean, deviation, ChainsAboveMean(chains));
      MarketTrend(direction, strength, ConfidenceFrom(mean, deviation), 300)
  }

  method CalculateTrendDirection(prices: seq<int>) returns (direction: Direction, strength: real)
    ensures |prices| < 2 ==> direction == Sideways && strength == 0.0
    ensures |prices| >= 2 ==>
              var mean := FloorMean(prices);
              (direction, strength) ==
              DirectionFrom(|prices|, mean, DeviationAbout(prices, mean), Total(prices, AboveBit(mean)))
  {
    if |prices| < 2 {
      return Sideways, 0.0;
    }
    var total := AddUp(prices);
    var avgPrice := total / |prices|;
    var variance := AddSquares(prices, avgPrice);
    variance := variance / |prices|;
    var stdDev; ghost var rounds;
    stdDev, rounds := FloorSqrt(variance);
    var threshold := avgPrice / 100;
    if stdDev < threshold {
      return Sideways, 0.0;
    }
    var aboveAvg := CountAbove(prices, avgPrice);
    strength := aboveAvg as real / |prices| as real;
    if strength > 0.6 {
      return Up, strength;
    } else if strength < 0.4 {
      return Down, 1.0 - strength;
    }
    return Sideways, 0.0;
  }

  method CalculateTrendConfidence(chains: Chains) returns (confidence: real)
    ensures confidence == if |chains| < 2 then 0.0 else ConfidenceFrom(PlainMean(chains), PlainDeviation(chains))
  {
    if |chains| < 2 {
      return 0.0;
    }
    var prices; ghost var order;
    prices, order := CollectPrices(chains);
    ListingTotals(prices, order, chains, PlainMean(chains));
    var total := AddUp(prices);
    var avg := total / |prices|;
    if avg == 0 {
      return 0.0;
    }
    var variance := AddSquares(prices, avg);
    variance := variance / |prices|;
    var stdDev; ghost var rounds;
    stdDev, rounds := FloorSqrt(variance);
    var cv := Int64(stdDev * 100 / avg) as real;
    if cv > 10.0 {
      return 0.0;
    }
    if cv > 5.0 {
      return 0.5;
    }
    if cv > 2.0 {
      return 0.8;
    }
    return 1.0;
  }

  /** The prices are collected twice, in orders that need not agree. */
  method AnalyzeTrend(chains: Chains) returns (trend: MarketTrend)
    ensures trend == TrendOf(chains)
  {
    if |chains| < 2 {
      return MarketTrend(Sideways, 0.0, 0.0, 0);
    }
    var prices; ghost var order;
    prices, order := CollectPrices(chains);
    ListingTotals(prices, order, chains, PlainMean(chains));
    var direction, strength := CalculateTrendDirection(prices);
    var confidence := CalculateTrendConfidence(chains);
    trend := MarketTrend(direction, strength, confidence, 300);
  }

  // ---- Extrapolation

  /** A change in percent, capped at ten either way and cut to a whole number. */
  function Capped(change: real): int {
    Truncate(if change > 10.0 then 10.0 else if change < -10.0 then -10.0 else change)
  }

  function Scaled(base: real, fiveMinutes: real, confidence: real): real {
    base * fiveMinutes * confidence
  }

  /** The change a trend projects: its strength in whole percent, scaled to five minutes and by confidence. */
  function ProjectedChange(trend: MarketTrend, timeHorizon: uint64): real {
    var baseChange := Truncate(trend.strength * 100.0);
    Scaled(baseChange as real, timeHorizon as real / 300.0, trend.confidence)
  }

  function PriceChangePercent(trend: MarketTrend, timeHorizon: uint64): int {
    Capped(ProjectedChange(trend, timeHorizon))
  }

  /** A price moved by a percentage in a direction; a negative result becomes 1. */
  function Moved(price: int, direction: Direction, percent: int): int {
    var change := price * percent / 100;
    var moved := match direction
      case Up => price + change
      case Down => price - change
      case Sideways => price;
    if moved < 0 then 1 else moved
  }

  function PredictPrice(price: Option<int>, trend: MarketTrend, timeHorizon: uint64): Outcome<int, PredictionError> {
    if price.None? then Panicked
    else if price.value == 0 then Failed(NoCurrentPrice)
    else Returned(Moved(price.value, trend.direction, PriceChangePercent(trend, timeHorizon)))
  }

  /** The percentage by which a predicted price differs from the current one, rounded down. */
  function RecoveredPercent(price: int, predicted: int): int
    requires price != 0
  {
    (predicted - price) * 100 / price
  }

  /** Liquidity follows half of a price change; a negative result becomes 1. */
  function Followed(liquidity: int, percent: int): int {
    var predicted := liquidity + liquidity * percent / 200;
    if predicted < 0 then 1 else predicted
  }

  function PredictLiquidity(metrics: Metrics, predicted: int): Outcome<int, PredictionError> {
    if metrics.totalLiquidity.None? then Panicked
    else if metrics.totalLiquidity.value == 0 then Failed(NoCurrentLiquidity)
    else if metrics.averagePrice.None? then Panicked
    else if metrics.averagePrice.value == 0 then Returned(metrics.totalLiquidity.value)
    else Returned(Followed(metrics.totalLiquidity.value, RecoveredPercent(metrics.averagePrice.value, predicted)))
  }

  /** Fewer chains lower the confidence. */
  function ChainFactor(chainCount: nat): real {
    if chainCount >= 3 then 1.0 else if chainCount == 2 then 0.8 else 0.5
  }

  /** So does age, which is the clock in seconds minus a block number, and wraps. */
  function FreshnessFactor(lastUpdateBlock: uint64, now: uint64): real {
    var age := Sub64(now, lastUpdateBlock);
    if age < 60 then 1.0 else if age < 300 then 0.9 else if age < 600 then 0.8 else 0.6
  }

  function OverallConfidence(trend: MarketTrend, chainCount: nat, lastUpdateBlock: uint64, now: uint64): real {
    trend.confidence * ChainFactor(chainCount) * FreshnessFactor(lastUpdateBlock, now)
  }

  method CalculateConfidence(pool: Pool, trend: MarketTrend, now: uint64) returns (confidence: real)
    ensures confidence == OverallConfidence(trend, |pool.chains|, pool.metrics.lastUpdateBlock, now)
  {
    confidence := trend.confidence;
    var chainCount := |pool.chains|;
    if chainCount >= 3 {
      confidence := confidence * 1.0;
    } else if chainCount == 2 {
      confidence := confidence * 0.8;
    } else {
      confidence := confidence * 0.5;
    }
    var age := Sub64(now, pool.metrics.lastUpdateBlock);
    if age < 60 {
      confidence := confidence * 1.0;
    } else if age < 300 {
      confidence := confidence * 0.9;
    } else if age < 600 {
      confidence := confidence * 0.8;
    } else {
      confidence := confidence * 0.6;
    }
  }

  /** The clock is read once for the confidence and once for the time stamp. */
  ghost function PredictionFor(pool: Pool, timeHorizon: uint64, scoredAt: uint64, stampedAt: uint64)
    : Outcome<Prediction, PredictionError>
  {
    var trend := TrendOf(pool.chains);
    match PredictPrice(pool.metrics.averagePrice, trend, timeHorizon)
    case Panicked => Panicked
    case Failed(e) => Failed(e)
    case Returned(price) =>
      match PredictLiquidity(pool.metrics, price)
      case Panicked => Panicked
      case Failed(e) => Failed(e)
      case Returned(liquidity) =>
        var confidence := OverallConfidence(trend, |pool.chains|, pool.metrics.lastUpdateBlock, scoredAt);
        Returned(Prediction(price, liquidity, confidence, timeHorizon, stampedAt))
  }

  method PredictPoolState(pool: Pool, timeHorizon: uint64, scoredAt: uint64, stampedAt: uint64)
    returns (result: Outcome<Prediction, PredictionError>)
    ensures result == PredictionFor(pool, timeHorizon, scoredAt, stampedAt)
  {
    var trend := AnalyzeTrend(pool.chains);
    var price := PredictPrice(pool.metrics.averagePrice, trend, timeHorizon);
    if price.Panicked? {
      return Panicked;
    }
    if price.Failed? {
      return Failed(price.error);
    }
    var liquidity := PredictLiquidity(pool.metrics, price.value);
    if liquidity.Panicked? {
      return Panicked;
    }
    if liquidity.Failed? {
      return Failed(liquidity.error);
    }
    var confidence := CalculateConfidence(pool, trend, scoredAt);
    result := Returned(Prediction(price.value, liquidity.value, confidence, timeHorizon, stampedAt));
  }

  // ---- Rebalancing

  const ONE_TOKEN: int := 1_000_000_000_000_000_000

  /** Half of the imbalance, raised to one token and then cut to a tenth of the total. */
  function RebalancingAmount(total: int, imbalance: int): int {
    var half := imbalance / 2;
    var raised := if half < ONE_TOKEN then ONE_TOKEN else half;
    if raised > total / 10 then total / 10 else raised
  }

  datatype RebalancingNeed = RebalancingNeed(needed: bool, amount: Option<int>)

  ghost function NeedFor(pool: Pool, threshold: real): Outcome<RebalancingNeed, ()> {
    if pool.metrics.totalLiquidity.None? then Panicked else
      var total := pool.metrics.totalLiquidity.value;
      var imbalance := DeviationFrom(pool.chains, total);
      if ImbalancePercent(imbalance, total) > threshold
      then Returned(RebalancingNeed(true, Some(RebalancingAmount(total, imbalance))))
      else Returned(RebalancingNeed(false, None))
  }

  method PredictRebalancingNeed(pool: Pool, threshold: real) returns (result: Outcome<RebalancingNeed, ()>)
    ensures result == NeedFor(pool, threshold)
  {
    if pool.metrics.totalLiquidity.None? {
      return Panicked;
    }
    var total, imbalance := pool.metrics.totalLiquidity.value, 0;
    if |pool.chains| >= 2 {
      imbalance := AddDeviations(pool.chains, total / |pool.chains|);
    }
    if ImbalancePercent(imbalance, total) > threshold {
      result := Returned(RebalancingNeed(true, Some(RebalancingAmount(total, imbalance))));
    } else {
      result := Returned(RebalancingNeed(false, None));
    }
  }
}
