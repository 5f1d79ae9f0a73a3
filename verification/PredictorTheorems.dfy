/** What the predictor guarantees for every pool, price, liquidity and horizon. */
module PredictorTheorems {
  import opened Arithmetic
  import opened Basics
  import opened Folds
  import opened Imbalance
  import opened Listings
  import opened Pools
  import opened Predictor
  import opened PriceStats
  import opened RealArithmetic
  import opened Sqrt

  // ---- Ranges of the trend

  lemma ChainsAboveMeanBounds(chains: Chains)
    requires |chains| > 0
    ensures 0 <= ChainsAboveMean(chains) <= |chains|
  {
    var f := PriceAbove(PlainMean(chains));
    var zero := (s: PoolState) => 0;
    var one := (s: PoolState) => 1;
    SumOverConstant(chains, zero, 0);
    SumOverConstant(chains, one, 1);
    SumOverMonotone(chains, zero, f);
    SumOverMonotone(chains, f, one);
  }

  lemma TrendRanges(chains: Chains)
    ensures 0.0 <= TrendOf(chains).strength <= 1.0
    ensures 0.0 <= TrendOf(chains).confidence <= 1.0
  {
    if |chains| >= 2 {
      ChainsAboveMeanBounds(chains);
      FractionInUnitInterval(ChainsAboveMean(chains), |chains|);
    }
  }

  /** Reading the prices in another order gives the same trend and the same confidence. */
  lemma TrendIgnoresOrder(chains: Chains, prices: seq<int>, order: seq<uint32>)
    requires Lists(prices, order, chains) && |chains| >= 2
    ensures |prices| >= 2
    ensures var mean := FloorMean(prices);
            var deviation := DeviationAbout(prices, mean);
            && (TrendOf(chains).direction, TrendOf(chains).strength) ==
               DirectionFrom(|prices|, mean, deviation, Total(prices, AboveBit(mean)))
            && TrendOf(chains).confidence == ConfidenceFrom(mean, deviation)
  {
    ListingTotals(prices, order, chains, PlainMean(chains));
  }

  // ---- The trend in whole numbers

  /** `m` is the floor of the mean price and `s` of the standard deviation about it. */
  ghost predicate AreStatistics(m: int, s: int, reports: seq<PoolState>)
    requires |reports| > 0
  {
    m == PricesIn(reports) / |reports| && IsFloorRoot(s, SquaresFrom(reports, m) / |reports|)
  }

  lemma StatisticsOfListing(chains: Chains, reports: seq<PoolState>, m: int, s: int)
    requires IsListing(reports, chains) && |reports| > 0 && AreStatistics(m, s, reports)
    ensures |chains| == |reports| && PlainMean(chains) == m && PlainDeviation(chains) == s
    ensures ChainsAboveMean(chains) == HowManyAbove(reports, m)
  {
    SumsOfListing(reports, chains);
    DistancesOfListing(reports, chains, m);
    IsqrtUnique(SquaresFrom(reports, m) / |reports|, s);
  }

  /** A share of the chains compares with three and with two fifths as these products do. */
  lemma ShareInFifths(k: int, n: int)
    requires n > 0
    ensures k as real / n as real > 0.6 <==> 5 * k > 3 * n
    ensures k as real / n as real < 0.4 <==> 5 * k < 2 * n
  {
    QuotientCompares(k as real, n as real, 0.6);
    QuotientCompares(k as real, n as real, 0.4);
    assert (5 * k) as real == 5.0 * k as real;
    assert (3 * n) as real == 3.0 * n as real && (2 * n) as real == 2.0 * n as real;
  }

  /**
   The trend of any pool, decided in whole numbers: with a floor mean m, a deviation s about
   it and k of the n prices above it, up when s is at least m/100 and k exceeds three fifths
   of n, down when s is at least m/100 and k stays below two fifths, sideways otherwise.
   */
  lemma TrendDecided(chains: Chains, reports: seq<PoolState>, m: int, s: int)
    requires IsListing(reports, chains) && |reports| >= 2 && AreStatistics(m, s, reports)
    ensures var n, k := |reports|, HowManyAbove(reports, m);
            var trend := TrendOf(chains);
            && (trend.direction == Up <==> s >= m / 100 && 5 * k > 3 * n)
            && (trend.direction == Down <==> s >= m / 100 && 5 * k < 2 * n)
            && trend.strength == (match trend.direction
                 case Up => k as real / n as real
                 case Down => (n - k) as real / n as real
                 case Sideways => 0.0)
            && trend.duration == 300
  {
    StatisticsOfListing(chains, reports, m, s);
    ShareInFifths(HowManyAbove(reports, m), |reports|);
    OtherShare(HowManyAbove(reports, m), |reports|);
  }

  /** Below two chains there is neither a trend nor any confidence. */
  lemma NoTrendBelowTwoChains(chains: Chains)
    requires |chains| < 2
    ensures TrendOf(chains) == MarketTrend(Sideways, 0.0, 0.0, 0)
  {
  }

  /**
   The confidence in a trend, in whole numbers: it falls where the deviation reaches 3, 6
   and 11 percent of a positive mean, is none for a mean of 0 and full for a negative one.
   Below 2^63 percent the 64-bit reading of the variation does not enter.
   */
  lemma TrendConfidenceDecided(chains: Chains, reports: seq<PoolState>, m: int, s: int)
    requires IsListing(reports, chains) && |reports| >= 2 && AreStatistics(m, s, reports)
    requires 100 * s < 0x8000_0000_0000_0000 * Abs(m) || m == 0
    ensures TrendOf(chains).confidence ==
            if m == 0 then 0.0
            else if m < 0 || 100 * s < 3 * m then 1.0
            else if 100 * s < 6 * m then 0.8
            else if 100 * s < 11 * m then 0.5
            else 0.0
  {
    StatisticsOfListing(chains, reports, m, s);
    if m > 0 {
      VariationSteps(m, s);
    } else if m < 0 {
      NegativeVariation(m, s);
    }
  }

  lemma VariationSteps(m: int, s: int)
    requires m > 0 && s >= 0 && 100 * s < TWO_TO_THE_63 * m
    ensures Int64(Variation(m, s)) == Variation(m, s)
    ensures Variation(m, s) > 2 <==> 100 * s >= 3 * m
    ensures Variation(m, s) > 5 <==> 100 * s >= 6 * m
    ensures Variation(m, s) > 10 <==> 100 * s >= 11 * m
  {
    QuotientAtLeast(s * 100, m, 0);
    QuotientAtLeast(s * 100, m, 3);
    QuotientAtLeast(s * 100, m, 6);
    QuotientAtLeast(s * 100, m, 11);
    QuotientAtLeast(s * 100, m, TWO_TO_THE_63);
    Int64Exact(Variation(m, s));
  }

  lemma NegativeVariation(m: int, s: int)
    requires m < 0 && s >= 0 && 100 * s < TWO_TO_THE_63 * -m
    ensures -TWO_TO_THE_63 < Variation(m, s) <= 0
    ensures Int64(Variation(m, s)) == Variation(m, s)
  {
    assert s * 100 / m == -(s * 100 / -m);
    QuotientAtLeast(s * 100, -m, 0);
    QuotientAtLeast(s * 100, -m, TWO_TO_THE_63);
    Int64Exact(Variation(m, s));
  }

  // ---- Two chains never trend

  /** Of two prices that differ exactly one lies above the floor of their mean. */
  lemma TwoChainsStatistics(chains: Chains, c: uint32, d: uint32)
    requires c != d && chains.Keys == {c, d}
    ensures var a, b := chains[c].price, chains[d].price;
            && |chains| == 2 && PlainMean(chains) == (a + b) / 2
            && ChainsAboveMean(chains) == (if a == b then 0 else 1)
            && (a == b ==> PlainDeviation(chains) == 0)
  {
    SumOfTwo(chains, Price, c, d);
    var mean := PlainMean(chains);
    SumOfTwo(chains, PriceAbove(mean), c, d);
    if chains[c].price == chains[d].price {
      SumOverConstant(chains, SquaredDeviation(mean), 0);
    }
  }

  /**
   With two chains there is a trend in one case only: equal prices below 100, which read
   as falling with full strength.
   */
  lemma TwoChainsTrend(chains: Chains, c: uint32, d: uint32)
    requires c != d && chains.Keys == {c, d}
    ensures var a, b := chains[c].price, chains[d].price;
            (TrendOf(chains).direction, TrendOf(chains).strength) ==
            if a == b && a < 100 then (Down, 1.0) else (Sideways, 0.0)
  {
    TwoChainsStatistics(chains, c, d);
    assert 1 as real / 2 as real == 0.5 && 0 as real / 2 as real == 0.0;
  }

  /** So two chains with different prices, or with prices from 100 up, predict no change. */
  lemma TwoChainsPredictNoChange(pool: Pool, c: uint32, d: uint32, timeHorizon: uint64, scoredAt: uint64, stampedAt: uint64)
    requires c != d && pool.chains.Keys == {c, d}
    requires pool.chains[c].price != pool.chains[d].price || pool.chains[c].price >= 100
    requires pool.metrics.averagePrice.Some? && pool.metrics.averagePrice.value > 0
    requires pool.metrics.totalLiquidity.Some? && pool.metrics.totalLiquidity.value > 0
    ensures var result := PredictionFor(pool, timeHorizon, scoredAt, stampedAt);
            && result.Returned?
            && result.value.price == pool.metrics.averagePrice.value
            && result.value.liquidity == pool.metrics.totalLiquidity.value
  {
    TwoChainsTrend(pool.chains, c, d);
    var price, liquidity := pool.metrics.averagePrice.value, pool.metrics.totalLiquidity.value;
    assert RecoveredPercent(price, price) == 0 by { assert (price - price) * 100 == 0; }
    assert Followed(liquidity, 0) == liquidity;
  }

  /** Any number of chains that agree on a price trend sideways exactly from 100 up. */
  lemma EqualPricesTrend(chains: Chains, a: int)
    requires |chains| >= 2 && forall c :: c in chains ==> chains[c].price == a
    ensures (TrendOf(chains).direction, TrendOf(chains).strength) ==
            if a >= 100 then (Sideways, 0.0) else (Down, 1.0)
  {
    SumOverConstant(chains, Price, a);
    QuotientAtLeast(a * |chains|, |chains|, a);
    QuotientAtLeast(a * |chains|, |chains|, a + 1);
    ProductMonotone(a, a + 1, |chains|);
    assert PlainMean(chains) == a;
    SumOverConstant(chains, SquaredDeviation(a), 0);
    SumOverConstant(chains, PriceAbove(a), 0);
    assert 0 as real / |chains| as real == 0.0;
  }

  // ---- Bounds on a prediction

  lemma TruncateRange(x: real)
    requires x >= 0.0
    ensures 0 <= Truncate(x) && Truncate(x) as real <= x
  {
  }

  lemma ScaledRange(base: real, fiveMinutes: real, confidence: real)
    requires base >= 0.0 && fiveMinutes >= 0.0 && confidence >= 0.0
    ensures Scaled(base, fiveMinutes, confidence) >= 0.0
    ensures base == 0.0 || confidence == 0.0 ==> Scaled(base, fiveMinutes, confidence) == 0.0
    ensures (base >= 60.0 && fiveMinutes >= 100.0 / 300.0 && confidence >= 0.5) ==>
            Scaled(base, fiveMinutes, confidence) >= 10.0
  {
    RealProductSign(base, fiveMinutes);
    RealProductSign(base * fiveMinutes, confidence);
    RealProductZero(base, fiveMinutes, confidence);
    if base >= 60.0 && fiveMinutes >= 100.0 / 300.0 && confidence >= 0.5 {
      RealProductAtLeast(base, fiveMinutes, 60.0, 100.0 / 300.0);
      RealProductAtLeast(base * fiveMinutes, confidence, 20.0, 0.5);
    }
  }

  lemma CappedRange(change: real)
    ensures change >= 0.0 ==> 0 <= Capped(change) <= 10
    ensures change >= 10.0 ==> Capped(change) == 10
    ensures change == 0.0 ==> Capped(change) == 0
  {
  }

  /** Cap and cut treat both signs alike. */
  lemma CappedIsOdd(change: real)
    ensures Capped(-change) == -Capped(change)
  {
  }

  /** The cap makes the change a whole percentage from 0 to 10 for any such trend. */
  lemma PercentInRange(trend: MarketTrend, timeHorizon: uint64)
    requires trend.strength >= 0.0 && trend.confidence >= 0.0
    ensures 0 <= PriceChangePercent(trend, timeHorizon) <= 10
  {
    TruncateRange(trend.strength * 100.0);
    ScaledRange(Truncate(trend.strength * 100.0) as real, timeHorizon as real / 300.0, trend.confidence);
    CappedRange(ProjectedChange(trend, timeHorizon));
  }

  /** A move of at most 10% keeps a positive price positive and within 10% of itself. */
  lemma MoveBounds(price: int, direction: Direction, percent: int)
    requires price > 0 && 0 <= percent <= 10
    ensures -(10 * price / 100) <= Moved(price, direction, percent) - price <= 10 * price / 100
    ensures Moved(price, direction, percent) > 0
    ensures Moved(price, direction, percent) == match direction
              case Up => price + price * percent / 100
              case Down => price - price * percent / 100
              case Sideways => price
  {
    ProductSign(price, percent);
    ProductMonotone(percent, 10, price);
    QuotientMonotone(price * percent, 10 * price, 100);
  }

  /** The percentage recovered from a price within 10% is itself within 10. */
  lemma RecoveredBounds(price: int, predicted: int)
    requires price > 0
    requires -(10 * price / 100) <= predicted - price <= 10 * price / 100
    ensures -10 <= RecoveredPercent(price, predicted) <= 10
  {
    var x := (predicted - price) * 100;
    assert -10 * price <= x <= 10 * price;
    QuotientAtLeast(x, price, -10);
    QuotientAtLeast(x, price, 11);
  }

  /** Liquidity moves down by at most a twentieth rounded up, and up by one rounded down. */
  lemma FollowBounds(liquidity: int, percent: int)
    requires liquidity > 0 && -10 <= percent <= 10
    ensures liquidity - (liquidity + 19) / 20 <= Followed(liquidity, percent) <= liquidity + liquidity / 20
    ensures Followed(liquidity, percent) == liquidity + liquidity * percent / 200
  {
    ProductMonotone(percent, 10, liquidity);
    ProductMonotone(-10, percent, liquidity);
    QuotientMonotone(liquidity * percent, liquidity * 10, 200);
    QuotientMonotone(-10 * liquidity, liquidity * percent, 200);
    assert liquidity * 10 / 200 == liquidity / 20;
    assert -10 * liquidity / 200 == -((liquidity + 19) / 20);
  }

  /**
   End to end: from a positive price and liquidity, for every set of reports and every
   horizon, a prediction comes back within 10% of the price and a twentieth of the
   liquidity, and neither of the guards against negative results has taken effect.
   */
  lemma PredictionBounds(pool: Pool, timeHorizon: uint64, scoredAt: uint64, stampedAt: uint64)
    requires pool.metrics.averagePrice.Some? && pool.metrics.averagePrice.value > 0
    requires pool.metrics.totalLiquidity.Some? && pool.metrics.totalLiquidity.value > 0
    ensures var price, liquidity := pool.metrics.averagePrice.value, pool.metrics.totalLiquidity.value;
            var result := PredictionFor(pool, timeHorizon, scoredAt, stampedAt);
            var change := price * PriceChangePercent(TrendOf(pool.chains), timeHorizon) / 100;
            && result.Returned?
            && price - 10 * price / 100 <= result.value.price <= price + 10 * price / 100
            && liquidity - (liquidity + 19) / 20 <= result.value.liquidity <= liquidity + liquidity / 20
            && result.value.price > 0
            && result.value.price == (match TrendOf(pool.chains).direction
                 case Up => price + change
                 case Down => price - change
                 case Sideways => price)
            && result.value.liquidity ==
               liquidity + liquidity * RecoveredPercent(price, result.value.price) / 200
  {
    var price, liquidity := pool.metrics.averagePrice.value, pool.metrics.totalLiquidity.value;
    var trend := TrendOf(pool.chains);
    var percent := PriceChangePercent(trend, timeHorizon);
    TrendRanges(pool.chains);
    PercentInRange(trend, timeHorizon);
    MoveBounds(price, trend.direction, percent);
    var predicted := Moved(price, trend.direction, percent);
    RecoveredBounds(price, predicted);
    FollowBounds(liquidity, RecoveredPercent(price, predicted));
  }

  /**
   The confidence of a prediction never exceeds that of its trend. Its freshness compares
   the clock with a block number, so for a pool whose latest block lies 600 or more below
   the clock in seconds the factor is 0.6 however recent the reports are.
   */
  lemma PredictionConfidence(pool: Pool, timeHorizon: uint64, scoredAt: uint64, stampedAt: uint64)
    requires pool.metrics.averagePrice.Some? && pool.metrics.averagePrice.value != 0
    requires pool.metrics.totalLiquidity.Some? && pool.metrics.totalLiquidity.value != 0
    ensures PredictionFor(pool, timeHorizon, scoredAt, stampedAt).Returned?
    ensures var confidence := PredictionFor(pool, timeHorizon, scoredAt, stampedAt).value.confidence;
            && 0.0 <= confidence <= TrendOf(pool.chains).confidence <= 1.0
            && (pool.metrics.lastUpdateBlock + 600 <= scoredAt ==>
                  confidence == TrendOf(pool.chains).confidence * ChainFactor(|pool.chains|) * 0.6)
  {
    assert PredictionFor(pool, timeHorizon, scoredAt, stampedAt).value.confidence ==
           OverallConfidence(TrendOf(pool.chains), |pool.chains|, pool.metrics.lastUpdateBlock, scoredAt);
    TrendRanges(pool.chains);
    OverallConfidenceRange(TrendOf(pool.chains), |pool.chains|, pool.metrics.lastUpdateBlock, scoredAt);
  }

  lemma OverallConfidenceRange(trend: MarketTrend, chainCount: nat, lastUpdateBlock: uint64, now: uint64)
    requires trend.confidence >= 0.0
    ensures var confidence := OverallConfidence(trend, chainCount, lastUpdateBlock, now);
            && 0.0 <= confidence <= trend.confidence
            && (lastUpdateBlock + 600 <= now ==> confidence == trend.confidence * ChainFactor(chainCount) * 0.6)
  {
    ShrinkingFactors(trend.confidence, ChainFactor(chainCount), FreshnessFactor(lastUpdateBlock, now));
  }

  lemma ShrinkingFactors(x: real, a: real, b: real)
    requires x >= 0.0 && 0.0 <= a <= 1.0 && 0.0 <= b <= 1.0
    ensures 0.0 <= x * a * b <= x
  {
    RealProductSign(x, a);
    RealProductSign(x * a, b);
    RealProductSign(x, 1.0 - a);
    RealProductSign(x * a, 1.0 - b);
    assert x - x * a == x * (1.0 - a);
    assert x * a - x * a * b == x * a * (1.0 - b);
  }

  /**
   The same confidence with its factors written out: 1, 0.8 and 0.5 for three or more, two
   and fewer chains; 1, 0.9, 0.8 and 0.6 for a block number less than 60, 300 and 600 below
   the clock in seconds, or further. A block number above the clock comes round.
   */
  lemma PredictionConfidenceDecided(pool: Pool, timeHorizon: uint64, scoredAt: uint64, stampedAt: uint64)
    requires pool.metrics.averagePrice.Some? && pool.metrics.averagePrice.value != 0
    requires pool.metrics.totalLiquidity.Some? && pool.metrics.totalLiquidity.value != 0
    ensures var n, block := |pool.chains|, pool.metrics.lastUpdateBlock;
            var age := if block <= scoredAt then scoredAt - block else scoredAt + 0x1_0000_0000_0000_0000 - block;
            var chains := if n >= 3 then 1.0 else if n == 2 then 0.8 else 0.5;
            var freshness := if age < 60 then 1.0 else if age < 300 then 0.9 else if age < 600 then 0.8 else 0.6;
            && PredictionFor(pool, timeHorizon, scoredAt, stampedAt).Returned?
            && PredictionFor(pool, timeHorizon, scoredAt, stampedAt).value.confidence ==
               TrendOf(pool.chains).confidence * chains * freshness
  {
    var trend := TrendOf(pool.chains);
    assert PredictionFor(pool, timeHorizon, scoredAt, stampedAt).value.confidence ==
           OverallConfidence(trend, |pool.chains|, pool.metrics.lastUpdateBlock, scoredAt);
    FactorsWrittenOut(|pool.chains|, pool.metrics.lastUpdateBlock, scoredAt);
  }

  lemma FactorsWrittenOut(chainCount: nat, lastUpdateBlock: uint64, now: uint64)
    ensures ChainFactor(chainCount) == if chainCount >= 3 then 1.0 else if chainCount == 2 then 0.8 else 0.5
    ensures var age := if lastUpdateBlock <= now then now - lastUpdateBlock else now + TWO_TO_THE_64 - lastUpdateBlock;
            FreshnessFactor(lastUpdateBlock, now) ==
            if age < 60 then 1.0 else if age < 300 then 0.9 else if age < 600 then 0.8 else 0.6
  {
  }

  /**
   When a prediction comes back and when not: a nil price, or a nil total next to a price,
   stops the program; a zero price is reported first, then a zero total. What comes back
   carries the horizon asked for and the second clock reading, and neither number is negative.
   */
  lemma PredictionOutcomes(pool: Pool, timeHorizon: uint64, scoredAt: uint64, stampedAt: uint64)
    ensures var result := PredictionFor(pool, timeHorizon, scoredAt, stampedAt);
            var price, total := pool.metrics.averagePrice, pool.metrics.totalLiquidity;
            && (result.Panicked? <==> price == None || (price != Some(0) && total == None))
            && (result == Failed(NoCurrentPrice) <==> price == Some(0))
            && (result == Failed(NoCurrentLiquidity) <==> price != None && price != Some(0) && total == Some(0))
            && (result.Returned? ==>
                  && result.value.timeHorizon == timeHorizon && result.value.timestamp == stampedAt
                  && result.value.price >= 0 && result.value.liquidity >= 0)
  {
  }

  /**
   When the guards against negative results do take effect: whatever the reports and the
   horizon, a price of -2 or less, and a negative total next to a positive price, are
   predicted as 1. A price of -1 that is read as falling becomes 0 instead.
   */
  lemma NegativeInputsBecomeOne(pool: Pool, timeHorizon: uint64, scoredAt: uint64, stampedAt: uint64)
    requires pool.metrics.averagePrice.Some? && pool.metrics.averagePrice.value != 0
    requires pool.metrics.totalLiquidity.Some? && pool.metrics.totalLiquidity.value != 0
    ensures var price, total := pool.metrics.averagePrice.value, pool.metrics.totalLiquidity.value;
            var trend := TrendOf(pool.chains);
            var result := PredictionFor(pool, timeHorizon, scoredAt, stampedAt);
            && result.Returned?
            && (price < 0 ==>
                  (result.value.price ==
                   if price == -1 && trend.direction == Down && PriceChangePercent(trend, timeHorizon) > 0 then 0 else 1))
            && (price > 0 && total < 0 ==> result.value.liquidity == 1)
  {
    var price, total := pool.metrics.averagePrice.value, pool.metrics.totalLiquidity.value;
    var trend := TrendOf(pool.chains);
    var percent := PriceChangePercent(trend, timeHorizon);
    TrendRanges(pool.chains);
    PercentInRange(trend, timeHorizon);
    if price < 0 {
      NegativeMove(price, trend.direction, percent);
    } else {
      MoveBounds(price, trend.direction, percent);
      RecoveredBounds(price, Moved(price, trend.direction, percent));
      if total < 0 { NegativeFollow(total, RecoveredPercent(price, Moved(price, trend.direction, percent))); }
    }
  }

  lemma NegativeMove(price: int, direction: Direction, percent: int)
    requires price < 0 && 0 <= percent <= 10
    ensures Moved(price, direction, percent) == if price == -1 && direction == Down && percent > 0 then 0 else 1
  {
    ProductMonotone(percent, 10, -price);
    ProductSign(price, percent);
    QuotientMonotone(10 * price, price * percent, 100);
    QuotientMonotone(price * percent, 0, 100);
  }

  lemma NegativeFollow(total: int, percent: int)
    requires total < 0 && -10 <= percent <= 10
    ensures Followed(total, percent) == 1
  {
    ProductMonotone(-10, percent, -total);
    QuotientMonotone(total * percent, -10 * total, 200);
  }

  /** A trend is strong when there is one, and its confidence is 0 or at least a half. */
  lemma TrendSteps(chains: Chains)
    ensures var trend := TrendOf(chains);
            && (trend.direction == Sideways ==> trend.strength == 0.0)
            && (trend.direction != Sideways ==> trend.strength > 0.6)
            && (trend.confidence == 0.0 || trend.confidence >= 0.5)
  {
  }

  lemma StrongTrendSaturates(trend: MarketTrend, timeHorizon: uint64)
    requires trend.strength > 0.6 && trend.confidence >= 0.5 && timeHorizon >= 100
    ensures PriceChangePercent(trend, timeHorizon) == 10
  {
    ScaledRange(Truncate(trend.strength * 100.0) as real, timeHorizon as real / 300.0, trend.confidence);
    CappedRange(ProjectedChange(trend, timeHorizon));
  }

  lemma NoTrendNoChange(trend: MarketTrend, timeHorizon: uint64)
    requires trend.strength >= 0.0 && trend.confidence >= 0.0
    requires trend.strength == 0.0 || trend.confidence == 0.0
    ensures PriceChangePercent(trend, timeHorizon) == 0
  {
    TruncateRange(trend.strength * 100.0);
    ScaledRange(Truncate(trend.strength * 100.0) as real, timeHorizon as real / 300.0, trend.confidence);
    CappedRange(ProjectedChange(trend, timeHorizon));
  }

  /**
   From a horizon of 100 seconds on, strength and horizon no longer matter: the change is
   the full 10 percent whenever there is a trend with any confidence in it, and nothing
   otherwise.
   */
  lemma LongHorizonsSaturate(chains: Chains, timeHorizon: uint64)
    requires timeHorizon >= 100
    ensures var trend := TrendOf(chains);
            PriceChangePercent(trend, timeHorizon) ==
            if trend.direction == Sideways || trend.confidence == 0.0 then 0 else 10
  {
    TrendSteps(chains);
    var trend := TrendOf(chains);
    if trend.direction == Sideways || trend.confidence == 0.0 {
      NoTrendNoChange(trend, timeHorizon);
    } else {
      StrongTrendSaturates(trend, timeHorizon);
    }
  }

  /** The strength of a trend in whole percent: the share of chains on its side of the mean. */
  function SharePercent(direction: Direction, above: int, n: int): int
    requires n > 0
  {
    match direction
    case Up => 100 * above / n
    case Down => 100 * (n - above) / n
    case Sideways => 0
  }

  lemma ShareInWholePercent(strength: real, part: int, n: int)
    requires 0 <= part <= n && n > 0 && strength == part as real / n as real
    ensures Truncate(strength * 100.0) == 100 * part / n
  {
    FloorOfQuotient(100 * part, n);
    FractionInUnitInterval(part, n);
    assert strength * 100.0 == (100 * part) as real / n as real;
  }

  lemma StrengthInWholePercent(chains: Chains)
    requires |chains| >= 2
    ensures Truncate(TrendOf(chains).strength * 100.0) ==
            SharePercent(TrendOf(chains).direction, ChainsAboveMean(chains), |chains|)
  {
    var n, above := |chains|, ChainsAboveMean(chains);
    ChainsAboveMeanBounds(chains);
    var strength := TrendOf(chains).strength;
    OtherShare(above, n);
    match TrendOf(chains).direction
    case Up => ShareInWholePercent(strength, above, n);
    case Down => ShareInWholePercent(strength, n - above, n);
    case Sideways => TruncateRange(strength * 100.0);
  }

  /**
   The change in whole numbers: percent of chains, times seconds, times tenths of
   confidence, over 3000, capped at ten.
   */
  lemma PercentInWholeNumbers(chains: Chains, timeHorizon: uint64, tenths: nat)
    requires |chains| >= 2 && TrendOf(chains).confidence == tenths as real / 10.0
    ensures var share := SharePercent(TrendOf(chains).direction, ChainsAboveMean(chains), |chains|);
            PriceChangePercent(TrendOf(chains), timeHorizon) == Min(10, share * timeHorizon * tenths / 3000)
  {
    var trend := TrendOf(chains);
    StrengthInWholePercent(chains);
    TrendRanges(chains);
    var share: int := Truncate(trend.strength * 100.0);
    TruncateRange(trend.strength * 100.0);
    ProjectedInWholeNumbers(trend, timeHorizon, share, tenths);
    ProductSign(share, timeHorizon);
    ProductSign(share * timeHorizon, tenths);
    CappedFloor(ProjectedChange(trend, timeHorizon), share * timeHorizon * tenths);
  }

  lemma ProjectedInWholeNumbers(trend: MarketTrend, timeHorizon: uint64, share: int, tenths: nat)
    requires share == Truncate(trend.strength * 100.0) && trend.confidence == tenths as real / 10.0
    ensures ProjectedChange(trend, timeHorizon) == (share * timeHorizon * tenths) as real / 3000.0
  {
    assert (share * timeHorizon) as real == share as real * timeHorizon as real;
    assert (share * timeHorizon * tenths) as real == share as real * timeHorizon as real * tenths as real;
    ScaledInWholeNumbers(share as real, timeHorizon as real, tenths as real, trend.confidence);
  }

  lemma ScaledInWholeNumbers(share: real, horizon: real, tenths: real, confidence: real)
    requires confidence == tenths / 10.0
    ensures Scaled(share, horizon / 300.0, confidence) == share * horizon * tenths / 3000.0
  {
  }

  lemma CappedFloor(change: real, x: nat)
    requires change == x as real / 3000.0
    ensures Capped(change) == Min(10, x / 3000)
  {
    FloorOfQuotient(x, 3000);
  }

  /**
   The predicted price of a pool from its reports alone, in whole numbers: the share of the
   chains on the trend's side of the mean in percent, times seconds, times tenths of
   confidence, over 3000 and at most 10, is the percentage by which the price moves.
   */
  lemma PriceDecided(pool: Pool, reports: seq<PoolState>, m: int, s: int, timeHorizon: uint64, scoredAt: uint64,
                     stampedAt: uint64)
    requires IsListing(reports, pool.chains) && |reports| >= 2 && AreStatistics(m, s, reports)
    requires m > 0 && 100 * s < 0x8000_0000_0000_0000 * m
    requires pool.metrics.averagePrice.Some? && pool.metrics.averagePrice.value > 0
    requires pool.metrics.totalLiquidity.Some? && pool.metrics.totalLiquidity.value > 0
    ensures var n, k, price := |reports|, HowManyAbove(reports, m), pool.metrics.averagePrice.value;
            var tenths := if 100 * s < 3 * m then 10 else if 100 * s < 6 * m then 8 else if 100 * s < 11 * m then 5 else 0;
            var result := PredictionFor(pool, timeHorizon, scoredAt, stampedAt);
            && result.Returned?
            && result.value.price ==
               if s >= m / 100 && 5 * k > 3 * n
               then price + price * Min(10, 100 * k / n * timeHorizon * tenths / 3000) / 100
               else if s >= m / 100 && 5 * k < 2 * n
               then price - price * Min(10, 100 * (n - k) / n * timeHorizon * tenths / 3000) / 100
               else price
  {
    var tenths := if 100 * s < 3 * m then 10 else if 100 * s < 6 * m then 8 else if 100 * s < 11 * m then 5 else 0;
    StatisticsOfListing(pool.chains, reports, m, s);
    TrendDecided(pool.chains, reports, m, s);
    TrendConfidenceDecided(pool.chains, reports, m, s);
    PercentInWholeNumbers(pool.chains, timeHorizon, tenths);
    PredictionBounds(pool, timeHorizon, scoredAt, stampedAt);
  }

  // ---- Recovering the percentage from the price

  /** Both directions leave a price `percent` of it away, short of the lost remainder. */
  lemma LowerPriceRecovers(price: int, percent: int)
    requires price > 0 && 0 <= percent <= 100
    ensures RecoveredPercent(price, Moved(price, Down, percent)) == -percent + price * percent % 100 / price
  {
    var product := price * percent;
    var lost := product % 100;
    ProductSign(price, percent);
    ProductMonotone(percent, 100, price);
    QuotientMonotone(product, price * 100, 100);
    assert Moved(price, Down, percent) == price - product / 100;
    assert (Moved(price, Down, percent) - price) * 100 == lost - product;
    ShiftedQuotient(lost, price, -percent);
  }

  lemma RaisedPriceRecovers(price: int, percent: int)
    requires price > 0 && 0 <= percent
    ensures RecoveredPercent(price, Moved(price, Up, percent)) == percent + -(price * percent % 100) / price
  {
    var product := price * percent;
    var lost := product % 100;
    ProductSign(price, percent);
    QuotientAtLeast(product, 100, 0);
    assert Moved(price, Up, percent) == price + product / 100;
    assert (Moved(price, Up, percent) - price) * 100 == product - lost;
    ShiftedQuotient(-lost, price, percent);
  }

  lemma ShiftedQuotient(x: int, n: int, k: int)
    requires n > 0
    ensures (x + n * k) / n == x / n + k
  {
    QuotientAtLeast(x + n * k, n, x / n + k);
    QuotientAtLeast(x + n * k, n, x / n + k + 1);
    assert (x / n + k) * n == x / n * n + n * k;
    assert (x / n + k + 1) * n == x / n * n + n + n * k;
    assert x / n * n <= x < x / n * n + n;
  }

  /** A lowered price gives its percentage back exactly when the lost remainder is below it. */
  lemma LowerRecoveryExact(price: int, percent: int)
    requires price > 0 && 0 <= percent <= 100
    ensures RecoveredPercent(price, Moved(price, Down, percent)) == -percent <==> price * percent % 100 < price
  {
    LowerPriceRecovers(price, percent);
    QuotientAtLeast(price * percent % 100, price, 1);
    QuotientAtLeast(price * percent % 100, price, 0);
  }

  /** A raised price gives it back exactly when nothing was lost. */
  lemma RaisedRecoveryExact(price: int, percent: int)
    requires price > 0 && 0 <= percent
    ensures RecoveredPercent(price, Moved(price, Up, percent)) == percent <==> price * percent % 100 == 0
  {
    RaisedPriceRecovers(price, percent);
    QuotientAtLeast(-(price * percent % 100), price, 0);
    QuotientAtLeast(-(price * percent % 100), price, 1);
  }

  /** From 100 up, going down is always recovered and going up loses at most one percent. */
  lemma RecoveryFromOneHundred(price: int, percent: int)
    requires price >= 100 && 0 <= percent <= 100
    ensures RecoveredPercent(price, Moved(price, Down, percent)) == -percent
    ensures RecoveredPercent(price, Moved(price, Up, percent)) ==
            if price * percent % 100 == 0 then percent else percent - 1
  {
    LowerRecoveryExact(price, percent);
    RaisedRecoveryExact(price, percent);
    RaisedPriceRecovers(price, percent);
    QuotientAtLeast(-(price * percent % 100), price, -1);
    QuotientAtLeast(-(price * percent % 100), price, 0);
  }

  // ---- The coefficient of variation

  lemma PriceAtMostSum(chains: Chains, c: uint32)
    requires c in chains && forall d :: d in chains ==> chains[d].price >= 0
    ensures chains[c].price <= SumOver(chains, Price)
  {
    SumOverRemove(chains, Price, c);
    var zero := (s: PoolState) => 0;
    SumOverConstant(chains - {c}, zero, 0);
    SumOverMonotone(chains - {c}, zero, Price);
  }

  lemma SumBelowTwiceTheMeans(n: int, mean: int, sum: int)
    requires n >= 2 && mean >= 1 && sum / n == mean
    ensures sum < 2 * n * mean && 2 * mean <= n * mean
  {
    assert sum < (mean + 1) * n by { QuotientAtLeast(sum, n, mean + 1); }
    ProductMonotone(1, mean, n);
    ProductMonotone(2, n, mean);
  }

  /** Non-negative prices with a positive floor mean lie below 2 * n * mean. */
  lemma PricesBelowTwiceTheSum(chains: Chains)
    requires |chains| >= 2 && forall c :: c in chains ==> chains[c].price >= 0
    requires PlainMean(chains) >= 1
    ensures var reach := 2 * |chains| * PlainMean(chains) - 1;
            && reach >= 0
            && PricesWithin(chains, PlainMean(chains) - reach, PlainMean(chains) + reach)
  {
    SumBelowTwiceTheMeans(|chains|, PlainMean(chains), SumOver(chains, Price));
    forall c | c in chains ensures chains[c].price < 2 * |chains| * PlainMean(chains) {
      PriceAtMostSum(chains, c);
    }
  }

  /**
   The variation stays below 200 * n, so its 64-bit reading is exact for fewer than 2^55
   chains.
   */
  lemma VariationBound(chains: Chains)
    requires |chains| >= 2 && forall c :: c in chains ==> chains[c].price >= 0
    requires PlainMean(chains) >= 1
    ensures var variation := Variation(PlainMean(chains), PlainDeviation(chains));
            && 0 <= variation < 200 * |chains|
            && (|chains| < 0x80_0000_0000_0000 ==> Int64(variation) == variation)
  {
    var n, mean := |chains|, PlainMean(chains);
    PricesBelowTwiceTheSum(chains);
    VarianceWithin(chains, mean, 2 * n * mean - 1);
    VariationBelow(n, mean, PlainDeviation(chains));
    Int64Exact(Variation(mean, PlainDeviation(chains)));
  }

  lemma VariationBelow(n: nat, mean: int, deviation: nat)
    requires mean >= 1 && deviation < 2 * n * mean
    ensures 0 <= Variation(mean, deviation) < 200 * n
  {
    assert 200 * n * mean == 100 * (2 * n * mean);
    QuotientAtLeast(deviation * 100, mean, 200 * n);
    QuotientAtLeast(deviation * 100, mean, 0);
  }

  // ---- Rebalancing

  /** A whole percentage exceeds a threshold exactly from the next whole number up. */
  lemma ExceedsThreshold(percent: int, threshold: real)
    ensures percent as real > threshold <==> percent >= threshold.Floor + 1
  {
  }

  /** For every threshold the decision is one comparison of whole numbers. */
  lemma NeedExactly(chains: Chains, threshold: real)
    requires NonNegative(chains) && SumOfLiquidity(chains) > 0
    ensures ImbalancePercent(TotalDeviation(chains), SumOfLiquidity(chains)) > threshold <==>
            100 * TotalDeviation(chains) >= (threshold.Floor + 1) * SumOfLiquidity(chains)
  {
    PercentBounds(chains);
    var percent := TotalDeviation(chains) * 100 / SumOfLiquidity(chains);
    ExceedsThreshold(percent, threshold);
    QuotientAtLeast(TotalDeviation(chains) * 100, SumOfLiquidity(chains), threshold.Floor + 1);
  }

  /** Any threshold from 0 up to 1, a configured fraction for instance, acts as one percent. */
  lemma FractionActsAsOnePercent(chains: Chains, threshold: real)
    requires NonNegative(chains) && SumOfLiquidity(chains) > 0 && 0.0 <= threshold < 1.0
    ensures ImbalancePercent(TotalDeviation(chains), SumOfLiquidity(chains)) > threshold <==>
            100 * TotalDeviation(chains) >= SumOfLiquidity(chains)
  {
    NeedExactly(chains, threshold);
    assert threshold.Floor == 0;
  }

  /** A threshold of 199 or more never triggers. */
  lemma NeverNeededFrom199(chains: Chains, threshold: real)
    requires NonNegative(chains) && threshold >= 199.0
    ensures !(ImbalancePercent(TotalDeviation(chains), SumOfLiquidity(chains)) > threshold)
  {
    LiquidityNonNegative(chains);
    if SumOfLiquidity(chains) > 0 { PercentBounds(chains); }
  }

  /** The amount: half of the deviation, at least one token, at most a tenth of the total. */
  lemma AmountWrittenOut(total: int, deviation: int)
    ensures RebalancingAmount(total, deviation) ==
            Min(Max(deviation / 2, 1_000_000_000_000_000_000), total / 10)
    ensures deviation < 2_000_000_000_000_000_000 ==>
              RebalancingAmount(total, deviation) == Min(1_000_000_000_000_000_000, total / 10)
  {
  }

  lemma NeedWrittenOut(pool: Pool, threshold: real, total: int, deviation: int)
    requires pool.metrics.totalLiquidity == Some(total) && deviation == DeviationFrom(pool.chains, total)
    ensures var percent := if total == 0 then 0.0 else Int64(deviation * 100 / total) as real;
            NeedFor(pool, threshold) ==
            Returned(if percent > threshold then RebalancingNeed(true, Some(RebalancingAmount(total, deviation)))
                     else RebalancingNeed(false, None))
  {
  }

  lemma NothingIsNoPercent(total: int, deviation: int)
    requires deviation == 0 && total != 0
    ensures Int64(deviation * 100 / total) == 0
  {
    assert deviation * 100 == 0;
  }

  /**
   The whole decision for any pool, over any listing of its reports and with the deviation
   from the cached total written out. Only a nil total stops the program; below two chains,
   and for a zero total, no threshold from 0 up is ever exceeded. The service's check
   counts the same pools.
   */
  lemma NeedDecided(pool: Pool, threshold: real, reports: seq<PoolState>)
    requires IsListing(reports, pool.chains)
    ensures NeedFor(pool, threshold).Panicked? <==> pool.metrics.totalLiquidity == None
    ensures pool.metrics.totalLiquidity.Some? ==>
              var total := pool.metrics.totalLiquidity.value;
              var deviation := DeviationIn(reports, total);
              var needed := if |reports| < 2 || total == 0 then 0.0 > threshold
                            else Int64(deviation * 100 / total) as real > threshold;
              var amount := Min(Max(deviation / 2, 1_000_000_000_000_000_000), total / 10);
              && NeedFor(pool, threshold) == Returned(RebalancingNeed(needed, if needed then Some(amount) else None))
              && NeedBit(threshold)(pool) == if needed then 1 else 0
  {
    if pool.metrics.totalLiquidity.Some? {
      var total := pool.metrics.totalLiquidity.value;
      DeviationOfListing(reports, pool.chains, total);
      var deviation := DeviationFrom(pool.chains, total);
      NeedWrittenOut(pool, threshold, total, deviation);
      AmountWrittenOut(total, deviation);
      if |reports| < 2 && total != 0 { NothingIsNoPercent(total, deviation); }
    }
  }

  /** The amount never exceeds a tenth of the total and grows with the imbalance. */
  lemma AmountBoundedAndMonotone(total: int, smaller: int, larger: int)
    requires smaller <= larger
    ensures RebalancingAmount(total, larger) <= total / 10
    ensures RebalancingAmount(total, smaller) <= RebalancingAmount(total, larger)
  {
  }

  /** When neither clamp applies, it is the shortfall plus half of the remainder. */
  lemma AmountIsShortfallPlusHalfRemainder(chains: Chains)
    requires |chains| >= 2
    requires ONE_TOKEN <= TotalDeviation(chains) / 2 <= SumOfLiquidity(chains) / 10
    ensures RebalancingAmount(SumOfLiquidity(chains), TotalDeviation(chains)) ==
            TotalShortfall(chains) + SumOfLiquidity(chains) % |chains| / 2
  {
    DeviationIsTwiceShortfallPlusRemainder(chains);
  }
}
