/**
 The rebalancing check between sweeps. It divides by the cached total, which agrees with the
 reports right after a sweep and may be stale once new reports have been collected.
 */
module RebalancingRuns {
  import opened Arithmetic
  import opened Basics
  import opened Folds
  import opened Imbalance
  import opened Listings
  import opened Pools
  import opened PredictorTheorems
  import opened SweepRuns

  /**
   In every run, right after a sweep a pool with liquidity needs rebalancing exactly when
   its deviation reaches the next whole percent above the threshold, whatever was collected
   before that sweep. The deviation is that of its current reports, and nothing for a
   single chain, so then only a negative threshold is exceeded.
   */
  lemma NeedAfterSweep(states: seq<Sweeper>, events: seq<Event>, maxAge: int, j: nat, p: string, threshold: real,
                       reports: seq<PoolState>)
    requires IsRun(states, events, maxAge) && j < |events| && events[j].Sweep?
    requires p in states[j + 1].pools && IsListing(reports, states[j + 1].pools[p].chains)
    requires NonNegative(states[j + 1].pools[p].chains) && LiquidityIn(reports) > 0
    ensures var n, total := |reports|, LiquidityIn(reports);
            && n > 0
            && var deviation := if n == 1 then 0 else DistancesFrom(reports, total / n);
               NeedBit(threshold)(states[j + 1].pools[p]) == 1 <==>
               100 * deviation >= (threshold.Floor + 1) * total
    ensures |reports| == 1 ==> (NeedBit(threshold)(states[j + 1].pools[p]) == 1 <==> threshold < 0.0)
  {
    SweepRestoresCoherence(states[j].pools, events[j].now, events[j].clock, maxAge);
    var pool := states[j + 1].pools[p];
    SumsOfListing(reports, pool.chains);
    NotEmpty(pool.chains);
    assert Coherent(pool);
    NeedExactly(pool.chains, threshold);
    DeviationOfListing(reports, pool.chains, LiquidityIn(reports));
    if |reports| == 1 { NeedDecided(pool, threshold, reports); }
  }

  lemma NotEmpty(chains: Chains)
    requires SumOfLiquidity(chains) != 0
    ensures |chains| > 0
  {
    assert chains.Keys != {};
  }

  /**
   Between sweeps, for a positive cached total, the 64-bit reading of the percentage is
   exact exactly while a hundred deviations from that total stay below 2^63 times it.
   */
  lemma StaleReadingExact(chains: Chains, total: int)
    requires total > 0
    ensures var imbalance := DeviationFrom(chains, total);
            ImbalancePercent(imbalance, total) == (imbalance * 100 / total) as real <==>
            imbalance * 100 < TWO_TO_THE_63 * total
  {
    var imbalance := DeviationFrom(chains, total);
    DeviationNonNegative(chains, total);
    QuotientAtLeast(imbalance * 100, total, TWO_TO_THE_63);
    QuotientAtLeast(imbalance * 100, total, 0);
    Int64Exact(imbalance * 100 / total);
  }

  lemma DeviationNonNegative(chains: Chains, total: int)
    ensures DeviationFrom(chains, total) >= 0
  {
    if |chains| >= 2 {
      var none := (s: PoolState) => 0;
      SumOverConstant(chains, none, 0);
      SumOverMonotone(chains, none, LiquidityDeviation(total / |chains|));
    }
  }

  /** The deviation from a stale total is at most the two totals together. */
  lemma StaleDeviationBound(chains: Chains, total: int)
    requires NonNegative(chains) && total > 0
    ensures DeviationFrom(chains, total) <= SumOfLiquidity(chains) + total
  {
    LiquidityNonNegative(chains);
    if |chains| >= 2 {
      var expected := total / |chains|;
      var share := (s: PoolState) => expected;
      var both := (s: PoolState) => s.totalLiquidity + expected;
      QuotientAtLeast(total, |chains|, 0);
      QuotientAtLeast(total, |chains|, expected);
      SumOverMonotone(chains, LiquidityDeviation(expected), both);
      SumOverAdd(chains, both, Liquidity, share);
      SumOverConstant(chains, share, expected);
    }
  }

  /**
   While the reports have not outgrown the cached total some 2^56 times, the decision
   between sweeps is the same comparison, taken against that total.
   */
  lemma NeedBetweenSweeps(pool: Pool, total: int, threshold: real, reports: seq<PoolState>)
    requires pool.metrics.totalLiquidity == Some(total) && total > 0 && NonNegative(pool.chains)
    requires IsListing(reports, pool.chains) && 100 * (LiquidityIn(reports) + total) < 0x8000_0000_0000_0000 * total
    ensures var n := |reports|;
            var deviation := if n < 2 then 0 else DistancesFrom(reports, total / n);
            NeedBit(threshold)(pool) == 1 <==> 100 * deviation >= (threshold.Floor + 1) * total
  {
    var imbalance := DeviationFrom(pool.chains, total);
    SumsOfListing(reports, pool.chains);
    DeviationOfListing(reports, pool.chains, total);
    StaleDeviationBound(pool.chains, total);
    StaleReadingExact(pool.chains, total);
    ExceedsThreshold(imbalance * 100 / total, threshold);
    QuotientAtLeast(imbalance * 100, total, threshold.Floor + 1);
  }
}
