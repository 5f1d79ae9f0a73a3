/** How unevenly liquidity is spread over the chains of a pool. */
module Imbalance {
  import opened Arithmetic
  import opened Basics
  import opened Folds
  import opened Pools

  /** How far a chain falls short of its expected share. */
  function Shortfall(expected: int): PoolState -> int {
    (s: PoolState) => Max(expected - s.totalLiquidity, 0)
  }

  /** The summed distance of the chains from an expected share; nothing for a single chain. */
  ghost function DeviationFrom(chains: Chains, total: int): int {
    if |chains| < 2 then 0 else SumOver(chains, LiquidityDeviation(total / |chains|))
  }

  /** The deviation from the share that the reports themselves imply. */
  ghost function TotalDeviation(chains: Chains): int {
    DeviationFrom(chains, SumOfLiquidity(chains))
  }

  ghost function TotalShortfall(chains: Chains): int
    requires |chains| > 0
  {
    SumOver(chains, Shortfall(SumOfLiquidity(chains) / |chains|))
  }

  /** The loop that adds the distances from the expected share up. */
  method AddDeviations(chains: Chains, expected: int) returns (total: int)
    ensures total == SumOver(chains, LiquidityDeviation(expected))
  {
    total := 0;
    var todo := chains;
    while todo.Keys != {}
      invariant total + SumOver(todo, LiquidityDeviation(expected)) == SumOver(chains, LiquidityDeviation(expected))
      decreases todo.Keys
    {
      var c :| c in todo;
      SumOverRemove(todo, LiquidityDeviation(expected), c);
      var deviation := todo[c].totalLiquidity - expected;
      if deviation < 0 {
        deviation := -deviation;
      }
      total := total + deviation;
      todo := todo - {c};
    }
  }

  /** Deviation as a percentage of the total, as both services compute it; 0 for a zero total. */
  function ImbalancePercent(imbalance: int, total: int): real {
    if total == 0 then 0.0 else Int64(imbalance * 100 / total) as real
  }

  /** The pool's cached total and its reports put it above the threshold. */
  ghost function NeedBit(threshold: real): Pool -> int {
    (pool: Pool) =>
      if pool.metrics.totalLiquidity.Some? &&
         ImbalancePercent(DeviationFrom(pool.chains, pool.metrics.totalLiquidity.value),
                          pool.metrics.totalLiquidity.value) > threshold
      then 1 else 0
  }

  // ---- Decomposition

  function Surplus(expected: int): PoolState -> int {
    (s: PoolState) => s.totalLiquidity - expected
  }

  lemma SurplusSum(chains: Chains, expected: int)
    ensures SumOver(chains, Surplus(expected)) == SumOfLiquidity(chains) - expected * |chains|
  {
    var share := (s: PoolState) => expected;
    SumOverConstant(chains, share, expected);
    SumOverAdd(chains, Liquidity, Surplus(expected), share);
  }

  lemma DeviationSplits(chains: Chains, expected: int)
    ensures SumOver(chains, LiquidityDeviation(expected)) ==
            2 * SumOver(chains, Shortfall(expected)) + SumOver(chains, Surplus(expected))
  {
    var doubled := (s: PoolState) => 2 * Max(expected - s.totalLiquidity, 0);
    SumOverAdd(chains, LiquidityDeviation(expected), doubled, Surplus(expected));
    SumOverScale(chains, doubled, 2, Shortfall(expected));
  }

  /**
   What lies above the floor share balances what lies below it, but for the remainder of
   the division: the deviation is twice the shortfall plus that remainder.
   */
  lemma DeviationIsTwiceShortfallPlusRemainder(chains: Chains)
    requires |chains| >= 2
    ensures TotalDeviation(chains) == 2 * TotalShortfall(chains) + SumOfLiquidity(chains) % |chains|
  {
    var t, n := SumOfLiquidity(chains), |chains|;
    DeviationSplits(chains, t / n);
    SurplusSum(chains, t / n);
    assert t == t / n * n + t % n;
  }

  /** A single chain cannot fall short of the whole by more than its share. */
  lemma ShortfallBelowShares(chains: Chains, expected: int)
    requires NonNegative(chains) && expected >= 0
    ensures SumOver(chains, Shortfall(expected)) <= expected * |chains|
    ensures (expected > 0 && SumOfLiquidity(chains) > 0) ==>
            SumOver(chains, Shortfall(expected)) < expected * |chains|
  {
    var share := (s: PoolState) => expected;
    SumOverConstant(chains, share, expected);
    SumOverMonotone(chains, Shortfall(expected), share);
    if expected > 0 && SumOfLiquidity(chains) > 0 && forall c :: c in chains ==> chains[c].totalLiquidity <= 0 {
      var none := (s: PoolState) => 0;
      SumOverConstant(chains, none, 0);
      SumOverMonotone(chains, Liquidity, none);
      assert false;
    }
  }

  /** The deviation is never negative and stays strictly below twice the total. */
  lemma DeviationBounds(chains: Chains)
    requires NonNegative(chains) && SumOfLiquidity(chains) > 0
    ensures 0 <= TotalDeviation(chains) < 2 * SumOfLiquidity(chains)
  {
    if |chains| >= 2 {
      var t, n := SumOfLiquidity(chains), |chains|;
      var expected := t / n;
      DeviationIsTwiceShortfallPlusRemainder(chains);
      QuotientAtLeast(t, n, 0);
      ShortfallBelowShares(chains, expected);
      assert t == expected * n + t % n;
      var none := (s: PoolState) => 0;
      SumOverConstant(chains, none, 0);
      SumOverMonotone(chains, none, Shortfall(expected));
    }
  }

  /** The percentage lies between 0 and 199, so reading its low 64 bits loses nothing. */
  lemma PercentBounds(chains: Chains)
    requires NonNegative(chains) && SumOfLiquidity(chains) > 0
    ensures var percent := TotalDeviation(chains) * 100 / SumOfLiquidity(chains);
            && 0 <= percent <= 199
            && ImbalancePercent(TotalDeviation(chains), SumOfLiquidity(chains)) == percent as real
  {
    DeviationBounds(chains);
    var d, t := TotalDeviation(chains), SumOfLiquidity(chains);
    QuotientAtLeast(d * 100, t, 0);
    QuotientAtLeast(d * 100, t, 200);
    Int64Exact(d * 100 / t);
  }
}
