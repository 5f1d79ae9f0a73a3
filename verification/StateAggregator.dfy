/** The cross-chain aggregator: a map of mutable pool records and their derived metrics. */
module StateAggregator {
  import opened Basics
  import opened Folds
  import opened GlobalPools
  import opened Imbalance
  import opened Listings
  import opened Pools
  import opened UpdateRuns

  datatype UpdateError = RecalculationFailed
  datatype LookupError = PoolNotFound

  datatype AggregatedMetrics = AggregatedMetrics(
    totalLiquidity: Option<int>, averagePrice: Option<int>, priceVariance: int, liquidityImbalance: int,
    volume24h: int, fees24h: int, activeChains: uint32)

  class Aggregator {
    var poolStates: map<string, GlobalPoolState>

    /** Records are not shared between pools. */
    ghost predicate Unshared()
      reads this
    {
      && (forall p, q :: p in poolStates && q in poolStates && p != q ==> poolStates[p] != poolStates[q])
      && (forall p :: p in poolStates ==> poolStates[p].poolID == p)
    }

    ghost predicate Valid()
      reads this, poolStates.Values
    {
      Unshared() && AllCoherent(View())
    }

    ghost function View(): PoolMap
      reads this, poolStates.Values
    {
      map p | p in poolStates :: poolStates[p].Value()
    }

    constructor ()
      ensures Valid() && View() == map[]
    {
      poolStates := map[];
    }

    /**
     Stores a report and recalculates. The report stays stored when the recalculation
     fails, and the two clock readings land on the report and on the pool.
     */
    method UpdatePoolState(poolID: string, chainID: uint32, report: PoolState, storedAt: int, touchedAt: int)
      returns (result: Outcome<(), UpdateError>)
      requires Valid()
      modifies this, if poolID in poolStates then {poolStates[poolID]} else {}
      ensures Valid()
      ensures var u := Update(poolID, chainID, report, storedAt, touchedAt);
              && View() == AfterUpdate(old(View()), u)
              && result == if Succeeds(old(View()), u) then Returned(()) else Failed(RecalculationFailed)
      ensures poolID in poolStates && poolStates == old(poolStates)[poolID := poolStates[poolID]]
    {
      var u := Update(poolID, chainID, report, storedAt, touchedAt);
      UpdateKeepsCoherence(View(), u);
      var ok := Apply(u);
      result := if ok then Returned(()) else Failed(RecalculationFailed);
    }

    /** The same call, on a map of pools that need not be coherent. */
    method Apply(u: Update) returns (ok: bool)
      requires Unshared()
      modifies this, if u.poolID in poolStates then {poolStates[u.poolID]} else {}
      ensures Unshared()
      ensures ok <==> Succeeds(old(View()), u)
      ensures View() == AfterUpdate(old(View()), u)
      ensures u.poolID in poolStates && poolStates == old(poolStates)[u.poolID := poolStates[u.poolID]]
    {
      ghost var before := View();
      var global := GetOrCreate(u.poolID);
      ok := global.Accept(u.chainID, u.Stored(), u.touchedAt);
      ghost var pool := PoolAfter(before, u);
      assert global.Value() == pool;
      forall p | p in poolStates && p != u.poolID ensures poolStates[p].Value() == before[p] {
        assert poolStates[p] != global;
      }
      assert View() == before[u.poolID := pool];
    }

    /** The record of a pool, a new and empty one if the pool was not known. */
    method GetOrCreate(poolID: string) returns (global: GlobalPoolState)
      requires Unshared()
      modifies this
      ensures Unshared() && global.poolID == poolID
      ensures poolStates == old(poolStates)[poolID := global]
      ensures if poolID in old(poolStates) then global == old(poolStates[poolID]) else fresh(global)
      ensures global.Value() == Found(old(View()), poolID)
    {
      if poolID in poolStates {
        global := poolStates[poolID];
      } else {
        global := new GlobalPoolState(poolID);
        poolStates := poolStates[poolID := global];
      }
    }

    /**
     The report on one pool. Dividing by a zero total, or subtracting a nil average, stops
     the program; in a coherent state that happens exactly when two or more chains together
     hold no liquidity.
     */
    method CalculateAggregatedMetrics(poolID: string) returns (result: Outcome<AggregatedMetrics, LookupError>)
      requires Valid()
      ensures result.Failed? <==> poolID !in poolStates
      ensures result.Panicked? <==> (poolID in poolStates && |View()[poolID].chains| >= 2
                                     && SumOfLiquidity(View()[poolID].chains) == 0)
      ensures result.Returned? ==> Describes(result.value, View()[poolID])
    {
      if poolID !in poolStates {
        return Failed(PoolNotFound);
      }
      var global := poolStates[poolID];
      assert Coherent(View()[poolID]) && View()[poolID] == global.Value();
      var chains, total := global.chainStates, global.totalLiquidity;
      var variance, imbalance := 0, 0;
      if |chains| >= 2 {
        if global.averagePrice == None {
          return Panicked;
        }
        variance := AddSquaredDeviations(chains, global.averagePrice.value);
        variance := variance / |chains|;
        if total == None || total.value == 0 {
          return Panicked;
        }
        var deviation := AddDeviations(chains, total.value / |chains|);
        imbalance := deviation * 100 / total.value;
      }
      var volume, fees := AddVolumeAndFees(chains);
      result := Returned(AggregatedMetrics(total, global.averagePrice, variance, imbalance, volume, fees,
                                           |chains| % TWO_TO_THE_32));
    }
  }

  method AddSquaredDeviations(chains: Chains, mean: int) returns (sum: int)
    ensures sum == SumOver(chains, SquaredDeviation(mean))
  {
    sum := 0;
    var todo := chains;
    while todo.Keys != {}
      invariant sum + SumOver(todo, SquaredDeviation(mean)) == SumOver(chains, SquaredDeviation(mean))
      decreases todo.Keys
    {
      var c :| c in todo;
      SumOverRemove(todo, SquaredDeviation(mean), c);
      var diff := todo[c].price - mean;
      sum := sum + diff * diff;
      todo := todo - {c};
    }
  }

  method AddVolumeAndFees(chains: Chains) returns (volume: int, fees: int)
    ensures volume == SumOver(chains, Volume) && fees == SumOver(chains, Fees)
  {
    volume, fees := 0, 0;
    var todo := chains;
    while todo.Keys != {}
      invariant volume + SumOver(todo, Volume) == SumOver(chains, Volume)
      invariant fees + SumOver(todo, Fees) == SumOver(chains, Fees)
      decreases todo.Keys
    {
      var c :| c in todo;
      SumOverRemove(todo, Volume, c);
      SumOverRemove(todo, Fees, c);
      volume, fees := volume + todo[c].volume24h, fees + todo[c].fees24h;
      todo := todo - {c};
    }
  }

  /** What a returned report says of the pool it was made from. */
  ghost predicate Describes(m: AggregatedMetrics, pool: Pool) {
    && m.totalLiquidity == pool.metrics.totalLiquidity
    && m.averagePrice == pool.metrics.averagePrice
    && m.volume24h == SumOver(pool.chains, Volume)
    && m.fees24h == SumOver(pool.chains, Fees)
    && m.activeChains == |pool.chains| % TWO_TO_THE_32
    && (|pool.chains| < 2 ==> m.priceVariance == 0 && m.liquidityImbalance == 0)
    && (|pool.chains| >= 2 ==>
          && SumOfLiquidity(pool.chains) != 0
          && m.priceVariance == Variance(pool.chains, WeightedMean(pool.chains))
          && m.liquidityImbalance == TotalDeviation(pool.chains) * 100 / SumOfLiquidity(pool.chains))
  }

  /** A returned report in terms of any listing of the pool: what the separate loops add up. */
  lemma ReportFromListing(m: AggregatedMetrics, pool: Pool, reports: seq<PoolState>)
    requires Coherent(pool) && Describes(m, pool) && IsListing(reports, pool.chains)
    ensures m.totalLiquidity == Some(LiquidityIn(reports))
    ensures LiquidityIn(reports) != 0 ==> m.averagePrice == Some(PriceTimesLiquidityIn(reports) / LiquidityIn(reports))
    ensures m.volume24h == VolumeIn(reports) && m.fees24h == FeesIn(reports)
    ensures m.activeChains == |reports| % 0x1_0000_0000
    ensures |reports| < 2 ==> m.priceVariance == 0 && m.liquidityImbalance == 0
    ensures |reports| >= 2 ==>
              && LiquidityIn(reports) != 0
              && m.priceVariance ==
                 SquaresFrom(reports, PriceTimesLiquidityIn(reports) / LiquidityIn(reports)) / |reports|
              && m.liquidityImbalance ==
                 DistancesFrom(reports, LiquidityIn(reports) / |reports|) * 100 / LiquidityIn(reports)
  {
    SumsOfListing(reports, pool.chains);
    DeviationOfListing(reports, pool.chains, LiquidityIn(reports));
    if LiquidityIn(reports) != 0 {
      DistancesOfListing(reports, pool.chains, PriceTimesLiquidityIn(reports) / LiquidityIn(reports));
    }
  }

  /** One call moves the reported volume and fees by what the new report says minus what the old one said. */
  lemma VolumeAndFeesMove(pools: PoolMap, u: Update, before: AggregatedMetrics, after: AggregatedMetrics)
    requires u.poolID in pools && Describes(before, pools[u.poolID])
    requires Describes(after, AfterUpdate(pools, u)[u.poolID])
    ensures var chains, c := pools[u.poolID].chains, u.chainID;
            && after.volume24h - before.volume24h == u.report.volume24h - (if c in chains then chains[c].volume24h else 0)
            && after.fees24h - before.fees24h == u.report.fees24h - (if c in chains then chains[c].fees24h else 0)
  {
    var chains := pools[u.poolID].chains;
    SumOverUpdate(chains, Volume, u.chainID, u.Stored());
    SumOverUpdate(chains, Fees, u.chainID, u.Stored());
  }

  /**
   The variance in a report and the score in the cache come from different calls, yet in a
   coherent pool with liquidity the score is exactly the floor root of the variance; and
   the reported imbalance is a percentage between 0 and 199.
   */
  lemma ReportAgreesWithCache(m: AggregatedMetrics, pool: Pool)
    requires Coherent(pool) && Describes(m, pool)
    requires NonNegative(pool.chains) && SumOfLiquidity(pool.chains) != 0
    ensures pool.metrics.imbalanceScore.Some?
    ensures var score := pool.metrics.imbalanceScore.value;
            score >= 0 && score * score <= m.priceVariance < (score + 1) * (score + 1)
    ensures 0 <= m.liquidityImbalance <= 199
  {
    LiquidityNonNegative(pool.chains);
    PercentBounds(pool.chains);
    VarianceNonNegative(pool.chains, WeightedMean(pool.chains));
  }
}
