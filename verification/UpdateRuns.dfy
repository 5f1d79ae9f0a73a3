/** Every run of `UpdatePoolState` calls, the failing ones included, on values. */
module UpdateRuns {
  import opened Basics
  import opened Folds
  import opened Listings
  import opened Pools

  /** One call; the clock is read when the report is stored and when the pool is touched. */
  datatype Update = Update(poolID: string, chainID: uint32, report: PoolState, storedAt: int, touchedAt: int)
  {
    function Stored(): PoolState {
      report.(lastUpdated := storedAt)
    }
  }

  type PoolMap = map<string, Pool>

  const EMPTY_POOL := Pool(map[], NO_METRICS, 0)

  /** The record a call finds, a new and empty one if the pool is not known. */
  function Found(pools: PoolMap, poolID: string): Pool {
    if poolID in pools then pools[poolID] else EMPTY_POOL
  }

  /** A record after a report was stored in it and it was recalculated. */
  ghost function Accepted(pool: Pool, chainID: uint32, report: PoolState, touchedAt: int): Pool {
    var chains := pool.chains[chainID := report];
    Pool(chains, Recalculated(chains, pool.metrics), touchedAt)
  }

  ghost function PoolAfter(pools: PoolMap, u: Update): Pool {
    Accepted(Found(pools, u.poolID), u.chainID, u.Stored(), u.touchedAt)
  }

  ghost function AfterUpdate(pools: PoolMap, u: Update): PoolMap {
    pools[u.poolID := PoolAfter(pools, u)]
  }

  ghost predicate Succeeds(pools: PoolMap, u: Update) {
    CanRecalculate(PoolAfter(pools, u).chains)
  }

  ghost function After(history: seq<Update>): PoolMap {
    if history == [] then map[] else
      AfterUpdate(After(history[..|history| - 1]), history[|history| - 1])
  }

  ghost predicate AllCoherent(pools: PoolMap) {
    forall p :: p in pools ==> Coherent(pools[p])
  }

  lemma UpdateKeepsCoherence(pools: PoolMap, u: Update)
    requires AllCoherent(pools)
    ensures AllCoherent(AfterUpdate(pools, u))
  {
    assert u.chainID in PoolAfter(pools, u).chains;
  }

  /** The cache is coherent after any calls whatever, successful or not. */
  lemma {:induction false} EveryRunIsCoherent(history: seq<Update>)
    ensures AllCoherent(After(history))
  {
    if history != [] {
      var n := |history| - 1;
      EveryRunIsCoherent(history[..n]);
      UpdateKeepsCoherence(After(history[..n]), history[n]);
    }
  }

  /** The last call about one chain of one pool. */
  function LastCall(history: seq<Update>, poolID: string, chainID: uint32): Option<Update> {
    if history == [] then None else
      var u := history[|history| - 1];
      if u.poolID == poolID && u.chainID == chainID then Some(u)
      else LastCall(history[..|history| - 1], poolID, chainID)
  }

  /** The last call about a pool. */
  function LastCallAbout(history: seq<Update>, poolID: string): Option<Update> {
    if history == [] then None else
      var u := history[|history| - 1];
      if u.poolID == poolID then Some(u) else LastCallAbout(history[..|history| - 1], poolID)
  }

  /**
   A pool holds exactly the last report of each chain, even when that call failed. It is
   stored whole, but for the time of its arrival.
   */
  lemma {:induction false} ReportsAreTheLastOnes(history: seq<Update>, p: string, c: uint32)
    ensures match LastCall(history, p, c)
            case None => p in After(history) ==> c !in After(history)[p].chains
            case Some(u) => (
              && p in After(history) && c in After(history)[p].chains
              && After(history)[p].chains[c] == u.report.(lastUpdated := u.storedAt))
  {
    if history != [] {
      ReportsAreTheLastOnes(history[..|history| - 1], p, c);
    }
  }

  /** A pool is known once a call was about it, and carries the time of the last such call. */
  lemma {:induction false} PoolsAreTouchedLast(history: seq<Update>, p: string)
    ensures match LastCallAbout(history, p)
            case None => p !in After(history)
            case Some(u) => p in After(history) && After(history)[p].lastUpdated == u.touchedAt
  {
    if history != [] {
      PoolsAreTouchedLast(history[..|history| - 1], p);
    }
  }

  /** The reports as they stood at the last call for the pool that did not fail. */
  ghost function LastGood(history: seq<Update>, poolID: string): Option<Chains> {
    if history == [] then None else
      var n := |history| - 1;
      var now := Found(After(history), poolID).chains;
      if history[n].poolID == poolID && CanRecalculate(now) then Some(now)
      else LastGood(history[..n], poolID)
  }

  /**
   Exactly what every field holds after any run: the total is the sum over the current
   reports, the other fields are those of the last call that did not fail.
   */
  lemma {:induction false} MetricsOfEveryRun(history: seq<Update>, p: string)
    requires p in After(history)
    ensures After(history)[p].metrics.totalLiquidity == Some(SumOfLiquidity(After(history)[p].chains))
    ensures match LastGood(history, p)
            case None => After(history)[p].metrics == NO_METRICS.(totalLiquidity := Some(0))
            case Some(good) => (
              && CanRecalculate(good)
              && After(history)[p].metrics ==
                 FromScratch(good).(totalLiquidity := Some(SumOfLiquidity(After(history)[p].chains))))
  {
    var n := |history| - 1;
    var before := After(history[..n]);
    if p in before {
      MetricsOfEveryRun(history[..n], p);
    } else {
      NothingGoodBefore(history[..n], p);
    }
  }

  lemma {:induction false} NothingGoodBefore(history: seq<Update>, p: string)
    requires p !in After(history)
    ensures LastGood(history, p) == None
  {
    if history != [] {
      NothingGoodBefore(history[..|history| - 1], p);
    }
  }

  /**
   The cached metrics after any run, in terms of a listing of the last reports: the total
   always, and if it is not 0 the average, the score and the latest block as well.
   */
  lemma MetricsFromListing(history: seq<Update>, p: string, reports: seq<PoolState>)
    requires p in After(history) && IsListing(reports, After(history)[p].chains)
    ensures After(history)[p].metrics.totalLiquidity == Some(LiquidityIn(reports))
    ensures LiquidityIn(reports) != 0 ==> AreMetricsOf(After(history)[p].metrics, reports)
  {
    EveryRunIsCoherent(history);
    SumsOfListing(reports, After(history)[p].chains);
    if LiquidityIn(reports) != 0 {
      MetricsOfListing(reports, After(history)[p].chains);
    }
  }

  /**
   While the total is not 0, the cached block number is the largest among the last reports
   of all chains, as they were handed over.
   */
  lemma LatestBlockOfEveryRun(history: seq<Update>, p: string)
    requires p in After(history) && After(history)[p].metrics.totalLiquidity != Some(0)
    ensures forall c :: LastCall(history, p, c).Some? ==>
              LastCall(history, p, c).value.report.blockNumber <= After(history)[p].metrics.lastUpdateBlock
    ensures After(history)[p].metrics.lastUpdateBlock == 0 ||
            exists c :: LastCall(history, p, c).Some? &&
              LastCall(history, p, c).value.report.blockNumber == After(history)[p].metrics.lastUpdateBlock
  {
    EveryRunIsCoherent(history);
    var chains, block := After(history)[p].chains, After(history)[p].metrics.lastUpdateBlock;
    assert IsLatestBlock(chains, block);
    forall c | LastCall(history, p, c).Some? ensures LastCall(history, p, c).value.report.blockNumber <= block {
      ReportsAreTheLastOnes(history, p, c);
    }
    if block != 0 {
      var c :| c in chains && chains[c].blockNumber == block;
      ReportsAreTheLastOnes(history, p, c);
    }
  }

  /** A call fails exactly when it leaves its pool without liquidity. */
  lemma UpdateFailsWithoutLiquidity(pools: PoolMap, u: Update, reports: seq<PoolState>)
    requires IsListing(reports, AfterUpdate(pools, u)[u.poolID].chains)
    ensures Succeeds(pools, u) <==> LiquidityIn(reports) != 0
  {
    SumsOfListing(reports, PoolAfter(pools, u).chains);
    assert u.chainID in PoolAfter(pools, u).chains;
  }

  function PreviousLiquidity(chains: Chains, chainID: uint32): int {
    if chainID in chains then chains[chainID].totalLiquidity else 0
  }

  ghost function CachedTotal(pools: PoolMap, poolID: string): int {
    if poolID in pools && pools[poolID].metrics.totalLiquidity.Some?
    then pools[poolID].metrics.totalLiquidity.value else 0
  }

  /** Conservation: a call moves its pool's total by the new minus the old liquidity of its chain. */
  lemma TotalIsConserved(pools: PoolMap, u: Update)
    requires AllCoherent(pools)
    ensures CachedTotal(AfterUpdate(pools, u), u.poolID) - CachedTotal(pools, u.poolID) ==
            u.report.totalLiquidity - PreviousLiquidity(Found(pools, u.poolID).chains, u.chainID)
  {
    UpdateKeepsCoherence(pools, u);
    SumOverUpdate(Found(pools, u.poolID).chains, Liquidity, u.chainID, u.Stored());
  }

  /** Frame: a call leaves every other pool alone, and adds at most its own. */
  lemma OtherPoolsAreUntouched(pools: PoolMap, u: Update)
    ensures AfterUpdate(pools, u).Keys == pools.Keys + {u.poolID}
    ensures forall q :: q in pools && q != u.poolID ==> AfterUpdate(pools, u)[q] == pools[q]
  {
    var pool := PoolAfter(pools, u);
    assert AfterUpdate(pools, u) == pools[u.poolID := pool];
  }

  /** Frame: within its pool a call leaves every other chain's report alone. */
  lemma OtherChainsAreUntouched(pools: PoolMap, u: Update)
    ensures var before, after := Found(pools, u.poolID).chains, AfterUpdate(pools, u)[u.poolID].chains;
            && after.Keys == before.Keys + {u.chainID}
            && (forall c :: c in before && c != u.chainID ==> after[c] == before[c])
            && after[u.chainID] == u.report.(lastUpdated := u.storedAt)
  {
    assert AfterUpdate(pools, u)[u.poolID].chains == Found(pools, u.poolID).chains[u.chainID := u.Stored()];
  }
}
