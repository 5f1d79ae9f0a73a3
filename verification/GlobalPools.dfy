/** The mutable global pool record and the recalculation that both aggregators run on it. */
module GlobalPools {
  import opened Basics
  import opened Folds
  import opened Pools
  import opened PriceStats
  import opened Sqrt
  import opened UpdateRuns

  /** Lists the chain prices in whatever order the map yields its keys. */
  method CollectPrices(chains: Chains) returns (prices: seq<int>, ghost order: seq<uint32>)
    ensures Lists(prices, order, chains)
    ensures |prices| == |chains|
  {
    prices, order := [], [];
    var todo := chains;
    while todo.Keys != {}
      invariant |prices| == |order|
      invariant forall i, j :: 0 <= i < j < |order| ==> order[i] != order[j]
      invariant forall c :: c in todo ==> c in chains && c !in order && todo[c] == chains[c]
      invariant forall c :: c in chains <==> c in todo || c in order
      invariant forall i :: 0 <= i < |order| ==> prices[i] == chains[order[i]].price
      decreases todo.Keys
    {
      var c :| c in todo;
      prices, order := prices + [todo[c].price], order + [c];
      todo := todo - {c};
    }
    ListingTotals(prices, order, chains, 0);
  }

  class GlobalPoolState {
    const poolID: string
    var totalLiquidity: Option<int>
    var averagePrice: Option<int>
    var imbalanceScore: Option<int>
    var lastUpdateBlock: uint64
    var chainStates: Chains
    var lastUpdated: int

    constructor (poolID: string)
      ensures this.poolID == poolID
      ensures Value() == EMPTY_POOL
    {
      this.poolID := poolID;
      totalLiquidity, averagePrice, imbalanceScore, lastUpdateBlock := None, None, None, 0;
      chainStates, lastUpdated := map[], 0;
    }

    ghost function Cached(): Metrics
      reads this
    {
      Metrics(totalLiquidity, averagePrice, imbalanceScore, lastUpdateBlock)
    }

    ghost function Value(): Pool
      reads this
    {
      Pool(chainStates, Cached(), lastUpdated)
    }

    /** Puts a report in place and recalculates; the report stays when that fails. */
    method Accept(chainID: uint32, report: PoolState, touchedAt: int) returns (ok: bool)
      modifies this
      ensures Value() == Accepted(old(Value()), chainID, report, touchedAt)
      ensures ok <==> CanRecalculate(Value().chains)
    {
      chainStates := chainStates[chainID := report];
      lastUpdated := touchedAt;
      ok := Recalculate();
    }

    /** Refreshes the cache in place; on a zero total it stops after storing the total. */
    method Recalculate() returns (ok: bool)
      modifies this
      ensures chainStates == old(chainStates) && lastUpdated == old(lastUpdated)
      ensures ok <==> CanRecalculate(chainStates)
      ensures Cached() == Recalculated(chainStates, old(Cached()))
    {
      if |chainStates| == 0 {
        return false;
      }
      var total, todo := 0, chainStates;
      while todo.Keys != {}
        invariant total + SumOver(todo, Liquidity) == SumOfLiquidity(chainStates)
        modifies {}
        decreases todo.Keys
      {
        var c :| c in todo;
        SumOverRemove(todo, Liquidity, c);
        total := total + todo[c].totalLiquidity;
        todo := todo - {c};
      }
      totalLiquidity := Some(total);
      ok := CalculateWeightedAveragePrice();
      if !ok {
        return;
      }
      CalculateImbalanceScore();
      lastUpdateBlock := FindLatestBlock(chainStates);
    }

    /** The liquidity-weighted mean; nothing is stored when the weights add up to zero. */
    method CalculateWeightedAveragePrice() returns (ok: bool)
      modifies this`averagePrice
      ensures ok <==> CanRecalculate(chainStates)
      ensures averagePrice == if ok then Some(WeightedMean(chainStates)) else old(averagePrice)
    {
      if |chainStates| == 0 {
        return false;
      }
      var totalWeight, weightedPriceSum, todo := 0, 0, chainStates;
      while todo.Keys != {}
        invariant totalWeight + SumOver(todo, Liquidity) == SumOfLiquidity(chainStates)
        invariant weightedPriceSum + SumOver(todo, WeightedPrice) == SumOver(chainStates, WeightedPrice)
        modifies {}
        decreases todo.Keys
      {
        var c :| c in todo;
        SumOverRemove(todo, Liquidity, c);
        SumOverRemove(todo, WeightedPrice, c);
        totalWeight := totalWeight + todo[c].totalLiquidity;
        weightedPriceSum := weightedPriceSum + todo[c].price * todo[c].totalLiquidity;
        todo := todo - {c};
      }
      if totalWeight == 0 {
        return false;
      }
      averagePrice := Some(weightedPriceSum / totalWeight);
      return true;
    }

    /** The standard deviation of the prices about the stored average. */
    method CalculateImbalanceScore()
      requires averagePrice.Some?
      modifies this`imbalanceScore
      ensures imbalanceScore == Some(Score(chainStates, averagePrice.value))
    {
      if |chainStates| < 2 {
        imbalanceScore := Some(0);
        return;
      }
      var prices; ghost var order;
      prices, order := CollectPrices(chainStates);
      var mean := averagePrice.value;
      ListingTotals(prices, order, chainStates, mean);
      var variance := AddSquares(prices, mean);
      variance := variance / |prices|;
      var root; ghost var rounds;
      root, rounds := FloorSqrt(variance);
      imbalanceScore := Some(root);
    }
  }

  method FindLatestBlock(chains: Chains) returns (latest: uint64)
    ensures latest == LatestBlock(chains)
  {
    latest := 0;
    var todo := chains;
    while todo.Keys != {}
      invariant forall c :: c in todo ==> c in chains && todo[c] == chains[c]
      invariant forall c :: c in chains && c !in todo ==> chains[c].blockNumber <= latest
      invariant latest == 0 || exists c :: c in chains && chains[c].blockNumber == latest
      decreases todo.Keys
    {
      var c :| c in todo;
      if todo[c].blockNumber > latest {
        latest := todo[c].blockNumber;
      }
      todo := todo - {c};
    }
    assert IsLatestBlock(chains, latest) && IsLatestBlock(chains, LatestBlock(chains));
  }
}
