/** The sweep and the rebalancing check of the aggregator service over its mutable pools. */
module PoolSweeper {
  import opened Folds
  import opened GlobalPools
  import opened Imbalance
  import opened Pools
  import opened SweepRuns
  import opened UpdateRuns

  class SyncHookAggregator {
    const maxStateAge: int
    const rebalancingThreshold: real
    var poolStates: map<string, GlobalPoolState>
    var stateUpdates: int
    var rebalancingOps: int

    /** No two ids share a pool record. */
    ghost predicate Valid()
      reads this
    {
      forall p, q :: p in poolStates && q in poolStates && p != q ==> poolStates[p] != poolStates[q]
    }

    ghost function PoolValues(): PoolMap
      reads this`poolStates, poolStates.Values
    {
      map p | p in poolStates :: poolStates[p].Value()
    }

    ghost function View(): Sweeper
      reads this, poolStates.Values
    {
      Sweeper(PoolValues(), stateUpdates)
    }

    constructor (maxStateAge: int, rebalancingThreshold: real)
      ensures Valid() && View() == Sweeper(map[], 0) && rebalancingOps == 0
      ensures this.maxStateAge == maxStateAge && this.rebalancingThreshold == rebalancingThreshold
    {
      this.maxStateAge, this.rebalancingThreshold := maxStateAge, rebalancingThreshold;
      poolStates, stateUpdates, rebalancingOps := map[], 0, 0;
    }

    /** One sweep, visiting the pools in any order and deleting the old ones on the way. */
    method AggregateStates(now: int, clock: Clock)
      requires Valid()
      modifies this`poolStates, this`stateUpdates, poolStates.Values
      ensures Valid() && poolStates.Values <= old(poolStates.Values)
      ensures View() == AfterSweep(old(View()), now, clock, maxStateAge)
    {
      ghost var before, rest := View(), PoolValues();
      var todo := poolStates;
      while todo.Keys != {}
        invariant Valid() && poolStates.Values <= old(poolStates.Values)
        invariant todo.Keys == rest.Keys
        invariant Midway(before, rest, View(), now, clock, maxStateAge)
        decreases todo.Keys
      {
        var p :| p in todo;
        MidwayStep(before, rest, View(), p, now, clock, maxStateAge);
        VisitPool(p, now, clock(p));
        todo, rest := todo - {p}, rest - {p};
      }
      MidwayEnd(before, rest, View(), now, clock, maxStateAge);
    }

    /** Deletes one pool, or recalculates it and stamps it if that succeeds. */
    method VisitPool(p: string, now: int, stamp: int)
      requires Valid() && p in poolStates
      modifies this`poolStates, this`stateUpdates, poolStates[p]
      ensures Valid() && poolStates.Values <= old(poolStates.Values)
      ensures View() == AfterVisit(old(View()), p, now, stamp, maxStateAge)
    {
      ghost var pools := PoolValues();
      if now - poolStates[p].lastUpdated > maxStateAge * NANOSECONDS {
        poolStates := poolStates - {p};
        assert PoolValues() == pools - {p};
      } else {
        var ok := Refresh(p, stamp);
        if ok {
          stateUpdates := stateUpdates + 1;
        }
      }
    }

    method Refresh(p: string, stamp: int) returns (ok: bool)
      requires Valid() && p in poolStates
      modifies poolStates[p]
      ensures PoolValues() == old(PoolValues())[p := Refreshed(old(PoolValues())[p], stamp)]
      ensures ok <==> CanRecalculate(old(PoolValues())[p].chains)
    {
      ghost var pools := PoolValues();
      ok := AggregateChainStates(poolStates[p], stamp);
      assert poolStates[p].Value() == Refreshed(pools[p], stamp);
    }

    method AggregateChainStates(global: GlobalPoolState, stamp: int) returns (ok: bool)
      modifies global
      ensures global.Value() == Refreshed(old(global.Value()), stamp)
      ensures ok <==> CanRecalculate(global.chainStates)
    {
      ok := global.Recalculate();
      if ok {
        global.lastUpdated := stamp;
      }
    }

    /**
     Counts the pools whose imbalance exceeds the threshold. A pool whose total is still
     nil stops the program.
     */
    method CheckRebalancingNeeds() returns (panicked: bool)
      requires Valid()
      modifies this`rebalancingOps
      ensures panicked <==> SomeTotalNil(old(PoolValues()))
      ensures !panicked ==>
                rebalancingOps == old(rebalancingOps) + SumOver(old(PoolValues()), NeedBit(rebalancingThreshold))
    {
      var count;
      panicked, count := CountNeeds();
      rebalancingOps := rebalancingOps + count;
    }

    /** How many pools the check gets to before it ends, or comes to a nil total. */
    method CountNeeds() returns (panicked: bool, count: int)
      ensures panicked <==> SomeTotalNil(PoolValues())
      ensures !panicked ==> count == SumOver(PoolValues(), NeedBit(rebalancingThreshold))
    {
      ghost var pools, rest := PoolValues(), PoolValues();
      ghost var bit := NeedBit(rebalancingThreshold);
      var todo := poolStates.Keys;
      count := 0;
      while todo != {}
        invariant todo == rest.Keys
        invariant CountMidway(pools, rest, count, bit)
        decreases todo
      {
        var p :| p in todo;
        CountStep(pools, rest, count, bit, p);
        var nil, needed := NeedsRebalancing(poolStates[p]);
        if nil {
          return true, count;
        }
        if needed {
          count := count + 1;
        }
        todo, rest := todo - {p}, rest - {p};
      }
      return false, count;
    }

    method NeedsRebalancing(global: GlobalPoolState) returns (nil: bool, needed: bool)
      ensures nil <==> global.Value().metrics.totalLiquidity.None?
      ensures !nil ==> NeedBit(rebalancingThreshold)(global.Value()) == if needed then 1 else 0
    {
      if global.totalLiquidity.None? {
        return true, false;
      }
      var total, imbalance := global.totalLiquidity.value, 0;
      if |global.chainStates| >= 2 {
        imbalance := AddDeviations(global.chainStates, total / |global.chainStates|);
      }
      return false, ImbalancePercent(imbalance, total) > rebalancingThreshold;
    }
  }
}
