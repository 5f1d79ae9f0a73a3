/**
 Ageing and refreshing of the pools of the aggregator service over whole runs. Registering
 a pool and collecting reports for it happen between sweeps, in code that is not part of
 this model. The service keeps its own copy of the aggregator's recalculation, line by line
 the same, so the two share one model of it.
 */
module SweepRuns {
  import opened Basics
  import opened Folds
  import opened Listings
  import opened Pools
  import opened UpdateRuns

  const NANOSECONDS: int := 1_000_000_000

  /** Reads the clock when a pool has been refreshed. */
  type Clock = string -> int

  datatype Sweeper = Sweeper(pools: PoolMap, updates: int)

  /** The age in seconds exceeds the limit. */
  predicate TooOld(pool: Pool, now: int, maxAge: int) {
    now - pool.lastUpdated > maxAge * NANOSECONDS
  }

  /** A recalculated pool; only a successful recalculation renews its time stamp. */
  ghost function Refreshed(pool: Pool, stamp: int): Pool {
    Pool(pool.chains, Recalculated(pool.chains, pool.metrics),
         if CanRecalculate(pool.chains) then stamp else pool.lastUpdated)
  }

  ghost function RefreshBit(now: int, maxAge: int): Pool -> int {
    (pool: Pool) => if !TooOld(pool, now, maxAge) && CanRecalculate(pool.chains) then 1 else 0
  }

  ghost function SweptPools(pools: PoolMap, now: int, clock: Clock, maxAge: int): PoolMap {
    map p | p in pools && !TooOld(pools[p], now, maxAge) :: Refreshed(pools[p], clock(p))
  }

  ghost function AfterSweep(s: Sweeper, now: int, clock: Clock, maxAge: int): Sweeper {
    Sweeper(SweptPools(s.pools, now, clock, maxAge), s.updates + SumOver(s.pools, RefreshBit(now, maxAge)))
  }

  // ---- Visiting one pool at a time

  ghost function AfterVisit(s: Sweeper, p: string, now: int, stamp: int, maxAge: int): Sweeper
    requires p in s.pools
  {
    var pool := s.pools[p];
    Sweeper(if TooOld(pool, now, maxAge) then s.pools - {p} else s.pools[p := Refreshed(pool, stamp)],
            s.updates + RefreshBit(now, maxAge)(pool))
  }

  /** A sweep under way: the pools in `rest` still wait, the others have been visited. */
  ghost predicate Midway(before: Sweeper, rest: PoolMap, s: Sweeper, now: int, clock: Clock, maxAge: int) {
    && rest.Keys <= s.pools.Keys <= before.pools.Keys
    && (forall p :: p in rest ==> rest[p] == before.pools[p] == s.pools[p])
    && (forall p :: p in before.pools && p !in rest ==> (p in s.pools <==> !TooOld(before.pools[p], now, maxAge)))
    && (forall p :: p in s.pools && p !in rest ==> s.pools[p] == Refreshed(before.pools[p], clock(p)))
    && s.updates + SumOver(rest, RefreshBit(now, maxAge)) ==
       before.updates + SumOver(before.pools, RefreshBit(now, maxAge))
  }

  lemma MidwayStep(before: Sweeper, rest: PoolMap, s: Sweeper, p: string, now: int, clock: Clock, maxAge: int)
    requires Midway(before, rest, s, now, clock, maxAge) && p in rest
    ensures Midway(before, rest - {p}, AfterVisit(s, p, now, clock(p), maxAge), now, clock, maxAge)
  {
    SumOverRemove(rest, RefreshBit(now, maxAge), p);
    var pool, after := s.pools[p], AfterVisit(s, p, now, clock(p), maxAge);
    if TooOld(pool, now, maxAge) {
      assert after.pools == s.pools - {p};
    } else {
      var refreshed := Refreshed(pool, clock(p));
      assert after.pools == s.pools[p := refreshed];
    }
  }

  /** Whatever the order of the visits, and deleting along the way, they end in the swept state. */
  lemma MidwayEnd(before: Sweeper, rest: PoolMap, s: Sweeper, now: int, clock: Clock, maxAge: int)
    requires Midway(before, rest, s, now, clock, maxAge) && rest.Keys == {}
    ensures s == AfterSweep(before, now, clock, maxAge)
  {
    assert s.pools == SweptPools(before.pools, now, clock, maxAge);
  }

  ghost predicate SomeTotalNil(pools: PoolMap) {
    exists p :: p in pools && pools[p].metrics.totalLiquidity.None?
  }

  /** A count under way over pools that all have a total. */
  ghost predicate CountMidway(pools: PoolMap, rest: PoolMap, counted: int, bit: Pool -> int) {
    && rest.Keys <= pools.Keys
    && (forall p :: p in rest ==> rest[p] == pools[p])
    && (forall p :: p in pools && p !in rest ==> pools[p].metrics.totalLiquidity.Some?)
    && counted + SumOver(rest, bit) == SumOver(pools, bit)
  }

  lemma CountStep(pools: PoolMap, rest: PoolMap, counted: int, bit: Pool -> int, p: string)
    requires CountMidway(pools, rest, counted, bit) && p in rest
    ensures pools[p].metrics.totalLiquidity.Some? ==> CountMidway(pools, rest - {p}, counted + bit(pools[p]), bit)
  {
    SumOverRemove(rest, bit, p);
  }

  // ---- One sweep

  /** Whatever was collected before, a sweep leaves every pool that has reports coherent. */
  lemma SweepRestoresCoherence(pools: PoolMap, now: int, clock: Clock, maxAge: int)
    ensures forall p :: p in SweptPools(pools, now, clock, maxAge) && |pools[p].chains| > 0 ==>
              Coherent(SweptPools(pools, now, clock, maxAge)[p])
  {
  }

  /**
   A second sweep with no new reports changes no metric, and keeps exactly the pools that
   are not too old for it, counted from the stamp the first sweep left.
   */
  lemma SecondSweepChangesNoMetric(pools: PoolMap, now: int, clock: Clock, later: int, laterClock: Clock, maxAge: int)
    ensures var once := SweptPools(pools, now, clock, maxAge);
            var twice := SweptPools(once, later, laterClock, maxAge);
            && twice.Keys <= once.Keys
            && (forall p :: p in twice ==> twice[p].chains == once[p].chains && twice[p].metrics == once[p].metrics)
            && (forall p :: p in once ==>
                  var stamp := if SumOfLiquidity(pools[p].chains) != 0 then clock(p) else pools[p].lastUpdated;
                  p in twice <==> later - stamp <= maxAge * 1_000_000_000)
  {
    var once := SweptPools(pools, now, clock, maxAge);
    var twice := SweptPools(once, later, laterClock, maxAge);
    assert forall p :: p in once ==> (CanRecalculate(pools[p].chains) <==> SumOfLiquidity(pools[p].chains) != 0);
    forall p | p in twice ensures twice[p].chains == once[p].chains && twice[p].metrics == once[p].metrics {
      RecalculatingTwice(pools[p].chains, pools[p].metrics);
    }
  }

  lemma RecalculatingTwice(chains: Chains, metrics: Metrics)
    ensures Recalculated(chains, Recalculated(chains, metrics)) == Recalculated(chains, metrics)
  {
  }

  /** What a sweep does to one pool, over any listing of its reports. */
  lemma SweepOfListing(s: Sweeper, now: int, clock: Clock, maxAge: int, p: string, reports: seq<PoolState>)
    requires p in s.pools && IsListing(reports, s.pools[p].chains)
    ensures var pool, after := s.pools[p], AfterSweep(s, now, clock, maxAge).pools;
            && (p in after <==> now - pool.lastUpdated <= maxAge * 1_000_000_000)
            && (p in after ==>
                  && after[p].chains == pool.chains
                  && (reports == [] ==> after[p] == pool)
                  && (reports != [] && LiquidityIn(reports) == 0 ==>
                        after[p] == pool.(metrics := pool.metrics.(totalLiquidity := Some(0))))
                  && (LiquidityIn(reports) != 0 ==>
                        after[p].lastUpdated == clock(p) && AreMetricsOf(after[p].metrics, reports)))
  {
    SumsOfListing(reports, s.pools[p].chains);
    if LiquidityIn(reports) != 0 {
      MetricsOfListing(reports, s.pools[p].chains);
    }
  }

  // ---- Runs

  datatype Event =
    | Register(poolID: string, pool: Pool)
    | Collect(poolID: string, chains: Chains)
    | Sweep(now: int, clock: Clock)

  ghost predicate Enabled(s: Sweeper, e: Event) {
    match e
    case Register(p, _) => p !in s.pools
    case Collect(p, _) => p in s.pools
    case Sweep(_, _) => true
  }

  ghost function Next(s: Sweeper, e: Event, maxAge: int): Sweeper {
    match e
    case Register(p, pool) => s.(pools := s.pools[p := pool])
    case Collect(p, chains) => if p in s.pools then s.(pools := s.pools[p := s.pools[p].(chains := chains)]) else s
    case Sweep(now, clock) => AfterSweep(s, now, clock, maxAge)
  }

  ghost predicate IsRun(states: seq<Sweeper>, events: seq<Event>, maxAge: int) {
    && |states| == |events| + 1
    && forall i :: 0 <= i < |events| ==> Enabled(states[i], events[i]) && states[i + 1] == Next(states[i], events[i], maxAge)
  }

  /** The sweep at step `j` finds the pool with a total to recalculate from. */
  ghost predicate Refreshes(states: seq<Sweeper>, events: seq<Event>, j: int, p: string)
    requires |states| == |events| + 1 && 0 <= j < |events|
  {
    events[j].Sweep? && p in states[j].pools && SumOfLiquidity(states[j].pools[p].chains) != 0
  }

  /**
   The pools that the sweeps among the first `k` events find young enough and with
   liquidity, counted anew at every sweep.
   */
  ghost function UpdatesSeen(states: seq<Sweeper>, events: seq<Event>, k: nat, maxAge: int): int
    requires |states| == |events| + 1 && k <= |events|
  {
    if k == 0 then 0
    else if !events[k - 1].Sweep? then UpdatesSeen(states, events, k - 1, maxAge)
    else
      var pools, now := states[k - 1].pools, events[k - 1].now;
      UpdatesSeen(states, events, k - 1, maxAge) +
      |set p | p in pools && now - pools[p].lastUpdated <= maxAge * 1_000_000_000
               && SumOfLiquidity(pools[p].chains) != 0|
  }

  lemma RefreshCounts(pools: PoolMap, now: int, maxAge: int)
    ensures SumOver(pools, RefreshBit(now, maxAge)) ==
            |set p | p in pools && now - pools[p].lastUpdated <= maxAge * 1_000_000_000
               && SumOfLiquidity(pools[p].chains) != 0|
  {
    var refreshed := set p | p in pools && now - pools[p].lastUpdated <= maxAge * 1_000_000_000
                             && SumOfLiquidity(pools[p].chains) != 0;
    CountIsCardinality(pools, RefreshBit(now, maxAge), refreshed);
  }

  /** The update counter grows at each sweep by the pools refreshed there, and by nothing else. */
  lemma {:induction false} UpdatesCounted(states: seq<Sweeper>, events: seq<Event>, maxAge: int, k: nat)
    requires IsRun(states, events, maxAge) && k <= |events|
    ensures states[k].updates == states[0].updates + UpdatesSeen(states, events, k, maxAge)
  {
    if k > 0 {
      UpdatesCounted(states, events, maxAge, k - 1);
      if events[k - 1].Sweep? { RefreshCounts(states[k - 1].pools, events[k - 1].now, maxAge); }
    }
  }

  /** The reports last collected for a pool before step `j`, or `start` if there were none since step `i`. */
  function LastCollected(events: seq<Event>, p: string, i: nat, j: nat, start: Chains): Chains
    requires i <= j <= |events|
    decreases j
  {
    if j == i then start
    else if events[j - 1].Collect? && events[j - 1].poolID == p then events[j - 1].chains
    else LastCollected(events, p, i, j - 1, start)
  }

  /** No sweep changes a report: a pool that is still there holds those last collected. */
  lemma {:induction false} SweepsKeepReports(states: seq<Sweeper>, events: seq<Event>, maxAge: int, p: string, i: nat, k: nat)
    requires IsRun(states, events, maxAge) && i <= k <= |events|
    requires p in states[i].pools && p in states[k].pools && NotReplaced(events, p, i, k)
    ensures states[k].pools[p].chains == LastCollected(events, p, i, k, states[i].pools[p].chains)
    decreases k
  {
    if i < k {
      OneStep(states[k - 1], events[k - 1], p, maxAge);
      SweepsKeepReports(states, events, maxAge, p, i, k - 1);
    }
  }

  /** The stamp the pool should carry at step `j`: that of the last sweep from step `i` on that refreshed it. */
  ghost function LastStamp(states: seq<Sweeper>, events: seq<Event>, p: string, i: nat, j: nat, start: int): int
    requires |states| == |events| + 1 && i <= j <= |events|
    decreases j
  {
    if j == i then start
    else if Refreshes(states, events, j - 1, p) then events[j - 1].clock(p)
    else LastStamp(states, events, p, i, j - 1, start)
  }

  /** The pool is not registered again between two steps. */
  ghost predicate NotReplaced(events: seq<Event>, p: string, i: nat, k: nat)
    requires i <= k <= |events|
  {
    forall j :: i <= j < k && events[j].Register? ==> events[j].poolID != p
  }

  /** The sweep at step `j`, if it is one, comes in time for a stamp. */
  ghost predicate InTime(events: seq<Event>, j: int, stamp: int, maxAge: int)
    requires 0 <= j < |events|
  {
    events[j].Sweep? ==> events[j].now - stamp <= maxAge * 1_000_000_000
  }

  /** Every sweep from step `i` up to step `k` comes in time for the stamp the pool then carries. */
  ghost predicate AlwaysInTime(states: seq<Sweeper>, events: seq<Event>, p: string, i: nat, k: nat, start: int, maxAge: int)
    requires |states| == |events| + 1 && i <= k <= |events|
  {
    forall j :: i <= j < k ==> InTime(events, j, LastStamp(states, events, p, i, j, start), maxAge)
  }

  /** What one event does to one pool. */
  lemma OneStep(s: Sweeper, e: Event, p: string, maxAge: int)
    requires Enabled(s, e) && (e.Register? ==> e.poolID != p)
    ensures p in Next(s, e, maxAge).pools <==> p in s.pools && (e.Sweep? ==> !TooOld(s.pools[p], e.now, maxAge))
    ensures p in Next(s, e, maxAge).pools ==>
              Next(s, e, maxAge).pools[p].lastUpdated ==
              if e.Sweep? && SumOfLiquidity(s.pools[p].chains) != 0 then e.clock(p) else s.pools[p].lastUpdated
  {
  }

  /**
   Exactly when a pool survives: at each sweep it was no older, counted from the last sweep
   that refreshed it, than the limit. Its stamp is then the one that sweep gave it.
   */
  lemma {:induction false} SurvivalDecided(states: seq<Sweeper>, events: seq<Event>, maxAge: int, p: string, i: nat, k: nat)
    requires IsRun(states, events, maxAge) && i <= k <= |events|
    requires p in states[i].pools && NotReplaced(events, p, i, k)
    ensures var start := states[i].pools[p].lastUpdated;
            && (p in states[k].pools <==> AlwaysInTime(states, events, p, i, k, start, maxAge))
            && (p in states[k].pools ==> states[k].pools[p].lastUpdated == LastStamp(states, events, p, i, k, start))
    decreases k
  {
    if i < k {
      var start := states[i].pools[p].lastUpdated;
      SurvivalDecided(states, events, maxAge, p, i, k - 1);
      OneStep(states[k - 1], events[k - 1], p, maxAge);
      OneMoreInTime(states, events, p, i, k, start, maxAge);
    }
  }

  lemma OneMoreInTime(states: seq<Sweeper>, events: seq<Event>, p: string, i: nat, k: nat, start: int, maxAge: int)
    requires |states| == |events| + 1 && i < k <= |events|
    ensures AlwaysInTime(states, events, p, i, k, start, maxAge) <==>
            && AlwaysInTime(states, events, p, i, k - 1, start, maxAge)
            && InTime(events, k - 1, LastStamp(states, events, p, i, k - 1, start), maxAge)
  {
  }

  /** The time of the last sweep before step `j`, or `start` if there was none since step `i`. */
  ghost function LastSweep(events: seq<Event>, i: nat, j: nat, start: int): int
    requires i <= j <= |events|
    decreases j
  {
    if j == i then start
    else if events[j - 1].Sweep? then events[j - 1].now
    else LastSweep(events, i, j - 1, start)
  }

  /** If the sweep at step `j` finds the pool, it refreshes it, and reads the clock no earlier than at its start. */
  ghost predicate RefreshesIfSweep(states: seq<Sweeper>, events: seq<Event>, j: int, p: string)
    requires |states| == |events| + 1 && 0 <= j < |events|
  {
    events[j].Sweep? && p in states[j].pools ==>
      SumOfLiquidity(states[j].pools[p].chains) != 0 && events[j].clock(p) >= events[j].now
  }

  /**
   Every sweep from step `i` up to step `k` comes no later than the limit after the one
   before it, finds the pool with liquidity if it finds it, and stamps it after it started.
   */
  ghost predicate RegularlySwept(states: seq<Sweeper>, events: seq<Event>, p: string, i: nat, k: nat, start: int, maxAge: int)
    requires |states| == |events| + 1 && i <= k <= |events|
    decreases k
  {
    i == k ||
    (&& RegularlySwept(states, events, p, i, k - 1, start, maxAge)
     && InTime(events, k - 1, LastSweep(events, i, k - 1, start), maxAge)
     && RefreshesIfSweep(states, events, k - 1, p))
  }

  lemma {:induction false} RegularSweeps(states: seq<Sweeper>, events: seq<Event>, maxAge: int, p: string, i: nat, k: nat, start: int)
    requires IsRun(states, events, maxAge) && i <= k <= |events|
    requires p in states[i].pools && start == states[i].pools[p].lastUpdated && NotReplaced(events, p, i, k)
    requires RegularlySwept(states, events, p, i, k, start, maxAge)
    ensures p in states[k].pools && states[k].pools[p].lastUpdated >= LastSweep(events, i, k, start)
    decreases k
  {
    if i < k {
      RegularSweeps(states, events, maxAge, p, i, k - 1, start);
      RegularStep(states[k - 1], events[k - 1], p, maxAge, LastSweep(events, i, k - 1, start));
    }
  }

  lemma RegularStep(s: Sweeper, e: Event, p: string, maxAge: int, last: int)
    requires Enabled(s, e) && (e.Register? ==> e.poolID != p)
    requires p in s.pools && s.pools[p].lastUpdated >= last
    requires e.Sweep? ==> e.now - last <= maxAge * 1_000_000_000
    requires e.Sweep? ==> SumOfLiquidity(s.pools[p].chains) != 0 && e.clock(p) >= e.now
    ensures p in Next(s, e, maxAge).pools
    ensures Next(s, e, maxAge).pools[p].lastUpdated >= if e.Sweep? then e.now else last
  {
    OneStep(s, e, p, maxAge);
  }

  /**
   A pool with liquidity at every sweep, swept at times no further apart than the limit, is
   never evicted.
   */
  lemma RegularSweepsKeepPool(states: seq<Sweeper>, events: seq<Event>, maxAge: int, p: string, i: nat, k: nat)
    requires IsRun(states, events, maxAge) && i <= k <= |events|
    requires p in states[i].pools && NotReplaced(events, p, i, k)
    requires RegularlySwept(states, events, p, i, k, states[i].pools[p].lastUpdated, maxAge)
    ensures p in states[k].pools
  {
    RegularSweeps(states, events, maxAge, p, i, k, states[i].pools[p].lastUpdated);
  }

  /**
   A pool that no sweep can recalculate is gone from the first sweep on that comes later
   than the limit after its last update, and there until then.
   */
  lemma FailingPoolIsEvicted(states: seq<Sweeper>, events: seq<Event>, maxAge: int, p: string, i: nat, k: nat)
    requires IsRun(states, events, maxAge) && i <= k <= |events|
    requires p in states[i].pools && NotReplaced(events, p, i, k)
    requires forall j :: i <= j < k ==> !Refreshes(states, events, j, p)
    ensures p in states[k].pools <==>
            forall j :: i <= j < k ==> InTime(events, j, states[i].pools[p].lastUpdated, maxAge)
  {
    var start := states[i].pools[p].lastUpdated;
    SurvivalDecided(states, events, maxAge, p, i, k);
    forall j | i <= j < k
      ensures InTime(events, j, LastStamp(states, events, p, i, j, start), maxAge) <==> InTime(events, j, start, maxAge)
    {
      StampStays(states, events, p, i, j, start);
    }
  }

  lemma {:induction false} StampStays(states: seq<Sweeper>, events: seq<Event>, p: string, i: nat, j: nat, start: int)
    requires |states| == |events| + 1 && i <= j <= |events|
    requires forall s :: i <= s < j ==> !Refreshes(states, events, s, p)
    ensures LastStamp(states, events, p, i, j, start) == start
    decreases j
  {
    if i < j {
      StampStays(states, events, p, i, j - 1, start);
    }
  }
}
