/** How far reports that pass the validator can move the state they are then stored in. */
module AcceptedReports {
  import opened Arithmetic
  import opened Basics
  import opened Folds
  import opened Pools
  import opened UpdateRuns
  import opened Validator

  /** Adding weight `w` at price `p` moves a floored mean towards `p` and not past it. */
  lemma MeanMovesTowards(sum: int, total: int, p: int, w: int)
    requires total > 0 && w >= 0
    ensures Min(sum / total, p) <= (sum + p * w) / (total + w) <= Max(sum / total, p)
  {
    var a := sum / total;
    var lo, hi := Min(a, p), Max(a, p);
    QuotientAtLeast(sum, total, a);
    QuotientAtLeast(sum, total, a + 1);
    ProductMonotone(lo, a, total);
    ProductMonotone(a + 1, hi + 1, total);
    ProductMonotone(lo, p, w);
    ProductMonotone(p, hi + 1, w);
    Distribute(lo, total, w);
    Distribute(hi + 1, total, w);
    QuotientAtLeast(sum + p * w, total + w, lo);
    QuotientAtLeast(sum + p * w, total + w, hi + 1);
  }

  /** The weighted mean of a pool that a chain joins. */
  lemma MeanWithNewChain(chains: Chains, c: uint32, report: PoolState)
    requires c !in chains && SumOfLiquidity(chains) > 0 && report.totalLiquidity >= 0
    ensures SumOfLiquidity(chains[c := report]) > 0
    ensures Min(WeightedMean(chains), report.price) <= WeightedMean(chains[c := report])
              <= Max(WeightedMean(chains), report.price)
  {
    SumOverUpdate(chains, Liquidity, c, report);
    SumOverUpdate(chains, WeightedPrice, c, report);
    MeanMovesTowards(SumOver(chains, WeightedPrice), SumOfLiquidity(chains), report.price, report.totalLiquidity);
  }

  /**
   A report from a chain not yet present moves the average no further than to its own
   price; if it was accepted against a non-zero average, by at most the allowed deviation.
   */
  lemma NewChainMovesAverageBoundedly(pools: PoolMap, u: Update, criteria: ValidationCriteria, now: uint64)
    requires u.poolID in pools && Coherent(pools[u.poolID]) && SumOfLiquidity(pools[u.poolID].chains) > 0
    requires u.chainID !in pools[u.poolID].chains && u.report.totalLiquidity >= 0
    requires Accepts(u.report, pools[u.poolID], criteria, now)
    ensures var before, after := pools[u.poolID].metrics, AfterUpdate(pools, u)[u.poolID].metrics;
            && before.averagePrice.Some? && after.averagePrice.Some?
            && Min(before.averagePrice.value, u.report.price) <= after.averagePrice.value
                 <= Max(before.averagePrice.value, u.report.price)
            && (before.averagePrice.value != 0 ==>
                  Abs(after.averagePrice.value - before.averagePrice.value) <= criteria.maxPriceDeviation)
  {
    MeanWithNewChain(pools[u.poolID].chains, u.chainID, u.Stored());
  }

  /** A report from a chain already present moves the total by at most the allowed change. */
  lemma PresentChainMovesTotalBoundedly(pools: PoolMap, u: Update, criteria: ValidationCriteria, now: uint64)
    requires AllCoherent(pools) && u.poolID in pools
    requires u.chainID == u.report.chainID && u.chainID in pools[u.poolID].chains
    requires Accepts(u.report, pools[u.poolID], criteria, now)
    ensures Abs(CachedTotal(AfterUpdate(pools, u), u.poolID) - CachedTotal(pools, u.poolID)) <= criteria.maxLiquidityChange
  {
    TotalIsConserved(pools, u);
  }

  // ---- Runs of accepted reports

  /** The states a run of calls goes through, one more than there are calls. */
  ghost predicate IsTrace(trace: seq<PoolMap>, run: seq<Update>) {
    && |trace| == |run| + 1
    && forall i :: 0 <= i < |run| ==> trace[i + 1] == AfterUpdate(trace[i], run[i])
  }

  /** Every report comes from a known chain and passes the validator on the state it meets. */
  ghost predicate AllAccepted(trace: seq<PoolMap>, run: seq<Update>, criteria: ValidationCriteria, clock: seq<uint64>)
    requires |trace| == |run| + 1 && |clock| == |run|
  {
    forall i :: 0 <= i < |run| ==> AcceptedFromKnownChain(trace[i], run[i], criteria, clock[i])
  }

  ghost predicate AcceptedFromKnownChain(pools: PoolMap, u: Update, criteria: ValidationCriteria, now: uint64) {
    && u.poolID in pools
    && u.chainID == u.report.chainID && u.chainID in pools[u.poolID].chains
    && Accepts(u.report, pools[u.poolID], criteria, now)
  }

  /** How many of the first `k` calls are about the pool. */
  function CallsAbout(run: seq<Update>, k: nat, p: string): nat
    requires k <= |run|
  {
    if k == 0 then 0 else CallsAbout(run, k - 1, p) + if run[k - 1].poolID == p then 1 else 0
  }

  /** One accepted report from a known chain, seen from any pool. */
  lemma OneStepDrift(pools: PoolMap, u: Update, criteria: ValidationCriteria, now: uint64, p: string)
    requires AllCoherent(pools) && p in pools
    requires AcceptedFromKnownChain(pools, u, criteria, now)
    ensures AllCoherent(AfterUpdate(pools, u)) && p in AfterUpdate(pools, u)
    ensures Abs(CachedTotal(AfterUpdate(pools, u), p) - CachedTotal(pools, p))
              <= if u.poolID == p then criteria.maxLiquidityChange else 0
  {
    UpdateKeepsCoherence(pools, u);
    PresentChainMovesTotalBoundedly(pools, u, criteria, now);
    OtherPoolsAreUntouched(pools, u);
  }

  /** The allowed change, added once for each of the first `k` calls about the pool. */
  function Allowance(run: seq<Update>, k: nat, p: string, limit: int): int
    requires k <= |run|
  {
    if k == 0 then 0 else Allowance(run, k - 1, p, limit) + if run[k - 1].poolID == p then limit else 0
  }

  lemma {:induction false} AllowancePerCall(run: seq<Update>, k: nat, p: string, limit: int)
    requires k <= |run|
    ensures Allowance(run, k, p, limit) == CallsAbout(run, k, p) * limit
  {
    if k > 0 {
      AllowancePerCall(run, k - 1, p, limit);
      Distribute(limit, CallsAbout(run, k - 1, p), 1);
    }
  }

  lemma {:induction false} DriftWithinAllowance(trace: seq<PoolMap>, run: seq<Update>, criteria: ValidationCriteria,
                                                clock: seq<uint64>, p: string, k: nat)
    requires IsTrace(trace, run) && |clock| == |run| && AllAccepted(trace, run, criteria, clock)
    requires AllCoherent(trace[0]) && p in trace[0] && k <= |run|
    ensures AllCoherent(trace[k]) && p in trace[k]
    ensures Abs(CachedTotal(trace[k], p) - CachedTotal(trace[0], p)) <= Allowance(run, k, p, criteria.maxLiquidityChange)
  {
    if k > 0 {
      DriftWithinAllowance(trace, run, criteria, clock, p, k - 1);
      OneStepDrift(trace[k - 1], run[k - 1], criteria, clock[k - 1], p);
    }
  }

  /**
   Over a whole run of accepted reports from known chains, to any pools in any order, the
   total of a pool drifts by at most the allowed change for each report about it.
   */
  lemma TotalDrift(trace: seq<PoolMap>, run: seq<Update>, criteria: ValidationCriteria, clock: seq<uint64>, p: string)
    requires IsTrace(trace, run) && |clock| == |run| && AllAccepted(trace, run, criteria, clock)
    requires AllCoherent(trace[0]) && p in trace[0]
    ensures Abs(CachedTotal(trace[|run|], p) - CachedTotal(trace[0], p))
              <= CallsAbout(run, |run|, p) * criteria.maxLiquidityChange
  {
    DriftWithinAllowance(trace, run, criteria, clock, p, |run|);
    AllowancePerCall(run, |run|, p, criteria.maxLiquidityChange);
  }

  /** A report with a positive price from a chain that joins the pool, and passes the validator. */
  ghost predicate AcceptedFromNewChain(pool: Pool, u: Update, criteria: ValidationCriteria, now: uint64) {
    && u.chainID !in pool.chains
    && u.report.totalLiquidity >= 0 && u.report.price > 0
    && Accepts(u.report, pool, criteria, now)
  }

  /** A coherent pool with liquidity and a positive average. */
  ghost predicate Priced(pools: PoolMap, p: string) {
    && p in pools && Coherent(pools[p])
    && SumOfLiquidity(pools[p].chains) > 0
    && pools[p].metrics.averagePrice.value > 0
  }

  lemma OneStepAverageDrift(pools: PoolMap, u: Update, criteria: ValidationCriteria, now: uint64, p: string)
    requires Priced(pools, p)
    requires u.poolID == p ==> AcceptedFromNewChain(pools[p], u, criteria, now)
    ensures Priced(AfterUpdate(pools, u), p)
    ensures Abs(AfterUpdate(pools, u)[p].metrics.averagePrice.value - pools[p].metrics.averagePrice.value)
              <= if u.poolID == p then criteria.maxPriceDeviation else 0
  {
    if u.poolID == p {
      MeanWithNewChain(pools[p].chains, u.chainID, u.Stored());
      NewChainMovesAverageBoundedly(pools, u, criteria, now);
    } else {
      OtherPoolsAreUntouched(pools, u);
    }
  }

  lemma {:induction false} AverageWithinAllowance(trace: seq<PoolMap>, run: seq<Update>, criteria: ValidationCriteria,
                                                  clock: seq<uint64>, p: string, k: nat)
    requires IsTrace(trace, run) && |clock| == |run| && k <= |run| && Priced(trace[0], p)
    requires forall i :: 0 <= i < |run| && run[i].poolID == p && p in trace[i] ==>
                AcceptedFromNewChain(trace[i][p], run[i], criteria, clock[i])
    ensures Priced(trace[k], p)
    ensures Abs(trace[k][p].metrics.averagePrice.value - trace[0][p].metrics.averagePrice.value)
              <= Allowance(run, k, p, criteria.maxPriceDeviation)
  {
    if k > 0 {
      AverageWithinAllowance(trace, run, criteria, clock, p, k - 1);
      OneStepAverageDrift(trace[k - 1], run[k - 1], criteria, clock[k - 1], p);
    }
  }

  /**
   As chains join a pool through accepted reports, whatever happens to other pools in
   between, its average drifts by at most the allowed deviation for each of them.
   */
  lemma AverageDrift(trace: seq<PoolMap>, run: seq<Update>, criteria: ValidationCriteria, clock: seq<uint64>, p: string)
    requires IsTrace(trace, run) && |clock| == |run| && Priced(trace[0], p)
    requires forall i :: 0 <= i < |run| && run[i].poolID == p && p in trace[i] ==>
                AcceptedFromNewChain(trace[i][p], run[i], criteria, clock[i])
    ensures Priced(trace[|run|], p)
    ensures Abs(trace[|run|][p].metrics.averagePrice.value - trace[0][p].metrics.averagePrice.value)
              <= CallsAbout(run, |run|, p) * criteria.maxPriceDeviation
  {
    AverageWithinAllowance(trace, run, criteria, clock, p, |run|);
    AllowancePerCall(run, |run|, p, criteria.maxPriceDeviation);
  }

  // ---- When a report from a known chain keeps the average in bounds

  /**
   The condition for a mean `a` to move by at most `d`, in numbers known before the call:
   liquidity `r` and weighted prices `wr` of the other chains, and the liquidity `l` and
   price `p` reported.
   */
  predicate KeepsAverage(a: int, d: int, r: int, wr: int, l: int, p: int) {
    && (a - d) * r - wr <= (p - (a - d)) * l
    && wr - (a + d + 1) * r < (a + d + 1 - p) * l
  }

  lemma MeanStaysWithin(a: int, d: int, r: int, wr: int, l: int, p: int)
    requires r + l > 0
    ensures Abs((wr + p * l) / (r + l) - a) <= d <==> KeepsAverage(a, d, r, wr, l, p)
  {
    var lo, hi := a - d, a + d + 1;
    QuotientAtLeast(wr + p * l, r + l, lo);
    QuotientAtLeast(wr + p * l, r + l, hi);
    Distribute(lo, r, l);
    Distribute(hi, r, l);
    Distribute(l, p - lo, lo);
    Distribute(l, hi - p, p);
  }

  /**
   Exactly when a report moves the average by at most `d`, for a known chain as for a new
   one: the condition holds, or the pool is left without liquidity, when the call fails and
   the average stays.
   */
  lemma AverageBoundDecided(pools: PoolMap, u: Update, d: int)
    requires u.poolID in pools && Coherent(pools[u.poolID]) && SumOfLiquidity(pools[u.poolID].chains) > 0
    requires SumOfLiquidity(pools[u.poolID].chains - {u.chainID}) + u.report.totalLiquidity >= 0
    ensures var before, after := pools[u.poolID].metrics.averagePrice, AfterUpdate(pools, u)[u.poolID].metrics.averagePrice;
            var rest := pools[u.poolID].chains - {u.chainID};
            var r, wr := SumOfLiquidity(rest), SumOver(rest, WeightedPrice);
            && before.Some? && after.Some?
            && (r + u.report.totalLiquidity == 0 ==> !Succeeds(pools, u) && after == before)
            && (r + u.report.totalLiquidity > 0 ==>
                  && Succeeds(pools, u)
                  && (Abs(after.value - before.value) <= d <==>
                      KeepsAverage(before.value, d, r, wr, u.report.totalLiquidity, u.report.price)))
  {
    var rest := pools[u.poolID].chains - {u.chainID};
    var chains := pools[u.poolID].chains[u.chainID := u.Stored()];
    assert chains - {u.chainID} == rest;
    SumOverRemove(chains, Liquidity, u.chainID);
    SumOverRemove(chains, WeightedPrice, u.chainID);
    if SumOfLiquidity(chains) > 0 {
      MeanStaysWithin(WeightedMean(pools[u.poolID].chains), d, SumOfLiquidity(rest), SumOver(rest, WeightedPrice),
                      u.report.totalLiquidity, u.report.price);
    }
  }

  /** For a price within `d` of the average, more reported liquidity never breaks the condition. */
  lemma MoreLiquidityKeepsAverage(a: int, d: int, r: int, wr: int, l: int, more: int, p: int)
    requires Abs(p - a) <= d && l <= more && KeepsAverage(a, d, r, wr, l, p)
    ensures KeepsAverage(a, d, r, wr, more, p)
  {
    ProductMonotone(l, more, p - (a - d));
    ProductMonotone(l, more, a + d + 1 - p);
  }

  /**
   With such a price, every liquidity a chain may report keeps the average in bounds exactly
   when the mean of the other chains is itself in bounds.
   */
  lemma OtherChainsDecide(a: int, d: int, r: int, wr: int, p: int)
    requires Abs(p - a) <= d && r > 0
    ensures (forall l: nat :: KeepsAverage(a, d, r, wr, l, p)) <==> Abs(wr / r - a) <= d
  {
    MeanStaysWithin(a, d, r, wr, 0, p);
    assert KeepsAverage(a, d, r, wr, 0, p) <==> Abs(wr / r - a) <= d;
    if KeepsAverage(a, d, r, wr, 0, p) {
      forall l: nat ensures KeepsAverage(a, d, r, wr, l, p) {
        MoreLiquidityKeepsAverage(a, d, r, wr, 0, l, p);
      }
    }
  }

  lemma NoLiquidityNoWeight(chains: Chains)
    requires NonNegative(chains) && SumOfLiquidity(chains) == 0
    ensures SumOver(chains, WeightedPrice) == 0
  {
    var zero := (s: PoolState) => 0;
    SumOverConstant(chains, zero, 0);
    SumOverMonotone(chains, zero, Liquidity);
    assert forall c :: c in chains ==> chains[c].totalLiquidity == 0;
    SumOverConstant(chains, WeightedPrice, 0);
  }

  /**
   An accepted report from a known chain moves a non-zero average by at most the allowed
   deviation whenever the other chains hold no liquidity or have a mean within it.
   */
  lemma KnownChainMovesAverageBoundedly(pools: PoolMap, u: Update, criteria: ValidationCriteria, now: uint64)
    requires u.poolID in pools && Coherent(pools[u.poolID]) && SumOfLiquidity(pools[u.poolID].chains) > 0
    requires NonNegative(pools[u.poolID].chains) && u.report.totalLiquidity >= 0
    requires Accepts(u.report, pools[u.poolID], criteria, now) && pools[u.poolID].metrics.averagePrice.value != 0
    requires var rest := pools[u.poolID].chains - {u.chainID};
             SumOfLiquidity(rest) == 0 ||
             Abs(WeightedMean(rest) - pools[u.poolID].metrics.averagePrice.value) <= criteria.maxPriceDeviation
    ensures var before, after := pools[u.poolID].metrics.averagePrice, AfterUpdate(pools, u)[u.poolID].metrics.averagePrice;
            after.Some? && Abs(after.value - before.value) <= criteria.maxPriceDeviation
  {
    var rest := pools[u.poolID].chains - {u.chainID};
    var r, wr := SumOfLiquidity(rest), SumOver(rest, WeightedPrice);
    var a, d := pools[u.poolID].metrics.averagePrice.value, criteria.maxPriceDeviation;
    LiquidityNonNegative(rest);
    AverageBoundDecided(pools, u, d);
    if r > 0 {
      OtherChainsDecide(a, d, r, wr, u.report.price);
    } else {
      NoLiquidityNoWeight(rest);
      NoOtherLiquidity(a, d, u.report.totalLiquidity, u.report.price);
    }
  }

  lemma NoOtherLiquidity(a: int, d: int, l: nat, p: int)
    requires Abs(p - a) <= d
    ensures l > 0 ==> KeepsAverage(a, d, 0, 0, l, p)
  {
    ProductSign(p - (a - d), l);
    ProductMonotone(0, a + d + 1 - p, l);
  }

  /** The weighted mean of two chains. */
  lemma MeanOfTwo(chains: Chains, a: PoolState, b: PoolState)
    requires chains == map[1 := a, 2 := b]
    ensures SumOfLiquidity(chains) == a.totalLiquidity + b.totalLiquidity
    ensures SumOfLiquidity(chains) != 0 ==>
              WeightedMean(chains) ==
              (a.price * a.totalLiquidity + b.price * b.totalLiquidity) / (a.totalLiquidity + b.totalLiquidity)
  {
    SumOfTwo(chains, Liquidity, 1, 2);
    SumOfTwo(chains, WeightedPrice, 1, 2);
  }

  lemma DrainedPool(before: Chains, after: Chains, older: PoolState, other: PoolState, newer: PoolState)
    requires older.price == 100_000_000_000_000_000_000 && older.totalLiquidity == 1_000_000_000_000_000_000_000
    requires other.price == 0 && other.totalLiquidity == 1
    requires newer.price == older.price && newer.totalLiquidity == 0
    requires before == map[1 := older, 2 := other] && after == map[1 := newer, 2 := other]
    ensures SumOfLiquidity(before) > 0 && WeightedMean(before) == 99_999_999_999_999_999_999
    ensures SumOfLiquidity(after) == 1 && WeightedMean(after) == 0
  {
    MeanOfTwo(before, older, other);
    MeanOfTwo(after, newer, other);
  }

  /**
   The condition can fail: under the default criteria a chain that held nearly all
   liquidity may report none of it, and the average drops from almost 100 tokens to nothing.
   */
  lemma PresentChainMayMoveAverageFurther(pools: PoolMap, u: Update, older: PoolState, other: PoolState, now: uint64)
    requires older.price == 100_000_000_000_000_000_000 && older.totalLiquidity == 1_000_000_000_000_000_000_000
    requires other.price == 0 && other.totalLiquidity == 1
    requires u.poolID in pools && Coherent(pools[u.poolID]) && pools[u.poolID].chains == map[1 := older, 2 := other]
    requires u.chainID == u.report.chainID == 1 && u.report.timestamp == now
    requires u.report.price == older.price && u.report.totalLiquidity == 0
    ensures Accepts(u.report, pools[u.poolID], DefaultValidationCriteria(), now)
    ensures pools[u.poolID].metrics.averagePrice == Some(99_999_999_999_999_999_999)
    ensures AfterUpdate(pools, u)[u.poolID].metrics.averagePrice == Some(0)
  {
    var before, newer := pools[u.poolID].chains, u.Stored();
    assert before[1 := newer] == map[1 := newer, 2 := other];
    DrainedPool(before, before[1 := newer], older, other, newer);
  }
}
