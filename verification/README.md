# Verification of the SyncHook AVS state services

A Dafny model of the off-chain state kept by the SyncHook AVS: the cross-chain aggregator and
its cached metrics, the predictor that extrapolates from them, the validator that admits
reports, the aggregator service's task and pool ticks, and the alert manager. Objects that the
program updates in place are classes here, proved against functions on their values; the
properties of whole runs are proved about those functions.

| file | content |
|---|---|
| `Basics`, `Arithmetic`, `RealArithmetic`, `Folds` | machine integers and outcomes, facts about products and quotients, sums over maps that no visiting order changes |
| `Sqrt`, `PriceStats`, `Imbalance` | the bisection root, price statistics and dispersion, liquidity imbalance |
| `Pools`, `Listings`, `GlobalPools` | pool values and the from-scratch metrics; the same statistics along a list of reports; the mutable record and its recalculation |
| `UpdateRuns`, `StateAggregator` | every run of updates; the aggregator object |
| `Predictor`, `PredictorTheorems` | the predictor and what it guarantees |
| `Validator`, `AcceptedReports` | the acceptance test; how far accepted reports can move the state |
| `TaskRuns`, `TaskProcessor` | the task machine over whole runs; its tick |
| `SweepRuns`, `PoolSweeper`, `RebalancingRuns` | ageing and refreshing over whole runs; the sweep and the rebalancing check; what the check decides between sweeps |
| `AlertRuns`, `AlertManager` | alerts over every interleaving; the manager object |

Conventions. `big.Int` is `int`, and its `Div` is Dafny's Euclidean `/`; `uint64` arithmetic
wraps explicitly; `float64` values are `real`. A nil `*big.Int` is `None`, and a nil
dereference or a division by zero is the outcome `Panicked`. A loop over a Go map picks its
next key nondeterministically. A method that holds a mutex is one atomic step. Every clock
reading is a parameter. Log and error texts are reduced to the data in them.

Where code and documentation differ, the model follows the code:

- `AVS/config/aggregator.yaml:34` calls a rebalancing threshold of 0.05 "5%". The code compares
  it with a whole percentage, so it triggers at 1% (`PredictorTheorems.FractionActsAsOnePercent`).
- `QuorumThresholdPercentage` is named as a percentage but compared with a number of responses
  (`AVS/aggregator/aggregator.go:263`, `:283`).
- A completed task is failed, and counted again at every tick, once its deadline has passed
  (`TaskRuns.CompletedThenFailed`, `TaskRuns.FailedCountsExpiries`).
- In the first seven days of the clock the cleanup cutoff wraps (`AlertRuns.CleanupWrapsAtFirst`).

## Model

| member | source | states |
|---|---|---|
| `GlobalPools.CollectPrices` | AVS/pkg/state/aggregator.go:228-232 | Collecting prices from a map, in whatever order it yields them, lists the price of every chain exactly once |
| `GlobalPools.GlobalPoolState.constructor` | AVS/pkg/state/aggregator.go:71-74 | A new record holds no reports and nil metrics |
| `GlobalPools.GlobalPoolState.Accept` | AVS/pkg/state/aggregator.go:79-86 | The report is stored and the pool touched even when the recalculation then fails; it fails exactly when the liquidities add up to zero |
| `GlobalPools.GlobalPoolState.Recalculate` | AVS/pkg/state/aggregator.go:157-190 | In place, whatever the map order: with a non-zero total every cached field becomes its from-scratch value; with a zero total only the total is refreshed; without reports nothing changes |
| `GlobalPools.GlobalPoolState.CalculateWeightedAveragePrice` | AVS/pkg/state/aggregator.go:192-219 | Stores the floor of the liquidity-weighted mean, or leaves the average alone and fails when the weights add up to zero |
| `GlobalPools.GlobalPoolState.CalculateImbalanceScore` | AVS/pkg/state/aggregator.go:221-252 | Stores the floor root of the floored variance of the prices about the stored average, 0 for a single chain |
| `GlobalPools.FindLatestBlock` | AVS/pkg/state/aggregator.go:181-187 | Finds the largest block number reported, whatever the map order |
| `Folds.SumAlong` | AVS/pkg/state/aggregator.go:165-167 | Every order of visiting a map's keys accumulates the same sum |
| `Pools.ListingTotals` | AVS/pkg/state/aggregator.go:228-243 | Count, sum, squared deviations and number above a mean of a price listing do not depend on its order |
| `Listings.EveryPoolHasAListing` | AVS/pkg/state/aggregator.go:165-167 | The reports of every pool can be written out in a list, so the statements over listings are about every pool |
| `Listings.SumsOfListing` | AVS/pkg/state/aggregator.go:157-219 | Liquidity, price times liquidity, price, volume and fees summed over the map equal the sums of the report fields along any listing |
| `Listings.DistancesOfListing` | AVS/pkg/state/aggregator.go:237-243 | So do squared price distances, prices above a centre, and liquidity distances from a share |
| `Listings.MetricsOfListing` | AVS/pkg/state/aggregator.go:157-190 | What a recalculation stores, whatever its visiting orders: the total, the floored liquidity-weighted mean, the floor root of the mean squared distance from it (0 for one chain), and the largest block number, in the fields of any listing of the reports |
| `Listings.DeviationOfListing` | AVS/pkg/state/predictor.go:337-357 | The deviation is 0 below two chains and otherwise the sum of the distances of the liquidities from floor(T/n) |
| `StateAggregator.Aggregator.UpdatePoolState` | AVS/pkg/state/aggregator.go:57-97 | The whole map of pools moves by exactly one step of the run model, coherence is kept whether the call succeeds or fails, and it fails exactly when the pool's liquidities add up to zero; no other record is replaced |
| `StateAggregator.Aggregator.GetOrCreate` | AVS/pkg/state/aggregator.go:68-76 | Finds the pool's record or creates an empty one, without sharing records between pools |
| `StateAggregator.Aggregator.CalculateAggregatedMetrics` | AVS/pkg/state/aggregator.go:124-155 | Reports variance, imbalance percentage, volume and fees of a coherent pool; the program stops (nil or zero division) exactly when two or more chains together hold no liquidity |
| `StateAggregator.AddSquaredDeviations` | AVS/pkg/state/aggregator.go:262-267 | The variance loop over the map adds up the squared deviations in any order |
| `StateAggregator.AddVolumeAndFees` | AVS/pkg/state/aggregator.go:304-320 | Volumes and fees are summed over all chains in any order |
| `StateAggregator.ReportAgreesWithCache` | AVS/pkg/state/aggregator.go:221-302 | Score and variance come from different calls, yet score^2 <= variance < (score+1)^2; the reported imbalance is a percentage from 0 to 199 |
| `StateAggregator.ReportFromListing` | AVS/pkg/state/aggregator.go:124-155 | Every number of a returned report in the fields of any listing: total, average, mean squared distance from it, imbalance percentage, volume, fees and number of chains |
| `StateAggregator.VolumeAndFeesMove` | AVS/pkg/state/aggregator.go:304-320 | One call moves the reported 24h volume and fees by what the new report says minus what the chain's previous one said |
| `UpdateRuns.UpdateKeepsCoherence` | AVS/pkg/state/aggregator.go:68-86 | Any call, failed or not, leaves every pool's cache coherent |
| `UpdateRuns.EveryRunIsCoherent` | AVS/pkg/state/aggregator.go:57-97 | After any sequence of calls every pool's total is the sum over its reports, and with a non-zero total all other fields equal a recomputation from scratch |
| `UpdateRuns.ReportsAreTheLastOnes` | AVS/pkg/state/aggregator.go:80 | After any run a pool holds, for each chain some call was about, the report of the last such call, whole but for the time of its arrival, and nothing for other chains |
| `UpdateRuns.PoolsAreTouchedLast` | AVS/pkg/state/aggregator.go:68-81 | A pool is known exactly if some call was about it, and carries the second clock reading of the last such call |
| `UpdateRuns.MetricsFromListing` | AVS/pkg/state/aggregator.go:157-190 | After any run the cached total is that of the last reports and, unless it is 0, so are average, score and latest block, all in the fields of any listing of them |
| `UpdateRuns.LatestBlockOfEveryRun` | AVS/pkg/state/aggregator.go:181-187 | While the total is not 0, the cached block number is the largest among the last reports of all chains as handed over |
| `UpdateRuns.UpdateFailsWithoutLiquidity` | AVS/pkg/state/aggregator.go:84-86 | A call fails exactly when the liquidities it leaves in its pool add up to 0 |
| `UpdateRuns.MetricsOfEveryRun` | AVS/pkg/state/aggregator.go:157-190 | What every field holds after any run: the current total, and for the others the values of the last call that did not fail, or nil if none has |
| `UpdateRuns.TotalIsConserved` | AVS/pkg/state/aggregator.go:68-86 | Every call moves its pool's total by exactly the new minus the previous liquidity of that chain (0 if absent) |
| `UpdateRuns.OtherPoolsAreUntouched` | AVS/pkg/state/aggregator.go:68-76 | A call changes no other pool and adds at most its own |
| `UpdateRuns.OtherChainsAreUntouched` | AVS/pkg/state/aggregator.go:79-81 | A call changes no other chain's report in its pool and puts the whole new one in place of its own |
| `Pools.MeanWithin` | AVS/pkg/state/aggregator.go:192-219 | With non-negative weights the average lies between any bounds on the chain prices |
| `Pools.VarianceWithin` | AVS/pkg/state/aggregator.go:237-249 | Prices within d of a centre have variance at most d^2 and score at most d about it |
| `Pools.StatisticsInsideTheData` | AVS/pkg/state/aggregator.go:192-252 | Average and score stay inside the range of the prices: min <= average <= max and score <= max - min |
| `Sqrt.FloorSqrt` | AVS/pkg/state/aggregator.go:322-347 | Returns exactly the floor square root, 0 for n <= 0, in at most as many rounds as n+1 has binary digits |
| `Sqrt.IsqrtUnique` | AVS/pkg/state/predictor.go:476-500 | Only one number satisfies the defining inequalities of the floor root, so all three copies of the search agree |
| `PriceStats.AddUp` | AVS/pkg/state/predictor.go:178-181 | The loop over the prices computes their sum |
| `PriceStats.AddSquares` | AVS/pkg/state/predictor.go:185-190 | The loop over the prices computes the sum of squared differences to the mean |
| `PriceStats.CountAbove` | AVS/pkg/state/predictor.go:209-214 | The loop counts the prices strictly above the mean |
| `PriceStats.FloorMeanNearlyBest` | AVS/pkg/state/predictor.go:177-191 | Squared deviations about the floor mean exceed those about any other integer by at most n-2 |
| `PriceStats.DeviationsAgreeUpToOne` | AVS/pkg/state/predictor.go:177-194 | A standard deviation about the floor mean exceeds one about any integer centre by at most 1 |
| `PriceStats.DeviationsMayDifferByOne` | AVS/pkg/state/predictor.go:177-194 | Four concrete prices for which the difference of 1 is reached |
| `PriceStats.NotAllAboveMean` | AVS/pkg/state/predictor.go:208-216 | Of any n prices at most n-1 exceed the floor of their mean |
| `Pools.DispersionMeasuresAgree` | AVS/pkg/state/aggregator.go:235-249 | The predictor's standard deviation never exceeds the aggregator's score for the same pool by more than 1, though one uses the plain and the other the weighted mean |
| `Imbalance.AddDeviations` | AVS/pkg/state/predictor.go:346-354 | The loop adds up the distances of the chains from the expected share, in any order |
| `Imbalance.DeviationIsTwiceShortfallPlusRemainder` | AVS/pkg/state/predictor.go:337-357 | The total deviation is twice the shortfall below floor(T/n) plus T mod n |
| `Imbalance.DeviationBounds` | AVS/aggregator/aggregator.go:435-453 | With non-negative liquidities and T > 0 the deviation is at least 0 and strictly below 2T |
| `Imbalance.PercentBounds` | AVS/pkg/state/predictor.go:365-375 | The percentage lies between 0 and 199 and its 64-bit reading loses nothing |
| `Basics.Int64Exact` | AVS/pkg/state/predictor.go:374 | The 64-bit reading keeps the value modulo 2^64 and is exact precisely on the signed 64-bit range |
| `Predictor.CalculateTrendDirection` | AVS/pkg/state/predictor.go:172-224 | Direction and strength are those determined by count, floor mean, deviation and number above the mean of the listing |
| `Predictor.CalculateTrendConfidence` | AVS/pkg/state/predictor.go:226-260 | The confidence is determined by order-free statistics of the chains, 0 below two chains |
| `Predictor.AnalyzeTrend` | AVS/pkg/state/predictor.go:139-170 | The trend is a function of the set of reports alone, although prices are collected twice in unrelated orders |
| `Predictor.PredictPoolState` | AVS/pkg/state/predictor.go:44-96 | Price, liquidity, confidence, horizon and time stamp predicted for a pool, with the errors for a zero price or liquidity and the nil dereferences |
| `Predictor.PredictRebalancingNeed` | AVS/pkg/state/predictor.go:98-137 | Need is reported exactly when the percentage exceeds the threshold, with an amount exactly then; only a nil total stops the program; `NeedDecided` says the same in the fields of the reports |
| `PredictorTheorems.TrendIgnoresOrder` | AVS/pkg/state/predictor.go:149-162 | Reading the prices in any order gives the same direction, strength and confidence |
| `PredictorTheorems.TrendRanges` | AVS/pkg/state/predictor.go:216-221 | Strength and confidence of every pool lie between 0 and 1 |
| `PredictorTheorems.TrendDecided` | AVS/pkg/state/predictor.go:172-224 | The trend of two or more chains in whole numbers: with floor mean m, floor deviation s and k of n prices above m, up iff s >= m/100 and 5k > 3n with strength k/n, down iff s >= m/100 and 5k < 2n with strength (n-k)/n, else sideways with strength 0; its duration is 300 |
| `PredictorTheorems.TrendConfidenceDecided` | AVS/pkg/state/predictor.go:226-260 | The confidence in a trend in whole numbers: 1, 0.8, 0.5 or 0, falling where 100s reaches 3m, 6m and 11m; 0 for a mean of 0 and 1 for a negative one |
| `PredictorTheorems.TwoChainsTrend` | AVS/pkg/state/predictor.go:196-224 | With two chains there is a trend in exactly one case, equal prices below 100, which reads as falling at full strength |
| `PredictorTheorems.TwoChainsPredictNoChange` | AVS/pkg/state/predictor.go:44-96 | Two chains whose prices differ, or reach 100, predict exactly the current price and liquidity for every horizon |
| `PredictorTheorems.EqualPricesTrend` | AVS/pkg/state/predictor.go:202-224 | Any number of chains that agree on a price trend sideways if and only if the price is at least 100 |
| `PredictorTheorems.PercentInRange` | AVS/pkg/state/predictor.go:396-414 | The predicted change of a price is a whole percentage from 0 to 10 |
| `PredictorTheorems.StrengthInWholePercent` | AVS/pkg/state/predictor.go:216-220 | A trend's strength in whole percent is the floored share of the chains on its side of the mean |
| `PredictorTheorems.PercentInWholeNumbers` | AVS/pkg/state/predictor.go:396-414 | The change, computed in exact arithmetic, is min(10, share * seconds * tenths / 3000) in whole numbers, for the share of chains on the trend's side of the mean in percent and the confidence in tenths |
| `PredictorTheorems.LongHorizonsSaturate` | AVS/pkg/state/predictor.go:396-414 | From a horizon of 100 seconds on the change is the full 10% whenever there is a trend with any confidence, otherwise nothing |
| `PredictorTheorems.MoveBounds` | AVS/pkg/state/predictor.go:278-295 | A move of at most 10% keeps a positive price positive and within floor(10P/100) of itself |
| `PredictorTheorems.FollowBounds` | AVS/pkg/state/predictor.go:322-332 | Following a change within 10%, liquidity stays between L - ceil(L/20) and L + floor(L/20) |
| `PredictorTheorems.PredictionBounds` | AVS/pkg/state/predictor.go:44-96 | End to end for every pool with positive price and liquidity and every horizon: both bounds hold, and price and liquidity are the unclamped values, so neither guard against negative results takes effect |
| `PredictorTheorems.PriceDecided` | AVS/pkg/state/predictor.go:44-96 | End to end in whole numbers: from the reports alone, the predicted price is P plus or minus P*c/100 with c = min(10, share * seconds * tenths / 3000), or P when the rule of `TrendDecided` says sideways |
| `PredictorTheorems.PredictionOutcomes` | AVS/pkg/state/predictor.go:44-96 | When a prediction comes back and when not: the two errors and the nil dereferences exactly; a prediction carries the horizon asked for and the second clock reading, and neither number is negative |
| `PredictorTheorems.NegativeInputsBecomeOne` | AVS/pkg/state/predictor.go:290-332 | Where the guards do take effect: for all reports and horizons a price of -2 or less, and a negative total beside a positive price, are predicted as 1 |
| `Predictor.CalculateConfidence` | AVS/pkg/state/predictor.go:416-444 | The stepwise reductions compound to the trend's confidence times a factor for the number of chains and one for freshness |
| `PredictorTheorems.PredictionConfidence` | AVS/pkg/state/predictor.go:416-444 | The confidence of a prediction lies between 0 and that of its trend; for a pool whose latest block number lies 600 or more below the clock in seconds the freshness factor is 0.6 however recent the reports are |
| `PredictorTheorems.PredictionConfidenceDecided` | AVS/pkg/state/predictor.go:416-444 | The same with both factors written out: 1, 0.8, 0.5 by the number of chains, and 1, 0.9, 0.8, 0.6 by the clock in seconds minus the block number, which wraps |
| `PredictorTheorems.LowerRecoveryExact` | AVS/pkg/state/predictor.go:317-320 | A price lowered by c percent gives back exactly -c if and only if (P*c mod 100) < P |
| `PredictorTheorems.RaisedRecoveryExact` | AVS/pkg/state/predictor.go:317-320 | A price raised by c percent gives back exactly c if and only if 100 divides P*c |
| `PredictorTheorems.RecoveryFromOneHundred` | AVS/pkg/state/predictor.go:278-320 | For P >= 100 the way down is recovered exactly and the way up as c or c-1, depending on the remainder |
| `PredictorTheorems.VariationBound` | AVS/pkg/state/predictor.go:239-249 | For n non-negative prices with floor mean >= 1 the coefficient of variation is below 200n, so its 64-bit reading is exact for n < 2^55 |
| `PredictorTheorems.NeedExactly` | AVS/pkg/state/predictor.go:118-120 | For every threshold t and positive total, need is reported exactly when 100*deviation >= (floor(t)+1)*T |
| `PredictorTheorems.FractionActsAsOnePercent` | AVS/aggregator/aggregator.go:418-422 | Any threshold from 0 up to 1 acts as one percent |
| `PredictorTheorems.NeverNeededFrom199` | AVS/aggregator/aggregator.go:418-422 | A threshold of 199 or more never triggers |
| `PredictorTheorems.NeedDecided` | AVS/pkg/state/predictor.go:98-137 | The whole decision for any pool, in the fields of any listing: 64-bit reading of 100*deviation/T against the threshold, amount min(max(deviation/2, 10^18), T/10); below two chains or for a zero total no threshold from 0 up is exceeded; the service's check counts the same pools |
| `PredictorTheorems.AmountBoundedAndMonotone` | AVS/pkg/state/predictor.go:377-394 | The amount never exceeds a tenth of the total and grows with the imbalance |
| `PredictorTheorems.AmountIsShortfallPlusHalfRemainder` | AVS/pkg/state/predictor.go:377-394 | When neither clamp applies the amount is the total shortfall plus floor((T mod n)/2) |
| `Validator.ValidationResult.constructor` | AVS/pkg/state/validator.go:53-56 | A result starts out valid, without a reason |
| `Validator.ValidatePriceDeviation` | AVS/pkg/state/validator.go:189-215 | Passes exactly when the average is 0 or the price lies within the allowed deviation; otherwise marks the result with both numbers |
| `Validator.ValidateLiquidityChange` | AVS/pkg/state/validator.go:217-245 | Passes exactly when the chain is new or its liquidity moved by no more than allowed; otherwise marks the result |
| `Validator.ValidateTimestamp` | AVS/pkg/state/validator.go:247-263 | Passes exactly when the wrap-around age is within the gap; otherwise marks the result |
| `Validator.CalculateConfidence` | AVS/pkg/state/validator.go:265-309 | The stepwise reductions compound to the product of a price penalty and an age penalty |
| `Validator.ValidatePoolState` | AVS/pkg/state/validator.go:41-84 | Returns without an error exactly when all three criteria hold at the clock reading of the check, otherwise names the first criterion that fails, in that order, with its numbers, and assigns no confidence; a nil average stops the program |
| `Validator.TimeWindow` | AVS/pkg/state/validator.go:252-260 | For all 64-bit values: accepted when at most the gap old, or so far in the future that the subtraction comes round |
| `Validator.AcceptanceCharacterised` | AVS/pkg/state/validator.go:41-84 | With clock, stamp and gap below 2^63 a report is accepted if and only if price, liquidity and time lie in their windows, so future stamps are rejected |
| `Validator.DefaultWindow` | AVS/pkg/state/validator.go:339-346 | The default criteria in numbers: price within 10^18 of the average, liquidity within 10^21 of the chain's last, stamp at most 300 seconds old |
| `Validator.DefaultConfidence` | AVS/pkg/state/validator.go:265-309 | Under the default criteria an accepted report takes no age penalty and has confidence at least 0.432 |
| `Validator.PricePenaltySteps` | AVS/pkg/state/validator.go:279-292 | The price penalty in terms of whole prices: steps at 2, 6 and 11 percent of a positive average, none for an average of 0 or less |
| `Validator.ConfidenceSteps` | AVS/pkg/state/validator.go:265-309 | The confidence assigned: the price steps times 1, 0.9, 0.72 or 0.432 for an age of up to 5, 10, 30 minutes or more; the age of a future stamp comes round |
| `AcceptedReports.NewChainMovesAverageBoundedly` | AVS/pkg/state/validator.go:189-215 | An accepted report from a new chain moves the average to between the old average and its own price, hence by at most MaxPriceDeviation if the old average is not 0 |
| `AcceptedReports.PresentChainMovesTotalBoundedly` | AVS/pkg/state/validator.go:217-245 | An accepted report from a known chain moves the cached total by at most MaxLiquidityChange |
| `AcceptedReports.TotalDrift` | AVS/pkg/state/validator.go:217-245 | Over a whole run of accepted reports from known chains, to any pools, a pool's total drifts by at most MaxLiquidityChange per report about it |
| `AcceptedReports.AverageDrift` | AVS/pkg/state/validator.go:189-215 | As chains with positive prices join a pool through accepted reports, its average drifts by at most MaxPriceDeviation for each, whatever happens to other pools in between |
| `AcceptedReports.AverageBoundDecided` | AVS/pkg/state/aggregator.go:192-219 | Exactly when a report from a chain moves the average by at most d: two inequalities in the liquidity and weighted prices of the other chains and the liquidity and price reported; if the pool is left without liquidity the call fails and the average stays |
| `AcceptedReports.MoreLiquidityKeepsAverage` | AVS/pkg/state/validator.go:206-212 | For a price within d of the average, reporting more liquidity never breaks that condition |
| `AcceptedReports.OtherChainsDecide` | AVS/pkg/state/validator.go:206-242 | Every liquidity reported at such a price keeps the average within d if and only if the mean of the other chains is itself within d |
| `AcceptedReports.KnownChainMovesAverageBoundedly` | AVS/pkg/state/validator.go:189-245 | An accepted report from a known chain moves a non-zero average by at most MaxPriceDeviation whenever the other chains hold no liquidity or have a mean within it |
| `AcceptedReports.PresentChainMayMoveAverageFurther` | AVS/pkg/state/validator.go:189-245 | The condition can fail: a coherent pool and an accepted report under the default criteria whose update drops the average from almost 100 tokens to 0 |
| `TaskProcessor.Processor.ProcessTasks` | AVS/aggregator/aggregator.go:247-267 | One tick in any map order: every task moves by its own step and both counters by the number of tasks that reached consensus or were found expired |
| `TaskProcessor.Processor.ExpireOrConclude` | AVS/aggregator/aggregator.go:254-265 | One task at a tick: failed and counted if past its deadline, otherwise given the chance of consensus |
| `TaskProcessor.Processor.ProcessConsensus` | AVS/aggregator/aggregator.go:269-294 | Consensus is set once, exactly when the valid responses reach the threshold |
| `TaskProcessor.CountValid` | AVS/aggregator/aggregator.go:275-280 | Counts the valid responses in any order |
| `TaskProcessor.AtMostAllValid` | AVS/aggregator/aggregator.go:263 | The count of all responses tested first never rejects a task that the count of valid ones would accept |
| `TaskRuns.ConsensusNeverReverts` | AVS/aggregator/aggregator.go:269-284 | Over whole runs consensus, deadline and threshold of a task never change back |
| `TaskRuns.CompletedCountsConsensus` | AVS/aggregator/aggregator.go:283-286 | At every moment the completed counter equals the size of the set of tasks with consensus |
| `TaskRuns.FailedCountsExpiries` | AVS/aggregator/aggregator.go:255-259 | The failed counter is the sum over all ticks of the number of tasks past their deadline at that tick |
| `TaskRuns.ConsensusDecided` | AVS/aggregator/aggregator.go:253-294 | A task has consensus if and only if some earlier tick came no later than its deadline and found at least the threshold of operators whose response is valid |
| `TaskRuns.ExpiredForEver` | AVS/aggregator/aggregator.go:255-260 | With an advancing clock, once a tick comes after a task's deadline its status is 4 for ever and it gains no consensus |
| `TaskRuns.StatusDecided` | AVS/aggregator/aggregator.go:247-294 | After any run: status 4 if and only if a tick came after the task's deadline, 3 if and only if it has consensus and none did |
| `TaskRuns.TaskDecided` | AVS/aggregator/aggregator.go:247-294 | The whole record of a task after any run with an advancing clock, from the history alone: deadline and threshold as submitted, the last responses collected, and status and consensus as the ticks decided them |
| `TaskRuns.CompletedThenFailed` | AVS/aggregator/aggregator.go:255-259 | Completion is not final: in every run with an advancing clock a completed task that a tick finds expired is failed from then on, still stands in the completed counter, and every tick from that one on adds at least one to the failed counter |
| `TaskRuns.CompletedTaskFails` | AVS/aggregator/aggregator.go:255-286 | That happens: in a service with one task, a tick in time completes it and a tick past the deadline fails it, with both counters at 1 |
| `PoolSweeper.SyncHookAggregator.constructor` | AVS/aggregator/aggregator.go:144-154 | The service starts without pools |
| `PoolSweeper.SyncHookAggregator.AggregateStates` | AVS/aggregator/aggregator.go:296-324 | One sweep in any map order, deleting along the way: pools past the age limit go, the others are recalculated and, on success, stamped and counted |
| `PoolSweeper.SyncHookAggregator.VisitPool` | AVS/aggregator/aggregator.go:303-322 | One pool at a sweep |
| `PoolSweeper.SyncHookAggregator.AggregateChainStates` | AVS/aggregator/aggregator.go:326-360 | Recalculates in place; only success renews the time stamp |
| `PoolSweeper.SyncHookAggregator.CheckRebalancingNeeds` | AVS/aggregator/aggregator.go:412-433 | The counter moves by the number of pools whose percentage exceeds the threshold; the program stops exactly when some total is nil |
| `PoolSweeper.SyncHookAggregator.NeedsRebalancing` | AVS/aggregator/aggregator.go:417-422 | The decision for one pool |
| `RebalancingRuns.NeedAfterSweep` | AVS/aggregator/aggregator.go:412-453 | In every run, right after a sweep a pool with liquidity needs rebalancing if and only if 100*deviation >= (floor(t)+1)*T, whatever was collected before; the deviation is 0 for a single chain and otherwise the sum of the distances of its current reports' liquidities from floor(T/n) |
| `RebalancingRuns.StaleReadingExact` | AVS/aggregator/aggregator.go:455-464 | Between sweeps, for a positive cached total, the 64-bit reading is exact if and only if 100 deviations from it stay below 2^63 times it |
| `RebalancingRuns.NeedBetweenSweeps` | AVS/aggregator/aggregator.go:417-453 | While the reports have not outgrown the cached total some 2^56 times, the decision is the same comparison against that total, with the distances taken from its n-th part |
| `SweepRuns.SecondSweepChangesNoMetric` | AVS/aggregator/aggregator.go:296-360 | A second sweep with no new reports changes no metric, and keeps exactly the pools that are not too old for it, counted from the stamp the first sweep left |
| `SweepRuns.SweepOfListing` | AVS/aggregator/aggregator.go:296-360 | One sweep on one pool, in the fields of any listing: gone if older than the limit in seconds; otherwise its reports stay, without reports nothing changes, with a zero total only the total becomes 0, else stamp and all metrics are new |
| `SweepRuns.UpdatesCounted` | AVS/aggregator/aggregator.go:303-322 | Over whole runs the update counter grows at each sweep by the number of pools young enough and with a non-zero total, and by nothing else |
| `SweepRuns.SweepsKeepReports` | AVS/aggregator/aggregator.go:326-360 | No sweep changes a report: a pool still there holds those last collected |
| `SweepRuns.SurvivalDecided` | AVS/aggregator/aggregator.go:303-311 | Exactly when a pool survives a run: at each sweep it was no older than the limit, counted from the last sweep that refreshed it |
| `SweepRuns.RegularSweepsKeepPool` | AVS/aggregator/aggregator.go:296-324 | A pool with liquidity swept at times no further apart than the limit is never evicted |
| `SweepRuns.FailingPoolIsEvicted` | AVS/aggregator/aggregator.go:303-320 | A pool whose recalculation keeps failing is there until, and gone from, the first sweep later than the limit after its last update |
| `AlertManager.Alert.constructor` | AVS/pkg/monitoring/alerts.go:94-104 | A new alert is not resolved |
| `AlertManager.Manager.constructor` | AVS/pkg/monitoring/alerts.go:61-70 | The manager starts empty |
| `AlertManager.Manager.InsertAlert` | AVS/pkg/monitoring/alerts.go:106-108 | The first half of creating an alert stores it under its id |
| `AlertManager.Manager.OfferAlert` | AVS/pkg/monitoring/alerts.go:110-115 | The second half sends it, or drops it when the channel holds 100 |
| `AlertManager.Manager.CreateAlert` | AVS/pkg/monitoring/alerts.go:91-126 | Both halves in sequence |
| `AlertManager.Manager.ResolveAlert` | AVS/pkg/monitoring/alerts.go:129-154 | Succeeds exactly for a stored open alert, marks it and sends or drops its id; the two errors, told apart, change nothing |
| `AlertManager.Manager.HandleAlert` | AVS/pkg/monitoring/alerts.go:252-253 | The delivery loop takes the oldest waiting alert |
| `AlertManager.Manager.HandleAlertResolved` | AVS/pkg/monitoring/alerts.go:254-255 | The delivery loop takes the oldest waiting resolution |
| `AlertManager.Manager.CleanupOldAlerts` | AVS/pkg/monitoring/alerts.go:311-332 | Removes exactly the resolved alerts older than the wrapped cutoff |
| `AlertManager.Manager.GetAlerts` | AVS/pkg/monitoring/alerts.go:170-195 | Lists distinct alerts of the severity (any, if none is given) and state asked for, all of them or as many as a positive limit allows, in any order |
| `AlertManager.Manager.GetAlertStats` | AVS/pkg/monitoring/alerts.go:208-244 | The seven numbers are the sizes of the sets of all, open, resolved, and critical, high, medium and low alerts, and total = active + resolved |
| `AlertRuns.QueuesAreBounded` | AVS/pkg/monitoring/alerts.go:65-66 | Neither channel ever holds more than 100 entries |
| `AlertRuns.AlertsAreConserved` | AVS/pkg/monitoring/alerts.go:91-126 | Over all interleavings every created alert is in exactly one place once: not yet sent, waiting, delivered or dropped |
| `AlertRuns.DeliveryIsInOrder` | AVS/pkg/monitoring/alerts.go:247-258 | On each channel what was delivered followed by what waits is exactly what was admitted, in order |
| `AlertRuns.ResolutionsAreUnique` | AVS/pkg/monitoring/alerts.go:129-154 | Each alert's resolution is sent at most once, and exactly the alerts without one are stored and open, so cleanup never removes an unresolved alert |
| `AlertRuns.StoredAsInserted` | AVS/pkg/monitoring/alerts.go:94-108 | Over all interleavings a stored alert has the severity and time stamp it was created with |
| `AlertRuns.ResolvedByItsEvent` | AVS/pkg/monitoring/alerts.go:129-142 | A stored alert is resolved exactly if some resolution found it open, and carries the clock reading of that resolution |
| `AlertRuns.RetentionDecided` | AVS/pkg/monitoring/alerts.go:311-332 | How long a resolved alert is kept, over whole runs and for all clocks, from the time of the event that resolved it: until the first cleanup more than 604800 seconds after it, or one whose cutoff wraps past it |
| `AlertRuns.SevenDays` | AVS/pkg/monitoring/alerts.go:311-332 | With the clock past its seventh day at the cleanups, it is there exactly while every cleanup came at most 604800 seconds after its resolution |
| `AlertRuns.CleanupRemovesOldResolved` | AVS/pkg/monitoring/alerts.go:315-327 | From the seventh day of the clock on, exactly the alerts resolved more than seven days ago are removed and the others kept as they are |
| `AlertRuns.CleanupWrapsAtFirst` | AVS/pkg/monitoring/alerts.go:315-323 | Before that the cutoff wraps and every resolved alert is removed at once |
| `AlertRuns.OpenAndResolvedMakeTotal` | AVS/pkg/monitoring/alerts.go:222-229 | The two unlimited listings together have as many entries as the map |
| `AlertRuns.SeveritiesAccountForAll` | AVS/pkg/monitoring/alerts.go:231-240 | The numbers of critical, high, medium and low alerts add up to the total if and only if no alert carries another severity |

## Left out

- Predictor.CalculateTrendDirection: strength is an exact quotient; rounding of `float64`, which can move the whole percentage derived from it by one, is not modelled. The bounds on predictions hold for every percentage the cap lets through.
- PredictorTheorems.PercentInWholeNumbers: is stated in exact arithmetic; `float64` products may be cut to a neighbouring whole percentage.
- PredictorTheorems.TrendConfidenceDecided: takes the variation to be below 2^63 percent, where its 64-bit reading is exact; `PredictorTheorems.VariationBound` gives that for non-negative prices on fewer than 2^55 chains.
- PredictorTheorems.PriceDecided: likewise, and for a positive mean; `PredictorTheorems.PredictionBounds` needs neither.
- SweepRuns.SurvivalDecided: ages are exact; the rounding in converting a duration to `float64` seconds is not modelled.
- AlertRuns.AlertsAreConserved: ids are taken to be distinct, which the program gets from a nanosecond clock reading.
- AlertManager.Manager.HandleAlert: does not model the calls to the registered handlers, which are foreign code, only that an alert is handed over.
- AlertManager.Manager.HandleAlertResolved: likewise for resolutions.
- AlertManager.Alert.constructor: message, source, metadata and tags are carried unread and not modelled.
- StateAggregator.Aggregator.UpdatePoolState: a report is a value, so a caller changing a report object after handing it over is not modelled.
- Pools.MeanWithin: assumes non-negative liquidities, as do the other range bounds; coherence, conservation and the run theorems do not.
- TaskRuns.ConsensusDecided: nothing in the aggregator service submits tasks or collects responses; here they are events between ticks that never reuse an id or change a deadline or threshold.
- SweepRuns.FailingPoolIsEvicted: nor does anything in it register pools or collect their reports; these are events between sweeps.
- The aggregator service carries a copy of the aggregator's recalculation and root; both copies are modelled once, in `GlobalPools` and `Sqrt`.
- Signature recovery, hashing and signing in the validator rest on foreign cryptography.
- `GetAlert`, `GetGlobalPoolState` and `GetAllPoolStates` only look up what is stored; `CheckThresholds` only compares a number with a limit before creating an alert; `AVS/pkg/monitoring/monitor.go` keeps plain counters.
- RPC, bridge and EigenLayer clients, configuration loading, Prometheus registration, tickers and contexts, and the Solidity contracts are not modelled.
