/** The acceptance test for one chain's report against the state of its pool. */
module Validator {
  import opened Arithmetic
  import opened Basics
  import opened Pools

  datatype ValidationCriteria = ValidationCriteria(
    maxPriceDeviation: int, maxLiquidityChange: int, maxTimeGap: uint64, minimumConfirmations: uint32)

  function DefaultValidationCriteria(): ValidationCriteria {
    ValidationCriteria(1_000_000_000_000_000_000, 1_000_000_000_000_000_000_000, 300, 1)
  }

  /** The service's error texts, with the numbers printed in them. */
  datatype Reason =
    | NoReason
    | PriceDeviationTooHigh(difference: int, limit: int)
    | LiquidityChangeTooHigh(difference: int, limit: int)
    | TimestampTooOld(seconds: uint64, gap: uint64)

  datatype ValidationError = PriceDeviationFailed | LiquidityChangeFailed | TimestampFailed

  class ValidationResult {
    var isValid: bool
    var confidence: real
    var reason: Reason
    var timestamp: uint64

    constructor (timestamp: uint64)
      ensures isValid && confidence == 0.0 && reason == NoReason && this.timestamp == timestamp
    {
      isValid, confidence, reason := true, 0.0, NoReason;
      this.timestamp := timestamp;
    }
  }

  // ---- The criteria

  predicate PriceAcceptable(report: PoolState, average: int, criteria: ValidationCriteria) {
    average == 0 || Abs(report.price - average) <= criteria.maxPriceDeviation
  }

  /** How far a report's liquidity is from the chain's previous one, 0 for an unknown chain. */
  function LiquidityStep(report: PoolState, chains: Chains): nat {
    if report.chainID in chains then Abs(report.totalLiquidity - chains[report.chainID].totalLiquidity) else 0
  }

  predicate LiquidityAcceptable(report: PoolState, chains: Chains, criteria: ValidationCriteria) {
    report.chainID in chains ==> LiquidityStep(report, chains) <= criteria.maxLiquidityChange
  }

  predicate TimeAcceptable(report: PoolState, criteria: ValidationCriteria, now: uint64) {
    Sub64(now, report.timestamp) <= criteria.maxTimeGap
  }

  predicate Accepts(report: PoolState, pool: Pool, criteria: ValidationCriteria, now: uint64) {
    && pool.metrics.averagePrice.Some?
    && PriceAcceptable(report, pool.metrics.averagePrice.value, criteria)
    && LiquidityAcceptable(report, pool.chains, criteria)
    && TimeAcceptable(report, criteria, now)
  }

  /** How far a price is from an average, in whole percent of the average. */
  function DeviationPercent(price: int, average: int): int
    requires average != 0
  {
    Abs(price - average) * 100 / average
  }

  function PricePenalty(price: int, average: int): real {
    if average == 0 || DeviationPercent(price, average) <= 1 then 1.0
    else if DeviationPercent(price, average) <= 5 then 0.9
    else if DeviationPercent(price, average) <= 10 then 0.72
    else 0.432
  }

  function AgePenalty(age: uint64): real {
    if age <= 300 then 1.0
    else if age <= 600 then 0.9
    else if age <= 1800 then 0.72
    else 0.432
  }

  // ---- The checks, which mark a shared result

  method ValidatePriceDeviation(report: PoolState, average: int, criteria: ValidationCriteria, result: ValidationResult)
    returns (ok: bool)
    modifies result`isValid, result`reason
    ensures ok <==> PriceAcceptable(report, average, criteria)
    ensures ok ==> result.isValid == old(result.isValid) && result.reason == old(result.reason)
    ensures !ok ==> !result.isValid
    ensures !ok ==> result.reason == PriceDeviationTooHigh(Abs(report.price - average), criteria.maxPriceDeviation)
  {
    if average == 0 {
      return true;
    }
    var priceDiff := report.price - average;
    if priceDiff < 0 {
      priceDiff := -priceDiff;
    }
    if priceDiff > criteria.maxPriceDeviation {
      result.isValid := false;
      result.reason := PriceDeviationTooHigh(priceDiff, criteria.maxPriceDeviation);
      return false;
    }
    return true;
  }

  method ValidateLiquidityChange(report: PoolState, chains: Chains, criteria: ValidationCriteria, result: ValidationResult)
    returns (ok: bool)
    modifies result`isValid, result`reason
    ensures ok <==> LiquidityAcceptable(report, chains, criteria)
    ensures ok ==> result.isValid == old(result.isValid) && result.reason == old(result.reason)
    ensures !ok ==> !result.isValid
    ensures !ok ==> result.reason == LiquidityChangeTooHigh(LiquidityStep(report, chains), criteria.maxLiquidityChange)
  {
    if report.chainID !in chains {
      return true;
    }
    var change := report.totalLiquidity - chains[report.chainID].totalLiquidity;
    if change < 0 {
      change := -change;
    }
    if change > criteria.maxLiquidityChange {
      result.isValid := false;
      result.reason := LiquidityChangeTooHigh(change, criteria.maxLiquidityChange);
      return false;
    }
    return true;
  }

  method ValidateTimestamp(report: PoolState, criteria: ValidationCriteria, now: uint64, result: ValidationResult)
    returns (ok: bool)
    modifies result`isValid, result`reason
    ensures ok <==> TimeAcceptable(report, criteria, now)
    ensures ok ==> result.isValid == old(result.isValid) && result.reason == old(result.reason)
    ensures !ok ==> !result.isValid
    ensures !ok ==> result.reason == TimestampTooOld(Sub64(now, report.timestamp), criteria.maxTimeGap)
  {
    var timeDiff := Sub64(now, report.timestamp);
    if timeDiff > criteria.maxTimeGap {
      result.isValid := false;
      result.reason := TimestampTooOld(timeDiff, criteria.maxTimeGap);
      return false;
    }
    return true;
  }

  /** The confidence is reduced step by step; the steps compound to the two penalties. */
  method CalculateConfidence(report: PoolState, average: int, now: uint64, result: ValidationResult)
    modifies result`confidence
    ensures result.confidence == PricePenalty(report.price, average) * AgePenalty(Sub64(now, report.timestamp))
  {
    var confidence := 1.0;
    if average != 0 {
      var priceDiff := report.price - average;
      if priceDiff < 0 {
        priceDiff := -priceDiff;
      }
      var percent := priceDiff * 100 / average;
      if percent > 1 {
        confidence := confidence * 0.9;
      }
      if percent > 5 {
        confidence := confidence * 0.8;
      }
      if percent > 10 {
        confidence := confidence * 0.6;
      }
    }
    assert confidence == PricePenalty(report.price, average);
    var age := Sub64(now, report.timestamp);
    if age > 300 {
      confidence := confidence * 0.9;
    }
    if age > 600 {
      confidence := confidence * 0.8;
    }
    if age > 1800 {
      confidence := confidence * 0.6;
    }
    result.confidence := confidence;
  }

  /**
   The whole test. The clock is read when it starts, when the timestamp is checked and when
   the confidence is scored. The first criterion that fails is the one reported, and a nil
   average stops the program.
   */
  method ValidatePoolState(report: PoolState, pool: Pool, criteria: ValidationCriteria,
                           startedAt: uint64, checkedAt: uint64, scoredAt: uint64)
    returns (result: ValidationResult, outcome: Outcome<(), ValidationError>)
    ensures fresh(result) && result.timestamp == startedAt
    ensures outcome.Panicked? <==> pool.metrics.averagePrice.None?
    ensures outcome.Returned? <==> Accepts(report, pool, criteria, checkedAt)
    ensures result.isValid <==> !outcome.Failed?
    ensures outcome.Returned? ==> result.reason == NoReason
    ensures !outcome.Returned? ==> result.confidence == 0.0
    ensures outcome.Returned? ==>
              (result.confidence == PricePenalty(report.price, pool.metrics.averagePrice.value) *
                                    AgePenalty(Sub64(scoredAt, report.timestamp)))
    ensures var average := pool.metrics.averagePrice;
            outcome == Failed(PriceDeviationFailed) <==>
            average.Some? && average.value != 0 && Abs(report.price - average.value) > criteria.maxPriceDeviation
    ensures var average, chains := pool.metrics.averagePrice, pool.chains;
            outcome == Failed(LiquidityChangeFailed) <==>
            && average.Some?
            && (average.value == 0 || Abs(report.price - average.value) <= criteria.maxPriceDeviation)
            && report.chainID in chains
            && Abs(report.totalLiquidity - chains[report.chainID].totalLiquidity) > criteria.maxLiquidityChange
    ensures outcome == Failed(PriceDeviationFailed) ==>
              (result.reason ==
               PriceDeviationTooHigh(Abs(report.price - pool.metrics.averagePrice.value), criteria.maxPriceDeviation))
    ensures outcome == Failed(LiquidityChangeFailed) ==>
              (result.reason ==
               LiquidityChangeTooHigh(Abs(report.totalLiquidity - pool.chains[report.chainID].totalLiquidity),
                                      criteria.maxLiquidityChange))
    ensures outcome == Failed(TimestampFailed) ==>
              (result.reason ==
               TimestampTooOld((checkedAt - report.timestamp) % 0x1_0000_0000_0000_0000, criteria.maxTimeGap))
  {
    result := new ValidationResult(startedAt);
    if pool.metrics.averagePrice.None? {
      return result, Panicked;
    }
    var average := pool.metrics.averagePrice.value;
    var ok := ValidatePriceDeviation(report, average, criteria, result);
    if !ok {
      return result, Failed(PriceDeviationFailed);
    }
    ok := ValidateLiquidityChange(report, pool.chains, criteria, result);
    if !ok {
      return result, Failed(LiquidityChangeFailed);
    }
    ok := ValidateTimestamp(report, criteria, checkedAt, result);
    if !ok {
      return result, Failed(TimestampFailed);
    }
    CalculateConfidence(report, average, scoredAt, result);
    outcome := Returned(());
  }

  // ---- What acceptance means

  /**
   The wrap-around of the age: a stamp passes when it is at most the gap old, or when it
   lies so far in the future that the subtraction comes round.
   */
  lemma TimeWindow(report: PoolState, criteria: ValidationCriteria, now: uint64)
    ensures TimeAcceptable(report, criteria, now) <==>
            if report.timestamp <= now then now - report.timestamp <= criteria.maxTimeGap
            else TWO_TO_THE_64 - (report.timestamp - now) <= criteria.maxTimeGap
  {
  }

  /** With clock, stamps and gap below 2^63 nothing comes round: future stamps are rejected. */
  lemma AcceptanceCharacterised(report: PoolState, pool: Pool, criteria: ValidationCriteria, now: uint64)
    requires now < TWO_TO_THE_63 && report.timestamp < TWO_TO_THE_63 && criteria.maxTimeGap < TWO_TO_THE_63
    ensures Accepts(report, pool, criteria, now) <==>
            && pool.metrics.averagePrice.Some?
            && (pool.metrics.averagePrice.value == 0 ||
                pool.metrics.averagePrice.value - criteria.maxPriceDeviation <= report.price
                  <= pool.metrics.averagePrice.value + criteria.maxPriceDeviation)
            && (report.chainID in pool.chains ==>
                  pool.chains[report.chainID].totalLiquidity - criteria.maxLiquidityChange <= report.totalLiquidity
                    <= pool.chains[report.chainID].totalLiquidity + criteria.maxLiquidityChange)
            && now - criteria.maxTimeGap <= report.timestamp <= now
  {
    TimeWindow(report, criteria, now);
  }

  /** The default criteria in numbers: one token of price, a thousand of liquidity, five minutes. */
  lemma DefaultWindow(report: PoolState, pool: Pool, now: uint64)
    requires now < 0x8000_0000_0000_0000 && report.timestamp < 0x8000_0000_0000_0000
    ensures Accepts(report, pool, DefaultValidationCriteria(), now) <==>
            && pool.metrics.averagePrice.Some?
            && (pool.metrics.averagePrice.value == 0 ||
                pool.metrics.averagePrice.value - 1_000_000_000_000_000_000 <= report.price
                  <= pool.metrics.averagePrice.value + 1_000_000_000_000_000_000)
            && (report.chainID in pool.chains ==>
                  pool.chains[report.chainID].totalLiquidity - 1_000_000_000_000_000_000_000 <= report.totalLiquidity
                    <= pool.chains[report.chainID].totalLiquidity + 1_000_000_000_000_000_000_000)
            && now - 300 <= report.timestamp <= now
  {
    AcceptanceCharacterised(report, pool, DefaultValidationCriteria(), now);
  }

  /** An accepted report is never penalised for its age under the default criteria. */
  lemma DefaultConfidence(report: PoolState, pool: Pool, now: uint64)
    requires Accepts(report, pool, DefaultValidationCriteria(), now)
    ensures var confidence := PricePenalty(report.price, pool.metrics.averagePrice.value) *
                              AgePenalty(Sub64(now, report.timestamp));
            && confidence == PricePenalty(report.price, pool.metrics.averagePrice.value)
            && 0.432 <= confidence <= 1.0
  {
  }

  /** The steps of the price penalty as comparisons of whole prices; none for an average of 0 or less. */
  lemma PricePenaltySteps(price: int, average: int)
    ensures average > 0 ==>
              var gap := 100 * Abs(price - average);
              (PricePenalty(price, average) ==
               if gap < 2 * average then 1.0
               else if gap < 6 * average then 0.9
               else if gap < 11 * average then 0.72
               else 0.432)
    ensures average <= 0 ==> PricePenalty(price, average) == 1.0
  {
    if average > 0 {
      QuotientAtLeast(Abs(price - average) * 100, average, 2);
      QuotientAtLeast(Abs(price - average) * 100, average, 6);
      QuotientAtLeast(Abs(price - average) * 100, average, 11);
    } else if average < 0 {
      assert DeviationPercent(price, average) == -(Abs(price - average) * 100 / -average);
      QuotientAtLeast(Abs(price - average) * 100, -average, 0);
    }
  }

  /**
   The confidence the test assigns: the price steps times 1, 0.9, 0.72 or 0.432 for an age
   of up to 5, 10, 30 minutes or more. The age of a stamp in the future comes round.
   */
  lemma ConfidenceSteps(price: int, average: int, stamp: uint64, now: uint64)
    ensures var gap := 100 * Abs(price - average);
            var age := if stamp <= now then now - stamp else now + 0x1_0000_0000_0000_0000 - stamp;
            var pricePart := if average <= 0 || gap < 2 * average then 1.0 else if gap < 6 * average then 0.9
                             else if gap < 11 * average then 0.72 else 0.432;
            var agePart := if age <= 300 then 1.0 else if age <= 600 then 0.9 else if age <= 1800 then 0.72 else 0.432;
            PricePenalty(price, average) * AgePenalty(Sub64(now, stamp)) == pricePart * agePart
  {
    PricePenaltySteps(price, average);
  }
}
