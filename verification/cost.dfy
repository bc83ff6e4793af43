/** The cost of one AI call and the per-user spend since local midnight. */
module AiCost {
  import opened Wrappers
  import opened AiPricing
  import opened Records

  datatype Cost = Cost(inputCost: real, outputCost: real, totalCost: real)

  datatype CostError = PricingNotDefined(model: string)

  /** A token count that was left out counts as 0. */
  function TokensOrZero(t: Option<int>): int {
    t.GetOr(0)
  }

  /**
    `calculateCost`: fails for a model that has no price entry; otherwise
    the input and output costs are the token counts in thousands times the
    per-1000 prices, and the total is their sum.
  */
  function CalculateCost(model: string, promptTokens: Option<int>, completionTokens: Option<int>): (r: Result<Cost, CostError>)
    ensures r.Failure? <==> PriceOf(model).None?
    ensures r.Failure? ==> r.error == PricingNotDefined(model)
    ensures r.Success? ==> r.value.inputCost == TokensOrZero(promptTokens) as real / 1000.0 * PriceOf(model).value.inputPer1K
    ensures r.Success? ==> r.value.outputCost == TokensOrZero(completionTokens) as real / 1000.0 * PriceOf(model).value.outputPer1K
    ensures r.Success? ==> r.value.totalCost == r.value.inputCost + r.value.outputCost
  {
    match PriceOf(model)
    case None => Failure(PricingNotDefined(model))
    case Some(p) =>
      var inputCost := TokensOrZero(promptTokens) as real / 1000.0 * p.inputPer1K;
      var outputCost := TokensOrZero(completionTokens) as real / 1000.0 * p.outputPer1K;
      Success(Cost(inputCost, outputCost, inputCost + outputCost))
  }

  /** Zero or omitted token counts cost nothing on every priced model. */
  lemma ZeroTokensCostNothing(model: string, promptTokens: Option<int>, completionTokens: Option<int>)
    requires PriceOf(model).Some?
    requires TokensOrZero(promptTokens) == 0 && TokensOrZero(completionTokens) == 0
    ensures CalculateCost(model, promptTokens, completionTokens) == Success(Cost(0.0, 0.0, 0.0))
  {
  }

  /** The embedding model charges for input only: 0.00002 dollars per 1000 tokens. */
  lemma EmbeddingCost(tokens: int)
    ensures CalculateCost(EmbeddingModel, Some(tokens), None).Success?
    ensures CalculateCost(EmbeddingModel, Some(tokens), None).value.totalCost == tokens as real * 0.00002 / 1000.0
  {
  }

  /**
    With non-negative token counts the cost is non-negative, and it never
    decreases when either token count grows.
  */
  lemma CostNonNegativeMonotone(model: string, p1: int, c1: int, p2: int, c2: int)
    requires PriceOf(model).Some?
    requires 0 <= p1 <= p2 && 0 <= c1 <= c2
    ensures 0.0 <= CalculateCost(model, Some(p1), Some(c1)).value.totalCost
    ensures CalculateCost(model, Some(p1), Some(c1)).value.totalCost
            <= CalculateCost(model, Some(p2), Some(c2)).value.totalCost
  {
    var price := PriceOf(model).value;
    ScaleMonotone(p1 as real / 1000.0, p2 as real / 1000.0, price.inputPer1K);
    ScaleMonotone(c1 as real / 1000.0, c2 as real / 1000.0, price.outputPer1K);
    ScaleMonotone(0.0, p1 as real / 1000.0, price.inputPer1K);
    ScaleMonotone(0.0, c1 as real / 1000.0, price.outputPer1K);
  }

  lemma ScaleMonotone(a: real, b: real, k: real)
    requires a <= b && 0.0 <= k
    ensures a * k <= b * k
  {
  }

  // ------------------------------------------------------------ daily spend

  /** A record counts toward today's spend of `userId` when it is theirs and was created at or after midnight. */
  predicate CountsToday(r: UsageRecord, userId: string, midnight: int) {
    r.userId == userId && r.createdAt >= midnight
  }

  /** A record's cost; a record without one adds nothing to a sum. */
  function CostOrZero(r: UsageRecord): real {
    r.costUSD.GetOr(0.0)
  }

  /**
    `checkDailyLimit`'s aggregate: the sum of the costs of the records of
    `userId` created since `midnight`, 0 when there are none.
  */
  function DailySpend(records: seq<UsageRecord>, userId: string, midnight: int): real {
    if records == [] then 0.0
    else
      (if CountsToday(records[0], userId, midnight) then CostOrZero(records[0]) else 0.0)
      + DailySpend(records[1..], userId, midnight)
  }

  /** The records of `userId` created since `midnight`, in order (the aggregate's `$match`). */
  function TodayOf(records: seq<UsageRecord>, userId: string, midnight: int): (rs: seq<UsageRecord>)
    ensures forall i :: 0 <= i < |rs| ==> rs[i] in records && CountsToday(rs[i], userId, midnight)
    ensures forall r :: r in records && CountsToday(r, userId, midnight) ==> r in rs
    ensures forall r :: multiset(rs)[r] == if CountsToday(r, userId, midnight) then multiset(records)[r] else 0
  {
    if records == [] then []
    else
      var rest := TodayOf(records[1..], userId, midnight);
      assert records == [records[0]] + records[1..];
      if CountsToday(records[0], userId, midnight) then [records[0]] + rest else rest
  }

  /** The sum of all costs (the aggregate's `$group` with `$sum`). */
  function SumCosts(records: seq<UsageRecord>): real {
    if records == [] then 0.0 else CostOrZero(records[0]) + SumCosts(records[1..])
  }

  /** The daily spend is the filter of the user's records of today followed by the sum of their costs. */
  lemma {:induction false} DailySpendIsFilterThenSum(records: seq<UsageRecord>, userId: string, midnight: int)
    ensures DailySpend(records, userId, midnight) == SumCosts(TodayOf(records, userId, midnight))
  {
    if records != [] {
      DailySpendIsFilterThenSum(records[1..], userId, midnight);
    }
  }

  /** Appending a record raises the spend by its cost exactly when it counts toward it. */
  lemma {:induction false} DailySpendAppend(records: seq<UsageRecord>, r: UsageRecord, userId: string, midnight: int)
    ensures DailySpend(records + [r], userId, midnight)
            == DailySpend(records, userId, midnight) + (if CountsToday(r, userId, midnight) then CostOrZero(r) else 0.0)
  {
    if records == [] {
      assert records + [r] == [r];
    } else {
      assert (records + [r])[1..] == records[1..] + [r];
      DailySpendAppend(records[1..], r, userId, midnight);
    }
  }

  /** Records of other users or of earlier days contribute nothing: with none of today's, the spend is 0. */
  lemma {:induction false} DailySpendWithoutTodaysRecords(records: seq<UsageRecord>, userId: string, midnight: int)
    requires forall i :: 0 <= i < |records| ==> !CountsToday(records[i], userId, midnight)
    ensures DailySpend(records, userId, midnight) == 0.0
  {
    if records != [] {
      DailySpendWithoutTodaysRecords(records[1..], userId, midnight);
    }
  }

  /** When no record has a negative cost, the spend is never negative. */
  lemma {:induction false} DailySpendNonNegative(records: seq<UsageRecord>, userId: string, midnight: int)
    requires forall i :: 0 <= i < |records| ==> CostOrZero(records[i]) >= 0.0
    ensures DailySpend(records, userId, midnight) >= 0.0
  {
    if records != [] {
      DailySpendNonNegative(records[1..], userId, midnight);
    }
  }

  /**
    `checkDailyLimit(userId, limitUSD)`: the aggregate's total (`$match` on
    the owner and today, then `$sum` of the costs), 0 when nothing matches.
    It returns the spend whatever the limit and never fails on overspend;
    callers compare the result with 1 dollar.
  */
  function CheckDailyLimit(records: seq<UsageRecord>, userId: string, midnight: int, limitUSD: real): (spent: real)
    ensures spent == SumCosts(TodayOf(records, userId, midnight))
  {
    DailySpendIsFilterThenSum(records, userId, midnight);
    DailySpend(records, userId, midnight)
  }

  /** The limit argument has no effect on the result. */
  lemma CheckDailyLimitIgnoresLimit(records: seq<UsageRecord>, userId: string, midnight: int, l1: real, l2: real)
    ensures CheckDailyLimit(records, userId, midnight, l1) == CheckDailyLimit(records, userId, midnight, l2)
  {
  }

  /** The spend at which every entry point refuses to start paid work. */
  const DailyLimitUSD: real := 1.0
}
