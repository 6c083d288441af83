/** Integer microcurrency accounting (src/packages/billing/price.py). */
module Price {
  import opened Wrappers

  const MILLION := 1_000_000

  /** Rates are microcurrency per million tokens. */
  datatype PriceSnapshot = PriceSnapshot(
    revision: string, currency: string,
    inputRate: int, cachedRate: int, outputRate: int,
    outputIncludesReasoning: bool, boundRule: string)

  /** The usage record a provider returns; a missing or malformed record is `None`. */
  datatype Usage = Usage(
    billingUnconfirmed: bool, unpricedDimensions: bool,
    input: int, output: int, cached: int, reasoning: int, cacheWrite: bool)

  datatype Limits = Limits(maxInput: int, maxOutput: int)

  function PriceError(price: Option<PriceSnapshot>): string {
    match price
    case None => "PRICE_SNAPSHOT_REQUIRED"
    case Some(p) =>
      if p.currency != "USD" || !p.outputIncludesReasoning || p.boundRule != "utf8-byte-ceiling-v1" then
        "PRICE_BOUND_UNSUPPORTED"
      else if p.inputRate < 0 || p.cachedRate < 0 || p.outputRate < 0 || p.revision == "" then "PRICE_INVALID"
      else ""
  }

  predicate ValidPrice(price: Option<PriceSnapshot>) {
    PriceError(price) == ""
  }

  predicate Free(p: PriceSnapshot) {
    p.inputRate == 0 && p.cachedRate == 0 && p.outputRate == 0
  }

  function UsageError(usage: Option<Usage>): string {
    match usage
    case None => "USAGE_MISSING"
    case Some(u) =>
      if u.billingUnconfirmed then "USAGE_BILLING_UNCONFIRMED"
      else if u.unpricedDimensions then "UNPRICED_USAGE_DIMENSION"
      else if u.input < 0 || u.output < 0 || u.cached < 0 || u.cached > u.input then "USAGE_INVALID"
      else if u.reasoning < 0 || u.reasoning > u.output then "USAGE_INVALID"
      else if u.cacheWrite then "UNPRICED_USAGE_DIMENSION"
      else ""
  }

  function Weighted(p: PriceSnapshot, u: Usage): int {
    (u.input - u.cached) * p.inputRate + u.cached * p.cachedRate + u.output * p.outputRate
  }

  /** Whole microcurrency units that cover `weighted` millionths. */
  function RoundUp(weighted: int): int {
    (weighted + MILLION - 1) / MILLION
  }

  function ReserveCost(p: PriceSnapshot, limits: Limits): int {
    RoundUp(limits.maxInput * Max(p.inputRate, p.cachedRate)) + RoundUp(limits.maxOutput * p.outputRate)
  }

  function ActualCost(price: Option<PriceSnapshot>, usage: Option<Usage>): Result<int, string> {
    if PriceError(price) != "" then Failure(PriceError(price))
    else if UsageError(usage) != "" then Failure(UsageError(usage))
    else Success(RoundUp(Weighted(price.value, usage.value)))
  }

  lemma {:induction false} MulMono(a: int, b: int, k: int)
    requires a <= b && 0 <= k
    ensures a * k <= b * k
  {
    assert (b - a) * k >= 0;
  }

  lemma {:induction false} RoundUpMono(a: int, b: int)
    requires a <= b
    ensures RoundUp(a) <= RoundUp(b)
  {}

  lemma {:induction false} RoundUpSubadditive(a: int, b: int)
    ensures RoundUp(a + b) <= RoundUp(a) + RoundUp(b) <= RoundUp(a + b) + 1
  {}

  lemma {:induction false} WeightedBounds(p: PriceSnapshot, u: Usage)
    requires ValidPrice(Some(p)) && UsageError(Some(u)) == ""
    ensures 0 <= Weighted(p, u) <= u.input * Max(p.inputRate, p.cachedRate) + u.output * p.outputRate
  {
    var top := Max(p.inputRate, p.cachedRate);
    MulMono(0, u.input - u.cached, p.inputRate);
    MulMono(0, u.cached, p.cachedRate);
    MulMono(0, u.output, p.outputRate);
    MulMono(p.inputRate, top, u.input - u.cached);
    MulMono(p.cachedRate, top, u.cached);
    assert (u.input - u.cached) * top + u.cached * top == u.input * top;
  }

  /** `n` units pay for every token at its own rate: fresh input, cached input and output. */
  ghost predicate Pays(p: PriceSnapshot, uncached: int, cached: int, output: int, n: int) {
    uncached * p.inputRate + cached * p.cachedRate + output * p.outputRate <= n * 1000000
  }

  /** A confirmed cost is the least whole amount that pays for the tokens. */
  lemma {:induction false} ActualCostIsLeast(price: Option<PriceSnapshot>, usage: Option<Usage>, n: int)
    requires ActualCost(price, usage).Success?
    ensures var cost, u := ActualCost(price, usage).value, usage.value;
      0 <= cost && (Pays(price.value, u.input - u.cached, u.cached, u.output, n) <==> cost <= n)
  {
    WeightedBounds(price.value, usage.value);
  }

  /** With nothing cached all input is charged at the input rate. */
  lemma {:induction false} FreshCostIsLeast(p: PriceSnapshot, u: Usage, n: int)
    requires ActualCost(Some(p), Some(u)).Success? && u.cached == 0
    ensures u.input * p.inputRate + u.output * p.outputRate <= n * MILLION <==>
      ActualCost(Some(p), Some(u)).value <= n
  {
    ActualCostIsLeast(Some(p), Some(u), n);
  }

  /** With everything cached all input is charged at the cached rate. */
  lemma {:induction false} CachedCostIsLeast(p: PriceSnapshot, u: Usage, n: int)
    requires ActualCost(Some(p), Some(u)).Success? && u.cached == u.input
    ensures u.input * p.cachedRate + u.output * p.outputRate <= n * MILLION <==>
      ActualCost(Some(p), Some(u)).value <= n
  {
    ActualCostIsLeast(Some(p), Some(u), n);
  }

  /** One more cached token moves the price of exactly that token from the input rate to the cached rate,
      up to the rounding of the two totals. */
  lemma {:induction false} OneMoreCached(p: PriceSnapshot, u: Usage, v: Usage)
    requires ActualCost(Some(p), Some(u)).Success? && ActualCost(Some(p), Some(v)).Success?
    requires v == u.(cached := u.cached + 1)
    ensures var saved := ActualCost(Some(p), Some(u)).value - ActualCost(Some(p), Some(v)).value;
      && (saved - 1) * MILLION < p.inputRate - p.cachedRate < (saved + 1) * MILLION
      && (p.cachedRate <= p.inputRate ==> 0 <= saved) && (p.inputRate <= p.cachedRate ==> saved <= 0)
  {
    assert Weighted(p, v) == Weighted(p, u) - p.inputRate + p.cachedRate;
  }

  /** A cost is known exactly for a complete, consistent record at a complete price. */
  lemma {:induction false} CostIsKnown(price: Option<PriceSnapshot>, usage: Option<Usage>)
    ensures ActualCost(price, usage).Success? <==>
      && price.Some? && usage.Some?
      && var p, u := price.value, usage.value;
         && p.currency == "USD" && p.outputIncludesReasoning && p.boundRule == "utf8-byte-ceiling-v1"
         && p.revision != ""
         && 0 <= p.inputRate && 0 <= p.cachedRate && 0 <= p.outputRate
         && 0 <= u.cached <= u.input && 0 <= u.reasoning <= u.output
         && !u.billingUnconfirmed && !u.unpricedDimensions && !u.cacheWrite
  {}

  /** Usage inside the token limits never costs more than what was reserved for it. */
  lemma {:induction false} WithinLimitsWithinReserve(p: PriceSnapshot, u: Usage, limits: Limits)
    requires ActualCost(Some(p), Some(u)).Success?
    requires u.input <= limits.maxInput && u.output <= limits.maxOutput
    ensures ActualCost(Some(p), Some(u)).value <= ReserveCost(p, limits)
  {
    var top := Max(p.inputRate, p.cachedRate);
    WeightedBounds(p, u);
    MulMono(u.input, limits.maxInput, top);
    MulMono(u.output, limits.maxOutput, p.outputRate);
    RoundUpMono(Weighted(p, u), limits.maxInput * top + limits.maxOutput * p.outputRate);
    RoundUpSubadditive(limits.maxInput * top, limits.maxOutput * p.outputRate);
  }

  /** `a` units pay for all input at either of its rates, and `b` units for all output. */
  ghost predicate PaysSeparately(p: PriceSnapshot, limits: Limits, a: int, b: int) {
    && limits.maxInput * p.inputRate <= a * 1000000 && limits.maxInput * p.cachedRate <= a * 1000000
    && limits.maxOutput * p.outputRate <= b * 1000000
  }

  /** The reserve is the least sum of two such amounts. */
  lemma {:induction false} ReserveIsLeast(p: PriceSnapshot, limits: Limits, a: int, b: int)
    requires ValidPrice(Some(p)) && 0 <= limits.maxInput && 0 <= limits.maxOutput
    ensures PaysSeparately(p, limits, a, b) ==> ReserveCost(p, limits) <= a + b
    ensures exists x, y :: PaysSeparately(p, limits, x, y) && ReserveCost(p, limits) == x + y
  {
    var top := Max(p.inputRate, p.cachedRate);
    MulMono(p.inputRate, top, limits.maxInput);
    MulMono(p.cachedRate, top, limits.maxInput);
    var x, y := RoundUp(limits.maxInput * top), RoundUp(limits.maxOutput * p.outputRate);
    assert PaysSeparately(p, limits, x, y) && ReserveCost(p, limits) == x + y;
  }

  /** The reserve is no padding: some usage inside the limits costs at most one unit less. */
  lemma {:induction false} ReserveIsTight(p: PriceSnapshot, limits: Limits) returns (u: Usage)
    requires ValidPrice(Some(p)) && 0 <= limits.maxInput && 0 <= limits.maxOutput
    ensures UsageError(Some(u)) == "" && u.input <= limits.maxInput && u.output <= limits.maxOutput
    ensures ReserveCost(p, limits) - 1 <= ActualCost(Some(p), Some(u)).value <= ReserveCost(p, limits)
  {
    var cached := if p.inputRate < p.cachedRate then limits.maxInput else 0;
    u := Usage(false, false, limits.maxInput, limits.maxOutput, cached, 0, false);
    WithinLimitsWithinReserve(p, u, limits);
    RoundUpSubadditive(limits.maxInput * Max(p.inputRate, p.cachedRate), limits.maxOutput * p.outputRate);
  }
}
