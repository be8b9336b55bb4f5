/** What a UsePod call can cost: the bound reserved before sending, and the usage-priced bound afterwards
    (adapters/usepod_adapter.py `_prepare`, `_settlement`, `_cost_estimate`; core/usepod/pricing.py). */
module UsePodPricing {
  import opened Wrappers
  import opened Json

  const TOKENS_PER_PRICE_UNIT := 1_000_000
  const PROMPT_OVERHEAD_TOKENS := 512

  /** `-((-numerator) // denominator)` */
  function CeilDiv(numerator: int, denominator: int): int
    requires denominator > 0
  {
    -((-numerator) / denominator)
  }

  /** `charge_upper_bound_microunits` */
  function ChargeBound(inputTokens: nat, outputTokens: nat, inputRate: nat, outputRate: nat): int {
    CeilDiv(inputTokens * inputRate + outputTokens * outputRate, TOKENS_PER_PRICE_UNIT)
  }

  /** What a dispatch fixes before it sends: the approved rates, the input bound read off the sealed body, the
      output ceiling of the envelope, and the amount reserved. */
  datatype Bounds = Bounds(inputRate: nat, outputRate: nat, inputTokenBound: nat, maxOutputTokens: nat, maxCharge: int)

  function PrepareBounds(bodyBytes: nat, maxOutputTokens: nat, inputRate: nat, outputRate: nat): Bounds {
    var inputBound := bodyBytes + PROMPT_OVERHEAD_TOKENS;
    Bounds(inputRate, outputRate, inputBound, maxOutputTokens, ChargeBound(inputBound, maxOutputTokens, inputRate, outputRate))
  }

  /** The reserved amount is the one the bound's own rates and ceilings give. */
  predicate Priced(b: Bounds) {
    b.maxCharge == ChargeBound(b.inputTokenBound, b.maxOutputTokens, b.inputRate, b.outputRate)
  }

  /** `_usage_int`: the first key holding a non-negative integer; JSON booleans are not integers here. */
  function UsageInt(usage: map<string, Json>, first: string, second: string): Option<nat> {
    match Get(usage, first)
    case JInt(n) => if n >= 0 then Some(n) else UsageAt(usage, second)
    case _ => UsageAt(usage, second)
  }

  function UsageAt(usage: map<string, Json>, key: string): Option<nat> {
    match Get(usage, key)
    case JInt(n) => if n >= 0 then Some(n) else None
    case _ => None
  }

  datatype Outcome = Completed | RouteViolated | RouteUnverified | FailedAfterSend | PartialStream | OutcomeUnknown

  datatype Settlement = Settlement(
    outcome: Outcome,
    inputTokens: Option<nat>,
    outputTokens: Option<nat>,
    upperBound: Option<int>,      // reported usage at the approved ceilings; None when usage was not reported
    exceedsLiability: bool)

  /** `_settlement` */
  function SettlementFor(b: Bounds, outcome: Outcome, usage: map<string, Json>): Settlement {
    var input := UsageInt(usage, "prompt_tokens", "input_tokens");
    var output := UsageInt(usage, "completion_tokens", "output_tokens");
    Settlement(outcome, input, output,
               if input.Some? && output.Some? then Some(ChargeBound(input.value, output.value, b.inputRate, b.outputRate)) else None,
               (input.Some? && input.value > b.inputTokenBound) || (output.Some? && output.value > b.maxOutputTokens))
  }

  /** The amount of `_cost_estimate`. */
  function CostEstimate(b: Bounds, s: Settlement): int {
    if s.upperBound.Some? then s.upperBound.value else b.maxCharge
  }

  // ----- rounding -----

  /** The quotient is the ceiling: the least whole number of microunits that covers the exact amount. */
  lemma CeilDivIsCeiling(n: int, d: int, q: int)
    requires d > 0
    ensures CeilDiv(n, d) <= q <==> n <= q * d
  {
    var p := -n;
    assert p == (p / d) * d + p % d;
    if n <= q * d {
      QuotientAtLeast(p, d, -q);
    } else if CeilDiv(n, d) <= q {
      assert -q <= p / d;
      MulMonotone(-q, p / d, d);
    }
  }

  lemma MulMonotone(x: int, y: int, k: int)
    requires x <= y && 0 <= k
    ensures x * k <= y * k
  {
  }

  lemma QuotientAtLeast(p: int, d: int, m: int)
    requires d > 0 && m * d <= p
    ensures m <= p / d
  {
    assert (p / d + 1) * d == (p / d) * d + d;
    if p / d < m {
      MulMonotone(p / d + 1, m, d);
    }
  }

  lemma CeilDivMonotone(m: int, n: int, d: int)
    requires d > 0 && m <= n
    ensures CeilDiv(m, d) <= CeilDiv(n, d)
  {
    CeilDivIsCeiling(n, d, CeilDiv(n, d));
    CeilDivIsCeiling(m, d, CeilDiv(n, d));
  }

  lemma ChargeMonotone(i: nat, j: nat, o: nat, p: nat, inputRate: nat, outputRate: nat)
    requires i <= j && o <= p
    ensures ChargeBound(i, o, inputRate, outputRate) <= ChargeBound(j, p, inputRate, outputRate)
  {
    MulMonotone(i, j, inputRate);
    MulMonotone(o, p, outputRate);
    CeilDivMonotone(i * inputRate + o * outputRate, j * inputRate + p * outputRate, TOKENS_PER_PRICE_UNIT);
  }

  // ----- the bound holds -----

  /** Unless the settlement says that usage exceeded the liability bound, neither its usage-priced upper bound nor the
      cost estimate exceeds what was reserved before sending, for all rates and token counts. */
  lemma SettlementWithinReservation(b: Bounds, outcome: Outcome, usage: map<string, Json>)
    requires Priced(b)
    ensures var s := SettlementFor(b, outcome, usage);
            !s.exceedsLiability ==>
              && (s.upperBound.Some? ==> s.upperBound.value <= b.maxCharge)
              && CostEstimate(b, s) <= b.maxCharge
  {
    var s := SettlementFor(b, outcome, usage);
    if !s.exceedsLiability && s.upperBound.Some? {
      ChargeMonotone(s.inputTokens.value, b.inputTokenBound, s.outputTokens.value, b.maxOutputTokens, b.inputRate, b.outputRate);
    }
  }

  /** A prepared dispatch always has a positive liability: the price headers refuse a ceiling below one microunit,
      and the input bound counts the provider's overhead, so `ProviderLiability` never refuses its amount. */
  lemma PreparedLiabilityIsPositive(bodyBytes: nat, maxOutputTokens: nat, inputRate: nat, outputRate: nat)
    requires maxOutputTokens >= 1 && inputRate >= 1 && outputRate >= 1
    ensures var b := PrepareBounds(bodyBytes, maxOutputTokens, inputRate, outputRate);
            Priced(b) && b.maxCharge >= 1
  {
    var b := PrepareBounds(bodyBytes, maxOutputTokens, inputRate, outputRate);
    MulMonotone(1, b.inputTokenBound, inputRate);
    var n := b.inputTokenBound * inputRate + maxOutputTokens * outputRate;
    assert maxOutputTokens * outputRate >= 0;
    CeilDivIsCeiling(n, TOKENS_PER_PRICE_UNIT, 0);
  }

  // ----- the amounts, in tokens and rates -----

  /** The amount reserved is the least whole number of microunits that covers the whole body, 512 tokens of overhead and the
      full output ceiling, each at its own rate in microunits per million tokens. */
  lemma PreparedChargeIsExact(bodyBytes: nat, maxOutputTokens: nat, inputRate: nat, outputRate: nat, q: int)
    ensures var b := PrepareBounds(bodyBytes, maxOutputTokens, inputRate, outputRate);
            && (b.maxCharge <= q <==> (bodyBytes + 512) * inputRate + maxOutputTokens * outputRate <= q * 1_000_000)
            && b.inputTokenBound == bodyBytes + 512 && b.maxOutputTokens == maxOutputTokens
            && b.inputRate == inputRate && b.outputRate == outputRate
  {
    CeilDivIsCeiling((bodyBytes + 512) * inputRate + maxOutputTokens * outputRate, 1_000_000, q);
  }

  /** The usage holds this many tokens under the first of the two keys that names a non-negative integer. */
  predicate Reports(usage: map<string, Json>, first: string, second: string, n: nat) {
    || (first in usage && usage[first] == JInt(n))
    || (second in usage && usage[second] == JInt(n)
        && !(first in usage && usage[first].JInt? && usage[first].n >= 0))
  }

  lemma ReportedIff(usage: map<string, Json>, first: string, second: string, n: nat)
    ensures UsageInt(usage, first, second) == Some(n) <==> Reports(usage, first, second, n)
    ensures UsageInt(usage, first, second) == None <==> forall m: nat :: !Reports(usage, first, second, m)
  {
    if UsageInt(usage, first, second).Some? {
      assert Reports(usage, first, second, UsageInt(usage, first, second).value);
    }
  }

  /** A settlement says the token counts the usage reports, prices them at their own rates, and is flagged exactly when one of
      them is beyond its ceiling. Where a count is missing there is no price. */
  lemma SettlementSaysUsage(b: Bounds, outcome: Outcome, usage: map<string, Json>, i: nat, o: nat, q: int)
    ensures var s := SettlementFor(b, outcome, usage);
            && s.outcome == outcome
            && (s.inputTokens == Some(i) <==> Reports(usage, "prompt_tokens", "input_tokens", i))
            && (s.outputTokens == Some(o) <==> Reports(usage, "completion_tokens", "output_tokens", o))
            && (s.upperBound.Some? <==> s.inputTokens.Some? && s.outputTokens.Some?)
            && (s.inputTokens == Some(i) && s.outputTokens == Some(o) ==>
                  && (s.upperBound.value <= q <==> i * b.inputRate + o * b.outputRate <= q * 1_000_000)
                  && (s.exceedsLiability <==> i > b.inputTokenBound || o > b.maxOutputTokens))
  {
    ReportedIff(usage, "prompt_tokens", "input_tokens", i);
    ReportedIff(usage, "completion_tokens", "output_tokens", o);
    CeilDivIsCeiling(i * b.inputRate + o * b.outputRate, 1_000_000, q);
  }

  /** With one count missing, the flag answers for the other alone, with both missing there is none, and the estimate is the
      whole reservation. */
  lemma FlagOfPartialUsage(b: Bounds, outcome: Outcome, usage: map<string, Json>)
    ensures var s := SettlementFor(b, outcome, usage);
            && (s.inputTokens == None || s.outputTokens == None ==> CostEstimate(b, s) == b.maxCharge)
            && (s.inputTokens == None ==> (s.exceedsLiability <==> s.outputTokens.Some? && s.outputTokens.value > b.maxOutputTokens))
            && (s.outputTokens == None ==> (s.exceedsLiability <==> s.inputTokens.Some? && s.inputTokens.value > b.inputTokenBound))
  {
  }

  /** Where usage is reported in full, the cost estimate is the priced usage. */
  lemma EstimateSaysUsage(b: Bounds, outcome: Outcome, usage: map<string, Json>, i: nat, o: nat, q: int)
    requires Reports(usage, "prompt_tokens", "input_tokens", i) && Reports(usage, "completion_tokens", "output_tokens", o)
    ensures CostEstimate(b, SettlementFor(b, outcome, usage)) <= q <==> i * b.inputRate + o * b.outputRate <= q * 1_000_000
  {
    SettlementSaysUsage(b, outcome, usage, i, o, q);
  }
}
