/** Reservation and bill arithmetic of the budget proxy (wevibe_bench/adapters/openrouter_proxy.py). */
module Pricing {
  import opened RealArith
  import opened Wrappers

  const RESERVATION_SAFETY_FACTOR := 1.10
  const FEE_RATE := 0.06
  const FLAT_FEE_USD := 0.001
  const PER_MILLION := 1_000_000.0

  /** A price row in USD per million tokens. */
  datatype PriceRow = PriceRow(input: real, output: real, cacheRead: Option<real>, cacheWrite: Option<real>)
  {
    function CacheWriteRate(): real { if cacheWrite.Some? then cacheWrite.value else input }

    /** The rate of input that may miss the cache: the dearer of input and cache write. */
    function FreshRate(): real { RMax(input, CacheWriteRate()) }

    /** The rate the bill uses for cached prompt tokens. */
    function CacheReadRate(): real { if cacheRead.Some? then cacheRead.value else input }

    /** The rate the reservation uses for the proven prefix. */
    function CachedRate(): real {
      RMin(if cacheRead.Some? then cacheRead.value else FreshRate(), FreshRate())
    }

    /** Output is not paid to the caller, and a cache read is never dearer than a fresh token. */
    predicate Sane() {
      0.0 <= output && 0.0 <= CacheReadRate() <= FreshRate()
    }
  }

  function Max0(n: int): nat { if n < 0 then 0 else n }
  function Min(a: int, b: int): int { if b < a then b else a }

  /** The input part of the reservation, per million: the proven prefix at the cached rate, the rest fresh. */
  function InputCap(inputUb: int, row: PriceRow, cachedUb: int): real {
    var cached := Max0(Min(cachedUb, inputUb));
    Mul(cached as real, row.CachedRate()) + Mul((inputUb - cached) as real, row.FreshRate())
  }

  /** worst_case_usd once the profile's price row is known. */
  function WorstCaseUsd(inputUb: int, row: PriceRow, maxTokensCap: int, maxReasoning: int, cachedUb: int): real {
    var costIn := InputCap(inputUb, row, cachedUb) / PER_MILLION;
    var costOut := Mul((maxTokensCap + maxReasoning) as real, row.output) / PER_MILLION;
    (costIn + costOut) * (1.0 + FEE_RATE) * RESERVATION_SAFETY_FACTOR + FLAT_FEE_USD
  }

  datatype Reservation = Blocked(reason: string) | Reserve(usd: real)

  /** worst_case_usd on a profile, which may carry no prices. */
  function ProfileWorstCase(inputUb: int, pricing: Option<PriceRow>, maxTokensCap: int, maxReasoning: int, cachedUb: int): Reservation {
    match pricing
    case None => Blocked("pricing_missing")
    case Some(row) => Reserve(WorstCaseUsd(inputUb, row, maxTokensCap, maxReasoning, cachedUb))
  }

  /** Usage evidence as reported by the upstream; counts may be garbage. */
  datatype Usage = Usage(prompt: int, cached: int, completion: int, cacheWrite: int)

  /** The prompt split into tokens read from the cache, written to it, and neither. */
  datatype Split = Split(cached: nat, written: nat, plain: nat)

  function SplitPrompt(u: Usage): (s: Split)
    ensures s.cached + s.written + s.plain == Max0(u.prompt)
    ensures s.cached <= Max0(u.cached) && s.written <= Max0(u.cacheWrite)
    ensures s.cached < Max0(u.cached) ==> s.written == s.plain == 0
    ensures s.written < Max0(u.cacheWrite) ==> s.plain == 0
  {
    var prompt := Max0(u.prompt);
    var cached := Min(prompt, Max0(u.cached));
    var uncached := Max0(prompt - cached);
    var written := Min(uncached, Max0(u.cacheWrite));
    Split(cached, written, Max0(uncached - written))
  }

  /** The total of derived_cost_breakdown_usd. */
  function DerivedCostUsd(u: Usage, row: PriceRow): real {
    var s := SplitPrompt(u);
    Mul(s.plain as real, row.input) / PER_MILLION
    + Mul(s.cached as real, row.CacheReadRate()) / PER_MILLION
    + Mul(s.written as real, row.CacheWriteRate()) / PER_MILLION
    + Mul(Max0(u.completion) as real, row.output) / PER_MILLION
  }

  /** The usage stays inside the bounds the reservation was computed from. */
  predicate WithinBounds(u: Usage, inputUb: int, maxTokensCap: int, maxReasoning: int, cachedUb: int) {
    && Max0(u.prompt) <= inputUb
    && Min(Max0(u.prompt), Max0(cachedUb)) <= Max0(u.cached)
    && Max0(u.completion) <= maxTokensCap + maxReasoning
  }

  // ----- the amounts themselves -----

  /** What consistent usage is billed: each kind of token at its own rate per million. */
  lemma BillIs(u: Usage, row: PriceRow)
    requires 0 <= u.cached && 0 <= u.cacheWrite && u.cached + u.cacheWrite <= u.prompt && 0 <= u.completion
    ensures
      var read := if row.cacheRead.Some? then row.cacheRead.value else row.input;
      var write := if row.cacheWrite.Some? then row.cacheWrite.value else row.input;
      DerivedCostUsd(u, row)
      == (Mul((u.prompt - u.cached - u.cacheWrite) as real, row.input) + Mul(u.cached as real, read)
          + Mul(u.cacheWrite as real, write) + Mul(u.completion as real, row.output)) / 1_000_000.0
  {
  }

  /** Any other usage is billed as consistent usage: negative counts as nothing, no more cached tokens than the
      prompt has, and no more written ones than it then has left. */
  lemma BillClamps(u: Usage, row: PriceRow)
    ensures
      var p := if u.prompt < 0 then 0 else u.prompt;
      var c := if u.cached < 0 then 0 else if u.cached > p then p else u.cached;
      var w := if u.cacheWrite < 0 then 0 else if u.cacheWrite > p - c then p - c else u.cacheWrite;
      DerivedCostUsd(u, row) == DerivedCostUsd(Usage(p, c, if u.completion < 0 then 0 else u.completion, w), row)
  {
  }

  /** What is reserved: the proven prefix at the cached rate and the rest of the prompt at the dearer of the
      input and cache write rates, all output at its rate, a fee of 6 %, a safety factor of 1.1 and 0.1 cent. */
  lemma ReservationIs(inputUb: nat, row: PriceRow, maxTokensCap: int, maxReasoning: int, cachedUb: nat)
    requires cachedUb <= inputUb
    ensures
      var dear := if row.cacheWrite.Some? && row.cacheWrite.value > row.input then row.cacheWrite.value else row.input;
      var cached := if row.cacheRead.Some? && row.cacheRead.value < dear then row.cacheRead.value else dear;
      WorstCaseUsd(inputUb, row, maxTokensCap, maxReasoning, cachedUb)
      == (Mul(cachedUb as real, cached) + Mul((inputUb - cachedUb) as real, dear)
          + Mul((maxTokensCap + maxReasoning) as real, row.output)) / 1_000_000.0 * 1.06 * 1.10 + 0.001
  {
  }

  // ----- the reservation dominates the bill -----

  /** Moving tokens from the full rate to the cheaper cached rate never raises the cost. */
  lemma InputCost(cached: real, full: real, cachedCap: real, fullCap: real, low: real, high: real)
    requires 0.0 <= low <= high && cached + full <= cachedCap + fullCap && full <= fullCap
    ensures Mul(cached, low) + Mul(full, high) <= Mul(cachedCap, low) + Mul(fullCap, high)
  {
    MulMono(full, fullCap, high - low);
    MulMono(cached + full, cachedCap + fullCap, low);
    MulAdd(high, low, full);
    MulAdd(high, low, fullCap);
    MulAdd(cached, full, low);
    MulAdd(cachedCap, fullCap, low);
  }

  /** The prompt's bill is at most the input part of the reservation, which is not negative. */
  lemma InputDominates(plain: real, written: real, cached: real, cachedCap: real, freshCap: real, row: PriceRow)
    requires row.Sane() && 0.0 <= plain && 0.0 <= written && 0.0 <= cachedCap
    requires plain + written + cached <= cachedCap + freshCap && plain + written <= freshCap
    ensures Mul(plain, row.input) + Mul(cached, row.CacheReadRate()) + Mul(written, row.CacheWriteRate())
         <= Mul(cachedCap, row.CachedRate()) + Mul(freshCap, row.FreshRate())
    ensures 0.0 <= Mul(cachedCap, row.CachedRate()) + Mul(freshCap, row.FreshRate())
  {
    var low, high := row.CacheReadRate(), row.FreshRate();
    InputCost(cached, plain + written, cachedCap, freshCap, low, high);
    MulAdd(plain, written, high);
    MulMono(low, row.CachedRate(), cachedCap);
    MulMono(row.input, high, plain);
    MulMono(row.CacheWriteRate(), high, written);
    MulNonNegative(cachedCap, row.CachedRate());
    MulNonNegative(freshCap, high);
  }

  /** A bill with the fees and the safety margin a reservation adds. */
  function WithFees(usd: real): real {
    RMax(0.0, usd) * (1.0 + FEE_RATE) * RESERVATION_SAFETY_FACTOR + FLAT_FEE_USD
  }

  /** What a reservation covers before its fees. */
  function Cap(inputUb: int, row: PriceRow, maxTokensCap: int, maxReasoning: int, cachedUb: int): real {
    InputCap(inputUb, row, cachedUb) / PER_MILLION + Mul((maxTokensCap + maxReasoning) as real, row.output) / PER_MILLION
  }

  lemma Padded(bill: real, worst: real)
    requires 0.0 <= worst
    ensures WithFees(bill) <= worst * (1.0 + FEE_RATE) * RESERVATION_SAFETY_FACTOR + FLAT_FEE_USD <==> bill <= worst
    ensures WithFees(bill) == worst * (1.0 + FEE_RATE) * RESERVATION_SAFETY_FACTOR + FLAT_FEE_USD <==> RMax(0.0, bill) == worst
  {
  }

  function InputBill(s: Split, row: PriceRow): real {
    Mul(s.plain as real, row.input) + Mul(s.cached as real, row.CacheReadRate()) + Mul(s.written as real, row.CacheWriteRate())
  }

  lemma PromptDominated(u: Usage, row: PriceRow, inputUb: int, cachedUb: int)
    requires row.Sane() && Max0(u.prompt) <= inputUb && Min(Max0(u.prompt), Max0(cachedUb)) <= Max0(u.cached)
    ensures InputBill(SplitPrompt(u), row) <= InputCap(inputUb, row, cachedUb)
    ensures 0.0 <= InputCap(inputUb, row, cachedUb)
  {
    var s, reserved := SplitPrompt(u), Max0(Min(cachedUb, inputUb));
    InputDominates(s.plain as real, s.written as real, s.cached as real, reserved as real, (inputUb - reserved) as real, row);
  }

  lemma BillTotal(u: Usage, row: PriceRow)
    ensures DerivedCostUsd(u, row)
         == InputBill(SplitPrompt(u), row) / PER_MILLION + Mul(Max0(u.completion) as real, row.output) / PER_MILLION
  {
  }

  /** The bill, even with the fees and the safety margin the reservation adds, never exceeds it. */
  lemma ReservationDominates(u: Usage, row: PriceRow, inputUb: int, maxTokensCap: int, maxReasoning: int, cachedUb: int)
    requires row.Sane() && WithinBounds(u, inputUb, maxTokensCap, maxReasoning, cachedUb)
    ensures WithFees(DerivedCostUsd(u, row)) <= WorstCaseUsd(inputUb, row, maxTokensCap, maxReasoning, cachedUb)
  {
    var out, outCap := Max0(u.completion) as real, (maxTokensCap + maxReasoning) as real;
    PromptDominated(u, row, inputUb, cachedUb);
    BillTotal(u, row);
    MulMono(out, outCap, row.output);
    MulNonNegative(outCap, row.output);
    Padded(DerivedCostUsd(u, row), Cap(inputUb, row, maxTokensCap, maxReasoning, cachedUb));
  }

  /** A profile is refused exactly when it has no prices; otherwise what is reserved covers every bill within the bounds. */
  lemma ReservesOrRefuses(inputUb: int, pricing: Option<PriceRow>, maxTokensCap: int, maxReasoning: int, cachedUb: int)
    ensures
      match ProfileWorstCase(inputUb, pricing, maxTokensCap, maxReasoning, cachedUb)
      case Blocked(reason) => pricing.None? && reason == "pricing_missing"
      case Reserve(usd) =>
        pricing.Some? && (pricing.value.Sane() ==>
          forall u :: WithinBounds(u, inputUb, maxTokensCap, maxReasoning, cachedUb) ==>
                        WithFees(DerivedCostUsd(u, pricing.value)) <= usd)
  {
    if pricing.Some? && pricing.value.Sane() {
      forall u | WithinBounds(u, inputUb, maxTokensCap, maxReasoning, cachedUb)
        ensures WithFees(DerivedCostUsd(u, pricing.value)) <= WorstCaseUsd(inputUb, pricing.value, maxTokensCap, maxReasoning, cachedUb)
      {
        ReservationDominates(u, pricing.value, inputUb, maxTokensCap, maxReasoning, cachedUb);
      }
    }
  }

  // ----- the reservation is the least bound -----

  /** The dearest usage that reads `cached` prompt tokens from the cache. */
  function Dearest(inputUb: nat, row: PriceRow, completion: nat, cached: nat): Usage
    requires cached <= inputUb
  {
    Usage(inputUb, cached, completion, if row.input <= row.CacheWriteRate() then inputUb - cached else 0)
  }

  lemma DearestBill(inputUb: nat, row: PriceRow, completion: nat, cached: nat)
    requires cached <= inputUb
    ensures DerivedCostUsd(Dearest(inputUb, row, completion, cached), row)
         == (Mul(cached as real, row.CacheReadRate()) + Mul((inputUb - cached) as real, row.FreshRate())) / PER_MILLION
            + Mul(completion as real, row.output) / PER_MILLION
  {
    BillTotal(Dearest(inputUb, row, completion, cached), row);
    Absent(row.input);
    Absent(row.CacheWriteRate());
  }

  lemma Absent(rate: real)
    ensures Mul(0.0, rate) == 0.0
  {
  }

  /** No usage within the bounds is billed more than the one that reads only the reserved prefix. */
  lemma BillAtMostDearest(u: Usage, row: PriceRow, inputUb: nat, maxTokensCap: int, maxReasoning: int, cachedUb: int)
    requires row.Sane() && WithinBounds(u, inputUb, maxTokensCap, maxReasoning, cachedUb)
    ensures DerivedCostUsd(u, row)
         <= DerivedCostUsd(Dearest(inputUb, row, maxTokensCap + maxReasoning, Max0(Min(cachedUb, inputUb))), row)
  {
    var s, k := SplitPrompt(u), Max0(Min(cachedUb, inputUb));
    DearestBill(inputUb, row, maxTokensCap + maxReasoning, k);
    BillTotal(u, row);
    FreshBill(s, row);
    InputCost(s.cached as real, (s.plain + s.written) as real, k as real, (inputUb - k) as real, row.CacheReadRate(), row.FreshRate());
    MulMono(Max0(u.completion) as real, (maxTokensCap + maxReasoning) as real, row.output);
  }

  lemma FreshBill(s: Split, row: PriceRow)
    ensures InputBill(s, row) <= Mul(s.cached as real, row.CacheReadRate()) + Mul((s.plain + s.written) as real, row.FreshRate())
  {
    MulMono(row.input, row.FreshRate(), s.plain as real);
    MulMono(row.CacheWriteRate(), row.FreshRate(), s.written as real);
    MulAdd(s.plain as real, s.written as real, row.FreshRate());
  }

  /** The cached tokens are reserved at the rate they are billed at, or none are reserved as cached. */
  predicate ReservedAsBilled(row: PriceRow, inputUb: int, cachedUb: int) {
    Max0(Min(cachedUb, inputUb)) == 0 || row.CachedRate() == row.CacheReadRate()
  }

  lemma CapVersusDearest(row: PriceRow, inputUb: nat, maxTokensCap: int, maxReasoning: int, cachedUb: int)
    requires row.Sane() && 0 <= maxTokensCap + maxReasoning
    ensures
      var bill := DerivedCostUsd(Dearest(inputUb, row, maxTokensCap + maxReasoning, Max0(Min(cachedUb, inputUb))), row);
      var cap := Cap(inputUb, row, maxTokensCap, maxReasoning, cachedUb);
      0.0 <= bill <= cap && 0.0 <= cap && (bill == cap <==> ReservedAsBilled(row, inputUb, cachedUb))
  {
    var k := Max0(Min(cachedUb, inputUb));
    DearestBill(inputUb, row, maxTokensCap + maxReasoning, k);
    MulNonNegative(k as real, row.CacheReadRate());
    MulNonNegative((inputUb - k) as real, row.FreshRate());
    MulNonNegative((maxTokensCap + maxReasoning) as real, row.output);
    MulMono(row.CacheReadRate(), row.CachedRate(), k as real);
    if k == 0 {
      Absent(row.CacheReadRate());
      Absent(row.CachedRate());
    } else if row.CacheReadRate() < row.CachedRate() {
      MulStrict(row.CacheReadRate(), row.CachedRate(), k as real);
    }
  }

  /** The reservation is the least such bound, billed exactly by some usage within its bounds, if and
      only if it prices the reserved prefix as the bill does. */
  lemma ReservationAttained(row: PriceRow, inputUb: nat, maxTokensCap: int, maxReasoning: int, cachedUb: int)
    requires row.Sane() && 0 <= maxTokensCap + maxReasoning
    ensures
      (exists u :: WithinBounds(u, inputUb, maxTokensCap, maxReasoning, cachedUb)
                   && WithFees(DerivedCostUsd(u, row)) == WorstCaseUsd(inputUb, row, maxTokensCap, maxReasoning, cachedUb))
      <==> ReservedAsBilled(row, inputUb, cachedUb)
  {
    var k := Max0(Min(cachedUb, inputUb));
    var top := Dearest(inputUb, row, maxTokensCap + maxReasoning, k);
    var cap := Cap(inputUb, row, maxTokensCap, maxReasoning, cachedUb);
    CapVersusDearest(row, inputUb, maxTokensCap, maxReasoning, cachedUb);
    Padded(DerivedCostUsd(top, row), cap);
    assert WithinBounds(top, inputUb, maxTokensCap, maxReasoning, cachedUb);
    if !ReservedAsBilled(row, inputUb, cachedUb) {
      forall u | WithinBounds(u, inputUb, maxTokensCap, maxReasoning, cachedUb)
        ensures WithFees(DerivedCostUsd(u, row)) != WorstCaseUsd(inputUb, row, maxTokensCap, maxReasoning, cachedUb)
      {
        BillAtMostDearest(u, row, inputUb, maxTokensCap, maxReasoning, cachedUb);
        Padded(DerivedCostUsd(u, row), cap);
      }
    }
  }

  // ----- when the reservation needs no cache -----

  /** The bounds without the cached one: what the caller controls. */
  predicate WithinPrompt(u: Usage, inputUb: int, maxTokensCap: int, maxReasoning: int) {
    Max0(u.prompt) <= inputUb && Max0(u.completion) <= maxTokensCap + maxReasoning
  }

  /** The bill of a full cache miss at both bounds. */
  function MissBill(inputUb: int, row: PriceRow, maxTokensCap: int, maxReasoning: int): real {
    Mul(inputUb as real, row.FreshRate()) / PER_MILLION + Mul((maxTokensCap + maxReasoning) as real, row.output) / PER_MILLION
  }

  /** Whatever the upstream does with its cache, the reservation covers every bill inside the prompt
      and completion bounds if and only if it covers a full miss, which is known before the call. */
  lemma CoversAnyCache(row: PriceRow, inputUb: nat, maxTokensCap: int, maxReasoning: int, cachedUb: int)
    requires row.Sane() && 0 <= maxTokensCap + maxReasoning
    ensures
      (forall u :: WithinPrompt(u, inputUb, maxTokensCap, maxReasoning) ==>
                     DerivedCostUsd(u, row) <= WorstCaseUsd(inputUb, row, maxTokensCap, maxReasoning, cachedUb))
      <==> MissBill(inputUb, row, maxTokensCap, maxReasoning) <= WorstCaseUsd(inputUb, row, maxTokensCap, maxReasoning, cachedUb)
  {
    var miss := Dearest(inputUb, row, maxTokensCap + maxReasoning, 0);
    DearestBill(inputUb, row, maxTokensCap + maxReasoning, 0);
    Absent(row.CacheReadRate());
    assert WithinPrompt(miss, inputUb, maxTokensCap, maxReasoning);
    assert DerivedCostUsd(miss, row) == MissBill(inputUb, row, maxTokensCap, maxReasoning);
    forall u | WithinPrompt(u, inputUb, maxTokensCap, maxReasoning)
      ensures DerivedCostUsd(u, row) <= MissBill(inputUb, row, maxTokensCap, maxReasoning)
    {
      BillAtMostDearest(u, row, inputUb, maxTokensCap, maxReasoning, 0);
    }
  }

  /** It does not always: with a discounted prefix and a full miss the bill can exceed the reservation. */
  lemma CacheMissExceeds()
    ensures
      var row := PriceRow(10.0, 0.0, Some(1.0), None);
      var u := Usage(1_000_000, 0, 0, 0);
      row.Sane() && !WithinBounds(u, 1_000_000, 0, 0, 1_000_000)
      && WorstCaseUsd(1_000_000, row, 0, 0, 1_000_000) < DerivedCostUsd(u, row)
  {
  }

  // ----- the max_tokens clamp of apply_policy -----

  /** body["max_tokens"]: absent or not an integer, or an integer. */
  datatype MaxTokens = NoInteger | Requested(n: int)

  /** What is forwarded keeps every usable client value under the cap and is never above it. */
  function ClampMaxTokens(client: MaxTokens, cap: int): (r: int)
    ensures r <= cap
    ensures client.Requested? && 0 < client.n <= cap ==> r == client.n
    ensures !(client.Requested? && 0 < client.n <= cap) ==> r == cap
  {
    match client
    case Requested(n) => if n > 0 then Min(n, cap) else cap
    case NoInteger => cap
  }
}
