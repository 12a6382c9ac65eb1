/** What an operation, and a model tier, is projected to use of each budget dimension. */
module Estimator {
  import opened Options
  import opened Budget

  datatype Rates = Rates(prompt: real, completion: real, reasoning: real, cacheRead: real, cacheWrite: real, kv: real,
    toolCall: real, planner: real, baseWatts: real, wattsPerThread: real, numaEfficiency: real)

  /** An operation; absent fields are at their defaults, cache counts fall back on the cache's own. */
  datatype Op = Op(prompt: real, completion: real, reasoning: real, cacheRead: Option<real>, cacheWrite: Option<real>,
    toolCalls: real, kvBytes: real, kvSeconds: real, retries: real, draft: real, planner: bool)

  datatype CacheState = CacheState(read: real, write: real)

  datatype Projection = Projection(p50: Dimensions, p90: Dimensions)

  const GIB := 1073741824.0

  function TokensCost(tokens: real, per1k: real): real { tokens / 1000.0 * per1k }

  /** A draft is charged its drafting and its verification less what decoding it saves, if that is positive. */
  function SpeculationSurcharge(draft: real, rate: real): real {
    if draft > 0.0 then
      AtLeastZero(TokensCost(draft, rate) * 0.25 + TokensCost(draft, rate) * 0.15 - TokensCost(draft, rate) * 0.5)
    else 0.0
  }

  function Read(op: Op, cache: CacheState): real { if op.cacheRead.Some? then op.cacheRead.value else cache.read }

  function Written(op: Op, cache: CacheState): real { if op.cacheWrite.Some? then op.cacheWrite.value else cache.write }

  function PromptCost(r: Rates, op: Op, cache: CacheState): real {
    TokensCost(AtLeastZero(op.prompt - Read(op, cache)), r.prompt) + TokensCost(Read(op, cache), r.cacheRead)
    + TokensCost(Written(op, cache), r.cacheWrite)
  }

  function OutputCost(r: Rates, op: Op): real {
    TokensCost(op.completion, r.completion) + TokensCost(op.reasoning, r.reasoning)
  }

  function CallCost(r: Rates, op: Op): real { op.toolCalls * r.toolCall + op.retries * r.toolCall * 0.5 }

  function KvCost(r: Rates, op: Op): real { op.kvBytes / GIB * op.kvSeconds * r.kv }

  function Cost(r: Rates, op: Op, cache: CacheState): real {
    PromptCost(r, op, cache) + OutputCost(r, op) + CallCost(r, op) + KvCost(r, op)
        + SpeculationSurcharge(op.draft, r.completion)
    + if op.planner then r.planner else 0.0
  }

  function Scaled(d: Dimensions, factor: real): Dimensions { map k | k in d :: d[k] * factor }

  function ProjectCost(r: Rates, op: Op, cache: CacheState): Projection {
    var p50 := map["cost_usd" := Cost(r, op, cache), "prompt_tokens" := op.prompt, "completion_tokens" := op.completion,
                   "reasoning_tokens" := op.reasoning, "tokens_total" := op.prompt + op.completion + op.reasoning,
                   "tool_calls" := op.toolCalls, "kv_bytes" := op.kvBytes];
    Projection(p50, Scaled(p50, 1.25))
  }

  function Watts(r: Rates, threads: int): real {
    r.baseWatts + (if threads < 1 then 1 else threads) as real * r.wattsPerThread * r.numaEfficiency
  }

  function ProjectEnergy(r: Rates, cpuSeconds: real, threads: int): Projection {
    var joules := AtLeastZero(cpuSeconds) * Watts(r, threads);
    Projection(map["energy_joules" := joules, "cpu_seconds" := cpuSeconds],
               map["energy_joules" := joules * 1.2, "cpu_seconds" := cpuSeconds * 1.2])
  }

  /** Dimensions of both sides are added up. */
  function Merge(a: Dimensions, b: Dimensions): Dimensions {
    map k | k in a.Keys + b.Keys :: (if k in a then a[k] else 0.0) + (if k in b then b[k] else 0.0)
  }

  /** Tiers outside one to three are priced like tier two. */
  function Multiplier(tier: int): real { if tier == 1 then 0.4 else if tier == 3 then 2.5 else 1.0 }

  function TierOp(tier: int): Op {
    Op(512.0, 256.0 * Multiplier(tier), if tier >= 2 then 64.0 else 0.0, None, None, 0.0, 0.0, 1.0, 0.0, 0.0, false)
  }

  function ProjectTier(r: Rates, tier: int, threads: int, cache: CacheState): Projection {
    var cost := ProjectCost(r, TierOp(tier), cache);
    var energy := ProjectEnergy(r, 0.5 * Multiplier(tier), threads);
    Projection(Merge(cost.p50, energy.p50), Merge(cost.p90, energy.p90))
  }

  function Pick(p: Projection, percentile: string): Dimensions { if percentile == "p90" then p.p90 else p.p50 }

  // ---- What is charged for what ----

  lemma TokensCostAdds(x: real, y: real, rate: real)
    ensures TokensCost(x + y, rate) == TokensCost(x, rate) + y / 1000.0 * rate
  {
    assert (x + y) / 1000.0 * rate == x / 1000.0 * rate + y / 1000.0 * rate;
  }

  /** The cost, but for the part that `op` and `op'` differ in. */
  lemma OutputDecides(r: Rates, op: Op, op': Op, cache: CacheState)
    requires op' == op.(completion := op'.completion, reasoning := op'.reasoning)
    ensures Cost(r, op', cache) - OutputCost(r, op') == Cost(r, op, cache) - OutputCost(r, op)
  {
  }

  lemma PromptDecides(r: Rates, op: Op, op': Op, cache: CacheState)
    requires op' == op.(prompt := op'.prompt, cacheRead := op'.cacheRead, cacheWrite := op'.cacheWrite)
    ensures Cost(r, op', cache) - PromptCost(r, op', cache) == Cost(r, op, cache) - PromptCost(r, op, cache)
  {
  }

  lemma CallsDecide(r: Rates, op: Op, op': Op, cache: CacheState)
    requires op' == op.(toolCalls := op'.toolCalls, retries := op'.retries)
    ensures Cost(r, op', cache) - CallCost(r, op') == Cost(r, op, cache) - CallCost(r, op)
  {
  }

  lemma OutputAdds(r: Rates, op: Op, x: real)
    ensures OutputCost(r, op.(completion := op.completion + x)) == OutputCost(r, op) + x / 1000.0 * r.completion
    ensures OutputCost(r, op.(reasoning := op.reasoning + x)) == OutputCost(r, op) + x / 1000.0 * r.reasoning
  {
    TokensCostAdds(op.completion, x, r.completion);
    TokensCostAdds(op.reasoning, x, r.reasoning);
  }

  lemma PromptAdds(r: Rates, op: Op, cache: CacheState, x: real)
    requires op.prompt >= Read(op, cache) && x >= 0.0
    ensures PromptCost(r, op.(prompt := op.prompt + x), cache) == PromptCost(r, op, cache) + x / 1000.0 * r.prompt
  {
    TokensCostAdds(op.prompt - Read(op, cache), x, r.prompt);
  }

  /** Further tokens of each kind are charged at that kind's rate per thousand. */
  lemma TokensCharged(r: Rates, op: Op, cache: CacheState, x: real)
    ensures Cost(r, op.(completion := op.completion + x), cache) == Cost(r, op, cache) + x / 1000.0 * r.completion
    ensures Cost(r, op.(reasoning := op.reasoning + x), cache) == Cost(r, op, cache) + x / 1000.0 * r.reasoning
    ensures op.prompt >= (if op.cacheRead.Some? then op.cacheRead.value else cache.read) && x >= 0.0 ==>
              Cost(r, op.(prompt := op.prompt + x), cache) == Cost(r, op, cache) + x / 1000.0 * r.prompt
  {
    OutputAdds(r, op, x);
    OutputDecides(r, op, op.(completion := op.completion + x), cache);
    OutputDecides(r, op, op.(reasoning := op.reasoning + x), cache);
    PromptDecides(r, op, op.(prompt := op.prompt + x), cache);
    if op.prompt >= Read(op, cache) && x >= 0.0 { PromptAdds(r, op, cache, x); }
  }

  lemma ReadAdds(r: Rates, op: Op, cache: CacheState, x: real)
    requires x >= 0.0
    ensures var read := Read(op, cache);
            PromptCost(r, op.(cacheRead := Some(read + x)), cache)
              == PromptCost(r, op, cache) + x / 1000.0 * r.cacheRead
              - if read + x <= op.prompt then x / 1000.0 * r.prompt
                else if read <= op.prompt then (op.prompt - read) / 1000.0 * r.prompt else 0.0
  {
    var read := Read(op, cache);
    TokensCostAdds(read, x, r.cacheRead);
    TokensCostAdds(op.prompt - read - x, x, r.prompt);
    TokensCostAdds(0.0, op.prompt - read, r.prompt);
    assert TokensCost(0.0, r.prompt) == 0.0;
  }

  lemma WriteAdds(r: Rates, op: Op, cache: CacheState, x: real)
    ensures PromptCost(r, op.(cacheWrite := Some(Written(op, cache) + x)), cache)
      == PromptCost(r, op, cache) + x / 1000.0 * r.cacheWrite
  {
    TokensCostAdds(Written(op, cache), x, r.cacheWrite);
  }

  /** Prompt tokens read from the cache are charged at its rate instead of the prompt's; those beyond it, too. */
  lemma CacheCharged(r: Rates, op: Op, cache: CacheState, x: real)
    requires x >= 0.0
    ensures var read := if op.cacheRead.Some? then op.cacheRead.value else cache.read;
            Cost(r, op.(cacheRead := Some(read + x)), cache) == Cost(r, op, cache) + x / 1000.0 * r.cacheRead
              - if read + x <= op.prompt then x / 1000.0 * r.prompt
                else if read <= op.prompt then (op.prompt - read) / 1000.0 * r.prompt else 0.0
    ensures var written := if op.cacheWrite.Some? then op.cacheWrite.value else cache.write;
            Cost(r, op.(cacheWrite := Some(written + x)), cache) == Cost(r, op, cache) + x / 1000.0 * r.cacheWrite
  {
    ReadAdds(r, op, cache, x);
    WriteAdds(r, op, cache, x);
    PromptDecides(r, op, op.(cacheRead := Some(Read(op, cache) + x)), cache);
    PromptDecides(r, op, op.(cacheWrite := Some(Written(op, cache) + x)), cache);
  }

  lemma CallsAdd(r: Rates, op: Op, x: real)
    ensures CallCost(r, op.(toolCalls := op.toolCalls + x)) == CallCost(r, op) + x * r.toolCall
    ensures CallCost(r, op.(retries := op.retries + x)) == CallCost(r, op) + x * (r.toolCall / 2.0)
  {
    assert (op.toolCalls + x) * r.toolCall == op.toolCalls * r.toolCall + x * r.toolCall;
    HalfCalls(op.retries, x, r.toolCall);
  }

  /** A retry is charged half a tool call, and a planner its rate. */
  lemma CallsCharged(r: Rates, op: Op, cache: CacheState, x: real)
    ensures Cost(r, op.(toolCalls := op.toolCalls + x), cache) == Cost(r, op, cache) + x * r.toolCall
    ensures Cost(r, op.(retries := op.retries + x), cache) == Cost(r, op, cache) + x * (r.toolCall / 2.0)
    ensures Cost(r, op.(planner := true), cache) == Cost(r, op.(planner := false), cache) + r.planner
  {
    CallsAdd(r, op, x);
    CallsDecide(r, op, op.(toolCalls := op.toolCalls + x), cache);
    CallsDecide(r, op, op.(retries := op.retries + x), cache);
  }

  /** A draft has no charge of its own, but for a negative rate. */
  lemma DraftCharged(r: Rates, op: Op, cache: CacheState)
    ensures Cost(r, op, cache) == Cost(r, op.(draft := 0.0), cache)
      + if op.draft > 0.0 && r.completion < 0.0 then op.draft / 1000.0 * -r.completion * 0.1 else 0.0
  {
    NoSurcharge(op.draft, r.completion);
  }

  /** A gibibyte of cache is charged its rate for every second it is held. */
  lemma HeldCharged(r: Rates, op: Op, cache: CacheState, x: real)
    ensures Cost(r, op.(kvBytes := op.kvBytes + x * 1024.0 * 1024.0 * 1024.0), cache)
      == Cost(r, op, cache) + x * (op.kvSeconds * r.kv)
  {
    assert (op.kvBytes + x * GIB) / GIB == op.kvBytes / GIB + x;
    Distributes(op.kvBytes / GIB, x, op.kvSeconds, r.kv);
  }

  lemma HalfCalls(a: real, x: real, rate: real)
    ensures (a + x) * rate * 0.5 == a * rate * 0.5 + x * (rate / 2.0)
  {
    assert (a + x) * rate == a * rate + x * rate;
  }

  lemma Distributes(a: real, x: real, y: real, z: real)
    ensures (a + x) * y * z == a * y * z + x * (y * z)
  {
    assert (a + x) * y == a * y + x * y;
    assert (a * y + x * y) * z == a * y * z + x * y * z;
    assert x * y * z == x * (y * z);
  }

  /** Doing nothing costs nothing. */
  lemma NothingIsFree(r: Rates)
    ensures Cost(r, Op(0.0, 0.0, 0.0, None, None, 0.0, 0.0, 1.0, 0.0, 0.0, false), CacheState(0.0, 0.0)) == 0.0
  {
  }

  ghost predicate Projected(p: Projection, dim: string, median: real, upper: real) {
    && dim in p.p50 && dim in p.p90
    && p.p50[dim] == median && p.p90[dim] == upper
  }

  lemma TierCost(r: Rates, tier: int)
    ensures var completion := if tier == 1 then 102.4 else if tier == 3 then 640.0 else 256.0;
            Cost(r, TierOp(tier), CacheState(0.0, 0.0)) == 0.512 * r.prompt + completion / 1000.0 * r.completion
              + (if tier >= 2 then 0.064 else 0.0) * r.reasoning
  {
    NothingIsFree(r);
  }

  lemma OpNeeds(r: Rates, op: Op, cache: CacheState)
    ensures var p := ProjectCost(r, op, cache); var total := op.prompt + op.completion + op.reasoning;
            && Projected(p, "cost_usd", Cost(r, op, cache), Cost(r, op, cache) * 1.25)
            && Projected(p, "prompt_tokens", op.prompt, op.prompt * 1.25)
            && Projected(p, "completion_tokens", op.completion, op.completion * 1.25)
            && Projected(p, "reasoning_tokens", op.reasoning, op.reasoning * 1.25)
            && Projected(p, "tokens_total", total, total * 1.25)
            && Projected(p, "tool_calls", op.toolCalls, op.toolCalls * 1.25)
            && Projected(p, "kv_bytes", op.kvBytes, op.kvBytes * 1.25)
    ensures var p := ProjectCost(r, op, cache); p.p50.Keys == p.p90.Keys == OP_DIMENSIONS
  {
  }

  const OP_DIMENSIONS: set<string> := {"cost_usd", "prompt_tokens", "completion_tokens", "reasoning_tokens",
    "tokens_total", "tool_calls", "kv_bytes"}

  lemma MergedAt(a: Dimensions, b: Dimensions)
    requires a.Keys !! b.Keys
    ensures Merge(a, b).Keys == a.Keys + b.Keys
    ensures forall k :: k in a ==> Merge(a, b)[k] == a[k]
    ensures forall k :: k in b ==> Merge(a, b)[k] == b[k]
  {
  }

  lemma TierParts(r: Rates, tier: int, threads: int, cache: CacheState)
    ensures var p := ProjectTier(r, tier, threads, cache);
            var (c, e) := (ProjectCost(r, TierOp(tier), cache), ProjectEnergy(r, 0.5 * Multiplier(tier), threads));
            && p.p50.Keys == p.p90.Keys == OP_DIMENSIONS + {"energy_joules", "cpu_seconds"}
            && (forall k :: k in OP_DIMENSIONS ==>
                  k in p.p50 && k in p.p90 && k in c.p50 && k in c.p90 && p.p50[k] == c.p50[k] && p.p90[k] == c.p90[k])
            && (forall k :: k in e.p50 ==> k in p.p50 && k in p.p90 && p.p50[k] == e.p50[k] && p.p90[k] == e.p90[k])
  {
    var (c, e) := (ProjectCost(r, TierOp(tier), cache), ProjectEnergy(r, 0.5 * Multiplier(tier), threads));
    OpNeeds(r, TierOp(tier), cache);
    MergedAt(c.p50, e.p50);
    MergedAt(c.p90, e.p90);
  }

  /** What a tier is projected to need, at the median and at the upper percentile: tokens and their cost, */
  lemma TierNeedsExactly(r: Rates, tier: int, threads: int)
    ensures var p := ProjectTier(r, tier, threads, CacheState(0.0, 0.0));
            var completion := if tier == 1 then 102.4 else if tier == 3 then 640.0 else 256.0;
            var reasoning := if tier >= 2 then 64.0 else 0.0;
            var cost := 0.512 * r.prompt + completion / 1000.0 * r.completion
              + (if tier >= 2 then 0.064 else 0.0) * r.reasoning;
            && Projected(p, "cost_usd", cost, cost * 1.25)
            && Projected(p, "prompt_tokens", 512.0, 640.0)
            && Projected(p, "completion_tokens", completion, completion * 1.25)
            && Projected(p, "reasoning_tokens", reasoning, reasoning * 1.25)
            && Projected(p, "tokens_total", 512.0 + completion + reasoning, (512.0 + completion + reasoning) * 1.25)
            && Projected(p, "tool_calls", 0.0, 0.0) && Projected(p, "kv_bytes", 0.0, 0.0)
    ensures ProjectTier(r, tier, threads, CacheState(0.0, 0.0)).p50.Keys
      == OP_DIMENSIONS + {"energy_joules", "cpu_seconds"}
  {
    TierCost(r, tier);
    OpNeeds(r, TierOp(tier), CacheState(0.0, 0.0));
    TierParts(r, tier, threads, CacheState(0.0, 0.0));
  }

  /** A machine draws its base load and a share for each thread, at least for one. */
  lemma WattsExactly(r: Rates, threads: int)
    ensures threads >= 1 ==> Watts(r, threads) == r.baseWatts + threads as real * r.wattsPerThread * r.numaEfficiency
    ensures threads < 1 ==> Watts(r, threads) == r.baseWatts + r.wattsPerThread * r.numaEfficiency
  {
  }

  lemma EnergyNeeds(r: Rates, seconds: real, threads: int)
    requires seconds >= 0.0
    ensures var p, joules := ProjectEnergy(r, seconds, threads), seconds * Watts(r, threads);
            Projected(p, "energy_joules", joules, joules * 1.2) && Projected(p, "cpu_seconds", seconds, seconds * 1.2)
  {
  }

  function TierSeconds(tier: int): real { if tier == 1 then 0.2 else if tier == 3 then 1.25 else 0.5 }

  lemma SecondsOf(tier: int)
    ensures TierSeconds(tier) == 0.5 * Multiplier(tier)
  {
  }

  /** ... and processor time and its energy. */
  lemma TierEnergyExactly(r: Rates, tier: int, threads: int, cache: CacheState)
    ensures var p, joules := ProjectTier(r, tier, threads, cache), TierSeconds(tier) * Watts(r, threads);
            && Projected(p, "energy_joules", joules, joules * 1.2)
            && Projected(p, "cpu_seconds", TierSeconds(tier), TierSeconds(tier) * 1.2)
  {
    SecondsOf(tier);
    EnergyNeeds(r, TierSeconds(tier), threads);
    TierParts(r, tier, threads, cache);
  }

  /** The upper percentile is taken when it is asked for, the median otherwise. */
  lemma PickExactly(p: Projection, percentile: string)
    ensures Pick(p, "p90") == p.p90 && (percentile != "p90" ==> Pick(p, percentile) == p.p50)
  {
  }

  // ---- Monotonicity ----

  ghost predicate NonNegative(r: Rates) {
    && r.prompt >= 0.0 && r.completion >= 0.0 && r.reasoning >= 0.0 && r.cacheRead >= 0.0 && r.cacheWrite >= 0.0
    && r.kv >= 0.0 && r.toolCall >= 0.0 && r.planner >= 0.0
    && r.baseWatts >= 0.0 && r.wattsPerThread >= 0.0 && r.numaEfficiency >= 0.0
  }

  ghost predicate AtMost(a: Dimensions, b: Dimensions) {
    a.Keys == b.Keys && forall k :: k in a ==> a[k] <= b[k]
  }

  lemma ProductMonotone(x: real, y: real, rate: real)
    requires x <= y && rate >= 0.0
    ensures x * rate <= y * rate
  {
  }

  lemma TokensCostMonotone(x: real, y: real, rate: real)
    requires x <= y && rate >= 0.0
    ensures TokensCost(x, rate) <= TokensCost(y, rate)
  {
    ProductMonotone(x / 1000.0, y / 1000.0, rate);
  }

  /** The surcharge for a draft is zero, as more is taken to be saved than is spent; only a negative rate makes one. */
  lemma NoSurcharge(draft: real, rate: real)
    ensures SpeculationSurcharge(draft, rate)
      == if draft > 0.0 && rate < 0.0 then draft / 1000.0 * -rate * 0.1 else 0.0
  {
    var cost := TokensCost(draft, rate);
    assert cost * 0.25 + cost * 0.15 - cost * 0.5 == cost * -0.1;
    if draft > 0.0 { assert draft / 1000.0 > 0.0 && (rate < 0.0 <==> cost < 0.0); }
  }

  /** Drafting is projected as completing as many tokens. */
  function SpeculateOp(draft: int): Op {
    Op(0.0, draft as real, 0.0, None, None, 0.0, 0.0, 1.0, 0.0, draft as real, false)
  }

  /** So a speculation costs what completing its draft without speculation would: no surcharge, and no saving. */
  lemma SpeculationCostsItsDraft(r: Rates, draft: int, cache: CacheState)
    requires r.completion >= 0.0
    ensures Cost(r, SpeculateOp(draft), cache) == Cost(r, SpeculateOp(draft).(draft := 0.0), cache)
    ensures Cost(r, SpeculateOp(draft), CacheState(0.0, 0.0)) == TokensCost(draft as real, r.completion)
  {
    NoSurcharge(draft as real, r.completion);
    assert TokensCost(0.0, r.prompt) == 0.0 && TokensCost(0.0, r.reasoning) == 0.0;
    assert TokensCost(0.0, r.cacheRead) == 0.0 && TokensCost(0.0, r.cacheWrite) == 0.0;
  }

  ghost predicate OpAtMost(a: Op, b: Op) {
    && a.prompt <= b.prompt && a.completion <= b.completion && a.reasoning <= b.reasoning
    && a.cacheRead == b.cacheRead && a.cacheWrite == b.cacheWrite
    && a.toolCalls <= b.toolCalls && 0.0 <= a.kvBytes <= b.kvBytes && 0.0 <= a.kvSeconds <= b.kvSeconds
    && a.retries <= b.retries && (a.planner ==> b.planner)
  }

  lemma PromptCostMonotone(r: Rates, a: Op, b: Op, cache: CacheState)
    requires NonNegative(r) && OpAtMost(a, b)
    ensures PromptCost(r, a, cache) <= PromptCost(r, b, cache)
  {
    TokensCostMonotone(AtLeastZero(a.prompt - Read(a, cache)), AtLeastZero(b.prompt - Read(b, cache)), r.prompt);
  }

  lemma OutputCostMonotone(r: Rates, a: Op, b: Op)
    requires NonNegative(r) && OpAtMost(a, b)
    ensures OutputCost(r, a) <= OutputCost(r, b)
  {
    TokensCostMonotone(a.completion, b.completion, r.completion);
    TokensCostMonotone(a.reasoning, b.reasoning, r.reasoning);
  }

  lemma CallCostMonotone(r: Rates, a: Op, b: Op)
    requires NonNegative(r) && OpAtMost(a, b)
    ensures CallCost(r, a) <= CallCost(r, b)
  {
    ProductMonotone(a.toolCalls, b.toolCalls, r.toolCall);
    ProductMonotone(a.retries, b.retries, r.toolCall);
  }

  lemma KvCostMonotone(r: Rates, a: Op, b: Op)
    requires NonNegative(r) && OpAtMost(a, b)
    ensures KvCost(r, a) <= KvCost(r, b)
  {
    KvMonotone(a.kvBytes / GIB, b.kvBytes / GIB, a.kvSeconds, b.kvSeconds, r.kv);
  }

  /** An operation that asks for no less of anything costs no less. */
  lemma CostMonotone(r: Rates, a: Op, b: Op, cache: CacheState)
    requires NonNegative(r) && OpAtMost(a, b)
    ensures Cost(r, a, cache) <= Cost(r, b, cache)
  {
    PromptCostMonotone(r, a, b, cache);
    OutputCostMonotone(r, a, b);
    CallCostMonotone(r, a, b);
    KvCostMonotone(r, a, b);
    NoSurcharge(a.draft, r.completion);
    NoSurcharge(b.draft, r.completion);
  }

  lemma KvMonotone(x: real, y: real, s: real, t: real, rate: real)
    requires 0.0 <= x <= y && 0.0 <= s <= t && rate >= 0.0
    ensures x * s * rate <= y * t * rate
  {
    ProductMonotone(x, y, s);
    ProductMonotone(s, t, y);
    ProductMonotone(x * s, y * t, rate);
  }

  lemma ScaledMonotone(a: Dimensions, b: Dimensions, factor: real)
    requires AtMost(a, b) && factor >= 0.0
    ensures AtMost(Scaled(a, factor), Scaled(b, factor))
  {
    forall k | k in a ensures a[k] * factor <= b[k] * factor { ProductMonotone(a[k], b[k], factor); }
  }

  lemma MergeMonotone(a: Dimensions, b: Dimensions, x: Dimensions, y: Dimensions)
    requires AtMost(a, b) && AtMost(x, y)
    ensures AtMost(Merge(a, x), Merge(b, y))
  {
  }

  lemma ProjectCostMonotone(r: Rates, a: Op, b: Op, cache: CacheState)
    requires NonNegative(r) && OpAtMost(a, b)
    ensures AtMost(ProjectCost(r, a, cache).p50, ProjectCost(r, b, cache).p50)
    ensures AtMost(ProjectCost(r, a, cache).p90, ProjectCost(r, b, cache).p90)
  {
    CostMonotone(r, a, b, cache);
    ScaledMonotone(ProjectCost(r, a, cache).p50, ProjectCost(r, b, cache).p50, 1.25);
  }

  lemma WattsNonNegative(r: Rates, threads: int)
    requires NonNegative(r)
    ensures Watts(r, threads) >= 0.0
  {
    var perThread := (if threads < 1 then 1 else threads) as real * r.wattsPerThread;
    assert perThread >= 0.0;
    assert perThread * r.numaEfficiency >= 0.0;
  }

  lemma ProjectEnergyMonotone(r: Rates, s: real, t: real, threads: int)
    requires NonNegative(r) && s <= t
    ensures AtMost(ProjectEnergy(r, s, threads).p50, ProjectEnergy(r, t, threads).p50)
    ensures AtMost(ProjectEnergy(r, s, threads).p90, ProjectEnergy(r, t, threads).p90)
  {
    WattsNonNegative(r, threads);
    ProductMonotone(AtLeastZero(s), AtLeastZero(t), Watts(r, threads));
  }

  /** Every dimension of the projection grows with the tier when its multiplier does, as it does from one to three. */
  lemma TierMonotone(r: Rates, s: int, t: int, threads: int, cache: CacheState, percentile: string)
    requires NonNegative(r) && s <= t && Multiplier(s) <= Multiplier(t)
    ensures AtMost(Pick(ProjectTier(r, s, threads, cache), percentile),
        Pick(ProjectTier(r, t, threads, cache), percentile))
  {
    ProjectCostMonotone(r, TierOp(s), TierOp(t), cache);
    ProjectEnergyMonotone(r, 0.5 * Multiplier(s), 0.5 * Multiplier(t), threads);
    var (cs, ct) := (ProjectCost(r, TierOp(s), cache), ProjectCost(r, TierOp(t), cache));
    var (es, et) := (ProjectEnergy(r, 0.5 * Multiplier(s), threads), ProjectEnergy(r, 0.5 * Multiplier(t), threads));
    MergeMonotone(cs.p50, ct.p50, es.p50, et.p50);
    MergeMonotone(cs.p90, ct.p90, es.p90, et.p90);
  }

  /** Below tier one all tiers cost the same. */
  lemma LowTiersAlike(r: Rates, t: int, threads: int, cache: CacheState)
    requires t < 1
    ensures ProjectTier(r, t, threads, cache) == ProjectTier(r, 0, threads, cache)
  {
  }

  /** Above tier three nothing is dearer than tier two. */
  lemma HighTiersLikeTwo(r: Rates, t: int, threads: int, cache: CacheState)
    requires t > 3
    ensures ProjectTier(r, t, threads, cache) == ProjectTier(r, 2, threads, cache)
  {
  }
}
