/** The ladder without replaying it: plan and limits depend on how often each step occurred, and on nothing between. */
module LadderOutcome {
  import opened LowerCase
  import opened Budget
  import opened BudgetOptimizer
  import opened Powers

  /** What a step of the ladder changes. */
  datatype Kind = Tier | Quant | Reasoning | Prompt | Speculation | Tools | Retries | Nothing

  function KindOf(step: string): Kind {
    if step == "lower_tier" then Tier else if step == "lower_quant" then Quant
    else if step == "cut_reasoning" then Reasoning else if step == "trim_context" then Prompt
    else if step == "disable_speculation" then Speculation else if step == "drop_tools" then Tools
    else if step == "cut_retries" then Retries else Nothing
  }

  /** The kind of step that moves the limit of a category. */
  function Governor(name: string): Kind {
    if name == "memory_bytes" then Quant else if name == "reasoning_tokens" then Reasoning
    else if name == "prompt_tokens" then Prompt else if name == "tool_calls" then Tools
    else if name == "retries" then Retries else Nothing
  }

  predicate IsCount(kind: Kind) { kind.Reasoning? || kind.Prompt? || kind.Tools? || kind.Retries? }

  function KindsOf(steps: seq<string>): seq<Kind> {
    seq(|steps|, i requires 0 <= i < |steps| => KindOf(steps[i]))
  }

  lemma KindsNext(steps: seq<string>, step: string)
    ensures KindsOf(steps + [step]) == KindsOf(steps) + [KindOf(step)]
  {
  }

  ghost function Times(kinds: seq<Kind>, kind: Kind): nat { multiset(kinds)[kind] }

  lemma TimesNext(kinds: seq<Kind>, next: Kind)
    ensures forall kind :: Times(kinds + [next], kind) == Times(kinds, kind) + (if next == kind then 1 else 0)
  {
    assert multiset(kinds + [next]) == multiset(kinds) + multiset{next};
  }

  // ---- The plan ----

  function Fewer(least: int, x: int, k: nat): int { if k == 0 then x else AtLeast(least, x - k) }

  function Halved(x: int, k: nat): int { if k == 0 then x else AtLeast(0, Halved(x, k - 1) / 2) }

  function Trimmed(x: int, k: nat): int {
    if k == 0 then x else AtLeast(256, (Trimmed(x, k - 1) as real * 0.75).Floor)
  }

  /** A quantization that `lower_quant` lowers, and so records when memory is limited. */
  predicate Shrinking(q: string) { LowerAll(q) in QUANTIZATIONS && LowerAll(q) != "q3" }

  function Coarser(q: string): string {
    if LowerAll(q) !in QUANTIZATIONS then "q4"
    else if LowerAll(q) == "q3" then q else NextQuantization(LowerAll(q)).value
  }

  predicate Known(q: string) { LowerAll(q) in QUANTIZATIONS }

  /** The place in the order of quantizations; an unknown one counts as the "q4" that replaces it. */
  function Place(q: string): (r: nat)
    ensures r <= 4 && (Known(q) ==> QUANTIZATIONS[r] == LowerAll(q))
  {
    var l := LowerAll(q);
    if l == "fp16" then 0 else if l == "q8" then 1 else if l == "q5" then 2 else if l == "q3" then 4 else 3
  }

  /** How many of `k` lowerings were recorded: all down to the last quantization, but for replacing an unknown one. */
  function Shrinks(q: string, k: nat): (n: nat)
    ensures Place(q) + n <= 4
  {
    var lowered := if Known(q) || k == 0 then k else k - 1;
    if lowered < 4 - Place(q) then lowered else 4 - Place(q)
  }

  function Quantized(q: string, k: nat): string {
    if k == 0 || (Known(q) && Place(q) == 4) then q else QUANTIZATIONS[Place(q) + Shrinks(q, k)]
  }

  /** What one lowering makes of each quantization. */
  lemma CoarserPlace(q: string)
    ensures Shrinking(q) <==> Known(q) && Place(q) < 4
    ensures Coarser(q) == if Known(q) && Place(q) == 4 then q
                          else if Known(q) then QUANTIZATIONS[Place(q) + 1] else QUANTIZATIONS[3]
  {
  }

  lemma OrderPlaces(i: nat)
    requires i <= 4
    ensures Known(QUANTIZATIONS[i]) && Place(QUANTIZATIONS[i]) == i
  {
    assert LowerAll("fp16") == "fp16" && LowerAll("q8") == "q8" && LowerAll("q5") == "q5";
    assert LowerAll("q4") == "q4" && LowerAll("q3") == "q3";
  }

  lemma QuantizedNext(q: string, k: nat)
    ensures Quantized(q, k + 1) == Coarser(Quantized(q, k))
    ensures Shrinks(q, k + 1) == Shrinks(q, k) + if Shrinking(Quantized(q, k)) then 1 else 0
  {
    CoarserPlace(Quantized(q, k));
    if k > 0 { OrderPlaces(Place(q) + Shrinks(q, k)); }
  }

  function Eased(kind: Kind, p: Plan): Plan {
    match kind
    case Tier => p.(tier := AtLeast(1, p.tier - 1))
    case Quant => p.(quantization := Coarser(p.quantization))
    case Reasoning => p.(reasoningTokens := AtLeast(0, p.reasoningTokens / 2))
    case Prompt => p.(promptTokens := AtLeast(256, (p.promptTokens as real * 0.75).Floor))
    case Speculation => p.(allowSpeculation := false)
    case Tools => p.(toolCalls := AtLeast(0, p.toolCalls - 1))
    case Retries => p.(retries := AtLeast(0, p.retries - 1))
    case Nothing => p
  }

  ghost function PlanAt(plan: Plan, kinds: seq<Kind>): Plan {
    Plan(Fewer(1, plan.tier, Times(kinds, Tier)), Quantized(plan.quantization, Times(kinds, Quant)),
      Halved(plan.reasoningTokens, Times(kinds, Reasoning)), Trimmed(plan.promptTokens, Times(kinds, Prompt)),
      plan.allowSpeculation && Times(kinds, Speculation) == 0,
      Fewer(0, plan.toolCalls, Times(kinds, Tools)), Fewer(0, plan.retries, Times(kinds, Retries)))
  }

  lemma DegradeEases(step: string, cats: Categories, p: Plan)
    ensures Degrade(step, cats, p).0 == Eased(KindOf(step), p)
  {
  }

  lemma QuantizationNext(plan: Plan, kinds: seq<Kind>, next: Kind)
    ensures var p := PlanAt(plan, kinds);
            PlanAt(plan, kinds + [next]).quantization == if next.Quant? then Coarser(p.quantization) else p.quantization
  {
    TimesNext(kinds, next);
    QuantizedNext(plan.quantization, Times(kinds, Quant));
  }

  lemma TokensNext(plan: Plan, kinds: seq<Kind>, next: Kind)
    ensures var p, p' := PlanAt(plan, kinds), PlanAt(plan, kinds + [next]);
            && p'.reasoningTokens == (if next.Reasoning? then AtLeast(0, p.reasoningTokens / 2) else p.reasoningTokens)
            && p'.promptTokens == if next.Prompt? then AtLeast(256, (p.promptTokens as real * 0.75).Floor)
                                  else p.promptTokens
  {
    TimesNext(kinds, next);
  }

  lemma FewerNext(plan: Plan, kinds: seq<Kind>, next: Kind)
    ensures var p, p' := PlanAt(plan, kinds), PlanAt(plan, kinds + [next]);
            && p'.tier == (if next.Tier? then AtLeast(1, p.tier - 1) else p.tier)
            && p'.toolCalls == (if next.Tools? then AtLeast(0, p.toolCalls - 1) else p.toolCalls)
            && p'.retries == (if next.Retries? then AtLeast(0, p.retries - 1) else p.retries)
            && p'.allowSpeculation == (p.allowSpeculation && !next.Speculation?)
  {
    TimesNext(kinds, next);
  }

  lemma PlanNext(plan: Plan, kinds: seq<Kind>, next: Kind)
    ensures PlanAt(plan, kinds + [next]) == Eased(next, PlanAt(plan, kinds))
  {
    QuantizationNext(plan, kinds, next);
    TokensNext(plan, kinds, next);
    FewerNext(plan, kinds, next);
  }

  // ---- The limits ----

  function CountOf(plan: Plan, kind: Kind): real
    requires IsCount(kind)
  {
    match kind
    case Reasoning => plan.reasoningTokens as real
    case Prompt => plan.promptTokens as real
    case Tools => plan.toolCalls as real
    case Retries => plan.retries as real
  }

  function Smaller(x: real, y: real): real { if x < y then x else y }

  ghost function Shrunk(limit: real, k: nat): real { if limit < 0.0 then limit else limit * Power(0.85, k) }

  /**
   A count's limit is the smaller of its first limit and its present count, once a step has changed it;
   the memory limit loses fifteen percent with every recorded lowering; nothing else moves.
   */
  ghost function LimitAt(kind: Kind, limit: real, plan: Plan, kinds: seq<Kind>): real {
    if kind == Quant then Shrunk(limit, Shrinks(plan.quantization, Times(kinds, Quant)))
    else if IsCount(kind) && Times(kinds, kind) > 0 then Smaller(limit, CountOf(PlanAt(plan, kinds), kind))
    else limit
  }

  ghost function LimitedAt(cats: Categories, plan: Plan, kinds: seq<Kind>): Categories {
    map n | n in cats :: cats[n].(limit := LimitAt(Governor(n), cats[n].limit, plan, kinds))
  }

  lemma ShrunkNext(limit: real, k: nat)
    ensures Shrunk(limit, k + 1) == Smaller(Shrunk(limit, k) * 0.85, Shrunk(limit, k))
  {
    if limit >= 0.0 {
      PowerNotNegative(0.85, k);
      assert limit * (0.85 * Power(0.85, k)) == limit * Power(0.85, k) * 0.85;
    }
  }

  /** A count that was changed once is at its floor or above, and only falls from there. */
  lemma CountFalls(plan: Plan, kinds: seq<Kind>, next: Kind)
    requires IsCount(next) && Times(kinds, next) > 0
    ensures CountOf(PlanAt(plan, kinds + [next]), next) <= CountOf(PlanAt(plan, kinds), next)
  {
    PlanNext(plan, kinds, next);
  }

  lemma LimitNext(kind: Kind, limit: real, plan: Plan, kinds: seq<Kind>, next: Kind)
    ensures var before, after := LimitAt(kind, limit, plan, kinds), LimitAt(kind, limit, plan, kinds + [next]);
            if next != kind then after == before
            else if IsCount(kind) then after == Smaller(before, CountOf(PlanAt(plan, kinds + [next]), kind))
            else if kind == Quant && Shrinking(PlanAt(plan, kinds).quantization) then
              after == Smaller(before * 0.85, before)
            else after == before
  {
    PlanNext(plan, kinds, next);
    TimesNext(kinds, next);
    if next == kind && IsCount(kind) && Times(kinds, kind) > 0 { CountFalls(plan, kinds, next); }
    QuantizedNext(plan.quantization, Times(kinds, Quant));
    if next == kind && kind == Quant { ShrunkNext(limit, Shrinks(plan.quantization, Times(kinds, Quant))); }
  }

  /** The category whose limit a kind of step moves. */
  function NameOf(kind: Kind): string {
    match kind
    case Quant => "memory_bytes" case Reasoning => "reasoning_tokens" case Prompt => "prompt_tokens"
    case Tools => "tool_calls" case Retries => "retries" case _ => ""
  }

  lemma GovernorNames(name: string, kind: Kind)
    requires IsCount(kind) || kind == Quant
    ensures Governor(name) == kind <==> name == NameOf(kind)
  {
  }

  /** The step asks for a limit, so it is recorded. */
  predicate Asks(kind: Kind, cats: Categories, p: Plan) {
    (IsCount(kind) || (kind == Quant && Shrinking(p.quantization))) && NameOf(kind) in cats
  }

  function Asked(kind: Kind, cats: Categories, p: Plan): (string, real)
    requires Asks(kind, cats, p)
  {
    (NameOf(kind), if kind == Quant then cats[NameOf(kind)].limit * 0.85 else CountOf(Eased(kind, p), kind))
  }

  lemma DegradeAsks(step: string, cats: Categories, p: Plan)
    ensures var kind, limit := KindOf(step), Degrade(step, cats, p).1;
            && (limit.Some? <==> Asks(kind, cats, p))
            && (limit.Some? ==> limit.value == Asked(kind, cats, p))
            && (Asks(kind, cats, p) ==> step in STEPS && step != "abort")
  {
  }

  // ---- Accounts ----

  /** Equal but for the violations noted. */
  ghost predicate SameAccounts(a: Categories, b: Categories) {
    && a.Keys == b.Keys
    && forall n :: n in a ==> a[n] == b[n].(violation := a[n].violation)
  }

  lemma SameFailures(a: Categories, b: Categories, needs: Dimensions)
    requires SameAccounts(a, b)
    ensures HardFailures(a, needs) == HardFailures(b, needs)
  {
    forall n | n in a ensures Over(n, a[n], needs) == Over(n, b[n], needs) && a[n].hardness == b[n].hardness {
      assert a[n] == b[n].(violation := a[n].violation);
    }
  }

  lemma SameThrough(a: Categories, b: Categories, c: Categories)
    requires SameAccounts(a, b) && SameAccounts(b, c)
    ensures SameAccounts(a, c)
  {
  }

  lemma SameLimited(a: Categories, b: Categories, plan: Plan, kinds: seq<Kind>)
    requires SameAccounts(a, b)
    ensures SameAccounts(LimitedAt(a, plan, kinds), LimitedAt(b, plan, kinds))
  {
  }

  lemma JudgingSame(cats: Categories, needs: Dimensions)
    ensures SameAccounts(JudgedAll(cats, needs), cats)
  {
  }
}
