/** The budget optimizer: what is affordable, and the ladder of degradations tried until a state is admissible. */
module BudgetOptimizer {
  import opened LowerCase
  import opened Options
  import opened Budget
  import opened Estimator

  const DEFAULT_THREADS := 4
  const NO_CACHE := CacheState(0.0, 0.0)

  /** The hard dimensions that a projection exceeds. */
  function Blocking(cats: Categories, projected: Dimensions): set<string> {
    set n | n in projected && n in cats && projected[n] > Remaining(cats[n]) + TOLERANCE && cats[n].hardness == Hard
  }

  /** Without an estimator nothing is projected. */
  function TierNeeds(rates: Option<Rates>, percentile: string, tier: int): Dimensions {
    if rates == None then map[] else Pick(ProjectTier(rates.value, tier, DEFAULT_THREADS, NO_CACHE), percentile)
  }

  // ---- The degrade ladder ----

  datatype Plan = Plan(tier: int, quantization: string, reasoningTokens: int, promptTokens: int, allowSpeculation: bool,
    toolCalls: int, retries: int)

  datatype Preferences = Preferences(tier: int, quantization: string, allowSpeculation: bool)

  /** Towards zero. */
  function Truncated(x: real): int { if x < 0.0 then -((-x).Floor) else x.Floor }

  function CountIn(limits: Categories, name: string): int {
    if name in limits then Truncated(limits[name].limit) else 0
  }

  /** The plan made of preferences and limits; `None` is the KeyError for a missing category. */
  function FilledPlan(limits: Categories, prefs: Preferences): Option<Plan> {
    if {"prompt_tokens", "tool_calls", "retries"} <= limits.Keys then
      Some(Plan(if prefs.tier == 0 then 1 else prefs.tier,
        if prefs.quantization == "" then "q4" else prefs.quantization,
        CountIn(limits, "reasoning_tokens"), CountIn(limits, "prompt_tokens"), prefs.allowSpeculation,
        CountIn(limits, "tool_calls"), CountIn(limits, "retries")))
    else None
  }

  /** The counts are the limits without their fractions, a missing tier is one, and a missing quantization "q4". */
  lemma FilledPlanExactly(limits: Categories, prefs: Preferences)
    ensures FilledPlan(limits, prefs).Some? <==>
              "prompt_tokens" in limits && "tool_calls" in limits && "retries" in limits
    ensures var p := FilledPlan(limits, prefs);
            p.Some? ==>
              && IsTruncated(p.value.promptTokens, limits["prompt_tokens"].limit)
              && IsTruncated(p.value.toolCalls, limits["tool_calls"].limit)
              && IsTruncated(p.value.retries, limits["retries"].limit)
              && ("reasoning_tokens" in limits ==>
                    IsTruncated(p.value.reasoningTokens, limits["reasoning_tokens"].limit))
              && ("reasoning_tokens" !in limits ==> p.value.reasoningTokens == 0)
              && p.value.tier == (if prefs.tier == 0 then 1 else prefs.tier)
              && p.value.quantization == (if |prefs.quantization| == 0 then "q4" else prefs.quantization)
              && p.value.allowSpeculation == prefs.allowSpeculation
  {
  }

  /** `n` is `x` without its fraction. */
  ghost predicate IsTruncated(n: int, x: real) {
    if x >= 0.0 then n as real <= x < n as real + 1.0 else n as real - 1.0 < x <= n as real
  }

  /** What the ladder works on: the categories, the plan, and the steps recorded so far. */
  datatype Run = Run(cats: Categories, plan: Plan, taken: seq<string>)

  datatype Verdict = Admitted(softWarnings: set<string>) | Aborted(softWarnings: set<string>)
    | Exhausted(hardFailures: set<string>, softWarnings: set<string>)

  const STEPS: set<string> := {"lower_tier", "lower_quant", "cut_reasoning", "trim_context", "disable_speculation",
    "drop_tools", "cut_retries", "abort"}
  const QUANTIZATIONS := ["fp16", "q8", "q5", "q4", "q3"]

  function AtLeast(least: int, x: int): int { if x < least then least else x }

  /** A new limit for a dimension the state has. */
  function Limit(cats: Categories, name: string, limit: real): Option<(string, real)> {
    if name in cats then Some((name, limit)) else None
  }

  function NextQuantization(q: string): Option<string> {
    if q == "fp16" then Some("q8") else if q == "q8" then Some("q5") else if q == "q5" then Some("q4")
    else if q == "q4" then Some("q3") else None
  }

  /** One step's changes to the plan, and the limit it asks for, if any. */
  function Degrade(step: string, cats: Categories, plan: Plan): (Plan, Option<(string, real)>) {
    if step == "lower_tier" then (plan.(tier := AtLeast(1, plan.tier - 1)), None)
    else if step == "disable_speculation" then (plan.(allowSpeculation := false), None)
    else if step == "lower_quant" then
      var q := LowerAll(plan.quantization);
      if q !in QUANTIZATIONS then (plan.(quantization := "q4"), None)
      else if q == "q3" then (plan, None)
      else (plan.(quantization := NextQuantization(q).value),
            if "memory_bytes" in cats then Some(("memory_bytes", cats["memory_bytes"].limit * 0.85)) else None)
    else if step == "cut_reasoning" then
      var next := AtLeast(0, plan.reasoningTokens / 2);
      (plan.(reasoningTokens := next), Limit(cats, "reasoning_tokens", next as real))
    else if step == "trim_context" then
      var next := AtLeast(256, (plan.promptTokens as real * 0.75).Floor);
      (plan.(promptTokens := next), Limit(cats, "prompt_tokens", next as real))
    else if step == "drop_tools" then
      var next := AtLeast(0, plan.toolCalls - 1);
      (plan.(toolCalls := next), Limit(cats, "tool_calls", next as real))
    else if step == "cut_retries" then
      var next := AtLeast(0, plan.retries - 1);
      (plan.(retries := next), Limit(cats, "retries", next as real))
    else (plan, None)
  }

  function Lowered(c: CategoryState, limit: real): CategoryState {
    Refreshed(c.(limit := if limit < c.limit then limit else c.limit))
  }

  function WithCounts(needs: Dimensions, plan: Plan): Dimensions {
    needs["reasoning_tokens" := plan.reasoningTokens as real]["prompt_tokens" := plan.promptTokens as real]
      ["tool_calls" := plan.toolCalls as real]["retries" := plan.retries as real]
  }

  /** The projection of a plan; its own counts replace those of the tier. */
  function PlanNeeds(rates: Option<Rates>, percentile: string, plan: Plan): Dimensions {
    WithCounts(TierNeeds(rates, percentile, plan.tier), plan)
  }

  /** A recorded step, judged against the projection of the plan it leaves. */
  function Recorded(rates: Option<Rates>, percentile: string, run: Run, step: string, plan: Plan,
    limit: (string, real)): Run
    requires limit.0 in run.cats
  {
    var cats := run.cats[limit.0 := Lowered(run.cats[limit.0], limit.1)];
    Run(JudgedAll(cats, PlanNeeds(rates, percentile, plan)), plan, run.taken + [step])
  }

  function Hardly(rates: Option<Rates>, percentile: string, run: Run): set<string> {
    HardFailures(run.cats, PlanNeeds(rates, percentile, run.plan))
  }

  function Softly(rates: Option<Rates>, percentile: string, run: Run): set<string> {
    SoftWarnings(run.cats, PlanNeeds(rates, percentile, run.plan))
  }

  /** A tier is projected for four threads and an empty cache; without an estimator nothing is. */
  lemma TierNeedsAre(rates: Option<Rates>, percentile: string, tier: int)
    ensures rates == None ==> TierNeeds(rates, percentile, tier) == map[]
    ensures rates.Some? ==>
              var p := ProjectTier(rates.value, tier, 4, CacheState(0.0, 0.0));
              TierNeeds(rates, percentile, tier) == if percentile == "p90" then p.p90 else p.p50
  {
  }

  /** A plan needs its own counts, and of everything else what its tier does. */
  lemma PlanNeedsAre(rates: Option<Rates>, percentile: string, plan: Plan, n: string)
    ensures var needs, tier := PlanNeeds(rates, percentile, plan), TierNeeds(rates, percentile, plan.tier);
            && needs.Keys == tier.Keys + {"reasoning_tokens", "prompt_tokens", "tool_calls", "retries"}
            && needs["reasoning_tokens"] == plan.reasoningTokens as real
            && needs["prompt_tokens"] == plan.promptTokens as real
            && needs["tool_calls"] == plan.toolCalls as real && needs["retries"] == plan.retries as real
            && (n in tier && n !in ["reasoning_tokens", "prompt_tokens", "tool_calls", "retries"] ==>
                  needs[n] == tier[n])
  {
  }

  lemma DegradeNames(step: string, cats: Categories, plan: Plan)
    ensures Degrade(step, cats, plan).1.Some? ==> Degrade(step, cats, plan).1.value.0 in cats
  {
  }

  /** The plan a step leaves, and the limit it asks for if the state has that dimension. */
  lemma StepFigures(cats: Categories, p: Plan)
    ensures Degrade("lower_tier", cats, p) == (p.(tier := if p.tier > 2 then p.tier - 1 else 1), None)
    ensures Degrade("disable_speculation", cats, p) == (p.(allowSpeculation := false), None)
    ensures var (next, limit) := Degrade("cut_reasoning", cats, p);
            && next == p.(reasoningTokens := next.reasoningTokens)
            && (if p.reasoningTokens < 0 then next.reasoningTokens == 0
                else next.reasoningTokens * 2 <= p.reasoningTokens < next.reasoningTokens * 2 + 2)
            && limit == if "reasoning_tokens" !in cats then None else
                          Some(("reasoning_tokens", next.reasoningTokens as real))
    ensures var (next, limit) := Degrade("trim_context", cats, p);
            && next == p.(promptTokens := next.promptTokens)
            && (if p.promptTokens >= 342 then next.promptTokens * 4 <= p.promptTokens * 3 < next.promptTokens * 4 + 4
                else next.promptTokens == 256)
            && limit == if "prompt_tokens" in cats then Some(("prompt_tokens", next.promptTokens as real)) else None
    ensures var (next, limit) := Degrade("drop_tools", cats, p);
            && next == p.(toolCalls := if p.toolCalls > 0 then p.toolCalls - 1 else 0)
            && limit == if "tool_calls" in cats then Some(("tool_calls", next.toolCalls as real)) else None
    ensures var (next, limit) := Degrade("cut_retries", cats, p);
            && next == p.(retries := if p.retries > 0 then p.retries - 1 else 0)
            && limit == if "retries" in cats then Some(("retries", next.retries as real)) else None
  {
  }

  /** One quantization lower, at fifteen percent of the memory limit, down to "q3"; an unknown one becomes "q4". */
  lemma QuantFigures(cats: Categories, p: Plan)
    ensures var (next, limit) := Degrade("lower_quant", cats, p); var q := LowerAll(p.quantization);
            && next == p.(quantization := next.quantization)
            && (q == "fp16" ==> next.quantization == "q8") && (q == "q8" ==> next.quantization == "q5")
            && (q == "q5" ==> next.quantization == "q4") && (q == "q4" ==> next.quantization == "q3")
            && (q == "q3" ==> next == p)
            && (q !in ["fp16", "q8", "q5", "q4", "q3"] ==> next.quantization == "q4")
            && limit == if q in ["fp16", "q8", "q5", "q4"] && "memory_bytes" in cats then
                          Some(("memory_bytes", cats["memory_bytes"].limit * 0.85)) else None
  {
  }

  /** The dimension whose count a step changes. */
  function Dimension(step: string): Option<string> {
    if step == "cut_reasoning" then Some("reasoning_tokens") else if step == "trim_context" then Some("prompt_tokens")
    else if step == "drop_tools" then Some("tool_calls") else if step == "cut_retries" then Some("retries") else None
  }

  /** Such a step asks for the limit that the plan it leaves needs; the tier and every other count stay. */
  lemma LimitIsNeed(step: string, cats: Categories, plan: Plan, needs: Dimensions, name: string)
    requires Dimension(step).Some?
    ensures var (next, limit) := Degrade(step, cats, plan); var dim := Dimension(step).value;
            var before, after := WithCounts(needs, plan), WithCounts(needs, next);
            && next.tier == plan.tier && next.quantization == plan.quantization
            && (limit.Some? <==> dim in cats) && (limit.Some? ==> limit.value == (dim, after[dim]))
            && (name in before && name != dim ==> name in after && after[name] == before[name])
            && (after[dim] <= before[dim] || (step == "trim_context" && after[dim] == 256.0) || after[dim] == 0.0)
  {
  }

  /** Step by step until a recorded step leaves an admissible state. */
  function Climb(rates: Option<Rates>, percentile: string, ladder: seq<string>, run: Run, hard: set<string>,
    soft: set<string>)
    : (Run, Verdict)
    decreases ladder
  {
    if ladder == [] then (run, Exhausted(hard, soft))
    else if ladder[0] !in STEPS then Climb(rates, percentile, ladder[1..], run, hard, soft)
    else if ladder[0] == "abort" then (run.(taken := run.taken + ["abort"]), Aborted(soft))
    else
      var (plan, limit) := Degrade(ladder[0], run.cats, run.plan);
      DegradeNames(ladder[0], run.cats, run.plan);
      if limit == None then Climb(rates, percentile, ladder[1..], run.(plan := plan), hard, soft)
      else
        var next := Recorded(rates, percentile, run, ladder[0], plan, limit.value);
        var h, s := Hardly(rates, percentile, next), Softly(rates, percentile, next);
        if h == {} then (next, Admitted(s)) else Climb(rates, percentile, ladder[1..], next, h, s)
  }

  /** The whole of `optimize`: nothing to do for a state without warnings, the ladder otherwise. */
  function Optimized(rates: Option<Rates>, percentile: string, ladder: seq<string>, cats: Categories,
    projected: Dimensions, plan: Plan): (Run, Verdict)
  {
    var hard, soft := HardFailures(cats, projected), SoftWarnings(cats, projected);
    var run := Run(JudgedAll(cats, projected), plan, []);
    if hard == {} && soft == {} then (run, Admitted({})) else Climb(rates, percentile, ladder, run, hard, soft)
  }

  // ---- What the ladder keeps ----

  /** Limits only fall, and nothing else of the account moves. */
  ghost predicate Tightened(a: Categories, b: Categories) {
    && b.Keys == a.Keys
    && forall n :: n in a ==>
         && b[n].limit <= a[n].limit && b[n].consumed == a[n].consumed && b[n].reserved == a[n].reserved
         && b[n].projected == a[n].projected && b[n].hardness == a[n].hardness
  }

  /** The plan asks for no more than before, up to the least each step leaves. */
  ghost predicate Milder(a: Plan, b: Plan) {
    && b.tier <= AtLeast(1, a.tier) && b.reasoningTokens <= AtLeast(0, a.reasoningTokens)
    && b.promptTokens <= AtLeast(256, a.promptTokens) && b.toolCalls <= AtLeast(0, a.toolCalls)
    && b.retries <= AtLeast(0, a.retries) && (b.allowSpeculation ==> a.allowSpeculation)
  }

  /** Steps that ask for no limit are never recorded, and the state is not judged again after them. */
  predicate Silent(step: string) { step == "lower_tier" || step == "disable_speculation" || step !in STEPS }

  /** The steps come from the ladder in its order, the silent ones never among them. */
  ghost predicate Picked(steps: seq<string>, ladder: seq<string>) {
    if ladder == [] then steps == []
    else
      || Picked(steps, ladder[1..])
      || (steps != [] && steps[0] == ladder[0] && !Silent(ladder[0]) && Picked(steps[1..], ladder[1..]))
  }

  lemma {:induction false} PickedNone(ladder: seq<string>)
    ensures Picked([], ladder)
  {
    if ladder != [] { PickedNone(ladder[1..]); }
  }

  lemma RecordedTightens(rates: Option<Rates>, percentile: string, run: Run, step: string, plan: Plan,
    limit: (string, real))
    requires limit.0 in run.cats
    ensures Tightened(run.cats, Recorded(rates, percentile, run, step, plan, limit).cats)
  {
  }

  lemma DegradeMilder(step: string, cats: Categories, plan: Plan)
    ensures Milder(plan, Degrade(step, cats, plan).0)
  {
  }

  lemma DegradeSilent(step: string, cats: Categories, plan: Plan)
    requires Silent(step) && step in STEPS
    ensures Degrade(step, cats, plan).1 == None && step != "abort"
  {
  }

  lemma MilderThrough(a: Plan, b: Plan, c: Plan)
    requires Milder(a, b) && Milder(b, c)
    ensures Milder(a, c)
  {
  }

  lemma TightenedThrough(a: Categories, b: Categories, c: Categories)
    requires Tightened(a, b) && Tightened(b, c)
    ensures Tightened(a, c)
  {
  }

  /**
   From `run` the ladder came to `r` and `v`: limits only fell, the plan only got milder, the steps
   recorded are `picked` from the ladder in order, and a state is admitted only without a hard failure
   against the plan returned.
   */
  ghost predicate Kept(rates: Option<Rates>, percentile: string, ladder: seq<string>, run: Run, r: Run, v: Verdict,
    picked: seq<string>) {
    && Tightened(run.cats, r.cats) && Milder(run.plan, r.plan)
    && r.taken == run.taken + picked && Picked(picked, ladder)
    && (v.Admitted? ==> Hardly(rates, percentile, r) == {} && v.softWarnings == Softly(rates, percentile, r))
  }

  lemma KeptAfterStep(rates: Option<Rates>, percentile: string, ladder: seq<string>, run: Run, next: Run, r: Run,
    v: Verdict, more: seq<string>)
    requires ladder != [] && !Silent(ladder[0]) && next.taken == run.taken + [ladder[0]]
    requires Tightened(run.cats, next.cats) && Milder(run.plan, next.plan)
    requires Kept(rates, percentile, ladder[1..], next, r, v, more)
    ensures Kept(rates, percentile, ladder, run, r, v, [ladder[0]] + more)
  {
    TightenedThrough(run.cats, next.cats, r.cats);
    MilderThrough(run.plan, next.plan, r.plan);
    assert ([ladder[0]] + more)[1..] == more;
  }

  lemma {:induction false} ClimbKeeps(rates: Option<Rates>, percentile: string, ladder: seq<string>, run: Run,
    hard: set<string>, soft: set<string>) returns (picked: seq<string>)
    ensures var (r, v) := Climb(rates, percentile, ladder, run, hard, soft);
            Kept(rates, percentile, ladder, run, r, v, picked)
    decreases ladder
  {
    if ladder == [] {
      picked := [];
    } else if ladder[0] !in STEPS {
      picked := ClimbKeeps(rates, percentile, ladder[1..], run, hard, soft);
    } else if ladder[0] == "abort" {
      picked := ["abort"];
      PickedNone(ladder[1..]);
      assert picked[1..] == [];
    } else {
      var (plan, limit) := Degrade(ladder[0], run.cats, run.plan);
      DegradeMilder(ladder[0], run.cats, run.plan);
      DegradeNames(ladder[0], run.cats, run.plan);
      if limit == None {
        picked := ClimbKeeps(rates, percentile, ladder[1..], run.(plan := plan), hard, soft);
        MilderThrough(run.plan, plan, Climb(rates, percentile, ladder[1..], run.(plan := plan), hard, soft).0.plan);
      } else {
        var next := Recorded(rates, percentile, run, ladder[0], plan, limit.value);
        RecordedTightens(rates, percentile, run, ladder[0], plan, limit.value);
        picked := ClimbKeepsAfter(rates, percentile, ladder, next);
        var (r, v) := Climb(rates, percentile, ladder, run, hard, soft);
        KeptAfterStep(rates, percentile, ladder, run, next, r, v, picked);
        picked := [ladder[0]] + picked;
      }
    }
  }

  /** The state after a recorded step is admitted, or the climb goes on from it. */
  lemma {:induction false} ClimbKeepsAfter(rates: Option<Rates>, percentile: string, ladder: seq<string>, next: Run)
    returns (more: seq<string>)
    requires ladder != []
    ensures var (h, s) := (Hardly(rates, percentile, next), Softly(rates, percentile, next));
            var (r, v) := if h == {} then (next, Admitted(s)) else Climb(rates, percentile, ladder[1..], next, h, s);
            Kept(rates, percentile, ladder[1..], next, r, v, more)
    decreases ladder, 0
  {
    var h, s := Hardly(rates, percentile, next), Softly(rates, percentile, next);
    if h == {} {
      PickedNone(ladder[1..]);
      more := [];
    } else {
      more := ClimbKeeps(rates, percentile, ladder[1..], next, h, s);
    }
  }

  /**
   Whatever the ladder, limits only fall, the plan only gets milder, and the steps recorded are picked
   from the ladder in order. A state is admitted only if it was free of failures and warnings as it
   stood, or is now free of hard failures against the plan returned.
   */
  lemma OptimizedKeeps(rates: Option<Rates>, percentile: string, ladder: seq<string>, cats: Categories,
    projected: Dimensions, plan: Plan)
    ensures var (r, v) := Optimized(rates, percentile, ladder, cats, projected, plan);
            && Tightened(cats, r.cats) && Milder(plan, r.plan) && Picked(r.taken, ladder)
            && (v.Admitted? ==>
                  || (&& HardFailures(cats, projected) == {} && SoftWarnings(cats, projected) == {}
                      && r.plan == plan && r.taken == [])
                  || Hardly(rates, percentile, r) == {})
  {
    var hard, soft := HardFailures(cats, projected), SoftWarnings(cats, projected);
    var run := Run(JudgedAll(cats, projected), plan, []);
    assert Tightened(cats, run.cats);
    PickedNone(ladder);
    var picked := ClimbKeeps(rates, percentile, ladder, run, hard, soft);
    TightenedThrough(cats, run.cats, Climb(rates, percentile, ladder, run, hard, soft).0.cats);
    assert [] + picked == picked;
  }

  // ---- The objects ----

  lemma JudgingSettles(cats: Categories, projected: Dimensions)
    ensures HardFailures(JudgedAll(cats, projected), projected) == HardFailures(cats, projected)
    ensures SoftWarnings(JudgedAll(cats, projected), projected) == SoftWarnings(cats, projected)
  {
    forall n | n in cats ensures Over(n, JudgedAll(cats, projected)[n], projected) == Over(n, cats[n], projected) {}
  }

  class BudgetRuntimeState {
    const categories: map<string, BudgetCategory>
    var degradeActions: seq<string>

    /** Every name has its own category. */
    ghost predicate Valid() {
      forall m, n :: m in categories && n in categories && m != n ==> categories[m] != categories[n]
    }

    function View(): Categories
      reads categories.Values
    {
      map n | n in categories :: categories[n].View()
    }

    constructor (categories: map<string, BudgetCategory>)
      ensures this.categories == categories && degradeActions == []
    {
      this.categories, degradeActions := categories, [];
    }

    method CanAfford(projected: Dimensions) returns (blocking: set<string>)
      ensures blocking == Blocking(View(), projected)
      ensures forall n :: n in blocking <==>
          && n in projected && n in categories && categories[n].hardness == Hard
          && projected[n] > TOLERANCE
          && projected[n] > categories[n].limit - categories[n].consumed - categories[n].reserved + TOLERANCE
    {
      blocking := {};
      var todo := projected.Keys;
      while todo != {}
        invariant todo <= projected.Keys
        invariant blocking == Blocking(View(), projected) - todo
        decreases todo
      {
        var n :| n in todo;
        if n in categories {
          var over := projected[n] > Remaining(categories[n].View()) + TOLERANCE;
          if over && categories[n].hardness == Hard { blocking := blocking + {n}; }
        }
        todo := todo - {n};
      }
    }

    method ValidateState(projected: Dimensions) returns (hard: set<string>, soft: set<string>)
      requires Valid()
      modifies categories.Values
      ensures View() == JudgedAll(old(View()), projected)
      ensures hard == HardFailures(old(View()), projected) && soft == SoftWarnings(old(View()), projected)
    {
      hard, soft := {}, {};
      ghost var before := View();
      var todo := categories.Keys;
      while todo != {}
        invariant todo <= categories.Keys
        invariant forall n :: n in todo ==> categories[n].View() == before[n]
        invariant forall n :: n in categories && n !in todo ==> categories[n].View() == Judged(n, before[n], projected)
        invariant hard == HardFailures(before, projected) - todo
        invariant soft == SoftWarnings(before, projected) - todo
        decreases todo
      {
        var n :| n in todo;
        var over := categories[n].Judge(n, projected);
        if over && categories[n].hardness == Hard {
          hard := hard + {n};
        } else if over {
          soft := soft + {n};
        }
        todo := todo - {n};
      }
    }

    method LowerLimit(name: string, limit: real)
      requires Valid() && name in categories
      modifies categories.Values
      ensures View() == old(View())[name := Lowered(old(View())[name], limit)]
    {
      var c := categories[name];
      c.limit := if limit < c.limit then limit else c.limit;
      c.RefreshViolation();
    }
  }

  class Optimizer {
    const rates: Option<Rates>
    const percentile: string
    const ladder: seq<string>

    constructor (rates: Option<Rates>, percentile: string, ladder: seq<string>)
      ensures this.rates == rates && this.percentile == percentile && this.ladder == ladder
    {
      this.rates, this.percentile, this.ladder := rates, percentile, ladder;
    }

    /** Carries out a recorded step. */
    method Record(state: BudgetRuntimeState, step: string, plan: Plan, limit: (string, real), ghost taken: seq<string>)
      returns (hard: set<string>, soft: set<string>)
      requires state.Valid() && limit.0 in state.categories
      modifies state, state.categories.Values
      ensures var next := Recorded(rates, percentile, Run(old(state.View()), plan, taken), step, plan, limit);
              && Run(state.View(), plan, taken + [step]) == next
              && hard == Hardly(rates, percentile, next) && soft == Softly(rates, percentile, next)
      ensures state.degradeActions == old(state.degradeActions) + [step]
    {
      state.LowerLimit(limit.0, limit.1);
      state.degradeActions := state.degradeActions + [step];
      JudgingSettles(state.View(), PlanNeeds(rates, percentile, plan));
      hard, soft := state.ValidateState(PlanNeeds(rates, percentile, plan));
    }

    method ClimbLadder(state: BudgetRuntimeState, asked: Plan, hardBefore: set<string>, softBefore: set<string>)
      returns (verdict: Verdict, plan: Plan, taken: seq<string>)
      requires state.Valid()
      modifies state, state.categories.Values
      ensures (Run(state.View(), plan, taken), verdict)
           == Climb(rates, percentile, ladder, Run(old(state.View()), asked, []), hardBefore, softBefore)
      ensures state.degradeActions + (if verdict.Aborted? then ["abort"] else []) == old(state.degradeActions) + taken
    {
      plan, taken := asked, [];
      var hard, soft := hardBefore, softBefore;
      var i := 0;
      ghost var goal := Climb(rates, percentile, ladder, Run(state.View(), asked, []), hard, soft);
      assert ladder[0..] == ladder;
      while i < |ladder|
        invariant 0 <= i <= |ladder|
        invariant state.degradeActions == old(state.degradeActions) + taken
        invariant goal == Climb(rates, percentile, ladder[i..], Run(state.View(), plan, taken), hard, soft)
      {
        var step := ladder[i];
        assert ladder[i..][0] == step && ladder[i..][1..] == ladder[i + 1..];
        i := i + 1;
        if step in STEPS {
          if step == "abort" {
            taken := taken + [step];
            return Aborted(soft), plan, taken;
          }
          DegradeNames(step, state.View(), plan);
          var (milder, limit) := Degrade(step, state.View(), plan);
          plan := milder;
          if limit.Some? {
            hard, soft := Record(state, step, plan, limit.value, taken);
            taken := taken + [step];
            if hard == {} {
              return Admitted(soft), plan, taken;
            }
          }
        }
      }
      return Exhausted(hard, soft), plan, taken;
    }

    /** Without a plan of the caller's. `None` is the KeyError, raised before anything is judged. */
    method OptimizeEnvelope(state: BudgetRuntimeState, limits: Categories, prefs: Preferences, projected: Dimensions)
      returns (r: Option<(Verdict, Plan, seq<string>)>)
      requires state.Valid()
      modifies state, state.categories.Values
      ensures r.Some? <==> {"prompt_tokens", "tool_calls", "retries"} <= limits.Keys
      ensures r == None ==> state.View() == old(state.View()) && state.degradeActions == old(state.degradeActions)
      ensures r.Some? ==>
        && (Run(state.View(), r.value.1, r.value.2), r.value.0)
          == Optimized(rates, percentile, ladder, old(state.View()), projected, FilledPlan(limits, prefs).value)
        && state.degradeActions + (if r.value.0.Aborted? then ["abort"] else [])
          == old(state.degradeActions) + r.value.2
    {
      var asked := FilledPlan(limits, prefs);
      if asked == None { return None; }
      var verdict, plan, taken := Optimize(state, projected, asked.value);
      r := Some((verdict, plan, taken));
    }

    method Optimize(state: BudgetRuntimeState, projected: Dimensions, asked: Plan)
      returns (verdict: Verdict, plan: Plan, taken: seq<string>)
      requires state.Valid()
      modifies state, state.categories.Values
      ensures (Run(state.View(), plan, taken), verdict)
           == Optimized(rates, percentile, ladder, old(state.View()), projected, asked)
      ensures state.degradeActions + (if verdict.Aborted? then ["abort"] else []) == old(state.degradeActions) + taken
    {
      var hard, soft := state.ValidateState(projected);
      if hard == {} && soft == {} {
        return Admitted({}), asked, [];
      }
      verdict, plan, taken := ClimbLadder(state, asked, hard, soft);
    }
  }
}
