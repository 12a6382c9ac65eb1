/** Exactly which states the ladder admits, told from the categories and the plan it starts with. */
module LadderTheorems {
  import opened Options
  import opened Budget
  import opened Estimator
  import opened BudgetOptimizer
  import opened LadderOutcome

  predicate Records(step: string, run: Run) {
    step in STEPS && step != "abort" && Degrade(step, run.cats, run.plan).1.Some?
  }

  /** One step of the ladder, whatever the verdict. */
  function After(rates: Option<Rates>, percentile: string, step: string, run: Run): Run {
    if step !in STEPS || step == "abort" then run
    else
      var (plan, limit) := Degrade(step, run.cats, run.plan);
      DegradeNames(step, run.cats, run.plan);
      if limit == None then run.(plan := plan) else Recorded(rates, percentile, run, step, plan, limit.value)
  }

  /** `now` has the plan and the limits that steps of these kinds leave, starting from `run`. */
  ghost predicate Reached(run: Run, kinds: seq<Kind>, now: Run) {
    now.plan == PlanAt(run.plan, kinds) && SameAccounts(now.cats, LimitedAt(run.cats, run.plan, kinds))
  }

  /** The one limit a recorded step moves. */
  ghost function Relimited(kind: Kind, cats: Categories, p: Plan): Categories {
    if !Asks(kind, cats, p) then cats else
      var (name, limit) := Asked(kind, cats, p);
      cats[name := cats[name].(limit := Smaller(limit, cats[name].limit))]
  }

  lemma AfterAccounts(rates: Option<Rates>, percentile: string, step: string, run: Run)
    ensures var next := After(rates, percentile, step, run);
            && next.plan == Eased(KindOf(step), run.plan)
            && SameAccounts(next.cats, Relimited(KindOf(step), run.cats, run.plan))
  {
    DegradeEases(step, run.cats, run.plan);
    DegradeAsks(step, run.cats, run.plan);
  }

  lemma LimitedNext(cats: Categories, plan: Plan, kinds: seq<Kind>, kind: Kind, now: Categories)
    requires SameAccounts(now, LimitedAt(cats, plan, kinds))
    ensures SameAccounts(Relimited(kind, now, PlanAt(plan, kinds)), LimitedAt(cats, plan, kinds + [kind]))
  {
    var later := Relimited(kind, now, PlanAt(plan, kinds));
    forall n | n in cats
      ensures n in later && later[n] == cats[n].(limit := LimitAt(Governor(n), cats[n].limit, plan, kinds + [kind]),
                                                violation := later[n].violation)
    {
      NamedNext(cats, plan, kinds, kind, now, n);
    }
  }

  lemma NamedNext(cats: Categories, plan: Plan, kinds: seq<Kind>, kind: Kind, now: Categories, n: string)
    requires n in cats && n in now
    requires now[n]
      == cats[n].(limit := LimitAt(Governor(n), cats[n].limit, plan, kinds), violation := now[n].violation)
    ensures Relimited(kind, now, PlanAt(plan, kinds))[n]
      == now[n].(limit := LimitAt(Governor(n), cats[n].limit, plan, kinds + [kind]))
  {
    RelimitedAt(kind, now, PlanAt(plan, kinds), n);
    LimitNextAt(cats, plan, kinds, kind, now, n);
  }

  lemma RelimitedAt(kind: Kind, cats: Categories, p: Plan, n: string)
    requires n in cats
    ensures Relimited(kind, cats, p)[n]
      == if Asks(kind, cats, p) && Governor(n) == kind
         then cats[n].(limit := Smaller(Asked(kind, cats, p).1, cats[n].limit)) else cats[n]
  {
    if Asks(kind, cats, p) { GovernorNames(n, kind); }
  }

  lemma LimitNextAt(cats: Categories, plan: Plan, kinds: seq<Kind>, kind: Kind, now: Categories, n: string)
    requires n in cats && n in now && now[n].limit == LimitAt(Governor(n), cats[n].limit, plan, kinds)
    ensures LimitAt(Governor(n), cats[n].limit, plan, kinds + [kind])
      == if Asks(kind, now, PlanAt(plan, kinds)) && Governor(n) == kind
         then Smaller(Asked(kind, now, PlanAt(plan, kinds)).1, now[n].limit) else now[n].limit
  {
    LimitNext(Governor(n), cats[n].limit, plan, kinds, kind);
    PlanNext(plan, kinds, kind);
    if IsCount(kind) || kind == Quant { GovernorNames(n, kind); }
  }

  lemma AfterReaches(rates: Option<Rates>, percentile: string, run: Run, kinds: seq<Kind>, now: Run, step: string)
    requires Reached(run, kinds, now)
    ensures Reached(run, kinds + [KindOf(step)], After(rates, percentile, step, now))
  {
    AfterAccounts(rates, percentile, step, now);
    PlanNext(run.plan, kinds, KindOf(step));
    LimitedNext(run.cats, run.plan, kinds, KindOf(step), now.cats);
    SameThrough(After(rates, percentile, step, now).cats, Relimited(KindOf(step), now.cats, now.plan),
      LimitedAt(run.cats, run.plan, kinds + [KindOf(step)]));
  }

  lemma StartReached(run: Run)
    ensures Reached(run, [], run)
  {
    forall n | n in run.cats ensures LimitAt(Governor(n), run.cats[n].limit, run.plan, []) == run.cats[n].limit {}
  }

  // ---- Exactly which states are admitted ----

  /** The hard failures after steps of these kinds: present counts against the limits they leave. */
  ghost function FailuresAt(rates: Option<Rates>, percentile: string, cats: Categories, plan: Plan, kinds: seq<Kind>)
    : set<string>
  {
    HardFailures(LimitedAt(cats, plan, kinds), PlanNeeds(rates, percentile, PlanAt(plan, kinds)))
  }

  /** Step `j` comes before any abort and asks for a limit, so the state is judged after it. */
  ghost predicate JudgedAfter(ladder: seq<string>, cats: Categories, plan: Plan, j: int) {
    && 0 <= j < |ladder| && "abort" !in ladder[..j + 1]
    && Asks(KindOf(ladder[j]), cats, PlanAt(plan, KindsOf(ladder[..j])))
  }

  /** ... and there are no hard failures then. */
  ghost predicate AdmitsAt(rates: Option<Rates>, percentile: string, ladder: seq<string>, cats: Categories, plan: Plan,
    j: int)
  {
    JudgedAfter(ladder, cats, plan, j) && FailuresAt(rates, percentile, cats, plan, KindsOf(ladder[..j + 1])) == {}
  }

  lemma RecordsAsk(run: Run, kinds: seq<Kind>, now: Run, step: string)
    requires Reached(run, kinds, now)
    ensures Records(step, now) <==> Asks(KindOf(step), run.cats, PlanAt(run.plan, kinds))
  {
    DegradeAsks(step, now.cats, now.plan);
  }

  lemma FailuresReached(rates: Option<Rates>, percentile: string, run: Run, kinds: seq<Kind>, now: Run)
    requires Reached(run, kinds, now)
    ensures Hardly(rates, percentile, now) == FailuresAt(rates, percentile, run.cats, run.plan, kinds)
  {
    SameFailures(now.cats, LimitedAt(run.cats, run.plan, kinds), PlanNeeds(rates, percentile, now.plan));
  }

  /** What the closed form says of step `i` is what the ladder finds when it gets there. */
  lemma AdmitsHere(rates: Option<Rates>, percentile: string, ladder: seq<string>, run: Run, i: nat, now: Run)
    requires i < |ladder| && "abort" !in ladder[..i + 1] && Reached(run, KindsOf(ladder[..i]), now)
    ensures var next := After(rates, percentile, ladder[i], now);
            && Reached(run, KindsOf(ladder[..i + 1]), next)
            && (AdmitsAt(rates, percentile, ladder, run.cats, run.plan, i)
                <==> Records(ladder[i], now) && Hardly(rates, percentile, next) == {})
  {
    var kinds := KindsOf(ladder[..i]);
    AfterReaches(rates, percentile, run, kinds, now, ladder[i]);
    KindsNext(ladder[..i], ladder[i]);
    assert ladder[..i + 1] == ladder[..i] + [ladder[i]];
    RecordsAsk(run, kinds, now, ladder[i]);
    FailuresReached(rates, percentile, run, KindsOf(ladder[..i + 1]), After(rates, percentile, ladder[i], now));
  }

  ghost predicate AdmitsFrom(rates: Option<Rates>, percentile: string, ladder: seq<string>, cats: Categories,
    plan: Plan, i: nat)
  {
    exists j :: i <= j && AdmitsAt(rates, percentile, ladder, cats, plan, j)
  }

  lemma AdmitsLater(rates: Option<Rates>, percentile: string, ladder: seq<string>, cats: Categories, plan: Plan, i: nat)
    ensures AdmitsFrom(rates, percentile, ladder, cats, plan, i) <==>
      AdmitsAt(rates, percentile, ladder, cats, plan, i) || AdmitsFrom(rates, percentile, ladder, cats, plan, i + 1)
  {
  }

  lemma NoneAfterAbort(rates: Option<Rates>, percentile: string, ladder: seq<string>, cats: Categories, plan: Plan,
    i: nat)
    requires i < |ladder| ==> ladder[i] == "abort"
    ensures !AdmitsFrom(rates, percentile, ladder, cats, plan, i)
  {
    forall j | i <= j ensures !AdmitsAt(rates, percentile, ladder, cats, plan, j) {
      if j < |ladder| { assert ladder[..j + 1][i] == "abort"; }
    }
  }

  /** One turn of the climb. */
  lemma ClimbStep(rates: Option<Rates>, percentile: string, ladder: seq<string>, run: Run, hard: set<string>,
    soft: set<string>)
    requires ladder != [] && ladder[0] != "abort"
    ensures var next := After(rates, percentile, ladder[0], run);
            var h, s := Hardly(rates, percentile, next), Softly(rates, percentile, next);
            Climb(rates, percentile, ladder, run, hard, soft)
            == if !Records(ladder[0], run) then Climb(rates, percentile, ladder[1..], next, hard, soft)
               else if h == {} then (next, Admitted(s)) else Climb(rates, percentile, ladder[1..], next, h, s)
  {
  }

  lemma {:induction false} ClimbFrom(rates: Option<Rates>, percentile: string, ladder: seq<string>, run: Run, i: nat,
    now: Run, hard: set<string>, soft: set<string>)
    requires i <= |ladder| && "abort" !in ladder[..i] && Reached(run, KindsOf(ladder[..i]), now)
    ensures Climb(rates, percentile, ladder[i..], now, hard, soft).1.Admitted?
      <==> AdmitsFrom(rates, percentile, ladder, run.cats, run.plan, i)
    decreases |ladder| - i
  {
    if i == |ladder| || ladder[i] == "abort" {
      NoneAfterAbort(rates, percentile, ladder, run.cats, run.plan, i);
    } else {
      var next := After(rates, percentile, ladder[i], now);
      ClimbTurn(rates, percentile, ladder, run, i, now, hard, soft);
      AdmitsLater(rates, percentile, ladder, run.cats, run.plan, i);
      ClimbFrom(rates, percentile, ladder, run, i + 1, next, hard, soft);
      ClimbFrom(rates, percentile, ladder, run, i + 1, next, Hardly(rates, percentile, next),
        Softly(rates, percentile, next));
    }
  }

  /** The climb admits iff at some step that asks for a limit the closed form has no hard failure. */
  lemma ClimbAdmitsExactly(rates: Option<Rates>, percentile: string, ladder: seq<string>, run: Run, hard: set<string>,
    soft: set<string>)
    ensures Climb(rates, percentile, ladder, run, hard, soft).1.Admitted? <==>
            exists j :: AdmitsAt(rates, percentile, ladder, run.cats, run.plan, j)
  {
    StartReached(run);
    assert ladder[0..] == ladder && KindsOf(ladder[..0]) == [];
    ClimbFrom(rates, percentile, ladder, run, 0, run, hard, soft);
  }

  // ---- Where the ladder ends ----

  /** The climb stops after `n` steps: at the first that admits, at an abort, or at the end. */
  ghost predicate StopsAfter(rates: Option<Rates>, percentile: string, ladder: seq<string>, cats: Categories,
    plan: Plan, n: nat)
  {
    && n <= |ladder| && "abort" !in ladder[..n]
    && (forall j :: 0 <= j < n - 1 ==> !AdmitsAt(rates, percentile, ladder, cats, plan, j))
    && (n == |ladder| || ladder[n] == "abort" || (n > 0 && AdmitsAt(rates, percentile, ladder, cats, plan, n - 1)))
  }

  /** The verdict after `n` steps. */
  ghost predicate EndsWith(rates: Option<Rates>, percentile: string, ladder: seq<string>, cats: Categories, plan: Plan,
    n: nat, v: Verdict)
    requires n <= |ladder|
  {
    if n > 0 && AdmitsAt(rates, percentile, ladder, cats, plan, n - 1) then v.Admitted?
    else if n < |ladder| then v.Aborted? else v.Exhausted?
  }

  ghost predicate NoneAdmits(rates: Option<Rates>, percentile: string, ladder: seq<string>, cats: Categories,
    plan: Plan, n: nat)
  {
    forall j :: 0 <= j < n ==> !AdmitsAt(rates, percentile, ladder, cats, plan, j)
  }

  lemma StopsUnadmitted(rates: Option<Rates>, percentile: string, ladder: seq<string>, cats: Categories, plan: Plan,
    n: nat, v: Verdict)
    requires n <= |ladder| && "abort" !in ladder[..n] && NoneAdmits(rates, percentile, ladder, cats, plan, n)
    requires (n < |ladder| ==> ladder[n] == "abort") && if n < |ladder| then v.Aborted? else v.Exhausted?
    ensures StopsAfter(rates, percentile, ladder, cats, plan, n)
    ensures EndsWith(rates, percentile, ladder, cats, plan, n, v)
  {
  }

  lemma StopsAdmitted(rates: Option<Rates>, percentile: string, ladder: seq<string>, cats: Categories, plan: Plan,
    n: nat, v: Verdict)
    requires n < |ladder| && NoneAdmits(rates, percentile, ladder, cats, plan, n)
    requires AdmitsAt(rates, percentile, ladder, cats, plan, n) && v.Admitted?
    ensures StopsAfter(rates, percentile, ladder, cats, plan, n + 1)
    ensures EndsWith(rates, percentile, ladder, cats, plan, n + 1, v)
  {
  }

  lemma NoneAdmitsNext(rates: Option<Rates>, percentile: string, ladder: seq<string>, cats: Categories, plan: Plan,
    n: nat)
    requires NoneAdmits(rates, percentile, ladder, cats, plan, n) && !AdmitsAt(rates, percentile, ladder, cats, plan, n)
    ensures NoneAdmits(rates, percentile, ladder, cats, plan, n + 1)
  {
  }

  /** The turn of the climb at step `i`. */
  lemma ClimbTurn(rates: Option<Rates>, percentile: string, ladder: seq<string>, run: Run, i: nat, now: Run,
    hard: set<string>, soft: set<string>)
    requires i < |ladder| && ladder[i] != "abort" && "abort" !in ladder[..i]
    requires Reached(run, KindsOf(ladder[..i]), now)
    ensures "abort" !in ladder[..i + 1]
    ensures var next := After(rates, percentile, ladder[i], now);
            var h, s := Hardly(rates, percentile, next), Softly(rates, percentile, next);
            && Reached(run, KindsOf(ladder[..i + 1]), next)
            && Climb(rates, percentile, ladder[i..], now, hard, soft)
              == if AdmitsAt(rates, percentile, ladder, run.cats, run.plan, i) then (next, Admitted(s))
                 else if Records(ladder[i], now) then Climb(rates, percentile, ladder[i + 1..], next, h, s)
                 else Climb(rates, percentile, ladder[i + 1..], next, hard, soft)
  {
    assert ladder[..i + 1] == ladder[..i] + [ladder[i]];
    AdmitsHere(rates, percentile, ladder, run, i, now);
    ClimbStep(rates, percentile, ladder[i..], now, hard, soft);
    assert ladder[i..][1..] == ladder[i + 1..];
  }

  // ---- What the ladder reports ----

  /** Step `n` asks for a limit. */
  ghost predicate AsksAt(ladder: seq<string>, cats: Categories, plan: Plan, n: nat)
    requires n < |ladder|
  {
    Asks(KindOf(ladder[n]), cats, PlanAt(plan, KindsOf(ladder[..n])))
  }

  /** Those of the first `n` steps that ask for a limit. */
  ghost function AskingSteps(ladder: seq<string>, cats: Categories, plan: Plan, n: nat): seq<string>
    requires n <= |ladder|
  {
    if n == 0 then []
    else AskingSteps(ladder, cats, plan, n - 1) + if AsksAt(ladder, cats, plan, n - 1) then [ladder[n - 1]] else []
  }

  ghost function WarningsAt(rates: Option<Rates>, percentile: string, cats: Categories, plan: Plan, kinds: seq<Kind>)
    : set<string>
  {
    SoftWarnings(LimitedAt(cats, plan, kinds), PlanNeeds(rates, percentile, PlanAt(plan, kinds)))
  }

  /** Failures and warnings as last judged within the first `n` steps, `first` being those before the ladder. */
  ghost function LastJudged(rates: Option<Rates>, percentile: string, ladder: seq<string>, cats: Categories, plan: Plan,
    n: nat, first: (set<string>, set<string>)): (set<string>, set<string>)
    requires n <= |ladder|
  {
    if n == 0 then first
    else if AsksAt(ladder, cats, plan, n - 1) then
      (FailuresAt(rates, percentile, cats, plan, KindsOf(ladder[..n])),
       WarningsAt(rates, percentile, cats, plan, KindsOf(ladder[..n])))
    else LastJudged(rates, percentile, ladder, cats, plan, n - 1, first)
  }

  /** The steps recorded and the judgement in force after the first `n` steps. */
  ghost predicate Reports(rates: Option<Rates>, percentile: string, ladder: seq<string>, run: Run, n: nat,
    first: (set<string>, set<string>), now: Run, judged: (set<string>, set<string>))
  {
    && n <= |ladder| && now.taken == run.taken + AskingSteps(ladder, run.cats, run.plan, n)
    && judged == LastJudged(rates, percentile, ladder, run.cats, run.plan, n, first)
  }

  lemma SameWarnings(a: Categories, b: Categories, needs: Dimensions)
    requires SameAccounts(a, b)
    ensures SoftWarnings(a, needs) == SoftWarnings(b, needs)
  {
    forall n | n in a ensures Over(n, a[n], needs) == Over(n, b[n], needs) && a[n].hardness == b[n].hardness {
      assert a[n] == b[n].(violation := a[n].violation);
    }
  }

  lemma TakenNext(rates: Option<Rates>, percentile: string, step: string, now: Run)
    ensures After(rates, percentile, step, now).taken == now.taken + if Records(step, now) then [step] else []
  {
    assert now.taken + [] == now.taken;
  }

  /** What is judged after step `i`, if it is recorded. */
  lemma JudgedNext(rates: Option<Rates>, percentile: string, ladder: seq<string>, run: Run, i: nat, now: Run)
    requires i < |ladder| && Reached(run, KindsOf(ladder[..i]), now)
    ensures var next, kinds := After(rates, percentile, ladder[i], now), KindsOf(ladder[..i + 1]);
            && (Records(ladder[i], now) <==> AsksAt(ladder, run.cats, run.plan, i))
            && Hardly(rates, percentile, next) == FailuresAt(rates, percentile, run.cats, run.plan, kinds)
            && Softly(rates, percentile, next) == WarningsAt(rates, percentile, run.cats, run.plan, kinds)
  {
    var next := After(rates, percentile, ladder[i], now);
    RecordsAsk(run, KindsOf(ladder[..i]), now, ladder[i]);
    AfterReaches(rates, percentile, run, KindsOf(ladder[..i]), now, ladder[i]);
    KindsNext(ladder[..i], ladder[i]);
    assert ladder[..i + 1] == ladder[..i] + [ladder[i]];
    FailuresReached(rates, percentile, run, KindsOf(ladder[..i + 1]), next);
    SameWarnings(next.cats, LimitedAt(run.cats, run.plan, KindsOf(ladder[..i + 1])),
      PlanNeeds(rates, percentile, next.plan));
  }

  lemma AskingNext(ladder: seq<string>, cats: Categories, plan: Plan, i: nat, taken: seq<string>, recorded: bool)
    requires i < |ladder| && (recorded <==> AsksAt(ladder, cats, plan, i))
    ensures taken + AskingSteps(ladder, cats, plan, i) + (if recorded then [ladder[i]] else [])
      == taken + AskingSteps(ladder, cats, plan, i + 1)
  {
    AppendsOn(taken, AskingSteps(ladder, cats, plan, i), if recorded then [ladder[i]] else []);
  }

  lemma ReportsNext(rates: Option<Rates>, percentile: string, ladder: seq<string>, run: Run, i: nat,
    first: (set<string>, set<string>), now: Run, judged: (set<string>, set<string>))
    requires i < |ladder| && Reached(run, KindsOf(ladder[..i]), now)
    requires Reports(rates, percentile, ladder, run, i, first, now, judged)
    ensures Reports(rates, percentile, ladder, run, i + 1, first, After(rates, percentile, ladder[i], now),
              JudgedBy(rates, percentile, ladder[i], now, judged))
  {
    JudgedNext(rates, percentile, ladder, run, i, now);
    TakenNext(rates, percentile, ladder[i], now);
    AskingNext(ladder, run.cats, run.plan, i, run.taken, Records(ladder[i], now));
  }

  /** Failures and warnings after a step, which are as before unless it is recorded. */
  ghost function JudgedBy(rates: Option<Rates>, percentile: string, step: string, now: Run,
    judged: (set<string>, set<string>)): (set<string>, set<string>)
  {
    if !Records(step, now) then judged
    else
      var next := After(rates, percentile, step, now);
      (Hardly(rates, percentile, next), Softly(rates, percentile, next))
  }

  lemma AppendsOn<T>(a: seq<T>, b: seq<T>, c: seq<T>)
    ensures a + b + c == a + (b + c)
  {
  }

  /** What a run of `n` steps ends with: the steps recorded, and failures and warnings as last judged. */
  ghost predicate EndReports(rates: Option<Rates>, percentile: string, ladder: seq<string>, run: Run, n: nat,
    first: (set<string>, set<string>), r: Run, v: Verdict)
  {
    && n <= |ladder|
    && r.taken == run.taken + AskingSteps(ladder, run.cats, run.plan, n) + (if v.Aborted? then ["abort"] else [])
    && var judged := LastJudged(rates, percentile, ladder, run.cats, run.plan, n, first);
       v.softWarnings == judged.1 && (v.Exhausted? ==> v.hardFailures == judged.0)
  }

  /** The ladder stopped after `n` steps, and `r` and `v` are what the closed form says of that. */
  ghost predicate Ends(rates: Option<Rates>, percentile: string, ladder: seq<string>, run: Run, n: nat,
    first: (set<string>, set<string>), r: Run, v: Verdict)
  {
    && StopsAfter(rates, percentile, ladder, run.cats, run.plan, n) && Reached(run, KindsOf(ladder[..n]), r)
    && EndsWith(rates, percentile, ladder, run.cats, run.plan, n, v)
    && EndReports(rates, percentile, ladder, run, n, first, r, v)
  }

  /** Where the ladder stands before step `i`, nothing having been admitted. */
  ghost predicate Stands(rates: Option<Rates>, percentile: string, ladder: seq<string>, run: Run, i: nat,
    first: (set<string>, set<string>), now: Run, judged: (set<string>, set<string>))
  {
    && i <= |ladder| && "abort" !in ladder[..i] && Reached(run, KindsOf(ladder[..i]), now)
    && NoneAdmits(rates, percentile, ladder, run.cats, run.plan, i)
    && Reports(rates, percentile, ladder, run, i, first, now, judged)
  }

  lemma StandsStill(rates: Option<Rates>, percentile: string, ladder: seq<string>, run: Run, i: nat,
    first: (set<string>, set<string>), now: Run, hard: set<string>, soft: set<string>)
    requires Stands(rates, percentile, ladder, run, i, first, now, (hard, soft))
    requires i < |ladder| ==> ladder[i] == "abort"
    ensures var (r, v) := Climb(rates, percentile, ladder[i..], now, hard, soft);
            Ends(rates, percentile, ladder, run, i, first, r, v)
  {
    StopsUnadmitted(rates, percentile, ladder, run.cats, run.plan, i,
      Climb(rates, percentile, ladder[i..], now, hard, soft).1);
  }

  lemma StandsNext(rates: Option<Rates>, percentile: string, ladder: seq<string>, run: Run, i: nat,
    first: (set<string>, set<string>), now: Run, judged: (set<string>, set<string>))
    requires Stands(rates, percentile, ladder, run, i, first, now, judged) && i < |ladder| && ladder[i] != "abort"
    requires !AdmitsAt(rates, percentile, ladder, run.cats, run.plan, i)
    ensures Stands(rates, percentile, ladder, run, i + 1, first, After(rates, percentile, ladder[i], now),
              JudgedBy(rates, percentile, ladder[i], now, judged))
  {
    assert ladder[..i + 1] == ladder[..i] + [ladder[i]];
    AdmitsHere(rates, percentile, ladder, run, i, now);
    ReportsNext(rates, percentile, ladder, run, i, first, now, judged);
    NoneAdmitsNext(rates, percentile, ladder, run.cats, run.plan, i);
  }

  lemma StandsAdmitted(rates: Option<Rates>, percentile: string, ladder: seq<string>, run: Run, i: nat,
    first: (set<string>, set<string>), now: Run, judged: (set<string>, set<string>))
    requires Stands(rates, percentile, ladder, run, i, first, now, judged) && i < |ladder| && ladder[i] != "abort"
    requires AdmitsAt(rates, percentile, ladder, run.cats, run.plan, i)
    ensures var next := After(rates, percentile, ladder[i], now);
            Ends(rates, percentile, ladder, run, i + 1, first, next, Admitted(Softly(rates, percentile, next)))
  {
    var next := After(rates, percentile, ladder[i], now);
    assert ladder[..i + 1] == ladder[..i] + [ladder[i]];
    AdmitsHere(rates, percentile, ladder, run, i, now);
    ReportsNext(rates, percentile, ladder, run, i, first, now, judged);
    StopsAdmitted(rates, percentile, ladder, run.cats, run.plan, i, Admitted(Softly(rates, percentile, next)));
    assert next.taken + [] == next.taken;
  }

  lemma ClimbPasses(rates: Option<Rates>, percentile: string, ladder: seq<string>, run: Run, i: nat, now: Run,
    hard: set<string>, soft: set<string>)
    requires i < |ladder| && ladder[i] != "abort" && "abort" !in ladder[..i]
    requires Reached(run, KindsOf(ladder[..i]), now)
    ensures var next := After(rates, percentile, ladder[i], now);
            var judged := JudgedBy(rates, percentile, ladder[i], now, (hard, soft));
            Climb(rates, percentile, ladder[i..], now, hard, soft)
              == if AdmitsAt(rates, percentile, ladder, run.cats, run.plan, i) then
                   (next, Admitted(Softly(rates, percentile, next)))
                 else Climb(rates, percentile, ladder[i + 1..], next, judged.0, judged.1)
  {
    ClimbTurn(rates, percentile, ladder, run, i, now, hard, soft);
  }

  lemma {:induction false} ClimbFromEnds(rates: Option<Rates>, percentile: string, ladder: seq<string>, run: Run,
    i: nat, first: (set<string>, set<string>), now: Run, hard: set<string>, soft: set<string>) returns (n: nat)
    requires Stands(rates, percentile, ladder, run, i, first, now, (hard, soft))
    ensures var (r, v) := Climb(rates, percentile, ladder[i..], now, hard, soft);
            Ends(rates, percentile, ladder, run, n, first, r, v)
    decreases |ladder| - i
  {
    if i == |ladder| || ladder[i] == "abort" {
      n := i;
      StandsStill(rates, percentile, ladder, run, i, first, now, hard, soft);
    } else {
      var next, judged := After(rates, percentile, ladder[i], now),
        JudgedBy(rates, percentile, ladder[i], now, (hard, soft));
      ClimbPasses(rates, percentile, ladder, run, i, now, hard, soft);
      if AdmitsAt(rates, percentile, ladder, run.cats, run.plan, i) {
        n := i + 1;
        StandsAdmitted(rates, percentile, ladder, run, i, first, now, (hard, soft));
      } else {
        StandsNext(rates, percentile, ladder, run, i, first, now, (hard, soft));
        n := ClimbFromEnds(rates, percentile, ladder, run, i + 1, first, next, judged.0, judged.1);
      }
    }
  }

  /**
   The climb ends after the first step that admits, at an abort, or after all: with the plan and the limits of the
   closed form, having recorded the steps that asked for a limit, and with failures and warnings as judged after
   the last of them.
   */
  lemma ClimbEnds(rates: Option<Rates>, percentile: string, ladder: seq<string>, run: Run, hard: set<string>,
    soft: set<string>) returns (n: nat)
    ensures var (r, v) := Climb(rates, percentile, ladder, run, hard, soft);
            Ends(rates, percentile, ladder, run, n, (hard, soft), r, v)
  {
    StartReached(run);
    assert ladder[0..] == ladder && KindsOf(ladder[..0]) == [] && run.taken + [] == run.taken;
    n := ClimbFromEnds(rates, percentile, ladder, run, 0, (hard, soft), run, hard, soft);
  }

  lemma SameAdmits(rates: Option<Rates>, percentile: string, ladder: seq<string>, a: Categories, b: Categories,
    plan: Plan, j: int)
    requires SameAccounts(a, b)
    ensures AdmitsAt(rates, percentile, ladder, a, plan, j) <==> AdmitsAt(rates, percentile, ladder, b, plan, j)
  {
    if 0 <= j < |ladder| {
      var kinds := KindsOf(ladder[..j + 1]);
      SameLimited(a, b, plan, kinds);
      SameFailures(LimitedAt(a, plan, kinds), LimitedAt(b, plan, kinds),
        PlanNeeds(rates, percentile, PlanAt(plan, kinds)));
    }
  }

  /**
   Exactly when a request is refused, in terms of the categories and the plan it came with: there is a
   failure or a warning as it stands, and at no step before an abort that asks for a limit do the
   counts fit the limits of the closed form. So soft warnings alone can have a request refused.
   */
  lemma RefusedExactly(rates: Option<Rates>, percentile: string, ladder: seq<string>, cats: Categories,
    projected: Dimensions, plan: Plan)
    ensures !Optimized(rates, percentile, ladder, cats, projected, plan).1.Admitted? <==>
            && (HardFailures(cats, projected) != {} || SoftWarnings(cats, projected) != {})
            && forall j :: !AdmitsAt(rates, percentile, ladder, cats, plan, j)
  {
    var run := Run(JudgedAll(cats, projected), plan, []);
    ClimbAdmitsExactly(rates, percentile, ladder, run, HardFailures(cats, projected), SoftWarnings(cats, projected));
    JudgingSame(cats, projected);
    forall j ensures AdmitsAt(rates, percentile, ladder, run.cats, plan, j)
        <==> AdmitsAt(rates, percentile, ladder, cats, plan, j)
    {
      SameAdmits(rates, percentile, ladder, run.cats, cats, plan, j);
    }
  }

  // ---- Fresh states: nothing consumed or reserved, as when an envelope is created ----

  ghost predicate Fresh(cats: Categories) {
    forall n :: n in cats ==> cats[n].consumed == 0.0 && cats[n].reserved == 0.0
  }

  /** Only the memory limit counts as lowered. */
  ghost function FirstLimit(n: string, c: CategoryState, plan: Plan, kinds: seq<Kind>): real {
    if Governor(n) == Quant then LimitAt(Quant, c.limit, plan, kinds) else c.limit
  }

  ghost predicate FitsFirst(n: string, c: CategoryState, needs: Dimensions, plan: Plan, kinds: seq<Kind>) {
    Need(n, c, needs) <= AtLeastZero(FirstLimit(n, c, plan, kinds)) + TOLERANCE
  }

  /** Every hard category has what it needs within its first limit. */
  ghost predicate FitsFresh(cats: Categories, needs: Dimensions, plan: Plan, kinds: seq<Kind>) {
    forall n :: n in cats && cats[n].hardness == Hard ==> FitsFirst(n, cats[n], needs, plan, kinds)
  }

  lemma CountIsNeed(n: string, c: CategoryState, needs: Dimensions, plan: Plan)
    ensures IsCount(Governor(n)) ==> Need(n, c, WithCounts(needs, plan)) == CountOf(plan, Governor(n))
  {
  }

  lemma FreshOver(n: string, c: CategoryState, needs: Dimensions, plan: Plan, kinds: seq<Kind>)
    requires c.consumed == 0.0 && c.reserved == 0.0
    ensures var present := WithCounts(needs, PlanAt(plan, kinds));
            Over(n, c.(limit := LimitAt(Governor(n), c.limit, plan, kinds)), present)
            <==> !FitsFirst(n, c, present, plan, kinds)
  {
    CountIsNeed(n, c, needs, PlanAt(plan, kinds));
  }

  /** Lowering a count's limit to the count itself neither helps nor hurts when nothing of it is used. */
  lemma FreshFailures(rates: Option<Rates>, percentile: string, cats: Categories, plan: Plan, kinds: seq<Kind>)
    requires Fresh(cats)
    ensures FailuresAt(rates, percentile, cats, plan, kinds) == {}
      <==> FitsFresh(cats, PlanNeeds(rates, percentile, PlanAt(plan, kinds)), plan, kinds)
  {
    var needs := PlanNeeds(rates, percentile, PlanAt(plan, kinds));
    forall n | n in cats && cats[n].hardness == Hard
      ensures n in FailuresAt(rates, percentile, cats, plan, kinds) <==> !FitsFirst(n, cats[n], needs, plan, kinds)
    {
      FreshOver(n, cats[n], TierNeeds(rates, percentile, PlanAt(plan, kinds).tier), plan, kinds);
    }
    forall n | n in FailuresAt(rates, percentile, cats, plan, kinds) ensures n in cats && cats[n].hardness == Hard {}
  }

  /** A fresh state is refused iff it has a failure or a warning, and what is needed never fits the first limits. */
  lemma FreshRefusedExactly(rates: Option<Rates>, percentile: string, ladder: seq<string>, cats: Categories,
    projected: Dimensions, plan: Plan)
    requires Fresh(cats)
    ensures !Optimized(rates, percentile, ladder, cats, projected, plan).1.Admitted? <==>
            && (HardFailures(cats, projected) != {} || SoftWarnings(cats, projected) != {})
            && forall j :: JudgedAfter(ladder, cats, plan, j) ==>
                 var kinds := KindsOf(ladder[..j + 1]);
                 !FitsFresh(cats, PlanNeeds(rates, percentile, PlanAt(plan, kinds)), plan, kinds)
  {
    RefusedExactly(rates, percentile, ladder, cats, projected, plan);
    forall j | JudgedAfter(ladder, cats, plan, j)
      ensures AdmitsAt(rates, percentile, ladder, cats, plan, j) <==>
        var kinds := KindsOf(ladder[..j + 1]);
        FitsFresh(cats, PlanNeeds(rates, percentile, PlanAt(plan, kinds)), plan, kinds)
    {
      FreshFailures(rates, percentile, cats, plan, KindsOf(ladder[..j + 1]));
    }
  }

  // ---- The plan filled in from the limits ----

  lemma {:induction false} TrimmedBelow(x: int, k: nat)
    requires x >= 0
    ensures Trimmed(x, k) <= AtLeast(256, x) && (k > 0 ==> Trimmed(x, k) >= 256) && (k == 0 ==> Trimmed(x, k) == x)
  {
    if k > 0 {
      TrimmedBelow(x, k - 1);
      assert Trimmed(x, k - 1) >= 0;
    }
  }

  lemma {:induction false} HalvedBelow(x: int, k: nat)
    requires x >= 0
    ensures 0 <= Halved(x, k) <= x
  {
    if k > 0 { HalvedBelow(x, k - 1); }
  }

  /** What has to fit of a filled plan: the categories that are not counts, and the 256 tokens trimming leaves. */
  ghost predicate FitsFilled(cats: Categories, needs: Dimensions, plan: Plan, kinds: seq<Kind>) {
    && (forall n :: n in cats && cats[n].hardness == Hard && !IsCount(Governor(n)) ==>
          FitsFirst(n, cats[n], needs, plan, kinds))
    && ("prompt_tokens" in cats && cats["prompt_tokens"].hardness == Hard && Times(kinds, Prompt) > 0 ==>
          256.0 <= cats["prompt_tokens"].limit + TOLERANCE)
  }

  lemma FilledCount(cats: Categories, prefs: Preferences, kinds: seq<Kind>, n: string)
    requires n in cats && cats[n].limit >= 0.0 && IsCount(Governor(n)) && FilledPlan(cats, prefs).Some?
    ensures var count := CountOf(PlanAt(FilledPlan(cats, prefs).value, kinds), Governor(n));
            count <= AtLeastZero(cats[n].limit) + TOLERANCE <==>
            !(Governor(n) == Prompt && Times(kinds, Prompt) > 0 && cats[n].limit + TOLERANCE < 256.0)
  {
    GovernorNames(n, Governor(n));
    var x := CountIn(cats, n);
    assert x >= 0 && x as real <= cats[n].limit;
    TrimmedBelow(x, Times(kinds, Prompt));
    HalvedBelow(x, Times(kinds, Reasoning));
  }

  lemma FilledFits(rates: Option<Rates>, percentile: string, cats: Categories, prefs: Preferences, kinds: seq<Kind>)
    requires FilledPlan(cats, prefs).Some? && forall n :: n in cats ==> cats[n].limit >= 0.0
    ensures var plan := FilledPlan(cats, prefs).value;
            var needs := PlanNeeds(rates, percentile, PlanAt(plan, kinds));
            FitsFresh(cats, needs, plan, kinds) <==> FitsFilled(cats, needs, plan, kinds)
  {
    var plan := FilledPlan(cats, prefs).value;
    var now := PlanAt(plan, kinds);
    var needs := PlanNeeds(rates, percentile, now);
    forall n | n in cats && IsCount(Governor(n))
      ensures FitsFirst(n, cats[n], needs, plan, kinds) <==>
        !(n == "prompt_tokens" && Times(kinds, Prompt) > 0 && cats[n].limit + TOLERANCE < 256.0)
    {
      GovernorNames(n, Governor(n));
      FilledCount(cats, prefs, kinds, n);
      CountIsNeed(n, cats[n], TierNeeds(rates, percentile, now.tier), now);
    }
  }

  /**
   A request that comes without a plan, on fresh limits that are not negative, is refused iff there is a
   failure or a warning and, whenever the state is judged, some hard category that is not a count needs
   more than its limit, or the prompt has been trimmed to more than its limit.
   */
  lemma EnvelopeRefusedExactly(rates: Option<Rates>, percentile: string, ladder: seq<string>, cats: Categories,
    projected: Dimensions, prefs: Preferences)
    requires Fresh(cats) && FilledPlan(cats, prefs).Some? && forall n :: n in cats ==> cats[n].limit >= 0.0
    ensures var plan := FilledPlan(cats, prefs).value;
            !Optimized(rates, percentile, ladder, cats, projected, plan).1.Admitted? <==>
            && (HardFailures(cats, projected) != {} || SoftWarnings(cats, projected) != {})
            && forall j :: JudgedAfter(ladder, cats, plan, j) ==>
                 var kinds := KindsOf(ladder[..j + 1]);
                 !FitsFilled(cats, PlanNeeds(rates, percentile, PlanAt(plan, kinds)), plan, kinds)
  {
    var plan := FilledPlan(cats, prefs).value;
    FreshRefusedExactly(rates, percentile, ladder, cats, projected, plan);
    forall j | JudgedAfter(ladder, cats, plan, j)
      ensures var kinds := KindsOf(ladder[..j + 1]);
        var needs := PlanNeeds(rates, percentile, PlanAt(plan, kinds));
        FitsFresh(cats, needs, plan, kinds) <==> FitsFilled(cats, needs, plan, kinds)
    {
      FilledFits(rates, percentile, cats, prefs, KindsOf(ladder[..j + 1]));
    }
  }

  // ---- Dead ends ----

  /** A trimmed prompt that is hard and partly used, or limited below 256 tokens, is over whatever else is done. */
  lemma TrimmedPromptOver(rates: Option<Rates>, percentile: string, cats: Categories, plan: Plan, kinds: seq<Kind>)
    requires "prompt_tokens" in cats && cats["prompt_tokens"].hardness == Hard && Times(kinds, Prompt) > 0
    requires var c := cats["prompt_tokens"]; var used := c.consumed + c.reserved;
      used > TOLERANCE || (used >= 0.0 && c.limit + TOLERANCE < 256.0)
    ensures "prompt_tokens" in FailuresAt(rates, percentile, cats, plan, kinds)
  {
    var c, now := cats["prompt_tokens"], PlanAt(plan, kinds);
    assert now.promptTokens >= 256;
    CountIsNeed("prompt_tokens", c, TierNeeds(rates, percentile, now.tier), now);
  }

  lemma StepCounted(steps: seq<string>, j: nat)
    requires j < |steps|
    ensures Times(KindsOf(steps), KindOf(steps[j])) > 0
  {
    assert KindsOf(steps)[j] == KindOf(steps[j]);
  }

  /** Once such a prompt is trimmed, no step of any ladder leads to admission. */
  lemma TrimContextDeadEnd(rates: Option<Rates>, percentile: string, ladder: seq<string>, run: Run, hard: set<string>,
    soft: set<string>)
    requires ladder != [] && ladder[0] == "trim_context"
    requires "prompt_tokens" in run.cats && run.cats["prompt_tokens"].hardness == Hard
    requires var c := run.cats["prompt_tokens"]; var used := c.consumed + c.reserved;
      used > TOLERANCE || (used >= 0.0 && c.limit + TOLERANCE < 256.0)
    ensures !Climb(rates, percentile, ladder, run, hard, soft).1.Admitted?
  {
    ClimbAdmitsExactly(rates, percentile, ladder, run, hard, soft);
    forall j | 0 <= j < |ladder| ensures !AdmitsAt(rates, percentile, ladder, run.cats, run.plan, j) {
      StepCounted(ladder[..j + 1], 0);
      TrimmedPromptOver(rates, percentile, run.cats, run.plan, KindsOf(ladder[..j + 1]));
    }
  }

  /** A ladder of silent steps changes the plan and then gives up, even on a state that had only soft warnings. */
  lemma {:induction false} SilentLadderGivesUp(rates: Option<Rates>, percentile: string, ladder: seq<string>, run: Run,
    hard: set<string>, soft: set<string>)
    requires forall i :: 0 <= i < |ladder| ==> Silent(ladder[i])
    ensures var (r, v) := Climb(rates, percentile, ladder, run, hard, soft);
            v == Exhausted(hard, soft) && r.cats == run.cats && r.taken == run.taken
    decreases ladder
  {
    if ladder != [] {
      if ladder[0] in STEPS { DegradeSilent(ladder[0], run.cats, run.plan); }
      var plan := if ladder[0] in STEPS then Degrade(ladder[0], run.cats, run.plan).0 else run.plan;
      SilentLadderGivesUp(rates, percentile, ladder[1..], run.(plan := plan), hard, soft);
    }
  }

  /** An envelope's state with a soft warning and no hard failure: refused when the ladder only lowers the tier. */
  lemma SoftWarningRefused(rates: Option<Rates>, percentile: string, prefs: Preferences)
    ensures var cats := ENVELOPE; var projected := map["energy_joules" := 100.0];
            && FilledPlan(cats, prefs).Some? && HardFailures(cats, projected) == {}
            && !Optimized(rates, percentile, ["lower_tier"], cats, projected, FilledPlan(cats, prefs).value).1.Admitted?
  {
    var cats, projected := ENVELOPE, map["energy_joules" := 100.0];
    assert "energy_joules" in SoftWarnings(cats, projected);
    SilentLadderGivesUp(rates, percentile, ["lower_tier"],
      Run(JudgedAll(cats, projected), FilledPlan(cats, prefs).value, []),
      HardFailures(cats, projected), SoftWarnings(cats, projected));
  }

  function Opened(limit: real, hardness: Hardness): CategoryState {
    CategoryState(limit, 0.0, 0.0, 0.0, hardness, NoViolation)
  }

  const ENVELOPE: Categories := map["prompt_tokens" := Opened(8192.0, Hard), "tool_calls" := Opened(8.0, Hard),
    "retries" := Opened(2.0, Hard), "energy_joules" := Opened(50.0, Soft)]

  /** Category `c`, after a step that lowered its limit to its need: when it is over. */
  ghost predicate OverExactly(c: CategoryState, dim: string, after: CategoryState, needs: Dimensions)
    requires dim in needs
  {
    var used, count := c.consumed + c.reserved, needs[dim];
    && (used >= 0.0 && count <= c.limit ==> (Over(dim, after, needs) <==> (used > TOLERANCE && count > TOLERANCE)))
    && (count > c.limit ==> (Over(dim, after, needs) <==> count > AtLeastZero(c.limit - used) + TOLERANCE))
  }

  /**
   What a count step does for its own dimension. Limit and need become the same number, so it is over
   afterwards exactly when something of it, and something of the count, is more than the tolerance;
   or, when the limit was lower already, exactly when what that leaves is too little.
   */
  lemma StepRepairsOwn(rates: Option<Rates>, percentile: string, run: Run, step: string)
    requires Dimension(step).Some? && Dimension(step).value in run.cats && Records(step, run)
    ensures var dim := Dimension(step).value; var c := run.cats[dim];
            var next := After(rates, percentile, step, run);
            var needs := PlanNeeds(rates, percentile, next.plan);
            dim in next.cats && dim in needs && OverExactly(c, dim, next.cats[dim], needs)
  {
    var dim := Dimension(step).value;
    var (plan, limit) := Degrade(step, run.cats, run.plan);
    LimitIsNeed(step, run.cats, run.plan, TierNeeds(rates, percentile, plan.tier), dim);
    OverAfter(run.cats[dim], dim, limit.value.1, PlanNeeds(rates, percentile, plan));
  }

  lemma OverAfter(c: CategoryState, dim: string, count: real, needs: Dimensions)
    requires dim in needs && needs[dim] == count
    ensures OverExactly(c, dim, Judged(dim, Lowered(c, count), needs), needs)
  {
  }
}
