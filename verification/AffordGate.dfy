/** The afford gate: which model tier a request may still use. */
module AffordGate {
  import opened Options
  import opened Budget
  import opened Estimator
  import opened BudgetOptimizer

  /** What the gate sees of a request: no service or no envelope, an envelope it does not know, or its budget. */
  datatype Standing = Unbound | Unknown | Bound(rates: Option<Rates>, percentile: string, cats: Categories)

  predicate Affords(st: Standing, tier: int) {
    st.Unbound? || (st.Bound? && Blocking(st.cats, TierNeeds(st.rates, st.percentile, tier)) == {})
  }

  // ---- The choice ----

  ghost function Affording(st: Standing): int -> bool { (t: int) => Affords(st, t) }

  lemma AffordingIs(st: Standing)
    ensures forall t {:trigger Affords(st, t)} :: Affording(st)(t) == Affords(st, t)
  {
  }

  ghost predicate NoneBetween(affords: int -> bool, from: int, to: int) {
    forall t :: from <= t <= to ==> !affords(t)
  }

  lemma NoneAlso(affords: int -> bool, from: int, to: int, t: int)
    requires NoneBetween(affords, from, to) && !affords(t)
    ensures t == to + 1 ==> NoneBetween(affords, from, t)
    ensures t == from - 1 ==> NoneBetween(affords, t, to)
  {
  }

  /** The search upwards comes first, then the search downwards, then tier one. */
  ghost predicate Chosen(st: Standing, preferred: int, maximum: int, r: int) {
    || (preferred <= r <= maximum && Affords(st, r) && NoneBetween(Affording(st), preferred, r - 1))
    || (&& NoneBetween(Affording(st), preferred, maximum) && 1 <= r <= preferred && Affords(st, r)
        && NoneBetween(Affording(st), r + 1, preferred))
    || (NoneBetween(Affording(st), preferred, maximum) && NoneBetween(Affording(st), 1, preferred) && r == 1)
  }

  ghost predicate AffordedWithin(st: Standing, from: int, to: int) {
    exists t :: from <= t <= to && Affords(st, t)
  }

  /**
   That is the lowest affordable tier from the preferred one up to the maximum; if there is none, the
   highest one below; and tier one, affordable or not, if there is none of those either.
   */
  lemma ChosenExactly(st: Standing, preferred: int, maximum: int, r: int)
    ensures Chosen(st, preferred, maximum, r) <==>
      if AffordedWithin(st, preferred, maximum) then
        preferred <= r <= maximum && Affords(st, r) && forall t :: preferred <= t < r ==> !Affords(st, t)
      else if AffordedWithin(st, 1, preferred) then
        1 <= r <= preferred && Affords(st, r) && forall t :: r < t <= preferred ==> !Affords(st, t)
      else r == 1
  {
    AffordingIs(st);
  }

  /** The highest affordable tier that is not above the preferred one, or tier one. */
  ghost predicate IsBest(st: Standing, preferred: int, r: int) {
    || (1 <= r <= preferred && Affords(st, r) && NoneBetween(Affording(st), r + 1, preferred))
    || (r == 1 && NoneBetween(Affording(st), 1, preferred))
  }

  ghost predicate Priced(st: Standing) {
    st.Bound? && (st.rates.Some? ==> NonNegative(st.rates.value))
  }

  lemma LessBlocksLess(cats: Categories, a: Dimensions, b: Dimensions)
    requires AtMost(a, b)
    ensures Blocking(cats, a) <= Blocking(cats, b)
  {
    forall n | n in Blocking(cats, a) ensures n in Blocking(cats, b) { assert n in b && a[n] <= b[n]; }
  }

  /** A budget that affords a tier affords the tiers below it that have no larger multiplier. */
  lemma AffordsBelow(st: Standing, s: int, t: int)
    requires Priced(st) && s <= t && Multiplier(s) <= Multiplier(t) && Affords(st, t)
    ensures Affords(st, s)
  {
    if st.rates.Some? { TierMonotone(st.rates.value, s, t, DEFAULT_THREADS, NO_CACHE, st.percentile); }
    LessBlocksLess(st.cats, TierNeeds(st.rates, st.percentile, s), TierNeeds(st.rates, st.percentile, t));
  }

  lemma AffordsHigh(st: Standing, t: int)
    requires st.Bound? && t > 3
    ensures Affords(st, t) == Affords(st, 2)
  {
    if st.rates.Some? { HighTiersLikeTwo(st.rates.value, t, DEFAULT_THREADS, NO_CACHE); }
  }

  lemma AffordsLow(st: Standing, t: int)
    requires st.Bound? && t < 1
    ensures Affords(st, t) == Affords(st, 0)
  {
    if st.rates.Some? { LowTiersAlike(st.rates.value, t, DEFAULT_THREADS, NO_CACHE); }
  }

  /** The case in which the search goes past tier three. */
  predicate Overshoots(st: Standing, preferred: int, maximum: int) {
    preferred == 3 && maximum >= 4 && !Affords(st, 3) && Affords(st, 2)
  }

  /**
   Both searches together give the best tier, whatever the maximum, except in one case: tier three is
   preferred but not affordable, tier two is, and the maximum lets the search go past three, where
   the prices are those of tier two again.
   */
  lemma TierChoiceExactly(st: Standing, preferred: int, maximum: int, r: int)
    requires Priced(st) && 1 <= preferred <= 3 && Chosen(st, preferred, maximum, r)
    ensures IsBest(st, preferred, r) <==> !Overshoots(st, preferred, maximum)
  {
    AffordingIs(st);
    if Overshoots(st, preferred, maximum) {
      AffordsHigh(st, 4);
    } else {
      forall t | preferred <= t <= maximum && Affords(st, t) ensures Affords(st, preferred) {
        if t > 3 { AffordsHigh(st, t); }
        if t <= 3 { AffordsBelow(st, preferred, t); } else if preferred <= 2 { AffordsBelow(st, preferred, 2); }
      }
    }
  }

  /** A preference above three is granted, or dropped to one, as tier two is affordable or not. */
  lemma HighPreference(st: Standing, preferred: int, maximum: int, r: int)
    requires Priced(st) && preferred > 3 && Chosen(st, preferred, maximum, r)
    ensures r == if Affords(st, 2) then preferred else 1
  {
    AffordingIs(st);
    forall s, t | 1 <= s <= t <= 3 && Affords(st, t) ensures Affords(st, s) { AffordsBelow(st, s, t); }
    forall t | t > 3 ensures Affords(st, t) == Affords(st, 2) { AffordsHigh(st, t); }
    assert Affords(st, preferred) == Affords(st, 2);
  }

  /** What can be afforded above zero shows that zero can. */
  lemma ZeroWithHigher(st: Standing, t: int)
    requires Priced(st) && t >= 2 && Affords(st, t)
    ensures Affords(st, 0)
  {
    if t > 3 { AffordsHigh(st, t); }
    AffordsBelow(st, 0, if t > 3 then 2 else t);
  }

  /**
   A preference below one is granted, zero or negative as it is, when tiers below one can be afforded and
   the maximum does not lie below it; otherwise the answer is one, affordable or not.
   */
  lemma LowPreference(st: Standing, preferred: int, maximum: int, r: int)
    requires Priced(st) && preferred < 1 && Chosen(st, preferred, maximum, r)
    ensures r == if preferred <= maximum && Affords(st, 0) then preferred else 1
  {
    AffordingIs(st);
    forall t | t < 1 ensures Affords(st, t) == Affords(st, 0) { AffordsLow(st, t); }
    forall t | t >= 2 && Affords(st, t) ensures Affords(st, 0) { ZeroWithHigher(st, t); }
    assert Affords(st, preferred) == Affords(st, 0);
  }

  /** The same dimensions with no less left of any hard one. */
  ghost predicate Looser(a: Categories, b: Categories) {
    && b.Keys == a.Keys
    && forall n :: n in a && b[n].hardness == Hard ==> a[n].hardness == Hard && Remaining(a[n]) <= Remaining(b[n])
  }

  lemma LooserBlocksLess(a: Categories, b: Categories, needs: Dimensions)
    requires Looser(a, b)
    ensures Blocking(b, needs) <= Blocking(a, needs)
  {
  }

  /** With more left, what was affordable stays so. */
  lemma LooserAffords(st: Standing, cats: Categories, t: int)
    requires st.Bound? && Looser(st.cats, cats) && Affords(st, t)
    ensures Affords(st.(cats := cats), t)
  {
    LooserBlocksLess(st.cats, cats, TierNeeds(st.rates, st.percentile, t));
  }

  lemma Overshot(st: Standing, maximum: int, r: int)
    requires Priced(st) && Chosen(st, 3, maximum, r)
    ensures Overshoots(st, 3, maximum) ==> r == 4
  {
    AffordingIs(st);
    AffordsHigh(st, 4);
  }

  /**
   With more left the tier chosen is no lower, except where the tighter budget made the search
   overshoot to tier four and the looser one affords tier three.
   */
  lemma LooserBudgetExactly(st: Standing, cats: Categories, preferred: int, maximum: int, low: int, high: int)
    requires Priced(st) && Looser(st.cats, cats) && 1 <= preferred <= 3
    requires Chosen(st, preferred, maximum, low) && Chosen(st.(cats := cats), preferred, maximum, high)
    ensures low <= high <==> !(Overshoots(st, preferred, maximum) && Affords(st.(cats := cats), 3))
  {
    var st' := st.(cats := cats);
    TierChoiceExactly(st, preferred, maximum, low);
    TierChoiceExactly(st', preferred, maximum, high);
    if Affords(st, 2) { LooserAffords(st, cats, 2); }
    if Affords(st, low) { LooserAffords(st, cats, low); }
    AffordingIs(st');
    if preferred == 3 {
      Overshot(st, maximum, low);
      Overshot(st', maximum, high);
    }
  }

  // ---- Where the choice misleads ----

  const FREE := Rates(0.0, 0.0, 0.0, 0.0, 0.0, 0.0, 0.0, 0.0, 0.0, 0.0, 0.0)

  /** A budget of completion tokens alone. */
  function Completions(limit: real): Standing {
    Bound(Some(FREE), "p50", map["completion_tokens" := CategoryState(limit, 0.0, 0.0, 0.0, Hard, NoViolation)])
  }

  lemma CompletionNeed(tier: int)
    ensures var needs := TierNeeds(Some(FREE), "p50", tier);
            "completion_tokens" in needs && needs["completion_tokens"] == 256.0 * Multiplier(tier)
  {
  }

  /** Tier two needs 256 completion tokens, tier three 640. */
  lemma CompletionsAfford(limit: real, tier: int)
    requires limit >= 0.0
    ensures Affords(Completions(limit), tier) <==> 256.0 * Multiplier(tier) <= limit + TOLERANCE
  {
    CompletionNeed(tier);
    var st := Completions(limit);
    var needs := TierNeeds(st.rates, st.percentile, tier);
    assert Remaining(st.cats["completion_tokens"]) == limit;
    if 256.0 * Multiplier(tier) > limit + TOLERANCE {
      assert "completion_tokens" in Blocking(st.cats, needs);
    } else {
      assert Blocking(st.cats, needs) == {};
    }
  }

  lemma AllButThree(st: Standing)
    requires forall t :: Affords(st, t) <==> t != 3
    ensures Chosen(st, 3, 4, 4) && IsBest(st, 3, 2) && !IsBest(st, 3, 4)
  {
    AffordingIs(st);
  }

  lemma ThreeIsChosen(st: Standing)
    requires Affords(st, 3)
    ensures Chosen(st, 3, 4, 3)
  {
    AffordingIs(st);
  }

  /** With 256 tokens tier four is chosen where two is the best; with 640 the choice falls back to three. */
  lemma TierFalls()
    ensures Chosen(Completions(256.0), 3, 4, 4) && IsBest(Completions(256.0), 3, 2) && !IsBest(Completions(256.0), 3, 4)
    ensures Chosen(Completions(640.0), 3, 4, 3) && Looser(Completions(256.0).cats, Completions(640.0).cats)
  {
    forall t ensures Affords(Completions(256.0), t) <==> t != 3 {
      CompletionsAfford(256.0, t);
    }
    CompletionsAfford(640.0, 3);
    AllButThree(Completions(256.0));
    ThreeIsChosen(Completions(640.0));
    OneLimitRaised("completion_tokens", 256.0, 640.0);
  }

  lemma OneLimitRaised(name: string, a: real, b: real)
    requires 0.0 <= a <= b
    ensures Looser(map[name := CategoryState(a, 0.0, 0.0, 0.0, Hard, NoViolation)],
                   map[name := CategoryState(b, 0.0, 0.0, 0.0, Hard, NoViolation)])
  {
  }

  // ---- The objects ----

  class BudgetService {
    const rates: Option<Rates>
    const percentile: string
    var states: map<string, BudgetRuntimeState>

    ghost function Footprint(): set<object>
      reads this
    {
      set s, c | s in states.Values && c in s.categories.Values :: c
    }

    constructor (rates: Option<Rates>, percentile: string)
      ensures this.rates == rates && this.percentile == percentile && states == map[]
    {
      this.rates, this.percentile, states := rates, percentile, map[];
    }
  }

  class BudgetAffordGate {
    var service: BudgetService?

    constructor ()
      ensures service == null
    {
      service := null;
    }

    method Bind(service: BudgetService)
      modifies this
      ensures this.service == service
    {
      this.service := service;
    }

    ghost function Stands(envelope: Option<string>): Standing
      reads this, service, if service == null then {} else service.Footprint()
    {
      if service == null || envelope == None || envelope.value == "" then Unbound
      else if envelope.value !in service.states then Unknown
      else Bound(service.rates, service.percentile, service.states[envelope.value].View())
    }

    /** An unknown envelope is an error. */
    method CanAffordTier(envelope: Option<string>, tier: int) returns (affordable: Option<bool>)
      ensures Stands(envelope) == old(Stands(envelope))
      ensures affordable == if Stands(envelope).Unknown? then None else Some(Affords(Stands(envelope), tier))
      ensures service == null || envelope == None || envelope == Some("") ==> affordable == Some(true)
      ensures service != null && envelope.Some? && envelope != Some("") ==>
        if envelope.value !in service.states then affordable == None
        else affordable == Some(Blocking(service.states[envelope.value].View(),
                                         TierNeeds(service.rates, service.percentile, tier)) == {})
    {
      if service == null || envelope == None || envelope.value == "" {
        return Some(true);
      }
      if envelope.value !in service.states {
        return None;
      }
      var blocking := service.states[envelope.value].CanAfford(TierNeeds(service.rates, service.percentile, tier));
      return Some(blocking == {});
    }

    method SelectAffordableTier(envelope: Option<string>, preferred: int, maximum: int) returns (tier: Option<int>)
      ensures tier == None <==> Stands(envelope).Unknown? && (preferred <= maximum || preferred >= 1)
      ensures tier.Some? ==> Chosen(Stands(envelope), preferred, maximum, tier.value)
    {
      ghost var st := Stands(envelope);
      var t := preferred;
      while t <= maximum
        invariant Stands(envelope) == st
        invariant t == preferred || (preferred < t <= maximum + 1 && !st.Unknown?)
        invariant NoneBetween(Affording(st), preferred, t - 1)
      {
        var d := CanAffordTier(envelope, t);
        if d == None { return None; }
        if d.value { return Some(t); }
        NoneAlso(Affording(st), preferred, t - 1, t);
        t := t + 1;
      }
      t := preferred;
      while t > 0
        invariant Stands(envelope) == st
        invariant t == preferred || (0 <= t < preferred && !st.Unknown?)
        invariant NoneBetween(Affording(st), t + 1, preferred)
      {
        var d := CanAffordTier(envelope, t);
        if d == None { return None; }
        if d.value { return Some(t); }
        NoneAlso(Affording(st), t + 1, preferred, t);
        t := t - 1;
      }
      return Some(1);
    }
  }
}
