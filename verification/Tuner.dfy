/** The tuning rules: one decision from a bundle of metrics and a policy, and its application. */
module Tuner {
  import opened LowerCase
  import opened Options
  import opened Policy
  import opened Rounding

  const LATENCY_SLACK_MS := 2500.0

  datatype Hotspots = Hotspots(topFunction: string, topPct: real, contaminated: bool)
  datatype Cascade = Cascade(tier1HitRate: real, avgLatencyMs: real)
  datatype Governor = Governor(thinkingTokensAvg: real)
  datatype Throughput = Throughput(predictedTokensSeconds: real)

  /** Each family of metrics may be missing. */
  datatype Bundle = Bundle(hotspots: Option<Hotspots>, cascade: Option<Cascade>, governor: Option<Governor>,
    throughput: Option<Throughput>)

  datatype Setting = DraftK(k: int) | Confidence(level: real) | ThinkingCap(cap: int)

  datatype Rule = R0 | R1 | R2 | R3 | R4 | NoRule

  datatype Decision =
    | Change(rule: Rule, before: Setting, after: Setting)
    | Hold(rule: Rule, at: Option<Setting>)
    | Skip
    | MetricUnavailable

  // ---- When each rule is triggered ----

  predicate ContainsGgml(s: string) {
    var l := LowerAll(s);
    exists i :: 0 <= i < |l| - 3 && l[i] == 'g' && l[i + 1] == 'g' && l[i + 2] == 'm' && l[i + 3] == 'l'
  }

  /** The profile can be judged. */
  predicate Usable(b: Bundle) { b.hotspots.Some? && !b.hotspots.value.contaminated }

  predicate DrafterSaturated(b: Bundle) {
    && b.hotspots.Some? && b.cascade.Some?
    && ContainsGgml(b.hotspots.value.topFunction) && b.hotspots.value.topPct > 60.0
    && b.cascade.value.tier1HitRate < 0.6
  }

  predicate DrafterHealthy(b: Bundle) {
    && b.cascade.Some?
    && b.cascade.value.tier1HitRate > 0.9 && b.cascade.value.avgLatencyMs < LATENCY_SLACK_MS
  }

  predicate Overrun(b: Bundle, cap: int) {
    b.governor.Some? && b.governor.value.thinkingTokensAvg > cap as real * 1.15
  }

  /** The throughput against the baseline, when both are there. */
  function Ratio(b: Bundle, baseline: Option<real>): Option<real> {
    if baseline.Some? && baseline.value > 0.0 && b.throughput.Some? then
      Some(b.throughput.value.predictedTokensSeconds / baseline.value)
    else None
  }

  // ---- The rules, first match wins ----

  /** A cap tightened by a tenth, rounded down. */
  function Tightened(cap: int): int {
    var less := (cap as real * 0.9).Floor;
    if less < MIN_GOVERNOR then MIN_GOVERNOR else less
  }

  function Nudged(confidence: real, step: real): real {
    WithinReal(MIN_ACCEPT, MAX_ACCEPT, confidence + step)
  }

  function Moving(rule: Rule, before: Setting, after: Setting): Decision {
    if after == before then Hold(rule, Some(before)) else Change(rule, before, after)
  }

  function DecideConfidence(confidence: real, ratio: Option<real>): Decision {
    if ratio.Some? && ratio.value > 0.95 && Nudged(confidence, -0.05) != confidence then
      Change(R4, Confidence(confidence), Confidence(Nudged(confidence, -0.05)))
    else if ratio.Some? && ratio.value < 0.80 && Nudged(confidence, 0.05) != confidence then
      Change(R4, Confidence(confidence), Confidence(Nudged(confidence, 0.05)))
    else Hold(NoRule, None)
  }

  function Decide(b: Bundle, policy: PolicyState, baseline: Option<real>): Decision {
    var c := Clamp(policy);
    if b.hotspots == None then MetricUnavailable
    else if b.hotspots.value.contaminated then Skip
    else if DrafterSaturated(b) then
      Moving(R1, DraftK(c.draftK), DraftK(if c.draftK - 1 < MIN_DRAFT_K then MIN_DRAFT_K else c.draftK - 1))
    else if DrafterHealthy(b) then
      Moving(R2, DraftK(c.draftK), DraftK(if c.draftK + 1 > MAX_DRAFT_K then MAX_DRAFT_K else c.draftK + 1))
    else if Overrun(b, c.thinkingCap) then Moving(R3, ThinkingCap(c.thinkingCap), ThinkingCap(Tightened(c.thinkingCap)))
    else DecideConfidence(c.confidence, Ratio(b, baseline))
  }

  function ApplyDecision(policy: PolicyState, d: Decision): PolicyState {
    if !d.Change? then policy
    else
      Clamp(match d.after
            case DraftK(k) => policy.(draftK := k)
            case Confidence(level) => policy.(confidence := level)
            case ThinkingCap(cap) => policy.(thinkingCap := cap))
  }

  function Tuned(b: Bundle, baseline: Option<real>, p: PolicyState): PolicyState {
    ApplyDecision(p, Decide(b, p, baseline))
  }

  // ---- One step ----

  ghost predicate OnlyDraft(c: PolicyState, q: PolicyState) {
    q == c.(draftK := q.draftK) && (q.draftK == c.draftK + 1 || q.draftK == c.draftK - 1)
  }

  ghost predicate OnlyCap(c: PolicyState, q: PolicyState) {
    && q == c.(thinkingCap := q.thinkingCap)
    && c.thinkingCap as real * 0.9 - 1.0 < q.thinkingCap as real && q.thinkingCap < c.thinkingCap
  }

  ghost predicate OnlyConfidence(c: PolicyState, q: PolicyState) {
    q == c.(confidence := q.confidence) && q.confidence != c.confidence && -0.05 <= q.confidence - c.confidence <= 0.05
  }

  lemma TightenedLess(cap: int)
    requires MIN_GOVERNOR <= cap
    ensures MIN_GOVERNOR <= Tightened(cap) <= cap
    ensures Tightened(cap) == cap <==> cap == MIN_GOVERNOR
    ensures cap as real * 0.9 - 1.0 < Tightened(cap) as real
  {
  }

  /** A change moves exactly one parameter of the clamped policy, by one small step, and stays in the box. */
  lemma ChangeMovesOneParameter(b: Bundle, baseline: Option<real>, p: PolicyState)
    requires Decide(b, p, baseline).Change?
    ensures var (c, q) := (Clamp(p), Tuned(b, baseline, p));
            InBox(q) && (OnlyDraft(c, q) || OnlyCap(c, q) || OnlyConfidence(c, q))
  {
    TightenedLess(Clamp(p).thinkingCap);
  }

  /** A change sets its own parameter to the value it names, pushed into its range, and only pushes the others there. */
  lemma ChangeApplied(p: PolicyState, rule: Rule, before: Setting, after: Setting)
    ensures var q := ApplyDecision(p, Change(rule, before, after));
            && IsNearest(q.draftK as real, (if after.DraftK? then after.k else p.draftK) as real, 2.0, 8.0)
            && IsNearest(q.confidence, if after.Confidence? then after.level else p.confidence, 0.5, 0.95)
            && IsNearest(q.thinkingCap as real, (if after.ThinkingCap? then after.cap else p.thinkingCap) as real,
                         256.0, 8192.0)
            && q.quant == p.quant
  {
  }

  // ---- Which rule fires, in the metrics themselves ----

  /** The name of the hottest function contains "ggml" in letters of either case. */
  ghost predicate NamesGgml(s: string) {
    exists i :: GgmlAt(s, i)
  }

  ghost predicate GgmlAt(s: string, i: int) {
    && 0 <= i < |s| - 3 && (s[i] == 'g' || s[i] == 'G') && (s[i + 1] == 'g' || s[i + 1] == 'G')
    && (s[i + 2] == 'm' || s[i + 2] == 'M') && (s[i + 3] == 'l' || s[i + 3] == 'L')
  }

  lemma LowerLetters(c: char)
    ensures Lower(c) == 'g' <==> c == 'g' || c == 'G'
    ensures Lower(c) == 'm' <==> c == 'm' || c == 'M'
    ensures Lower(c) == 'l' <==> c == 'l' || c == 'L'
  {
  }

  lemma NamesGgmlExactly(s: string)
    ensures ContainsGgml(s) <==> NamesGgml(s)
  {
    var l := LowerAll(s);
    if i :| 0 <= i < |l| - 3 && l[i] == 'g' && l[i + 1] == 'g' && l[i + 2] == 'm' && l[i + 3] == 'l' {
      LettersAt(s, i);
      assert GgmlAt(s, i);
    }
    if i :| GgmlAt(s, i) {
      LettersAt(s, i);
      assert l[i] == 'g';
    }
  }

  lemma LettersAt(s: string, i: nat)
    requires i < |s| - 3
    ensures var l := LowerAll(s);
            (l[i] == 'g' && l[i + 1] == 'g' && l[i + 2] == 'm' && l[i + 3] == 'l') <==> GgmlAt(s, i)
  {
    LowerLetters(s[i]);
    LowerLetters(s[i + 1]);
    LowerLetters(s[i + 2]);
    LowerLetters(s[i + 3]);
  }

  predicate Fires(d: Decision, rule: Rule) { (d.Change? || d.Hold?) && d.rule == rule }

  /**
   A saturated drafter shortens the draft by one, down to two; a healthy one with latency to spare lengthens
   it by one, up to eight; reasoning that overruns its cap by more than 15 percent tightens it by a tenth, rounded
   down, to no less than 256; a throughput above 95 or below 80 percent of the baseline moves the confidence
   down or up by 0.05 between 0.5 and 0.95. The first of these that is met decides.
   */
  lemma DecideExactly(b: Bundle, policy: PolicyState, baseline: Option<real>)
    ensures var d, c := Decide(b, policy, baseline), Clamp(policy);
            var usable := b.hotspots.Some? && !b.hotspots.value.contaminated;
            var saturated := usable && b.cascade.Some? && b.cascade.value.tier1HitRate < 0.6
              && b.hotspots.value.topPct > 60.0 && NamesGgml(b.hotspots.value.topFunction);
            var healthy := usable && b.cascade.Some? && b.cascade.value.tier1HitRate > 0.9
              && b.cascade.value.avgLatencyMs < 2500.0;
            var overrun := usable && b.governor.Some?
              && b.governor.value.thinkingTokensAvg > c.thinkingCap as real * 1.15;
            var compared := usable && baseline.Some? && baseline.value > 0.0 && b.throughput.Some?;
            && (d.MetricUnavailable? <==> b.hotspots == None)
            && (d.Skip? <==> b.hotspots.Some? && b.hotspots.value.contaminated)
            && (Fires(d, R1) <==> saturated) && (Fires(d, R2) <==> !saturated && healthy)
            && (Fires(d, R3) <==> !saturated && !healthy && overrun)
            && (d == Change(R1, DraftK(c.draftK), DraftK(c.draftK - 1)) <==> saturated && c.draftK > 2)
            && (d == Change(R2, DraftK(c.draftK), DraftK(c.draftK + 1)) <==> !saturated && healthy && c.draftK < 8)
            && (saturated && c.draftK == 2 ==> d == Hold(R1, Some(DraftK(2))))
            && (!saturated && healthy && c.draftK == 8 ==> d == Hold(R2, Some(DraftK(8))))
            && (Fires(d, R3) && d.Change? ==> exists cap ::
                  && d == Change(R3, ThinkingCap(c.thinkingCap), ThinkingCap(cap)) && cap >= 256
                  && (cap > 256 ==> cap as real <= c.thinkingCap as real * 0.9 < cap as real + 1.0))
            && (Fires(d, R3) && d.Hold? ==> c.thinkingCap == 256 && d == Hold(R3, Some(ThinkingCap(256))))
            && (usable && !saturated && !healthy && !overrun ==>
                  if compared && b.throughput.value.predictedTokensSeconds > 0.95 * baseline.value
                    && c.confidence > 0.5
                  then d == Change(R4, Confidence(c.confidence),
                                   Confidence(if c.confidence < 0.55 then 0.5 else c.confidence - 0.05))
                  else if compared && b.throughput.value.predictedTokensSeconds < 0.80 * baseline.value
                    && c.confidence < 0.95
                  then d == Change(R4, Confidence(c.confidence),
                                   Confidence(if c.confidence > 0.9 then 0.95 else c.confidence + 0.05))
                  else d == Hold(NoRule, None))
  {
    if b.hotspots.Some? { NamesGgmlExactly(b.hotspots.value.topFunction); }
    TightenedLess(Clamp(policy).thinkingCap);
    if baseline.Some? && baseline.value > 0.0 && b.throughput.Some? {
      RatioExactly(b.throughput.value.predictedTokensSeconds, baseline.value);
    }
  }

  lemma RatioExactly(rate: real, base: real)
    requires base > 0.0
    ensures rate / base > 0.95 <==> rate > 0.95 * base
    ensures rate / base < 0.80 <==> rate < 0.80 * base
  {
    var ratio := rate / base;
    assert ratio * base == rate;
    assert ratio > 0.95 <==> ratio * base > 0.95 * base;
    assert ratio < 0.80 <==> ratio * base < 0.80 * base;
  }

  // ---- Iteration on fixed metrics ----

  ghost function After(b: Bundle, baseline: Option<real>, p: PolicyState, n: nat): PolicyState
    decreases n
  {
    if n == 0 then p else After(b, baseline, Tuned(b, baseline, p), n - 1)
  }

  function TightenSteps(cap: int): nat
    decreases cap
  {
    if cap <= MIN_GOVERNOR then 0
    else
      TightenedLess(cap);
      1 + TightenSteps(Tightened(cap))
  }

  /** How far the rule that governs `b` still has to go from a clamped policy. */
  function StepsLeft(b: Bundle, baseline: Option<real>, c: PolicyState): nat
    requires InBox(c)
  {
    var ratio := Ratio(b, baseline);
    if !Usable(b) then 0
    else if DrafterSaturated(b) then c.draftK - MIN_DRAFT_K
    else if DrafterHealthy(b) then MAX_DRAFT_K - c.draftK
    else if Overrun(b, c.thinkingCap) then TightenSteps(c.thinkingCap)
    else if ratio.Some? && ratio.value > 0.95 then Ceil(20.0 * (c.confidence - MIN_ACCEPT))
    else if ratio.Some? && ratio.value < 0.80 then Ceil(20.0 * (MAX_ACCEPT - c.confidence))
    else 0
  }

  /** Where that rule drives the policy: one parameter to the end of its range, the others untouched. */
  function Goal(b: Bundle, baseline: Option<real>, c: PolicyState): PolicyState {
    var ratio := Ratio(b, baseline);
    if !Usable(b) then c
    else if DrafterSaturated(b) then c.(draftK := MIN_DRAFT_K)
    else if DrafterHealthy(b) then c.(draftK := MAX_DRAFT_K)
    else if Overrun(b, c.thinkingCap) then c.(thinkingCap := MIN_GOVERNOR)
    else if ratio.Some? && ratio.value > 0.95 then c.(confidence := MIN_ACCEPT)
    else if ratio.Some? && ratio.value < 0.80 then c.(confidence := MAX_ACCEPT)
    else c
  }

  lemma ConfidenceStep(level: real, ratio: Option<real>)
    requires MIN_ACCEPT <= level <= MAX_ACCEPT
    ensures var d := DecideConfidence(level, ratio);
            if ratio.Some? && ratio.value > 0.95 && level > MIN_ACCEPT then
              && d == Change(R4, Confidence(level), Confidence(Nudged(level, -0.05)))
              && Ceil(20.0 * (Nudged(level, -0.05) - MIN_ACCEPT)) == Ceil(20.0 * (level - MIN_ACCEPT)) - 1 >= 0
            else if ratio.Some? && ratio.value < 0.80 && level < MAX_ACCEPT then
              && d == Change(R4, Confidence(level), Confidence(Nudged(level, 0.05)))
              && Ceil(20.0 * (MAX_ACCEPT - Nudged(level, 0.05))) == Ceil(20.0 * (MAX_ACCEPT - level)) - 1 >= 0
            else d == Hold(NoRule, None)
  {
  }

  /** A decision is a change exactly while steps are left; each change uses up one and keeps the goal. */
  lemma StepTowardsGoal(b: Bundle, baseline: Option<real>, p: PolicyState)
    ensures Decide(b, p, baseline).Change? <==> StepsLeft(b, baseline, Clamp(p)) > 0
    ensures Decide(b, p, baseline).Change? ==>
              var q := Tuned(b, baseline, p);
              && InBox(q) && Clamp(q) == q
              && StepsLeft(b, baseline, q) == StepsLeft(b, baseline, Clamp(p)) - 1
              && Goal(b, baseline, q) == Goal(b, baseline, Clamp(p))
    ensures !Decide(b, p, baseline).Change? ==> Tuned(b, baseline, p) == p && Goal(b, baseline, Clamp(p)) == Clamp(p)
  {
    var c := Clamp(p);
    if Usable(b) && !DrafterSaturated(b) && !DrafterHealthy(b) {
      if Overrun(b, c.thinkingCap) {
        TightenedLess(c.thinkingCap);
      } else {
        ConfidenceStep(c.confidence, Ratio(b, baseline));
      }
    }
  }

  /** Every cap below `reach` is at the floor after `n` tightenings. */
  ghost predicate Floored(reach: real, n: nat) {
    forall cap :: cap as real < reach ==> TightenSteps(cap) <= n
  }

  lemma FlooredNext(reach: real, n: nat)
    requires Floored(reach, n) && reach > MIN_GOVERNOR as real
    ensures Floored(1.111 * reach, n + 1)
  {
    forall cap | cap as real < 1.111 * reach ensures TightenSteps(cap) <= n + 1 {
      if cap > MIN_GOVERNOR { assert Tightened(cap) as real < reach; }
    }
  }

  /** Six more steps widen the reach by 1.878 at least. */
  lemma FlooredLater(reach: real, n: nat)
    requires Floored(reach, n) && reach > MIN_GOVERNOR as real
    ensures Floored(1.878 * reach, n + 6)
  {
    FlooredNext(reach, n);
    FlooredNext(1.111 * reach, n + 1);
    var third := 1.234 * reach;
    FlooredNext(third, n + 2);
    FlooredNext(1.111 * third, n + 3);
    FlooredNext(1.234 * third, n + 4);
    FlooredNext(1.111 * (1.234 * third), n + 5);
  }

  lemma StepsLeftBounded(b: Bundle, baseline: Option<real>, c: PolicyState)
    requires InBox(c)
    ensures StepsLeft(b, baseline, c) <= 33
  {
    var reach := MIN_GOVERNOR as real + 1.0;
    assert Floored(reach, 0);
    FlooredNext(reach, 0);
    FlooredNext(1.111 * reach, 1);
    FlooredNext(1.234 * reach, 2);
    FlooredLater(1.370 * reach, 3);
    FlooredLater(2.572 * reach, 9);
    FlooredLater(4.830 * reach, 15);
    FlooredLater(9.070 * reach, 21);
    FlooredLater(17.033 * reach, 27);
    assert c.thinkingCap as real < 31.98 * reach;
  }

  lemma {:induction false} Settles(b: Bundle, baseline: Option<real>, p: PolicyState, n: nat)
    requires n == StepsLeft(b, baseline, Clamp(p))
    ensures forall k :: 0 <= k < n ==> Decide(b, After(b, baseline, p, k), baseline).Change?
    ensures !Decide(b, After(b, baseline, p, n), baseline).Change?
    ensures Clamp(After(b, baseline, p, n)) == Goal(b, baseline, Clamp(p))
    decreases n
  {
    StepTowardsGoal(b, baseline, p);
    if n > 0 {
      var q := Tuned(b, baseline, p);
      Settles(b, baseline, q, n - 1);
      forall k | 0 <= k < n ensures Decide(b, After(b, baseline, p, k), baseline).Change? {
        if k > 0 { assert After(b, baseline, p, k) == After(b, baseline, q, k - 1); }
      }
    }
  }

  /**
   On fixed metrics the tuner comes to rest: from any policy it makes a change for exactly
   `StepsLeft` cycles, at most 33, and then rests at `Goal` for good.
   */
  lemma TunerConverges(b: Bundle, baseline: Option<real>, p: PolicyState)
    ensures var n := StepsLeft(b, baseline, Clamp(p));
            && n <= 33
            && (forall k :: 0 <= k < n ==> Decide(b, After(b, baseline, p, k), baseline).Change?)
            && !Decide(b, After(b, baseline, p, n), baseline).Change?
            && Clamp(After(b, baseline, p, n)) == Goal(b, baseline, Clamp(p))
  {
    StepsLeftBounded(b, baseline, Clamp(p));
    Settles(b, baseline, p, StepsLeft(b, baseline, Clamp(p)));
  }

  // ---- Runs on changing metrics ----

  ghost function RunAll(p: PolicyState, inputs: seq<(Bundle, Option<real>)>): PolicyState {
    if inputs == [] then p
    else
      var (b, baseline) := inputs[|inputs| - 1];
      Tuned(b, baseline, RunAll(p, inputs[..|inputs| - 1]))
  }

  /**
   Whatever the metrics do, the policy is as it started or in the box, the thinking cap never rises,
   and without a baseline the confidence never moves.
   */
  lemma {:induction false} RunKeeps(p: PolicyState, inputs: seq<(Bundle, Option<real>)>)
    ensures var q := RunAll(p, inputs);
            && (q == p || InBox(q))
            && Clamp(q).thinkingCap <= Clamp(p).thinkingCap
            && q.quant == p.quant
            && ((forall i :: 0 <= i < |inputs| ==> inputs[i].1 == None) ==> Clamp(q).confidence == Clamp(p).confidence)
  {
    if inputs != [] {
      var (b, baseline) := inputs[|inputs| - 1];
      var q := RunAll(p, inputs[..|inputs| - 1]);
      RunKeeps(p, inputs[..|inputs| - 1]);
      TightenedLess(Clamp(q).thinkingCap);
      if Decide(b, q, baseline).Change? { ChangeMovesOneParameter(b, baseline, q); }
    }
  }
}
