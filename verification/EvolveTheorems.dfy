/** What tuning cycles keep: the policy file, the overrides, the history, and the measured rates. */
module EvolveTheorems {
  import opened Options
  import opened Policy
  import opened Powers
  import opened Tuner
  import opened EvolveCycle

  // ---- One cycle ----

  /** A live change always writes a text that differs from the one it replaces. */
  lemma ProposedDiffers(f: Files, c: Cycle)
    requires GoesLive(f, c)
    ensures InBox(Proposed(f, c)) && Clamp(Proposed(f, c)) == Proposed(f, c)
    ensures Some(Dumped(Proposed(f, c))) != f.policy
    ensures OverridesOf(Proposed(f, c)) != OverridesOf(Loaded(f, c))
  {
    ChangeMovesOneParameter(c.bundle, None, Loaded(f, c));
  }

  /** A missing file is read as its seed, another as what it holds if it parses, each pushed into the box. */
  lemma LoadExactly(file: Option<Text>, seed: Option<PolicyState>)
    ensures var held := match file
              case None => seed
              case Some(Dumped(p)) => Some(p)
              case Some(Other(_, fields)) => fields;
            (Load(file, seed).Some? <==> held.Some?) && (held.Some? ==> Load(file, seed).value == Clamp(held.value))
  {
  }

  /** The faults of the steps, in the order they are taken; three of them only when the change is rolled back. */
  ghost function Faults(plan: Plan, rolledBack: bool): seq<Option<Fault>> {
    [plan.restart,
     match plan.recapture
     case NoRecapture => Some(Ordinary)
     case CaptureFailed(fault) => Some(fault)
     case Captured(_) => None]
    + (if !rolledBack then [] else
         [if plan.copyBack.Failed? then Some(plan.copyBack.fault) else None,
          if plan.rewrite.Failed? then Some(plan.rewrite.fault) else None,
          plan.restartAgain])
    + [if plan.append.Failed? then Some(plan.append.fault) else None]
  }

  ghost function FirstFault(faults: seq<Option<Fault>>): Option<Fault> {
    if faults == [] then None else if faults[0].Some? then faults[0] else FirstFault(faults[1..])
  }

  /**
   A live change ends with the first fault of its steps: an interrupt is raised as it is, an ordinary failure is
   caught, and raised again unless restoring the file fails, too. Without a fault it is applied, or rolled back.
   */
  lemma FirstFaultDecides(f: Files, c: Cycle)
    requires GoesLive(f, c)
    ensures var fault := FirstFault(Faults(c.plan, Regresses(c)));
            EndingOf(f, c) ==
              if fault == None then Returned(if Regresses(c) then RolledBack else Applied)
              else if fault == Some(Interrupt) then Raised(Interrupt)
              else Raised(if c.plan.restore.Failed? then c.plan.restore.fault else Ordinary)
    ensures Caught(c) <==> FirstFault(Faults(c.plan, Regresses(c))) == Some(Ordinary)
  {
    var faults := Faults(c.plan, Regresses(c));
    FirstOfSix(faults);
  }

  lemma FirstOfSix(fs: seq<Option<Fault>>)
    requires |fs| == 3 || |fs| == 6
    ensures FirstFault(fs) == if fs[0].Some? then fs[0] else if fs[1].Some? then fs[1] else if fs[2].Some? then fs[2]
      else if |fs| == 3 then None else if fs[3].Some? then fs[3] else if fs[4].Some? then fs[4] else fs[5]
  {
    forall i | 0 <= i < |fs| ensures fs[i..][0] == fs[i] && fs[i..][1..] == fs[i + 1..] {}
    assert fs[0..] == fs && fs[|fs|..] == [];
    if |fs| == 6 {
      assert FirstFault(fs[5..]) == fs[5];
      assert FirstFault(fs[4..]) == if fs[4].Some? then fs[4] else fs[5];
      assert FirstFault(fs[3..]) == if fs[3].Some? then fs[3] else FirstFault(fs[4..]);
    }
    assert FirstFault(fs[2..]) == if fs[2].Some? then fs[2] else FirstFault(fs[3..]);
    assert FirstFault(fs[1..]) == if fs[1].Some? then fs[1] else FirstFault(fs[2..]);
  }

  /** A file a step failed to write holds what the step left, unless the handler restores it. */
  lemma FaultsLeave(f: Files, c: Cycle)
    requires GoesLive(f, c) && c.plan.restart == None && c.plan.recapture.Captured?
    ensures var plan, g := c.plan, FilesAfter(f, c);
            && (Regresses(c) && plan.copyBack.Failed? && plan.copyBack.fault == Interrupt ==>
                  g.policy == plan.copyBack.left && g.overrides == Some(OverridesOf(Proposed(f, c))))
            && (Regresses(c) && plan.copyBack.Done? && plan.rewrite.Failed? ==> g.overrides == plan.rewrite.left)
    ensures (Regresses(c) ==> c.plan.copyBack.Done? && c.plan.rewrite.Done? && c.plan.restartAgain == None) ==>
              c.plan.append.Failed? ==> FilesAfter(f, c).history == f.history + c.plan.append.left
    ensures FirstFault(Faults(c.plan, Regresses(c))) == Some(Ordinary) && c.plan.restore.Failed? ==>
              FilesAfter(f, c).policy == c.plan.restore.left
  {
    FirstFaultDecides(f, c);
  }

  /** A policy that cannot be read ends the cycle before anything is written; so does a live change without a file. */
  lemma UnreadableRaises(f: Files, c: Cycle)
    ensures Load(f.policy, c.seed) == None ==> FilesAfter(f, c) == f && EndingOf(f, c) == Raised(Ordinary)
    ensures var p := Load(f.policy, c.seed);
            p.Some? && f.policy == None && !c.dryRun && Decide(c.bundle, p.value, None).Change? ==>
              FilesAfter(f, c) == f && EndingOf(f, c) == Raised(Ordinary)
  {
  }

  /** A cycle that decides on no change, live or dry, adds the one record that says so and touches nothing else. */
  lemma NoChangeRecorded(f: Files, c: Cycle)
    requires (c.dryRun || !c.allowDemo) && Load(f.policy, c.seed).Some? && c.plan.append.Done?
    ensures var p := Load(f.policy, c.seed).value; var d := Decide(c.bundle, p, None);
            var outcome := match d case Skip => SkippedContaminated case MetricUnavailable => NoMetrics case _ => Held;
            !d.Change? ==>
              && FilesAfter(f, c) == f.(history := f.history + [Record(d, outcome, c.dryRun, p, p)])
              && EndingOf(f, c) == Returned(outcome)
  {
  }

  /** No step of the plan fails. */
  predicate Smooth(plan: Plan) {
    && plan.restart == None && plan.recapture.Captured? && plan.copyBack.Done? && plan.rewrite.Done?
    && plan.restartAgain == None && plan.append.Done?
  }

  /**
   A live cycle that decides on a change, all steps succeeding: the change is in the policy file, the overrides and
   the history, or, when a rate got worse by more than the limit, file and overrides are the old ones and the history
   says so.
   */
  lemma SmoothCycle(f: Files, c: Cycle)
    requires !c.dryRun && !c.allowDemo && f.policy.Some? && Load(f.policy, c.seed).Some? && Smooth(c.plan)
    requires Decide(c.bundle, Load(f.policy, c.seed).value, None).Change?
    ensures var p := Load(f.policy, c.seed).value; var d := Decide(c.bundle, p, None);
            var next, after := ApplyDecision(p, d), c.plan.recapture.bundle;
            var worse :=
              || (c.bundle.throughput.Some? && after.throughput.Some?
                  && Lost(c.bundle.throughput.value.predictedTokensSeconds,
                          after.throughput.value.predictedTokensSeconds, c.maxPct))
              || (c.bundle.cascade.Some? && after.cascade.Some?
                  && Lost(c.bundle.cascade.value.tier1HitRate, after.cascade.value.tier1HitRate, c.maxPct));
            && EndingOf(f, c) == Returned(if worse then RolledBack else Applied)
            && FilesAfter(f, c) == if worse then
                 Files(f.policy, Some(OverridesOf(p)), f.history + [Record(d, RolledBack, false, p, p)], None)
               else
                 Files(Some(Dumped(next)), Some(OverridesOf(next)),
                       f.history + [Record(d, Applied, false, p, next)], None)
  {
    ProposedDiffers(f, c);
    var after := c.plan.recapture.bundle;
    if c.bundle.throughput.Some? && after.throughput.Some? {
      NotWorseExactly(c.bundle.throughput.value.predictedTokensSeconds,
        after.throughput.value.predictedTokensSeconds, c.maxPct);
    }
    if c.bundle.cascade.Some? && after.cascade.Some? {
      NotWorseExactly(c.bundle.cascade.value.tier1HitRate, after.cascade.value.tier1HitRate, c.maxPct);
    }
  }

  /** A positive rate that kept less than all but `maxPct` percent of itself. */
  predicate Lost(before: real, after: real, maxPct: real) {
    before > 0.0 && after < before * (1.0 - maxPct / 100.0)
  }

  /**
   The policy file ends as it began exactly when nothing went live, the change was rolled back, an
   ordinary failure was caught and the snapshot restored, or an interrupt came after the rollback had
   copied the snapshot back. Broken copies are taken to leave something else than the original.
   */
  lemma PolicyRestoredExactly(f: Files, c: Cycle)
    requires c.plan.copyBack.Failed? ==> c.plan.copyBack.left != f.policy
    requires c.plan.restore.Failed? ==> c.plan.restore.left != f.policy
    ensures PolicyAfter(f, c) == f.policy <==>
            || !GoesLive(f, c)
            || (Broken(c) == None && Regresses(c))
            || (Caught(c) && !c.plan.restore.Failed?)
            || (Broken(c).Some? && !Caught(c) && Regresses(c) && Order(Broken(c).value) > Order(CopyingBack))
  {
    if GoesLive(f, c) { ProposedDiffers(f, c); }
  }

  /** So with ordinary failures only, wherever they strike, the file keeps its contents unless the cycle is applied. */
  lemma OriginalUnlessApplied(f: Files, c: Cycle)
    requires Orderly(c) && EndingOf(f, c) != Returned(Applied)
    ensures PolicyAfter(f, c) == f.policy
  {
  }

  /** No interrupt, and the handler's own copy succeeds. */
  predicate Orderly(c: Cycle) {
    Broken(c).Some? ==> Caught(c) && !c.plan.restore.Failed?
  }

  /**
   A live change that returns has added one record, told the truth in it about the policy that is now
   in the file, and left overrides that agree with that file; the snapshot is gone.
   */
  lemma LiveReturnAgrees(f: Files, c: Cycle)
    requires GoesLive(f, c) && EndingOf(f, c).Returned?
    ensures var g := FilesAfter(f, c);
            && g.history == f.history + [RecordOf(f, c)] && RecordOf(f, c).outcome == EndingOf(f, c).outcome
            && Load(g.policy, None) == Some(RecordOf(f, c).after)
            && g.overrides == Some(OverridesOf(RecordOf(f, c).after))
            && g.snapshot == None
  {
    ProposedDiffers(f, c);
  }

  /** The overrides are those of the policy in the file. */
  predicate Agree(g: Files) {
    var p := Load(g.policy, None);
    p.Some? && g.overrides == Some(OverridesOf(p.value))
  }

  /**
   However a live change ends: the overrides agree with the policy file exactly when the rollback has
   rewritten them, or when nothing put the old file back. A caught failure does put it back, so it
   leaves the overrides of the change unless it came after the rewriting. Copies are taken to succeed,
   but for one that fails ordinarily in the rollback.
   */
  lemma OverridesAgreeExactly(f: Files, c: Cycle)
    requires GoesLive(f, c) && (Breaks(c, CopyingBack) ==> Caught(c)) && (Caught(c) ==> !c.plan.restore.Failed?)
    requires c.plan.rewrite.Failed? ==> c.plan.rewrite.left != Some(OverridesOf(Loaded(f, c)))
    ensures Caught(c) ==> PolicyAfter(f, c) == f.policy
    ensures Agree(FilesAfter(f, c)) <==> Completes(c, Rewriting) || (!Caught(c) && !Completes(c, CopyingBack))
  {
    ProposedDiffers(f, c);
  }

  // ---- Runs of cycles ----

  ghost function RunCycles(f: Files, cs: seq<Cycle>): Files {
    if cs == [] then f else FilesAfter(RunCycles(f, cs[..|cs| - 1]), cs[|cs| - 1])
  }

  ghost predicate Tame(f: Files, g: Files) {
    && (g.policy == f.policy || (g.policy.Some? && g.policy.value.Dumped? && InBox(g.policy.value.policy)))
    && (g.policy == None <==> f.policy == None)
    && (var p, q := Load(f.policy, None), Load(g.policy, None);
        p.Some? ==> q.Some? && q.value.confidence == p.value.confidence && q.value.thinkingCap <= p.value.thinkingCap)
  }

  lemma OneCycleKeeps(p: PolicyState, b: Bundle)
    ensures var q := Tuned(b, None, p);
            Clamp(q).confidence == Clamp(p).confidence && Clamp(q).thinkingCap <= Clamp(p).thinkingCap
  {
    var inputs: seq<(Bundle, Option<real>)> := [(b, None)];
    assert inputs[..0] == [];
    RunKeeps(p, inputs);
  }

  lemma CycleTame(f: Files, c: Cycle)
    requires Orderly(c)
    ensures Tame(f, FilesAfter(f, c))
  {
    if GoesLive(f, c) {
      ProposedDiffers(f, c);
      OneCycleKeeps(Loaded(f, c), c.bundle);
    }
  }

  /**
   Over every run of cycles without interrupts, with any ordinary failures: the file is the original
   text or one the tuner wrote in the box; cycles never move the confidence, as they decide without a
   baseline; and they never raise the thinking cap.
   */
  lemma {:induction false} RunTame(f: Files, cs: seq<Cycle>)
    requires forall i :: 0 <= i < |cs| ==> Orderly(cs[i])
    ensures Tame(f, RunCycles(f, cs))
  {
    if cs != [] {
      RunTame(f, cs[..|cs| - 1]);
      CycleTame(RunCycles(f, cs[..|cs| - 1]), cs[|cs| - 1]);
    }
  }

  /** The policy text that a history accounts for: the last applied policy, or the text before it all. */
  function Accounted(text: Option<Text>, history: seq<Record>): Option<Text> {
    if history == [] then text
    else
      var r := history[|history| - 1];
      if r.Record? && r.outcome == Applied then Some(Dumped(r.after)) else Accounted(text, history[..|history| - 1])
  }

  predicate IsApplied(r: Record) { r.Record? && r.outcome == Applied }

  lemma {:induction false} AccountedMore(text: Option<Text>, history: seq<Record>, more: seq<Record>)
    ensures Accounted(text, history + more) == Accounted(Accounted(text, history), more)
  {
    if more == [] {
      assert history + more == history;
    } else {
      assert (history + more)[..|history + more| - 1] == history + more[..|more| - 1];
      AccountedMore(text, history, more[..|more| - 1]);
    }
  }

  /**
   What a failed append left does not misreport the policy: no record of an applied change is among
   it, or the last one names the policy that is in the file anyway.
   */
  predicate AppendsTruly(f: Files, c: Cycle) {
    GetsToRecording(f, c) && c.plan.append.Failed? ==> NamesPolicy(c.plan.append.left, f.policy)
  }

  predicate NamesPolicy(left: seq<Record>, policy: Option<Text>) {
    if left == [] then true
    else
      var r := left[|left| - 1];
      if IsApplied(r) then policy == Some(Dumped(r.after)) else NamesPolicy(left[..|left| - 1], policy)
  }

  lemma {:induction false} NamesPolicyExactly(left: seq<Record>, policy: Option<Text>)
    ensures NamesPolicy(left, policy) <==> Accounted(policy, left) == policy
  {
    if left != [] && !IsApplied(left[|left| - 1]) { NamesPolicyExactly(left[..|left| - 1], policy); }
  }

  lemma RecordAccounts(f: Files, c: Cycle)
    requires Orderly(c) && GetsToRecording(f, c) && !c.plan.append.Failed?
    ensures PolicyAfter(f, c) == Accounted(f.policy, [RecordOf(f, c)])
  {
    if GoesLive(f, c) { ProposedDiffers(f, c); }
    assert [RecordOf(f, c)][..0] == [];
  }

  lemma NothingAccounted(f: Files, c: Cycle)
    requires Orderly(c) && (!GetsToRecording(f, c) || c.plan.append.Failed?)
    ensures PolicyAfter(f, c) == f.policy
  {
  }

  /** A cycle keeps the history accountable for the policy file exactly when its append does not misreport. */
  lemma CycleAccountedExactly(text: Option<Text>, f: Files, c: Cycle)
    requires Orderly(c) && f.policy == Accounted(text, f.history)
    ensures PolicyAfter(f, c) == Accounted(text, HistoryAfter(f, c)) <==> AppendsTruly(f, c)
  {
    if !GetsToRecording(f, c) {
      NothingAccounted(f, c);
    } else if c.plan.append.Failed? {
      NothingAccounted(f, c);
      AccountedMore(text, f.history, c.plan.append.left);
      NamesPolicyExactly(c.plan.append.left, f.policy);
    } else {
      AccountedMore(text, f.history, [RecordOf(f, c)]);
      RecordAccounts(f, c);
    }
  }

  ghost predicate TellsPolicy(f: Files, cs: seq<Cycle>, n: nat) {
    n <= |cs| && RunCycles(f, cs[..n]).policy == Accounted(f.policy, RunCycles(f, cs[..n]).history)
  }

  ghost predicate AppendsTrulyAt(f: Files, cs: seq<Cycle>, i: nat) {
    i < |cs| && AppendsTruly(RunCycles(f, cs[..i]), cs[i])
  }

  lemma NextTells(f: Files, cs: seq<Cycle>, n: nat)
    requires n < |cs| && Orderly(cs[n]) && TellsPolicy(f, cs, n)
    ensures TellsPolicy(f, cs, n + 1) <==> AppendsTrulyAt(f, cs, n)
  {
    assert cs[..n + 1][..n] == cs[..n];
    CycleAccountedExactly(f.policy, RunCycles(f, cs[..n]), cs[n]);
  }

  lemma {:induction false} StepByStep(holds: nat -> bool, kept: nat -> bool, n: nat)
    requires holds(0) && forall m: nat :: m < n && holds(m) ==> (holds(m + 1) <==> kept(m))
    ensures (forall m: nat :: m <= n ==> holds(m)) <==> (forall m: nat :: m < n ==> kept(m))
  {
    if n > 0 {
      StepByStep(holds, kept, n - 1);
      assert holds(n - 1) ==> (holds(n - 1 + 1) <==> kept(n - 1));
      assert holds(n - 1) ==> (holds(n) <==> kept(n - 1));
    }
  }

  /**
   Throughout a run of cycles without interrupts the history alone tells what is in the policy file,
   exactly when no failed append of the run misreports it.
   */
  lemma HistoryTellsPolicy(f: Files, cs: seq<Cycle>)
    requires f.history == [] && forall i :: 0 <= i < |cs| ==> Orderly(cs[i])
    ensures (forall n: nat :: n <= |cs| ==> TellsPolicy(f, cs, n)) <==>
            (forall i: nat :: i < |cs| ==> AppendsTrulyAt(f, cs, i))
  {
    var holds := (n: nat) => TellsPolicy(f, cs, n);
    var kept := (i: nat) => AppendsTrulyAt(f, cs, i);
    assert cs[..0] == [] && holds(0);
    forall m: nat | m < |cs| && holds(m) ensures holds(m + 1) <==> kept(m) { NextTells(f, cs, m); }
    StepByStep(holds, kept, |cs|);
    assert forall n: nat {:trigger TellsPolicy(f, cs, n)} :: holds(n) == TellsPolicy(f, cs, n);
    assert forall i: nat {:trigger AppendsTrulyAt(f, cs, i)} :: kept(i) == AppendsTrulyAt(f, cs, i);
  }

  /** An append that fails after writing the whole record of a change makes the history claim what was undone. */
  lemma OverclaimedChange(f: Files, c: Cycle)
    requires GoesLive(f, c) && !Regresses(c) && Broken(c) == Some(Recording) && Orderly(c)
    requires c.plan.append.left == [RecordOf(f, c)]
    ensures PolicyAfter(f, c) == f.policy != Accounted(f.policy, HistoryAfter(f, c))
  {
    ProposedDiffers(f, c);
  }

  // ---- Failing cycles ----

  const SETTLED := PolicyState(4, 0.75, 1024, "Q4_0")

  /** A healthy drafter with latency to spare: the draft may grow. */
  const HEALTHY := Bundle(Some(Hotspots("decode", 10.0, false)), Some(Cascade(0.95, 100.0)), None, None)

  const ALL_DONE := Plan(None, Captured(HEALTHY), Done, Done, None, Done, Done)

  const BEFORE := Files(Some(Dumped(SETTLED)), Some(OverridesOf(SETTLED)), [], None)

  function Live(plan: Plan): Cycle { Cycle(false, false, HEALTHY, 5.0, None, plan) }

  lemma HealthyGrows(plan: Plan)
    ensures GoesLive(BEFORE, Live(plan)) && Proposed(BEFORE, Live(plan)) == SETTLED.(draftK := 5)
  {
    assert !ContainsGgml("decode");
  }

  /** A restart that fails leaves the old policy in the file and the new draft length in the overrides. */
  lemma StaleOverrides()
    ensures var g := FilesAfter(BEFORE, Live(ALL_DONE.(restart := Some(Ordinary))));
            g.policy == BEFORE.policy && g.overrides == Some(Overrides(5, 0.75, 1024)) != Some(OverridesOf(SETTLED))
  {
    HealthyGrows(ALL_DONE.(restart := Some(Ordinary)));
  }

  /** An interrupt is not caught: the new policy stays in the file, and the history has no record of it. */
  lemma InterruptKeepsChange()
    ensures var g := FilesAfter(BEFORE, Live(ALL_DONE.(restart := Some(Interrupt))));
            g.policy == Some(Dumped(SETTLED.(draftK := 5))) != BEFORE.policy && g.history == BEFORE.history && Agree(g)
  {
    HealthyGrows(ALL_DONE.(restart := Some(Interrupt)));
    OverridesAgreeExactly(BEFORE, Live(ALL_DONE.(restart := Some(Interrupt))));
  }

  /** The applied record is written, the append fails, and the policy is put back. */
  lemma Overclaimed()
    ensures var d := Change(R2, DraftK(4), DraftK(5));
            var r := Record(d, Applied, false, SETTLED, SETTLED.(draftK := 5));
            var g := FilesAfter(BEFORE, Live(ALL_DONE.(append := Failed(Ordinary, [r]))));
            && g.policy == BEFORE.policy && g.history == [r]
            && Accounted(BEFORE.policy, g.history) == Some(Dumped(r.after))
  {
    var r := Record(Change(R2, DraftK(4), DraftK(5)), Applied, false, SETTLED, SETTLED.(draftK := 5));
    HealthyGrows(ALL_DONE.(append := Failed(Ordinary, [r])));
  }

  // ---- Drift ----

  /** No regression is reported exactly for a rate that was not positive or kept all but `maxPct` percent. */
  lemma NotWorseExactly(before: real, after: real, maxPct: real)
    ensures !Worse(before, after, maxPct) <==> before <= 0.0 || after >= before * (1.0 - maxPct / 100.0)
  {
    if before > 0.0 {
      var loss := (before - after) / before;
      assert loss * before == before - after;
      assert loss > maxPct / 100.0 <==> loss * before > maxPct / 100.0 * before;
    }
  }

  function Rate(b: Bundle): Option<real> {
    if b.throughput.Some? then Some(b.throughput.value.predictedTokensSeconds) else None
  }

  function HitRate(b: Bundle): Option<real> {
    if b.cascade.Some? then Some(b.cascade.value.tier1HitRate) else None
  }

  function Recaptured(c: Cycle): Bundle { if c.plan.recapture.Captured? then c.plan.recapture.bundle else c.bundle }

  /** Applied cycles with the same limit, measured before and after, each starting where the previous one ended. */
  ghost predicate AppliedChain(measure: Bundle -> Option<real>, fs: seq<Files>, cs: seq<Cycle>, maxPct: real) {
    && |fs| == |cs|
    && (forall i :: 0 <= i < |cs| ==>
          && EndingOf(fs[i], cs[i]) == Returned(Applied) && cs[i].maxPct == maxPct
          && measure(cs[i].bundle).Some? && measure(Recaptured(cs[i])).Some?)
    && (forall i :: 0 < i < |cs| ==> measure(cs[i].bundle) == measure(Recaptured(cs[i - 1])))
  }

  lemma AppliedNotWorse(measure: Bundle -> Option<real>, f: Files, c: Cycle)
    requires measure == Rate || measure == HitRate
    requires EndingOf(f, c) == Returned(Applied) && measure(c.bundle).Some? && measure(Recaptured(c)).Some?
    ensures !Worse(measure(c.bundle).value, measure(Recaptured(c)).value, c.maxPct)
  {
    assert Broken(c) == None;
    BrokenIsFirst(c, Recapturing);
    assert !Fails(c, Recapturing) && !Regresses(c);
  }

  lemma ScaledStep(start: real, x: real, power: real, before: real, after: real)
    requires before >= start * power && before > 0.0 && x > 0.0 && after >= before * x
    ensures after >= start * (x * power) && after > 0.0
  {
    assert before * x >= start * power * x;
    assert before * x > 0.0;
  }

  /** A rate that never gets worse by more than `maxPct` percent at once keeps at least (1 - maxPct/100)^n of itself. */
  lemma {:induction false} DriftBounded(rates: seq<real>, maxPct: real, n: nat)
    requires |rates| == n + 1 && rates[0] > 0.0 && maxPct < 100.0
    requires forall i :: 0 <= i < n ==> !Worse(rates[i], rates[i + 1], maxPct)
    ensures rates[n] >= rates[0] * Power(1.0 - maxPct / 100.0, n) && rates[n] > 0.0
  {
    if n > 0 {
      var x := 1.0 - maxPct / 100.0;
      DriftBounded(rates[..n], maxPct, n - 1);
      NotWorseExactly(rates[n - 1], rates[n], maxPct);
      ScaledStep(rates[0], x, Power(x, n - 1), rates[n - 1], rates[n]);
      assert Power(x, n) == x * Power(x, n - 1);
    }
  }

  /** The rates of a chain, from the first measured to the last. */
  ghost function Rates(measure: Bundle -> Option<real>, cs: seq<Cycle>): seq<real>
    requires cs != [] && measure(cs[0].bundle).Some?
    requires forall i :: 0 <= i < |cs| ==> measure(Recaptured(cs[i])).Some?
  {
    [measure(cs[0].bundle).value] + seq(|cs|, i requires 0 <= i < |cs| => measure(Recaptured(cs[i])).value)
  }

  lemma RateBefore(measure: Bundle -> Option<real>, fs: seq<Files>, cs: seq<Cycle>, maxPct: real, i: nat)
    requires AppliedChain(measure, fs, cs, maxPct) && i < |cs|
    ensures Rates(measure, cs)[i] == measure(cs[i].bundle).value
    ensures Rates(measure, cs)[i + 1] == measure(Recaptured(cs[i])).value
  {
  }

  /** After n applied cycles throughput and tier-1 hit rate have kept at least (1 - maxPct/100)^n of themselves. */
  lemma AppliedDriftBounded(measure: Bundle -> Option<real>, fs: seq<Files>, cs: seq<Cycle>, maxPct: real)
    requires measure == Rate || measure == HitRate
    requires AppliedChain(measure, fs, cs, maxPct) && cs != [] && maxPct < 100.0
    requires measure(cs[0].bundle).value > 0.0
    ensures measure(Recaptured(cs[|cs| - 1])).value >= measure(cs[0].bundle).value * Power(1.0 - maxPct / 100.0, |cs|)
  {
    var n, rates := |cs|, Rates(measure, cs);
    forall i | 0 <= i < n ensures !Worse(rates[i], rates[i + 1], maxPct) {
      AppliedNotWorse(measure, fs[i], cs[i]);
      RateBefore(measure, fs, cs, maxPct, i);
    }
    RateBefore(measure, fs, cs, maxPct, n - 1);
    DriftBounded(rates, maxPct, n);
  }

  /** The bound is reached: rates that lose exactly `maxPct` percent each time are never reported. */
  lemma {:induction false} DriftTight(start: real, maxPct: real, n: nat) returns (rates: seq<real>)
    requires start > 0.0 && maxPct < 100.0
    ensures |rates| == n + 1 && rates[0] == start && rates[n] == start * Power(1.0 - maxPct / 100.0, n)
    ensures forall i :: 0 <= i < n ==> !Worse(rates[i], rates[i + 1], maxPct)
  {
    if n == 0 {
      rates := [start];
    } else {
      rates := DriftTight(start, maxPct, n - 1);
      var x := 1.0 - maxPct / 100.0;
      NotWorseExactly(rates[n - 1], rates[n - 1] * x, maxPct);
      assert start * Power(x, n - 1) * x == start * (x * Power(x, n - 1));
      rates := rates + [rates[n - 1] * x];
    }
  }
}
