/** One tuning cycle over the policy file, its snapshot, the gateway overrides and the history. */
module EvolveCycle {
  import opened Options
  import opened Policy
  import opened Tuner

  /** The policy file: as the tuner wrote it, or any other text with the fields it loads to, if it loads. */
  datatype Text = Dumped(policy: PolicyState) | Other(raw: string, fields: Option<PolicyState>)

  datatype Outcome = SkippedContaminated | NoMetrics | Held | DryRun | RolledBack | Applied

  /** An interrupt is not caught by the handler of ordinary failures. */
  datatype Fault = Ordinary | Interrupt

  datatype Ending = Returned(outcome: Outcome) | Raised(fault: Fault)

  datatype Record =
    | Record(decision: Decision, outcome: Outcome, dryRun: bool, before: PolicyState, after: PolicyState)
    | Torn

  datatype Files = Files(policy: Option<Text>, overrides: Option<Overrides>, history: seq<Record>,
    snapshot: Option<Text>)

  /** A step of the cycle that may fail; `left` is then what it leaves in the file it was writing. */
  datatype Step<T> = Done | Failed(fault: Fault, left: T)

  datatype Recapture = NoRecapture | Captured(bundle: Bundle) | CaptureFailed(fault: Fault)

  datatype Plan = Plan(restart: Option<Fault>, recapture: Recapture, copyBack: Step<Option<Text>>,
    rewrite: Step<Option<Overrides>>, restartAgain: Option<Fault>, append: Step<seq<Record>>,
    restore: Step<Option<Text>>)

  datatype Cycle = Cycle(dryRun: bool, allowDemo: bool, bundle: Bundle, maxPct: real, seed: Option<PolicyState>,
    plan: Plan)

  // ---- Regression ----

  predicate Worse(before: real, after: real, maxPct: real) {
    before > 0.0 && (before - after) / before > maxPct / 100.0
  }

  predicate ThroughputRegressed(before: Bundle, after: Bundle, maxPct: real) {
    && before.throughput.Some? && after.throughput.Some?
    && Worse(before.throughput.value.predictedTokensSeconds, after.throughput.value.predictedTokensSeconds, maxPct)
  }

  predicate HitRateRegressed(before: Bundle, after: Bundle, maxPct: real) {
    && before.cascade.Some? && after.cascade.Some?
    && Worse(before.cascade.value.tier1HitRate, after.cascade.value.tier1HitRate, maxPct)
  }

  predicate Regressed(before: Bundle, after: Bundle, maxPct: real) {
    ThroughputRegressed(before, after, maxPct) || HitRateRegressed(before, after, maxPct)
  }

  // ---- Files ----

  /** A missing file is seeded from the live configuration; an unreadable one is an error. */
  function Load(file: Option<Text>, seed: Option<PolicyState>): Option<PolicyState> {
    match file
    case None => if seed.Some? then Some(Clamp(seed.value)) else None
    case Some(Dumped(p)) => Some(Clamp(p))
    case Some(Other(_, fields)) => if fields.Some? then Some(Clamp(fields.value)) else None
  }

  function QuietOutcome(d: Decision): Outcome {
    match d
    case Skip => SkippedContaminated
    case MetricUnavailable => NoMetrics
    case Hold(_, _) => Held
    case Change(_, _, _) => DryRun
  }

  // ---- Where a live change breaks ----

  datatype Stage = Restarting | Recapturing | CopyingBack | Rewriting | RestartingAgain | Recording

  function Order(s: Stage): nat {
    match s
    case Restarting => 0
    case Recapturing => 1
    case CopyingBack => 2
    case Rewriting => 3
    case RestartingAgain => 4
    case Recording => 5
  }

  function FaultAt(c: Cycle, s: Stage): Option<Fault> {
    match s
    case Restarting => c.plan.restart
    case Recapturing =>
      if c.plan.recapture.NoRecapture? then Some(Ordinary)
      else if c.plan.recapture.CaptureFailed? then Some(c.plan.recapture.fault) else None
    case CopyingBack => if c.plan.copyBack.Failed? then Some(c.plan.copyBack.fault) else None
    case Rewriting => if c.plan.rewrite.Failed? then Some(c.plan.rewrite.fault) else None
    case RestartingAgain => c.plan.restartAgain
    case Recording => if c.plan.append.Failed? then Some(c.plan.append.fault) else None
  }

  predicate Regresses(c: Cycle) {
    c.plan.recapture.Captured? && Regressed(c.bundle, c.plan.recapture.bundle, c.maxPct)
  }

  /** The stages of a change that is kept, and of one that is rolled back. */
  predicate TakesPart(c: Cycle, s: Stage) {
    s == Restarting || s == Recapturing || s == Recording || Regresses(c)
  }

  predicate Fails(c: Cycle, s: Stage) { TakesPart(c, s) && FaultAt(c, s).Some? }

  /** The first stage to fail. */
  function Broken(c: Cycle): (at: Option<Stage>)
    ensures at.Some? ==> Fails(c, at.value)
  {
    if Fails(c, Restarting) then Some(Restarting)
    else if Fails(c, Recapturing) then Some(Recapturing)
    else if Fails(c, CopyingBack) then Some(CopyingBack)
    else if Fails(c, Rewriting) then Some(Rewriting)
    else if Fails(c, RestartingAgain) then Some(RestartingAgain)
    else if Fails(c, Recording) then Some(Recording)
    else None
  }

  lemma BrokenIsFirst(c: Cycle, s: Stage)
    ensures Broken(c) == Some(s) <==> Fails(c, s) && forall t :: Order(t) < Order(s) ==> !Fails(c, t)
    ensures Broken(c) == None <==> forall t :: !Fails(c, t)
  {
    if Broken(c).Some? { assert Fails(c, Broken(c).value); }
  }

  predicate Breaks(c: Cycle, s: Stage) { Broken(c) == Some(s) }

  predicate Completes(c: Cycle, s: Stage) {
    TakesPart(c, s) && (Broken(c).Some? ==> Order(s) < Order(Broken(c).value))
  }

  /** The exception handler is entered. */
  predicate Caught(c: Cycle) { Broken(c).Some? && FaultAt(c, Broken(c).value).value == Ordinary }

  // ---- What a cycle does ----

  /** Refused before anything is written: demo telemetry, an unreadable policy, or a live change without a file. */
  predicate Refused(f: Files, c: Cycle) {
    || (!c.dryRun && c.allowDemo)
    || Load(f.policy, c.seed) == None
    || (!c.dryRun && f.policy == None && Decide(c.bundle, Load(f.policy, c.seed).value, None).Change?)
  }

  function Loaded(f: Files, c: Cycle): PolicyState
    requires !Refused(f, c)
  {
    Load(f.policy, c.seed).value
  }

  function Decided(f: Files, c: Cycle): Decision
    requires !Refused(f, c)
  {
    Decide(c.bundle, Loaded(f, c), None)
  }

  predicate GoesLive(f: Files, c: Cycle) {
    !Refused(f, c) && !c.dryRun && Decided(f, c).Change?
  }

  function Proposed(f: Files, c: Cycle): PolicyState
    requires !Refused(f, c)
  {
    ApplyDecision(Loaded(f, c), Decided(f, c))
  }

  function LiveEnding(c: Cycle): Ending {
    if Caught(c) then Raised(if c.plan.restore.Failed? then c.plan.restore.fault else Ordinary)
    else if Broken(c).Some? then Raised(Interrupt)
    else Returned(if Regresses(c) then RolledBack else Applied)
  }

  function EndingOf(f: Files, c: Cycle): Ending {
    if Refused(f, c) then Raised(Ordinary)
    else if GoesLive(f, c) then LiveEnding(c)
    else if c.plan.append.Failed? then Raised(c.plan.append.fault)
    else Returned(QuietOutcome(Decided(f, c)))
  }

  /** The policy file when the steps inside the `try` are over. */
  function PolicyTried(f: Files, c: Cycle): Option<Text>
    requires GoesLive(f, c)
  {
    if Completes(c, CopyingBack) then f.policy
    else if Breaks(c, CopyingBack) then c.plan.copyBack.left
    else Some(Dumped(Clamp(Proposed(f, c))))
  }

  function PolicyAfter(f: Files, c: Cycle): Option<Text> {
    if !GoesLive(f, c) then f.policy
    else if Caught(c) then (if c.plan.restore.Failed? then c.plan.restore.left else f.policy)
    else PolicyTried(f, c)
  }

  function OverridesAfter(f: Files, c: Cycle): Option<Overrides> {
    if !GoesLive(f, c) then f.overrides
    else if Completes(c, Rewriting) then Some(OverridesOf(Loaded(f, c)))
    else if Breaks(c, Rewriting) then c.plan.rewrite.left
    else Some(OverridesOf(Proposed(f, c)))
  }

  function RecordOf(f: Files, c: Cycle): Record
    requires !Refused(f, c)
  {
    var p, d := Loaded(f, c), Decided(f, c);
    if GoesLive(f, c) then
      if Regresses(c) then Record(d, RolledBack, false, p, p) else Record(d, Applied, false, p, Proposed(f, c))
    else Record(d, QuietOutcome(d), c.dryRun, p, Proposed(f, c))
  }

  predicate GetsToRecording(f: Files, c: Cycle) {
    !Refused(f, c) && (GoesLive(f, c) ==> Completes(c, Recording) || Breaks(c, Recording))
  }

  function HistoryAfter(f: Files, c: Cycle): seq<Record> {
    if !GetsToRecording(f, c) then f.history
    else f.history + if c.plan.append.Failed? then c.plan.append.left else [RecordOf(f, c)]
  }

  function FilesAfter(f: Files, c: Cycle): Files {
    Files(PolicyAfter(f, c), OverridesAfter(f, c), HistoryAfter(f, c), if GoesLive(f, c) then None else f.snapshot)
  }

  class Workspace {
    var policy: Option<Text>
    var overrides: Option<Overrides>
    var history: seq<Record>
    var snapshot: Option<Text>

    function View(): Files
      reads this
    {
      Files(policy, overrides, history, snapshot)
    }

    method Append(record: Record, step: Step<seq<Record>>) returns (fault: Option<Fault>)
      modifies this`history
      ensures history == old(history) + if step.Failed? then step.left else [record]
      ensures fault == if step.Failed? then Some(step.fault) else None
    {
      if step.Failed? {
        history := history + step.left;
        return Some(step.fault);
      }
      history := history + [record];
      return None;
    }

    /** The steps inside the `try`, up to the first that fails. */
    method Try(c: Cycle, p: PolicyState, d: Decision, next: PolicyState) returns (ending: Ending)
      modifies this`policy, this`overrides, this`history
      ensures policy == if Completes(c, CopyingBack) then snapshot
                        else if Breaks(c, CopyingBack) then c.plan.copyBack.left else old(policy)
      ensures overrides == if Completes(c, Rewriting) then Some(OverridesOf(p))
                           else if Breaks(c, Rewriting) then c.plan.rewrite.left else old(overrides)
      ensures history == old(history) + if Completes(c, Recording) then
                [if Regresses(c) then Record(d, RolledBack, false, p, p) else Record(d, Applied, false, p, next)]
              else if Breaks(c, Recording) then c.plan.append.left else []
      ensures ending == if Broken(c).Some? then Raised(FaultAt(c, Broken(c).value).value)
                        else Returned(if Regresses(c) then RolledBack else Applied)
    {
      if c.plan.restart.Some? {
        return Raised(c.plan.restart.value);
      }
      if c.plan.recapture.NoRecapture? {
        return Raised(Ordinary);
      } else if c.plan.recapture.CaptureFailed? {
        return Raised(c.plan.recapture.fault);
      }
      if Regressed(c.bundle, c.plan.recapture.bundle, c.maxPct) {
        if c.plan.copyBack.Failed? {
          policy := c.plan.copyBack.left;
          return Raised(c.plan.copyBack.fault);
        }
        policy := snapshot;
        if c.plan.rewrite.Failed? {
          overrides := c.plan.rewrite.left;
          return Raised(c.plan.rewrite.fault);
        }
        overrides := Some(OverridesOf(p));
        if c.plan.restartAgain.Some? {
          return Raised(c.plan.restartAgain.value);
        }
        var fault := Append(Record(d, RolledBack, false, p, p), c.plan.append);
        return if fault.Some? then Raised(fault.value) else Returned(RolledBack);
      }
      var fault := Append(Record(d, Applied, false, p, next), c.plan.append);
      return if fault.Some? then Raised(fault.value) else Returned(Applied);
    }

    method Perform(c: Cycle) returns (ending: Ending)
      modifies this
      ensures View() == FilesAfter(old(View()), c)
      ensures ending == EndingOf(old(View()), c)
    {
      if !c.dryRun && c.allowDemo {
        return Raised(Ordinary);
      }
      var loaded := Load(policy, c.seed);
      if loaded == None {
        return Raised(Ordinary);
      }
      var p := loaded.value;
      var d := Decide(c.bundle, p, None);
      var next := ApplyDecision(p, d);
      if !d.Change? || c.dryRun {
        var fault := Append(Record(d, QuietOutcome(d), c.dryRun, p, next), c.plan.append);
        return if fault.Some? then Raised(fault.value) else Returned(QuietOutcome(d));
      }
      if policy == None {
        return Raised(Ordinary);
      }
      ending := GoLive(c, p, d, next);
    }

    /** The live path: snapshot, new policy and overrides, the guarded steps, the handler and the cleanup. */
    method GoLive(c: Cycle, p: PolicyState, d: Decision, next: PolicyState) returns (ending: Ending)
      requires GoesLive(View(), c) && p == Loaded(View(), c) && d == Decided(View(), c) && next == Proposed(View(), c)
      modifies this
      ensures View() == FilesAfter(old(View()), c)
      ensures ending == LiveEnding(c)
    {
      snapshot := policy;
      policy := Some(Dumped(Clamp(next)));
      overrides := Some(OverridesOf(next));
      ending := Try(c, p, d, next);
      if ending == Raised(Ordinary) {
        if c.plan.restore.Failed? {
          policy := c.plan.restore.left;
          ending := Raised(c.plan.restore.fault);
        } else {
          policy := snapshot;
        }
      }
      snapshot := None;
    }

    /**
     The same. A dry run touches nothing but the history and never applies or rolls back; a live cycle on
     demonstration telemetry is refused.
     */
    method RunCycle(c: Cycle) returns (ending: Ending)
      modifies this
      ensures View() == FilesAfter(old(View()), c)
      ensures ending == EndingOf(old(View()), c)
      ensures c.dryRun ==> policy == old(policy) && overrides == old(overrides) && snapshot == old(snapshot)
      ensures c.dryRun ==> ending != Returned(Applied) && ending != Returned(RolledBack)
      ensures c.dryRun && ending.Returned? ==>
        && |history| == |old(history)| + 1 && history[..|old(history)|] == old(history)
        && Load(old(policy), c.seed).Some?
        && (var p := Load(old(policy), c.seed).value; var d := Decide(c.bundle, p, None);
            history[|old(history)|] == Record(d, ending.outcome, true, p, ApplyDecision(p, d)))
        && (Decide(c.bundle, Load(old(policy), c.seed).value, None).Change? <==> ending == Returned(DryRun))
      ensures !c.dryRun && c.allowDemo ==> View() == old(View()) && ending == Raised(Ordinary)
    {
      DryRunKeeps(View(), c);
      ending := Perform(c);
    }
  }

  /** A dry run adds at most its record, which says that it was one; a change decided on is only reported. */
  lemma DryRunKeeps(f: Files, c: Cycle)
    ensures var (g, ending) := (FilesAfter(f, c), EndingOf(f, c));
            && (c.dryRun ==>
                  && g.policy == f.policy && g.overrides == f.overrides && g.snapshot == f.snapshot
                  && ending != Returned(Applied) && ending != Returned(RolledBack))
            && (c.dryRun && ending.Returned? ==>
                  && |g.history| == |f.history| + 1 && g.history[..|f.history|] == f.history
                  && Load(f.policy, c.seed).Some?
                  && (var p := Load(f.policy, c.seed).value; var d := Decide(c.bundle, p, None);
                      g.history[|f.history|] == Record(d, ending.outcome, true, p, ApplyDecision(p, d)))
                  && (Decide(c.bundle, Load(f.policy, c.seed).value, None).Change? <==> ending == Returned(DryRun)))
            && (!c.dryRun && c.allowDemo ==> g == f && ending == Raised(Ordinary))
  {
  }
}
