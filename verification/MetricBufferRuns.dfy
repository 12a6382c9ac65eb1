/** The buffer's runs on the metric registry. */
module MetricBufferRuns {
  import opened Options
  import opened MetricState
  import opened Replay
  import Buffer = BufferRuns

  // ---- The registry apart from the drop counter ----

  ghost function WithoutPolicy(p: PolicyState): PolicyState {
    p.(seriesKeys := p.seriesKeys - {DROPS_METRIC})
  }

  ghost function WithoutGate(g: Gate): Gate {
    Gate(g.defs - {DROPS_METRIC}, WithoutPolicy(g.policy))
  }

  ghost function WithoutData(d: Data): Data {
    map id | id in d && id.0 != DROPS_METRIC :: d[id]
  }

  ghost function Without(st: RegistryState): RegistryState {
    RegistryState(WithoutGate(st.gate), WithoutData(st.data), st.infos - {DROPS_METRIC}, 0)
  }

  ghost predicate Apart(env: Env, u: Update) { env.Resolve(u.name) != DROPS_METRIC }

  /** The drop counter is its own metric, with at most its unlabelled series. */
  ghost predicate Quiet(env: Env, st: RegistryState) {
    && DROPS_METRIC !in env.aliases && env.rules.maxSeries >= 1
    && Seen(st.gate.policy, DROPS_METRIC) <= {map[]}
  }

  lemma PutApart<V>(m: map<string, V>, name: string, v: V)
    requires name != DROPS_METRIC
    ensures m[name := v] - {DROPS_METRIC} == (m - {DROPS_METRIC})[name := v]
  {
  }

  lemma AdmitApart(rules: LabelRules, p: PolicyState, name: string, key: Labels)
    requires name != DROPS_METRIC
    ensures Admits(rules, WithoutPolicy(p), name, key) == Admits(rules, p, name, key)
    ensures Admit(rules, WithoutPolicy(p), name, key) == WithoutPolicy(Admit(rules, p, name, key))
  {
    var q := WithoutPolicy(p);
    assert Seen(q, name) == Seen(p, name);
    var s := if Admits(rules, p, name, key) then Seen(p, name) + {key} else Seen(p, name);
    PutApart(p.seriesKeys, name, s);
  }

  lemma SettleApart(defs: map<string, MetricDef>, name: string, auto: MetricDef, p: PolicyState, safe: Labels,
    admitted: bool)
    requires name != DROPS_METRIC
    ensures var (g, key) := Settle(defs, name, auto, p, safe, admitted);
            Settle(defs - {DROPS_METRIC}, name, auto, WithoutPolicy(p), safe, admitted) == (WithoutGate(g), key)
  {
    PutApart(defs, name, auto);
  }

  lemma NormalizedApart(p: PolicyState, labels: Labels, safe: Labels)
    ensures Normalized(WithoutPolicy(p), labels, safe) == WithoutPolicy(Normalized(p, labels, safe))
  {
  }

  /** The gate treats every other metric alike whether or not the drop counter is there. */
  lemma TargetApart(rules: LabelRules, g: Gate, name: string, labels: Labels, auto: MetricDef)
    requires name != DROPS_METRIC
    ensures var (g', key) := Target(rules, g, name, labels, auto);
            Target(rules, WithoutGate(g), name, labels, auto) == (WithoutGate(g'), key)
  {
    assert Permit(rules, g.defs - {DROPS_METRIC}, name) == Permit(rules, g.defs, name);
    var safe := Kept(rules, labels, Permit(rules, g.defs, name));
    var p := Normalized(g.policy, labels, safe);
    NormalizedApart(g.policy, labels, safe);
    AdmitApart(rules, p, name, safe);
    SettleApart(g.defs, name, auto, Admit(rules, p, name, safe), safe, Admits(rules, p, name, safe));
  }

  lemma StoredApart(d: Data, g: Gate, u: Update, name: string, key: Option<Labels>)
    requires name != DROPS_METRIC
    ensures WithoutData(Stored(d, g, u, name, key)) == Stored(WithoutData(d), WithoutGate(g), u, name, key)
  {
    if key.Some? && name in g.defs {
      var id: SeriesId := (name, key.value);
      assert At(WithoutData(d), id) == At(d, id);
      var c := Write(At(d, id), g.defs[name], u.op, u.value, u.exemplar);
      assert WithoutData(d[id := c]) == WithoutData(d)[id := c];
    }
  }

  lemma InfoGateApart(rules: LabelRules, g: Gate, name: string, labels: Labels)
    requires name != DROPS_METRIC
    ensures InfoGate(rules, WithoutGate(g), name, labels) == WithoutGate(InfoGate(rules, g, name, labels))
  {
    NormalizedApart(g.policy, labels, Kept(rules, labels, rules.allowed));
    PutApart(g.defs, name, Auto(InfoOp));
  }

  /** An update of another metric does the same whether or not the drop counter is there. */
  lemma ApplyApart(env: Env, st: RegistryState, u: Update)
    requires Apart(env, u)
    ensures Without(Apply(env, st, u)) == Apply(env, Without(st), u)
  {
    if u.op == InfoOp {
      var name := env.Resolve(u.name);
      InfoGateApart(env.rules, st.gate, name, u.labels);
      PutApart(st.infos, name, Kept(env.rules, u.labels, env.rules.allowed));
    } else {
      var name := env.Resolve(u.name);
      TargetApart(env.rules, st.gate, name, u.labels, Auto(u.op));
      var (gate, key) := Target(env.rules, st.gate, name, u.labels, Auto(u.op));
      StoredApart(st.data, gate, u, name, key);
    }
  }

  // ---- Drops ----

  lemma DropAdmitted(rules: LabelRules, p: PolicyState)
    requires rules.maxSeries >= 1 && Seen(p, DROPS_METRIC) <= {map[]}
    ensures Admits(rules, p, DROPS_METRIC, map[])
    ensures WithoutPolicy(Admit(rules, p, DROPS_METRIC, map[])) == WithoutPolicy(p)
    ensures Seen(Admit(rules, p, DROPS_METRIC, map[]), DROPS_METRIC) == {map[]}
  {
    var seen := Seen(p, DROPS_METRIC);
    if map[] !in seen { assert seen == {}; }
    assert seen + {map[]} == {map[]};
    assert p.seriesKeys[DROPS_METRIC := {map[]}] - {DROPS_METRIC} == p.seriesKeys - {DROPS_METRIC};
  }

  lemma DropTarget(rules: LabelRules, g: Gate)
    requires rules.maxSeries >= 1 && Seen(g.policy, DROPS_METRIC) <= {map[]}
    ensures var (g', key) := Target(rules, g, DROPS_METRIC, map[], Auto(IncOp));
            WithoutGate(g') == WithoutGate(g) && key == Some(map[]) && Seen(g'.policy, DROPS_METRIC) == {map[]}
  {
    var safe := Kept(rules, map[], Permit(rules, g.defs, DROPS_METRIC));
    assert safe == map[];
    assert Normalized(g.policy, map[], safe) == g.policy;
    DropAdmitted(rules, g.policy);
    assert g.defs[DROPS_METRIC := Auto(IncOp)] - {DROPS_METRIC} == g.defs - {DROPS_METRIC};
  }

  lemma DropStored(d: Data, g: Gate)
    ensures WithoutData(Stored(d, g, DROP, DROPS_METRIC, Some(map[]))) == WithoutData(d)
  {
  }

  /** Counting a drop changes nothing but the drop counter. */
  lemma DropInvisible(env: Env, st: RegistryState)
    requires Quiet(env, st)
    ensures Without(RecordDrop(env, st)) == Without(st) && Quiet(env, RecordDrop(env, st))
  {
    DropTarget(env.rules, st.gate);
    DropStored(st.data, Target(env.rules, st.gate, DROPS_METRIC, map[], Auto(IncOp)).0);
  }

  lemma TargetQuiet(rules: LabelRules, g: Gate, name: string, labels: Labels, auto: MetricDef)
    requires name != DROPS_METRIC
    ensures Seen(Target(rules, g, name, labels, auto).0.policy, DROPS_METRIC) == Seen(g.policy, DROPS_METRIC)
  {
  }

  lemma ApplyQuiet(env: Env, st: RegistryState, u: Update)
    requires Quiet(env, st) && Apart(env, u)
    ensures Quiet(env, Apply(env, st, u))
  {
    if u.op != InfoOp { TargetQuiet(env.rules, st.gate, env.Resolve(u.name), u.labels, Auto(u.op)); }
  }

  // ---- The buffer in front of the registry ----

  ghost function MetricSystem(env: Env, maxSize: nat, flushBatch: nat): Buffer.System<RegistryState, Update> {
    Buffer.System(Applying(env), (st: RegistryState) => RecordDrop(env, st), maxSize, flushBatch)
  }

  ghost function Same(): (RegistryState, RegistryState) -> bool {
    (a: RegistryState, b: RegistryState) => Without(a) == Without(b)
  }

  ghost function QuietIn(env: Env): RegistryState -> bool { (st: RegistryState) => Quiet(env, st) }

  ghost function ApartIn(env: Env): Update -> bool { (u: Update) => Apart(env, u) }

  lemma RegistryTransparent(env: Env, maxSize: nat, flushBatch: nat)
    ensures Buffer.Transparent(MetricSystem(env, maxSize, flushBatch), Same(), QuietIn(env), ApartIn(env))
  {
    forall a, b, u | Same()(a, b) && ApartIn(env)(u)
      ensures Same()(Applying(env)(a, u), Applying(env)(b, u))
    {
      ApplyApart(env, a, u);
      ApplyApart(env, b, u);
    }
    forall a, u | QuietIn(env)(a) && ApartIn(env)(u)
      ensures QuietIn(env)(Applying(env)(a, u))
    {
      ApplyQuiet(env, a, u);
    }
    forall a | QuietIn(env)(a)
      ensures Same()(RecordDrop(env, a), a) && QuietIn(env)(RecordDrop(env, a))
    {
      DropInvisible(env, a);
    }
  }

  /**
   After any run of pushes and drains and a final flush, the registry is what applying the accepted
   updates directly, in push order, would have made it, apart from the drop counter.
   */
  lemma RegistryBufferedEqualsDirect(env: Env, maxSize: nat, flushBatch: nat, start: RegistryState,
    events: seq<Buffer.Event<Update>>)
    requires Quiet(env, start)
    requires forall u <- Buffer.Accepted(MetricSystem(env, maxSize, flushBatch), start, events) :: Apart(env, u)
    ensures var sys := MetricSystem(env, maxSize, flushBatch);
            Without(Buffer.Flush(sys, Buffer.Run(sys, start, events)).store)
            == Without(ApplyAll(Applying(env), start, Buffer.Accepted(sys, start, events)))
  {
    var sys := MetricSystem(env, maxSize, flushBatch);
    var accepted := Buffer.Accepted(sys, start, events);
    forall i | 0 <= i < |accepted| ensures ApartIn(env)(accepted[i]) { assert Apart(env, accepted[i]); }
    RegistryTransparent(env, maxSize, flushBatch);
    BufferedSame(env, sys, start, events);
  }

  lemma BufferedSame(env: Env, sys: Buffer.System<RegistryState, Update>, start: RegistryState,
    events: seq<Buffer.Event<Update>>)
    requires Buffer.Transparent(sys, Same(), QuietIn(env), ApartIn(env)) && QuietIn(env)(start)
    requires forall i :: 0 <= i < |Buffer.Accepted(sys, start, events)| ==>
        ApartIn(env)(Buffer.Accepted(sys, start, events)[i])
    ensures Without(Buffer.Flush(sys, Buffer.Run(sys, start, events)).store)
      == Without(ApplyAll(sys.apply, start, Buffer.Accepted(sys, start, events)))
  {
    Buffer.BufferedEqualsDirect(sys, Same(), QuietIn(env), ApartIn(env), start, events);
  }
}
