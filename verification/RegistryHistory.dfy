/** What each stored series of the registry says about the run of updates and registrations behind it. */
module RegistryHistory {
  import opened FirstDistinct
  import opened Options
  import opened Samples
  import opened Series
  import opened MetricState

  /** The event is an update of that metric. */
  ghost predicate Concerns(w: World, e: RegistryEvent, name: string) { e.Updated? && w.Resolve(e.u.name) == name }

  ghost function Goes(rules: LabelRules, w: World, u: Update): (Gate, Option<Labels>) {
    Target(rules, w.st.gate, w.Resolve(u.name), u.labels, Auto(u.op))
  }

  /** The event is an update that goes to that series. */
  ghost predicate Routes(rules: LabelRules, w: World, e: RegistryEvent, id: SeriesId) {
    Concerns(w, e, id.0) && e.u.op != InfoOp && Goes(rules, w, e.u).1 == Some(id.1)
  }

  /** The updates of a run that go to that series. */
  ghost function Routed(rules: LabelRules, start: World, events: seq<RegistryEvent>, id: SeriesId): seq<Update> {
    if events == [] then []
    else
      var earlier, e := events[..|events| - 1], events[|events| - 1];
      Routed(rules, start, earlier, id) + if Routes(rules, Run(rules, start, earlier), e, id) then [e.u] else []
  }

  ghost function CellsAfter(def: MetricDef, us: seq<Update>): Cells {
    if us == [] then NO_CELLS
    else
      var u := us[|us| - 1];
      Write(CellsAfter(def, us[..|us| - 1]), def, u.op, u.value, u.exemplar)
  }

  lemma CellsAfterNext(def: MetricDef, us: seq<Update>, u: Update)
    ensures CellsAfter(def, us + [u]) == Write(CellsAfter(def, us), def, u.op, u.value, u.exemplar)
  {
    assert (us + [u])[..|us|] == us;
  }

  /** What a gate step does to the definitions: all stay, and the name is there afterwards. */
  lemma TargetDefines(rules: LabelRules, gate: Gate, name: string, labels: Labels, auto: MetricDef, n: string)
    ensures var defs := Target(rules, gate, name, labels, auto).0.defs;
            && name in defs
            && (n in gate.defs ==> n in defs && defs[n] == gate.defs[n])
            && (n !in gate.defs ==> if n == name then defs[n] == auto else n !in defs)
  {
  }

  /** A definition, once there, is never replaced. */
  lemma DefinitionStays(rules: LabelRules, w: World, e: RegistryEvent, name: string)
    requires name in w.st.gate.defs
    ensures var defs := Step(rules, w, e).st.gate.defs; name in defs && defs[name] == w.st.gate.defs[name]
  {
    if e.Updated? && e.u.op != InfoOp {
      TargetDefines(rules, w.st.gate, w.Resolve(e.u.name), e.u.labels, Auto(e.u.op), name);
    }
  }

  lemma StoredAt(d: Data, gate: Gate, u: Update, name: string, key: Option<Labels>, id: SeriesId)
    requires name in gate.defs
    ensures var d' := Stored(d, gate, u, name, key);
            if id.0 == name && key == Some(id.1) then
              id in d' && d'[id] == Write(At(d, id), gate.defs[name], u.op, u.value, u.exemplar)
            else (id in d' <==> id in d) && At(d', id) == At(d, id)
  {
  }

  /** One event writes the series it is routed to, and no other. */
  lemma StepWrites(rules: LabelRules, w: World, e: RegistryEvent, id: SeriesId)
    ensures var st, st' := w.st, Step(rules, w, e).st;
            if Routes(rules, w, e, id) then
              id.0 in st'.gate.defs && id in st'.data
              && st'.data[id] == Write(At(st.data, id), st'.gate.defs[id.0], e.u.op, e.u.value, e.u.exemplar)
            else (id in st'.data <==> id in st.data) && At(st'.data, id) == At(st.data, id)
  {
    if e.Updated? && e.u.op != InfoOp {
      var name := w.Resolve(e.u.name);
      var (gate, key) := Goes(rules, w, e.u);
      TargetDefines(rules, w.st.gate, name, e.u.labels, Auto(e.u.op), name);
      StoredAt(w.st.data, gate, e.u, name, key, id);
    }
  }

  /** The stored cells are what the routed updates `r` wrote. */
  ghost predicate Accounts(st: RegistryState, id: SeriesId, r: seq<Update>) {
    && (id in st.data <==> r != [])
    && (r != [] ==> id.0 in st.gate.defs && st.data[id] == CellsAfter(st.gate.defs[id.0], r))
  }

  lemma AccountsNext(rules: LabelRules, w: World, e: RegistryEvent, id: SeriesId, r: seq<Update>)
    requires Accounts(w.st, id, r)
    ensures Accounts(Step(rules, w, e).st, id, if Routes(rules, w, e, id) then r + [e.u] else r)
  {
    StepWrites(rules, w, e, id);
    if r != [] { DefinitionStays(rules, w, e, id.0); }
    assert At(w.st.data, id) == if r == [] then NO_CELLS else CellsAfter(w.st.gate.defs[id.0], r);
    if Routes(rules, w, e, id) { CellsAfterNext(Step(rules, w, e).st.gate.defs[id.0], r, e.u); }
  }

  /** A series exists iff some update was routed to it, and holds what its updates wrote in order. */
  lemma {:induction false} SeriesIsRouted(rules: LabelRules, start: World, events: seq<RegistryEvent>, id: SeriesId)
    requires id !in start.st.data
    ensures Accounts(Run(rules, start, events).st, id, Routed(rules, start, events, id))
  {
    if events != [] {
      var earlier, e := events[..|events| - 1], events[|events| - 1];
      SeriesIsRouted(rules, start, earlier, id);
      var w, r := Run(rules, start, earlier), Routed(rules, start, earlier, id);
      AccountsNext(rules, w, e, id, r);
      assert r + [] == r;
    }
  }

  // ---- Which series a metric gets ----

  /** The label sets that updates of a metric are filtered down to. */
  ghost function KeysOf(rules: LabelRules, start: World, events: seq<RegistryEvent>, name: string): seq<Labels> {
    if events == [] then []
    else
      var earlier, e := events[..|events| - 1], events[|events| - 1];
      KeysOf(rules, start, earlier, name) + KeyOf(rules, Run(rules, start, earlier), e, name)
  }

  ghost function KeyOf(rules: LabelRules, w: World, e: RegistryEvent, name: string): seq<Labels> {
    if Concerns(w, e, name) && e.u.op != InfoOp then [Filtered(rules, w, e.u, name)] else []
  }

  ghost function Filtered(rules: LabelRules, w: World, u: Update, name: string): Labels {
    Kept(rules, u.labels, Permit(rules, w.st.gate.defs, name))
  }

  /** Nothing of the metric has been seen or stored. */
  ghost predicate Unused(st: RegistryState, name: string) {
    Seen(st.gate.policy, name) == {} && forall k: Labels :: (name, k) !in st.data
  }

  /** The gate has seen, and the store has, exactly the first `maxSeries` distinct label sets. */
  ghost predicate HoldsFirsts(rules: LabelRules, st: RegistryState, name: string, keys: seq<Labels>) {
    && Seen(st.gate.policy, name) == Firsts(keys, rules.maxSeries)
    && (forall k: Labels :: (name, k) in st.data <==> k in Firsts(keys, rules.maxSeries))
    && (name !in st.gate.defs ==> keys == [])
  }

  lemma SeenAfter(rules: LabelRules, gate: Gate, n: string, labels: Labels, auto: MetricDef, name: string)
    ensures var seen, safe := Seen(gate.policy, name), Kept(rules, labels, Permit(rules, gate.defs, n));
            var (gate', key) := Target(rules, gate, n, labels, auto);
            && Seen(gate'.policy, name) ==
               (if n == name && Admits(rules, gate.policy, name, safe) then seen + {safe} else seen)
            && (Admits(rules, gate.policy, n, safe) ==> key == Some(safe))
            && (!Admits(rules, gate.policy, n, safe) && n in gate.defs ==> key == None)
  {
  }

  lemma NewKey(rules: LabelRules, w: World, e: RegistryEvent, name: string, keys: seq<Labels>)
    requires HoldsFirsts(rules, w.st, name, keys) && rules.maxSeries >= 1 && Concerns(w, e, name) && e.u.op != InfoOp
    ensures var safe, st' := Filtered(rules, w, e.u, name), Step(rules, w, e).st;
            && Seen(st'.gate.policy, name) == Firsts(keys + [safe], rules.maxSeries)
            && forall k: Labels ::
                 Routes(rules, w, e, (name, k)) <==> (k == safe && k in Firsts(keys + [safe], rules.maxSeries))
  {
    var safe := Filtered(rules, w, e.u, name);
    SeenAfter(rules, w.st.gate, name, e.u.labels, Auto(e.u.op), name);
    FirstsSize(keys, rules.maxSeries);
    FirstsNext(keys, safe, rules.maxSeries);
    if |Members(keys)| < rules.maxSeries && safe in Firsts(keys, rules.maxSeries) {
      assert Firsts(keys, rules.maxSeries) + {safe} == Firsts(keys, rules.maxSeries);
    }
  }

  lemma OldKeys(rules: LabelRules, w: World, e: RegistryEvent, name: string)
    requires !(Concerns(w, e, name) && e.u.op != InfoOp)
    ensures Seen(Step(rules, w, e).st.gate.policy, name) == Seen(w.st.gate.policy, name)
  {
    if e.Updated? && e.u.op != InfoOp {
      SeenAfter(rules, w.st.gate, w.Resolve(e.u.name), e.u.labels, Auto(e.u.op), name);
    }
  }

  lemma StoredSeries(rules: LabelRules, w: World, e: RegistryEvent, name: string)
    ensures forall k: Labels ::
              (name, k) in Step(rules, w, e).st.data <==> ((name, k) in w.st.data || Routes(rules, w, e, (name, k)))
  {
    forall k: Labels
      ensures (name, k) in Step(rules, w, e).st.data <==> (name, k) in w.st.data || Routes(rules, w, e, (name, k))
    {
      StepWrites(rules, w, e, (name, k));
    }
  }

  lemma DefinitionsAfter(rules: LabelRules, w: World, e: RegistryEvent, name: string)
    ensures Concerns(w, e, name) ==> name in Step(rules, w, e).st.gate.defs
    ensures name in w.st.gate.defs ==> name in Step(rules, w, e).st.gate.defs
  {
    if e.Updated? && e.u.op != InfoOp {
      TargetDefines(rules, w.st.gate, w.Resolve(e.u.name), e.u.labels, Auto(e.u.op), name);
    }
  }

  lemma HoldsFirstsNext(rules: LabelRules, w: World, e: RegistryEvent, name: string, keys: seq<Labels>)
    requires HoldsFirsts(rules, w.st, name, keys) && rules.maxSeries >= 1
    ensures HoldsFirsts(rules, Step(rules, w, e).st, name, keys + KeyOf(rules, w, e, name))
  {
    StoredSeries(rules, w, e, name);
    DefinitionsAfter(rules, w, e, name);
    if Concerns(w, e, name) && e.u.op != InfoOp {
      NewKey(rules, w, e, name, keys);
      FirstsNext(keys, Filtered(rules, w, e.u, name), rules.maxSeries);
    } else {
      OldKeys(rules, w, e, name);
      assert keys + [] == keys;
    }
  }

  /**
   Over every run of updates and registrations, the series a metric has are those of the first
   `maxSeries` distinct label sets its updates are filtered down to.
   */
  lemma {:induction false} SeriesAreFirsts(rules: LabelRules, start: World, events: seq<RegistryEvent>, name: string)
    requires rules.maxSeries >= 1 && Unused(start.st, name)
    ensures HoldsFirsts(rules, Run(rules, start, events).st, name, KeysOf(rules, start, events, name))
  {
    if events != [] {
      var earlier, e := events[..|events| - 1], events[|events| - 1];
      SeriesAreFirsts(rules, start, earlier, name);
      HoldsFirstsNext(rules, Run(rules, start, earlier), e, name, KeysOf(rules, start, earlier, name));
    }
  }

  /** So a label set is stored iff it first came when fewer than `maxSeries` others had. */
  lemma StoredIffEarly(rules: LabelRules, start: World, events: seq<RegistryEvent>, name: string, k: Labels)
    requires rules.maxSeries >= 1 && Unused(start.st, name)
    ensures (name, k) in Run(rules, start, events).st.data
        <==> Enters(KeysOf(rules, start, events, name), k, rules.maxSeries)
  {
    SeriesAreFirsts(rules, start, events, name);
    FirstsAre(KeysOf(rules, start, events, name), k, rules.maxSeries);
  }

  // ---- Metrics nobody registered ----

  /** `i` is the first event of the run to concern the metric. */
  ghost predicate FirstConcerns(rules: LabelRules, start: World, events: seq<RegistryEvent>, name: string, i: nat) {
    && i < |events| && Concerns(Run(rules, start, events[..i]), events[i], name)
    && forall j :: 0 <= j < i ==> !Concerns(Run(rules, start, events[..j]), events[j], name)
  }

  ghost predicate NeverRegistered(events: seq<RegistryEvent>, name: string) {
    forall j :: 0 <= j < |events| && events[j].Registered? ==> events[j].name != name
  }

  /** Registered by its first update, the metric permits no labels: it has that series and the unlabelled one. */
  ghost predicate KeepsFirstLabels(rules: LabelRules, st: RegistryState, name: string, first: Update) {
    var kept := Kept(rules, first.labels, rules.allowed);
    && name in st.gate.defs && st.gate.defs[name].labelKeys == {}
    && (first.op != InfoOp ==> (name, kept) in st.data)
    && forall k: Labels :: (name, k) in st.data ==> k == map[] || (first.op != InfoOp && k == kept)
  }

  /** A metric that permits no labels: its updates go to the unlabelled series or nowhere. */
  lemma NoLabelsLeft(rules: LabelRules, w: World, e: RegistryEvent, name: string, k: Labels)
    requires name in w.st.gate.defs && w.st.gate.defs[name].labelKeys == {} && Routes(rules, w, e, (name, k))
    ensures k == map[]
  {
    assert Kept(rules, e.u.labels, {}) == map[];
  }

  lemma {:induction false} StaysUnused(rules: LabelRules, start: World, events: seq<RegistryEvent>, name: string)
    requires name !in start.st.gate.defs && Unused(start.st, name) && NeverRegistered(events, name)
    requires forall j :: 0 <= j < |events| ==> !Concerns(Run(rules, start, events[..j]), events[j], name)
    ensures var st := Run(rules, start, events).st; name !in st.gate.defs && Unused(st, name)
  {
    if events != [] {
      var earlier, e := events[..|events| - 1], events[|events| - 1];
      forall j | 0 <= j < |earlier| ensures !Concerns(Run(rules, start, earlier[..j]), earlier[j], name) {
        assert earlier[..j] == events[..j];
      }
      StaysUnused(rules, start, earlier, name);
      UnusedNext(rules, Run(rules, start, earlier), e, name);
    }
  }

  lemma UnusedNext(rules: LabelRules, w: World, e: RegistryEvent, name: string)
    requires name !in w.st.gate.defs && Unused(w.st, name) && !Concerns(w, e, name)
        && (e.Registered? ==> e.name != name)
    ensures var st := Step(rules, w, e).st; name !in st.gate.defs && Unused(st, name)
  {
    StoredSeries(rules, w, e, name);
    OldKeys(rules, w, e, name);
    if e.Updated? && e.u.op != InfoOp {
      TargetDefines(rules, w.st.gate, w.Resolve(e.u.name), e.u.labels, Auto(e.u.op), name);
    }
  }

  lemma AutoTarget(rules: LabelRules, gate: Gate, name: string, labels: Labels, auto: MetricDef)
    requires rules.maxSeries >= 1 && name !in gate.defs && Seen(gate.policy, name) == {}
    ensures var (gate', key) := Target(rules, gate, name, labels, auto);
            var kept := Kept(rules, labels, rules.allowed);
            key == Some(kept) && name in gate'.defs && gate'.defs[name] == auto && Seen(gate'.policy, name) == {kept}
  {
    TargetDefines(rules, gate, name, labels, auto, name);
    SeenAfter(rules, gate, name, labels, auto, name);
  }

  lemma FirstDefines(rules: LabelRules, w: World, e: RegistryEvent, name: string)
    requires name !in w.st.gate.defs && Concerns(w, e, name)
    ensures var defs := Step(rules, w, e).st.gate.defs; name in defs && defs[name].labelKeys == {}
  {
    if e.u.op != InfoOp { TargetDefines(rules, w.st.gate, name, e.u.labels, Auto(e.u.op), name); }
  }

  lemma FirstRoutes(rules: LabelRules, w: World, e: RegistryEvent, name: string)
    requires rules.maxSeries >= 1 && name !in w.st.gate.defs && Unused(w.st, name) && Concerns(w, e, name)
    ensures forall k: Labels ::
              Routes(rules, w, e, (name, k)) <==> e.u.op != InfoOp && k == Kept(rules, e.u.labels, rules.allowed)
  {
    if e.u.op != InfoOp { AutoTarget(rules, w.st.gate, name, e.u.labels, Auto(e.u.op)); }
  }

  lemma FirstUpdate(rules: LabelRules, w: World, e: RegistryEvent, name: string)
    requires rules.maxSeries >= 1 && name !in w.st.gate.defs && Unused(w.st, name) && Concerns(w, e, name)
    ensures KeepsFirstLabels(rules, Step(rules, w, e).st, name, e.u)
  {
    StoredSeries(rules, w, e, name);
    FirstDefines(rules, w, e, name);
    FirstRoutes(rules, w, e, name);
  }

  lemma LaterUpdate(rules: LabelRules, w: World, e: RegistryEvent, name: string, first: Update)
    requires KeepsFirstLabels(rules, w.st, name, first)
    ensures KeepsFirstLabels(rules, Step(rules, w, e).st, name, first)
  {
    StoredSeries(rules, w, e, name);
    DefinitionStays(rules, w, e, name);
    forall k: Labels | Routes(rules, w, e, (name, k)) ensures k == map[] { NoLabelsLeft(rules, w, e, name, k); }
  }

  /** Over any run: of an unregistered metric, only the first update's labels are kept. */
  lemma {:induction false} OnlyFirstLabelsCount(rules: LabelRules, start: World, events: seq<RegistryEvent>,
    name: string, i: nat)
    requires rules.maxSeries >= 1 && name !in start.st.gate.defs && Unused(start.st, name)
    requires NeverRegistered(events, name) && FirstConcerns(rules, start, events, name, i)
    ensures KeepsFirstLabels(rules, Run(rules, start, events).st, name, events[i].u)
  {
    var earlier, e := events[..|events| - 1], events[|events| - 1];
    assert forall j :: 0 <= j < |events| ==> earlier[..j] == events[..j];
    if i == |events| - 1 {
      StaysUnused(rules, start, earlier, name);
      FirstUpdate(rules, Run(rules, start, earlier), e, name);
    } else {
      OnlyFirstLabelsCount(rules, start, earlier, name, i);
      LaterUpdate(rules, Run(rules, start, earlier), e, name, events[i].u);
    }
  }

  /** ... and every later update goes to the unlabelled series or nowhere. */
  lemma LaterGoUnlabelled(rules: LabelRules, start: World, events: seq<RegistryEvent>, name: string, i: nat,
    e: RegistryEvent, k: Labels)
    requires rules.maxSeries >= 1 && name !in start.st.gate.defs && Unused(start.st, name)
    requires NeverRegistered(events, name) && FirstConcerns(rules, start, events, name, i)
    ensures Routes(rules, Run(rules, start, events), e, (name, k)) ==> k == map[]
  {
    OnlyFirstLabelsCount(rules, start, events, name, i);
    var w := Run(rules, start, events);
    if Routes(rules, w, e, (name, k)) { NoLabelsLeft(rules, w, e, name, k); }
  }

  const NOWHERE := World(map[], EMPTY)
  const DEFAULT_RULES := LabelRules(ALLOWED_LABELS, FORBIDDEN_LABELS, 2048)

  function Call(backend: string, value: real): RegistryEvent {
    Updated(Update("calls_total", IncOp, value, map["backend" := backend], None))
  }

  lemma UnlabelledIsAdmitted(rules: LabelRules, w: World, e: RegistryEvent, name: string)
    requires name in w.st.gate.defs && w.st.gate.defs[name].labelKeys == {}
    requires |Seen(w.st.gate.policy, name)| < rules.maxSeries && Concerns(w, e, name) && e.u.op != InfoOp
    ensures Routes(rules, w, e, (name, map[]))
  {
    assert Kept(rules, e.u.labels, {}) == map[];
    SeenAfter(rules, w.st.gate, name, e.u.labels, Auto(e.u.op), name);
  }

  /** Two increments of an unregistered counter under different labels: the second loses its label. */
  lemma SecondLabelsLost()
    ensures var w := Step(DEFAULT_RULES, Step(DEFAULT_RULES, NOWHERE, Call("a", 1.0)), Call("b", 2.0));
            && ("calls_total", map["backend" := "a"]) in w.st.data
            && ("calls_total", map["backend" := "b"]) !in w.st.data
            && ("calls_total", map[]) in w.st.data
  {
    var e, e2, name := Call("a", 1.0), Call("b", 2.0), "calls_total";
    var w := Step(DEFAULT_RULES, NOWHERE, e);
    FirstUpdate(DEFAULT_RULES, NOWHERE, e, name);
    AutoTarget(DEFAULT_RULES, NOWHERE.st.gate, name, e.u.labels, Auto(IncOp));
    LaterUpdate(DEFAULT_RULES, w, e2, name, e.u);
    UnlabelledIsAdmitted(DEFAULT_RULES, w, e2, name);
    StepWrites(DEFAULT_RULES, w, e2, (name, map[]));
    KeptBackend("a");
  }

  lemma KeptBackend(backend: string)
    ensures Kept(DEFAULT_RULES, map["backend" := backend], DEFAULT_RULES.allowed) == map["backend" := backend]
    ensures map["backend" := "a"] != map["backend" := "b"] && map["backend" := "b"] != map[]
  {
    assert map["backend" := "a"]["backend"] == "a" && map["backend" := "b"]["backend"] == "b";
    assert "backend" in map["backend" := "b"];
  }

  // ---- What a series holds ----

  ghost function Increments(us: seq<Update>): seq<real> {
    if us == [] then []
    else Increments(us[..|us| - 1]) + if us[|us| - 1].op == IncOp then [us[|us| - 1].value] else []
  }

  ghost function Observations(us: seq<Update>): seq<Observation> {
    if us == [] then []
    else
      var u := us[|us| - 1];
      Observations(us[..|us| - 1]) + if u.op == ObserveOp then [Observation(u.value, u.exemplar)] else []
  }

  lemma SumNext(s: seq<real>, v: real)
    ensures Sum(s + [v]) == Sum(s) + v
  {
    assert (s + [v])[..|s|] == s;
  }

  lemma HistogramNext(buckets: seq<real>, obs: seq<Observation>, o: Observation)
    ensures HistogramAfter(buckets, obs + [o]) == ObserveHistogram(HistogramAfter(buckets, obs), o)
  {
    assert (obs + [o])[..|obs|] == obs;
  }

  lemma SummaryNext(obs: seq<Observation>, o: Observation)
    ensures SummaryAfter(MAX_SAMPLES, Values(obs + [o]))
        == ObserveSummary(SummaryAfter(MAX_SAMPLES, Values(obs)), o.value)
  {
    assert Values(obs + [o]) == Values(obs) + [o.value];
    assert (Values(obs) + [o.value])[..|obs|] == Values(obs);
  }

  /** Increments of a metric that is not a gauge add up in its counter; nothing else touches it. */
  lemma {:induction false} CounterOfCells(def: MetricDef, us: seq<Update>)
    requires def.metricType != Gauge
    ensures CellsAfter(def, us).counter == if Increments(us) == [] then None else Some(Sum(Increments(us)))
  {
    if us != [] {
      var incs, u := Increments(us[..|us| - 1]), us[|us| - 1];
      CounterOfCells(def, us[..|us| - 1]);
      SumNext(incs, u.value);
      assert incs + [] == incs && Sum([]) == 0.0;
    }
  }

  lemma {:induction false} GaugeGrows(def: MetricDef, before: seq<Update>, since: seq<Update>, level: real)
    requires def.metricType == Gauge && CellsAfter(def, before).gauge == Some(level)
    requires forall i :: 0 <= i < |since| ==> since[i].op != SetOp
    ensures CellsAfter(def, before + since).gauge == Some(level + Sum(Increments(since)))
  {
    if since == [] {
      assert before + since == before;
    } else {
      var rest, last := since[..|since| - 1], since[|since| - 1];
      GaugeGrows(def, before, rest, level);
      assert before + since == before + rest + [last];
      CellsAfterNext(def, before + rest, last);
      GaugeStep(def, CellsAfter(def, before + rest), last);
      IncrementsSum(since);
    }
  }

  ghost function Increment(u: Update): real { if u.op == IncOp then u.value else 0.0 }

  lemma GaugeStep(def: MetricDef, c: Cells, u: Update)
    requires def.metricType == Gauge && c.gauge.Some? && u.op != SetOp
    ensures Write(c, def, u.op, u.value, u.exemplar).gauge == Some(c.gauge.value + Increment(u))
  {
  }

  lemma IncrementsSum(us: seq<Update>)
    requires us != []
    ensures Sum(Increments(us)) == Sum(Increments(us[..|us| - 1])) + Increment(us[|us| - 1])
  {
    var rest, last := Increments(us[..|us| - 1]), us[|us| - 1];
    if last.op == IncOp { SumNext(rest, last.value); } else { assert rest + [] == rest; }
  }

  /** A gauge is what it was last set to, plus the increments since. */
  lemma GaugeOfCells(def: MetricDef, us: seq<Update>, u: Update, since: seq<Update>)
    requires def.metricType == Gauge && u.op == SetOp && forall i :: 0 <= i < |since| ==> since[i].op != SetOp
    ensures CellsAfter(def, us + [u] + since).gauge == Some(u.value + Sum(Increments(since)))
  {
    CellsAfterNext(def, us, u);
    GaugeGrows(def, us + [u], since, u.value);
  }

  /** A metric that is not a summary collects its observations in a histogram. */
  lemma {:induction false} HistogramOfCells(def: MetricDef, us: seq<Update>)
    requires def.metricType != Summary
    ensures CellsAfter(def, us).histogram
      == if Observations(us) == [] then None else Some(HistogramAfter(BucketsOf(def), Observations(us)))
  {
    if us != [] {
      var obs, u := Observations(us[..|us| - 1]), us[|us| - 1];
      HistogramOfCells(def, us[..|us| - 1]);
      if u.op == ObserveOp {
        HistogramNext(BucketsOf(def), obs, Observation(u.value, u.exemplar));
      } else {
        assert obs + [] == obs;
      }
    }
  }

  /** A summary keeps the latest of its observations. */
  lemma {:induction false} SummaryOfCells(def: MetricDef, us: seq<Update>)
    requires def.metricType == Summary
    ensures CellsAfter(def, us).summary
      == if Observations(us) == [] then None else Some(SummaryAfter(MAX_SAMPLES, Values(Observations(us))))
  {
    if us != [] {
      var obs, u := Observations(us[..|us| - 1]), us[|us| - 1];
      SummaryOfCells(def, us[..|us| - 1]);
      if u.op == ObserveOp {
        SummaryNext(obs, Observation(u.value, u.exemplar));
        assert Values([]) == [];
      } else {
        assert obs + [] == obs;
      }
    }
  }

  /** A gauge that was never set is the sum of its increments, if it has any. */
  lemma {:induction false} GaugeNeverSet(def: MetricDef, us: seq<Update>)
    requires def.metricType == Gauge && forall i :: 0 <= i < |us| ==> us[i].op != SetOp
    ensures CellsAfter(def, us).gauge == if Increments(us) == [] then None else Some(Sum(Increments(us)))
  {
    if us != [] {
      var incs, u := Increments(us[..|us| - 1]), us[|us| - 1];
      GaugeNeverSet(def, us[..|us| - 1]);
      SumNext(incs, u.value);
      assert incs + [] == incs && Sum([]) == 0.0;
    }
  }

  /** Over any run: the counter of a series is the sum of the increments routed to it. */
  lemma CounterExact(rules: LabelRules, start: World, events: seq<RegistryEvent>, id: SeriesId)
    requires id !in start.st.data
    ensures var st, incs := Run(rules, start, events).st, Increments(Routed(rules, start, events, id));
            id in st.data ==>
              && id.0 in st.gate.defs
              && (st.gate.defs[id.0].metricType != Gauge ==>
                    st.data[id].counter == if incs == [] then None else Some(Sum(incs)))
  {
    SeriesIsRouted(rules, start, events, id);
    var st, r := Run(rules, start, events).st, Routed(rules, start, events, id);
    if id in st.data && st.gate.defs[id.0].metricType != Gauge { CounterOfCells(st.gate.defs[id.0], r); }
  }

  /** `i` is the last set among the updates, or there is none and `i` is -1. */
  ghost predicate LastSet(us: seq<Update>, i: int) {
    -1 <= i < |us| && (i >= 0 ==> us[i].op == SetOp) && forall j :: i < j < |us| ==> us[j].op != SetOp
  }

  /** What was last set, if anything, plus the increments since. */
  ghost function Level(us: seq<Update>, i: int): Option<real>
    requires -1 <= i < |us|
  {
    var since := Increments(us[i + 1..]);
    if i >= 0 then Some(us[i].value + Sum(since)) else if since == [] then None else Some(Sum(since))
  }

  lemma SplitAt<T>(s: seq<T>, i: nat)
    requires i < |s|
    ensures s == s[..i] + [s[i]] + s[i + 1..]
  {
  }

  lemma GaugeIsLevel(def: MetricDef, us: seq<Update>, i: int)
    requires def.metricType == Gauge && LastSet(us, i)
    ensures CellsAfter(def, us).gauge == Level(us, i)
  {
    if i >= 0 {
      SplitAt(us, i);
      GaugeOfCells(def, us[..i], us[i], us[i + 1..]);
    } else {
      assert us[0..] == us;
      GaugeNeverSet(def, us);
    }
  }

  /** Over any run: a gauge is what was last set on its series, if anything, plus the increments routed to it since. */
  lemma GaugeExact(rules: LabelRules, start: World, events: seq<RegistryEvent>, id: SeriesId, i: int)
    requires id !in start.st.data && LastSet(Routed(rules, start, events, id), i)
    ensures var st, r := Run(rules, start, events).st, Routed(rules, start, events, id);
            id in st.data ==>
              && id.0 in st.gate.defs
              && (st.gate.defs[id.0].metricType == Gauge ==> st.data[id].gauge == Level(r, i))
  {
    SeriesIsRouted(rules, start, events, id);
    var st, r := Run(rules, start, events).st, Routed(rules, start, events, id);
    if id in st.data && st.gate.defs[id.0].metricType == Gauge { GaugeIsLevel(st.gate.defs[id.0], r, i); }
  }

  /** The histogram holds exactly these observations. */
  ghost predicate Counts(h: HistogramState, buckets: seq<real>, obs: seq<real>) {
    && h.buckets == buckets && |h.counts| == |buckets|
    && (forall i :: 0 <= i < |buckets| ==> h.counts[i] == CountLe(obs, buckets[i]))
    && h.sum == Sum(obs) && h.count == |obs|
  }

  /** Over any run: each bucket of a histogram counts the observations routed to it that are within its bound. */
  lemma HistogramExact(rules: LabelRules, start: World, events: seq<RegistryEvent>, id: SeriesId)
    requires id !in start.st.data
    ensures var st, r := Run(rules, start, events).st, Routed(rules, start, events, id);
            id in st.data && st.data[id].histogram.Some? ==>
              && id.0 in st.gate.defs
              && (st.gate.defs[id.0].metricType != Summary ==>
                    var own := st.gate.defs[id.0].buckets;
                    Counts(st.data[id].histogram.value, if own == [] then DEFAULT_BUCKETS else own,
                           Values(Observations(r))))
  {
    SeriesIsRouted(rules, start, events, id);
    var st, r := Run(rules, start, events).st, Routed(rules, start, events, id);
    if id in st.data && st.gate.defs[id.0].metricType != Summary {
      HistogramOfCells(st.gate.defs[id.0], r);
      HistogramCounts(BucketsOf(st.gate.defs[id.0]), Observations(r));
    }
  }

  /** Over any run: a summary holds a suffix of the observations routed to it, at most 512, with exact sum and count. */
  lemma SummaryExact(rules: LabelRules, start: World, events: seq<RegistryEvent>, id: SeriesId)
    requires id !in start.st.data
    ensures var st, r := Run(rules, start, events).st, Routed(rules, start, events, id);
            id in st.data && st.data[id].summary.Some? ==>
              && id.0 in st.gate.defs
              && (st.gate.defs[id.0].metricType == Summary ==>
                    Summarises(st.data[id].summary.value, Values(Observations(r))))
  {
    SeriesIsRouted(rules, start, events, id);
    var st, r := Run(rules, start, events).st, Routed(rules, start, events, id);
    if id in st.data && st.gate.defs[id.0].metricType == Summary {
      SummaryOfCells(st.gate.defs[id.0], r);
      SummaryKeepsSuffix(MAX_SAMPLES, Values(Observations(r)));
      var drops := SummarySize(MAX_SAMPLES, Values(Observations(r)));
    }
  }

  ghost predicate Summarises(s: SummaryState, obs: seq<real>) {
    && |s.values| <= MAX_SAMPLES && |s.values| <= |obs| && s.values == obs[|obs| - |s.values|..]
    && s.sum == Sum(obs) && s.count == |obs|
  }
}
