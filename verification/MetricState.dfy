/** The metric registry as a value: what each update does to it, and what every update keeps. */
module MetricState {
  import opened Options
  import opened Series
  import opened Sets

  type Labels = map<string, string>
  type SeriesId = (string, Labels)

  datatype MetricType = Counter | Gauge | Histogram | Summary | NativeHistogram | Info | StateSet

  datatype MetricDef = MetricDef(metricType: MetricType, labelKeys: set<string>, buckets: seq<real>)

  const DEFAULT_BUCKETS := [0.005, 0.01, 0.025, 0.05, 0.1, 0.25, 0.5, 1.0, 2.5, 5.0, 10.0]
  const DROPS_METRIC := "nexus_rmf_buffer_drops_total"

  /** Which labels are let through, and how many series a metric may have. */
  datatype LabelRules = LabelRules(allowed: set<string>, forbidden: set<string>, maxSeries: nat)

  const ALLOWED_LABELS: set<string> := {"agent_type", "planner", "backend", "model", "model_tier", "quantization",
    "worker", "thread_pool", "numa_node", "request_type", "streaming", "reasoning", "status", "outcome", "dim", "pool",
    "tier", "stage", "exporter", "error_class", "function", "event"}
  const FORBIDDEN_LABELS: set<string> := {"workflow_id", "request_id", "trace_id", "span_id", "user_id", "session_id",
    "prompt", "completion", "message", "ip", "email"}

  datatype PolicyState = PolicyState(dropped: nat, rejects: nat, seriesKeys: map<string, set<Labels>>)

  /** What decides whether and where an update is stored. */
  datatype Gate = Gate(defs: map<string, MetricDef>, policy: PolicyState)

  /** Everything stored for one metric and label set, by family. */
  datatype Cells = Cells(counter: Option<real>, gauge: Option<real>, histogram: Option<HistogramState>,
    summary: Option<SummaryState>)

  type Data = map<SeriesId, Cells>

  datatype RegistryState = RegistryState(gate: Gate, data: Data, infos: map<string, Labels>, bufferDrops: nat)

  /** What stays fixed while updates arrive. */
  datatype Env = Env(rules: LabelRules, aliases: map<string, string>) {
    function Resolve(name: string): string { if name in aliases then aliases[name] else name }
  }

  datatype UpdateOp = IncOp | SetOp | ObserveOp | InfoOp

  datatype Update = Update(name: string, op: UpdateOp, value: real, labels: Labels, exemplar: Option<Exemplar>)

  // ---- Labels and the cardinality gate ----

  function Kept(rules: LabelRules, labels: Labels, permit: set<string>): Labels {
    map k | k in labels && k !in rules.forbidden && k in permit :: labels[k]
  }

  /** A registered metric's own label keys replace the global allowlist. */
  function Permit(rules: LabelRules, defs: map<string, MetricDef>, name: string): set<string> {
    if name in defs then defs[name].labelKeys else rules.allowed
  }

  function Normalized(p: PolicyState, labels: Labels, safe: Labels): PolicyState {
    p.(dropped := p.dropped + |labels.Keys - safe.Keys|)
  }

  function Seen(p: PolicyState, name: string): set<Labels> {
    if name in p.seriesKeys then p.seriesKeys[name] else {}
  }

  /** A known label set, or room for one more. */
  predicate Admits(rules: LabelRules, p: PolicyState, name: string, key: Labels) {
    key in Seen(p, name) || |Seen(p, name)| < rules.maxSeries
  }

  function Admit(rules: LabelRules, p: PolicyState, name: string, key: Labels): PolicyState {
    if Admits(rules, p, name, key) then p.(seriesKeys := p.seriesKeys[name := Seen(p, name) + {key}])
    else p.(rejects := p.rejects + 1, seriesKeys := p.seriesKeys[name := Seen(p, name)])
  }

  /**
   The series an update goes to: none when the gate refuses a registered metric; the unlabelled one
   when it refuses an unregistered metric, which is registered as `auto` first.
   */
  function Target(rules: LabelRules, gate: Gate, name: string, labels: Labels, auto: MetricDef)
    : (Gate, Option<Labels>)
  {
    var safe := Kept(rules, labels, Permit(rules, gate.defs, name));
    var p := Normalized(gate.policy, labels, safe);
    var admitted := Admits(rules, p, name, safe);
    var p' := Admit(rules, p, name, safe);
    Settle(gate.defs, name, auto, p', safe, admitted)
  }

  function Settle(defs: map<string, MetricDef>, name: string, auto: MetricDef, p: PolicyState, safe: Labels,
    admitted: bool)
    : (Gate, Option<Labels>)
  {
    if name !in defs then (Gate(defs[name := auto], p), Some(if admitted then safe else map[]))
    else (Gate(defs, p), if admitted then Some(safe) else None)
  }

  // ---- Updates ----

  function Auto(op: UpdateOp): MetricDef {
    match op
    case IncOp => MetricDef(Counter, {}, [])
    case SetOp => MetricDef(Gauge, {}, [])
    case ObserveOp => MetricDef(Histogram, {}, DEFAULT_BUCKETS)
    case InfoOp => MetricDef(Info, {}, [])
  }

  const NO_CELLS := Cells(None, None, None, None)

  function At(d: Data, id: SeriesId): Cells { if id in d then d[id] else NO_CELLS }

  function Plus(x: Option<real>, v: real): Option<real> { Some((if x.Some? then x.value else 0.0) + v) }

  function BucketsOf(def: MetricDef): seq<real> { if def.buckets == [] then DEFAULT_BUCKETS else def.buckets }

  /** An increment goes to a gauge only if the metric is one; an observation to a summary only if it is one. */
  function Write(c: Cells, def: MetricDef, op: UpdateOp, value: real, exemplar: Option<Exemplar>): Cells {
    match op
    case IncOp =>
      if def.metricType == Gauge then c.(gauge := Plus(c.gauge, value)) else c.(counter := Plus(c.counter, value))
    case SetOp => c.(gauge := Some(value))
    case ObserveOp =>
      if def.metricType == Summary then
        c.(summary := Some(ObserveSummary(if c.summary.Some? then c.summary.value else NewSummary(MAX_SAMPLES), value)))
      else
        var h := if c.histogram.Some? then c.histogram.value else NewHistogram(BucketsOf(def));
        c.(histogram := Some(ObserveHistogram(h, Observation(value, exemplar))))
    case InfoOp => c
  }

  function Stored(d: Data, gate: Gate, u: Update, name: string, key: Option<Labels>): Data {
    if key == None || name !in gate.defs then d
    else d[(name, key.value) := Write(At(d, (name, key.value)), gate.defs[name], u.op, u.value, u.exemplar)]
  }

  function InfoGate(rules: LabelRules, gate: Gate, name: string, labels: Labels): Gate {
    Gate(if name in gate.defs then gate.defs else gate.defs[name := Auto(InfoOp)],
         Normalized(gate.policy, labels, Kept(rules, labels, rules.allowed)))
  }

  function SetInfo(env: Env, st: RegistryState, raw: string, labels: Labels): RegistryState {
    var name := env.Resolve(raw);
    st.(gate := InfoGate(env.rules, st.gate, name, labels),
        infos := st.infos[name := Kept(env.rules, labels, env.rules.allowed)])
  }

  function Apply(env: Env, st: RegistryState, u: Update): RegistryState {
    if u.op == InfoOp then SetInfo(env, st, u.name, u.labels)
    else
      var name := env.Resolve(u.name);
      var (gate, key) := Target(env.rules, st.gate, name, u.labels, Auto(u.op));
      st.(gate := gate, data := Stored(st.data, gate, u, name, key))
  }

  function Applying(env: Env): (RegistryState, Update) -> RegistryState {
    (st: RegistryState, u: Update) => Apply(env, st, u)
  }

  /** The update made when the buffer refuses one. */
  const DROP := Update(DROPS_METRIC, IncOp, 1.0, map[], None)

  function RecordDrop(env: Env, st: RegistryState): RegistryState {
    Apply(env, st.(bufferDrops := st.bufferDrops + 1), DROP)
  }

  // ---- Cardinality: no metric ever stores more series than the gate allows ----

  ghost predicate Known(p: PolicyState, id: SeriesId) { id.1 in Seen(p, id.0) }

  /** The gate's sets stay within their bound, and gated names are registered. */
  ghost predicate GateBounded(rules: LabelRules, gate: Gate) {
    forall n :: n in gate.policy.seriesKeys ==> n in gate.defs && |gate.policy.seriesKeys[n]| <= rules.maxSeries
  }

  /** Every stored series passed the gate. */
  ghost predicate AllKnown(p: PolicyState, d: Data) {
    forall id :: id in d ==> Known(p, id)
  }

  ghost predicate Bounded(rules: LabelRules, st: RegistryState) {
    GateBounded(rules, st.gate) && AllKnown(st.gate.policy, st.data)
  }

  lemma AdmitBounded(rules: LabelRules, p: PolicyState, name: string, key: Labels)
    requires forall n :: n in p.seriesKeys ==> |p.seriesKeys[n]| <= rules.maxSeries
    ensures var p' := Admit(rules, p, name, key);
            && p'.seriesKeys.Keys == p.seriesKeys.Keys + {name}
            && (forall n :: n in p'.seriesKeys ==> |p'.seriesKeys[n]| <= rules.maxSeries)
            && (forall id :: Known(p, id) ==> Known(p', id))
            && (Admits(rules, p, name, key) ==> Known(p', (name, key)))
  {
    if key in Seen(p, name) { assert Seen(p, name) + {key} == Seen(p, name); }
  }

  /** The gate keeps its bound, forgets nothing, and knows the series it names. */
  lemma TargetBounded(rules: LabelRules, gate: Gate, name: string, labels: Labels, auto: MetricDef)
    requires GateBounded(rules, gate) && rules.maxSeries >= 1
    ensures var (gate', key) := Target(rules, gate, name, labels, auto);
            && GateBounded(rules, gate') && name in gate'.defs
            && (key.Some? ==> Known(gate'.policy, (name, key.value)))
            && (forall id :: Known(gate.policy, id) ==> Known(gate'.policy, id))
  {
    var safe := Kept(rules, labels, Permit(rules, gate.defs, name));
    var p := Normalized(gate.policy, labels, safe);
    AdmitBounded(rules, p, name, safe);
    assert name !in gate.defs ==> Admits(rules, p, name, safe);
    SettleBounded(rules, gate, name, auto, Admit(rules, p, name, safe), safe, Admits(rules, p, name, safe));
    forall id | Known(gate.policy, id) ensures Known(p, id) {}
  }

  lemma SettleBounded(rules: LabelRules, gate: Gate, name: string, auto: MetricDef, p: PolicyState, safe: Labels,
    admitted: bool)
    requires GateBounded(rules, gate) && p.seriesKeys.Keys == gate.policy.seriesKeys.Keys + {name}
    requires forall n :: n in p.seriesKeys ==> |p.seriesKeys[n]| <= rules.maxSeries
    requires (admitted ==> Known(p, (name, safe))) && (name !in gate.defs ==> admitted)
    ensures var (gate', key) := Settle(gate.defs, name, auto, p, safe, admitted);
            && GateBounded(rules, gate') && name in gate'.defs && gate'.policy == p
            && (key.Some? ==> Known(p, (name, key.value)))
  {
  }

  /** What is stored stays known when the gate forgets nothing, and so does a write to a known series. */
  lemma StoredKnown(d: Data, p: PolicyState, gate: Gate, u: Update, name: string, key: Option<Labels>)
    requires AllKnown(p, d) && forall id :: Known(p, id) ==> Known(gate.policy, id)
    requires key.Some? ==> Known(gate.policy, (name, key.value))
    ensures AllKnown(gate.policy, Stored(d, gate, u, name, key))
  {
  }

  /** Every update keeps the bound. */
  lemma ApplyBounded(env: Env, st: RegistryState, u: Update)
    requires Bounded(env.rules, st) && env.rules.maxSeries >= 1
    ensures Bounded(env.rules, Apply(env, st, u))
  {
    var name := env.Resolve(u.name);
    if u.op == InfoOp {
      forall id | id in st.data ensures Known(Apply(env, st, u).gate.policy, id) { assert Known(st.gate.policy, id); }
    } else {
      TargetBounded(env.rules, st.gate, name, u.labels, Auto(u.op));
      var (gate, key) := Target(env.rules, st.gate, name, u.labels, Auto(u.op));
      StoredKnown(st.data, st.gate.policy, gate, u, name, key);
    }
  }

  ghost function SeriesOf(d: Data, name: string): set<Labels> {
    set id | id in d && id.0 == name :: id.1
  }

  /** So no metric has more label sets stored, in all families together, than the limit. */
  lemma SeriesLimit(rules: LabelRules, st: RegistryState, name: string)
    requires Bounded(rules, st)
    ensures |SeriesOf(st.data, name)| <= rules.maxSeries
  {
    forall k | k in SeriesOf(st.data, name) ensures k in Seen(st.gate.policy, name) {
      assert Known(st.gate.policy, (name, k));
    }
    SubsetCount(SeriesOf(st.data, name), Seen(st.gate.policy, name));
  }

  const EMPTY := RegistryState(Gate(map[], PolicyState(0, 0, map[])), map[], map[], 0)

  // ---- Runs of updates and registrations ----

  /** The registry and the aliases its registrations have added. */
  datatype World = World(aliases: map<string, string>, st: RegistryState) {
    function Resolve(name: string): string { if name in aliases then aliases[name] else name }
  }

  datatype RegistryEvent = Updated(u: Update) | Registered(name: string, def: MetricDef, aliases: set<string>)

  /** The first definition of a name stays; only a new one brings its aliases. */
  function Register(w: World, name: string, def: MetricDef, aliases: set<string>): World {
    if name in w.st.gate.defs then w
    else
      World(w.aliases + map a | a in aliases :: name,
            w.st.(gate := w.st.gate.(defs := w.st.gate.defs[name := def]),
                  infos := if def.metricType == Info then w.st.infos[name := map[]] else w.st.infos))
  }

  function Step(rules: LabelRules, w: World, e: RegistryEvent): World {
    match e
    case Updated(u) => w.(st := Apply(Env(rules, w.aliases), w.st, u))
    case Registered(name, def, aliases) => Register(w, name, def, aliases)
  }

  ghost function Run(rules: LabelRules, start: World, events: seq<RegistryEvent>): World {
    if events == [] then start
    else Step(rules, Run(rules, start, events[..|events| - 1]), events[|events| - 1])
  }

  lemma StepBounded(rules: LabelRules, w: World, e: RegistryEvent)
    requires Bounded(rules, w.st) && rules.maxSeries >= 1
    ensures Bounded(rules, Step(rules, w, e).st)
  {
    if e.Updated? { ApplyBounded(Env(rules, w.aliases), w.st, e.u); }
  }

  lemma {:induction false} RunBounded(rules: LabelRules, start: World, events: seq<RegistryEvent>)
    requires rules.maxSeries >= 1 && Bounded(rules, start.st)
    ensures Bounded(rules, Run(rules, start, events).st)
  {
    if events != [] {
      RunBounded(rules, start, events[..|events| - 1]);
      StepBounded(rules, Run(rules, start, events[..|events| - 1]), events[|events| - 1]);
    }
  }

  /** Over every run of updates and registrations, from any registry within its bound, with a limit of at least one. */
  lemma CardinalityGate(rules: LabelRules, start: World, events: seq<RegistryEvent>, name: string)
    requires rules.maxSeries >= 1 && Bounded(rules, start.st)
    ensures |SeriesOf(Run(rules, start, events).st.data, name)| <= rules.maxSeries
  {
    RunBounded(rules, start, events);
    SeriesLimit(rules, Run(rules, start, events).st, name);
  }
}
