/** The registry object: label policy, definitions, and the series created on demand. */
module MetricRegistry {
  import opened Options
  import opened Series
  import opened MetricState

  class LabelPolicy {
    const allowed: set<string>
    const forbidden: set<string>
    const maxSeries: nat
    var droppedLabels: nat
    var cardinalityRejects: nat
    var seriesKeys: map<string, set<Labels>>

    function Rules(): LabelRules { LabelRules(allowed, forbidden, maxSeries) }

    ghost function View(): PolicyState
      reads this
    {
      PolicyState(droppedLabels, cardinalityRejects, seriesKeys)
    }

    constructor (allowed: set<string>, forbidden: set<string>, maxSeriesPerMetric: int)
      ensures View() == PolicyState(0, 0, map[]) && maxSeries >= 1
      ensures Rules() == LabelRules(allowed, forbidden, if maxSeriesPerMetric < 1 then 1 else maxSeriesPerMetric)
    {
      this.allowed, this.forbidden := allowed, forbidden;
      maxSeries := if maxSeriesPerMetric < 1 then 1 else maxSeriesPerMetric;
      droppedLabels, cardinalityRejects, seriesKeys := 0, 0, map[];
    }

    method Normalize(labels: Labels, permit: set<string>) returns (safe: Labels)
      modifies this`droppedLabels
      ensures safe == Kept(Rules(), labels, permit)
      ensures View() == Normalized(old(View()), labels, safe)
    {
      safe := map[];
      var todo := labels.Keys;
      ghost var gone: set<string> := {};
      while todo != {}
        invariant Sifted(Rules(), labels, permit, todo, safe, gone)
        invariant droppedLabels == old(droppedLabels) + |gone|
        decreases todo
      {
        var key :| key in todo;
        SiftOne(Rules(), labels, permit, todo, safe, gone, key);
        if key in forbidden || key !in permit {
          droppedLabels, gone := droppedLabels + 1, gone + {key};
        } else {
          safe := safe[key := labels[key]];
        }
        todo := todo - {key};
      }
      SiftedAll(Rules(), labels, permit, safe, gone);
    }

    method AdmitSeries(name: string, key: Labels) returns (admitted: bool)
      modifies this`cardinalityRejects, this`seriesKeys
      ensures admitted == Admits(Rules(), old(View()), name, key)
      ensures View() == Admit(Rules(), old(View()), name, key)
    {
      var bucket := if name in seriesKeys then seriesKeys[name] else {};
      seriesKeys := seriesKeys[name := bucket];
      if key in bucket {
        assert bucket + {key} == bucket;
        return true;
      }
      if |bucket| >= maxSeries {
        cardinalityRejects := cardinalityRejects + 1;
        return false;
      }
      seriesKeys := seriesKeys[name := bucket + {key}];
      return true;
    }
  }

  /** The labels not in `todo` have been kept in `safe` or counted in `gone`. */
  ghost predicate Sifted(rules: LabelRules, labels: Labels, permit: set<string>, todo: set<string>, safe: Labels,
    gone: set<string>)
  {
    && todo <= labels.Keys
    && (forall k :: k in safe <==> k in labels && k !in todo && k !in rules.forbidden && k in permit)
    && (forall k :: k in safe ==> safe[k] == labels[k])
    && (forall k :: k in gone <==> k in labels && k !in todo && k !in safe)
  }

  lemma SiftOne(rules: LabelRules, labels: Labels, permit: set<string>, todo: set<string>, safe: Labels,
    gone: set<string>, key: string)
    requires Sifted(rules, labels, permit, todo, safe, gone) && key in todo
    ensures key in rules.forbidden || key !in permit ==>
      Sifted(rules, labels, permit, todo - {key}, safe, gone + {key}) && |gone + {key}| == |gone| + 1
    ensures !(key in rules.forbidden || key !in permit) ==>
      Sifted(rules, labels, permit, todo - {key}, safe[key := labels[key]], gone)
  {
  }

  lemma SiftedAll(rules: LabelRules, labels: Labels, permit: set<string>, safe: Labels, gone: set<string>)
    requires Sifted(rules, labels, permit, {}, safe, gone)
    ensures safe == Kept(rules, labels, permit) && gone == labels.Keys - safe.Keys
  {
  }

  // ---- The four dictionaries seen as one ----

  datatype Tables = Tables(
    counters: map<SeriesId, real>,
    gauges: map<SeriesId, real>,
    histograms: map<SeriesId, HistogramState>,
    summaries: map<SeriesId, SummaryState>)

  ghost function Lookup<K, V>(m: map<K, V>, id: K): Option<V> { if id in m then Some(m[id]) else None }

  ghost function Combined(t: Tables): Data {
    map id | id in t.counters.Keys + t.gauges.Keys + t.histograms.Keys + t.summaries.Keys ::
      Cells(Lookup(t.counters, id), Lookup(t.gauges, id), Lookup(t.histograms, id), Lookup(t.summaries, id))
  }

  ghost function SummaryAt(t: Tables, id: SeriesId): SummaryState {
    if id in t.summaries then t.summaries[id] else NewSummary(MAX_SAMPLES)
  }

  ghost function HistogramAt(t: Tables, id: SeriesId, def: MetricDef): HistogramState {
    if id in t.histograms then t.histograms[id] else NewHistogram(BucketsOf(def))
  }

  /** The dictionary entry an update writes. */
  ghost function WriteTables(t: Tables, id: SeriesId, def: MetricDef, op: UpdateOp, value: real,
    exemplar: Option<Exemplar>)
    : Tables
  {
    match op
    case IncOp =>
      if def.metricType == Gauge then t.(gauges := t.gauges[id := Plus(Lookup(t.gauges, id), value).value])
      else t.(counters := t.counters[id := Plus(Lookup(t.counters, id), value).value])
    case SetOp => t.(gauges := t.gauges[id := value])
    case ObserveOp =>
      if def.metricType == Summary then
        t.(summaries := t.summaries[id := Series.ObserveSummary(SummaryAt(t, id), value)])
      else
        var h := Series.ObserveHistogram(HistogramAt(t, id, def), Observation(value, exemplar));
        t.(histograms := t.histograms[id := h])
    case InfoOp => t
  }

  lemma CombinedAt(t: Tables, id: SeriesId)
    ensures At(Combined(t), id)
      == Cells(Lookup(t.counters, id), Lookup(t.gauges, id), Lookup(t.histograms, id), Lookup(t.summaries, id))
  {
  }

  lemma PutCounter(t: Tables, id: SeriesId, v: real)
    ensures Combined(t.(counters := t.counters[id := v])) == Combined(t)[id := At(Combined(t), id).(counter := Some(v))]
  {
  }

  lemma PutGauge(t: Tables, id: SeriesId, v: real)
    ensures Combined(t.(gauges := t.gauges[id := v])) == Combined(t)[id := At(Combined(t), id).(gauge := Some(v))]
  {
  }

  lemma PutHistogram(t: Tables, id: SeriesId, v: HistogramState)
    ensures Combined(t.(histograms := t.histograms[id := v]))
        == Combined(t)[id := At(Combined(t), id).(histogram := Some(v))]
  {
  }

  lemma PutSummary(t: Tables, id: SeriesId, v: SummaryState)
    ensures Combined(t.(summaries := t.summaries[id := v]))
        == Combined(t)[id := At(Combined(t), id).(summary := Some(v))]
  {
  }

  /** Writing one dictionary entry is writing one cell of the combined view. */
  lemma CombinedWrite(t: Tables, id: SeriesId, def: MetricDef, op: UpdateOp, value: real, exemplar: Option<Exemplar>)
    requires op != InfoOp
    ensures Combined(WriteTables(t, id, def, op, value, exemplar))
      == Combined(t)[id := Write(At(Combined(t), id), def, op, value, exemplar)]
  {
    CombinedAt(t, id);
    match op
    case IncOp =>
      if def.metricType == Gauge { PutGauge(t, id, Plus(Lookup(t.gauges, id), value).value); }
      else { PutCounter(t, id, Plus(Lookup(t.counters, id), value).value); }
    case SetOp => PutGauge(t, id, value);
    case ObserveOp =>
      if def.metricType == Summary { PutSummary(t, id, Series.ObserveSummary(SummaryAt(t, id), value)); }
      else { PutHistogram(t, id, Series.ObserveHistogram(HistogramAt(t, id, def), Observation(value, exemplar))); }
  }

  /** The dictionaries of series are keyed by metric name and normalised labels and hold each series' state. */
  class MetricRegistry {
    const policy: LabelPolicy
    var defs: map<string, MetricDef>
    var aliases: map<string, string>
    var counters: map<SeriesId, real>
    var gauges: map<SeriesId, real>
    var histograms: map<SeriesId, HistogramState>
    var summaries: map<SeriesId, SummaryState>
    var infos: map<string, Labels>
    var bufferDrops: nat

    ghost function Env(): MetricState.Env
      reads this`aliases
    {
      MetricState.Env(policy.Rules(), aliases)
    }

    ghost function GateView(): Gate
      reads this`defs, policy
    {
      Gate(defs, policy.View())
    }

    ghost function TablesView(): Tables
      reads this`counters, this`gauges, this`histograms, this`summaries
    {
      Tables(counters, gauges, histograms, summaries)
    }

    ghost function View(): RegistryState
      reads this, policy
    {
      RegistryState(GateView(), Combined(TablesView()), infos, bufferDrops)
    }

    constructor (cardinalityMax: int)
      ensures View() == EMPTY && aliases == map[] && fresh(policy)
      ensures policy.Rules()
          == LabelRules(ALLOWED_LABELS, FORBIDDEN_LABELS, if cardinalityMax < 1 then 1 else cardinalityMax)
    {
      policy := new LabelPolicy(ALLOWED_LABELS, FORBIDDEN_LABELS, cardinalityMax);
      defs, aliases, infos, bufferDrops := map[], map[], map[], 0;
      counters, gauges, histograms, summaries := map[], map[], map[], map[];
    }

    function Resolve(name: string): (canonical: string)
      reads this`aliases
      ensures canonical == Env().Resolve(name)
    {
      if name in aliases then aliases[name] else name
    }

    ghost function WorldView(): World
      reads this, policy
    {
      World(aliases, View())
    }

    /** `None` is the ValueError for a name already registered with another type. */
    method Register(name: string, def: MetricDef, newAliases: set<string>) returns (r: Option<MetricDef>)
      modifies this`defs, this`aliases, this`infos
      ensures WorldView() == MetricState.Register(old(WorldView()), name, def, newAliases)
      ensures r == if name !in old(defs) then Some(def)
                   else if old(defs)[name].metricType == def.metricType then Some(old(defs)[name]) else None
    {
      if name in defs {
        return if defs[name].metricType != def.metricType then None else Some(defs[name]);
      }
      defs := defs[name := def];
      aliases := aliases + map a | a in newAliases :: name;
      if def.metricType == Info { infos := infos[name := map[]]; }
      r := Some(def);
    }

    /** `_normalize` followed by the registration of an unknown metric. */
    method Target(name: string, labels: Labels, auto: MetricDef) returns (key: Option<Labels>)
      modifies this`defs, policy
      ensures (GateView(), key) == MetricState.Target(policy.Rules(), old(GateView()), name, labels, auto)
      ensures name in defs && TablesView() == old(TablesView())
    {
      var permit := if name in defs then defs[name].labelKeys else policy.allowed;
      var safe := policy.Normalize(labels, permit);
      var admitted := policy.AdmitSeries(name, safe);
      if name !in defs {
        defs := defs[name := auto];
        key := Some(if admitted then safe else map[]);
      } else {
        key := if admitted then Some(safe) else None;
      }
    }

    method StoreInc(id: SeriesId, def: MetricDef, value: real)
      modifies this`gauges, this`counters
      ensures TablesView() == WriteTables(old(TablesView()), id, def, IncOp, value, None)
    {
      if def.metricType == Gauge {
        gauges := gauges[id := (if id in gauges then gauges[id] else 0.0) + value];
      } else {
        counters := counters[id := (if id in counters then counters[id] else 0.0) + value];
      }
    }

    method StoreSet(id: SeriesId, def: MetricDef, value: real)
      modifies this`gauges
      ensures TablesView() == WriteTables(old(TablesView()), id, def, SetOp, value, None)
    {
      gauges := gauges[id := value];
    }

    method StoreObserve(id: SeriesId, def: MetricDef, value: real, exemplar: Option<Exemplar>)
      modifies this`histograms, this`summaries
      ensures TablesView() == WriteTables(old(TablesView()), id, def, ObserveOp, value, exemplar)
    {
      if def.metricType == Summary {
        var s := if id in summaries then summaries[id] else NewSummary(MAX_SAMPLES);
        summaries := summaries[id := ObserveSummary(s, value)];
      } else {
        var h := if id in histograms then histograms[id]
          else NewHistogram(if def.buckets == [] then DEFAULT_BUCKETS else def.buckets);
        histograms := histograms[id := ObserveHistogram(h, Observation(value, exemplar))];
      }
    }

    method IncCanonical(name: string, value: real, labels: Labels)
      modifies this`defs, policy, this`counters, this`gauges, this`histograms, this`summaries
      ensures Lands(policy.Rules(), old(GateView()), old(TablesView()), name,
                    Update(name, IncOp, value, labels, None), GateView(), TablesView())
    {
      var admitted := Target(name, labels, Auto(IncOp));
      if admitted.Some? { StoreInc((name, admitted.value), defs[name], value); }
      assert LandsAt(policy.Rules(), old(GateView()), old(TablesView()), name,
        Update(name, IncOp, value, labels, None), GateView(), TablesView(), admitted);
    }

    method IncApplied(raw: string, value: real, labels: Labels)
      modifies this`defs, policy, this`counters, this`gauges, this`histograms, this`summaries
      ensures RegistryState(GateView(), Combined(TablesView()), infos, bufferDrops)
        == Apply(Env(), old(View()), Update(raw, IncOp, value, labels, None))
    {
      ghost var env, st := Env(), View();
      var name := Resolve(raw);
      IncCanonical(name, value, labels);
      ApplyStores(env, st, old(TablesView()), raw, name, Update(name, IncOp, value, labels, None), GateView(),
        TablesView());
    }

    method Inc(raw: string, value: real, labels: Labels)
      modifies this, policy
      ensures View() == Apply(Env(), old(View()), Update(raw, IncOp, value, labels, None))
      ensures aliases == old(aliases)
    {
      IncApplied(raw, value, labels);
      assert View() == RegistryState(GateView(), Combined(TablesView()), infos, bufferDrops);
    }

    method SetCanonical(name: string, value: real, labels: Labels)
      modifies this`defs, policy, this`counters, this`gauges, this`histograms, this`summaries
      ensures Lands(policy.Rules(), old(GateView()), old(TablesView()), name,
                    Update(name, SetOp, value, labels, None), GateView(), TablesView())
    {
      var admitted := Target(name, labels, Auto(SetOp));
      if admitted.Some? { StoreSet((name, admitted.value), defs[name], value); }
      assert LandsAt(policy.Rules(), old(GateView()), old(TablesView()), name,
        Update(name, SetOp, value, labels, None), GateView(), TablesView(), admitted);
    }

    method SetApplied(raw: string, value: real, labels: Labels)
      modifies this`defs, policy, this`counters, this`gauges, this`histograms, this`summaries
      ensures RegistryState(GateView(), Combined(TablesView()), infos, bufferDrops)
        == Apply(Env(), old(View()), Update(raw, SetOp, value, labels, None))
    {
      ghost var env, st := Env(), View();
      var name := Resolve(raw);
      SetCanonical(name, value, labels);
      ApplyStores(env, st, old(TablesView()), raw, name, Update(name, SetOp, value, labels, None), GateView(),
        TablesView());
    }

    method Set(raw: string, value: real, labels: Labels)
      modifies this, policy
      ensures View() == Apply(Env(), old(View()), Update(raw, SetOp, value, labels, None))
      ensures aliases == old(aliases)
    {
      SetApplied(raw, value, labels);
      assert View() == RegistryState(GateView(), Combined(TablesView()), infos, bufferDrops);
    }

    method ObserveCanonical(name: string, value: real, labels: Labels, exemplar: Option<Exemplar>)
      modifies this`defs, policy, this`counters, this`gauges, this`histograms, this`summaries
      ensures Lands(policy.Rules(), old(GateView()), old(TablesView()), name,
                    Update(name, ObserveOp, value, labels, exemplar), GateView(), TablesView())
    {
      var admitted := Target(name, labels, Auto(ObserveOp));
      if admitted.Some? { StoreObserve((name, admitted.value), defs[name], value, exemplar); }
      assert LandsAt(policy.Rules(), old(GateView()), old(TablesView()), name,
        Update(name, ObserveOp, value, labels, exemplar), GateView(), TablesView(), admitted);
    }

    method ObserveApplied(raw: string, value: real, labels: Labels, exemplar: Option<Exemplar>)
      modifies this`defs, policy, this`counters, this`gauges, this`histograms, this`summaries
      ensures RegistryState(GateView(), Combined(TablesView()), infos, bufferDrops)
        == Apply(Env(), old(View()), Update(raw, ObserveOp, value, labels, exemplar))
    {
      ghost var env, st := Env(), View();
      var name := Resolve(raw);
      ObserveCanonical(name, value, labels, exemplar);
      ApplyStores(env, st, old(TablesView()), raw, name, Update(name, ObserveOp, value, labels, exemplar), GateView(),
        TablesView());
    }

    method Observe(raw: string, value: real, labels: Labels, exemplar: Option<Exemplar>)
      modifies this, policy
      ensures View() == Apply(Env(), old(View()), Update(raw, ObserveOp, value, labels, exemplar))
      ensures aliases == old(aliases)
    {
      ObserveApplied(raw, value, labels, exemplar);
      assert View() == RegistryState(GateView(), Combined(TablesView()), infos, bufferDrops);
    }

    method SetInfo(raw: string, labels: Labels)
      modifies this, policy
      ensures View() == Apply(Env(), old(View()), Update(raw, InfoOp, 0.0, labels, None)) && aliases == old(aliases)
    {
      ghost var t := TablesView();
      var name := Resolve(raw);
      if name !in defs { defs := defs[name := Auto(InfoOp)]; }
      var safe := policy.Normalize(labels, policy.allowed);
      infos := infos[name := safe];
      assert TablesView() == t;
      assert Combined(TablesView()) == Combined(t);
    }

    method RecordDrop()
      modifies this, policy
      ensures View() == MetricState.RecordDrop(Env(), old(View())) && aliases == old(aliases)
    {
      bufferDrops := bufferDrops + 1;
      Inc(DROPS_METRIC, 1.0, map[]);
    }
  }

  /** The dictionaries after an update whose gate step named `key`. */
  ghost function Written(t: Tables, name: string, key: Option<Labels>, def: MetricDef, op: UpdateOp, value: real,
    exemplar: Option<Exemplar>): Tables
  {
    if key == None then t else WriteTables(t, (name, key.value), def, op, value, exemplar)
  }

  /** Gate and dictionaries after the gate step of an update named `key`, and one write. */
  ghost predicate LandsAt(rules: LabelRules, before: Gate, t: Tables, name: string, u: Update, gate: Gate, t': Tables,
    key: Option<Labels>)
  {
    && (gate, key) == MetricState.Target(rules, before, name, u.labels, Auto(u.op)) && name in gate.defs
    && t' == Written(t, name, key, gate.defs[name], u.op, u.value, u.exemplar)
  }

  ghost predicate Lands(rules: LabelRules, before: Gate, t: Tables, name: string, u: Update, gate: Gate, t': Tables) {
    exists key :: LandsAt(rules, before, t, name, u, gate, t', key)
  }

  /** An update is its gate step followed by one dictionary write. */
  lemma ApplyStores(env: Env, st: RegistryState, t: Tables, raw: string, name: string, u: Update, gate: Gate,
    t': Tables)
    requires u.op != InfoOp && st.data == Combined(t) && name == env.Resolve(raw)
    requires Lands(env.rules, st.gate, t, name, u, gate, t')
    ensures Apply(env, st, u.(name := raw)) == RegistryState(gate, Combined(t'), st.infos, st.bufferDrops)
  {
    var key :| LandsAt(env.rules, st.gate, t, name, u, gate, t', key);
    if key.Some? { CombinedWrite(t, (name, key.value), gate.defs[name], u.op, u.value, u.exemplar); }
  }
}
