/** What decides about an update, in the registrations and labels themselves: definitions, aliases, filters, counts. */
module RegistryDefinitions {
  import opened Series
  import opened MetricState
  import opened RegistryHistory

  // ---- Definitions ----

  /** The event defines the metric, unless it is defined already. */
  ghost predicate Defines(w: World, e: RegistryEvent, name: string) {
    match e
    case Registered(n, _, _) => n == name
    case Updated(u) => (if u.name in w.aliases then w.aliases[u.name] else u.name) == name
  }

  /** `i` is the first event of the run to define the metric. */
  ghost predicate FirstToDefine(rules: LabelRules, start: World, events: seq<RegistryEvent>, name: string, i: nat) {
    && i < |events| && Defines(Run(rules, start, events[..i]), events[i], name)
    && forall j :: 0 <= j < i ==> !Defines(Run(rules, start, events[..j]), events[j], name)
  }

  /** A registration's own definition; what an update registers has no label keys and a type after the update. */
  ghost function DefinitionOf(e: RegistryEvent): MetricDef {
    match e
    case Registered(_, def, _) => def
    case Updated(u) =>
      if u.op.IncOp? then MetricDef(Counter, {}, [])
      else if u.op.SetOp? then MetricDef(Gauge, {}, [])
      else if u.op.ObserveOp? then MetricDef(Histogram, {}, DEFAULT_BUCKETS)
      else MetricDef(Info, {}, [])
  }

  lemma EventDefines(rules: LabelRules, w: World, e: RegistryEvent, name: string)
    requires name !in w.st.gate.defs
    ensures var defs := Step(rules, w, e).st.gate.defs;
            if Defines(w, e, name) then name in defs && defs[name] == DefinitionOf(e) else name !in defs
  {
    match e
    case Registered(_, _, _) =>
    case Updated(u) =>
      if u.op == InfoOp { InfoDefines(rules, w, u, name); } else { UpdateDefines(rules, w, u, name); }
  }

  lemma InfoDefines(rules: LabelRules, w: World, u: Update, name: string)
    requires name !in w.st.gate.defs && u.op == InfoOp
    ensures var defs := Step(rules, w, Updated(u)).st.gate.defs;
            if w.Resolve(u.name) == name then name in defs && defs[name] == Auto(InfoOp) else name !in defs
  {
  }

  lemma UpdateDefines(rules: LabelRules, w: World, u: Update, name: string)
    requires name !in w.st.gate.defs && u.op != InfoOp
    ensures var defs := Step(rules, w, Updated(u)).st.gate.defs;
            if w.Resolve(u.name) == name then name in defs && defs[name] == Auto(u.op) else name !in defs
  {
    TargetDefines(rules, w.st.gate, w.Resolve(u.name), u.labels, Auto(u.op), name);
  }

  /** Over any run the first event to define a metric decides its definition for good. */
  lemma {:induction false} FirstDefinitionStays(rules: LabelRules, start: World, events: seq<RegistryEvent>,
    name: string, i: nat)
    requires name !in start.st.gate.defs && FirstToDefine(rules, start, events, name, i)
    ensures var defs := Run(rules, start, events).st.gate.defs; name in defs && defs[name] == DefinitionOf(events[i])
  {
    var earlier, e := events[..|events| - 1], events[|events| - 1];
    assert forall j :: 0 <= j < |events| ==> earlier[..j] == events[..j];
    if i == |events| - 1 {
      NotYetDefined(rules, start, earlier, name);
      EventDefines(rules, Run(rules, start, earlier), e, name);
    } else {
      FirstDefinitionStays(rules, start, earlier, name, i);
      DefinitionStays(rules, Run(rules, start, earlier), e, name);
    }
  }

  lemma {:induction false} NotYetDefined(rules: LabelRules, start: World, events: seq<RegistryEvent>, name: string)
    requires name !in start.st.gate.defs
    requires forall j :: 0 <= j < |events| ==> !Defines(Run(rules, start, events[..j]), events[j], name)
    ensures name !in Run(rules, start, events).st.gate.defs
  {
    if events != [] {
      var earlier, e := events[..|events| - 1], events[|events| - 1];
      forall j | 0 <= j < |earlier| ensures !Defines(Run(rules, start, earlier[..j]), earlier[j], name) {
        assert earlier[..j] == events[..j];
      }
      NotYetDefined(rules, start, earlier, name);
      EventDefines(rules, Run(rules, start, earlier), e, name);
    }
  }

  /** So a histogram that was registered before it was used counts by the bounds of its registration. */
  lemma RegisteredBounds(rules: LabelRules, start: World, events: seq<RegistryEvent>, id: SeriesId, i: nat)
    requires id.0 !in start.st.gate.defs && id !in start.st.data && FirstToDefine(rules, start, events, id.0, i)
    requires events[i].Registered? && events[i].def.metricType != Summary
    ensures var st, r := Run(rules, start, events).st, Routed(rules, start, events, id);
            id in st.data && st.data[id].histogram.Some? ==>
              && (events[i].def.buckets != [] ==>
                    Counts(st.data[id].histogram.value, events[i].def.buckets, Values(Observations(r))))
              && (events[i].def.buckets == [] ==>
                    Counts(st.data[id].histogram.value, DEFAULT_BUCKETS, Values(Observations(r))))
  {
    FirstDefinitionStays(rules, start, events, id.0, i);
    HistogramExact(rules, start, events, id);
  }

  // ---- Aliases ----

  /** The aliases of a new metric lead to it from then on; every other name leads where it did. */
  lemma AliasesLead(rules: LabelRules, w: World, name: string, def: MetricDef, aliases: set<string>, u: Update,
    n: string)
    ensures var w' := Step(rules, w, Registered(name, def, aliases));
            && (name in w.st.gate.defs ==> w' == w)
            && (name !in w.st.gate.defs && u.name in aliases ==> (Concerns(w', Updated(u), n) <==> n == name))
            && (u.name !in aliases ==> (Concerns(w', Updated(u), n) <==> Concerns(w, Updated(u), n)))
    ensures w.aliases == map[] ==> (Concerns(w, Updated(u), n) <==> n == u.name)
    ensures Step(rules, w, Updated(u)).aliases == w.aliases
  {
  }

  // ---- Labels and series ----

  /** The labels a metric's updates may carry: its own keys once it is defined, the allowed ones before. */
  ghost function Permitted(rules: LabelRules, w: World, name: string): set<string> {
    (if name in w.st.gate.defs then w.st.gate.defs[name].labelKeys else rules.allowed) - rules.forbidden
  }

  ghost predicate IsFiltered(rules: LabelRules, w: World, u: Update, name: string, k: Labels) {
    k == map l | l in u.labels && l in Permitted(rules, w, name) :: u.labels[l]
  }

  ghost function SeriesSeen(w: World, name: string): set<Labels> {
    if name in w.st.gate.policy.seriesKeys then w.st.gate.policy.seriesKeys[name] else {}
  }

  /**
   An update other than an info goes to the series of its permitted labels when that is known or there is room
   for it, to the unlabelled series when there is not and the metric is not defined yet, and nowhere else.
   */
  lemma RoutesExactly(rules: LabelRules, w: World, u: Update, name: string, k: Labels, safe: Labels)
    requires IsFiltered(rules, w, u, name, safe)
    ensures var room := safe in SeriesSeen(w, name) || |SeriesSeen(w, name)| < rules.maxSeries;
            Routes(rules, w, Updated(u), (name, k)) <==>
              && Concerns(w, Updated(u), name) && !u.op.InfoOp?
              && if room then k == safe else name !in w.st.gate.defs && k == map[]
  {
    assert Kept(rules, u.labels, Permit(rules, w.st.gate.defs, name)) == safe;
  }

  // ---- Infos and counts ----

  /** An info is the permitted labels of the last update, none when it was only registered. */
  lemma InfoExactly(rules: LabelRules, w: World, e: RegistryEvent, name: string)
    ensures var st, st' := w.st, Step(rules, w, e).st;
            if e.Updated? && e.u.op.InfoOp? && Concerns(w, e, name) then
              && name in st'.infos
              && st'.infos[name] == map l | l in e.u.labels && l in rules.allowed - rules.forbidden :: e.u.labels[l]
            else if e.Registered? && e.name == name && name !in st.gate.defs && e.def.metricType.Info? then
              name in st'.infos && st'.infos[name] == map[]
            else (name in st'.infos <==> name in st.infos) && (name in st.infos ==> st'.infos[name] == st.infos[name])
  {
  }

  ghost function Lost(labels: Labels, permitted: set<string>): nat { |labels.Keys - permitted| }

  /** Every label that an info update may not carry is counted. */
  lemma InfoCounts(rules: LabelRules, w: World, u: Update)
    requires u.op.InfoOp?
    ensures var p := w.st.gate.policy;
            Step(rules, w, Updated(u)).st.gate.policy
            == p.(dropped := p.dropped + Lost(u.labels, rules.allowed - rules.forbidden))
  {
    KeptGone(rules, u.labels, rules.allowed);
  }

  /** So is every label another update may not carry, and every series refused to it. */
  lemma UpdateCounts(rules: LabelRules, w: World, u: Update, name: string, safe: Labels)
    requires !u.op.InfoOp? && Concerns(w, Updated(u), name) && IsFiltered(rules, w, u, name, safe)
    ensures var p, p' := w.st.gate.policy, Step(rules, w, Updated(u)).st.gate.policy;
            var room := safe in SeriesSeen(w, name) || |SeriesSeen(w, name)| < rules.maxSeries;
            && p'.dropped == p.dropped + Lost(u.labels, Permitted(rules, w, name))
            && p'.rejects == p.rejects + if room then 0 else 1
  {
    var permit := Permit(rules, w.st.gate.defs, name);
    KeptGone(rules, u.labels, permit);
    TargetCounts(rules, w.st.gate, name, u.labels, Auto(u.op));
    assert Kept(rules, u.labels, permit) == safe;
    PolicyOf(rules, w, u, name);
  }

  lemma PolicyOf(rules: LabelRules, w: World, u: Update, name: string)
    requires !u.op.InfoOp? && Concerns(w, Updated(u), name)
    ensures Step(rules, w, Updated(u)).st.gate.policy
      == Target(rules, w.st.gate, name, u.labels, Auto(u.op)).0.policy
  {
  }

  lemma KeptGone(rules: LabelRules, labels: Labels, permit: set<string>)
    ensures labels.Keys - Kept(rules, labels, permit).Keys == labels.Keys - (permit - rules.forbidden)
  {
  }

  lemma TargetCounts(rules: LabelRules, gate: Gate, name: string, labels: Labels, auto: MetricDef)
    ensures var p, p' := gate.policy, Target(rules, gate, name, labels, auto).0.policy;
            var safe := Kept(rules, labels, Permit(rules, gate.defs, name));
            && p'.dropped == p.dropped + |labels.Keys - safe.Keys|
            && p'.rejects == p.rejects + if safe in Seen(p, name) || |Seen(p, name)| < rules.maxSeries then 0 else 1
  {
  }
}
