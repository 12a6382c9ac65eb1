/** Choosing the slot of a request: block affinity first, then the longest shared prefix, then the registry. */
module SlotRouter {
  import opened Options
  import opened TokenChunks
  import opened PrefixHistory
  import opened FlatTrie
  import opened TrieTheorems
  import opened RadixTrie
  import opened OkfSlotAffinity
  import opened SlotRegistry

  datatype Value = Flag(b: bool) | Number(n: int) | Other(text: string)

  type Payload = map<string, Value>

  datatype Telemetry = Telemetry(slotReused: bool, slotId: Option<int>, radixMatchLen: Option<nat>, okfAffinity: bool,
    prefixHash: Option<string>, affinityHintHonored: bool)

  /** The payload sent on: the caller's, with prompt caching on and, when a slot was chosen, its id. */
  function Outgoing(base: Payload, slot: Option<int>): Payload {
    var cached := base["cache_prompt" := Flag(true)];
    match slot
    case None => cached
    case Some(k) => cached["id_slot" := Number(k)]
  }

  /** Keys other than the two the router owns pass through. */
  lemma OutgoingPreserves(base: Payload, slot: Option<int>, key: string)
    requires key != "id_slot" && key != "cache_prompt"
    ensures key in Outgoing(base, slot) <==> key in base
    ensures key in base ==> Outgoing(base, slot)[key] == base[key]
  {
  }

  /** Caching is asked for, and the slot is sent when there is one. */
  lemma OutgoingSends(base: Payload, slot: Option<int>)
    ensures "cache_prompt" in Outgoing(base, slot) && Outgoing(base, slot)["cache_prompt"] == Flag(true)
    ensures slot.Some? ==> "id_slot" in Outgoing(base, slot) && Outgoing(base, slot)["id_slot"] == Number(slot.value)
    ensures slot == None ==> ("id_slot" in Outgoing(base, slot) <==> "id_slot" in base)
    ensures slot == None && "id_slot" in base ==> Outgoing(base, slot)["id_slot"] == base["id_slot"]
  {
  }

  // ---- The router's state and what a request does to it, as values ----

  /** `order` and `table` are empty when no affinity table is attached. */
  datatype RouterState = RouterState(registry: State, log: seq<Event>, order: seq<Hash>, table: map<Hash, int>)

  datatype Settings = Settings(total: int, ttl: real, minMatch: int)

  /** The caller's side of `prepare_payload`; `promptHash` is empty for an empty prompt. */
  datatype Request = Request(sessionId: string, promptHash: string, ids: seq<Token>, hashes: seq<Hash>,
    hint: Option<int>, wall: real, mono: real)

  /** Where a slot comes from. */
  datatype Route = ByAffinity(slot: int) | ByPrefix(slot: int, len: nat) | ByRegistry

  /** The answer when a slot is reused. */
  function Reused(base: Payload, q: Request, route: Route): (Payload, Telemetry)
    requires !route.ByRegistry?
  {
    (Outgoing(base, Some(route.slot)),
      Telemetry(true, Some(route.slot), Some(if route.ByAffinity? then |q.ids| else route.len),
        route.ByAffinity?, None, false))
  }

  /** The matched length the metrics record on a route. */
  function HitLength(route: Route, q: Request, minMatch: int): Option<int> {
    match route
    case ByAffinity(_) => Some(if q.ids != [] then |q.ids| else minMatch)
    case ByPrefix(_, len) => Some(len)
    case ByRegistry => None
  }

  /** The metrics after a hit, if there was one. */
  ghost function WithHit(before: (nat, seq<int>), hit: Option<int>): (nat, seq<int>) {
    if hit == None then before else (before.0 + 1, before.1 + [hit.value])
  }

  ghost function MatchLog(log: seq<Event>, ids: seq<Token>, now: real, ttl: real): (Option<int>, nat) {
    if [] in TrieTheorems.Run(log, ttl) then Match(TrieTheorems.Run(log, ttl), ids, now, ttl) else (None, 0)
  }

  ghost function RouteOf(st: RouterState, cfg: Settings, q: Request): Route {
    var hit := FirstIn(q.hashes, st.order);
    if hit.Some? && hit.value in st.table then ByAffinity(st.table[hit.value]) else PrefixRouteOf(st.log, cfg, q)
  }

  lemma RouteIs(st: RouterState, cfg: Settings, q: Request, route: Route)
    requires forall h :: h in st.order ==> h in st.table
    requires route.ByAffinity? <==> FirstIn(q.hashes, st.order).Some?
    requires route.ByAffinity? ==> route.slot == st.table[FirstIn(q.hashes, st.order).value]
    requires !route.ByAffinity? ==> route == PrefixRouteOf(st.log, cfg, q)
    ensures route == RouteOf(st, cfg, q)
  {
  }

  ghost function PrefixRouteOf(log: seq<Event>, cfg: Settings, q: Request): Route {
    var (slot, len) := MatchLog(log, q.ids, q.mono, cfg.ttl);
    if slot.Some? && len >= cfg.minMatch && q.ids != [] then ByPrefix(slot.value, len) else ByRegistry
  }

  /**
   The route taken: the slot of the first hash in the affinity table, if any is; else that of a match of
   at least the least length, if the request has tokens; else the registry's.
   */
  lemma RouteExactly(st: RouterState, cfg: Settings, q: Request)
    requires forall h :: h in st.table <==> h in st.order
    ensures [] in TrieTheorems.Run(st.log, cfg.ttl)
    ensures var route, m := RouteOf(st, cfg, q), TrieTheorems.Run(st.log, cfg.ttl);
            var (slot, len) := Match(m, q.ids, q.mono, cfg.ttl);
            && (route.ByAffinity? <==> exists h <- q.hashes :: h in st.table)
            && (route.ByAffinity? ==> exists i ::
                  && 0 <= i < |q.hashes| && q.hashes[i] in st.table && route.slot == st.table[q.hashes[i]]
                  && forall j :: 0 <= j < i ==> q.hashes[j] !in st.table)
            && (route.ByPrefix? <==>
                  (forall h <- q.hashes :: h !in st.table) && q.ids != [] && slot.Some? && len >= cfg.minMatch)
            && (route.ByPrefix? ==> slot == Some(route.slot) && len == route.len)
            && HitLength(route, q, cfg.minMatch)
              == if route.ByRegistry? then None else
                 Some(if route.ByPrefix? then len else if |q.ids| > 0 then |q.ids| else cfg.minMatch)
  {
    RunClosed(st.log, cfg.ttl);
    if FirstIn(q.hashes, st.order).Some? { var i := FirstInIsFirst(q.hashes, st.order); }
  }

  ghost predicate BindsSession(st: State, cfg: Settings, q: Request, st': State, slot: int, reused: bool, honored: bool)
  {
    var hinted := if q.hint == None then (st, None)
      else BindsAt(st, q.sessionId, q.hint.value, q.promptHash, q.wall, cfg.total);
    if hinted.1.Some? then honored && hinted == (st', Some((slot, reused)))
    else !honored && Acquires(st, q.sessionId, q.promptHash, q.wall, cfg.total, st', slot, reused)
  }

  /** What the registry does for a request: nothing without a session, otherwise a binding. */
  ghost predicate Bound(st: State, cfg: Settings, q: Request, st': State, t: Telemetry) {
    if q.sessionId == "" then
      t.slotId == None && !t.slotReused && t.prefixHash == None && !t.affinityHintHonored && st' == st
    else
      && t.slotId.Some? && t.prefixHash == Some(q.promptHash)
      && BindsSession(st, cfg, q, st', t.slotId.value, t.slotReused, t.affinityHintHonored)
  }

  /** What the trie is told of it. */
  ghost function Noting(ids: seq<Token>, slot: Option<int>, mono: real): seq<Event> {
    if slot.Some? && ids != [] then [Event.Inserted(ids, slot.value, mono)] else []
  }

  /** The part of `prepare_payload` that falls to the registry. */
  ghost predicate ServedByRegistry(st: State, log: seq<Event>, cfg: Settings, q: Request, st': State, log': seq<Event>,
    t: Telemetry)
  {
    && Bound(st, cfg, q, st', t) && log' == log + Noting(q.ids, t.slotId, q.mono)
    && t.radixMatchLen == None && !t.okfAffinity
  }

  /** What `prepare_payload` does on a route: reuse a slot and leave registry and trie alone, or bind and remember. */
  ghost predicate Answers(st: State, log: seq<Event>, cfg: Settings, q: Request, route: Route, st': State,
    log': seq<Event>, t: Telemetry)
  {
    if route.ByRegistry? then ServedByRegistry(st, log, cfg, q, st', log', t)
    else
      && t.slotId == Some(route.slot) && t.slotReused && st' == st && log' == log
      && t.radixMatchLen == Some(if route.ByAffinity? then |q.ids| else route.len) && t.okfAffinity == route.ByAffinity?
      && t.prefixHash == None && !t.affinityHintHonored
  }

  /**
   A reused slot leaves registry and trie as they were. A request without a session is answered without a
   slot; any other is bound to a slot, told whether it held it before, and its tokens, if it has any, are
   remembered for that slot.
   */
  lemma AnswersExactly(st: State, log: seq<Event>, cfg: Settings, q: Request, route: Route, st': State,
    log': seq<Event>, t: Telemetry)
    requires st.Consistent(cfg.total) && Answers(st, log, cfg, q, route, st', log', t)
    ensures route.ByAffinity? ==>
              st' == st && log' == log && t == Telemetry(true, Some(route.slot), Some(|q.ids|), true, None, false)
    ensures route.ByPrefix? ==>
              st' == st && log' == log && t == Telemetry(true, Some(route.slot), Some(route.len), false, None, false)
    ensures route.ByRegistry? && q.sessionId == "" ==>
              st' == st && log' == log && t == Telemetry(false, None, None, false, None, false)
    ensures route.ByRegistry? && q.sessionId != "" ==>
              && q.sessionId in st'.sessions
              && (var slot := st'.sessions[q.sessionId];
                  && t == Telemetry(q.sessionId in st.sessions, Some(slot), None, false, Some(q.promptHash),
                                    t.affinityHintHonored)
                  && log' == if |q.ids| == 0 then log else log + [Event.Inserted(q.ids, slot, q.mono)])
  {
    if route.ByRegistry? && q.sessionId != "" {
      BoundSlotExists(st, cfg, q, st', t.slotId.value, t.slotReused, t.affinityHintHonored);
    }
    assert log + [] == log;
  }

  // ---- Slots in range ----

  ghost predicate SlotsBelow(m: Flat, total: int) {
    forall p :: p in m && m[p].slot.Some? ==> 0 <= m[p].slot.value < total
  }

  /** Every slot that affinity, trie and registry could hand out exists on the server. */
  ghost predicate InRange(st: RouterState, cfg: Settings) {
    && st.registry.Consistent(cfg.total)
    && SlotsBelow(TrieTheorems.Run(st.log, cfg.ttl), cfg.total)
    && forall h :: h in st.table ==> 0 <= st.table[h] < cfg.total
  }

  lemma {:induction false} BestBelow(m: Flat, c: Path, d: nat, now: real, ttl: real, total: int)
    requires SlotsBelow(m, total) && d <= |c|
    ensures var s := Best(m, c, d, now, ttl).0; s.Some? ==> 0 <= s.value < total
  {
    if d > 0 { BestBelow(m, c, d - 1, now, ttl, total); }
  }

  /** A match only returns slots that some node holds. */
  lemma MatchBelow(m: Flat, ids: seq<Token>, now: real, ttl: real, total: int)
    requires SlotsBelow(m, total) && [] in m
    ensures var s := Match(m, ids, now, ttl).0; s.Some? ==> 0 <= s.value < total
  {
    var c := FullChunks(ids);
    BestBelow(m, c, Depth(m, c, 0), now, ttl, total);
  }

  lemma InsertKeepsBelow(m: Flat, ids: seq<Token>, slot: int, now: real, ttl: real, total: int)
    requires SlotsBelow(m, total) && 0 <= slot < total
    ensures SlotsBelow(Inserted'(m, ids, slot, now, ttl), total)
  {
    assert SlotsBelow(Inserting(m, ids, slot, now), total);
  }

  /** An insert keeps every slot of the trie below `total` exactly when it is given such a slot. */
  lemma InsertBelow(m: Flat, ids: seq<Token>, slot: int, now: real, ttl: real, total: int)
    requires SlotsBelow(m, total) && ids != [] && 0.0 <= ttl
    ensures SlotsBelow(Inserted'(m, ids, slot, now, ttl), total) <==> 0 <= slot < total
  {
    InsertOwns(m, ids, slot, now, ttl);
    var c := FullChunks(ids);
    assert c == c[..|c|];
    assert Inserted'(m, ids, slot, now, ttl)[c].slot == Some(slot);
    if 0 <= slot < total { InsertKeepsBelow(m, ids, slot, now, ttl, total); }
  }

  /** The session ends up bound to the slot returned, which exists; it is reused iff the session was already bound. */
  lemma BoundSlotExists(st: State, cfg: Settings, q: Request, st': State, slot: int, reused: bool, honored: bool)
    requires st.Consistent(cfg.total) && BindsSession(st, cfg, q, st', slot, reused, honored)
    ensures st'.Consistent(cfg.total)
    ensures 0 <= slot < cfg.total && q.sessionId in st'.sessions && st'.sessions[q.sessionId] == slot
    ensures reused <==> q.sessionId in st.sessions
  {
    if honored {
      BindsAtConsistent(st, q.sessionId, q.hint.value, q.promptHash, q.wall, cfg.total);
    } else {
      AcquiresConsistent(st, q.sessionId, q.promptHash, q.wall, cfg.total, st', slot, reused);
    }
  }

  /**
   A hint is honoured exactly when its slot exists and the session holds a slot already, or the hinted slot
   is free, or its holder gave the same prompt; otherwise the registry chooses as if there were none.
   */
  lemma HintHonoredExactly(st: State, cfg: Settings, q: Request, st': State, slot: int, reused: bool, honored: bool)
    requires st.Consistent(cfg.total) && BindsSession(st, cfg, q, st', slot, reused, honored)
    ensures honored <==>
            && q.hint.Some? && 0 <= q.hint.value < cfg.total
            && (q.sessionId in st.sessions || q.hint.value !in st.slots
                || (q.promptHash != "" && st.slots[q.hint.value].prefixHash == q.promptHash))
    ensures q.sessionId in st.sessions ==> slot == st.sessions[q.sessionId] && st'.sessions == st.sessions
    ensures q.sessionId !in st.sessions && honored ==> slot == q.hint.value
    ensures q.sessionId !in st.sessions && !honored && !st.Full(cfg.total) ==>
              slot !in st.slots && forall k :: 0 <= k < slot ==> k in st.slots
    ensures q.sessionId !in st.sessions && !honored && st.Full(cfg.total) ==>
              slot in st.slots && forall k :: k in st.slots ==> st.slots[slot].lastUsed <= st.slots[k].lastUsed
  {
  }

  /**
   The slot is bound to the session, used now and with the hash of the prompt, unless the session held it and
   the prompt is empty; every other binding stays as it was, but for the one the slot is taken from.
   */
  lemma BoundExactly(st: State, cfg: Settings, q: Request, st': State, slot: int, reused: bool, honored: bool)
    requires st.Consistent(cfg.total) && BindsSession(st, cfg, q, st', slot, reused, honored)
    ensures slot in st'.slots && st'.slots[slot].session == q.sessionId && st'.slots[slot].lastUsed == q.wall
    ensures st'.slots[slot].prefixHash
      == if reused && q.promptHash == "" then st.slots[slot].prefixHash else q.promptHash
    ensures forall k :: k != slot ==> (k in st'.slots <==> k in st.slots)
    ensures forall k :: k != slot && k in st.slots ==> st'.slots[k] == st.slots[k]
  {
  }

  /** Every slot handed out exists on the server, and so does every slot remembered for later requests. */
  lemma AnswersInRange(st: RouterState, cfg: Settings, q: Request, st': RouterState, t: Telemetry)
    requires InRange(st, cfg)
    requires Answers(st.registry, st.log, cfg, q, RouteOf(st, cfg, q), st'.registry, st'.log, t)
        && st'.table == st.table
    ensures InRange(st', cfg)
    ensures t.slotId.Some? ==> 0 <= t.slotId.value < cfg.total
  {
    var m := TrieTheorems.Run(st.log, cfg.ttl);
    assert st.log + [] == st.log;
    if [] in m { MatchBelow(m, q.ids, q.mono, cfg.ttl, cfg.total); }
    if RouteOf(st, cfg, q).ByRegistry? && q.sessionId != "" {
      BoundSlotExists(st.registry, cfg, q, st'.registry, t.slotId.value, t.slotReused, t.affinityHintHonored);
      if q.ids != [] {
        RunSnoc(st.log, Event.Inserted(q.ids, t.slotId.value, q.mono), cfg.ttl);
        InsertKeepsBelow(m, q.ids, t.slotId.value, q.mono, cfg.ttl, cfg.total);
      }
    }
  }

  /** Recording an existing slot keeps every slot in range. */
  lemma RecordInRange(st: RouterState, cfg: Settings, ids: seq<Token>, hashes: seq<Hash>, slot: int, mono: real,
    st': RouterState)
    requires InRange(st, cfg) && 0 <= slot < cfg.total
    requires st'.registry == st.registry && TableRecords(st.table, st'.table, hashes, slot)
    requires st'.log == st.log + if ids == [] then [] else [Event.Inserted(ids, slot, mono)]
    ensures InRange(st', cfg)
  {
    if ids == [] {
      assert st'.log == st.log;
    } else {
      RunSnoc(st.log, Event.Inserted(ids, slot, mono), cfg.ttl);
      InsertKeepsBelow(TrieTheorems.Run(st.log, cfg.ttl), ids, slot, mono, cfg.ttl, cfg.total);
    }
  }

  // ---- Runs of the router ----

  datatype Move =
    | Served(q: Request, base: Payload, payload: Payload, t: Telemetry)
    | Noted(ids: seq<Token>, hashes: seq<Hash>, slot: int, mono: real)
    | SessionReleased(session: string)
    | SlotPruned(slot: int)

  ghost predicate Moves(st: RouterState, cfg: Settings, move: Move, st': RouterState)
  {
    match move
    case Served(q, base, payload, t) =>
      && Answers(st.registry, st.log, cfg, q, RouteOf(st, cfg, q), st'.registry, st'.log, t) && st'.table == st.table
      && payload == Outgoing(base, t.slotId)
    case Noted(ids, hashes, slot, mono) =>
      && st'.registry == st.registry && TableRecords(st.table, st'.table, hashes, slot)
      && st'.log == st.log + if ids == [] then [] else [Event.Inserted(ids, slot, mono)]
    case SessionReleased(session) =>
      st'.registry == st.registry.Unbind(session) && st'.log == st.log && st'.table == st.table
    case SlotPruned(slot) =>
      st'.registry == st.registry && st'.log == st.log + [Invalidated(slot)] && st'.table == st.table
  }

  /** From an empty router, with only existing slots reported after inference. */
  ghost predicate RouterRun(states: seq<RouterState>, moves: seq<Move>, cfg: Settings) {
    && |states| == |moves| + 1
    && states[0] == RouterState(NOTHING_BOUND, [], [], map[])
    && (forall i {:trigger moves[i]} :: 0 <= i < |moves| ==> Moves(states[i], cfg, moves[i], states[i + 1]))
    && (forall m <- moves :: m.Noted? ==> 0 <= m.slot < cfg.total)
  }

  lemma MoveInRange(st: RouterState, cfg: Settings, move: Move, st': RouterState)
    requires InRange(st, cfg) && Moves(st, cfg, move, st') && (move.Noted? ==> 0 <= move.slot < cfg.total)
    ensures InRange(st', cfg)
    ensures move.Served? && move.t.slotId.Some? ==> 0 <= move.t.slotId.value < cfg.total
  {
    match move
    case Served(q, _, _, t) => AnswersInRange(st, cfg, q, st', t);
    case Noted(ids, hashes, slot, mono) => RecordInRange(st, cfg, ids, hashes, slot, mono, st');
    case SessionReleased(session) => ReleaseConsistent(st.registry, session, cfg.total);
    case SlotPruned(slot) => RunSnoc(st.log, Invalidated(slot), cfg.ttl);
  }

  /** Over every run, every slot sent to the server exists. */
  lemma {:induction false} EverySlotExists(states: seq<RouterState>, moves: seq<Move>, cfg: Settings, i: nat)
    requires RouterRun(states, moves, cfg) && i <= |moves|
    ensures InRange(states[i], cfg)
    ensures i > 0 && moves[i - 1].Served? && moves[i - 1].t.slotId.Some? ==>
              var payload := moves[i - 1].payload;
              && "id_slot" in payload && payload["id_slot"].Number? && 0 <= payload["id_slot"].n < cfg.total
              && moves[i - 1].t.slotId == Some(payload["id_slot"].n)
  {
    if i > 0 {
      EverySlotExists(states, moves, cfg, i - 1);
      assert moves[i - 1] in moves;
      MoveInRange(states[i - 1], cfg, moves[i - 1], states[i]);
    }
  }

  // ---- The objects ----

  class RadixMetrics {
    var prefixHits: nat
    var matchTokens: seq<int>

    ghost function View(): (nat, seq<int>)
      reads this
    {
      (prefixHits, matchTokens)
    }

    constructor ()
      ensures View() == (0, [])
    {
      prefixHits, matchTokens := 0, [];
    }

    method RecordHit(matched: int)
      modifies this
      ensures prefixHits == old(prefixHits) + 1 && matchTokens == old(matchTokens) + [matched]
      ensures View() == WithHit(old(View()), Some(matched))
    {
      prefixHits := prefixHits + 1;
      matchTokens := matchTokens + [matched];
    }
  }

  class RadixSlotRouter {
    const registry: SlotRegistry
    const trie: ChunkTrie
    const affinity: OkfSlotAffinity?
    const metrics: RadixMetrics
    const minMatch: int

    ghost function Cfg(): Settings { Settings(registry.totalSlots, trie.ttl, minMatch) }

    ghost predicate AffinityValid()
      reads affinity
    {
      affinity != null ==> affinity.Valid()
    }

    ghost predicate Valid()
      reads registry, trie, affinity, metrics, registry.slots.Values, trie.index.Values
    {
      registry.Valid() && trie.Valid() && AffinityValid()
    }

    ghost function View(): RouterState
      reads registry, registry.slots.Values, trie, affinity
    {
      RouterState(registry.View(), trie.log, if affinity == null then [] else affinity.order,
        if affinity == null then map[] else affinity.table)
    }

    constructor (registry: SlotRegistry, minMatch: int, ttl: real, affinity: OkfSlotAffinity?, now: real)
      requires registry.Valid() && (affinity != null ==> affinity.Valid())
      ensures Valid() && this.registry == registry && this.affinity == affinity && this.minMatch == minMatch
      ensures fresh(trie) && fresh(trie.index.Values) && fresh(metrics)
      ensures trie.log == [] && trie.ttl == ttl && trie.clock == now && metrics.View() == (0, [])
    {
      this.registry, this.affinity, this.minMatch := registry, affinity, minMatch;
      trie := new ChunkTrie(ttl, now);
      metrics := new RadixMetrics();
    }

    /** The affinity lookup, skipped without hashes or without a table. */
    method LookupAffinity(hashes: seq<Hash>) returns (slot: Option<int>)
      requires AffinityValid()
      modifies affinity
      ensures AffinityValid() && (affinity != null ==> affinity.table == old(affinity.table))
      ensures affinity != null
          ==> affinity.ops == old(affinity.ops) + if hashes == [] then [] else [LookedUp(hashes)]
      ensures affinity == null ==> slot == None
      ensures affinity != null ==> var hit := FirstIn(hashes, old(affinity.order));
        slot == if hit == None then None else Some(old(affinity.table)[hit.value])
    {
      slot := None;
      if hashes != [] && affinity != null { slot := affinity.Lookup(hashes); }
    }

    /** `match_longest_prefix` with its hit counter. */
    method MatchAndCount(ids: seq<Token>, now: real) returns (slot: Option<int>, len: nat)
      requires trie.Valid()
      modifies metrics
      ensures (slot, len) == MatchLog(trie.log, ids, now, trie.ttl)
      ensures metrics.View() == WithHit(old(metrics.View()), if slot.Some? && len >= minMatch then Some(len) else None)
    {
      slot, len := trie.MatchLongestPrefix(ids, now);
      if slot.Some? && len >= minMatch { metrics.RecordHit(len); }
    }

    /** The prefix lookup, skipped without tokens. */
    method LookupPrefix(q: Request) returns (route: Route)
      requires trie.Valid()
      modifies metrics
      ensures route == PrefixRouteOf(trie.log, Cfg(), q) && !route.ByAffinity?
      ensures metrics.View() == WithHit(old(metrics.View()), HitLength(route, q, minMatch))
    {
      if q.ids != [] {
        var matched, len := MatchAndCount(q.ids, q.mono);
        if matched.Some? && len >= minMatch { return ByPrefix(matched.value, len); }
      }
      route := ByRegistry;
    }

    /** The affinity route, with its hit counter. */
    method LookupAffine(q: Request) returns (slot: Option<int>)
      requires AffinityValid()
      modifies metrics, affinity
      ensures AffinityValid() && (affinity != null ==> affinity.table == old(affinity.table))
      ensures affinity != null
          ==> affinity.ops == old(affinity.ops) + if q.hashes == [] then [] else [LookedUp(q.hashes)]
      ensures slot.Some? <==> affinity != null && FirstIn(q.hashes, old(affinity.order)).Some?
      ensures slot.Some? ==> slot.value == old(affinity.table)[FirstIn(q.hashes, old(affinity.order)).value]
      ensures metrics.View() == if slot == None then old(metrics.View()) else
        WithHit(old(metrics.View()), HitLength(ByAffinity(slot.value), q, minMatch))
    {
      slot := LookupAffinity(q.hashes);
      if slot.Some? { metrics.RecordHit(if q.ids != [] then |q.ids| else minMatch); }
      ghost var affinityKept := AffinityValid();
      assert affinityKept;
    }

    /** The same; the trie is not touched. */
    method LookupAffineApart(q: Request) returns (slot: Option<int>)
      requires AffinityValid() && trie.Valid()
      modifies metrics, affinity
      ensures AffinityValid() && trie.Valid() && (affinity != null ==> affinity.table == old(affinity.table))
      ensures affinity != null
          ==> affinity.ops == old(affinity.ops) + if q.hashes == [] then [] else [LookedUp(q.hashes)]
      ensures slot.Some? <==> affinity != null && FirstIn(q.hashes, old(affinity.order)).Some?
      ensures slot.Some? ==> slot.value == old(affinity.table)[FirstIn(q.hashes, old(affinity.order)).value]
      ensures metrics.View() == if slot == None then old(metrics.View()) else
        WithHit(old(metrics.View()), HitLength(ByAffinity(slot.value), q, minMatch))
    {
      slot := LookupAffine(q);
      ghost var trieKept := trie.Valid();
      assert trieKept;
    }

    /** The prefix lookup; the affinity table is not touched. */
    method LookupPrefixApart(q: Request) returns (route: Route)
      requires trie.Valid() && AffinityValid()
      modifies metrics
      ensures AffinityValid()
      ensures route == PrefixRouteOf(trie.log, Cfg(), q) && !route.ByAffinity?
      ensures metrics.View() == WithHit(old(metrics.View()), HitLength(route, q, minMatch))
    {
      route := LookupPrefix(q);
      ghost var affinityKept := AffinityValid();
      assert affinityKept;
    }

    /** The two lookups that can reuse a slot without asking the registry. */
    method LookupRoute(q: Request) returns (route: Route)
      requires trie.Valid() && AffinityValid()
      modifies metrics, affinity
      ensures AffinityValid() && (affinity != null ==> affinity.table == old(affinity.table))
      ensures affinity != null
          ==> affinity.ops == old(affinity.ops) + if q.hashes == [] then [] else [LookedUp(q.hashes)]
      ensures route.ByAffinity? <==> affinity != null && FirstIn(q.hashes, old(affinity.order)).Some?
      ensures route.ByAffinity? ==> route.slot == old(affinity.table)[FirstIn(q.hashes, old(affinity.order)).value]
      ensures !route.ByAffinity? ==> route == PrefixRouteOf(trie.log, Cfg(), q)
      ensures metrics.View() == WithHit(old(metrics.View()), HitLength(route, q, minMatch))
    {
      var affine := LookupAffineApart(q);
      if affine.Some? { return ByAffinity(affine.value); }
      route := LookupPrefixApart(q);
    }

    /** The registry's answer: the hinted slot when that is granted, otherwise an acquire. */
    method BindSession(q: Request) returns (slot: int, reused: bool, honored: bool)
      requires registry.Valid() && q.sessionId != ""
      modifies registry, registry.slots.Values
      ensures registry.Valid()
      ensures forall k :: k in registry.slots && registry.slots[k] !in old(registry.slots.Values) ==>
          fresh(registry.slots[k])
      ensures BindsSession(old(registry.View()), Cfg(), q, registry.View(), slot, reused, honored)
    {
      honored := false;
      if q.hint.Some? {
        var preferred := registry.AcquireAt(q.sessionId, q.hint.value, q.promptHash, q.wall);
        if preferred.value.Some? {
          slot, reused := preferred.value.value.0, preferred.value.value.1;
          return slot, reused, true;
        }
        BindsAtConsistent(old(registry.View()), q.sessionId, q.hint.value, q.promptHash, q.wall, registry.totalSlots);
      }
      var r := registry.Acquire(q.sessionId, q.promptHash, q.wall);
      slot, reused := r.value.0, r.value.1;
    }

    /** The base class's `prepare_payload`. */
    method RegistryPayload(base: Payload, q: Request) returns (payload: Payload, t: Telemetry)
      requires registry.Valid()
      modifies registry, registry.slots.Values
      ensures registry.Valid()
      ensures forall k :: k in registry.slots && registry.slots[k] !in old(registry.slots.Values) ==>
          fresh(registry.slots[k])
      ensures "cache_prompt" in payload && payload["cache_prompt"] == Flag(true)
      ensures t.slotId.Some? ==> "id_slot" in payload && payload["id_slot"] == Number(t.slotId.value)
      ensures t.slotId == None ==> ("id_slot" in payload <==> "id_slot" in base)
      ensures t.slotId == None && "id_slot" in base ==> payload["id_slot"] == base["id_slot"]
      ensures forall key :: key != "id_slot" && key != "cache_prompt" ==>
          (key in payload <==> key in base) && (key in base ==> payload[key] == base[key])
      ensures payload == Outgoing(base, t.slotId) && t.radixMatchLen == None && !t.okfAffinity
      ensures Bound(old(registry.View()), Cfg(), q, registry.View(), t)
    {
      payload := base["cache_prompt" := Flag(true)];
      t := Telemetry(false, None, None, false, None, false);
      if q.sessionId == "" { return; }
      var slot, reused, honored := BindSession(q);
      payload := payload["id_slot" := Number(slot)];
      t := Telemetry(reused, Some(slot), None, false, Some(q.promptHash), honored);
    }

    method Remember(ids: seq<Token>, slot: Option<int>, now: real)
      requires trie.Valid() && trie.clock <= now
      modifies trie, trie.index.Values
      ensures trie.Valid()
      ensures forall p :: p in trie.index && trie.index[p] !in old(trie.index.Values) ==> fresh(trie.index[p])
      ensures trie.log == old(trie.log) + Noting(ids, slot, now)
    {
      if slot.Some? && ids != [] { trie.Insert(ids, slot.value, now); }
    }

    /** The same; the registry is not touched. */
    method RememberOnly(ids: seq<Token>, slot: Option<int>, now: real)
      requires trie.Valid() && trie.clock <= now && registry.Valid()
      modifies trie, trie.index.Values
      ensures trie.Valid() && registry.Valid()
      ensures forall p :: p in trie.index && trie.index[p] !in old(trie.index.Values) ==> fresh(trie.index[p])
      ensures trie.log == old(trie.log) + Noting(ids, slot, now)
      ensures registry.View() == old(registry.View())
    {
      Remember(ids, slot, now);
      ghost var registryKept := registry.Valid();
      assert registryKept;
    }

    method BindAndRemember(base: Payload, q: Request) returns (payload: Payload, t: Telemetry)
      requires registry.Valid() && trie.Valid() && trie.clock <= q.mono
      modifies registry, registry.slots.Values, trie, trie.index.Values
      ensures registry.Valid()
      ensures forall k :: k in registry.slots && registry.slots[k] !in old(registry.slots.Values) ==>
          fresh(registry.slots[k])
      ensures trie.Valid()
      ensures forall p :: p in trie.index && trie.index[p] !in old(trie.index.Values) ==> fresh(trie.index[p])
      ensures payload == Outgoing(base, t.slotId)
      ensures ServedByRegistry(old(registry.View()), old(trie.log), Cfg(), q, registry.View(), trie.log, t)
    {
      payload, t := RegistryPayload(base, q);
      ghost var trieKept := trie.Valid();
      assert trieKept;
      RememberOnly(q.ids, t.slotId, q.mono);
    }

    /** The rest of `prepare_payload`, once the route is known. */
    method BindOrReuse(base: Payload, q: Request, route: Route) returns (payload: Payload, t: Telemetry)
      requires registry.Valid() && trie.Valid() && trie.clock <= q.mono
      modifies registry, registry.slots.Values, trie, trie.index.Values
      ensures registry.Valid()
      ensures forall k :: k in registry.slots && registry.slots[k] !in old(registry.slots.Values) ==>
          fresh(registry.slots[k])
      ensures trie.Valid()
      ensures forall p :: p in trie.index && trie.index[p] !in old(trie.index.Values) ==> fresh(trie.index[p])
      ensures payload == Outgoing(base, t.slotId)
      ensures Answers(old(registry.View()), old(trie.log), Cfg(), q, route, registry.View(), trie.log, t)
    {
      if route.ByRegistry? {
        payload, t := BindAndRemember(base, q);
      } else {
        var answer := Reused(base, q, route);
        payload, t := answer.0, answer.1;
      }
    }

    method ChooseRoute(q: Request) returns (route: Route)
      requires Valid()
      modifies metrics, affinity
      ensures registry.Valid() && trie.Valid() && AffinityValid()
      ensures affinity != null
          ==> affinity.ops == old(affinity.ops) + if q.hashes == [] then [] else [LookedUp(q.hashes)]
      ensures route.ByAffinity? <==> affinity != null && FirstIn(q.hashes, old(affinity.order)).Some?
      ensures route.ByAffinity? ==> route.slot == old(affinity.table)[FirstIn(q.hashes, old(affinity.order)).value]
      ensures route == RouteOf(old(View()), Cfg(), q)
      ensures affinity != null ==> affinity.table == old(affinity.table)
      ensures metrics.View() == WithHit(old(metrics.View()), HitLength(route, q, minMatch))
      ensures registry.View() == old(registry.View()) && trie.log == old(trie.log)
      ensures registry.slots == old(registry.slots) && trie.index == old(trie.index)
    {
      ghost var st := View();
      route := LookupRoute(q);
      RouteIs(st, Cfg(), q, route);
      assert registry.View() == st.registry;
      ghost var trieKept := trie.Valid();
      assert trieKept;
      ghost var registryKept := registry.Valid();
      assert registryKept;
    }

    method Answer(base: Payload, q: Request, route: Route) returns (payload: Payload, t: Telemetry)
      requires Valid() && trie.clock <= q.mono
      modifies registry, registry.slots.Values, trie, trie.index.Values
      ensures Valid()
      ensures forall k :: k in registry.slots && registry.slots[k] !in old(registry.slots.Values) ==>
          fresh(registry.slots[k])
      ensures forall p :: p in trie.index && trie.index[p] !in old(trie.index.Values) ==> fresh(trie.index[p])
      ensures payload == Outgoing(base, t.slotId)
      ensures Answers(old(registry.View()), old(trie.log), Cfg(), q, route, registry.View(), trie.log, t)
      ensures affinity != null ==> affinity.ops == old(affinity.ops)
      ensures affinity != null ==> affinity.table == old(affinity.table)
      ensures metrics.View() == old(metrics.View())
    {
      payload, t := BindOrReuse(base, q, route);
      ghost var affinityKept := AffinityValid();
      assert affinityKept;
    }

    method PreparePayload(base: Payload, q: Request) returns (payload: Payload, t: Telemetry, ghost route: Route)
      requires Valid() && trie.clock <= q.mono
      modifies registry, registry.slots.Values, trie, trie.index.Values, metrics, affinity
      ensures forall k :: k in registry.slots && registry.slots[k] !in old(registry.slots.Values) ==>
          fresh(registry.slots[k])
      ensures forall p :: p in trie.index && trie.index[p] !in old(trie.index.Values) ==> fresh(trie.index[p])
      ensures Valid()
      ensures affinity != null
          ==> affinity.ops == old(affinity.ops) + if q.hashes == [] then [] else [LookedUp(q.hashes)]
      ensures route.ByAffinity? <==> affinity != null && FirstIn(q.hashes, old(affinity.order)).Some?
      ensures route.ByAffinity? ==> route.slot == old(affinity.table)[FirstIn(q.hashes, old(affinity.order)).value]
      ensures route == RouteOf(old(View()), Cfg(), q)
      ensures "cache_prompt" in payload && payload["cache_prompt"] == Flag(true)
      ensures t.slotId.Some? ==> "id_slot" in payload && payload["id_slot"] == Number(t.slotId.value)
      ensures t.slotId == None ==> ("id_slot" in payload <==> "id_slot" in base)
      ensures t.slotId == None && "id_slot" in base ==> payload["id_slot"] == base["id_slot"]
      ensures forall key :: key != "id_slot" && key != "cache_prompt" ==>
          (key in payload <==> key in base) && (key in base ==> payload[key] == base[key])
      ensures payload == Outgoing(base, t.slotId)
      ensures Answers(old(registry.View()), old(trie.log), Cfg(), q, route, registry.View(), trie.log, t)
      ensures affinity != null ==> affinity.table == old(affinity.table)
      ensures var hit := HitLength(route, q, minMatch);
        && metrics.prefixHits == old(metrics.prefixHits) + (if hit == None then 0 else 1)
        && metrics.matchTokens == if hit == None then old(metrics.matchTokens)
                                  else old(metrics.matchTokens) + [hit.value]
    {
      var chosen := ChooseRoute(q);
      route := chosen;
      payload, t := Answer(base, q, chosen);
      OutgoingSends(base, t.slotId);
    }

    /** The affinity half of `record_after_inference`. */
    method RecordAffinity(hashes: seq<Hash>, slot: int) returns (keyError: bool)
      requires AffinityValid()
      modifies affinity
      ensures AffinityValid() && (keyError <==> affinity != null && hashes != [] && affinity.max < 0)
      ensures affinity != null
          ==> affinity.ops == old(affinity.ops) + (if hashes == [] then [] else [Recorded(hashes, slot)])
      ensures affinity != null ==> TableRecords(old(affinity.table), affinity.table, hashes, slot)
    {
      keyError := false;
      if hashes != [] && affinity != null { keyError := affinity.Record(hashes, slot); }
    }

    /** The same; registry and trie are not touched. */
    method RecordApart(hashes: seq<Hash>, slot: int) returns (keyError: bool)
      requires AffinityValid() && trie.Valid() && registry.Valid()
      modifies affinity
      ensures AffinityValid() && (keyError <==> affinity != null && hashes != [] && affinity.max < 0)
      ensures affinity != null
          ==> affinity.ops == old(affinity.ops) + (if hashes == [] then [] else [Recorded(hashes, slot)])
      ensures affinity != null ==> TableRecords(old(affinity.table), affinity.table, hashes, slot)
      ensures trie.Valid() && trie.log == old(trie.log)
      ensures registry.Valid() && registry.View() == old(registry.View())
    {
      keyError := RecordAffinity(hashes, slot);
      ghost var trieKept := trie.Valid();
      assert trieKept;
      ghost var registryKept := registry.Valid();
      assert registryKept;
    }

    /** What the trie remembers; the affinity table is not touched either. */
    method RememberApart(ids: seq<Token>, slot: Option<int>, now: real)
      requires trie.Valid() && trie.clock <= now && registry.Valid() && AffinityValid()
      modifies trie, trie.index.Values
      ensures trie.Valid() && registry.Valid() && AffinityValid()
      ensures trie.log == old(trie.log) + Noting(ids, slot, now)
      ensures registry.View() == old(registry.View())
      ensures affinity != null ==> affinity.ops == old(affinity.ops) && affinity.table == old(affinity.table)
    {
      RememberOnly(ids, slot, now);
      ghost var affinityKept := AffinityValid();
      assert affinityKept;
    }

    /** What was served is remembered in the trie and in the affinity table, unless no slot is given. */
    method RecordAfterInference(ids: seq<Token>, idSlot: Option<int>, hashes: seq<Hash>, mono: real)
        returns (keyError: bool)
      requires Valid() && trie.clock <= mono
      modifies trie, trie.index.Values, affinity
      ensures trie.Valid() && AffinityValid() && registry.Valid() && registry.View() == old(registry.View())
      ensures keyError <==> idSlot.Some? && affinity != null && hashes != [] && affinity.max < 0
      ensures idSlot == None ==> View() == old(View())
      ensures trie.log == old(trie.log) + Noting(ids, idSlot, mono)
      ensures idSlot.Some? && ids != [] ==> trie.log == old(trie.log) + [Event.Inserted(ids, idSlot.value, mono)]
      ensures idSlot == None || ids == [] ==> trie.log == old(trie.log)
      ensures affinity != null ==>
          affinity.ops
          == old(affinity.ops) + if idSlot == None || hashes == [] then [] else [Recorded(hashes, idSlot.value)]
      ensures affinity != null && idSlot.Some?
          ==> TableRecords(old(affinity.table), affinity.table, hashes, idSlot.value)
    {
      keyError := false;
      if idSlot == None { return; }
      RememberApart(ids, idSlot, mono);
      keyError := RecordApart(hashes, idSlot.value);
    }

    method Release(sessionId: string)
      requires registry.Valid()
      modifies registry
      ensures registry.Valid() && registry.View() == old(registry.View()).Unbind(sessionId)
    {
      registry.Release(sessionId);
    }
  }
}
