/** Binding of sessions to physical slots, with eviction of the least recently used session. */
module SlotRegistry {
  import opened Options

  // ---- Contents, as values ----

  datatype Binding = Binding(session: string, lastUsed: real, prefixHash: string)

  datatype State = State(sessions: map<string, int>, slots: map<int, Binding>) {
    /** The two maps are inverses within the slots the server has. */
    ghost predicate Consistent(total: int) {
      && (forall s :: s in sessions ==>
        0 <= sessions[s] < total && sessions[s] in slots && slots[sessions[s]].session == s)
      && (forall k :: k in slots ==> slots[k].session in sessions && sessions[slots[k].session] == k)
    }

    ghost predicate Full(total: int) { forall k :: 0 <= k < total ==> k in slots }

    ghost predicate FirstFree(k: int, total: int) {
      0 <= k < total && k !in slots && forall j :: 0 <= j < k ==> j in slots
    }

    /** No session was used longer ago than `v`. */
    ghost predicate Oldest(v: string) {
      && v in sessions && sessions[v] in slots
      && forall s :: s in sessions && sessions[s] in slots ==>
        slots[sessions[v]].lastUsed <= slots[sessions[s]].lastUsed
    }

    ghost function Bind(session: string, k: int, now: real, prefixHash: string): State {
      State(sessions[session := k], slots[k := Binding(session, now, prefixHash)])
    }

    ghost function Unbind(session: string): State {
      if session in sessions then State(sessions - {session}, slots - {sessions[session]}) else this
    }

    /** A use of the slot by its session. */
    ghost function Renew(k: int, now: real, prefixHash: string): State {
      if k !in slots then this else
      var b := slots[k];
      var hash := if prefixHash == "" then b.prefixHash else prefixHash;
      this.(slots := slots[k := b.(lastUsed := now, prefixHash := hash)])
    }
  }

  const NOTHING_BOUND := State(map[], map[])

  /** What `acquire` may do: renew, take the lowest free slot, or replace a least recently used session. */
  ghost predicate Acquires(st: State, session: string, prefixHash: string, now: real, total: int, st': State,
    slot: int, reused: bool)
  {
    if session in st.sessions then
      slot == st.sessions[session] && slot in st.slots && reused && st' == st.Renew(slot, now, prefixHash)
    else if !st.Full(total) then
      st.FirstFree(slot, total) && !reused && st' == st.Bind(session, slot, now, prefixHash)
    else
      exists v :: st.Oldest(v) && slot == st.sessions[v] && !reused
          && st' == st.Unbind(v).Bind(session, slot, now, prefixHash)
  }

  /** What `acquire_at` does for a slot of the server: renew, refuse, take over on an equal prefix, or bind. */
  ghost function BindsAt(st: State, session: string, k: int, prefixHash: string, now: real, total: int)
    : (State, Option<(int, bool)>)
  {
    if !(0 <= k < total) then (st, None)
    else if session in st.sessions then
      (st.Renew(st.sessions[session], now, prefixHash), Some((st.sessions[session], true)))
    else if k in st.slots then
      if prefixHash == "" || st.slots[k].prefixHash != prefixHash then (st, None)
      else (st.Unbind(st.slots[k].session).Bind(session, k, now, prefixHash), Some((k, false)))
    else (st.Bind(session, k, now, prefixHash), Some((k, false)))
  }

  // ---- Every operation keeps the maps inverse ----

  lemma AcquiresConsistent(st: State, session: string, prefixHash: string, now: real, total: int, st': State,
    slot: int, reused: bool)
    requires st.Consistent(total) && Acquires(st, session, prefixHash, now, total, st', slot, reused)
    ensures st'.Consistent(total)
    ensures st'.sessions.Keys >= {session} && st'.sessions[session] == slot && 0 <= slot < total
    ensures forall s :: s in st.sessions && s !in st'.sessions ==> st.Full(total) && st.Oldest(s)
  {
  }

  lemma BindsAtConsistent(st: State, session: string, k: int, prefixHash: string, now: real, total: int)
    requires st.Consistent(total)
    ensures var (st', r) := BindsAt(st, session, k, prefixHash, now, total);
            && st'.Consistent(total)
            && (r == None ==> st' == st)
            && (r.Some? ==> session in st'.sessions && st'.sessions[session] == r.value.0 && 0 <= r.value.0 < total)
  {
  }

  lemma ReleaseConsistent(st: State, session: string, total: int)
    requires st.Consistent(total)
    ensures st.Unbind(session).Consistent(total)
    ensures session !in st.Unbind(session).sessions
    ensures forall s :: s in st.sessions && s != session ==> s in st.Unbind(session).sessions
  {
  }

  /** Taking a slot over leaves what unbinding its session and binding anew would. */
  lemma BindOver(st: State, mid: State, k: int, session: string, now: real, prefixHash: string, total: int)
    requires st.Consistent(total) && session !in st.sessions && mid.slots == st.slots
    requires mid.sessions == if k in st.slots then st.sessions - {st.slots[k].session} else st.sessions
    ensures mid.Bind(session, k, now, prefixHash)
      == (if k in st.slots then st.Unbind(st.slots[k].session) else st).Bind(session, k, now, prefixHash)
  {
    if k in st.slots {
      var b := Binding(session, now, prefixHash);
      assert st.slots[k := b] == (st.slots - {k})[k := b];
    }
  }

  /** The slot `k` is the lowest free one or, when there is none, that of a least recently used `victim`. */
  ghost predicate Vacates(st: State, total: int, victim: Option<string>, k: int) {
    if victim == None then st.FirstFree(k, total)
    else st.Full(total) && st.Oldest(victim.value) && k == st.sessions[victim.value]
  }

  ghost function Vacated(st: State, victim: Option<string>): State {
    if victim == None then st else st.Unbind(victim.value)
  }

  lemma AcquiresVacated(st: State, session: string, prefixHash: string, now: real, total: int, victim: Option<string>,
    k: int)
    requires session !in st.sessions && Vacates(st, total, victim, k)
    ensures var st' := Vacated(st, victim).Bind(session, k, now, prefixHash);
            Acquires(st, session, prefixHash, now, total, st', k, false)
  {
  }

  class SlotMetadata {
    var sessionId: string
    const slotId: int
    var lastUsedTimestamp: real
    var prefixHash: string

    constructor (sessionId: string, slotId: int, lastUsedTimestamp: real, prefixHash: string)
      ensures this.sessionId == sessionId && this.slotId == slotId
      ensures this.lastUsedTimestamp == lastUsedTimestamp && this.prefixHash == prefixHash
    {
      this.sessionId, this.slotId := sessionId, slotId;
      this.lastUsedTimestamp, this.prefixHash := lastUsedTimestamp, prefixHash;
    }

    ghost function View(): Binding
      reads this
    {
      Binding(sessionId, lastUsedTimestamp, prefixHash)
    }
  }

  class SlotRegistry {
    const totalSlots: int
    var sessionToSlot: map<string, int>
    var slots: map<int, SlotMetadata>

    ghost function View(): State
      reads this, slots.Values
    {
      State(sessionToSlot, map k | k in slots :: slots[k].View())
    }

    ghost predicate Valid()
      reads this, slots.Values
    {
      && totalSlots >= 1
      && (forall k :: k in slots ==> slots[k].slotId == k)
      && View().Consistent(totalSlots)
    }

    constructor (totalSlots: int)
      requires totalSlots >= 1
      ensures Valid() && View() == NOTHING_BOUND && this.totalSlots == totalSlots
    {
      this.totalSlots := totalSlots;
      sessionToSlot, slots := map[], map[];
    }

    /** The renewal shared by both acquires. */
    method Renew(k: int, prefixHash: string, now: real)
      requires Valid() && k in slots
      modifies slots.Values
      ensures View() == old(View()).Renew(k, now, prefixHash)
    {
      var meta := slots[k];
      meta.lastUsedTimestamp := now;
      if prefixHash != "" { meta.prefixHash := prefixHash; }
      assert forall j :: j in slots && j != k ==> slots[j] != meta;
    }

    method Store(sessionId: string, k: int, prefixHash: string, now: real)
      modifies this
      requires forall k :: k in slots ==> slots[k].slotId == k
      ensures fresh(slots.Values - old(slots.Values))
      ensures forall k :: k in slots ==> slots[k].slotId == k
      ensures View() == old(View()).Bind(sessionId, k, now, prefixHash)
    {
      var meta := new SlotMetadata(sessionId, k, now, prefixHash);
      sessionToSlot := sessionToSlot[sessionId := k];
      slots := slots[k := meta];
    }

    method LowestFree() returns (free: Option<int>)
      requires Valid()
      ensures free == None ==> View().Full(totalSlots)
      ensures free.Some? ==> View().FirstFree(free.value, totalSlots)
    {
      for k := 0 to totalSlots
        invariant forall j :: 0 <= j < k ==> j in slots
      {
        if k !in slots { return Some(k); }
      }
      free := None;
    }

    /** The `min` over the bound sessions by timestamp. */
    method LeastRecent() returns (v: string)
      requires Valid() && View().Full(totalSlots)
      ensures View().Oldest(v)
    {
      assert 0 in View().slots;
      v := slots[0].sessionId;
      var todo := sessionToSlot.Keys - {v};
      while todo != {}
        invariant v in sessionToSlot && v !in todo
        invariant todo <= sessionToSlot.Keys
        invariant forall s :: s in sessionToSlot && s !in todo ==>
          slots[sessionToSlot[v]].lastUsedTimestamp <= slots[sessionToSlot[s]].lastUsedTimestamp
        decreases todo
      {
        var s :| s in todo;
        assert View().sessions[s] in View().slots && View().sessions[v] in View().slots;
        if slots[sessionToSlot[s]].lastUsedTimestamp < slots[sessionToSlot[v]].lastUsedTimestamp { v := s; }
        todo := todo - {s};
      }
    }

    method Evict(lru: string)
      requires Valid() && lru in sessionToSlot
      modifies this
      ensures Valid() && View() == old(View()).Unbind(lru)
      ensures forall k :: k in slots ==> k in old(slots) && slots[k] == old(slots)[k]
    {
      var slotId := sessionToSlot[lru];
      sessionToSlot, slots := sessionToSlot - {lru}, slots - {slotId};
      assert View().slots == old(View()).slots - {slotId};
      assert View() == old(View()).Unbind(lru);
      ReleaseConsistent(old(View()), lru, totalSlots);
    }

    /** The lowest free slot, or one that is freed for the purpose. */
    method FreeSlot() returns (slotId: int, ghost victim: Option<string>)
      requires Valid()
      modifies this
      ensures Valid() && Vacates(old(View()), totalSlots, victim, slotId)
      ensures View() == Vacated(old(View()), victim)
      ensures forall k :: k in slots ==> k in old(slots) && slots[k] == old(slots)[k]
    {
      var free := LowestFree();
      if free.Some? { return free.value, None; }
      var lru := LeastRecent();
      slotId, victim := sessionToSlot[lru], Some(lru);
      Evict(lru);
    }

    /** Acquire for a session that holds no slot. */
    method AcquireNew(sessionId: string, prefixHash: string, now: real) returns (slotId: int)
      requires Valid() && sessionId !in sessionToSlot
      modifies this
      ensures fresh(slots.Values - old(slots.Values)) && forall k :: k in slots ==> slots[k].slotId == k
      ensures Acquires(old(View()), sessionId, prefixHash, now, totalSlots, View(), slotId, false)
    {
      ghost var victim;
      slotId, victim := FreeSlot();
      Store(sessionId, slotId, prefixHash, now);
      AcquiresVacated(old(View()), sessionId, prefixHash, now, totalSlots, victim, slotId);
    }

    /** `None` is the ValueError for an empty session id. */
    method Acquire(sessionId: string, prefixHash: string, now: real) returns (r: Option<(int, bool)>)
      requires Valid()
      modifies this, slots.Values
      ensures Valid() && fresh(slots.Values - old(slots.Values))
      ensures r.Some? <==> sessionId != ""
      ensures r == None ==> View() == old(View())
      ensures r.Some? ==> Acquires(old(View()), sessionId, prefixHash, now, totalSlots, View(), r.value.0, r.value.1)
    {
      if sessionId == "" { return None; }
      if sessionId in sessionToSlot {
        var existing := sessionToSlot[sessionId];
        assert existing in View().slots;
        Renew(existing, prefixHash, now);
        r := Some((existing, true));
      } else {
        var slotId := AcquireNew(sessionId, prefixHash, now);
        r := Some((slotId, false));
      }
      AcquiresConsistent(old(View()), sessionId, prefixHash, now, totalSlots, View(), r.value.0, r.value.1);
    }

    /** `acquire_at` for a session that holds no slot. */
    method BindAt(sessionId: string, slotId: int, prefixHash: string, now: real) returns (r: Option<(int, bool)>)
      requires Valid() && sessionId !in sessionToSlot && 0 <= slotId < totalSlots
      modifies this
      ensures fresh(slots.Values - old(slots.Values)) && forall k :: k in slots ==> slots[k].slotId == k
      ensures (View(), r) == BindsAt(old(View()), sessionId, slotId, prefixHash, now, totalSlots)
    {
      ghost var before := View();
      if slotId in slots && slots[slotId].sessionId != sessionId {
        var occupied := slots[slotId].sessionId;
        assert before.slots[slotId].session == occupied && occupied in before.sessions;
        if prefixHash == "" || slots[slotId].prefixHash != prefixHash { return None; }
        sessionToSlot := sessionToSlot - {occupied};
      }
      ghost var mid := View();
      assert mid.slots == before.slots;
      Store(sessionId, slotId, prefixHash, now);
      BindOver(before, mid, slotId, sessionId, now, prefixHash, totalSlots);
      return Some((slotId, false));
    }

    /** The outer `None` is the ValueError, the inner one the refusal. */
    method AcquireAt(sessionId: string, slotId: int, prefixHash: string, now: real)
        returns (r: Option<Option<(int, bool)>>)
      requires Valid()
      modifies this, slots.Values
      ensures Valid() && fresh(slots.Values - old(slots.Values))
      ensures r.Some? <==> sessionId != ""
      ensures r == None ==> View() == old(View())
      ensures r.Some? ==> (View(), r.value) == BindsAt(old(View()), sessionId, slotId, prefixHash, now, totalSlots)
    {
      if sessionId == "" { return None; }
      BindsAtConsistent(View(), sessionId, slotId, prefixHash, now, totalSlots);
      if slotId < 0 || slotId >= totalSlots { return Some(None); }
      if sessionId in sessionToSlot {
        var existing := sessionToSlot[sessionId];
        assert existing in View().slots;
        Renew(existing, prefixHash, now);
        return Some(Some((existing, true)));
      }
      var bound := BindAt(sessionId, slotId, prefixHash, now);
      return Some(bound);
    }

    method Lookup(sessionId: string, now: real) returns (slot: Option<int>)
      requires Valid()
      modifies slots.Values
      ensures Valid()
      ensures slot == if sessionId in old(View()).sessions then Some(old(View()).sessions[sessionId]) else None
      ensures View() == if slot == None then old(View()) else old(View()).Renew(slot.value, now, "")
    {
      if sessionId !in sessionToSlot { return None; }
      var k := sessionToSlot[sessionId];
      assert k in View().slots;
      Renew(k, "", now);
      slot := Some(k);
    }

    method Release(sessionId: string)
      requires Valid()
      modifies this
      ensures Valid() && View() == old(View()).Unbind(sessionId)
      ensures forall k :: k in slots ==> k in old(slots) && slots[k] == old(slots)[k]
    {
      if sessionId in sessionToSlot { Evict(sessionId); }
    }
  }
}
