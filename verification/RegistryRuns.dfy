/** Runs of all four registry operations: the maps stay inverse, and eviction takes the session used longest ago. */
module RegistryRuns {
  import opened SlotRegistry
  import opened LruRuns

  datatype Use =
    | Acquired(session: string, prefixHash: string, time: real)
    | AcquiredAt(session: string, prefixHash: string, time: real, slot: int)
    | LookedUp(session: string, time: real)
    | Released(session: string, time: real)

  ghost predicate Does(st: State, u: Use, total: int, st': State) {
    match u
    case Acquired(s, p, now) => AcquireStep(st, Call(s, p, now), total, st')
    case AcquiredAt(s, p, now, k) => st' == BindsAt(st, s, k, p, now, total).0
    case LookedUp(s, now) => st' == if s in st.sessions then st.Renew(st.sessions[s], now, "") else st
    case Released(s, _) => st' == st.Unbind(s)
  }

  ghost predicate Ticking(uses: seq<Use>) { forall i, j :: 0 <= i < j < |uses| ==> uses[i].time < uses[j].time }

  /** From an empty registry, under a strictly increasing clock. */
  ghost predicate UseRun(states: seq<State>, uses: seq<Use>, total: int) {
    && |states| == |uses| + 1 && states[0] == NOTHING_BOUND
    && Ticking(uses)
    && (forall i {:trigger uses[i]} :: 0 <= i < |uses| ==> Does(states[i], uses[i], total, states[i + 1]))
  }

  /** All but a request for a slot the server does not have, which is refused before the session is looked at. */
  predicate InRange(u: Use, total: int) { u.AcquiredAt? ==> 0 <= u.slot < total }

  lemma DoesConsistent(st: State, u: Use, total: int, st': State)
    requires total >= 1 && st.Consistent(total) && Does(st, u, total, st')
    ensures st'.Consistent(total)
  {
    match u
    case Acquired(s, p, now) =>
      var slot, reused :| Acquires(st, s, p, now, total, st', slot, reused);
      AcquiresConsistent(st, s, p, now, total, st', slot, reused);
    case AcquiredAt(s, p, now, k) => BindsAtConsistent(st, s, k, p, now, total);
    case LookedUp(s, now) =>
    case Released(s, _) => ReleaseConsistent(st, s, total);
  }

  /** Over every run the session map and the slot map are inverses within the slots. */
  lemma {:induction false} UseRunConsistent(states: seq<State>, uses: seq<Use>, total: int, n: nat)
    requires total >= 1 && UseRun(states, uses, total) && n <= |uses|
    ensures states[n].Consistent(total)
  {
    if n > 0 {
      UseRunConsistent(states, uses, total, n - 1);
      DoesConsistent(states[n - 1], uses[n - 1], total, states[n]);
    }
  }

  /** A session held after a use was used just then, if it is its own; else it was held and used before. */
  lemma UseSetsTime(st: State, u: Use, total: int, st': State, s: string)
    requires total >= 1 && st.Consistent(total) && Does(st, u, total, st') && s in st'.sessions
    ensures u.session == s && InRange(u, total) ==> LastUse(st', s) == u.time
    ensures !(u.session == s && InRange(u, total)) ==> s in st.sessions && LastUse(st', s) == LastUse(st, s)
  {
    match u
    case Acquired(t, p, now) =>
      var slot, reused :| Acquires(st, t, p, now, total, st', slot, reused);
      if t in st.sessions { RenewTimes(st, t, now, p, total); }
    case AcquiredAt(t, p, now, k) => if t in st.sessions { RenewTimes(st, t, now, p, total); }
    case LookedUp(t, now) => if t in st.sessions { RenewTimes(st, t, now, "", total); }
    case Released(t, _) =>
  }

  /** Use `i` is the last of the first `n` that uses session `s`. */
  ghost predicate LastUsedAt(uses: seq<Use>, total: int, n: nat, s: string, i: int)
    requires n <= |uses|
  {
    && 0 <= i < n && uses[i].session == s && InRange(uses[i], total)
    && forall j :: i < j < n ==> !(uses[j].session == s && InRange(uses[j], total))
  }

  lemma LastUsedStill(uses: seq<Use>, total: int, n: nat, s: string, i: int)
    requires n < |uses| && LastUsedAt(uses, total, n, s, i) && !(uses[n].session == s && InRange(uses[n], total))
    ensures LastUsedAt(uses, total, n + 1, s, i)
  {
  }

  /** A held session carries the time of its last use. */
  lemma {:induction false} HeldSinceLastUse(states: seq<State>, uses: seq<Use>, total: int, n: nat, s: string)
      returns (i: nat)
    requires total >= 1 && UseRun(states, uses, total) && n <= |uses| && s in states[n].sessions
    ensures LastUsedAt(uses, total, n, s, i) && LastUse(states[n], s) == uses[i].time
  {
    var m, u := n - 1, uses[n - 1];
    assert Does(states[m], u, total, states[n]);
    UseRunConsistent(states, uses, total, m);
    UseSetsTime(states[m], u, total, states[n], s);
    if u.session == s && InRange(u, total) {
      i := m;
    } else {
      i := HeldSinceLastUse(states, uses, total, m, s);
      LastUsedStill(uses, total, m, s, i);
    }
  }

  lemma EarlierUse(uses: seq<Use>, total: int, n: nat, v: string, i: int, t: string, j: int)
    requires Ticking(uses) && n <= |uses| && v != t
    requires LastUsedAt(uses, total, n, v, i) && LastUsedAt(uses, total, n, t, j) && uses[i].time <= uses[j].time
    ensures i < j
  {
  }

  /** What an acquire evicts is among the least recent, and every slot was bound. */
  lemma EvictedOldest(st: State, u: Use, total: int, st': State, v: string, t: string)
    requires total >= 1 && st.Consistent(total) && u.Acquired? && Does(st, u, total, st')
    requires v in st.sessions && v !in st'.sessions && t in st.sessions
    ensures st.Full(total) && LastUse(st, v) <= LastUse(st, t)
  {
    var slot, reused :| Acquires(st, u.session, u.prefixHash, u.time, total, st', slot, reused);
    AcquiresConsistent(st, u.session, u.prefixHash, u.time, total, st', slot, reused);
    assert st.Oldest(v);
  }

  /**
   Over every run of the four operations: an acquire evicts only when every slot is bound, and then
   the session whose last use lies furthest back.
   */
  lemma EvictsLeastRecent(states: seq<State>, uses: seq<Use>, total: int, n: nat, v: string, t: string)
    returns (i: nat, j: nat)
    requires total >= 1 && UseRun(states, uses, total) && n < |uses| && uses[n].Acquired?
    requires v in states[n].sessions && v !in states[n + 1].sessions && t in states[n].sessions && t != v
    ensures states[n].Full(total)
    ensures LastUsedAt(uses, total, n, v, i) && LastUsedAt(uses, total, n, t, j) && i < j
  {
    UseRunConsistent(states, uses, total, n);
    EvictedOldest(states[n], uses[n], total, states[n + 1], v, t);
    i := HeldSinceLastUse(states, uses, total, n, v);
    j := HeldSinceLastUse(states, uses, total, n, t);
    EarlierUse(uses, total, n, v, i, t, j);
  }

  // ---- The hash a binding carries ----

  /** The hash that a use gives its own session; the empty one gives none. */
  function GivenHash(u: Use): string {
    match u
    case Acquired(_, p, _) => p
    case AcquiredAt(_, p, _, _) => p
    case LookedUp(_, _) => ""
    case Released(_, _) => ""
  }

  /** The last non-empty hash that session `s` gave in uses `b` to `n`. */
  ghost function LastGiven(uses: seq<Use>, total: int, s: string, b: nat, n: nat): string
    requires n <= |uses|
  {
    if n <= b then ""
    else if uses[n - 1].session == s && InRange(uses[n - 1], total) && GivenHash(uses[n - 1]) != "" then
      GivenHash(uses[n - 1])
    else LastGiven(uses, total, s, b, n - 1)
  }

  /** Session `s` was bound by use `b` and has been held since. */
  ghost predicate BoundSince(states: seq<State>, s: string, b: nat, n: nat) {
    && b < n < |states| && s !in states[b].sessions
    && forall j :: b < j <= n ==> s in states[j].sessions
  }

  ghost function HashOf(st: State, s: string): string {
    if s in st.sessions && st.sessions[s] in st.slots then st.slots[st.sessions[s]].prefixHash else ""
  }

  /** What a use does to the hash of a session held after it. */
  ghost predicate SetsHash(st: State, u: Use, total: int, st': State, s: string) {
    var own := u.session == s && InRange(u, total);
    && (own && (s !in st.sessions || GivenHash(u) != "") ==> HashOf(st', s) == GivenHash(u))
    && (s in st.sessions && !(own && GivenHash(u) != "") ==> HashOf(st', s) == HashOf(st, s))
    && (s !in st.sessions ==> own)
  }

  lemma RenewHash(st: State, t: string, now: real, prefixHash: string, total: int, s: string)
    requires st.Consistent(total) && t in st.sessions && s in st.sessions
    ensures HashOf(st.Renew(st.sessions[t], now, prefixHash), s)
      == if s == t && prefixHash != "" then prefixHash else HashOf(st, s)
  {
    if s != t { OneSlotEach(st, total, s); }
  }

  lemma BindHash(st: State, t: string, k: int, now: real, prefixHash: string, s: string)
    requires s == t || (s in st.sessions && st.sessions[s] != k)
    ensures HashOf(st.Bind(t, k, now, prefixHash), s) == if s == t then prefixHash else HashOf(st, s)
  {
  }

  lemma UnbindHash(st: State, v: string, total: int, s: string)
    requires st.Consistent(total) && v in st.sessions && s in st.sessions && s != v
    ensures HashOf(st.Unbind(v), s) == HashOf(st, s) && s in st.Unbind(v).sessions
    ensures st.Unbind(v).sessions[s] == st.sessions[s] != st.sessions[v]
  {
    OneSlotEach(st, total, s);
  }

  lemma AcquireSetsHash(st: State, u: Use, total: int, st': State, s: string)
    requires total >= 1 && st.Consistent(total) && u.Acquired? && Does(st, u, total, st') && s in st'.sessions
    ensures SetsHash(st, u, total, st', s)
  {
    var t, p, now := u.session, u.prefixHash, u.time;
    var slot, reused :| Acquires(st, t, p, now, total, st', slot, reused);
    if t in st.sessions {
      RenewHash(st, t, now, p, total, s);
    } else if !st.Full(total) {
      BindHash(st, t, slot, now, p, s);
    } else {
      var v :| st.Oldest(v) && slot == st.sessions[v] && st' == st.Unbind(v).Bind(t, slot, now, p);
      if s != t { UnbindHash(st, v, total, s); }
      BindHash(st.Unbind(v), t, slot, now, p, s);
    }
  }

  lemma AcquireAtSetsHash(st: State, u: Use, total: int, st': State, s: string)
    requires total >= 1 && st.Consistent(total) && u.AcquiredAt? && Does(st, u, total, st') && s in st'.sessions
    ensures SetsHash(st, u, total, st', s)
  {
    if s in st.sessions { OneSlotEach(st, total, s); }
  }

  /** A use gives its hash to its own session, if it is not empty, and leaves every other binding its own. */
  lemma UseSetsHash(st: State, u: Use, total: int, st': State, s: string)
    requires total >= 1 && st.Consistent(total) && Does(st, u, total, st') && s in st'.sessions
    ensures SetsHash(st, u, total, st', s)
  {
    if u.Acquired? {
      AcquireSetsHash(st, u, total, st', s);
    } else if u.AcquiredAt? {
      AcquireAtSetsHash(st, u, total, st', s);
    } else if s in st.sessions {
      OneSlotEach(st, total, s);
    }
  }

  lemma OneSlotEach(st: State, total: int, s: string)
    requires st.Consistent(total) && s in st.sessions
    ensures forall t :: t in st.sessions && t != s ==> st.sessions[t] != st.sessions[s]
  {
    forall t | t in st.sessions && t != s ensures st.sessions[t] != st.sessions[s] {
      assert st.slots[st.sessions[t]].session == t;
    }
  }

  /** Over every run a held session carries the last non-empty hash it gave since it was bound. */
  lemma {:induction false} HeldHash(states: seq<State>, uses: seq<Use>, total: int, s: string, b: nat, n: nat)
    requires total >= 1 && UseRun(states, uses, total) && BoundSince(states, s, b, n)
    ensures HashOf(states[n], s) == LastGiven(uses, total, s, b, n)
  {
    RunSetsHash(states, uses, total, n - 1, s);
    if n - 1 == b {
      FirstGiven(states[b], uses, total, states[n], s, b);
    } else {
      BoundEarlier(states, s, b, n);
      HeldHash(states, uses, total, s, b, n - 1);
      NextGiven(states[n - 1], uses, total, states[n], s, b, n - 1);
    }
  }

  lemma FirstGiven(st: State, uses: seq<Use>, total: int, st': State, s: string, b: nat)
    requires b < |uses| && s !in st.sessions && SetsHash(st, uses[b], total, st', s)
    ensures HashOf(st', s) == LastGiven(uses, total, s, b, b + 1)
  {
    assert LastGiven(uses, total, s, b, b) == "";
  }

  lemma NextGiven(st: State, uses: seq<Use>, total: int, st': State, s: string, b: nat, n: nat)
    requires b < n < |uses| && s in st.sessions && SetsHash(st, uses[n], total, st', s)
    requires HashOf(st, s) == LastGiven(uses, total, s, b, n)
    ensures HashOf(st', s) == LastGiven(uses, total, s, b, n + 1)
  {
  }

  lemma RunSetsHash(states: seq<State>, uses: seq<Use>, total: int, n: nat, s: string)
    requires total >= 1 && UseRun(states, uses, total) && n < |uses| && s in states[n + 1].sessions
    ensures SetsHash(states[n], uses[n], total, states[n + 1], s)
  {
    UseRunConsistent(states, uses, total, n);
    UseSetsHash(states[n], uses[n], total, states[n + 1], s);
  }

  lemma BoundEarlier(states: seq<State>, s: string, b: nat, n: nat)
    requires BoundSince(states, s, b, n) && b < n - 1
    ensures BoundSince(states, s, b, n - 1) && s in states[n - 1].sessions
  {
  }

  /**
   Over every run: by a request for a particular slot, another session loses its binding exactly when
   the slot asked for is its own, the requester holds none, and the requester gives the hash, not the
   empty one, that the binding carries; the requester holds the slot then.
   */
  lemma TakenOverExactly(states: seq<State>, uses: seq<Use>, total: int, s: string, b: nat, n: nat)
    requires total >= 1 && UseRun(states, uses, total) && n < |uses| && BoundSince(states, s, b, n)
    requires uses[n].AcquiredAt? && uses[n].session != s
    ensures var u := uses[n];
            && (s !in states[n + 1].sessions <==>
                  && states[n].sessions[s] == u.slot && u.session !in states[n].sessions
                  && u.prefixHash != "" && u.prefixHash == LastGiven(uses, total, s, b, n))
            && (s !in states[n + 1].sessions ==>
                  u.session in states[n + 1].sessions && states[n + 1].sessions[u.session] == u.slot)
  {
    UseRunConsistent(states, uses, total, n);
    HeldHash(states, uses, total, s, b, n);
    OneSlotEach(states[n], total, s);
  }

  /** While it is held, a session never moves to another slot. */
  lemma SlotStays(states: seq<State>, uses: seq<Use>, total: int, n: nat, s: string)
    requires total >= 1 && UseRun(states, uses, total) && n < |uses|
    requires s in states[n].sessions && s in states[n + 1].sessions
    ensures states[n + 1].sessions[s] == states[n].sessions[s]
  {
    UseRunConsistent(states, uses, total, n);
    StaysPut(states[n], uses[n], total, states[n + 1], s);
  }

  lemma StaysPut(st: State, u: Use, total: int, st': State, s: string)
    requires st.Consistent(total) && Does(st, u, total, st') && s in st.sessions && s in st'.sessions
    ensures st'.sessions[s] == st.sessions[s]
  {
    if u.Acquired? {
      var slot, reused :| Acquires(st, u.session, u.prefixHash, u.time, total, st', slot, reused);
    }
  }

  /** A session that holds no slot gets the one it asks for exactly when it exists and is free or taken over. */
  lemma GrantedExactly(states: seq<State>, uses: seq<Use>, total: int, n: nat)
    requires total >= 1 && UseRun(states, uses, total) && n < |uses|
    requires uses[n].AcquiredAt? && uses[n].session !in states[n].sessions
    ensures var u := uses[n]; var held := u.session in states[n + 1].sessions;
            && (held <==>
                  && 0 <= u.slot < total
                  && forall s :: s in states[n].sessions && states[n].sessions[s] == u.slot ==>
                       s !in states[n + 1].sessions)
            && (held ==> states[n + 1].sessions[u.session] == u.slot)
            && (!held ==> states[n + 1] == states[n])
  {
    UseRunConsistent(states, uses, total, n);
  }
}
