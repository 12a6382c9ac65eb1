/** The same uses on registries of different sizes: what the smaller one holds, the larger one holds. */
module RegistrySizes {
  import opened Options
  import opened SlotRegistry
  import opened Sets
  import opened LruRuns
  import opened RegistryRuns

  ghost function Free(st: State, total: int): set<int> {
    set k | 0 <= k < total && k !in st.slots
  }

  /** The larger registry holds at least the same sessions with the same times, and has at least as many free slots. */
  ghost predicate Within(st: State, m: int, bt: State, n: int) {
    && (forall s :: s in st.sessions ==> s in bt.sessions && LastUse(st, s) == LastUse(bt, s))
    && |Free(st, m)| <= |Free(bt, n)|
  }

  ghost predicate TimesDiffer(st: State) {
    forall s, t :: s in st.sessions && t in st.sessions && s != t ==> LastUse(st, s) != LastUse(st, t)
  }

  // ---- Free slots ----

  lemma FullIffNoneFree(st: State, total: int)
    ensures st.Full(total) <==> |Free(st, total)| == 0
  {
    if |Free(st, total)| == 0 {
      forall k | 0 <= k < total ensures k in st.slots { assert k !in Free(st, total); }
    }
  }

  lemma BindTakesOne(st: State, s: string, k: int, now: real, prefixHash: string, total: int)
    requires 0 <= k < total && k !in st.slots
    ensures |Free(st, total)| >= 1 && |Free(st.Bind(s, k, now, prefixHash), total)| == |Free(st, total)| - 1
  {
    assert k in Free(st, total) && Free(st.Bind(s, k, now, prefixHash), total) == Free(st, total) - {k};
  }

  lemma UnbindFreesOne(st: State, s: string, total: int)
    requires st.Consistent(total) && s in st.sessions
    ensures |Free(st.Unbind(s), total)| == |Free(st, total)| + 1
  {
    var k := st.sessions[s];
    assert k !in Free(st, total) && Free(st.Unbind(s), total) == Free(st, total) + {k};
  }

  lemma RenewKeepsFree(st: State, k: int, now: real, prefixHash: string, total: int)
    ensures Free(st.Renew(k, now, prefixHash), total) == Free(st, total)
  {
  }

  // ---- What one use does to the sessions held and to the free slots ----

  /** An acquire by a session that holds no slot takes a free slot, or that of `victim` when none is free. */
  ghost predicate Takes(st: State, s: string, total: int, st': State, victim: Option<string>) {
    if victim == None then
      && |Free(st, total)| >= 1 && |Free(st', total)| == |Free(st, total)| - 1
      && st'.sessions.Keys == st.sessions.Keys + {s}
    else
      && |Free(st, total)| == 0 && |Free(st', total)| == 0 && st.Oldest(victim.value)
      && st'.sessions.Keys == st.sessions.Keys - {victim.value} + {s}
  }

  lemma MissTakes(st: State, c: Call, total: int, st': State) returns (victim: Option<string>)
    requires st.Consistent(total) && c.session !in st.sessions && AcquireStep(st, c, total, st')
    ensures Takes(st, c.session, total, st', victim)
  {
    var k, reused :| Acquires(st, c.session, c.prefixHash, c.time, total, st', k, reused);
    FullIffNoneFree(st, total);
    victim := None;
    if !st.Full(total) {
      BindTakesOne(st, c.session, k, c.time, c.prefixHash, total);
    } else {
      var v :| st.Oldest(v) && k == st.sessions[v] && st' == st.Unbind(v).Bind(c.session, k, c.time, c.prefixHash);
      UnbindFreesOne(st, v, total);
      BindTakesOne(st.Unbind(v), c.session, k, c.time, c.prefixHash, total);
      victim := Some(v);
    }
  }

  /** A hit or a lookup renews at most a time. */
  lemma UseOfHeld(st: State, u: Use, total: int, st': State)
    requires st.Consistent(total) && Does(st, u, total, st')
    ensures u.LookedUp? || (u.Acquired? && u.session in st.sessions) ==>
      st'.sessions == st.sessions && Free(st', total) == Free(st, total)
    ensures u.Released? && u.session !in st.sessions ==> st' == st
    ensures u.Released? && u.session in st.sessions ==>
      st'.sessions.Keys == st.sessions.Keys - {u.session} && |Free(st', total)| == |Free(st, total)| + 1
  {
    match u
    case Acquired(s, p, now) =>
      if s in st.sessions {
        var k, reused :| Acquires(st, s, p, now, total, st', k, reused);
        RenewKeepsFree(st, st.sessions[s], now, p, total);
      }
    case AcquiredAt(_, _, _, _) =>
    case LookedUp(s, now) => if s in st.sessions { RenewKeepsFree(st, st.sessions[s], now, "", total); }
    case Released(s, _) => if s in st.sessions { UnbindFreesOne(st, s, total); }
  }

  // ---- Inclusion ----

  /** When both sizes evict, and the larger one's victim is held by the smaller one, it is the victim there, too. */
  lemma SameVictim(st: State, m: int, bt: State, n: int, v: string, w: string)
    requires st.Consistent(m) && bt.Consistent(n) && Within(st, m, bt, n) && TimesDiffer(st)
    requires st.Oldest(v) && bt.Oldest(w) && w in st.sessions
    ensures v == w
  {
    assert LastUse(bt, w) <= LastUse(bt, v);
    assert LastUse(st, v) <= LastUse(st, w);
  }

  lemma AcquireKeepsWithin(st: State, m: int, bt: State, n: int, c: Call, st': State, bt': State)
    requires st.Consistent(m) && bt.Consistent(n) && Within(st, m, bt, n) && TimesDiffer(st)
    requires c.session !in st.sessions && c.session !in bt.sessions
    requires AcquireStep(st, c, m, st') && AcquireStep(bt, c, n, bt')
    ensures st'.sessions.Keys <= bt'.sessions.Keys && |Free(st', m)| <= |Free(bt', n)|
  {
    var v := MissTakes(st, c, m, st');
    var w := MissTakes(bt, c, n, bt');
    if v.Some? && w.Some? && w.value in st.sessions { SameVictim(st, m, bt, n, v.value, w.value); }
  }

  /** One use other than `acquire_at` on both. */
  lemma UseKeepsWithin(st: State, m: int, bt: State, n: int, u: Use, st': State, bt': State)
    requires m >= 1 && n >= 1 && st.Consistent(m) && bt.Consistent(n) && Within(st, m, bt, n) && TimesDiffer(st)
    requires !u.AcquiredAt? && Does(st, u, m, st') && Does(bt, u, n, bt')
    ensures Within(st', m, bt', n)
  {
    UseOfHeld(st, u, m, st');
    UseOfHeld(bt, u, n, bt');
    if u.Acquired? && u.session !in st.sessions {
      var c := Call(u.session, u.prefixHash, u.time);
      if u.session in bt.sessions {
        var v := MissTakes(st, c, m, st');
      } else {
        AcquireKeepsWithin(st, m, bt, n, c, st', bt');
      }
    }
    assert st'.sessions.Keys <= bt'.sessions.Keys && |Free(st', m)| <= |Free(bt', n)|;
    forall s | s in st'.sessions ensures s in bt'.sessions && LastUse(st', s) == LastUse(bt', s) {
      UseSetsTime(st, u, m, st', s);
      UseSetsTime(bt, u, n, bt', s);
    }
  }

  /** Two held sessions were last used by different calls. */
  lemma RunTimesDiffer(states: seq<State>, uses: seq<Use>, total: int, n: nat)
    requires total >= 1 && UseRun(states, uses, total) && n <= |uses|
    ensures TimesDiffer(states[n])
  {
    forall s, t | s in states[n].sessions && t in states[n].sessions && s != t
      ensures LastUse(states[n], s) != LastUse(states[n], t)
    {
      var i := HeldSinceLastUse(states, uses, total, n, s);
      var j := HeldSinceLastUse(states, uses, total, n, t);
      if uses[i].time == uses[j].time {
        EarlierUse(uses, total, n, s, i, t, j);
        EarlierUse(uses, total, n, t, j, s, i);
      }
    }
  }

  /**
   Over every run of acquires, lookups and releases: whatever a registry of `m` slots holds, a larger
   one holds with the same time of use, so a hit with `m` slots is a hit with any larger number.
   */
  lemma {:induction false} HitsGrowWithSlots(small: seq<State>, big: seq<State>, uses: seq<Use>, m: int, n: int, i: nat)
    requires 1 <= m <= n && i <= |uses| && UseRun(small, uses, m) && UseRun(big, uses, n)
    requires forall u <- uses :: !u.AcquiredAt?
    ensures Within(small[i], m, big[i], n)
  {
    if i == 0 {
      SubsetCount(Free(NOTHING_BOUND, m), Free(NOTHING_BOUND, n));
    } else {
      HitsGrowWithSlots(small, big, uses, m, n, i - 1);
      UseRunConsistent(small, uses, m, i - 1);
      UseRunConsistent(big, uses, n, i - 1);
      RunTimesDiffer(small, uses, m, i - 1);
      assert uses[i - 1] in uses;
      UseKeepsWithin(small[i - 1], m, big[i - 1], n, uses[i - 1], small[i], big[i]);
    }
  }

  // ---- A hinted slot breaks the inclusion ----

  const HINTED: seq<Use> :=
    [Acquired("a", "", 0.0), Acquired("b", "", 1.0), Released("b", 2.0), AcquiredAt("c", "", 3.0, 0)]

  lemma TakesFirst(st: State, s: string, now: real, k: int, total: int)
    requires s !in st.sessions && st.FirstFree(k, total)
    ensures Does(st, Acquired(s, "", now), total, st.Bind(s, k, now, ""))
  {
    assert Acquires(st, s, "", now, total, st.Bind(s, k, now, ""), k, false);
  }

  lemma Replaces(st: State, v: string, s: string, now: real, total: int)
    requires s !in st.sessions && st.Full(total) && total >= 1 && st.Oldest(v)
    ensures Does(st, Acquired(s, "", now), total, st.Unbind(v).Bind(s, st.sessions[v], now, ""))
  {
    assert Acquires(st, s, "", now, total, st.Unbind(v).Bind(s, st.sessions[v], now, ""), st.sessions[v], false);
  }

  ghost const ONE := NOTHING_BOUND.Bind("a", 0, 0.0, "")

  lemma OneSlotHolds() returns (small: seq<State>)
    ensures UseRun(small, HINTED, 1) && "c" in small[4].sessions
  {
    TakesFirst(NOTHING_BOUND, "a", 0.0, 0, 1);
    var replaced := ONE.Unbind("a").Bind("b", 0, 1.0, "");
    Replaces(ONE, "a", "b", 1.0, 1);
    var emptied := replaced.Unbind("b");
    assert Does(emptied, HINTED[3], 1, emptied.Bind("c", 0, 3.0, ""));
    small := [NOTHING_BOUND, ONE, replaced, emptied, emptied.Bind("c", 0, 3.0, "")];
  }

  lemma TwoSlotsRefuse() returns (big: seq<State>)
    ensures UseRun(big, HINTED, 2) && "c" !in big[4].sessions
  {
    TakesFirst(NOTHING_BOUND, "a", 0.0, 0, 2);
    var two := ONE.Bind("b", 1, 1.0, "");
    TakesFirst(ONE, "b", 1.0, 1, 2);
    assert Does(two.Unbind("b"), HINTED[3], 2, two.Unbind("b"));
    big := [NOTHING_BOUND, ONE, two, two.Unbind("b"), two.Unbind("b")];
  }

  /** The hint is free with one slot and taken with two, so the smaller registry holds a session the larger refused. */
  lemma HintsBreakInclusion() returns (small: seq<State>, big: seq<State>)
    ensures UseRun(small, HINTED, 1) && UseRun(big, HINTED, 2)
    ensures "c" in small[4].sessions && "c" !in big[4].sessions
  {
    small := OneSlotHolds();
    big := TwoSlotsRefuse();
  }
}
