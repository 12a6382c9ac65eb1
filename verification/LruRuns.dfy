/** Runs of acquires: the registry holds the most recently acquired sessions. */
module LruRuns {
  import opened Recency
  import opened SlotRegistry
  import opened Sets

  datatype Call = Call(session: string, prefixHash: string, time: real)

  ghost function Sessions(calls: seq<Call>): seq<string> {
    seq(|calls|, i requires 0 <= i < |calls| => calls[i].session)
  }

  ghost predicate AcquireStep(st: State, c: Call, total: int, st': State) {
    exists slot, reused :: Acquires(st, c.session, c.prefixHash, c.time, total, st', slot, reused)
  }

  /** `states` are the contents before and after each call, from an empty registry and a strictly increasing clock. */
  ghost predicate Run(states: seq<State>, calls: seq<Call>, total: int) {
    && |states| == |calls| + 1 && states[0] == NOTHING_BOUND
    && (forall i, j :: 0 <= i < j < |calls| ==> calls[i].time < calls[j].time)
    && (forall i {:trigger calls[i]} :: 0 <= i < |calls| ==> AcquireStep(states[i], calls[i], total, states[i + 1]))
  }

  ghost function LastUse(st: State, s: string): real {
    if s in st.sessions && st.sessions[s] in st.slots then st.slots[st.sessions[s]].lastUsed else 0.0
  }

  ghost predicate InUseOrder(st: State, r: seq<string>) {
    forall i, j :: 0 <= i < j < |r| ==> LastUse(st, r[i]) < LastUse(st, r[j])
  }

  /** The sessions held are exactly those of `r`, in order of use, all used by `clock`. */
  ghost predicate HoldsExactly(st: State, r: seq<string>, clock: real) {
    && (forall s :: s in st.sessions <==> s in r)
    && (forall s :: s in st.sessions ==> st.sessions[s] in st.slots && LastUse(st, s) <= clock)
    && InUseOrder(st, r)
  }

  // ---- Counting ----

  lemma {:induction false} NoDupSize<T>(s: seq<T>)
    requires NoDup(s)
    ensures |set x | x in s| == |s|
  {
    if s != [] {
      var s' := s[..|s| - 1];
      NoDupSize(s');
      assert s == s' + [s[|s| - 1]];
      assert (set x | x in s) == (set x | x in s') + {s[|s| - 1]};
    }
  }

  ghost function Range(n: nat): (r: set<int>)
    ensures forall k :: k in r <==> 0 <= k < n
    ensures |r| == n
  {
    if n == 0 then {} else Range(n - 1) + {n - 1}
  }

  lemma CountBound(q: seq<int>, total: nat)
    requires NoDup(q) && forall k <- q :: 0 <= k < total
    ensures |q| <= total
    ensures |q| == total <==> forall k :: 0 <= k < total ==> k in q
  {
    var ks := set k | k in q;
    NoDupSize(q);
    SubsetCount(ks, Range(total));
    if ks == Range(total) {
      forall k | 0 <= k < total ensures k in q { assert k in Range(total); }
    } else {
      var k :| k in Range(total) && k !in ks;
    }
  }

  /** The slots held, listed in the order of their sessions. */
  lemma SlotsOf(st: State, r: seq<string>, total: int) returns (q: seq<int>)
    requires st.Consistent(total) && NoDup(r) && forall s :: s in st.sessions <==> s in r
    ensures |q| == |r| && NoDup(q)
    ensures forall k :: k in q <==> k in st.slots
    ensures forall k <- q :: 0 <= k < total
  {
    q := seq(|r|, i requires 0 <= i < |r| => st.sessions[r[i]]);
    forall i, j | 0 <= i < j < |q| ensures q[i] != q[j] {
      assert st.slots[q[i]].session == r[i] && st.slots[q[j]].session == r[j];
    }
    forall k | k in st.slots ensures k in q {
      var i :| 0 <= i < |r| && r[i] == st.slots[k].session;
      assert q[i] == k;
    }
  }

  /** All slots are bound iff as many sessions are held as there are slots. */
  lemma FullIffCount(st: State, r: seq<string>, total: int)
    requires total >= 0 && st.Consistent(total) && NoDup(r) && forall s :: s in st.sessions <==> s in r
    ensures |r| <= total
    ensures st.Full(total) <==> |r| == total
  {
    var q := SlotsOf(st, r, total);
    CountBound(q, total);
  }

  // ---- One acquire ----

  /** Removing an element keeps the rest in order. */
  lemma {:induction false} RemoveKeepsOrder(st: State, r: seq<string>, x: string)
    requires InUseOrder(st, r)
    ensures InUseOrder(st, Remove(r, x))
  {
    if r != [] {
      var rest := Remove(r[1..], x);
      RemoveKeepsOrder(st, r[1..], x);
      RemoveMembers(r[1..], x);
      forall j | 0 <= j < |rest| ensures LastUse(st, r[0]) < LastUse(st, rest[j]) {
        assert rest[j] in rest;
        var k :| 0 <= k < |r[1..]| && r[1..][k] == rest[j];
      }
    }
  }

  /** A use by `v` leaves the times of the other sessions alone. */
  lemma RenewTimes(st: State, v: string, now: real, prefixHash: string, total: int)
    requires st.Consistent(total) && v in st.sessions
    ensures var st' := st.Renew(st.sessions[v], now, prefixHash);
            LastUse(st', v) == now && forall s :: s in st.sessions && s != v ==> LastUse(st', s) == LastUse(st, s)
  {
    forall s | s in st.sessions && s != v ensures st.sessions[s] != st.sessions[v] {
      assert st.slots[st.sessions[s]].session == s;
    }
  }

  /** Unchanged times keep an order. */
  lemma OrderKept(st: State, st': State, r: seq<string>)
    requires InUseOrder(st, r) && forall s <- r :: LastUse(st', s) == LastUse(st, s)
    ensures InUseOrder(st', r)
  {
    forall i, j | 0 <= i < j < |r| ensures LastUse(st', r[i]) < LastUse(st', r[j]) {
      assert r[i] in r && r[j] in r;
    }
  }

  /** A session used later than all others comes last. */
  lemma LatestLast(st: State, r: seq<string>, s: string, clock: real)
    requires InUseOrder(st, r) && (forall t <- r :: LastUse(st, t) <= clock) && clock < LastUse(st, s)
    ensures InUseOrder(st, r + [s])
  {
    forall i | 0 <= i < |r| ensures LastUse(st, r[i]) < LastUse(st, s) { assert r[i] in r; }
  }

  lemma HitStep(st: State, r: seq<string>, clock: real, c: Call, total: int, st': State)
    requires st.Consistent(total) && HoldsExactly(st, r, clock) && NoDup(r) && clock < c.time
    requires c.session in st.sessions && AcquireStep(st, c, total, st')
    ensures HoldsExactly(st', Touch(r, c.session), c.time)
  {
    var rest := Remove(r, c.session);
    RemoveMembers(r, c.session);
    RemoveKeepsOrder(st, r, c.session);
    RenewTimes(st, c.session, c.time, c.prefixHash, total);
    assert st' == st.Renew(st.sessions[c.session], c.time, c.prefixHash);
    OrderKept(st, st', rest);
    LatestLast(st', rest, c.session, clock);
  }

  lemma TakeFreeStep(st: State, r: seq<string>, clock: real, c: Call, k: int, total: int)
    requires st.Consistent(total) && HoldsExactly(st, r, clock) && clock < c.time
    requires c.session !in st.sessions && k !in st.slots
    ensures HoldsExactly(st.Bind(c.session, k, c.time, c.prefixHash), r + [c.session], c.time)
  {
  }

  lemma OldestIsFirst(st: State, r: seq<string>, clock: real, v: string)
    requires HoldsExactly(st, r, clock) && st.Oldest(v)
    ensures r != [] && v == r[0]
  {
    var i :| 0 <= i < |r| && r[i] == v;
    assert r[0] in st.sessions;
  }

  lemma RestMembers<T>(r: seq<T>)
    requires NoDup(r) && r != []
    ensures forall s :: s in r[1..] <==> s in r && s != r[0]
  {
    assert r == [r[0]] + r[1..];
  }

  /** Unbinding a session leaves the times of the others alone. */
  lemma UnbindTimes(st: State, v: string, total: int)
    requires st.Consistent(total) && v in st.sessions
    ensures forall s :: s in st.sessions && s != v ==>
      && st.Unbind(v).sessions[s] in st.Unbind(v).slots && LastUse(st.Unbind(v), s) == LastUse(st, s)
  {
    forall s | s in st.sessions && s != v ensures st.sessions[s] != st.sessions[v] {
      assert st.slots[st.sessions[s]].session == s;
    }
  }

  lemma RestInOrder(st: State, r: seq<string>)
    requires InUseOrder(st, r) && r != []
    ensures InUseOrder(st, r[1..])
  {
  }

  lemma DropFirst(st: State, r: seq<string>, clock: real, total: int)
    requires st.Consistent(total) && HoldsExactly(st, r, clock) && NoDup(r) && r != []
    ensures HoldsExactly(st.Unbind(r[0]), r[1..], clock)
  {
    RestMembers(r);
    UnbindTimes(st, r[0], total);
    RestInOrder(st, r);
    OrderKept(st, st.Unbind(r[0]), r[1..]);
  }

  lemma MissStep(st: State, r: seq<string>, clock: real, c: Call, total: int, st': State)
    requires total >= 1 && st.Consistent(total) && HoldsExactly(st, r, clock) && NoDup(r) && clock < c.time
    requires c.session !in st.sessions && AcquireStep(st, c, total, st')
    ensures |r| <= total
    ensures HoldsExactly(st', (if |r| == total then r[1..] else r) + [c.session], c.time)
  {
    FullIffCount(st, r, total);
    var k, reused :| Acquires(st, c.session, c.prefixHash, c.time, total, st', k, reused);
    if st.Full(total) {
      var v :| st.Oldest(v) && k == st.sessions[v] && st' == st.Unbind(v).Bind(c.session, k, c.time, c.prefixHash);
      OldestIsFirst(st, r, clock, v);
      DropFirst(st, r, clock, total);
      ReleaseConsistent(st, v, total);
      TakeFreeStep(st.Unbind(v), r[1..], clock, c, k, total);
    } else {
      TakeFreeStep(st, r, clock, c, k, total);
    }
  }

  /** One acquire, on the trimmed recency list of the calls so far. */
  lemma AcquireAdvances(st: State, log: seq<string>, clock: real, c: Call, total: int, st': State)
    requires total >= 1 && st.Consistent(total) && HoldsExactly(st, Last(Recent(log), total), clock) && clock < c.time
    requires AcquireStep(st, c, total, st')
    ensures st'.Consistent(total) && HoldsExactly(st', Last(Recent(log + [c.session]), total), c.time)
  {
    var r := Last(Recent(log), total);
    RecentMembers(log);
    LastNoDup(Recent(log), total);
    RecentBatch(log, [c.session], total);
    var slot, reused :| Acquires(st, c.session, c.prefixHash, c.time, total, st', slot, reused);
    AcquiresConsistent(st, c.session, c.prefixHash, c.time, total, st', slot, reused);
    if c.session in st.sessions {
      HitStep(st, r, clock, c, total, st');
      TouchHit(r, c.session, total);
    } else {
      MissStep(st, r, clock, c, total, st');
      TouchMiss(r, c.session, total);
    }
  }

  /** The registry after a run holds exactly the latest `total` distinct sessions, in order of use. */
  lemma {:induction false} HoldsMostRecent(states: seq<State>, calls: seq<Call>, total: int, clock: real)
    requires total >= 1 && Run(states, calls, total) && forall c <- calls :: c.time <= clock
    ensures states[|calls|].Consistent(total)
    ensures HoldsExactly(states[|calls|], Last(Recent(Sessions(calls)), total), clock)
    decreases |calls|
  {
    if calls != [] {
      var n := |calls| - 1;
      var before := TimeBetween(states, calls, total);
      RunInit(states, calls, total);
      HoldsMostRecent(states[..|calls|], calls[..n], total, before);
      SessionsInit(calls);
      assert AcquireStep(states[n], calls[n], total, states[n + 1]);
      AcquireAdvances(states[n], Sessions(calls[..n]), before, calls[n], total, states[n + 1]);
    }
  }

  lemma SessionsInit(calls: seq<Call>)
    requires calls != []
    ensures Sessions(calls) == Sessions(calls[..|calls| - 1]) + [calls[|calls| - 1].session]
  {
  }

  lemma RunInit(states: seq<State>, calls: seq<Call>, total: int)
    requires Run(states, calls, total) && calls != []
    ensures Run(states[..|calls|], calls[..|calls| - 1], total)
  {
    var ss, cs := states[..|calls|], calls[..|calls| - 1];
    forall i | 0 <= i < |cs| ensures AcquireStep(ss[i], cs[i], total, ss[i + 1]) {
      assert ss[i] == states[i] && ss[i + 1] == states[i + 1] && cs[i] == calls[i];
    }
  }

  /** A time between a run's last call and the calls before it. */
  lemma TimeBetween(states: seq<State>, calls: seq<Call>, total: int) returns (before: real)
    requires Run(states, calls, total) && calls != []
    ensures (forall c <- calls[..|calls| - 1] :: c.time <= before) && before < calls[|calls| - 1].time
  {
    var n := |calls| - 1;
    before := if n == 0 then calls[n].time - 1.0 else calls[n - 1].time;
  }
}
