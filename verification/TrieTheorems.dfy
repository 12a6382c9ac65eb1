/** What the slot index promises over every run of inserts, invalidations and expiry. */
module TrieTheorems {
  import opened Options
  import opened TokenChunks
  import opened PrefixHistory
  import opened FlatTrie

  const EMPTY_TRIE: Flat := map[[] := Entry(None, 0.0, [])]

  ghost function Step(m: Flat, e: Event, ttl: real): Flat {
    match e
    case Inserted(ids, slot, now) => Inserted'(m, ids, slot, now, ttl)
    case Invalidated(slot) => Pruned(m, slot)
  }

  /** The contents after a run. */
  ghost function Run(h: seq<Event>, ttl: real): Flat {
    if h == [] then EMPTY_TRIE else Step(Run(h[..|h| - 1], ttl), h[|h| - 1], ttl)
  }

  lemma RunSnoc(h: seq<Event>, e: Event, ttl: real)
    ensures Run(h + [e], ttl) == Step(Run(h, ttl), e, ttl)
  {
    assert (h + [e])[..|h|] == h;
  }

  lemma MonotoneSnoc(h: seq<Event>, clock: real, e: Event)
    requires MonotoneTimes(h, clock) && e.Inserted? && clock <= e.time
    ensures MonotoneTimes(h + [e], e.time)
  {
  }

  /** Every reachable trie is coherent with its log. */
  lemma {:induction false} RunCoherent(h: seq<Event>, clock: real, ttl: real)
    requires MonotoneTimes(h, clock)
    ensures Coherent(Run(h, ttl), h, clock, ttl)
  {
    if h == [] {
      EmptyCoherent(clock, ttl);
    } else {
      var h', e := h[..|h| - 1], h[|h| - 1];
      assert h == h' + [e];
      match e
      case Invalidated(s) =>
        RunCoherent(h', clock, ttl);
        PrunedCoherent(Run(h', ttl), h', clock, ttl, s);
      case Inserted(ids, s, now) =>
        RunCoherent(h', now, ttl);
        if ids != [] { InsertedCoherent(Run(h', ttl), h', now, ttl, ids, s, now); }
        else { EmptyInsertCoherent(Run(h', ttl), h', now, ttl, s); }
        LaterClock(Run(h, ttl), h, now, clock, ttl);
    }
  }

  /** ... and prefix closed, whatever the clock did. */
  lemma {:induction false} RunClosed(h: seq<Event>, ttl: real)
    ensures PrefixClosed(Run(h, ttl))
  {
    if h != [] {
      RunClosed(h[..|h| - 1], ttl);
      StepClosed(Run(h[..|h| - 1], ttl), h[|h| - 1], ttl);
    }
  }

  lemma StepClosed(m: Flat, e: Event, ttl: real)
    requires PrefixClosed(m)
    ensures PrefixClosed(Step(m, e, ttl))
  {
    if e.Inserted? && e.ids != [] {
      InsertingClosed(m, e.ids, e.slot, e.time);
      ExpiredClosed(Inserting(m, e.ids, e.slot, e.time), e.time, ttl);
    }
  }

  lemma EmptyInsertCoherent(m: Flat, h: seq<Event>, now: real, ttl: real, slot: int)
    requires Coherent(m, h, now, ttl)
    ensures Coherent(m, h + [Event.Inserted([], slot, now)], now, ttl)
  {
    var e := Event.Inserted([], slot, now);
    assert (h + [e])[..|h|] == h;
    assert Tail(e.ids) == [];
    TailsGrow(m, h, e);
  }

  lemma LaterClock(m: Flat, h: seq<Event>, clock: real, later: real, ttl: real)
    requires Coherent(m, h, clock, ttl) && clock <= later
    ensures Coherent(m, h, later, ttl)
  {
  }

  /** The contents are those after the run of the log, on a clock that never ran back. */
  ghost predicate Logged(m: Flat, log: seq<Event>, clock: real, ttl: real) {
    m == Run(log, ttl) && MonotoneTimes(log, clock)
  }

  lemma LogInserted(m: Flat, log: seq<Event>, clock: real, ttl: real, ids: seq<Token>, slot: int, now: real)
    requires Logged(m, log, clock, ttl) && clock <= now
    ensures Logged(Inserted'(m, ids, slot, now, ttl), log + [Event.Inserted(ids, slot, now)], now, ttl)
  {
    RunSnoc(log, Event.Inserted(ids, slot, now), ttl);
    MonotoneSnoc(log, clock, Event.Inserted(ids, slot, now));
  }

  /** An invalidation in the log is the clearing of the whole tree. */
  lemma LogPruned(m: Flat, log: seq<Event>, slot: int, clock: real, ttl: real)
    requires Logged(m, log, clock, ttl)
    ensures Logged(Pruned(m, slot), log + [Invalidated(slot)], clock, ttl)
  {
    RunSnoc(log, Invalidated(slot), ttl);
  }

  // ---- The aligned walk refines the log ----

  /** Beyond the walk's depth the trie has no prefix of the path. */
  lemma PastDepth(m: Flat, c: Path, j: nat)
    requires PrefixClosed(m) && Depth(m, c, 0) < j <= |c|
    ensures c[..j] !in m
  {
    if c[..j] in m { ClosedPath(m, c, j, Depth(m, c, 0) + 1); }
  }

  lemma LiveMeansFresh(m: Flat, h: seq<Event>, clock: real, ttl: real, p: Path, s: int, now: real)
    requires Coherent(m, h, clock, ttl) && clock <= now && p != []
    ensures Live(h, p, s, now, ttl) <==> p in m && m[p].Fresh(now, ttl) && m[p].slot == Some(s)
  {
    LiveIsHolder(h, p, s, now, ttl);
  }

  lemma {:induction false} BestIsLongest(m: Flat, h: seq<Event>, clock: real, ttl: real, c: Path, d: nat, now: real)
    requires Coherent(m, h, clock, ttl) && clock <= now && d <= |c|
    requires forall j, s :: d < j <= |c| ==> !Live(h, c[..j], s, now, ttl)
    ensures LongestLive(h, c, now, ttl, Best(m, c, d, now, ttl).0, Best(m, c, d, now, ttl).1)
  {
    if d > 0 {
      if c[..d] in m && m[c[..d]].Fresh(now, ttl) {
        LiveMeansFresh(m, h, clock, ttl, c[..d], m[c[..d]].slot.value, now);
      } else {
        forall s ensures !Live(h, c[..d], s, now, ttl) {
          LiveMeansFresh(m, h, clock, ttl, c[..d], s, now);
        }
        BestIsLongest(m, h, clock, ttl, c, d - 1, now);
      }
    }
  }

  /** The aligned walk answers with the longest live chunk prefix of the query. */
  lemma AlignedIsLongestLive(h: seq<Event>, clock: real, ttl: real, c: Path, now: real)
    requires MonotoneTimes(h, clock) && clock <= now
    ensures [] in Run(h, ttl)
    ensures var r := Aligned(Run(h, ttl), c, now, ttl); LongestLive(h, c, now, ttl, r.0, r.1)
  {
    RunCoherent(h, clock, ttl);
    var m := Run(h, ttl);
    var d := Depth(m, c, 0);
    forall j, s | d < j <= |c|
      ensures !Live(h, c[..j], s, now, ttl)
    {
      LiveMeansFresh(m, h, clock, ttl, c[..j], s, now);
      PastDepth(m, c, j);
    }
    BestIsLongest(m, h, clock, ttl, c, d, now);
  }

  /** A live prefix of the query is shared, token for token, with the sequence inserted last through it. */
  lemma LiveIsShared(h: seq<Event>, q: seq<Token>, k: nat, s: int, now: real, ttl: real) returns (i: nat)
    requires k <= |FullChunks(q)| && Live(h, FullChunks(q)[..k], s, now, ttl)
    ensures LatestInsert(h, FullChunks(q)[..k], i) && h[i].slot == s && SharePrefix(q, h[i].ids, k * CHUNK_SIZE)
  {
    i :| LatestInsert(h, FullChunks(q)[..k], i) && h[i].slot == s;
    SharedChunks(q, h[i].ids, k);
  }

  // ---- Expiry loses nothing live ----

  lemma DoomedStaysUnfresh(m: Flat, p: Path, now: real, later: real, ttl: real)
    requires ParentsNewer(m) && p in m && Doomed(m, 0, p, now, ttl) && now <= later
    ensures !m[p].Fresh(later, ttl)
  {
    var i :| 0 < i <= |p| && p[..i] in m && m[p[..i]].Stale(now, ttl);
    assert m[p[..i]].lastUsed >= m[p].lastUsed;
  }

  ghost predicate SameFresh(m: Flat, m': Flat, p: Path, now: real, ttl: real) {
    var f := p in m && m[p].Fresh(now, ttl);
    f == (p in m' && m'[p].Fresh(now, ttl)) && (f ==> m[p] == m'[p])
  }

  lemma {:induction false} BestSame(m: Flat, m': Flat, c: Path, d: nat, now: real, ttl: real)
    requires d <= |c| && forall k :: 0 < k <= d ==> SameFresh(m, m', c[..k], now, ttl)
    ensures Best(m, c, d, now, ttl) == Best(m', c, d, now, ttl)
  {
    if d > 0 {
      assert SameFresh(m, m', c[..d], now, ttl);
      BestSame(m, m', c, d - 1, now, ttl);
    }
  }

  lemma {:induction false} BestPad(m: Flat, c: Path, d': nat, d: nat, now: real, ttl: real)
    requires d' <= d <= |c| && forall k :: d' < k <= d ==> c[..k] !in m
    ensures Best(m, c, d, now, ttl) == Best(m, c, d', now, ttl)
  {
    if d' < d { BestPad(m, c, d', d - 1, now, ttl); }
  }

  /** Deleting stale subtrees changes no aligned answer, now or later. */
  lemma ExpiryUnobservable(m: Flat, c: Path, now: real, later: real, ttl: real)
    requires PrefixClosed(m) && ParentsNewer(m) && now <= later
    ensures [] in Expired(m, now, ttl)
    ensures Aligned(Expired(m, now, ttl), c, later, ttl) == Aligned(m, c, later, ttl)
  {
    var m' := Expired(m, now, ttl);
    var d, d' := Depth(m, c, 0), Depth(m', c, 0);
    forall k | 0 < k <= d
      ensures SameFresh(m, m', c[..k], later, ttl)
    {
      if Doomed(m, 0, c[..k], now, ttl) { DoomedStaysUnfresh(m, c[..k], now, later, ttl); }
    }
    BestSame(m, m', c, d, later, ttl);
    ExpiredClosed(m, now, ttl);
    assert d' <= d;
    forall k | d' < k <= d ensures c[..k] !in m' { PastDepth(m', c, k); }
    BestPad(m', c, d', d, later, ttl);
  }

  /** ... and every entry it deletes has run out. */
  lemma ExpiryDropsOnlyExpired(h: seq<Event>, clock: real, ttl: real, now: real, p: Path)
    requires MonotoneTimes(h, clock) && clock <= now
    requires p in Run(h, ttl) && p !in Expired(Run(h, ttl), now, ttl)
    ensures now - Run(h, ttl)[p].lastUsed > ttl
  {
    RunCoherent(h, clock, ttl);
    CoherentParentsNewer(Run(h, ttl), h, clock, ttl);
    var i :| 0 < i <= |p| && p[..i] in Run(h, ttl) && Run(h, ttl)[p[..i]].Stale(now, ttl);
  }

  /** After an insert no node with a slot is past its TTL, but for the root. */
  lemma NothingStaleAfterInsert(h: seq<Event>, ids: seq<Token>, s: int, now: real, ttl: real, p: Path)
    requires ids != [] && p != [] && p in Run(h + [Event.Inserted(ids, s, now)], ttl)
    ensures var e := Run(h + [Event.Inserted(ids, s, now)], ttl)[p]; e.slot.Some? ==> now - e.lastUsed <= ttl
  {
    RunSnoc(h, Event.Inserted(ids, s, now), ttl);
    assert p[..|p|] == p;
  }

  // ---- Which tail a node holds ----

  /** A step writes a tail where it leaves one and moves no other. */
  lemma StepTail(m: Flat, e: Event, ttl: real, p: Path)
    requires p in Step(m, e, ttl)
    ensures Step(m, e, ttl)[p].tail == if LeavesTail(e, p) then Tail(e.ids) else OldTail(m, p)
  {
  }

  /** The node of `p` has been in the trie ever since event `i`. */
  ghost predicate StaysSince(h: seq<Event>, ttl: real, p: Path, i: nat) {
    forall j :: i < j <= |h| ==> p in Run(h[..j], ttl)
  }

  lemma StaysNext(h: seq<Event>, ttl: real, p: Path, i: nat)
    requires h != [] && i < |h| - 1
    ensures StaysSince(h, ttl, p, i) <==> StaysSince(h[..|h| - 1], ttl, p, i) && p in Run(h, ttl)
  {
    var h' := h[..|h| - 1];
    assert h[..|h|] == h;
    assert forall j :: 0 <= j <= |h'| ==> h'[..j] == h[..j];
  }

  /** A node that was in the trie all the while holds the tail last left at it; once gone, it comes back without one. */
  lemma {:induction false} TailHeldExactly(h: seq<Event>, ttl: real, p: Path, i: nat)
    requires LeftTail(h, p, i)
    ensures OldTail(Run(h, ttl), p) == if StaysSince(h, ttl, p, i) then Tail(h[i].ids) else []
  {
    var h', e := h[..|h| - 1], h[|h| - 1];
    assert h[..|h|] == h;
    if p in Run(h, ttl) { StepTail(Run(h', ttl), e, ttl, p); }
    if i < |h| - 1 {
      assert LeftTail(h', p, i);
      TailHeldExactly(h', ttl, p, i);
      StaysNext(h, ttl, p, i);
    }
  }

  // ---- Read your writes ----

  /** The node of `c` is as an insert at `t` left it, and every shorter node was used since. */
  ghost predicate Owns(m: Flat, c: Path, s: int, t: real, tail: seq<Token>) {
    && c in m && m[c] == Entry(Some(s), t, tail)
    && forall k :: 0 < k <= |c| ==> c[..k] in m && m[c[..k]].lastUsed >= t
  }

  ghost function TailAfter(m: Flat, ids: seq<Token>): seq<Token> {
    if Tail(ids) == [] then OldTail(m, FullChunks(ids)) else Tail(ids)
  }

  lemma OwnsNotDoomed(m: Flat, c: Path, k: nat, s: int, t: real, tail: seq<Token>, now: real, ttl: real)
    requires Owns(m, c, s, t, tail) && now - t <= ttl && k <= |c|
    ensures !Doomed(m, 0, c[..k], now, ttl)
  {
    forall i | 0 < i <= k
      ensures c[..k][..i] in m && !m[c[..k][..i]].Stale(now, ttl)
    {
      assert c[..k][..i] == c[..i];
    }
  }

  lemma OwnsExpired(m: Flat, c: Path, s: int, t: real, tail: seq<Token>, now: real, ttl: real)
    requires Owns(m, c, s, t, tail) && now - t <= ttl
    ensures Owns(Expired(m, now, ttl), c, s, t, tail)
  {
    forall k | 0 <= k <= |c|
      ensures c[..k] in m ==> c[..k] in Expired(m, now, ttl)
    {
      OwnsNotDoomed(m, c, k, s, t, tail, now, ttl);
    }
    assert c == c[..|c|];
  }

  lemma InsertOwns(m: Flat, ids: seq<Token>, s: int, t: real, ttl: real)
    requires ids != [] && 0.0 <= ttl
    ensures Owns(Inserted'(m, ids, s, t, ttl), FullChunks(ids), s, t, TailAfter(m, ids))
  {
    var c := FullChunks(ids);
    assert c == c[..|c|];
    assert forall k :: 0 < k <= |c| ==> c[..k] in Prefixes(c);
    if c == [] { assert ids == Tail(ids); }
    OwnsExpired(Inserting(m, ids, s, t), c, s, t, TailAfter(m, ids), t, ttl);
  }

  /** The insert writes the node of `c`: it passes through it or, at the root, ends there. */
  ghost predicate Touches(ids: seq<Token>, c: Path) {
    ids != [] && if c == [] then FullChunks(ids) == [] else c <= FullChunks(ids)
  }

  /** A later event that leaves the node of `c` to slot `s`; it may share any proper part of the path. */
  ghost predicate Apart(e: Event, c: Path, s: int) {
    match e
    case Inserted(ids, _, _) => !Touches(ids, c)
    case Invalidated(x) => x != s
  }

  lemma InsertKeepsOwner(m: Flat, ids: seq<Token>, x: int, at: real, c: Path, s: int, t: real, tail: seq<Token>)
    requires Owns(m, c, s, t, tail) && ids != [] && !Touches(ids, c) && t <= at
    ensures Owns(Inserting(m, ids, x, at), c, s, t, tail)
  {
    var c2 := FullChunks(ids);
    PrefixesAre(c2, c);
    assert c == c[..|c|];
    assert c2 == c2[..|c2|];
  }

  lemma ApartKeeps(m: Flat, e: Event, c: Path, s: int, t: real, tail: seq<Token>, now: real, ttl: real)
    requires Owns(m, c, s, t, tail) && Apart(e, c, s) && now - t <= ttl
    requires e.Inserted? ==> t <= e.time <= now
    ensures Owns(Step(m, e, ttl), c, s, t, tail)
  {
    if e.Inserted? && e.ids != [] {
      InsertKeepsOwner(m, e.ids, e.slot, e.time, c, s, t, tail);
      OwnsExpired(Inserting(m, e.ids, e.slot, e.time), c, s, t, tail, e.time, ttl);
    }
  }

  lemma {:induction false} RunKeepsOwner(h: seq<Event>, rest: seq<Event>, c: Path, s: int, t: real, tail: seq<Token>,
    now: real, ttl: real)
    requires Owns(Run(h, ttl), c, s, t, tail) && now - t <= ttl
    requires forall e <- rest :: Apart(e, c, s) && (e.Inserted? ==> t <= e.time <= now)
    ensures Owns(Run(h + rest, ttl), c, s, t, tail)
  {
    if rest == [] {
      assert h + rest == h;
    } else {
      var r', e := rest[..|rest| - 1], rest[|rest| - 1];
      RunKeepsOwner(h, r', c, s, t, tail, now, ttl);
      assert h + rest == h + r' + [e];
      RunSnoc(h + r', e, ttl);
      ApartKeeps(Run(h + r', ttl), e, c, s, t, tail, now, ttl);
    }
  }

  lemma {:induction false} DepthFull(m: Flat, c: Path, k: nat)
    requires k <= |c| && forall j :: k <= j <= |c| ==> c[..j] in m
    ensures Depth(m, c, k) == |c|
    decreases |c| - k
  {
    if k < |c| { DepthFull(m, c, k + 1); }
  }

  lemma {:induction false} CommonSelf(a: seq<Token>)
    ensures CommonLen(a, a) == |a|
  {
  }

  /** A query that ends at an owned node is answered there. */
  lemma OwnerReads(m: Flat, q: seq<Token>, s: int, t: real, tail: seq<Token>, now: real, ttl: real)
    requires q != [] && PrefixClosed(m) && Owns(m, FullChunks(q), s, t, tail)
    ensures var c := FullChunks(q);
            Match(m, q, now, ttl) == TailStep(Entry(Some(s), t, tail), Tail(q), |c| * CHUNK_SIZE,
              Best(m, c, |c|, now, ttl), now, ttl)
  {
    var c := FullChunks(q);
    assert c == c[..|c|];
    forall j | 0 <= j <= |c| ensures c[..j] in m { ClosedDown(m, c, j); }
    DepthFull(m, c, 0);
  }

  lemma OwnerAnswers(m: Flat, q: seq<Token>, s: int, t: real, tail: seq<Token>, now: real, ttl: real)
    requires q != [] && PrefixClosed(m) && Owns(m, FullChunks(q), s, t, tail) && now - t <= ttl
    ensures var c := FullChunks(q);
            Match(m, q, now, ttl) == TailStep(Entry(Some(s), t, tail), Tail(q), |c| * CHUNK_SIZE,
              if c == [] then (None, 0) else (Some(s), |c| * CHUNK_SIZE), now, ttl)
  {
    assert FullChunks(q) == FullChunks(q)[..|FullChunks(q)|];
    OwnerReads(m, q, s, t, tail, now, ttl);
  }

  lemma OwnerMatches(m: Flat, ids: seq<Token>, s: int, t: real, tail: seq<Token>, now: real, ttl: real)
    requires ids != [] && PrefixClosed(m) && Owns(m, FullChunks(ids), s, t, tail) && now - t <= ttl
    requires Tail(ids) != [] ==> tail == Tail(ids)
    ensures Match(m, ids, now, ttl) == (Some(s), if Tail(ids) == [] then |ids| + |tail| else |ids|)
  {
    OwnerAnswers(m, ids, s, t, tail, now, ttl);
    CommonSelf(tail);
    assert |ids| == |FullChunks(ids)| * CHUNK_SIZE + |Tail(ids)|;
  }

  /** A match returns the slot, with the exact length or with the tail an older insert left in `before` added to it. */
  ghost predicate ReadsBack(m: Flat, before: Flat, ids: seq<Token>, s: int, now: real, ttl: real) {
    var older := OldTail(before, FullChunks(ids));
    [] in m && Match(m, ids, now, ttl) == (Some(s), if Tail(ids) == [] then |ids| + |older| else |ids|)
  }

  lemma WriterMatches(m: Flat, before: Flat, ids: seq<Token>, s: int, t: real, now: real, ttl: real)
    requires ids != [] && PrefixClosed(m) && Owns(m, FullChunks(ids), s, t, TailAfter(before, ids)) && now - t <= ttl
    ensures ReadsBack(m, before, ids, s, now, ttl)
  {
    OwnerMatches(m, ids, s, t, TailAfter(before, ids), now, ttl);
  }

  lemma WriteOwns(h: seq<Event>, ids: seq<Token>, s: int, t: real, rest: seq<Event>, now: real, ttl: real)
    requires ids != [] && t <= now && now - t <= ttl
    requires forall e <- rest :: Apart(e, FullChunks(ids), s) && (e.Inserted? ==> t <= e.time <= now)
    ensures Owns(Run(h + [Event.Inserted(ids, s, t)] + rest, ttl), FullChunks(ids), s, t, TailAfter(Run(h, ttl), ids))
  {
    var h1 := h + [Event.Inserted(ids, s, t)];
    RunSnoc(h, Event.Inserted(ids, s, t), ttl);
    InsertOwns(Run(h, ttl), ids, s, t, ttl);
    RunKeepsOwner(h1, rest, FullChunks(ids), s, t, TailAfter(Run(h, ttl), ids), now, ttl);
  }

  lemma TimesAfter(h: seq<Event>, e: Event, rest: seq<Event>, clock: real)
    requires MonotoneTimes(h + [e] + rest, clock) && e.Inserted?
    ensures e.time <= clock && forall x <- rest :: x.Inserted? ==> e.time <= x.time <= clock
  {
    var all := h + [e] + rest;
    assert all[|h|] == e;
    forall j | 0 <= j < |rest| ensures rest[j] == all[|h| + 1 + j] {}
  }

  lemma StillOwns(h: seq<Event>, ids: seq<Token>, s: int, t: real, rest: seq<Event>, clock: real, now: real, ttl: real)
    requires MonotoneTimes(h + [Event.Inserted(ids, s, t)] + rest, clock) && clock <= now
    requires ids != [] && now - t <= ttl
    requires forall e <- rest :: Apart(e, FullChunks(ids), s)
    ensures Owns(Run(h + [Event.Inserted(ids, s, t)] + rest, ttl), FullChunks(ids), s, t, TailAfter(Run(h, ttl), ids))
  {
    TimesAfter(h, Event.Inserted(ids, s, t), rest, clock);
    WriteOwns(h, ids, s, t, rest, now, ttl);
  }

  /**
   After an insert of `ids`, and any later events that do not write its last node or invalidate its
   slot, a match of `ids` within the TTL returns that slot. The length is exact unless `ids` is
   chunk-aligned and its last node still carries the tail of an older, longer insert.
   */
  lemma ReadYourWrites(h: seq<Event>, ids: seq<Token>, s: int, t: real, rest: seq<Event>, clock: real, now: real,
    ttl: real)
    requires MonotoneTimes(h + [Event.Inserted(ids, s, t)] + rest, clock) && clock <= now
    requires ids != [] && now - t <= ttl
    requires forall e <- rest :: Apart(e, FullChunks(ids), s)
    ensures ReadsBack(Run(h + [Event.Inserted(ids, s, t)] + rest, ttl), Run(h, ttl), ids, s, now, ttl)
  {
    var m := Run(h + [Event.Inserted(ids, s, t)] + rest, ttl);
    RunClosed(h + [Event.Inserted(ids, s, t)] + rest, ttl);
    StillOwns(h, ids, s, t, rest, clock, now, ttl);
    WriterMatches(m, Run(h, ttl), ids, s, t, now, ttl);
  }

  // ---- Tails ----

  ghost predicate SomeInsertShares(h: seq<Event>, q: seq<Token>, n: nat) {
    exists i :: 0 <= i < |h| && h[i].Inserted? && SharePrefix(h[i].ids, q, n)
  }

  /** The branch that appends a node's tail although the query has none. */
  ghost predicate AppendsTail(m: Flat, q: seq<Token>)
    requires [] in m
  {
    var c := FullChunks(q);
    var e := m[c[..Depth(m, c, 0)]];
    e.tail != [] && Tail(q) == [] && e.slot.Some?
  }

  ghost predicate AllChunksFound(m: Flat, q: seq<Token>)
    requires [] in m
  {
    Depth(m, FullChunks(q), 0) == |FullChunks(q)|
  }

  ghost predicate TailTaken(m: Flat, q: seq<Token>, now: real, ttl: real)
    requires [] in m
  {
    var c := FullChunks(q);
    var e := m[c[..Depth(m, c, 0)]];
    AppendsTail(m, q) || (CommonLen(e.tail, Tail(q)) > 0 && e.Fresh(now, ttl))
  }

  /** What the tail counts agrees with the query right after the last chunk found. */
  ghost predicate TailAgrees(m: Flat, q: seq<Token>)
    requires [] in m
  {
    var c := FullChunks(q);
    var d := Depth(m, c, 0);
    var tail, rest := m[c[..d]].tail, q[d * CHUNK_SIZE..];
    if Tail(q) == [] then tail <= rest else CommonLen(tail, rest) >= CommonLen(tail, Tail(q))
  }

  /** A node and its tail spell the first tokens of the sequence that left the tail. */
  lemma TailSource(m: Flat, h: seq<Event>, p: Path) returns (i: nat)
    requires TailsGenuine(m, h) && p in m && m[p].tail != []
    ensures LeftTail(h, p, i) && h[i].ids == Flatten(p) + m[p].tail && |m[p].tail| < CHUNK_SIZE
  {
    i :| LeftTail(h, p, i) && Tail(h[i].ids) == m[p].tail;
    SplitRoundTrip(h[i].ids);
  }

  /** The reported length exceeds the query exactly when the whole query was found and a tail was appended. */
  lemma OverlongExactly(h: seq<Event>, clock: real, q: seq<Token>, now: real, ttl: real)
    requires MonotoneTimes(h, clock)
    ensures [] in Run(h, ttl)
    ensures Match(Run(h, ttl), q, now, ttl).1 > |q|
      <==> q != [] && AllChunksFound(Run(h, ttl), q) && AppendsTail(Run(h, ttl), q)
  {
    RunCoherent(h, clock, ttl);
    var m := Run(h, ttl);
    if q != [] {
      var c := FullChunks(q);
      var d := Depth(m, c, 0);
      BestBound(m, c, d, now, ttl);
      if m[c[..d]].tail != [] { var i := TailSource(m, h, c[..d]); }
    }
  }

  lemma {:induction false} BestBound(m: Flat, c: Path, d: nat, now: real, ttl: real)
    requires d <= |c|
    ensures Best(m, c, d, now, ttl).1 <= d * CHUNK_SIZE
  {
    if d > 0 { BestBound(m, c, d - 1, now, ttl); }
  }

  lemma CommonIsPrefix(a: seq<Token>, b: seq<Token>)
    ensures CommonLen(a, b) >= |a| <==> a <= b
  {
    var n := CommonLen(a, b);
    if n == |a| { assert a[..n] == a; }
  }

  /**
   When a tail decides the answer, the tokens counted agree with the sequence that left the tail
   exactly when the tail agrees with the query right after the last chunk found.
   */
  lemma TailAnswerExactly(h: seq<Event>, clock: real, q: seq<Token>, now: real, ttl: real) returns (i: nat)
    requires MonotoneTimes(h, clock) && q != [] && [] in Run(h, ttl) && TailTaken(Run(h, ttl), q, now, ttl)
    ensures var m := Run(h, ttl); var p := FullChunks(q)[..Depth(m, FullChunks(q), 0)];
            && LeftTail(h, p, i) && m[p].tail == Tail(h[i].ids) && h[i].ids == Flatten(p) + m[p].tail
            && Match(m, q, now, ttl).1
              == |p| * CHUNK_SIZE + (if Tail(q) == [] then |Tail(h[i].ids)| else CommonLen(Tail(h[i].ids), Tail(q)))
            && (SharePrefix(h[i].ids, q, Match(m, q, now, ttl).1) <==> TailAgrees(m, q))
  {
    RunCoherent(h, clock, ttl);
    var m, c := Run(h, ttl), FullChunks(q);
    var d := Depth(m, c, 0);
    var at := d * CHUNK_SIZE;
    var e := m[c[..d]];
    i := TailSource(m, h, c[..d]);
    FlattenTake(q, d);
    var n := Match(m, q, now, ttl).1;
    var w := h[i].ids;
    assert w[..at] == q[..at];
    assert w[at..] == e.tail;
    SharePastCommon(w, q, at, n);
    CommonIsPrefix(e.tail, q[at..]);
  }

  /** Given `at` shared tokens, `n >= at` are shared iff the remainders agree that far. */
  lemma SharePastCommon(w: seq<Token>, q: seq<Token>, at: nat, n: nat)
    requires at <= |w| && at <= |q| && w[..at] == q[..at] && at <= n
    ensures SharePrefix(w, q, n) <==> at + CommonLen(w[at..], q[at..]) >= n
  {
    var k := CommonLen(w[at..], q[at..]);
    assert forall j :: 0 <= j < k ==> w[at..][..k][j] == q[at..][..k][j];
    if at + k < n {
      if n <= |w| && n <= |q| {
        assert w[at..][k] != q[at..][k];
        assert w[..n][at + k] != q[..n][at + k];
      }
    } else {
      forall j | 0 <= j < n
        ensures w[j] == q[j]
      {
        if j < at { assert w[..at][j] == q[..at][j]; } else { assert w[at..][..k][j - at] == q[at..][..k][j - at]; }
      }
    }
  }

  lemma SharedTail(w: seq<Token>, q: seq<Token>, n: nat)
    requires FullChunks(w) == FullChunks(q) && SharePrefix(w, q, n)
    ensures |FullChunks(q)| * CHUNK_SIZE + CommonLen(Tail(w), Tail(q)) >= n
  {
    var at := |FullChunks(q)| * CHUNK_SIZE;
    var k := CommonLen(Tail(w), Tail(q));
    assert Tail(w) == w[at..] && Tail(q) == q[at..];
    forall j | 0 <= j < n - at ensures Tail(w)[j] == Tail(q)[j] { assert w[..n][at + j] == q[..n][at + j]; }
  }

  /**
   A query whose last full chunk is at a fresh node is answered with no less than what it shares with
   the last insert to leave a tail there.
   */
  lemma MatchCoversTail(h: seq<Event>, q: seq<Token>, i: nat, n: nat, now: real, ttl: real)
    requires q != [] && LeftTail(h, FullChunks(q), i) && StaysSince(h, ttl, FullChunks(q), i)
    requires FullChunks(q) in Run(h, ttl) && Run(h, ttl)[FullChunks(q)].Fresh(now, ttl)
    requires SharePrefix(h[i].ids, q, n)
    ensures [] in Run(h, ttl) && (n > 0 ==> Match(Run(h, ttl), q, now, ttl).0.Some?)
    ensures Match(Run(h, ttl), q, now, ttl).1 >= n
  {
    var m, c := Run(h, ttl), FullChunks(q);
    RunClosed(h, ttl);
    TailHeldExactly(h, ttl, c, i);
    assert c[..|c|] == c;
    forall j | 0 <= j <= |c| ensures c[..j] in m { ClosedDown(m, c, j); }
    DepthFull(m, c, 0);
    SharedTail(h[i].ids, q, n);
  }

  ghost predicate RootSays(m: Flat, h: seq<Event>) {
    && [] in m
    && (m[[]].slot.Some? ==> exists i :: LeftTail(h, [], i) && m[[]].slot == Some(h[i].slot))
  }

  lemma RootKept(m: Flat, e: Event, ttl: real)
    requires [] in m
    ensures [] in Step(m, e, ttl)
    ensures var r := Step(m, e, ttl)[[]].slot;
            r.Some? ==> r == if LeavesTail(e, []) then Some(e.slot) else m[[]].slot
  {
  }

  lemma RootNext(m: Flat, h: seq<Event>, e: Event, ttl: real)
    requires RootSays(m, h)
    ensures RootSays(Step(m, e, ttl), h + [e])
  {
    RootKept(m, e, ttl);
    if LeavesTail(e, []) {
      assert LeftTail(h + [e], [], |h|);
    } else if m[[]].slot.Some? {
      var i :| LeftTail(h, [], i) && m[[]].slot == Some(h[i].slot);
      assert LeftTail(h + [e], [], i);
    }
  }

  /** The root's slot is that of the last insert to leave a tail there. */
  lemma {:induction false} RootHolder(h: seq<Event>, ttl: real)
    ensures RootSays(Run(h, ttl), h)
  {
    if h != [] {
      RootHolder(h[..|h| - 1], ttl);
      RootNext(Run(h[..|h| - 1], ttl), h[..|h| - 1], h[|h| - 1], ttl);
      assert h == h[..|h| - 1] + [h[|h| - 1]];
    }
  }

  /** At another node it is that of the last insert through the node. */
  lemma NodeHolder(m: Flat, h: seq<Event>, clock: real, ttl: real, p: Path) returns (k: nat)
    requires Coherent(m, h, clock, ttl) && p in m && p != [] && m[p].slot.Some?
    ensures LatestInsert(h, p, k) && m[p].slot == Some(h[k].slot)
  {
    k := HolderHasLatest(h, p);
    LatestDecidesHolder(h, p, k);
  }

  /**
   The slot a tail answers with is not that of insert `i`, which left the tail, but that of insert
   `k`, the last through the node; only at the root are the two always the same.
   */
  lemma TailSlotExactly(h: seq<Event>, clock: real, q: seq<Token>, now: real, ttl: real) returns (i: nat, k: nat)
    requires MonotoneTimes(h, clock) && q != [] && [] in Run(h, ttl) && TailTaken(Run(h, ttl), q, now, ttl)
    ensures var m := Run(h, ttl); var p := FullChunks(q)[..Depth(m, FullChunks(q), 0)];
            && LeftTail(h, p, i) && (if p == [] then k == i else LatestInsert(h, p, k))
            && Match(m, q, now, ttl).0 == Some(h[k].slot)
  {
    RunCoherent(h, clock, ttl);
    var m, c := Run(h, ttl), FullChunks(q);
    var p := c[..Depth(m, c, 0)];
    i := TailSource(m, h, p);
    if p == [] {
      RootHolder(h, ttl);
      k :| LeftTail(h, p, k) && m[p].slot == Some(h[k].slot);
    } else {
      k := NodeHolder(m, h, clock, ttl, p);
    }
  }

  /**
   With every full chunk found, the common-tail branch counts only tokens shared with the sequence
   that left the tail, and answers with that sequence's slot unless another insert passed the node since.
   */
  lemma TailSound(h: seq<Event>, clock: real, q: seq<Token>, now: real, ttl: real) returns (i: nat, k: nat)
    requires MonotoneTimes(h, clock) && q != [] && Tail(q) != []
    requires [] in Run(h, ttl) && AllChunksFound(Run(h, ttl), q) && TailTaken(Run(h, ttl), q, now, ttl)
    ensures var (slot, n) := Match(Run(h, ttl), q, now, ttl); var c := FullChunks(q);
            && n <= |q| && LeftTail(h, c, i) && SharePrefix(h[i].ids, q, n)
            && (if c == [] then k == i else LatestInsert(h, c, k)) && slot == Some(h[k].slot)
  {
    var c := FullChunks(q);
    i := TailAnswerExactly(h, clock, q, now, ttl);
    var j;
    j, k := TailSlotExactly(h, clock, q, now, ttl);
    assert q[|c| * CHUNK_SIZE..] == Tail(q);
    assert c[..|c|] == c;
  }

  // ---- What a match answers ----

  /** Without a tail that decides, the answer is the longest live chunk prefix of the query, whatever its ending. */
  lemma MatchIsLongestLive(h: seq<Event>, clock: real, q: seq<Token>, now: real, ttl: real)
    requires MonotoneTimes(h, clock) && clock <= now
    ensures [] in Run(h, ttl)
    ensures var r := Match(Run(h, ttl), q, now, ttl);
            q != [] && !TailTaken(Run(h, ttl), q, now, ttl) ==> LongestLive(h, FullChunks(q), now, ttl, r.0, r.1)
  {
    AlignedIsLongestLive(h, clock, ttl, FullChunks(q), now);
  }

  lemma LiveIsFound(h: seq<Event>, clock: real, c: Path, k: nat, s: int, now: real, ttl: real)
    requires MonotoneTimes(h, clock) && clock <= now && 0 < k <= |c| && Live(h, c[..k], s, now, ttl)
    ensures [] in Run(h, ttl) && k <= Depth(Run(h, ttl), c, 0)
  {
    RunCoherent(h, clock, ttl);
    LiveMeansFresh(Run(h, ttl), h, clock, ttl, c[..k], s, now);
    if Depth(Run(h, ttl), c, 0) < k { PastDepth(Run(h, ttl), c, k); }
  }

  lemma LongestAtLeast(h: seq<Event>, c: Path, k: nat, s: int, now: real, ttl: real, slot: Option<int>, len: nat)
    requires 0 < k <= |c| && Live(h, c[..k], s, now, ttl) && LongestLive(h, c, now, ttl, slot, len)
    ensures slot.Some? && len >= k * CHUNK_SIZE
  {
  }

  /** A query is never answered with less than a live prefix it has, and never left without an answer then. */
  lemma MatchCoversLive(h: seq<Event>, clock: real, q: seq<Token>, k: nat, s: int, now: real, ttl: real)
    requires MonotoneTimes(h, clock) && clock <= now
    requires 0 < k <= |FullChunks(q)| && Live(h, FullChunks(q)[..k], s, now, ttl)
    ensures [] in Run(h, ttl)
    ensures var r := Match(Run(h, ttl), q, now, ttl); r.0.Some? && r.1 >= k * CHUNK_SIZE
  {
    LiveIsFound(h, clock, FullChunks(q), k, s, now, ttl);
    if !TailTaken(Run(h, ttl), q, now, ttl) {
      MatchIsLongestLive(h, clock, q, now, ttl);
      var r := Match(Run(h, ttl), q, now, ttl);
      LongestAtLeast(h, FullChunks(q), k, s, now, ttl, r.0, r.1);
    }
  }

  // ---- Expired answers ----

  /** The appended tail is that of a node whose time has run out. */
  ghost predicate AppendsStale(m: Flat, q: seq<Token>, now: real, ttl: real)
    requires [] in m
  {
    var c := FullChunks(q);
    AppendsTail(m, q) && !m[c[..Depth(m, c, 0)]].Fresh(now, ttl)
  }

  lemma {:induction false} BestIsFresh(m: Flat, c: Path, d: nat, now: real, ttl: real) returns (k: nat)
    requires d <= |c| && Best(m, c, d, now, ttl).0.Some?
    ensures 0 < k <= d && c[..k] in m && m[c[..k]].Fresh(now, ttl)
    ensures Best(m, c, d, now, ttl) == (m[c[..k]].slot, k * CHUNK_SIZE)
  {
    if c[..d] in m && m[c[..d]].Fresh(now, ttl) { k := d; } else { k := BestIsFresh(m, c, d - 1, now, ttl); }
  }

  /** The node whose slot is answered lies as many chunks down as the answer's length has. */
  lemma AnswerNode(m: Flat, h: seq<Event>, q: seq<Token>, now: real, ttl: real)
    requires [] in m && TailsGenuine(m, h) && Match(m, q, now, ttl).0.Some?
    ensures var (slot, n) := Match(m, q, now, ttl); var c := FullChunks(q);
            && n / CHUNK_SIZE <= |c| && c[..n / CHUNK_SIZE] in m && m[c[..n / CHUNK_SIZE]].slot == slot
            && (m[c[..n / CHUNK_SIZE]].Fresh(now, ttl) <==> !AppendsStale(m, q, now, ttl))
  {
    var c := FullChunks(q);
    var d := Depth(m, c, 0);
    var e := m[c[..d]];
    if e.tail != [] { var i := TailSource(m, h, c[..d]); }
    if !TailTaken(m, q, now, ttl) { var k := BestIsFresh(m, c, d, now, ttl); }
  }

  /**
   The slot answered is live for the chunks its length spans, unless a tail is appended at a node whose
   time has run out; then it is not.
   */
  lemma ExpiredAnswerExactly(h: seq<Event>, clock: real, q: seq<Token>, now: real, ttl: real)
    requires MonotoneTimes(h, clock) && clock <= now
    ensures [] in Run(h, ttl)
    ensures var (slot, n) := Match(Run(h, ttl), q, now, ttl); var c := FullChunks(q);
            slot.Some? ==>
              && n / CHUNK_SIZE <= |c|
              && (n >= CHUNK_SIZE ==> (Live(h, c[..n / CHUNK_SIZE], slot.value, now, ttl)
                                       <==> !AppendsStale(Run(h, ttl), q, now, ttl)))
  {
    RunCoherent(h, clock, ttl);
    var m := Run(h, ttl);
    var (slot, n) := Match(m, q, now, ttl);
    if slot.Some? {
      AnswerNode(m, h, q, now, ttl);
      if n >= CHUNK_SIZE { LiveMeansFresh(m, h, clock, ttl, FullChunks(q)[..n / CHUNK_SIZE], slot.value, now); }
    }
  }

  // ---- Where matches mislead ----

  ghost predicate SomeInsertSharesFor(h: seq<Event>, s: int, q: seq<Token>, n: nat) {
    exists i :: 0 <= i < |h| && h[i].Inserted? && h[i].slot == s && SharePrefix(h[i].ids, q, n)
  }

  lemma Listed<T>(x: T, y: T)
    ensures [] + [x] == [x] && [x] + [y] == [x, y]
  {
  }

  lemma ChunkSplit(a: Chunk, x: Token)
    requires |a| == CHUNK_SIZE
    ensures FullChunks(a) == [a] && Tail(a) == [] && FullChunks(a + [x]) == [a] && Tail(a + [x]) == [x]
    ensures FullChunks([x]) == [] && Tail([x]) == [x]
  {
    assert a[0..CHUNK_SIZE] == a && (a + [x])[0..CHUNK_SIZE] == a;
    assert FullChunks(a)[0] == a && FullChunks(a + [x])[0] == a;
    assert (a + [x])[CHUNK_SIZE..] == [x];
  }

  lemma FirstInsert(ids: seq<Token>, s: int)
    requires ids != []
    ensures var m := Run([Event.Inserted(ids, s, 0.0)], 10.0);
            PrefixClosed(m) && Owns(m, FullChunks(ids), s, 0.0, Tail(ids))
  {
    var e := Event.Inserted(ids, s, 0.0);
    Listed(e, e);
    RunSnoc([], e, 10.0);
    InsertOwns(EMPTY_TRIE, ids, s, 0.0, 10.0);
    RunClosed([e], 10.0);
  }

  /** A short insert leaves no node but the root. */
  lemma OnlyRoot(x: Token, c: Path)
    requires |c| == 1 && FullChunks([x]) == []
    ensures [] in Run([Event.Inserted([x], 3, 0.0)], 10.0)
    ensures Depth(Run([Event.Inserted([x], 3, 0.0)], 10.0), c, 0) == 0 && c[..0] == []
  {
    var e := Event.Inserted([x], 3, 0.0);
    Listed(e, e);
    RunSnoc([], e, 10.0);
    RunClosed([e], 10.0);
    assert c[..1] == c;
    PrefixesAre([], c);
  }

  lemma NothingShared(a: Chunk, x: Token)
    requires |a| == CHUNK_SIZE && a[0] != x
    ensures !SomeInsertShares([Event.Inserted([x], 3, 0.0)], a + [x], 1)
  {
    assert [x][..1][0] == x && (a + [x])[..1][0] == a[0];
  }

  lemma TailMisses(m: Flat, a: Chunk, x: Token)
    requires |a| == CHUNK_SIZE && a[0] != x && [] in m && m[[]] == Entry(Some(3), 0.0, [x])
    requires Depth(m, [a], 0) == 0 && [a][..0] == []
    ensures Match(m, a + [x], 0.0, 10.0) == (Some(3), 1) && !TailAgrees(m, a + [x])
  {
    ChunkSplit(a, x);
    CommonSelf([x]);
    assert (a + [x])[0..][0] == a[0];
  }

  /** A one-token tail at the root answers a query that shares nothing: its first chunk was not found. */
  lemma TailUnsound(a: Chunk, x: Token)
    requires |a| == CHUNK_SIZE && a[0] != x
    ensures var h, q := [Event.Inserted([x], 3, 0.0)], a + [x];
            && [] in Run(h, 10.0) && Match(Run(h, 10.0), q, 0.0, 10.0) == (Some(3), 1)
            && !TailAgrees(Run(h, 10.0), q) && !SomeInsertShares(h, q, 1)
  {
    ChunkSplit(a, x);
    NothingShared(a, x);
    FirstInsert([x], 3);
    OnlyRoot(x, [a]);
    TailMisses(Run([Event.Inserted([x], 3, 0.0)], 10.0), a, x);
  }

  /** A query of one chunk is answered with sixty-five tokens, by an insert one token longer. */
  lemma Overlong(a: Chunk, x: Token)
    requires |a| == CHUNK_SIZE
    ensures var h := [Event.Inserted(a + [x], 1, 0.0)];
            [] in Run(h, 10.0) && Match(Run(h, 10.0), a, 0.0, 10.0) == (Some(1), |a| + 1)
  {
    ChunkSplit(a, x);
    FirstInsert(a + [x], 1);
    OwnerAnswers(Run([Event.Inserted(a + [x], 1, 0.0)], 10.0), a, 1, 0.0, [x], 0.0, 10.0);
  }

  /** Ninety seconds after the insert ran out, the appended tail still answers with its slot. */
  lemma ExpiredAnswer(a: Chunk, x: Token)
    requires |a| == CHUNK_SIZE
    ensures var h := [Event.Inserted(a + [x], 1, 0.0)];
            && [] in Run(h, 10.0) && Match(Run(h, 10.0), a, 100.0, 10.0) == (Some(1), |a| + 1)
            && !Live(h, [a], 1, 100.0, 10.0)
  {
    ChunkSplit(a, x);
    FirstInsert(a + [x], 1);
    OwnerReads(Run([Event.Inserted(a + [x], 1, 0.0)], 10.0), a, 1, 0.0, [x], 100.0, 10.0);
  }

  lemma TwoInserts(a: Chunk, x: Token)
    requires |a| == CHUNK_SIZE
    ensures var h := [Event.Inserted(a + [x], 1, 0.0), Event.Inserted(a, 2, 0.0)];
            PrefixClosed(Run(h, 10.0)) && Owns(Run(h, 10.0), [a], 2, 0.0, [x])
  {
    var first, second := Event.Inserted(a + [x], 1, 0.0), Event.Inserted(a, 2, 0.0);
    ChunkSplit(a, x);
    FirstInsert(a + [x], 1);
    Listed(first, second);
    RunSnoc([first], second, 10.0);
    InsertOwns(Run([first], 10.0), a, 2, 0.0, 10.0);
    RunClosed([first, second], 10.0);
  }

  lemma NothingSharedFor(a: Chunk, x: Token)
    ensures !SomeInsertSharesFor([Event.Inserted(a + [x], 1, 0.0), Event.Inserted(a, 2, 0.0)], 2, a + [x], |a| + 1)
  {
  }

  lemma TailFromAnother(m: Flat, a: Chunk, x: Token)
    requires |a| == CHUNK_SIZE && PrefixClosed(m) && Owns(m, [a], 2, 0.0, [x])
    ensures AllChunksFound(m, a + [x]) && Match(m, a + [x], 0.0, 10.0) == (Some(2), |a| + 1)
  {
    ChunkSplit(a, x);
    OwnerAnswers(m, a + [x], 2, 0.0, [x], 0.0, 10.0);
    CommonSelf([x]);
    assert [a][..0] == [] && [a][..1] == [a];
    DepthFull(m, [a], 0);
  }

  /** Even with every chunk found, the slot answered may never have been given the tokens counted. */
  lemma WrongSlot(a: Chunk, x: Token)
    requires |a| == CHUNK_SIZE
    ensures var h, q := [Event.Inserted(a + [x], 1, 0.0), Event.Inserted(a, 2, 0.0)], a + [x];
            && [] in Run(h, 10.0) && AllChunksFound(Run(h, 10.0), q)
            && Match(Run(h, 10.0), q, 0.0, 10.0) == (Some(2), |a| + 1) && !SomeInsertSharesFor(h, 2, q, |a| + 1)
  {
    NothingSharedFor(a, x);
    TwoInserts(a, x);
    TailFromAnother(Run([Event.Inserted(a + [x], 1, 0.0), Event.Inserted(a, 2, 0.0)], 10.0), a, x);
  }

  // ---- Invalidation ----

  ghost predicate NoSlot(m: Flat, s: int) {
    forall p :: p in m ==> m[p].slot != Some(s)
  }

  lemma {:induction false} InvalidatedStaysAway(h: seq<Event>, s: int, rest: seq<Event>, ttl: real)
    requires forall e <- rest :: e.Inserted? ==> e.slot != s
    ensures NoSlot(Run(h + [Invalidated(s)] + rest, ttl), s)
  {
    var h1 := h + [Invalidated(s)];
    if rest == [] {
      assert h1 + rest == h1 && h1[..|h1| - 1] == h;
    } else {
      var r', e := rest[..|rest| - 1], rest[|rest| - 1];
      InvalidatedStaysAway(h, s, r', ttl);
      assert (h1 + rest)[..|h1 + rest| - 1] == h1 + r';
      var m := Run(h1 + r', ttl);
      if e.Inserted? { assert NoSlot(Inserting(m, e.ids, e.slot, e.time), s); }
    }
  }

  lemma {:induction false} NoSlotNoAnswer(m: Flat, s: int, c: Path, d: nat, now: real, ttl: real)
    requires NoSlot(m, s) && d <= |c|
    ensures Best(m, c, d, now, ttl).0 != Some(s)
  {
    if d > 0 { NoSlotNoAnswer(m, s, c, d - 1, now, ttl); }
  }

  /** Until some later insert with the slot, no query at any time is answered with an invalidated slot. */
  lemma InvalidatedNeverReturned(h: seq<Event>, s: int, rest: seq<Event>, q: seq<Token>, now: real, ttl: real)
    requires forall e <- rest :: e.Inserted? ==> e.slot != s
    requires [] in Run(h + [Invalidated(s)] + rest, ttl)
    ensures Match(Run(h + [Invalidated(s)] + rest, ttl), q, now, ttl).0 != Some(s)
  {
    InvalidatedStaysAway(h, s, rest, ttl);
    var m, c := Run(h + [Invalidated(s)] + rest, ttl), FullChunks(q);
    NoSlotNoAnswer(m, s, c, Depth(m, c, 0), now, ttl);
  }

  /** Invalidating a slot takes away exactly the live paths it held. */
  lemma InvalidationExact(h: seq<Event>, s: int, p: Path, x: int, now: real, ttl: real)
    ensures Live(h + [Invalidated(s)], p, x, now, ttl) <==> x != s && Live(h, p, x, now, ttl)
  {
    var h' := h + [Invalidated(s)];
    assert h'[..|h'| - 1] == h;
    LiveIsHolder(h, p, x, now, ttl);
    LiveIsHolder(h', p, x, now, ttl);
  }

  /** `slot` and `len` describe the longest prefix of `c` that is live for another slot than `s`. */
  ghost predicate LongestElsewhere(h: seq<Event>, s: int, c: Path, now: real, ttl: real, slot: Option<int>, len: nat) {
    match slot
    case None => len == 0 && forall k, x :: 0 < k <= |c| && x != s ==> !Live(h, c[..k], x, now, ttl)
    case Some(y) =>
      exists k :: 0 < k <= |c| && len == k * CHUNK_SIZE && y != s && Live(h, c[..k], y, now, ttl)
        && forall j, x :: k < j <= |c| && x != s ==> !Live(h, c[..j], x, now, ttl)
  }

  lemma LongestAfterInvalidation(h: seq<Event>, s: int, c: Path, now: real, ttl: real, slot: Option<int>, len: nat)
    requires LongestLive(h + [Invalidated(s)], c, now, ttl, slot, len)
    ensures LongestElsewhere(h, s, c, now, ttl, slot, len)
  {
    forall p, x ensures Live(h + [Invalidated(s)], p, x, now, ttl) <==> x != s && Live(h, p, x, now, ttl) {
      InvalidationExact(h, s, p, x, now, ttl);
    }
  }

  /** After an invalidation the aligned answer is the longest live prefix held by another slot. */
  lemma AlignedAfterInvalidation(h: seq<Event>, clock: real, ttl: real, s: int, c: Path, now: real)
    requires MonotoneTimes(h, clock) && clock <= now
    ensures [] in Run(h, ttl)
    ensures var r := Aligned(Pruned(Run(h, ttl), s), c, now, ttl); LongestElsewhere(h, s, c, now, ttl, r.0, r.1)
  {
    var h' := h + [Invalidated(s)];
    assert h'[..|h'| - 1] == h;
    RunCoherent(h, clock, ttl);
    AlignedIsLongestLive(h', clock, ttl, c, now);
    var r := Aligned(Pruned(Run(h, ttl), s), c, now, ttl);
    LongestAfterInvalidation(h, s, c, now, ttl, r.0, r.1);
  }
}
