/**
 The contents of the trie as a map from paths to node fields, the effect of every
 trie operation on it, and what those operations keep.
 */
module FlatTrie {
  import opened Options
  import opened TokenChunks
  import opened PrefixHistory

  datatype Entry = Entry(slot: Option<int>, lastUsed: real, tail: seq<Token>) {
    ghost predicate Stale(now: real, ttl: real) { slot.Some? && now - lastUsed > ttl }

    ghost predicate Fresh(now: real, ttl: real) { slot.Some? && now - lastUsed <= ttl }
  }

  type Flat = map<Path, Entry>

  // ---- Insert ----

  ghost function Prefixes(c: Path): set<Path> { set k | 0 <= k <= |c| :: c[..k] }

  ghost function OldTail(m: Flat, p: Path): seq<Token> { if p in m then m[p].tail else [] }

  /** The first loop of insert: every node on the path is created or renewed. */
  ghost function Stamped(m: Flat, c: Path, slot: int, now: real): Flat {
    map p | p in m.Keys + Prefixes(c) ::
      if p in Prefixes(c) && p != [] then Entry(Some(slot), now, OldTail(m, p))
      else if p in m then m[p] else Entry(None, 0.0, [])
  }

  ghost function WithTail(m: Flat, c: Path, tail: seq<Token>, slot: int, now: real): Flat {
    if tail == [] then m else m[c := Entry(Some(slot), now, tail)]
  }

  ghost function Inserting(m: Flat, ids: seq<Token>, slot: int, now: real): Flat {
    WithTail(Stamped(m, FullChunks(ids), slot, now), FullChunks(ids), Tail(ids), slot, now)
  }

  // ---- Expiry: a stale node goes with its whole subtree ----

  ghost predicate Doomed(m: Flat, base: nat, p: Path, now: real, ttl: real) {
    exists i :: base < i <= |p| && p[..i] in m && m[p[..i]].Stale(now, ttl)
  }

  ghost function Expired(m: Flat, now: real, ttl: real): Flat {
    map p | p in m && !Doomed(m, 0, p, now, ttl) :: m[p]
  }

  ghost function Inserted'(m: Flat, ids: seq<Token>, slot: int, now: real, ttl: real): Flat {
    if ids == [] then m else Expired(Inserting(m, ids, slot, now), now, ttl)
  }

  // ---- Invalidation ----

  ghost function Cleared(e: Entry, slot: int): Entry {
    if e.slot == Some(slot) then e.(slot := None) else e
  }

  ghost function Pruned(m: Flat, slot: int): Flat {
    map p | p in m :: Cleared(m[p], slot)
  }

  // ---- Matching ----

  /** How many chunks of `c` the walk follows, having followed `k`. */
  ghost function Depth(m: Flat, c: Path, k: nat): (d: nat)
    requires k <= |c| && c[..k] in m
    ensures k <= d <= |c| && c[..d] in m
    ensures d < |c| ==> c[..d + 1] !in m
    ensures forall j :: k <= j <= d ==> c[..j] in m
    decreases |c| - k
  {
    if k < |c| && c[..k + 1] in m then Depth(m, c, k + 1) else k
  }

  /** The best slot and length after following `d` chunks. */
  ghost function Best(m: Flat, c: Path, d: nat, now: real, ttl: real): (r: (Option<int>, nat))
    requires d <= |c|
  {
    if d == 0 then (None, 0)
    else if c[..d] in m && m[c[..d]].Fresh(now, ttl) then (m[c[..d]].slot, d * CHUNK_SIZE)
    else Best(m, c, d - 1, now, ttl)
  }

  /** The chunk-aligned walk. */
  ghost function Aligned(m: Flat, c: Path, now: real, ttl: real): (Option<int>, nat)
    requires [] in m
  {
    Best(m, c, Depth(m, c, 0), now, ttl)
  }

  /** The two tail branches, applied at the last node of the walk. */
  ghost function TailStep(e: Entry, tail: seq<Token>, pos: nat, best: (Option<int>, nat), now: real, ttl: real)
    : (Option<int>, nat)
  {
    if e.tail != [] && tail != [] then
      if CommonLen(e.tail, tail) > 0 && e.Fresh(now, ttl) then (e.slot, pos + CommonLen(e.tail, tail)) else best
    else if e.tail != [] && tail == [] && e.slot.Some? then (e.slot, pos + |e.tail|)
    else best
  }

  ghost function Match(m: Flat, ids: seq<Token>, now: real, ttl: real): (Option<int>, nat)
    requires [] in m
  {
    if ids == [] then (None, 0) else
      var c := FullChunks(ids);
      var d := Depth(m, c, 0);
      TailStep(m[c[..d]], Tail(ids), d * CHUNK_SIZE, Best(m, c, d, now, ttl), now, ttl)
  }

  // ---- Well-formed contents ----

  ghost function Parent(p: Path): Path
    requires p != []
  {
    p[..|p| - 1]
  }

  ghost predicate PrefixClosed(m: Flat) {
    [] in m && forall p {:trigger Parent(p)} :: p in m && p != [] ==> Parent(p) in m
  }

  /** A non-root parent was used at least as recently as its descendants. */
  ghost predicate ParentsNewer(m: Flat) {
    forall p, q :: p in m && q in m && p != [] && p <= q ==> m[p].lastUsed >= m[q].lastUsed
  }

  /** The event leaves a tail at the node of `p`: an insert that ends there, unaligned. */
  ghost predicate LeavesTail(e: Event, p: Path) {
    e.Inserted? && FullChunks(e.ids) == p && Tail(e.ids) != []
  }

  /** Event `i` is the last one to leave a tail at the node of `p`. */
  ghost predicate LeftTail(h: seq<Event>, p: Path, i: int) {
    0 <= i < |h| && LeavesTail(h[i], p) && forall j :: i < j < |h| ==> !LeavesTail(h[j], p)
  }

  ghost predicate TailFrom(h: seq<Event>, p: Path, tail: seq<Token>) {
    exists i :: LeftTail(h, p, i) && Tail(h[i].ids) == tail
  }

  ghost predicate TailsGenuine(m: Flat, h: seq<Event>) {
    forall p :: p in m && m[p].tail != [] ==> TailFrom(h, p, m[p].tail)
  }

  /** A node says what the log says; a path the log knows but the trie lacks has expired. */
  ghost predicate SaysLog(m: Flat, h: seq<Event>, clock: real, ttl: real) {
    && (forall p :: p in m && p != [] ==> Holder(h, p) == Some(Claim(m[p].slot, m[p].lastUsed)))
    && (forall p :: p !in m && p != [] && Holder(h, p).Some? ==> clock - Holder(h, p).value.time > ttl)
  }

  ghost predicate Coherent(m: Flat, h: seq<Event>, clock: real, ttl: real) {
    PrefixClosed(m) && MonotoneTimes(h, clock) && SaysLog(m, h, clock, ttl) && TailsGenuine(m, h)
  }

  lemma {:induction false} ClosedDown(m: Flat, p: Path, k: nat)
    requires PrefixClosed(m) && p in m && k <= |p|
    ensures p[..k] in m
    decreases |p|
  {
    if k < |p| {
      ClosedDown(m, Parent(p), k);
      assert Parent(p)[..k] == p[..k];
    } else {
      assert p[..k] == p;
    }
  }

  lemma ClosedPath(m: Flat, c: Path, j: nat, k: nat)
    requires PrefixClosed(m) && k <= j <= |c| && c[..j] in m
    ensures c[..k] in m
  {
    ClosedDown(m, c[..j], k);
    assert c[..j][..k] == c[..k];
  }

  lemma CoherentParentsNewer(m: Flat, h: seq<Event>, clock: real, ttl: real)
    requires Coherent(m, h, clock, ttl)
    ensures ParentsNewer(m)
  {
    forall p, q | p in m && q in m && p != [] && p <= q
      ensures m[p].lastUsed >= m[q].lastUsed
    {
      ShorterIsNewer(h, clock, p, q);
    }
  }

  lemma EmptyCoherent(clock: real, ttl: real)
    ensures Coherent(map[[] := Entry(None, 0.0, [])], [], clock, ttl)
  {
  }

  // ---- Every operation keeps the contents coherent with the log ----

  lemma PrunedCoherent(m: Flat, h: seq<Event>, clock: real, ttl: real, slot: int)
    requires Coherent(m, h, clock, ttl)
    ensures Coherent(Pruned(m, slot), h + [Invalidated(slot)], clock, ttl)
  {
    var h' := h + [Invalidated(slot)];
    assert h'[..|h'| - 1] == h;
    TailsGrow(Pruned(m, slot), h, Invalidated(slot));
  }

  lemma TailStays(h: seq<Event>, e: Event, p: Path, tail: seq<Token>)
    requires TailFrom(h, p, tail) && !LeavesTail(e, p)
    ensures TailFrom(h + [e], p, tail)
  {
    var i :| LeftTail(h, p, i) && Tail(h[i].ids) == tail;
    assert LeftTail(h + [e], p, i);
  }

  lemma TailsGrow(m: Flat, h: seq<Event>, e: Event)
    requires TailsGenuine(m, h) && forall p :: p in m ==> !LeavesTail(e, p)
    ensures TailsGenuine(m, h + [e])
  {
    forall p | p in m && m[p].tail != []
      ensures TailFrom(h + [e], p, m[p].tail)
    {
      TailStays(h, e, p, m[p].tail);
    }
  }

  lemma PrefixesAre(c: Path, p: Path)
    ensures p in Prefixes(c) <==> p <= c
  {
    if p <= c { assert p == c[..|p|]; }
  }

  lemma InsertingClosed(m: Flat, ids: seq<Token>, slot: int, now: real)
    requires PrefixClosed(m)
    ensures PrefixClosed(Inserting(m, ids, slot, now))
  {
    var c := FullChunks(ids);
    assert [] == c[..0];
    forall p | p in Prefixes(c) && p != []
      ensures Parent(p) in Prefixes(c)
    {
      assert p[..|p| - 1] == c[..|p| - 1];
    }
    assert c == c[..|c|];
  }

  lemma InsertingTails(m: Flat, h: seq<Event>, ids: seq<Token>, slot: int, now: real)
    requires TailsGenuine(m, h)
    ensures TailsGenuine(Inserting(m, ids, slot, now), h + [Event.Inserted(ids, slot, now)])
  {
    var e := Event.Inserted(ids, slot, now);
    var m' := Inserting(m, ids, slot, now);
    forall p | p in m' && m'[p].tail != []
      ensures TailFrom(h + [e], p, m'[p].tail)
    {
      if LeavesTail(e, p) {
        assert LeftTail(h + [e], p, |h|);
      } else {
        assert p in m && m[p].tail == m'[p].tail;
        TailStays(h, e, p, m[p].tail);
      }
    }
  }

  lemma InsertingSays(m: Flat, h: seq<Event>, clock: real, ttl: real, ids: seq<Token>, slot: int, now: real)
    requires SaysLog(m, h, clock, ttl) && clock <= now
    ensures SaysLog(Inserting(m, ids, slot, now), h + [Event.Inserted(ids, slot, now)], now, ttl)
  {
    var c := FullChunks(ids);
    var h' := h + [Event.Inserted(ids, slot, now)];
    var m' := Inserting(m, ids, slot, now);
    assert h'[..|h'| - 1] == h;
    forall p: Path | p != []
      ensures p in m' ==> Holder(h', p) == Some(Claim(m'[p].slot, m'[p].lastUsed))
      ensures p !in m' && Holder(h', p).Some? ==> now - Holder(h', p).value.time > ttl
    {
      PrefixesAre(c, p);
    }
  }

  lemma InsertingCoherent(m: Flat, h: seq<Event>, clock: real, ttl: real, ids: seq<Token>, slot: int, now: real)
    requires Coherent(m, h, clock, ttl) && clock <= now
    ensures Coherent(Inserting(m, ids, slot, now), h + [Event.Inserted(ids, slot, now)], now, ttl)
  {
    InsertingClosed(m, ids, slot, now);
    InsertingTails(m, h, ids, slot, now);
    InsertingSays(m, h, clock, ttl, ids, slot, now);
  }

  lemma DoomedDown(m: Flat, base: nat, p: Path, k: nat, now: real, ttl: real)
    requires k <= |p| && Doomed(m, base, p[..k], now, ttl)
    ensures Doomed(m, base, p, now, ttl)
  {
    var i :| base < i <= |p[..k]| && p[..k][..i] in m && m[p[..k][..i]].Stale(now, ttl);
    assert p[..k][..i] == p[..i];
  }

  lemma ExpiredClosed(m: Flat, now: real, ttl: real)
    requires PrefixClosed(m)
    ensures PrefixClosed(Expired(m, now, ttl))
  {
    var m' := Expired(m, now, ttl);
    forall p | p in m' && p != []
      ensures Parent(p) in m'
    {
      if Doomed(m, 0, p[..|p| - 1], now, ttl) { DoomedDown(m, 0, p, |p| - 1, now, ttl); }
    }
  }

  lemma ExpiredCoherent(m: Flat, h: seq<Event>, now: real, ttl: real)
    requires Coherent(m, h, now, ttl)
    ensures Coherent(Expired(m, now, ttl), h, now, ttl)
  {
    var m' := Expired(m, now, ttl);
    ExpiredClosed(m, now, ttl);
    forall p | p !in m' && p != [] && Holder(h, p).Some?
      ensures now - Holder(h, p).value.time > ttl
    {
      if p in m {
        var i :| 0 < i <= |p| && p[..i] in m && m[p[..i]].Stale(now, ttl);
        ShorterIsNewer(h, now, p[..i], p);
      }
    }
  }

  /** One whole insert, expiry included. */
  lemma InsertedCoherent(m: Flat, h: seq<Event>, clock: real, ttl: real, ids: seq<Token>, slot: int, now: real)
    requires Coherent(m, h, clock, ttl) && clock <= now && ids != []
    ensures Coherent(Inserted'(m, ids, slot, now, ttl), h + [Event.Inserted(ids, slot, now)], now, ttl)
  {
    InsertingCoherent(m, h, clock, ttl, ids, slot, now);
    ExpiredCoherent(Inserting(m, ids, slot, now), h + [Event.Inserted(ids, slot, now)], now, ttl);
  }
}
