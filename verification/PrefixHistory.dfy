/**
 The reference reading of the slot index: a log of what was inserted and
 invalidated, without any trie, deletion or per-node state.
 */
module PrefixHistory {
  import opened Options
  import opened TokenChunks

  datatype Event =
    | Inserted(ids: seq<Token>, slot: int, time: real)
    | Invalidated(slot: int)

  /** Event `i` is the most recent insert whose sequence starts with path `p`. */
  ghost predicate LatestInsert(h: seq<Event>, p: Path, i: int)
  {
    && 0 <= i < |h| && h[i].Inserted? && p <= FullChunks(h[i].ids)
    && forall j :: i < j < |h| && h[j].Inserted? ==> !(p <= FullChunks(h[j].ids))
  }

  /** The most recent insert through `p` gave it slot `s`, has not been invalidated, and is unexpired. */
  ghost predicate Live(h: seq<Event>, p: Path, s: int, now: real, ttl: real)
  {
    exists i :: LatestInsert(h, p, i) && h[i].slot == s && now - h[i].time <= ttl
      && Invalidated(s) !in h[i + 1..]
  }

  /** `slot` and `len` describe the longest live chunk prefix of the path `c`. */
  ghost predicate LongestLive(h: seq<Event>, c: Path, now: real, ttl: real, slot: Option<int>, len: nat)
  {
    match slot
    case None => len == 0 && forall k, s :: 0 < k <= |c| ==> !Live(h, c[..k], s, now, ttl)
    case Some(s) =>
      exists k :: 0 < k <= |c| && len == k * CHUNK_SIZE && Live(h, c[..k], s, now, ttl)
        && forall j, s' :: k < j <= |c| ==> !Live(h, c[..j], s', now, ttl)
  }

  /** Insert times never go back and never pass `clock`. */
  ghost predicate MonotoneTimes(h: seq<Event>, clock: real)
  {
    && (forall i :: 0 <= i < |h| && h[i].Inserted? ==> h[i].time <= clock)
    && (forall i, j :: 0 <= i < j < |h| && h[i].Inserted? && h[j].Inserted? ==> h[i].time <= h[j].time)
  }

  datatype Claim = Claim(slot: Option<int>, time: real)

  /** What the log says about a path, computed from its end. */
  ghost function Holder(h: seq<Event>, p: Path): Option<Claim>
  {
    if h == [] then None
    else
      var prev := Holder(h[..|h| - 1], p);
      match h[|h| - 1]
      case Inserted(ids, s, t) => if p <= FullChunks(ids) then Some(Claim(Some(s), t)) else prev
      case Invalidated(s) =>
        if prev.Some? && prev.value.slot == Some(s) then Some(Claim(None, prev.value.time)) else prev
  }

  ghost predicate HolderAgrees(h: seq<Event>, p: Path, i: nat)
    requires i < |h| && h[i].Inserted?
  {
    Holder(h, p) == Some(Claim(if Invalidated(h[i].slot) in h[i + 1..] then None else Some(h[i].slot), h[i].time))
  }

  /** The latest insert decides the holder. */
  lemma {:induction false} LatestDecidesHolder(h: seq<Event>, p: Path, i: nat)
    requires LatestInsert(h, p, i)
    ensures HolderAgrees(h, p, i)
  {
    var h' := h[..|h| - 1];
    if i < |h| - 1 {
      assert LatestInsert(h', p, i);
      LatestDecidesHolder(h', p, i);
      assert h[i + 1..] == h'[i + 1..] + [h[|h| - 1]];
    }
  }

  /** A path with a holder has a latest insert. */
  lemma {:induction false} HolderHasLatest(h: seq<Event>, p: Path) returns (i: nat)
    requires Holder(h, p).Some?
    ensures LatestInsert(h, p, i)
  {
    var n := |h| - 1;
    if h[n].Inserted? && p <= FullChunks(h[n].ids) {
      i := n;
    } else {
      i := HolderHasLatest(h[..n], p);
      assert h[..n][i] == h[i];
      forall j | i < j < |h| && h[j].Inserted?
        ensures !(p <= FullChunks(h[j].ids))
      {
        if j < n { assert h[..n][j] == h[j]; }
      }
    }
  }

  /** `Live` read off the holder. */
  lemma LiveIsHolder(h: seq<Event>, p: Path, s: int, now: real, ttl: real)
    ensures Live(h, p, s, now, ttl) <==>
      Holder(h, p).Some? && Holder(h, p).value.slot == Some(s) && now - Holder(h, p).value.time <= ttl
  {
    if Live(h, p, s, now, ttl) {
      var i :| LatestInsert(h, p, i) && h[i].slot == s && now - h[i].time <= ttl && Invalidated(s) !in h[i + 1..];
      LatestDecidesHolder(h, p, i);
    }
    if Holder(h, p).Some? {
      var i := HolderHasLatest(h, p);
      LatestDecidesHolder(h, p, i);
    }
  }

  /** An insert through a longer path also renews every shorter one. */
  lemma {:induction false} ShorterIsNewer(h: seq<Event>, clock: real, p: Path, q: Path)
    requires MonotoneTimes(h, clock) && p <= q && Holder(h, q).Some?
    ensures Holder(h, p).Some? && Holder(h, p).value.time >= Holder(h, q).value.time
    ensures Holder(h, p).value.time <= clock
  {
    var i := HolderHasLatest(h, q);
    LatestDecidesHolder(h, q, i);
    HolderFrom(h, p, i);
    var k := HolderHasLatest(h, p);
    LatestDecidesHolder(h, p, k);
    assert k >= i;
  }

  lemma {:induction false} HolderFrom(h: seq<Event>, p: Path, i: nat)
    requires i < |h| && h[i].Inserted? && p <= FullChunks(h[i].ids)
    ensures Holder(h, p).Some?
  {
    if i < |h| - 1 {
      HolderFrom(h[..|h| - 1], p, i);
    }
  }
}
