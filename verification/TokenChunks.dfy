/** Splitting a token sequence into full chunks and an unaligned tail. */
module TokenChunks {
  const CHUNK_SIZE := 64

  type Token = int
  type Chunk = seq<Token>
  type Path = seq<Chunk>

  /** The full chunks of `ids`; the trie path of the sequence. */
  function FullChunks(ids: seq<Token>): Path
  {
    seq(|ids| / CHUNK_SIZE, i requires 0 <= i < |ids| / CHUNK_SIZE =>
      ids[i * CHUNK_SIZE..(i + 1) * CHUNK_SIZE])
  }

  /** The tokens after the last full chunk. */
  function Tail(ids: seq<Token>): seq<Token>
  {
    ids[|ids| / CHUNK_SIZE * CHUNK_SIZE..]
  }

  ghost function Flatten(p: Path): seq<Token>
  {
    if p == [] then [] else Flatten(p[..|p| - 1]) + p[|p| - 1]
  }

  /** `n` tokens of `ids` and `other` agree. */
  ghost predicate SharePrefix(ids: seq<Token>, other: seq<Token>, n: nat)
  {
    n <= |ids| && n <= |other| && ids[..n] == other[..n]
  }

  /** How many leading tokens two sequences have in common. */
  function CommonLen(a: seq<Token>, b: seq<Token>): (n: nat)
    ensures n <= |a| && n <= |b| && a[..n] == b[..n]
    ensures n < |a| && n < |b| ==> a[n] != b[n]
  {
    if a == [] || b == [] || a[0] != b[0] then 0
    else
      var n := 1 + CommonLen(a[1..], b[1..]);
      assert a[..n] == [a[0]] + a[1..][..n - 1];
      assert b[..n] == [b[0]] + b[1..][..n - 1];
      n
  }

  method SplitTokens(ids: seq<Token>) returns (full: Path, tail: seq<Token>)
    ensures full == FullChunks(ids) && tail == Tail(ids)
  {
    var aligned := |ids| / CHUNK_SIZE * CHUNK_SIZE;
    full := [];
    var i := 0;
    while i < aligned
      invariant i == |full| * CHUNK_SIZE && i <= aligned
      invariant full == FullChunks(ids)[..|full|]
    {
      full := full + [ids[i..i + CHUNK_SIZE]];
      i := i + CHUNK_SIZE;
    }
    tail := ids[aligned..];
  }

  /** The first chunks of the path spell the first tokens of the sequence. */
  lemma {:induction false} FlattenTake(ids: seq<Token>, k: nat)
    requires k <= |FullChunks(ids)|
    ensures k * CHUNK_SIZE <= |ids|
    ensures Flatten(FullChunks(ids)[..k]) == ids[..k * CHUNK_SIZE]
  {
    if k > 0 {
      FlattenTake(ids, k - 1);
      assert FullChunks(ids)[..k][..k - 1] == FullChunks(ids)[..k - 1];
      assert ids[..k * CHUNK_SIZE] == ids[..(k - 1) * CHUNK_SIZE] + ids[(k - 1) * CHUNK_SIZE..k * CHUNK_SIZE];
    }
  }

  /** Nothing is lost or reordered by the split. */
  lemma SplitRoundTrip(ids: seq<Token>)
    ensures Flatten(FullChunks(ids)) + Tail(ids) == ids
    ensures |Tail(ids)| < CHUNK_SIZE
    ensures forall c <- FullChunks(ids) :: |c| == CHUNK_SIZE
  {
    FlattenTake(ids, |FullChunks(ids)|);
    assert FullChunks(ids)[..|FullChunks(ids)|] == FullChunks(ids);
  }

  lemma SliceOfTake(s: seq<Token>, n: nat, i: nat, j: nat)
    requires i <= j <= n <= |s|
    ensures s[..n][i..j] == s[i..j]
  {
  }

  /** Two sequences sharing `k` chunks of path share `k * CHUNK_SIZE` tokens, and conversely. */
  lemma SharedChunks(a: seq<Token>, b: seq<Token>, k: nat)
    requires k <= |FullChunks(a)|
    ensures FullChunks(a)[..k] <= FullChunks(b) <==> SharePrefix(a, b, k * CHUNK_SIZE)
  {
    if FullChunks(a)[..k] <= FullChunks(b) {
      FlattenTake(a, k);
      FlattenTake(b, k);
      assert FullChunks(a)[..k] == FullChunks(b)[..k];
    } else if SharePrefix(a, b, k * CHUNK_SIZE) {
      forall i | 0 <= i < k
        ensures FullChunks(a)[i] == FullChunks(b)[i]
      {
        SliceOfTake(a, k * CHUNK_SIZE, i * CHUNK_SIZE, (i + 1) * CHUNK_SIZE);
        SliceOfTake(b, k * CHUNK_SIZE, i * CHUNK_SIZE, (i + 1) * CHUNK_SIZE);
      }
      assert false;
    }
  }
}
