/** Counting, sorting and nearest-rank selection over samples. */
module Samples {
  import opened Rounding

  ghost function CountLe(s: seq<real>, b: real): nat {
    if s == [] then 0 else (if s[0] <= b then 1 else 0) + CountLe(s[1..], b)
  }

  ghost function CountLt(s: seq<real>, b: real): nat {
    if s == [] then 0 else (if s[0] < b then 1 else 0) + CountLt(s[1..], b)
  }

  function Sum(s: seq<real>): real {
    if s == [] then 0.0 else Sum(s[..|s| - 1]) + s[|s| - 1]
  }

  lemma {:induction false} CountLeSnoc(s: seq<real>, v: real, b: real)
    ensures CountLe(s + [v], b) == CountLe(s, b) + if v <= b then 1 else 0
  {
    if s == [] {
      assert s + [v] == [v];
    } else {
      CountLeSnoc(s[1..], v, b);
      assert (s + [v])[1..] == s[1..] + [v];
    }
  }

  lemma {:induction false} CountMonotone(s: seq<real>, a: real, b: real)
    requires a <= b
    ensures CountLe(s, a) <= CountLe(s, b) <= |s|
    ensures a < b ==> CountLe(s, a) <= CountLt(s, b)
    ensures CountLt(s, b) <= CountLe(s, b)
  {
    if s != [] { CountMonotone(s[1..], a, b); }
  }

  // ---- Sorting ----

  ghost predicate Ascending(s: seq<real>) {
    forall i, j :: 0 <= i < j < |s| ==> s[i] <= s[j]
  }

  function InsertSorted(x: real, s: seq<real>): seq<real> {
    if s == [] || x <= s[0] then [x] + s else [s[0]] + InsertSorted(x, s[1..])
  }

  /** Python's `sorted`. */
  function Sorted(s: seq<real>): seq<real> {
    if s == [] then [] else InsertSorted(s[0], Sorted(s[1..]))
  }

  lemma {:induction false} InsertSortedMembers(x: real, s: seq<real>)
    ensures multiset(InsertSorted(x, s)) == multiset{x} + multiset(s)
  {
    if s != [] {
      InsertSortedMembers(x, s[1..]);
      assert s == [s[0]] + s[1..];
    }
  }

  lemma {:induction false} InsertSortedAscending(x: real, s: seq<real>)
    requires Ascending(s)
    ensures Ascending(InsertSorted(x, s))
  {
    if s != [] && x > s[0] {
      var rest := InsertSorted(x, s[1..]);
      InsertSortedAscending(x, s[1..]);
      InsertSortedMembers(x, s[1..]);
      forall j | 0 <= j < |rest| ensures s[0] <= rest[j] {
        assert rest[j] in multiset(rest);
        assert rest[j] == x || rest[j] in s[1..];
      }
    }
  }

  lemma {:induction false} InsertSortedCounts(x: real, s: seq<real>, b: real)
    ensures CountLe(InsertSorted(x, s), b) == CountLe(s, b) + if x <= b then 1 else 0
    ensures CountLt(InsertSorted(x, s), b) == CountLt(s, b) + if x < b then 1 else 0
  {
    if s == [] || x <= s[0] {
      assert ([x] + s)[1..] == s;
    } else {
      InsertSortedCounts(x, s[1..], b);
      assert ([s[0]] + InsertSorted(x, s[1..]))[1..] == InsertSorted(x, s[1..]);
    }
  }

  /** Sorting orders the samples and keeps every one of them. */
  lemma {:induction false} SortedKeeps(s: seq<real>)
    ensures Ascending(Sorted(s)) && |Sorted(s)| == |s|
    ensures multiset(Sorted(s)) == multiset(s)
  {
    if s != [] {
      SortedKeeps(s[1..]);
      InsertSortedAscending(s[0], Sorted(s[1..]));
      InsertSortedMembers(s[0], Sorted(s[1..]));
      assert s == [s[0]] + s[1..];
      assert |Sorted(s)| == |multiset(Sorted(s))|;
    }
  }

  lemma {:induction false} SortedCounts(s: seq<real>, b: real)
    ensures CountLe(Sorted(s), b) == CountLe(s, b) && CountLt(Sorted(s), b) == CountLt(s, b)
  {
    if s != [] {
      SortedCounts(s[1..], b);
      InsertSortedCounts(s[0], Sorted(s[1..]), b);
    }
  }

  // ---- Nearest rank ----

  function Clamp(lo: int, hi: int, x: int): int {
    if x < lo then lo else if hi < x then hi else x
  }

  /** The rank of percentile `p` among `n` samples. */
  function Rank(n: nat, p: real): int { Ceil(p * n as real) }

  /** `min(n - 1, max(0, rank - 1))`. */
  function RankIndex(n: nat, p: real): nat
    requires n > 0
  {
    Clamp(0, n - 1, Rank(n, p) - 1)
  }

  function NearestRank(values: seq<real>, p: real): (r: real)
    ensures values == [] ==> r == 0.0
  {
    if values == [] then 0.0
    else
      SortedKeeps(values);
      Sorted(values)[RankIndex(|values|, p)]
  }

  /** `r` is the k-th smallest sample: at least `k` samples are at most `r`, fewer than `k` are below it. */
  ghost predicate KthSmallest(values: seq<real>, k: int, r: real) {
    r in values && CountLe(values, r) >= k && CountLt(values, r) < k
  }

  lemma {:induction false} AscendingCounts(s: seq<real>, i: nat)
    requires Ascending(s) && i < |s|
    ensures CountLe(s, s[i]) >= i + 1 && CountLt(s, s[i]) <= i
  {
    if i > 0 {
      AscendingCounts(s[1..], i - 1);
    } else {
      AllAbove(s, s[0]);
    }
  }

  lemma {:induction false} AllAbove(s: seq<real>, b: real)
    requires forall i :: 0 <= i < |s| ==> b <= s[i]
    ensures CountLt(s, b) == 0
  {
    if s != [] { AllAbove(s[1..], b); }
  }

  lemma ScaleLe(p: real, q: real, n: real)
    requires p <= q && 0.0 <= n
    ensures p * n <= q * n
  {
  }

  lemma RankRange(n: nat, p: real)
    requires n > 0 && 0.0 < p <= 1.0
    ensures 1 <= Rank(n, p) <= n
  {
    var m := n as real;
    ScaleLe(p, 1.0, m);
    assert p * m > 0.0;
    assert 1.0 * m == m;
  }

  lemma RankMonotone(n: nat, p: real, q: real)
    requires n > 0 && p <= q
    ensures RankIndex(n, p) <= RankIndex(n, q)
  {
    ScaleLe(p, q, n as real);
  }

  lemma SortedIndexIsKth(values: seq<real>, i: nat)
    requires i < |values|
    ensures |Sorted(values)| == |values| && KthSmallest(values, i + 1, Sorted(values)[i])
  {
    var ordered := Sorted(values);
    SortedKeeps(values);
    AscendingCounts(ordered, i);
    SortedCounts(values, ordered[i]);
    assert ordered[i] in multiset(ordered);
  }

  /** The percentile is the ceil(p*n)-th smallest sample. */
  lemma NearestRankIsKth(values: seq<real>, p: real)
    requires values != [] && 0.0 < p <= 1.0
    ensures KthSmallest(values, Rank(|values|, p), NearestRank(values, p))
  {
    var k := Rank(|values|, p);
    RankRange(|values|, p);
    SortedIndexIsKth(values, k - 1);
    SortedAt(values, p, k);
  }

  lemma SortedAt(values: seq<real>, p: real, k: int)
    requires values != [] && k == Rank(|values|, p) && 1 <= k <= |values| == |Sorted(values)|
    ensures NearestRank(values, p) == Sorted(values)[k - 1]
  {
  }

  /** ... and nothing else is. */
  lemma KthUnique(values: seq<real>, k: int, r: real, r': real)
    requires KthSmallest(values, k, r) && KthSmallest(values, k, r')
    ensures r == r'
  {
    if r < r' { CountMonotone(values, r, r'); }
    if r' < r { CountMonotone(values, r', r); }
  }

  /** A higher percentile is never smaller; in particular p95 <= p99. */
  lemma NearestRankMonotone(values: seq<real>, p: real, q: real)
    requires p <= q
    ensures NearestRank(values, p) <= NearestRank(values, q)
  {
    if values != [] {
      SortedKeeps(values);
      RankMonotone(|values|, p, q);
    }
  }
}
