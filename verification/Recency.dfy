/** Recency order of a log, shared by the two LRU structures. */
module Recency {
  /** The distinct elements of a log, by last occurrence, oldest first. */
  ghost function Recent<T>(log: seq<T>): seq<T> {
    if log == [] then []
    else if log[0] in log[1..] then Recent(log[1..])
    else [log[0]] + Recent(log[1..])
  }

  /** The last `n` elements, all of them when there are fewer, none when `n` is negative. */
  ghost function Last<T>(s: seq<T>, n: int): seq<T> {
    if n <= 0 then [] else if |s| <= n then s else s[|s| - n..]
  }

  ghost predicate NoDup<T>(s: seq<T>) {
    forall i, j :: 0 <= i < j < |s| ==> s[i] != s[j]
  }

  function Remove<T(==)>(s: seq<T>, x: T): seq<T> {
    if s == [] then [] else (if s[0] == x then [] else [s[0]]) + Remove(s[1..], x)
  }

  /** Move (or add) an element to the recent end. */
  function Touch<T(==)>(s: seq<T>, x: T): seq<T> {
    Remove(s, x) + [x]
  }

  function TouchAll<T(==)>(s: seq<T>, xs: seq<T>): seq<T>
    decreases |xs|
  {
    if xs == [] then s else TouchAll(Touch(s, xs[0]), xs[1..])
  }

  // ---- Remove ----

  lemma {:induction false} RemoveMembers<T>(s: seq<T>, x: T)
    ensures forall y :: y in Remove(s, x) <==> y in s && y != x
    ensures x !in s ==> Remove(s, x) == s
  {
    if s != [] {
      RemoveMembers(s[1..], x);
      assert s == [s[0]] + s[1..];
    }
  }

  lemma {:induction false} RemoveNoDup<T>(s: seq<T>, x: T)
    requires NoDup(s)
    ensures NoDup(Remove(s, x))
    ensures |Remove(s, x)| == if x in s then |s| - 1 else |s|
  {
    if s != [] {
      RemoveNoDup(s[1..], x);
      RemoveMembers(s[1..], x);
      assert s == [s[0]] + s[1..];
      assert s[0] !in s[1..];
    }
  }

  lemma {:induction false} RemoveConcat<T>(a: seq<T>, b: seq<T>, x: T)
    ensures Remove(a + b, x) == Remove(a, x) + Remove(b, x)
  {
    if a == [] {
      assert a + b == b;
    } else {
      RemoveConcat(a[1..], b, x);
      assert (a + b)[0] == a[0] && (a + b)[1..] == a[1..] + b;
      var first := if a[0] == x then [] else [a[0]];
      assert first + (Remove(a[1..], x) + Remove(b, x)) == (first + Remove(a[1..], x)) + Remove(b, x);
    }
  }

  lemma TouchNoDup<T>(s: seq<T>, x: T)
    requires NoDup(s)
    ensures NoDup(Touch(s, x))
    ensures forall y :: y in Touch(s, x) <==> y in s || y == x
  {
    RemoveMembers(s, x);
    RemoveNoDup(s, x);
  }

  // ---- Recent ----

  lemma {:induction false} RecentMembers<T>(log: seq<T>)
    ensures NoDup(Recent(log))
    ensures forall y :: y in Recent(log) <==> y in log
  {
    if log != [] {
      RecentMembers(log[1..]);
      assert log == [log[0]] + log[1..];
    }
  }

  ghost predicate LastAt<T>(log: seq<T>, x: T, i: int) {
    0 <= i < |log| && log[i] == x && x !in log[i + 1..]
  }

  /** The recency list is in the order of last occurrences. */
  lemma {:induction false} RecentByLastOccurrence<T>(log: seq<T>, i: nat, j: nat, a: int, b: int)
    requires i < j < |Recent(log)|
    requires LastAt(log, Recent(log)[i], a) && LastAt(log, Recent(log)[j], b)
    ensures a < b
  {
    var rest := log[1..];
    RecentMembers(rest);
    if log[0] in rest {
      assert LastAt(rest, Recent(rest)[i], a - 1) && LastAt(rest, Recent(rest)[j], b - 1);
      RecentByLastOccurrence(rest, i, j, a - 1, b - 1);
    } else if i > 0 {
      assert LastAt(rest, Recent(rest)[i - 1], a - 1) && LastAt(rest, Recent(rest)[j - 1], b - 1);
      RecentByLastOccurrence(rest, i - 1, j - 1, a - 1, b - 1);
    } else {
      assert Recent(rest)[j - 1] in rest;
    }
  }

  /** One more event moves its element to the recent end. */
  lemma {:induction false} RecentSnoc<T>(log: seq<T>, x: T)
    ensures Recent(log + [x]) == Touch(Recent(log), x)
  {
    if log == [] {
      assert Recent([x]) == [x];
    } else {
      var a, rest := log[0], log[1..];
      RecentSnoc(rest, x);
      assert (log + [x])[1..] == rest + [x];
      RecentMembers(rest);
      RemoveConcat([a], Recent(rest), x);
      RemoveMembers([a], x);
      assert Remove([a], a) == [];
      if a !in rest {
        RemoveMembers(Recent(rest), a);
      }
    }
  }

  lemma {:induction false} RecentConcat<T>(log: seq<T>, xs: seq<T>)
    ensures Recent(log + xs) == TouchAll(Recent(log), xs)
    decreases |xs|
  {
    if xs == [] {
      assert log + xs == log;
    } else {
      RecentSnoc(log, xs[0]);
      RecentConcat(log + [xs[0]], xs[1..]);
      assert log + [xs[0]] + xs[1..] == log + xs;
    }
  }

  // ---- Truncation ----

  lemma LastNoDup<T>(s: seq<T>, n: int)
    requires NoDup(s)
    ensures NoDup(Last(s, n))
    ensures forall y :: y in Last(s, n) ==> y in s
  {
  }

  lemma LastConcat<T>(a: seq<T>, b: seq<T>, n: int)
    ensures n <= |b| ==> Last(a + b, n) == Last(b, n)
  {
  }

  /** Trimming before a touch changes nothing that survives the trim after it. */
  lemma TouchTrim<T>(s: seq<T>, x: T, n: int)
    requires NoDup(s)
    ensures Last(Touch(Last(s, n), x), n) == Last(Touch(s, x), n)
  {
    if 0 < n < |s| {
      var a, b := s[..|s| - n], Last(s, n);
      assert s == a + b;
      RemoveConcat(a, b, x);
      LastNoDup(s, n);
      RemoveNoDup(b, x);
      RemoveMembers(b, x);
      if x in b { RemoveMembers(a, x); }
      assert Touch(s, x) == Remove(a, x) + Touch(b, x);
      LastConcat(Remove(a, x), Touch(b, x), n);
    }
  }

  /** ... nor does trimming before a whole batch. */
  lemma {:induction false} TouchAllTrim<T>(s: seq<T>, t: seq<T>, xs: seq<T>, n: int)
    requires NoDup(s) && NoDup(t) && Last(s, n) == Last(t, n)
    ensures Last(TouchAll(s, xs), n) == Last(TouchAll(t, xs), n)
    decreases |xs|
  {
    if xs != [] {
      TouchTrim(s, xs[0], n);
      TouchTrim(t, xs[0], n);
      TouchNoDup(s, xs[0]);
      TouchNoDup(t, xs[0]);
      TouchAllTrim(Touch(s, xs[0]), Touch(t, xs[0]), xs[1..], n);
    }
  }

  lemma LastLast<T>(s: seq<T>, n: int)
    ensures Last(Last(s, n), n) == Last(s, n)
  {
  }

  /** The trimmed recency list after a batch, from the trimmed list before it. */
  lemma RecentBatch<T>(log: seq<T>, xs: seq<T>, n: int)
    ensures Last(Recent(log + xs), n) == Last(TouchAll(Last(Recent(log), n), xs), n)
  {
    RecentMembers(log);
    RecentConcat(log, xs);
    LastNoDup(Recent(log), n);
    LastLast(Recent(log), n);
    TouchAllTrim(Recent(log), Last(Recent(log), n), xs, n);
  }

  /** Touching an element of a trimmed list keeps it trimmed. */
  lemma TouchHit<T>(s: seq<T>, x: T, n: int)
    requires NoDup(s) && x in s && |s| <= n
    ensures Last(TouchAll(s, [x]), n) == Touch(s, x)
  {
    RemoveNoDup(s, x);
    assert TouchAll(s, [x]) == Touch(s, x);
  }

  /** Touching a new element of a trimmed list drops the oldest when it is full. */
  lemma TouchMiss<T>(s: seq<T>, x: T, n: int)
    requires x !in s && |s| <= n && n >= 1
    ensures Last(TouchAll(s, [x]), n) == (if |s| == n then s[1..] else s) + [x]
  {
    RemoveMembers(s, x);
    assert TouchAll(s, [x]) == s + [x];
  }

  /** A longer list keeps everything a shorter one keeps. */
  lemma LastMonotone<T>(s: seq<T>, m: int, n: int)
    requires m <= n
    ensures forall y :: y in Last(s, m) ==> y in Last(s, n)
  {
    forall y | y in Last(s, m)
      ensures y in Last(s, n)
    {
      var i :| 0 <= i < |Last(s, m)| && Last(s, m)[i] == y;
      var j := |Last(s, n)| - |Last(s, m)| + i;
      assert Last(s, n)[j] == y;
    }
  }
}
