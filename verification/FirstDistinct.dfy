/** The first so many distinct members of a list. */
module FirstDistinct {
  import opened Sets

  ghost function Members<T>(s: seq<T>): set<T> { set x | x in s }

  /** Every member counts until `max` have been met. */
  ghost function Firsts<T>(s: seq<T>, max: nat): set<T> {
    if s == [] then {}
    else
      var earlier := s[..|s| - 1];
      if |Members(earlier)| < max then Firsts(earlier, max) + {s[|s| - 1]} else Firsts(earlier, max)
  }

  /** `x` occurs at `i` for the first time, when fewer than `max` others have occurred. */
  ghost predicate EntersAt<T>(s: seq<T>, x: T, max: nat, i: int) {
    0 <= i < |s| && s[i] == x && x !in s[..i] && |Members(s[..i])| < max
  }

  lemma MembersNext<T>(s: seq<T>, x: T)
    ensures Members(s + [x]) == Members(s) + {x}
  {
  }

  lemma FirstsNext<T>(s: seq<T>, x: T, max: nat)
    ensures Firsts(s + [x], max) == if |Members(s)| < max then Firsts(s, max) + {x} else Firsts(s, max)
  {
    assert (s + [x])[..|s|] == s;
  }

  /** Never more than `max`, and all members as long as there are fewer. */
  lemma {:induction false} FirstsSize<T>(s: seq<T>, max: nat)
    ensures Firsts(s, max) <= Members(s) && |Firsts(s, max)| <= max
    ensures |Members(s)| < max ==> Firsts(s, max) == Members(s)
    ensures |Firsts(s, max)| < max <==> |Members(s)| < max
  {
    if s != [] {
      var earlier, x := s[..|s| - 1], s[|s| - 1];
      FirstsSize(earlier, max);
      assert s == earlier + [x];
      MembersNext(earlier, x);
      SubsetCount(Members(earlier), Members(s));
    }
  }

  ghost predicate Enters<T>(s: seq<T>, x: T, max: nat) { exists i :: EntersAt(s, x, max, i) }

  lemma EntersAtNext<T>(s: seq<T>, y: T, x: T, max: nat, i: int)
    ensures EntersAt(s + [y], x, max, i)
      <==> EntersAt(s, x, max, i) || (i == |s| && x == y && x !in s && |Members(s)| < max)
  {
    if 0 <= i < |s| { assert (s + [y])[..i] == s[..i]; } else if i == |s| { assert (s + [y])[..i] == s; }
  }

  /** A member counts iff its first occurrence came early enough. */
  lemma {:induction false} FirstsAre<T>(s: seq<T>, x: T, max: nat)
    ensures x in Firsts(s, max) <==> Enters(s, x, max)
  {
    if s != [] {
      var earlier, y := s[..|s| - 1], s[|s| - 1];
      assert s == earlier + [y];
      FirstsAre(earlier, x, max);
      FirstsSize(earlier, max);
      forall i ensures EntersAt(s, x, max, i)
        <==> EntersAt(earlier, x, max, i) || (i == |earlier| && x == y && x !in earlier && |Members(earlier)| < max)
      {
        EntersAtNext(earlier, y, x, max, i);
      }
      if x == y && x !in earlier && |Members(earlier)| < max { assert EntersAt(s, x, max, |earlier|); }
    }
  }
}
