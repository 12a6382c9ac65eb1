/** Suffixes of sequences. */
module Suffixes {
  ghost predicate IsSuffix<T>(s: seq<T>, whole: seq<T>) { |s| <= |whole| && s == whole[|whole| - |s|..] }

  lemma SuffixDrop<T>(s: seq<T>, whole: seq<T>, n: nat)
    requires IsSuffix(s, whole) && n <= |s|
    ensures IsSuffix(s[n..], whole)
  {
  }

  lemma SuffixSnoc<T>(s: seq<T>, whole: seq<T>, x: T)
    requires IsSuffix(s, whole)
    ensures IsSuffix(s + [x], whole + [x])
  {
    assert (whole + [x])[|whole| - |s|..] == whole[|whole| - |s|..] + [x];
  }
}
