/**
 * `random.shuffle` of Python 2, with its random draws lifted out: for i from
 * the last index down to 1 it draws j in [0, i] and swaps items i and j.
 */
module Shuffling {

  /** One draw j <= i for every index i of a list of n items (the draw for index 0 is unused). */
  predicate DrawsFit(js: seq<nat>, n: nat)
  {
    |js| == n && forall i :: 0 <= i < n ==> js[i] <= i
  }

  function Swap<T>(s: seq<T>, i: nat, j: nat): (r: seq<T>)
    requires i < |s| && j < |s|
    ensures |r| == |s|
  {
    s[i := s[j]][j := s[i]]
  }

  /** The list that random.shuffle leaves, given its draws. */
  function Shuffle<T>(s: seq<T>, js: seq<nat>): (r: seq<T>)
    requires DrawsFit(js, |s|)
    ensures |r| == |s|
    decreases |s|
  {
    if |s| <= 1 then s
    else
      var i := |s| - 1;
      var t := Swap(s, i, js[i]);
      Shuffle(t[..i], js[..i]) + [t[i]]
  }

  lemma SwapPermutes<T>(s: seq<T>, i: nat, j: nat)
    requires i < |s| && j < |s|
    ensures multiset(Swap(s, i, j)) == multiset(s)
  {
    if i != j {
      var t := s[i := s[j]];
      assert multiset(t) == multiset(s) - multiset{s[i]} + multiset{s[j]};
      assert multiset(t[j := s[i]]) == multiset(t) - multiset{t[j]} + multiset{s[i]};
    }
  }

  /** Shuffling rearranges the list: it is a permutation of the input. */
  lemma {:induction false} ShufflePermutes<T>(s: seq<T>, js: seq<nat>)
    requires DrawsFit(js, |s|)
    ensures multiset(Shuffle(s, js)) == multiset(s)
    decreases |s|
  {
    if |s| > 1 {
      var i := |s| - 1;
      var t := Swap(s, i, js[i]);
      SwapPermutes(s, i, js[i]);
      ShufflePermutes(t[..i], js[..i]);
      assert t == t[..i] + [t[i]];
    }
  }

  /** Drawing j = i every time swaps nothing and leaves the list as it was. */
  lemma {:induction false} ShuffleIdentity<T>(s: seq<T>, js: seq<nat>)
    requires DrawsFit(js, |s|) && forall i :: 0 <= i < |s| ==> js[i] == i
    ensures Shuffle(s, js) == s
    decreases |s|
  {
    if |s| > 1 {
      var i := |s| - 1;
      assert Swap(s, i, js[i]) == s;
      ShuffleIdentity(s[..i], js[..i]);
      assert s == s[..i] + [s[i]];
    }
  }
}
