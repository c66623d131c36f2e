// shuffleArray: the in-place Fisher-Yates shuffle used for answer options,
// with its random draws passed in.

module Shuffle {

  /** The random draws of one Fisher-Yates pass over `n` elements: the draw
      for position i is some j with 0 <= j <= i (entry 0 is never used). */
  predicate ValidChoices(choices: seq<nat>, n: nat)
  {
    |choices| == n && forall i :: 0 <= i < n ==> choices[i] <= i
  }

  /** Exchange the elements at positions i and j. */
  function Swap<T>(s: seq<T>, i: nat, j: nat): (r: seq<T>)
    requires i < |s| && j < |s|
  {
    s[i := s[j]][j := s[i]]
  }

  lemma SwapPermutes<T>(s: seq<T>, i: nat, j: nat)
    requires i < |s| && j < |s|
    ensures |Swap(s, i, j)| == |s|
    ensures multiset(Swap(s, i, j)) == multiset(s)
  {
    var t := s[i := s[j]];
    assert multiset(t) == multiset(s) - multiset{s[i]} + multiset{s[j]};
    assert multiset(t[j := s[i]]) == multiset(t) - multiset{t[j]} + multiset{s[i]};
  }

  /** The swaps of the pass for positions i, i-1, ..., 1, in that order. */
  function ShuffleSteps<T>(s: seq<T>, choices: seq<nat>, i: int): (r: seq<T>)
    requires ValidChoices(choices, |s|) && i < |s|
    decreases i
  {
    if i <= 0 then s else ShuffleSteps(Swap(s, i, choices[i]), choices, i - 1)
  }

  /** The whole pass, from the last position down to position 1. */
  function Shuffled<T>(s: seq<T>, choices: seq<nat>): (r: seq<T>)
    requires ValidChoices(choices, |s|)
    ensures |r| == |s|
  {
    ShuffleStepsPermutes(s, choices, |s| - 1);
    ShuffleSteps(s, choices, |s| - 1)
  }

  lemma {:induction false} ShuffleStepsPermutes<T>(s: seq<T>, choices: seq<nat>, i: int)
    requires ValidChoices(choices, |s|) && i < |s|
    ensures |ShuffleSteps(s, choices, i)| == |s|
    ensures multiset(ShuffleSteps(s, choices, i)) == multiset(s)
    decreases i
  {
    if i > 0 {
      var t := Swap(s, i, choices[i]);
      SwapPermutes(s, i, choices[i]);
      ShuffleStepsPermutes(t, choices, i - 1);
    }
  }

  /** Whatever the draws, the pass yields a permutation of its input. */
  lemma ShuffledPermutes<T>(s: seq<T>, choices: seq<nat>)
    requires ValidChoices(choices, |s|)
    ensures multiset(Shuffled(s, choices)) == multiset(s)
  {
    ShuffleStepsPermutes(s, choices, |s| - 1);
  }

  lemma {:induction false} ShuffleStepsKeepsPrefixFixed<T>(s: seq<T>, choices: seq<nat>, i: int)
    requires ValidChoices(choices, |s|) && i < |s|
    requires forall k :: 0 < k <= i ==> choices[k] == k
    ensures ShuffleSteps(s, choices, i) == s
    decreases i
  {
    if i > 0 {
      assert Swap(s, i, choices[i]) == s;
      ShuffleStepsKeepsPrefixFixed(s, choices, i - 1);
    }
  }

  /** Drawing j == i at every step swaps each element with itself. */
  lemma IdentityDrawsKeepOrder<T>(s: seq<T>, choices: seq<nat>)
    requires ValidChoices(choices, |s|)
    requires forall k :: 0 <= k < |s| ==> choices[k] == k
    ensures Shuffled(s, choices) == s
  {
    ShuffleStepsKeepsPrefixFixed(s, choices, |s| - 1);
  }

  /** shuffleArray: Fisher-Yates in place, position i swapped with choices[i]
      for i = |a|-1 down to 1. */
  method ShuffleArray<T>(a: array<T>, choices: seq<nat>)
    requires ValidChoices(choices, a.Length)
    modifies a
    ensures a[..] == Shuffled(old(a[..]), choices)
    ensures multiset(a[..]) == multiset(old(a[..]))
  {
    ghost var goal := Shuffled(a[..], choices);
    var i := a.Length - 1;
    while i > 0
      invariant -1 <= i < a.Length
      invariant ShuffleSteps(a[..], choices, i) == goal
    {
      var j := choices[i];
      ghost var before := a[..];
      a[i], a[j] := a[j], a[i];
      assert a[..] == Swap(before, i, j);
      i := i - 1;
    }
    assert a[..] == goal;
    ShuffledPermutes(old(a[..]), choices);
  }
}
