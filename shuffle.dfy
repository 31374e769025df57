/**
 * The in-place shuffle the generator applies to its list of characters.
 *
 * The shuffle is the Fisher-Yates algorithm: for i from n - 1 down to 1 it
 * draws j with 0 <= j <= i and swaps positions i and j. The draws are a
 * parameter: draws[k] is the j drawn in step k, when i == n - 1 - k.
 * Every permutation of the list is the outcome of some choice of draws
 * (a property of the algorithm that is not proved here).
 */
module Shuffle {

  /** Draws that fit a list of length n: draw k is at most n - 1 - k. */
  predicate DrawsFit(n: nat, draws: seq<nat>)
  {
    |draws| <= n && forall k | 0 <= k < |draws| :: draws[k] <= n - 1 - k
  }

  /** The draws of a complete shuffle: one per position from n - 1 down to 1. */
  predicate CompleteDraws(n: nat, draws: seq<nat>)
  {
    DrawsFit(n, draws) && |draws| == (if n == 0 then 0 else n - 1)
  }

  /** Exchange the elements at positions i and j. */
  function Swap<T>(s: seq<T>, i: nat, j: nat): (t: seq<T>)
    requires i < |s| && j < |s|
    ensures |t| == |s|
  {
    s[i := s[j]][j := s[i]]
  }

  /** Swapping two positions only exchanges their contents, so it keeps the multiset. */
  lemma SwapIsPermutation<T>(s: seq<T>, i: nat, j: nat)
    requires i < |s| && j < |s|
    ensures multiset(Swap(s, i, j)) == multiset(s)
  {
  }

  /**
   * The list after the swaps of draws k, k + 1, ... in order; the whole
   * shuffle is Shuffled(s, draws, 0).
   */
  function Shuffled<T>(s: seq<T>, draws: seq<nat>, k: nat): (t: seq<T>)
    requires DrawsFit(|s|, draws) && k <= |draws|
    ensures |t| == |s|
    decreases |draws| - k
  {
    if k == |draws| then s
    else Shuffled(Swap(s, |s| - 1 - k, draws[k]), draws, k + 1)
  }

  /** A shuffle is a permutation: it keeps every element with its multiplicity. */
  lemma {:induction false} ShuffledIsPermutation<T>(s: seq<T>, draws: seq<nat>, k: nat)
    requires DrawsFit(|s|, draws) && k <= |draws|
    ensures multiset(Shuffled(s, draws, k)) == multiset(s)
    decreases |draws| - k
  {
    if k < |draws| {
      var t := Swap(s, |s| - 1 - k, draws[k]);
      SwapIsPermutation(s, |s| - 1 - k, draws[k]);
      ShuffledIsPermutation(t, draws, k + 1);
      assert Shuffled(s, draws, k) == Shuffled(t, draws, k + 1);
    }
  }

  /** A shuffle keeps exactly the elements it was given, so membership is unchanged. */
  lemma ShuffledSameElements<T>(s: seq<T>, draws: seq<nat>)
    requires DrawsFit(|s|, draws)
    ensures forall x :: x in Shuffled(s, draws, 0) <==> x in s
  {
    ShuffledIsPermutation(s, draws, 0);
    var t := Shuffled(s, draws, 0);
    forall x
      ensures x in t <==> x in s
    {
      assert x in t <==> x in multiset(t);
      assert x in s <==> x in multiset(s);
    }
  }

  /** `random.shuffle(a)` with the given draws, in place. */
  method ShuffleInPlace<T>(a: array<T>, draws: seq<nat>)
    requires CompleteDraws(a.Length, draws)
    modifies a
    ensures a[..] == Shuffled(old(a[..]), draws, 0)
    ensures multiset(a[..]) == multiset(old(a[..]))
  {
    var k := 0;
    while k < |draws|
      invariant 0 <= k <= |draws|
      invariant Shuffled(a[..], draws, k) == Shuffled(old(a[..]), draws, 0)
    {
      var i := a.Length - 1 - k;
      var j := draws[k];
      var t := a[i];
      a[i] := a[j];
      a[j] := t;
      k := k + 1;
    }
    ShuffledIsPermutation(old(a[..]), draws, 0);
  }
}
