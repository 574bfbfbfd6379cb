/** The Fisher–Yates shuffle of `randomizeDraftTeams`, as a specification over sequences.
    The random draw `Math.floor(Math.random() * (i + 1))` is an oracle: pass `i` draws
    `oracle(i) % (i + 1)`, which ranges over every index `0 <= j <= i`. */
module Shuffle {
  import opened Tables

  /** Exchange the elements at `i` and `j` (the same sequence when `i == j`). */
  function Swap<T>(s: seq<T>, i: nat, j: nat): (r: seq<T>)
    requires i < |s| && j < |s|
    ensures |r| == |s| && r[i] == s[j] && r[j] == s[i]
    ensures forall k :: 0 <= k < |s| && k != i && k != j ==> r[k] == s[k]
  {
    s[i := s[j]][j := s[i]]
  }

  /** The passes `i - 1, i - 2, ..., 1` of the descending shuffle loop, applied to `s`;
      `FisherYates(s, oracle, |s|)` is the whole shuffle. */
  function FisherYates<T>(s: seq<T>, oracle: nat -> nat, i: nat): (r: seq<T>)
    requires i <= |s|
    ensures |r| == |s|
    decreases i
  {
    if i <= 1 then s
    else FisherYates(Swap(s, i - 1, oracle(i - 1) % i), oracle, i - 1)
  }

  /** The shuffle loop itself, on an array copy of the teams: for `i` from the last index
      down to 1, exchange `a[i]` and `a[oracle(i) % (i + 1)]`. */
  method ShuffleInPlace<T>(a: array<T>, oracle: nat -> nat)
    modifies a
    ensures a[..] == FisherYates(old(a[..]), oracle, a.Length)
  {
    if a.Length == 0 {
      return;
    }
    var i := a.Length - 1;
    while i > 0
      invariant 0 <= i < a.Length
      invariant FisherYates(a[..], oracle, i + 1) == FisherYates(old(a[..]), oracle, a.Length)
    {
      var j := oracle(i) % (i + 1);
      ghost var prev := a[..];
      var tmp := a[i];
      a[i] := a[j];
      a[j] := tmp;
      assert a[..] == Swap(prev, i, j);
      i := i - 1;
    }
  }

  /** A swap only rearranges. */
  lemma SwapPermutes<T>(s: seq<T>, i: nat, j: nat)
    requires i < |s| && j < |s|
    ensures multiset(Swap(s, i, j)) == multiset(s)
  {
    var t := s[i := s[j]];
    assert multiset(t) == multiset(s) - multiset{s[i]} + multiset{s[j]};
    assert multiset(t[j := s[i]]) == multiset(t) - multiset{t[j]} + multiset{s[i]};
  }

  /** The shuffle is a permutation of its input, whatever the draws. */
  lemma {:induction false} FisherYatesPermutes<T>(s: seq<T>, oracle: nat -> nat, i: nat)
    requires i <= |s|
    ensures multiset(FisherYates(s, oracle, i)) == multiset(s)
    decreases i
  {
    if i > 1 {
      SwapPermutes(s, i - 1, oracle(i - 1) % i);
      FisherYatesPermutes(Swap(s, i - 1, oracle(i - 1) % i), oracle, i - 1);
    }
  }

  /** Sequences with the same multiset of elements have the same elements. */
  lemma SameElements<T>(a: seq<T>, b: seq<T>, x: T)
    requires multiset(a) == multiset(b)
    ensures x in a <==> x in b
  {
    assert x in a <==> x in multiset(a);
    assert x in b <==> x in multiset(b);
  }

  /** An element of a sequence without repetitions occurs in it once. */
  lemma {:induction false} DistinctOnce<T>(s: seq<T>, x: T)
    requires Distinct(s)
    ensures multiset(s)[x] <= 1
  {
    if s != [] {
      assert s == [s[0]] + s[1..];
      assert Distinct(s[1..]);
      DistinctOnce(s[1..], x);
      assert s[0] !in s[1..];
    }
  }

  /** Rearranging a sequence without repetitions leaves none. */
  lemma PermutationKeepsDistinct<T>(a: seq<T>, b: seq<T>)
    requires multiset(a) == multiset(b) && Distinct(a)
    ensures Distinct(b)
  {
    forall i, j | 0 <= i < j < |b|
      ensures b[i] != b[j]
    {
      if b[i] == b[j] {
        assert b == b[..i] + [b[i]] + b[i + 1..j] + [b[j]] + b[j + 1..];
        assert multiset(b)[b[i]] >= 2;
        DistinctOnce(a, b[i]);
      }
    }
  }
}
