/** Index sequences: bounds, distinctness and the pigeonhole principle. */
module Sequences {

  predicate Below(s: seq<nat>, bound: nat)
  {
    forall i :: 0 <= i < |s| ==> s[i] < bound
  }

  ghost predicate Distinct<T>(s: seq<T>)
  {
    forall i, j :: 0 <= i < j < |s| ==> s[i] != s[j]
  }

  lemma {:induction false} ConcatAssociative<T>(a: seq<T>, b: seq<T>, c: seq<T>)
    ensures a + (b + c) == (a + b) + c
  {
  }

  lemma {:induction false} AppendElement<T>(s: seq<T>, x: T)
    ensures multiset(s + [x]) == multiset(s) + multiset{x}
  {
  }

  // Distinct indices below n are at most n.
  lemma {:induction false} DistinctBound(s: seq<nat>, n: nat)
    requires Distinct(s) && Below(s, n)
    ensures |s| <= n
    decreases n
  {
    if s != [] {
      assert s[0] < n;
      if i :| 0 <= i < |s| && s[i] == n - 1 {
        var t := s[..i] + s[i + 1..];
        assert forall k :: 0 <= k < |t| ==> t[k] == if k < i then s[k] else s[k + 1];
        DistinctBound(t, n - 1);
      } else {
        DistinctBound(s, n - 1);
      }
    }
  }

  // ... and fewer than n when one index is missing.
  lemma {:induction false} Pigeonhole(s: seq<nat>, n: nat, missing: nat)
    requires Distinct(s) && Below(s, n) && missing < n && missing !in s
    ensures |s| < n
  {
    DistinctBound(s + [missing], n);
  }

  /* ---- Permutations of 0 .. n - 1 ---- */

  ghost predicate IsPermutation(order: seq<nat>, n: nat)
  {
    |order| == n && Distinct(order) && Below(order, n)
  }

  lemma {:induction false} PermutationOnto(order: seq<nat>, n: nat, x: nat)
    requires IsPermutation(order, n) && x < n
    ensures x in order
  {
    if x !in order {
      Pigeonhole(order, n, x);
    }
  }

  ghost predicate Inverse(order: seq<nat>, position: seq<nat>, n: nat)
  {
    && IsPermutation(order, n) && IsPermutation(position, n)
    && (forall i: nat :: i < n ==> position[order[i]] == i)
    && (forall x: nat :: x < n ==> order[position[x]] == x)
  }

  // std::sort of the records 0 .. |keys| - 1 by key. Nothing is said about the order of equal keys.
  method SortByKey(keys: seq<nat>) returns (order: seq<nat>)
    ensures IsPermutation(order, |keys|)
    ensures forall i, j :: 0 <= i < j < |keys| ==> keys[order[i]] <= keys[order[j]]
  {
    order := [];
    for k := 0 to |keys|
      invariant IsPermutation(order, k)
      invariant forall i, j :: 0 <= i < j < k ==> keys[order[i]] <= keys[order[j]]
    {
      var at := 0;
      while at < k && keys[order[at]] <= keys[k]
        invariant 0 <= at <= k
        invariant forall i :: 0 <= i < at ==> keys[order[i]] <= keys[k]
      {
        at := at + 1;
      }
      order := order[..at] + [k] + order[at..];
    }
  }

  // Scatter the positions of a permutation.
  method Invert(order: seq<nat>) returns (position: seq<nat>)
    requires IsPermutation(order, |order|)
    ensures Inverse(order, position, |order|)
  {
    var table := new nat[|order|];
    for i := 0 to |order|
      invariant forall j :: 0 <= j < i ==> table[order[j]] == j
    {
      table[order[i]] := i;
    }
    position := table[..];
    InverseFromLeft(order, position);
  }

  lemma {:induction false} InverseFromLeft(order: seq<nat>, position: seq<nat>)
    requires IsPermutation(order, |order|) && |position| == |order|
    requires forall i :: 0 <= i < |order| ==> position[order[i]] == i
    ensures Inverse(order, position, |order|)
  {
    var n := |order|;
    forall x: nat | x < n ensures position[x] < n && order[position[x]] == x {
      PermutationOnto(order, n, x);
      var i :| 0 <= i < n && order[i] == x;
    }
  }
}
