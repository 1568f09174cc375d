/** Finite sums over sequences, used for every counter the build queue keeps. */
module Sums {

  function Sum(s: seq<int>): int
  {
    if s == [] then 0 else s[0] + Sum(s[1..])
  }

  lemma {:induction false} SumUpdate(s: seq<int>, i: nat, v: int)
    requires i < |s|
    ensures Sum(s[i := v]) == Sum(s) - s[i] + v
  {
    if i == 0 {
      assert s[i := v][1..] == s[1..];
    } else {
      assert s[i := v][1..] == s[1..][i - 1 := v];
      SumUpdate(s[1..], i - 1, v);
    }
  }

  lemma {:induction false} SumMonotone(s: seq<int>, s': seq<int>)
    requires |s| == |s'|
    requires forall i :: 0 <= i < |s| ==> s[i] <= s'[i]
    ensures Sum(s) <= Sum(s')
  {
    if s != [] {
      SumMonotone(s[1..], s'[1..]);
    }
  }

  lemma {:induction false} SumConstant(s: seq<int>, v: int)
    requires forall i :: 0 <= i < |s| ==> s[i] == v
    ensures Sum(s) == v * |s|
  {
    if s != [] {
      SumConstant(s[1..], v);
    }
  }

  // A sum of non-negative terms dominates each of its terms.
  lemma {:induction false} SumAtLeast(s: seq<int>, i: nat)
    requires forall k :: 0 <= k < |s| ==> 0 <= s[k]
    requires i < |s|
    ensures s[i] <= Sum(s)
  {
    var z := seq(|s|, _ => 0);
    SumConstant(z, 0);
    SumUpdate(z, i, s[i]);
    SumMonotone(z[i := s[i]], s);
  }
}
