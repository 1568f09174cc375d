/** Sorted key arrays: the merge traversal and the binary search of src/SortedArrayUtil.hpp. Digests are numbers. */
module SortedArrays {
  import opened Options

  ghost predicate StrictlySorted(keys: seq<nat>)
  {
    forall i, j :: 0 <= i < j < |keys| ==> keys[i] < keys[j]
  }

  // BinarySearch: std::lower_bound, then one comparison.
  method BinarySearch(table: seq<nat>, key: nat) returns (r: Option<nat>)
    requires StrictlySorted(table)
    ensures r.Some? ==> r.value < |table| && table[r.value] == key
    ensures r.None? <==> key !in table
  {
    var lo, hi := 0, |table|;
    while lo < hi
      invariant 0 <= lo <= hi <= |table|
      invariant forall i :: 0 <= i < lo ==> table[i] < key
      invariant forall i :: hi <= i < |table| ==> key <= table[i]
    {
      var mid := (lo + hi) / 2;
      if table[mid] < key {
        lo := mid + 1;
      } else {
        hi := mid;
      }
    }
    if lo < |table| && table[lo] == key {
      return Some(lo);
    }
    return None;
  }

  // A callback of the traversal: on record i of the first or of the second array.
  datatype Visit = First(i: nat) | Second(i: nat)

  ghost predicate IsVisit(v: Visit, keys1: seq<nat>, keys2: seq<nat>)
  {
    match v case First(i) => i < |keys1| case Second(i) => i < |keys2|
  }

  function KeyOf(v: Visit, keys1: seq<nat>, keys2: seq<nat>): nat
    requires IsVisit(v, keys1, keys2)
  {
    match v case First(i) => keys1[i] case Second(i) => keys2[i]
  }

  ghost predicate InKeyOrder(visits: seq<Visit>, keys1: seq<nat>, keys2: seq<nat>)
  {
    && (forall k :: 0 <= k < |visits| ==> IsVisit(visits[k], keys1, keys2))
    && (forall k, l :: 0 <= k < l < |visits| ==> KeyOf(visits[k], keys1, keys2) < KeyOf(visits[l], keys1, keys2))
  }

  // Where the traversal stands: records below i1 and i2 are dealt with.
  ghost predicate Progressed(visits: seq<Visit>, keys1: seq<nat>, keys2: seq<nat>, i1: nat, i2: nat)
  {
    && i1 <= |keys1| && i2 <= |keys2|
    && InKeyOrder(visits, keys1, keys2)
    && (forall k :: 0 <= k < |visits| ==>
          && (i1 < |keys1| ==> KeyOf(visits[k], keys1, keys2) < keys1[i1])
          && (i2 < |keys2| ==> KeyOf(visits[k], keys1, keys2) < keys2[i2]))
    && (forall i: nat :: First(i) in visits <==> i < i1)
    && (forall i: nat :: Second(i) in visits <==> i < i2 && keys2[i] !in keys1)
    && (forall i :: 0 <= i < i2 && i1 < |keys1| ==> keys2[i] < keys1[i1])
    && (forall i :: 0 <= i < i1 && i2 < |keys2| ==> keys1[i] < keys2[i2])
  }

  lemma {:induction false} VisitFirst(
    visits: seq<Visit>, keys1: seq<nat>, keys2: seq<nat>, i1: nat, i2: nat, both: bool)
    requires StrictlySorted(keys1) && StrictlySorted(keys2) && Progressed(visits, keys1, keys2, i1, i2)
    requires i1 < |keys1| && (i2 < |keys2| ==> keys1[i1] <= keys2[i2])
    requires both == (i2 < |keys2| && keys1[i1] == keys2[i2])
    ensures Progressed(visits + [First(i1)], keys1, keys2, i1 + 1, if both then i2 + 1 else i2)
  {
    var visits' := visits + [First(i1)];
    assert forall v :: v in visits' <==> v in visits || v == First(i1);
    assert both ==> keys2[i2] in keys1;
  }

  lemma {:induction false} VisitSecond(visits: seq<Visit>, keys1: seq<nat>, keys2: seq<nat>, i1: nat, i2: nat)
    requires StrictlySorted(keys1) && StrictlySorted(keys2) && Progressed(visits, keys1, keys2, i1, i2)
    requires i2 < |keys2| && (i1 < |keys1| ==> keys2[i2] < keys1[i1])
    ensures Progressed(visits + [Second(i2)], keys1, keys2, i1, i2 + 1)
  {
    var visits' := visits + [Second(i2)];
    assert forall v :: v in visits' <==> v in visits || v == Second(i2);
  }

  // TraverseSortedArrays: one callback per distinct key, in key order, the first array winning ties.
  method TraverseSortedArrays(keys1: seq<nat>, keys2: seq<nat>) returns (visits: seq<Visit>)
    requires StrictlySorted(keys1) && StrictlySorted(keys2)
    ensures InKeyOrder(visits, keys1, keys2)
    ensures forall i: nat :: First(i) in visits <==> i < |keys1|
    ensures forall i: nat :: Second(i) in visits <==> i < |keys2| && keys2[i] !in keys1
  {
    visits := [];
    var i1, i2 := 0, 0;
    while i1 < |keys1| && i2 < |keys2|
      invariant Progressed(visits, keys1, keys2, i1, i2)
      decreases |keys1| - i1 + |keys2| - i2
    {
      if keys1[i1] <= keys2[i2] {
        VisitFirst(visits, keys1, keys2, i1, i2, keys1[i1] == keys2[i2]);
        visits := visits + [First(i1)];
        if keys1[i1] == keys2[i2] {
          i2 := i2 + 1;
        }
        i1 := i1 + 1;
      } else {
        VisitSecond(visits, keys1, keys2, i1, i2);
        visits := visits + [Second(i2)];
        i2 := i2 + 1;
      }
    }
    while i1 < |keys1|
      invariant Progressed(visits, keys1, keys2, i1, i2)
      invariant i1 < |keys1| ==> i2 == |keys2|
    {
      VisitFirst(visits, keys1, keys2, i1, i2, false);
      visits := visits + [First(i1)];
      i1 := i1 + 1;
    }
    while i2 < |keys2|
      invariant Progressed(visits, keys1, keys2, i1, i2)
      invariant i1 == |keys1|
    {
      VisitSecond(visits, keys1, keys2, i1, i2);
      visits := visits + [Second(i2)];
      i2 := i2 + 1;
    }
  }
}
