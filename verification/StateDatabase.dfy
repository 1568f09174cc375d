/**
 The incremental-build database: DriverSaveBuildState merges the records of the previous build with the outcome of
 this one, and any sequence of builds keeps it truthful as long as no build leaves a node at kRunAction.
 */
module StateDatabase {
  import opened Options
  import opened Sequences
  import opened BuildQueueModel
  import opened SortedArrays

  // The compiled DAG, as far as the database sees it: guids in strictly increasing order.
  datatype Dag = Dag(guids: seq<nat>, outputs: seq<seq<string>>)

  ghost predicate DagOk(dag: Dag)
  {
    StrictlySorted(dag.guids) && |dag.outputs| == |dag.guids|
  }

  datatype Entry = Entry(guid: nat, record: Record)

  function Guids(db: seq<Entry>): seq<nat>
  {
    seq(|db|, i requires 0 <= i < |db| => db[i].guid)
  }

  function Lookup(db: seq<Entry>, guid: nat): Option<Record>
  {
    if db == [] then None
    else if db[|db| - 1].guid == guid then Some(db[|db| - 1].record)
    else Lookup(db[..|db| - 1], guid)
  }

  // A node of this build: its place in the DAG and its final state.
  datatype Node = Node(dagIndex: nat, state: NodeState)

  ghost predicate NodesOk(dag: Dag, nodes: seq<Node>)
  {
    && (forall i :: 0 <= i < |nodes| ==> nodes[i].dagIndex < |dag.guids|)
    && (forall i, j :: 0 <= i < j < |nodes| ==> nodes[i].dagIndex != nodes[j].dagIndex)
  }

  predicate Early(p: Progress)
  {
    p.Initial? || p.Blocked?
  }

  /* ---- What is saved, key by key ---- */

  function Fresh(dag: Dag, n: Node): Record
    requires |dag.outputs| == |dag.guids| && n.dagIndex < |dag.guids|
  {
    Record(n.state.result, n.state.signature, dag.outputs[n.dagIndex])
  }

  function Kept(prev: seq<Entry>, guid: nat, outputs: seq<string>): Option<Record>
  {
    var r := Lookup(prev, guid);
    if r.Some? then Some(r.value.(outputs := outputs)) else None
  }

  // The record r that this build owes the key `guid`.
  ghost predicate Owed(dag: Dag, nodes: seq<Node>, prev: seq<Entry>, guid: nat, r: Option<Record>)
    requires DagOk(dag) && NodesOk(dag, nodes)
  {
    // A selected node: its own outcome, or its old record if it never got a signature.
    && (forall i :: 0 <= i < |nodes| && dag.guids[nodes[i].dagIndex] == guid ==>
          r == if Early(nodes[i].state.progress) then Lookup(prev, guid) else Some(Fresh(dag, nodes[i])))
    // A node outside this build: the old record, if the node still exists.
    && ((forall i :: 0 <= i < |nodes| ==> dag.guids[nodes[i].dagIndex] != guid) ==>
          if guid in dag.guids
          then forall d :: 0 <= d < |dag.guids| && dag.guids[d] == guid ==> r == Kept(prev, guid, dag.outputs[d])
          else r == None)
  }

  /* ---- Lookup ---- */

  lemma {:induction false} LookupAbsent(db: seq<Entry>, guid: nat)
    ensures guid !in Guids(db) <==> Lookup(db, guid).None?
  {
    if db != [] {
      LookupAbsent(db[..|db| - 1], guid);
      var g := Guids(db);
      assert g[|db| - 1] == db[|db| - 1].guid;
      assert g == Guids(db[..|db| - 1]) + [db[|db| - 1].guid];
    }
  }

  lemma {:induction false} LookupIndex(db: seq<Entry>, i: nat)
    requires StrictlySorted(Guids(db)) && i < |db|
    ensures Lookup(db, db[i].guid) == Some(db[i].record)
  {
    var g := Guids(db);
    if i < |db| - 1 {
      assert g[i] < g[|db| - 1];
      assert Guids(db[..|db| - 1]) == g[..|db| - 1];
      LookupIndex(db[..|db| - 1], i);
    }
  }

  lemma {:induction false} LookupAppend(db: seq<Entry>, e: Entry, guid: nat)
    ensures Lookup(db + [e], guid) == if e.guid == guid then Some(e.record) else Lookup(db, guid)
  {
    assert (db + [e])[..|db|] == db;
  }

  /* ---- DriverSaveBuildState ---- */

  ghost predicate ByDag(nodes: seq<Node>)
  {
    forall i, j :: 0 <= i < j < |nodes| ==> nodes[i].dagIndex < nodes[j].dagIndex
  }

  // std::sort by position in the DAG.
  method SortByDag(dag: Dag, nodes: seq<Node>) returns (sorted: seq<Node>)
    requires NodesOk(dag, nodes)
    ensures NodesOk(dag, sorted) && ByDag(sorted)
    ensures forall n :: n in sorted <==> n in nodes
  {
    var order := SortByKey(seq(|nodes|, i requires 0 <= i < |nodes| => nodes[i].dagIndex));
    sorted := seq(|nodes|, i requires 0 <= i < |nodes| => nodes[order[i]]);
    forall n | n in nodes ensures n in sorted {
      var k :| 0 <= k < |nodes| && nodes[k] == n;
      PermutationOnto(order, |nodes|, k);
      var i :| 0 <= i < |order| && order[i] == k;
      assert sorted[i] == n;
    }
  }

  function NodeKeys(dag: Dag, nodes: seq<Node>): seq<nat>
    requires forall i :: 0 <= i < |nodes| ==> nodes[i].dagIndex < |dag.guids|
  {
    seq(|nodes|, i requires 0 <= i < |nodes| => dag.guids[nodes[i].dagIndex])
  }

  // save_new
  method SaveNew(dag: Dag, prev: seq<Entry>, n: Node) returns (r: Option<Record>)
    requires DagOk(dag) && n.dagIndex < |dag.guids| && StrictlySorted(Guids(prev))
    ensures r == if Early(n.state.progress) then Lookup(prev, dag.guids[n.dagIndex]) else Some(Fresh(dag, n))
  {
    var guid := dag.guids[n.dagIndex];
    if n.state.progress.Initial? || n.state.progress.Blocked? {
      var at := BinarySearch(Guids(prev), guid);
      LookupAbsent(prev, guid);
      if at.Some? {
        LookupIndex(prev, at.value);
        return Some(prev[at.value].record);
      }
      return None;
    }
    return Some(Record(n.state.result, n.state.signature, dag.outputs[n.dagIndex]));
  }

  ghost predicate SavedKept(dag: Dag, prev: seq<Entry>, guid: nat, r: Option<Record>)
    requires DagOk(dag)
  {
    forall d :: r.Some? && 0 <= d < |dag.guids| && dag.guids[d] == guid ==> r == Kept(prev, guid, dag.outputs[d])
  }

  // save_old
  method SaveOld(dag: Dag, prev: seq<Entry>, i: nat) returns (r: Option<Record>)
    requires DagOk(dag) && i < |prev| && StrictlySorted(Guids(prev))
    ensures r.None? <==> prev[i].guid !in dag.guids
    ensures SavedKept(dag, prev, prev[i].guid, r)
  {
    var at := BinarySearch(dag.guids, prev[i].guid);
    LookupIndex(prev, i);
    if at.Some? {
      return Some(prev[i].record.(outputs := dag.outputs[at.value]));
    }
    return None;
  }

  lemma {:induction false} LookupAppended(db: seq<Entry>, e: Entry)
    ensures forall g: nat :: Lookup(db + [e], g) == if e.guid == g then Some(e.record) else Lookup(db, g)
  {
    forall g: nat ensures Lookup(db + [e], g) == if e.guid == g then Some(e.record) else Lookup(db, g) {
      LookupAppend(db, e, g);
    }
  }

  // The merged database holds, for every key, exactly what this build owes it, in strictly increasing key order.
  method SaveBuildState(dag: Dag, nodes: seq<Node>, prev: seq<Entry>) returns (db: seq<Entry>)
    requires DagOk(dag) && NodesOk(dag, nodes) && StrictlySorted(Guids(prev))
    ensures StrictlySorted(Guids(db))
    ensures forall g: nat :: Owed(dag, nodes, prev, g, Lookup(db, g))
  {
    var sorted := SortByDag(dag, nodes);
    var keys1, keys2 := NodeKeys(dag, sorted), Guids(prev);
    var visits := TraverseSortedArrays(keys1, keys2);
    db := [];
    for k := 0 to |visits|
      invariant StrictlySorted(Guids(db))
      invariant forall i, l :: 0 <= i < |db| && k <= l < |visits| ==> db[i].guid < KeyOf(visits[l], keys1, keys2)
      invariant forall g: nat :: Visited(visits[..k], keys1, keys2, g) ==> Owed(dag, sorted, prev, g, Lookup(db, g))
      invariant forall g: nat :: !Visited(visits[..k], keys1, keys2, g) ==> Lookup(db, g) == None
    {
      var key := KeyOf(visits[k], keys1, keys2);
      var r;
      if visits[k].First? {
        r := SaveNew(dag, prev, sorted[visits[k].i]);
      } else {
        r := SaveOld(dag, prev, visits[k].i);
      }
      PaysOwed(dag, sorted, prev, visits, k, r);
      VisitedGrows(visits, keys1, keys2, k);
      if r.Some? {
        var e := Entry(key, r.value);
        LookupAppended(db, e);
        AppendSorted(db, e);
        db := db + [e];
      }
    }
    assert visits[..|visits|] == visits;
    forall g: nat ensures Owed(dag, nodes, prev, g, Lookup(db, g)) {
      if !Visited(visits, keys1, keys2, g) {
        UnvisitedOwed(dag, sorted, prev, visits, g);
      }
      SameOwed(dag, nodes, sorted, prev, g, Lookup(db, g));
    }
  }

  ghost predicate Visited(visits: seq<Visit>, keys1: seq<nat>, keys2: seq<nat>, g: nat)
  {
    exists k :: 0 <= k < |visits| && IsVisit(visits[k], keys1, keys2) && KeyOf(visits[k], keys1, keys2) == g
  }

  lemma {:induction false} VisitedGrows(visits: seq<Visit>, keys1: seq<nat>, keys2: seq<nat>, k: nat)
    requires k < |visits| && InKeyOrder(visits, keys1, keys2)
    ensures forall g: nat :: Visited(visits[..k + 1], keys1, keys2, g) <==>
              Visited(visits[..k], keys1, keys2, g) || g == KeyOf(visits[k], keys1, keys2)
    ensures !Visited(visits[..k], keys1, keys2, KeyOf(visits[k], keys1, keys2))
  {
    forall g: nat ensures Visited(visits[..k + 1], keys1, keys2, g) <==>
        Visited(visits[..k], keys1, keys2, g) || g == KeyOf(visits[k], keys1, keys2) {
      if Visited(visits[..k], keys1, keys2, g) {
        var l :| 0 <= l < k && IsVisit(visits[..k][l], keys1, keys2) && KeyOf(visits[..k][l], keys1, keys2) == g;
        assert visits[..k + 1][l] == visits[l];
      }
      assert visits[..k + 1][k] == visits[k];
      if Visited(visits[..k + 1], keys1, keys2, g) && g != KeyOf(visits[k], keys1, keys2) {
        var l :| 0 <= l < k + 1 && IsVisit(visits[..k + 1][l], keys1, keys2) && KeyOf(visits[..k + 1][l], keys1, keys2) == g;
        assert visits[..k][l] == visits[l];
      }
    }
  }

  lemma {:induction false} AppendSorted(db: seq<Entry>, e: Entry)
    requires StrictlySorted(Guids(db)) && forall i :: 0 <= i < |db| ==> db[i].guid < e.guid
    ensures StrictlySorted(Guids(db + [e]))
  {
    assert Guids(db + [e]) == Guids(db) + [e.guid];
  }

  lemma {:induction false} PaysOwed(
    dag: Dag, sorted: seq<Node>, prev: seq<Entry>, visits: seq<Visit>, k: nat, r: Option<Record>)
    requires DagOk(dag) && NodesOk(dag, sorted) && StrictlySorted(Guids(prev)) && k < |visits|
    requires InKeyOrder(visits, NodeKeys(dag, sorted), Guids(prev))
    requires forall i: nat :: Second(i) in visits ==> i < |prev| && prev[i].guid !in NodeKeys(dag, sorted)
    requires visits[k].First? ==>
               r == (if Early(sorted[visits[k].i].state.progress)
                     then Lookup(prev, dag.guids[sorted[visits[k].i].dagIndex])
                     else Some(Fresh(dag, sorted[visits[k].i])))
    requires visits[k].Second? ==>
               var guid := prev[visits[k].i].guid;
               && (r.None? <==> guid !in dag.guids)
               && SavedKept(dag, prev, guid, r)
    ensures Owed(dag, sorted, prev, KeyOf(visits[k], NodeKeys(dag, sorted), Guids(prev)), r)
  {
    var keys1 := NodeKeys(dag, sorted);
    if visits[k].Second? {
      assert Second(visits[k].i) in visits;
      forall i | 0 <= i < |sorted| ensures dag.guids[sorted[i].dagIndex] != prev[visits[k].i].guid {
        assert keys1[i] in keys1;
      }
    }
  }

  lemma {:induction false} UnvisitedOwed(dag: Dag, sorted: seq<Node>, prev: seq<Entry>, visits: seq<Visit>, g: nat)
    requires DagOk(dag) && NodesOk(dag, sorted)
    requires !Visited(visits, NodeKeys(dag, sorted), Guids(prev), g)
    requires forall i: nat :: First(i) in visits <==> i < |sorted|
    requires forall i: nat :: Second(i) in visits <==> i < |prev| && prev[i].guid !in NodeKeys(dag, sorted)
    requires InKeyOrder(visits, NodeKeys(dag, sorted), Guids(prev))
    ensures Owed(dag, sorted, prev, g, None)
  {
    var keys1 := NodeKeys(dag, sorted);
    var keys2 := Guids(prev);
    forall i: nat | i < |sorted| ensures dag.guids[sorted[i].dagIndex] != g {
      assert First(i) in visits;
      var k :| 0 <= k < |visits| && visits[k] == First(i);
      assert IsVisit(visits[k], keys1, keys2);
    }
    forall i: nat | i < |prev| ensures keys2[i] != g {
      if keys2[i] in keys1 {
        var j :| 0 <= j < |keys1| && keys1[j] == keys2[i];
        assert dag.guids[sorted[j].dagIndex] != g;
      } else {
        assert Second(i) in visits;
        var k :| 0 <= k < |visits| && visits[k] == Second(i);
        assert IsVisit(visits[k], keys1, keys2);
      }
    }
    LookupAbsent(prev, g);
  }

  lemma {:induction false} SameOwed(
    dag: Dag, nodes: seq<Node>, sorted: seq<Node>, prev: seq<Entry>, g: nat, r: Option<Record>)
    requires DagOk(dag) && NodesOk(dag, nodes) && NodesOk(dag, sorted)
    requires forall n :: n in sorted <==> n in nodes
    requires Owed(dag, sorted, prev, g, r)
    ensures Owed(dag, nodes, prev, g, r)
  {
    forall i | 0 <= i < |nodes| && dag.guids[nodes[i].dagIndex] == g
      ensures r == if Early(nodes[i].state.progress) then Lookup(prev, g) else Some(Fresh(dag, nodes[i])) {
      assert nodes[i] in sorted;
      var j :| 0 <= j < |sorted| && sorted[j] == nodes[i];
    }
    if forall i :: 0 <= i < |nodes| ==> dag.guids[nodes[i].dagIndex] != g {
      forall j | 0 <= j < |sorted| ensures dag.guids[sorted[j].dagIndex] != g {
        assert sorted[j] in nodes;
      }
    }
  }
}
