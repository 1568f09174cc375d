/**
 The front end of a run (DriverPrepareNodes in src/Driver.cpp): the dependency closure of the targets, laid out pass
 by pass, and the table that maps DAG positions to local ones. It establishes everything the build queue relies on.
 */
module Driver {
  import opened Options
  import opened Sequences
  import opened BuildQueueModel
  import opened SortedArrays
  import opened DagCompiler
  import opened StateDatabase

  // The compiled DAG: guids in strictly increasing order and one node per guid.
  datatype DagNode = DagNode(links: Compiled, expensive: bool, emptyAction: bool, outputs: seq<string>)
  datatype DagData = DagData(guids: seq<nat>, nodes: seq<DagNode>, passCount: nat)

  function Links(dag: DagData): (r: seq<Compiled>)
    ensures |r| == |dag.nodes| && forall i :: 0 <= i < |r| ==> r[i] == dag.nodes[i].links
  {
    seq(|dag.nodes|, i requires 0 <= i < |dag.nodes| => dag.nodes[i].links)
  }

  // What the DAG compiler delivers.
  ghost predicate DagDataOk(dag: DagData)
  {
    |dag.guids| == |dag.nodes| && StrictlySorted(dag.guids) && Converse(Links(dag))
  }

  ghost predicate DepsBelow(dag: DagData)
  {
    forall x :: 0 <= x < |dag.nodes| ==> Below(dag.nodes[x].links.deps, |dag.nodes|)
  }

  /* ---- Reachability ---- */

  // A chain of dependencies that starts at a target and ends at x.
  ghost predicate IsChain(dag: DagData, targets: seq<nat>, chain: seq<nat>, x: nat)
  {
    && |chain| > 0 && chain[0] in targets && chain[|chain| - 1] == x && Below(chain, |dag.nodes|)
    && forall i :: 0 < i < |chain| ==> chain[i] in dag.nodes[chain[i - 1]].links.deps
  }

  ghost predicate Needed(dag: DagData, targets: seq<nat>, x: nat)
  {
    exists chain: seq<nat> :: IsChain(dag, targets, chain, x)
  }

  lemma {:induction false} TargetNeeded(dag: DagData, targets: seq<nat>, x: nat)
    requires x in targets && x < |dag.nodes|
    ensures Needed(dag, targets, x)
  {
    assert IsChain(dag, targets, [x], x);
  }

  lemma {:induction false} DependencyNeeded(dag: DagData, targets: seq<nat>, x: nat, d: nat)
    requires DepsBelow(dag) && x < |dag.nodes| && Needed(dag, targets, x) && d in dag.nodes[x].links.deps
    ensures Needed(dag, targets, d)
  {
    var chain: seq<nat> :| IsChain(dag, targets, chain, x);
    assert IsChain(dag, targets, chain + [d], d);
  }

  // A set that holds the targets and is closed under dependencies holds everything needed.
  lemma {:induction false} ClosedHoldsNeeded(dag: DagData, targets: seq<nat>, chosen: seq<nat>, chain: seq<nat>, x: nat)
    requires forall t :: t in targets ==> t in chosen
    requires forall y, d :: y in chosen && y < |dag.nodes| && d in dag.nodes[y].links.deps ==> d in chosen
    requires IsChain(dag, targets, chain, x)
    ensures x in chosen
    decreases |chain|
  {
    if |chain| > 1 {
      var y := chain[|chain| - 2];
      assert IsChain(dag, targets, chain[..|chain| - 1], y);
      ClosedHoldsNeeded(dag, targets, chosen, chain[..|chain| - 1], y);
      assert chain[|chain| - 1] in dag.nodes[y].links.deps;
    }
  }

  /* ---- Node selection ---- */

  function PassOf(dag: DagData, x: nat): nat
    requires x < |dag.nodes|
  {
    dag.nodes[x].links.pass
  }

  function PassesOf(dag: DagData, chosen: seq<nat>): (r: seq<nat>)
    requires Below(chosen, |dag.nodes|)
    ensures |r| == |chosen| && forall i :: 0 <= i < |r| ==> r[i] == PassOf(dag, chosen[i])
  {
    seq(|chosen|, i requires 0 <= i < |chosen| => PassOf(dag, chosen[i]))
  }

  // The state of the worklist: everything chosen or waiting is needed, and the two together are closed.
  ghost predicate Selecting(dag: DagData, targets: seq<nat>, chosen: seq<nat>, stack: seq<nat>)
  {
    && Distinct(chosen) && Below(chosen, |dag.nodes|) && Below(stack, |dag.nodes|)
    && (forall x :: x in chosen || x in stack ==> Needed(dag, targets, x))
    && (forall t :: t in targets ==> t in chosen || t in stack)
    && (forall i, k :: 0 <= i < |chosen| && 0 <= k < |dag.nodes[chosen[i]].links.deps| ==>
          dag.nodes[chosen[i]].links.deps[k] in chosen || dag.nodes[chosen[i]].links.deps[k] in stack)
  }

  lemma {:induction false} SkipVisited(dag: DagData, targets: seq<nat>, chosen: seq<nat>, stack: seq<nat>)
    requires Selecting(dag, targets, chosen, stack) && stack != [] && stack[|stack| - 1] in chosen
    ensures Selecting(dag, targets, chosen, stack[..|stack| - 1])
  {
    var rest := stack[..|stack| - 1];
    assert stack == rest + [stack[|stack| - 1]];
  }

  lemma {:induction false} VisitNew(dag: DagData, targets: seq<nat>, chosen: seq<nat>, stack: seq<nat>)
    requires DepsBelow(dag)
    requires Selecting(dag, targets, chosen, stack) && stack != [] && stack[|stack| - 1] !in chosen
    ensures stack[|stack| - 1] < |dag.nodes|
    ensures var x := stack[|stack| - 1];
            Selecting(dag, targets, chosen + [x], stack[..|stack| - 1] + dag.nodes[x].links.deps)
  {
    var x := stack[|stack| - 1];
    var rest := stack[..|stack| - 1];
    var deps := dag.nodes[x].links.deps;
    assert stack == rest + [x];
    forall d | d in deps ensures Needed(dag, targets, d) {
      DependencyNeeded(dag, targets, x, d);
    }
    assert forall y :: y in rest + deps <==> y in rest || y in deps;
    assert forall y :: y in chosen + [x] <==> y in chosen || y == x;
  }

  ghost predicate Counted(dag: DagData, chosen: seq<nat>, counts: seq<nat>)
    requires Below(chosen, |dag.nodes|)
  {
    && (forall i :: 0 <= i < |chosen| ==> PassOf(dag, chosen[i]) < |counts|)
    && (forall p: nat :: p < |counts| ==> Count(PassesOf(dag, chosen), p) == counts[p])
  }

  // The worklist loop of DriverPrepareNodes: exactly the needed nodes, each once, counted per pass. It fails
  // exactly when a needed node names a pass that does not exist.
  method SelectNodes(dag: DagData, targets: seq<nat>) returns (r: Option<(seq<nat>, seq<nat>)>)
    requires DepsBelow(dag) && Below(targets, |dag.nodes|)
    ensures r.None? <==> exists x: nat :: x < |dag.nodes| && Needed(dag, targets, x) && PassOf(dag, x) >= dag.passCount
    ensures r.Some? ==> Distinct(r.value.0) && Below(r.value.0, |dag.nodes|)
    ensures r.Some? ==> forall x: nat :: x in r.value.0 <==> Needed(dag, targets, x)
    ensures r.Some? ==> |r.value.1| == dag.passCount && Counted(dag, r.value.0, r.value.1)
  {
    var stack: seq<nat>, chosen: seq<nat> := targets, [];
    var visited := new bool[|dag.nodes|](_ => false);
    var counts := new nat[dag.passCount](_ => 0);
    forall x | x in targets ensures Needed(dag, targets, x) {
      TargetNeeded(dag, targets, x);
    }
    while stack != []
      invariant Selecting(dag, targets, chosen, stack)
      invariant forall x: nat :: x < |dag.nodes| ==> (visited[x] <==> x in chosen)
      invariant Counted(dag, chosen, counts[..])
      decreases |dag.nodes| - |chosen|, |stack|
    {
      var x := stack[|stack| - 1];
      if visited[x] {
        SkipVisited(dag, targets, chosen, stack);
        stack := stack[..|stack| - 1];
      } else {
        if dag.nodes[x].links.pass >= dag.passCount {
          return None;
        }
        Pigeonhole(chosen, |dag.nodes|, x);
        VisitNew(dag, targets, chosen, stack);
        CountedStep(dag, chosen, x, counts[..]);
        chosen := chosen + [x];
        visited[x] := true;
        counts[dag.nodes[x].links.pass] := counts[dag.nodes[x].links.pass] + 1;
        stack := stack[..|stack| - 1] + dag.nodes[x].links.deps;
      }
    }
    ChosenExactly(dag, targets, chosen);
    return Some((chosen, counts[..]));
  }

  lemma {:induction false} CountedStep(dag: DagData, chosen: seq<nat>, x: nat, counts: seq<nat>)
    requires x < |dag.nodes| && Below(chosen, |dag.nodes|) && Counted(dag, chosen, counts) && PassOf(dag, x) < |counts|
    ensures Counted(dag, chosen + [x], counts[PassOf(dag, x) := counts[PassOf(dag, x)] + 1])
  {
    assert PassesOf(dag, chosen + [x]) == PassesOf(dag, chosen) + [PassOf(dag, x)];
    forall p: nat | p < |counts|
      ensures Count(PassesOf(dag, chosen + [x]), p)
              == Count(PassesOf(dag, chosen), p) + if p == PassOf(dag, x) then 1 else 0
    {
      CountAppend(PassesOf(dag, chosen), PassOf(dag, x), p);
    }
  }

  lemma {:induction false} ChosenExactly(dag: DagData, targets: seq<nat>, chosen: seq<nat>)
    requires Selecting(dag, targets, chosen, [])
    ensures forall x: nat :: x in chosen <==> Needed(dag, targets, x)
  {
    forall x: nat | Needed(dag, targets, x) ensures x in chosen {
      var chain: seq<nat> :| IsChain(dag, targets, chain, x);
      forall y, d | y in chosen && y < |dag.nodes| && d in dag.nodes[y].links.deps ensures d in chosen {
        var i :| 0 <= i < |chosen| && chosen[i] == y;
        var k :| 0 <= k < |dag.nodes[chosen[i]].links.deps| && dag.nodes[chosen[i]].links.deps[k] == d;
      }
      ClosedHoldsNeeded(dag, targets, chosen, chain, x);
    }
  }

  /* ---- Pass slices ---- */

  // How many elements of s are below p.
  function Smaller(s: seq<nat>, p: nat): nat
  {
    if s == [] then 0
    else Smaller(s[..|s| - 1], p) + if s[|s| - 1] < p then 1 else 0
  }

  ghost predicate Ascending(s: seq<nat>)
  {
    forall i, j :: 0 <= i < j < |s| ==> s[i] <= s[j]
  }

  lemma {:induction false} SmallerCuts(s: seq<nat>, p: nat)
    requires Ascending(s)
    ensures Smaller(s, p) <= |s|
    ensures forall i :: 0 <= i < |s| ==> (s[i] < p <==> i < Smaller(s, p))
  {
    if s != [] {
      var n := |s| - 1;
      SmallerCuts(s[..n], p);
      assert forall i :: 0 <= i < n ==> s[..n][i] == s[i];
      if s[n] < p && n > 0 {
        assert s[n - 1] < p;
      }
    }
  }

  lemma {:induction false} SmallerNext(s: seq<nat>, p: nat)
    ensures Smaller(s, p + 1) == Smaller(s, p) + Count(s, p)
  {
    if s != [] {
      var n := |s| - 1;
      SmallerNext(s[..n], p);
      assert s == s[..n] + [s[n]];
      CountAppend(s[..n], s[n], p);
    }
  }

  lemma {:induction false} SmallerZero(s: seq<nat>)
    ensures Smaller(s, 0) == 0
  {
    if s != [] {
      SmallerZero(s[..|s| - 1]);
    }
  }

  lemma {:induction false} PassStartIsSmaller(s: seq<nat>, counts: seq<nat>, p: nat)
    requires p <= |counts|
    requires forall q: nat :: q < |counts| ==> Count(s, q) == counts[q]
    ensures PassStart(counts, p) == Smaller(s, p)
  {
    if p == 0 {
      SmallerZero(s);
    } else {
      PassStartIsSmaller(s, counts, p - 1);
      SmallerNext(s, p - 1);
    }
  }

  // In ascending order the per-value counts cut the array into contiguous slices.
  lemma {:induction false} Slices(s: seq<nat>, counts: seq<nat>, p: nat)
    requires Ascending(s) && p < |counts|
    requires forall q: nat :: q < |counts| ==> Count(s, q) == counts[q]
    ensures PassStart(counts, p) + counts[p] <= |s|
    ensures forall i :: 0 <= i < |s| ==>
              (PassStart(counts, p) <= i < PassStart(counts, p) + counts[p] <==> s[i] == p)
  {
    PassStartIsSmaller(s, counts, p);
    PassStartIsSmaller(s, counts, p + 1);
    SmallerCuts(s, p);
    SmallerCuts(s, p + 1);
  }

  function Gather(keys: seq<nat>, order: seq<nat>): (r: seq<nat>)
    requires Below(order, |keys|)
    ensures |r| == |order| && forall i :: 0 <= i < |r| ==> r[i] == keys[order[i]]
  {
    seq(|order|, i requires 0 <= i < |order| => keys[order[i]])
  }

  lemma {:induction false} CountSplit(s: seq<nat>, t: seq<nat>, x: nat)
    ensures Count(s + t, x) == Count(s, x) + Count(t, x)
  {
  }

  lemma {:induction false} CountInsert(s: seq<nat>, at: nat, y: nat, x: nat)
    requires at <= |s|
    ensures Count(s[..at] + [y] + s[at..], x) == Count(s, x) + if x == y then 1 else 0
  {
    assert s == s[..at] + s[at..];
    CountSplit(s[..at], s[at..], x);
    CountSplit(s[..at] + [y], s[at..], x);
    CountAppend(s[..at], y, x);
  }

  // A permutation of n + 1 indices without its largest one.
  lemma {:induction false} DropLargest(order: seq<nat>, n: nat) returns (at: nat, order': seq<nat>)
    requires IsPermutation(order, n + 1)
    ensures at <= n && IsPermutation(order', n) && order == order'[..at] + [n] + order'[at..]
  {
    PermutationOnto(order, n + 1, n);
    at :| 0 <= at <= n && order[at] == n;
    order' := order[..at] + order[at + 1..];
    WithoutOne(order, n, at);
  }

  lemma {:induction false} WithoutOne(order: seq<nat>, n: nat, at: nat)
    requires IsPermutation(order, n + 1) && at <= n && order[at] == n
    ensures var rest := order[..at] + order[at + 1..];
            IsPermutation(rest, n) && order == rest[..at] + [n] + rest[at..]
  {
    var rest := order[..at] + order[at + 1..];
    assert forall k :: 0 <= k < at ==> rest[k] == order[k];
    assert forall k :: at <= k < n ==> rest[k] == order[k + 1];
    assert forall k :: 0 <= k < n ==> rest[k] != n;
    assert rest[..at] == order[..at] && rest[at..] == order[at + 1..];
  }

  // A permutation keeps the number of occurrences of each key.
  lemma {:induction false} GatherCount(keys: seq<nat>, order: seq<nat>, x: nat)
    requires IsPermutation(order, |keys|)
    ensures Count(Gather(keys, order), x) == Count(keys, x)
  {
    if keys != [] {
      var n := |keys| - 1;
      var at, order' := DropLargest(order, n);
      GatherCount(keys[..n], order', x);
      var g' := Gather(keys[..n], order');
      assert Gather(keys, order) == g'[..at] + [keys[n]] + g'[at..];
      CountInsert(g', at, keys[n], x);
      assert keys == keys[..n] + [keys[n]];
      CountAppend(keys[..n], keys[n], x);
    }
  }

  /* ---- DriverPrepareNodes ---- */

  datatype Selection = Selection(nodes: seq<nat>, remap: seq<int>, passCounts: seq<nat>)

  // remap is a bijection from the selected DAG positions onto the local ones, and -1 elsewhere.
  ghost predicate RemapOk(nodes: seq<nat>, remap: seq<int>)
  {
    && Distinct(nodes) && Below(nodes, |remap|)
    && (forall i :: 0 <= i < |nodes| ==> remap[nodes[i]] == i)
    && (forall x: nat :: x < |remap| && x !in nodes ==> remap[x] == -1)
  }

  ghost predicate Selected(dag: DagData, targets: seq<nat>, s: Selection)
  {
    && |s.remap| == |dag.nodes| && RemapOk(s.nodes, s.remap)
    && (forall x: nat :: x in s.nodes <==> Needed(dag, targets, x))
    && |s.passCounts| == dag.passCount && Counted(dag, s.nodes, s.passCounts)
    && Ascending(PassesOf(dag, s.nodes))
  }

  method FillRemap(nodes: seq<nat>, nodeCount: nat) returns (remap: seq<int>)
    requires Distinct(nodes) && Below(nodes, nodeCount)
    ensures |remap| == nodeCount && RemapOk(nodes, remap)
  {
    var table := new int[nodeCount](_ => -1);
    for i := 0 to |nodes|
      invariant forall j :: 0 <= j < i ==> table[nodes[j]] == j
      invariant forall x: nat :: x < nodeCount && x !in nodes[..i] ==> table[x] == -1
    {
      assert nodes[..i + 1] == nodes[..i] + [nodes[i]];
      table[nodes[i]] := i;
    }
    assert nodes[..|nodes|] == nodes;
    remap := table[..];
  }

  lemma {:induction false} GatherKeeps(dag: DagData, chosen: seq<nat>, order: seq<nat>, counts: seq<nat>)
    requires Distinct(chosen) && Below(chosen, |dag.nodes|) && IsPermutation(order, |chosen|)
    requires Counted(dag, chosen, counts)
    ensures var nodes := Gather(chosen, order);
            Distinct(nodes) && Below(nodes, |dag.nodes|) && Counted(dag, nodes, counts)
    ensures forall x: nat :: x in Gather(chosen, order) <==> x in chosen
  {
    var nodes := Gather(chosen, order);
    assert Gather(PassesOf(dag, chosen), order) == PassesOf(dag, nodes);
    forall p: nat | p < |counts| ensures Count(PassesOf(dag, nodes), p) == counts[p] {
      GatherCount(PassesOf(dag, chosen), order, p);
    }
    forall x | x in chosen ensures x in nodes {
      var i :| 0 <= i < |chosen| && chosen[i] == x;
      PermutationOnto(order, |chosen|, i);
      var k :| 0 <= k < |order| && order[k] == i;
      assert nodes[k] == x;
    }
  }

  method PrepareNodes(dag: DagData, targets: seq<nat>) returns (r: Option<Selection>)
    requires DepsBelow(dag) && Below(targets, |dag.nodes|)
    ensures r.None? <==> exists x: nat :: x < |dag.nodes| && Needed(dag, targets, x) && PassOf(dag, x) >= dag.passCount
    ensures r.Some? ==> Selected(dag, targets, r.value)
  {
    var chosen := SelectNodes(dag, targets);
    if chosen.None? {
      return None;
    }
    var (indices, counts) := chosen.value;
    var order := SortByKey(PassesOf(dag, indices));
    var nodes := Gather(indices, order);
    GatherKeeps(dag, indices, order, counts);
    var remap := FillRemap(nodes, |dag.nodes|);
    return Some(Selection(nodes, remap, counts));
  }

  /* ---- What the build queue sees ---- */

  // GetStateForNode over a list of DAG positions, unselected nodes dropped.
  function Localized(remap: seq<int>, s: seq<nat>): (r: seq<nat>)
    requires Below(s, |remap|)
    ensures forall y: nat :: y in r <==> exists k :: 0 <= k < |s| && remap[s[k]] == y
  {
    if s == [] then []
    else
      var n := |s| - 1;
      Localized(remap, s[..n]) + if remap[s[n]] >= 0 then [remap[s[n]]] else []
  }

  function LocalNode(dag: DagData, prev: seq<Entry>, s: Selection, i: nat): NodeData
    requires i < |s.nodes| && Below(s.nodes, |dag.nodes|)
    requires |s.remap| == |dag.nodes| == |dag.guids|
    requires Below(dag.nodes[s.nodes[i]].links.deps, |dag.nodes|)
    requires Below(dag.nodes[s.nodes[i]].links.backLinks, |dag.nodes|)
  {
    var x := s.nodes[i];
    var n := dag.nodes[x];
    NodeData(Localized(s.remap, n.links.deps), Localized(s.remap, n.links.backLinks), n.links.pass,
             n.expensive, n.emptyAction, n.outputs, Lookup(prev, dag.guids[x]))
  }

  // c is what the driver hands to the queue for selection s.
  ghost predicate IsConfig(dag: DagData, prev: seq<Entry>, s: Selection, c: Config)
    requires DagDataOk(dag) && |s.remap| == |dag.nodes| && Below(s.nodes, |dag.nodes|)
  {
    && |c.data| == |s.nodes|
    && (forall i :: 0 <= i < |s.nodes| ==>
          var x := s.nodes[i];
          Below(Links(dag)[x].deps, |dag.nodes|) && Below(Links(dag)[x].backLinks, |dag.nodes|)
          && c.data[i] == LocalNode(dag, prev, s, i))
    && c.passCounts == s.passCounts
    && 0 < c.maxExpensive <= c.threadCount
  }

  // No needed node depends on one of a later pass (SetupDependencies checks this when it meets one).
  ghost predicate PassesMonotone(dag: DagData, targets: seq<nat>)
  {
    forall x, d :: 0 <= x < |dag.nodes| && Needed(dag, targets, x) && d in dag.nodes[x].links.deps ==>
      d < |dag.nodes| ==> PassOf(dag, d) <= PassOf(dag, x)
  }

  ghost predicate DagRanks(dag: DagData, rank: seq<nat>)
  {
    |rank| == |dag.nodes| &&
    forall x, d :: 0 <= x < |dag.nodes| && d in dag.nodes[x].links.deps && d < |dag.nodes| ==> rank[d] < rank[x]
  }

  // The queue's node i is the DAG's node s.nodes[i]: same flags, same outputs, and its record of the last build.
  lemma {:induction false} LocalFields(
    dag: DagData, targets: seq<nat>, prev: seq<Entry>, s: Selection, c: Config, i: nat)
    requires DagDataOk(dag) && Selected(dag, targets, s) && IsConfig(dag, prev, s, c) && i < |s.nodes|
    ensures i < |c.data|
    ensures var d, n := c.data[i], dag.nodes[s.nodes[i]];
            && d.expensive == n.expensive && d.emptyAction == n.emptyAction && d.outputs == n.outputs
            && d.pass == n.links.pass && d.prev == Lookup(prev, dag.guids[s.nodes[i]])
  {
    assert c.data[i] == LocalNode(dag, prev, s, i);
  }

  // Local dependencies are the DAG's dependencies between selected nodes.
  lemma {:induction false} LocalDeps(
    dag: DagData, targets: seq<nat>, prev: seq<Entry>, s: Selection, c: Config, i: nat, j: nat)
    requires DagDataOk(dag) && Selected(dag, targets, s) && IsConfig(dag, prev, s, c)
    requires i < |s.nodes| && j < |s.nodes|
    ensures j in c.data[i].deps <==> s.nodes[j] in dag.nodes[s.nodes[i]].links.deps
    ensures j in c.data[i].backLinks <==> s.nodes[j] in dag.nodes[s.nodes[i]].links.backLinks
  {
    var x := s.nodes[i];
    assert c.data[i] == LocalNode(dag, prev, s, i);
    LocalizedMembers(s.nodes, s.remap, dag.nodes[x].links.deps, j);
    LocalizedMembers(s.nodes, s.remap, dag.nodes[x].links.backLinks, j);
  }

  lemma {:induction false} LocalizedMembers(nodes: seq<nat>, remap: seq<int>, s: seq<nat>, j: nat)
    requires RemapOk(nodes, remap) && Below(s, |remap|) && j < |nodes|
    ensures j in Localized(remap, s) <==> nodes[j] in s
    ensures Below(Localized(remap, s), |nodes|)
  {
    var l := Localized(remap, s);
    forall i | 0 <= i < |l| ensures l[i] < |nodes| && nodes[l[i]] in s {
      assert l[i] in l;
      var k :| 0 <= k < |s| && remap[s[k]] == l[i];
      assert s[k] in nodes;
      var m :| 0 <= m < |nodes| && nodes[m] == s[k];
    }
    if nodes[j] in s {
      var k :| 0 <= k < |s| && s[k] == nodes[j];
      assert remap[s[k]] == j;
    }
  }

  lemma {:induction false} LocalDepsOk(
    dag: DagData, targets: seq<nat>, prev: seq<Entry>, s: Selection, c: Config, i: nat)
    requires DagDataOk(dag) && PassesMonotone(dag, targets) && Selected(dag, targets, s) && IsConfig(dag, prev, s, c)
    requires i < |s.nodes|
    ensures DepsOk(c, i)
  {
    var x := s.nodes[i];
    assert c.data[i] == LocalNode(dag, prev, s, i);
    LocalizedMembers(s.nodes, s.remap, dag.nodes[x].links.deps, i);
    LocalizedMembers(s.nodes, s.remap, dag.nodes[x].links.backLinks, i);
    assert Needed(dag, targets, x);
    forall k | 0 <= k < |c.data[i].deps| ensures c.data[c.data[i].deps[k]].pass <= c.data[i].pass {
      var j := c.data[i].deps[k];
      LocalDeps(dag, targets, prev, s, c, i, j);
      assert c.data[j] == LocalNode(dag, prev, s, j);
    }
  }

  // Converse transfers: a occurs among b's dependencies exactly when b occurs among a's back-links.
  lemma {:induction false} ConverseMembers(dag: DagData, a: nat, b: nat)
    requires DagDataOk(dag) && a < |dag.nodes| && b < |dag.nodes|
    ensures b in dag.nodes[a].links.backLinks <==> a in dag.nodes[b].links.deps
  {
    var out := Links(dag);
    assert Count(out[a].backLinks, b) == Count(out[b].deps, a);
  }

  lemma {:induction false} LocalConverse(
    dag: DagData, targets: seq<nat>, prev: seq<Entry>, s: Selection, c: Config, n: nat, m: nat)
    requires DagDataOk(dag) && Selected(dag, targets, s) && IsConfig(dag, prev, s, c)
    requires n < |c.data| && m < |c.data|
    ensures m in c.data[n].backLinks <==> n in c.data[m].deps
  {
    LocalDeps(dag, targets, prev, s, c, n, m);
    LocalDeps(dag, targets, prev, s, c, m, n);
    ConverseMembers(dag, s.nodes[n], s.nodes[m]);
  }

  lemma {:induction false} LocalPasses(dag: DagData, targets: seq<nat>, prev: seq<Entry>, s: Selection, c: Config)
    requires DagDataOk(dag) && Selected(dag, targets, s) && IsConfig(dag, prev, s, c)
    ensures forall n :: 0 <= n < |c.data| ==>
              c.data[n].pass == PassesOf(dag, s.nodes)[n] && c.data[n].pass < |c.passCounts|
  {
    forall n: nat | n < |c.data|
      ensures c.data[n].pass == PassesOf(dag, s.nodes)[n] && c.data[n].pass < |c.passCounts|
    {
      assert c.data[n] == LocalNode(dag, prev, s, n);
    }
  }

  lemma {:induction false} LocalSlice(
    dag: DagData, targets: seq<nat>, prev: seq<Entry>, s: Selection, c: Config, p: nat)
    requires DagDataOk(dag) && Selected(dag, targets, s) && IsConfig(dag, prev, s, c)
    requires p < |c.passCounts|
    ensures PassStart(c.passCounts, p) + c.passCounts[p] <= |c.data|
    ensures forall n :: 0 <= n < |c.data| ==>
              (PassStart(c.passCounts, p) <= n < PassStart(c.passCounts, p) + c.passCounts[p] <==> c.data[n].pass == p)
  {
    LocalPasses(dag, targets, prev, s, c);
    Slices(PassesOf(dag, s.nodes), s.passCounts, p);
  }

  // The front end establishes the scheduler's precondition, exactly when no needed node depends on a later pass.
  lemma {:induction false} ConfigWellFormed(
    dag: DagData, targets: seq<nat>, prev: seq<Entry>, s: Selection, c: Config)
    requires DagDataOk(dag) && Selected(dag, targets, s) && IsConfig(dag, prev, s, c)
    ensures WellFormed(c) <==> PassesMonotone(dag, targets)
  {
    if PassesMonotone(dag, targets) {
      MonotoneWellFormed(dag, targets, prev, s, c);
    }
    if WellFormed(c) {
      assert LinksInRange(c);
      forall x: nat, d | x < |dag.nodes| && Needed(dag, targets, x) && d in dag.nodes[x].links.deps && d < |dag.nodes|
        ensures PassOf(dag, d) <= PassOf(dag, x)
      {
        LocalPassesOrdered(dag, targets, prev, s, c, x, d);
      }
    }
  }

  lemma {:induction false} LocalPassesOrdered(
    dag: DagData, targets: seq<nat>, prev: seq<Entry>, s: Selection, c: Config, x: nat, d: nat)
    requires DagDataOk(dag) && Selected(dag, targets, s) && IsConfig(dag, prev, s, c) && LinksInRange(c)
    requires x < |dag.nodes| && Needed(dag, targets, x) && d in dag.nodes[x].links.deps && d < |dag.nodes|
    ensures PassOf(dag, d) <= PassOf(dag, x)
  {
    var i :| 0 <= i < |s.nodes| && s.nodes[i] == x;
    NothingDropped(dag, targets, s, i, d);
    var j: nat := s.remap[d];
    LocalDeps(dag, targets, prev, s, c, i, j);
    LocalPasses(dag, targets, prev, s, c);
    assert DepsOk(c, i);
  }

  lemma {:induction false} MonotoneWellFormed(
    dag: DagData, targets: seq<nat>, prev: seq<Entry>, s: Selection, c: Config)
    requires DagDataOk(dag) && PassesMonotone(dag, targets) && Selected(dag, targets, s) && IsConfig(dag, prev, s, c)
    ensures WellFormed(c)
  {
    forall n: nat | n < |c.data| ensures DepsOk(c, n) {
      LocalDepsOk(dag, targets, prev, s, c, n);
    }
    forall n: nat, m: nat | n < |c.data| && m < |c.data|
      ensures m in c.data[n].backLinks <==> n in c.data[m].deps
    {
      LocalConverse(dag, targets, prev, s, c, n, m);
    }
    LocalPasses(dag, targets, prev, s, c);
    forall p: nat | p < |c.passCounts|
      ensures PassStart(c.passCounts, p) + c.passCounts[p] <= |c.data|
      ensures forall n :: 0 <= n < |c.data| ==>
        (PassStart(c.passCounts, p) <= n < PassStart(c.passCounts, p) + c.passCounts[p] <==> c.data[n].pass == p)
    {
      LocalSlice(dag, targets, prev, s, c, p);
    }
  }

  lemma {:induction false} ConfigAcyclic(
    dag: DagData, targets: seq<nat>, prev: seq<Entry>, s: Selection, c: Config, rank: seq<nat>)
    requires DagDataOk(dag) && Selected(dag, targets, s) && IsConfig(dag, prev, s, c) && DagRanks(dag, rank)
    ensures Acyclic(c)
  {
    var local: seq<nat> := seq(|s.nodes|, i requires 0 <= i < |s.nodes| => rank[s.nodes[i]]);
    forall n, d | 0 <= n < |c.data| && d in c.data[n].deps && d < |c.data| ensures local[d] < local[n] {
      LocalDeps(dag, targets, prev, s, c, n, d);
    }
    assert Ranks(c, local);
  }

  // No dependency of a selected node is dropped: it is selected too.
  lemma {:induction false} NothingDropped(dag: DagData, targets: seq<nat>, s: Selection, i: nat, d: nat)
    requires DagDataOk(dag) && Selected(dag, targets, s) && i < |s.nodes| && d in dag.nodes[s.nodes[i]].links.deps
    ensures d < |dag.nodes| && s.remap[d] >= 0 && s.nodes[s.remap[d]] == d
  {
    assert forall x :: 0 <= x < |dag.nodes| ==> Below(Links(dag)[x].deps, |dag.nodes|);
    assert s.nodes[i] in s.nodes;
    DependencyNeeded(dag, targets, s.nodes[i], d);
    var j :| 0 <= j < |s.nodes| && s.nodes[j] == d;
  }
}
