/** The components together: from a compiled DAG to a finished build, and from a tree to a file and back. */
module EndToEnd {
  import opened Options
  import opened Sequences
  import opened Sums
  import opened BuildQueueModel
  import opened BuildSystem
  import opened BuildTheorems
  import opened BuildCompletion
  import opened BuildOutcomes
  import opened DagCompiler
  import opened StateDatabase
  import opened IncrementalBuilds
  import opened Driver
  import Paths
  import Json = JsonText
  import Reader = JsonReader
  import Writer = JsonWriter

  /* ---- Compiling ---- */

  function Cleaned(files: seq<string>): (r: seq<string>)
    ensures |r| == |files|
    ensures forall i :: 0 <= i < |r| ==>
              Paths.Parsed(r[i]) == Paths.Parsed(files[i]) && r[i] == Paths.Formatted(Paths.Parsed(r[i]))
  {
    forall i | 0 <= i < |files|
      ensures Paths.Parsed(Paths.Formatted(Paths.Parsed(files[i]))) == Paths.Parsed(files[i])
    {
      Paths.Idempotent(files[i]);
    }
    seq(|files|, i requires 0 <= i < |files| => Paths.Formatted(Paths.Parsed(files[i])))
  }

  // Node x of the file is node n of the input, under its guid and with its dependencies renamed.
  ghost predicate NodeCompiled(raw: seq<RawNode>, digest: string -> nat, o: Order, dag: DagData, x: nat)
    requires Inverse(o.order, o.remap, |raw|) && |dag.guids| == |dag.nodes| == |raw| && x < |raw|
  {
    var n, out := raw[o.order[x]], dag.nodes[x];
    && Guid(digest, n, dag.guids[x]) && Renamed(raw, o, out.links, x)
    && out.expensive == n.expensive && (out.emptyAction <==> OrEmpty(n.action) == "")
    && out.outputs == Cleaned(n.outputs)
  }

  ghost predicate CompiledFrom(raw: seq<RawNode>, digest: string -> nat, o: Order, dag: DagData)
  {
    && Inverse(o.order, o.remap, |raw|) && |dag.guids| == |dag.nodes| == |raw|
    && forall x: nat :: x < |raw| ==> NodeCompiled(raw, digest, o, dag, x)
  }

  ghost predicate AllNamed(passes: seq<Option<string>>)
  {
    forall i :: 0 <= i < |passes| ==> passes[i].Some?
  }

  method CheckPasses(passes: seq<Option<string>>) returns (ok: bool)
    ensures ok <==> AllNamed(passes)
  {
    for i := 0 to |passes|
      invariant forall j :: 0 <= j < i ==> passes[j].Some?
    {
      if passes[i].None? {
        return false;
      }
    }
    return true;
  }

  // CompileDag: the file of nodes that the driver starts from, or failure, exactly when the input is malformed.
  method CompileDag(raw: seq<RawNode>, passes: seq<Option<string>>, digest: string -> nat) returns (r: Option<DagData>)
    ensures r.Some? <==>
              raw != [] && passes != [] && Identifiable(raw, digest) && DagCompiler.Writable(raw) && AllNamed(passes)
    ensures r.Some? ==> DagDataOk(r.value) && r.value.passCount == |passes|
    ensures r.Some? ==> exists o: Order :: CompiledFrom(raw, digest, o, r.value)
  {
    if raw == [] || passes == [] {
      return None;
    }
    var order := ComputeNodeGuids(raw, digest);
    if order.None? {
      return None;
    }
    var o := order.value;
    var written := WriteNodes(raw, o);
    if written.None? {
      return None;
    }
    var named := CheckPasses(passes);
    if !named {
      return None;
    }
    var links := written.value;
    var nodes := seq(|raw|, x requires 0 <= x < |raw| => NodeOf(raw[o.order[x]], links[x]));
    var dag := DagData(o.guids, nodes, |passes|);
    assert Links(dag) == links;
    assert CompiledFrom(raw, digest, o, dag);
    return Some(dag);
  }

  function NodeOf(n: RawNode, links: Compiled): DagNode
    requires n.RawNode?
  {
    DagNode(links, n.expensive, OrEmpty(n.action) == "", Cleaned(n.outputs))
  }

  // The input's dependencies have no cycle and never point to a later pass.
  ghost predicate RawOrdered(raw: seq<RawNode>, rank: seq<nat>)
  {
    && |rank| == |raw|
    && forall i, k :: 0 <= i < |raw| && raw[i].RawNode? && 0 <= k < |raw[i].deps| && InRange(raw[i].deps[k], |raw|) ==>
         var d := raw[i].deps[k].value;
         rank[d] < rank[i] && raw[d].RawNode? && raw[d].pass <= raw[i].pass
  }

  // Renaming keeps both.
  lemma {:induction false} DependencyCompiled(
    raw: seq<RawNode>, digest: string -> nat, o: Order, dag: DagData, rank: seq<nat>, x: nat, d: nat)
    requires CompiledFrom(raw, digest, o, dag) && RawOrdered(raw, rank)
    requires x < |raw| && d < |raw| && d in dag.nodes[x].links.deps
    ensures rank[o.order[d]] < rank[o.order[x]] && PassOf(dag, d) <= PassOf(dag, x)
  {
    assert NodeCompiled(raw, digest, o, dag, x) && NodeCompiled(raw, digest, o, dag, d);
    var n := raw[o.order[x]];
    var k :| 0 <= k < |dag.nodes[x].links.deps| && dag.nodes[x].links.deps[k] == d;
    assert InRange(n.deps[k], |raw|) && d == o.remap[n.deps[k].value];
  }

  lemma {:induction false} CompiledOrdered(
    raw: seq<RawNode>, digest: string -> nat, o: Order, dag: DagData, rank: seq<nat>, targets: seq<nat>)
    requires CompiledFrom(raw, digest, o, dag) && RawOrdered(raw, rank)
    ensures PassesMonotone(dag, targets) && exists rank': seq<nat> :: DagRanks(dag, rank')
  {
    forall x: nat, d: nat | x < |raw| && d in dag.nodes[x].links.deps && d < |raw|
      ensures rank[o.order[d]] < rank[o.order[x]] && PassOf(dag, d) <= PassOf(dag, x)
    {
      DependencyCompiled(raw, digest, o, dag, rank, x, d);
    }
    assert DagRanks(dag, seq(|raw|, x requires 0 <= x < |raw| => rank[o.order[x]]));
  }

  /* ---- Builds ---- */

  // What the compiler, the driver and the previous database hand to the queue.
  ghost predicate Prepared(dag: DagData, targets: seq<nat>, prev: seq<Entry>, s: Selection, c: Config)
  {
    && DagDataOk(dag) && PassesMonotone(dag, targets) && (exists rank: seq<nat> :: DagRanks(dag, rank))
    && Selected(dag, targets, s) && IsConfig(dag, prev, s, c)
  }

  // A compiled file of ordered nodes is prepared once the driver has selected from it.
  lemma {:induction false} CompiledPrepared(
    raw: seq<RawNode>, digest: string -> nat, o: Order, rank: seq<nat>,
    dag: DagData, targets: seq<nat>, prev: seq<Entry>, s: Selection, c: Config)
    requires RawOrdered(raw, rank) && CompiledFrom(raw, digest, o, dag) && DagDataOk(dag)
    requires Selected(dag, targets, s) && IsConfig(dag, prev, s, c)
    ensures Prepared(dag, targets, prev, s, c)
  {
    CompiledOrdered(raw, digest, o, dag, rank, targets);
  }

  lemma {:induction false} PreparedOk(dag: DagData, targets: seq<nat>, prev: seq<Entry>, s: Selection, c: Config)
    requires Prepared(dag, targets, prev, s, c)
    ensures WellFormed(c) && Acyclic(c)
  {
    ConfigWellFormed(dag, targets, prev, s, c);
    var rank: seq<nat> :| DagRanks(dag, rank);
    ConfigAcyclic(dag, targets, prev, s, c, rank);
  }

  // A prepared build cannot get stuck with work left.
  lemma {:induction false} PreparedNeverStuck(
    dag: DagData, targets: seq<nat>, prev: seq<Entry>, s: Selection, c: Config, run: seq<State>)
    requires Prepared(dag, targets, prev, s, c) && WellFormed(c) && IsRun(c, run)
    requires var now := run[|run| - 1];
             now.q.ring == [] && forall t :: 0 <= t < |now.threads| ==> !Holds(now.threads[t])
    ensures run[|run| - 1].q.pending == 0
  {
    PreparedOk(dag, targets, prev, s, c);
    assert Reachable(c, run[|run| - 1]);
    DeadlockFree(c, run[|run| - 1]);
  }

  // ... and some schedule completes every node of every pass.
  lemma {:induction false} PreparedCanFinish(
    dag: DagData, targets: seq<nat>, prev: seq<Entry>, s: Selection, c: Config)
    returns (finished: State)
    requires Prepared(dag, targets, prev, s, c)
    ensures WellFormed(c) && Reachable(c, finished) && AllDone(c, finished)
  {
    PreparedOk(dag, targets, prev, s, c);
    finished := CanFinishFromStart(c);
  }

  function DatabaseView(dag: DagData): Dag
  {
    Dag(dag.guids, seq(|dag.nodes|, i requires 0 <= i < |dag.nodes| => dag.nodes[i].outputs))
  }

  // A prepared build that has come to rest is a build in the sense of the database theorems.
  lemma {:induction false} PreparedBuildSaves(
    dag: DagData, targets: seq<nat>, prev: seq<Entry>, s: Selection, c: Config, final: State)
    requires Prepared(dag, targets, prev, s, c) && WellFormed(c) && Reachable(c, final)
    requires |final.q.nodes| == |c.data| && forall t :: 0 <= t < |final.threads| ==> !Holds(final.threads[t])
    ensures BuildOk(Build(DatabaseView(dag), c, s.nodes, final), prev)
  {
    var b := Build(DatabaseView(dag), c, s.nodes, final);
    assert NodesOk(b.dag, NodesOf(b));
    forall n: nat | n < |b.chosen|
      ensures c.data[n].prev == Lookup(prev, dag.guids[s.nodes[n]]) && c.data[n].outputs == b.dag.outputs[s.nodes[n]]
    {
      LocalFields(dag, targets, prev, s, c, n);
    }
  }

  // A DAG node with a command completes by running it or by being up to date; one without never runs anything.
  lemma {:induction false} PreparedCommands(
    dag: DagData, targets: seq<nat>, prev: seq<Entry>, s: Selection, c: Config, now: State, i: nat)
    requires Prepared(dag, targets, prev, s, c) && WellFormed(c) && Reachable(c, now) && i < |s.nodes|
    ensures |now.q.nodes| == |c.data| == |s.nodes|
    ensures dag.nodes[s.nodes[i]].emptyAction ==> Acting(i) !in now.log
    ensures Complete(now.q, i) && !dag.nodes[s.nodes[i]].emptyAction ==>
              || (Decided(i, UpToDate) in now.log && now.q.nodes[i].result == 0)
              || (Acting(i) in now.log && Finished(i, now.q.nodes[i].signature, now.q.nodes[i].result == 0) in now.log)
  {
    LocalFields(dag, targets, prev, s, c, i);
    CompletedHow(c, now, i);
  }

  predicate RunsExpensiveNode(dag: DagData, s: Selection, th: Thread)
  {
    th.Acts? && th.node < |s.nodes| && s.nodes[th.node] < |dag.nodes| && dag.nodes[s.nodes[th.node]].expensive
  }

  // How many actions of expensive DAG nodes are running.
  function RunningExpensive(dag: DagData, s: Selection, threads: seq<Thread>): int
  {
    Sum(seq(|threads|, t requires 0 <= t < |threads| => if RunsExpensiveNode(dag, s, threads[t]) then 1 else 0))
  }

  // ... never more than the maximum, if every selected expensive node has a command.
  lemma {:induction false} PreparedThrottle(
    dag: DagData, targets: seq<nat>, prev: seq<Entry>, s: Selection, c: Config, now: State)
    requires Prepared(dag, targets, prev, s, c) && WellFormed(c) && Reachable(c, now)
    requires forall i :: 0 <= i < |s.nodes| ==> !(dag.nodes[s.nodes[i]].expensive && dag.nodes[s.nodes[i]].emptyAction)
    ensures RunningExpensive(dag, s, now.threads) <= c.maxExpensive
  {
    forall i: nat | i < |c.data|
      ensures c.data[i].expensive == dag.nodes[s.nodes[i]].expensive
      ensures !(c.data[i].expensive && c.data[i].emptyAction)
    {
      LocalFields(dag, targets, prev, s, c, i);
    }
    ThrottleBound(c, now);
    SameFlags(dag, s, c, now.threads);
  }

  lemma {:induction false} SameFlags(dag: DagData, s: Selection, c: Config, threads: seq<Thread>)
    requires |c.data| == |s.nodes| && forall i :: 0 <= i < |s.nodes| ==> s.nodes[i] < |dag.nodes|
    requires forall i :: 0 <= i < |c.data| ==> c.data[i].expensive == dag.nodes[s.nodes[i]].expensive
    ensures RunningExpensive(dag, s, threads) == ActingExpensive(c, threads)
  {
    assert ActingFlags(c, threads) ==
           seq(|threads|, t requires 0 <= t < |threads| => if RunsExpensiveNode(dag, s, threads[t]) then 1 else 0);
  }

  /* ---- JSON ---- */

  // Written by the writer object, read by the reader object from the same bytes: the tree comes back, its strings in
  // the reader's buffer, exactly when they are clean.
  method WriteAndParse(v: Json.Json, numberLength: string -> nat) returns (r: Option<Reader.RawJson>, buffer: string)
    requires Writer.Writable(v) && Json.Ascii(v) && Json.Numerals(numberLength, v) && Reader.StopsAtNul(numberLength)
    ensures r.Some? <==> Json.Clean(v)
    ensures r.Some? ==> Reader.Denotes(buffer, r.value, v)
  {
    var text := WriteTree(v);
    Writer.WriterRoundTrip(numberLength, v);
    var bytes := new char[|text| + 1](i requires 0 <= i < |text| + 1 => if i < |text| then text[i] else Json.NUL);
    assert bytes[..] == text + [Json.NUL];
    var reader := new Reader.Reader(bytes, numberLength);
    r := reader.ParseDocument();
    buffer := bytes[..];
  }

  method WriteTree(v: Json.Json) returns (text: string)
    requires Writer.Writable(v) && Json.Ascii(v)
    ensures text == Writer.EmitAll(Writer.Output(true, ""), Writer.Events(v, None)).text
  {
    var w := new Writer.Writer();
    Writer.EventsAscii(v, None);
    w.PerformAll(Writer.Events(v, None));
    w.Flush();
    text := w.file;
  }
}
