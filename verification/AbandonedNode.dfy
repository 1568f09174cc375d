/**
 A build that violates the guard of IncrementalSoundness: two expensive nodes, two threads, one expensive slot. The
 first action fails while the second node is parked; the build stops, the second node is saved as a success it never
 earned, and the next build skips it.
 */
module AbandonedNode {
  import opened Options
  import opened BuildQueueModel
  import opened BuildSystem
  import opened BuildCompletion
  import opened StateDatabase
  import opened IncrementalBuilds

  const SIGNATURE: nat := 7

  function Expensive(prev: Option<Record>): NodeData
  {
    NodeData([], [], 0, true, false, [], prev)
  }

  // Two expensive nodes without dependencies, one pass.
  function TwoNodes(): Config
  {
    Config([Expensive(None), Expensive(None)], [2], 1, 2, false)
  }

  lemma {:induction false} TwoNodesOk()
    ensures WellFormed(TwoNodes()) && PassStart([2], 0) == 0
  {
    var c := TwoNodes();
    assert c.data[0] == c.data[1] == Expensive(None);
    assert forall n :: 0 <= n < |c.data| ==> DepsOk(c, n);
  }

  const DAG: Dag := Dag([10, 20], [[], []])

  // The state, written out: nodes, ring, park list, counters, threads.
  function At(n0: NodeState, n1: NodeState, ring: seq<nat>, parked: seq<nat>, pending: int, failed: int, running: int,
              t0: Thread, t1: Thread, log: seq<Event>): State
  {
    State(Queue([n0, n1], ring, parked, pending, failed, running, 0, false), [t0, t1], false, log)
  }

  function N(queued: bool, active: bool, p: Progress): NodeState
  {
    NodeState(queued, active, p, 0, if p.RunAction? then SIGNATURE else 0)
  }

  lemma {:induction false} PassBegins(c: Config, s0: State)
    requires c == TwoNodes() && WellFormed(c) && s0 == Init(c) && PassStart([2], 0) == 0
    ensures Enabled(c, s0, StartPass)
    ensures Apply(c, s0, StartPass) ==
            At(N(true, false, Initial), N(true, false, Initial), [0, 1], [], 2, 0, 0, AtLoop, AtLoop, [PassBegun(0)])
  {
    var s := Apply(c, s0, StartPass);
    assert s0.threads == [Outside, AtLoop];
    assert s.threads == [AtLoop, AtLoop];
    assert s.q.nodes == [N(true, false, Initial), N(true, false, Initial)];
    assert s.q.ring == [0, 1];
    assert s.log == [PassBegun(0)];
  }

  lemma {:induction false} Begins() returns (s: State)
    ensures WellFormed(TwoNodes()) && Reachable(TwoNodes(), s)
    ensures s == At(N(true, false, Initial), N(true, false, Initial), [0, 1], [], 2, 0, 0, AtLoop, AtLoop, s.log)
    ensures forall e :: e in s.log ==> !e.Finished?
  {
    var c := TwoNodes();
    TwoNodesOk();
    var s0 := Init(c);
    assert IsRun(c, [s0]) && [s0][|[s0]| - 1] == s0;
    s := Apply(c, s0, StartPass);
    PassBegins(c, s0);
    ReachableStep(c, s0, StartPass);
  }

  // A pop of a node without dependencies leads straight to its signature check.
  lemma {:induction false} PopsReady(c: Config, q: Queue, n: nat)
    requires WellFormed(c) && Shape(c, q) && n < |c.data| && c.data[n].deps == [] && q.nodes[n].progress.Initial?
    ensures Advance(c, q, n) == Outcome(SetProgress(q, n, Unblocked), ToSign, false, [Signing(n)])
  {
    var q1 := SetProgress(q, n, Unblocked);
    assert SetupDependencies(q, c.data[n].deps) == (q, 0);
    assert Advance(c, q1, n) == Outcome(q1, ToSign, false, [Signing(n)]);
  }

  lemma {:induction false} FirstSigns() returns (s: State)
    ensures WellFormed(TwoNodes()) && Reachable(TwoNodes(), s)
    ensures s == At(N(false, true, Unblocked), N(true, false, Initial), [1], [], 2, 0, 0, Signs(0), AtLoop, s.log)
    ensures forall e :: e in s.log ==> !e.Finished?
  {
    var c := TwoNodes();
    TwoNodesOk();
    var s0 := Begins();
    s := Apply(c, s0, Loop(0));
    ReachableStep(c, s0, Loop(0));
    PopsReady(c, Pop(s0.q), 0);
    assert s0.q.ring[1..] == [1];
  }

  // A node without an earlier record must be rebuilt.
  lemma {:induction false} MustRun(c: Config, q: Queue, n: nat)
    requires LinksInRange(c) && Shape(c, q) && n < |c.data| && c.data[n] == Expensive(None)
    ensures var q1 := q.(nodes := q.nodes[n := q.nodes[n].(signature := SIGNATURE, progress := RunAction)]);
            AfterSigning(c, q, n, SIGNATURE, false) ==
            if q.expensiveRunning == c.maxExpensive then Outcome(Park(q1, n), ToLoop, false, [Decided(n, RunAction)])
            else Outcome(q1.(expensiveRunning := q.expensiveRunning + 1), ToAct, false,
                         [Decided(n, RunAction), Acting(n)])
  {
    assert [Decided(n, RunAction)] + [Acting(n)] == [Decided(n, RunAction), Acting(n)];
  }

  lemma {:induction false} FirstLaunches() returns (s: State)
    ensures WellFormed(TwoNodes()) && Reachable(TwoNodes(), s)
    ensures s == At(N(false, true, RunAction), N(true, false, Initial), [1], [], 2, 0, 1, Acts(0), AtLoop, s.log)
    ensures forall e :: e in s.log ==> !e.Finished?
  {
    var c := TwoNodes();
    TwoNodesOk();
    var s1 := FirstSigns();
    var step := SignDone(0, SIGNATURE, false);
    s := Apply(c, s1, step);
    ReachableStep(c, s1, step);
    MustRun(c, s1.q, 0);
    assert s.q.nodes == [N(false, true, RunAction), N(true, false, Initial)];
    assert s.threads == [Acts(0), AtLoop];
  }

  lemma {:induction false} SecondSigns() returns (s: State)
    ensures WellFormed(TwoNodes()) && Reachable(TwoNodes(), s)
    ensures s == At(N(false, true, RunAction), N(false, true, Unblocked), [], [], 2, 0, 1, Acts(0), Signs(1), s.log)
    ensures forall e :: e in s.log ==> !e.Finished?
  {
    var c := TwoNodes();
    TwoNodesOk();
    var s0 := FirstLaunches();
    s := Apply(c, s0, Loop(1));
    ReachableStep(c, s0, Loop(1));
    PopsReady(c, Pop(s0.q), 1);
    assert s0.q.ring[1..] == [];
  }

  lemma {:induction false} SecondParks() returns (s: State)
    ensures WellFormed(TwoNodes()) && Reachable(TwoNodes(), s)
    ensures s == At(N(false, true, RunAction), N(true, true, RunAction), [], [1], 2, 0, 1, Acts(0), AtLoop, s.log)
    ensures forall e :: e in s.log ==> !e.Finished?
  {
    var c := TwoNodes();
    TwoNodesOk();
    var s1 := SecondSigns();
    var step := SignDone(1, SIGNATURE, false);
    s := Apply(c, s1, step);
    ReachableStep(c, s1, step);
    MustRun(c, s1.q, 1);
    assert s.q.nodes == [N(false, true, RunAction), N(true, true, RunAction)];
    assert s.threads == [Acts(0), AtLoop];
  }

  // The queue after the failed action: the failure is counted and the parked node is back in the ring.
  lemma {:induction false} FailureSection(q: Queue)
    requires WellFormed(TwoNodes())
    requires q == Queue([N(false, true, RunAction), N(true, true, RunAction)], [], [1], 2, 0, 1, 0, false)
    ensures Shape(TwoNodes(), q)
    ensures AfterAction(TwoNodes(), q, 0, false) ==
            Outcome(Queue([NodeState(false, true, Completed, 1, SIGNATURE), N(true, false, RunAction)],
                          [1], [], 1, 1, 0, 0, false),
                    ToLoop, true, [Finished(0, SIGNATURE, false), Done(0, 1)])
  {
    var c := TwoNodes();
    var q1 := FinishAction(c, q, 0, Failed);
    assert q.parked[..0] == [];
    assert q1 == Queue([NodeState(false, true, Failed, 0, SIGNATURE), N(true, false, RunAction)],
                       [1], [], 2, 0, 0, 0, false);
    var q2 := q1.(failed := 1, nodes := q1.nodes[0 := q1.nodes[0].(result := 1, progress := Completed)]);
    assert q2.nodes == [NodeState(false, true, Completed, 1, SIGNATURE), N(true, false, RunAction)];
    assert Advance(c, q1, 0) == Advance(c, q2, 0);
    assert UnblockWaiters(c, q2.(pending := 1), []) == q2.(pending := 1);
    assert Advance(c, q2, 0) == Outcome(q2.(pending := 1), ToLoop, true, [Done(0, 1)]);
  }

  lemma {:induction false} FirstFails() returns (s: State)
    ensures WellFormed(TwoNodes()) && Reachable(TwoNodes(), s)
    ensures s == At(NodeState(false, true, Completed, 1, SIGNATURE), N(true, false, RunAction), [1], [], 1, 1, 0,
                    AtLoop, AtLoop, s.log)
    ensures forall e :: e in s.log && e.Finished? ==> e.node == 0
  {
    var c := TwoNodes();
    TwoNodesOk();
    var s0 := SecondParks();
    FailureSection(s0.q);
    var step := ActDone(0, false, false);
    s := Apply(c, s0, step);
    ReachableStep(c, s0, step);
    assert s.threads == [AtLoop, AtLoop];
  }

  lemma {:induction false} ThreadsLeave() returns (s: State)
    ensures WellFormed(TwoNodes()) && Reachable(TwoNodes(), s)
    ensures s == At(NodeState(false, true, Completed, 1, SIGNATURE), N(true, false, RunAction), [1], [], 1, 1, 0,
                    Outside, Outside, s.log)
    ensures forall e :: e in s.log && e.Finished? ==> e.node == 0
  {
    var c := TwoNodes();
    TwoNodesOk();
    var s1 := FirstFails();
    var s2 := Apply(c, s1, Loop(0));
    ReachableStep(c, s1, Loop(0));
    s := Apply(c, s2, Loop(1));
    ReachableStep(c, s2, Loop(1));
    assert s.threads == [Outside, Outside];
  }

  const DB: seq<Entry> := [Entry(10, Record(1, SIGNATURE, [])), Entry(20, Record(0, SIGNATURE, []))]

  lemma {:induction false} DbLookup(g: nat)
    ensures Lookup(DB, g) == if g == 20 then Some(Record(0, SIGNATURE, []))
                             else if g == 10 then Some(Record(1, SIGNATURE, [])) else None
  {
    var one := [Entry(10, Record(1, SIGNATURE, []))];
    LookupAppend([], one[0], g);
    LookupAppend(one, DB[1], g);
    assert [] + [one[0]] == one && one + [DB[1]] == DB;
  }

  lemma {:induction false} DbIsOwed(n0: NodeState, n1: NodeState, g: nat)
    requires n0 == NodeState(false, true, Completed, 1, SIGNATURE) && n1 == N(true, false, RunAction)
    ensures NodesOk(DAG, [Node(0, n0), Node(1, n1)])
    ensures Owed(DAG, [Node(0, n0), Node(1, n1)], [], g, Lookup(DB, g))
  {
    DbLookup(g);
    var nodes := [Node(0, n0), Node(1, n1)];
    NodesAreOk(n0, n1);
    assert DAG.guids[nodes[0].dagIndex] == 10 && DAG.guids[nodes[1].dagIndex] == 20;
  }

  lemma {:induction false} NothingExecuted(b: Build)
    requires b.dag == DAG && b.chosen == [0, 1]
    requires forall e :: e in b.final.log && e.Finished? ==> e.node == 0
    ensures forall sig: nat :: !Executed(b, 20, sig)
  {
  }

  // The build that ends in state s saves DB.
  lemma {:induction false} SavesDb(c: Config, s: State) returns (b: Build)
    requires WellFormed(c) && Reachable(c, s) && s.threads == [Outside, Outside]
    requires |c.data| == 2 && c.data[0] == Expensive(None) && c.data[1] == Expensive(None)
    requires s.q.nodes == [NodeState(false, true, Completed, 1, SIGNATURE), N(true, false, RunAction)]
    requires forall e :: e in s.log && e.Finished? ==> e.node == 0
    ensures b.config == c && BuildOk(b, []) && Saves(b, [], DB) && !NoneLeft(b)
    ensures forall sig: nat :: !Executed(b, 20, sig)
  {
    b := Build(DAG, c, [0, 1], s);
    var nodes := [Node(0, s.q.nodes[0]), Node(1, s.q.nodes[1])];
    assert NodesOf(b) == nodes;
    BuildIsOk(b);
    DbIsSaved(b);
    assert b.final.q.nodes[1].progress.RunAction?;
    NothingExecuted(b);
  }

  lemma {:induction false} BuildIsOk(b: Build)
    requires WellFormed(b.config) && Reachable(b.config, b.final) && b.final.threads == [Outside, Outside]
    requires b.dag == DAG && b.chosen == [0, 1] && |b.config.data| == |b.final.q.nodes| == 2
    requires b.config.data[0] == Expensive(None) && b.config.data[1] == Expensive(None)
    ensures BuildOk(b, [])
  {
    assert DAG.outputs[0] == [] && DAG.outputs[1] == [] && Lookup([], 10) == None && Lookup([], 20) == None;
    assert NodesOf(b) == [Node(0, b.final.q.nodes[0]), Node(1, b.final.q.nodes[1])];
    NodesAreOk(b.final.q.nodes[0], b.final.q.nodes[1]);
  }

  lemma {:induction false} NodesAreOk(n0: NodeState, n1: NodeState)
    ensures DagOk(DAG) && NodesOk(DAG, [Node(0, n0), Node(1, n1)])
  {
  }

  lemma {:induction false} DbIsSaved(b: Build)
    requires b.dag == DAG && BuildOk(b, [])
    requires NodesOf(b) == [Node(0, NodeState(false, true, Completed, 1, SIGNATURE)), Node(1, N(true, false, RunAction))]
    ensures Saves(b, [], DB)
  {
    var nodes := NodesOf(b);
    forall g: nat ensures Owed(DAG, nodes, [], g, Lookup(DB, g)) {
      DbIsOwed(nodes[0].state, nodes[1].state, g);
    }
    assert Guids(DB) == [10, 20];
  }

  // The second node's record is a success, nothing was executed for it, and the next build calls it up to date.
  lemma {:induction false} SavedUnearned() returns (b: Build)
    ensures BuildOk(b, []) && Saves(b, [], DB) && !NoneLeft(b)
    ensures Lookup(DB, 20) == Some(Record(0, SIGNATURE, []))
    ensures forall sig: nat :: !Executed(b, 20, sig)
    ensures Decide(Expensive(Lookup(DB, 20)), SIGNATURE, false) == UpToDate
  {
    var s := ThreadsLeave();
    b := SavesDb(TwoNodes(), s);
    DbLookup(20);
  }
}
