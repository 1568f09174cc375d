/**
 The build queue of src/BuildQueue.cpp as values and functions. One function per operation that the source
 performs while it holds the queue lock; `Advance` is the state machine of AdvanceNode from one lock acquisition
 to the next lock release. Node indices are indices into the selected (local) node array.
 */
module BuildQueueModel {
  import opened Options
  import opened Sequences

  // m_Progress. The source's numeric order is the declaration order.
  datatype Progress = Initial | Blocked | Unblocked | RunAction | Succeeded | UpToDate | Failed | Completed

  // What the previous build saved for a node (NodeStateData).
  datatype Record = Record(result: int, signature: nat, outputs: seq<string>)

  // The immutable part of a node (NodeData together with m_MmapState).
  datatype NodeData = NodeData(
    deps: seq<nat>, backLinks: seq<nat>, pass: nat,
    expensive: bool, emptyAction: bool,
    outputs: seq<string>, prev: Option<Record>)

  datatype Config = Config(
    data: seq<NodeData>, passCounts: seq<nat>,
    maxExpensive: nat, threadCount: nat, continueOnError: bool)

  // The mutable part of a node.
  datatype NodeState = NodeState(queued: bool, active: bool, progress: Progress, result: int, signature: nat)

  datatype Queue = Queue(
    nodes: seq<NodeState>,
    ring: seq<nat>,            // the unread part of the ring buffer, oldest first
    parked: seq<nat>,          // m_ExpensiveWaitList, top of the stack last
    pending: int, failed: int, expensiveRunning: int,
    pass: int, quit: bool)

  // What a lock-held section did, for the run's history.
  datatype Event =
    | Popped(node: nat)
    | Signing(node: nat)                                // entered CheckInputSignature
    | Decided(node: nat, progress: Progress)            // CheckInputSignature's verdict
    | Acting(node: nat)                                 // left the lock to run the action
    | Finished(node: nat, signature: nat, ok: bool)     // the action ended (an empty action ends at once)
    | Done(node: nat, result: int)                      // reached kCompleted
    | PassBegun(pass: nat)

  // Where a thread stands when a lock-held section ends.
  datatype Stop = ToLoop | ToSign | ToAct

  datatype Outcome = Outcome(q: Queue, stop: Stop, broadcast: bool, events: seq<Event>)

  /* ---- Preconditions on the input ---- */

  function PassStart(counts: seq<nat>, p: nat): nat
    requires p <= |counts|
  {
    if p == 0 then 0 else PassStart(counts, p - 1) + counts[p - 1]
  }

  // What the front end hands to the queue: local dependencies that never point to a later pass, back-links that
  // are their converse, and node states laid out pass by pass.
  ghost predicate WellFormed(c: Config)
  {
    && c.maxExpensive > 0 && c.threadCount > 0
    && LinksInRange(c)
    && (forall n, m :: 0 <= n < |c.data| && 0 <= m < |c.data| ==>
          (m in c.data[n].backLinks <==> n in c.data[m].deps))
    && (forall n :: 0 <= n < |c.data| ==> c.data[n].pass < |c.passCounts|)
    && (forall n, p :: 0 <= n < |c.data| && 0 <= p < |c.passCounts| ==>
          (PassStart(c.passCounts, p) <= n < PassStart(c.passCounts, p) + c.passCounts[p] <==> c.data[n].pass == p))
    && (forall p :: 0 <= p < |c.passCounts| ==> PassStart(c.passCounts, p) + c.passCounts[p] <= |c.data|)
  }

  ghost predicate LinksInRange(c: Config)
  {
    forall n :: 0 <= n < |c.data| ==> DepsOk(c, n)
  }

  ghost predicate DepsOk(c: Config, n: nat)
    requires n < |c.data|
  {
    && Below(c.data[n].deps, |c.data|)
    && Below(c.data[n].backLinks, |c.data|)
    && forall i :: 0 <= i < |c.data[n].deps| ==> c.data[c.data[n].deps[i]].pass <= c.data[n].pass
  }

  // The dependency graph has no cycle.
  ghost predicate Acyclic(c: Config)
  {
    exists rank: seq<nat> :: Ranks(c, rank)
  }

  ghost predicate Ranks(c: Config, rank: seq<nat>)
  {
    && |rank| == |c.data|
    && forall n, d :: 0 <= n < |c.data| && d in c.data[n].deps && d < |c.data| ==> rank[d] < rank[n]
  }

  predicate Shape(c: Config, q: Queue)
  {
    |q.nodes| == |c.data| && Below(q.ring, |c.data|) && Below(q.parked, |c.data|)
  }

  /* ---- Elementary updates ---- */

  function SetProgress(q: Queue, n: nat, p: Progress): Queue
    requires n < |q.nodes|
  {
    q.(nodes := q.nodes[n := q.nodes[n].(progress := p)])
  }

  function SetFlags(q: Queue, n: nat, queued: bool, active: bool): Queue
    requires n < |q.nodes|
  {
    q.(nodes := q.nodes[n := q.nodes[n].(queued := queued, active := active)])
  }

  predicate Complete(q: Queue, n: nat)
    requires n < |q.nodes|
  {
    q.nodes[n].progress.Completed?
  }

  predicate Idle(q: Queue, n: nat)
    requires n < |q.nodes|
  {
    !q.nodes[n].queued && !q.nodes[n].active
  }

  // AllDependenciesReady
  predicate Ready(c: Config, q: Queue, n: nat)
    requires n < |c.data|
  {
    forall d :: d in c.data[n].deps ==> d < |q.nodes| && Complete(q, d)
  }

  /* ---- Queue operations ---- */

  function Enqueue(q: Queue, n: nat): Queue
    requires n < |q.nodes|
  {
    SetFlags(q, n, true, q.nodes[n].active).(ring := q.ring + [n])
  }

  function Park(q: Queue, n: nat): Queue
    requires n < |q.nodes|
  {
    SetFlags(q, n, true, q.nodes[n].active).(parked := q.parked + [n])
  }

  function Unpark(q: Queue): Queue
    requires Below(q.parked, |q.nodes|)
  {
    if |q.parked| == 0 then q
    else
      var top := q.parked[|q.parked| - 1];
      Enqueue(SetFlags(q, top, false, false).(parked := q.parked[..|q.parked| - 1]), top)
  }

  // NextNode on a non-empty ring.
  function Pop(q: Queue): Queue
    requires q.ring != [] && q.ring[0] < |q.nodes|
  {
    SetFlags(q, q.ring[0], false, true).(ring := q.ring[1..])
  }

  // SetupDependencies: the queue afterwards and the number of dependencies to wait for.
  function SetupDependencies(q: Queue, deps: seq<nat>): (Queue, nat)
    requires Below(deps, |q.nodes|)
    decreases |deps|
  {
    if deps == [] then (q, 0)
    else
      var d := deps[0];
      if Complete(q, d) then SetupDependencies(q, deps[1..])
      else
        var q1 := if Idle(q, d) && !q.nodes[d].progress.Blocked? then Enqueue(q, d) else q;
        var (q2, waits) := SetupDependencies(q1, deps[1..]);
        (q2, waits + 1)
  }

  // May UnblockWaiters enqueue m?
  predicate Wakeable(c: Config, q: Queue, m: nat)
    requires m < |c.data| == |q.nodes|
  {
    c.data[m].pass == q.pass && Ready(c, q, m) && Idle(q, m)
  }

  function UnblockWaiters(c: Config, q: Queue, links: seq<nat>): Queue
    requires |q.nodes| == |c.data| && Below(links, |c.data|)
    decreases |links|
  {
    if links == [] then q
    else
      var q1 := if Wakeable(c, q, links[0]) then Enqueue(q, links[0]) else q;
      UnblockWaiters(c, q1, links[1..])
  }

  // The part of AdvanceNode's kRunAction case that follows the action.
  function FinishAction(c: Config, q: Queue, n: nat, p: Progress): Queue
    requires Shape(c, q) && n < |c.data|
  {
    var q1 := SetProgress(q, n, p);
    if c.data[n].expensive then Unpark(q1.(expensiveRunning := q1.expensiveRunning - 1)) else q1
  }

  // The decision at the end of CheckInputSignature.
  function Decide(d: NodeData, signature: nat, outputsMissing: bool): Progress
  {
    if d.prev.None? then RunAction
    else if d.prev.value.signature != signature then RunAction
    else if d.prev.value.result != 0 then RunAction
    else if d.outputs != d.prev.value.outputs then RunAction
    else if outputsMissing then RunAction
    else UpToDate
  }

  function Rank(p: Progress): nat
  {
    match p
    case Initial => 5
    case Blocked => 4
    case Unblocked => 3
    case RunAction => 2
    case Succeeded => 1
    case UpToDate => 1
    case Failed => 1
    case Completed => 0
  }

  function Prepend(e: Event, o: Outcome): Outcome
  {
    o.(events := [e] + o.events)
  }

  // AdvanceNode's loop, until it returns or releases the lock.
  function Advance(c: Config, q: Queue, n: nat): Outcome
    requires LinksInRange(c) && Shape(c, q) && n < |c.data|
    decreases Rank(q.nodes[n].progress)
  {
    assert DepsOk(c, n);
    match q.nodes[n].progress
    case Initial =>
      var (q1, waits) := SetupDependencies(q, c.data[n].deps);
      SetupKeepsShape(q, c.data[n].deps);
      if waits > 0 then
        Outcome(SetFlags(SetProgress(q1, n, Blocked), n, q1.nodes[n].queued, false), ToLoop, false, [])
      else
        Advance(c, SetProgress(q1, n, Unblocked), n)
    case Blocked =>
      Advance(c, SetProgress(q, n, Unblocked), n)
    case Unblocked =>
      Outcome(q, ToSign, false, [Signing(n)])
    case RunAction =>
      if c.data[n].emptyAction then
        Prepend(Finished(n, q.nodes[n].signature, true), Advance(c, FinishAction(c, q, n, Succeeded), n))
      else if c.data[n].expensive && q.expensiveRunning == c.maxExpensive then
        Outcome(Park(q, n), ToLoop, false, [])
      else
        Outcome(if c.data[n].expensive then q.(expensiveRunning := q.expensiveRunning + 1) else q,
                ToAct, false, [Acting(n)])
    case Succeeded =>
      Advance(c, q.(nodes := q.nodes[n := q.nodes[n].(result := 0, progress := Completed)]), n)
    case UpToDate =>
      Advance(c, q.(nodes := q.nodes[n := q.nodes[n].(result := 0, progress := Completed)]), n)
    case Failed =>
      Advance(c, q.(failed := q.failed + 1, nodes := q.nodes[n := q.nodes[n].(result := 1, progress := Completed)]), n)
    case Completed =>
      Outcome(UnblockWaiters(c, q.(pending := q.pending - 1), c.data[n].backLinks), ToLoop, true,
              [Done(n, q.nodes[n].result)])
  }

  // Re-entry of a thread that left AdvanceNode's lock to check the input signature.
  function AfterSigning(c: Config, q: Queue, n: nat, signature: nat, outputsMissing: bool): Outcome
    requires LinksInRange(c) && Shape(c, q) && n < |c.data|
  {
    var p := Decide(c.data[n], signature, outputsMissing);
    Prepend(Decided(n, p), Advance(c, q.(nodes := q.nodes[n := q.nodes[n].(signature := signature, progress := p)]), n))
  }

  // Re-entry of a thread that left AdvanceNode's lock to run the action.
  function AfterAction(c: Config, q: Queue, n: nat, ok: bool): Outcome
    requires LinksInRange(c) && Shape(c, q) && n < |c.data|
  {
    Prepend(Finished(n, q.nodes[n].signature, ok),
            Advance(c, FinishAction(c, q, n, if ok then Succeeded else Failed), n))
  }

  // BuildQueueBuildNodeRange's setup of one pass over [start, start + count).
  function BeginPass(q: Queue, start: nat, count: nat, pass: nat): Queue
    requires start + count <= |q.nodes|
  {
    q.(nodes := seq(|q.nodes|, i requires 0 <= i < |q.nodes| =>
                      if start <= i < start + count then q.nodes[i].(queued := true) else q.nodes[i]),
       ring := seq(count, i => start + i),
       pending := count, failed := 0, pass := pass)
  }

  lemma {:induction false} SetupKeepsShape(q: Queue, deps: seq<nat>)
    requires Below(deps, |q.nodes|)
    ensures var q' := SetupDependencies(q, deps).0;
            && |q'.nodes| == |q.nodes| && q'.parked == q.parked
            && (Below(q.ring, |q.nodes|) ==> Below(q'.ring, |q.nodes|))
            && forall i :: 0 <= i < |q.nodes| ==> q'.nodes[i] == q.nodes[i].(queued := q'.nodes[i].queued)
    decreases |deps|
  {
    if deps != [] {
      var d := deps[0];
      assert d < |q.nodes|;
      var q1 := if !Complete(q, d) && Idle(q, d) && !q.nodes[d].progress.Blocked? then Enqueue(q, d) else q;
      SetupKeepsShape(q1, deps[1..]);
    }
  }
}
