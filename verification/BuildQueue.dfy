/**
 The build queue object: ring buffer, park list, node states and counters updated in place, method by method as in
 src/BuildQueue.cpp. Each method is proved equal to the corresponding function of BuildQueueModel on the queue's
 abstract value, so every theorem about the model holds of this object.
 */
module BuildQueueObject {
  import opened Options
  import M = BuildQueueModel
  import S = BuildSystem
  import opened Sequences
  import opened Arithmetic
  import opened Bits

  // What keeps the fixed buffers from overflowing: entries are distinct, flagged nodes.
  ghost predicate BuffersOk(q: M.Queue)
  {
    && Distinct(q.ring) && Distinct(q.parked)
    && Below(q.ring, |q.nodes|) && Below(q.parked, |q.nodes|)
    && (forall i :: 0 <= i < |q.ring| ==> q.nodes[q.ring[i]].queued && !q.nodes[q.ring[i]].active)
    && (forall i :: 0 <= i < |q.parked| ==> q.nodes[q.parked[i]].queued && q.nodes[q.parked[i]].active)
  }

  // The unread part of a ring buffer.
  function Unread(buffer: seq<nat>, read: nat, write: nat): seq<nat>
    requires read < |buffer| && write < |buffer|
  {
    if read <= write then buffer[read..write] else buffer[read..] + buffer[..write]
  }

  // (index + 1) & (capacity - 1)
  function Increment(i: nat, capacity: nat): nat
    requires capacity > 0
  {
    And(i + 1, capacity - 1)
  }

  lemma {:induction false} UnreadPush(buffer: seq<nat>, read: nat, write: nat, n: nat, k: nat)
    requires |buffer| == Pow2(k) && read < |buffer| && write < |buffer|
    requires |Unread(buffer, read, write)| + 1 < |buffer|
    ensures Increment(write, |buffer|) < |buffer|
    ensures Unread(buffer[write := n], read, Increment(write, |buffer|)) == Unread(buffer, read, write) + [n]
  {
    MaskedIncrement(write, k);
  }

  lemma {:induction false} UnreadPop(buffer: seq<nat>, read: nat, write: nat, k: nat)
    requires |buffer| == Pow2(k) && read < |buffer| && write < |buffer| && read != write
    ensures Increment(read, |buffer|) < |buffer|
    ensures Unread(buffer, read, write) == [buffer[read]] + Unread(buffer, Increment(read, |buffer|), write)
  {
    MaskedIncrement(read, k);
    NextUnread(buffer, read, write, Increment(read, |buffer|));
  }

  lemma {:induction false} NextUnread(buffer: seq<nat>, read: nat, write: nat, next: nat)
    requires read < |buffer| && write < |buffer| && read != write && next == if read + 1 == |buffer| then 0 else read + 1
    ensures Unread(buffer, read, write) == [buffer[read]] + Unread(buffer, next, write)
  {
    if read < write {
      assert buffer[read..write] == [buffer[read]] + buffer[next..write];
    } else if next == 0 {
      assert buffer[read..] == [buffer[read]] && buffer[..write] == buffer[0..write];
    } else {
      assert buffer[read..] == [buffer[read]] + buffer[next..];
      ConcatAssociative([buffer[read]], buffer[next..], buffer[..write]);
    }
  }

  lemma {:induction false} PopFits(q: M.Queue)
    requires BuffersOk(q) && q.ring != []
    ensures BuffersOk(M.Pop(q))
  {
    assert forall i :: 0 <= i < |q.parked| ==> q.parked[i] != q.ring[0];
  }

  // SetupDependencies leaves an active node alone.
  lemma {:induction false} ActiveNotSetUp(q: M.Queue, deps: seq<nat>, n: nat)
    requires Below(deps, |q.nodes|) && n < |q.nodes| && q.nodes[n].active
    ensures |M.SetupDependencies(q, deps).0.nodes| == |q.nodes|
    ensures M.SetupDependencies(q, deps).0.nodes[n] == q.nodes[n]
    decreases |deps|
  {
    if deps != [] {
      var d := deps[0];
      assert d < |q.nodes|;
      var q1 := if !M.Complete(q, d) && M.Idle(q, d) && !q.nodes[d].progress.Blocked? then M.Enqueue(q, d) else q;
      ActiveNotSetUp(q1, deps[1..], n);
    }
  }

  // Unparking touches the parked node only.
  lemma {:induction false} UnparkOther(q: M.Queue, n: nat)
    requires BuffersOk(q) && n < |q.nodes| && !q.nodes[n].queued
    ensures M.Unpark(q).nodes[n] == q.nodes[n]
  {
  }

  // Events accumulate.
  lemma {:induction false} Prefixed(o: M.Outcome, next: M.Outcome, events: seq<M.Event>, more: seq<M.Event>)
    requires o == next.(events := more + next.events)
    ensures o.(events := events + o.events) == next.(events := (events + more) + next.events)
  {
    assert events + (more + next.events) == (events + more) + next.events;
  }

  // One iteration of AdvanceNode's loop on node n turned q into q'; unless it stopped, the rest of the section follows.
  ghost predicate Iteration(c: M.Config, q: M.Queue, q': M.Queue, n: nat, stop: Option<M.Stop>, broadcast: bool,
                            events: seq<M.Event>)
    requires M.LinksInRange(c)
  {
    && M.Shape(c, q) && M.Shape(c, q') && n < |c.data|
    && match stop
       case Some(at) => M.Advance(c, q, n) == M.Outcome(q', at, broadcast, events)
       case None =>
         && !q'.nodes[n].queued && q'.nodes[n].active && M.Rank(q'.nodes[n].progress) < M.Rank(q.nodes[n].progress)
         && (broadcast ==> q'.nodes[n].progress.Completed?)
         && M.Advance(c, q, n) == M.Advance(c, q', n).(events := events + M.Advance(c, q', n).events)
  }

  class BuildQueue {
    const config: M.Config
    const queue: array<nat>          // m_Queue
    const capacity: nat              // m_QueueCapacity
    ghost const bits: nat            // capacity is this power of two
    var readIndex: nat
    var writeIndex: nat
    const nodes: array<M.NodeState>
    const waitList: array<nat>       // m_ExpensiveWaitList
    var waitCount: nat
    var pending: int
    var failed: int
    var expensiveRunning: int
    var pass: int
    var quit: bool

    ghost predicate Layout()
      reads this
    {
      && queue.Length == waitList.Length == capacity == Pow2(bits) && bits <= 31 && queue != waitList
      && nodes.Length == |config.data| < capacity
      && readIndex < capacity && writeIndex < capacity && waitCount <= capacity
    }

    ghost function Ring(): seq<nat>
      requires Layout()
      reads this, queue
    {
      Unread(queue[..], readIndex, writeIndex)
    }

    ghost function View(): M.Queue
      requires Layout()
      reads this, queue, nodes, waitList
    {
      M.Queue(nodes[..], Ring(), waitList[..waitCount], pending, failed, expensiveRunning, pass, quit)
    }

    ghost predicate Valid()
      reads this, queue, nodes, waitList
    {
      M.LinksInRange(config) && Layout() && BuffersOk(View())
    }

    // BuildQueueInit: capacity is the next power of two above the node count.
    constructor (config: M.Config)
      requires M.WellFormed(config) && |config.data| < TWO_TO_31
      ensures Valid() && this.config == config
      ensures View() == M.Queue(seq(|config.data|, _ => M.NodeState(false, false, M.Initial, 0, 0)),
                                [], [], 0, 0, 0, -1, false)
      ensures fresh(queue) && fresh(nodes) && fresh(waitList)
    {
      var cap, k := NextPowerOfTwo(|config.data| + 1);
      this.config := config;
      capacity, bits := cap, k;
      queue := new nat[cap];
      waitList := new nat[cap];
      nodes := new M.NodeState[|config.data|](_ => M.NodeState(false, false, M.Initial, 0, 0));
      readIndex, writeIndex, waitCount := 0, 0, 0;
      pending, failed, expensiveRunning, pass, quit := 0, 0, 0, -1, false;
      new;
      assert nodes[..] == seq(|config.data|, _ => M.NodeState(false, false, M.Initial, 0, 0));
    }

    method SetNode(n: nat, s: M.NodeState)
      requires Layout() && n < nodes.Length
      modifies nodes
      ensures Layout() && View() == old(View()).(nodes := old(View()).nodes[n := s])
    {
      nodes[n] := s;
    }

    method Enqueue(n: nat)
      requires Valid() && n < nodes.Length
      requires !nodes[n].queued && !nodes[n].active
      modifies this, queue, nodes
      ensures Valid() && View() == M.Enqueue(old(View()), n)
    {
      ghost var q := View();
      assert n !in q.ring;
      Pigeonhole(q.ring, nodes.Length, n);
      UnreadPush(queue[..], readIndex, writeIndex, n, bits);
      queue[writeIndex] := n;
      writeIndex := Increment(writeIndex, capacity);
      nodes[n] := nodes[n].(queued := true);
      assert queue[..] == old(queue[..])[old(writeIndex) := n];
    }

    method ParkExpensiveNode(n: nat)
      requires Valid() && n < nodes.Length
      requires !nodes[n].queued && nodes[n].active
      modifies this, waitList, nodes
      ensures Valid() && View() == M.Park(old(View()), n)
    {
      ghost var q := View();
      assert n !in q.parked;
      Pigeonhole(q.parked, nodes.Length, n);
      nodes[n] := nodes[n].(queued := true);
      waitList[waitCount] := n;
      waitCount := waitCount + 1;
      assert Ring() == q.ring;
      assert waitList[..waitCount] == q.parked + [n];
    }

    method UnparkExpensiveNode()
      requires Valid()
      modifies this, queue, nodes
      ensures Valid() && View() == M.Unpark(old(View()))
    {
      if waitCount > 0 {
        ghost var q := View();
        waitCount := waitCount - 1;
        var top := waitList[waitCount];
        assert top == q.parked[|q.parked| - 1];
        nodes[top] := nodes[top].(queued := false, active := false);
        assert Ring() == q.ring;
        assert waitList[..waitCount] == q.parked[..|q.parked| - 1];
        assert View() == M.SetFlags(q, top, false, false).(parked := q.parked[..|q.parked| - 1]);
        assert forall i :: 0 <= i < |q.ring| ==> q.ring[i] != top;
        Enqueue(top);
      }
    }

    // AvailableNodeCount: the masked difference of the indices is the number of unread entries.
    method AvailableNodeCount() returns (count: nat)
      requires Layout()
      ensures count == |Ring()| && (count == 0 <==> readIndex == writeIndex)
    {
      Pow2Monotone(bits, 31);
      Pow2Words();
      MaskedDistance(writeIndex, readIndex, bits);
      count := And(WordMinus(writeIndex, readIndex), capacity - 1);
    }

    // NextNode
    method NextNode() returns (n: Option<nat>)
      requires Valid()
      modifies this, nodes
      ensures Valid()
      ensures n.None? <==> old(View()).ring == []
      ensures n.None? ==> View() == old(View())
      ensures n.Some? ==> n.value == old(View()).ring[0] && View() == M.Pop(old(View()))
    {
      var available := AvailableNodeCount();
      if available == 0 {
        return None;
      }
      ghost var q := View();
      UnreadPop(queue[..], readIndex, writeIndex, bits);
      var node := queue[readIndex];
      assert node == q.ring[0];
      readIndex := Increment(readIndex, capacity);
      nodes[node] := nodes[node].(queued := false, active := true);
      assert Ring() == q.ring[1..];
      PopFits(q);
      assert View() == M.Pop(q);
      return Some(node);
    }

    // SetupDependencies
    method SetupDependencies(n: nat) returns (progress: M.Progress)
      requires Valid() && n < nodes.Length
      modifies this, queue, nodes
      ensures Valid() && Below(config.data[n].deps, |config.data|)
      ensures var (q, waits) := M.SetupDependencies(old(View()), config.data[n].deps);
              View() == q && progress == if waits > 0 then M.Blocked else M.Unblocked
    {
      var deps := config.data[n].deps;
      assert M.DepsOk(config, n);
      ghost var target := M.SetupDependencies(View(), deps);
      var waits := 0;
      assert deps[0..] == deps;
      for i := 0 to |deps|
        invariant Valid()
        invariant target == (M.SetupDependencies(View(), deps[i..]).0, waits + M.SetupDependencies(View(), deps[i..]).1)
      {
        var d := deps[i];
        assert deps[i..][0] == d && deps[i..][1..] == deps[i + 1..];
        if !nodes[d].progress.Completed? {
          waits := waits + 1;
          if !nodes[d].queued && !nodes[d].active && !nodes[d].progress.Blocked? {
            Enqueue(d);
          }
        }
      }
      assert deps[|deps|..] == [];
      progress := if waits > 0 then M.Blocked else M.Unblocked;
    }

    // AllDependenciesReady
    method AllDependenciesReady(n: nat) returns (ready: bool)
      requires Valid() && n < nodes.Length
      ensures ready == M.Ready(config, View(), n)
    {
      var deps := config.data[n].deps;
      assert M.DepsOk(config, n);
      for i := 0 to |deps|
        invariant forall j :: 0 <= j < i ==> nodes[deps[j]].progress.Completed?
      {
        if !nodes[deps[i]].progress.Completed? {
          assert deps[i] in deps;
          return false;
        }
      }
      return true;
    }

    // UnblockWaiters
    method UnblockWaiters(n: nat)
      requires Valid() && n < nodes.Length
      modifies this, queue, nodes
      ensures Valid() && Below(config.data[n].backLinks, |config.data|)
      ensures View() == M.UnblockWaiters(config, old(View()), config.data[n].backLinks)
    {
      var links := config.data[n].backLinks;
      assert M.DepsOk(config, n);
      ghost var target := M.UnblockWaiters(config, View(), links);
      assert links[0..] == links;
      for i := 0 to |links|
        invariant Valid() && target == M.UnblockWaiters(config, View(), links[i..])
      {
        var waiter := links[i];
        assert links[i..][0] == waiter && links[i..][1..] == links[i + 1..];
        if config.data[waiter].pass != pass {
          continue;
        }
        var ready := AllDependenciesReady(waiter);
        if !ready {
          continue;
        }
        if nodes[waiter].queued || nodes[waiter].active {
          continue;
        }
        Enqueue(waiter);
      }
      assert links[|links|..] == [];
    }

    // One iteration of AdvanceNode's loop: None when the loop goes on.
    method AdvanceOnce(n: nat) returns (stop: Option<M.Stop>, broadcast: bool, ghost events: seq<M.Event>)
      requires Valid() && n < nodes.Length && !nodes[n].queued && nodes[n].active
      modifies this, queue, nodes, waitList
      ensures Valid() && Iteration(config, old(View()), View(), n, stop, broadcast, events)
    {
      assert M.DepsOk(config, n);
      events, broadcast, stop := [], false, None;
      match nodes[n].progress
      case Initial =>
        stop := AdvanceInitial(n);
      case Blocked =>
        SetProgress(n, M.Unblocked);
      case Unblocked =>
        stop, events := Some(M.ToSign), [M.Signing(n)];
      case RunAction =>
        stop, events := AdvanceRunAction(n);
      case _ =>
        stop, broadcast, events := AdvanceEnd(n);
    }

    method AdvanceEnd(n: nat) returns (stop: Option<M.Stop>, broadcast: bool, ghost events: seq<M.Event>)
      requires Valid() && n < nodes.Length && !nodes[n].queued && nodes[n].active
      requires nodes[n].progress in {M.Succeeded, M.UpToDate, M.Failed, M.Completed}
      modifies this, queue, nodes
      ensures Valid() && Iteration(config, old(View()), View(), n, stop, broadcast, events)
    {
      assert M.DepsOk(config, n);
      events, broadcast, stop := [], false, None;
      if nodes[n].progress.Failed? {
        AdvanceFailed(n);
        broadcast := true;
      } else if nodes[n].progress.Completed? {
        events := [M.Done(n, nodes[n].result)];
        AdvanceCompleted(n);
        stop, broadcast := Some(M.ToLoop), true;
      } else {
        Conclude(n, 0);
      }
    }

    method AdvanceFailed(n: nat)
      requires Valid() && n < nodes.Length
      modifies this, nodes
      ensures Valid() && View() == old(View()).(failed := old(failed) + 1,
                nodes := old(View()).nodes[n := old(nodes[n]).(result := 1, progress := M.Completed)])
    {
      ghost var q := View();
      failed := failed + 1;
      assert View() == q.(failed := q.failed + 1);
      Conclude(n, 1);
    }

    method AdvanceCompleted(n: nat)
      requires Valid() && n < nodes.Length
      modifies this, queue, nodes
      ensures Valid() && Below(config.data[n].backLinks, |config.data|)
      ensures View() == M.UnblockWaiters(config, old(View()).(pending := old(pending) - 1), config.data[n].backLinks)
    {
      ghost var q := View();
      pending := pending - 1;
      assert View() == q.(pending := q.pending - 1);
      UnblockWaiters(n);
    }

    method AdvanceInitial(n: nat) returns (stop: Option<M.Stop>)
      requires Valid() && n < nodes.Length && !nodes[n].queued && nodes[n].active && nodes[n].progress.Initial?
      modifies this, queue, nodes
      ensures Valid() && M.Shape(config, old(View()))
      ensures stop.Some? ==> M.Advance(config, old(View()), n) == M.Outcome(View(), stop.value, false, [])
      ensures stop.None? ==>
                && !nodes[n].queued && nodes[n].active && nodes[n].progress.Unblocked?
                && M.Advance(config, old(View()), n) == M.Advance(config, View(), n)
    {
      assert M.DepsOk(config, n);
      M.SetupKeepsShape(View(), config.data[n].deps);
      ActiveNotSetUp(View(), config.data[n].deps, n);
      var p := SetupDependencies(n);
      SetProgress(n, p);
      stop := None;
      if p.Blocked? {
        SetInactive(n);
        stop := Some(M.ToLoop);
      }
    }

    method AdvanceRunAction(n: nat) returns (stop: Option<M.Stop>, ghost events: seq<M.Event>)
      requires Valid() && n < nodes.Length && !nodes[n].queued && nodes[n].active && nodes[n].progress.RunAction?
      modifies this, queue, nodes, waitList
      ensures Valid() && M.Shape(config, old(View()))
      ensures stop.Some? ==> M.Advance(config, old(View()), n) == M.Outcome(View(), stop.value, false, events)
      ensures stop.None? ==>
                && !nodes[n].queued && nodes[n].active && nodes[n].progress.Succeeded?
                && M.Advance(config, old(View()), n) ==
                   M.Advance(config, View(), n).(events := events + M.Advance(config, View(), n).events)
    {
      stop, events := None, [];
      if config.data[n].emptyAction {
        events := [M.Finished(n, nodes[n].signature, true)];
        FinishAction(n, M.Succeeded);
      } else if config.data[n].expensive && expensiveRunning == config.maxExpensive {
        ParkExpensiveNode(n);
        stop := Some(M.ToLoop);
      } else {
        if config.data[n].expensive {
          ghost var q := View();
          expensiveRunning := expensiveRunning + 1;
          assert View() == q.(expensiveRunning := q.expensiveRunning + 1);
        }
        stop, events := Some(M.ToAct), [M.Acting(n)];
      }
    }

    // AdvanceNode, from a lock acquisition to the next release: where the thread stops, and whether it broadcast.
    method AdvanceNode(n: nat) returns (stop: M.Stop, broadcast: bool, ghost events: seq<M.Event>)
      requires Valid() && n < nodes.Length
      requires !nodes[n].queued && nodes[n].active
      modifies this, queue, nodes, waitList
      ensures Valid() && M.Shape(config, old(View()))
      ensures M.Outcome(View(), stop, broadcast, events) == M.Advance(config, old(View()), n)
    {
      ghost var target := M.Advance(config, View(), n);
      events := [];
      broadcast := false;
      while true
        invariant Valid() && !nodes[n].queued && nodes[n].active
        invariant broadcast ==> nodes[n].progress.Completed?
        invariant target == M.Advance(config, View(), n).(events := events + M.Advance(config, View(), n).events)
        decreases M.Rank(nodes[n].progress)
      {
        ghost var before := M.Advance(config, View(), n);
        var r, b, more := AdvanceOnce(n);
        broadcast := broadcast || b;
        if r.Some? {
          events := events + more;
          return r.value, broadcast, events;
        }
        Prefixed(before, M.Advance(config, View(), n), events, more);
        events := events + more;
      }
    }

    method SetProgress(n: nat, p: M.Progress)
      requires Valid() && n < nodes.Length
      modifies nodes
      ensures Valid() && View() == M.SetProgress(old(View()), n, p)
    {
      ghost var q := View();
      SetNode(n, nodes[n].(progress := p));
      assert View().nodes == q.nodes[n := q.nodes[n].(progress := p)];
    }

    // NodeStateFlagInactive on a node that is in nobody's buffer
    method SetInactive(n: nat)
      requires Valid() && n < nodes.Length && !nodes[n].queued
      modifies nodes
      ensures Valid() && View() == M.SetFlags(old(View()), n, false, false)
    {
      ghost var q := View();
      SetNode(n, nodes[n].(active := false));
      assert View().nodes == q.nodes[n := q.nodes[n].(queued := false, active := false)];
    }

    method Conclude(n: nat, result: int)
      requires Valid() && n < nodes.Length
      modifies nodes
      ensures Valid()
      ensures View() == old(View()).(nodes :=
                old(View()).nodes[n := old(nodes[n]).(result := result, progress := M.Completed)])
    {
      ghost var q := View();
      SetNode(n, nodes[n].(result := result, progress := M.Completed));
    }

    // An expensive action has ended: the counter drops and a parked node may follow.
    method EndExpensive(ghost n: nat)
      requires Valid() && n < nodes.Length && !nodes[n].queued
      modifies this, queue, nodes
      ensures Valid() && M.Shape(config, old(View()))
      ensures View() == M.Unpark(old(View()).(expensiveRunning := old(expensiveRunning) - 1))
      ensures nodes[n] == old(nodes[n])
    {
      ghost var q := View();
      expensiveRunning := expensiveRunning - 1;
      assert View() == q.(expensiveRunning := q.expensiveRunning - 1);
      UnparkOther(View(), n);
      UnparkExpensiveNode();
      assert nodes[n] == View().nodes[n];
    }

    // The part of the kRunAction case that follows the action.
    method FinishAction(n: nat, p: M.Progress)
      requires Valid() && n < nodes.Length && !nodes[n].queued
      modifies this, queue, nodes
      ensures Valid() && M.Shape(config, old(View())) && View() == M.FinishAction(config, old(View()), n, p)
      ensures nodes[n].progress == p && !nodes[n].queued && nodes[n].active == old(nodes[n].active)
    {
      SetProgress(n, p);
      if config.data[n].expensive {
        EndExpensive(n);
      }
    }

    // OutputFilesDiffer
    method OutputFilesDiffer(outputs: seq<string>, before: seq<string>) returns (differ: bool)
      ensures differ <==> outputs != before
    {
      if |outputs| != |before| {
        return true;
      }
      for i := 0 to |outputs|
        invariant outputs[..i] == before[..i]
      {
        if outputs[i] != before[i] {
          return true;
        }
      }
      return false;
    }

    // The decision at the end of CheckInputSignature.
    method CheckInputSignature(n: nat, signature: nat, outputsMissing: bool) returns (p: M.Progress)
      requires n < |config.data|
      ensures p == M.Decide(config.data[n], signature, outputsMissing)
    {
      if config.data[n].prev.None? {
        return M.RunAction;
      }
      var prev := config.data[n].prev.value;
      if prev.signature != signature {
        return M.RunAction;
      }
      if prev.result != 0 {
        return M.RunAction;
      }
      var differ := OutputFilesDiffer(config.data[n].outputs, prev.outputs);
      if differ || outputsMissing {
        return M.RunAction;
      }
      return M.UpToDate;
    }

    // ShouldKeepBuilding
    method ShouldKeepBuilding(thread: nat, interrupted: bool) returns (go: bool)
      requires Valid()
      ensures go <==> S.KeepsBuilding(config, View(), interrupted, thread)
    {
      if interrupted {
        return false;
      }
      if failed > 0 && !config.continueOnError {
        return false;
      }
      if quit {
        return false;
      }
      if thread != 0 {
        return true;
      }
      return pending > 0;
    }

    // Re-entry after CheckInputSignature released the lock.
    method AfterSigning(n: nat, signature: nat, outputsMissing: bool)
      returns (stop: M.Stop, broadcast: bool, ghost events: seq<M.Event>)
      requires Valid() && n < nodes.Length
      requires !nodes[n].queued && nodes[n].active
      modifies this, queue, nodes, waitList
      ensures Valid() && M.Shape(config, old(View()))
      ensures M.Outcome(View(), stop, broadcast, events) ==
              M.AfterSigning(config, old(View()), n, signature, outputsMissing)
    {
      var p := CheckInputSignature(n, signature, outputsMissing);
      ghost var q := View();
      SetNode(n, nodes[n].(signature := signature, progress := p));
      stop, broadcast, events := AdvanceNode(n);
      events := [M.Decided(n, p)] + events;
    }

    // Re-entry after RunAction released the lock.
    method AfterAction(n: nat, ok: bool)
      returns (stop: M.Stop, broadcast: bool, ghost events: seq<M.Event>)
      requires Valid() && n < nodes.Length
      requires !nodes[n].queued && nodes[n].active
      modifies this, queue, nodes, waitList
      ensures Valid() && M.Shape(config, old(View()))
      ensures M.Outcome(View(), stop, broadcast, events) == M.AfterAction(config, old(View()), n, ok)
    {
      ghost var signature := nodes[n].signature;
      FinishAction(n, if ok then M.Succeeded else M.Failed);
      stop, broadcast, events := AdvanceNode(n);
      events := [M.Finished(n, signature, ok)] + events;
    }

    // The loop that fills the ring with a slice of nodes.
    method QueueSlice(start: nat, count: nat)
      requires Layout() && start + count <= nodes.Length
      modifies queue, nodes
      ensures forall j :: 0 <= j < nodes.Length ==>
                nodes[j] == if start <= j < start + count then old(nodes[j]).(queued := true) else old(nodes[j])
      ensures forall j :: 0 <= j < count ==> queue[j] == start + j
    {
      for i := 0 to count
        invariant forall j :: 0 <= j < nodes.Length ==>
                    nodes[j] == if start <= j < start + i then old(nodes[j]).(queued := true) else old(nodes[j])
        invariant forall j :: 0 <= j < i ==> queue[j] == start + j
      {
        nodes[start + i] := nodes[start + i].(queued := true);
        queue[i] := start + i;
      }
    }

    // The setup of one pass in BuildQueueBuildNodeRange.
    method BeginPass(start: nat, count: nat, passIndex: nat)
      requires Valid() && start + count <= nodes.Length
      requires waitCount == 0 && forall i :: start <= i < start + count ==> !nodes[i].active
      modifies this, queue, nodes
      ensures Valid() && View() == M.BeginPass(old(View()), start, count, passIndex)
    {
      QueueSlice(start, count);
      pass, pending, failed := passIndex, count, 0;
      writeIndex, readIndex := count, 0;
      assert Ring() == seq(count, i => start + i);
      assert nodes[..] == M.BeginPass(old(View()), start, count, passIndex).nodes;
      assert waitList[..waitCount] == [];
    }
  }
}
