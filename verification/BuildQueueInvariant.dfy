/**
 The partition invariant of the build queue, and the proof that every lock-held section keeps it: each node of the
 current pass is in exactly one of ring, park list, a thread's hands, blocked, completed.
 */
module BuildQueueInvariant {
  import opened Sequences
  import opened Sums
  import opened BuildQueueModel

  // `held` is the set of nodes that some thread is advancing.
  ghost predicate NodeOk(c: Config, q: Queue, held: set<nat>, n: nat)
    requires Shape(c, q) && n < |c.data|
  {
    var s := q.nodes[n];
    && (n in q.ring <==> s.queued && !s.active)
    && (n in q.parked <==> s.queued && s.active)
    && (n in held <==> !s.queued && s.active && !s.progress.Completed?)
    && (s.progress.Completed? ==> !s.queued && s.active)
    && (c.data[n].pass > q.pass ==> s.progress.Initial? && Idle(q, n))
    && (c.data[n].pass < q.pass ==> s.progress.Completed? && s.result == 0)
    && (c.data[n].pass == q.pass && Idle(q, n) ==> s.progress.Blocked? && !Ready(c, q, n))
    && (s.queued ==> s.progress.Initial? || s.progress.Blocked? || s.progress.RunAction?)
    && (s.queued && (s.active || s.progress.RunAction?) ==>
          s.progress.RunAction? && c.data[n].expensive && !c.data[n].emptyAction)
    && (!Idle(q, n) && !s.progress.Initial? ==> Ready(c, q, n))
  }

  function PendingFlags(c: Config, q: Queue): seq<int>
    requires |q.nodes| == |c.data|
  {
    seq(|q.nodes|, i requires 0 <= i < |q.nodes| =>
      if c.data[i].pass == q.pass && !Complete(q, i) then 1 else 0)
  }

  ghost predicate Counters(c: Config, q: Queue)
    requires |q.nodes| == |c.data|
  {
    && q.pending == Sum(PendingFlags(c, q))
    && q.expensiveRunning <= c.maxExpensive
    && q.failed >= 0
    && (q.failed == 0 ==> forall n :: 0 <= n < |q.nodes| && Complete(q, n) ==> q.nodes[n].result == 0)
  }

  ghost predicate QInv(c: Config, q: Queue, held: set<nat>)
  {
    && Shape(c, q)
    && Distinct(q.ring) && Distinct(q.parked)
    && (forall n :: n in held ==> n < |c.data|)
    && (forall n :: 0 <= n < |c.data| ==> NodeOk(c, q, held, n))
    && Counters(c, q)
  }

  /* ---- Effects of the loops ---- */

  // Under the invariant the Enqueue inside SetupDependencies is never reached, and the number of waits tells
  // whether the node is ready.
  lemma {:induction false} SetupNeverEnqueues(c: Config, q: Queue, held: set<nat>, n: nat, k: nat)
    requires WellFormed(c) && QInv(c, q, held) && n < |c.data| && c.data[n].pass == q.pass && k <= |c.data[n].deps|
    requires Below(c.data[n].deps[k..], |q.nodes|)
    ensures SetupDependencies(q, c.data[n].deps[k..]).0 == q
    ensures SetupDependencies(q, c.data[n].deps[k..]).1 == 0 <==>
            forall i :: k <= i < |c.data[n].deps| ==> c.data[n].deps[i] < |q.nodes| && Complete(q, c.data[n].deps[i])
    decreases |c.data[n].deps| - k
  {
    var deps := c.data[n].deps;
    if k < |deps| {
      assert DepsOk(c, n);
      var d := deps[k..][0];
      assert d == deps[k];
      assert NodeOk(c, q, held, d);
      assert deps[k..][1..] == deps[k + 1..];
      SetupNeverEnqueues(c, q, held, n, k + 1);
    }
  }

  lemma {:induction false} UnblockEffect(c: Config, q: Queue, links: seq<nat>)
    requires |q.nodes| == |c.data| && Below(links, |c.data|)
    ensures var q' := UnblockWaiters(c, q, links);
            && q' == q.(nodes := q'.nodes, ring := q'.ring)
            && |q'.nodes| == |q.nodes|
            && (forall m :: 0 <= m < |q.nodes| ==>
                  q'.nodes[m] == if m in links && Wakeable(c, q, m) then q.nodes[m].(queued := true) else q.nodes[m])
            && (forall m :: 0 <= m < |q.nodes| ==> (m in q'.ring <==> m in q.ring || (m in links && Wakeable(c, q, m))))
            && (Below(q.ring, |q.nodes|) ==> Below(q'.ring, |q.nodes|))
            && (Distinct(q.ring) && (forall m :: 0 <= m < |q.nodes| && m in q.ring ==> q.nodes[m].queued)
                ==> Distinct(q'.ring))
    decreases |links|
  {
    if links != [] {
      var l := links[0];
      assert l < |q.nodes|;
      var q1 := if Wakeable(c, q, l) then Enqueue(q, l) else q;
      assert forall m :: 0 <= m < |q.nodes| ==> q1.nodes[m].progress == q.nodes[m].progress;
      assert forall m :: 0 <= m < |q.nodes| ==> Ready(c, q1, m) == Ready(c, q, m);
      assert forall m :: 0 <= m < |q.nodes| && m != l ==> Wakeable(c, q1, m) == Wakeable(c, q, m);
      assert links == [l] + links[1..];
      UnblockEffect(c, q1, links[1..]);
    }
  }

  /* ---- Sums after one node changed ---- */

  lemma {:induction false} PendingAfter(c: Config, q: Queue, q': Queue, n: nat)
    requires |q.nodes| == |c.data| == |q'.nodes| && n < |q.nodes| && q'.pass == q.pass
    requires forall m :: 0 <= m < |q.nodes| && m != n ==> q'.nodes[m].progress == q.nodes[m].progress
    requires !Complete(q, n)
    ensures Sum(PendingFlags(c, q')) ==
            Sum(PendingFlags(c, q)) - (if c.data[n].pass == q.pass && Complete(q', n) then 1 else 0)
  {
    var f := PendingFlags(c, q);
    var f' := PendingFlags(c, q');
    assert f' == f[n := f'[n]];
    SumUpdate(f, n, f'[n]);
  }

  /* ---- Each elementary step keeps the invariant ---- */

  // Readiness only looks at which nodes are completed.
  lemma {:induction false} ReadyCongruence(c: Config, q: Queue, q': Queue)
    requires |q.nodes| == |c.data| == |q'.nodes|
    requires forall m :: 0 <= m < |q.nodes| ==> Complete(q, m) == Complete(q', m)
    ensures forall m :: 0 <= m < |c.data| ==> Ready(c, q, m) == Ready(c, q', m)
  {
  }

  lemma {:induction false} PopKeeps(c: Config, q: Queue, held: set<nat>)
    requires QInv(c, q, held) && q.ring != []
    ensures q.ring[0] !in held && c.data[q.ring[0]].pass == q.pass
    ensures QInv(c, Pop(q), held + {q.ring[0]})
  {
    var n := q.ring[0];
    var q' := Pop(q);
    assert NodeOk(c, q, held, n);
    ReadyCongruence(c, q, q');
    PendingAfter(c, q, q', n);
    assert forall m :: m in q.ring <==> m == n || m in q'.ring by { assert q.ring == [n] + q'.ring; }
    assert n !in q'.ring;
    forall m | 0 <= m < |c.data| ensures NodeOk(c, q', held + {n}, m) {
      assert NodeOk(c, q, held, m);
    }
  }

  // A held node moves to another uncompleted progress.
  lemma {:induction false} ProgressKeeps(c: Config, q: Queue, held: set<nat>, n: nat, q': Queue)
    requires QInv(c, q, held) && n in held
    requires q' == q.(nodes := q'.nodes) && |q'.nodes| == |q.nodes|
    requires forall m :: 0 <= m < |q.nodes| && m != n ==> q'.nodes[m] == q.nodes[m]
    requires q'.nodes[n] == q.nodes[n].(progress := q'.nodes[n].progress, signature := q'.nodes[n].signature)
    requires !Complete(q', n) && (!q'.nodes[n].progress.Initial? ==> Ready(c, q, n))
    ensures QInv(c, q', held)
  {
    assert NodeOk(c, q, held, n);
    ReadyCongruence(c, q, q');
    PendingAfter(c, q, q', n);
    forall m | 0 <= m < |c.data| ensures NodeOk(c, q', held, m) {
      assert NodeOk(c, q, held, m);
    }
  }

  lemma {:induction false} BlockKeeps(c: Config, q: Queue, held: set<nat>, n: nat)
    requires QInv(c, q, held) && n in held && c.data[n].pass == q.pass && !Ready(c, q, n)
    ensures QInv(c, SetFlags(SetProgress(q, n, Blocked), n, false, false), held - {n})
  {
    var q' := SetFlags(SetProgress(q, n, Blocked), n, false, false);
    assert NodeOk(c, q, held, n);
    ReadyCongruence(c, q, q');
    PendingAfter(c, q, q', n);
    forall m | 0 <= m < |c.data| ensures NodeOk(c, q', held - {n}, m) {
      assert NodeOk(c, q, held, m);
    }
  }

  lemma {:induction false} ParkKeeps(c: Config, q: Queue, held: set<nat>, n: nat)
    requires QInv(c, q, held) && n in held && q.nodes[n].progress.RunAction?
    requires c.data[n].expensive && !c.data[n].emptyAction
    ensures QInv(c, Park(q, n), held - {n})
  {
    var q' := Park(q, n);
    assert NodeOk(c, q, held, n);
    ReadyCongruence(c, q, q');
    PendingAfter(c, q, q', n);
    forall m | 0 <= m < |c.data| ensures NodeOk(c, q', held - {n}, m) {
      assert NodeOk(c, q, held, m);
    }
  }

  lemma {:induction false} UnparkKeeps(c: Config, q: Queue, held: set<nat>)
    requires QInv(c, q, held)
    ensures QInv(c, Unpark(q), held)
  {
    if q.parked != [] {
      var q' := Unpark(q);
      var top := q.parked[|q.parked| - 1];
      assert NodeOk(c, q, held, top);
      assert q'.nodes == q.nodes[top := q.nodes[top].(queued := true, active := false)];
      ReadyCongruence(c, q, q');
      PendingAfter(c, q, q', top);
      assert forall m :: m in q.parked <==> m == top || m in q'.parked by { assert q.parked == q'.parked + [top]; }
      assert top !in q'.parked;
      forall m | 0 <= m < |c.data| ensures NodeOk(c, q', held, m) {
        assert NodeOk(c, q, held, m);
      }
    }
  }

  lemma {:induction false} FinishKeeps(c: Config, q: Queue, held: set<nat>, n: nat, p: Progress)
    requires WellFormed(c) && QInv(c, q, held) && n in held && q.nodes[n].progress.RunAction?
    requires p.Succeeded? || p.Failed?
    ensures QInv(c, FinishAction(c, q, n, p), held)
    ensures FinishAction(c, q, n, p).nodes[n].progress == p
  {
    assert NodeOk(c, q, held, n);
    var q1 := SetProgress(q, n, p);
    ProgressKeeps(c, q, held, n, q1);
    var e := q1.expensiveRunning - 1;
    CounterKeeps(c, q1, held, e);
    UnparkKeeps(c, q1.(expensiveRunning := e), held);
    UnparkSpares(c, q1.(expensiveRunning := e), held, n);
  }

  // The invariant bounds the counter of running expensive actions and says nothing else about it.
  lemma {:induction false} CounterKeeps(c: Config, q: Queue, held: set<nat>, e: int)
    requires QInv(c, q, held) && e <= c.maxExpensive
    ensures QInv(c, q.(expensiveRunning := e), held)
  {
    var q' := q.(expensiveRunning := e);
    assert PendingFlags(c, q') == PendingFlags(c, q);
    forall m | 0 <= m < |c.data| ensures NodeOk(c, q', held, m) {
      assert NodeOk(c, q, held, m);
    }
  }

  lemma {:induction false} UnparkSpares(c: Config, q: Queue, held: set<nat>, n: nat)
    requires QInv(c, q, held) && n in held
    ensures Unpark(q).nodes[n] == q.nodes[n]
  {
    assert NodeOk(c, q, held, n);
  }

  // Completing n makes only its back-links ready.
  lemma {:induction false} ReadyAfter(c: Config, q: Queue, q1: Queue, n: nat, m: nat)
    requires WellFormed(c) && |q.nodes| == |q1.nodes| == |c.data| && n < |c.data| && m < |c.data| && Complete(q1, n)
    requires forall l :: 0 <= l < |c.data| && l != n ==> q1.nodes[l] == q.nodes[l]
    ensures Ready(c, q, m) ==> Ready(c, q1, m)
    ensures !Ready(c, q, m) && Ready(c, q1, m) ==> m in c.data[n].backLinks
  {
    if !Ready(c, q, m) && Ready(c, q1, m) {
      assert n in c.data[m].deps;
    }
  }

  // The last two iterations of AdvanceNode's loop: a node completes and its waiters wake.
  lemma {:induction false} CompleteKeeps(c: Config, q: Queue, held: set<nat>, n: nat, result: int, failures: int)
    requires WellFormed(c) && QInv(c, q, held) && n in held && Ready(c, q, n) && c.data[n].pass == q.pass
    requires result == failures == 0 || (result == failures == 1)
    ensures var q1 := q.(failed := q.failed + failures, pending := q.pending - 1,
                         nodes := q.nodes[n := q.nodes[n].(result := result, progress := Completed)]);
            && Below(c.data[n].backLinks, |c.data|)
            && QInv(c, UnblockWaiters(c, q1, c.data[n].backLinks), held - {n})
  {
    var links := c.data[n].backLinks;
    var q1 := q.(failed := q.failed + failures, pending := q.pending - 1,
                 nodes := q.nodes[n := q.nodes[n].(result := result, progress := Completed)]);
    assert DepsOk(c, n);
    UnblockEffect(c, q1, links);
    var q' := UnblockWaiters(c, q1, links);
    ReadyCongruence(c, q1, q');
    assert NodeOk(c, q, held, n);
    PendingAfter(c, q, q', n);
    forall m | 0 <= m < |c.data| && m in q1.ring ensures q1.nodes[m].queued {
      assert NodeOk(c, q, held, m);
    }
    forall m: nat | m < |c.data| ensures NodeOk(c, q', held - {n}, m) {
      ReadyAfter(c, q, q1, n, m);
      assert NodeOk(c, q, held, m);
    }
  }

  /* ---- AdvanceNode keeps the invariant ---- */

  ghost predicate AdvanceOk(c: Config, o: Outcome, held: set<nat>, n: nat)
    requires n < |c.data|
  {
    && Shape(c, o.q)
    && match o.stop
       case ToLoop => QInv(c, o.q, held - {n})
       case ToSign => QInv(c, o.q, held) && o.q.nodes[n].progress.Unblocked?
       case ToAct => QInv(c, o.q, held) && o.q.nodes[n].progress.RunAction? && !c.data[n].emptyAction
  }

  lemma {:induction false} UnblockedKeeps(c: Config, q: Queue, held: set<nat>, n: nat)
    requires LinksInRange(c) && QInv(c, q, held) && n in held && Ready(c, q, n)
    ensures AdvanceOk(c, Advance(c, SetProgress(q, n, Unblocked), n), held, n)
  {
    ProgressKeeps(c, q, held, n, SetProgress(q, n, Unblocked));
  }

  lemma {:induction false} InitialKeeps(c: Config, q: Queue, held: set<nat>, n: nat)
    requires WellFormed(c) && QInv(c, q, held) && n in held && c.data[n].pass == q.pass
    requires q.nodes[n].progress.Initial?
    ensures AdvanceOk(c, Advance(c, q, n), held, n)
  {
    assert NodeOk(c, q, held, n);
    assert DepsOk(c, n);
    var deps := c.data[n].deps;
    assert deps[0..] == deps;
    SetupNeverEnqueues(c, q, held, n, 0);
    if SetupDependencies(q, deps).1 > 0 {
      BlockKeeps(c, q, held, n);
    } else {
      UnblockedKeeps(c, q, held, n);
    }
  }

  lemma {:induction false} RunActionKeeps(c: Config, q: Queue, held: set<nat>, n: nat)
    requires WellFormed(c) && QInv(c, q, held) && n in held && c.data[n].pass == q.pass
    requires q.nodes[n].progress.RunAction?
    ensures AdvanceOk(c, Advance(c, q, n), held, n)
  {
    if c.data[n].emptyAction {
      FinishKeeps(c, q, held, n, Succeeded);
      CompletingKeeps(c, FinishAction(c, q, n, Succeeded), held, n);
    } else if c.data[n].expensive && q.expensiveRunning == c.maxExpensive {
      ParkKeeps(c, q, held, n);
    } else {
      LaunchKeeps(c, q, held, n);
    }
  }

  lemma {:induction false} AdvanceKeeps(c: Config, q: Queue, held: set<nat>, n: nat)
    requires WellFormed(c) && QInv(c, q, held) && n in held && c.data[n].pass == q.pass
    ensures AdvanceOk(c, Advance(c, q, n), held, n)
  {
    assert NodeOk(c, q, held, n);
    match q.nodes[n].progress
    case Initial => InitialKeeps(c, q, held, n);
    case Blocked => UnblockedKeeps(c, q, held, n);
    case Unblocked =>
    case RunAction => RunActionKeeps(c, q, held, n);
    case Succeeded => CompletingKeeps(c, q, held, n);
    case UpToDate => CompletingKeeps(c, q, held, n);
    case Failed => CompletingKeeps(c, q, held, n);
  }

  lemma {:induction false} CompletingKeeps(c: Config, q: Queue, held: set<nat>, n: nat)
    requires WellFormed(c) && QInv(c, q, held) && n in held && c.data[n].pass == q.pass
    requires q.nodes[n].progress.Succeeded? || q.nodes[n].progress.UpToDate? || q.nodes[n].progress.Failed?
    ensures var r := if q.nodes[n].progress.Failed? then 1 else 0;
            var q1 := q.(failed := q.failed + r, pending := q.pending - 1,
                         nodes := q.nodes[n := q.nodes[n].(result := r, progress := Completed)]);
            && Below(c.data[n].backLinks, |c.data|)
            && Advance(c, q, n) == Outcome(UnblockWaiters(c, q1, c.data[n].backLinks), ToLoop, true, [Done(n, r)])
    ensures AdvanceOk(c, Advance(c, q, n), held, n)
  {
    assert NodeOk(c, q, held, n);
    assert DepsOk(c, n);
    var r := if q.nodes[n].progress.Failed? then 1 else 0;
    var q0 := q.(failed := q.failed + r, nodes := q.nodes[n := q.nodes[n].(result := r, progress := Completed)]);
    assert Advance(c, q, n) == Advance(c, q0, n);
    CompleteKeeps(c, q, held, n, r, r);
  }

  lemma {:induction false} LaunchKeeps(c: Config, q: Queue, held: set<nat>, n: nat)
    requires QInv(c, q, held) && n in held && (c.data[n].expensive ==> q.expensiveRunning != c.maxExpensive)
    ensures QInv(c, if c.data[n].expensive then q.(expensiveRunning := q.expensiveRunning + 1) else q, held)
  {
    CounterKeeps(c, q, held, q.expensiveRunning + if c.data[n].expensive then 1 else 0);
    assert q.(expensiveRunning := q.expensiveRunning + 0) == q;
  }
}
