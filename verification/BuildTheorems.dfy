/** The theorems about whole builds: progress, wake-ups, the pop bound and the expensive throttle. */
module BuildTheorems {
  import opened Sums
  import opened BuildQueueModel
  import opened BuildQueueInvariant
  import opened BuildQueueSections
  import opened BuildSystem
  import opened BuildHistory

  /* ---- Deadlock freedom ---- */

  // Follow incomplete dependencies downwards: on an acyclic graph that cannot go on for ever.
  lemma {:induction false} NoBlockedNode(c: Config, q: Queue, rank: seq<nat>, n: nat)
    requires WellFormed(c) && QInv(c, q, {}) && q.ring == [] && q.parked == []
    requires Ranks(c, rank) && n < |c.data| && c.data[n].pass == q.pass
    ensures Complete(q, n)
    decreases rank[n]
  {
    assert NodeOk(c, q, {}, n);
    assert DepsOk(c, n);
    if !Complete(q, n) {
      assert !Ready(c, q, n);
      var d :| d in c.data[n].deps && !(d < |q.nodes| && Complete(q, d));
      var i :| 0 <= i < |c.data[n].deps| && c.data[n].deps[i] == d;
      assert NodeOk(c, q, {}, d);
      NoBlockedNode(c, q, rank, d);
    }
  }

  // With an empty ring and no node in any thread's hands, the pass is over.
  lemma {:induction false} DeadlockFree(c: Config, s: State)
    requires WellFormed(c) && Acyclic(c) && Reachable(c, s)
    requires s.q.ring == [] && forall t :: 0 <= t < |s.threads| ==> !Holds(s.threads[t])
    ensures s.q.pending == 0
  {
    ReachableInv(c, s);
    EmptyRingMeansDone(c, s);
  }

  lemma {:induction false} EmptyRingMeansDone(c: Config, s: State)
    requires WellFormed(c) && Acyclic(c) && Inv(c, s)
    requires s.q.ring == [] && forall t :: 0 <= t < |s.threads| ==> !Holds(s.threads[t])
    ensures s.q.pending == 0
  {
    var rank :| Ranks(c, rank);
    assert Held(s.threads) == {};
    SumConstant(ActingFlags(c, s.threads), 0);
    assert s.q.parked == [];
    forall n | 0 <= n < |c.data| && c.data[n].pass == s.q.pass ensures Complete(s.q, n) {
      NoBlockedNode(c, s.q, rank, n);
    }
    SumConstant(PendingFlags(c, s.q), 0);
  }

  lemma {:induction false} ReachableInv(c: Config, s: State)
    requires WellFormed(c) && Reachable(c, s)
    ensures Inv(c, s) && LogInv(c, s)
  {
    var run :| IsRun(c, run) && run[|run| - 1] == s;
    RunHistory(c, run, |run| - 1);
  }

  // When every thread sleeps or has left the loop, the main thread has left it, and for a reason: no wake-up was lost.
  lemma {:induction false} NeverStuck(c: Config, s: State)
    requires WellFormed(c) && Acyclic(c) && Reachable(c, s) && !s.interrupted
    requires forall t :: 0 <= t < |s.threads| ==> !Awake(s.threads[t])
    ensures s.threads != [] && s.threads[0].Outside?
    ensures s.q.pending == 0 || StoppedByError(c, s.q) || s.q.quit
  {
    ReachableInv(c, s);
    if s.q.ring == [] {
      EmptyRingMeansDone(c, s);
    }
  }

  /* ---- Order, over the history ---- */

  // Signature checks and actions start only after every dependency is done, with result 0 unless errors are ignored.
  lemma {:induction false} DependencyOrder(c: Config, s: State, i: nat, d: nat)
    requires WellFormed(c) && Reachable(c, s) && i < |s.log|
    requires s.log[i].Signing? || s.log[i].Acting?
    requires s.log[i].node < |c.data| && d in c.data[s.log[i].node].deps
    ensures exists j :: 0 <= j < i && s.log[j].Done? && s.log[j].node == d && (c.continueOnError || s.log[j].result == 0)
  {
    ReachableInv(c, s);
    assert OrderedAt(c, s.log, i);
    assert DoneBefore(c, s.log, i, d);
  }

  lemma {:induction false} AtMostOnce(c: Config, s: State, i: nat, j: nat)
    requires WellFormed(c) && Reachable(c, s) && i < j < |s.log|
    ensures s.log[i].Acting? && s.log[j].Acting? ==> s.log[i].node != s.log[j].node
    ensures s.log[i].Done? && s.log[j].Done? ==> s.log[i].node != s.log[j].node
  {
    ReachableInv(c, s);
    assert !SameOnce(s.log[i], s.log[j]);
  }

  lemma {:induction false} PassOrder(c: Config, s: State, i: nat, n: nat)
    requires WellFormed(c) && Reachable(c, s) && i < |s.log| && s.log[i].PassBegun?
    requires n < |c.data| && c.data[n].pass < s.log[i].pass
    ensures Done(n, 0) in s.log[..i]
  {
    ReachableInv(c, s);
    assert PassAt(c, s.log, i);
  }

  /* A node that is taken up, signed or acted on finds the earlier passes done. */

  predicate IsWork(e: Event)
  {
    e.Popped? || e.Signing? || e.Acting?
  }

  ghost predicate WorkAt(c: Config, log: seq<Event>, i: nat)
    requires i < |log|
  {
    IsWork(log[i]) && log[i].node < |c.data| ==>
      forall n :: 0 <= n < |c.data| && c.data[n].pass < c.data[log[i].node].pass ==> Done(n, 0) in log[..i]
  }

  ghost predicate WorkOrdered(c: Config, log: seq<Event>)
  {
    forall i: nat :: i < |log| ==> WorkAt(c, log, i)
  }

  lemma {:induction false} BusyInPass(c: Config, q: Queue, held: set<nat>, n: nat)
    requires QInv(c, q, held) && n < |c.data| && (n in q.ring || n in held)
    ensures c.data[n].pass == q.pass
  {
    assert NodeOk(c, q, held, n);
  }

  lemma {:induction false} EarlierDone(c: Config, s: State, n: nat)
    requires WellFormed(c) && Inv(c, s) && LogInv(c, s) && n < |c.data| && c.data[n].pass < s.q.pass
    ensures Done(n, 0) in s.log
  {
    assert NodeOk(c, s.q, Held(s.threads), n) && NodeLogged(c, s, n);
  }

  // Further events of nodes of the current pass.
  lemma {:induction false} WorkGrows(c: Config, s: State, more: seq<Event>)
    requires WellFormed(c) && Inv(c, s) && LogInv(c, s) && WorkOrdered(c, s.log)
    requires forall i :: 0 <= i < |more| && IsWork(more[i]) && more[i].node < |c.data| ==>
               c.data[more[i].node].pass == s.q.pass
    ensures WorkOrdered(c, s.log + more)
  {
    var log := s.log + more;
    forall i: nat | i < |log| ensures WorkAt(c, log, i) {
      if i < |s.log| {
        assert WorkAt(c, s.log, i) && log[..i] == s.log[..i] && log[i] == s.log[i];
      } else if IsWork(log[i]) && log[i].node < |c.data| {
        forall n | 0 <= n < |c.data| && c.data[n].pass < c.data[log[i].node].pass ensures Done(n, 0) in log[..i] {
          EarlierDone(c, s, n);
          assert s.log == log[..i][..|s.log|];
        }
      }
    }
  }

  lemma {:induction false} SectionNodeInPass(c: Config, s: State, step: Step)
    requires WellFormed(c) && Inv(c, s) && Enabled(c, s, step) && IsSection(c, s, step)
    ensures SectionNode(c, s, step) < |c.data| && c.data[SectionNode(c, s, step)].pass == s.q.pass
  {
    HeldNodes(s.threads);
    BusyInPass(c, s.q, Held(s.threads), SectionNode(c, s, step));
  }

  lemma {:induction false} SectionWork(c: Config, s: State, s': State, n: nat, k: Kind, more: seq<Event>)
    requires WellFormed(c) && Inv(c, s) && LogInv(c, s) && WorkOrdered(c, s.log)
    requires Delta(c, s, s', n, k, more) && c.data[n].pass == s.q.pass
    ensures WorkOrdered(c, s'.log)
  {
    assert forall i :: 0 <= i < |more| && IsWork(more[i]) ==> more[i].node == n;
    WorkGrows(c, s, more);
  }

  lemma {:induction false} StepKeepsWork(c: Config, s: State, step: Step)
    requires WellFormed(c) && Inv(c, s) && LogInv(c, s) && WorkOrdered(c, s.log) && Enabled(c, s, step)
    ensures WorkOrdered(c, Apply(c, s, step).log)
  {
    if IsSection(c, s, step) {
      var k, more := SectionDelta(c, s, step);
      SectionNodeInPass(c, s, step);
      SectionWork(c, s, Apply(c, s, step), SectionNode(c, s, step), k, more);
    } else if step.StartPass? {
      WorkGrows(c, s, [PassBegun(s.q.pass + 1)]);
    } else {
      QuietLog(c, s, step);
    }
  }

  lemma {:induction false} QuietLog(c: Config, s: State, step: Step)
    requires WellFormed(c) && Shape(c, s.q) && Enabled(c, s, step) && !IsSection(c, s, step) && !step.StartPass?
    ensures Apply(c, s, step).log == s.log
  {
  }

  lemma {:induction false} RunWork(c: Config, run: seq<State>, i: nat)
    requires WellFormed(c) && IsRun(c, run) && i < |run|
    ensures WorkOrdered(c, run[i].log)
  {
    if i > 0 {
      RunWork(c, run, i - 1);
      RunHistory(c, run, i - 1);
      assert Next(c, run[i - 1], run[i - 1 + 1]);
      var step :| Enabled(c, run[i - 1], step) && run[i] == Apply(c, run[i - 1], step);
      StepKeepsWork(c, run[i - 1], step);
    }
  }

  // No node of a later pass is taken up, signed or acted on before every node of the earlier passes is done with
  // result 0.
  lemma {:induction false} LaterPassWaits(c: Config, s: State, i: nat, n: nat)
    requires WellFormed(c) && Reachable(c, s) && i < |s.log| && IsWork(s.log[i])
    requires s.log[i].node < |c.data| && n < |c.data| && c.data[n].pass < c.data[s.log[i].node].pass
    ensures Done(n, 0) in s.log[..i]
  {
    var run :| IsRun(c, run) && run[|run| - 1] == s;
    RunWork(c, run, |run| - 1);
    assert WorkAt(c, s.log, i);
  }

  lemma {:induction false} StopOnFirstError(c: Config, s: State, n: nat, d: nat)
    requires WellFormed(c) && Reachable(c, s) && !c.continueOnError
    requires n < |c.data| && d in c.data[n].deps
    ensures |s.q.nodes| == |c.data| && d < |c.data|
    ensures !s.q.nodes[n].progress.Initial? && !s.q.nodes[n].progress.Blocked? ==>
              Complete(s.q, d) && s.q.nodes[d].result == 0
  {
    ReachableInv(c, s);
    assert DepsOk(c, n);
  }

  /* ---- The pop bound ---- */

  function Pops(log: seq<Event>): nat
  {
    if log == [] then 0 else Pops(log[..|log| - 1]) + (if log[|log| - 1].Popped? then 1 else 0)
  }

  lemma {:induction false} PopsAppend(log: seq<Event>, more: seq<Event>)
    ensures Pops(log + more) == Pops(log) + Pops(more)
    decreases |more|
  {
    if more == [] {
      assert log + more == log;
    } else {
      assert (log + more)[..|log + more| - 1] == log + more[..|more| - 1];
      PopsAppend(log, more[..|more| - 1]);
    }
  }

  function ExpensiveCount(c: Config): int
  {
    Sum(seq(|c.data|, i requires 0 <= i < |c.data| => if c.data[i].expensive then 1 else 0))
  }

  lemma {:induction false} SumShifted(s: seq<int>, s': seq<int>, v: int)
    requires |s| == |s'| && forall i :: 0 <= i < |s| ==> s'[i] == s[i] + v
    ensures Sum(s') == Sum(s) + v * |s|
  {
    if s != [] {
      SumShifted(s[1..], s'[1..], v);
    }
  }

  lemma {:induction false} NoPops(log: seq<Event>)
    requires forall i :: 0 <= i < |log| ==> !log[i].Popped?
    ensures Pops(log) == 0
  {
    if log != [] {
      NoPops(log[..|log| - 1]);
    }
  }

  lemma {:induction false} SectionPops(c: Config, s: State, s': State, n: nat, k: Kind, more: seq<Event>)
    requires Delta(c, s, s', n, k, more)
    ensures Pops(s'.log) <= Pops(s.log) + 1
    ensures more == EventsOf(k, n, s'.q.nodes[n].signature) ==> Pops(s'.log) == Pops(s.log)
  {
    var events := EventsOf(k, n, s'.q.nodes[n].signature);
    NoPops(events);
    PopsAppend(s.log, more);
    PopsAppend([Popped(n)], events);
    NoPops([Popped(n)][..0]);
  }

  lemma {:induction false} StepPays(c: Config, s: State, step: Step)
    requires WellFormed(c) && Inv(c, s) && Enabled(c, s, step)
    ensures |Apply(c, s, step).q.nodes| == |c.data|
    ensures Pops(Apply(c, s, step).log) + Potential(c, Apply(c, s, step).q) <= Pops(s.log) + Potential(c, s.q)
  {
    var s' := Apply(c, s, step);
    if IsSection(c, s, step) {
      var n := SectionNode(c, s, step);
      var k, more := SectionDelta(c, s, step);
      SectionPays(c, s, step);
      SectionPops(c, s, s', n, k, more);
    } else if step.StartPass? {
      var begun := [PassBegun(s.q.pass + 1)];
      PopsAppend(s.log, begun);
      NoPops(begun);
      PassWeights(c, s);
    } else {
      assert Weights(c, s'.q) == Weights(c, s.q);
    }
  }

  lemma {:induction false} PassWeights(c: Config, s: State)
    requires WellFormed(c) && Inv(c, s) && Enabled(c, s, StartPass)
    ensures Weights(c, Apply(c, s, StartPass).q) == Weights(c, s.q)
  {
    var s' := Apply(c, s, StartPass);
    forall i | 0 <= i < |c.data| ensures Weight(c.data[i], s'.q.nodes[i]) == Weight(c.data[i], s.q.nodes[i]) {
      assert NodeOk(c, s.q, Held(s.threads), i);
      var p := s.q.pass + 1;
      assert PassStart(c.passCounts, p) <= i < PassStart(c.passCounts, p) + c.passCounts[p] <==> c.data[i].pass == p;
    }
  }

  // A pop costs one unit of potential; the sections after it cost nothing.
  lemma {:induction false} SectionPays(c: Config, s: State, step: Step)
    requires WellFormed(c) && Inv(c, s) && Enabled(c, s, step) && IsSection(c, s, step)
    ensures |Apply(c, s, step).q.nodes| == |c.data|
    ensures Potential(c, Apply(c, s, step).q) <= Potential(c, s.q) - (if step.Loop? then 1 else 0)
  {
    var held := Held(s.threads);
    var n := SectionNode(c, s, step);
    if step.Loop? {
      PopPotential(c, s.q, held);
    } else {
      HeldNodes(s.threads);
      HeldMeansPending(c, s.q, held, n);
      if step.SignDone? {
        SigningPotential(c, s.q, held, n, step.signature, step.outputsMissing);
      } else {
        FinishPotential(c, s.q, held, n, if step.ok then Succeeded else Failed);
      }
    }
  }

  lemma {:induction false} RunPays(c: Config, run: seq<State>, i: nat)
    requires WellFormed(c) && IsRun(c, run) && i < |run|
    ensures Inv(c, run[i])
    ensures Pops(run[i].log) + Potential(c, run[i].q) <= 2 * |c.data| + ExpensiveCount(c)
  {
    RunInvariant(c, run, i);
    if i == 0 {
      var e := seq(|c.data|, i requires 0 <= i < |c.data| => if c.data[i].expensive then 1 else 0);
      SumShifted(e, Weights(c, run[0].q), 2);
    } else {
      RunPays(c, run, i - 1);
      assert Next(c, run[i - 1], run[i - 1 + 1]);
      var step :| Enabled(c, run[i - 1], step) && run[i] == Apply(c, run[i - 1], step);
      StepPays(c, run[i - 1], step);
    }
  }

  lemma {:induction false} PotentialNonNegative(c: Config, q: Queue)
    requires |q.nodes| == |c.data|
    ensures Potential(c, q) >= 0
  {
    var z := seq(|c.data|, _ => 0);
    SumConstant(z, 0);
    SumMonotone(z, Weights(c, q));
  }

  // Under every schedule a build over N nodes, E of them expensive, pops at most 2N + E times.
  lemma {:induction false} PopBound(c: Config, s: State)
    requires WellFormed(c) && Reachable(c, s)
    ensures Pops(s.log) <= 2 * |c.data| + ExpensiveCount(c)
  {
    var run :| IsRun(c, run) && run[|run| - 1] == s;
    RunPays(c, run, |run| - 1);
    PotentialNonNegative(c, s.q);
  }

  /* ---- The pop bound of one pass ---- */

  // Pops since the current pass began.
  function PopsInPass(log: seq<Event>): nat
  {
    if log == [] || log[|log| - 1].PassBegun? then 0
    else PopsInPass(log[..|log| - 1]) + if log[|log| - 1].Popped? then 1 else 0
  }

  lemma {:induction false} PopsInPassAppend(log: seq<Event>, more: seq<Event>)
    requires forall i :: 0 <= i < |more| ==> !more[i].PassBegun?
    ensures PopsInPass(log + more) == PopsInPass(log) + Pops(more)
    decreases |more|
  {
    if more == [] {
      assert log + more == log;
    } else {
      var n := |more| - 1;
      assert (log + more)[..|log| + n] == log + more[..n];
      PopsInPassAppend(log, more[..n]);
    }
  }

  // What a node can cost: two pops, and one more if it is expensive.
  function Cost(d: NodeData): int
  {
    if d.expensive then 3 else 2
  }

  function CostsFrom(c: Config, p: int): seq<int>
  {
    seq(|c.data|, i requires 0 <= i < |c.data| => if c.data[i].pass >= p then Cost(c.data[i]) else 0)
  }

  lemma {:induction false} WeightsBetween(c: Config, q: Queue, held: set<nat>)
    requires QInv(c, q, held)
    ensures Sum(CostsFrom(c, q.pass + 1)) <= Potential(c, q) <= Sum(CostsFrom(c, q.pass))
  {
    forall i | 0 <= i < |c.data|
      ensures CostsFrom(c, q.pass + 1)[i] <= Weights(c, q)[i] <= CostsFrom(c, q.pass)[i]
    {
      assert NodeOk(c, q, held, i);
    }
    SumMonotone(CostsFrom(c, q.pass + 1), Weights(c, q));
    SumMonotone(Weights(c, q), CostsFrom(c, q.pass));
  }

  // Steps other than the start of a pass append no PassBegun, and pay for their pops.
  lemma {:induction false} StepPaysInPass(c: Config, s: State, step: Step)
    requires WellFormed(c) && Inv(c, s) && Enabled(c, s, step) && !step.StartPass?
    ensures var s' := Apply(c, s, step);
            && |s'.q.nodes| == |c.data| && s'.q.pass == s.q.pass
            && PopsInPass(s'.log) + Potential(c, s'.q) <= PopsInPass(s.log) + Potential(c, s.q)
  {
    StepPays(c, s, step);
    if IsSection(c, s, step) {
      var k, more := SectionDelta(c, s, step);
      SectionPopsInPass(c, s, Apply(c, s, step), SectionNode(c, s, step), k, more);
    }
  }

  lemma {:induction false} SectionPopsInPass(c: Config, s: State, s': State, n: nat, k: Kind, more: seq<Event>)
    requires Delta(c, s, s', n, k, more)
    ensures PopsInPass(s'.log) - PopsInPass(s.log) == Pops(s'.log) - Pops(s.log)
  {
    PopsInPassAppend(s.log, more);
    PopsAppend(s.log, more);
  }

  lemma {:induction false} RunPaysInPass(c: Config, run: seq<State>, i: nat)
    requires WellFormed(c) && IsRun(c, run) && i < |run|
    ensures Inv(c, run[i])
    ensures PopsInPass(run[i].log) + Potential(c, run[i].q) <= Sum(CostsFrom(c, run[i].q.pass))
  {
    RunInvariant(c, run, i);
    WeightsBetween(c, run[i].q, Held(run[i].threads));
    if i > 0 {
      RunPaysInPass(c, run, i - 1);
      assert Next(c, run[i - 1], run[i - 1 + 1]);
      var step :| Enabled(c, run[i - 1], step) && run[i] == Apply(c, run[i - 1], step);
      if !step.StartPass? {
        StepPaysInPass(c, run[i - 1], step);
      }
    }
  }

  // The number of expensive nodes of pass p.
  function ExpensiveInPass(c: Config, p: int): int
  {
    Sum(seq(|c.data|, i requires 0 <= i < |c.data| => if c.data[i].pass == p && c.data[i].expensive then 1 else 0))
  }

  lemma {:induction false} SumCombine(a: seq<int>, b: seq<int>, n: seq<int>, e: seq<int>)
    requires |a| == |b| == |n| == |e| && forall i :: 0 <= i < |a| ==> a[i] == b[i] + 2 * n[i] + e[i]
    ensures Sum(a) == Sum(b) + 2 * Sum(n) + Sum(e)
  {
    if a != [] {
      SumCombine(a[1..], b[1..], n[1..], e[1..]);
    }
  }

  lemma {:induction false} PassCost(c: Config, p: nat)
    requires WellFormed(c) && p < |c.passCounts|
    ensures Sum(CostsFrom(c, p)) == Sum(CostsFrom(c, p + 1)) + 2 * c.passCounts[p] + ExpensiveInPass(c, p)
  {
    var n := seq(|c.data|, i requires 0 <= i < |c.data| => if c.data[i].pass == p then 1 else 0);
    var e := seq(|c.data|, i requires 0 <= i < |c.data| => if c.data[i].pass == p && c.data[i].expensive then 1 else 0);
    SumCombine(CostsFrom(c, p), CostsFrom(c, p + 1), n, e);
    SliceSum(n, PassStart(c.passCounts, p), c.passCounts[p]);
  }

  lemma {:induction false} PassBound(c: Config, q: Queue, held: set<nat>, pops: nat)
    requires WellFormed(c) && QInv(c, q, held) && 0 <= q.pass < |c.passCounts|
    requires pops + Potential(c, q) <= Sum(CostsFrom(c, q.pass))
    ensures pops <= 2 * c.passCounts[q.pass] + ExpensiveInPass(c, q.pass)
  {
    WeightsBetween(c, q, held);
    PassCost(c, q.pass);
  }

  // Under every schedule a pass over N nodes, E of them expensive, pops at most 2N + E times.
  lemma {:induction false} PassPopBound(c: Config, s: State)
    requires WellFormed(c) && Reachable(c, s) && s.q.pass >= 0
    ensures s.q.pass < |c.passCounts|
    ensures PopsInPass(s.log) <= 2 * c.passCounts[s.q.pass] + ExpensiveInPass(c, s.q.pass)
  {
    var run :| IsRun(c, run) && run[|run| - 1] == s;
    RunPaysInPass(c, run, |run| - 1);
    PassBound(c, s.q, Held(s.threads), PopsInPass(s.log));
  }
}
