/**
 From every reachable state of a healthy build some continuation completes every node: no reachable state is doomed.
 The same continuation shows that the expensive counter is exact only when expensive nodes have actions.
 */
module BuildCompletion {
  import opened Sums
  import opened BuildQueueModel
  import opened BuildQueueSections
  import opened BuildSystem
  import opened BuildHistory
  import opened BuildTheorems

  lemma {:induction false} ReachableStep(c: Config, s: State, step: Step)
    requires WellFormed(c) && Reachable(c, s) && Shape(c, s.q) && Enabled(c, s, step)
    ensures Reachable(c, Apply(c, s, step))
  {
    var run :| IsRun(c, run) && run[|run| - 1] == s;
    var run' := run + [Apply(c, s, step)];
    forall i | 0 <= i < |run'| - 1 ensures Next(c, run'[i], run'[i + 1]) {
      if i < |run| - 1 {
        assert Next(c, run[i], run[i + 1]);
      }
    }
    assert IsRun(c, run') && run'[|run'| - 1] == Apply(c, s, step);
  }

  /* ---- A measure that well-chosen steps decrease ---- */

  function Phase(th: Thread): nat
  {
    match th
    case Signs(_) => 3
    case Acts(_) => 2
    case Asleep => 2
    case AtLoop => 1
    case Outside => 0
  }

  function Phases(threads: seq<Thread>): int
  {
    Sum(seq(|threads|, i requires 0 <= i < |threads| => Phase(threads[i])))
  }

  lemma {:induction false} PhasesNonNegative(threads: seq<Thread>)
    ensures Phases(threads) >= 0
  {
    var z := seq(|threads|, _ => 0);
    SumConstant(z, 0);
    SumMonotone(z, seq(|threads|, i requires 0 <= i < |threads| => Phase(threads[i])));
  }

  lemma {:induction false} PhasesAfter(threads: seq<Thread>, t: nat, th: Thread, wake: bool)
    requires t < |threads|
    ensures Phases(if wake then WakeAll(threads[t := th]) else threads[t := th])
            <= Phases(threads) - Phase(threads[t]) + Phase(th)
  {
    var f := seq(|threads|, i requires 0 <= i < |threads| => Phase(threads[i]));
    var threads1 := threads[t := th];
    var f1 := seq(|threads1|, i requires 0 <= i < |threads1| => Phase(threads1[i]));
    assert f1 == f[t := Phase(th)];
    SumUpdate(f, t, Phase(th));
    var threads2 := WakeAll(threads1);
    SumMonotone(seq(|threads2|, i requires 0 <= i < |threads2| => Phase(threads2[i])), f1);
  }

  // Healthy: not stopped, and nothing has failed.
  ghost predicate Healthy(c: Config, s: State)
  {
    Building(c, s) && s.q.failed == 0
  }

  ghost predicate NoUpToDate(log: seq<Event>)
  {
    forall e :: e in log && e.Decided? ==> e.progress.RunAction?
  }

  // The steps chosen below: every node is rebuilt, every action succeeds.
  predicate Succeeds(step: Step)
  {
    match step
    case SignDone(_, _, missing) => missing
    case ActDone(_, ok, signalled) => ok && !signalled
    case _ => false
  }

  lemma {:induction false} HolderOutcome(c: Config, s: State, step: Step)
    requires WellFormed(c) && Inv(c, s) && Enabled(c, s, step) && Succeeds(step)
    ensures var o, n := SectionOutcome(c, s, step), SectionNode(c, s, step);
            && o.q.failed == s.q.failed && o.q.quit == s.q.quit && o.q.pass == s.q.pass
            && Phase(NextThread(o, n)) < Phase(s.threads[step.t])
            && NoUpToDate(o.events)
  {
    var n := SectionNode(c, s, step);
    var o := SectionOutcome(c, s, step);
    var k := SectionOf(c, s, step);
    assert Answers(c, s.q, o, n, k);
    assert step.ActDone? ==> o.events[0] == Finished(n, s.q.nodes[n].signature, true);
    assert step.SignDone? ==> o.events[0] == Decided(n, RunAction);
  }

  lemma {:induction false} HolderStep(c: Config, s: State, step: Step)
    requires WellFormed(c) && Inv(c, s) && Enabled(c, s, step) && Succeeds(step) && Healthy(c, s)
    ensures var s' := Apply(c, s, step);
            && Healthy(c, s') && s'.q.pass == s.q.pass && |s'.q.nodes| == |c.data|
            && Potential(c, s'.q) <= Potential(c, s.q)
            && Phases(s'.threads) < Phases(s.threads)
            && s.log <= s'.log && NoUpToDate(s'.log[|s.log|..])
  {
    var s', n := Apply(c, s, step), SectionNode(c, s, step);
    var o := SectionOutcome(c, s, step);
    HolderOutcome(c, s, step);
    SectionPays(c, s, step);
    PhasesAfter(s.threads, step.t, NextThread(o, n), o.broadcast);
    assert s'.log[|s.log|..] == o.events;
  }

  lemma {:induction false} PopStep(c: Config, s: State)
    requires WellFormed(c) && Inv(c, s) && s.q.ring != [] && Enabled(c, s, Loop(0)) && Healthy(c, s) && s.q.pending > 0
    ensures var s' := Apply(c, s, Loop(0));
            && Healthy(c, s') && s'.q.pass == s.q.pass && |s'.q.nodes| == |c.data|
            && Potential(c, s'.q) < Potential(c, s.q)
            && s.log <= s'.log && NoUpToDate(s'.log[|s.log|..])
  {
    var s', n := Apply(c, s, Loop(0)), s.q.ring[0];
    var o := SectionOutcome(c, s, Loop(0));
    var k := SectionOf(c, s, Loop(0));
    SectionPays(c, s, Loop(0));
    assert s'.log[|s.log|..] == [Popped(n)] + o.events;
  }

  ghost predicate AllDone(c: Config, s: State)
  {
    |s.q.nodes| == |c.data| && forall n :: 0 <= n < |c.data| ==> Complete(s.q, n) && s.q.nodes[n].result == 0
  }

  predicate Over(c: Config, s: State)
  {
    && |s.threads| > 0 && s.threads[0].Outside? && s.q.pass == |c.passCounts| - 1
    && forall t :: 0 <= t < |s.threads| ==> !Holds(s.threads[t])
  }

  lemma {:induction false} OverMeansDone(c: Config, s: State)
    requires WellFormed(c) && Reachable(c, s) && Healthy(c, s) && Over(c, s)
    ensures AllDone(c, s)
  {
    ReachableInv(c, s);
    Quiescent(c, s.q, Held(s.threads));
  }

  lemma {:induction false} MeasureBounds(c: Config, s: State)
    requires WellFormed(c) && Reachable(c, s)
    ensures Shape(c, s.q) && s.q.pass < |c.passCounts|
    ensures Potential(c, s.q) >= 0 && Phases(s.threads) >= 0
  {
    ReachableInv(c, s);
    PotentialNonNegative(c, s.q);
    PhasesNonNegative(s.threads);
  }

  // A step that keeps the build healthy and brings it closer to its end.
  ghost predicate Good(c: Config, s: State, s': State)
    requires |s.q.nodes| == |c.data|
  {
    && Healthy(c, s') && |s'.q.nodes| == |c.data| && s'.q.pass < |c.passCounts|
    && s.log <= s'.log && NoUpToDate(s'.log[|s.log|..])
    && (s'.q.pass > s.q.pass
        || (s'.q.pass == s.q.pass && Potential(c, s'.q) < Potential(c, s.q))
        || (s'.q.pass == s.q.pass && Potential(c, s'.q) <= Potential(c, s.q)
            && Phases(s'.threads) < Phases(s.threads)))
  }

  // With no node in anybody's hands, the main thread moves.
  lemma {:induction false} MainStep(c: Config, s: State) returns (step: Step)
    requires WellFormed(c) && Acyclic(c) && Inv(c, s) && Healthy(c, s) && !Over(c, s)
    requires forall t :: 0 <= t < |s.threads| ==> !Holds(s.threads[t])
    ensures Enabled(c, s, step) && Good(c, s, Apply(c, s, step))
  {
    if s.threads[0].Asleep? {
      step := Wake(0);
      PhasesAfter(s.threads, 0, AtLoop, false);
    } else if s.threads[0].AtLoop? {
      step := Loop(0);
      if s.q.pending > 0 {
        if s.q.ring == [] {
          EmptyRingMeansDone(c, s);
        }
        PopStep(c, s);
      } else {
        PhasesAfter(s.threads, 0, Outside, false);
      }
    } else {
      step := StartPass;
    }
  }

  // Which step to take next, unless the build is complete.
  lemma {:induction false} Choose(c: Config, s: State) returns (step: Step)
    requires WellFormed(c) && Acyclic(c) && Reachable(c, s) && Shape(c, s.q) && Healthy(c, s) && !Over(c, s)
    ensures Enabled(c, s, step) && Good(c, s, Apply(c, s, step))
  {
    ReachableInv(c, s);
    if t :| 0 <= t < |s.threads| && Holds(s.threads[t]) {
      step := if s.threads[t].Signs? then SignDone(t, 0, true) else ActDone(t, true, false);
      HolderStep(c, s, step);
    } else {
      step := MainStep(c, s);
    }
  }

  // From every reachable healthy state the build can still complete.
  lemma {:induction false} CanFinish(c: Config, s: State) returns (s': State)
    requires WellFormed(c) && Acyclic(c) && Reachable(c, s) && Shape(c, s.q) && Healthy(c, s)
    ensures Reachable(c, s') && AllDone(c, s')
    ensures s.log <= s'.log && NoUpToDate(s'.log[|s.log|..])
    decreases |c.passCounts| - s.q.pass, Potential(c, s.q), Phases(s.threads)
  {
    MeasureBounds(c, s);
    if Over(c, s) {
      s' := s;
      OverMeansDone(c, s);
    } else {
      var step := Choose(c, s);
      var s1 := Apply(c, s, step);
      ReachableStep(c, s, step);
      MeasureBounds(c, s1);
      s' := CanFinish(c, s1);
      LogsCompose(s.log, s1.log, s'.log);
    }
  }

  lemma {:induction false} CanFinishFromStart(c: Config) returns (s: State)
    requires WellFormed(c) && Acyclic(c)
    ensures Reachable(c, s) && AllDone(c, s) && NoUpToDate(s.log)
  {
    var s0 := Init(c);
    assert IsRun(c, [s0]) && [s0][|[s0]| - 1] == s0;
    InitKeeps(c);
    s := CanFinish(c, s0);
    assert s.log[|s0.log|..] == s.log;
  }

  lemma {:induction false} LogsCompose(a: seq<Event>, b: seq<Event>, c: seq<Event>)
    requires a <= b <= c && NoUpToDate(b[|a|..]) && NoUpToDate(c[|b|..])
    ensures a <= c && NoUpToDate(c[|a|..])
  {
    assert c[|a|..] == b[|a|..] + c[|b|..];
  }

  /* ---- The expensive counter ---- */

  ghost predicate EmptyExpensive(c: Config, n: nat)
  {
    n < |c.data| && c.data[n].expensive && c.data[n].emptyAction
  }

  // Once an expensive node without an action has "finished", the counter is short.
  ghost predicate Short(c: Config, s: State)
  {
    forall e :: e in s.log && e.Finished? && EmptyExpensive(c, e.node) ==>
      s.q.expensiveRunning < ActingExpensive(c, s.threads)
  }

  lemma {:induction false} SectionKeepsShort(c: Config, s: State, step: Step)
    requires WellFormed(c) && Inv(c, s) && Enabled(c, s, step) && Short(c, s) && IsSection(c, s, step)
    ensures Short(c, Apply(c, s, step))
  {
    var s', t, n, o := Apply(c, s, step), step.t, SectionNode(c, s, step), SectionOutcome(c, s, step);
    var k := SectionOf(c, s, step);
    SectionGap(c, s, t, n, SectionStart(c, s, step), o, k);
    ActingAfter(c, s.threads, t, NextThread(o, n));
    ActingWakeAll(c, s.threads[t := NextThread(o, n)]);
    var gap := ActingExpensive(c, s.threads) - s.q.expensiveRunning;
    assert ActingExpensive(c, s'.threads) - s'.q.expensiveRunning ==
           gap + (if k.SignEmpty? && c.data[n].expensive then 1 else 0);
    forall e | e in s'.log && e.Finished? && EmptyExpensive(c, e.node)
      ensures s'.q.expensiveRunning < ActingExpensive(c, s'.threads)
    {
      assert e in s.log || e in o.events;
    }
  }

  lemma {:induction false} StepKeepsShort(c: Config, s: State, step: Step)
    requires WellFormed(c) && Inv(c, s) && Enabled(c, s, step) && Short(c, s)
    ensures Short(c, Apply(c, s, step))
  {
    var s' := Apply(c, s, step);
    if IsSection(c, s, step) {
      SectionKeepsShort(c, s, step);
    } else if step.StartPass? {
      StartPassActing(c, s);
    } else if step.Quit? {
      ActingWakeAll(c, s.threads);
    } else if step.Loop? || step.Wake? {
      ActingAfter(c, s.threads, step.t, s'.threads[step.t]);
    }
  }

  lemma {:induction false} StartPassActing(c: Config, s: State)
    requires WellFormed(c) && Inv(c, s) && Enabled(c, s, StartPass)
    ensures ActingExpensive(c, Apply(c, s, StartPass).threads) == ActingExpensive(c, s.threads)
  {
    ActingAfter(c, s.threads, 0, AtLoop);
    ActingWakeAll(c, s.threads[0 := AtLoop]);
  }

  // The gap between the counter and the truth never shrinks, and grows when an empty expensive node passes.
  lemma {:induction false} SectionGap(c: Config, s: State, t: nat, n: nat, q0: Queue, o: Outcome, k: Kind)
    requires SectionStep(c, s, t, n, q0, o, k)
    ensures var before := (if RunsExpensive(c, s.threads[t]) then 1 else 0);
            var after := (if RunsExpensive(c, NextThread(o, n)) then 1 else 0);
            o.q.expensiveRunning - s.q.expensiveRunning ==
              after - before - (if k.SignEmpty? && c.data[n].expensive then 1 else 0)
    ensures forall e :: e in o.events && e.Finished? ==>
              e.node == n && (k.SignEmpty? || (k.ActionEnd? && !c.data[n].emptyAction))
  {
  }

  lemma {:induction false} RunShort(c: Config, run: seq<State>, i: nat)
    requires WellFormed(c) && IsRun(c, run) && i < |run|
    ensures Short(c, run[i])
  {
    if i > 0 {
      RunShort(c, run, i - 1);
      RunInvariant(c, run, i - 1);
      assert Next(c, run[i - 1], run[i - 1 + 1]);
      var step :| Enabled(c, run[i - 1], step) && run[i] == Apply(c, run[i - 1], step);
      StepKeepsShort(c, run[i - 1], step);
    }
  }

  // m_ExpensiveRunning equals the number of running expensive actions in every reachable state exactly when every
  // expensive node has an action.
  lemma {:induction false} ThrottleExact(c: Config)
    requires WellFormed(c) && Acyclic(c)
    ensures NoEmptyExpensive(c) <==>
            forall s :: Reachable(c, s) ==> s.q.expensiveRunning == ActingExpensive(c, s.threads)
  {
    if NoEmptyExpensive(c) {
      forall s | Reachable(c, s) ensures s.q.expensiveRunning == ActingExpensive(c, s.threads) {
        ReachableInv(c, s);
      }
    } else {
      var n :| 0 <= n < |c.data| && c.data[n].expensive && c.data[n].emptyAction;
      var s := CounterFallsShort(c, n);
      assert Reachable(c, s) && s.q.expensiveRunning != ActingExpensive(c, s.threads);
    }
  }

  lemma {:induction false} CounterFallsShort(c: Config, n: nat) returns (s: State)
    requires WellFormed(c) && Acyclic(c) && EmptyExpensive(c, n)
    ensures Reachable(c, s) && s.q.expensiveRunning < ActingExpensive(c, s.threads)
  {
    s := CanFinishFromStart(c);
    ReachableInv(c, s);
    assert NodeLogged(c, s, n);
    var run :| IsRun(c, run) && run[|run| - 1] == s;
    RunShort(c, run, |run| - 1);
  }

  // With actions everywhere, the number of running expensive actions never exceeds the maximum.
  lemma {:induction false} ThrottleBound(c: Config, s: State)
    requires WellFormed(c) && NoEmptyExpensive(c) && Reachable(c, s)
    ensures 0 <= s.q.expensiveRunning == ActingExpensive(c, s.threads) <= c.maxExpensive
    ensures s.q.parked != [] ==> ActingExpensive(c, s.threads) > 0 || SomeUnparked(s.q)
  {
    ReachableInv(c, s);
    ActingNonNegative(c, s.threads);
  }
}
