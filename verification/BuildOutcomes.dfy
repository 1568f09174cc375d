/**
 How builds end and how their nodes do: an interrupted or failed build takes up nothing new, a node with a command
 completes by running it or by being up to date, and a node whose inputs and outputs are unchanged never runs.
 */
module BuildOutcomes {
  import opened Options
  import opened BuildQueueModel
  import opened BuildQueueSections
  import opened BuildSystem
  import opened BuildHistory
  import opened BuildTheorems

  /* ---- What a step can do ---- */

  // Steps other than sections leave what is known about nodes alone.
  lemma {:induction false} QuietFrame(c: Config, s: State, step: Step)
    requires WellFormed(c) && Inv(c, s) && Enabled(c, s, step) && !IsSection(c, s, step)
    ensures var s' := Apply(c, s, step);
            && |s'.q.nodes| == |s.q.nodes|
            && (forall n :: 0 <= n < |s.q.nodes| ==> s'.q.nodes[n] == s.q.nodes[n].(queued := s'.q.nodes[n].queued))
            && s'.log == s.log + (if step.StartPass? then [PassBegun(s.q.pass + 1)] else [])
  {
  }

  lemma {:induction false} QuietActs(c: Config, s: State, step: Step, n: nat)
    requires WellFormed(c) && Inv(c, s) && Enabled(c, s, step) && !IsSection(c, s, step)
    ensures ActsNow(Apply(c, s, step), n) ==> ActsNow(s, n)
  {
    var s' := Apply(c, s, step);
    if ActsNow(s', n) {
      var u :| 0 <= u < |s'.threads| && s'.threads[u] == Acts(n);
      assert s.threads[u] == Acts(n);
    }
  }

  // A thread that acts has been acting before, or this section sent it.
  lemma {:induction false} SectionActs(c: Config, s: State, step: Step, n: nat)
    requires WellFormed(c) && Inv(c, s) && Enabled(c, s, step) && IsSection(c, s, step)
    ensures ActsNow(Apply(c, s, step), n) ==> ActsNow(s, n) || Acting(n) in Apply(c, s, step).log
  {
    var s', o, m := Apply(c, s, step), SectionOutcome(c, s, step), SectionNode(c, s, step);
    if ActsNow(s', n) {
      var u :| 0 <= u < |s'.threads| && s'.threads[u] == Acts(n);
      if u == step.t {
        assert o.stop.ToAct? && m == n;
        LaunchLogged(c, s, step);
      } else {
        assert s.threads[u] == Acts(n);
      }
    }
  }

  lemma {:induction false} LaunchLogged(c: Config, s: State, step: Step)
    requires WellFormed(c) && Inv(c, s) && Enabled(c, s, step) && IsSection(c, s, step)
    requires SectionOutcome(c, s, step).stop.ToAct?
    ensures Acting(SectionNode(c, s, step)) in Apply(c, s, step).log
  {
    var s', o := Apply(c, s, step), SectionOutcome(c, s, step);
    var k := SectionOf(c, s, step);
    assert o.events[|o.events| - 1] == Acting(SectionNode(c, s, step));
    assert s'.log[|s'.log| - 1] == o.events[|o.events| - 1];
  }

  /* ---- How a build stops ---- */

  // A reason for every thread to leave the loop.
  predicate Halted(c: Config, s: State)
  {
    s.interrupted || s.q.quit || (s.q.failed > 0 && !c.continueOnError)
  }

  // Events of nodes that were in some thread's hands: never a pop, a new signature check or a new pass.
  ghost predicate OnlyInHand(events: seq<Event>, held: set<nat>)
  {
    forall i :: 0 <= i < |events| ==>
      (events[i].Decided? || events[i].Acting? || events[i].Finished? || events[i].Done?) && events[i].node in held
  }

  // What lies between a halted state and a later one.
  ghost predicate WindsDown(c: Config, s: State, s': State)
  {
    && Halted(c, s') && (s.interrupted ==> s'.interrupted)
    && s.log <= s'.log && OnlyInHand(s'.log[|s.log|..], Held(s.threads))
    && Held(s'.threads) <= Held(s.threads)
  }

  lemma {:induction false} SectionWindsDown(c: Config, s: State, step: Step)
    requires WellFormed(c) && Inv(c, s) && Enabled(c, s, step) && Halted(c, s) && IsSection(c, s, step)
    ensures WindsDown(c, s, Apply(c, s, step))
  {
    var s', t, n, o := Apply(c, s, step), step.t, SectionNode(c, s, step), SectionOutcome(c, s, step);
    var k := SectionOf(c, s, step);
    assert !step.Loop?;
    HeldNodes(s.threads);
    assert n in Held(s.threads);
    assert s'.log[|s.log|..] == o.events;
    EventsInHand(k, n, o.q.nodes[n].signature, Held(s.threads));
    SectionHeld(c, s, t, n, s.q, o, k);
    assert s'.q.failed >= s.q.failed;
  }

  lemma {:induction false} EventsInHand(k: Kind, n: nat, signature: nat, held: set<nat>)
    requires n in held && !k.Sign?
    ensures OnlyInHand(EventsOf(k, n, signature), held)
  {
  }

  lemma {:induction false} StepWindsDown(c: Config, s: State, s': State)
    requires WellFormed(c) && Inv(c, s) && Halted(c, s) && Next(c, s, s')
    ensures WindsDown(c, s, s')
  {
    var step :| Enabled(c, s, step) && s' == Apply(c, s, step);
    if IsSection(c, s, step) {
      SectionWindsDown(c, s, step);
    } else {
      QuietWindsDown(c, s, step);
    }
  }

  lemma {:induction false} QuietWindsDown(c: Config, s: State, step: Step)
    requires WellFormed(c) && Inv(c, s) && Enabled(c, s, step) && Halted(c, s) && !IsSection(c, s, step)
    ensures WindsDown(c, s, Apply(c, s, step))
  {
    var s' := Apply(c, s, step);
    assert !step.StartPass?;
    assert s'.log[|s.log|..] == [];
    forall n | n in Held(s'.threads) ensures n in Held(s.threads) {
      var u :| 0 <= u < |s'.threads| && Holds(s'.threads[u]) && s'.threads[u].node == n;
      assert s.threads[u] == s'.threads[u];
    }
  }

  lemma {:induction false} WindsDownCompose(c: Config, a: State, b: State, d: State)
    requires WindsDown(c, a, b) && WindsDown(c, b, d)
    ensures WindsDown(c, a, d)
  {
    assert d.log[|a.log|..] == b.log[|a.log|..] + d.log[|b.log|..];
  }

  // Once a build is interrupted, told to quit or stopped by an error, it stays so: no node is taken up, no pass begins,
  // and only nodes already in hand are still decided, acted on or finished.
  lemma {:induction false} HaltedRun(c: Config, run: seq<State>, i: nat, j: nat)
    requires WellFormed(c) && IsRun(c, run) && i <= j < |run| && Halted(c, run[i])
    ensures WindsDown(c, run[i], run[j])
    decreases j
  {
    if i == j {
      NothingYet(c, run[i]);
    } else {
      HaltedRun(c, run, i, j - 1);
      RunWindsDown(c, run, j - 1);
      WindsDownCompose(c, run[i], run[j - 1], run[j]);
    }
  }

  lemma {:induction false} RunWindsDown(c: Config, run: seq<State>, i: nat)
    requires WellFormed(c) && IsRun(c, run) && i + 1 < |run| && Halted(c, run[i])
    ensures WindsDown(c, run[i], run[i + 1])
  {
    RunInvariant(c, run, i);
    StepWindsDown(c, run[i], run[i + 1]);
  }

  lemma {:induction false} NothingYet(c: Config, s: State)
    requires Halted(c, s)
    ensures WindsDown(c, s, s)
  {
    assert s.log[|s.log|..] == [];
  }

  // A thread at the top of the loop leaves it exactly when the build is halted or, for the main thread, the pass is
  // over; otherwise it takes the oldest node or goes to sleep.
  lemma {:induction false} LoopExact(c: Config, s: State, t: nat)
    requires WellFormed(c) && Reachable(c, s) && Shape(c, s.q) && Enabled(c, s, Loop(t))
    ensures var s' := Apply(c, s, Loop(t));
            && (s'.threads[t].Outside? <==> Halted(c, s) || (t == 0 && s.q.pending == 0))
            && (s'.threads[t].Outside? || s'.threads[t].Asleep? ==> s'.log == s.log)
            && (!s'.threads[t].Outside? ==>
                  if s.q.ring == [] then s'.threads[t].Asleep? else s.log + [Popped(s.q.ring[0])] <= s'.log)
  {
    ReachableInv(c, s);
    PendingNonNegative(c, s.q, Held(s.threads));
  }

  // What halts a build: a signal, a child killed by one, the order to quit, a failed action unless errors are ignored.
  lemma {:induction false} HaltingSteps(c: Config, s: State, step: Step)
    requires WellFormed(c) && Reachable(c, s) && Shape(c, s.q) && Enabled(c, s, step)
    requires step.Interrupt? || step.Quit? || (step.ActDone? && (step.signalled || (!step.ok && !c.continueOnError)))
    ensures Halted(c, Apply(c, s, step))
  {
    ReachableInv(c, s);
    if step.ActDone? {
      var n, o := SectionNode(c, s, step), SectionOutcome(c, s, step);
      ActSection(c, s, step);
      assert o.q.failed == s.q.failed + ResultOf(ActionEnd(step.ok));
    }
  }

  // Worker threads stay in the loop until the build is halted.
  ghost predicate WorkersStay(c: Config, s: State)
  {
    !Halted(c, s) ==> forall t :: 0 < t < |s.threads| ==> !s.threads[t].Outside?
  }

  lemma {:induction false} StepKeepsWorkers(c: Config, s: State, s': State)
    requires WellFormed(c) && Inv(c, s) && Next(c, s, s') && WorkersStay(c, s)
    ensures WorkersStay(c, s')
  {
    if Halted(c, s) {
      StepWindsDown(c, s, s');
    } else {
      var step :| Enabled(c, s, step) && s' == Apply(c, s, step);
      if IsSection(c, s, step) {
        SectionThreads(c, s, step);
      }
    }
  }

  lemma {:induction false} SectionThreads(c: Config, s: State, step: Step)
    requires WellFormed(c) && Inv(c, s) && Enabled(c, s, step) && IsSection(c, s, step)
    ensures var s' := Apply(c, s, step);
            |s'.threads| == |s.threads| &&
            forall u :: 0 <= u < |s.threads| && s'.threads[u].Outside? ==> s.threads[u].Outside?
  {
    var o := SectionOutcome(c, s, step);
    var moved := s.threads[step.t := NextThread(o, SectionNode(c, s, step))];
    assert Apply(c, s, step).threads == if o.broadcast then WakeAll(moved) else moved;
  }

  lemma {:induction false} WorkersStayIn(c: Config, run: seq<State>, i: nat)
    requires WellFormed(c) && IsRun(c, run) && i < |run|
    ensures WorkersStay(c, run[i])
  {
    if i == 0 {
      WorkersStart(c);
    } else {
      WorkersStayIn(c, run, i - 1);
      WorkersStep(c, run, i - 1);
    }
  }

  lemma {:induction false} WorkersStart(c: Config)
    requires WellFormed(c)
    ensures WorkersStay(c, Init(c))
  {
  }

  lemma {:induction false} WorkersStep(c: Config, run: seq<State>, i: nat)
    requires WellFormed(c) && IsRun(c, run) && i + 1 < |run| && WorkersStay(c, run[i])
    ensures WorkersStay(c, run[i + 1])
  {
    RunInvariant(c, run, i);
    StepKeepsWorkers(c, run[i], run[i + 1]);
  }

  /* ---- How a node completes ---- */

  ghost predicate Accounted(c: Config, s: State, n: nat)
    requires |s.q.nodes| == |c.data| && n < |c.data|
  {
    var x := s.q.nodes[n];
    && (ActsNow(s, n) ==> Acting(n) in s.log)
    && (Acting(n) in s.log ==>
          && !c.data[n].emptyAction && Decided(n, UpToDate) !in s.log
          && (x.progress.RunAction? || x.progress.Completed?))
    && (Decided(n, UpToDate) in s.log ==> Complete(s.q, n) && x.result == 0)
    && (Complete(s.q, n) && Decided(n, UpToDate) !in s.log ==>
          && Finished(n, x.signature, x.result == 0) in s.log
          && (Acting(n) in s.log || (c.data[n].emptyAction && x.result == 0)))
  }

  // A section on another node.
  lemma {:induction false} OtherAccounted(c: Config, s: State, s': State, m: nat, k: Kind, more: seq<Event>, n: nat)
    requires Delta(c, s, s', m, k, more) && n < |c.data| && n != m && Accounted(c, s, n)
    requires ActsNow(s', n) ==> ActsNow(s, n) || Acting(n) in s'.log
    ensures Accounted(c, s', n)
  {
    assert Acting(n) !in more && Decided(n, UpToDate) !in more;
    assert forall e :: e in s'.log <==> e in s.log || e in more;
  }

  // A section on the node itself.
  lemma {:induction false} OwnAccounted(c: Config, s: State, s': State, n: nat, k: Kind, more: seq<Event>)
    requires Delta(c, s, s', n, k, more) && Accounted(c, s, n)
    requires ActsNow(s', n) ==> ActsNow(s, n) || Acting(n) in s'.log
    requires k.ActionEnd? ==> ActsNow(s, n)
    requires Stops(k).ToAct? ==> !c.data[n].emptyAction
    requires k.SignEmpty? ==> c.data[n].emptyAction
    ensures Accounted(c, s', n)
  {
    var x := s'.q.nodes[n];
    var events := EventsOf(k, n, x.signature);
    assert forall e :: e in s'.log <==> e in s.log || e in more;
    assert forall i :: 0 <= i < |events| ==> events[i] in more;
    assert Acting(n) in more <==> Stops(k).ToAct?;
    assert Decided(n, UpToDate) in more <==> k.SignUpToDate?;
    if k.SignEmpty? {
      assert events[1] == Finished(n, x.signature, true);
    } else if k.SignUpToDate? {
      assert events[0] == Decided(n, UpToDate);
    } else if k.ActionEnd? {
      assert events[0] == Finished(n, x.signature, k.ok);
    }
  }

  lemma {:induction false} KindFacts(c: Config, s: State, step: Step, k: Kind, more: seq<Event>)
    requires WellFormed(c) && Inv(c, s) && Enabled(c, s, step) && IsSection(c, s, step)
    requires KindFits(c, s.threads[step.t], SectionNode(c, s, step), k)
    requires Stops(k).ToAct? ==> ActsNow(Apply(c, s, step), SectionNode(c, s, step))
    ensures var n := SectionNode(c, s, step);
            (k.ActionEnd? ==> ActsNow(s, n)) && (Stops(k).ToAct? ==> !c.data[n].emptyAction)
  {
    var s', n := Apply(c, s, step), SectionNode(c, s, step);
    if Stops(k).ToAct? {
      StepKeeps(c, s, step);
      var u :| 0 <= u < |s'.threads| && s'.threads[u] == Acts(n);
    }
    if k.ActionEnd? {
      assert s.threads[step.t] == Acts(n);
    }
  }

  lemma {:induction false} StepAccounts(c: Config, s: State, step: Step, n: nat)
    requires WellFormed(c) && Inv(c, s) && Enabled(c, s, step) && n < |c.data| && Accounted(c, s, n)
    ensures |Apply(c, s, step).q.nodes| == |c.data| && Accounted(c, Apply(c, s, step), n)
  {
    var s' := Apply(c, s, step);
    if IsSection(c, s, step) {
      var m := SectionNode(c, s, step);
      var k, more := SectionDelta(c, s, step);
      SectionActs(c, s, step, n);
      if m == n {
        KindFacts(c, s, step, k, more);
        OwnAccounted(c, s, s', n, k, more);
      } else {
        OtherAccounted(c, s, s', m, k, more, n);
      }
    } else {
      QuietFrame(c, s, step);
      QuietActs(c, s, step, n);
    }
  }

  lemma {:induction false} RunAccounts(c: Config, run: seq<State>, i: nat, n: nat)
    requires WellFormed(c) && IsRun(c, run) && i < |run| && n < |c.data|
    ensures |run[i].q.nodes| == |c.data| && Accounted(c, run[i], n)
  {
    if i > 0 {
      RunAccounts(c, run, i - 1, n);
      RunInvariant(c, run, i - 1);
      assert Next(c, run[i - 1], run[i - 1 + 1]);
      var step :| Enabled(c, run[i - 1], step) && run[i] == Apply(c, run[i - 1], step);
      StepAccounts(c, run[i - 1], step, n);
    }
  }

  // A completed node was found up to date, or its command ran to this result, or it has no command.
  lemma {:induction false} CompletedHow(c: Config, s: State, n: nat)
    requires WellFormed(c) && Reachable(c, s) && n < |c.data|
    ensures |s.q.nodes| == |c.data|
    ensures Acting(n) in s.log ==> !c.data[n].emptyAction && Decided(n, UpToDate) !in s.log
    ensures Complete(s.q, n) ==>
              || (Decided(n, UpToDate) in s.log && s.q.nodes[n].result == 0)
              || (&& Finished(n, s.q.nodes[n].signature, s.q.nodes[n].result == 0) in s.log
                  && (if c.data[n].emptyAction then s.q.nodes[n].result == 0 else Acting(n) in s.log))
  {
    var run :| IsRun(c, run) && run[|run| - 1] == s;
    RunAccounts(c, run, |run| - 1, n);
  }

  /* ---- Nodes that need not run ---- */

  // The rule of CheckInputSignature: up to date exactly when the old record is a success under this signature with
  // these outputs, and the files are there.
  lemma {:induction false} UpToDateExact(d: NodeData, signature: nat, outputsMissing: bool)
    ensures Decide(d, signature, outputsMissing) ==
            if d.prev == Some(Record(0, signature, d.outputs)) && !outputsMissing then UpToDate else RunAction
  {
  }

  // ... and what it leads to in a build.
  lemma {:induction false} SignedExact(c: Config, s: State, step: Step)
    requires WellFormed(c) && Reachable(c, s) && Shape(c, s.q) && step.SignDone? && Enabled(c, s, step)
    ensures var s', n := Apply(c, s, step), s.threads[step.t].node;
            if c.data[n].prev == Some(Record(0, step.signature, c.data[n].outputs)) && !step.outputsMissing
            then s'.log == s.log + [Decided(n, UpToDate), Done(n, 0)]
            else s.log + [Decided(n, RunAction)] <= s'.log
  {
    ReachableInv(c, s);
    var n := s.threads[step.t].node;
    var k, more := SectionDelta(c, s, step);
    UpToDateExact(c.data[n], step.signature, step.outputsMissing);
    DecisionFirst(c, s, step, more);
    assert SectionNode(c, s, step) == n;
  }

  lemma {:induction false} DecisionFirst(c: Config, s: State, step: Step, more: seq<Event>)
    requires WellFormed(c) && Inv(c, s) && step.SignDone? && Enabled(c, s, step)
    requires Apply(c, s, step).log == s.log + more
    ensures var n := s.threads[step.t].node;
            |more| > 0 && more[0] == Decided(n, Decide(c.data[n], step.signature, step.outputsMissing))
  {
    var o := SectionOutcome(c, s, step);
    assert s.log + o.events == s.log + more;
    assert o.events == (s.log + o.events)[|s.log|..] == more;
  }

  // The old build left a success under this signature, with this node's outputs.
  ghost predicate Unchanged(d: NodeData, signature: nat)
  {
    d.prev == Some(Record(0, signature, d.outputs))
  }

  // If the step ends node n's signature check, it reports this signature and no output file missing.
  predicate Reports(s: State, step: Step, n: nat, signature: nat)
  {
    step.SignDone? && step.t < |s.threads| && s.threads[step.t] == Signs(n) ==>
      step.signature == signature && !step.outputsMissing
  }

  ghost predicate ReportingNext(c: Config, s: State, s': State, n: nat, signature: nat)
    requires WellFormed(c)
  {
    Shape(c, s.q) && exists step :: Enabled(c, s, step) && Reports(s, step, n, signature) && s' == Apply(c, s, step)
  }

  // A run in which the check of node n finds this signature; everything else is arbitrary.
  ghost predicate IsReportingRun(c: Config, run: seq<State>, n: nat, signature: nat)
    requires WellFormed(c)
  {
    && run != [] && run[0] == Init(c)
    && forall i :: 0 <= i < |run| - 1 ==> ReportingNext(c, run[i], run[i + 1], n, signature)
  }

  lemma {:induction false} ReportingIsRun(c: Config, run: seq<State>, n: nat, signature: nat)
    requires WellFormed(c) && IsReportingRun(c, run, n, signature)
    ensures IsRun(c, run)
  {
    forall i | 0 <= i < |run| - 1 ensures Next(c, run[i], run[i + 1]) {
      assert ReportingNext(c, run[i], run[i + 1], n, signature);
    }
  }

  // Node n has not run, is not about to, and is complete only with its old outcome.
  ghost predicate Spared(c: Config, s: State, n: nat, signature: nat)
    requires n < |c.data|
  {
    && |s.q.nodes| == |c.data|
    && (forall e :: e in s.log && (e.Acting? || e.Finished?) ==> e.node != n)
    && Decided(n, RunAction) !in s.log
    && var x := s.q.nodes[n];
       && (x.progress.Initial? || x.progress.Blocked? || x.progress.Unblocked? || x.progress.Completed?)
       && (x.progress.Completed? ==> x.result == 0 && x.signature == signature)
  }

  lemma {:induction false} SectionSpares(c: Config, s: State, step: Step, n: nat, signature: nat)
    requires WellFormed(c) && Inv(c, s) && Enabled(c, s, step) && IsSection(c, s, step)
    requires n < |c.data| && Unchanged(c.data[n], signature) && Reports(s, step, n, signature)
    requires Spared(c, s, n, signature)
    ensures Spared(c, Apply(c, s, step), n, signature)
  {
    var s', m := Apply(c, s, step), SectionNode(c, s, step);
    var k, more := SectionDelta(c, s, step);
    if m == n && step.SignDone? {
      UpToDateExact(c.data[n], signature, false);
      DecisionFirst(c, s, step, more);
      assert k == SignUpToDate;
    }
    DeltaSpares(c, s, s', m, k, more, n, signature);
  }

  lemma {:induction false} DeltaSpares(
    c: Config, s: State, s': State, m: nat, k: Kind, more: seq<Event>, n: nat, signature: nat)
    requires Delta(c, s, s', m, k, more) && n < |c.data| && Unchanged(c.data[n], signature)
    requires Spared(c, s, n, signature) && (m == n ==> k == Block || k == Sign || k == SignUpToDate)
    ensures Spared(c, s', n, signature)
  {
    assert forall e :: e in s'.log <==> e in s.log || e in more;
    assert forall e :: e in more && (e.Acting? || e.Finished? || e == Decided(n, RunAction)) ==> e.node == m;
  }

  lemma {:induction false} StepSpares(c: Config, s: State, s': State, n: nat, signature: nat)
    requires WellFormed(c) && Inv(c, s) && n < |c.data| && Unchanged(c.data[n], signature)
    requires Spared(c, s, n, signature) && ReportingNext(c, s, s', n, signature)
    ensures Spared(c, s', n, signature)
  {
    var step :| Enabled(c, s, step) && Reports(s, step, n, signature) && s' == Apply(c, s, step);
    if IsSection(c, s, step) {
      SectionSpares(c, s, step, n, signature);
    } else {
      QuietFrame(c, s, step);
    }
  }

  // Under every schedule, and whatever happens to other nodes.
  lemma {:induction false} SparedRun(c: Config, run: seq<State>, n: nat, signature: nat, i: nat)
    requires WellFormed(c) && n < |c.data| && Unchanged(c.data[n], signature)
    requires IsReportingRun(c, run, n, signature) && i < |run|
    ensures Spared(c, run[i], n, signature)
  {
    if i > 0 {
      SparedRun(c, run, n, signature, i - 1);
      ReportingIsRun(c, run, n, signature);
      RunInvariant(c, run, i - 1);
      assert ReportingNext(c, run[i - 1], run[i - 1 + 1], n, signature);
      StepSpares(c, run[i - 1], run[i], n, signature);
    }
  }
}
