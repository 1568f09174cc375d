/**
 Any number of build threads around one build queue, over a whole multi-pass build. A step is one lock-held
 section, a wake-up, or an outside event; what the source leaves to the operating system (file contents, exit
 codes, spurious wake-ups, signals) is part of the step.

 CondSignal wakes at most one sleeper; here it wakes nobody, and the Wake step, always possible for a sleeper,
 covers both that wake-up and a spurious one. CondBroadcast wakes every sleeper.
 */
module BuildSystem {
  import opened Sums
  import opened BuildQueueModel
  import opened BuildQueueInvariant
  import opened BuildQueueSections

  datatype Thread =
    | AtLoop               // about to take the lock at the top of BuildLoop
    | Asleep               // in CondWait
    | Signs(node: nat)     // in CheckInputSignature, lock released
    | Acts(node: nat)      // in RunAction, lock released
    | Outside              // not in BuildLoop

  datatype State = State(q: Queue, threads: seq<Thread>, interrupted: bool, log: seq<Event>)

  datatype Step =
    | Loop(t: nat)
    | SignDone(t: nat, signature: nat, outputsMissing: bool)
    | ActDone(t: nat, ok: bool, signalled: bool)
    | Wake(t: nat)
    | Interrupt
    | StartPass
    | Quit

  // ShouldKeepBuilding
  predicate KeepsBuilding(c: Config, q: Queue, interrupted: bool, t: nat)
  {
    && !interrupted
    && !StoppedByError(c, q)
    && !q.quit
    && (t != 0 || q.pending > 0)
  }

  predicate KeepBuilding(c: Config, s: State, t: nat)
  {
    KeepsBuilding(c, s.q, s.interrupted, t)
  }

  predicate StoppedByError(c: Config, q: Queue)
  {
    q.failed > 0 && !c.continueOnError
  }

  // BuildQueueInit: the worker threads start right away, the main thread is still setting up.
  function Init(c: Config): State
    requires c.threadCount > 0
  {
    State(Queue(seq(|c.data|, _ => NodeState(false, false, Initial, 0, 0)), [], [], 0, 0, 0, -1, false),
          seq(c.threadCount, t => if t == 0 then Outside else AtLoop), false, [])
  }

  predicate Enabled(c: Config, s: State, step: Step)
  {
    match step
    case Loop(t) => t < |s.threads| && s.threads[t].AtLoop?
    case SignDone(t, _, _) => t < |s.threads| && s.threads[t].Signs? && s.threads[t].node < |c.data|
    case ActDone(t, _, _) => t < |s.threads| && s.threads[t].Acts? && s.threads[t].node < |c.data|
    case Wake(t) => t < |s.threads| && s.threads[t].Asleep?
    case Interrupt => true
    // DriverBuild goes on to the next pass only after BuildResult::kOk.
    case StartPass => |s.threads| > 0 && s.threads[0].Outside? && !s.interrupted && s.q.failed == 0 && !s.q.quit
                      && -1 <= s.q.pass && s.q.pass + 1 < |c.passCounts|
    case Quit => |s.threads| > 0 && s.threads[0].Outside?
  }

  function WakeAll(threads: seq<Thread>): seq<Thread>
  {
    seq(|threads|, i requires 0 <= i < |threads| => if threads[i].Asleep? then AtLoop else threads[i])
  }

  // Thread t ends a lock-held section on node n with outcome o.
  function Resume(s: State, t: nat, n: nat, o: Outcome): State
    requires t < |s.threads|
  {
    var threads := s.threads[t := NextThread(o, n)];
    s.(q := o.q, threads := if o.broadcast then WakeAll(threads) else threads, log := s.log + o.events)
  }

  function Apply(c: Config, s: State, step: Step): State
    requires WellFormed(c) && Shape(c, s.q) && Enabled(c, s, step)
  {
    match step
    case Loop(t) =>
      if !KeepBuilding(c, s, t) then s.(threads := s.threads[t := Outside])
      else if s.q.ring == [] then s.(threads := s.threads[t := Asleep])
      else
        var n := s.q.ring[0];
        Resume(s.(log := s.log + [Popped(n)]), t, n, Advance(c, Pop(s.q), n))
    case SignDone(t, signature, outputsMissing) =>
      var n := s.threads[t].node;
      Resume(s, t, n, AfterSigning(c, s.q, n, signature, outputsMissing))
    case ActDone(t, ok, signalled) =>
      var n := s.threads[t].node;
      Resume(s.(interrupted := s.interrupted || signalled), t, n, AfterAction(c, s.q, n, ok))
    case Wake(t) => s.(threads := s.threads[t := AtLoop])
    case Interrupt => s.(interrupted := true)
    case StartPass =>
      var p := s.q.pass + 1;
      s.(q := BeginPass(s.q, PassStart(c.passCounts, p), c.passCounts[p], p),
         threads := WakeAll(s.threads[0 := AtLoop]), log := s.log + [PassBegun(p)])
    case Quit => s.(q := s.q.(quit := true), threads := WakeAll(s.threads))
  }

  ghost predicate Next(c: Config, s: State, s': State)
    requires WellFormed(c)
  {
    Shape(c, s.q) && exists step :: Enabled(c, s, step) && s' == Apply(c, s, step)
  }

  // A run: the initial state followed by any number of steps of any threads.
  ghost predicate IsRun(c: Config, run: seq<State>)
    requires WellFormed(c)
  {
    && run != [] && run[0] == Init(c)
    && forall i :: 0 <= i < |run| - 1 ==> Next(c, run[i], run[i + 1])
  }

  ghost predicate Reachable(c: Config, s: State)
    requires WellFormed(c)
  {
    exists run: seq<State> :: IsRun(c, run) && run[|run| - 1] == s
  }

  /* ---- Invariant ---- */

  predicate Holds(th: Thread)
  {
    th.Signs? || th.Acts?
  }

  function Held(threads: seq<Thread>): set<nat>
  {
    set t | 0 <= t < |threads| && Holds(threads[t]) :: threads[t].node
  }

  ghost predicate ThreadsOk(c: Config, q: Queue, threads: seq<Thread>)
    requires Shape(c, q)
  {
    && (forall t :: 0 <= t < |threads| && Holds(threads[t]) ==>
          && threads[t].node < |c.data|
          && (threads[t].Signs? ==> q.nodes[threads[t].node].progress.Unblocked?)
          && (threads[t].Acts? ==> q.nodes[threads[t].node].progress.RunAction? && !c.data[threads[t].node].emptyAction))
    && (forall t, u :: 0 <= t < u < |threads| && Holds(threads[t]) && Holds(threads[u]) ==>
          threads[t].node != threads[u].node)
  }

  predicate RunsExpensive(c: Config, th: Thread)
  {
    th.Acts? && th.node < |c.data| && c.data[th.node].expensive
  }

  function ActingFlags(c: Config, threads: seq<Thread>): seq<int>
  {
    seq(|threads|, i requires 0 <= i < |threads| => if RunsExpensive(c, threads[i]) then 1 else 0)
  }

  // How many expensive actions are running.
  function ActingExpensive(c: Config, threads: seq<Thread>): int
  {
    Sum(ActingFlags(c, threads))
  }

  ghost predicate NoEmptyExpensive(c: Config)
  {
    forall n :: 0 <= n < |c.data| ==> !(c.data[n].expensive && c.data[n].emptyAction)
  }

  ghost predicate Throttle(c: Config, s: State)
  {
    && s.q.expensiveRunning <= ActingExpensive(c, s.threads)
    && (NoEmptyExpensive(c) ==> s.q.expensiveRunning == ActingExpensive(c, s.threads))
    && (s.q.parked != [] ==> ActingExpensive(c, s.threads) > 0 || SomeUnparked(s.q))
  }

  predicate Awake(th: Thread)
  {
    !th.Asleep? && !th.Outside?
  }

  predicate Building(c: Config, s: State)
  {
    !s.interrupted && !s.q.quit && !StoppedByError(c, s.q)
  }

  // No wake-up is lost.
  ghost predicate Wakeups(c: Config, s: State)
  {
    && (s.q.ring != [] && Building(c, s) ==> exists t :: 0 <= t < |s.threads| && Awake(s.threads[t]))
    && (StoppedByError(c, s.q) || s.q.quit ==> forall t :: 0 <= t < |s.threads| ==> !s.threads[t].Asleep?)
    && (s.q.pending == 0 ==> |s.threads| > 0 && !s.threads[0].Asleep?)
  }

  ghost predicate Passes(c: Config, s: State)
  {
    && -1 <= s.q.pass < |c.passCounts|
    && (s.q.pass == -1 ==> |s.threads| > 0 && s.threads[0].Outside?)
    && (|s.threads| > 0 && s.threads[0].Outside? && Building(c, s) ==> s.q.pending == 0)
  }

  ghost predicate Inv(c: Config, s: State)
  {
    && |s.threads| == c.threadCount
    && QInv(c, s.q, Held(s.threads))
    && ThreadsOk(c, s.q, s.threads)
    && Throttle(c, s) && Wakeups(c, s) && Passes(c, s)
  }

  /* ---- Thread bookkeeping ---- */

  lemma {:induction false} HeldNodes(threads: seq<Thread>)
    ensures forall t :: 0 <= t < |threads| && Holds(threads[t]) ==> threads[t].node in Held(threads)
  {
  }

  lemma {:induction false} HeldRelease(threads: seq<Thread>, t: nat, th: Thread)
    requires t < |threads| && !Holds(th)
    requires Holds(threads[t]) ==>
               forall u :: 0 <= u < |threads| && u != t && Holds(threads[u]) ==> threads[u].node != threads[t].node
    ensures Held(threads[t := th]) == if Holds(threads[t]) then Held(threads) - {threads[t].node} else Held(threads)
  {
    var threads' := threads[t := th];
    forall n ensures n in Held(threads') <==>
        n in (if Holds(threads[t]) then Held(threads) - {threads[t].node} else Held(threads)) {
      if n in Held(threads') {
        var u :| 0 <= u < |threads'| && Holds(threads'[u]) && threads'[u].node == n;
        assert threads[u] == threads'[u];
      }
      if n in Held(threads) {
        var u :| 0 <= u < |threads| && Holds(threads[u]) && threads[u].node == n;
        assert u != t ==> threads'[u] == threads[u];
      }
    }
  }

  lemma {:induction false} HeldAcquire(threads: seq<Thread>, t: nat, th: Thread)
    requires t < |threads| && Holds(th) && (Holds(threads[t]) ==> threads[t].node == th.node)
    ensures Held(threads[t := th]) == Held(threads) + {th.node}
  {
    var threads' := threads[t := th];
    forall n ensures n in Held(threads') <==> n in Held(threads) + {th.node} {
      if n in Held(threads') {
        var u :| 0 <= u < |threads'| && Holds(threads'[u]) && threads'[u].node == n;
        assert u != t ==> threads[u] == threads'[u];
      }
      if n in Held(threads) {
        var u :| 0 <= u < |threads| && Holds(threads[u]) && threads[u].node == n;
        assert u != t ==> threads'[u] == threads[u];
      }
      assert Holds(threads'[t]) && threads'[t].node == th.node;
    }
  }

  lemma {:induction false} HeldWakeAll(threads: seq<Thread>)
    ensures Held(WakeAll(threads)) == Held(threads)
  {
    var threads' := WakeAll(threads);
    assert forall t :: 0 <= t < |threads| ==> Holds(threads'[t]) == Holds(threads[t]);
    assert forall t :: 0 <= t < |threads| && Holds(threads[t]) ==> threads'[t].node == threads[t].node;
    forall n ensures n in Held(threads') <==> n in Held(threads) {
      if n in Held(threads) {
        var u :| 0 <= u < |threads| && Holds(threads[u]) && threads[u].node == n;
        assert Holds(threads'[u]) && threads'[u].node == n;
      }
    }
  }

  lemma {:induction false} ActingAfter(c: Config, threads: seq<Thread>, t: nat, th: Thread)
    requires t < |threads|
    ensures ActingExpensive(c, threads[t := th]) ==
            ActingExpensive(c, threads) - (if RunsExpensive(c, threads[t]) then 1 else 0)
                                        + (if RunsExpensive(c, th) then 1 else 0)
  {
    var f := ActingFlags(c, threads);
    var f' := ActingFlags(c, threads[t := th]);
    assert f' == f[t := f'[t]];
    SumUpdate(f, t, f'[t]);
  }

  lemma {:induction false} ActingWakeAll(c: Config, threads: seq<Thread>)
    ensures ActingExpensive(c, WakeAll(threads)) == ActingExpensive(c, threads)
  {
    assert ActingFlags(c, WakeAll(threads)) == ActingFlags(c, threads);
  }

  lemma {:induction false} ActingNonNegative(c: Config, threads: seq<Thread>)
    ensures ActingExpensive(c, threads) >= 0
  {
    var z := seq(|threads|, _ => 0);
    SumConstant(z, 0);
    SumMonotone(z, ActingFlags(c, threads));
  }

  // While a node of the current pass sits in the ring, the pass has work pending.
  lemma {:induction false} RingMeansPending(c: Config, q: Queue, held: set<nat>)
    requires QInv(c, q, held) && q.ring != []
    ensures q.pending > 0
  {
    var n := q.ring[0];
    assert NodeOk(c, q, held, n);
    SumAtLeast(PendingFlags(c, q), n);
  }

  lemma {:induction false} HeldMeansPending(c: Config, q: Queue, held: set<nat>, n: nat)
    requires QInv(c, q, held) && n in held
    ensures q.pending > 0 && c.data[n].pass == q.pass
  {
    assert NodeOk(c, q, held, n);
    SumAtLeast(PendingFlags(c, q), n);
  }

  lemma {:induction false} ParkedMeansPending(c: Config, q: Queue, held: set<nat>)
    requires QInv(c, q, held) && q.parked != []
    ensures q.pending > 0
  {
    var n := q.parked[0];
    assert NodeOk(c, q, held, n);
    SumAtLeast(PendingFlags(c, q), n);
  }

  lemma {:induction false} PendingNonNegative(c: Config, q: Queue, held: set<nat>)
    requires QInv(c, q, held)
    ensures q.pending >= 0
    ensures q.pending == 0 ==> forall n :: 0 <= n < |c.data| && c.data[n].pass == q.pass ==> Complete(q, n)
  {
    var f := PendingFlags(c, q);
    var z := seq(|f|, _ => 0);
    SumConstant(z, 0);
    SumMonotone(z, f);
    forall n | q.pending == 0 && 0 <= n < |c.data| && c.data[n].pass == q.pass ensures Complete(q, n) {
      SumAtLeast(f, n);
    }
  }

  /* ---- A lock-held section keeps the invariant ---- */

  // Thread t starts a section with n in hand: either it just popped n, or it held n before.
  ghost predicate InHand(c: Config, s: State, t: nat, n: nat, q0: Queue)
  {
    && t < |s.threads| && n < |c.data|
    && (if s.threads[t].AtLoop? then s.q.ring != [] && n == s.q.ring[0] && Shape(c, s.q) && q0 == Pop(s.q)
        else Holds(s.threads[t]) && s.threads[t].node == n && q0 == s.q)
    && QInv(c, q0, Held(s.threads) + {n})
  }

  ghost predicate KindFits(c: Config, th: Thread, n: nat, k: Kind)
    requires n < |c.data|
  {
    match th
    case AtLoop => k.Block? || k.Sign? || k.Repark? || k.Relaunch?
    case Signs(_) => k.SignPark? || k.SignLaunch? || k.SignEmpty? || k.SignUpToDate?
    case Acts(_) => k.ActionEnd?
    case _ => false
  }

  ghost predicate SectionStep(c: Config, s: State, t: nat, n: nat, q0: Queue, o: Outcome, k: Kind)
  {
    && WellFormed(c) && Inv(c, s) && InHand(c, s, t, n, q0)
    && KindFits(c, s.threads[t], n, k)
    && AdvanceOk(c, o, Held(s.threads) + {n}, n)
    && Answers(c, q0, o, n, k)
  }

  function NextThread(o: Outcome, n: nat): Thread
  {
    match o.stop case ToLoop => AtLoop case ToSign => Signs(n) case ToAct => Acts(n)
  }

  lemma {:induction false} SectionHeld(c: Config, s: State, t: nat, n: nat, q0: Queue, o: Outcome, k: Kind)
    requires SectionStep(c, s, t, n, q0, o, k)
    ensures Held(Resume(s, t, n, o).threads) ==
            if o.stop.ToLoop? then Held(s.threads) + {n} - {n} else Held(s.threads) + {n}
  {
    var next := NextThread(o, n);
    if Holds(next) {
      HeldAcquire(s.threads, t, next);
    } else {
      HeldRelease(s.threads, t, next);
      if s.threads[t].AtLoop? {
        PopKeeps(c, s.q, Held(s.threads));
      } else {
        assert n in Held(s.threads);
      }
    }
    HeldWakeAll(s.threads[t := next]);
  }

  lemma {:induction false} OthersUntouched(c: Config, s: State, t: nat, n: nat, q0: Queue, o: Outcome, k: Kind, u: nat)
    requires SectionStep(c, s, t, n, q0, o, k) && u < |s.threads| && u != t && Holds(s.threads[u])
    ensures s.threads[u].node != n && s.threads[u].node < |c.data|
    ensures o.q.nodes[s.threads[u].node].progress == s.q.nodes[s.threads[u].node].progress
  {
    assert s.threads[u].node in Held(s.threads);
    if s.threads[t].AtLoop? {
      PopKeeps(c, s.q, Held(s.threads));
    }
  }

  // Thread t moves on; the other holders' nodes keep their progress.
  lemma {:induction false} ThreadMoves(
    c: Config, q: Queue, q': Queue, threads: seq<Thread>, t: nat, next: Thread, wake: bool)
    requires Shape(c, q) && Shape(c, q') && ThreadsOk(c, q, threads) && t < |threads|
    requires forall u :: 0 <= u < |threads| && u != t && Holds(threads[u]) ==>
               q'.nodes[threads[u].node].progress == q.nodes[threads[u].node].progress
               && (Holds(next) ==> threads[u].node != next.node)
    requires Holds(next) ==> next.node < |c.data|
    requires next.Signs? ==> q'.nodes[next.node].progress.Unblocked?
    requires next.Acts? ==> q'.nodes[next.node].progress.RunAction? && !c.data[next.node].emptyAction
    ensures var moved := threads[t := next]; ThreadsOk(c, q', if wake then WakeAll(moved) else moved)
  {
  }

  lemma {:induction false} SectionKeepsThreads(c: Config, s: State, t: nat, n: nat, q0: Queue, o: Outcome, k: Kind)
    requires SectionStep(c, s, t, n, q0, o, k)
    ensures var s' := Resume(s, t, n, o); ThreadsOk(c, s'.q, s'.threads)
  {
    forall u | 0 <= u < |s.threads| && u != t && Holds(s.threads[u])
      ensures s.threads[u].node != n && s.threads[u].node < |c.data|
      ensures o.q.nodes[s.threads[u].node].progress == s.q.nodes[s.threads[u].node].progress
    {
      OthersUntouched(c, s, t, n, q0, o, k, u);
    }
    ThreadMoves(c, s.q, o.q, s.threads, t, NextThread(o, n), o.broadcast);
  }

  lemma {:induction false} SectionKeepsQueue(c: Config, s: State, t: nat, n: nat, q0: Queue, o: Outcome, k: Kind)
    requires SectionStep(c, s, t, n, q0, o, k)
    ensures var s' := Resume(s, t, n, o); QInv(c, s'.q, Held(s'.threads)) && ThreadsOk(c, s'.q, s'.threads)
  {
    SectionHeld(c, s, t, n, q0, o, k);
    SectionKeepsThreads(c, s, t, n, q0, o, k);
  }

  lemma {:induction false} SectionKeepsThrottle(c: Config, s: State, t: nat, n: nat, q0: Queue, o: Outcome, k: Kind)
    requires SectionStep(c, s, t, n, q0, o, k)
    ensures Throttle(c, Resume(s, t, n, o))
  {
    var next := NextThread(o, n);
    ActingNonNegative(c, s.threads);
    ActingAfter(c, s.threads, t, next);
    ActingWakeAll(c, s.threads[t := next]);
    if s.threads[t].AtLoop? {
      assert NodeOk(c, s.q, Held(s.threads), n);
    }
    if s.q.parked != [] && SomeUnparked(s.q) && !k.Repark? && !k.Relaunch? {
      var i :| 0 <= i < |s.q.ring| && s.q.ring[i] < |s.q.nodes| && s.q.nodes[s.q.ring[i]].progress.RunAction?;
      UnparkedStays(c, s, t, n, q0, o, k, i);
    }
  }

  lemma {:induction false} UnparkedStays(c: Config, s: State, t: nat, n: nat, q0: Queue, o: Outcome, k: Kind, i: nat)
    requires SectionStep(c, s, t, n, q0, o, k) && !k.Repark? && !k.Relaunch?
    requires i < |s.q.ring| && s.q.ring[i] < |s.q.nodes| && s.q.nodes[s.q.ring[i]].progress.RunAction?
    ensures SomeUnparked(o.q)
  {
    var m := s.q.ring[i];
    var j := if s.threads[t].AtLoop? then i - 1 else i;
    if s.threads[t].Acts? {
      assert NodeOk(c, s.q, Held(s.threads), m);
      assert NodeOk(c, q0, Held(s.threads) + {n}, n);
    }
    assert m != n;
    assert q0.ring[j] == m;
    assert o.q.ring[j] == m && o.q.nodes[m].progress.RunAction?;
  }

  lemma {:induction false} SectionKeepsRest(c: Config, s: State, t: nat, n: nat, q0: Queue, o: Outcome, k: Kind)
    requires SectionStep(c, s, t, n, q0, o, k)
    ensures Wakeups(c, Resume(s, t, n, o)) && Passes(c, Resume(s, t, n, o))
  {
    var s' := Resume(s, t, n, o);
    HeldMeansPending(c, q0, Held(s.threads) + {n}, n);
    assert Awake(s'.threads[t]);
  }

  lemma {:induction false} SectionKeeps(c: Config, s: State, t: nat, n: nat, q0: Queue, o: Outcome, k: Kind)
    requires SectionStep(c, s, t, n, q0, o, k)
    ensures Inv(c, Resume(s, t, n, o))
  {
    SectionKeepsQueue(c, s, t, n, q0, o, k);
    SectionKeepsThrottle(c, s, t, n, q0, o, k);
    SectionKeepsRest(c, s, t, n, q0, o, k);
  }

  /* ---- Which section a step is ---- */

  predicate IsSection(c: Config, s: State, step: Step)
    requires Enabled(c, s, step)
  {
    (step.Loop? && KeepBuilding(c, s, step.t) && s.q.ring != []) || step.SignDone? || step.ActDone?
  }

  function SectionNode(c: Config, s: State, step: Step): nat
    requires Enabled(c, s, step) && IsSection(c, s, step)
  {
    if step.Loop? then s.q.ring[0] else s.threads[step.t].node
  }

  function SectionStart(c: Config, s: State, step: Step): Queue
    requires Shape(c, s.q) && Enabled(c, s, step) && IsSection(c, s, step)
  {
    if step.Loop? then Pop(s.q) else s.q
  }

  function SectionOutcome(c: Config, s: State, step: Step): Outcome
    requires WellFormed(c) && Shape(c, s.q) && Enabled(c, s, step) && IsSection(c, s, step)
  {
    match step
    case Loop(t) => Advance(c, Pop(s.q), s.q.ring[0])
    case SignDone(t, signature, missing) => AfterSigning(c, s.q, s.threads[t].node, signature, missing)
    case ActDone(t, ok, _) => AfterAction(c, s.q, s.threads[t].node, ok)
  }

  lemma {:induction false} LoopSection(c: Config, s: State, t: nat) returns (k: Kind)
    requires WellFormed(c) && Inv(c, s) && Enabled(c, s, Loop(t)) && IsSection(c, s, Loop(t))
    ensures SectionStep(c, s, t, s.q.ring[0], Pop(s.q), Advance(c, Pop(s.q), s.q.ring[0]), k)
  {
    var held, n := Held(s.threads), s.q.ring[0];
    assert NodeOk(c, s.q, held, n);
    PopKeeps(c, s.q, held);
    AdvanceKeeps(c, Pop(s.q), held + {n}, n);
    k := SectionAtPop(c, Pop(s.q), held + {n}, n);
  }

  lemma {:induction false} SignSection(c: Config, s: State, step: Step) returns (k: Kind)
    requires WellFormed(c) && Inv(c, s) && Enabled(c, s, step) && step.SignDone?
    ensures SectionStep(c, s, step.t, SectionNode(c, s, step), s.q, SectionOutcome(c, s, step), k)
  {
    var held, n := Held(s.threads), s.threads[step.t].node;
    assert n in held && held + {n} == held;
    HeldMeansPending(c, s.q, held, n);
    assert NodeOk(c, s.q, held, n);
    var p := Decide(c.data[n], step.signature, step.outputsMissing);
    var q1 := s.q.(nodes := s.q.nodes[n := s.q.nodes[n].(signature := step.signature, progress := p)]);
    ProgressKeeps(c, s.q, held, n, q1);
    AdvanceKeeps(c, q1, held, n);
    k := SectionAfterSigning(c, s.q, held, n, step.signature, step.outputsMissing);
  }

  lemma {:induction false} ActSection(c: Config, s: State, step: Step)
    requires WellFormed(c) && Inv(c, s) && Enabled(c, s, step) && step.ActDone?
    ensures SectionStep(c, s, step.t, SectionNode(c, s, step), s.q, SectionOutcome(c, s, step), ActionEnd(step.ok))
  {
    var held, n := Held(s.threads), s.threads[step.t].node;
    assert n in held && held + {n} == held;
    HeldMeansPending(c, s.q, held, n);
    assert NodeOk(c, s.q, held, n);
    var p := if step.ok then Succeeded else Failed;
    FinishKeeps(c, s.q, held, n, p);
    AdvanceKeeps(c, FinishAction(c, s.q, n, p), held, n);
    SectionAfterAction(c, s.q, held, n, step.ok);
  }

  lemma {:induction false} SectionOf(c: Config, s: State, step: Step) returns (k: Kind)
    requires WellFormed(c) && Inv(c, s) && Enabled(c, s, step) && IsSection(c, s, step)
    ensures SectionStep(c, s, step.t, SectionNode(c, s, step), SectionStart(c, s, step), SectionOutcome(c, s, step), k)
  {
    if step.Loop? {
      k := LoopSection(c, s, step.t);
    } else if step.SignDone? {
      k := SignSection(c, s, step);
    } else {
      ActSection(c, s, step);
      k := ActionEnd(step.ok);
    }
  }

  /* ---- The other steps ---- */

  lemma {:induction false} SliceSum(f: seq<int>, start: nat, count: nat)
    requires start + count <= |f|
    requires forall i :: 0 <= i < |f| ==> f[i] == if start <= i < start + count then 1 else 0
    ensures Sum(f) == count
  {
    if f != [] {
      if start > 0 {
        SliceSum(f[1..], start - 1, count);
      } else if count > 0 {
        SliceSum(f[1..], 0, count - 1);
      } else {
        SliceSum(f[1..], 0, 0);
      }
    }
  }

  // Between passes the queue is empty and everything started has succeeded.
  lemma {:induction false} Quiescent(c: Config, q: Queue, held: set<nat>)
    requires QInv(c, q, held) && q.pending == 0 && q.failed == 0
    ensures held == {} && q.ring == [] && q.parked == []
    ensures forall n :: 0 <= n < |c.data| && c.data[n].pass <= q.pass ==> Complete(q, n) && q.nodes[n].result == 0
  {
    PendingNonNegative(c, q, held);
    if held != {} {
      var n :| n in held;
      HeldMeansPending(c, q, held, n);
    }
    if q.ring != [] {
      RingMeansPending(c, q, held);
    }
    if q.parked != [] {
      ParkedMeansPending(c, q, held);
    }
    forall n | 0 <= n < |c.data| && c.data[n].pass <= q.pass ensures Complete(q, n) && q.nodes[n].result == 0 {
      assert NodeOk(c, q, held, n);
    }
  }

  lemma {:induction false} BeginPassKeeps(c: Config, q: Queue, held: set<nat>, p: nat)
    requires WellFormed(c) && QInv(c, q, held) && q.pending == 0 && q.failed == 0
    requires p == q.pass + 1 && p < |c.passCounts|
    ensures held == {} && q.parked == []
    ensures QInv(c, BeginPass(q, PassStart(c.passCounts, p), c.passCounts[p], p), held)
  {
    var start := PassStart(c.passCounts, p);
    var count := c.passCounts[p];
    var q' := BeginPass(q, start, count, p);
    Quiescent(c, q, held);
    forall n | 0 <= n < |c.data|
      ensures start <= n < start + count <==> c.data[n].pass == p
      ensures Complete(q', n) == Complete(q, n)
      ensures c.data[n].pass == p ==> !Complete(q, n)
    {
      assert NodeOk(c, q, held, n);
    }
    ReadyCongruence(c, q, q');
    assert PendingFlags(c, q') == seq(|q.nodes|, i requires 0 <= i < |q.nodes| =>
                                        if start <= i < start + count then 1 else 0);
    SliceSum(PendingFlags(c, q'), start, count);
    forall n | 0 <= n < |c.data| ensures NodeOk(c, q', held, n) {
      assert NodeOk(c, q, held, n);
      if start <= n < start + count {
        assert q'.ring[n - start] == n;
      }
    }
  }

  lemma {:induction false} StartPassKeeps(c: Config, s: State)
    requires WellFormed(c) && Inv(c, s) && Enabled(c, s, StartPass)
    ensures Inv(c, Apply(c, s, StartPass))
  {
    StartPassQueue(c, s);
    StartPassThreads(c, s.threads);
    StartPassRest(c, s);
  }

  lemma {:induction false} StartPassQueue(c: Config, s: State)
    requires WellFormed(c) && Inv(c, s) && Enabled(c, s, StartPass)
    ensures Held(s.threads) == {} && s.q.parked == [] && QInv(c, Apply(c, s, StartPass).q, Held(s.threads))
  {
    assert s.q.pending == 0;
    var p := s.q.pass + 1;
    BeginPassKeeps(c, s.q, Held(s.threads), p);
    assert Apply(c, s, StartPass).q == BeginPass(s.q, PassStart(c.passCounts, p), c.passCounts[p], p);
  }

  lemma {:induction false} StartPassRest(c: Config, s: State)
    requires WellFormed(c) && Shape(c, s.q) && Enabled(c, s, StartPass) && Throttle(c, s) && s.q.parked == []
    requires ActingExpensive(c, WakeAll(s.threads[0 := AtLoop])) == ActingExpensive(c, s.threads)
    ensures var s' := Apply(c, s, StartPass); Throttle(c, s') && Wakeups(c, s') && Passes(c, s')
  {
    assert Awake(Apply(c, s, StartPass).threads[0]);
  }

  lemma {:induction false} StartPassThreads(c: Config, threads: seq<Thread>)
    requires threads != [] && threads[0].Outside? && Held(threads) == {}
    ensures var threads' := WakeAll(threads[0 := AtLoop]);
            && Held(threads') == {} && ActingExpensive(c, threads') == ActingExpensive(c, threads)
            && forall t :: 0 <= t < |threads'| ==> !Holds(threads'[t])
  {
    var threads' := WakeAll(threads[0 := AtLoop]);
    HeldRelease(threads, 0, AtLoop);
    HeldWakeAll(threads[0 := AtLoop]);
    ActingAfter(c, threads, 0, AtLoop);
    ActingWakeAll(c, threads[0 := AtLoop]);
    HeldNodes(threads');
  }

  lemma {:induction false} LoopKeeps(c: Config, s: State, t: nat)
    requires WellFormed(c) && Inv(c, s) && Enabled(c, s, Loop(t)) && !IsSection(c, s, Loop(t))
    ensures Inv(c, Apply(c, s, Loop(t)))
  {
    var s' := Apply(c, s, Loop(t));
    PendingNonNegative(c, s.q, Held(s.threads));
    HeldRelease(s.threads, t, s'.threads[t]);
    ActingAfter(c, s.threads, t, s'.threads[t]);
    if s.q.ring != [] {
      RingMeansPending(c, s.q, Held(s.threads));
    }
  }

  lemma {:induction false} WakeKeeps(c: Config, s: State, t: nat)
    requires WellFormed(c) && Inv(c, s) && Enabled(c, s, Wake(t))
    ensures Inv(c, Apply(c, s, Wake(t)))
  {
    HeldRelease(s.threads, t, AtLoop);
    ActingAfter(c, s.threads, t, AtLoop);
    assert Awake(Apply(c, s, Wake(t)).threads[t]);
  }

  lemma {:induction false} QuitKeeps(c: Config, s: State)
    requires WellFormed(c) && Inv(c, s) && Enabled(c, s, Quit)
    ensures Inv(c, Apply(c, s, Quit))
  {
    HeldWakeAll(s.threads);
    ActingWakeAll(c, s.threads);
    QuitFlagKeeps(c, s.q, Held(s.threads));
  }

  lemma {:induction false} QuitFlagKeeps(c: Config, q: Queue, held: set<nat>)
    requires QInv(c, q, held)
    ensures QInv(c, q.(quit := true), held)
  {
    var q' := q.(quit := true);
    assert PendingFlags(c, q') == PendingFlags(c, q);
    forall n | 0 <= n < |c.data| ensures NodeOk(c, q', held, n) {
      assert NodeOk(c, q, held, n);
    }
  }

  lemma {:induction false} QuietKeeps(c: Config, s: State, step: Step)
    requires WellFormed(c) && Inv(c, s) && Enabled(c, s, step) && !IsSection(c, s, step) && !step.StartPass?
    ensures Inv(c, Apply(c, s, step))
  {
    match step
    case Loop(t) => LoopKeeps(c, s, t);
    case Wake(t) => WakeKeeps(c, s, t);
    case Interrupt => FrameInv(c, s, Apply(c, s, step));
    case Quit => QuitKeeps(c, s);
  }

  lemma {:induction false} StepKeeps(c: Config, s: State, step: Step)
    requires WellFormed(c) && Inv(c, s) && Enabled(c, s, step)
    ensures Inv(c, Apply(c, s, step))
  {
    if IsSection(c, s, step) {
      var k := SectionOf(c, s, step);
      var n := SectionNode(c, s, step);
      SectionKeeps(c, s, step.t, n, SectionStart(c, s, step), SectionOutcome(c, s, step), k);
      FrameInv(c, Resume(s, step.t, n, SectionOutcome(c, s, step)), Apply(c, s, step));
    } else if step.StartPass? {
      StartPassKeeps(c, s);
    } else {
      QuietKeeps(c, s, step);
    }
  }

  // The history and a raised interrupt flag are irrelevant to the invariant.
  lemma {:induction false} FrameInv(c: Config, s: State, s': State)
    requires Inv(c, s) && s'.q == s.q && s'.threads == s.threads && (s.interrupted ==> s'.interrupted)
    ensures Inv(c, s')
  {
  }

  lemma {:induction false} InitKeeps(c: Config)
    requires WellFormed(c)
    ensures Inv(c, Init(c))
  {
    var s := Init(c);
    assert Held(s.threads) == {};
    assert forall n :: 0 <= n < |c.data| ==> NodeOk(c, s.q, {}, n);
    SumConstant(PendingFlags(c, s.q), 0);
    SumConstant(ActingFlags(c, s.threads), 0);
  }

  // Every state of every run satisfies the invariant.
  lemma {:induction false} RunInvariant(c: Config, run: seq<State>, i: nat)
    requires WellFormed(c) && IsRun(c, run) && i < |run|
    ensures Inv(c, run[i])
  {
    if i == 0 {
      InitKeeps(c);
    } else {
      RunInvariant(c, run, i - 1);
      assert Next(c, run[i - 1], run[i - 1 + 1]);
      var step :| Enabled(c, run[i - 1], step) && run[i] == Apply(c, run[i - 1], step);
      StepKeeps(c, run[i - 1], step);
    }
  }
}
