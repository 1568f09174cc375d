/**
 What one lock-held section of AdvanceNode does, as seen from outside: nine kinds of section, each with the
 progress it starts and ends at and the events it records. Also the potential that pays for ring pops.
 */
module BuildQueueSections {
  import opened Sums
  import opened Sequences
  import opened BuildQueueModel
  import opened BuildQueueInvariant

  datatype Kind =
    | Block                // popped, waits for dependencies
    | Sign                 // popped, ready, leaves to check its signature
    | Repark               // popped again after an unpark, parked again
    | Relaunch             // popped again after an unpark, leaves to run its action
    | SignPark             // must be rebuilt, parked
    | SignLaunch           // must be rebuilt, leaves to run its action
    | SignEmpty            // must be rebuilt, has no action
    | SignUpToDate         // nothing to do
    | ActionEnd(ok: bool)  // its action ended

  predicate StartsAt(k: Kind, p: Progress)
  {
    match k
    case Block => p.Initial?
    case Sign => p.Initial? || p.Blocked?
    case Repark => p.RunAction?
    case Relaunch => p.RunAction?
    case ActionEnd(_) => p.RunAction?
    case _ => p.Unblocked?
  }

  function EndsAt(k: Kind): Progress
  {
    match k
    case Block => Blocked
    case Sign => Unblocked
    case Repark => RunAction
    case Relaunch => RunAction
    case SignPark => RunAction
    case SignLaunch => RunAction
    case SignEmpty => Completed
    case SignUpToDate => Completed
    case ActionEnd(_) => Completed
  }

  function Stops(k: Kind): Stop
  {
    match k
    case Sign => ToSign
    case Relaunch => ToAct
    case SignLaunch => ToAct
    case _ => ToLoop
  }

  function ResultOf(k: Kind): int
  {
    if k == ActionEnd(false) then 1 else 0
  }

  // The events of a section, without the Popped event of the loop that started it.
  function EventsOf(k: Kind, n: nat, signature: nat): seq<Event>
  {
    match k
    case Block => []
    case Sign => [Signing(n)]
    case Repark => []
    case Relaunch => [Acting(n)]
    case SignPark => [Decided(n, RunAction)]
    case SignLaunch => [Decided(n, RunAction), Acting(n)]
    case SignEmpty => [Decided(n, RunAction), Finished(n, signature, true), Done(n, 0)]
    case SignUpToDate => [Decided(n, UpToDate), Done(n, 0)]
    case ActionEnd(ok) => [Finished(n, signature, ok), Done(n, if ok then 0 else 1)]
  }

  // q is the queue when the section starts with n in hand, q' the queue when it ends.
  ghost predicate Section(c: Config, q: Queue, q': Queue, n: nat, k: Kind)
  {
    && |q.nodes| == |q'.nodes| == |c.data| && n < |c.data|
    && q'.pass == q.pass && q'.quit == q.quit
    && (forall m :: 0 <= m < |c.data| && m != n ==>
          q'.nodes[m] == q.nodes[m].(queued := q'.nodes[m].queued, active := q'.nodes[m].active))
    && StartsAt(k, q.nodes[n].progress)
    && q'.nodes[n].progress == EndsAt(k)
    && q'.nodes[n].result == (if EndsAt(k).Completed? then ResultOf(k) else q.nodes[n].result)
    && q'.failed == q.failed + (if EndsAt(k).Completed? then ResultOf(k) else 0)
    && (!k.Block? ==> Ready(c, q, n))
    && (k.SignUpToDate? ==> Decide(c.data[n], q'.nodes[n].signature, false).UpToDate?)
    && (k.SignEmpty? ==> c.data[n].emptyAction)
    && (q'.nodes[n].signature == q.nodes[n].signature || q.nodes[n].progress.Unblocked?)
  }

  // Is a node that was unparked waiting in the ring?
  predicate SomeUnparked(q: Queue)
  {
    exists i :: 0 <= i < |q.ring| && q.ring[i] < |q.nodes| && q.nodes[q.ring[i]].progress.RunAction?
  }

  // What the section does to the counters, the ring and the park list.
  ghost predicate Accounts(c: Config, q: Queue, q': Queue, n: nat, k: Kind)
    requires n < |c.data|
  {
    && q'.pending == q.pending - (if EndsAt(k).Completed? then 1 else 0)
    && q'.expensiveRunning == q.expensiveRunning
         + (if c.data[n].expensive && Stops(k).ToAct? then 1 else 0)
         - (if c.data[n].expensive && (k.SignEmpty? || k.ActionEnd?) then 1 else 0)
    && q.ring <= q'.ring
    && (k.Repark? || k.SignPark? ==> q.expensiveRunning == c.maxExpensive)
    && (k.Relaunch? || k.Repark? ==> c.data[n].expensive)
    && (q'.parked != [] && !k.Repark? && !k.SignPark? ==> q.parked != [])
    && ((k.SignEmpty? || k.ActionEnd?) && c.data[n].expensive && q.parked != [] ==> SomeUnparked(q'))
  }

  // How AdvanceNode answers, given the progress at which the loop is entered.
  ghost predicate Answers(c: Config, q: Queue, o: Outcome, n: nat, k: Kind)
  {
    && Section(c, q, o.q, n, k) && Accounts(c, q, o.q, n, k)
    && o.stop == Stops(k)
    && o.broadcast == EndsAt(k).Completed?
    && o.events == EventsOf(k, n, o.q.nodes[n].signature)
  }

  /* ---- Loop entries ---- */

  // A popped node: the four ways its first section can go.
  function AtPop(c: Config, q: Queue, n: nat): Outcome
    requires Shape(c, q) && n < |c.data|
  {
    if q.nodes[n].progress.Initial? && !Ready(c, q, n) then
      Outcome(SetFlags(SetProgress(q, n, Blocked), n, q.nodes[n].queued, false), ToLoop, false, [])
    else if !q.nodes[n].progress.RunAction? then
      Outcome(SetProgress(q, n, Unblocked), ToSign, false, [Signing(n)])
    else if c.data[n].expensive && q.expensiveRunning == c.maxExpensive then
      Outcome(Park(q, n), ToLoop, false, [])
    else
      Outcome(if c.data[n].expensive then q.(expensiveRunning := q.expensiveRunning + 1) else q,
              ToAct, false, [Acting(n)])
  }

  lemma {:induction false} AdvanceAtPop(c: Config, q: Queue, held: set<nat>, n: nat)
    requires WellFormed(c) && QInv(c, q, held) && n in held && c.data[n].pass == q.pass
    requires StartsAt(Sign, q.nodes[n].progress) || (q.nodes[n].progress.RunAction? && !c.data[n].emptyAction)
    ensures Advance(c, q, n) == AtPop(c, q, n)
  {
    var q1 := SetProgress(q, n, Unblocked);
    if q.nodes[n].progress.Initial? {
      assert DepsOk(c, n);
      assert c.data[n].deps[0..] == c.data[n].deps;
      SetupNeverEnqueues(c, q, held, n, 0);
      assert Ready(c, q, n) <==> SetupDependencies(q, c.data[n].deps).1 == 0;
    }
    if !q.nodes[n].progress.RunAction? && !(q.nodes[n].progress.Initial? && !Ready(c, q, n)) {
      assert Advance(c, q1, n) == Outcome(q1, ToSign, false, [Signing(n)]);
      assert Advance(c, q, n) == Advance(c, q1, n);
    }
  }

  lemma {:induction false} SectionAtPop(c: Config, q: Queue, held: set<nat>, n: nat) returns (k: Kind)
    requires WellFormed(c) && QInv(c, q, held) && n in held && c.data[n].pass == q.pass
    requires StartsAt(Sign, q.nodes[n].progress) ||
             (q.nodes[n].progress.RunAction? && c.data[n].expensive && !c.data[n].emptyAction)
    ensures Answers(c, q, Advance(c, q, n), n, k)
    ensures k.Block? || k.Sign? || k.Repark? || k.Relaunch?
    ensures forall m :: 0 <= m < |c.data| && m != n ==> Advance(c, q, n).q.nodes[m] == q.nodes[m]
  {
    assert NodeOk(c, q, held, n);
    AdvanceAtPop(c, q, held, n);
    k := AtPopAnswers(c, q, n);
  }

  lemma {:induction false} AtPopAnswers(c: Config, q: Queue, n: nat) returns (k: Kind)
    requires Shape(c, q) && n < |c.data| && (!q.nodes[n].progress.Initial? ==> Ready(c, q, n))
    requires StartsAt(Sign, q.nodes[n].progress) || (q.nodes[n].progress.RunAction? && c.data[n].expensive)
    ensures Answers(c, q, AtPop(c, q, n), n, k)
    ensures k.Block? || k.Sign? || k.Repark? || k.Relaunch?
    ensures forall m :: 0 <= m < |c.data| && m != n ==> AtPop(c, q, n).q.nodes[m] == q.nodes[m]
  {
    k := if q.nodes[n].progress.Initial? && !Ready(c, q, n) then Block
         else if !q.nodes[n].progress.RunAction? then Sign
         else if c.data[n].expensive && q.expensiveRunning == c.maxExpensive then Repark
         else Relaunch;
  }

  /* ---- The end of an action ---- */

  // What the last two iterations of the loop do to the queue: node n completes with result r and its waiters wake.
  ghost predicate Completes(c: Config, q: Queue, q': Queue, n: nat, r: int)
  {
    && |q.nodes| == |q'.nodes| == |c.data| && n < |c.data|
    && q' == q.(nodes := q'.nodes, ring := q'.ring, failed := q.failed + r, pending := q.pending - 1)
    && q.ring <= q'.ring
    && (forall m :: 0 <= m < |c.data| && m != n ==>
          && q'.nodes[m] == q.nodes[m].(queued := q'.nodes[m].queued)
          && (q'.nodes[m] != q.nodes[m] ==> q.nodes[m].progress.Blocked?))
    && q'.nodes[n] == q.nodes[n].(progress := Completed, result := r)
  }

  lemma {:induction false} CompletingSection(c: Config, q: Queue, held: set<nat>, n: nat)
    requires WellFormed(c) && QInv(c, q, held) && n in held && c.data[n].pass == q.pass
    requires q.nodes[n].progress.Succeeded? || q.nodes[n].progress.UpToDate? || q.nodes[n].progress.Failed?
    ensures var o := Advance(c, q, n);
            var r := if q.nodes[n].progress.Failed? then 1 else 0;
            && o.stop == ToLoop && o.broadcast && o.events == [Done(n, r)] && Completes(c, q, o.q, n, r)
  {
    CompletingKeeps(c, q, held, n);
    assert DepsOk(c, n);
    assert NodeOk(c, q, held, n);
    var r := if q.nodes[n].progress.Failed? then 1 else 0;
    var q1 := q.(failed := q.failed + r, pending := q.pending - 1,
                 nodes := q.nodes[n := q.nodes[n].(result := r, progress := Completed)]);
    forall m: nat | m < |c.data| && m != n && Wakeable(c, q1, m) ensures q.nodes[m].progress.Blocked? {
      assert NodeOk(c, q, held, m);
    }
    WakingCompletes(c, q, q1, n, r);
  }

  lemma {:induction false} WakingCompletes(c: Config, q: Queue, q1: Queue, n: nat, r: int)
    requires |q.nodes| == |c.data| && n < |c.data| && Below(c.data[n].backLinks, |c.data|) && !Idle(q, n)
    requires q1 == q.(failed := q.failed + r, pending := q.pending - 1,
                      nodes := q.nodes[n := q.nodes[n].(result := r, progress := Completed)])
    requires forall m: nat :: m < |c.data| && m != n && Wakeable(c, q1, m) ==> q.nodes[m].progress.Blocked?
    ensures Completes(c, q, UnblockWaiters(c, q1, c.data[n].backLinks), n, r)
  {
    UnblockEffect(c, q1, c.data[n].backLinks);
    UnblockExtends(c, q1, c.data[n].backLinks);
  }

  lemma {:induction false} UnblockExtends(c: Config, q: Queue, links: seq<nat>)
    requires |q.nodes| == |c.data| && Below(links, |c.data|)
    ensures q.ring <= UnblockWaiters(c, q, links).ring
    decreases |links|
  {
    if links != [] {
      UnblockExtends(c, if Wakeable(c, q, links[0]) then Enqueue(q, links[0]) else q, links[1..]);
    }
  }

  // What the end of an action does to the queue: an expensive one moves the top of the park list into the ring.
  ghost predicate Finishes(c: Config, q: Queue, q': Queue, n: nat, p: Progress)
  {
    && |q.nodes| == |q'.nodes| == |c.data| && n < |c.data|
    && q'.pending == q.pending && q'.failed == q.failed && q'.pass == q.pass && q'.quit == q.quit
    && q.ring <= q'.ring
    && q'.expensiveRunning == q.expensiveRunning - (if c.data[n].expensive then 1 else 0)
    && (q'.parked != [] ==> q.parked != [])
    && (forall m :: 0 <= m < |c.data| && m != n ==>
          q'.nodes[m] == q.nodes[m].(queued := q'.nodes[m].queued, active := q'.nodes[m].active))
    && q'.nodes[n] == q.nodes[n].(progress := p)
    && (c.data[n].expensive && q.parked != [] ==>
          && |q'.ring| == |q.ring| + 1 && q'.ring[|q.ring|] < |q.nodes| && q'.ring[|q.ring|] != n
          && q'.nodes[q'.ring[|q.ring|]].progress.RunAction?)
  }

  lemma {:induction false} FinishUnparks(c: Config, q: Queue, held: set<nat>, n: nat, p: Progress)
    requires QInv(c, q, held) && n in held && q.nodes[n].progress.RunAction? && (p.Succeeded? || p.Failed?)
    ensures Finishes(c, q, FinishAction(c, q, n, p), n, p)
  {
    assert NodeOk(c, q, held, n);
    if q.parked != [] {
      assert NodeOk(c, q, held, q.parked[|q.parked| - 1]);
    }
  }

  // Both together: everything a finished action changes.
  ghost predicate Worked(c: Config, q: Queue, q': Queue, n: nat, r: int)
  {
    && |q.nodes| == |q'.nodes| == |c.data| && n < |c.data|
    && q'.pass == q.pass && q'.quit == q.quit && q'.failed == q.failed + r
    && (forall m :: 0 <= m < |c.data| && m != n ==>
          q'.nodes[m] == q.nodes[m].(queued := q'.nodes[m].queued, active := q'.nodes[m].active))
    && q'.nodes[n] == q.nodes[n].(progress := Completed, result := r)
  }

  lemma {:induction false} FinishedWork(c: Config, q: Queue, q1: Queue, q2: Queue, n: nat, p: Progress, r: int)
    requires Finishes(c, q, q1, n, p) && Completes(c, q1, q2, n, r)
    ensures Worked(c, q, q2, n, r)
  {
  }

  lemma {:induction false} FinishedAccounts(c: Config, q: Queue, q1: Queue, q2: Queue, n: nat, p: Progress, k: Kind)
    requires Finishes(c, q, q1, n, p) && (k.ActionEnd? || k.SignEmpty?) && Completes(c, q1, q2, n, ResultOf(k))
    ensures Accounts(c, q, q2, n, k)
  {
    if c.data[n].expensive && q.parked != [] {
      var i := |q.ring|;
      assert q2.ring[i] == q1.ring[i];
      assert q2.nodes[q2.ring[i]].progress == q1.nodes[q1.ring[i]].progress;
    }
  }

  // From the end of an action to the end of the section.
  lemma {:induction false} FinishSection(c: Config, q: Queue, held: set<nat>, n: nat, k: Kind)
    requires WellFormed(c) && QInv(c, q, held) && n in held && c.data[n].pass == q.pass
    requires q.nodes[n].progress.RunAction? && (k.ActionEnd? || k.SignEmpty?)
    ensures Shape(c, FinishAction(c, q, n, if ResultOf(k) == 0 then Succeeded else Failed))
    ensures var o := Advance(c, FinishAction(c, q, n, if ResultOf(k) == 0 then Succeeded else Failed), n);
            && o.stop == ToLoop && o.broadcast && o.events == [Done(n, ResultOf(k))]
            && Worked(c, q, o.q, n, ResultOf(k)) && Accounts(c, q, o.q, n, k)
  {
    var p := if ResultOf(k) == 0 then Succeeded else Failed;
    var q1 := FinishAction(c, q, n, p);
    FinishKeeps(c, q, held, n, p);
    FinishUnparks(c, q, held, n, p);
    CompletingSection(c, q1, held, n);
    FinishedWork(c, q, q1, Advance(c, q1, n).q, n, p, ResultOf(k));
    FinishedAccounts(c, q, q1, Advance(c, q1, n).q, n, p, k);
  }

  lemma {:induction false} SectionAfterAction(c: Config, q: Queue, held: set<nat>, n: nat, ok: bool)
    requires WellFormed(c) && QInv(c, q, held) && n in held && c.data[n].pass == q.pass
    requires q.nodes[n].progress.RunAction?
    ensures Answers(c, q, AfterAction(c, q, n, ok), n, ActionEnd(ok))
  {
    assert NodeOk(c, q, held, n);
    FinishSection(c, q, held, n, ActionEnd(ok));
  }

  /* ---- The end of the signature check ---- */

  // q1 is q with node n signed and decided.
  ghost predicate Signed(c: Config, q: Queue, q1: Queue, n: nat)
  {
    && |q.nodes| == |q1.nodes| == |c.data| && n < |c.data|
    && q1 == q.(nodes := q1.nodes) && (forall m :: 0 <= m < |c.data| && m != n ==> q1.nodes[m] == q.nodes[m])
    && q1.nodes[n] == q.nodes[n].(signature := q1.nodes[n].signature, progress := q1.nodes[n].progress)
    && q.nodes[n].progress.Unblocked? && Ready(c, q, n)
  }

  lemma {:induction false} SignedSection(c: Config, q: Queue, q1: Queue, q2: Queue, n: nat, k: Kind)
    requires Signed(c, q, q1, n) && Worked(c, q1, q2, n, 0)
    requires k == SignEmpty || k == SignUpToDate
    requires k.SignEmpty? ==> c.data[n].emptyAction
    requires k.SignUpToDate? ==> Decide(c.data[n], q1.nodes[n].signature, false).UpToDate?
    ensures Section(c, q, q2, n, k)
  {
  }

  lemma {:induction false} UpToDateAccounts(c: Config, q: Queue, q1: Queue, q2: Queue, n: nat)
    requires Signed(c, q, q1, n) && Completes(c, q1, q2, n, 0)
    ensures Worked(c, q1, q2, n, 0) && Accounts(c, q, q2, n, SignUpToDate)
  {
  }

  lemma {:induction false} SectionUpToDate(c: Config, q: Queue, q1: Queue, held: set<nat>, n: nat)
    requires WellFormed(c) && Signed(c, q, q1, n) && QInv(c, q1, held) && n in held && c.data[n].pass == q.pass
    requires q1.nodes[n].progress.UpToDate? && Decide(c.data[n], q1.nodes[n].signature, false).UpToDate?
    ensures Answers(c, q, Prepend(Decided(n, UpToDate), Advance(c, q1, n)), n, SignUpToDate)
  {
    CompletingSection(c, q1, held, n);
    UpToDateAccounts(c, q, q1, Advance(c, q1, n).q, n);
    SignedSection(c, q, q1, Advance(c, q1, n).q, n, SignUpToDate);
  }

  lemma {:induction false} SectionEmpty(c: Config, q: Queue, q1: Queue, held: set<nat>, n: nat)
    requires WellFormed(c) && Signed(c, q, q1, n) && QInv(c, q1, held) && n in held && c.data[n].pass == q.pass
    requires q1.nodes[n].progress.RunAction? && c.data[n].emptyAction
    ensures Answers(c, q, Prepend(Decided(n, RunAction), Advance(c, q1, n)), n, SignEmpty)
  {
    FinishSection(c, q1, held, n, SignEmpty);
    var o := Advance(c, FinishAction(c, q1, n, Succeeded), n);
    assert Advance(c, q1, n) == Prepend(Finished(n, q1.nodes[n].signature, true), o);
    SignedSection(c, q, q1, o.q, n, SignEmpty);
  }

  lemma {:induction false} SectionLaunchOrPark(c: Config, q: Queue, q1: Queue, n: nat) returns (k: Kind)
    requires LinksInRange(c) && Shape(c, q1) && Signed(c, q, q1, n)
    requires q1.nodes[n].progress.RunAction? && !c.data[n].emptyAction
    ensures Answers(c, q, Prepend(Decided(n, RunAction), Advance(c, q1, n)), n, k)
    ensures k.SignPark? || k.SignLaunch?
  {
    k := if c.data[n].expensive && q.expensiveRunning == c.maxExpensive then SignPark else SignLaunch;
  }

  lemma {:induction false} SectionAfterSigning(
    c: Config, q: Queue, held: set<nat>, n: nat, signature: nat, outputsMissing: bool)
    returns (k: Kind)
    requires WellFormed(c) && QInv(c, q, held) && n in held && c.data[n].pass == q.pass
    requires q.nodes[n].progress.Unblocked?
    ensures Answers(c, q, AfterSigning(c, q, n, signature, outputsMissing), n, k)
    ensures k.SignPark? || k.SignLaunch? || k.SignEmpty? || k.SignUpToDate?
  {
    assert NodeOk(c, q, held, n);
    var p := Decide(c.data[n], signature, outputsMissing);
    var q1 := q.(nodes := q.nodes[n := q.nodes[n].(signature := signature, progress := p)]);
    ProgressKeeps(c, q, held, n, q1);
    if p.UpToDate? {
      k := SignUpToDate;
      SectionUpToDate(c, q, q1, held, n);
    } else if c.data[n].emptyAction {
      k := SignEmpty;
      SectionEmpty(c, q, q1, held, n);
    } else {
      k := SectionLaunchOrPark(c, q, q1, n);
    }
  }

  /* ---- The potential: how many more ring pops a state can pay for ---- */

  function Weight(d: NodeData, s: NodeState): int
  {
    (if s.progress.Initial? then 2 else if s.progress.Blocked? then 1 else 0)
    + (if d.expensive && (s.progress.Initial? || s.progress.Blocked? || s.progress.Unblocked? || s.progress.RunAction?)
       then 1 else 0)
    + (if s.progress.RunAction? && s.queued && !s.active then 1 else 0)
  }

  function Weights(c: Config, q: Queue): seq<int>
    requires |q.nodes| == |c.data|
  {
    seq(|q.nodes|, i requires 0 <= i < |q.nodes| => Weight(c.data[i], q.nodes[i]))
  }

  function Potential(c: Config, q: Queue): int
    requires |q.nodes| == |c.data|
  {
    Sum(Weights(c, q))
  }

  lemma {:induction false} PotentialAfter(c: Config, q: Queue, q': Queue, n: nat)
    requires |q.nodes| == |q'.nodes| == |c.data| && n < |c.data|
    requires forall m :: 0 <= m < |c.data| && m != n ==> Weight(c.data[m], q'.nodes[m]) == Weight(c.data[m], q.nodes[m])
    ensures Potential(c, q') ==
            Potential(c, q) - Weight(c.data[n], q.nodes[n]) + Weight(c.data[n], q'.nodes[n])
  {
    var w := Weights(c, q);
    var w' := Weights(c, q');
    assert w' == w[n := w'[n]];
    SumUpdate(w, n, w'[n]);
  }

  lemma {:induction false} UnparkPotential(c: Config, q: Queue, held: set<nat>)
    requires QInv(c, q, held)
    ensures Potential(c, Unpark(q)) <= Potential(c, q) + 1
  {
    if q.parked != [] {
      var top := q.parked[|q.parked| - 1];
      assert NodeOk(c, q, held, top);
      PotentialAfter(c, q, Unpark(q), top);
    } else {
      assert Unpark(q) == q;
    }
  }

  lemma {:induction false} CompletingPotential(c: Config, q: Queue, held: set<nat>, n: nat)
    requires WellFormed(c) && QInv(c, q, held) && n in held && c.data[n].pass == q.pass
    requires q.nodes[n].progress.Succeeded? || q.nodes[n].progress.UpToDate? || q.nodes[n].progress.Failed?
    ensures |Advance(c, q, n).q.nodes| == |c.data| && Potential(c, Advance(c, q, n).q) == Potential(c, q)
  {
    CompletingSection(c, q, held, n);
    PotentialAfter(c, q, Advance(c, q, n).q, n);
  }

  lemma {:induction false} FinishActionPotential(c: Config, q: Queue, held: set<nat>, n: nat, p: Progress)
    requires QInv(c, q, held) && n in held && q.nodes[n].progress.RunAction? && (p.Succeeded? || p.Failed?)
    ensures |FinishAction(c, q, n, p).nodes| == |c.data| && Potential(c, FinishAction(c, q, n, p)) <= Potential(c, q)
  {
    assert NodeOk(c, q, held, n);
    var q1 := SetProgress(q, n, p);
    PotentialAfter(c, q, q1, n);
    ProgressKeeps(c, q, held, n, q1);
    if c.data[n].expensive {
      UnparkPotential(c, q1, held);
      var q2 := q1.(expensiveRunning := q1.expensiveRunning - 1);
      assert Weights(c, Unpark(q2)) == Weights(c, Unpark(q1));
    }
  }

  // An unpark is paid for by the expensive action that just ended.
  lemma {:induction false} FinishPotential(c: Config, q: Queue, held: set<nat>, n: nat, p: Progress)
    requires WellFormed(c) && QInv(c, q, held) && n in held && c.data[n].pass == q.pass
    requires q.nodes[n].progress.RunAction? && (p.Succeeded? || p.Failed?)
    ensures Shape(c, FinishAction(c, q, n, p))
    ensures var o := Advance(c, FinishAction(c, q, n, p), n);
            |o.q.nodes| == |c.data| && Potential(c, o.q) <= Potential(c, q)
  {
    FinishActionPotential(c, q, held, n, p);
    FinishKeeps(c, q, held, n, p);
    var q' := FinishAction(c, q, n, p);
    assert q'.pass == q.pass;
    CompletingPotential(c, q', held, n);
  }

  // A section never raises the potential, and a pop spends one unit of it.
  lemma {:induction false} PopPotential(c: Config, q: Queue, held: set<nat>)
    requires WellFormed(c) && QInv(c, q, held) && q.ring != []
    ensures Shape(c, Pop(q))
    ensures var o := Advance(c, Pop(q), q.ring[0]);
            |o.q.nodes| == |c.data| && Potential(c, o.q) + 1 <= Potential(c, q)
  {
    var n := q.ring[0];
    assert NodeOk(c, q, held, n);
    PopKeeps(c, q, held);
    var q0 := Pop(q);
    var k := SectionAtPop(c, q0, held + {n}, n);
    var q' := Advance(c, q0, n).q;
    PotentialAfter(c, q, q', n);
  }

  lemma {:induction false} SigningPotential(
    c: Config, q: Queue, held: set<nat>, n: nat, signature: nat, outputsMissing: bool)
    requires WellFormed(c) && QInv(c, q, held) && n in held && c.data[n].pass == q.pass
    requires q.nodes[n].progress.Unblocked?
    ensures var o := AfterSigning(c, q, n, signature, outputsMissing);
            |o.q.nodes| == |c.data| && Potential(c, o.q) <= Potential(c, q)
  {
    assert NodeOk(c, q, held, n);
    var p := Decide(c.data[n], signature, outputsMissing);
    var q1 := q.(nodes := q.nodes[n := q.nodes[n].(signature := signature, progress := p)]);
    ProgressKeeps(c, q, held, n, q1);
    PotentialAfter(c, q, q1, n);
    if p.UpToDate? {
      CompletingPotential(c, q1, held, n);
    } else if c.data[n].emptyAction {
      FinishPotential(c, q1, held, n, Succeeded);
    } else {
      PotentialAfter(c, q1, Advance(c, q1, n).q, n);
    }
  }
}
