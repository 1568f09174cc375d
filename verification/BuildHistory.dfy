/**
 What the history of a run records, and what it can never contain: an action before its dependencies, an action
 twice, a pass before the previous one succeeded, work past the first error, more ring pops than 2N + E.
 */
module BuildHistory {
  import opened BuildQueueModel
  import opened BuildQueueInvariant
  import opened BuildQueueSections
  import opened BuildSystem

  /* ---- Relating the history to the state ---- */

  predicate Started(p: Progress)
  {
    !p.Initial? && !p.Blocked?
  }

  ghost predicate ActsNow(s: State, n: nat)
  {
    exists t :: 0 <= t < |s.threads| && s.threads[t] == Acts(n)
  }

  ghost predicate EventOk(c: Config, s: State, e: Event)
    requires |s.q.nodes| == |c.data|
  {
    match e
    case Popped(n) => n < |c.data|
    case Signing(n) => n < |c.data| && Started(s.q.nodes[n].progress)
    case Decided(n, p) => n < |c.data| && Started(s.q.nodes[n].progress) && !s.q.nodes[n].progress.Unblocked?
    case Acting(n) => n < |c.data| && (Complete(s.q, n) || ActsNow(s, n))
    case Finished(n, sig, ok) =>
      n < |c.data| && Complete(s.q, n) && s.q.nodes[n].signature == sig && s.q.nodes[n].result == if ok then 0 else 1
    case Done(n, r) => n < |c.data| && Complete(s.q, n) && s.q.nodes[n].result == r
    case PassBegun(p) => p <= s.q.pass
  }

  // Why a node stands where it stands.
  ghost predicate NodeLogged(c: Config, s: State, n: nat)
    requires |s.q.nodes| == |c.data| && n < |c.data|
  {
    var x := s.q.nodes[n];
    && (x.progress.Completed? ==>
          && Done(n, x.result) in s.log
          && (Finished(n, x.signature, x.result == 0) in s.log
              || (x.result == 0 && Decided(n, UpToDate) in s.log && Decide(c.data[n], x.signature, false).UpToDate?)))
    && (!x.progress.Completed? ==> x.result == 0)
    && (x.progress.RunAction? ==> Decided(n, RunAction) in s.log)
    && (Decided(n, RunAction) in s.log ==> x.progress.RunAction? || Finished(n, x.signature, x.result == 0) in s.log)
  }

  // Without kFlagContinueOnError, work starts only on top of success.
  ghost predicate Clean(c: Config, q: Queue)
    requires |q.nodes| == |c.data|
  {
    !c.continueOnError ==>
      forall n, d :: 0 <= n < |c.data| && Started(q.nodes[n].progress) && d in c.data[n].deps && d < |c.data| ==>
        Complete(q, d) && q.nodes[d].result == 0
  }

  ghost predicate DoneBefore(c: Config, log: seq<Event>, i: nat, d: nat)
    requires i <= |log|
  {
    exists j :: 0 <= j < i && log[j].Done? && log[j].node == d && (c.continueOnError || log[j].result == 0)
  }

  // Signature checks and actions come after the completion of every dependency.
  ghost predicate OrderedAt(c: Config, log: seq<Event>, i: nat)
    requires i < |log|
  {
    (log[i].Signing? || log[i].Acting?) && log[i].node < |c.data| ==>
      forall d :: d in c.data[log[i].node].deps ==> DoneBefore(c, log, i, d)
  }

  // A pass begins after every node of the earlier passes completed with result 0.
  ghost predicate PassAt(c: Config, log: seq<Event>, i: nat)
    requires i < |log|
  {
    log[i].PassBegun? ==>
      forall n :: 0 <= n < |c.data| && c.data[n].pass < log[i].pass ==> Done(n, 0) in log[..i]
  }

  predicate SameOnce(e: Event, e': Event)
  {
    (e.Signing? && e'.Signing? && e.node == e'.node)
    || (e.Acting? && e'.Acting? && e.node == e'.node)
    || (e.Done? && e'.Done? && e.node == e'.node)
  }

  // Nothing is signed, launched or completed twice.
  ghost predicate Once(log: seq<Event>)
  {
    forall i, j :: 0 <= i < j < |log| ==> !SameOnce(log[i], log[j])
  }

  ghost predicate LogInv(c: Config, s: State)
  {
    && |s.q.nodes| == |c.data|
    && (forall e :: e in s.log ==> EventOk(c, s, e))
    && (forall n :: 0 <= n < |c.data| ==> NodeLogged(c, s, n))
    && Clean(c, s.q)
    && (forall i :: 0 <= i < |s.log| ==> OrderedAt(c, s.log, i) && PassAt(c, s.log, i))
    && Once(s.log)
  }

  /* ---- Growing the history by one event ---- */

  lemma {:induction false} OrderedGrows(c: Config, log: seq<Event>, more: seq<Event>)
    requires forall i :: 0 <= i < |log| ==> OrderedAt(c, log, i) && PassAt(c, log, i)
    requires forall i :: 0 <= i < |more| && (more[i].Signing? || more[i].Acting?) && more[i].node < |c.data| ==>
               forall d :: d in c.data[more[i].node].deps ==> DoneBefore(c, log, |log|, d)
    requires forall i :: 0 <= i < |more| && more[i].PassBegun? ==>
               forall n :: 0 <= n < |c.data| && c.data[n].pass < more[i].pass ==> Done(n, 0) in log
    ensures forall i :: 0 <= i < |log + more| ==> OrderedAt(c, log + more, i) && PassAt(c, log + more, i)
  {
    var log' := log + more;
    forall i | 0 <= i < |log'| ensures OrderedAt(c, log', i) && PassAt(c, log', i) {
      var m := if i < |log| then i else |log|;
      assert forall d :: DoneBefore(c, log, m, d) ==> DoneBefore(c, log', i, d) by {
        forall d | DoneBefore(c, log, m, d) ensures DoneBefore(c, log', i, d) {
          var j :| 0 <= j < m && log[j].Done? && log[j].node == d && (c.continueOnError || log[j].result == 0);
          assert log'[j] == log[j];
        }
      }
      if i < |log| {
        assert OrderedAt(c, log, i) && PassAt(c, log, i);
        assert log'[..i] == log[..i];
      } else {
        assert log'[i] == more[i - |log|];
        assert log <= log'[..i];
      }
    }
  }

  lemma {:induction false} OnceGrows(log: seq<Event>, more: seq<Event>)
    requires Once(log) && Once(more)
    requires forall i, j :: 0 <= i < |log| && 0 <= j < |more| ==> !SameOnce(log[i], more[j])
    ensures Once(log + more)
  {
  }

  /* ---- Sections ---- */

  // One section of kind k on node n, reduced to what the history cares about.
  ghost predicate Delta(c: Config, s: State, s': State, n: nat, k: Kind, more: seq<Event>)
  {
    && |s.q.nodes| == |s'.q.nodes| == |c.data| && n < |c.data| && s'.q.pass == s.q.pass
    && (forall m :: 0 <= m < |c.data| && m != n ==>
          && s'.q.nodes[m].progress == s.q.nodes[m].progress && s'.q.nodes[m].result == s.q.nodes[m].result
          && s'.q.nodes[m].signature == s.q.nodes[m].signature)
    && StartsAt(k, s.q.nodes[n].progress) && s'.q.nodes[n].progress == EndsAt(k)
    && s'.q.nodes[n].result == (if EndsAt(k).Completed? then ResultOf(k) else s.q.nodes[n].result)
    && (s'.q.nodes[n].signature == s.q.nodes[n].signature || s.q.nodes[n].progress.Unblocked?)
    && (k.SignUpToDate? ==> Decide(c.data[n], s'.q.nodes[n].signature, false).UpToDate?)
    && (!k.Block? ==> Ready(c, s.q, n))
    && (k.Sign? && !c.continueOnError ==>
          forall m :: 0 <= m < |c.data| && Complete(s.q, m) ==> s.q.nodes[m].result == 0)
    && (ActsNow(s, n) ==> k.ActionEnd?)
    && (Stops(k).ToAct? ==> ActsNow(s', n))
    && (forall m :: 0 <= m < |c.data| && m != n && ActsNow(s, m) ==> ActsNow(s', m))
    && s'.log == s.log + more
    && (more == EventsOf(k, n, s'.q.nodes[n].signature) || more == [Popped(n)] + EventsOf(k, n, s'.q.nodes[n].signature))
  }

  // A section on node n, which was in hand in q0, gives a delta.
  lemma {:induction false} DeltaOf(c: Config, s: State, s': State, q0: Queue, n: nat, k: Kind, more: seq<Event>)
    requires Section(c, q0, s'.q, n, k) && |s.q.nodes| == |c.data| && s.q.pass == q0.pass
    requires forall m :: 0 <= m < |c.data| ==>
               q0.nodes[m] == s.q.nodes[m].(queued := q0.nodes[m].queued, active := q0.nodes[m].active)
    requires k.Sign? && !c.continueOnError ==>
               forall m :: 0 <= m < |c.data| && Complete(s.q, m) ==> s.q.nodes[m].result == 0
    requires ActsNow(s, n) ==> k.ActionEnd?
    requires Stops(k).ToAct? ==> ActsNow(s', n)
    requires forall m :: 0 <= m < |c.data| && m != n && ActsNow(s, m) ==> ActsNow(s', m)
    requires s'.log == s.log + more
    requires var events := EventsOf(k, n, s'.q.nodes[n].signature); more == events || more == [Popped(n)] + events
    ensures Delta(c, s, s', n, k, more)
  {
    ReadyCongruence(c, s.q, q0);
  }

  lemma {:induction false} SectionDelta(c: Config, s: State, step: Step) returns (k: Kind, more: seq<Event>)
    requires WellFormed(c) && Inv(c, s) && Enabled(c, s, step) && IsSection(c, s, step)
    ensures Delta(c, s, Apply(c, s, step), SectionNode(c, s, step), k, more)
    ensures KindFits(c, s.threads[step.t], SectionNode(c, s, step), k)
    ensures k.SignEmpty? ==> c.data[SectionNode(c, s, step)].emptyAction
    ensures !step.Loop? ==>
              var n := SectionNode(c, s, step); more == EventsOf(k, n, Apply(c, s, step).q.nodes[n].signature)
  {
    var s' := Apply(c, s, step);
    var n := SectionNode(c, s, step);
    var o := SectionOutcome(c, s, step);
    k := SectionOf(c, s, step);
    more := if step.Loop? then [Popped(n)] + o.events else o.events;
    assert s'.log == s.log + more && s'.q == o.q;
    ActingDelta(c, s, step, k);
    DeltaOf(c, s, s', SectionStart(c, s, step), n, k, more);
  }

  // Threads other than t go on with what they do, or wake up.
  ghost predicate OnlyMoves(s: State, s': State, t: nat)
  {
    && t < |s.threads| == |s'.threads|
    && forall u :: 0 <= u < |s.threads| && u != t && !s.threads[u].Asleep? ==> s'.threads[u] == s.threads[u]
  }

  lemma {:induction false} ActsOn(s: State, s': State, t: nat, m: nat)
    requires OnlyMoves(s, s', t) && ActsNow(s, m) && s.threads[t] != Acts(m)
    ensures ActsNow(s', m)
  {
    var u :| 0 <= u < |s.threads| && s.threads[u] == Acts(m);
    assert s'.threads[u] == Acts(m);
  }

  lemma {:induction false} OtherActor(c: Config, s: State, t: nat, n: nat, q0: Queue, o: Outcome, k: Kind)
    requires SectionStep(c, s, t, n, q0, o, k) && ActsNow(s, n)
    ensures s.threads[t] == Acts(n)
  {
    var u :| 0 <= u < |s.threads| && s.threads[u] == Acts(n);
    if u != t {
      OthersUntouched(c, s, t, n, q0, o, k, u);
    }
  }

  lemma {:induction false} ActingDelta(c: Config, s: State, step: Step, k: Kind)
    requires WellFormed(c) && Inv(c, s) && Enabled(c, s, step) && IsSection(c, s, step)
    requires SectionStep(c, s, step.t, SectionNode(c, s, step), SectionStart(c, s, step), SectionOutcome(c, s, step), k)
    ensures var s', n := Apply(c, s, step), SectionNode(c, s, step);
            && (ActsNow(s, n) ==> k.ActionEnd?)
            && (Stops(k).ToAct? ==> ActsNow(s', n))
            && (forall m :: 0 <= m < |c.data| && m != n && ActsNow(s, m) ==> ActsNow(s', m))
  {
    var s', t, n := Apply(c, s, step), step.t, SectionNode(c, s, step);
    if ActsNow(s, n) {
      OtherActor(c, s, t, n, SectionStart(c, s, step), SectionOutcome(c, s, step), k);
    }
    if Stops(k).ToAct? {
      assert s'.threads[t] == Acts(n);
    }
    assert OnlyMoves(s, s', t);
    forall m | 0 <= m < |c.data| && m != n && ActsNow(s, m) ensures ActsNow(s', m) {
      ActsOn(s, s', t, m);
    }
  }

  lemma {:induction false} OldEventOk(c: Config, s: State, s': State, n: nat, k: Kind, more: seq<Event>, e: Event)
    requires Delta(c, s, s', n, k, more) && EventOk(c, s, e)
    ensures EventOk(c, s', e)
    ensures forall j :: 0 <= j < |more| ==> !SameOnce(e, more[j])
  {
  }

  lemma {:induction false} NewEventsOk(c: Config, s: State, s': State, n: nat, k: Kind, more: seq<Event>)
    requires Delta(c, s, s', n, k, more)
    ensures Once(more) && forall i :: 0 <= i < |more| ==> EventOk(c, s', more[i])
  {
  }

  lemma {:induction false} DeltaKeepsEvents(c: Config, s: State, s': State, n: nat, k: Kind, more: seq<Event>)
    requires Delta(c, s, s', n, k, more) && LogInv(c, s)
    ensures forall e :: e in s'.log ==> EventOk(c, s', e)
    ensures Once(s'.log)
  {
    forall e | e in s.log
      ensures EventOk(c, s', e)
      ensures forall j :: 0 <= j < |more| ==> !SameOnce(e, more[j])
    {
      OldEventOk(c, s, s', n, k, more, e);
    }
    NewEventsOk(c, s, s', n, k, more);
    assert forall i :: 0 <= i < |s.log| ==> s.log[i] in s.log;
    OnceGrows(s.log, more);
  }

  lemma {:induction false} DeltaKeepsNodes(c: Config, s: State, s': State, n: nat, k: Kind, more: seq<Event>)
    requires Delta(c, s, s', n, k, more) && LogInv(c, s)
    ensures forall m :: 0 <= m < |c.data| ==> NodeLogged(c, s', m)
  {
    assert forall e :: e in s'.log <==> e in s.log || e in more;
    forall m | 0 <= m < |c.data| && m != n ensures NodeLogged(c, s', m) {
      assert NodeLogged(c, s, m);
      assert Decided(m, RunAction) !in more;
    }
    DeltaLogsNode(c, s, s', n, k, more);
  }

  lemma {:induction false} DeltaLogsNode(c: Config, s: State, s': State, n: nat, k: Kind, more: seq<Event>)
    requires Delta(c, s, s', n, k, more) && LogInv(c, s)
    ensures NodeLogged(c, s', n)
  {
    assert NodeLogged(c, s, n);
    var x := s'.q.nodes[n];
    var events := EventsOf(k, n, x.signature);
    assert forall e :: e in s'.log <==> e in s.log || e in more;
    assert forall i :: 0 <= i < |events| ==> events[i] in more;
    assert Decided(n, RunAction) in s.log ==> EventOk(c, s, Decided(n, RunAction));
    if k.SignEmpty? {
      assert events[1] == Finished(n, x.signature, true) && events[2] == Done(n, 0);
    } else if k.SignUpToDate? {
      assert events[0] == Decided(n, UpToDate) && events[1] == Done(n, 0);
    } else if k.ActionEnd? {
      assert events[0] == Finished(n, x.signature, k.ok) && events[1] == Done(n, if k.ok then 0 else 1);
    } else if k.SignPark? || k.SignLaunch? {
      assert events[0] == Decided(n, RunAction);
    }
  }

  lemma {:induction false} DeltaKeepsClean(c: Config, s: State, s': State, n: nat, k: Kind, more: seq<Event>)
    requires Delta(c, s, s', n, k, more) && Clean(c, s.q)
    ensures Clean(c, s'.q)
    ensures !k.Block? && !c.continueOnError ==>
              forall d :: d in c.data[n].deps && d < |c.data| ==> Complete(s.q, d) && s.q.nodes[d].result == 0
  {
    if !c.continueOnError {
      forall m, d | 0 <= m < |c.data| && Started(s'.q.nodes[m].progress) && d in c.data[m].deps && d < |c.data|
        ensures Complete(s.q, d) && s.q.nodes[d].result == 0
      {
        if m == n && k.Sign? {
          assert Complete(s.q, d);
        } else {
          assert Started(s.q.nodes[m].progress);
        }
      }
    }
  }

  lemma {:induction false} DeltaKeepsOrder(c: Config, s: State, s': State, n: nat, k: Kind, more: seq<Event>)
    requires Delta(c, s, s', n, k, more) && LogInv(c, s)
    ensures forall i :: 0 <= i < |s'.log| ==> OrderedAt(c, s'.log, i) && PassAt(c, s'.log, i)
  {
    DeltaKeepsClean(c, s, s', n, k, more);
    if !k.Block? {
      forall d | d in c.data[n].deps ensures DoneBefore(c, s.log, |s.log|, d) {
        assert d < |c.data| && Complete(s.q, d);
        DoneIsBefore(c, s, n, d);
      }
    }
    OrderedGrows(c, s.log, more);
  }

  lemma {:induction false} DoneIsBefore(c: Config, s: State, n: nat, d: nat)
    requires LogInv(c, s) && n < |c.data| && d in c.data[n].deps && d < |c.data| && Complete(s.q, d)
    requires c.continueOnError || s.q.nodes[d].result == 0
    ensures DoneBefore(c, s.log, |s.log|, d)
  {
    assert NodeLogged(c, s, d);
    var j :| 0 <= j < |s.log| && s.log[j] == Done(d, s.q.nodes[d].result);
  }

  /* ---- The other steps ---- */

  lemma {:induction false} QuietKeepsLog(c: Config, s: State, step: Step)
    requires WellFormed(c) && Inv(c, s) && LogInv(c, s) && Enabled(c, s, step)
    requires !IsSection(c, s, step) && !step.StartPass?
    ensures LogInv(c, Apply(c, s, step))
  {
    var s' := Apply(c, s, step);
    forall m | ActsNow(s, m) ensures ActsNow(s', m) {
      var u :| 0 <= u < |s.threads| && s.threads[u] == Acts(m);
      assert s'.threads[u] == Acts(m);
    }
    forall e | e in s'.log ensures EventOk(c, s', e) {
      assert EventOk(c, s, e);
    }
    forall n | 0 <= n < |c.data| ensures NodeLogged(c, s', n) {
      assert NodeLogged(c, s, n);
    }
  }

  lemma {:induction false} StartPassKeepsLog(c: Config, s: State)
    requires WellFormed(c) && Inv(c, s) && LogInv(c, s) && Enabled(c, s, StartPass)
    ensures LogInv(c, Apply(c, s, StartPass))
  {
    Quiescent(c, s.q, Held(s.threads));
    HeldNodes(s.threads);
    PassBegins(c, s, Apply(c, s, StartPass));
  }

  lemma {:induction false} PassBegins(c: Config, s: State, s': State)
    requires LogInv(c, s) && |s'.q.nodes| == |c.data| && s'.q.pass == s.q.pass + 1
    requires forall n :: 0 <= n < |c.data| ==> s'.q.nodes[n] == s.q.nodes[n].(queued := s'.q.nodes[n].queued)
    requires forall n :: 0 <= n < |c.data| && c.data[n].pass <= s.q.pass ==> Complete(s.q, n) && s.q.nodes[n].result == 0
    requires forall t :: 0 <= t < |s.threads| ==> !Holds(s.threads[t])
    requires 0 <= s'.q.pass && s'.log == s.log + [PassBegun(s'.q.pass)]
    ensures LogInv(c, s')
  {
    var more := [PassBegun(s'.q.pass)];
    forall n | 0 <= n < |c.data| ensures NodeLogged(c, s', n) {
      assert NodeLogged(c, s, n);
    }
    forall e | e in s.log ensures EventOk(c, s', e) {
      assert EventOk(c, s, e);
    }
    forall n | 0 <= n < |c.data| && c.data[n].pass <= s.q.pass ensures Done(n, 0) in s.log {
      assert NodeLogged(c, s, n);
    }
    OrderedGrows(c, s.log, more);
    OnceGrows(s.log, more);
  }

  lemma {:induction false} StepKeepsLog(c: Config, s: State, step: Step)
    requires WellFormed(c) && Inv(c, s) && LogInv(c, s) && Enabled(c, s, step)
    ensures LogInv(c, Apply(c, s, step))
  {
    if IsSection(c, s, step) {
      var s', n := Apply(c, s, step), SectionNode(c, s, step);
      var k, more := SectionDelta(c, s, step);
      DeltaKeepsEvents(c, s, s', n, k, more);
      DeltaKeepsNodes(c, s, s', n, k, more);
      DeltaKeepsClean(c, s, s', n, k, more);
      DeltaKeepsOrder(c, s, s', n, k, more);
    } else if step.StartPass? {
      StartPassKeepsLog(c, s);
    } else {
      QuietKeepsLog(c, s, step);
    }
  }

  lemma {:induction false} RunHistory(c: Config, run: seq<State>, i: nat)
    requires WellFormed(c) && IsRun(c, run) && i < |run|
    ensures Inv(c, run[i]) && LogInv(c, run[i])
  {
    RunInvariant(c, run, i);
    if i > 0 {
      RunHistory(c, run, i - 1);
      assert Next(c, run[i - 1], run[i - 1 + 1]);
      var step :| Enabled(c, run[i - 1], step) && run[i] == Apply(c, run[i - 1], step);
      StepKeepsLog(c, run[i - 1], step);
    }
  }
}
