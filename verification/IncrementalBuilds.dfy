/** Sequences of builds over one database: what a saved success proves, and the one way it can prove nothing. */
module IncrementalBuilds {
  import opened Options
  import opened BuildQueueModel
  import opened BuildQueueInvariant
  import opened BuildSystem
  import opened BuildHistory
  import opened BuildTheorems
  import opened SortedArrays
  import opened StateDatabase

  // One build: the DAG, the selected nodes (local index to DAG index), and the state when all threads have stopped.
  datatype Build = Build(dag: Dag, config: Config, chosen: seq<nat>, final: State)

  function NodesOf(b: Build): seq<Node>
    requires |b.final.q.nodes| == |b.chosen|
  {
    seq(|b.chosen|, n requires 0 <= n < |b.chosen| => Node(b.chosen[n], b.final.q.nodes[n]))
  }

  // A build that read database db and ran to its end: no thread is inside a node any more.
  ghost predicate BuildOk(b: Build, db: seq<Entry>)
  {
    && DagOk(b.dag) && WellFormed(b.config)
    && |b.chosen| == |b.config.data| == |b.final.q.nodes|
    && NodesOk(b.dag, NodesOf(b))
    && (forall n :: 0 <= n < |b.chosen| ==> b.chosen[n] < |b.dag.guids|)
    && (forall n :: 0 <= n < |b.chosen| ==>
          && b.config.data[n].prev == Lookup(db, b.dag.guids[b.chosen[n]])
          && b.config.data[n].outputs == b.dag.outputs[b.chosen[n]])
    && Reachable(b.config, b.final)
    && (forall t :: 0 <= t < |b.final.threads| ==> !Holds(b.final.threads[t]))
  }

  // db' is what SaveBuildState writes after the build.
  ghost predicate Saves(b: Build, db: seq<Entry>, db': seq<Entry>)
    requires BuildOk(b, db)
  {
    StrictlySorted(Guids(db')) && forall g: nat :: Owed(b.dag, NodesOf(b), db, g, Lookup(db', g))
  }

  function GuidOf(b: Build, n: nat): nat
    requires n < |b.chosen| && b.chosen[n] < |b.dag.guids|
  {
    b.dag.guids[b.chosen[n]]
  }

  // No node was abandoned between the decision to rebuild it and its action.
  ghost predicate NoneLeft(b: Build)
  {
    forall n :: 0 <= n < |b.final.q.nodes| ==> !b.final.q.nodes[n].progress.RunAction?
  }

  // The build ran the action of guid g under signature sig, with success (an empty action succeeds at once).
  ghost predicate Executed(b: Build, g: nat, sig: nat)
  {
    exists n :: 0 <= n < |b.chosen| && b.chosen[n] < |b.dag.guids| && b.dag.guids[b.chosen[n]] == g
                && Finished(n, sig, true) in b.final.log
  }

  // Any number of builds, each reading what the previous one saved; the first starts from nothing.
  ghost predicate IsHistory(builds: seq<Build>, dbs: seq<seq<Entry>>)
  {
    && |dbs| == |builds| + 1 && dbs[0] == []
    && forall k :: 0 <= k < |builds| ==> BuildOk(builds[k], dbs[k]) && Saves(builds[k], dbs[k], dbs[k + 1])
  }

  ghost predicate EarnedBefore(builds: seq<Build>, k: nat, g: nat, sig: nat)
    requires k <= |builds|
  {
    exists j :: 0 <= j < k && Executed(builds[j], g, sig)
  }

  // Every success in db was earned by an execution in one of the first k builds.
  ghost predicate Truthful(builds: seq<Build>, k: nat, db: seq<Entry>)
    requires k <= |builds|
  {
    forall g: nat :: Lookup(db, g).Some? && Lookup(db, g).value.result == 0 ==>
      EarnedBefore(builds, k, g, Lookup(db, g).value.signature)
  }

  /* ---- What is saved ---- */

  // A node that was selected: its old record if it never got a signature, otherwise its own outcome and its outputs.
  lemma {:induction false} SavedExactly(b: Build, db: seq<Entry>, db': seq<Entry>, n: nat)
    requires BuildOk(b, db) && Saves(b, db, db') && n < |b.chosen|
    ensures var x, g := b.final.q.nodes[n], GuidOf(b, n);
            Lookup(db', g) ==
            if x.progress.Initial? || x.progress.Blocked? then Lookup(db, g)
            else Some(Record(x.result, x.signature, b.dag.outputs[b.chosen[n]]))
  {
    var nodes, g := NodesOf(b), GuidOf(b, n);
    assert Owed(b.dag, nodes, db, g, Lookup(db', g));
    assert b.dag.guids[nodes[n].dagIndex] == g;
  }

  // A node that was not selected: its old outcome with its outputs in this DAG, if it still exists there.
  lemma {:induction false} SavedElsewhere(b: Build, db: seq<Entry>, db': seq<Entry>, g: nat)
    requires BuildOk(b, db) && Saves(b, db, db') && forall n: nat :: n < |b.chosen| ==> GuidOf(b, n) != g
    ensures Lookup(db', g).Some? <==> Lookup(db, g).Some? && g in b.dag.guids
    ensures forall d :: 0 <= d < |b.dag.guids| && b.dag.guids[d] == g && Lookup(db, g).Some? ==>
              Lookup(db', g) == Some(Record(Lookup(db, g).value.result, Lookup(db, g).value.signature, b.dag.outputs[d]))
  {
    var nodes := NodesOf(b);
    assert Owed(b.dag, nodes, db, g, Lookup(db', g));
    forall i: nat | i < |nodes| ensures b.dag.guids[nodes[i].dagIndex] != g {
      assert GuidOf(b, i) != g;
    }
    if g in b.dag.guids {
      var d :| 0 <= d < |b.dag.guids| && b.dag.guids[d] == g;
    }
  }

  // How a node can stand once the threads are gone.
  lemma {:induction false} FinalStates(b: Build, db: seq<Entry>, n: nat)
    requires BuildOk(b, db) && n < |b.chosen|
    ensures Inv(b.config, b.final) && LogInv(b.config, b.final) && NodeLogged(b.config, b.final, n)
    ensures Early(b.final.q.nodes[n].progress) || b.final.q.nodes[n].progress.RunAction? || Complete(b.final.q, n)
  {
    ReachableInv(b.config, b.final);
    assert Held(b.final.threads) == {};
    assert NodeOk(b.config, b.final.q, {}, n);
  }

  // A fresh success was executed now or inherits an old success under the same signature.
  lemma {:induction false} FreshSuccess(b: Build, db: seq<Entry>, n: nat)
    requires BuildOk(b, db) && n < |b.chosen| && Complete(b.final.q, n) && b.final.q.nodes[n].result == 0
    ensures var g, sig := b.dag.guids[b.chosen[n]], b.final.q.nodes[n].signature;
            Executed(b, g, sig)
            || (Lookup(db, g).Some? && Lookup(db, g).value.result == 0 && Lookup(db, g).value.signature == sig)
  {
    FinalStates(b, db, n);
    assert b.config.data[n].prev == Lookup(db, b.dag.guids[b.chosen[n]]);
  }

  /* ---- When the database stays truthful ---- */

  // Every node that build k abandons between decision and action had been executed before under the very signature
  // that is now saved for it.
  ghost predicate LeftEarned(builds: seq<Build>, k: nat)
    requires k < |builds|
  {
    var b := builds[k];
    forall n: nat ::
      n < |b.chosen| == |b.final.q.nodes| && b.chosen[n] < |b.dag.guids| && b.final.q.nodes[n].progress.RunAction? ==>
        EarnedBefore(builds, k, GuidOf(b, n), b.final.q.nodes[n].signature)
  }

  // An abandoned node is saved as a success under its new signature, and this build did not execute it.
  lemma {:induction false} LeftRecord(b: Build, db: seq<Entry>, db': seq<Entry>, n: nat)
    requires BuildOk(b, db) && Saves(b, db, db') && n < |b.chosen| && b.final.q.nodes[n].progress.RunAction?
    ensures var r := Lookup(db', GuidOf(b, n));
            r.Some? && r.value.result == 0 && r.value.signature == b.final.q.nodes[n].signature
    ensures !Executed(b, GuidOf(b, n), b.final.q.nodes[n].signature)
  {
    var nodes, g := NodesOf(b), GuidOf(b, n);
    FinalStates(b, db, n);
    assert Owed(b.dag, nodes, db, g, Lookup(db', g));
    assert b.dag.guids[nodes[n].dagIndex] == g;
    NotExecuted(b, db, n);
  }

  lemma {:induction false} NotExecuted(b: Build, db: seq<Entry>, n: nat)
    requires BuildOk(b, db) && n < |b.chosen| && b.final.q.nodes[n].progress.RunAction?
    ensures forall sig: nat :: !Executed(b, GuidOf(b, n), sig)
  {
    FinalStates(b, db, n);
    forall sig: nat, m: nat | m < |b.chosen| && GuidOf(b, m) == GuidOf(b, n)
      ensures Finished(m, sig, true) !in b.final.log
    {
      assert NodesOf(b)[m].dagIndex == NodesOf(b)[n].dagIndex;
      assert m == n;
      var e := Finished(m, sig, true);
      assert e in b.final.log ==> EventOk(b.config, b.final, e);
    }
  }

  // A key's new record is truthful unless it comes from an abandoned node.
  lemma {:induction false} RecordEarned(builds: seq<Build>, k: nat, db: seq<Entry>, db': seq<Entry>, g: nat)
    requires k < |builds| && BuildOk(builds[k], db) && Saves(builds[k], db, db')
    requires Truthful(builds, k, db) && LeftEarned(builds, k)
    requires Lookup(db', g).Some? && Lookup(db', g).value.result == 0
    ensures EarnedBefore(builds, k + 1, g, Lookup(db', g).value.signature)
  {
    var b := builds[k];
    var nodes, sig := NodesOf(b), Lookup(db', g).value.signature;
    assert Owed(b.dag, nodes, db, g, Lookup(db', g));
    if i :| 0 <= i < |nodes| && b.dag.guids[nodes[i].dagIndex] == g {
      FinalStates(b, db, i);
      if b.final.q.nodes[i].progress.RunAction? {
        LeftRecord(b, db, db', i);
        assert EarnedBefore(builds, k, GuidOf(b, i), b.final.q.nodes[i].signature);
      } else if !Early(nodes[i].state.progress) {
        FreshSuccess(b, db, i);
      }
    }
    EarnedLater(builds, k, g, sig);
  }

  lemma {:induction false} EarnedLater(builds: seq<Build>, k: nat, g: nat, sig: nat)
    requires k < |builds|
    ensures EarnedBefore(builds, k + 1, g, sig) <==> EarnedBefore(builds, k, g, sig) || Executed(builds[k], g, sig)
  {
  }

  // One build keeps the database truthful exactly when each node it abandons had earned its record before.
  lemma {:induction false} TruthExact(builds: seq<Build>, k: nat, db: seq<Entry>, db': seq<Entry>)
    requires k < |builds| && BuildOk(builds[k], db) && Saves(builds[k], db, db') && Truthful(builds, k, db)
    ensures Truthful(builds, k + 1, db') <==> LeftEarned(builds, k)
  {
    var b := builds[k];
    if LeftEarned(builds, k) {
      forall g: nat | Lookup(db', g).Some? && Lookup(db', g).value.result == 0
        ensures EarnedBefore(builds, k + 1, g, Lookup(db', g).value.signature)
      {
        RecordEarned(builds, k, db, db', g);
      }
    }
    if Truthful(builds, k + 1, db') {
      forall n: nat | n < |b.chosen| && b.final.q.nodes[n].progress.RunAction?
        ensures EarnedBefore(builds, k, GuidOf(b, n), b.final.q.nodes[n].signature)
      {
        LeftRecord(b, db, db', n);
        EarnedLater(builds, k, GuidOf(b, n), b.final.q.nodes[n].signature);
      }
    }
  }

  ghost predicate AllTruthful(builds: seq<Build>, dbs: seq<seq<Entry>>, n: nat)
    requires n <= |builds| && n < |dbs|
  {
    forall k :: 0 <= k <= n ==> Truthful(builds, k, dbs[k])
  }

  ghost predicate AllLeftEarned(builds: seq<Build>, n: nat)
    requires n <= |builds|
  {
    forall k :: 0 <= k < n ==> LeftEarned(builds, k)
  }

  lemma {:induction false} HistoryStep(builds: seq<Build>, dbs: seq<seq<Entry>>, k: nat)
    requires IsHistory(builds, dbs) && k < |builds|
    ensures BuildOk(builds[k], dbs[k]) && Saves(builds[k], dbs[k], dbs[k + 1]) && StrictlySorted(Guids(dbs[k + 1]))
    ensures Truthful(builds, k, dbs[k]) ==> (Truthful(builds, k + 1, dbs[k + 1]) <==> LeftEarned(builds, k))
  {
    if Truthful(builds, k, dbs[k]) {
      TruthExact(builds, k, dbs[k], dbs[k + 1]);
    }
  }

  // Over any sequence of builds: all saved databases are truthful exactly when no build abandons a node that had not
  // earned its record before. Every saved key array is strictly sorted, so the next build can search it.
  lemma {:induction false} HistoryExact(builds: seq<Build>, dbs: seq<seq<Entry>>, n: nat)
    requires IsHistory(builds, dbs) && n <= |builds|
    ensures StrictlySorted(Guids(dbs[n]))
    ensures AllTruthful(builds, dbs, n) <==> AllLeftEarned(builds, n)
  {
    if n == 0 {
      HistoryStart(builds, dbs);
    } else {
      HistoryExact(builds, dbs, n - 1);
      HistoryStep(builds, dbs, n - 1);
      OneMore(builds, dbs, n - 1);
    }
  }

  lemma {:induction false} HistoryStart(builds: seq<Build>, dbs: seq<seq<Entry>>)
    requires |dbs| > 0 && dbs[0] == []
    ensures StrictlySorted(Guids(dbs[0])) && AllTruthful(builds, dbs, 0) && AllLeftEarned(builds, 0)
  {
  }

  lemma {:induction false} OneMore(builds: seq<Build>, dbs: seq<seq<Entry>>, n: nat)
    requires n + 1 <= |builds| && n + 1 < |dbs|
    ensures AllTruthful(builds, dbs, n + 1) <==> AllTruthful(builds, dbs, n) && Truthful(builds, n + 1, dbs[n + 1])
    ensures AllLeftEarned(builds, n + 1) <==> AllLeftEarned(builds, n) && LeftEarned(builds, n)
    ensures AllTruthful(builds, dbs, n) ==> Truthful(builds, n, dbs[n])
  {
  }

  // For the first build, nothing was earned before: it must abandon nothing.
  lemma {:induction false} FirstBuildExact(builds: seq<Build>, db': seq<Entry>)
    requires |builds| > 0 && BuildOk(builds[0], []) && Saves(builds[0], [], db')
    ensures Truthful(builds, 1, db') <==> NoneLeft(builds[0])
  {
    var b := builds[0];
    TruthExact(builds, 0, [], db');
    forall n: nat | n < |b.final.q.nodes| && b.final.q.nodes[n].progress.RunAction?
      ensures !LeftEarned(builds, 0)
    {
      assert !EarnedBefore(builds, 0, GuidOf(b, n), b.final.q.nodes[n].signature);
    }
  }

  // If no build abandons a node, a saved record with result 0 proves that some build executed that node's action
  // successfully under the saved signature.
  lemma {:induction false} IncrementalSoundness(builds: seq<Build>, dbs: seq<seq<Entry>>, k: nat)
    requires IsHistory(builds, dbs) && k <= |builds|
    requires forall j :: 0 <= j < k ==> NoneLeft(builds[j])
    ensures StrictlySorted(Guids(dbs[k])) && Truthful(builds, k, dbs[k])
  {
    HistoryExact(builds, dbs, k);
    assert AllLeftEarned(builds, k);
    assert AllTruthful(builds, dbs, k);
  }
}
