/**
 The law of the null build: what succeeded in one build and is found unchanged by the next is not run again, and its
 record stays as it is. Nothing is assumed about the schedule or about other nodes.
 */
module NullBuilds {
  import opened Options
  import opened BuildQueueModel
  import opened BuildSystem
  import opened BuildHistory
  import opened StateDatabase
  import opened IncrementalBuilds
  import opened BuildOutcomes

  // The node of build b with number n completed with result 0 and was saved to db'.
  ghost predicate SavedSuccess(b: Build, db: seq<Entry>, db': seq<Entry>, n: nat)
  {
    && BuildOk(b, db) && Saves(b, db, db') && n < |b.chosen|
    && Complete(b.final.q, n) && b.final.q.nodes[n].result == 0
  }

  // Node m of the next build b' is node n of build b, with the same outputs.
  ghost predicate SameNode(b: Build, n: nat, b': Build, m: nat, db': seq<Entry>)
  {
    && BuildOk(b', db') && m < |b'.chosen| && n < |b.chosen| && b.chosen[n] < |b.dag.guids| == |b.dag.outputs|
    && GuidOf(b', m) == GuidOf(b, n) && b'.dag.outputs[b'.chosen[m]] == b.dag.outputs[b.chosen[n]]
  }

  // The next build finds the success, under its signature and with the node's own outputs.
  lemma {:induction false} SuccessFound(b: Build, db: seq<Entry>, db': seq<Entry>, n: nat, b': Build, m: nat)
    requires SavedSuccess(b, db, db', n) && SameNode(b, n, b', m, db')
    ensures b'.config.data[m].prev == Some(Record(0, b.final.q.nodes[n].signature, b'.config.data[m].outputs))
  {
    SavedExactly(b, db, db', n);
  }

  // If the next build computes the same signature and misses no output, it decides that the node is up to date; in
  // every other case it decides to run it.
  lemma {:induction false} NullDecision(
    b: Build, db: seq<Entry>, db': seq<Entry>, n: nat, b': Build, m: nat, signature: nat, outputsMissing: bool)
    requires SavedSuccess(b, db, db', n) && SameNode(b, n, b', m, db')
    ensures Decide(b'.config.data[m], signature, outputsMissing) ==
            if signature == b.final.q.nodes[n].signature && !outputsMissing then UpToDate else RunAction
  {
    SuccessFound(b, db, db', n, b', m);
    UpToDateExact(b'.config.data[m], signature, outputsMissing);
  }

  // Over a whole run of the next build: the node's action is never launched, and its record is saved unchanged.
  lemma {:induction false} NullBuild(
    b: Build, db: seq<Entry>, db': seq<Entry>, n: nat, b': Build, m: nat, db'': seq<Entry>, run: seq<State>)
    requires SavedSuccess(b, db, db', n) && SameNode(b, n, b', m, db') && Saves(b', db', db'')
    requires IsReportingRun(b'.config, run, m, b.final.q.nodes[n].signature) && run[|run| - 1] == b'.final
    ensures forall e :: e in b'.final.log && (e.Acting? || e.Finished?) ==> e.node != m
    ensures Lookup(db'', GuidOf(b', m)) == Lookup(db', GuidOf(b', m))
            == Some(Record(0, b.final.q.nodes[n].signature, b.dag.outputs[b.chosen[n]]))
  {
    SuccessFound(b, db, db', n, b', m);
    SparedRun(b'.config, run, m, b.final.q.nodes[n].signature, |run| - 1);
    SavedExactly(b, db, db', n);
    SavedExactly(b', db', db'', m);
    FinalStates(b', db', m);
  }

  // Every node is found as the old build left it.
  ghost predicate NothingChanged(c: Config, run: seq<State>, signatures: seq<nat>)
    requires WellFormed(c)
  {
    |signatures| == |c.data| &&
    forall n: nat :: n < |c.data| ==> Unchanged(c.data[n], signatures[n]) && IsReportingRun(c, run, n, signatures[n])
  }

  // Then the build launches nothing and completes nodes with result 0 only.
  lemma {:induction false} NothingRuns(c: Config, run: seq<State>, signatures: seq<nat>, i: nat)
    requires WellFormed(c) && IsRun(c, run) && NothingChanged(c, run, signatures) && i < |run|
    ensures forall e :: e in run[i].log ==> !e.Acting? && !e.Finished?
    ensures |run[i].q.nodes| == |c.data|
    ensures forall n :: 0 <= n < |c.data| && Complete(run[i].q, n) ==> run[i].q.nodes[n].result == 0
  {
    RunHistory(c, run, i);
    forall n: nat | n < |c.data| ensures Spared(c, run[i], n, signatures[n]) {
      SparedRun(c, run, n, signatures[n], i);
    }
    forall e | e in run[i].log ensures !e.Acting? && !e.Finished? {
      assert EventOk(c, run[i], e);
      assert forall n: nat :: n < |c.data| ==> Spared(c, run[i], n, signatures[n]);
    }
    forall n | 0 <= n < |c.data| && Complete(run[i].q, n) ensures run[i].q.nodes[n].result == 0 {
      assert Spared(c, run[i], n, signatures[n]);
    }
  }
}
