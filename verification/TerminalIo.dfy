/** The globals of src/TerminalIo.cpp and the code that runs under its lock, against the specification above them. */
module TerminalIo {
  import opened Options
  import opened Sequences
  import opened TerminalBuffers
  import opened TerminalEmit

  // qsort: in order whenever the comparison is consistent.
  method QSort(compare: (Piece, Piece) -> int, ps: seq<Piece>) returns (out: seq<Piece>)
    ensures QSorted(compare, multiset(ps), out)
  {
    out := [];
    for k := 0 to |ps|
      invariant multiset(out) == multiset(ps[..k])
      invariant Consistent(compare, multiset(ps)) ==> Ordered(compare, out)
    {
      assert ps[..k + 1] == ps[..k] + [ps[k]];
      forall i | 0 <= i < |out| ensures out[i] in multiset(ps) {
        assert out[i] in multiset(out);
      }
      out := Insert(compare, multiset(ps), out, ps[k]);
    }
    assert ps[..|ps|] == ps;
  }

  method Insert(compare: (Piece, Piece) -> int, ghost all: multiset<Piece>, sorted: seq<Piece>, p: Piece)
    returns (out: seq<Piece>)
    requires p in all && forall i :: 0 <= i < |sorted| ==> sorted[i] in all
    ensures multiset(out) == multiset(sorted) + multiset{p}
    ensures Consistent(compare, all) && Ordered(compare, sorted) ==> Ordered(compare, out)
  {
    var at := |sorted|;
    while at > 0 && compare(sorted[at - 1], p) > 0
      invariant 0 <= at <= |sorted|
      invariant forall i :: at <= i < |sorted| ==> compare(sorted[i], p) > 0
    {
      at := at - 1;
    }
    out := Inserted(sorted, p, at);
    if Consistent(compare, all) && Ordered(compare, sorted) {
      BeforeAndAfter(compare, all, sorted, p, at);
      InsertedInOrder(compare, sorted, p, at);
    }
  }

  function Inserted(sorted: seq<Piece>, p: Piece, at: nat): (r: seq<Piece>)
    requires at <= |sorted|
    ensures multiset(r) == multiset(sorted) + multiset{p}
    ensures |r| == |sorted| + 1 && r[at] == p
    ensures forall i :: 0 <= i < at ==> r[i] == sorted[i]
    ensures forall i :: at < i < |r| ==> r[i] == sorted[i - 1]
  {
    assert sorted == sorted[..at] + sorted[at..];
    sorted[..at] + [p] + sorted[at..]
  }

  lemma {:induction false} BeforeAndAfter(
    compare: (Piece, Piece) -> int, all: multiset<Piece>, sorted: seq<Piece>, p: Piece, at: nat)
    requires p in all && (forall i :: 0 <= i < |sorted| ==> sorted[i] in all)
    requires Consistent(compare, all) && Ordered(compare, sorted) && at <= |sorted|
    requires at > 0 ==> compare(sorted[at - 1], p) <= 0
    requires forall i :: at <= i < |sorted| ==> compare(sorted[i], p) > 0
    ensures forall i :: 0 <= i < at ==> compare(sorted[i], p) <= 0
    ensures forall i :: at <= i < |sorted| ==> compare(p, sorted[i]) <= 0
  {
    forall i | 0 <= i < at ensures compare(sorted[i], p) <= 0 {
      if i < at - 1 {
        assert compare(sorted[i], sorted[at - 1]) <= 0;
      }
    }
  }

  lemma {:induction false} InsertedInOrder(compare: (Piece, Piece) -> int, sorted: seq<Piece>, p: Piece, at: nat)
    requires Ordered(compare, sorted) && at <= |sorted|
    requires forall i :: 0 <= i < at ==> compare(sorted[i], p) <= 0
    requires forall i :: at <= i < |sorted| ==> compare(p, sorted[i]) <= 0
    ensures Ordered(compare, Inserted(sorted, p, at))
  {
    var out := Inserted(sorted, p, at);
    forall i, j | 0 <= i < j < |out| ensures compare(out[i], out[j]) <= 0 {
      if j < at {
        assert out[i] == sorted[i] && out[j] == sorted[j];
      } else if j == at {
        assert out[i] == sorted[i];
      } else if i == at {
        assert out[j] == sorted[j - 1];
      } else {
        assert out[j] == sorted[j - 1];
        assert out[i] == if i < at then sorted[i] else sorted[i - 1];
      }
    }
  }

  // The queued buffers of one job, in queue order.
  lemma {:induction false} MineNext(queued: seq<nat>, bufs: seq<Piece>, job: nat, i: nat)
    requires Below(queued, |bufs|) && i < |queued|
    ensures Mine(queued[..i + 1], bufs, job)
            == Mine(queued[..i], bufs, job) + if bufs[queued[i]].job == job then multiset{bufs[queued[i]]} else multiset{}
  {
    assert queued[..i + 1][..i] == queued[..i];
  }

  // The same outcome, whatever was made on the way.
  ghost predicate SameEnd(goal: Section, e: Section)
  {
    goal.tty == e.tty && goal.rest == e.rest && goal.flushed == e.flushed && goal.stop == e.stop
    && (e.stop.Waits? ==> goal.buf == e.buf)
  }

  lemma {:induction false} ChunkStep(t: Tty, job: nat, key: int, toStderr: bool, data: string)
    requires PoolOk(t) && InBounds(t, None) && !MayTake(t, job) && data != "" && t.free != []
    ensures var p, b := Piece(job, key, toStderr, Chunk(data)), t.free[|t.free| - 1];
            var t' := Hold(t, p);
            && PoolOk(t') && InBounds(t', Some(b)) && !MayTake(t', job)
            && SameEnd(EmitSection(t, job, key, toStderr, data, None),
                       EmitSection(t', job, key, toStderr, data[|p.data|..], Some(b)))
  {
    var p := Piece(job, key, toStderr, Chunk(data));
    HoldKeeps(t, p, job);
    PoolFacts(Hold(t, p));
  }

  // Without the terminal, `buf` is overwritten before it is used.
  lemma {:induction false} AnyBuffer(t: Tty, job: nat, key: int, toStderr: bool, data: string, buf: Option<nat>)
    requires InBounds(t, buf) && !MayTake(t, job) && data != ""
    ensures EmitSection(t, job, key, toStderr, data, buf) == EmitSection(t, job, key, toStderr, data, None)
  {
  }

  class Terminal {
    const free: array<nat>        // s_FreeLinebufs
    const queued: array<nat>      // s_QueuedLinebufs
    const bufs: array<Piece>      // s_Linebufs
    var freeCount: nat
    var queuedCount: nat
    var owner: int                // s_PrintingJobIndex
    var output: seq<Piece>        // the calls of write so far

    ghost predicate Layout()
      reads this
    {
      && free != queued && free.Length == queued.Length == bufs.Length == BUFFER_COUNT
      && freeCount <= BUFFER_COUNT && queuedCount <= BUFFER_COUNT
    }

    ghost predicate Valid()
      reads this, free, queued, bufs
    {
      Layout() && PoolOk(View())
    }

    ghost function View(): Tty
      requires freeCount <= free.Length && queuedCount <= queued.Length
      reads this, free, queued, bufs
    {
      Tty(free[..freeCount], queued[..queuedCount], bufs[..], owner)
    }

    // TerminalIoInit
    constructor ()
      ensures Valid() && fresh(free) && fresh(queued) && fresh(bufs)
      ensures View().free == seq(BUFFER_COUNT, i requires 0 <= i < BUFFER_COUNT => i) && View().queued == []
      ensures owner == -1 && output == []
    {
      free := new nat[BUFFER_COUNT](i => i);
      queued := new nat[BUFFER_COUNT](_ => 0);
      bufs := new Piece[BUFFER_COUNT](_ => Piece(0, 0, false, ""));
      freeCount, queuedCount, owner, output := BUFFER_COUNT, 0, -1, [];
      new;
      assert free[..freeCount] + queued[..queuedCount] == free[..freeCount];
    }

    // The first loop of FlushOutputQueue.
    method Collect(job: nat) returns (ps: seq<Piece>)
      requires Valid()
      ensures Below(View().queued, |View().bufs|) && multiset(ps) == Mine(View().queued, View().bufs, job)
    {
      ps := [];
      PoolFacts(View());
      ghost var q, b := View().queued, View().bufs;
      for i := 0 to queuedCount
        invariant multiset(ps) == Mine(q[..i], b, job)
      {
        MineNext(q, b, job, i);
        assert q[i] == queued[i] < |b| && b[q[i]] == bufs[queued[i]];
        if bufs[queued[i]].job == job {
          AppendElement(ps, bufs[queued[i]]);
          ps := ps + [bufs[queued[i]]];
        }
      }
      assert q[..queuedCount] == q;
    }

    // One move of the compaction loop.
    method ReleaseSlot(i: nat)
      requires Valid() && i < queuedCount
      modifies this`freeCount, this`queuedCount, free, queued
      ensures Valid() && View() == Release(old(View()), i)
    {
      ghost var t := View();
      PoolFacts(t);
      ReleaseKeeps(t, i);
      var b := queued[i];
      queuedCount := queuedCount - 1;
      queued[i] := queued[queuedCount];
      free[freeCount] := b;
      freeCount := freeCount + 1;
      assert View().free == t.free + [t.queued[i]];
      assert View().queued == Release(t, i).queued;
    }

    // The compaction loop of FlushOutputQueue.
    method CompactQueue(job: nat)
      requires Valid()
      modifies this`freeCount, this`queuedCount, free, queued
      ensures Valid() && owner == old(owner)
      ensures Below(old(View()).queued, |old(View()).bufs|)
      ensures View() == Compact(old(View()), job, 0)
    {
      ghost var t := View();
      var i := 0;
      PoolFacts(t);
      while i < queuedCount
        invariant Valid() && Below(View().queued, |View().bufs|)
        invariant Compact(View(), job, i) == Compact(t, job, 0)
        invariant owner == old(owner)
        decreases queuedCount - i
      {
        PoolFacts(View());
        assert View().queued[i] == queued[i];
        if bufs[queued[i]].job == job {
          ReleaseSlot(i);
          PoolFacts(View());
        } else {
          i := i + 1;
        }
      }
    }

    // FlushOutputQueue: the job's buffers are written, in some permitted qsort order, and given back.
    method FlushOutputQueue(job: nat)
      requires Valid()
      modifies this`freeCount, this`queuedCount, this`output, free, queued
      ensures Valid() && owner == old(owner)
      ensures Below(old(View()).queued, |old(View()).bufs|)
      ensures View() == Compact(old(View()), job, 0)
      ensures exists sorted ::
                SortedFrom(Mine(old(View()).queued, old(View()).bufs, job), sorted) && output == old(output) + sorted
    {
      var mine := Collect(job);
      var sorted := QSort(CompareBuffers, mine);
      output := output + sorted;
      CompactQueue(job);
    }

    // AllocLineBuffer: None is the null pointer. The buffer is then in neither list.
    method AllocLineBuffer() returns (buf: Option<nat>)
      requires Valid()
      modifies this`freeCount
      ensures Layout() && owner == old(owner) && output == old(output)
      ensures buf.None? <==> old(View()).free == []
      ensures buf.None? ==> View() == old(View())
      ensures buf.Some? ==> View() == Allocated(old(View())) && buf.value == old(View()).free[|old(View()).free| - 1]
    {
      if freeCount == 0 {
        return None;
      }
      freeCount := freeCount - 1;
      assert free[..freeCount] == old(free[..freeCount])[..freeCount];
      return Some(free[freeCount]);
    }

    // The buffer is filled and becomes the last of the queue.
    method QueueBuffer(b: nat, p: Piece)
      requires Layout() && b < BUFFER_COUNT && queuedCount < BUFFER_COUNT
      modifies this`queuedCount, queued, bufs
      ensures Layout() && View() == Queued(old(View()), b, p) && owner == old(owner) && output == old(output)
    {
      ghost var t := View();
      bufs[b] := p;
      queued[queuedCount] := b;
      queuedCount := queuedCount + 1;
      assert View().free == t.free && View().queued == t.queued + [b] && View().bufs == t.bufs[b := p];
    }

    // What a turn of the loop leaves to do.
    ghost predicate Continues(goal: Section, job: nat, key: int, toStderr: bool, rest: string, buf: Option<nat>)
      reads this, free, queued, bufs
    {
      && Valid() && InBounds(View(), buf) && (buf.Some? ==> !MayTake(View(), job))
      && SameEnd(goal, EmitSection(View(), job, key, toStderr, rest, buf))
    }

    // The chunk of a job without the terminal: a fresh buffer is taken, filled and queued.
    method BufferChunk(job: nat, key: int, toStderr: bool, rest: string, ghost goal: Section)
      returns (buf: Option<nat>, len: nat)
      requires rest != "" && Continues(goal, job, key, toStderr, rest, None) && !MayTake(View(), job)
      modifies this`freeCount, this`queuedCount, queued, bufs
      ensures owner == old(owner) && output == old(output)
      ensures buf.None? ==>
                Valid() && View() == goal.tty && goal.stop.Waits? && goal.rest == rest && goal.buf.None? && goal.flushed.None?
      ensures buf.Some? ==> 0 < len <= |rest| && Continues(goal, job, key, toStderr, rest[len..], buf)
    {
      ghost var t := View();
      PoolFacts(t);
      len := 0;
      buf := AllocLineBuffer();
      if buf.Some? {
        len := if |rest| > 8191 then 8191 else |rest|;
        QueueBuffer(buf.value, Piece(job, key, toStderr, rest[..len]));
        ChunkStep(t, job, key, toStderr, rest);
      }
    }

    // TerminalIoEmit from one lock acquisition to the next release.
    method EmitLocked(job: nat, key: int, toStderr: bool, data: string, buf0: Option<nat>)
      returns (rest: string, buf: Option<nat>, stop: Stop)
      requires Valid() && InBounds(View(), buf0) && (buf0.Some? ==> !MayTake(View(), job))
      modifies this, free, queued, bufs
      ensures Valid()
      ensures var e := EmitSection(old(View()), job, key, toStderr, data, buf0);
              && View() == e.tty && rest == e.rest && stop == e.stop && (stop.Waits? || stop.Writes? ==> buf.None?)
              && (e.flushed.None? ==> output == old(output))
              && (e.flushed.Some? ==>
                    exists sorted :: SortedFrom(e.flushed.value, sorted) && output == old(output) + sorted)
    {
      rest, buf := data, buf0;
      ghost var goal := EmitSection(View(), job, key, toStderr, data, buf0);
      while rest != ""
        invariant Continues(goal, job, key, toStderr, rest, buf) && output == old(output) && owner == old(owner)
        decreases |rest|
      {
        if owner != -1 && owner != job {
          AnyBuffer(View(), job, key, toStderr, rest, buf);
          var len;
          buf, len := BufferChunk(job, key, toStderr, rest, goal);
          if buf.None? {
            return rest, buf, Waits;
          }
          rest := rest[len..];
        } else {
          if owner == -1 {
            owner := job;
            FlushOutputQueue(job);
          }
          // The source tests `buf` here: it is null, so the data is not queued into a buffer used before.
          assert buf.None?;
          return rest, buf, Writes;
        }
      }
      return rest, buf, Finished;
    }

    // TerminalIoJobExit from one lock acquisition to the next release.
    method JobExitLocked(job: nat) returns (exited: bool)
      requires Valid()
      modifies this, free, queued
      ensures Valid() && Below(old(View()).queued, |old(View()).bufs|)
      ensures exited == (old(owner) == -1 || old(owner) == job)
      ensures !exited ==> View() == old(View()) && output == old(output)
      ensures exited ==>
                && View() == Compact(old(View()).(owner := job), job, 0).(owner := -1)
                && exists sorted :: SortedFrom(Mine(old(View()).queued, old(View()).bufs, job), sorted)
                                    && output == old(output) + sorted
    {
      PoolFacts(View());
      exited := owner == -1 || owner == job;
      if exited {
        owner := job;
        FlushOutputQueue(job);
        owner := -1;
      }
    }
  }
}
