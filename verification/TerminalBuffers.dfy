/**
 The line buffers of src/TerminalIo.cpp: a pool of 64 buffers, each free or queued, and the operations on them that run
 while the line lock is held. Write results are ignored, as in the source.
 */
module TerminalBuffers {
  import opened Sequences
  import opened Arithmetic

  const BUFFER_COUNT: nat := 64
  const BUFFER_ROOM: nat := 8191     // kLineBufSize less the terminating zero

  // A run of bytes for one descriptor: the contents of a LineBuffer, or of one call of write.
  datatype Piece = Piece(job: nat, key: int, toStderr: bool, data: string)

  // owner is the job that holds the terminal, or -1.
  datatype Tty = Tty(free: seq<nat>, queued: seq<nat>, bufs: seq<Piece>, owner: int)

  // No buffer is lost, in both lists, or listed twice.
  ghost predicate PoolOk(t: Tty)
  {
    |t.bufs| == BUFFER_COUNT && IsPermutation(t.free + t.queued, BUFFER_COUNT)
  }

  lemma {:induction false} PoolFacts(t: Tty)
    requires PoolOk(t)
    ensures |t.free| + |t.queued| == BUFFER_COUNT
    ensures Below(t.free, BUFFER_COUNT) && Below(t.queued, BUFFER_COUNT)
    ensures Distinct(t.free) && Distinct(t.queued)
    ensures forall i, j :: 0 <= i < |t.free| && 0 <= j < |t.queued| ==> t.free[i] != t.queued[j]
  {
    var all := t.free + t.queued;
    assert forall i :: 0 <= i < |t.free| ==> t.free[i] == all[i];
    assert forall j :: 0 <= j < |t.queued| ==> t.queued[j] == all[|t.free| + j];
  }

  lemma {:induction false} PoolFromParts(t: Tty)
    requires |t.bufs| == BUFFER_COUNT && |t.free| + |t.queued| == BUFFER_COUNT
    requires Below(t.free, BUFFER_COUNT) && Below(t.queued, BUFFER_COUNT)
    requires Distinct(t.free) && Distinct(t.queued)
    requires forall i, j :: 0 <= i < |t.free| && 0 <= j < |t.queued| ==> t.free[i] != t.queued[j]
    ensures PoolOk(t)
  {
  }

  /* ---- The pieces a job has queued ---- */

  ghost function Mine(queued: seq<nat>, bufs: seq<Piece>, job: nat): multiset<Piece>
    requires Below(queued, |bufs|)
  {
    if queued == [] then multiset{}
    else
      var n := |queued| - 1;
      Mine(queued[..n], bufs, job) + if bufs[queued[n]].job == job then multiset{bufs[queued[n]]} else multiset{}
  }

  lemma {:induction false} MineAppend(queued: seq<nat>, b: nat, bufs: seq<Piece>, job: nat)
    requires Below(queued, |bufs|) && b < |bufs|
    ensures Mine(queued + [b], bufs, job)
            == Mine(queued, bufs, job) + if bufs[b].job == job then multiset{bufs[b]} else multiset{}
  {
    assert (queued + [b])[..|queued|] == queued;
  }

  lemma {:induction false} MineConcat(q1: seq<nat>, q2: seq<nat>, bufs: seq<Piece>, job: nat)
    requires Below(q1, |bufs|) && Below(q2, |bufs|)
    ensures Mine(q1 + q2, bufs, job) == Mine(q1, bufs, job) + Mine(q2, bufs, job)
  {
    if q2 == [] {
      assert q1 + q2 == q1;
    } else {
      var n := |q2| - 1;
      assert q1 + q2 == (q1 + q2[..n]) + [q2[n]];
      MineConcat(q1, q2[..n], bufs, job);
      MineAppend(q1 + q2[..n], q2[n], bufs, job);
    }
  }

  lemma {:induction false} MineFrame(queued: seq<nat>, bufs: seq<Piece>, b: nat, p: Piece, job: nat)
    requires Below(queued, |bufs|) && b < |bufs| && b !in queued
    ensures Mine(queued, bufs[b := p], job) == Mine(queued, bufs, job)
  {
    if queued != [] {
      MineFrame(queued[..|queued| - 1], bufs, b, p, job);
    }
  }

  lemma {:induction false} MineNone(queued: seq<nat>, bufs: seq<Piece>, job: nat)
    requires Below(queued, |bufs|)
    requires forall i :: 0 <= i < |queued| ==> bufs[queued[i]].job != job
    ensures Mine(queued, bufs, job) == multiset{}
  {
    if queued != [] {
      MineNone(queued[..|queued| - 1], bufs, job);
    }
  }

  /* ---- Flushing: qsort ---- */

  // The value of a C int subtraction that wraps around.
  function Wrap32(v: int): (r: int)
    ensures Int32(r) && (Int32(v) ==> r == v)
  {
    (v + TWO_TO_31) % TWO_TO_32 - TWO_TO_31
  }

  function CompareBuffers(p: Piece, q: Piece): int
  {
    Wrap32(p.key - q.key)
  }

  // A total preorder on these pieces, as qsort demands of its comparison.
  ghost predicate Consistent(compare: (Piece, Piece) -> int, ps: multiset<Piece>)
  {
    && (forall p, q {:trigger compare(p, q)} :: p in ps && q in ps ==> (compare(p, q) < 0 <==> compare(q, p) > 0))
    && (forall p, q, r {:trigger compare(p, q), compare(q, r)} ::
          p in ps && q in ps && r in ps && compare(p, q) <= 0 && compare(q, r) <= 0 ==> compare(p, r) <= 0)
  }

  ghost predicate Ordered(compare: (Piece, Piece) -> int, out: seq<Piece>)
  {
    forall i, j :: 0 <= i < j < |out| ==> compare(out[i], out[j]) <= 0
  }

  // What qsort may return: a permutation, in order if the comparison is consistent.
  ghost predicate QSorted(compare: (Piece, Piece) -> int, ps: multiset<Piece>, out: seq<Piece>)
  {
    multiset(out) == ps && (Consistent(compare, ps) ==> Ordered(compare, out))
  }

  ghost predicate SortedFrom(ps: multiset<Piece>, out: seq<Piece>)
  {
    QSorted(CompareBuffers, ps, out)
  }

  /* ---- Flushing: when the order is kept ---- */

  // How far a key lies ahead of `base` on the circle of 32-bit words.
  function Ahead(base: int, p: Piece): (d: nat)
    ensures d < TWO_TO_32
  {
    (p.key - base) % TWO_TO_32
  }

  // On half a circle the wrapping comparison is the difference of positions.
  lemma {:induction false} HalfCircle(base: int, p: Piece, q: Piece)
    requires Ahead(base, p) < TWO_TO_31 && Ahead(base, q) < TWO_TO_31
    ensures CompareBuffers(p, q) == Ahead(base, p) - Ahead(base, q)
  {
    var a, b := (p.key - base) / TWO_TO_32, (q.key - base) / TWO_TO_32;
    var d := Ahead(base, p) - Ahead(base, q);
    assert p.key - q.key == (a - b) * TWO_TO_32 + d;
    assert (d + TWO_TO_31 + (a - b) * TWO_TO_32) % TWO_TO_32 == d + TWO_TO_31;
  }

  ghost predicate OnHalfCircle(base: int, ps: multiset<Piece>)
  {
    forall p :: p in ps ==> Ahead(base, p) < TWO_TO_31
  }

  lemma {:induction false} HalfCircleConsistent(base: int, ps: multiset<Piece>)
    requires OnHalfCircle(base, ps)
    ensures Consistent(CompareBuffers, ps)
    ensures forall p, q :: p in ps && q in ps ==> CompareBuffers(p, q) == Ahead(base, p) - Ahead(base, q)
  {
    forall p, q | p in ps && q in ps ensures CompareBuffers(p, q) == Ahead(base, p) - Ahead(base, q) {
      HalfCircle(base, p, q);
    }
    PositionsConsistent(CompareBuffers, base, ps);
  }

  lemma {:induction false} PositionsConsistent(compare: (Piece, Piece) -> int, base: int, ps: multiset<Piece>)
    requires forall p, q :: p in ps && q in ps ==> compare(p, q) == Ahead(base, p) - Ahead(base, q)
    ensures Consistent(compare, ps)
  {
  }

  // From the first key on, keys stay within half a circle, and different pieces lie strictly apart, in order.
  ghost predicate KeysAdvance(ps: seq<Piece>)
  {
    && (forall i :: 0 <= i < |ps| ==> Ahead(ps[0].key, ps[i]) < TWO_TO_31)
    && (forall i, j :: 0 <= i < j < |ps| && ps[i] != ps[j] ==> Ahead(ps[0].key, ps[i]) < Ahead(ps[0].key, ps[j]))
  }

  // Whatever qsort does, the pieces come out in the order they are in.
  ghost predicate OrderKept(ps: seq<Piece>)
  {
    SortedFrom(multiset(ps), ps) && forall out :: SortedFrom(multiset(ps), out) ==> out == ps
  }

  ghost predicate Climbs(base: int, out: seq<Piece>)
  {
    forall i, j :: 0 <= i < j < |out| ==> Ahead(base, out[i]) <= Ahead(base, out[j])
  }

  ghost predicate ClimbsStrictly(base: int, ps: seq<Piece>)
  {
    forall i, j :: 0 <= i < j < |ps| && ps[i] != ps[j] ==> Ahead(base, ps[i]) < Ahead(base, ps[j])
  }

  lemma {:induction false} SameLast(base: int, ps: seq<Piece>, out: seq<Piece>)
    requires ps != [] && multiset(ps) == multiset(out) && |out| == |ps|
    requires ClimbsStrictly(base, ps) && Climbs(base, out)
    ensures ps[|ps| - 1] == out[|ps| - 1]
  {
    var n := |ps| - 1;
    assert ps[n] in multiset(out) && out[n] in multiset(ps);
    var k :| 0 <= k < |out| && out[k] == ps[n];
    var l :| 0 <= l < |ps| && ps[l] == out[n];
  }

  lemma {:induction false} WithoutLast(ps: seq<Piece>)
    requires ps != []
    ensures multiset(ps[..|ps| - 1]) == multiset(ps) - multiset{ps[|ps| - 1]}
    ensures ps == ps[..|ps| - 1] + [ps[|ps| - 1]]
  {
    assert ps == ps[..|ps| - 1] + [ps[|ps| - 1]];
  }

  // Only one arrangement climbs when different pieces lie strictly apart.
  lemma {:induction false} UniqueArrangement(base: int, ps: seq<Piece>, out: seq<Piece>)
    requires multiset(ps) == multiset(out) && |ps| == |out|
    requires ClimbsStrictly(base, ps) && Climbs(base, out)
    ensures ps == out
  {
    if ps != [] {
      var n := |ps| - 1;
      SameLast(base, ps, out);
      WithoutLast(ps);
      WithoutLast(out);
      UniqueArrangement(base, ps[..n], out[..n]);
    }
  }

  lemma {:induction false} AdvanceKeepsOrder(ps: seq<Piece>, out: seq<Piece>)
    requires KeysAdvance(ps) && SortedFrom(multiset(ps), out)
    ensures out == ps && Consistent(CompareBuffers, multiset(ps)) && Ordered(CompareBuffers, ps)
  {
    assert |multiset(out)| == |out| && |multiset(ps)| == |ps|;
    if ps != [] {
      var base := ps[0].key;
      assert forall p :: p in multiset(ps) ==> p in ps;
      HalfCircleConsistent(base, multiset(ps));
      forall i, j | 0 <= i < j < |out| ensures Ahead(base, out[i]) <= Ahead(base, out[j]) {
        assert out[i] in multiset(out) && out[j] in multiset(out);
        assert CompareBuffers(out[i], out[j]) <= 0;
      }
      UniqueArrangement(base, ps, out);
    }
  }

  lemma {:induction false} AdvanceIsOrdered(ps: seq<Piece>)
    requires KeysAdvance(ps)
    ensures SortedFrom(multiset(ps), ps)
  {
    forall i, j | 0 <= i < j < |ps| ensures CompareBuffers(ps[i], ps[j]) <= 0 {
      HalfCircle(ps[0].key, ps[i], ps[j]);
    }
  }

  // Exchanging two pieces.
  function Exchanged(ps: seq<Piece>, i: nat, j: nat): (out: seq<Piece>)
    requires i < j < |ps|
    ensures |out| == |ps| && multiset(out) == multiset(ps)
    ensures forall k :: 0 <= k < |ps| ==> out[k] == if k == i then ps[j] else if k == j then ps[i] else ps[k]
  {
    ps[i := ps[j]][j := ps[i]]
  }

  // The order is kept only if the comparison is consistent and different pieces compare strictly.
  lemma {:induction false} KeptIsConsistent(ps: seq<Piece>, i: nat, j: nat)
    requires OrderKept(ps) && i < j < |ps| && ps[i] != ps[j]
    ensures Consistent(CompareBuffers, multiset(ps)) && !Ordered(CompareBuffers, Exchanged(ps, i, j))
  {
    var out := Exchanged(ps, i, j);
    assert out[i] != ps[i];
    assert !SortedFrom(multiset(ps), out);
  }

  lemma {:induction false} ExchangedOrdered(ps: seq<Piece>, i: nat, j: nat)
    requires i < j < |ps| && Ordered(CompareBuffers, ps)
    ensures ps[i].key == ps[j].key ==> Ordered(CompareBuffers, Exchanged(ps, i, j))
  {
    if ps[i].key == ps[j].key {
      SameKeysOrdered(ps, Exchanged(ps, i, j));
    }
  }

  lemma {:induction false} KeptIsStrict(ps: seq<Piece>, i: nat, j: nat)
    requires OrderKept(ps) && i < j < |ps| && ps[i] != ps[j] && Int32(ps[i].key) && Int32(ps[j].key)
    ensures Consistent(CompareBuffers, multiset(ps)) && CompareBuffers(ps[i], ps[j]) < 0
  {
    KeptIsConsistent(ps, i, j);
    ExchangedOrdered(ps, i, j);
    DifferentKeys(ps[i], ps[j]);
  }

  lemma {:induction false} SameKeysOrdered(ps: seq<Piece>, out: seq<Piece>)
    requires |out| == |ps| && Ordered(CompareBuffers, ps)
    requires forall k :: 0 <= k < |ps| ==> out[k].key == ps[k].key
    ensures Ordered(CompareBuffers, out)
  {
    forall i, j | 0 <= i < j < |out| ensures CompareBuffers(out[i], out[j]) <= 0 {
      assert CompareBuffers(ps[i], ps[j]) <= 0;
    }
  }

  lemma {:induction false} DifferentKeys(p: Piece, q: Piece)
    requires Int32(p.key) && Int32(q.key) && p.key != q.key
    ensures CompareBuffers(p, q) != 0
  {
  }

  // Flushing keeps the order of the pieces, for every permitted qsort, exactly when their keys advance.
  lemma {:induction false} FlushOrderExact(ps: seq<Piece>)
    requires forall i :: 0 <= i < |ps| ==> Int32(ps[i].key)
    ensures OrderKept(ps) <==> KeysAdvance(ps)
  {
    if KeysAdvance(ps) {
      AdvanceIsOrdered(ps);
      forall out | SortedFrom(multiset(ps), out) ensures out == ps {
        AdvanceKeepsOrder(ps, out);
      }
    }
    if OrderKept(ps) {
      forall i | 0 <= i < |ps| ensures Ahead(ps[0].key, ps[i]) < TWO_TO_31 {
        KeptIsNear(ps, i);
      }
      forall i, j | 0 <= i < j < |ps| && ps[i] != ps[j]
        ensures Ahead(ps[0].key, ps[i]) < Ahead(ps[0].key, ps[j])
      {
        KeptIsStrict(ps, i, j);
        HalfCircle(ps[0].key, ps[i], ps[j]);
      }
    }
  }

  lemma {:induction false} KeptIsNear(ps: seq<Piece>, i: nat)
    requires OrderKept(ps) && i < |ps|
    requires forall k :: 0 <= k < |ps| ==> Int32(ps[k].key)
    ensures Ahead(ps[0].key, ps[i]) < TWO_TO_31
  {
    if ps[i] != ps[0] {
      KeptIsStrict(ps, 0, i);
      assert ps[0] in multiset(ps) && ps[i] in multiset(ps);
      BothSigns(ps[0], ps[i]);
    }
  }

  lemma {:induction false} BothSigns(p: Piece, q: Piece)
    requires Int32(p.key) && Int32(q.key) && CompareBuffers(p, q) < 0 && CompareBuffers(q, p) > 0
    ensures Ahead(p.key, q) < TWO_TO_31
  {
  }

  /* ---- Flushing: the keys a job uses ---- */

  ghost predicate KeysAscend(ps: seq<Piece>)
  {
    && (forall i :: 0 <= i < |ps| ==> Int32(ps[i].key))
    && (forall i, j :: 0 <= i < j < |ps| ==> ps[i].key <= ps[j].key)
  }

  // A job emits with ascending keys. Then the order is kept exactly when different pieces have different keys and
  // the keys span less than 2^31.
  lemma {:induction false} AscendingOrderExact(ps: seq<Piece>)
    requires KeysAscend(ps)
    ensures OrderKept(ps) <==>
            && (forall i, j :: 0 <= i < j < |ps| && ps[i] != ps[j] ==> ps[i].key < ps[j].key)
            && (ps != [] ==> ps[|ps| - 1].key - ps[0].key < TWO_TO_31)
  {
    FlushOrderExact(ps);
    forall i | 0 <= i < |ps| ensures Ahead(ps[0].key, ps[i]) == ps[i].key - ps[0].key {
      SmallAhead(ps[0].key, ps[i]);
    }
  }

  lemma {:induction false} SmallAhead(base: int, p: Piece)
    requires 0 <= p.key - base < TWO_TO_32
    ensures Ahead(base, p) == p.key - base
  {
  }

  // Two different pieces with one key, as the chunks of a long line have: either order is permitted.
  lemma {:induction false} EqualKeysEitherWay(a: Piece, b: Piece)
    requires a != b && a.key == b.key
    ensures SortedFrom(multiset{a, b}, [a, b]) && SortedFrom(multiset{a, b}, [b, a])
  {
    assert CompareBuffers(a, b) == 0 && CompareBuffers(b, a) == 0;
    PairElements(a, b);
    PairElements(b, a);
  }

  lemma {:induction false} PairElements(a: Piece, b: Piece)
    ensures multiset([a, b]) == multiset{a, b} == multiset{b, a}
  {
    assert [a, b] == [a] + [b];
  }

  const NOTICE_KEY: int := TWO_TO_31 - 1

  // Annotation, command line (keys -200 and -199) and failure notice (key INT_MAX) and nothing else: notices first.
  lemma {:induction false} NoticeFirst(ps: multiset<Piece>, out: seq<Piece>, i: nat, j: nat)
    requires forall p :: p in ps ==> p.key == NOTICE_KEY || -200 <= p.key <= -2
    requires SortedFrom(ps, out) && i < j < |out| && out[j].key == NOTICE_KEY
    ensures out[i].key == NOTICE_KEY
  {
    forall p | p in ps
      ensures Ahead(NOTICE_KEY, p) < TWO_TO_31 && (Ahead(NOTICE_KEY, p) == 0 <==> p.key == NOTICE_KEY)
    {
      NoticeAhead(p);
    }
    HalfCircleConsistent(NOTICE_KEY, ps);
    assert out[i] in multiset(out) && out[j] in multiset(out);
    assert CompareBuffers(out[i], out[j]) <= 0;
  }

  lemma {:induction false} NoticeAhead(p: Piece)
    requires p.key == NOTICE_KEY || -200 <= p.key <= -2
    ensures Ahead(NOTICE_KEY, p) < TWO_TO_31 && (Ahead(NOTICE_KEY, p) == 0 <==> p.key == NOTICE_KEY)
  {
    if p.key < 0 {
      assert p.key - NOTICE_KEY + TWO_TO_32 == (p.key - NOTICE_KEY) % TWO_TO_32;
    }
  }

  // With child output (keys from 0 on) between them the comparison goes round in a circle: any order is permitted.
  lemma {:induction false} NoticeAnyOrder(
    ps: multiset<Piece>, early: Piece, output: Piece, notice: Piece, out: seq<Piece>)
    requires early in ps && output in ps && notice in ps && multiset(out) == ps
    requires -200 <= early.key <= -2 && 0 <= output.key < TWO_TO_31 - 200 && notice.key == NOTICE_KEY
    ensures SortedFrom(ps, out)
  {
    assert CompareBuffers(early, output) <= 0 && CompareBuffers(output, notice) <= 0;
    assert (early.key - notice.key + TWO_TO_31) % TWO_TO_32 == early.key - notice.key + TWO_TO_31 + TWO_TO_32;
    assert CompareBuffers(early, notice) > 0;
  }

  /* ---- Flushing: compaction ---- */

  // The compaction loop of FlushOutputQueue from slot i on: the last queued buffer takes the place of a flushed one.
  function Compact(t: Tty, job: nat, i: nat): (r: Tty)
    requires Below(t.queued, |t.bufs|)
    ensures r.bufs == t.bufs && r.owner == t.owner
    ensures Below(r.queued, |r.bufs|) && (Below(t.free, |t.bufs|) ==> Below(r.free, |r.bufs|))
    decreases |t.queued| - i
  {
    if i >= |t.queued| then t
    else if t.bufs[t.queued[i]].job == job then Compact(Release(t, i), job, i)
    else Compact(t, job, i + 1)
  }

  function Release(t: Tty, i: nat): (r: Tty)
    requires i < |t.queued|
    ensures |r.queued| == |t.queued| - 1
    ensures forall k :: 0 <= k < |r.queued| ==> r.queued[k] == if k == i then t.queued[|r.queued|] else t.queued[k]
  {
    var last := |t.queued| - 1;
    t.(queued := t.queued[i := t.queued[last]][..last], free := t.free + [t.queued[i]])
  }

  lemma {:induction false} ReleaseKeeps(t: Tty, i: nat)
    requires PoolOk(t) && i < |t.queued|
    ensures PoolOk(Release(t, i))
  {
    PoolFacts(t);
    var r := Release(t, i);
    PoolFromParts(r);
  }

  lemma {:induction false} ReleaseMine(t: Tty, i: nat, job: nat)
    requires PoolOk(t) && i < |t.queued| && Below(t.queued, |t.bufs|)
    requires Below(Release(t, i).queued, |t.bufs|)
    ensures Mine(t.queued, t.bufs, job) ==
            Mine(Release(t, i).queued, t.bufs, job)
            + if t.bufs[t.queued[i]].job == job then multiset{t.bufs[t.queued[i]]} else multiset{}
  {
    var q, n := t.queued, |t.queued| - 1;
    var r := Release(t, i).queued;
    if i == n {
      assert q == q[..n] + [q[n]];
      assert r == q[..n];
    } else {
      var front, mid := q[..i], q[i + 1..n];
      assert q == ((front + [q[i]]) + mid) + [q[n]];
      assert r == (front + [q[n]]) + mid;
      MineReplaced(front, q[i], mid, q[n], t.bufs, job);
    }
  }

  lemma {:induction false} MineReplaced(front: seq<nat>, b: nat, mid: seq<nat>, last: nat, bufs: seq<Piece>, job: nat)
    requires Below(front, |bufs|) && Below(mid, |bufs|) && b < |bufs| && last < |bufs|
    ensures Mine(((front + [b]) + mid) + [last], bufs, job)
            == Mine((front + [last]) + mid, bufs, job) + if bufs[b].job == job then multiset{bufs[b]} else multiset{}
  {
    MineAppend((front + [b]) + mid, last, bufs, job);
    MineConcat(front + [b], mid, bufs, job);
    MineAppend(front, b, bufs, job);
    MineConcat(front + [last], mid, bufs, job);
    MineAppend(front, last, bufs, job);
  }

  // Compaction frees exactly the job's buffers and keeps everyone else's.
  lemma {:induction false} CompactKeeps(t: Tty, job: nat, i: nat, other: nat)
    requires PoolOk(t) && Below(t.queued, |t.bufs|) && i <= |t.queued|
    requires forall k :: 0 <= k < i ==> t.bufs[t.queued[k]].job != job
    ensures PoolOk(Compact(t, job, i)) && Below(Compact(t, job, i).queued, |t.bufs|)
    ensures Compact(t, job, i).bufs == t.bufs && Compact(t, job, i).owner == t.owner
    ensures Mine(Compact(t, job, i).queued, t.bufs, other)
            == if other == job then multiset{} else Mine(t.queued, t.bufs, other)
    decreases |t.queued| - i
  {
    PoolFacts(t);
    if i == |t.queued| {
      if other == job {
        MineNone(t.queued, t.bufs, job);
      }
    } else if t.bufs[t.queued[i]].job == job {
      var r := Release(t, i);
      ReleaseKeeps(t, i);
      PoolFacts(r);
      ReleaseMine(t, i, other);
      CompactKeeps(r, job, i, other);
    } else {
      CompactKeeps(t, job, i + 1, other);
    }
  }

  /* ---- Buffering ---- */

  // AllocLineBuffer takes the top of the free list.
  function Allocated(t: Tty): (r: Tty)
    requires t.free != []
  {
    t.(free := t.free[..|t.free| - 1])
  }

  // A buffer is filled and queued.
  function Queued(t: Tty, b: nat, p: Piece): (r: Tty)
    requires b < |t.bufs|
  {
    t.(bufs := t.bufs[b := p], queued := t.queued + [b])
  }

  function Hold(t: Tty, p: Piece): (r: Tty)
    requires t.free != [] && t.free[|t.free| - 1] < |t.bufs|
  {
    Queued(Allocated(t), t.free[|t.free| - 1], p)
  }

  lemma {:induction false} HoldKeeps(t: Tty, p: Piece, job: nat)
    requires PoolOk(t) && t.free != [] && t.free[|t.free| - 1] < |t.bufs| && Below(t.queued, |t.bufs|)
    ensures PoolOk(Hold(t, p)) && Below(Hold(t, p).queued, |t.bufs|)
    ensures Mine(Hold(t, p).queued, Hold(t, p).bufs, job)
            == Mine(t.queued, t.bufs, job) + if p.job == job then multiset{p} else multiset{}
  {
    PoolFacts(t);
    var r, b := Hold(t, p), t.free[|t.free| - 1];
    PoolFromParts(r);
    MineFrame(t.queued, t.bufs, b, p, job);
    MineAppend(t.queued, b, r.bufs, job);
  }

  function Chunk(data: string): (r: string)
    ensures r <= data && (data != "" ==> r != "")
  {
    data[..if |data| > BUFFER_ROOM then BUFFER_ROOM else |data|]
  }

  // What the emit loop did for a job that cannot have the terminal: the pieces it queued and the bytes left over.
  datatype Held = Held(tty: Tty, made: seq<Piece>, rest: string)

  function HoldAll(t: Tty, job: nat, key: int, toStderr: bool, data: string): (r: Held)
    requires Below(t.free, |t.bufs|)
    decreases |data|
  {
    if data == "" || t.free == [] then Held(t, [], data)
    else
      var p := Piece(job, key, toStderr, Chunk(data));
      var h := HoldAll(Hold(t, p), job, key, toStderr, data[|Chunk(data)|..]);
      Held(h.tty, [p] + h.made, h.rest)
  }

  /* ---- Bytes ---- */

  // A byte and the descriptor it goes to.
  datatype Byte = Byte(key: int, toStderr: bool, value: char)

  function PieceBytes(key: int, toStderr: bool, data: string): (r: seq<Byte>)
    ensures |r| == |data|
  {
    seq(|data|, i requires 0 <= i < |data| => Byte(key, toStderr, data[i]))
  }

  function Bytes(ps: seq<Piece>): seq<Byte>
  {
    if ps == [] then []
    else Bytes(ps[..|ps| - 1]) + PieceBytes(ps[|ps| - 1].key, ps[|ps| - 1].toStderr, ps[|ps| - 1].data)
  }

  lemma {:induction false} BytesAppend(ps: seq<Piece>, p: Piece)
    ensures Bytes(ps + [p]) == Bytes(ps) + PieceBytes(p.key, p.toStderr, p.data)
  {
    assert (ps + [p])[..|ps|] == ps;
  }

  lemma {:induction false} BytesConcat(ps: seq<Piece>, qs: seq<Piece>)
    ensures Bytes(ps + qs) == Bytes(ps) + Bytes(qs)
  {
    if qs == [] {
      assert ps + qs == ps;
    } else {
      var n := |qs| - 1;
      assert ps + qs == (ps + qs[..n]) + [qs[n]];
      assert qs == qs[..n] + [qs[n]];
      BytesAppend(ps + qs[..n], qs[n]);
      BytesAppend(qs[..n], qs[n]);
      BytesConcat(ps, qs[..n]);
      ConcatAssociative(Bytes(ps), Bytes(qs[..n]), PieceBytes(qs[n].key, qs[n].toStderr, qs[n].data));
    }
  }

  // HoldAll keeps the pool and changes what is queued for this job only.
  lemma {:induction false} HoldAllKeeps(t: Tty, job: nat, key: int, toStderr: bool, data: string, other: nat)
    requires PoolOk(t) && Below(t.free, |t.bufs|) && Below(t.queued, |t.bufs|)
    ensures var h := HoldAll(t, job, key, toStderr, data);
            && PoolOk(h.tty) && Below(h.tty.free, |h.tty.bufs|) && Below(h.tty.queued, |h.tty.bufs|)
            && h.tty.owner == t.owner
            && (h.rest != "" ==> h.tty.free == [])
            && Mine(h.tty.queued, h.tty.bufs, other)
               == Mine(t.queued, t.bufs, other) + if other == job then multiset(h.made) else multiset{}
    decreases |data|
  {
    if data != "" && t.free != [] {
      var c := Chunk(data);
      var p, rest := Piece(job, key, toStderr, c), data[|c|..];
      var t' := Hold(t, p);
      HoldKeeps(t, p, other);
      PoolFacts(t');
      HoldAllKeeps(t', job, key, toStderr, rest, other);
      var h := HoldAll(t', job, key, toStderr, rest);
      assert multiset([p] + h.made) == multiset{p} + multiset(h.made);
    }
  }

  // HoldAll splits the data in order.
  lemma {:induction false} HoldAllBytes(t: Tty, job: nat, key: int, toStderr: bool, data: string)
    requires PoolOk(t) && Below(t.free, |t.bufs|) && Below(t.queued, |t.bufs|)
    ensures var h := HoldAll(t, job, key, toStderr, data);
            PieceBytes(key, toStderr, data) == Bytes(h.made) + PieceBytes(key, toStderr, h.rest)
    decreases |data|
  {
    if data != "" && t.free != [] {
      var c := Chunk(data);
      var p, rest := Piece(job, key, toStderr, c), data[|c|..];
      var t' := Hold(t, p);
      HoldKeeps(t, p, job);
      PoolFacts(t');
      HoldAllBytes(t', job, key, toStderr, rest);
      var h := HoldAll(t', job, key, toStderr, rest);
      SplitBytes(p, rest, h.made, PieceBytes(key, toStderr, h.rest));
      assert data == c + rest;
    }
  }

  lemma {:induction false} SplitBytes(p: Piece, rest: string, made: seq<Piece>, last: seq<Byte>)
    requires PieceBytes(p.key, p.toStderr, rest) == Bytes(made) + last
    ensures PieceBytes(p.key, p.toStderr, p.data + rest) == Bytes([p] + made) + last
  {
    BytesConcat([p], made);
    BytesAppend([], p);
    assert [] + [p] == [p];
    assert PieceBytes(p.key, p.toStderr, p.data + rest) ==
           PieceBytes(p.key, p.toStderr, p.data) + PieceBytes(p.key, p.toStderr, rest);
  }
}
