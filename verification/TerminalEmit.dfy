/**
 TerminalIoEmit from one lock acquisition to the next release, turn by turn as in src/TerminalIo.cpp. The variable `buf`
 is set once before the loop, never reset between chunks, and survives a wait. Should it still name a buffer when the
 terminal is free or the job's own, that buffer would be queued a second time; this cannot happen.
 */
module TerminalEmit {
  import opened Options
  import opened Sequences
  import opened TerminalBuffers

  // How a section ends: all data dealt with, in CondWait, or on the way to the unlocked write.
  datatype Stop = Finished | Waits | Writes

  // `flushed` is what FlushOutputQueue wrote, if it was called.
  datatype Section = Section(
    tty: Tty, made: seq<Piece>, flushed: Option<multiset<Piece>>, rest: string, buf: Option<nat>, stop: Stop)

  predicate MayTake(t: Tty, job: nat)
  {
    t.owner == -1 || t.owner == job
  }

  ghost predicate InBounds(t: Tty, buf: Option<nat>)
  {
    Below(t.free, |t.bufs|) && Below(t.queued, |t.bufs|) && (buf.Some? ==> buf.value < |t.bufs|)
  }

  // The loop of TerminalIoEmit.
  ghost function EmitSection(t: Tty, job: nat, key: int, toStderr: bool, data: string, buf: Option<nat>): Section
    requires InBounds(t, buf)
    decreases |data|
  {
    if data == "" then Section(t, [], None, data, buf, Finished)
    else if !MayTake(t, job) then
      if t.free == [] then Section(t, [], None, data, None, Waits)
      else QueueChunk(Allocated(t), job, key, toStderr, data, t.free[|t.free| - 1])
    else
      var flushed := if t.owner == -1 then Some(Mine(t.queued, t.bufs, job)) else None;
      var t' := if t.owner == -1 then Compact(t.(owner := job), job, 0) else t;
      if buf.None? then Section(t', [], flushed, data, None, Writes)
      else
        var later := QueueChunk(t', job, key, toStderr, data, buf.value);
        later.(flushed := if flushed.Some? then flushed else later.flushed)
  }

  // A chunk goes into buffer b, and the loop goes on with `buf` still naming b.
  ghost function QueueChunk(t: Tty, job: nat, key: int, toStderr: bool, data: string, b: nat): Section
    requires data != "" && InBounds(t, Some(b))
    decreases |data|, 0
  {
    var p := Piece(job, key, toStderr, Chunk(data));
    var later := EmitSection(Queued(t, b, p), job, key, toStderr, data[|p.data|..], Some(b));
    later.(made := [p] + later.made)
  }

  // At every turn: `buf` is null when the terminal is free or the job's own, and a buffer about to be queued is not
  // queued already.
  ghost predicate SafeTurns(t: Tty, job: nat, key: int, toStderr: bool, data: string, buf: Option<nat>)
    requires InBounds(t, buf)
    decreases |data|
  {
    data != "" ==>
      && (MayTake(t, job) ==> buf.None?)
      && (!MayTake(t, job) && t.free != [] ==>
            var b, p := t.free[|t.free| - 1], Piece(job, key, toStderr, Chunk(data));
            b !in t.queued && SafeTurns(Hold(t, p), job, key, toStderr, data[|p.data|..], Some(b)))
  }

  lemma {:induction false} TurnsAreSafe(t: Tty, job: nat, key: int, toStderr: bool, data: string, buf: Option<nat>)
    requires PoolOk(t) && InBounds(t, buf) && (buf.Some? ==> !MayTake(t, job))
    ensures SafeTurns(t, job, key, toStderr, data, buf)
    decreases |data|
  {
    if data != "" && !MayTake(t, job) && t.free != [] {
      var b, p := t.free[|t.free| - 1], Piece(job, key, toStderr, Chunk(data));
      PoolFacts(t);
      HoldKeeps(t, p, job);
      PoolFacts(Hold(t, p));
      TurnsAreSafe(Hold(t, p), job, key, toStderr, data[|p.data|..], Some(b));
    }
  }

  // Without the terminal: chunks are buffered until the data or the buffers run out.
  lemma {:induction false} EmitHolds(t: Tty, job: nat, key: int, toStderr: bool, data: string, buf: Option<nat>)
    requires PoolOk(t) && InBounds(t, buf) && !MayTake(t, job)
    ensures var h, e := HoldAll(t, job, key, toStderr, data), EmitSection(t, job, key, toStderr, data, buf);
            && e.tty == h.tty && e.made == h.made && e.rest == h.rest && e.flushed.None?
            && e.stop == (if h.rest == "" then Finished else Waits) && (e.stop.Waits? ==> e.buf.None?)
    decreases |data|
  {
    if data != "" && t.free != [] {
      var b, p := t.free[|t.free| - 1], Piece(job, key, toStderr, Chunk(data));
      HoldKeeps(t, p, job);
      PoolFacts(Hold(t, p));
      EmitHolds(Hold(t, p), job, key, toStderr, data[|p.data|..], Some(b));
    }
  }

  lemma {:induction false} OneChunk(t: Tty, job: nat, key: int, toStderr: bool, data: string)
    requires PoolOk(t) && Below(t.free, |t.bufs|) && t.free != [] && 0 < |data| <= BUFFER_ROOM
    ensures HoldAll(t, job, key, toStderr, data).made == [Piece(job, key, toStderr, data)]
  {
    var p := Piece(job, key, toStderr, data);
    assert Chunk(data) == data && data[|data|..] == "";
    PoolFacts(t);
    HoldKeeps(t, p, job);
    PoolFacts(Hold(t, p));
    assert HoldAll(Hold(t, p), job, key, toStderr, "").made == [];
  }

  // A line of more than one buffer but less than two is cut into two pieces with one key, whose order a flush does
  // not keep.
  lemma {:induction false} LongLineLosesOrder(t: Tty, job: nat, key: int, toStderr: bool, data: string)
    requires PoolOk(t) && Below(t.free, |t.bufs|) && |t.free| >= 2 && BUFFER_ROOM < |data| < 2 * BUFFER_ROOM
    ensures var made := HoldAll(t, job, key, toStderr, data).made;
            |made| == 2 && made[0].key == made[1].key == key && !OrderKept(made)
  {
    var p, q := Piece(job, key, toStderr, data[..BUFFER_ROOM]), Piece(job, key, toStderr, data[BUFFER_ROOM..]);
    PoolFacts(t);
    HoldKeeps(t, p, job);
    PoolFacts(Hold(t, p));
    OneChunk(Hold(t, p), job, key, toStderr, q.data);
    assert HoldAll(t, job, key, toStderr, data).made == [p, q];
    assert |p.data| != |q.data|;
    TwoPiecesOneKey(p, q);
  }

  lemma {:induction false} TwoPiecesOneKey(p: Piece, q: Piece)
    requires p.key == q.key && p != q
    ensures !OrderKept([p, q])
  {
    EqualKeysEitherWay(p, q);
    var out := [q, p];
    assert multiset([p, q]) == multiset{p, q};
    assert out[0] != [p, q][0];
  }
}
