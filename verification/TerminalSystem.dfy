/**
 Jobs that print through src/TerminalIo.cpp, as a transition system. A step is a lock-held section, the unlocked write
 of the terminal's owner, the broadcast after an exit, a call, or a wake-up. A session is one job execution: its emits
 up to and including its exit.
 */
module TerminalSystem {
  import opened Options
  import opened Sequences
  import opened TerminalBuffers
  import opened TerminalEmit

  datatype Phase =
    | Idle
    | Emitting(key: int, toStderr: bool, rest: string, buf: Option<nat>)    // in TerminalIoEmit, without the lock
    | Writing(key: int, toStderr: bool, rest: string)                       // about to write directly, without the lock
    | Exiting                                                               // in TerminalIoJobExit, without the lock
    | Announcing                                                            // about to broadcast, without the lock

  // What a session emitted, the pieces that was cut into, and how many of them were buffered.
  datatype Session = Session(calls: seq<Piece>, pieces: seq<Piece>, buffered: nat)

  // asleep: in CondWait.
  datatype Job = Job(phase: Phase, asleep: bool, current: Session, past: seq<Session>)

  // One call of write.
  datatype Line = Line(job: nat, session: nat, piece: Piece)

  datatype State = State(tty: Tty, jobs: seq<Job>, trace: seq<Line>)

  datatype Step =
    | Call(job: nat, key: int, toStderr: bool, data: string)
    | CallExit(job: nat)
    | Locked(job: nat, sorted: seq<Piece>)    // sorted: what qsort makes of the job's buffers, if they are flushed
    | Write(job: nat)
    | Announce(job: nat)
    | Wake(job: nat)                          // a signal, or for no reason

  function Fresh(): Session { Session([], [], 0) }

  function InitialTty(): Tty
  {
    Tty(seq(BUFFER_COUNT, i requires 0 <= i < BUFFER_COUNT => i), [],
        seq(BUFFER_COUNT, _ => Piece(0, 0, false, "")), -1)
  }

  function InitialState(jobCount: nat): State
  {
    State(InitialTty(), seq(jobCount, _ => Job(Idle, false, Fresh(), [])), [])
  }

  function Lines(job: nat, session: nat, ps: seq<Piece>): (r: seq<Line>)
    ensures |r| == |ps| && forall i :: 0 <= i < |r| ==> r[i] == Line(job, session, ps[i])
  {
    seq(|ps|, i requires 0 <= i < |ps| => Line(job, session, ps[i]))
  }

  // CondBroadcast
  function WakeAll(jobs: seq<Job>): (r: seq<Job>)
    ensures |r| == |jobs| && forall i :: 0 <= i < |r| ==> r[i] == jobs[i].(asleep := false)
  {
    seq(|jobs|, i requires 0 <= i < |jobs| => jobs[i].(asleep := false))
  }

  ghost predicate Bounded(t: Tty)
  {
    Below(t.free, |t.bufs|) && Below(t.queued, |t.bufs|)
  }

  // The pieces that this lock-held section of the job flushes, if any.
  ghost function Flushed(s: State, j: nat): Option<multiset<Piece>>
    requires j < |s.jobs| && Bounded(s.tty)
  {
    var phase := s.jobs[j].phase;
    if phase.Emitting? && InBounds(s.tty, phase.buf)
    then EmitSection(s.tty, j, phase.key, phase.toStderr, phase.rest, phase.buf).flushed
    else if phase.Exiting? && MayTake(s.tty, j) then Some(Mine(s.tty.queued, s.tty.bufs, j))
    else None
  }

  ghost predicate Enabled(s: State, step: Step)
  {
    && step.job < |s.jobs|
    && var job := s.jobs[step.job];
    match step
    case Call(_, _, _, _) => job.phase.Idle?
    case CallExit(_) => job.phase.Idle?
    case Locked(j, sorted) =>
      && (job.phase.Emitting? || job.phase.Exiting?) && !job.asleep && Bounded(s.tty)
      && (job.phase.Emitting? ==> InBounds(s.tty, job.phase.buf))
      && (Flushed(s, j).Some? ==> SortedFrom(Flushed(s, j).value, sorted))
    case Write(_) => job.phase.Writing?
    case Announce(_) => job.phase.Announcing?
    case Wake(_) => job.asleep
  }

  // What FlushOutputQueue adds to the output, and whom it wakes: everybody if it freed more than one buffer.
  function AfterFlush(s: State, j: nat, flushed: bool, sorted: seq<Piece>, tty: Tty, job: Job): State
    requires j < |s.jobs|
  {
    var jobs := s.jobs[j := job];
    if flushed
    then State(tty, if |sorted| > 1 then WakeAll(jobs) else jobs, s.trace + Lines(j, |s.jobs[j].past|, sorted))
    else State(tty, jobs, s.trace)
  }

  // TerminalIoEmit and TerminalIoJobExit from one lock acquisition to the next release.
  ghost function LockedEmit(s: State, j: nat, sorted: seq<Piece>): State
    requires j < |s.jobs| && s.jobs[j].phase.Emitting? && InBounds(s.tty, s.jobs[j].phase.buf)
  {
    var job := s.jobs[j];
    var Emitting(key, toStderr, rest, buf) := job.phase;
    var e := EmitSection(s.tty, j, key, toStderr, rest, buf);
    var current := job.current.(
      pieces := job.current.pieces + e.made,
      buffered := if e.flushed.Some? then |job.current.pieces| else job.current.buffered);
    var phase :=
      match e.stop
      case Finished => Idle
      case Waits => Emitting(key, toStderr, e.rest, e.buf)
      case Writes => Writing(key, toStderr, e.rest);
    AfterFlush(s, j, e.flushed.Some?, sorted, e.tty, job.(phase := phase, asleep := e.stop.Waits?, current := current))
  }

  function LockedExit(s: State, j: nat, sorted: seq<Piece>): State
    requires j < |s.jobs| && Bounded(s.tty)
  {
    var job := s.jobs[j];
    if !MayTake(s.tty, j) then s.(jobs := s.jobs[j := job.(asleep := true)])
    else
      var ended := job.current.(buffered := if s.tty.owner == j then job.current.buffered else |job.current.pieces|);
      AfterFlush(s, j, true, sorted, Compact(s.tty.(owner := j), j, 0).(owner := -1),
                 Job(Announcing, false, Fresh(), job.past + [ended]))
  }

  ghost function Apply(s: State, step: Step): State
    requires Enabled(s, step)
  {
    var j := step.job;
    var job := s.jobs[j];
    match step
    case Call(_, key, toStderr, data) =>
      var calls := job.current.calls + [Piece(j, key, toStderr, data)];
      s.(jobs := s.jobs[j := job.(phase := Emitting(key, toStderr, data, None),
                                  current := job.current.(calls := calls))])
    case CallExit(_) => s.(jobs := s.jobs[j := job.(phase := Exiting)])
    case Locked(_, sorted) => if job.phase.Emitting? then LockedEmit(s, j, sorted) else LockedExit(s, j, sorted)
    case Write(_) =>
      var p := Piece(j, job.phase.key, job.phase.toStderr, job.phase.rest);
      State(s.tty,
            s.jobs[j := job.(phase := Idle, current := job.current.(pieces := job.current.pieces + [p]))],
            s.trace + [Line(j, |job.past|, p)])
    case Announce(_) => s.(jobs := WakeAll(s.jobs[j := job.(phase := Idle)]))
    case Wake(_) => s.(jobs := s.jobs[j := job.(asleep := false)])
  }

  ghost predicate IsRun(jobCount: nat, states: seq<State>, steps: seq<Step>)
  {
    && |states| == |steps| + 1 && states[0] == InitialState(jobCount)
    && forall i :: 0 <= i < |steps| ==> Enabled(states[i], steps[i]) && states[i + 1] == Apply(states[i], steps[i])
  }

  ghost predicate Reachable(jobCount: nat, s: State)
  {
    exists states, steps :: IsRun(jobCount, states, steps) && s == states[|states| - 1]
  }

  /* ---- What is on the terminal ---- */

  function Written(trace: seq<Line>, job: nat, session: nat): seq<Piece>
  {
    if trace == [] then []
    else
      var n := |trace| - 1;
      Written(trace[..n], job, session)
      + if trace[n].job == job && trace[n].session == session then [trace[n].piece] else []
  }

  lemma {:induction false} WrittenAppend(trace: seq<Line>, l: Line, job: nat, session: nat)
    ensures Written(trace + [l], job, session)
            == Written(trace, job, session) + if l.job == job && l.session == session then [l.piece] else []
  {
    assert (trace + [l])[..|trace|] == trace;
  }

  lemma {:induction false} LinesLast(trace: seq<Line>, j: nat, n: nat, ps: seq<Piece>)
    requires ps != []
    ensures trace + Lines(j, n, ps) == (trace + Lines(j, n, ps[..|ps| - 1])) + [Line(j, n, ps[|ps| - 1])]
  {
  }

  lemma {:induction false} Regroup(before: seq<Piece>, ps: seq<Piece>)
    requires ps != []
    ensures (before + ps[..|ps| - 1]) + [ps[|ps| - 1]] == before + ps
    ensures before + [] == before
  {
  }

  lemma {:induction false} WrittenLines(trace: seq<Line>, j: nat, n: nat, ps: seq<Piece>, job: nat, session: nat)
    ensures Written(trace + Lines(j, n, ps), job, session)
            == if j == job && n == session then Written(trace, job, session) + ps else Written(trace, job, session)
  {
    if ps == [] {
      assert trace + Lines(j, n, ps) == trace;
    } else {
      var m := |ps| - 1;
      WrittenLines(trace, j, n, ps[..m], job, session);
      LinesLast(trace, j, n, ps);
      WrittenAppend(trace + Lines(j, n, ps[..m]), Line(j, n, ps[m]), job, session);
      Regroup(Written(trace, job, session), ps);
    }
  }

  lemma {:induction false} WrittenNone(trace: seq<Line>, job: nat, session: nat)
    requires forall i :: 0 <= i < |trace| ==> trace[i].job != job || trace[i].session != session
    ensures Written(trace, job, session) == []
  {
    if trace != [] {
      WrittenNone(trace[..|trace| - 1], job, session);
    }
  }

  ghost predicate Same(k: Line, l: Line)
  {
    k.job == l.job && k.session == l.session
  }

  // The writes of each session are contiguous.
  ghost predicate Contiguous(trace: seq<Line>)
  {
    forall i, k, l :: 0 <= i < k < l < |trace| && Same(trace[i], trace[l]) ==> Same(trace[i], trace[k])
  }

  /* ---- The invariant ---- */

  // The buffered pieces come first, as qsort left them; the rest follow in the order they were emitted.
  ghost predicate Printed(x: Session, written: seq<Piece>)
  {
    && x.buffered <= |x.pieces| == |written|
    && SortedFrom(multiset(x.pieces[..x.buffered]), written[..x.buffered])
    && written[x.buffered..] == x.pieces[x.buffered..]
  }

  function Unsent(phase: Phase): seq<Byte>
  {
    if phase.Emitting? || phase.Writing? then PieceBytes(phase.key, phase.toStderr, phase.rest) else []
  }

  // A job, what it has on the terminal in this session, what it has queued, and whether it owns the terminal.
  ghost predicate JobFacts(job: Job, written: seq<Piece>, mine: multiset<Piece>, owns: bool)
  {
    && Bytes(job.current.pieces) + Unsent(job.phase) == Bytes(job.current.calls)
    && (owns ==> mine == multiset{} && Printed(job.current, written))
    && (!owns ==> mine == multiset(job.current.pieces) && written == [])
    && (job.phase.Writing? ==> owns)
    && (job.phase.Emitting? ==> job.phase.buf.None?)
  }

  ghost predicate JobOk(s: State, j: nat)
    requires j < |s.jobs| && Below(s.tty.queued, |s.tty.bufs|)
  {
    JobFacts(s.jobs[j], Written(s.trace, j, |s.jobs[j].past|), Mine(s.tty.queued, s.tty.bufs, j), s.tty.owner == j)
  }

  ghost predicate PastOk(s: State, j: nat, n: nat)
    requires j < |s.jobs| && n < |s.jobs[j].past|
  {
    var x := s.jobs[j].past[n];
    Bytes(x.pieces) == Bytes(x.calls) && Printed(x, Written(s.trace, j, n))
  }

  ghost predicate Current(s: State, l: Line)
  {
    l.job < |s.jobs| && l.session == |s.jobs[l.job].past|
  }

  ghost predicate TraceOk(s: State)
  {
    && (forall i :: 0 <= i < |s.trace| ==>
          s.trace[i].job < |s.jobs| && s.trace[i].session <= |s.jobs[s.trace[i].job].past|)
    && (forall i :: 0 <= i < |s.trace| && Current(s, s.trace[i]) ==> s.tty.owner == s.trace[i].job)
    && (forall i :: 0 <= i < |s.trace| && Current(s, s.trace[i]) ==> Same(s.trace[i], s.trace[|s.trace| - 1]))
    && Contiguous(s.trace)
  }

  ghost predicate PoolInv(s: State)
  {
    PoolOk(s.tty) && Bounded(s.tty) && -1 <= s.tty.owner < |s.jobs|
  }

  ghost predicate SomeAnnouncing(jobs: seq<Job>)
  {
    exists k :: 0 <= k < |jobs| && jobs[k].phase.Announcing?
  }

  // A sleeper sleeps inside a call; another job has the terminal, or a broadcast is due.
  ghost predicate SleepersOk(s: State)
  {
    forall j :: 0 <= j < |s.jobs| && s.jobs[j].asleep ==>
      && (s.jobs[j].phase.Emitting? || s.jobs[j].phase.Exiting?) && s.tty.owner != j
      && (s.tty.owner == -1 ==> SomeAnnouncing(s.jobs))
  }

  ghost predicate Inv(s: State)
  {
    && PoolInv(s)
    && TraceOk(s)
    && SleepersOk(s)
    && AllJobs(s)
    && AllPast(s)
  }

  ghost predicate AllJobs(s: State)
    requires Below(s.tty.queued, |s.tty.bufs|)
  {
    forall j :: 0 <= j < |s.jobs| ==> JobOk(s, j)
  }

  ghost predicate AllPast(s: State)
  {
    forall j, n :: 0 <= j < |s.jobs| && 0 <= n < |s.jobs[j].past| ==> PastOk(s, j, n)
  }

  lemma {:induction false} InitialInv(jobCount: nat)
    ensures Inv(InitialState(jobCount))
  {
    var s := InitialState(jobCount);
    PoolFromParts(s.tty);
  }

  /* ---- Appending lines of the owner's session ---- */

  lemma {:induction false} AppendContiguous(trace: seq<Line>, lines: seq<Line>)
    requires Contiguous(trace)
    requires forall i, k :: 0 <= i < |lines| && 0 <= k < |lines| ==> Same(lines[i], lines[k])
    requires forall i, k :: 0 <= i < |trace| && 0 <= k < |lines| && Same(trace[i], lines[k]) ==>
               Same(trace[|trace| - 1], lines[k])
    ensures Contiguous(trace + lines)
  {
    var all := trace + lines;
    forall i, k, l | 0 <= i < k < l < |all| && Same(all[i], all[l]) ensures Same(all[i], all[k]) {
      if l >= |trace| && i < |trace| && k < |trace| {
        assert Same(trace[i], lines[l - |trace|]);
        var last := |trace| - 1;
        assert Same(trace[last], all[l]);
        if k < last {
          assert Same(trace[i], trace[last]);
        }
      }
    }
  }

  // A step of job j that leaves the other jobs alone, but for waking them, and appends lines of j's session.
  ghost predicate Appends(s: State, s': State, j: nat, ps: seq<Piece>)
  {
    && j < |s.jobs| == |s'.jobs|
    && (forall k :: 0 <= k < |s.jobs| && k != j ==> s'.jobs[k] == s.jobs[k].(asleep := s'.jobs[k].asleep))
    && s'.trace == s.trace + Lines(j, |s.jobs[j].past|, ps)
  }

  lemma {:induction false} AppendTrace(s: State, s': State, j: nat, ps: seq<Piece>)
    requires TraceOk(s) && Appends(s, s', j, ps)
    requires s.tty.owner == -1 || s.tty.owner == j
    requires |s'.jobs[j].past| == |s.jobs[j].past| + if s'.tty.owner == j then 0 else 1
    requires s'.tty.owner == j || s'.tty.owner == -1
    ensures TraceOk(s')
  {
    AppendContiguous(s.trace, Lines(j, |s.jobs[j].past|, ps));
    forall i | 0 <= i < |s'.trace| && Current(s', s'.trace[i])
      ensures s'.tty.owner == s'.trace[i].job && Same(s'.trace[i], s'.trace[|s'.trace| - 1])
    {
      if i < |s.trace| {
        var l := s.trace[i];
        assert s'.trace[i] == l;
        assert Current(s, l) ==> s.tty.owner == l.job;
        assert l.job != j ==> (Current(s, l) <==> Current(s', l));
      }
    }
  }

  lemma {:induction false} KeepTrace(s: State, s': State)
    requires TraceOk(s) && |s'.jobs| == |s.jobs| && s'.trace == s.trace && s'.tty.owner == s.tty.owner
    requires forall k :: 0 <= k < |s.jobs| ==> s'.jobs[k].past == s.jobs[k].past
    ensures TraceOk(s')
  {
    assert forall l :: Current(s', l) <==> Current(s, l);
  }

  /* ---- Preservation, one kind of step at a time ---- */

  // The other jobs' share of the pool and of the trace is untouched.
  lemma {:induction false} OtherJobOk(s: State, s': State, j: nat, ps: seq<Piece>, k: nat)
    requires PoolInv(s) && PoolInv(s') && Appends(s, s', j, ps) && k < |s.jobs| && k != j && JobOk(s, k)
    requires Mine(s'.tty.queued, s'.tty.bufs, k) == Mine(s.tty.queued, s.tty.bufs, k)
    requires s'.tty.owner == k <==> s.tty.owner == k
    ensures JobOk(s', k)
  {
    WrittenLines(s.trace, j, |s.jobs[j].past|, ps, k, |s.jobs[k].past|);
  }

  lemma {:induction false} OtherPastOk(s: State, s': State, j: nat, ps: seq<Piece>, k: nat, n: nat)
    requires Appends(s, s', j, ps) && k < |s.jobs| && n < |s.jobs[k].past| && PastOk(s, k, n)
    requires n < |s'.jobs[k].past| && s'.jobs[k].past[n] == s.jobs[k].past[n]
    ensures PastOk(s', k, n)
  {
    WrittenLines(s.trace, j, |s.jobs[j].past|, ps, k, n);
  }

  ghost predicate OthersKept(s: State, s': State, j: nat)
    requires PoolInv(s) && PoolInv(s') && |s'.jobs| == |s.jobs|
  {
    forall k: nat :: k < |s.jobs| && k != j ==>
      && Mine(s'.tty.queued, s'.tty.bufs, k) == Mine(s.tty.queued, s.tty.bufs, k)
      && (s'.tty.owner == k <==> s.tty.owner == k)
  }

  lemma {:induction false} AllJobsOk(s: State, s': State, j: nat, ps: seq<Piece>)
    requires PoolInv(s) && PoolInv(s') && Appends(s, s', j, ps) && OthersKept(s, s', j) && AllJobs(s) && JobOk(s', j)
    ensures AllJobs(s')
  {
    forall k: nat | k < |s'.jobs| && k != j ensures JobOk(s', k) {
      assert JobOk(s, k);
      OtherJobOk(s, s', j, ps, k);
    }
  }

  lemma {:induction false} AllPastOk(s: State, s': State, j: nat, ps: seq<Piece>)
    requires Appends(s, s', j, ps) && s'.jobs[j].past == s.jobs[j].past && AllPast(s)
    ensures AllPast(s')
  {
    forall k, n | 0 <= k < |s'.jobs| && 0 <= n < |s'.jobs[k].past| ensures PastOk(s', k, n) {
      OtherPastOk(s, s', j, ps, k, n);
    }
  }

  // Sleepers elsewhere stay as they were or wake up; terminal and broadcasts do not change to their disadvantage.
  lemma {:induction false} SleepersStay(s: State, s': State, j: nat)
    requires SleepersOk(s) && j < |s.jobs| == |s'.jobs|
    requires forall k :: 0 <= k < |s.jobs| && k != j ==> s'.jobs[k] == s.jobs[k].(asleep := s'.jobs[k].asleep)
    requires forall k :: 0 <= k < |s.jobs| && k != j && s'.jobs[k].asleep ==> s.jobs[k].asleep
    requires s'.tty.owner == s.tty.owner || s'.tty.owner == j || (s'.tty.owner == -1 && s'.jobs[j].phase.Announcing?)
    requires s.jobs[j].phase.Announcing? ==> s'.jobs[j].phase.Announcing?
    requires s'.jobs[j].asleep ==>
               && (s'.jobs[j].phase.Emitting? || s'.jobs[j].phase.Exiting?) && s'.tty.owner != j
               && (s'.tty.owner == -1 ==> SomeAnnouncing(s'.jobs))
    ensures SleepersOk(s')
  {
    if s'.tty.owner == -1 && s.tty.owner == -1 && SomeAnnouncing(s.jobs) {
      var k :| 0 <= k < |s.jobs| && s.jobs[k].phase.Announcing?;
      assert s'.jobs[k].phase.Announcing?;
    }
  }

  // Steps that only move job j between phases (and log a call).
  lemma {:induction false} QuietStep(s: State, s': State, j: nat)
    requires Inv(s) && Appends(s, s', j, []) && s'.tty == s.tty && s'.trace == s.trace
    requires s'.jobs[j].past == s.jobs[j].past && JobOk(s', j) && SleepersOk(s')
    ensures Inv(s')
  {
    KeepTrace(s, s');
    AllPastOk(s, s', j, []);
    AllJobsOk(s, s', j, []);
  }

  lemma {:induction false} NoLines(s: State, j: nat)
    requires j < |s.jobs|
    ensures s.trace + Lines(j, |s.jobs[j].past|, []) == s.trace
  {
  }

  lemma {:induction false} CallFacts(job: Job, written: seq<Piece>, mine: multiset<Piece>, owns: bool, p: Piece)
    requires JobFacts(job, written, mine, owns) && job.phase.Idle?
    ensures JobFacts(job.(phase := Emitting(p.key, p.toStderr, p.data, None),
                          current := job.current.(calls := job.current.calls + [p])), written, mine, owns)
  {
    BytesAppend(job.current.calls, p);
    assert Bytes(job.current.pieces) + [] == Bytes(job.current.pieces);
  }

  // The steps that concern one job only.
  ghost predicate Private(step: Step)
  {
    step.Call? || step.CallExit? || step.Announce? || step.Wake?
  }

  lemma {:induction false} PrivateJobOk(s: State, step: Step)
    requires PoolInv(s) && Private(step) && Enabled(s, step) && JobOk(s, step.job)
    ensures JobOk(Apply(s, step), step.job)
  {
    var j := step.job;
    if step.Call? {
      CallFacts(s.jobs[j], Written(s.trace, j, |s.jobs[j].past|), Mine(s.tty.queued, s.tty.bufs, j), s.tty.owner == j,
                Piece(j, step.key, step.toStderr, step.data));
    }
  }

  lemma {:induction false} PrivateAppends(s: State, step: Step)
    requires Private(step) && Enabled(s, step)
    ensures var s' := Apply(s, step);
            && Appends(s, s', step.job, []) && s'.tty == s.tty && s'.trace == s.trace
            && s'.jobs[step.job].past == s.jobs[step.job].past
  {
    NoLines(s, step.job);
  }

  lemma {:induction false} PrivateSleepers(s: State, step: Step)
    requires SleepersOk(s) && Private(step) && Enabled(s, step)
    ensures SleepersOk(Apply(s, step))
  {
    if !step.Announce? {
      SleepersStay(s, Apply(s, step), step.job);
    }
  }

  lemma {:induction false} PrivateKeeps(s: State, step: Step)
    requires Inv(s) && Private(step) && Enabled(s, step)
    ensures Inv(Apply(s, step))
  {
    PrivateJobOk(s, step);
    PrivateAppends(s, step);
    PrivateSleepers(s, step);
    QuietStep(s, Apply(s, step), step.job);
  }

  lemma {:induction false} PrintedAppend(x: Session, written: seq<Piece>, p: Piece)
    requires Printed(x, written)
    ensures Printed(x.(pieces := x.pieces + [p]), written + [p])
  {
    var b := x.buffered;
    assert (x.pieces + [p])[..b] == x.pieces[..b];
    assert (written + [p])[..b] == written[..b];
    assert (written + [p])[b..] == written[b..] + [p] == (x.pieces + [p])[b..];
  }

  lemma {:induction false} WriteFacts(job: Job, written: seq<Piece>, mine: multiset<Piece>, owns: bool, p: Piece)
    requires JobFacts(job, written, mine, owns) && job.phase.Writing?
    requires p.key == job.phase.key && p.toStderr == job.phase.toStderr && p.data == job.phase.rest
    ensures owns
    ensures JobFacts(job.(phase := Idle, current := job.current.(pieces := job.current.pieces + [p])),
                     written + [p], mine, owns)
  {
    BytesAppend(job.current.pieces, p);
    PrintedAppend(job.current, written, p);
    assert Bytes(job.current.pieces + [p]) + [] == Bytes(job.current.pieces + [p]);
  }

  function Direct(s: State, j: nat): Piece
    requires j < |s.jobs| && s.jobs[j].phase.Writing?
  {
    Piece(j, s.jobs[j].phase.key, s.jobs[j].phase.toStderr, s.jobs[j].phase.rest)
  }

  lemma {:induction false} WriteJobOk(s: State, step: Step)
    requires PoolInv(s) && step.Write? && Enabled(s, step) && JobOk(s, step.job)
    ensures s.tty.owner == step.job && JobOk(Apply(s, step), step.job)
    ensures Appends(s, Apply(s, step), step.job, [Direct(s, step.job)])
  {
    var j, job, p := step.job, s.jobs[step.job], Direct(s, step.job);
    assert Lines(j, |job.past|, [p]) == [Line(j, |job.past|, p)];
    WrittenAppend(s.trace, Line(j, |job.past|, p), j, |job.past|);
    WriteFacts(job, Written(s.trace, j, |job.past|), Mine(s.tty.queued, s.tty.bufs, j), s.tty.owner == j, p);
  }

  lemma {:induction false} WriteFrame(s: State, step: Step)
    requires SleepersOk(s) && step.Write? && Enabled(s, step)
    ensures var s' := Apply(s, step);
            s'.tty == s.tty && s'.jobs[step.job].past == s.jobs[step.job].past && SleepersOk(s')
  {
    SleepersStay(s, Apply(s, step), step.job);
  }

  lemma {:induction false} WriteKeeps(s: State, step: Step)
    requires Inv(s) && step.Write? && Enabled(s, step)
    ensures Inv(Apply(s, step))
  {
    var j, s' := step.job, Apply(s, step);
    var ps := [Direct(s, j)];
    WriteJobOk(s, step);
    WriteFrame(s, step);
    AppendTrace(s, s', j, ps);
    AllPastOk(s, s', j, ps);
    AllJobsOk(s, s', j, ps);
  }

  // Flushing everything that is queued completes the session's output.
  lemma {:induction false} FlushPrints(x: Session, sorted: seq<Piece>)
    requires SortedFrom(multiset(x.pieces), sorted)
    ensures Printed(x.(buffered := |x.pieces|), sorted)
  {
    assert |multiset(sorted)| == |sorted| && |multiset(x.pieces)| == |x.pieces|;
    assert x.pieces[..|x.pieces|] == x.pieces && sorted[..|x.pieces|] == sorted;
  }

  /* ---- Emitting without the terminal ---- */

  // Job j, in TerminalIoEmit with data left and `buf` null, cannot have the terminal.
  ghost predicate MustHold(s: State, j: nat)
  {
    && PoolInv(s) && j < |s.jobs| && s.jobs[j].phase.Emitting? && s.jobs[j].phase.buf.None?
    && s.jobs[j].phase.rest != "" && !MayTake(s.tty, j)
  }

  ghost function HeldBy(s: State, j: nat): Held
    requires j < |s.jobs| && s.jobs[j].phase.Emitting? && Below(s.tty.free, |s.tty.bufs|)
  {
    HoldAll(s.tty, j, s.jobs[j].phase.key, s.jobs[j].phase.toStderr, s.jobs[j].phase.rest)
  }

  lemma {:induction false} HoldIs(s: State, j: nat, sorted: seq<Piece>)
    requires MustHold(s, j)
    ensures var s', h, job := LockedEmit(s, j, sorted), HeldBy(s, j), s.jobs[j];
            && s'.tty == h.tty && s'.trace == s.trace && h.tty.owner == s.tty.owner
            && s'.jobs == s.jobs[j := s'.jobs[j]] && s'.jobs[j].past == job.past
            && s'.jobs[j].current == job.current.(pieces := job.current.pieces + h.made)
            && s'.jobs[j].phase == (if h.rest == "" then Idle
                                    else Emitting(job.phase.key, job.phase.toStderr, h.rest, None))
            && s'.jobs[j].asleep == (h.rest != "")
  {
    var phase := s.jobs[j].phase;
    EmitHolds(s.tty, j, phase.key, phase.toStderr, phase.rest, None);
    HoldAllKeeps(s.tty, j, phase.key, phase.toStderr, phase.rest, j);
  }

  lemma {:induction false} HoldFacts(job: Job, job': Job, mine: multiset<Piece>, made: seq<Piece>, rest: string)
    requires JobFacts(job, [], mine, false) && job.phase.Emitting?
    requires PieceBytes(job.phase.key, job.phase.toStderr, job.phase.rest) ==
             Bytes(made) + PieceBytes(job.phase.key, job.phase.toStderr, rest)
    requires job'.current == job.current.(pieces := job.current.pieces + made)
    requires job'.phase == if rest == "" then Idle else Emitting(job.phase.key, job.phase.toStderr, rest, None)
    ensures JobFacts(job', [], mine + multiset(made), false)
  {
    var pieces := job.current.pieces;
    BytesConcat(pieces, made);
    assert Unsent(job'.phase) == PieceBytes(job.phase.key, job.phase.toStderr, rest);
    assert (Bytes(pieces) + Bytes(made)) + Unsent(job'.phase) == Bytes(pieces) + (Bytes(made) + Unsent(job'.phase));
  }

  lemma {:induction false} HoldPool(s: State, j: nat, sorted: seq<Piece>, k: nat)
    requires MustHold(s, j) && k < |s.jobs|
    ensures var s' := LockedEmit(s, j, sorted);
            && PoolInv(s')
            && Mine(s'.tty.queued, s'.tty.bufs, k)
               == Mine(s.tty.queued, s.tty.bufs, k) + if k == j then multiset(HeldBy(s, j).made) else multiset{}
  {
    var phase := s.jobs[j].phase;
    HoldIs(s, j, sorted);
    HoldAllKeeps(s.tty, j, phase.key, phase.toStderr, phase.rest, k);
  }

  lemma {:induction false} HoldJobOk(s: State, j: nat, sorted: seq<Piece>)
    requires MustHold(s, j) && JobOk(s, j)
    ensures PoolInv(LockedEmit(s, j, sorted)) && JobOk(LockedEmit(s, j, sorted), j)
  {
    var s', job, h := LockedEmit(s, j, sorted), s.jobs[j], HeldBy(s, j);
    HoldIs(s, j, sorted);
    HoldPool(s, j, sorted, j);
    HoldAllBytes(s.tty, j, job.phase.key, job.phase.toStderr, job.phase.rest);
    HoldFacts(job, s'.jobs[j], Mine(s.tty.queued, s.tty.bufs, j), h.made, h.rest);
  }

  lemma {:induction false} OthersAfterHold(s: State, j: nat, sorted: seq<Piece>)
    requires MustHold(s, j)
    ensures var s' := LockedEmit(s, j, sorted); PoolInv(s') && Appends(s, s', j, []) && OthersKept(s, s', j)
  {
    HoldIs(s, j, sorted);
    HoldPool(s, j, sorted, j);
    NoLines(s, j);
    forall k: nat | k < |s.jobs| && k != j {
      HoldPool(s, j, sorted, k);
    }
  }

  lemma {:induction false} HoldKeepsInv(s: State, j: nat, sorted: seq<Piece>)
    requires Inv(s) && MustHold(s, j)
    ensures Inv(LockedEmit(s, j, sorted))
  {
    var s' := LockedEmit(s, j, sorted);
    HoldIs(s, j, sorted);
    HoldJobOk(s, j, sorted);
    OthersAfterHold(s, j, sorted);
    AllJobsOk(s, s', j, []);
    KeepTrace(s, s');
    AllPastOk(s, s', j, []);
    SleepersStay(s, s', j);
  }

  /* ---- Emitting with the terminal ---- */

  ghost predicate MayWrite(s: State, j: nat)
  {
    && PoolInv(s) && j < |s.jobs| && s.jobs[j].phase.Emitting? && s.jobs[j].phase.buf.None?
    && s.jobs[j].phase.rest != "" && MayTake(s.tty, j)
  }

  lemma {:induction false} TakeFacts(job: Job, job': Job, mine: multiset<Piece>, sorted: seq<Piece>)
    requires JobFacts(job, [], mine, false) && job.phase.Emitting? && SortedFrom(mine, sorted)
    requires job'.current == job.current.(buffered := |job.current.pieces|)
    requires job'.phase == Writing(job.phase.key, job.phase.toStderr, job.phase.rest)
    ensures JobFacts(job', sorted, multiset{}, true)
  {
    FlushPrints(job.current, sorted);
  }

  lemma {:induction false} TakeIs(s: State, j: nat, sorted: seq<Piece>)
    requires MayWrite(s, j) && s.tty.owner == -1
    ensures var s', job := LockedEmit(s, j, sorted), s.jobs[j];
            && PoolInv(s') && s'.tty.owner == j && Mine(s'.tty.queued, s'.tty.bufs, j) == multiset{}
            && Appends(s, s', j, sorted)
            && (forall k :: 0 <= k < |s.jobs| && k != j && s'.jobs[k].asleep ==> s.jobs[k].asleep)
            && s'.jobs[j].current == job.current.(pieces := job.current.pieces + [], buffered := |job.current.pieces|)
            && s'.jobs[j].phase == Writing(job.phase.key, job.phase.toStderr, job.phase.rest)
            && s'.jobs[j].past == job.past && !s'.jobs[j].asleep
  {
    CompactKeeps(s.tty.(owner := j), j, 0, j);
    PoolFacts(LockedEmit(s, j, sorted).tty);
  }

  lemma {:induction false} TakeJobOk(s: State, j: nat, sorted: seq<Piece>)
    requires MayWrite(s, j) && s.tty.owner == -1 && JobOk(s, j)
    requires SortedFrom(Mine(s.tty.queued, s.tty.bufs, j), sorted)
    ensures PoolInv(LockedEmit(s, j, sorted)) && JobOk(LockedEmit(s, j, sorted), j)
  {
    var s', job := LockedEmit(s, j, sorted), s.jobs[j];
    TakeIs(s, j, sorted);
    WrittenLines(s.trace, j, |job.past|, sorted, j, |job.past|);
    assert [] + sorted == sorted && job.current.pieces + [] == job.current.pieces;
    TakeFacts(job, s'.jobs[j], Mine(s.tty.queued, s.tty.bufs, j), sorted);
  }

  lemma {:induction false} TakeKeeps(s: State, j: nat, sorted: seq<Piece>)
    requires Inv(s) && MayWrite(s, j) && s.tty.owner == -1
    requires SortedFrom(Mine(s.tty.queued, s.tty.bufs, j), sorted)
    ensures Inv(LockedEmit(s, j, sorted))
  {
    var s' := LockedEmit(s, j, sorted);
    TakeIs(s, j, sorted);
    TakeJobOk(s, j, sorted);
    AppendTrace(s, s', j, sorted);
    AllPastOk(s, s', j, sorted);
    SleepersStay(s, s', j);
    forall k: nat | k < |s'.jobs| && k != j {
      CompactKeeps(s.tty.(owner := j), j, 0, k);
    }
    AllJobsOk(s, s', j, sorted);
  }

  // The owner, or a job with nothing left to emit, moves on without touching the pool.
  lemma {:induction false} PlainKeeps(s: State, j: nat, sorted: seq<Piece>)
    requires Inv(s) && j < |s.jobs| && s.jobs[j].phase.Emitting? && !s.jobs[j].asleep && s.jobs[j].phase.buf.None?
    requires s.jobs[j].phase.rest == "" || s.tty.owner == j
    ensures Inv(LockedEmit(s, j, sorted))
  {
    var s' := LockedEmit(s, j, sorted);
    NoLines(s, j);
    assert s.jobs[j].current.pieces + [] == s.jobs[j].current.pieces;
    assert s.jobs[j].phase.rest == "" ==> Unsent(s.jobs[j].phase) == [];
    assert JobOk(s, j);
    SleepersStay(s, s', j);
    QuietStep(s, s', j);
  }

  lemma {:induction false} EmitKeeps(s: State, step: Step)
    requires Inv(s) && step.Locked? && Enabled(s, step) && s.jobs[step.job].phase.Emitting?
    ensures Inv(Apply(s, step))
  {
    var j := step.job;
    assert JobOk(s, j);
    if s.jobs[j].phase.rest == "" || s.tty.owner == j {
      PlainKeeps(s, j, step.sorted);
    } else if s.tty.owner == -1 {
      TakeKeeps(s, j, step.sorted);
    } else {
      HoldKeepsInv(s, j, step.sorted);
    }
  }

  /* ---- Exiting ---- */

  // What the exiting job leaves behind.
  lemma {:induction false} ExitFacts(
    x: Session, written: seq<Piece>, mine: multiset<Piece>, owns: bool, sorted: seq<Piece>)
    requires SortedFrom(mine, sorted)
    requires owns ==> mine == multiset{} && Printed(x, written)
    requires !owns ==> mine == multiset(x.pieces) && written == []
    ensures Printed(x.(buffered := if owns then x.buffered else |x.pieces|), written + sorted)
  {
    if owns {
      assert |multiset(sorted)| == |sorted|;
      assert written + sorted == written && x.(buffered := x.buffered) == x;
    } else {
      assert [] + sorted == sorted;
      FlushPrints(x, sorted);
    }
  }

  lemma {:induction false} ExitPrints(s: State, j: nat, sorted: seq<Piece>)
    requires PoolInv(s) && j < |s.jobs| && JobOk(s, j) && s.jobs[j].phase.Exiting? && MayTake(s.tty, j)
    requires SortedFrom(Mine(s.tty.queued, s.tty.bufs, j), sorted)
    ensures PastOk(LockedExit(s, j, sorted), j, |s.jobs[j].past|)
  {
    var job := s.jobs[j];
    var written := Written(s.trace, j, |job.past|);
    WrittenLines(s.trace, j, |job.past|, sorted, j, |job.past|);
    ExitFacts(job.current, written, Mine(s.tty.queued, s.tty.bufs, j), s.tty.owner == j, sorted);
    assert Bytes(job.current.pieces) + [] == Bytes(job.current.pieces);
  }

  lemma {:induction false} ExitIs(s: State, j: nat, sorted: seq<Piece>)
    requires PoolInv(s) && j < |s.jobs| && MayTake(s.tty, j)
    ensures var s' := LockedExit(s, j, sorted);
            && PoolInv(s') && s'.tty.owner == -1 && Mine(s'.tty.queued, s'.tty.bufs, j) == multiset{}
            && Appends(s, s', j, sorted)
            && (forall k :: 0 <= k < |s.jobs| && k != j && s'.jobs[k].asleep ==> s.jobs[k].asleep)
            && s'.jobs[j].phase.Announcing? && !s'.jobs[j].asleep && s'.jobs[j].current == Fresh()
            && |s'.jobs[j].past| == |s.jobs[j].past| + 1 && s'.jobs[j].past[..|s.jobs[j].past|] == s.jobs[j].past
  {
    var s', t := LockedExit(s, j, sorted), s.tty.(owner := j);
    CompactKeeps(t, j, 0, j);
    PoolFacts(Compact(t, j, 0));
    PoolFromParts(s'.tty);
  }

  lemma {:induction false} ExitJobOk(s: State, j: nat, sorted: seq<Piece>)
    requires PoolInv(s) && TraceOk(s) && j < |s.jobs| && MayTake(s.tty, j)
    ensures PoolInv(LockedExit(s, j, sorted)) && JobOk(LockedExit(s, j, sorted), j)
  {
    var s' := LockedExit(s, j, sorted);
    ExitIs(s, j, sorted);
    WrittenNone(s'.trace, j, |s'.jobs[j].past|);
  }

  lemma {:induction false} ExitOthers(s: State, j: nat, sorted: seq<Piece>)
    requires PoolInv(s) && j < |s.jobs| && MayTake(s.tty, j) && PoolInv(LockedExit(s, j, sorted))
    ensures OthersKept(s, LockedExit(s, j, sorted), j)
  {
    forall k: nat | k < |s.jobs| && k != j {
      CompactKeeps(s.tty.(owner := j), j, 0, k);
    }
  }

  lemma {:induction false} ExitPast(s: State, j: nat, sorted: seq<Piece>)
    requires PoolInv(s) && j < |s.jobs| && JobOk(s, j) && s.jobs[j].phase.Exiting? && MayTake(s.tty, j) && AllPast(s)
    requires SortedFrom(Mine(s.tty.queued, s.tty.bufs, j), sorted)
    ensures AllPast(LockedExit(s, j, sorted))
  {
    var s' := LockedExit(s, j, sorted);
    ExitIs(s, j, sorted);
    forall k, n | 0 <= k < |s'.jobs| && 0 <= n < |s'.jobs[k].past| ensures PastOk(s', k, n) {
      if k == j && n == |s.jobs[j].past| {
        ExitPrints(s, j, sorted);
      } else {
        OtherPastOk(s, s', j, sorted, k, n);
      }
    }
  }

  lemma {:induction false} ExitKeeps(s: State, step: Step)
    requires Inv(s) && step.Locked? && Enabled(s, step) && s.jobs[step.job].phase.Exiting? && MayTake(s.tty, step.job)
    ensures Inv(Apply(s, step))
  {
    var j, sorted, s' := step.job, step.sorted, Apply(s, step);
    assert JobOk(s, j);
    ExitIs(s, j, sorted);
    ExitJobOk(s, j, sorted);
    AppendTrace(s, s', j, sorted);
    SleepersStay(s, s', j);
    ExitOthers(s, j, sorted);
    AllJobsOk(s, s', j, sorted);
    ExitPast(s, j, sorted);
  }

  lemma {:induction false} ExitWaits(s: State, step: Step)
    requires Inv(s) && step.Locked? && Enabled(s, step) && s.jobs[step.job].phase.Exiting? && !MayTake(s.tty, step.job)
    ensures Inv(Apply(s, step))
  {
    var j := step.job;
    NoLines(s, j);
    assert JobOk(s, j);
    SleepersStay(s, Apply(s, step), j);
    QuietStep(s, Apply(s, step), j);
  }

  lemma {:induction false} StepKeeps(s: State, step: Step)
    requires Inv(s) && Enabled(s, step)
    ensures Inv(Apply(s, step))
  {
    if step.Write? {
      WriteKeeps(s, step);
    } else if !step.Locked? {
      PrivateKeeps(s, step);
    } else if s.jobs[step.job].phase.Emitting? {
      EmitKeeps(s, step);
    } else if MayTake(s.tty, step.job) {
      ExitKeeps(s, step);
    } else {
      ExitWaits(s, step);
    }
  }

  lemma {:induction false} RunInvariant(jobCount: nat, states: seq<State>, steps: seq<Step>, i: nat)
    requires IsRun(jobCount, states, steps) && i < |states|
    ensures Inv(states[i])
  {
    if i == 0 {
      InitialInv(jobCount);
    } else {
      RunInvariant(jobCount, states, steps, i - 1);
      StepKeeps(states[i - 1], steps[i - 1]);
    }
  }

  lemma {:induction false} ReachableInv(jobCount: nat, s: State)
    requires Reachable(jobCount, s)
    ensures Inv(s)
  {
    var states, steps :| IsRun(jobCount, states, steps) && s == states[|states| - 1];
    RunInvariant(jobCount, states, steps, |states| - 1);
  }

  /* ---- Theorems ---- */

  // At every lock release all 64 buffers are accounted for, none in both lists and none queued twice.
  lemma {:induction false} BuffersConserved(jobCount: nat, s: State)
    requires Reachable(jobCount, s)
    ensures |s.tty.free| + |s.tty.queued| == 64
    ensures Distinct(s.tty.free) && Distinct(s.tty.queued)
    ensures forall b :: b in s.tty.free ==> b !in s.tty.queued
  {
    ReachableInv(jobCount, s);
    PoolFacts(s.tty);
  }

  // Whenever a job takes the lock in TerminalIoEmit, for the first time or after a wait, `buf` is null; and in every
  // turn of the loop it is null when the job may have the terminal, and a buffer to be queued is not queued already.
  lemma {:induction false} BufferNeverStale(jobCount: nat, s: State, j: nat)
    requires Reachable(jobCount, s) && j < |s.jobs| && s.jobs[j].phase.Emitting?
    ensures var phase := s.jobs[j].phase;
            && phase.buf.None? && InBounds(s.tty, phase.buf)
            && SafeTurns(s.tty, j, phase.key, phase.toStderr, phase.rest, phase.buf)
  {
    ReachableInv(jobCount, s);
    assert JobOk(s, j);
    var phase := s.jobs[j].phase;
    TurnsAreSafe(s.tty, j, phase.key, phase.toStderr, phase.rest, None);
  }

  // The output of different jobs never interleaves within a session.
  lemma {:induction false} SessionsContiguous(jobCount: nat, s: State)
    requires Reachable(jobCount, s)
    ensures Contiguous(s.trace)
  {
    ReachableInv(jobCount, s);
  }

  lemma {:induction false} TakeOut(qs: seq<Piece>, p: Piece) returns (front: seq<Piece>, back: seq<Piece>)
    requires p in qs
    ensures qs == (front + [p]) + back && multiset(front + back) == multiset(qs) - multiset{p}
    ensures multiset(Bytes(qs)) == multiset(Bytes(front + back)) + multiset(PieceBytes(p.key, p.toStderr, p.data))
  {
    var k :| 0 <= k < |qs| && qs[k] == p;
    front, back := qs[..k], qs[k + 1..];
    assert qs == (front + [p]) + back;
    BytesConcat(front + [p], back);
    BytesAppend(front, p);
    BytesConcat(front, back);
  }

  lemma {:induction false} BytesOfPermutation(ps: seq<Piece>, qs: seq<Piece>)
    requires multiset(ps) == multiset(qs)
    ensures multiset(Bytes(ps)) == multiset(Bytes(qs))
    decreases |ps|
  {
    if ps == [] {
      assert |multiset(qs)| == 0;
    } else {
      var n := |ps| - 1;
      assert ps[n] in multiset(qs);
      var front, back := TakeOut(qs, ps[n]);
      WithoutLast(ps);
      BytesOfPermutation(ps[..n], front + back);
    }
  }

  lemma {:induction false} PrintedMultiset(x: Session, written: seq<Piece>)
    requires Printed(x, written)
    ensures multiset(written) == multiset(x.pieces)
  {
    assert written == written[..x.buffered] + written[x.buffered..];
    assert x.pieces == x.pieces[..x.buffered] + x.pieces[x.buffered..];
  }

  // When a session has ended, what it emitted was cut into consecutive pieces, and the writes are those pieces, each
  // whole and exactly once; hence every byte was written exactly once, on its own descriptor.
  lemma {:induction false} WrittenExactlyOnce(jobCount: nat, s: State, j: nat, n: nat)
    requires Reachable(jobCount, s) && j < |s.jobs| && n < |s.jobs[j].past|
    ensures var x := s.jobs[j].past[n];
            && Bytes(x.pieces) == Bytes(x.calls)
            && multiset(Written(s.trace, j, n)) == multiset(x.pieces)
            && multiset(Bytes(Written(s.trace, j, n))) == multiset(Bytes(x.calls))
  {
    ReachableInv(jobCount, s);
    assert PastOk(s, j, n);
    var x := s.jobs[j].past[n];
    PrintedMultiset(x, Written(s.trace, j, n));
    BytesOfPermutation(Written(s.trace, j, n), x.pieces);
  }

  lemma {:induction false} PrintedInOrder(x: Session, written: seq<Piece>)
    requires Printed(x, written) && KeysAdvance(x.pieces[..x.buffered])
    ensures written == x.pieces
  {
    AdvanceKeepsOrder(x.pieces[..x.buffered], written[..x.buffered]);
    SameHalves(x.pieces, written, x.buffered);
  }

  lemma {:induction false} SameHalves(ps: seq<Piece>, qs: seq<Piece>, b: nat)
    requires b <= |ps| == |qs| && ps[..b] == qs[..b] && ps[b..] == qs[b..]
    ensures ps == qs
  {
    assert ps == ps[..b] + ps[b..] && qs == qs[..b] + qs[b..];
  }

  // ... and in the order it was emitted, when the keys of the buffered pieces advance.
  lemma {:induction false} WrittenInOrder(jobCount: nat, s: State, j: nat, n: nat)
    requires Reachable(jobCount, s) && j < |s.jobs| && n < |s.jobs[j].past|
    requires var x := s.jobs[j].past[n]; x.buffered <= |x.pieces| && KeysAdvance(x.pieces[..x.buffered])
    ensures Bytes(Written(s.trace, j, n)) == Bytes(s.jobs[j].past[n].calls)
  {
    ReachableInv(jobCount, s);
    assert PastOk(s, j, n);
    PrintedInOrder(s.jobs[j].past[n], Written(s.trace, j, n));
  }

  // A session still running that has not got the terminal has printed nothing; its owner has nothing queued.
  lemma {:induction false} OnlyTheOwnerPrints(jobCount: nat, s: State, j: nat)
    requires Reachable(jobCount, s) && j < |s.jobs|
    ensures s.tty.owner != j ==> Written(s.trace, j, |s.jobs[j].past|) == [] && !s.jobs[j].phase.Writing?
    ensures Below(s.tty.queued, |s.tty.bufs|)
    ensures s.tty.owner == j ==> Mine(s.tty.queued, s.tty.bufs, j) == multiset{}
  {
    ReachableInv(jobCount, s);
    assert JobOk(s, j);
  }

  // The owner's sections never put it to sleep.
  lemma {:induction false} OwnerNeverWaits(jobCount: nat, s: State, next: Step)
    requires Reachable(jobCount, s) && next.Locked? && Enabled(s, next) && next.job == s.tty.owner
    ensures !Apply(s, next).jobs[next.job].asleep
  {
    ReachableInv(jobCount, s);
    assert JobOk(s, next.job);
  }

  // No job sleeps with the terminal free for good: while it sleeps, another job that is awake has the terminal, or
  // a broadcast that wakes everybody is due.
  lemma {:induction false} SleepersAreWoken(jobCount: nat, s: State, j: nat)
    requires Reachable(jobCount, s) && j < |s.jobs| && s.jobs[j].asleep
    ensures s.tty.owner != j
    ensures s.tty.owner != -1 ==> 0 <= s.tty.owner < |s.jobs| && !s.jobs[s.tty.owner].asleep
    ensures s.tty.owner == -1 ==>
              exists k :: && 0 <= k < |s.jobs| && Enabled(s, Announce(k))
                          && forall i :: 0 <= i < |s.jobs| ==> !Apply(s, Announce(k)).jobs[i].asleep
  {
    ReachableInv(jobCount, s);
    if s.tty.owner == -1 {
      var k :| 0 <= k < |s.jobs| && s.jobs[k].phase.Announcing?;
      assert Enabled(s, Announce(k));
    }
  }
}
