/**
  ftl/process/subprocess.hpp, `run`, `collect` and `drain_once`, and ftl/io/pipe.hpp, `Pipe` and
  `write_all`, statement by statement over the system calls of `Worlds`.
 */
module Runner {
  import opened Descriptors
  import U = UniqueFds
  import opened Wiring
  import opened Clocks
  import opened Protocol
  import opened Tables
  import opened Streams
  import opened Runs
  import opened Worlds

  /** `hasStatus` says that the status is the child's; otherwise it is still -1. */
  datatype RunResult = RunResult(hasStatus: bool, timedOut: bool, output: Bytes, errorOutput: Bytes)

  /** `run` returns, throws, or is still inside a system call when nothing more happens around it. */
  datatype Outcome = Returned(result: RunResult) | Threw | Blocked

  /** Pipe::create */
  method PipeCreate(w: World, st: Stream) returns (ok: bool, rd: U.UniqueFd, wr: U.UniqueFd)
    requires w.Valid() && w.s.par.phase.Setup?
    modifies w`s, w`failures, w.os
    ensures w.Valid() && w.os.files.faults == old(w.os.files.faults) && fresh(rd) && fresh(wr) && rd != wr
    ensures w.s.par.phase == (if ok then Setup else Unwinding) && w.failures == old(w.failures) + if ok then 0 else 1
    ensures w.s.par.col == old(w.s.par.col) && w.s.par.tail == old(w.s.par.tail)
    ensures if ok then
              && rd.fd >= 0 && wr.fd >= 0
              && (w.s.par.table, rd.fd as nat, wr.fd as nat) == WithPipe(old(w.s.par.table), st)
            else
              w.s.par.table == old(w.s.par.table) && rd.fd == -1 && wr.fd == -1
  {
    var r, x := 0, 0;
    ok, r, x := w.MakePipe(st);
    if ok {
      rd := new U.UniqueFd.Own(r);
      wr := new U.UniqueFd.Own(x);
    } else {
      rd := new U.UniqueFd();
      wr := new U.UniqueFd();
    }
  }

  /** write_all; `false` when the call it is in blocks for good. */
  method WriteAll(w: World, data: Bytes) returns (finished: bool)
    requires w.Valid() && w.s.par.phase.Feeding? && w.s.par.tail == data
    modifies w`s, w`signals
    ensures w.Valid() && w.s.par.table == old(w.s.par.table) && w.s.par.col == old(w.s.par.col)
    ensures w.signals <= old(w.signals)
    ensures finished ==> w.s.par.phase.Fed?
    ensures !finished ==> w.s.par.phase.Feeding? && |w.s.inP.queue| + |w.s.par.tail| > w.c.capacity
  {
    var written := 0;
    while written < |data|
      invariant w.Valid() && w.s.par.table == old(w.s.par.table)
      invariant w.s.par.col == old(w.s.par.col) && w.s.par.phase.Feeding?
      invariant 0 <= written <= |data| && w.s.par.tail == data[written..] && w.signals <= old(w.signals)
      decreases |data| - written, w.signals
    {
      var r := w.Write(data[written..]);
      match r
      case WriteInterrupted =>
      case WriteFailed => return true;
      case WriteBlocks => return false;
      case Wrote(n) => written := written + n;
    }
    w.Do(Above(FeedDone));
    finished := true;
  }

  /** drain_once, on the first source that poll reported. */
  method DrainOnce(w: World, st: Stream, sink: Bytes, open: bool) returns (sink': Bytes, open': bool)
    requires w.Valid() && w.s.par.phase.Draining? && w.s.par.phase.ready != [] && w.s.par.phase.ready[0] == st
    modifies w`s, w`signals
    ensures w.Valid() && w.signals <= old(w.signals)
    ensures w.s.clock > old(w.s.clock) && w.s.par.phase == NextDrain(old(w.s).par.phase.ready)
    ensures Drains(old(w.s).par.col, w.s.par.col, st, sink, open, sink', open')
    ensures w.s.par.table == old(w.s.par.table)
  {
    hide World.Valid, AfterRead;
    var r: ReadResult := ReadInterrupted;
    while r.ReadInterrupted?
      invariant w.Valid() && w.signals <= old(w.signals)
      invariant if r.ReadInterrupted? then w.s.par == old(w.s.par) && w.s.clock >= old(w.s.clock)
                else AfterRead(old(w.s).par, w.s.par, st, r) && w.s.clock > old(w.s.clock)
      decreases r.ReadInterrupted?, w.signals
    {
      r := w.Read(st);
      InterruptedRead(old(w.s).par, w.s.par, st, r);
    }
    ReadDrains(old(w.s).par, w.s.par, st, r);
    sink', open' := sink, open;
    if r.Got? && r.bs != [] {
      sink' := sink + r.bs;
    } else {
      open' := false;
    }
  }

  lemma InterruptedRead(par: Parent, par': Parent, st: Stream, r: ReadResult)
    requires par.phase.Draining? && par.phase.ready != [] && AfterRead(par, par', st, r)
    ensures r.ReadInterrupted? ==> par' == par
  {
  }

  /** What a read that was not interrupted means for the sink and the flag of its source. */
  lemma ReadDrains(par: Parent, par': Parent, st: Stream, r: ReadResult)
    requires par.phase.Draining? && par.phase.ready != [] && AfterRead(par, par', st, r) && !r.ReadInterrupted?
    ensures par'.phase == NextDrain(par.phase.ready) && par'.table == par.table
    ensures forall sink, open ::
              if r.Got? && r.bs != [] then Drains(par.col, par'.col, st, sink, open, sink + r.bs, open)
              else Drains(par.col, par'.col, st, sink, open, sink, false)
  {
    hide NextDrain;
  }

  /** One source was drained: its sink and flag follow the collector's, and the other's stay. */
  ghost predicate Drains(
    col: Collector, col': Collector, st: Stream, sink: Bytes, open: bool, sink': Bytes, open': bool)
  {
    && col'.timedOut == col.timedOut && col'.killed == col.killed
    && col'.threw == col.threw && col'.deadline == col.deadline
    && col'.reaped == col.reaped
    && if st == Err then
         && col'.output == col.output && col'.outOpen == col.outOpen
         && (sink == col.errorOutput && open == col.errOpen ==> sink' == col'.errorOutput && open' == col'.errOpen)
       else
         && col'.errorOutput == col.errorOutput && col'.errOpen == col.errOpen
         && (sink == col.output && open == col.outOpen ==> sink' == col'.output && open' == col'.outOpen)
  }

  /** What `run` holds while it collects: the read ends of the outputs, at these numbers. */
  ghost predicate Holds(c: Config, t: Table, outFd: int, errFd: int) {
    && outFd >= 0 && outFd in t && t[outFd] == PipeEnd(Out, ReadEnd)
    && (errFd >= 0 <==> c.split) && (errFd >= 0 ==> errFd in t && t[errFd] == PipeEnd(Err, ReadEnd))
    && outFd != errFd
    && t - {outFd} - Number(errFd) == c.initial
  }

  function Number(fd: int): set<nat> {
    if fd >= 0 then {fd} else {}
  }

  /** The result of collect agrees with what the machine says was collected. */
  ghost predicate Reports(result: RunResult, col: Collector) {
    && result.hasStatus == col.reaped && result.timedOut == col.timedOut
    && result.output == col.output && result.errorOutput == col.errorOutput
  }

  /** The two destructors at the end of collect. */
  method CloseSources(w: World, ownedOut: U.UniqueFd, ownedErr: U.UniqueFd)
    requires w.Valid() && w.s.par.phase.Leaving? && Holds(w.c, w.s.par.table, ownedOut.fd, ownedErr.fd)
    modifies w`s, w.os
    ensures w.Valid() && w.os.files.faults == old(w.os.files.faults)
    ensures w.s.par == old(w.s.par).(table := w.c.initial)
  {
    w.Destroy(ownedErr);
    w.Destroy(ownedOut);
    assert w.s.par.table == w.c.initial;
  }

  /** The loop over the sources poll reported. */
  method DrainReady(w: World, ready: seq<Stream>, result: RunResult, outOpen: bool, errOpen: bool)
    returns (result': RunResult, outOpen': bool, errOpen': bool)
    requires w.Valid() && w.s.par.phase == Draining(ready) && OneOrBoth(ready)
    requires Reports(result, w.s.par.col) && outOpen == w.s.par.col.outOpen && errOpen == w.s.par.col.errOpen
    modifies w`s, w`signals
    ensures w.Valid() && w.signals <= old(w.signals) && w.s.par.phase.Check?
    ensures w.s.clock > old(w.s.clock) && w.s.par.table == old(w.s.par.table)
    ensures Reports(result', w.s.par.col) && outOpen' == w.s.par.col.outOpen && errOpen' == w.s.par.col.errOpen
    ensures w.s.par.col.deadline == old(w.s.par.col.deadline) && w.s.par.col.threw == old(w.s.par.col.threw)
    ensures result'.timedOut == result.timedOut && result'.hasStatus == result.hasStatus
  {
    result', outOpen', errOpen' := result, outOpen, errOpen;
    var k := 0;
    while k < |ready|
      invariant 0 <= k <= |ready| && w.Valid() && w.signals <= old(w.signals) && w.s.par.table == old(w.s.par.table)
      invariant w.s.par.phase == if k < |ready| then Draining(ready[k..]) else Check
      invariant w.s.clock >= old(w.s.clock) && (k > 0 ==> w.s.clock > old(w.s.clock))
      invariant Reports(result', w.s.par.col) && outOpen' == w.s.par.col.outOpen && errOpen' == w.s.par.col.errOpen
      invariant w.s.par.col.deadline == old(w.s.par.col.deadline) && w.s.par.col.threw == old(w.s.par.col.threw)
      invariant result'.timedOut == result.timedOut && result'.hasStatus == result.hasStatus
    {
      if ready[k] == Err {
        var sink, open := DrainOnce(w, Err, result'.errorOutput, errOpen');
        result', errOpen' := result'.(errorOutput := sink), open;
      } else {
        var sink, open := DrainOnce(w, Out, result'.output, outOpen');
        result', outOpen' := result'.(output := sink), open;
      }
      k := k + 1;
    }
  }

  /** How one turn of collect's loop ends. */
  datatype Turn = Again | GaveUp | PollThrew | Stalled

  /** The locals of collect agree with the collector. */
  ghost predicate Tracks(w: World, result: RunResult, outOpen: bool, errOpen: bool, deadline: int)
    reads w
  {
    var col := w.s.par.col;
    Reports(result, col) && outOpen == col.outOpen && errOpen == col.errOpen && deadline == col.deadline
  }

  /** poll failed, and so neither kill nor waitpid was called. */
  ghost predicate ThrewInPoll(w: World)
    reads w
  {
    w.s.par.phase.Leaving? && w.s.par.col.threw && !w.s.par.col.timedOut && !w.s.par.col.reaped
  }

  /** The body of collect's loop. */
  method Round(w: World, deadline: int, result: RunResult, outOpen: bool, errOpen: bool)
    returns (turn: Turn, result': RunResult, outOpen': bool, errOpen': bool)
    requires w.Valid() && w.c.style.Cpp? && w.s.par.phase.Check? && (outOpen || errOpen)
    requires Tracks(w, result, outOpen, errOpen, deadline)
    requires !result.timedOut && !result.hasStatus && !w.s.par.col.threw
    modifies w`s, w`signals
    ensures w.Valid() && w.s.par.table == old(w.s.par.table) && w.signals <= old(w.signals)
    ensures match turn
            case Again =>
              && w.s.par.phase.Check? && Tracks(w, result', outOpen', errOpen', deadline)
              && !result'.timedOut && !result'.hasStatus && !w.s.par.col.threw
              && old(w.s.clock) < w.s.clock && old(w.s.clock) < deadline
            case GaveUp =>
              && w.s.par.phase.Waiting? && Reports(result', w.s.par.col) && result'.timedOut && !result'.hasStatus
              && w.s.par.col.killed && !w.s.par.col.threw
            case PollThrew => ThrewInPoll(w)
            case Stalled => w.s.par.phase.Polling? && w.s.par.phase.until.None?
  {
    hide World.Valid, ElapsedMs, At, State.Held, State.Readable;
    result', outOpen', errOpen' := result, outOpen, errOpen;
    w.Others();
    var remaining := ToMs(deadline - w.s.clock);
    assert remaining > 0 ==> old(w.s.clock) < deadline;
    hide ToMs, AsInt;
    w.CheckTime();
    if remaining <= 0 {
      result' := result.(timedOut := true);
      w.Kill();
      return GaveUp, result', outOpen', errOpen';
    }
    turn, result', outOpen', errOpen' := Serve(w, remaining, deadline, result, outOpen, errOpen);
  }

  /** The part of a turn from poll on. */
  method Serve(w: World, remaining: int, deadline: int, result: RunResult, outOpen: bool, errOpen: bool)
    returns (turn: Turn, result': RunResult, outOpen': bool, errOpen': bool)
    requires w.Valid() && w.c.style.Cpp? && w.s.par.phase == Polling(PollUntil(w.s.clock, AsInt(remaining)))
    requires Tracks(w, result, outOpen, errOpen, deadline)
    requires !result.timedOut && !result.hasStatus && !w.s.par.col.threw
    modifies w`s, w`signals
    ensures w.Valid() && w.s.par.table == old(w.s.par.table) && w.signals <= old(w.signals)
    ensures match turn
            case Again =>
              && w.s.par.phase.Check? && Tracks(w, result', outOpen', errOpen', deadline)
              && !result'.timedOut && !result'.hasStatus && !w.s.par.col.threw
              && old(w.s.clock) < w.s.clock
            case GaveUp =>
              && w.s.par.phase.Waiting? && Reports(result', w.s.par.col) && result'.timedOut && !result'.hasStatus
              && w.s.par.col.killed && !w.s.par.col.threw
            case PollThrew => ThrewInPoll(w)
            case Stalled => w.s.par.phase.Polling? && w.s.par.phase.until.None?
  {
    hide World.Valid, AsInt, ElapsedMs, At, State.Held, State.Readable;
    result', outOpen', errOpen' := result, outOpen, errOpen;
    var r := w.Poll(AsInt(remaining));
    match r
    case PollSignalled => turn := Again;
    case PollFailed => turn := PollThrew;
    case PollBlocks => turn := Stalled;
    case NothingReady =>
      result' := result.(timedOut := true);
      w.Kill();
      turn := GaveUp;
    case Ready(ready) =>
      result', outOpen', errOpen' := DrainReady(w, ready, result, outOpen, errOpen);
      turn := Again;
  }

  method Collect(w: World, outFd: int, errFd: int) returns (outcome: Outcome)
    requires w.Valid() && w.c.style.Cpp? && w.s.par.phase.Fed?
    requires Holds(w.c, w.s.par.table, outFd, errFd) && w.s.par.col == IDLE
    modifies w`s, w`signals, w.os
    ensures w.Valid() && w.os.files.faults == old(w.os.files.faults)
    ensures outcome.Returned? ==>
              && w.s.par.phase.Leaving? && w.s.par.table == w.c.initial && !w.s.par.col.threw
              && Reports(outcome.result, w.s.par.col)
    ensures outcome.Returned? && !outcome.result.hasStatus ==> w.signals < old(w.signals)
    ensures outcome.Threw? ==> ThrewInPoll(w) && w.s.par.table == w.c.initial
    ensures outcome.Blocked? ==> AwaitsChild(w) || InEndlessPoll(w)
  {
    var result := RunResult(false, false, [], []);
    NoStdinEnd(w.c, w.s.par.table, outFd, errFd);
    var deadline := w.s.clock + w.c.timeoutMs * NS_PER_MS;
    w.Do(Above(Protocol.Collect));
    hide ParentEnabled, ParentAfter;
    var ownedOut := new U.UniqueFd.Own(outFd);
    var ownedErr := new U.UniqueFd.Own(if errFd >= 0 then errFd else -1);
    var outOpen, errOpen := true, errFd >= 0;
    var turn := Again;
    while turn.Again? && (outOpen || errOpen)
      invariant ownedOut.fd == outFd && ownedErr.fd == if errFd >= 0 then errFd else -1
      invariant w.Valid() && w.os.files == old(w.os.files)
      invariant w.s.par.table == old(w.s.par.table) && w.signals <= old(w.signals)
      invariant match turn
                case Again =>
                  && w.s.par.phase.Check? && Tracks(w, result, outOpen, errOpen, deadline)
                  && !result.timedOut && !result.hasStatus && !w.s.par.col.threw
                case GaveUp =>
                  w.s.par.phase.Waiting? && Reports(result, w.s.par.col) && !result.hasStatus && !w.s.par.col.threw
                case PollThrew => ThrewInPoll(w)
                case Stalled => w.s.par.phase.Polling? && w.s.par.phase.until.None?
      decreases turn.Again?, deadline - w.s.clock
    {
      turn, result, outOpen, errOpen := Round(w, deadline, result, outOpen, errOpen);
    }
    if turn.Stalled? {
      WaitsForReachable(w.c, w.s);
      return Blocked;
    }
    if turn.PollThrew? {
      CloseSources(w, ownedOut, ownedErr);
      return Threw;
    }
    if turn.Again? {
      LeaveLoop(w);
    }
    outcome := WaitForChild(w, result, ownedOut, ownedErr);
  }

  /** The end of collect: waitpid, which is not repeated, and the destructors. */
  method WaitForChild(w: World, result: RunResult, ownedOut: U.UniqueFd, ownedErr: U.UniqueFd)
    returns (outcome: Outcome)
    requires w.Valid() && w.c.style.Cpp? && w.s.par.phase.Waiting?
    requires Holds(w.c, w.s.par.table, ownedOut.fd, ownedErr.fd)
    requires Reports(result, w.s.par.col) && !result.hasStatus && !w.s.par.col.threw
    modifies w`s, w`signals, w.os
    ensures w.Valid() && w.os.files.faults == old(w.os.files.faults) && w.signals <= old(w.signals)
    ensures !outcome.Threw? && (outcome.Blocked? ==> AwaitsChild(w))
    ensures outcome.Returned? ==>
              && w.s.par.phase.Leaving? && w.s.par.table == w.c.initial && !w.s.par.col.threw
              && Reports(outcome.result, w.s.par.col) && (!outcome.result.hasStatus ==> w.signals < old(w.signals))
  {
    hide Holds;
    var r := w.Wait();
    if r.WaitBlocks? {
      WaitsForReachable(w.c, w.s);
      return Blocked;
    }
    CloseSources(w, ownedOut, ownedErr);
    outcome := Returned(result.(hasStatus := r.Reaped?));
  }

  /** No source is open any more. */
  method LeaveLoop(w: World)
    requires w.Valid() && w.s.par.phase.Check? && !w.s.par.col.outOpen && !w.s.par.col.errOpen
    modifies w`s
    ensures w.Valid() && w.s.par == old(w.s.par).(phase := Waiting)
  {
    w.CheckTime();
  }

  /** waitpid on a living child that was not killed; its outputs are at their end, unless a read failed. */
  ghost predicate AwaitsChild(w: World)
    reads w
  {
    && w.s.par.phase.Waiting? && CHILD in w.s.procs && !w.s.par.col.killed
    && (!w.s.par.col.readFailed ==> Spent(w.c, w.s))
  }

  /** A poll whose timeout became negative when it was cut to an int. */
  ghost predicate InEndlessPoll(w: World)
    reads w
  {
    w.s.par.phase.Polling? && w.c.timeoutMs > INT_MAX
  }

  lemma WaitsForReachable(c: Config, s: State)
    requires GoodConfig(c) && Reachable(c, s)
    ensures s.par.phase.Polling? && s.par.phase.until.None? ==> c.style.Cpp? && c.timeoutMs > INT_MAX
    ensures s.par.phase.Waiting? && !s.par.col.readFailed ==> Spent(c, s)
  {
    InvReachable(c, s);
    hide Inv;
    WaitsFor(c, s);
  }

  lemma NoStdinEnd(c: Config, t: Table, outFd: int, errFd: int)
    requires AllForeign(c.initial) && Holds(c, t, outFd, errFd)
    ensures PipeEnd(In, WriteEnd) !in t.Values
  {
    forall fd: nat | fd in t ensures t[fd] != PipeEnd(In, WriteEnd) {
      if fd != outFd && fd != errFd {
        assert fd in c.initial && c.initial[fd] == t[fd];
      }
    }
  }

  /** `run` holds these pipe ends, and otherwise what its caller had. */
  ghost predicate Owns(c: Config, t: Table, ends: set<nat>) {
    ends <= t.Keys && (forall fd :: fd in ends ==> t[fd].PipeEnd?) && t - ends == c.initial
  }

  predicate Unwinds(ph: Phase) {
    ph.Unwinding? || ph.Leaving?
  }

  /** A local that holds one of the ends, or nothing, is destroyed. */
  method DestroyEnd(w: World, u: U.UniqueFd, ghost ends: set<nat>)
    requires w.Valid() && Unwinds(w.s.par.phase) && Owns(w.c, w.s.par.table, ends) && Number(u.fd) <= ends
    modifies w`s, w.os
    ensures w.Valid() && w.os.files.faults == old(w.os.files.faults)
    ensures w.s.par == old(w.s.par).(table := w.s.par.table)
    ensures Owns(w.c, w.s.par.table, ends - Number(u.fd))
  {
    w.Destroy(u);
    assert old(w.s.par.table) - Number(u.fd) - (ends - Number(u.fd)) == w.c.initial;
  }

  /** The end of `run`, by return or by exception: the locals are destroyed, the last one first. */
  method Unwind(
    w: World, inR: U.UniqueFd, inW: U.UniqueFd,
    outR: U.UniqueFd, outW: U.UniqueFd, errR: U.UniqueFd, errW: U.UniqueFd)
    requires w.Valid() && Unwinds(w.s.par.phase) && Different(inR.fd, inW.fd, outR.fd, outW.fd, errR.fd, errW.fd)
    requires Owns(w.c, w.s.par.table, Numbers(inR.fd, inW.fd, outR.fd, outW.fd, errR.fd, errW.fd))
    modifies w`s, w.os
    ensures w.Valid() && w.os.files.faults == old(w.os.files.faults)
    ensures w.s.par == old(w.s.par).(table := w.c.initial)
  {
    hide Owns, Number, Numbers, Different, World.Valid;
    var a, b, c, d, e, f := inR.fd, inW.fd, outR.fd, outW.fd, errR.fd, errW.fd;
    OneLess(a, b, c, d, e, f);
    DestroyEnd(w, errW, Numbers(a, b, c, d, e, f));
    DestroyEnd(w, errR, Numbers(a, b, c, d, e, -1));
    DestroyEnd(w, outW, Numbers(a, b, c, d, -1, -1));
    DestroyEnd(w, outR, Numbers(a, b, c, -1, -1, -1));
    DestroyEnd(w, inW, Numbers(a, b, -1, -1, -1, -1));
    DestroyEnd(w, inR, Numbers(a, -1, -1, -1, -1, -1));
    OwnsNothing(w.c, w.s.par.table);
  }

  lemma OwnsNothing(c: Config, t: Table)
    requires Owns(c, t, {})
    ensures t == c.initial
  {
    assert t - {} == t;
  }

  function Numbers(a: int, b: int, c: int, d: int, e: int, f: int): set<nat> {
    Number(a) + Number(b) + Number(c) + Number(d) + Number(e) + Number(f)
  }

  /** The last of the numbers is taken away, and again. */
  lemma OneLess(a: int, b: int, c: int, d: int, e: int, f: int)
    requires Different(a, b, c, d, e, f)
    ensures Number(f) <= Numbers(a, b, c, d, e, f)
    ensures Numbers(a, b, c, d, e, f) - Number(f) == Numbers(a, b, c, d, e, -1)
    ensures Number(e) <= Numbers(a, b, c, d, e, -1)
    ensures Numbers(a, b, c, d, e, -1) - Number(e) == Numbers(a, b, c, d, -1, -1)
    ensures Number(d) <= Numbers(a, b, c, d, -1, -1)
    ensures Numbers(a, b, c, d, -1, -1) - Number(d) == Numbers(a, b, c, -1, -1, -1)
    ensures Number(c) <= Numbers(a, b, c, -1, -1, -1)
    ensures Numbers(a, b, c, -1, -1, -1) - Number(c) == Numbers(a, b, -1, -1, -1, -1)
    ensures Number(b) <= Numbers(a, b, -1, -1, -1, -1)
    ensures Numbers(a, b, -1, -1, -1, -1) - Number(b) == Numbers(a, -1, -1, -1, -1, -1)
    ensures Number(a) <= Numbers(a, -1, -1, -1, -1, -1) && Numbers(a, -1, -1, -1, -1, -1) - Number(a) == {}
  {
  }

  lemma FourNumbers(a: nat, b: nat, c: nat, d: nat)
    ensures Numbers(a, b, c, d, -1, -1) == {a, b, c, d}
    ensures forall e: nat, f: nat :: Numbers(a, b, c, d, e, f) == {a, b, c, d} + {e, f}
  {
  }

  predicate Different(a: int, b: int, c: int, d: int, e: int, f: int) {
    && (a >= 0 ==> a != b && a != c && a != d && a != e && a != f)
    && (b >= 0 ==> b != c && b != d && b != e && b != f)
    && (c >= 0 ==> c != d && c != e && c != f)
    && (d >= 0 ==> d != e && d != f)
    && (e >= 0 ==> e != f)
  }

  /** A new pipe adds two ends to what `run` owns. */
  lemma OwnsPipe(c: Config, t: Table, ends: set<nat>, st: Stream)
    requires Owns(c, t, ends)
    ensures var (t', rd, wr) := WithPipe(t, st);
            Owns(c, t', ends + {rd, wr}) && rd !in ends && wr !in ends && rd != wr
  {
    var (t', rd, wr) := WithPipe(t, st);
    assert t' - (ends + {rd, wr}) == t - ends;
  }

  /** The locals of `run` that own descriptors. */
  datatype Locals = Locals(
    inR: U.UniqueFd, inW: U.UniqueFd, outR: U.UniqueFd, outW: U.UniqueFd, errR: U.UniqueFd, errW: U.UniqueFd)

  ghost predicate AllDifferent(l: Locals) {
    && l.inR != l.inW && l.inR != l.outR && l.inR != l.outW && l.inR != l.errR && l.inR != l.errW
    && l.inW != l.outR && l.inW != l.outW && l.inW != l.errR && l.inW != l.errW
    && l.outR != l.outW && l.outR != l.errR && l.outR != l.errW
    && l.outW != l.errR && l.outW != l.errW && l.errR != l.errW
  }

  /** They hold the numbers `e`. */
  ghost predicate HoldNumbers(l: Locals, e: Ends)
    reads l.inR, l.inW, l.outR, l.outW, l.errR, l.errW
  {
    && l.inR.fd == e.inR && l.inW.fd == e.inW && l.outR.fd == e.outR && l.outW.fd == e.outW
    && l.errR.fd == e.errR && l.errW.fd == e.errW
  }

  /** The third pipe, moved into the locals that wait for it. */
  method ErrPipe(w: World, errR: U.UniqueFd, errW: U.UniqueFd) returns (ok: bool)
    requires w.Valid() && w.s.par.phase.Setup? && errR.fd == -1 && errW.fd == -1 && errR != errW
    modifies w`s, w`failures, w.os, errR, errW
    ensures w.Valid() && w.os.files.faults == old(w.os.files.faults)
    ensures w.s.par.phase == (if ok then Setup else Unwinding)
    ensures w.failures == old(w.failures) + if ok then 0 else 1
    ensures w.s.par.col == old(w.s.par.col) && w.s.par.tail == old(w.s.par.tail)
    ensures if ok then
              && errR.fd >= 0 && errW.fd >= 0
              && (w.s.par.table, errR.fd as nat, errW.fd as nat) == WithPipe(old(w.s.par.table), Err)
            else
              w.s.par.table == old(w.s.par.table) && errR.fd == -1 && errW.fd == -1
  {
    var rd, wr;
    ok, rd, wr := PipeCreate(w, Err);
    if ok {
      errR.Assign(w.os, rd);
      errW.Assign(w.os, wr);
      w.Destroy(wr);
      w.Destroy(rd);
    }
  }

  /** The first two pipes. */
  method InAndOut(w: World) returns (ok: bool, inR: U.UniqueFd, inW: U.UniqueFd, outR: U.UniqueFd, outW: U.UniqueFd)
    requires w.Valid() && w.s == Start(w.c)
    modifies w`s, w`failures, w.os
    ensures w.Valid() && w.os.files.faults == old(w.os.files.faults)
    ensures w.s.par.phase == (if ok then Setup else Unwinding)
    ensures w.failures == old(w.failures) + if ok then 0 else 1
    ensures ok ==> w.s.par.tail == w.c.stdin && w.s.par.col == IDLE
    ensures fresh(inR) && fresh(inW) && fresh(outR) && fresh(outW)
    ensures inR != inW && inR != outR && inR != outW && inW != outR && inW != outW && outR != outW
    ensures !ok ==> w.s.par.table == w.c.initial
    ensures ok ==>
              && inR.fd >= 0 && inW.fd >= 0 && outR.fd >= 0 && outW.fd >= 0
              && (var (t1, a, b) := WithPipe(w.c.initial, In);
                  && (a, b) == (inR.fd as nat, inW.fd as nat)
                  && (w.s.par.table, outR.fd as nat, outW.fd as nat) == WithPipe(t1, Out))
              && Owns(w.c, w.s.par.table, {inR.fd as nat, inW.fd as nat, outR.fd as nat, outW.fd as nat})
              && Different(inR.fd, inW.fd, outR.fd, outW.fd, -1, -1)
  {
    hide Owns, WithPipe;
    var t0 := w.s.par.table;
    OwnsAtFirst(w.c);
    ok, inR, inW := PipeCreate(w, In);
    if !ok {
      outR := new U.UniqueFd();
      outW := new U.UniqueFd();
      return;
    }
    OwnsPipe(w.c, t0, {}, In);
    var t1 := w.s.par.table;
    ghost var ends: set<nat> := {inR.fd, inW.fd};
    assert {} + {inR.fd as nat, inW.fd as nat} == ends;
    ok, outR, outW := PipeCreate(w, Out);
    if !ok {
      DestroyEnd(w, inW, ends);
      DestroyEnd(w, inR, ends - Number(inW.fd));
      assert ends - Number(inW.fd) - Number(inR.fd) == {};
      OwnsNothing(w.c, w.s.par.table);
      return;
    }
    OwnsPipe(w.c, t1, ends, Out);
    assert ends + {outR.fd as nat, outW.fd as nat} == {inR.fd as nat, inW.fd as nat, outR.fd as nat, outW.fd as nat};
  }

  /** The pipes. If one of them fails, nothing is left behind. */
  method Pipes(w: World) returns (ok: bool, l: Locals)
    requires w.Valid() && w.s == Start(w.c)
    modifies w`s, w`failures, w.os
    ensures w.Valid() && w.os.files.faults == old(w.os.files.faults)
    ensures w.s.par.phase == (if ok then Setup else Unwinding)
    ensures w.failures == old(w.failures) + if ok then 0 else 1
    ensures AllDifferent(l) && fresh({l.inR, l.inW, l.outR, l.outW, l.errR, l.errW})
    ensures !ok ==> w.s.par.table == w.c.initial
    ensures ok ==>
              && HoldNumbers(l, EndsOf(w.c))
              && Different(l.inR.fd, l.inW.fd, l.outR.fd, l.outW.fd, l.errR.fd, l.errW.fd)
              && Owns(w.c, w.s.par.table, Numbers(l.inR.fd, l.inW.fd, l.outR.fd, l.outW.fd, l.errR.fd, l.errW.fd))
              && w.s.par.table == ForkedTable(w.c) && w.s.par.tail == w.c.stdin && w.s.par.col == IDLE
  {
    hide Owns, WithPipe, Start;
    var inR, inW, outR, outW;
    ok, inR, inW, outR, outW := InAndOut(w);
    var errR := new U.UniqueFd();
    var errW := new U.UniqueFd();
    l := Locals(inR, inW, outR, outW, errR, errW);
    if !ok {
      return;
    }
    ghost var t2 := w.s.par.table;
    hide Different, World.Valid, ForkedTable, EndsOf;
    ok := ThirdPipe(w, l);
    if ok {
      AllPipes(w.c, t2, w.s.par.table, Ends(inR.fd, inW.fd, outR.fd, outW.fd, errR.fd, errW.fd));
    }
  }

  /** The pipe for stderr, if it is to be split off. */
  method ThirdPipe(w: World, l: Locals) returns (ok: bool)
    requires w.Valid() && w.s.par.phase.Setup? && AllDifferent(l) && l.errR.fd == -1 && l.errW.fd == -1
    requires l.inR.fd >= 0 && l.inW.fd >= 0 && l.outR.fd >= 0 && l.outW.fd >= 0
    requires Different(l.inR.fd, l.inW.fd, l.outR.fd, l.outW.fd, -1, -1)
    requires Owns(w.c, w.s.par.table, {l.inR.fd as nat, l.inW.fd as nat, l.outR.fd as nat, l.outW.fd as nat})
    modifies w`s, w`failures, w.os, l.errR, l.errW
    ensures w.Valid() && w.os.files.faults == old(w.os.files.faults)
    ensures w.s.par.phase == (if ok then Setup else Unwinding)
    ensures w.failures == old(w.failures) + if ok then 0 else 1
    ensures !ok ==> w.s.par.table == w.c.initial
    ensures ok ==> w.s.par.col == old(w.s.par.col) && w.s.par.tail == old(w.s.par.tail)
    ensures ok ==>
              if w.c.split then
                && l.errR.fd >= 0 && l.errW.fd >= 0
                && (w.s.par.table, l.errR.fd as nat, l.errW.fd as nat) == WithPipe(old(w.s.par.table), Err)
              else
                w.s.par.table == old(w.s.par.table) && l.errR.fd == -1 && l.errW.fd == -1
  {
    FourNumbers(l.inR.fd, l.inW.fd, l.outR.fd, l.outW.fd);
    hide Owns, WithPipe, Numbers, Number, Different, World.Valid;
    ok := true;
    if w.c.split {
      ok := ErrPipe(w, l.errR, l.errW);
      if !ok {
        Unwind(w, l.inR, l.inW, l.outR, l.outW, l.errR, l.errW);
      }
    }
  }

  /** With its pipes made `run` has the table and the numbers that ForkTable describes. */
  lemma AllPipes(c: Config, t2: Table, t3: Table, e: Ends)
    requires var (t1, a, b) := WithPipe(c.initial, In);
             (a, b) == (e.inR, e.inW) && (t2, e.outR, e.outW) == WithPipe(t1, Out)
    requires Owns(c, t2, {e.inR, e.inW, e.outR, e.outW}) && Different(e.inR, e.inW, e.outR, e.outW, -1, -1)
    requires if c.split then e.errR >= 0 && e.errW >= 0 && (t3, e.errR as nat, e.errW as nat) == WithPipe(t2, Err)
             else t3 == t2 && e.errR == e.errW == -1
    ensures EndsOf(c) == e && ForkedTable(c) == t3
    ensures Owns(c, t3, Numbers(e.inR, e.inW, e.outR, e.outW, e.errR, e.errW))
    ensures Different(e.inR, e.inW, e.outR, e.outW, e.errR, e.errW)
  {
    hide WithPipe, Owns;
    FourNumbers(e.inR, e.inW, e.outR, e.outW);
    if c.split {
      OwnsPipe(c, t2, {e.inR, e.inW, e.outR, e.outW}, Err);
    }
  }

  /** The pipes and the fork. If one of them fails, nothing is left behind. */
  method SetUp(w: World) returns (r: Option<Locals>)
    requires w.Valid() && w.s == Start(w.c)
    modifies w`s, w`failures, w.os
    ensures w.Valid() && w.os.files.faults == old(w.os.files.faults)
    ensures w.failures == old(w.failures) + if r.Some? then 0 else 1
    ensures r.None? ==> w.s.par.table == w.c.initial && w.s.par.phase.Unwinding?
    ensures r.Some? ==>
              && AllDifferent(r.value) && HoldNumbers(r.value, EndsOf(w.c))
              && fresh({r.value.inR, r.value.inW, r.value.outR, r.value.outW, r.value.errR, r.value.errW})
              && w.s.par.phase.Launched? && w.s.par.table == ForkedTable(w.c)
              && w.s.par.tail == w.c.stdin && w.s.par.col == IDLE
  {
    hide Owns, ForkedTable, EndsOf, World.Valid, Different, Numbers;
    var ok, l := Pipes(w);
    if !ok {
      return None;
    }
    ok := w.Fork();
    if !ok {
      Unwind(w, l.inR, l.inW, l.outR, l.outW, l.errR, l.errW);
      return None;
    }
    return Some(l);
  }

  lemma OwnsAtFirst(c: Config)
    ensures Owns(c, c.initial, {})
  {
    assert c.initial - {} == c.initial;
  }

  /** With the child's ends and the stdin end closed, the read ends of the outputs are left. */
  lemma ReadEndsLeft(c: Config)
    requires GoodConfig(c)
    ensures var e := EndsOf(c);
            Holds(c, ForkedTable(c) - {e.inR} - {e.outW} - Number(e.errW) - {e.inW}, e.outR, e.errR)
  {
    ForkedEnds(c.initial, c.split);
    hide ForkTable;
  }

  /** The parent's part of `run` between fork and write_all: the child's ends are closed. */
  method CloseChildEnds(w: World, l: Locals)
    requires w.Valid() && w.s.par.phase.Launched? && w.s.par.table == ForkedTable(w.c)
    requires AllDifferent(l) && HoldNumbers(l, EndsOf(w.c))
    modifies w`s, w.os, l.inR, l.outW, l.errW
    ensures w.Valid() && w.os.files.faults == old(w.os.files.faults) && w.s.par.phase.Feeding?
    ensures w.s.par.tail == old(w.s.par.tail) && w.s.par.col == old(w.s.par.col)
    ensures var e := EndsOf(w.c); w.s.par.table == ForkedTable(w.c) - {e.inR} - {e.outW} - Number(e.errW)
    ensures l.inR.fd == l.outW.fd == l.errW.fd == -1
  {
    ClosingOrder(w.c);
    hide ForkedTable, EndsOf, ParentEnabled, ParentAfter, World.Valid;
    w.Reset(l.inR);
    w.Reset(l.outW);
    w.Reset(l.errW);
    BeginFeeding(w);
  }

  method BeginFeeding(w: World)
    requires w.Valid() && w.s.par.phase.Launched?
    requires NotHeldByParent(w.s, In, ReadEnd) && NotHeldByParent(w.s, Out, WriteEnd)
    requires NotHeldByParent(w.s, Err, WriteEnd)
    modifies w`s
    ensures w.Valid() && w.s.par == old(w.s.par).(phase := Feeding)
  {
    w.Do(Above(Feed));
  }

  /** The stdin end is still there to be closed, and then the read ends of the outputs are left. */
  lemma EndsLeft(c: Config)
    requires GoodConfig(c)
    ensures var e := EndsOf(c);
            var t := ForkedTable(c) - {e.inR} - {e.outW} - Number(e.errW);
            e.inW in t && t[e.inW] == PipeEnd(In, WriteEnd) && Holds(c, t - {e.inW}, e.outR, e.errR)
  {
    EndsInPlace(c);
    ReadEndsLeft(c);
    hide ForkedTable, EndsOf, Holds;
  }

  /** write_all and the reset of the stdin end; `false` when the write blocks for good. */
  method FeedChild(w: World, l: Locals) returns (fed: bool)
    requires w.Valid() && w.s.par.phase.Feeding? && w.s.par.tail == w.c.stdin
    requires var e := EndsOf(w.c);
             && l.inW.fd == e.inW
             && w.s.par.table == ForkedTable(w.c) - {e.inR} - {e.outW} - Number(e.errW)
    modifies w`s, w`signals, w.os, l.inW
    ensures w.Valid() && w.os.files.faults == old(w.os.files.faults) && w.s.par.col == old(w.s.par.col)
    ensures w.signals <= old(w.signals)
    ensures fed ==> w.s.par.phase.Fed? && Holds(w.c, w.s.par.table, EndsOf(w.c).outR, EndsOf(w.c).errR)
    ensures fed ==> l.inW.fd == -1
    ensures !fed ==> w.s.par.phase.Feeding? && |w.c.stdin| > w.c.capacity
  {
    EndsLeft(w.c);
    hide ForkedTable, EndsOf, Holds, Number, ParentEnabled, ParentAfter, Reachable;
    fed := WriteAll(w, w.c.stdin);
    if fed {
      w.Reset(l.inW);
    } else {
      FeedsTooMuch(w.c, w.s);
    }
  }

  /**
    The result is everything that was written, unless the run timed out, at most a millisecond before
    its time, or a read failed; then a prefix.
   */
  ghost predicate Exact(r: RunResult, c: Config, s: State) {
    && r.output <= s.outP.written && r.errorOutput <= s.errP.written
    && (!r.timedOut && !s.par.col.readFailed ==> r.output == s.outP.written && r.errorOutput == s.errP.written)
    && (r.timedOut <==> s.par.col.killed)
    && (r.timedOut && c.timeoutMs <= 0x7fff_ffff ==> s.clock - Begun(c, s) > (c.timeoutMs - 1) * 1_000_000)
    && (r.hasStatus ==> CHILD !in s.procs)
  }

  lemma ResultIsExact(c: Config, s: State, r: RunResult)
    requires GoodConfig(c) && Reachable(c, s) && s.par.phase.Done? && !s.par.col.threw && Reports(r, s.par.col)
    ensures Exact(r, c, s)
  {
    InvReachable(c, s);
    StreamsExact(c, s);
    KilledOnlyAtDeadline(c, s);
  }

  /**
    `run`. It throws only if a pipe, the fork or a poll failed, and has then neither killed nor
    reaped its child. A call that returns or throws leaves the descriptor table as it was and has
    closed nothing that was not open; what it returns is exact, and without the child's status only
    if a signal interrupted waitpid. It can be blocked for good only while it feeds more stdin data
    than a pipe holds, in waitpid, or in a poll whose timeout no int can hold.
   */
  method Run(w: World) returns (outcome: Outcome)
    requires w.Valid() && w.c.style.Cpp? && w.s == Start(w.c)
    modifies w, w.os
    ensures w.Valid() && w.os.files.faults == old(w.os.files.faults)
    ensures !outcome.Blocked? ==> w.os.files.table == old(w.os.files.table)
    ensures outcome.Returned? ==> w.s.par.phase.Done? && Exact(outcome.result, w.c, w.s)
    ensures outcome.Returned? ==> w.failures == old(w.failures)
    ensures outcome.Returned? && !outcome.result.hasStatus ==> w.signals < old(w.signals)
    ensures outcome.Threw? ==>
              && Over(w.s.par.phase) && (w.s.par.phase.Failed? || w.s.par.col.threw)
              && (w.s.par.phase.Failed? ==> w.failures > old(w.failures))
              && !w.s.par.col.killed && !w.s.par.col.reaped
    ensures outcome.Blocked? ==>
              (w.s.par.phase.Feeding? && |w.c.stdin| > w.c.capacity) || AwaitsChild(w) || InEndlessPoll(w)
  {
    hide ForkedTable, EndsOf, Reachable, Holds, Exact, ParentEnabled, ParentAfter;
    var setUp := SetUp(w);
    if setUp.None? {
      Conclude(w);
      NeitherKilledNorReaped(w.c, w.s);
      return Threw;
    }
    var l := setUp.value;
    CloseChildEnds(w, l);
    var fed := FeedChild(w, l);
    if !fed {
      return Blocked;
    }
    var outFd := l.outR.Release();
    var errFd := l.errR.Release();
    outcome := Collect(w, outFd, errFd);
    if !outcome.Blocked? {
      OwnsAtFirst(w.c);
      assert Numbers(-1, -1, -1, -1, -1, -1) == {};
      Unwind(w, l.inR, l.inW, l.outR, l.outW, l.errR, l.errW);
      Conclude(w);
    }
    if outcome.Threw? {
      NeitherKilledNorReaped(w.c, w.s);
    } else if outcome.Returned? {
      ResultIsExact(w.c, w.s, outcome.result);
    }
  }

  /** `run` is left. */
  method Conclude(w: World)
    requires w.Valid() && (w.s.par.phase.Leaving? || w.s.par.phase.Unwinding?) && w.s.par.table == w.c.initial
    modifies w`s
    ensures w.Valid() && w.s.par == old(w.s.par).(phase := if old(w.s.par.phase).Leaving? then Done else Failed)
  {
    w.Do(Above(Leave));
  }

  lemma NeitherKilledNorReaped(c: Config, s: State)
    requires GoodConfig(c) && Reachable(c, s)
    requires s.par.phase.Failed? || (s.par.phase.Done? && !s.par.col.timedOut && !s.par.col.reaped)
    ensures !s.par.col.killed && !s.par.col.reaped
  {
    InvReachable(c, s);
  }

  lemma FeedsTooMuch(c: Config, s: State)
    requires GoodConfig(c) && Reachable(c, s) && |s.inP.queue| + |s.par.tail| > c.capacity
    ensures |c.stdin| > c.capacity
  {
    StdinConserved(c, s);
  }
}
