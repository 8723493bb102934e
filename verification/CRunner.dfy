/** ftl/ftl.h, `ftl_run_command`, statement by statement over the system calls of `Worlds`. */
module CRunner {
  import opened Wiring
  import opened Clocks
  import opened Protocol
  import opened Tables
  import opened Streams
  import opened Runs
  import opened Worlds
  import opened CBuffer
  import Runner

  const DEFAULT_TIMEOUT_MS := 5000

  /** The locals of the read loop that make up the output. */
  datatype Output = Output(buffer: array?<byte>, length: nat, capacity: nat)

  /**
    Unless an allocation failed the buffer holds what was read, with room for the NUL; and all the
    blocks it outgrew were together smaller than it is now.
   */
  ghost predicate Holds(o: Output, heap: Heap, bytes: Bytes)
    reads o.buffer, heap
  {
    && (o.buffer == null <==> heap.refusals > 0)
    && (o.buffer != null ==>
          && BufferOk(o.buffer, o.length, o.capacity) && o.buffer[..o.length] == bytes
          && heap.replaced + INITIAL_CAPACITY == o.capacity)
  }

  /** The first allocation. */
  method Begin(heap: Heap) returns (o: Output)
    requires heap.refusals == 0 && heap.replaced == 0
    modifies heap
    ensures Holds(o, heap, []) && (o.buffer != null ==> fresh(o.buffer))
  {
    var granted := heap.Allocate(0);
    var buffer: array?<byte> := null;
    if granted {
      buffer := new byte[INITIAL_CAPACITY](_ => 0);
      assert buffer[..0] == [];
    }
    o := Output(buffer, 0, INITIAL_CAPACITY);
  }

  /** A chunk goes into the buffer, if there still is one. */
  method Store(heap: Heap, o: Output, chunk: Bytes, ghost bytes: Bytes) returns (o': Output)
    requires Holds(o, heap, bytes) && 0 < |chunk| <= CHUNK
    modifies heap, o.buffer
    ensures Holds(o', heap, bytes + chunk) && (o'.buffer == o.buffer || (o'.buffer != null ==> fresh(o'.buffer)))
  {
    o' := o;
    if o.buffer != null {
      var b, length, capacity := Append(heap, o.buffer, o.length, o.capacity, chunk);
      o' := Output(b, length, capacity);
    }
  }

  /** The read loop is at its head: the pipe is open, and `elapsed` is what the last clock reading gave. */
  ghost predicate AtHead(w: World, elapsed: int)
    reads w
  {
    && w.c.style.PlainC? && w.s.par.phase.Check?
    && w.s.par.col.outOpen && !w.s.par.col.errOpen && !w.s.par.col.killed && !w.s.par.col.reaped
    && elapsed == w.s.par.col.Elapsed(w.c)
  }

  /** There is something to read. */
  ghost predicate HasInput(w: World, elapsed: int)
    reads w
  {
    && w.c.style.PlainC? && w.s.par.phase == Draining([Out])
    && w.s.par.col.outOpen && !w.s.par.col.errOpen && !w.s.par.col.killed && !w.s.par.col.reaped
    && elapsed == w.s.par.col.Elapsed(w.c)
  }

  /** The loop is left. */
  ghost predicate PastLoop(w: World, elapsed: int)
    reads w
  {
    w.c.style.PlainC? && w.s.par.phase.Waiting? && !w.s.par.col.reaped && elapsed == w.s.par.col.Elapsed(w.c)
  }

  /** How poll ends: with something to read, with nothing yet, or with the loop. */
  datatype Polled = Input | Nothing | Over

  /** A turn up to the read. */
  method PollTurn(w: World, timeoutMs: int, start: Timespec, elapsed: int) returns (polled: Polled, elapsed': int)
    requires w.Valid() && AtHead(w, elapsed) && timeoutMs == w.c.timeoutMs && start == At(Begun(w.c, w.s))
    modifies w`s, w`signals
    ensures w.Valid() && w.s.par.table == old(w.s.par.table) && w.s.par.col.output == old(w.s.par.col.output)
    ensures w.signals <= old(w.signals)
    ensures w.s.par.col.deadline == old(w.s.par.col.deadline)
    ensures match polled
            case Input => HasInput(w, elapsed')
            case Nothing => AtHead(w, elapsed')
            case Over => PastLoop(w, elapsed')
    ensures !polled.Over? ==> elapsed < timeoutMs && w.s.par.col.last > old(w.s.clock)
  {
    hide World.Valid, ElapsedMs, At, State.Held, State.Readable;
    elapsed' := elapsed;
    var remaining := timeoutMs - elapsed;
    w.CheckTime();
    if remaining <= 0 {
      w.Kill();
      return Over, elapsed';
    }
    if remaining > LONGEST_POLL {
      remaining := LONGEST_POLL;
    }
    polled, elapsed' := Await(w, timeoutMs, start, remaining);
  }

  /** poll, the clock reading behind it, and the decision that follows. */
  method Await(w: World, timeoutMs: int, start: Timespec, ms: int) returns (polled: Polled, elapsed: int)
    requires w.Valid() && w.c.style.PlainC? && w.s.par.phase == Polling(PollUntil(w.s.clock, ms)) && ms > 0
    requires w.s.par.col.outOpen && !w.s.par.col.errOpen && !w.s.par.col.killed && !w.s.par.col.reaped
    requires timeoutMs == w.c.timeoutMs && start == At(Begun(w.c, w.s))
    modifies w`s, w`signals
    ensures w.Valid() && w.s.par.table == old(w.s.par.table) && w.s.par.col.output == old(w.s.par.col.output)
    ensures w.signals <= old(w.signals)
    ensures w.s.par.col.deadline == old(w.s.par.col.deadline)
    ensures match polled
            case Input => HasInput(w, elapsed)
            case Nothing => AtHead(w, elapsed)
            case Over => PastLoop(w, elapsed)
    ensures !polled.Over? ==> w.s.par.col.last > old(w.s.clock)
  {
    hide World.Valid, ElapsedMs, At, State.Held, State.Readable;
    var r := w.Poll(ms);
    elapsed := ElapsedMs(start, At(w.s.clock));
    match r
    case PollFailed => polled := Over;
    case PollSignalled => polled := Nothing;
    case NothingReady =>
      if elapsed >= timeoutMs {
        w.Kill();
        polled := Over;
      } else {
        polled := Nothing;
      }
    case Ready(ready) =>
      assert ready[|ready| - 1] in ready;
      polled := Input;
  }

  /** The read; an end of file and an error leave the loop, an interruption goes back to its head. */
  method ReadOutput(w: World, ghost elapsed: int) returns (going: bool, bs: Bytes)
    requires w.Valid() && HasInput(w, elapsed)
    modifies w`s, w`signals
    ensures w.Valid() && w.s.par.table == old(w.s.par.table) && w.signals <= old(w.signals)
    ensures w.s.par.col.deadline == old(w.s.par.col.deadline) && w.s.par.col.last == old(w.s.par.col.last)
    ensures |bs| <= CHUNK && w.s.par.col.output == old(w.s.par.col.output) + bs && (bs != [] ==> going)
    ensures if going then AtHead(w, elapsed) else PastLoop(w, elapsed)
  {
    hide ElapsedMs, At, World.Valid, State.Held, State.Readable;
    var got := w.Read(Out);
    going, bs := false, [];
    match got
    case ReadInterrupted =>
      w.Retry();
      going := true;
    case ReadFailed => Runner.LeaveLoop(w);
    case Got(chunk) =>
      if chunk == [] {
        Runner.LeaveLoop(w);
      } else {
        going, bs := true, chunk;
      }
  }

  /** The read, and what becomes of the bytes. */
  method ReadTurn(w: World, heap: Heap, o: Output, ghost elapsed: int) returns (going: bool, o': Output)
    requires w.Valid() && HasInput(w, elapsed) && Holds(o, heap, w.s.par.col.output)
    modifies w`s, w`signals, heap, o.buffer
    ensures w.Valid() && w.s.par.table == old(w.s.par.table) && w.signals <= old(w.signals)
    ensures w.s.par.col.deadline == old(w.s.par.col.deadline) && w.s.par.col.last == old(w.s.par.col.last)
    ensures if going then AtHead(w, elapsed) else PastLoop(w, elapsed)
    ensures Holds(o', heap, w.s.par.col.output) && (o'.buffer == o.buffer || (o'.buffer != null ==> fresh(o'.buffer)))
  {
    hide World.Valid, Holds, AtHead, PastLoop, HasInput;
    var bs;
    going, bs := ReadOutput(w, elapsed);
    assert old(w.s.par.col.output) + [] == old(w.s.par.col.output);
    o' := o;
    if bs != [] {
      o' := Store(heap, o, bs, old(w.s.par.col.output));
    }
  }

  /** The read loop, from the first clock_gettime. */
  method ReadAll(w: World, heap: Heap, timeoutMs: int) returns (elapsed: int, o: Output)
    requires w.Valid() && AtHead(w, 0) && timeoutMs == w.c.timeoutMs && w.s.clock == Begun(w.c, w.s)
    requires w.s.par.col.output == [] && heap.refusals == 0 && heap.replaced == 0
    modifies w`s, w`signals, heap
    ensures w.Valid() && w.s.par.table == old(w.s.par.table) && PastLoop(w, elapsed)
    ensures w.signals <= old(w.signals)
    ensures Holds(o, heap, w.s.par.col.output) && (o.buffer != null ==> fresh(o.buffer))
  {
    var start := At(w.s.clock);
    elapsed := 0;
    o := Begin(heap);
    var going := true;
    hide ElapsedMs, At, Holds;
    while going
      invariant w.Valid() && w.s.par.table == old(w.s.par.table) && Begun(w.c, w.s) == old(Begun(w.c, w.s))
      invariant w.signals <= old(w.signals)
      invariant if going then AtHead(w, elapsed) else PastLoop(w, elapsed)
      invariant Holds(o, heap, w.s.par.col.output) && (o.buffer != null ==> fresh(o.buffer))
      decreases going, (timeoutMs + 1) * NS_PER_MS - (w.s.par.col.last - Begun(w.c, w.s))
    {
      TimeLeft(w.c, w.s);
      var polled;
      polled, elapsed := PollTurn(w, timeoutMs, start, elapsed);
      going := !polled.Over?;
      if polled.Input? {
        going, o := ReadTurn(w, heap, o, elapsed);
      }
    }
  }

  /** At the head of the loop the last reading of the clock lies behind, and before the deadline unless time is up. */
  lemma TimeLeft(c: Config, s: State)
    requires GoodConfig(c) && Reachable(c, s) && c.style.PlainC? && s.par.phase.Check?
    ensures Begun(c, s) <= s.par.col.last <= s.clock
    ensures s.par.col.Elapsed(c) < c.timeoutMs ==> s.par.col.last < s.par.col.deadline
  {
    InvReachable(c, s);
    ElapsedIsClose(Begun(c, s), s.par.col.last);
  }

  /** `hasStatus` says that the status is the child's; otherwise it is still -1. */
  datatype Outcome = Failed | Blocked | Returned(hasStatus: bool, timedOut: bool, output: array?<byte>, length: nat)

  /** Both ends of the pipe made last are closed again. */
  method ClosePipe(w: World, rd: nat, wr: nat, ghost t: Table, ghost st: Stream)
    requires w.Valid() && w.s.par.phase.Unwinding? && (w.s.par.table, rd, wr) == WithPipe(t, st)
    modifies w`s, w.os
    ensures w.Valid() && w.os.files.faults == old(w.os.files.faults) && w.s.par == old(w.s.par).(table := t)
  {
    hide WithPipe, Reachable;
    w.CloseEnd(rd);
    w.CloseEnd(wr);
    assert w.s.par.table == t;
  }

  /** The two pipes and the fork; on failure the pipes made so far are closed again. */
  method SetUp(w: World) returns (ok: bool, e: Ends)
    requires w.Valid() && w.s == Start(w.c) && w.c.style.PlainC?
    modifies w`s, w`failures, w.os
    ensures w.Valid() && w.os.files.faults == old(w.os.files.faults)
    ensures w.failures == old(w.failures) + if ok then 0 else 1
    ensures !ok ==> w.s.par.table == w.c.initial && w.s.par.phase.Unwinding?
    ensures ok ==>
              && w.s.par.phase.Launched? && w.s.par.table == ForkedTable(w.c) && e == EndsOf(w.c)
              && w.s.par.tail == w.c.stdin && w.s.par.col == IDLE
  {
    ghost var t0 := w.s.par.table;
    e := Ends(0, 0, 0, 0, -1, -1);
    assert !w.c.split;
    hide Reachable, GoodConfig;
    var inR, inW, outR, outW;
    ok, inR, inW := w.MakePipe(In);
    if !ok {
      return;
    }
    ghost var t1 := w.s.par.table;
    ok, outR, outW := w.MakePipe(Out);
    if ok {
      e := Ends(inR, inW, outR, outW, -1, -1);
      assert (w.s.par.table, e) == ForkTable(t0, false);
      hide WithPipe;
      ok := w.Fork();
      if !ok {
        ClosePipe(w, outR, outW, t1, Out);
        ClosePipe(w, inR, inW, t0, In);
      }
    } else {
      ClosePipe(w, inR, inW, t0, In);
    }
  }

  /** The descriptors on the way: the stdin end is still there to be closed, and then the output end is left. */
  lemma EndsLeft(c: Config)
    requires GoodConfig(c) && !c.split
    ensures var e, t := EndsOf(c), ForkedTable(c) - {EndsOf(c).inR} - {EndsOf(c).outW};
            && e.inW in t && t[e.inW] == PipeEnd(In, WriteEnd)
            && Runner.Holds(c, t - {e.inW}, e.outR, -1)
  {
    EndsInPlace(c);
    Runner.EndsLeft(c);
    var e := EndsOf(c);
    hide ForkedTable, EndsOf, Runner.Holds;
    var t := ForkedTable(c) - {e.inR} - {e.outW};
    assert t - Runner.Number(e.errW) == t;
  }

  method CloseChildEnds(w: World, e: Ends)
    requires w.Valid() && w.s.par.phase.Launched? && w.c.style.PlainC?
    requires e == EndsOf(w.c) && w.s.par.table == ForkedTable(w.c)
    modifies w`s, w.os
    ensures w.Valid() && w.os.files.faults == old(w.os.files.faults) && w.s.par.phase.Feeding?
    ensures w.s.par.tail == old(w.s.par.tail) && w.s.par.col == old(w.s.par.col)
    ensures w.s.par.table == ForkedTable(w.c) - {e.inR} - {e.outW}
  {
    ClosingOrder(w.c);
    hide ForkedTable, EndsOf, World.Valid, ParentEnabled, ParentAfter;
    w.CloseEnd(e.inR);
    w.CloseEnd(e.outW);
    Runner.BeginFeeding(w);
  }

  /** The stdin loop, which is that of write_all, and the close behind it. */
  method Feed(w: World, e: Ends) returns (fed: bool)
    requires w.Valid() && w.s.par.phase.Feeding? && w.c.style.PlainC? && e == EndsOf(w.c) && w.s.par.tail == w.c.stdin
    requires w.s.par.table == ForkedTable(w.c) - {e.inR} - {e.outW}
    modifies w`s, w`signals, w.os
    ensures w.Valid() && w.os.files.faults == old(w.os.files.faults) && w.s.par.col == old(w.s.par.col)
    ensures w.signals <= old(w.signals)
    ensures fed ==> w.s.par.phase.Fed? && Runner.Holds(w.c, w.s.par.table, e.outR, -1)
    ensures !fed ==> w.s.par.phase.Feeding? && |w.c.stdin| > w.c.capacity
  {
    EndsLeft(w.c);
    hide ForkedTable, EndsOf, Runner.Holds, ParentEnabled, ParentAfter, Reachable;
    fed := Runner.WriteAll(w, w.c.stdin);
    if fed {
      w.CloseEnd(e.inW);
    } else {
      Runner.FeedsTooMuch(w.c, w.s);
    }
  }

  /** The last close, and waitpid, which is not repeated. */
  method CloseAndWait(w: World, outR: nat) returns (r: WaitResult)
    requires w.Valid() && w.c.style.PlainC? && w.s.par.phase.Waiting? && Runner.Holds(w.c, w.s.par.table, outR, -1)
    modifies w`s, w`signals, w.os
    ensures w.Valid() && w.os.files.faults == old(w.os.files.faults) && w.s.par.table == w.c.initial
    ensures !r.WaitBlocks? ==>
              w.s.par.phase.Leaving? && w.s.par.col == old(w.s.par.col).(reaped := r.Reaped? || old(w.s.par.col.reaped))
    ensures r.WaitCut? ==> w.signals < old(w.signals)
    ensures r.WaitBlocks? ==> Runner.AwaitsChild(w)
  {
    w.CloseEnd(outR);
    assert w.s.par.table == w.c.initial;
    r := w.Wait();
    if r.WaitBlocks? {
      Runner.WaitsForReachable(w.c, w.s);
    }
  }

  /** From the end of the loop to the return. */
  method Conclude(w: World, heap: Heap, outR: nat, elapsed: int, timeoutMs: int, o: Output) returns (outcome: Outcome)
    requires w.Valid() && PastLoop(w, elapsed) && timeoutMs == w.c.timeoutMs
    requires Runner.Holds(w.c, w.s.par.table, outR, -1)
    requires Holds(o, heap, w.s.par.col.output)
    modifies w`s, w`signals, w.os, o.buffer
    ensures w.Valid() && w.os.files.faults == old(w.os.files.faults) && w.s.par.table == w.c.initial
    ensures !outcome.Failed? && heap.refusals == old(heap.refusals)
    ensures outcome.Returned? ==> w.s.par.phase.Done? && Delivers(outcome, heap, w.c, w.s)
    ensures outcome.Returned? && !outcome.hasStatus ==> w.signals < old(w.signals)
    ensures outcome.Blocked? ==> Runner.AwaitsChild(w)
  {
    hide ElapsedMs, At, Reachable, Runner.Holds, Runner.AwaitsChild, State.Held;
    var r := CloseAndWait(w, outR);
    if r.WaitBlocks? {
      return Blocked;
    }
    NeverThrew(w.c, w.s);
    Runner.Conclude(w);
    if o.buffer != null {
      o.buffer[o.length] := 0;
      assert o.buffer[..o.length] == w.s.par.col.output;
    }
    OutputIsExact(w.c, w.s);
    return Returned(r.Reaped?, elapsed >= timeoutMs, o.buffer, o.length);
  }

  /**
    What the caller finds. NULL for the output says that an allocation failed; otherwise there is a
    NUL behind a prefix of what was written to the merged stream, all of it unless the child was
    killed or the pipe could not be read, in a block about twice as long at most. `timedOut` says
    that the time was up when the clock was last read, as it was whenever the child was killed.
   */
  ghost predicate Delivers(r: Outcome, heap: Heap, c: Config, s: State)
    requires r.Returned?
    reads heap, r.output
  {
    var bytes := s.outP.written;
    && (r.output == null <==> heap.refusals > 0)
    && (r.output != null ==>
          && r.length < r.output.Length && r.output[r.length] == 0
          && r.output[..r.length] <= bytes
          && (!s.par.col.killed && !s.par.col.readFailed ==> r.output[..r.length] == bytes)
          && (r.output.Length <= 4096 || r.output.Length <= 2 * r.length + 1))
    && (r.timedOut <==> s.par.col.Elapsed(c) >= c.timeoutMs)
    && (s.par.col.killed ==> r.timedOut) && (r.hasStatus ==> CHILD !in s.procs)
    && (if r.timedOut then s.par.col.last > s.par.col.deadline - NS_PER_MS else s.par.col.last < s.par.col.deadline)
  }

  lemma NeverThrew(c: Config, s: State)
    requires GoodConfig(c) && Reachable(c, s) && c.style.PlainC?
    ensures !s.par.col.threw
  {
    InvReachable(c, s);
  }

  lemma OutputIsExact(c: Config, s: State)
    requires GoodConfig(c) && Reachable(c, s) && c.style.PlainC? && s.par.phase.Done? && !s.par.col.threw
    ensures s.par.col.output <= s.outP.written
    ensures !s.par.col.killed && !s.par.col.readFailed ==> s.par.col.output == s.outP.written
    ensures s.par.col.killed ==> s.par.col.Elapsed(c) >= c.timeoutMs
    ensures s.par.col.reaped ==> CHILD !in s.procs
    ensures if s.par.col.Elapsed(c) >= c.timeoutMs then s.par.col.last > s.par.col.deadline - NS_PER_MS
            else s.par.col.last < s.par.col.deadline
  {
    StreamsExact(c, s);
    KilledOnlyAtDeadline(c, s);
    InvReachable(c, s);
    ElapsedIsClose(Begun(c, s), s.par.col.last);
  }

  /**
    `ftl_run_command`. It fails exactly if a pipe or the fork does. Returned or failed, it leaves
    the descriptor table as it was and has closed nothing that was not open. It returns without the
    child's status only if a signal interrupted waitpid. It can be blocked for good only while it
    feeds more than a pipe holds, or in waitpid.
   */
  method RunCommand(w: World, heap: Heap, timeoutMs: int) returns (outcome: Outcome)
    requires w.Valid() && w.s == Start(w.c) && w.c.style.PlainC? && heap.refusals == 0 && heap.replaced == 0
    requires w.c.timeoutMs == if timeoutMs <= 0 then 5000 else timeoutMs
    modifies w, w.os, heap
    ensures w.Valid() && w.os.files.faults == old(w.os.files.faults)
    ensures !outcome.Blocked? ==> w.os.files.table == old(w.os.files.table)
    ensures outcome.Failed? <==> w.failures > old(w.failures)
    ensures outcome.Returned? ==> w.s.par.phase.Done? && Delivers(outcome, heap, w.c, w.s)
    ensures outcome.Returned? ==>
              var elapsed := ElapsedMs(At(Begun(w.c, w.s)), At(w.s.par.col.last));
              outcome.timedOut <==> elapsed >= if timeoutMs <= 0 then 5000 else timeoutMs
    ensures outcome.Returned? && w.s.par.col.killed ==>
              w.s.clock - Begun(w.c, w.s) > (if timeoutMs <= 0 then 4999 else timeoutMs - 1) * 1_000_000
    ensures outcome.Returned? && !outcome.hasStatus ==> w.signals < old(w.signals)
    ensures outcome.Failed? ==> w.s.par.phase.Failed? && !w.s.par.col.killed
    ensures outcome.Blocked? ==> (w.s.par.phase.Feeding? && |w.c.stdin| > w.c.capacity) || Runner.AwaitsChild(w)
  {
    hide ForkedTable, EndsOf, Reachable, Holds, Runner.Holds, Delivers, ParentEnabled, ParentAfter;
    var timeout := if timeoutMs <= 0 then DEFAULT_TIMEOUT_MS else timeoutMs;
    var ok, e := SetUp(w);
    if !ok {
      Runner.Conclude(w);
      Runner.NeitherKilledNorReaped(w.c, w.s);
      return Outcome.Failed;
    }
    CloseChildEnds(w, e);
    var fed := Feed(w, e);
    if !fed {
      return Blocked;
    }
    BeginCollect(w, e.outR);
    var elapsed, o := ReadAll(w, heap, timeout);
    outcome := Conclude(w, heap, e.outR, elapsed, timeout, o);
    if outcome.Returned? {
      KilledLateEnough(w.c, w.s, outcome, heap);
    }
  }

  lemma KilledLateEnough(c: Config, s: State, r: Outcome, heap: Heap)
    requires GoodConfig(c) && Reachable(c, s) && c.style.PlainC? && r.Returned? && Delivers(r, heap, c, s)
    ensures s.par.col.killed ==> s.clock - Begun(c, s) > (c.timeoutMs - 1) * NS_PER_MS
    ensures r.timedOut <==> ElapsedMs(At(Begun(c, s)), At(s.par.col.last)) >= c.timeoutMs
  {
    KilledOnlyAtDeadline(c, s);
  }

  method BeginCollect(w: World, outR: nat)
    requires w.Valid() && w.c.style.PlainC? && w.s.par.phase.Fed?
    requires Runner.Holds(w.c, w.s.par.table, outR, -1) && w.s.par.col == IDLE
    modifies w`s
    ensures w.Valid() && AtHead(w, 0) && w.s.clock == Begun(w.c, w.s) && w.s.par.table == old(w.s.par.table)
    ensures w.s.par.col.output == [] && !w.s.par.col.reaped
  {
    Runner.NoStdinEnd(w.c, w.s.par.table, outR, -1);
    w.Do(Above(Collect));
  }
}
