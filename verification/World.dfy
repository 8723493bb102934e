/**
  The system calls the runners make, each executed against the machine: before a call takes effect the
  other processes make any number of steps and time passes, and what the call may return is what
  the machine allows.
 */
module Worlds {
  import opened Descriptors
  import UniqueFds
  import opened Wiring
  import opened Protocol
  import opened Tables
  import opened Streams
  import opened Runs

  datatype WriteResult = Wrote(n: nat) | WriteInterrupted | WriteFailed | WriteBlocks
  datatype PollResult = Ready(ready: seq<Stream>) | NothingReady | PollSignalled | PollFailed | PollBlocks
  datatype ReadResult = Got(bs: Bytes) | ReadInterrupted | ReadFailed
  datatype WaitResult = Reaped | WaitCut | WaitBlocks

  /** The most a pipe takes of `n` bytes; nothing means that a write blocks. */
  function MostAccepted(c: Config, p: Pipe, n: nat): (k: nat)
    requires |p.queue| <= c.capacity
    ensures if k > 0 then Accepts(c, p, n, k) else forall j :: !Accepts(c, p, n, j)
  {
    var room := c.capacity - |p.queue|;
    if n <= room then n else if n <= PIPE_BUF then 0 else room
  }

  /** What a read of `st` does to the parent that makes it. */
  predicate AfterRead(par: Parent, par': Parent, st: Stream, r: ReadResult)
    requires par.phase.Draining? && par.phase.ready != []
  {
    match r
    case Got(bs) =>
      && |bs| <= CHUNK
      && par' == par.(phase := NextDrain(par.phase.ready),
                      col := if bs == [] then par.col.Closed(st) else par.col.Got(st, bs))
    case ReadInterrupted => par' == par
    case ReadFailed => par' == par.(phase := NextDrain(par.phase.ready), col := par.col.Closed(st).(readFailed := true))
  }

  class World {
    const c: Config
    const os: Os<Handle>
    var s: State
    /** How many more system calls of the parent a signal will interrupt. */
    var signals: nat
    /** How many calls of pipe(2) and fork(2) failed. */
    var failures: nat

    constructor (c: Config, signals: nat)
      requires GoodConfig(c)
      ensures this.c == c && fresh(os) && Valid() && s == Start(c) && os.files == Files(c.initial, 0, [])
    {
      this.c := c;
      os := new Os(c.initial);
      s := Start(c);
      this.signals := signals;
      failures := 0;
      ReachableStart(c);
    }

    /** The state was reached by a run of the machine, and its parent has the kernel's table. */
    ghost predicate Valid()
      reads this, os
    {
      GoodConfig(c) && Reachable(c, s) && s.par.table == os.files.table
    }

    method Do(e: Event)
      requires Reachable(c, s) && Enabled(c, s, e)
      modifies this`s
      ensures s == After(c, old(s), e) && Reachable(c, s)
    {
      ReachableNext(c, s, e);
      s := After(c, s, e);
    }

    /** What the others do, and how long they take, is up to them. */
    method Others()
      requires Valid()
      modifies this`s
      ensures Valid() && s.par == old(s.par) && s.clock > old(s.clock)
    {
      hide ProcEnabled, ProcAfter, Reachable;
      var n: nat := *;
      while n > 0
        invariant Valid() && s.par == old(s.par) && s.clock >= old(s.clock)
      {
        var e: ProcEvent := *;
        if ProcEnabled(c, s, e) {
          BelowKeepsParent(c, s, e);
          Do(Below(e));
        }
        n := n - 1;
      }
      var ns: int := *;
      Wake(if ns > 0 then ns else 1);
    }

    /** Whether some signal interrupts the call at hand. */
    method Interrupted() returns (b: bool)
      modifies this`signals
      ensures if b then signals == old(signals) - 1 else signals == old(signals)
    {
      b := *;
      b := b && signals > 0;
      if b {
        signals := signals - 1;
      }
    }

    /** pipe(2); it may fail. */
    method MakePipe(st: Stream) returns (ok: bool, rd: nat, wr: nat)
      requires Valid() && s.par.phase.Setup?
      modifies this`s, this`failures, os
      ensures Valid() && os.files.faults == old(os.files.faults)
      ensures failures == old(failures) + if ok then 0 else 1
      ensures if ok then
                (s.par.table, rd, wr) == WithPipe(old(s.par.table), st) && s.par == old(s.par).(table := s.par.table)
              else
                s.par == old(s.par).(phase := Unwinding)
    {
      rd, wr := 0, 0;
      ok := *;
      if ok {
        rd := os.Open(PipeEnd(st, ReadEnd));
        wr := os.Open(PipeEnd(st, WriteEnd));
        Do(Above(PipeMade(st)));
      } else {
        Do(Above(SetupFails));
        failures := failures + 1;
      }
    }

    /** fork(2); it may fail. */
    method Fork() returns (ok: bool)
      requires Valid() && s.par.phase.Setup? && s.par.table == ForkedTable(c)
      modifies this`s, this`failures
      ensures Valid() && s.par == old(s.par).(phase := s.par.phase) && failures == old(failures) + if ok then 0 else 1
      ensures s.par.phase == if ok then Launched else Unwinding
    {
      ok := *;
      if ok {
        Do(Above(Forked));
      } else {
        Do(Above(SetupFails));
        failures := failures + 1;
      }
    }

    /** close(2) of an end of a runner pipe. */
    method CloseEnd(end: nat)
      requires Valid() && end in s.par.table && MayClose(c, s, s.par.table[end])
      modifies this`s, os
      ensures Valid() && os.files.faults == old(os.files.faults)
      ensures s.par == old(s.par.(table := s.par.table - {end}))
    {
      os.Close(end);
      Do(Above(ParentClose(end)));
      Others();
    }

    /** UniqueFd::reset() on an end of a runner pipe. */
    method Reset(u: UniqueFds.UniqueFd)
      requires Valid() && (u.fd >= 0 ==> u.fd in s.par.table && MayClose(c, s, s.par.table[u.fd]))
      modifies this`s, os, u
      ensures Valid() && u.fd == -1 && os.files.faults == old(os.files.faults)
      ensures s.par == old(s.par.(table := if u.fd >= 0 then s.par.table - {u.fd} else s.par.table))
    {
      var n := u.fd;
      u.Reset(os, -1);
      if n >= 0 {
        Do(Above(ParentClose(n)));
        Others();
      }
    }

    /** ~UniqueFd() */
    method Destroy(u: UniqueFds.UniqueFd)
      requires Valid() && (u.fd >= 0 ==> u.fd in s.par.table && MayClose(c, s, s.par.table[u.fd]))
      modifies this`s, os
      ensures Valid() && os.files.faults == old(os.files.faults)
      ensures s.par == old(s.par.(table := if u.fd >= 0 then s.par.table - {u.fd} else s.par.table))
    {
      u.Destroy(os);
      if u.fd >= 0 {
        Do(Above(ParentClose(u.fd)));
        Others();
      }
    }

    /** write(2) of what is left of the stdin data. */
    method Write(bs: Bytes) returns (r: WriteResult)
      requires Valid() && s.par.phase.Feeding? && s.par.tail == bs != []
      modifies this`s, this`signals
      ensures Valid() && (r.WriteInterrupted? ==> signals < old(signals))
      ensures (!r.WriteInterrupted? ==> signals == old(signals))
      ensures match r
              case Wrote(n) => 0 < n <= |bs| && s.par == old(s).par.(tail := bs[n..])
              case WriteInterrupted => s.par == old(s).par
              case WriteFailed => s.par == old(s).par.(phase := Fed, writeFailed := s.par.writeFailed)
              case WriteBlocks => s.par == old(s).par && |s.inP.queue| + |s.par.tail| > c.capacity
    {
      Others();
      InvReachable(c, s);
      hide Reachable, Inv;
      var interrupted := Interrupted();
      var fails: bool := *;
      var k: nat := *;
      if interrupted {
        return WriteInterrupted;
      }
      if !s.Held(PipeEnd(In, ReadEnd)) {
        Do(Above(FeedStop));
        return WriteFailed;
      }
      if fails {
        Do(Above(FeedError));
        return WriteFailed;
      }
      assert |s.inP.queue| <= c.capacity;
      if !Accepts(c, s.inP, |s.par.tail|, k) {
        k := MostAccepted(c, s.inP, |s.par.tail|);
      }
      if k == 0 {
        return WriteBlocks;
      }
      Do(Above(FeedWrite(k)));
      return Wrote(k);
    }

    /** The head of the loop. */
    method CheckTime()
      requires Valid() && s.par.phase.Check?
      modifies this`s
      ensures Valid() && s == old(s).(par := old(s).par.TimeChecked(c, s.clock)) && s.clock == old(s.clock)
    {
      hide Parent.TimeChecked;
      LoopKeeps(s.par, c, s.clock);
      Do(Above(Protocol.CheckTime));
    }

    /** kill(2) of the child with SIGKILL. */
    method Kill()
      requires Valid() && s.par.phase.Expired?
      modifies this`s
      ensures Valid() && s == old(s).(par := old(s).par.(phase := Waiting, col := old(s).par.col.(killed := true)))
    {
      Do(Above(Protocol.Kill));
    }

    /** The C runner goes back to poll after an interrupted read. */
    method Retry()
      requires Valid() && c.style.PlainC? && s.par.phase.Draining?
      modifies this`s
      ensures Valid() && s == old(s).(par := old(s).par.(phase := Check))
    {
      Do(Above(ReadRetried));
    }

    /** poll returns in one of these ways. */
    method PollReturns(e: ParentEvent)
      requires Valid() && s.par.phase.Polling? && Polled(e)
      requires e.PollReady? ==>
                 OneOrBoth(e.ready) && forall st :: st in e.ready ==> s.par.col.IsOpen(st) && s.Readable(st)
      requires e.PollTimeout? ==> s.par.phase.until.Some? && s.clock >= s.par.phase.until.value
      modifies this`s
      ensures Valid() && s == old(s).(par := s.par)
      ensures s.par.table == old(s.par.table)
      ensures s.par == match e
                       case PollReady(ready) =>
                         old(s).par.(phase := Draining(ready), col := old(s).par.col.ClockRead(c, s.clock))
                       case PollTimeout => old(s).par.PollExpired(c, s.clock)
                       case PollInterrupted => old(s).par.(phase := Check, col := old(s).par.col.ClockRead(c, s.clock))
                       case _ => old(s).par.PollFailed(c, s.clock)
    {
      LoopKeeps(s.par, c, s.clock);
      hide Parent.PollExpired, Parent.PollFailed, State.Readable;
      Do(Above(e));
    }

    /** poll(2) on the open sources, for `ms` milliseconds. */
    method Poll(ms: int) returns (r: PollResult)
      requires Valid() && s.par.phase == Polling(PollUntil(s.clock, ms))
      modifies this`s
      ensures Valid() && s.clock > old(s.clock) && s.par.table == old(s.par.table)
      ensures match r
              case Ready(ready) =>
                && s.par == old(s).par.(phase := Draining(ready), col := old(s).par.col.ClockRead(c, s.clock))
                && OneOrBoth(ready) && forall st :: st in ready ==> s.par.col.IsOpen(st)
              case NothingReady => s.par == old(s).par.PollExpired(c, s.clock)
              case PollSignalled => s.par == old(s).par.(phase := Check, col := old(s).par.col.ClockRead(c, s.clock))
              case PollFailed => s.par == old(s).par.PollFailed(c, s.clock)
              case PollBlocks =>
                s.par == old(s).par && s.par.phase.until.None? && forall st :: s.par.col.IsOpen(st) ==> !s.Readable(st)
    {
      Others();
      hide World.Valid, State.Readable, Parent.PollExpired, Parent.PollFailed;
      hide ParentEnabled, ParentAfter, ProcEnabled, ProcAfter;
      var choice: int := *;
      var ready: seq<Stream> := *;
      if choice == 0 && OneOrBoth(ready) && forall st :: st in ready ==> s.par.col.IsOpen(st) && s.Readable(st) {
        PollReturns(PollReady(ready));
        return Ready(ready);
      }
      if choice == 1 {
        PollReturns(PollInterrupted);
        return PollSignalled;
      }
      if choice == 2 {
        PollReturns(PollFails);
        return PollFailed;
      }
      if s.par.phase.until.Some? {
        if s.clock < s.par.phase.until.value {
          Wake(s.par.phase.until.value - s.clock);
        }
        PollReturns(PollTimeout);
        return NothingReady;
      }
      if s.par.col.outOpen && s.Readable(Out) {
        PollReturns(PollReady([Out]));
        return Ready([Out]);
      }
      if s.par.col.errOpen && s.Readable(Err) {
        PollReturns(PollReady([Err]));
        return Ready([Err]);
      }
      return PollBlocks;
    }

    /** Time passes. */
    method Wake(ns: int)
      requires Valid() && ns > 0
      modifies this`s
      ensures Valid() && s == old(s).(clock := old(s).clock + ns)
    {
      Do(Tick(ns));
    }

    /** read(2) of at most CHUNK bytes from `st`, which poll reported. */
    method Read(st: Stream) returns (r: ReadResult)
      requires Valid() && s.par.phase.Draining? && s.par.phase.ready != [] && s.par.phase.ready[0] == st
      modifies this`s, this`signals
      ensures Valid() && s.clock > old(s.clock)
      ensures (r.ReadInterrupted? ==> signals < old(signals)) && (!r.ReadInterrupted? ==> signals == old(signals))
      ensures OneOrBoth(old(s).par.phase.ready)
      ensures AfterRead(old(s).par, s.par, st, r)
    {
      InvReachable(c, s);
      assert OneOrBoth(s.par.phase.ready);
      Others();
      InvReachable(c, s);
      hide Reachable, TablesOk, BytesOk, FedOk, ClockOk, State.Held;
      var interrupted := Interrupted();
      var fails: bool := *;
      var k: nat := *;
      assert st in s.par.phase.ready;
      if interrupted {
        return ReadInterrupted;
      }
      if fails {
        Do(Above(DrainError));
        return ReadFailed;
      }
      if !Yields(s, st, CHUNK, k) {
        k := if s.PipeOf(st).queue != [] then 1 else 0;
      }
      var bs := s.PipeOf(st).queue[..k];
      Do(Above(Drain(k)));
      return Got(bs);
    }

    /** waitpid(2) on the child; it blocks while the child runs, unless a signal interrupts it. */
    method Wait() returns (r: WaitResult)
      requires Valid() && s.par.phase.Waiting? && (c.style.PlainC? ==> NotHeldByParent(s, Out, ReadEnd))
      modifies this`s, this`signals
      ensures Valid() && (r.WaitCut? ==> signals < old(signals)) && (!r.WaitCut? ==> signals == old(signals))
      ensures match r
              case Reaped => s.par == old(s.par).(phase := Leaving, col := old(s.par.col).(reaped := true))
              case WaitCut => s.par == old(s.par).(phase := Leaving)
              case WaitBlocks => s.par == old(s.par) && CHILD in s.procs && !s.par.col.killed
    {
      Others();
      hide Reachable;
      var interrupted := Interrupted();
      if interrupted {
        Do(Above(WaitInterrupted));
        return WaitCut;
      }
      if CHILD in s.procs && s.par.col.killed {
        Do(Below(Die));
      }
      if CHILD in s.procs {
        return WaitBlocks;
      }
      Do(Above(Reap));
      return Reaped;
    }
  }
}
