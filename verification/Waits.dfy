/** waitpid: that it may wait without limit, what ends it, and the deadlock that a failed read leads to. */
module Waits {
  import opened Descriptors
  import opened Wiring
  import opened Clocks
  import opened Protocol
  import opened Tables
  import opened Streams
  import opened Runs
  import opened Progress
  import opened Hang

  /** The parent is inside waitpid, on a child that lives and was not killed. */
  predicate InWaitpid(c: Config, s: State) {
    && s.par.phase.Waiting? && !s.par.col.killed && CHILD in s.procs
    && (c.style.PlainC? ==> NotHeldByParent(s, Out, ReadEnd))
  }

  /** The child closes its pipe ends, but for those in `keep`. */
  lemma {:induction false} CloseAllBut(c: Config, s: State, table: Table, keep: set<Handle>)
    returns (s': State, table': Table)
    requires Reachable(c, s) && s.procs == map[CHILD := Process(table, Running)]
    ensures Reachable(c, s') && s' == s.(procs := map[CHILD := Process(table', Running)])
    ensures forall fd: nat :: fd in table' && table'[fd].PipeEnd? ==> table'[fd] in keep
    ensures forall fd: nat :: fd in table && table[fd] in keep ==> fd in table' && table'[fd] == table[fd]
    decreases |table|
  {
    if fd: nat :| fd in table && table[fd].PipeEnd? && table[fd] !in keep {
      var e := Below(CloseFd(CHILD, fd));
      ReachableNext(c, s, e);
      hide Reachable;
      assert After(c, s, e) == s.(procs := map[CHILD := Process(table - {fd}, Running)]);
      assert (table - {fd}).Keys == table.Keys - {fd};
      s', table' := CloseAllBut(c, After(c, s, e), table - {fd}, keep);
    } else {
      s', table' := s, table;
    }
  }

  /** Nobody reads stdin, so feeding is over at once, and the parent closes its end. */
  lemma {:induction false} CloseStdin(c: Config, s: State) returns (s': State)
    requires Reachable(c, s) && s.par.phase.Fed?
    ensures Reachable(c, s') && s' == s.(par := s.par.(table := s'.par.table))
    ensures NotHeldByParent(s', In, WriteEnd)
    ensures forall h :: h in s'.par.table.Values ==> h in s.par.table.Values
    ensures forall h :: h in s.par.table.Values && h != PipeEnd(In, WriteEnd) ==> h in s'.par.table.Values
    decreases |s.par.table|
  {
    var t := s.par.table;
    if fd: nat :| fd in t && t[fd] == PipeEnd(In, WriteEnd) {
      var e := Above(ParentClose(fd));
      ReachableNext(c, s, e);
      hide Reachable;
      var s1 := After(c, s, e);
      assert s1 == s.(par := s.par.(table := t - {fd})) && (t - {fd}).Keys == t.Keys - {fd};
      forall h | h in t.Values && h != PipeEnd(In, WriteEnd) ensures h in (t - {fd}).Values {
        var k :| k in t && t[k] == h;
        assert k in t - {fd};
      }
      s' := CloseStdin(c, s1);
    } else {
      s' := s;
    }
  }

  /** The collecting loop begins, and no time has passed since. */
  predicate JustBegun(c: Config, s: State) {
    && s.par.phase.Check? && s.clock == Begun(c, s) && s.par.col.last == s.clock
    && !s.par.col.timedOut && !s.par.col.killed && !s.par.col.threw
  }

  lemma ReachCollecting(c: Config, s: State) returns (s': State)
    requires GoodConfig(c) && Reachable(c, s) && s.par.phase.Feeding? && !s.Held(PipeEnd(In, ReadEnd))
    requires !s.par.col.timedOut && !s.par.col.killed && !s.par.col.threw && !s.par.col.readFailed
    ensures Reachable(c, s') && JustBegun(c, s') && !s'.par.col.readFailed
    ensures s'.par.col.outOpen && s'.par.col.errOpen == c.split
    ensures s' == s.(par := s'.par)
    ensures forall h :: h in s'.par.table.Values ==> h in s.par.table.Values
    ensures forall h :: h in s.par.table.Values && h != PipeEnd(In, WriteEnd) ==> h in s'.par.table.Values
  {
    var e := Above(if s.par.tail == [] then FeedDone else FeedStop);
    ReachableNext(c, s, e);
    s' := After(c, s, e);
    assert s' == s.(par := s.par.(phase := Fed));
    s' := CloseStdin(c, s');
    ReachableNext(c, s', Above(Collect));
    s' := After(c, s', Above(Collect));
  }

  lemma StillTime(c: Config, s: State)
    requires GoodConfig(c) && JustBegun(c, s) && (s.par.col.outOpen || s.par.col.errOpen)
    ensures var par := s.par.TimeChecked(c, s.clock); par.phase.Polling? && par == s.par.(phase := par.phase)
  {
    assert s.par.col.Elapsed(c) == 0;
    assert s.par.col.deadline - s.clock == c.timeoutMs * NS_PER_MS;
    hide AsInt;
  }

  /** One source is polled, and read to its end, or in vain. */
  lemma OneSource(c: Config, s: State, st: Stream, fails: bool) returns (s': State)
    requires GoodConfig(c) && Reachable(c, s) && JustBegun(c, s) && s.par.col.IsOpen(st) && (st == Out || st == Err)
    requires if fails then s.Readable(st) else Exhausted(s, st)
    ensures Reachable(c, s') && JustBegun(c, s')
    ensures s' == s.(par := s'.par) && s'.par.table == s.par.table
    ensures s'.par.col == s.par.col.Closed(st).(readFailed := s.par.col.readFailed || fails)
  {
    StillTime(c, s);
    ReachableNext(c, s, Above(CheckTime));
    var s1 := After(c, s, Above(CheckTime));
    assert s1 == s.(par := s.par.TimeChecked(c, s.clock));
    ParentOnly(s, s1.par, st);
    s' := Served(c, s1, st, fails);
    assert s1.par.col.ClockRead(c, s1.clock) == s.par.col;
  }

  lemma Served(c: Config, s: State, st: Stream, fails: bool) returns (s': State)
    requires Reachable(c, s) && s.par.phase.Polling? && s.par.col.IsOpen(st) && (st == Out || st == Err)
    requires if fails then s.Readable(st) else Exhausted(s, st)
    ensures Reachable(c, s') && s' == s.(par := s'.par)
    ensures var col := s.par.col.ClockRead(c, s.clock).Closed(st);
            s'.par == s.par.(phase := Check, col := col.(readFailed := col.readFailed || fails))
  {
    var e := Above(PollReady([st]));
    assert Enabled(c, s, e);
    ReachableNext(c, s, e);
    s' := After(c, s, e);
    ParentOnly(s, s'.par, st);
    e := Above(if fails then DrainError else Drain(0));
    assert Enabled(c, s', e);
    ReachableNext(c, s', e);
    assert s'.PipeOf(st).Take(0) == s'.PipeOf(st) by {
      assert s'.PipeOf(st).queue[0..] == s'.PipeOf(st).queue;
      assert s'.PipeOf(st).taken + [] == s'.PipeOf(st).taken;
    }
    s' := After(c, s', e);
  }

  lemma LoopLeft(c: Config, s: State) returns (s': State)
    requires Reachable(c, s) && JustBegun(c, s) && !s.par.col.outOpen && !s.par.col.errOpen
    ensures Reachable(c, s') && s' == s.(par := s.par.(phase := Waiting))
  {
    ReachableNext(c, s, Above(CheckTime));
    s' := After(c, s, Above(CheckTime));
  }

  /** The C runner closes its end before it waits. */
  lemma {:induction false} CloseOutput(c: Config, s: State) returns (s': State)
    requires Reachable(c, s) && s.par.phase.Waiting?
    ensures Reachable(c, s') && s' == s.(par := s.par.(table := s'.par.table))
    ensures c.style.PlainC? ==> NotHeldByParent(s', Out, ReadEnd)
    ensures c.style.Cpp? ==> s' == s
    decreases |s.par.table|
  {
    var t := s.par.table;
    s' := s;
    if c.style.PlainC? {
      if fd: nat :| fd in t && t[fd] == PipeEnd(Out, ReadEnd) {
        var e := Above(ParentClose(fd));
        ReachableNext(c, s, e);
        hide Reachable;
        var s1 := After(c, s, e);
        assert s1 == s.(par := s.par.(table := t - {fd})) && (t - {fd}).Keys == t.Keys - {fd};
        s' := CloseOutput(c, s1);
      }
    }
  }

  /** With nobody to write to them the outputs are read to their end, and the loop is left. */
  lemma CollectNothing(c: Config, s: State) returns (s': State)
    requires GoodConfig(c) && Reachable(c, s) && JustBegun(c, s) && s.par.col.outOpen && s.par.col.errOpen == c.split
    requires Exhausted(s, Out) && Exhausted(s, Err)
    ensures Reachable(c, s') && JustBegun(c, s') && s' == s.(par := s'.par) && s'.par.table == s.par.table
    ensures s'.par.col == s.par.col.(outOpen := false, errOpen := false)
  {
    s' := OneSource(c, s, Out, false);
    ParentOnly(s, s'.par, Err);
    if c.split {
      s' := OneSource(c, s', Err, false);
    }
  }

  /** Collecting has begun, from a child that has closed its three streams. */
  lemma ReachSilence(c: Config) returns (s: State)
    requires GoodConfig(c)
    ensures Reachable(c, s) && JustBegun(c, s) && !s.par.col.readFailed
    ensures s.par.col.outOpen && s.par.col.errOpen == c.split && Exhausted(s, Out) && Exhausted(s, Err)
    ensures s.procs.Keys == {CHILD} && IsFree(s, CHILD)
  {
    s := ReachFeeding(c);
    s := ReachProgram(c, s, 0);
    var table: Table;
    s, table := CloseAllBut(c, s, ProgramTable(c), {});
    hide ProgramTable, Reachable;
    NobodyHolds(c, s, In, ReadEnd);
    s := ReachCollecting(c, s);
    NobodyHolds(c, s, Out, WriteEnd);
    NobodyHolds(c, s, Err, WriteEnd);
  }

  /**
    Whatever the timeout and the stdin data, either runner can come to wait, with nothing of its
    timeout spent, for a child that has closed its three streams and is free to run on.
   */
  lemma WaitpidIsReachable(c: Config) returns (s: State)
    requires GoodConfig(c)
    ensures Reachable(c, s) && InWaitpid(c, s) && IsFree(s, CHILD)
    ensures s.clock == Begun(c, s) && !s.par.col.readFailed && s.procs.Keys == {CHILD}
  {
    s := ReachSilence(c);
    hide Reachable;
    s := CollectNothing(c, s);
    s := LoopLeft(c, s);
    s := CloseOutput(c, s);
  }

  /** Once the parent has closed the child's ends, a child without pipe ends leaves them to nobody. */
  lemma NobodyHolds(c: Config, s: State, st: Stream, side: Side)
    requires s.procs.Keys == {CHILD} && NotHeldByParent(s, st, side)
    requires PipeEnd(st, side) !in s.procs[CHILD].table.Values
    ensures !s.Held(PipeEnd(st, side))
  {
  }

  /** What could end the wait: the child's end, or a signal to the parent. */
  predicate EndsWait(e: Event) {
    e == Below(Exit(CHILD)) || e == Below(Signal(CHILD)) || e == Above(WaitInterrupted)
  }

  /** Nothing else does, the passage of any time included. */
  lemma {:induction false} OnlyTheChildEndsTheWait(c: Config, s: State, es: seq<Event>)
    requires InWaitpid(c, s) && IsRun(c, s, es) && forall i :: 0 <= i < |es| ==> !EndsWait(es[i])
    ensures InWaitpid(c, Final(c, s, es))
    decreases |es|
  {
    if es != [] {
      StillWaiting(c, s, es[0]);
      OnlyTheChildEndsTheWait(c, After(c, s, es[0]), es[1..]);
    }
  }

  lemma StillWaiting(c: Config, s: State, e: Event)
    requires InWaitpid(c, s) && Enabled(c, s, e) && !EndsWait(e)
    ensures InWaitpid(c, After(c, s, e))
  {
    match e
    case Below(pe) =>
      BelowKeepsParent(c, s, pe);
      hide Rewired, State.Held, Accepts;
    case Above(pe) =>
    case Tick(_) =>
  }

  /** A child that has ended is waited for no longer. */
  lemma EndedChildIsReaped(c: Config, s: State)
    requires s.par.phase.Waiting? && CHILD !in s.procs && (c.style.PlainC? ==> NotHeldByParent(s, Out, ReadEnd))
    ensures Enabled(c, s, Above(Reap))
  {
  }

  /** What is left to do after waitpid, with a child or without. */
  lemma {:induction false} Leaves(c: Config, s: State) returns (s': State)
    requires Reachable(c, s) && s.par.phase.Leaving?
    ensures Reachable(c, s') && s' == s.(par := s.par.(phase := Done, table := s'.par.table))
    decreases |s.par.table|
  {
    var t := s.par.table;
    if fd: nat :| fd in t && t[fd].PipeEnd? {
      var e := Above(ParentClose(fd));
      ReachableNext(c, s, e);
      hide Reachable;
      var s1 := After(c, s, e);
      assert s1 == s.(par := s.par.(table := t - {fd})) && (t - {fd}).Keys == t.Keys - {fd};
      s' := Leaves(c, s1);
    } else {
      assert Enabled(c, s, Above(Leave));
      ReachableNext(c, s, Above(Leave));
      s' := After(c, s, Above(Leave));
    }
  }

  /**
    A signal in waitpid, and either runner returns while its child runs on, neither killed nor
    reaped, with nothing of the timeout spent.
   */
  lemma ChildIsLeftUnreaped(c: Config) returns (s: State)
    requires GoodConfig(c)
    ensures Reachable(c, s) && s.par.phase.Done? && IsFree(s, CHILD)
    ensures !s.par.col.reaped && !s.par.col.killed && !s.par.col.threw && !s.par.col.readFailed
    ensures s.clock == Begun(c, s)
  {
    s := WaitpidIsReachable(c);
    InvReachable(c, s);
    hide Inv;
    ReachableNext(c, s, Above(WaitInterrupted));
    s := After(c, s, Above(WaitInterrupted));
    s := Leaves(c, s);
  }

  /** A child that is waited for ends, and is reaped. */
  lemma EndsAndIsReaped(c: Config, s: State) returns (s': State)
    requires Reachable(c, s) && InWaitpid(c, s) && IsFree(s, CHILD)
    ensures Reachable(c, s') && s'.par.phase.Done? && s'.par.col == s.par.col.(reaped := true)
  {
    ReachableNext(c, s, Below(Exit(CHILD)));
    s' := After(c, s, Below(Exit(CHILD)));
    EndedChildIsReaped(c, s');
    ReachableNext(c, s', Above(Reap));
    s' := After(c, s', Above(Reap));
    s' := Leaves(c, s');
  }

  /** End of file comes late: the C runner returns all of the output and finds the time to be up, without a kill. */
  lemma TimedOutWithoutAKill(c: Config) returns (s: State)
    requires GoodConfig(c) && c.style.PlainC?
    ensures Reachable(c, s) && s.par.phase.Done? && s.par.col.reaped && !s.par.col.killed && !s.par.col.readFailed
    ensures s.par.col.Elapsed(c) >= c.timeoutMs
  {
    s := ReachSilence(c);
    hide Reachable;
    s := LateEnd(c, s);
    s := CloseOutput(c, s);
    s := EndsAndIsReaped(c, s);
  }

  /** poll reports the end of the output when the whole timeout is over. */
  lemma LateEnd(c: Config, s: State) returns (s': State)
    requires GoodConfig(c) && c.style.PlainC? && Reachable(c, s) && JustBegun(c, s) && Exhausted(s, Out)
    requires s.par.col.outOpen && !s.par.col.errOpen && !s.par.col.readFailed
    ensures Reachable(c, s') && s'.par.phase.Waiting? && s'.procs == s.procs
    ensures !s'.par.col.killed && !s'.par.col.readFailed && s'.par.col.Elapsed(c) >= c.timeoutMs
  {
    StillTime(c, s);
    ReachableNext(c, s, Above(CheckTime));
    s' := After(c, s, Above(CheckTime));
    assert s' == s.(par := s.par.TimeChecked(c, s.clock));
    var e := Tick(c.timeoutMs * NS_PER_MS);
    ReachableNext(c, s', e);
    s' := After(c, s', e);
    assert s'.clock == s.par.col.deadline;
    ParentOnly(s, s'.par, Out);
    TickKeepsHeld(s.(par := s'.par), s'.clock, PipeEnd(Out, WriteEnd));
    s' := Served(c, s', Out, false);
    DeadlineNoticed(c, s'.par.col);
    ReachableNext(c, s', Above(CheckTime));
    s' := After(c, s', Above(CheckTime));
  }

  /** Collecting has begun, from a child that has kept its outputs and written nothing. */
  lemma ReachQuiet(c: Config) returns (s: State)
    requires GoodConfig(c) && c.style.Cpp?
    ensures Reachable(c, s) && JustBegun(c, s) && s.par.col.outOpen && s.par.col.errOpen == c.split
    ensures IsFree(s, CHILD) && PipeEnd(Out, WriteEnd) in s.procs[CHILD].table.Values
    ensures c.split ==> PipeEnd(Err, WriteEnd) in s.procs[CHILD].table.Values
    ensures s.outP.queue == [] && s.errP.queue == []
  {
    s := ReachFeeding(c);
    s := ReachProgram(c, s, 0);
    var fd := OutputFd(c);
    assert c.split ==> ProgramTable(c)[2] == PipeEnd(Err, WriteEnd);
    var table: Table;
    s, table := CloseAllBut(c, s, ProgramTable(c), {PipeEnd(Out, WriteEnd), PipeEnd(Err, WriteEnd)});
    hide ProgramTable, Reachable;
    assert table[fd] == PipeEnd(Out, WriteEnd);
    assert c.split ==> table[2] == PipeEnd(Err, WriteEnd);
    NobodyHolds(c, s, In, ReadEnd);
    s := ReachCollecting(c, s);
  }

  /** A timeout that becomes negative when it is cut to an int is none: no passage of time ends that poll. */
  lemma PollWithoutEnd(c: Config) returns (s: State)
    requires GoodConfig(c) && c.style.Cpp? && AsInt(c.timeoutMs) < 0
    ensures Reachable(c, s) && s.par.phase == Polling(None) && IsFree(s, CHILD)
    ensures forall ns: nat :: !Enabled(c, Later(s, ns), Above(PollTimeout))
    ensures forall ready, ns: nat :: !Enabled(c, Later(s, ns), Above(PollReady(ready)))
  {
    var s0 := ReachQuiet(c);
    StillTime(c, s0);
    assert s0.par.col.deadline - s0.clock == c.timeoutMs * NS_PER_MS;
    assert ToMs(s0.par.col.deadline - s0.clock) == c.timeoutMs;
    ReachableNext(c, s0, Above(CheckTime));
    s := After(c, s0, Above(CheckTime));
    assert s == s0.(par := s0.par.TimeChecked(c, s0.clock));
    hide Reachable, ToMs, AsInt, JustBegun, GoodConfig;
    NothingToRead(c, s, Out);
    if c.split {
      NothingToRead(c, s, Err);
    }
    NoPollReturns(c, s);
  }

  lemma NoPollReturns(c: Config, s: State)
    requires s.par.phase == Polling(None) && s.par.col.outOpen && s.par.col.errOpen == c.split
    requires forall ns: nat :: !Later(s, ns).Readable(Out)
    requires c.split ==> forall ns: nat :: !Later(s, ns).Readable(Err)
    ensures forall ns: nat :: !Enabled(c, Later(s, ns), Above(PollTimeout))
    ensures forall ready, ns: nat :: !Enabled(c, Later(s, ns), Above(PollReady(ready)))
  {
    forall ready, ns: nat ensures !Enabled(c, Later(s, ns), Above(PollReady(ready))) {
      hide State.Readable;
      assert OneOrBoth(ready) ==> ready[0] in ready;
    }
  }

  lemma NothingToRead(c: Config, s: State, st: Stream)
    requires s.PipeOf(st).queue == [] && CHILD in s.procs && PipeEnd(st, WriteEnd) in s.procs[CHILD].table.Values
    ensures forall ns: nat :: !Later(s, ns).Readable(st)
  {
  }

  /** Having failed to read, the C++ runner can come to a deadlock with a child that writes more than a pipe holds. */
  lemma FailedReadDeadlocks(c: Config) returns (s: State)
    requires GoodConfig(c) && c.style.Cpp?
    ensures Reachable(c, s) && Abandoned(c, s) && s.par.phase.Waiting? && Deadlock(c, s)
  {
    s := ReachFeeding(c);
    s := ReachProgram(c, s, 0);
    var fd := OutputFd(c);
    var table: Table;
    s, table := CloseAllBut(c, s, ProgramTable(c), {PipeEnd(Out, WriteEnd)});
    hide ProgramTable, Reachable;
    s := FillOutput(c, s, table, fd);
    NobodyHolds(c, s, In, ReadEnd);
    s := ReachCollecting(c, s);
    s := OneSource(c, s, Out, true);
    if c.split {
      NobodyHolds(c, s, Err, WriteEnd);
      assert s.errP.queue == [];
      s := OneSource(c, s, Err, false);
    }
    s := LoopLeft(c, s);
    BlockedIsDeadlock(c, s);
  }

  lemma BlockedIsDeadlock(c: Config, s: State)
    requires BlockedInWrite(c, s) && c.style.Cpp? && s.par.phase.Waiting? && !s.par.col.killed
    ensures Deadlock(c, s)
  {
    forall e: Event, ns: nat | Enabled(c, Later(s, ns), e) ensures e.Tick? || External(e) {
      match e
      case Below(pe) => BlockedChildStays(c, Later(s, ns), pe);
      case Above(pe) =>
      case Tick(_) =>
    }
  }
}
