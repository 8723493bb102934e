/**
  Short of a failed read, a runner can come to a deadlock exactly when the stdin data does not fit a
  pipe and the child has both a stdin and an output, whatever the timeout.
 */
module Hang {
  import opened Wiring
  import opened Protocol
  import opened Tables
  import opened Progress

  /** The parent about to feed, with an untouched child. */
  ghost predicate AboutToFeed(c: Config, s: State) {
    && s.par.phase == Feeding && s.par.tail == c.stdin && !s.par.col.readFailed && !s.par.col.killed
    && PipeEnd(Out, ReadEnd) in s.par.table.Values
    && NotHeldByParent(s, In, ReadEnd) && NotHeldByParent(s, Out, WriteEnd) && NotHeldByParent(s, Err, WriteEnd)
    && s.inP == EMPTY && s.outP == EMPTY && s.errP == EMPTY
    && !s.par.col.timedOut && !s.par.col.threw
    && s.procs.Keys == {CHILD}
  }

  lemma ReachFork(c: Config) returns (s: State)
    requires GoodConfig(c)
    ensures Reachable(c, s)
    ensures s == Start(c).(par := Start(c).par.(phase := Launched, table := ForkedTable(c)),
                           procs := map[CHILD := Process(ForkedTable(c), Rewiring(0))])
  {
    s := Start(c);
    ReachableStart(c);
    ReachableNext(c, s, Above(PipeMade(In)));
    s := After(c, s, Above(PipeMade(In)));
    ReachableNext(c, s, Above(PipeMade(Out)));
    s := After(c, s, Above(PipeMade(Out)));
    if c.split {
      ReachableNext(c, s, Above(PipeMade(Err)));
      s := After(c, s, Above(PipeMade(Err)));
    }
    assert s.par.table == ForkedTable(c);
    ReachableNext(c, s, Above(Forked));
    s := After(c, s, Above(Forked));
  }

  lemma CloseOne(c: Config, s: State, end: nat) returns (s': State)
    requires Reachable(c, s) && s.par.phase.Launched? && end in s.par.table && MayClose(c, s, s.par.table[end])
    ensures Reachable(c, s') && s' == s.(par := s.par.(table := s.par.table - {end}))
  {
    ReachableNext(c, s, Above(ParentClose(end)));
    s' := After(c, s, Above(ParentClose(end)));
  }

  lemma FeedNow(c: Config, s: State) returns (s': State)
    requires Reachable(c, s) && s.par.phase.Launched?
    requires NotHeldByParent(s, In, ReadEnd) && NotHeldByParent(s, Out, WriteEnd) && NotHeldByParent(s, Err, WriteEnd)
    ensures Reachable(c, s') && s' == s.(par := s.par.(phase := Feeding))
  {
    ReachableNext(c, s, Above(Feed));
    s' := After(c, s, Above(Feed));
  }

  lemma ReachFeeding(c: Config) returns (s: State)
    requires GoodConfig(c)
    ensures Reachable(c, s) && AboutToFeed(c, s) && s.procs == map[CHILD := Stage(c, 0)]
  {
    s := ReachFork(c);
    ClosingOrder(c);
    var e := EndsOf(c);
    assert Applied(ForkedTable(c), Ops(c), 0, c.limit) == ForkedTable(c);
    hide GoodConfig, ForkTable, ForkedTable, EndsOf, Reachable, Applied, Ops;
    s := CloseOne(c, s, e.inR);
    s := CloseOne(c, s, e.outW);
    if c.split {
      s := CloseOne(c, s, e.errW);
    }
    s := FeedNow(c, s);
  }

  /** The child after `n` rewiring steps. */
  function Stage(c: Config, n: nat): Process
    requires n <= |Ops(c)|
  {
    Process(Applied(ForkedTable(c), Ops(c), n, c.limit), if n < |Ops(c)| then Rewiring(n) else Running)
  }

  lemma NextStage(c: Config, s: State, n: nat) returns (s': State)
    requires Reachable(c, s) && n < |Ops(c)| && s.procs == map[CHILD := Stage(c, n)]
    ensures Reachable(c, s') && s' == s.(procs := map[CHILD := Stage(c, n + 1)])
  {
    hide ForkTable, Ops, Reachable;
    ReachableNext(c, s, Below(Rewire));
    s' := After(c, s, Below(Rewire));
    assert Rewired(c, Stage(c, n)) == Stage(c, n + 1);
  }

  lemma {:induction false} ReachProgram(c: Config, s: State, n: nat) returns (s': State)
    requires GoodConfig(c) && Reachable(c, s) && n <= |Ops(c)| && s.procs == map[CHILD := Stage(c, n)]
    ensures Reachable(c, s')
    ensures s' == s.(procs := map[CHILD := Process(ProgramTable(c), Running)])
    decreases |Ops(c)| - n
  {
    WholeRewiring(c);
    hide Reachable, Ops, ProgramTable, ForkedTable, Applied;
    s' := s;
    if n < |Ops(c)| {
      s' := NextStage(c, s, n);
      s' := ReachProgram(c, s', n + 1);
    }
  }

  function Zeros(n: nat): (bs: Bytes)
    ensures |bs| == n
  {
    seq(n, i => 0)
  }

  /** The descriptor through which the child writes its output. */
  function OutputFd(c: Config): (fd: nat)
    requires ChildWrites(c)
    ensures fd in ProgramTable(c) && ProgramTable(c)[fd] == PipeEnd(Out, WriteEnd)
  {
    if c.style.Cpp? || 1 in c.initial then 1 else 2
  }

  /** The child asks to write one byte more than its output pipe takes. */
  lemma FillOutput(c: Config, s: State, table: Table, fd: nat) returns (s': State)
    requires Reachable(c, s) && c.capacity >= PIPE_BUF
    requires s.procs == map[CHILD := Process(table, Running)] && s.outP == EMPTY
    requires fd in table && table[fd] == PipeEnd(Out, WriteEnd) && PipeEnd(Out, ReadEnd) in s.par.table.Values
    ensures Reachable(c, s')
    ensures s' == s.(procs := map[CHILD := Process(table, Writing(fd, [0]))], outP := s'.outP)
    ensures |s'.outP.queue| == c.capacity
  {
    var data := Zeros(c.capacity + 1);
    var e := Below(WriteCall(CHILD, fd, data));
    ReachableNext(c, s, e);
    s' := After(c, s, e);
    e := Below(WriteDone(CHILD, c.capacity));
    assert s'.Held(PipeEnd(Out, ReadEnd));
    assert StreamAt(s', CHILD, fd) == Out;
    assert data[c.capacity..] == [0];
    ReachableNext(c, s', e);
    s' := After(c, s', e);
  }

  /** The child fills its output pipe before it reads anything; the parent fills the stdin pipe. */
  lemma ReachStandstill(c: Config, s: State) returns (s': State)
    requires GoodConfig(c) && Reachable(c, s) && AboutToFeed(c, s) && |c.stdin| > c.capacity
    requires ChildReads(c) && ChildWrites(c) && s.procs == map[CHILD := Process(ProgramTable(c), Running)]
    ensures Reachable(c, s') && Standstill(c, s')
  {
    assert ProgramTable(c)[0] == PipeEnd(In, ReadEnd);
    var fd := OutputFd(c);
    s' := FillOutput(c, s, ProgramTable(c), fd);
    hide ProgramTable;
    assert PipeEnd(In, ReadEnd) in s'.procs[CHILD].table.Values;
    assert s'.Held(PipeEnd(In, ReadEnd));
    var e := Above(FeedWrite(c.capacity));
    ReachableNext(c, s', e);
    s' := After(c, s', e);
  }

  /** Both pipes are full, and both sides are writing. */
  ghost predicate Standstill(c: Config, s: State) {
    && s.par.phase == Feeding && s.par.tail != [] && |s.inP.queue| == c.capacity
    && !s.par.col.readFailed && !s.par.col.killed
    && BlockedInWrite(c, s)
    && PipeEnd(In, ReadEnd) in s.procs[CHILD].table.Values
  }

  /** The child is alone, and writes to a pipe that is full and whose read end the parent keeps. */
  ghost predicate BlockedInWrite(c: Config, s: State) {
    && s.procs.Keys == {CHILD}
    && Writes(s, CHILD) && StreamAt(s, CHILD, s.procs[CHILD].activity.fd) == Out
    && s.procs[CHILD].activity.data != []
    && |s.outP.queue| == c.capacity && PipeEnd(Out, ReadEnd) in s.par.table.Values
  }

  /** It can do nothing about it. */
  lemma BlockedChildStays(c: Config, s: State, e: ProcEvent)
    requires BlockedInWrite(c, s) && !s.par.col.killed && ProcEnabled(c, s, e)
    ensures e.Signal?
  {
    assert s.Held(PipeEnd(Out, ReadEnd));
    hide State.Held;
  }

  lemma StandstillIsDeadlock(c: Config, s: State)
    requires Standstill(c, s)
    ensures Deadlock(c, s)
  {
    forall e: Event, ns: nat | Enabled(c, Later(s, ns), e) ensures e.Tick? || External(e) {
      var s1 := Later(s, ns);
      assert s1.Held(PipeEnd(In, ReadEnd));
      hide State.Held;
      match e
      case Below(pe) => BlockedChildStays(c, s1, pe);
      case Above(pe) =>
      case Tick(_) =>
    }
  }

  /**
    Short of a read that failed, either runner can come to a deadlock, before its timeout is even
    set, exactly when the stdin data exceeds what a pipe holds and the child has a stdin to leave
    unread and an output to fill, as the C++ child always has.
   */
  lemma DeadlocksExactlyWhenStdinExceedsAPipe(c: Config)
    requires GoodConfig(c)
    ensures (exists s :: Reachable(c, s) && !Abandoned(c, s) && Deadlock(c, s))
       <==> |c.stdin| > c.capacity && ChildReads(c) && ChildWrites(c)
  {
    if |c.stdin| > c.capacity && ChildReads(c) && ChildWrites(c) {
      var s := ReachFeeding(c);
      s := ReachProgram(c, s, 0);
      s := ReachStandstill(c, s);
      StandstillIsDeadlock(c, s);
    }
    forall s | Reachable(c, s) && !Abandoned(c, s) && Deadlock(c, s)
      ensures |c.stdin| > c.capacity && ChildReads(c) && ChildWrites(c)
    {
      DeadlockOnlyWhileFeeding(c, s);
    }
  }
}
