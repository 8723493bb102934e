/** The guarantees of the runners, over every run of the machine. */
module Runs {
  import opened Wiring
  import opened Clocks
  import opened Protocol
  import opened Tables
  import opened Streams

  ghost predicate Inv(c: Config, s: State) {
    TablesOk(c, s) && BytesOk(c, s) && FedOk(s) && SourcesOk(c, s) && ClockOk(c, s)
  }

  lemma InvStart(c: Config)
    requires GoodConfig(c)
    ensures Inv(c, Start(c))
  {
    assert [] + c.stdin == c.stdin;
  }

  lemma InvNext(c: Config, s: State, e: Event)
    requires GoodConfig(c) && Inv(c, s) && Enabled(c, s, e)
    ensures Inv(c, After(c, s, e))
  {
    TablesOkNext(c, s, e);
    FedOkNext(c, s, e);
    var s' := After(c, s, e);
    match e
    case Below(pe) =>
      BytesOkBelow(c, s, pe);
      SourcesOkBelow(c, s, pe);
      BelowKeepsParent(c, s, pe);
      hide TablesOk, BytesOk, FedOk, SourcesOk;
    case Above(pe) =>
      BytesOkAbove(c, s, pe);
      SourcesOkAbove(c, s, pe);
      ClockOkAbove(c, s, pe);
      hide TablesOk, BytesOk, FedOk, SourcesOk, ClockOk;
    case Tick(_) =>
      TickKeepsHeld(s, s'.clock, PipeEnd(Out, WriteEnd));
      TickKeepsHeld(s, s'.clock, PipeEnd(Err, WriteEnd));
      hide TablesOk, FedOk, PipeOk, State.Held;
  }

  lemma {:induction false} InvFinal(c: Config, s: State, es: seq<Event>)
    requires GoodConfig(c) && Inv(c, s) && IsRun(c, s, es)
    ensures Inv(c, Final(c, s, es))
    decreases |es|
  {
    if es != [] {
      InvNext(c, s, es[0]);
      InvFinal(c, After(c, s, es[0]), es[1..]);
    }
  }

  lemma InvReachable(c: Config, s: State)
    requires GoodConfig(c) && Reachable(c, s)
    ensures Inv(c, s)
  {
    var es :| IsRun(c, Start(c), es) && Final(c, Start(c), es) == s;
    InvStart(c);
    InvFinal(c, Start(c), es);
  }

  /**
    At every step what was collected, followed by what is still in the pipe, is all that was ever
    written to it, each stream by itself. A run that ends of its own accord, with no failed read,
    has collected everything; one that timed out, a prefix.
   */
  lemma StreamsExact(c: Config, s: State)
    requires GoodConfig(c) && Reachable(c, s)
    ensures s.par.col.output + s.outP.queue == s.outP.written
    ensures s.par.col.errorOutput + s.errP.queue == s.errP.written
    ensures s.par.col.output <= s.outP.written && s.par.col.errorOutput <= s.errP.written
    ensures !c.split ==> s.errP.written == []
    ensures s.par.phase.Done? && !s.par.col.timedOut && !s.par.col.threw && !s.par.col.readFailed ==>
              s.par.col.output == s.outP.written && s.par.col.errorOutput == s.errP.written
  {
    InvReachable(c, s);
  }

  lemma ExhaustedIsSilent(c: Config, s: State, e: Event, st: Stream)
    requires TablesOk(c, s) && Enabled(c, s, e) && st != In && Exhausted(s, st) && !s.par.phase.Setup?
    ensures Exhausted(After(c, s, e), st) && After(c, s, e).PipeOf(st).written == s.PipeOf(st).written
    ensures !After(c, s, e).par.phase.Setup?
  {
    hide ParentOk, ProcsOk;
    match e
    case Below(pe) =>
      BelowKeepsParent(c, s, pe);
      OutputsBelow(c, s, pe, st);
      ExhaustedSilentBelow(c, s, pe, st);
    case Above(pe) =>
      hide ToMs, AsInt, ForkTable;
      OutputsAbove(c, s, pe, st);
    case Tick(_) => TickKeepsHeld(s, After(c, s, e).clock, PipeEnd(st, WriteEnd));
  }

  lemma ExhaustedSilentBelow(c: Config, s: State, e: ProcEvent, st: Stream)
    requires ProcsOk(c, s) && ProcEnabled(c, s, e) && st != In && Exhausted(s, st)
    ensures ProcAfter(c, s, e).PipeOf(st).written == s.PipeOf(st).written
  {
    hide ProcsOk, Rewired, Accepts;
    if e.ReadDone? {
      StreamsUsed(c, s, e.p);
    } else if e.WriteDone? {
      var other := StreamAt(s, e.p, s.procs[e.p].activity.fd);
      assert s.Held(PipeEnd(other, WriteEnd)) by {
        assert PipeEnd(other, WriteEnd) in s.procs[e.p].table.Values;
      }
    }
  }

  lemma {:induction false} ExhaustedForGood(c: Config, s: State, es: seq<Event>, st: Stream)
    requires GoodConfig(c) && Inv(c, s) && IsRun(c, s, es) && st != In && Exhausted(s, st) && !s.par.phase.Setup?
    ensures Final(c, s, es).PipeOf(st).written == s.PipeOf(st).written
    decreases |es|
  {
    if es != [] {
      InvNext(c, s, es[0]);
      ExhaustedIsSilent(c, s, es[0], st);
      ExhaustedForGood(c, After(c, s, es[0]), es[1..], st);
    }
  }

  /**
    The result of a complete run is final: whatever the child's descendants do after it, they never
    write another byte to the streams that were collected.
   */
  lemma CompleteForGood(c: Config, s: State, later: seq<Event>)
    requires GoodConfig(c) && Reachable(c, s) && IsRun(c, s, later)
    requires s.par.phase.Done? && !s.par.col.timedOut && !s.par.col.threw && !s.par.col.readFailed
    ensures s.par.col.output == Final(c, s, later).outP.written
    ensures s.par.col.errorOutput == Final(c, s, later).errP.written
  {
    InvReachable(c, s);
    StreamsExact(c, s);
    ExhaustedForGood(c, s, later, Out);
    if c.split {
      ExhaustedForGood(c, s, later, Err);
    } else {
      InvFinal(c, s, later);
    }
  }

  /** What was consumed, what is in the pipe and what is yet to be fed always make up the stdin data. */
  lemma StdinConserved(c: Config, s: State)
    requires GoodConfig(c) && Reachable(c, s)
    ensures s.inP.taken + s.inP.queue + s.par.tail == c.stdin
    ensures FeedingOver(s.par.phase) && s.Held(PipeEnd(In, ReadEnd)) && !s.par.writeFailed ==> s.par.tail == []
  {
    InvReachable(c, s);
  }

  /**
    Once the parent has closed its end and the child is past its rewiring, no process holds the
    write end of stdin: a reader that has emptied the pipe is told so, and has seen all the data.
   */
  lemma StdinEnds(c: Config, s: State, p: nat)
    requires GoodConfig(c) && Reachable(c, s) && Collecting(s.par.phase)
    requires CHILD in s.procs ==> !s.procs[CHILD].activity.Rewiring?
    ensures !s.Held(PipeEnd(In, WriteEnd))
    ensures Reads(s, p) && s.inP.queue == [] ==> Enabled(c, s, Below(ReadDone(p, 0)))
    ensures Reads(s, p) && s.inP.queue == [] && !s.par.writeFailed ==> s.inP.taken == c.stdin
  {
    InvReachable(c, s);
    StdinConserved(c, s);
    NoStdinWriter(c, s);
    if Reads(s, p) {
      StreamsUsed(c, s, p);
      assert PipeEnd(In, ReadEnd) in s.procs[p].table.Values;
      assert s.Held(PipeEnd(In, ReadEnd));
    }
    assert s.inP.queue == [] ==> s.inP.taken + s.inP.queue + [] == s.inP.taken;
  }

  lemma NoStdinWriter(c: Config, s: State)
    requires TablesOk(c, s) && Collecting(s.par.phase)
    requires CHILD in s.procs ==> !s.procs[CHILD].activity.Rewiring?
    ensures !s.Held(PipeEnd(In, WriteEnd))
  {
    hide Applied, Ops, ForkTable;
    forall p: nat | p in s.procs ensures PipeEnd(In, WriteEnd) !in s.procs[p].table.Values {
      assert ProcOk(c, p, s.procs[p]);
    }
  }

  /** End of file is never told early: whoever reads it, the data has been consumed to the last byte. */
  lemma EofOnlyAfterAllData(c: Config, s: State, p: nat)
    requires GoodConfig(c) && Reachable(c, s) && Enabled(c, s, Below(ReadDone(p, 0))) && !s.par.writeFailed
    ensures s.inP.taken == c.stdin
  {
    InvReachable(c, s);
    StdinConserved(c, s);
    StreamsUsed(c, s, p);
    assert PipeEnd(In, ReadEnd) in s.procs[p].table.Values;
    assert s.Held(PipeEnd(In, ReadEnd));
    assert s.inP.taken + s.inP.queue + [] == s.inP.taken;
  }

  /**
    The child is killed iff the loop gave up for lack of time, which it does less than 1 ms early;
    from C++ while timeouts fit an int. The C runner's elapsed_ms has then reached the timeout.
   */
  lemma KilledOnlyAtDeadline(c: Config, s: State)
    requires GoodConfig(c) && Reachable(c, s)
    ensures s.par.col.killed <==> s.par.col.timedOut && !s.par.phase.Expired?
    ensures s.par.col.killed && (c.style.PlainC? || c.timeoutMs <= INT_MAX) ==> s.clock > s.par.col.deadline - NS_PER_MS
    ensures s.par.col.killed && c.style.PlainC? ==> s.par.col.Elapsed(c) >= c.timeoutMs
  {
    InvReachable(c, s);
    if s.par.col.killed && (c.style.PlainC? || c.timeoutMs <= INT_MAX) {
      KilledLate(c, s);
    }
  }

  /**
    What the parent can be waiting for without limit: poll gives up in the end, unless its timeout
    is more than an int holds; and waitpid is for a child that was killed, or out of whose outputs
    nothing can come any more, unless a read failed.
   */
  lemma WaitsFor(c: Config, s: State)
    requires Inv(c, s)
    ensures s.par.phase.Polling? && s.par.phase.until.None? ==> c.style.Cpp? && c.timeoutMs > INT_MAX
    ensures s.par.phase.Waiting? && !s.par.col.readFailed ==> Spent(c, s)
  {
    hide TablesOk, BytesOk, FedOk, Exhausted;
  }

  /** The child was killed, or nothing can come out of its outputs any more. */
  ghost predicate Spent(c: Config, s: State) {
    s.par.col.killed || (Exhausted(s, Out) && (c.split ==> Exhausted(s, Err)))
  }

  /** When a runner is done, or gave up for want of a pipe or a process, the parent's table is the one it began with. */
  lemma DescriptorsConserved(c: Config, s: State)
    requires GoodConfig(c) && Reachable(c, s) && Over(s.par.phase)
    ensures s.par.table == c.initial
  {
    InvReachable(c, s);
  }

  /** A program below the parent never has an end of a runner pipe open but the three it is to have. */
  lemma ProgramsAreClean(c: Config, s: State, p: nat)
    requires GoodConfig(c) && Reachable(c, s) && p in s.procs && !s.procs[p].activity.Rewiring?
    ensures forall fd: nat :: fd in s.procs[p].table ==> CleanHandle(c, s.procs[p].table[fd])
  {
    InvReachable(c, s);
    assert ProcOk(c, p, s.procs[p]);
  }
}
