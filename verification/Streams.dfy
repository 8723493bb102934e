/** What holds of the bytes, the sources and the clock in every reachable state. */
module Streams {
  import opened Descriptors
  import opened Wiring
  import opened Clocks
  import opened Protocol
  import opened Tables

  ghost predicate PipeOk(c: Config, p: Pipe) {
    p.written == p.taken + p.queue && |p.queue| <= c.capacity
  }

  /** No byte is lost, invented, reordered or put in the other stream. */
  ghost predicate BytesOk(c: Config, s: State) {
    && PipeOk(c, s.inP) && PipeOk(c, s.outP) && PipeOk(c, s.errP)
    && s.inP.written + s.par.tail == c.stdin
    && s.par.col.output == s.outP.taken && s.par.col.errorOutput == s.errP.taken
    && (!c.split ==> s.errP == EMPTY)
    && (!Collecting(s.par.phase) ==> s.outP.taken == [] && s.errP.taken == [])
  }

  /** The parent stopped feeding because all was fed, because writing failed, or because nobody reads. */
  ghost predicate FedOk(s: State) {
    FeedingOver(s.par.phase) ==> s.par.tail == [] || s.par.writeFailed || !s.Held(PipeEnd(In, ReadEnd))
  }

  /** No more bytes will ever come out of the pipe. */
  ghost predicate Exhausted(s: State, st: Stream) {
    s.PipeOf(st).queue == [] && !s.Held(PipeEnd(st, WriteEnd))
  }

  /** A source is closed only at its end, or after a failed read; one about to be drained has something to tell. */
  ghost predicate SourcesOk(c: Config, s: State) {
    var col := s.par.col;
    && (Collecting(s.par.phase) ==> col.outOpen || col.readFailed || Exhausted(s, Out))
    && (Collecting(s.par.phase) && c.split ==> col.errOpen || col.readFailed || Exhausted(s, Err))
    && (col.errOpen ==> c.split)
    && (s.par.phase.Draining? ==>
          && OneOrBoth(s.par.phase.ready)
          && forall st :: st in s.par.phase.ready ==> col.IsOpen(st) && s.Readable(st))
    && (Collected(s.par.phase) && !col.timedOut && !col.threw ==> !col.outOpen && !col.errOpen)
    && (col.threw ==> s.par.phase.Leaving? || s.par.phase.Done?)
    && (s.par.phase.Expired? || s.par.phase.Waiting? || c.style.PlainC? ==> !col.threw)
    && (s.par.phase.Polling? ==> col.outOpen || col.errOpen)
    && (col.readFailed ==> Collecting(s.par.phase))
  }

  /** Every kill comes at the deadline, but for a millisecond; a C++ timeout must fit an int for that. */
  ghost predicate ClockOk(c: Config, s: State) {
    var col := s.par.col;
    && (col.killed <==> col.timedOut && !s.par.phase.Expired?)
    && (s.par.phase.Expired? ==> col.timedOut)
    && (col.timedOut ==> Collected(s.par.phase))
    && (Collecting(s.par.phase) ==> s.clock >= Begun(c, s) && (c.style.PlainC? ==> Begun(c, s) <= col.last <= s.clock))
    && (c.style.PlainC? && col.timedOut ==> col.Elapsed(c) >= c.timeoutMs)
    && (c.style.Cpp? && c.timeoutMs <= INT_MAX ==>
          && (col.timedOut ==> s.clock > col.deadline - NS_PER_MS)
          && (s.par.phase.Polling? ==>
                s.par.phase.until.Some? && col.deadline - NS_PER_MS < s.par.phase.until.value <= col.deadline))
    && (c.style.PlainC? && s.par.phase.Polling? ==> s.par.phase.until.Some?)
  }

  /** When collecting began. */
  function Begun(c: Config, s: State): int {
    s.par.col.deadline - c.timeoutMs * NS_PER_MS
  }

  /** Processes read only stdin and write only stdout and stderr. */
  lemma StreamsUsed(c: Config, s: State, p: nat)
    requires ProcsOk(c, s)
    ensures Reads(s, p) ==> StreamAt(s, p, s.procs[p].activity.fd) == In
    ensures Writes(s, p) ==> var st := StreamAt(s, p, s.procs[p].activity.fd); st == Out || (st == Err && c.split)
    ensures forall fd :: IsFree(s, p) && Refers(s, p, fd, WriteEnd) ==>
              var st := StreamAt(s, p, fd); st == Out || (st == Err && c.split)
  {
    hide Applied, Ops, ForkTable;
    if p in s.procs {
      assert ProcOk(c, p, s.procs[p]);
    }
  }

  lemma TakeOk(c: Config, p: Pipe, k: nat)
    requires PipeOk(c, p) && k <= |p.queue|
    ensures PipeOk(c, p.Take(k))
  {
    assert p.queue == p.queue[..k] + p.queue[k..];
  }

  lemma PutOk(c: Config, p: Pipe, bs: Bytes)
    requires PipeOk(c, p) && |p.queue| + |bs| <= c.capacity
    ensures PipeOk(c, p.Put(bs))
  {
  }

  lemma BytesOkBelow(c: Config, s: State, e: ProcEvent)
    requires GoodConfig(c) && ProcsOk(c, s) && BytesOk(c, s) && ProcEnabled(c, s, e)
    ensures BytesOk(c, ProcAfter(c, s, e))
  {
    hide Rewired, ProcsOk, State.Held, PipeOk;
    BelowKeepsParent(c, s, e);
    if e.ReadDone? {
      StreamsUsed(c, s, e.p);
      TakeOk(c, s.inP, e.k);
    } else if e.WriteDone? {
      StreamsUsed(c, s, e.p);
      var st := StreamAt(s, e.p, s.procs[e.p].activity.fd);
      PutOk(c, s.PipeOf(st), s.procs[e.p].activity.data[..e.k]);
    } else if e.WriteCall? {
      StreamsUsed(c, s, e.p);
      assert forall p: Pipe, n: nat :: PipeOk(c, p) ==> PipeOk(c, p.(asked := n)) by { AskedIsFree(c); }
    }
  }

  lemma AskedIsFree(c: Config)
    ensures forall p: Pipe, n: nat :: PipeOk(c, p) ==> PipeOk(c, p.(asked := n))
  {
  }

  predicate SameBytes(s: State, s': State) {
    && s'.inP == s.inP && s'.outP == s.outP && s'.errP == s.errP && s'.par.tail == s.par.tail
    && s'.par.col.output == s.par.col.output && s'.par.col.errorOutput == s.par.col.errorOutput
  }

  /** Only feeding and draining move bytes. */
  lemma AboveKeepsBytes(c: Config, s: State, e: ParentEvent)
    requires ParentEnabled(c, s, e) && !e.FeedWrite? && !e.Drain?
    ensures SameBytes(s, ParentAfter(c, s, e))
    ensures Collecting(s.par.phase) ==> Collecting(ParentAfter(c, s, e).par.phase)
  {
    if !Opens(e) {
      LoopSteps(c, s, e);
      hide LoopAfter;
    }
    hide State.Held, ForkTable, WithPipe, Accepts, LoopEnabled;
  }

  lemma BytesOkDrain(c: Config, s: State, k: nat)
    requires SourcesOk(c, s) && BytesOk(c, s) && ParentEnabled(c, s, Drain(k))
    ensures BytesOk(c, ParentAfter(c, s, Drain(k)))
  {
    hide State.Held, PipeOk;
    var st := s.par.phase.ready[0];
    TakeOk(c, s.PipeOf(st), k);
    assert st in s.par.phase.ready;
    assert st == Out || (st == Err && c.split);
    assert k == 0 ==> s.PipeOf(st).queue[..k] == [] && s.PipeOf(st).taken + [] == s.PipeOf(st).taken;
  }

  lemma BytesOkFeed(c: Config, s: State, k: nat)
    requires BytesOk(c, s) && ParentEnabled(c, s, FeedWrite(k))
    ensures BytesOk(c, ParentAfter(c, s, FeedWrite(k)))
  {
    hide State.Held, PipeOk;
    PutOk(c, s.inP, s.par.tail[..k]);
    assert s.par.tail == s.par.tail[..k] + s.par.tail[k..];
  }

  lemma BytesOkAbove(c: Config, s: State, e: ParentEvent)
    requires SourcesOk(c, s) && BytesOk(c, s) && ParentEnabled(c, s, e)
    ensures BytesOk(c, ParentAfter(c, s, e))
  {
    hide ParentEnabled, ParentAfter, PipeOk;
    if e.FeedWrite? {
      BytesOkFeed(c, s, e.k);
    } else if e.Drain? {
      BytesOkDrain(c, s, e.k);
    } else {
      AboveKeepsBytes(c, s, e);
    }
  }

  /** An end nobody holds stays that way, so what is exhausted stays exhausted. */
  lemma FedOkNext(c: Config, s: State, e: Event)
    requires FedOk(s) && Enabled(c, s, e)
    ensures FedOk(After(c, s, e))
  {
    hide State.Held, Rewired, ForkTable, ToMs, AsInt, Accepts;
    var s' := After(c, s, e);
    match e
    case Below(pe) =>
      BelowKeepsParent(c, s, pe);
      if s'.Held(PipeEnd(In, ReadEnd)) {
        HeldShrinksBelow(c, s, pe, PipeEnd(In, ReadEnd));
      }
    case Above(pe) =>
      if s'.Held(PipeEnd(In, ReadEnd)) && !pe.PipeMade? {
        HeldShrinksAbove(c, s, pe, PipeEnd(In, ReadEnd));
      }
    case Tick(_) => TickKeepsHeld(s, s'.clock, PipeEnd(In, ReadEnd));
  }

  /** Below the parent, nothing is read from Out or Err, and only a holder of a write end can write. */
  lemma OutputsBelow(c: Config, s: State, e: ProcEvent, st: Stream)
    requires ProcsOk(c, s) && ProcEnabled(c, s, e) && st != In
    ensures Exhausted(s, st) ==> Exhausted(ProcAfter(c, s, e), st)
    ensures s.Readable(st) ==> ProcAfter(c, s, e).Readable(st)
  {
    hide ProcsOk, Rewired, Accepts;
    var s' := ProcAfter(c, s, e);
    var h := PipeEnd(st, WriteEnd);
    if s'.Held(h) {
      HeldShrinksBelow(c, s, e, h);
    }
    if e.ReadDone? {
      StreamsUsed(c, s, e.p);
      assert s'.PipeOf(st) == s.PipeOf(st);
    } else if e.WriteDone? && StreamAt(s, e.p, s.procs[e.p].activity.fd) == st {
      assert h in s.procs[e.p].table.Values;
      assert s.Held(h);
    } else {
      assert s'.PipeOf(st).queue == s.PipeOf(st).queue;
    }
  }

  lemma SourcesOkBelow(c: Config, s: State, e: ProcEvent)
    requires ProcsOk(c, s) && SourcesOk(c, s) && ProcEnabled(c, s, e)
    ensures SourcesOk(c, ProcAfter(c, s, e))
  {
    BelowKeepsParent(c, s, e);
    OutputsBelow(c, s, e, Out);
    OutputsBelow(c, s, e, Err);
    hide ProcsOk, ProcEnabled, ProcAfter, Exhausted, State.Readable;
  }

  /** For the parent: other pipes, and a pipe it only looks at, stay as they were. */
  lemma OutputsAbove(c: Config, s: State, e: ParentEvent, st: Stream)
    requires ParentEnabled(c, s, e) && st != In && !e.PipeMade? && !e.Forked?
    ensures Exhausted(s, st) ==> Exhausted(ParentAfter(c, s, e), st)
    ensures s.Readable(st) && !(e.Drain? && s.par.phase.ready[0] == st) ==> ParentAfter(c, s, e).Readable(st)
  {
    var s' := ParentAfter(c, s, e);
    if s'.Held(PipeEnd(st, WriteEnd)) {
      HeldShrinksAbove(c, s, e, PipeEnd(st, WriteEnd));
    }
    hide ForkTable, LoopEnabled, LoopAfter, State.Held, Accepts;
  }

  /** Before collect there are no sources to speak of, and at the end only the phase changes. */
  lemma SourcesOkEarly(c: Config, s: State, e: ParentEvent)
    requires SourcesOk(c, s) && ParentEnabled(c, s, e) && Opens(e)
    ensures SourcesOk(c, ParentAfter(c, s, e))
  {
    if Collecting(s.par.phase) {
      OutputsAbove(c, s, e, Out);
      OutputsAbove(c, s, e, Err);
    }
    hide ForkTable, WithPipe, State.Held, State.Readable, Exhausted, Accepts, LoopEnabled, LoopAfter;
  }

  lemma SourcesOkDrain(c: Config, s: State, e: ParentEvent)
    requires SourcesOk(c, s) && ParentEnabled(c, s, e) && (e.Drain? || e.DrainError?)
    ensures SourcesOk(c, ParentAfter(c, s, e))
  {
    OutputsAbove(c, s, e, Out);
    OutputsAbove(c, s, e, Err);
    var st := s.par.phase.ready[0];
    assert st in s.par.phase.ready;
    var s' := ParentAfter(c, s, e);
    assert e.Drain? && e.k == 0 ==> Exhausted(s', st) by {
      if s'.Held(PipeEnd(st, WriteEnd)) {
        HeldShrinksAbove(c, s, e, PipeEnd(st, WriteEnd));
      }
    }
    hide State.Held, State.Readable, Exhausted;
    if s'.par.phase.Draining? {
      assert s.par.phase.ready == [Out, Err] && s'.par.phase.ready == [Err];
      assert Err in s.par.phase.ready;
    }
  }

  /** A step that touches neither table nor pipes leaves what can be read as it was. */
  lemma ParentOnly(s: State, par': Parent, st: Stream)
    requires par'.table == s.par.table
    ensures s.(par := par').Readable(st) == s.Readable(st)
    ensures Exhausted(s.(par := par'), st) == Exhausted(s, st)
  {
    assert s.(par := par').Held(PipeEnd(st, WriteEnd)) == s.Held(PipeEnd(st, WriteEnd));
  }

  lemma SourcesOkLoop(c: Config, s: State, e: ParentEvent)
    requires GoodConfig(c) && SourcesOk(c, s) && !Opens(e) && !e.Drain? && !e.DrainError? && LoopEnabled(c, s, e)
    ensures SourcesOk(c, s.(par := LoopAfter(c, s.par, s.clock, e)))
  {
    LoopSteps(c, s, e);
    var par' := LoopAfter(c, s.par, s.clock, e);
    ParentOnly(s, par', Out);
    ParentOnly(s, par', Err);
    hide State.Held, State.Readable, Exhausted, Collector.Elapsed, ToMs, AsInt, NoEnds;
  }

  lemma SourcesOkAbove(c: Config, s: State, e: ParentEvent)
    requires GoodConfig(c) && SourcesOk(c, s) && ParentEnabled(c, s, e)
    ensures SourcesOk(c, ParentAfter(c, s, e))
  {
    hide SourcesOk, OpenEnabled, LoopEnabled, LoopAfter;
    if Opens(e) {
      SourcesOkEarly(c, s, e);
    } else if e.Drain? || e.DrainError? {
      SourcesOkDrain(c, s, e);
    } else {
      SourcesOkLoop(c, s, e);
    }
  }

  /** What is left of the time, in whole milliseconds, is at most the timeout, so it fits an int. */
  lemma RemainingFits(c: Config, deadline: int, now: int)
    requires now >= deadline - c.timeoutMs * NS_PER_MS
    ensures ToMs(deadline - now) <= c.timeoutMs
    ensures 0 < ToMs(deadline - now) ==> deadline - NS_PER_MS < now + ToMs(deadline - now) * NS_PER_MS <= deadline
    ensures ToMs(deadline - now) <= 0 ==> now > deadline - NS_PER_MS
    ensures 0 < ToMs(deadline - now) <= INT_MAX ==> AsInt(ToMs(deadline - now)) == ToMs(deadline - now)
  {
    var ns := deadline - now;
    assert ns == (ns / NS_PER_MS) * NS_PER_MS + ns % NS_PER_MS;
  }

  predicate Timed(e: ParentEvent) {
    e.Collect? || e.CheckTime? || e.Kill? || Polled(e)
  }

  predicate SameTiming(col: Collector, col': Collector) {
    col'.killed == col.killed && col'.timedOut == col.timedOut && col'.deadline == col.deadline && col'.last == col.last
  }

  lemma OpeningKeepsTiming(c: Config, s: State, e: ParentEvent)
    requires Opens(e) && OpenEnabled(c, s, e)
    ensures SameTiming(s.par.col, OpenAfter(c, s, e).par.col)
    ensures var ph, ph' := s.par.phase, OpenAfter(c, s, e).par.phase;
      && (ph' == ph || (!Collecting(ph) && !Collecting(ph')))
    ensures OpenAfter(c, s, e).clock == s.clock
  {
    hide ForkTable, State.Held, Accepts, WithPipe;
  }

  lemma LoopKeepsTiming(c: Config, s: State, e: ParentEvent)
    requires !Opens(e) && LoopEnabled(c, s, e) && !Timed(e) && !e.Drain?
    ensures SameTiming(s.par.col, LoopAfter(c, s.par, s.clock, e).col)
  {
    ClosedKeepsTiming(s.par.col);
    hide NextDrain, Collector.Closed, State.Readable, State.Held, NoEnds, Yields;
  }

  lemma ClosedKeepsTiming(col: Collector)
    ensures forall st :: SameTiming(col, col.Closed(st))
  {
  }

  lemma DrainKeepsTiming(s: State, k: nat)
    requires s.par.phase.Draining? && s.par.phase.ready != []
    requires k <= |s.PipeOf(s.par.phase.ready[0]).queue|
    ensures SameTiming(s.par.col, DrainAfter(s, k).par.col)
    ensures var ph' := DrainAfter(s, k).par.phase; ph'.Check? || ph'.Draining?
    ensures DrainAfter(s, k).clock == s.clock
  {
  }

  lemma ClockOkCheck(c: Config, s: State)
    requires GoodConfig(c) && ClockOk(c, s) && s.par.phase.Check?
    ensures ClockOk(c, ParentAfter(c, s, CheckTime))
  {
    if c.style.Cpp? {
      TimeCheckedCpp(c, s);
    } else {
      TimeCheckedC(c, s);
    }
    assert ParentAfter(c, s, CheckTime) == s.(par := s.par.TimeChecked(c, s.clock));
    hide Parent.TimeChecked;
  }

  lemma TimeCheckedCpp(c: Config, s: State)
    requires c.style.Cpp? && ClockOk(c, s) && s.par.phase.Check?
    ensures ClockOk(c, s.(par := s.par.TimeChecked(c, s.clock)))
  {
    RemainingFits(c, s.par.col.deadline, s.clock);
    hide ToMs, AsInt, ElapsedMs, At;
  }

  lemma TimeCheckedC(c: Config, s: State)
    requires c.style.PlainC? && ClockOk(c, s) && s.par.phase.Check?
    ensures ClockOk(c, s.(par := s.par.TimeChecked(c, s.clock)))
  {
    hide ToMs, AsInt, ElapsedMs, At;
  }

  lemma ClockOkPolled(c: Config, s: State, e: ParentEvent)
    requires ClockOk(c, s) && Polled(e) && LoopEnabled(c, s, e)
    ensures ClockOk(c, s.(par := LoopAfter(c, s.par, s.clock, e)))
  {
    if e.PollTimeout? {
      ExpiredOk(c, s);
    }
    hide Parent.PollExpired, LoopEnabled, Collector.Elapsed;
  }

  lemma ExpiredOk(c: Config, s: State)
    requires ClockOk(c, s) && s.par.phase.Polling? && s.par.phase.until.Some? && s.clock >= s.par.phase.until.value
    ensures ClockOk(c, s.(par := s.par.PollExpired(c, s.clock)))
  {
    hide ElapsedMs, At;
  }

  /** What is left alone by a step that does not look at the clock. */
  lemma ClockOkSame(c: Config, s: State, s': State)
    requires ClockOk(c, s) && SameTiming(s.par.col, s'.par.col) && s'.clock == s.clock
    requires var ph, ph' := s.par.phase, s'.par.phase;
             || ph' == ph
             || (!Collecting(ph) && !Collecting(ph'))
             || (&& !ph'.Polling? && !ph'.Expired? && !ph.Expired? && Collecting(ph) && Collecting(ph')
                 && (Collected(ph) ==> Collected(ph')))
    ensures ClockOk(c, s')
  {
    hide ElapsedMs, At;
  }

  lemma ClockOkAbove(c: Config, s: State, e: ParentEvent)
    requires GoodConfig(c) && ClockOk(c, s) && ParentEnabled(c, s, e)
    ensures ClockOk(c, ParentAfter(c, s, e))
  {
    if Opens(e) {
      OpeningKeepsTiming(c, s, e);
      ClockOkSame(c, s, ParentAfter(c, s, e));
    } else if e.Drain? {
      DrainKeepsTiming(s, e.k);
      ClockOkSame(c, s, ParentAfter(c, s, e));
    } else if e.CheckTime? {
      ClockOkCheck(c, s);
    } else if Polled(e) {
      ClockOkPolled(c, s, e);
    } else {
      ClockOkLoop(c, s, e);
    }
  }

  lemma ClockOkLoop(c: Config, s: State, e: ParentEvent)
    requires GoodConfig(c) && ClockOk(c, s) && !Opens(e) && LoopEnabled(c, s, e)
    requires !e.Drain? && !e.CheckTime? && !Polled(e)
    ensures ClockOk(c, ParentAfter(c, s, e))
  {
    LoopSteps(c, s, e);
    if !Timed(e) {
      LoopKeepsTiming(c, s, e);
      hide LoopAfter;
    }
    hide ElapsedMs, State.Held, State.Readable, NoEnds;
  }

  /** The C runner polls for what its last clock reading leaves, or for 1000 seconds if that is less. */
  lemma PollLength(c: Config, par: Parent, now: int)
    requires c.style.PlainC? && (par.col.outOpen || par.col.errOpen)
    ensures var left := c.timeoutMs - par.col.Elapsed(c);
            var ms := if left < 1_000_000 then left else 1_000_000;
            left > 0 ==> par.TimeChecked(c, now).phase == Polling(Some(now + ms * 1_000_000))
  {
    hide ElapsedMs, At;
  }

  /** A clock read at the deadline or later says that the time is up. */
  lemma DeadlineNoticed(c: Config, col: Collector)
    requires col.last >= col.deadline && c.timeoutMs >= 1
    ensures col.Elapsed(c) >= c.timeoutMs
  {
    ElapsedIsClose(col.deadline - c.timeoutMs * NS_PER_MS, col.last);
  }

  /** A C kill less than a millisecond early, too. */
  lemma KilledLate(c: Config, s: State)
    requires ClockOk(c, s) && s.par.col.killed && (c.style.PlainC? || c.timeoutMs <= INT_MAX)
    ensures s.clock > s.par.col.deadline - NS_PER_MS
  {
    if c.style.PlainC? {
      ElapsedIsClose(Begun(c, s), s.par.col.last);
    }
  }
}
