/** Whether a runner and the processes below it can come to wait for each other, and when. */
module Progress {
  import opened Wiring
  import opened Clocks
  import opened Protocol
  import opened Tables
  import opened Streams
  import opened Runs

  /** Something from outside: a signal, or a system call failing for no reason of the protocol's own. */
  predicate External(e: Event) {
    || (e.Below? && e.proc.Signal?)
    || (e.Above? && (e.step.SetupFails? || e.step.FeedError? || e.step.PollInterrupted? || e.step.PollFails?))
    || (e.Above? && (e.step.DrainError? || e.step.ReadRetried? || e.step.WaitInterrupted?))
  }

  function Later(s: State, ns: nat): State {
    s.(clock := s.clock + ns)
  }

  /** Deadlock: however long one waits, no process can do anything any more, and the run is not over. */
  ghost predicate Deadlock(c: Config, s: State) {
    && !Over(s.par.phase)
    && forall e: Event, ns: nat :: Enabled(c, Later(s, ns), e) ==> e.Tick? || External(e)
  }

  /** Such a state is final: without outside help it only grows older. */
  lemma DeadlockStays(c: Config, s: State, e: Event)
    requires Deadlock(c, s) && Enabled(c, s, e) && !External(e)
    ensures Deadlock(c, After(c, s, e))
  {
    assert Later(s, 0) == s;
    var s' := After(c, s, e);
    forall e': Event, ns: nat | Enabled(c, Later(s', ns), e') ensures e'.Tick? || External(e') {
      assert Later(s', ns) == Later(s, e.ns + ns);
    }
  }

  /** The bytes of a write that a process has begun and not finished. */
  function PendingOf(proc: Process, st: Stream): nat {
    if proc.activity.Writing? && proc.activity.fd in proc.table && proc.table[proc.activity.fd] == PipeEnd(st, WriteEnd)
    then |proc.activity.data| else 0
  }

  ghost function AnyOf(procs: map<nat, Process>): (p: nat)
    requires procs != map[]
    ensures p in procs
  {
    var p :| p in procs;
    p
  }

  ghost function Pending(procs: map<nat, Process>, st: Stream): nat
    decreases |procs|
  {
    if procs == map[] then 0
    else PendingOf(procs[AnyOf(procs)], st) + Pending(procs - {AnyOf(procs)}, st)
  }

  lemma {:induction false} PendingSplit(procs: map<nat, Process>, p: nat, st: Stream)
    requires p in procs
    ensures Pending(procs, st) == PendingOf(procs[p], st) + Pending(procs - {p}, st)
    decreases |procs|
  {
    var q := AnyOf(procs);
    if p != q {
      PendingSplit(procs - {q}, p, st);
      PendingSplit(procs - {p}, q, st);
      assert procs - {q} - {p} == procs - {p} - {q};
    }
  }

  lemma PendingSet(procs: map<nat, Process>, p: nat, proc: Process, st: Stream)
    ensures Pending(procs[p := proc], st) == Pending(procs - {p}, st) + PendingOf(proc, st)
    ensures p in procs ==> Pending(procs - {p}, st) == Pending(procs, st) - PendingOf(procs[p], st)
    ensures p !in procs ==> procs - {p} == procs
  {
    PendingSplit(procs[p := proc], p, st);
    assert procs[p := proc] - {p} == procs - {p};
    if p in procs {
      PendingSplit(procs, p, st);
    } else {
      assert procs - {p} == procs;
    }
  }

  /** What was written and what is being written was asked for. */
  ghost predicate AskedOk(s: State, st: Stream) {
    |s.PipeOf(st).written| + Pending(s.procs, st) <= s.PipeOf(st).asked
  }

  lemma AskedOkBelow(c: Config, s: State, e: ProcEvent, st: Stream)
    requires ProcsOk(c, s) && AskedOk(s, st) && ProcEnabled(c, s, e) && st != In
    ensures AskedOk(ProcAfter(c, s, e), st)
  {
    hide ProcsOk, Rewired, Pending, State.Held;
    var s' := ProcAfter(c, s, e);
    match e
    case Rewire => PendingSet(s.procs, CHILD, s'.procs[CHILD], st); RewiredIsIdle(c, s.procs[CHILD], st);
    case Exit(p) => PendingSplit(s.procs, p, st);
    case Signal(p) => PendingSplit(s.procs, p, st);
    case Die => PendingSplit(s.procs, CHILD, st);
    case Spawn(p, q) => PendingSet(s.procs, q, s'.procs[q], st);
    case ReadDone(p, k) => StreamsUsed(c, s, p); PendingSet(s.procs, p, s'.procs[p], st);
    case _ => PendingSet(s.procs, e.p, s'.procs[e.p], st);
  }

  lemma RewiredIsIdle(c: Config, proc: Process, st: Stream)
    requires proc.activity.Rewiring? && proc.activity.done < |Ops(c)|
    ensures PendingOf(Rewired(c, proc), st) == 0
  {
    hide Ops, EndsOf, ApplyOp;
  }

  lemma AskedOkNext(c: Config, s: State, e: Event, st: Stream)
    requires GoodConfig(c) && Inv(c, s) && AskedOk(s, st) && Enabled(c, s, e) && st != In
    ensures AskedOk(After(c, s, e), st)
  {
    hide BytesOk, FedOk, SourcesOk, ClockOk, ProcsOk, ParentOk, Pending;
    match e
    case Below(pe) => AskedOkBelow(c, s, pe, st);
    case Above(pe) =>
      hide ForkTable, ToMs, AsInt, State.Held, Accepts;
      if pe.Forked? {
        assert s.procs == map[] by { NoProcsInSetup(c, s); }
        PendingSet(s.procs, CHILD, Process(s.par.table, Rewiring(0)), st);
      }
    case Tick(_) =>
  }

  lemma NoProcsInSetup(c: Config, s: State)
    requires Inv(c, s) && s.par.phase.Setup?
    ensures s.procs == map[]
  {
  }

  lemma {:induction false} AskedOkFinal(c: Config, s: State, es: seq<Event>, st: Stream)
    requires GoodConfig(c) && Inv(c, s) && AskedOk(s, st) && IsRun(c, s, es) && st != In
    ensures AskedOk(Final(c, s, es), st)
    decreases |es|
  {
    if es != [] {
      InvNext(c, s, es[0]);
      AskedOkNext(c, s, es[0], st);
      AskedOkFinal(c, After(c, s, es[0]), es[1..], st);
    }
  }

  lemma AskedOkReachable(c: Config, s: State, st: Stream)
    requires GoodConfig(c) && Reachable(c, s) && st != In
    ensures AskedOk(s, st)
  {
    var es :| IsRun(c, Start(c), es) && Final(c, Start(c), es) == s;
    InvStart(c);
    AskedOkFinal(c, Start(c), es, st);
  }

  /** A process that is not blocked on a runner pipe has a step to make. */
  lemma ProcessMoves(c: Config, s: State, p: nat) returns (e: Event)
    requires ProcsOk(c, s) && p in s.procs
    requires Reads(s, p) ==> s.inP.queue != [] || !s.Held(PipeEnd(In, WriteEnd))
    requires Writes(s, p) ==> var st := StreamAt(s, p, s.procs[p].activity.fd);
               !s.Held(PipeEnd(st, ReadEnd)) || exists k :: Accepts(c, s.PipeOf(st), |s.procs[p].activity.data|, k)
    ensures Enabled(c, s, e) && !External(e) && !e.Tick?
  {
    hide Applied, Ops, ForkTable, Clean, State.Held;
    assert ProcOk(c, p, s.procs[p]);
    StreamsUsed(c, s, p);
    match s.procs[p].activity
    case Rewiring(_) => e := Below(Rewire);
    case Running => e := Below(Exit(p));
    case Reading(fd, max) => e := Below(ReadDone(p, if s.inP.queue != [] then 1 else 0));
    case Writing(fd, data) =>
      var st := StreamAt(s, p, fd);
      if s.Held(PipeEnd(st, ReadEnd)) {
        var k :| Accepts(c, s.PipeOf(st), |data|, k);
        e := Below(WriteDone(p, k));
      } else {
        e := Below(WriteFails(p));
      }
  }

  /** A pipe with room for all of a write, or an empty one, takes some of it. */
  lemma RoomAccepts(c: Config, p: Pipe, n: nat)
    requires n > 0 && c.capacity >= PIPE_BUF
    requires |p.queue| + n <= c.capacity || p.queue == []
    ensures exists k :: Accepts(c, p, n, k)
  {
    if n <= PIPE_BUF || |p.queue| + n <= c.capacity {
      assert Accepts(c, p, n, n);
    } else {
      assert Accepts(c, p, n, 1);
    }
  }

  /** The parent has an end of its own to close, or is past closing them. */
  lemma MovesClosing(c: Config, s: State) returns (e: Event)
    requires ParentOk(c, s)
    requires s.par.phase.Launched? || s.par.phase.Fed? || s.par.phase.Leaving? || s.par.phase.Unwinding?
    requires AllForeign(c.initial)
    ensures e.Above? && Enabled(c, s, e) && !External(e) && !e.Tick?
  {
    var t := s.par.table;
    if end: nat :| end in t && MayClose(c, s, t[end]) {
      e := Above(ParentClose(end));
    } else if s.par.phase.Launched? {
      e := Above(Feed);
    } else if s.par.phase.Fed? {
      e := Above(Collect);
    } else {
      e := Above(Leave);
    }
  }

  /** The stdin data fits a pipe, or what the child and its kind ask to write does; or they lack an end. */
  predicate Fits(c: Config, s: State) {
    || |c.stdin| <= c.capacity || !ChildReads(c) || !ChildWrites(c)
    || (s.outP.asked <= c.capacity && s.errP.asked <= c.capacity)
  }

  /** A write within a pipe's capacity in all cannot block while nothing has been drained. */
  lemma WriterHasRoom(c: Config, s: State, p: nat)
    requires GoodConfig(c) && ProcsOk(c, s) && BytesOk(c, s) && AskedOk(s, Out) && AskedOk(s, Err) && Writes(s, p)
    requires s.outP.asked <= c.capacity && s.errP.asked <= c.capacity
    ensures var st := StreamAt(s, p, s.procs[p].activity.fd);
            exists k :: Accepts(c, s.PipeOf(st), |s.procs[p].activity.data|, k)
  {
    hide Applied, Ops, ForkTable, Clean;
    assert ProcOk(c, p, s.procs[p]);
    StreamsUsed(c, s, p);
    var st := StreamAt(s, p, s.procs[p].activity.fd);
    PendingSplit(s.procs, p, st);
    hide Accepts;
    RoomAccepts(c, s.PipeOf(st), |s.procs[p].activity.data|);
  }

  lemma MovesFeeding(c: Config, s: State) returns (e: Event)
    requires GoodConfig(c) && Inv(c, s) && AskedOk(s, Out) && AskedOk(s, Err)
    requires s.par.phase.Feeding? && Fits(c, s)
    ensures Enabled(c, s, e) && !External(e) && !e.Tick?
  {
    hide ProcOk, FedOk, SourcesOk, ClockOk;
    if s.par.tail == [] {
      e := Above(FeedDone);
    } else if !s.Held(PipeEnd(In, ReadEnd)) {
      e := Above(FeedStop);
    } else if k :| Accepts(c, s.inP, |s.par.tail|, k) {
      e := Above(FeedWrite(k));
    } else {
      assert |s.inP.queue| + |s.par.tail| > c.capacity && s.inP.queue != [] by {
        if |s.inP.queue| + |s.par.tail| <= c.capacity || s.inP.queue == [] {
          RoomAccepts(c, s.inP, |s.par.tail|);
          assert false;
        }
      }
      e := ReaderMoves(c, s);
    }
  }

  /** Somebody who could read stdin can move. */
  lemma ReaderMoves(c: Config, s: State) returns (e: Event)
    requires GoodConfig(c) && Inv(c, s) && AskedOk(s, Out) && AskedOk(s, Err) && Fits(c, s)
    requires s.par.phase.Feeding? && s.Held(PipeEnd(In, ReadEnd)) && s.inP.queue != [] && |c.stdin| > c.capacity
    ensures Enabled(c, s, e) && !External(e) && !e.Tick?
  {
    hide Applied, Ops, ForkTable, FedOk, SourcesOk, ClockOk;
    var p :| p in s.procs && PipeEnd(In, ReadEnd) in s.procs[p].table.Values;
    if CHILD in s.procs && s.procs[CHILD].activity.Rewiring? {
      assert ProcOk(c, CHILD, s.procs[CHILD]);
      e := Below(Rewire);
    } else {
      assert ProcOk(c, p, s.procs[p]);
      assert CleanHandle(c, PipeEnd(In, ReadEnd));
      if ChildWrites(c) && Writes(s, p) {
        WriterHasRoom(c, s, p);
      }
      hide BytesOk, ParentOk, PendingOf, Pending, AskedOk, State.Held;
      e := ProcessMoves(c, s, p);
    }
  }

  lemma MovesDraining(c: Config, s: State) returns (e: Event)
    requires SourcesOk(c, s) && s.par.phase.Draining?
    ensures e.Above? && Enabled(c, s, e) && !External(e) && !e.Tick?
  {
    hide State.Held;
    var st := s.par.phase.ready[0];
    assert st in s.par.phase.ready;
    e := Above(Drain(if s.PipeOf(st).queue != [] then 1 else 0));
  }

  /** A holder of a write end of a stream whose pipe is empty, or which nobody reads, can move. */
  lemma WriterMoves(c: Config, s: State, p: nat) returns (e: Event)
    requires GoodConfig(c) && Inv(c, s) && Collecting(s.par.phase) && p in s.procs
    requires Writes(s, p) ==>
               var st := StreamAt(s, p, s.procs[p].activity.fd);
               s.PipeOf(st).queue == [] || !s.Held(PipeEnd(st, ReadEnd))
    ensures Enabled(c, s, e) && !External(e) && !e.Tick?
  {
    hide Applied, Ops, ForkTable, Clean, BytesOk, FedOk, SourcesOk, ClockOk;
    if CHILD in s.procs && s.procs[CHILD].activity.Rewiring? {
      assert ProcOk(c, CHILD, s.procs[CHILD]);
      e := Below(Rewire);
    } else {
      NoStdinWriter(c, s);
      if Writes(s, p) && s.PipeOf(StreamAt(s, p, s.procs[p].activity.fd)).queue == [] {
        assert ProcOk(c, p, s.procs[p]);
        RoomAccepts(c, s.PipeOf(StreamAt(s, p, s.procs[p].activity.fd)), |s.procs[p].activity.data|);
      }
      hide State.Held;
      e := ProcessMoves(c, s, p);
    }
  }

  /** The C++ runner keeps the read end of an output it failed to read. */
  predicate Abandoned(c: Config, s: State) {
    c.style.Cpp? && s.par.col.readFailed
  }

  lemma MovesPolling(c: Config, s: State) returns (e: Event, ns: nat)
    requires GoodConfig(c) && Inv(c, s) && s.par.phase.Polling? && !Abandoned(c, s)
    ensures Enabled(c, Later(s, ns), e) && !External(e) && !e.Tick?
  {
    hide TablesOk, BytesOk, FedOk, State.Held;
    ns := 0;
    assert Later(s, 0) == s;
    var col := s.par.col;
    if s.par.phase.until.Some? {
      ns := if s.clock >= s.par.phase.until.value then 0 else s.par.phase.until.value - s.clock;
      e := Above(PollTimeout);
    } else if col.outOpen && s.Readable(Out) {
      e := Above(PollReady([Out]));
    } else if col.errOpen && s.Readable(Err) {
      e := Above(PollReady([Err]));
    } else {
      e := UnreadableMoves(c, s, if col.outOpen then Out else Err);
    }
  }

  /** If an open source has nothing to tell then its pipe is empty and has a writer, who can move. */
  lemma UnreadableMoves(c: Config, s: State, st: Stream) returns (e: Event)
    requires GoodConfig(c) && Inv(c, s) && Collecting(s.par.phase) && !s.par.col.readFailed
    requires s.par.col.IsOpen(st) && !s.Readable(st)
    requires s.par.col.outOpen ==> !s.Readable(Out)
    requires s.par.col.errOpen ==> !s.Readable(Err)
    ensures Enabled(c, s, e) && !External(e) && !e.Tick?
  {
    hide ProcOk, BytesOk, FedOk, ClockOk;
    assert PipeEnd(st, WriteEnd) !in s.par.table.Values;
    var p :| p in s.procs && PipeEnd(st, WriteEnd) in s.procs[p].table.Values;
    if Writes(s, p) {
      StreamsUsed(c, s, p);
      var st' := StreamAt(s, p, s.procs[p].activity.fd);
      assert s.Held(PipeEnd(st', WriteEnd)) by {
        assert PipeEnd(st', WriteEnd) in s.procs[p].table.Values;
      }
      assert s.PipeOf(st').queue == [];
    }
    e := WriterMoves(c, s, p);
  }

  lemma NotWriting(s: State, p: nat, st: Stream)
    requires Exhausted(s, st)
    ensures !(Writes(s, p) && StreamAt(s, p, s.procs[p].activity.fd) == st)
  {
    assert !(p in s.procs && PipeEnd(st, WriteEnd) in s.procs[p].table.Values);
  }

  /** Once the parent has closed its read end, nobody has one. */
  lemma NoOutputReader(c: Config, s: State, st: Stream)
    requires ProcsOk(c, s) && st != In && NotHeldByParent(s, st, ReadEnd)
    requires CHILD in s.procs ==> !s.procs[CHILD].activity.Rewiring?
    ensures !s.Held(PipeEnd(st, ReadEnd))
  {
    hide Applied, Ops, ForkTable;
    forall p: nat | p in s.procs ensures PipeEnd(st, ReadEnd) !in s.procs[p].table.Values {
      assert ProcOk(c, p, s.procs[p]);
    }
  }

  /** A child that is waited for and was not killed is not held up in a write. */
  lemma WaitedForIsFree(c: Config, s: State)
    requires GoodConfig(c) && Inv(c, s) && s.par.phase.Waiting? && !s.par.col.killed && !Abandoned(c, s)
    requires CHILD in s.procs && !s.procs[CHILD].activity.Rewiring?
    requires (c.style.PlainC? ==> NotHeldByParent(s, Out, ReadEnd))
    ensures Writes(s, CHILD) ==> !s.Held(PipeEnd(StreamAt(s, CHILD, s.procs[CHILD].activity.fd), ReadEnd))
  {
    hide ParentOk, BytesOk, FedOk;
    StreamsUsed(c, s, CHILD);
    if c.style.PlainC? {
      NoOutputReader(c, s, Out);
    } else {
      NotWriting(s, CHILD, Out);
      if c.split {
        NotWriting(s, CHILD, Err);
      }
    }
  }

  lemma MovesWaiting(c: Config, s: State) returns (e: Event)
    requires GoodConfig(c) && Inv(c, s) && s.par.phase.Waiting? && !Abandoned(c, s)
    ensures Enabled(c, s, e) && !External(e) && !e.Tick?
  {
    hide ProcOk, BytesOk, FedOk;
    if end: nat :| end in s.par.table && MayClose(c, s, s.par.table[end]) {
      e := Above(ParentClose(end));
    } else if CHILD !in s.procs {
      e := Above(Reap);
    } else if s.par.col.killed {
      e := Below(Die);
    } else if s.procs[CHILD].activity.Rewiring? {
      assert ProcOk(c, CHILD, s.procs[CHILD]);
      hide Ops;
      e := RewireMoves(c, s);
    } else {
      WaitedForIsFree(c, s);
      e := WriterMoves(c, s, CHILD);
    }
  }

  lemma RewireMoves(c: Config, s: State) returns (e: Event)
    requires ProcsOk(c, s) && CHILD in s.procs && s.procs[CHILD].activity.Rewiring?
    ensures Enabled(c, s, e) && !External(e) && !e.Tick?
  {
    assert ProcOk(c, CHILD, s.procs[CHILD]);
    e := Below(Rewire);
  }

  /** In every phase but a blocked Feeding there is a step to make, now or after some time. */
  lemma Moves(c: Config, s: State) returns (e: Event, ns: nat)
    requires GoodConfig(c) && Inv(c, s) && AskedOk(s, Out) && AskedOk(s, Err)
    requires !Over(s.par.phase) && (s.par.phase.Feeding? ==> Fits(c, s) || s.inP.taken == c.stdin)
    requires s.par.phase.Waiting? || s.par.phase.Polling? ==> !Abandoned(c, s)
    ensures Enabled(c, Later(s, ns), e) && !External(e) && !e.Tick?
  {
    hide ParentOk, ProcsOk, FedOk, SourcesOk, ClockOk;
    assert Later(s, 0) == s;
    ns := 0;
    match s.par.phase
    case Setup => e := Above(PipeMade(In));
    case Unwinding => e := MovesClosing(c, s);
    case Launched => e := MovesClosing(c, s);
    case Fed => e := MovesClosing(c, s);
    case Leaving => e := MovesClosing(c, s);
    case Feeding =>
      if Fits(c, s) {
        e := MovesFeeding(c, s);
      } else {
        assert s.par.tail == [];
        e := Above(FeedDone);
      }
    case Check => e := Above(CheckTime);
    case Polling(_) => e, ns := MovesPolling(c, s);
    case Draining(_) => e := MovesDraining(c, s);
    case Expired => e := Above(Kill);
    case Waiting => e := MovesWaiting(c, s);
    case Done =>
    case Failed =>
  }

  /**
    Unless the C++ runner has failed to read an output, a deadlock can come only while the child is
    being fed: the stdin data exceeds a pipe, and the child and its kind, which can both read and
    write, asked to write more than a pipe holds before they had taken it all.
   */
  lemma DeadlockOnlyWhileFeeding(c: Config, s: State)
    requires GoodConfig(c) && Reachable(c, s) && !Abandoned(c, s) && Deadlock(c, s)
    ensures s.par.phase.Feeding? && |c.stdin| > c.capacity && s.inP.taken != c.stdin
    ensures ChildReads(c) && ChildWrites(c)
    ensures s.outP.asked > c.capacity || s.errP.asked > c.capacity
  {
    InvReachable(c, s);
    AskedOkReachable(c, s, Out);
    AskedOkReachable(c, s, Err);
    if !s.par.phase.Feeding? || Fits(c, s) || s.inP.taken == c.stdin {
      var e, ns := Moves(c, s);
    }
  }

  lemma NothingMoves(c: Config, s: State, e: Event, ns: nat)
    requires Deadlock(c, s) && !e.Tick? && !External(e)
    ensures !Enabled(c, Later(s, ns), e)
  {
  }

  /** Having failed to read one, it can also come while it waits for the child. */
  lemma DeadlockAfterFailedRead(c: Config, s: State)
    requires GoodConfig(c) && Reachable(c, s) && Abandoned(c, s) && Deadlock(c, s)
    ensures s.par.phase.Waiting? || (s.par.phase.Polling? && c.timeoutMs > INT_MAX)
    ensures !s.par.col.killed && (s.par.phase.Waiting? ==> CHILD in s.procs)
  {
    InvReachable(c, s);
    AskedOkReachable(c, s, Out);
    AskedOkReachable(c, s, Err);
    assert Later(s, 0) == s;
    hide TablesOk, BytesOk, FedOk;
    if s.par.phase.Polling? {
      if s.par.phase.until.Some? {
        var until := s.par.phase.until.value;
        NothingMoves(c, s, Above(PollTimeout), if s.clock >= until then 0 else until - s.clock);
      }
    } else if s.par.phase.Waiting? {
      NothingMoves(c, s, Above(Reap), 0);
      NothingMoves(c, s, Below(Die), 0);
    } else {
      var e, ns := Moves(c, s);
    }
  }
}
