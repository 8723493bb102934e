/** Who holds which end of the runner's pipes, in every reachable state. */
module Tables {
  import opened Wiring
  import opened Protocol

  /** The C child loses stdin if its caller had 0 closed, and its outputs if it had both 1 and 2 closed. */
  predicate ChildReads(c: Config) {
    c.style.Cpp? || 0 in c.initial
  }

  predicate ChildWrites(c: Config) {
    c.style.Cpp? || 1 in c.initial || 2 in c.initial
  }

  /** What a program started by a runner may find open: anything of the caller's, and its own three streams. */
  predicate CleanHandle(c: Config, h: Handle) {
    || h.Foreign?
    || (h == PipeEnd(In, ReadEnd) && ChildReads(c))
    || (h == PipeEnd(Out, WriteEnd) && ChildWrites(c))
    || (h == PipeEnd(Err, WriteEnd) && c.split)
  }

  ghost predicate Clean(c: Config, t: Table) {
    forall fd: nat :: fd in t ==> CleanHandle(c, t[fd])
  }

  /** Until its program starts the child's table is a stage of the rewiring; from then on it is clean. */
  ghost predicate ProcOk(c: Config, p: nat, proc: Process) {
    match proc.activity
    case Rewiring(done) =>
      p == CHILD && done < |Ops(c)| && proc.table == Applied(ForkedTable(c), Ops(c), done, c.limit)
    case Running => Clean(c, proc.table)
    case Reading(fd, max) =>
      Clean(c, proc.table) && fd in proc.table && proc.table[fd] == PipeEnd(In, ReadEnd) && max > 0
    case Writing(fd, data) =>
      && Clean(c, proc.table) && data != []
      && fd in proc.table && proc.table[fd].PipeEnd? && proc.table[fd].side == WriteEnd
  }

  predicate NotHeldByParent(s: State, st: Stream, side: Side) {
    PipeEnd(st, side) !in s.par.table.Values
  }

  /** The caller's own descriptors stay; the ends the runner must have closed by now are gone. */
  ghost predicate ParentOk(c: Config, s: State) {
    && (forall fd: nat :: fd in c.initial ==> fd in s.par.table && s.par.table[fd] == c.initial[fd])
    && (forall fd: nat :: fd in s.par.table ==> fd in c.initial || s.par.table[fd].PipeEnd?)
    && (!Early(s.par.phase) && !s.par.phase.Launched? ==>
          NotHeldByParent(s, In, ReadEnd) && NotHeldByParent(s, Out, WriteEnd) && NotHeldByParent(s, Err, WriteEnd))
    && (!Early(s.par.phase) && !s.par.phase.Launched? && !s.par.phase.Feeding? && !s.par.phase.Fed? ==>
          NotHeldByParent(s, In, WriteEnd))
    && (s.par.phase.Launched? || s.par.phase.Feeding? ==> PipeEnd(In, WriteEnd) in s.par.table.Values)
    && (Over(s.par.phase) ==> s.par.table == c.initial)
  }

  ghost predicate ProcsOk(c: Config, s: State) {
    && (Early(s.par.phase) ==> s.procs == map[])
    && (s.par.col.reaped ==> CHILD !in s.procs && (s.par.phase.Leaving? || s.par.phase.Done?))
    && forall p: nat :: p in s.procs ==> ProcOk(c, p, s.procs[p])
  }

  ghost predicate TablesOk(c: Config, s: State) {
    ParentOk(c, s) && ProcsOk(c, s)
  }

  /** The table the child's program starts with. */
  function ProgramTable(c: Config): Table {
    match c.style case Cpp => StandardTable(c.initial, c.split) case PlainC => CStandardTable(c.initial)
  }

  lemma WholeRewiring(c: Config)
    requires GoodConfig(c)
    ensures Applied(ForkedTable(c), Ops(c), |Ops(c)|, c.limit) == ProgramTable(c)
    ensures Clean(c, ProgramTable(c))
  {
    if c.style.Cpp? {
      ChildWiring(c.initial, c.split, c.limit);
      assert Applied(ForkedTable(c), Ops(c), |Ops(c)|, c.limit) == ChildTable(c.initial, c.split, c.limit);
    } else {
      CChildWiring(c.initial);
      assert Applied(ForkedTable(c), Ops(c), |Ops(c)|, c.limit) == CChildTable(c.initial);
    }
  }

  /** The last rewiring step leaves the table that the wiring lemmas describe. */
  lemma RewiredOk(c: Config, proc: Process)
    requires GoodConfig(c) && proc.activity.Rewiring? && ProcOk(c, CHILD, proc)
    ensures ProcOk(c, CHILD, Rewired(c, proc))
    ensures Rewired(c, proc).activity == Running ==> Rewired(c, proc).table == ProgramTable(c)
  {
    var n := proc.activity.done;
    var ops := Ops(c);
    assert Applied(ForkedTable(c), ops, n + 1, c.limit) == ApplyOp(proc.table, ops[n], c.limit);
    if n + 1 == |ops| {
      WholeRewiring(c);
      hide ProgramTable;
    }
  }

  lemma ProcsOkBelow(c: Config, s: State, e: ProcEvent)
    requires GoodConfig(c) && ProcsOk(c, s) && ProcEnabled(c, s, e)
    ensures ProcsOk(c, ProcAfter(c, s, e))
  {
    hide Applied, Ops, ProgramTable, ForkTable, Rewired;
    BelowKeepsParent(c, s, e);
    if e.Rewire? {
      RewiredOk(c, s.procs[CHILD]);
    }
  }

  lemma BelowKeepsParent(c: Config, s: State, e: ProcEvent)
    requires ProcEnabled(c, s, e)
    ensures ProcAfter(c, s, e).par == s.par && ProcAfter(c, s, e).clock == s.clock
  {
    hide Accepts, Rewired;
  }

  lemma AboveKeepsProcs(c: Config, s: State, e: ParentEvent)
    requires ParentEnabled(c, s, e)
    ensures ParentAfter(c, s, e).clock == s.clock
    ensures !e.Forked? ==> ParentAfter(c, s, e).procs == s.procs
  {
    hide OpenEnabled, LoopEnabled, LoopAfter, WithPipe, NextDrain;
  }

  lemma ParentOkClose(c: Config, s: State, end: nat)
    requires GoodConfig(c) && ParentOk(c, s) && ParentEnabled(c, s, ParentClose(end))
    ensures ParentOk(c, ParentAfter(c, s, ParentClose(end)))
  {
    if PipeEnd(In, WriteEnd) in s.par.table.Values && s.par.phase.Launched? {
      var fd :| fd in s.par.table && s.par.table[fd] == PipeEnd(In, WriteEnd);
      assert fd in s.par.table - {end};
    }
  }

  lemma ParentOkForked(c: Config, s: State)
    requires GoodConfig(c) && ParentOk(c, s) && ParentEnabled(c, s, Forked)
    ensures ParentOk(c, ParentAfter(c, s, Forked))
  {
    ForkedEnds(c.initial, c.split);
    assert s.par.table[EndsOf(c).inW] == PipeEnd(In, WriteEnd);
    hide ForkTable;
  }

  /** With the ends gone the parent is left with what it had. */
  lemma LeftAlone(c: Config, s: State)
    requires ParentOk(c, s) && NoEnds(s.par.table)
    ensures s.par.table == c.initial
  {
  }

  lemma ParentOkOpening(c: Config, s: State, e: ParentEvent)
    requires GoodConfig(c) && ParentOk(c, s) && Opens(e) && OpenEnabled(c, s, e)
    ensures ParentOk(c, ParentAfter(c, s, e))
  {
    hide ForkTable, Accepts, State.Held;
    if e.ParentClose? {
      ParentOkClose(c, s, e.end);
    } else if e.Forked? {
      ParentOkForked(c, s);
    }
  }

  lemma ParentOkLoop(c: Config, s: State, e: ParentEvent)
    requires GoodConfig(c) && ParentOk(c, s) && !Opens(e) && LoopEnabled(c, s, e)
    ensures ParentOk(c, ParentAfter(c, s, e))
  {
    if e.Leave? {
      LeftAlone(c, s);
    }
    if !e.Drain? {
      LoopSteps(c, s, e);
      hide LoopAfter, LoopEnabled;
    }
    hide ForkTable;
  }

  lemma ParentOkAbove(c: Config, s: State, e: ParentEvent)
    requires GoodConfig(c) && ParentOk(c, s) && ParentEnabled(c, s, e)
    ensures ParentOk(c, ParentAfter(c, s, e))
  {
    hide ParentAfter, OpenEnabled, LoopEnabled, ParentOk;
    if Opens(e) {
      ParentOkOpening(c, s, e);
    } else {
      ParentOkLoop(c, s, e);
    }
  }

  /** Only waitpid reaps, and nothing returns to the beginning. */
  lemma AboveKeepsReaped(c: Config, s: State, e: ParentEvent)
    requires ParentEnabled(c, s, e) && !e.Forked?
    ensures var par, par' := s.par, ParentAfter(c, s, e).par;
      && (Early(par'.phase) ==> Early(par.phase))
      && (par'.col.reaped ==> par.col.reaped || (e.Reap? && CHILD !in s.procs && par'.phase.Leaving?))
      && (par.phase.Leaving? || par.phase.Done? ==> par'.phase.Leaving? || par'.phase.Done?)
  {
    if !Opens(e) && !e.Drain? {
      LoopSteps(c, s, e);
      hide LoopAfter;
      assert e.Reap? ==> LoopAfter(c, s.par, s.clock, e).phase.Leaving? by { ReapLeaves(c, s.par, s.clock); }
    }
    hide ForkTable, WithPipe, Accepts, Yields, State.Held, State.Readable;
  }

  lemma ReapLeaves(c: Config, par: Parent, now: int)
    ensures LoopAfter(c, par, now, Reap).phase.Leaving?
  {
  }

  lemma ProcsOkAbove(c: Config, s: State, e: ParentEvent)
    requires GoodConfig(c) && ProcsOk(c, s) && ParentEnabled(c, s, e)
    ensures ProcsOk(c, ParentAfter(c, s, e))
  {
    AboveKeepsProcs(c, s, e);
    if !e.Forked? {
      AboveKeepsReaped(c, s, e);
      hide ParentAfter, ParentEnabled;
    }
    hide ForkTable, Accepts, Ops, ApplyOp, Clean, LoopEnabled, LoopAfter;
  }

  lemma TablesOkNext(c: Config, s: State, e: Event)
    requires GoodConfig(c) && TablesOk(c, s) && Enabled(c, s, e)
    ensures TablesOk(c, After(c, s, e))
  {
    hide Clean, ProcEnabled, ParentEnabled, ProcAfter, ParentAfter;
    match e
    case Below(pe) => ProcsOkBelow(c, s, pe); BelowKeepsParent(c, s, pe);
    case Above(pe) => ParentOkAbove(c, s, pe); ProcsOkAbove(c, s, pe);
    case Tick(_) =>
  }

  /** An end that nobody holds is gone for good: it can be copied and inherited, but not made. */
  lemma HeldShrinksBelow(c: Config, s: State, e: ProcEvent, h: Handle)
    requires ProcEnabled(c, s, e) && ProcAfter(c, s, e).Held(h)
    ensures s.Held(h)
  {
    hide Accepts, Ops;
    BelowKeepsParent(c, s, e);
    var s' := ProcAfter(c, s, e);
    if h !in s.par.table.Values {
      var p :| p in s'.procs && h in s'.procs[p].table.Values;
    }
  }

  lemma TickKeepsHeld(s: State, now: int, h: Handle)
    ensures s.(clock := now).Held(h) == s.Held(h)
  {
  }

  lemma HeldShrinksAbove(c: Config, s: State, e: ParentEvent, h: Handle)
    requires ParentEnabled(c, s, e) && !e.PipeMade?
    requires ParentAfter(c, s, e).Held(h)
    ensures s.Held(h)
  {
    if !Opens(e) && !e.Drain? {
      LoopSteps(c, s, e);
      hide LoopAfter;
    }
    hide Accepts, ForkTable, LoopEnabled;
  }

  /** The ends are where ForkTable put them. */
  lemma EndsInPlace(c: Config)
    requires GoodConfig(c)
    ensures var t, e := ForkedTable(c), EndsOf(c);
      && (forall fd: nat :: fd in t && t[fd] == PipeEnd(In, ReadEnd) <==> fd == e.inR)
      && (forall fd: nat :: fd in t && t[fd] == PipeEnd(In, WriteEnd) <==> fd == e.inW)
      && (forall fd: nat :: fd in t && t[fd] == PipeEnd(Out, ReadEnd) <==> fd == e.outR)
      && (forall fd: nat :: fd in t && t[fd] == PipeEnd(Out, WriteEnd) <==> fd == e.outW)
      && (forall fd: nat :: fd in t && t[fd] == PipeEnd(Err, ReadEnd) <==> fd == e.errR)
      && (forall fd: nat :: fd in t && t[fd] == PipeEnd(Err, WriteEnd) <==> fd == e.errW)
      && (e.errR >= 0 <==> c.split) && (e.errW >= 0 <==> c.split)
  {
    ForkedEnds(c.initial, c.split);
    hide ForkTable;
  }

  /** The ends to close are there to be closed, and with them gone feeding may begin. */
  lemma ClosingOrder(c: Config)
    requires GoodConfig(c)
    ensures var t, e := ForkedTable(c), EndsOf(c);
            var t1 := t - {e.inR};
            var t2 := t1 - {e.outW};
            var t3 := if c.split then t2 - {e.errW} else t2;
      && e.inR in t && t[e.inR] == PipeEnd(In, ReadEnd)
      && e.outW in t1 && t1[e.outW] == PipeEnd(Out, WriteEnd)
      && (e.errW >= 0 <==> c.split)
      && (c.split ==> e.errW in t2 && t2[e.errW] == PipeEnd(Err, WriteEnd))
      && PipeEnd(In, ReadEnd) !in t3.Values && PipeEnd(Out, WriteEnd) !in t3.Values
      && PipeEnd(Err, WriteEnd) !in t3.Values
      && PipeEnd(Out, ReadEnd) in t3.Values
  {
    EndsInPlace(c);
    var t, e := ForkedTable(c), EndsOf(c);
    hide ForkTable, ForkedTable, EndsOf;
    assert e.outR in t && t[e.outR] == PipeEnd(Out, ReadEnd);
    var t2 := t - {e.inR} - {e.outW};
    var t3 := if c.split then t2 - {e.errW} else t2;
    assert e.outR in t3 && t3[e.outR] == PipeEnd(Out, ReadEnd);
  }
}
