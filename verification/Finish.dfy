/** When a runner is sure to finish: every endless and fair run comes to its end, if its child does its part. */
module Finish {
  import opened Wiring
  import opened Clocks
  import opened Protocol
  import opened Tables
  import opened Streams
  import opened Runs
  import opened Progress

  /** A run without end: the states it goes through, and the event that leaves each. */
  datatype Endless = Endless(at: nat -> State, ev: nat -> Event)

  ghost predicate IsEndless(c: Config, r: Endless) {
    forall n: nat {:trigger r.ev(n)} :: GoesTo(c, r.at(n), r.ev(n), r.at(n + 1))
  }

  predicate GoesTo(c: Config, s: State, e: Event, s': State) {
    Enabled(c, s, e) && s' == After(c, s, e)
  }

  /** Time passes without bound. */
  ghost predicate TimePasses(r: Endless) {
    forall t: int :: Reaches(r, t)
  }

  ghost predicate Reaches(r: Endless, t: int) {
    exists n: nat :: r.at(n).clock >= t
  }

  /** No read of the C++ runner fails; interruptions, signals and all other failures are as may be. */
  ghost predicate ReadsWell(c: Config, r: Endless) {
    forall n: nat :: !Spoils(c, r.ev(n))
  }

  predicate Spoils(c: Config, e: Event) {
    c.style.Cpp? && e == Above(DrainError)
  }

  ghost predicate ParentCan(c: Config, s: State) {
    exists e: ParentEvent :: ParentEnabled(c, s, e) && !External(Above(e))
  }

  /** A parent that can always make a step makes one in the end. */
  ghost predicate FairToParent(c: Config, r: Endless) {
    forall n: nat :: FairFrom(c, r, n)
  }

  ghost predicate FairFrom(c: Config, r: Endless, n: nat) {
    (forall m: nat :: m >= n ==> ParentCan(c, r.at(m))) ==> StepsAfter(r, n)
  }

  ghost predicate StepsAfter(r: Endless, n: nat) {
    exists m: nat :: m >= n && r.ev(m).Above?
  }

  /**
    The parent is in waitpid, for a child that was killed, or out of whose outputs nothing can come
    any more, or whose output the parent has closed.
   */
  ghost predicate LetGo(c: Config, s: State) {
    s.par.phase.Waiting? && (Spent(c, s) || (c.style.PlainC? && NotHeldByParent(s, Out, ReadEnd)))
  }

  /** Such a child ends, sooner or later. */
  ghost predicate ChildEnds(c: Config, r: Endless) {
    forall n: nat {:trigger EndsAfter(r, n)} :: LetGo(c, r.at(n)) ==> EndsAfter(r, n)
  }

  ghost predicate EndsAfter(r: Endless, n: nat) {
    exists m: nat :: m >= n && CHILD !in r.at(m).procs
  }

  /** The stdin pipe is empty, or nobody can read from it. */
  ghost predicate StdinFree(s: State) {
    s.inP.queue == [] || !s.Held(PipeEnd(In, ReadEnd))
  }

  /** Whoever can read stdin empties the pipe, or gives it up, unless the parent goes on before that. */
  ghost predicate StdinTaken(r: Endless) {
    forall n: nat {:trigger TakenAfter(r, n)} :: r.at(n).par.phase.Feeding? ==> TakenAfter(r, n)
  }

  ghost predicate TakenAfter(r: Endless, n: nat) {
    exists m: nat :: m >= n && OnwardAt(r, m)
  }

  ghost predicate OnwardAt(r: Endless, m: nat) {
    r.ev(m).Above? || StdinFree(r.at(m))
  }

  /** What a caller can see to, and what the system and the child have to. */
  ghost predicate Favourable(c: Config, r: Endless) {
    && GoodConfig(c) && (c.style.Cpp? ==> c.timeoutMs <= INT_MAX)
    && (|c.stdin| <= c.capacity || StdinTaken(r))
    && Reachable(c, r.at(0)) && !Early(r.at(0).par.phase) && !Abandoned(c, r.at(0))
    && IsEndless(c, r) && TimePasses(r) && ReadsWell(c, r) && FairToParent(c, r) && ChildEnds(c, r)
  }

  /** How far the parent has to go; in the loop, once its deadline has passed. */
  function Rank(c: Config, par: Parent): nat {
    match par.phase
    case Launched => 20
    case Feeding => 19
    case Fed => 18
    case Draining(ready) => (if Stale(c, par) then 12 else 7) + |ready|
    case Check => if Stale(c, par) then 12 else 7
    case Polling(_) => 11
    case Expired => 6
    case Waiting => 5
    case Leaving => 4
    case _ => 0
  }

  /** The C runner has not yet noticed. */
  predicate Stale(c: Config, par: Parent) {
    c.style.PlainC? && par.col.last < par.col.deadline
  }

  function Left(par: Parent): nat {
    |par.table| + |par.tail|
  }

  predicate Nearer(c: Config, par: Parent, par': Parent) {
    Rank(c, par') < Rank(c, par) || (Rank(c, par') == Rank(c, par) && Left(par') < Left(par))
  }

  lemma FewerEntries(t: Table, fd: nat)
    requires fd in t
    ensures |t - {fd}| < |t|
  {
    assert (t - {fd}).Keys == t.Keys - {fd};
  }

  lemma CloseDescends(c: Config, s: State, end: nat)
    requires !Early(s.par.phase) && end in s.par.table
    ensures var par' := s.par.(table := s.par.table - {end}); Nearer(c, s.par, par') && !Early(par'.phase)
  {
    FewerEntries(s.par.table, end);
    SamePlace(c, s.par, s.par.table - {end});
    hide Rank;
  }

  lemma OpeningDescends(c: Config, s: State, e: ParentEvent)
    requires !Early(s.par.phase) && Opens(e) && OpenEnabled(c, s, e)
    ensures Nearer(c, s.par, OpenAfter(c, s, e).par)
    ensures OpenAfter(c, s, e).par.col == s.par.col && !Early(OpenAfter(c, s, e).par.phase)
  {
    hide ForkTable, WithPipe, State.Held, MayClose, Stale;
    if e.ParentClose? {
      CloseDescends(c, s, e.end);
      hide Nearer;
    }
  }

  lemma SamePlace(c: Config, par: Parent, t: Table)
    ensures Rank(c, par.(table := t)) == Rank(c, par)
  {
  }

  /** At the head of the loop the parent sees that the time is up, or is about to look at the clock. */
  lemma CheckDescends(c: Config, s: State)
    requires GoodConfig(c) && s.par.phase.Check? && s.clock >= s.par.col.deadline
    ensures Nearer(c, s.par, s.par.TimeChecked(c, s.clock))
  {
    if c.style.PlainC? && !Stale(c, s.par) {
      DeadlineNoticed(c, s.par.col);
    }
    hide ElapsedMs, At, AsInt, GoodConfig;
  }

  lemma ExpiryDescends(c: Config, s: State)
    requires GoodConfig(c) && s.par.phase.Polling? && s.clock >= s.par.col.deadline
    ensures Nearer(c, s.par, s.par.PollExpired(c, s.clock))
  {
    if c.style.PlainC? {
      DeadlineNoticed(c, s.par.col.ClockRead(c, s.clock));
    }
    hide ElapsedMs, At, GoodConfig;
  }

  lemma LoopDescends(c: Config, s: State, e: ParentEvent)
    requires GoodConfig(c) && !Early(s.par.phase)
    requires !Opens(e) && !e.Drain? && !e.Collect? && LoopEnabled(c, s, e)
    requires SourcesOk(c, s) && s.clock >= s.par.col.deadline
    ensures Nearer(c, s.par, LoopAfter(c, s.par, s.clock, e))
  {
    if e.CheckTime? {
      CheckDescends(c, s);
      hide Nearer, GoodConfig, ElapsedMs, At, AsInt, ToMs;
    } else if e.PollTimeout? {
      ExpiryDescends(c, s);
      hide Nearer, GoodConfig, ElapsedMs, At;
    } else {
      hide Parent.TimeChecked, Parent.PollExpired, GoodConfig, Exhausted, State.Readable, NoEnds;
    }
  }

  lemma DrainDescends(c: Config, s: State, k: nat)
    requires SourcesOk(c, s) && LoopEnabled(c, s, Drain(k))
    ensures Nearer(c, s.par, DrainAfter(s, k).par) && !Early(DrainAfter(s, k).par.phase)
    ensures DrainAfter(s, k).par.col.readFailed == s.par.col.readFailed
  {
    DrainKeepsTiming(s, k);
    hide State.Readable, State.Held;
  }

  /** The parent can make a step of its own, whatever the others do. */
  lemma ParentReady(c: Config, s: State)
    requires GoodConfig(c) && Inv(c, s) && Due(c, s) && !Early(s.par.phase) && !Over(s.par.phase)
    ensures ParentCan(c, s)
  {
    hide TablesOk, FedOk, SourcesOk, ClockOk, BytesOk, State.Held, StdinFree;
    match s.par.phase
    case Launched => ClosingReady(c, s);
    case Fed => ClosingReady(c, s);
    case Leaving => ClosingReady(c, s);
    case Feeding => FeedingReady(c, s);
    case Draining(_) =>
      var e := MovesDraining(c, s);
      assert ParentEnabled(c, s, e.step);
    case Check => assert ParentEnabled(c, s, CheckTime);
    case Polling(_) => assert ParentEnabled(c, s, PollTimeout);
    case Expired => assert ParentEnabled(c, s, Kill);
    case Waiting =>
      if end: nat :| end in s.par.table && MayClose(c, s, s.par.table[end]) {
        assert ParentEnabled(c, s, ParentClose(end));
      } else {
        assert ParentEnabled(c, s, Reap);
      }
  }

  lemma ClosingReady(c: Config, s: State)
    requires GoodConfig(c) && Inv(c, s) && (s.par.phase.Launched? || s.par.phase.Fed? || s.par.phase.Leaving?)
    ensures ParentCan(c, s)
  {
    hide ProcsOk, FedOk, SourcesOk, ClockOk, BytesOk;
    var e := MovesClosing(c, s);
    assert ParentEnabled(c, s, e.step);
  }

  lemma FeedingReady(c: Config, s: State)
    requires GoodConfig(c) && BytesOk(c, s) && s.par.phase.Feeding?
    requires |c.stdin| <= c.capacity || StdinFree(s)
    ensures ParentCan(c, s)
  {
    hide State.Held;
    if s.par.tail == [] {
      assert ParentEnabled(c, s, FeedDone);
    } else if s.Held(PipeEnd(In, ReadEnd)) {
      assert |s.inP.queue| + |s.par.tail| <= c.capacity || s.inP.queue == [];
      RoomAccepts(c, s.inP, |s.par.tail|);
      var k :| Accepts(c, s.inP, |s.par.tail|, k);
      assert ParentEnabled(c, s, FeedWrite(k));
    } else {
      assert ParentEnabled(c, s, FeedStop);
    }
  }

  lemma {:induction false} Always(c: Config, r: Endless, n: nat)
    requires Favourable(c, r)
    ensures Reachable(c, r.at(n)) && Inv(c, r.at(n))
  {
    hide Inv, Reachable;
    if n > 0 {
      Always(c, r, n - 1);
      ReachableNext(c, r.at(n - 1), r.ev(n - 1));
    }
    InvReachable(c, r.at(n));
  }

  /** What no such run undoes, once the child was started. */
  predicate Follows(c: Config, s: State, s': State) {
    && !Early(s'.par.phase) && (Abandoned(c, s') ==> Abandoned(c, s)) && s'.clock >= s.clock
    && (Collecting(s.par.phase) ==> Collecting(s'.par.phase) && s'.par.col.deadline == s.par.col.deadline)
    && (CHILD !in s.procs ==> CHILD !in s'.procs)
  }

  lemma ParentGoesOn(c: Config, s: State, e: Event)
    requires SourcesOk(c, s) && Enabled(c, s, e) && !Spoils(c, e) && !Early(s.par.phase)
    ensures Follows(c, s, After(c, s, e))
    ensures !e.Above? ==> After(c, s, e).par == s.par
  {
    hide SourcesOk;
    match e
    case Below(pe) =>
      BelowKeepsParent(c, s, pe);
      hide Rewired, Accepts, State.Held;
    case Above(pe) =>
      StepGoesOn(c, s, pe);
      AboveKeepsProcs(c, s, pe);
      hide ParentEnabled, ParentAfter;
    case Tick(_) =>
  }

  lemma StepGoesOn(c: Config, s: State, e: ParentEvent)
    requires SourcesOk(c, s) && ParentEnabled(c, s, e) && !Spoils(c, Above(e)) && !Early(s.par.phase)
    ensures var s' := ParentAfter(c, s, e);
      && !Early(s'.par.phase) && (Abandoned(c, s') ==> Abandoned(c, s))
      && (Collecting(s.par.phase) ==> Collecting(s'.par.phase) && s'.par.col.deadline == s.par.col.deadline)
  {
    if Opens(e) {
      OpeningDescends(c, s, e);
      OpeningKeepsTiming(c, s, e);
      hide OpenAfter, OpenEnabled, SourcesOk;
    } else if e.Drain? {
      DrainDescends(c, s, e.k);
      DrainKeepsTiming(s, e.k);
      hide DrainAfter, LoopEnabled, SourcesOk;
    } else {
      LoopSteps(c, s, e);
      SameFailure(c, s, e);
      hide LoopAfter, LoopEnabled, SourcesOk;
    }
  }

  lemma SameFailure(c: Config, s: State, e: ParentEvent)
    requires !Opens(e) && !e.Drain? && LoopEnabled(c, s, e) && !Spoils(c, Above(e))
    ensures c.style.Cpp? ==> LoopAfter(c, s.par, s.clock, e).col.readFailed == s.par.col.readFailed
  {
    TimeIsNoFailure(c, s.par, s.clock);
    hide Parent.TimeChecked, Parent.PollExpired, State.Readable, NoEnds;
  }

  lemma TimeIsNoFailure(c: Config, par: Parent, now: int)
    ensures par.TimeChecked(c, now).col.readFailed == par.col.readFailed
    ensures par.PollExpired(c, now).col.readFailed == par.col.readFailed
  {
    hide ElapsedMs, At, ToMs, AsInt;
  }

  /** From one index to the next, and to a later one. */
  lemma GoesOnce(c: Config, r: Endless, n: nat)
    requires Favourable(c, r) && !Early(r.at(n).par.phase)
    ensures Follows(c, r.at(n), r.at(n + 1))
    ensures !r.ev(n).Above? ==> r.at(n + 1).par == r.at(n).par
  {
    Always(c, r, n);
    assert !Spoils(c, r.ev(n));
    hide TablesOk, BytesOk, FedOk, ClockOk, Reachable, Follows, SourcesOk, After;
    ParentGoesOn(c, r.at(n), r.ev(n));
  }

  lemma {:induction false} GoesOn(c: Config, r: Endless, n: nat, m: nat)
    requires Favourable(c, r) && n <= m && !Early(r.at(n).par.phase)
    ensures Follows(c, r.at(n), r.at(m))
    ensures (forall k: nat :: n <= k < m ==> !r.ev(k).Above?) ==> r.at(m).par == r.at(n).par
    decreases m - n
  {
    hide Favourable;
    if n < m {
      GoesOn(c, r, n, m - 1);
      GoesOnce(c, r, m - 1);
    }
  }

  /** The C runner has its read end still to close. */
  predicate CanClose(c: Config, par: Parent) {
    c.style.PlainC? && PipeEnd(Out, ReadEnd) in par.table.Values
  }

  /** The parent can no longer be kept from its next step: poll is due, stdin is taken, the child has ended. */
  ghost predicate Due(c: Config, s: State) {
    && (s.par.phase.Polling? ==> s.par.phase.until.Some? && s.clock >= s.par.phase.until.value)
    && (s.par.phase.Feeding? ==> |c.stdin| <= c.capacity || StdinFree(s))
    && (s.par.phase.Waiting? ==> CHILD !in s.procs || CanClose(c, s.par))
  }

  /** What the parent waits for ends: polls do, and so does the child. */
  lemma WaitsEnd(c: Config, r: Endless, n: nat)
    requires Favourable(c, r)
    ensures var s := r.at(n);
      && (s.par.phase.Polling? ==> s.par.phase.until.Some?)
      && (s.par.phase.Waiting? && !CanClose(c, s.par) ==> LetGo(c, s))
  {
    Always(c, r, n);
    GoesOn(c, r, 0, n);
    WaitsFor(c, r.at(n));
    hide Inv, Reachable, Spent;
  }

  /** A parent that makes no step any more becomes due. */
  lemma BecomesDue(c: Config, r: Endless, n: nat) returns (d: nat)
    requires Favourable(c, r)
    ensures d >= n
    ensures StepsAfter(r, n) || Due(c, r.at(d))
  {
    var s := r.at(n);
    WaitsEnd(c, r, n);
    d := n;
    hide Favourable, StdinFree, LetGo;
    if s.par.phase.Polling? {
      d := TimeComes(c, r, n, s.par.phase.until.value);
    } else if s.par.phase.Feeding? && |c.stdin| > c.capacity {
      d := StdinComesFree(c, r, n);
    } else if s.par.phase.Waiting? && !CanClose(c, s.par) {
      d := ChildGoes(c, r, n);
    }
  }

  lemma StdinComesFree(c: Config, r: Endless, n: nat) returns (d: nat)
    requires Favourable(c, r) && r.at(n).par.phase.Feeding? && |c.stdin| > c.capacity
    ensures d >= n
    ensures StepsAfter(r, n) || (StdinFree(r.at(d)) && r.at(d).par == r.at(n).par)
  {
    hide StdinFree, GoodConfig, Reachable, FairToParent, ChildEnds, ReadsWell, TimePasses, IsEndless;
    assert TakenAfter(r, n);
    d :| d >= n && OnwardAt(r, d);
    GoesOn(c, r, 0, n);
    hide Favourable, Follows;
    GoesOn(c, r, n, d);
  }

  lemma ChildGoes(c: Config, r: Endless, n: nat) returns (d: nat)
    requires Favourable(c, r) && LetGo(c, r.at(n))
    ensures d >= n && CHILD !in r.at(d).procs
    ensures StepsAfter(r, n) || r.at(d).par == r.at(n).par
  {
    assert EndsAfter(r, n);
    d :| d >= n && CHILD !in r.at(d).procs;
    GoesOn(c, r, 0, n);
    hide Favourable, Follows, LetGo;
    GoesOn(c, r, n, d);
  }

  lemma TimeComes(c: Config, r: Endless, n: nat, t: int) returns (d: nat)
    requires Favourable(c, r)
    ensures d >= n && r.at(d).clock >= t
    ensures (forall k: nat :: n <= k < d ==> !r.ev(k).Above?) ==> r.at(d).par == r.at(n).par
  {
    assert Reaches(r, t);
    d :| r.at(d).clock >= t;
    GoesOn(c, r, 0, n);
    GoesOn(c, r, 0, d);
    if d < n {
      GoesOn(c, r, d, n);
      d := n;
    } else {
      GoesOn(c, r, n, d);
    }
  }

  lemma StdinStaysFree(c: Config, s: State, e: ProcEvent)
    requires ProcsOk(c, s) && ProcEnabled(c, s, e) && StdinFree(s)
    ensures StdinFree(ProcAfter(c, s, e))
  {
    if ProcAfter(c, s, e).Held(PipeEnd(In, ReadEnd)) {
      HeldShrinksBelow(c, s, e, PipeEnd(In, ReadEnd));
    }
    if e.WriteDone? || e.ReadDone? || e.WriteCall? {
      StreamsUsed(c, s, e.p);
    }
    hide State.Held, Rewired, Accepts;
  }

  /** Until the parent steps it stays due. */
  lemma DueOnce(c: Config, r: Endless, n: nat)
    requires Favourable(c, r) && Due(c, r.at(n)) && !r.ev(n).Above?
    ensures Due(c, r.at(n + 1))
  {
    GoesOn(c, r, 0, n);
    Always(c, r, n);
    GoesOnce(c, r, n);
    assert r.at(n + 1) == After(c, r.at(n), r.ev(n));
    hide Favourable, Reachable, BytesOk, FedOk, SourcesOk, ClockOk, StdinFree;
    if r.ev(n).Below? && StdinFree(r.at(n)) {
      StdinStaysFree(c, r.at(n), r.ev(n).proc);
    } else if r.ev(n).Tick? {
      TickFrees(r.at(n), r.at(n + 1).clock);
    }
  }

  lemma TickFrees(s: State, now: int)
    ensures StdinFree(s.(clock := now)) == StdinFree(s)
  {
    TickKeepsHeld(s, now, PipeEnd(In, ReadEnd));
  }

  lemma {:induction false} StaysDue(c: Config, r: Endless, d: nat, k: nat)
    requires Favourable(c, r) && d <= k && Due(c, r.at(d))
    requires forall i: nat :: d <= i < k ==> !r.ev(i).Above?
    ensures Due(c, r.at(k))
    decreases k - d
  {
    hide Favourable, Due;
    if d < k {
      StaysDue(c, r, d, k - 1);
      DueOnce(c, r, k - 1);
    }
  }

  /** A parent that made no step any more would be able to make one from some time on. */
  lemma AbleFromSomeTime(c: Config, r: Endless, n: nat) returns (d: nat)
    requires Favourable(c, r) && !Over(r.at(n).par.phase)
    ensures d >= n && (StepsAfter(r, n) || forall k: nat :: k >= d ==> ParentCan(c, r.at(k)))
  {
    d := BecomesDue(c, r, n);
    GoesOn(c, r, 0, n);
    hide FairToParent;
    if !StepsAfter(r, n) {
      forall k: nat | k >= d ensures ParentCan(c, r.at(k)) {
        GoesOn(c, r, n, k);
        StaysDue(c, r, d, k);
        Always(c, r, k);
        hide Inv;
        ParentReady(c, r.at(k));
      }
    }
  }

  /** So it makes a next step. */
  lemma NextStep(c: Config, r: Endless, n: nat) returns (m: nat)
    requires Favourable(c, r) && !Over(r.at(n).par.phase)
    ensures m >= n && r.ev(m).Above? && r.at(m).par == r.at(n).par
  {
    var d := AbleFromSomeTime(c, r, n);
    assert FairFrom(c, r, d);
    assert StepsAfter(r, n) || StepsAfter(r, d);
    m := FirstStep(r, n);
    GoesOn(c, r, 0, n);
    GoesOn(c, r, n, m);
  }

  lemma FirstStep(r: Endless, n: nat) returns (m: nat)
    requires StepsAfter(r, n)
    ensures m >= n && r.ev(m).Above? && forall k: nat :: n <= k < m ==> !r.ev(k).Above?
  {
    var last: nat :| last >= n && r.ev(last).Above?;
    m := n;
    while !r.ev(m).Above?
      invariant n <= m <= last && forall k: nat :: n <= k < m ==> !r.ev(k).Above?
      decreases last - m
    {
      m := m + 1;
    }
  }

  /** That step brings it nearer, if it is not into the loop, and not within the time the loop is given. */
  lemma StepBringsNearer(c: Config, r: Endless, m: nat)
    requires Favourable(c, r) && r.ev(m).Above? && !r.ev(m).step.Collect?
    requires Collecting(r.at(m).par.phase) ==> r.at(m).clock >= r.at(m).par.col.deadline
    ensures Nearer(c, r.at(m).par, r.at(m + 1).par)
  {
    Always(c, r, m);
    GoesOn(c, r, 0, m);
    var s, e := r.at(m), r.ev(m).step;
    assert ParentEnabled(c, s, e) && r.at(m + 1) == ParentAfter(c, s, e);
    hide Favourable, Nearer, TablesOk, BytesOk, FedOk, ClockOk, SourcesOk, Reachable;
    if Opens(e) {
      OpeningDescends(c, s, e);
    } else if e.Drain? {
      DrainDescends(c, s, e.k);
    } else {
      LoopSteps(c, s, e);
      LoopDescends(c, s, e);
    }
  }

  /** The parent gets through with feeding. */
  lemma {:induction false} ReachesLoop(c: Config, r: Endless, n: nat) returns (m: nat)
    requires Favourable(c, r)
    ensures m >= n && Collecting(r.at(m).par.phase)
    decreases Rank(c, r.at(n).par), Left(r.at(n).par)
  {
    hide Favourable, Rank, Left, Follows;
    m := n;
    if !Collecting(r.at(n).par.phase) {
      NotOver(c, r, n);
      m := NextStep(c, r, n);
      if r.ev(m).step.Collect? {
        CollectBegins(c, r, m);
        m := m + 1;
      } else {
        StepBringsNearer(c, r, m);
        m := ReachesLoop(c, r, m + 1);
      }
    }
  }

  lemma NotOver(c: Config, r: Endless, n: nat)
    requires Favourable(c, r)
    ensures !Early(r.at(n).par.phase)
    ensures !r.at(n).par.phase.Done? ==> !Over(r.at(n).par.phase)
  {
    GoesOn(c, r, 0, n);
  }

  lemma CollectBegins(c: Config, r: Endless, m: nat)
    requires Favourable(c, r) && r.ev(m) == Above(Collect)
    ensures Collecting(r.at(m + 1).par.phase)
  {
    assert GoesTo(c, r.at(m), r.ev(m), r.at(m + 1));
  }

  /** Once the deadline has passed it gets through with the loop, and with what follows. */
  lemma {:induction false} ReachesEnd(c: Config, r: Endless, n: nat) returns (m: nat)
    requires Favourable(c, r) && Collecting(r.at(n).par.phase) && r.at(n).clock >= r.at(n).par.col.deadline
    ensures m >= n && r.at(m).par.phase.Done?
    decreases Rank(c, r.at(n).par), Left(r.at(n).par)
  {
    hide Favourable, Rank, Left;
    m := n;
    if !r.at(n).par.phase.Done? {
      NotOver(c, r, n);
      m := NextStep(c, r, n);
      GoesOn(c, r, n, m);
      GoesOn(c, r, n, m + 1);
      NotAgain(c, r, m);
      StepBringsNearer(c, r, m);
      m := ReachesEnd(c, r, m + 1);
    }
  }

  lemma NotAgain(c: Config, r: Endless, m: nat)
    requires Favourable(c, r) && Collecting(r.at(m).par.phase) && r.ev(m).Above?
    ensures !r.ev(m).step.Collect?
  {
    assert GoesTo(c, r.at(m), r.ev(m), r.at(m + 1));
  }

  /**
    A runner is sure to finish, if its stdin data fits a pipe or is taken out of it, a C++ timeout
    fits an int, no read of the C++ runner fails, and its child ends when it is waited for after it
    was killed, or with nothing left to come out of its outputs, or with nobody to read it. Signals
    may interrupt whatever they like, and the child do as it likes, writing for ever included.
   */
  lemma SureToFinish(c: Config, r: Endless)
    requires Favourable(c, r)
    ensures exists n: nat :: r.at(n).par.phase.Done?
  {
    var n := ReachesLoop(c, r, 0);
    assert Reaches(r, r.at(n).par.col.deadline);
    var d: nat :| r.at(d).clock >= r.at(n).par.col.deadline;
    var k := if d < n then n else d;
    GoesOn(c, r, 0, n);
    GoesOn(c, r, 0, d);
    GoesOn(c, r, n, k);
    GoesOn(c, r, d, k);
    var m := ReachesEnd(c, r, k);
  }
}
