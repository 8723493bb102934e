/** There are runs such as `Finish` speaks of: the child ends, the parent finishes, and time goes on. */
module FairRuns {
  import opened Wiring
  import opened Protocol
  import opened Progress
  import opened Waits
  import opened Finish

  /** A run goes through its events, and after them time passes. */
  ghost function Walk(c: Config, s: State, es: seq<Event>, n: nat): State
    decreases n
  {
    if n > 0 && es != [] && Enabled(c, s, es[0]) then Walk(c, After(c, s, es[0]), es[1..], n - 1)
    else Later(s, n)
  }

  function EventAt(es: seq<Event>, n: nat): Event {
    if n < |es| then es[n] else Tick(1)
  }

  lemma {:induction false} WalkGoesOn(c: Config, s: State, es: seq<Event>, n: nat)
    requires IsRun(c, s, es)
    ensures GoesTo(c, Walk(c, s, es, n), EventAt(es, n), Walk(c, s, es, n + 1))
    decreases n
  {
    if es != [] {
      if n > 0 {
        WalkGoesOn(c, After(c, s, es[0]), es[1..], n - 1);
      }
      hide Enabled, After;
      assert Walk(c, s, es, 0) == s;
      assert Walk(c, s, es, 1) == Walk(c, After(c, s, es[0]), es[1..], 0);
    }
  }

  lemma {:induction false} WalkEnds(c: Config, s: State, es: seq<Event>, n: nat)
    requires IsRun(c, s, es) && n >= |es|
    ensures Walk(c, s, es, n) == Later(Final(c, s, es), n - |es|)
    decreases |es|
  {
    if es != [] {
      WalkEnds(c, After(c, s, es[0]), es[1..], n - 1);
    }
  }

  ghost function Forever(c: Config, s: State, es: seq<Event>): Endless {
    Endless((n: nat) => Walk(c, s, es, n), (n: nat) => EventAt(es, n))
  }

  /** Nothing is left of the run: the parent is done, and so is everybody else. */
  ghost predicate AllOver(s: State) {
    s.par.phase.Done? && s.procs == map[] && NoEnds(s.par.table)
  }

  lemma OverIsOver(c: Config, s: State, ns: nat)
    requires AllOver(s)
    ensures !ParentCan(c, Later(s, ns)) && StdinFree(Later(s, ns)) && CHILD !in Later(s, ns).procs
  {
    assert !Later(s, ns).Held(PipeEnd(In, ReadEnd));
  }

  lemma LongAfter(c: Config, s: State, es: seq<Event>, m: nat)
    requires IsRun(c, s, es) && AllOver(Final(c, s, es)) && m >= |es|
    ensures var now := Forever(c, s, es).at(m);
      && !ParentCan(c, now) && StdinFree(now) && CHILD !in now.procs && now.clock == Final(c, s, es).clock + m - |es|
  {
    WalkEnds(c, s, es, m);
    OverIsOver(c, Final(c, s, es), m - |es|);
  }

  lemma InTheEnd(c: Config, s: State, es: seq<Event>, n: nat)
    requires IsRun(c, s, es) && AllOver(Final(c, s, es))
    ensures var r := Forever(c, s, es);
      && EndsAfter(r, n) && TakenAfter(r, n) && FairFrom(c, r, n)
  {
    var r := Forever(c, s, es);
    var m := n + |es|;
    LongAfter(c, s, es, m);
    hide ParentCan, StdinFree, Walk, AllOver, IsRun;
    assert OnwardAt(r, m) && CHILD !in r.at(m).procs && !ParentCan(c, r.at(m));
  }

  lemma TimeGoesOn(c: Config, s: State, es: seq<Event>, t: int)
    requires IsRun(c, s, es) && AllOver(Final(c, s, es))
    ensures Reaches(Forever(c, s, es), t)
  {
    var last := Final(c, s, es).clock;
    var m := |es| + if t > last then t - last else 0;
    LongAfter(c, s, es, m);
    assert Forever(c, s, es).at(m).clock >= t;
  }

  lemma HasNoEnd(c: Config, s: State, es: seq<Event>)
    requires IsRun(c, s, es)
    ensures IsEndless(c, Forever(c, s, es))
  {
    var r := Forever(c, s, es);
    forall n: nat ensures GoesTo(c, r.at(n), r.ev(n), r.at(n + 1)) {
      WalkGoesOn(c, s, es, n);
    }
    hide GoesTo, Walk, IsRun, EventAt;
  }

  lemma GoesOnForEver(c: Config, s: State, es: seq<Event>)
    requires IsRun(c, s, es) && AllOver(Final(c, s, es))
    ensures TimePasses(Forever(c, s, es))
  {
    forall t: int ensures Reaches(Forever(c, s, es), t) {
      TimeGoesOn(c, s, es, t);
    }
  }

  lemma IsFair(c: Config, s: State, es: seq<Event>)
    requires IsRun(c, s, es) && AllOver(Final(c, s, es))
    ensures var r := Forever(c, s, es); FairToParent(c, r) && ChildEnds(c, r) && StdinTaken(r)
  {
    var r := Forever(c, s, es);
    forall n: nat ensures FairFrom(c, r, n) {
      InTheEnd(c, s, es, n);
    }
    forall n: nat ensures EndsAfter(r, n) {
      InTheEnd(c, s, es, n);
    }
    forall n: nat ensures TakenAfter(r, n) {
      InTheEnd(c, s, es, n);
    }
    hide FairFrom, EndsAfter, TakenAfter, LetGo;
  }

  lemma FinishedRunIsFavourable(c: Config, s: State, es: seq<Event>)
    requires GoodConfig(c) && (c.style.Cpp? ==> c.timeoutMs <= INT_MAX)
    requires Reachable(c, s) && !Early(s.par.phase) && !Abandoned(c, s)
    requires IsRun(c, s, es) && AllOver(Final(c, s, es)) && forall i :: 0 <= i < |es| ==> !Spoils(c, es[i])
    ensures Favourable(c, Forever(c, s, es))
  {
    var r := Forever(c, s, es);
    assert r.at(0) == s by { assert Later(s, 0) == s; }
    hide Reachable, GoodConfig, IsRun, AllOver, IsEndless, TimePasses, FairToParent, ChildEnds, StdinTaken, Walk;
    assert ReadsWell(c, r);
    hide Forever, ReadsWell;
    HasNoEnd(c, s, es);
    GoesOnForEver(c, s, es);
    IsFair(c, s, es);
  }

  /** The parent closes what it has left, and is done. */
  lemma {:induction false} LeavingRun(c: Config, s: State) returns (es: seq<Event>)
    requires s.par.phase.Leaving? && s.procs == map[]
    ensures IsRun(c, s, es) && AllOver(Final(c, s, es)) && forall i :: 0 <= i < |es| ==> !Spoils(c, es[i])
    decreases |s.par.table|
  {
    var t := s.par.table;
    if fd: nat :| fd in t && t[fd].PipeEnd? {
      var e := Above(ParentClose(fd));
      var s1 := After(c, s, e);
      assert s1 == s.(par := s.par.(table := t - {fd})) && (t - {fd}).Keys == t.Keys - {fd};
      es := LeavingRun(c, s1);
      Prepend(c, s, e, es);
      es := [e] + es;
    } else {
      assert Enabled(c, s, Above(Leave));
      Prepend(c, s, Above(Leave), []);
      es := [Above(Leave)] + [];
    }
  }

  lemma Prepend(c: Config, s: State, e: Event, es: seq<Event>)
    requires Enabled(c, s, e) && IsRun(c, After(c, s, e), es)
    ensures IsRun(c, s, [e] + es) && Final(c, s, [e] + es) == Final(c, After(c, s, e), es)
  {
    assert ([e] + es)[1..] == es;
  }

  /**
    For every configuration there is such a run, whatever the stdin data; here it begins in waitpid,
    with a child that is free to end.
   */
  lemma FavourableRun(c: Config) returns (r: Endless)
    requires GoodConfig(c) && (c.style.Cpp? ==> c.timeoutMs <= INT_MAX)
    ensures Favourable(c, r) && InWaitpid(c, r.at(0)) && IsFree(r.at(0), CHILD)
  {
    var s := WaitpidIsReachable(c);
    hide Reachable, Favourable;
    var s1 := After(c, s, Below(Exit(CHILD)));
    EndedChildIsReaped(c, s1);
    var s2 := After(c, s1, Above(Reap));
    var es := LeavingRun(c, s2);
    Prepend(c, s1, Above(Reap), es);
    es := [Above(Reap)] + es;
    Prepend(c, s, Below(Exit(CHILD)), es);
    es := [Below(Exit(CHILD))] + es;
    FinishedRunIsFavourable(c, s, es);
    r := Forever(c, s, es);
    assert Later(s, 0) == s;
  }
}
