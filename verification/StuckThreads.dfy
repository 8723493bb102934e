/** ftl/thread/thread_count.hpp, `StuckThreadGuard`, in the build that has pthread_timedjoin_np. */
module StuckThreads {
  import opened Clocks

  type Handle = nat

  datatype Watched = Watched(handle: Handle, name: string)

  /** What pthread_timedjoin_np returns: 0, ETIMEDOUT, or one of ESRCH and EINVAL. */
  datatype Rc = Zero | Timeout | Refused

  /**
    One call of pthread_timedjoin_np: when it began, what it returned, how the thread was then, and
    whether the call had to sleep for it.
   */
  datatype Probe = Probe(handle: Handle, at: int, rc: Rc, finished: bool, slept: bool)

  /** The nanoseconds of a timespec. */
  function Nanos(spec: Timespec): int {
    spec.sec * NS_PER_S + spec.nsec
  }

  /**
    The threads of the process, the monotone clock, and how far the clock of the day is ahead of it.
    A finished thread stays finished.
   */
  class Threads {
    var now: int
    const ahead: int
    var finished: set<Handle>
    var joinable: set<Handle>
    /** Every probe made so far, and every thread joined so far. */
    var probes: seq<Probe>
    var joined: seq<Handle>
    /** What steady_clock::now() has returned so far. */
    var readings: seq<int>

    constructor (now: int, ahead: int, joinable: set<Handle>)
      ensures this.now == now && this.ahead == ahead && this.joinable == joinable
      ensures finished == {} && probes == [] && joined == [] && readings == []
    {
      this.now, this.ahead, this.joinable, finished, probes, joined := now, ahead, joinable, {}, [], [];
      readings := [];
    }

    function Last(): Probe
      requires probes != []
      reads this
    {
      probes[|probes| - 1]
    }

    /** Time passes, and threads may finish in it. */
    method Pass()
      modifies this`now, this`finished
      ensures now > old(now) && old(finished) <= finished
    {
      var ns: int := *;
      now := now + if ns > 0 then ns else 1;
      var more: set<Handle> := *;
      finished := finished + more;
    }

    /** steady_clock::now() */
    method Now() returns (t: int)
      modifies this`now, this`finished, this`readings
      ensures t == now && now > old(now) && old(finished) <= finished && readings == old(readings) + [t]
    {
      Pass();
      t := now;
      readings := readings + [t];
    }

    /**
      pthread_timedjoin_np. It refuses a handle that is not joinable and a timespec out of range, and
      joins a thread that has finished. Otherwise it sleeps until the thread does, or until the clock
      of the day shows the time in `spec`; if it shows that time already there is nothing to sleep for.
     */
    method TimedJoin(h: Handle, spec: Timespec) returns (rc: Rc)
      modifies this
      ensures now > old(now) && old(finished) <= finished && readings == old(readings)
      ensures probes != [] && probes == old(probes) + [Last()]
      ensures Last() == Probe(h, old(now), rc, h in finished, Last().slept)
      ensures Last().slept ==> old(now) + ahead < Nanos(spec)
      ensures rc.Refused? <==> h !in old(joinable) || !(0 <= spec.nsec < NS_PER_S)
      ensures rc.Zero? ==> h in finished && joined == old(joined) + [h] && joinable == old(joinable) - {h}
      ensures !rc.Zero? ==> joined == old(joined) && joinable == old(joinable)
      ensures rc.Timeout? ==> h !in finished && now + ahead >= Nanos(spec)
    {
      var at := now;
      var slept := h in joinable && 0 <= spec.nsec < NS_PER_S && h !in finished && now + ahead < Nanos(spec);
      Pass();
      if h !in joinable || !(0 <= spec.nsec < NS_PER_S) {
        rc := Refused;
      } else if h in finished {
        rc := Zero;
        joined := joined + [h];
        joinable := joinable - {h};
      } else {
        rc := Timeout;
        if now + ahead < Nanos(spec) {
          now := Nanos(spec) - ahead;
        }
      }
      probes := probes + [Probe(h, at, rc, h in finished, slept)];
    }
  }

  /** timespec_from: the time left until `deadline`, none if it has passed. */
  method TimespecFrom(w: Threads, deadline: int) returns (spec: Timespec)
    modifies w`now, w`finished, w`readings
    ensures w.now > old(w.now) && old(w.finished) <= w.finished && old(w.readings) <= w.readings
    ensures 0 <= spec.nsec < NS_PER_S && 0 <= spec.sec
    ensures Nanos(spec) == if deadline > w.now then deadline - w.now else 0
  {
    var t := w.Now();
    var remaining := deadline - t;
    if remaining < 0 {
      remaining := 0;
    }
    spec := Timespec(remaining / NS_PER_S, 0);
    spec := spec.(nsec := remaining - spec.sec * NS_PER_S);
  }

  /** What became of a watched thread: joined here, not joinable when its turn came, or stuck. */
  datatype Outcome = Joined | Gone | Stuck

  /**
    The probes of one thread: all but the last found it running with time left, and the last
    decided. A stuck thread was still running then.
   */
  ghost predicate ProbesOf(ps: seq<Probe>, h: Handle, deadline: int, outcome: Outcome) {
    && |ps| >= 1
    && (forall i :: 0 <= i < |ps| ==> ps[i].handle == h)
    && (forall i :: 0 <= i < |ps| - 1 ==> ps[i].rc.Timeout? && !ps[i].finished && ps[i].at < deadline)
    && var last := ps[|ps| - 1];
       match outcome
       case Joined => last.rc.Zero? && last.finished
       case Gone => last.rc.Refused? && |ps| == 1
       case Stuck => last.rc.Timeout? && !last.finished
  }

  /** No call slept. */
  ghost predicate Busy(ps: seq<Probe>) {
    forall i :: 0 <= i < |ps| ==> !ps[i].slept
  }

  /**
    thread_finished. What it hands to pthread_timedjoin_np is the time that is left, where a time of
    the day is meant: once the clock of the day shows more than what is left, no probe ever sleeps.
   */
  method ThreadFinished(w: Threads, h: Handle, deadline: int)
    returns (done: bool, ghost outcome: Outcome, ghost ps: seq<Probe>)
    modifies w
    ensures w.now > old(w.now) && old(w.finished) <= w.finished && old(w.readings) <= w.readings
    ensures done <==> !outcome.Stuck?
    ensures w.probes == old(w.probes) + ps && ProbesOf(ps, h, deadline, outcome)
    ensures old(w.now) >= deadline ==> |ps| == 1
    ensures outcome.Gone? <==> h !in old(w.joinable)
    ensures outcome.Joined? ==> w.joined == old(w.joined) + [h] && w.joinable == old(w.joinable) - {h}
    ensures !outcome.Joined? ==> w.joined == old(w.joined) && w.joinable == old(w.joinable)
    ensures outcome.Stuck? ==> w.now >= deadline
    ensures old(w.now) + w.ahead >= deadline - old(w.now) && old(w.now) + w.ahead >= 0 ==> Busy(ps)
  {
    ps := [];
    while true
      invariant w.now >= old(w.now) && old(w.finished) <= w.finished && old(w.readings) <= w.readings
      invariant w.probes == old(w.probes) + ps
      invariant w.joined == old(w.joined) && w.joinable == old(w.joinable)
      invariant forall i :: 0 <= i < |ps| ==>
                  ps[i].handle == h && ps[i].rc.Timeout? && !ps[i].finished && ps[i].at < deadline
      invariant ps != [] ==> w.now < deadline && h in w.joinable
      invariant old(w.now) + w.ahead >= deadline - old(w.now) && old(w.now) + w.ahead >= 0 ==> Busy(ps)
      decreases deadline - w.now
    {
      var spec := TimespecFrom(w, deadline);
      var rc := w.TimedJoin(h, spec);
      ps := ps + [w.Last()];
      if rc.Zero? {
        return true, Joined, ps;
      }
      if rc.Refused? {
        return true, Gone, ps;
      }
      var t := w.Now();
      if t >= deadline {
        return false, Stuck, ps;
      }
    }
  }

  /** The guard's dealings with one watched thread. */
  datatype Turn = Turn(thread: Watched, outcome: Outcome, probes: seq<Probe>)

  /** The names of the threads that did not finish, in watch order. */
  function Named(turns: seq<Turn>): seq<string> {
    if turns == [] then []
    else
      var last := turns[|turns| - 1];
      Named(turns[..|turns| - 1]) + (if last.outcome.Stuck? then [last.thread.name] else [])
  }

  /** The handles of those the guard joined, in watch order. */
  function Reaped(turns: seq<Turn>): seq<Handle> {
    if turns == [] then []
    else
      var last := turns[|turns| - 1];
      Reaped(turns[..|turns| - 1]) + (if last.outcome.Joined? then [last.thread.handle] else [])
  }

  function Probed(turns: seq<Turn>): seq<Probe> {
    if turns == [] then [] else Probed(turns[..|turns| - 1]) + turns[|turns| - 1].probes
  }

  ghost function Elements(hs: seq<Handle>): set<Handle> {
    set h | h in hs
  }

  /** Each watched thread had its turn, in watch order. */
  ghost predicate InOrder(turns: seq<Turn>, watched: seq<Watched>) {
    && |turns| == |watched|
    && forall i :: 0 <= i < |turns| ==> turns[i].thread == watched[i]
  }

  /** A thread is found gone exactly when it never was joinable or an earlier turn joined it. */
  ghost predicate GoneRightly(turns: seq<Turn>, joinable: set<Handle>) {
    forall i :: 0 <= i < |turns| ==>
      (turns[i].outcome.Gone? <==> turns[i].thread.handle !in joinable - Elements(Reaped(turns[..i])))
  }

  /**
    Every thread was probed, the stuck ones in vain; and once one thread has used the time up,
    each of those after it gets one probe.
   */
  ghost predicate OnSchedule(turns: seq<Turn>, deadline: int) {
    && (forall i :: 0 <= i < |turns| ==> ProbesOf(turns[i].probes, turns[i].thread.handle, deadline, turns[i].outcome))
    && (forall i, j :: 0 <= i < j < |turns| && turns[i].outcome.Stuck? ==> |turns[j].probes| == 1)
  }

  ghost predicate Distinct(turns: seq<Turn>) {
    forall i, j :: 0 <= i < j < |turns| ==> turns[i].thread.handle != turns[j].thread.handle
  }

  class StuckThreadGuard {
    var watched: seq<Watched>

    constructor ()
      ensures watched == []
    {
      watched := [];
    }

    method Watch(handle: Handle, name: string)
      modifies this
      ensures watched == old(watched) + [Watched(handle, name)]
    {
      watched := watched + [Watched(handle, name)];
    }

    /**
      require_all_finished; it throws, naming `stuck`, iff that is not empty. `turns` says what
      became of each thread and how it was probed.
     */
    method RequireAllFinished(w: Threads, timeoutMs: int)
      returns (stuck: seq<string>, ghost turns: seq<Turn>, ghost deadline: int)
      modifies w
      ensures InOrder(turns, watched)
      ensures |w.readings| > |old(w.readings)| && deadline == w.readings[|old(w.readings)|] + timeoutMs * NS_PER_MS
      ensures stuck == Named(turns)
      ensures w.joined == old(w.joined) + Reaped(turns)
      ensures w.joinable == old(w.joinable) - Elements(Reaped(turns))
      ensures GoneRightly(turns, old(w.joinable))
      ensures w.probes == old(w.probes) + Probed(turns) && OnSchedule(turns, deadline)
      ensures stuck != [] ==> w.now >= deadline
      ensures old(w.now) + w.ahead >= timeoutMs * NS_PER_MS && old(w.now) + w.ahead >= 0 ==> Busy(Probed(turns))
    {
      var t := w.Now();
      var timeout := timeoutMs * NS_PER_MS;
      var until := t + timeout;
      deadline, stuck, turns := until, [], [];
      Start(watched, old(w.joinable), until);
      hide ProbesOf, Busy, InOrder, OnSchedule, GoneRightly, Named, Reaped, Probed, Elements;
      for i := 0 to |watched|
        invariant w.now >= t && old(w.readings) + [t] <= w.readings
        invariant InOrder(turns, watched[..i])
        invariant stuck == Named(turns)
        invariant w.joined == old(w.joined) + Reaped(turns)
        invariant w.joinable == old(w.joinable) - Elements(Reaped(turns))
        invariant GoneRightly(turns, old(w.joinable))
        invariant w.probes == old(w.probes) + Probed(turns) && OnSchedule(turns, until)
        invariant stuck != [] ==> w.now >= until
        invariant t + w.ahead >= timeout && t + w.ahead >= 0 ==> Busy(Probed(turns))
      {
        var finished, outcome, ps := ThreadFinished(w, watched[i].handle, until);
        ghost var turn := Turn(watched[i], outcome, ps);
        Totals(turns, turn, old(w.probes), old(w.joined), old(w.joinable));
        if t + w.ahead >= timeout && t + w.ahead >= 0 {
          KeepsBusy(turns, turn);
        }
        KeepsOrder(turns, turn, watched, i);
        KeepsGone(turns, turn, old(w.joinable));
        KeepsSchedule(turns, turn, until);
        turns := turns + [turn];
        if !finished {
          stuck := stuck + [watched[i].name];
        }
      }
      assert watched[..|watched|] == watched;
    }
  }

  /** No thread yet. */
  lemma Start(watched: seq<Watched>, joinable: set<Handle>, deadline: int)
    ensures InOrder([], watched[..0]) && GoneRightly([], joinable) && OnSchedule([], deadline)
    ensures Named([]) == [] && Reaped([]) == [] && Probed([]) == [] && Elements([]) == {} && Busy([])
  {}

  lemma KeepsBusy(turns: seq<Turn>, turn: Turn)
    requires Busy(Probed(turns)) && Busy(turn.probes)
    ensures Busy(Probed(turns + [turn]))
  {
    assert (turns + [turn])[..|turns|] == turns;
  }

  lemma KeepsOrder(turns: seq<Turn>, turn: Turn, watched: seq<Watched>, i: nat)
    requires i < |watched| && InOrder(turns, watched[..i]) && turn.thread == watched[i]
    ensures InOrder(turns + [turn], watched[..i + 1])
  {}

  lemma Totals(turns: seq<Turn>, turn: Turn, probes: seq<Probe>, joined: seq<Handle>, joinable: set<Handle>)
    ensures Named(turns + [turn]) == Named(turns) + (if turn.outcome.Stuck? then [turn.thread.name] else [])
    ensures probes + Probed(turns + [turn]) == probes + Probed(turns) + turn.probes
    ensures joined + Reaped(turns + [turn])
         == joined + Reaped(turns) + (if turn.outcome.Joined? then [turn.thread.handle] else [])
    ensures joinable - Elements(Reaped(turns + [turn]))
         == joinable - Elements(Reaped(turns)) - (if turn.outcome.Joined? then {turn.thread.handle} else {})
  {
    assert (turns + [turn])[..|turns|] == turns;
  }

  lemma KeepsGone(turns: seq<Turn>, turn: Turn, joinable: set<Handle>)
    requires GoneRightly(turns, joinable)
    requires turn.outcome.Gone? <==> turn.thread.handle !in joinable - Elements(Reaped(turns))
    ensures GoneRightly(turns + [turn], joinable)
  {
    var more := turns + [turn];
    assert forall k :: 0 <= k <= |turns| ==> more[..k] == turns[..k];
    assert turns[..|turns|] == turns;
  }

  lemma KeepsSchedule(turns: seq<Turn>, turn: Turn, deadline: int)
    requires OnSchedule(turns, deadline)
    requires ProbesOf(turn.probes, turn.thread.handle, deadline, turn.outcome)
    requires Named(turns) != [] ==> |turn.probes| == 1
    ensures OnSchedule(turns + [turn], deadline)
  {
    NobodyNamed(turns);
  }

  /** Names come in watch order: those of the earlier turns first. So do the joined handles and the probes. */
  lemma {:induction false} NamedInWatchOrder(first: seq<Turn>, rest: seq<Turn>)
    ensures Named(first + rest) == Named(first) + Named(rest)
    decreases |rest|
  {
    if rest == [] {
      assert first + rest == first;
    } else {
      var most := rest[..|rest| - 1];
      NamedInWatchOrder(first, most);
      assert (first + rest)[..|first + rest| - 1] == first + most;
    }
  }

  lemma {:induction false} JoinedInWatchOrder(first: seq<Turn>, rest: seq<Turn>)
    ensures Reaped(first + rest) == Reaped(first) + Reaped(rest)
    decreases |rest|
  {
    if rest == [] {
      assert first + rest == first;
    } else {
      var most := rest[..|rest| - 1];
      JoinedInWatchOrder(first, most);
      assert (first + rest)[..|first + rest| - 1] == first + most;
    }
  }

  lemma {:induction false} ProbedInWatchOrder(first: seq<Turn>, rest: seq<Turn>)
    ensures Probed(first + rest) == Probed(first) + Probed(rest)
    decreases |rest|
  {
    if rest == [] {
      assert first + rest == first;
    } else {
      var most := rest[..|rest| - 1];
      ProbedInWatchOrder(first, most);
      assert (first + rest)[..|first + rest| - 1] == first + most;
    }
  }

  /** The names are those of the stuck threads: none exactly when none is stuck. */
  lemma {:induction false} NobodyNamed(turns: seq<Turn>)
    ensures Named(turns) == [] <==> forall i :: 0 <= i < |turns| ==> !turns[i].outcome.Stuck?
    ensures forall s :: s in Named(turns) <==>
              exists i :: 0 <= i < |turns| && turns[i].outcome.Stuck? && turns[i].thread.name == s
  {
    if turns != [] {
      var last := |turns| - 1;
      NobodyNamed(turns[..last]);
      assert forall i :: 0 <= i < last ==> turns[..last][i] == turns[i];
    }
  }

  /** The threads joined are those of the turns that joined. */
  lemma {:induction false} ReapedAre(turns: seq<Turn>)
    ensures forall h :: h in Reaped(turns) <==>
              exists i :: 0 <= i < |turns| && turns[i].outcome.Joined? && turns[i].thread.handle == h
  {
    if turns != [] {
      var last := |turns| - 1;
      ReapedAre(turns[..last]);
      assert forall i :: 0 <= i < last ==> turns[..last][i] == turns[i];
    }
  }

  /** No distinct joinable thread is taken for gone. */
  lemma NoneGone(turns: seq<Turn>, joinable: set<Handle>)
    requires Distinct(turns) && GoneRightly(turns, joinable)
    requires forall i :: 0 <= i < |turns| ==> turns[i].thread.handle in joinable
    ensures forall i :: 0 <= i < |turns| ==> !turns[i].outcome.Gone?
  {
    forall i | 0 <= i < |turns| ensures !turns[i].outcome.Gone? {
      ReapedAre(turns[..i]);
      assert turns[i].thread.handle !in Reaped(turns[..i]);
    }
  }

  /** So the watched threads split exactly into those joined, once each, and those named. */
  lemma {:induction false} Partition(turns: seq<Turn>)
    requires Distinct(turns)
    requires forall i :: 0 <= i < |turns| ==> !turns[i].outcome.Gone?
    ensures |Named(turns)| + |Reaped(turns)| == |turns|
    ensures var hs := Reaped(turns); forall i, j :: 0 <= i < j < |hs| ==> hs[i] != hs[j]
  {
    if turns != [] {
      var last := |turns| - 1;
      Partition(turns[..last]);
      ReapedAre(turns[..last]);
      assert turns[last].thread.handle !in Reaped(turns[..last]);
    }
  }
}
