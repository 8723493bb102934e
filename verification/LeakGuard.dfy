/**
  ftest/fdtrack.hpp, `FdLeakGuard`, and ftl/core/fd.hpp, `fd_snapshot`: a descriptor count whose
  own directory descriptor is part of what it counts.
 */
module LeakGuards {
  import opened Descriptors

  /** What readdir yields for /proc/self/fd: "." and "..", which are no numbers, and the numbers. */
  datatype Entry = Dots | Number(fd: nat)

  /** A directory listing names each open descriptor once, in no particular order. */
  ghost predicate Lists(listing: seq<Entry>, open: set<nat>) {
    && (forall fd: nat :: fd in open <==> Number(fd) in listing)
    && (forall i, j :: 0 <= i < j < |listing| && listing[i].Number? ==> listing[i] != listing[j])
  }

  ghost predicate Increasing(s: seq<int>) {
    forall i, j :: 0 <= i < j < |s| ==> s[i] < s[j]
  }

  function Members(s: seq<int>): set<int> {
    set x | x in s
  }

  /** std::sort, on numbers that differ. */
  method SortDistinct(s: seq<int>) returns (r: seq<int>)
    requires forall i, j :: 0 <= i < j < |s| ==> s[i] != s[j]
    ensures Increasing(r) && Members(r) == Members(s)
  {
    r := [];
    for n := 0 to |s|
      invariant Increasing(r) && forall x :: x in r <==> x in s[..n]
    {
      var k := 0;
      while k < |r| && r[k] < s[n]
        invariant k <= |r| && forall i :: 0 <= i < k ==> r[i] < s[n]
      {
        k := k + 1;
      }
      assert s[n] !in s[..n] && (k < |r| ==> r[k] in r);
      assert s[..n + 1] == s[..n] + [s[n]];
      assert r == r[..k] + r[k..];
      r := r[..k] + [s[n]] + r[k..];
    }
    assert s[..|s|] == s;
    assert forall x :: x in Members(r) <==> x in Members(s);
  }

  /** std::binary_search. */
  method BinarySearch(s: seq<int>, x: int) returns (found: bool)
    requires Increasing(s)
    ensures found <==> x in s
  {
    var lo, hi := 0, |s|;
    while lo < hi
      invariant 0 <= lo <= hi <= |s|
      invariant forall i :: 0 <= i < |s| && !(lo <= i < hi) ==> s[i] != x
    {
      var mid := (lo + hi) / 2;
      if s[mid] < x {
        lo := mid + 1;
      } else if s[mid] > x {
        hi := mid;
      } else {
        return true;
      }
    }
    return false;
  }

  /** What a snapshot reports when the directory could be opened: the descriptors and its own. */
  function Snapshot(open: set<nat>): set<int> {
    set fd: nat | fd in open + {LowestFree(open)} :: fd as int
  }

  /**
    fd_snapshot. `dirOpens` says whether open(2) and fdopendir(3) succeed, `listing` is what
    readdir(3) yields while the directory is open.
   */
  method FdSnapshot<H>(os: Os<H>, dir: H, dirOpens: bool, listing: seq<Entry>) returns (fds: seq<int>)
    requires dirOpens ==> Lists(listing, os.files.table.Keys + {LowestFree(os.files.table.Keys)})
    modifies os
    ensures os.files.table == old(os.files.table) && os.files.faults == old(os.files.faults)
    ensures Increasing(fds)
    ensures Members(fds) == if dirOpens then Snapshot(old(os.files.table.Keys)) else {}
  {
    if !dirOpens {
      return [];
    }
    var dirFd := os.Open(dir);
    fds := [];
    for i := 0 to |listing|
      invariant os.files == old(os.files).Opened(dir)
      invariant forall x: int :: x in fds <==> x >= 0 && Number(x) in listing[..i]
      invariant forall a, b :: 0 <= a < b < |fds| ==> fds[a] != fds[b]
    {
      if listing[i].Number? {
        assert listing[i] !in listing[..i];
        fds := fds + [listing[i].fd];
      }
    }
    os.Close(dirFd);
    assert listing[..|listing|] == listing;
    ghost var open := old(os.files.table.Keys);
    ghost var shown := open + {LowestFree(open)};
    forall x: int ensures x in fds <==> x >= 0 && x in shown {
      if x >= 0 {
        assert Number(x) in listing <==> x in shown;
      }
    }
    assert Members(fds) == Snapshot(open);
    fds := SortDistinct(fds);
  }

  /** A snapshot, empty if the directory could not be opened. */
  function Taken(open: set<nat>, opens: bool): set<int> {
    if opens then Snapshot(open) else {}
  }

  /**
    The numbers require_clean names in its message: `before` was open when the guard was made,
    `after` is now, and `ok0` and `ok1` say whether the directory could be opened then and now.
   */
  function Reported(before: set<nat>, ok0: bool, after: set<nat>, ok1: bool): set<int> {
    Taken(after, ok1) - Taken(before, ok0)
  }

  class FdLeakGuard {
    var baseline: seq<int>

    constructor <H>(os: Os<H>, dir: H, dirOpens: bool, listing: seq<Entry>)
      requires dirOpens ==> Lists(listing, os.files.table.Keys + {LowestFree(os.files.table.Keys)})
      modifies os
      ensures os.files.table == old(os.files.table) && os.files.faults == old(os.files.faults)
      ensures Valid()
      ensures Members(baseline) == Taken(old(os.files.table.Keys), dirOpens)
    {
      var fds := FdSnapshot(os, dir, dirOpens, listing);
      baseline := fds;
    }

    ghost predicate Valid()
      reads this
    {
      Increasing(baseline)
    }

    /** require_clean; it throws, naming `leaked`, iff that is not empty. */
    method RequireClean<H>(os: Os<H>, dir: H, dirOpens: bool, listing: seq<Entry>) returns (leaked: seq<int>)
      requires Valid()
      requires dirOpens ==> Lists(listing, os.files.table.Keys + {LowestFree(os.files.table.Keys)})
      modifies os
      ensures os.files.table == old(os.files.table) && os.files.faults == old(os.files.faults)
      ensures Increasing(leaked)
      ensures Members(leaked) == Taken(old(os.files.table.Keys), dirOpens) - Members(baseline)
    {
      var now := FdSnapshot(os, dir, dirOpens, listing);
      leaked := [];
      for i := 0 to |now|
        invariant os.files.table == old(os.files.table) && os.files.faults == old(os.files.faults)
        invariant forall x :: x in leaked <==> x in now[..i] && x !in baseline
        invariant Increasing(leaked)
      {
        var known := BinarySearch(baseline, now[i]);
        assert forall k :: 0 <= k < |leaked| ==> leaked[k] in leaked;
        assert forall x :: x in now[..i] ==> x < now[i];
        if !known {
          leaked := leaked + [now[i]];
        }
      }
      assert now[..|now|] == now;
      assert forall x :: x in leaked <==> x in Members(now) && x !in Members(baseline);
    }
  }

  function Ints(open: set<nat>): (r: set<int>)
    ensures forall x :: x in r <==> x >= 0 && x in open
  {
    set fd: nat | fd in open :: fd as int
  }

  /**
    Both snapshots could be taken, and nothing of the baseline was closed: what is reported is what
    leaked, with the baseline's own directory number, if it was reused, traded for the number the
    second directory got instead.
   */
  lemma LeaksReported(before: set<nat>, after: set<nat>)
    requires before <= after
    ensures var d0, d1 := LowestFree(before), LowestFree(after);
            Reported(before, true, after, true)
            == if d0 in after then Ints(after - before - {d0}) + {d1} else Ints(after - before)
    ensures |Reported(before, true, after, true)| == |after - before|
  {
    var d0, d1 := LowestFree(before), LowestFree(after);
    var leaked := after - before;
    if d0 in after {
      assert Reported(before, true, after, true) == Ints(leaked - {d0}) + {d1};
      IntsSize(leaked - {d0});
      assert |leaked - {d0}| == |leaked| - 1;
    } else {
      LowestFreeIsUnique(after, d0);
      assert Reported(before, true, after, true) == Ints(leaked);
      IntsSize(leaked);
    }
  }

  lemma {:induction false} IntsSize(s: set<nat>)
    ensures |Ints(s)| == |s|
    decreases |s|
  {
    if s != {} {
      var x :| x in s;
      assert Ints(s) == Ints(s - {x}) + {x};
      IntsSize(s - {x});
    } else {
      assert Ints(s) == {};
    }
  }

  lemma OtherMember(s: set<nat>, d: nat) returns (fd: nat)
    requires s != {} && s != {d}
    ensures fd in s && fd != d
  {
    fd :| fd in s;
    if fd == d {
      assert s - {d} != {};
      fd :| fd in s - {d};
    }
  }

  /** With both snapshots taken, something is reported exactly when something leaked, but for one case. */
  lemma SeenExactly(before: set<nat>, after: set<nat>)
    ensures var d0, d1 := LowestFree(before), LowestFree(after);
            Reported(before, true, after, true) != {}
            <==> after - before != {} && !(after - before == {d0} && d1 in before)
  {
    var d0, d1 := LowestFree(before), LowestFree(after);
    if after <= before {
      assert after - before == {};
      assert d1 in before + {d0};
      assert Reported(before, true, after, true) == {};
    } else if after - before == {d0} {
      assert d0 in after;
      if d1 in before {
        assert forall fd :: fd in after ==> fd in before + {d0};
        assert Reported(before, true, after, true) == {};
      } else {
        assert d1 as int in Reported(before, true, after, true);
      }
    } else {
      assert exists fd :: fd in after && fd !in before;
      var fd := OtherMember(after - before, d0);
      assert fd as int in Reported(before, true, after, true);
    }
  }

  /** The guard throws. */
  ghost predicate Throws(before: set<nat>, ok0: bool, after: set<nat>, ok1: bool) {
    var d0, d1 := LowestFree(before), LowestFree(after);
    ok1 && (!ok0 || (after - before != {} && !(after - before == {d0} && d1 in before)))
  }

  /**
    Exactly when the guard throws, for any two tables and whether or not the directory could be
    opened. It misses a leak when it cannot look now, and when the only new descriptor sits on the
    number the baseline's directory had while a baseline descriptor closed since makes room for the
    second directory. It throws without a leak exactly when it could not look at first and can now.
   */
  lemma GuardThrowsExactly(before: set<nat>, ok0: bool, after: set<nat>, ok1: bool)
    ensures Reported(before, ok0, after, ok1) != {} <==> Throws(before, ok0, after, ok1)
    ensures after <= before ==> (Throws(before, ok0, after, ok1) <==> ok1 && !ok0)
  {
    if ok0 && ok1 {
      SeenExactly(before, after);
    } else if ok1 {
      assert LowestFree(after) as int in Reported(before, ok0, after, ok1);
    }
    assert after <= before ==> after - before == {};
  }

  /** The guard around a test that turns the process's files into `later`. */
  method Guarded<H>(
    os: Os<H>, dir: H, ok0: bool, listing0: seq<Entry>, later: Files<H>, ok1: bool, listing1: seq<Entry>)
    returns (leaked: seq<int>)
    requires ok0 ==> Lists(listing0, os.files.table.Keys + {LowestFree(os.files.table.Keys)})
    requires ok1 ==> Lists(listing1, later.table.Keys + {LowestFree(later.table.Keys)})
    modifies os
    ensures os.files.table == later.table && os.files.faults == later.faults
    ensures Members(leaked) == Reported(old(os.files.table.Keys), ok0, later.table.Keys, ok1)
    ensures leaked != [] <==> Throws(old(os.files.table.Keys), ok0, later.table.Keys, ok1)
  {
    var guard := new FdLeakGuard(os, dir, ok0, listing0);
    os.files := later;
    leaked := guard.RequireClean(os, dir, ok1, listing1);
    GuardThrowsExactly(old(os.files.table.Keys), ok0, later.table.Keys, ok1);
    assert leaked != [] ==> leaked[0] in Members(leaked);
  }

  /** Descriptor 3 leaks while 1 is closed: the guard's second directory lands on 1, and it is silent. */
  lemma GuardMissesALeak()
    ensures {0, 1, 2, 3} - {0, 1, 2} == {3}
    ensures Reported({0, 1, 2}, true, {0, 2, 3}, true) == {}
  {
    LowestFreeIsUnique({0, 1, 2}, 3);
    LowestFreeIsUnique({0, 2, 3}, 1);
  }
}
