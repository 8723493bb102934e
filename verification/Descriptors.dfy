/**
  The descriptor table of one process, after section 2.14 of the POSIX.1-2017 System
  Interfaces: a new descriptor always gets the lowest number that is not in use.
  Tables are generic in what an open descriptor refers to.
 */
module Descriptors {

  datatype Option<+T> = None | Some(value: T)

  function AtLeast(open: set<nat>, k: nat): set<nat> {
    set j | j in open && k <= j
  }

  /** The lowest number that is not in `open`, searching upwards from `k`. */
  function LowestFrom(open: set<nat>, k: nat): (fd: nat)
    ensures k <= fd && fd !in open
    ensures forall j: nat :: k <= j < fd ==> j in open
    decreases AtLeast(open, k)
  {
    if k in open then
      assert k in AtLeast(open, k) && k !in AtLeast(open, k + 1);
      LowestFrom(open, k + 1)
    else
      k
  }

  function LowestFree(open: set<nat>): (fd: nat)
    ensures fd !in open
    ensures forall j: nat :: j < fd ==> j in open
  {
    LowestFrom(open, 0)
  }

  /** The two conditions on `LowestFree` leave only one number. */
  lemma LowestFreeIsUnique(open: set<nat>, fd: nat)
    requires fd !in open && forall j: nat :: j < fd ==> j in open
    ensures fd == LowestFree(open)
  {
    assert !(LowestFree(open) < fd);
  }

  /**
    What the kernel keeps for one process: its table, how often it closed a number that was not
    open, and what it closed, in order.
   */
  datatype Files<H> = Files(table: map<nat, H>, faults: nat, closed: seq<H>) {
    /** open(2), pipe(2) and dup(2) all enter their result at the lowest free number. */
    function Opened(h: H): Files<H> {
      this.(table := table[LowestFree(table.Keys) := h])
    }

    /** close(2): EBADF leaves the table alone. */
    function Closed(fd: int): Files<H> {
      if fd >= 0 && fd in table then
        this.(table := table - {fd}, closed := closed + [table[fd]])
      else
        this.(faults := faults + 1)
    }

    /** dup2(2); with equal numbers it changes nothing. */
    function Dup2(src: nat, dst: nat): Files<H> {
      if src in table then this.(table := table[dst := table[src]]) else this
    }

    /** close(2) behind a `UniqueFd`'s test for an owned number. */
    function ClosedIfOwned(fd: int): Files<H> {
      if fd >= 0 then Closed(fd) else this
    }
  }

  class Os<H> {
    var files: Files<H>

    constructor (table: map<nat, H>)
      ensures files == Files(table, 0, [])
    {
      files := Files(table, 0, []);
    }

    method Open(h: H) returns (fd: nat)
      modifies this
      ensures fd == LowestFree(old(files).table.Keys) && files == old(files).Opened(h)
    {
      fd := LowestFree(files.table.Keys);
      files := files.Opened(h);
    }

    method Close(fd: int)
      modifies this
      ensures files == old(files).Closed(fd)
    {
      files := files.Closed(fd);
    }
  }
}
