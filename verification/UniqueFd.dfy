/** ftl/core/fd.hpp, `UniqueFd`: a number that is closed when its one owner goes away. */
module UniqueFds {
  import opened Descriptors

  class UniqueFd {
    var fd: int

    constructor ()
      ensures fd == -1
    {
      fd := -1;
    }

    constructor Own(fd: int)
      ensures this.fd == fd
    {
      this.fd := fd;
    }

    constructor Move(other: UniqueFd)
      modifies other
      ensures fd == old(other.fd) && other.fd == -1
    {
      fd := other.fd;
      new;
      other.fd := -1;
    }

    method Assign<H>(os: Os<H>, other: UniqueFd)
      modifies this, other, os
      ensures this == other ==> fd == old(fd) && os.files == old(os.files)
      ensures this != other ==>
                fd == old(other.fd) && other.fd == -1 && os.files == old(os.files).ClosedIfOwned(old(fd))
    {
      if this != other {
        if fd >= 0 {
          os.Close(fd);
        }
        fd := other.fd;
        other.fd := -1;
      }
    }

    method Release() returns (r: int)
      modifies this
      ensures r == old(fd) && fd == -1
    {
      r := fd;
      fd := -1;
    }

    method Reset<H>(os: Os<H>, n: int)
      modifies this, os
      ensures fd == n && os.files == old(os.files).ClosedIfOwned(old(fd))
    {
      if fd >= 0 {
        os.Close(fd);
      }
      fd := n;
    }

    /** The destructor; the object is not used afterwards. */
    method Destroy<H>(os: Os<H>)
      modifies os
      ensures os.files == old(os.files).ClosedIfOwned(fd)
    {
      if fd >= 0 {
        os.Close(fd);
      }
    }
  }

  /**
    A program using `UniqueFd` objects: the kernel's files, where the handle of each descriptor is
    its serial number; the live objects with the number each holds; and the open numbers that no
    object owns, which are the program's own to close.
   */
  datatype Program = Program(files: Files<nat>, serial: nat, held: map<nat, int>, loose: set<nat>)

  datatype Op =
    | RawOpen                  // the program opens a descriptor
    | RawClose(raw: nat)       // and closes one that is its own
    | Make(x: nat)             // UniqueFd x
    | Adopt(x: nat, n: int)    // UniqueFd x(n)
    | MoveMake(x: nat, y: nat) // UniqueFd x(std::move(y))
    | Assign(x: nat, y: nat)   // x = std::move(y)
    | Release(x: nat)          // x.release()
    | Reset(x: nat, n: int)    // x.reset(n)
    | Destroy(x: nat)          // x goes out of scope

  /** Objects are constructed once, and used while they live. */
  predicate WellFormed(s: Program, op: Op) {
    match op
    case RawOpen => true
    case RawClose(n) => true
    case Make(x) => x !in s.held
    case Adopt(x, n) => x !in s.held
    case MoveMake(x, y) => x !in s.held && y in s.held
    case Assign(x, y) => x in s.held && y in s.held
    case Release(x) => x in s.held
    case Reset(x, n) => x in s.held
    case Destroy(x) => x in s.held
  }

  /** The program hands over, and closes itself, only what is its own. */
  predicate Entitled(s: Program, op: Op) {
    match op
    case RawClose(n) => n in s.loose
    case Adopt(_, n) => n < 0 || n in s.loose
    case Reset(_, n) => n < 0 || n in s.loose
    case _ => true
  }

  function Without(loose: set<nat>, n: int): set<nat> {
    if n >= 0 then loose - {n} else loose
  }

  function Step(s: Program, op: Op): Program
    requires WellFormed(s, op)
  {
    match op
    case RawOpen =>
      s.(files := s.files.Opened(s.serial), serial := s.serial + 1, loose := s.loose + {LowestFree(s.files.table.Keys)})
    case RawClose(n) => s.(files := s.files.Closed(n), loose := s.loose - {n})
    case Make(x) => s.(held := s.held[x := -1])
    case Adopt(x, n) => s.(held := s.held[x := n], loose := Without(s.loose, n))
    case MoveMake(x, y) => s.(held := s.held[x := s.held[y]][y := -1])
    case Assign(x, y) =>
      if x == y then s
      else s.(files := s.files.ClosedIfOwned(s.held[x]), held := s.held[x := s.held[y]][y := -1])
    case Release(x) =>
      s.(held := s.held[x := -1], loose := if s.held[x] >= 0 then s.loose + {s.held[x]} else s.loose)
    case Reset(x, n) =>
      s.(files := s.files.ClosedIfOwned(s.held[x]), held := s.held[x := n], loose := Without(s.loose, n))
    case Destroy(x) =>
      s.(files := s.files.ClosedIfOwned(s.held[x]), held := s.held - {x})
  }

  /** Every open number has exactly one owner: a live object, or the program itself. */
  ghost predicate Owned(open: set<nat>, held: map<nat, int>, loose: set<nat>) {
    && loose <= open
    && (forall x :: x in held && held[x] >= 0 ==> held[x] in open && held[x] !in loose)
    && (forall x, y :: x in held && y in held && x != y && held[x] >= 0 ==> held[x] != held[y])
    && (forall n: nat :: n in open && n !in loose ==> exists x :: x in held && held[x] == n)
  }

  ghost predicate OneOwner(s: Program) {
    Owned(s.files.table.Keys, s.held, s.loose)
  }

  /** Every descriptor ever opened is open at one number or was closed once, never both. */
  ghost predicate ClosedOnce(f: Files<nat>, serial: nat) {
    && f.faults == 0
    && (forall i, j :: 0 <= i < j < |f.closed| ==> f.closed[i] != f.closed[j])
    && (forall n, m :: n in f.table && m in f.table && n != m ==> f.table[n] != f.table[m])
    && (forall n :: n in f.table ==> f.table[n] < serial && f.table[n] !in f.closed)
    && (forall d :: d in f.closed ==> d < serial)
    && (forall d: nat :: d < serial && d !in f.closed ==> exists n :: n in f.table && f.table[n] == d)
  }

  /** An owned number is open, so closing it is no fault and uses up that descriptor. */
  lemma CloseOwned(f: Files<nat>, serial: nat, n: int)
    requires ClosedOnce(f, serial) && (n < 0 || n in f.table)
    ensures ClosedOnce(f.ClosedIfOwned(n), serial)
  {
    if n >= 0 {
      var f' := f.Closed(n);
      forall d: nat | d < serial && d !in f'.closed ensures exists m :: m in f'.table && f'.table[m] == d {
        assert d !in f.closed && d != f.table[n];
        var m :| m in f.table && f.table[m] == d;
        assert m in f'.table;
      }
    }
  }

  lemma OpenFresh(f: Files<nat>, serial: nat)
    requires ClosedOnce(f, serial)
    ensures ClosedOnce(f.Opened(serial), serial + 1)
  {
    hide LowestFree;
    var f' := f.Opened(serial);
    forall d: nat | d < serial + 1 && d !in f'.closed ensures exists m :: m in f'.table && f'.table[m] == d {
      if d == serial {
        assert f'.table[LowestFree(f.table.Keys)] == d;
      } else {
        var m :| m in f.table && f.table[m] == d;
        assert f'.table[m] == d;
      }
    }
  }

  lemma StepClosesOnce(s: Program, op: Op)
    requires WellFormed(s, op) && Entitled(s, op) && OneOwner(s) && ClosedOnce(s.files, s.serial)
    ensures ClosedOnce(Step(s, op).files, Step(s, op).serial)
  {
    match op
    case RawOpen => OpenFresh(s.files, s.serial);
    case RawClose(n) => CloseOwned(s.files, s.serial, n);
    case Assign(x, y) => CloseOwned(s.files, s.serial, s.held[x]);
    case Reset(x, n) => CloseOwned(s.files, s.serial, s.held[x]);
    case Destroy(x) => CloseOwned(s.files, s.serial, s.held[x]);
    case _ =>
  }

  /** A number moves from the program to a fresh object `x`, or nothing does. */
  lemma HandOver(open: set<nat>, held: map<nat, int>, loose: set<nat>, x: nat, n: int)
    requires Owned(open, held, loose) && x !in held && (n < 0 || n in loose)
    ensures Owned(open, held[x := n], Without(loose, n))
  {
    var held' := held[x := n];
    forall m: nat | m in open && m !in Without(loose, n) ensures exists z :: z in held' && held'[z] == m {
      if m == n {
        assert held'[x] == m;
      } else {
        var z :| z in held && held[z] == m;
        assert held'[z] == m;
      }
    }
  }

  /** An object goes away and its number with it. */
  lemma Retire(open: set<nat>, held: map<nat, int>, loose: set<nat>, x: nat)
    requires Owned(open, held, loose) && x in held
    ensures Owned(Without(open, held[x]), held - {x}, loose)
  {
    forall m: nat | m in Without(open, held[x]) && m !in loose ensures exists z :: z in held - {x} && held[z] == m {
      var z :| z in held && held[z] == m;
      assert z in held - {x};
    }
  }

  /** What `y` owns becomes the fresh object `x`'s. */
  lemma PassOn(open: set<nat>, held: map<nat, int>, loose: set<nat>, x: nat, y: nat)
    requires Owned(open, held, loose) && x !in held && y in held
    ensures Owned(open, held[x := held[y]][y := -1], loose)
  {
    var held' := held[x := held[y]][y := -1];
    forall m: nat | m in open && m !in loose ensures exists z :: z in held' && held'[z] == m {
      var z :| z in held && held[z] == m;
      assert held'[if z == y then x else z] == m;
    }
  }

  /** Assignment and reset let the old number go first, like a destroyed object made anew. */
  lemma StepKeepsOwner(s: Program, op: Op)
    requires WellFormed(s, op) && Entitled(s, op) && OneOwner(s)
    ensures OneOwner(Step(s, op))
  {
    var open := s.files.table.Keys;
    match op
    case RawOpen =>
    case RawClose(n) =>
    case Make(x) => HandOver(open, s.held, s.loose, x, -1);
    case Adopt(x, n) => HandOver(open, s.held, s.loose, x, n);
    case MoveMake(x, y) => PassOn(open, s.held, s.loose, x, y);
    case Assign(x, y) =>
      if x != y {
        Retire(open, s.held, s.loose, x);
        PassOn(Without(open, s.held[x]), s.held - {x}, s.loose, x, y);
        assert (s.held - {x})[x := s.held[y]][y := -1] == s.held[x := s.held[y]][y := -1];
        assert Step(s, op).files.table.Keys == Without(open, s.held[x]);
      }
    case Release(x) =>
      ReleaseKeepsOwner(open, s.held, s.loose, x);
    case Reset(x, n) =>
      Retire(open, s.held, s.loose, x);
      HandOver(Without(open, s.held[x]), s.held - {x}, s.loose, x, n);
      assert (s.held - {x})[x := n] == s.held[x := n];
      assert Step(s, op).files.table.Keys == Without(open, s.held[x]);
    case Destroy(x) =>
      Retire(open, s.held, s.loose, x);
      assert Step(s, op).files.table.Keys == Without(open, s.held[x]);
  }

  lemma ReleaseKeepsOwner(open: set<nat>, held: map<nat, int>, loose: set<nat>, x: nat)
    requires Owned(open, held, loose) && x in held
    ensures Owned(open, held[x := -1], if held[x] >= 0 then loose + {held[x]} else loose)
  {
    var held' := held[x := -1];
    forall m: nat | m in open && m !in loose && m != held[x] ensures exists z :: z in held' && held'[z] == m {
      var z :| z in held && held[z] == m;
      assert held'[z] == m;
    }
  }

  /** The operations of a program in order; it stops at one that is not its to make. */
  ghost predicate Proper(s: Program, ops: seq<Op>)
    decreases |ops|
  {
    ops == [] || (WellFormed(s, ops[0]) && Entitled(s, ops[0]) && Proper(Step(s, ops[0]), ops[1..]))
  }

  ghost function After(s: Program, ops: seq<Op>): Program
    requires Proper(s, ops)
    decreases |ops|
  {
    if ops == [] then s else After(Step(s, ops[0]), ops[1..])
  }

  /**
    Whatever a program does with its objects, nothing is closed twice and every open number keeps
    exactly one owner; so once no object lives, only released numbers are open.
   */
  lemma {:induction false} OwnershipHolds(s: Program, ops: seq<Op>)
    requires OneOwner(s) && ClosedOnce(s.files, s.serial) && Proper(s, ops)
    ensures OneOwner(After(s, ops)) && ClosedOnce(After(s, ops).files, After(s, ops).serial)
    ensures After(s, ops).held == map[] ==> After(s, ops).files.table.Keys == After(s, ops).loose
    decreases |ops|
  {
    if ops != [] {
      StepKeepsOwner(s, ops[0]);
      StepClosesOnce(s, ops[0]);
      OwnershipHolds(Step(s, ops[0]), ops[1..]);
    }
  }

  /**
    reset(n) keeps the ownership discipline exactly when n is nothing or one of the program's own
    numbers. Resetting an object onto the number it holds, or onto another object's, breaks it.
   */
  lemma ResetKeepsOwnerExactly(s: Program, x: nat, n: int)
    requires OneOwner(s) && x in s.held
    ensures OneOwner(Step(s, Reset(x, n))) <==> n < 0 || n in s.loose
  {
    var s' := Step(s, Reset(x, n));
    if n < 0 || n in s.loose {
      StepKeepsOwner(s, Reset(x, n));
    } else {
      assert s'.held[x] == n;
      if n in s.files.table && n != s.held[x] {
        var y :| y in s.held && s.held[y] == n;
        assert s'.held[y] == n && y != x;
      }
    }
  }

  /** Self-move-assignment changes nothing. */
  lemma SelfAssignIsHarmless(s: Program, x: nat)
    requires x in s.held
    ensures Step(s, Assign(x, x)) == s
  {
  }

  /** The objects themselves, run against the kernel, do what `Step` says. */
  class Scope {
    const os: Os<nat>
    var serial: nat
    var objs: map<nat, UniqueFd>
    var loose: set<nat>

    constructor (table: map<nat, nat>, serial: nat)
      ensures Valid() && View() == Program(Files(table, 0, []), serial, map[], table.Keys)
      ensures fresh(os)
    {
      os := new Os(table);
      this.serial := serial;
      objs := map[];
      loose := table.Keys;
    }

    ghost predicate Valid()
      reads this
    {
      forall x, y :: x in objs && y in objs && x != y ==> objs[x] != objs[y]
    }

    ghost function View(): Program
      reads this, os, objs.Values
    {
      Program(os.files, serial, map x | x in objs :: objs[x].fd, loose)
    }

    method Apply(op: Op)
      requires Valid() && WellFormed(View(), op)
      modifies this, os, objs.Values
      ensures Valid() && View() == Step(old(View()), op)
      ensures fresh(objs.Values - old(objs.Values))
    {
      if op.RawOpen? || op.RawClose? {
        ApplyRaw(op);
      } else if op.Make? || op.Adopt? || op.MoveMake? {
        ApplyConstruct(op);
      } else {
        ApplyUse(op);
      }
    }

    method ApplyRaw(op: Op)
      requires Valid() && WellFormed(View(), op) && (op.RawOpen? || op.RawClose?)
      modifies this, os
      ensures Valid() && View() == Step(old(View()), op) && objs == old(objs)
    {
      if op.RawOpen? {
        var n := os.Open(serial);
        serial := serial + 1;
        loose := loose + {n};
      } else {
        os.Close(op.raw);
        loose := loose - {op.raw};
      }
    }

    method ApplyConstruct(op: Op)
      requires Valid() && WellFormed(View(), op) && (op.Make? || op.Adopt? || op.MoveMake?)
      modifies this, objs.Values
      ensures Valid() && View() == Step(old(View()), op)
      ensures fresh(objs.Values - old(objs.Values))
    {
      var u: UniqueFd;
      if op.Make? {
        u := new UniqueFd();
      } else if op.Adopt? {
        u := new UniqueFd.Own(op.n);
        loose := Without(loose, op.n);
      } else {
        u := new UniqueFd.Move(objs[op.y]);
      }
      objs := objs[op.x := u];
    }

    method ApplyUse(op: Op)
      requires Valid() && WellFormed(View(), op) && (op.Assign? || op.Release? || op.Reset? || op.Destroy?)
      modifies this, os, objs.Values
      ensures Valid() && View() == Step(old(View()), op)
      ensures fresh(objs.Values - old(objs.Values))
    {
      if op.Assign? {
        objs[op.x].Assign(os, objs[op.y]);
      } else if op.Release? {
        var n := objs[op.x].Release();
        loose := if n >= 0 then loose + {n} else loose;
      } else if op.Reset? {
        objs[op.x].Reset(os, op.n);
        loose := Without(loose, op.n);
      } else {
        objs[op.x].Destroy(os);
        objs := objs - {op.x};
      }
    }
  }
}
