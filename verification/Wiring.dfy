/**
  How the child of a runner turns the table it inherited through fork into the one its program
  starts with: ftl/process/subprocess.hpp, `child_exec`, and ftl/ftl.h, the `pid == 0` branch.
 */
module Wiring {
  import opened Descriptors

  datatype Stream = In | Out | Err
  datatype Side = ReadEnd | WriteEnd

  /** What a descriptor refers to: an end of one of the runner's pipes, or anything else. */
  datatype Handle = PipeEnd(stream: Stream, side: Side) | Foreign(id: int)

  type Table = map<nat, Handle>

  /** The numbers the runner keeps; -1 stands for a `UniqueFd` that owns nothing. */
  datatype Ends = Ends(inR: nat, inW: nat, outR: nat, outW: nat, errR: int, errW: int)

  /** No entry of a caller's table refers to a pipe the runner has yet to create. */
  predicate AllForeign(t: Table) {
    forall fd: nat :: fd in t ==> t[fd].Foreign?
  }

  /** Pipe::create: read end first, then write end, each at the lowest free number. */
  function WithPipe(t: Table, st: Stream): (r: (Table, nat, nat))
    ensures r.1 == LowestFree(t.Keys) && r.1 !in t && r.2 !in t && r.1 != r.2
    ensures r.1 < r.2 && forall j: nat :: j <= r.2 ==> j in r.0
    ensures r.0 == t[r.1 := PipeEnd(st, ReadEnd)][r.2 := PipeEnd(st, WriteEnd)]
  {
    var rd := LowestFree(t.Keys);
    var t1 := t[rd := PipeEnd(st, ReadEnd)];
    var wr := LowestFree(t1.Keys);
    assert !(wr < rd);
    (t1[wr := PipeEnd(st, WriteEnd)], rd, wr)
  }

  /** The pipes `run` has open when it forks, created in the order In, Out, Err. */
  function ForkTable(t: Table, split: bool): (Table, Ends) {
    var (t1, inR, inW) := WithPipe(t, In);
    var (t2, outR, outW) := WithPipe(t1, Out);
    if split then
      var (t3, errR, errW) := WithPipe(t2, Err);
      (t3, Ends(inR, inW, outR, outW, errR, errW))
    else
      (t2, Ends(inR, inW, outR, outW, -1, -1))
  }

  datatype FdOp =
    | DupTo(src: int, dst: nat)   // dup2
    | CloseUnused(fd: int)        // close, unless the number is one of 0, 1, 2
    | CloseAny(fd: int)           // close

  /** dup2 refuses a target at or above the limit; dup2(n, n) of an open n changes nothing. */
  function ApplyOp(t: Table, op: FdOp, limit: int): Table {
    match op
    case DupTo(src, dst) =>
      if src >= 0 && src in t && (limit <= 0 || dst < limit) then t[dst := t[src]] else t
    case CloseUnused(fd) => t - Unused(fd)
    case CloseAny(fd) => if fd >= 0 then t - {fd} else t
  }

  /** close_unused spares the standard streams, and -1 names nothing. */
  function Unused(fd: int): set<nat> {
    if fd > 2 then {fd} else {}
  }

  /** The table after the first `k` operations. */
  function Applied(t: Table, ops: seq<FdOp>, k: nat, limit: int): Table
    requires k <= |ops|
  {
    if k == 0 then t else ApplyOp(Applied(t, ops, k - 1, limit), ops[k - 1], limit)
  }

  /** child_exec, from the first dup2 to the last close_unused. */
  function ChildOps(e: Ends): (ops: seq<FdOp>)
    ensures |ops| == 9
  {
    [DupTo(e.inR, 0), DupTo(e.outW, 1), DupTo(if e.errW >= 0 then e.errW else e.outW, 2),
     CloseUnused(e.inR), CloseUnused(e.inW), CloseUnused(e.outR),
     CloseUnused(e.outW), CloseUnused(e.errR), CloseUnused(e.errW)]
  }

  /** The C runner's child closes all four numbers, whatever they are. */
  function CChildOps(e: Ends): (ops: seq<FdOp>)
    ensures |ops| == 7
  {
    [DupTo(e.inR, 0), DupTo(e.outW, 1), DupTo(e.outW, 2),
     CloseAny(e.inR), CloseAny(e.inW), CloseAny(e.outR), CloseAny(e.outW)]
  }

  function ChildTable(t: Table, split: bool, limit: int): Table {
    var (forked, e) := ForkTable(t, split);
    Applied(forked, ChildOps(e), 9, limit)
  }

  function CChildTable(t: Table): Table {
    var (forked, e) := ForkTable(t, false);
    Applied(forked, CChildOps(e), 7, 0)
  }

  /**
    What the child's program should start with: the three standard streams on the runner's pipes,
    and above them exactly what the caller had, so no other descriptor of a runner pipe.
   */
  function StandardTable(t: Table, split: bool): Table {
    (map fd: nat | fd in t && fd > 2 :: t[fd])
      [0 := PipeEnd(In, ReadEnd)]
      [1 := PipeEnd(Out, WriteEnd)]
      [2 := PipeEnd(if split then Err else Out, WriteEnd)]
  }

  /** What is left of it in a child that closes the numbers which were free when the pipes were made. */
  function CStandardTable(t: Table): Table {
    var standard := StandardTable(t, false);
    map fd: nat | fd in standard && fd in t :: standard[fd]
  }

  /** The ends as pipe creation leaves them: new numbers, in increasing order. */
  ghost predicate EndsInOrder(t: Table, split: bool, e: Ends) {
    && e.inR !in t && e.inW !in t && e.outR !in t && e.outW !in t
    && e.inR == LowestFree(t.Keys)
    && e.inR < e.inW < e.outR < e.outW
    && (if split then e.outW < e.errR < e.errW && e.errR !in t && e.errW !in t
        else e.errR == -1 && e.errW == -1)
  }

  /** `t` with the ends `e` added. */
  function WithEnds(t: Table, e: Ends): Table {
    var u := t[e.inR := PipeEnd(In, ReadEnd)][e.inW := PipeEnd(In, WriteEnd)]
              [e.outR := PipeEnd(Out, ReadEnd)][e.outW := PipeEnd(Out, WriteEnd)];
    if e.errR >= 0 && e.errW >= 0 then
      u[e.errR := PipeEnd(Err, ReadEnd)][e.errW := PipeEnd(Err, WriteEnd)]
    else
      u
  }

  lemma ForkedEnds(t: Table, split: bool)
    ensures EndsInOrder(t, split, ForkTable(t, split).1)
    ensures ForkTable(t, split).0 == WithEnds(t, ForkTable(t, split).1)
  {
    var (t1, inR, inW) := WithPipe(t, In);
    var (t2, outR, outW) := WithPipe(t1, Out);
    assert outR > inW;
    if split {
      var (t3, errR, errW) := WithPipe(t2, Err);
      assert errR > outW;
    }
  }

  lemma Unfold3(t: Table, ops: seq<FdOp>, limit: int)
    requires |ops| >= 3
    ensures Applied(t, ops, 3, limit) == ApplyOp(ApplyOp(ApplyOp(t, ops[0], limit), ops[1], limit), ops[2], limit)
  {
    assert Applied(t, ops, 1, limit) == ApplyOp(t, ops[0], limit);
  }

  lemma RemoveTwice(t: Table, a: set<nat>, b: set<nat>)
    ensures (t - a) - b == t - (a + b)
  {
  }

  /** A tail of close_unused calls removes one set of numbers. */
  lemma UnfoldCloses(t: Table, ops: seq<FdOp>, k: nat, n: nat, limit: int) returns (gone: set<nat>)
    requires k <= n <= |ops| && forall i :: k <= i < n ==> ops[i].CloseUnused?
    ensures Applied(t, ops, n, limit) == Applied(t, ops, k, limit) - gone
    ensures gone == set i: nat, fd: nat | k <= i < n && fd in Unused(ops[i].fd) :: fd
    decreases n - k
  {
    if k == n {
      gone := {};
    } else {
      var before := UnfoldCloses(t, ops, k, n - 1, limit);
      gone := before + Unused(ops[n - 1].fd);
      RemoveTwice(Applied(t, ops, k, limit), before, Unused(ops[n - 1].fd));
    }
  }

  /** What the three dup2 calls achieve; a low limit stops those whose target it excludes. */
  ghost predicate Dupped(f: Table, split: bool, limit: int, d: Table) {
    && (forall fd: nat :: fd > 2 ==> (fd in d <==> fd in f))
    && (forall fd: nat :: fd in d && fd > 2 ==> d[fd] == f[fd])
    && (limit <= 0 || limit >= 3 ==>
          && 0 in d && d[0] == PipeEnd(In, ReadEnd)
          && 1 in d && d[1] == PipeEnd(Out, WriteEnd)
          && 2 in d && d[2] == PipeEnd(if split then Err else Out, WriteEnd))
    && (limit == 1 || limit == 2 ==> 2 in d ==> 2 in f && d[2] == f[2])
  }

  /** What the six close_unused calls achieve: 0, 1 and 2 stay, every other end goes. */
  ghost predicate EndsClosed(e: Ends, d: Table, child: Table) {
    && (forall fd: nat :: fd in child ==> fd in d && child[fd] == d[fd])
    && (forall fd: nat :: fd in d && fd !in child ==> fd > 2 && IsEnd(e, fd))
    && (forall fd: nat :: fd in child && fd > 2 ==> !IsEnd(e, fd))
  }

  predicate IsEnd(e: Ends, fd: int) {
    fd == e.inR || fd == e.inW || fd == e.outR || fd == e.outW || fd == e.errR || fd == e.errW
  }

  lemma AfterDups(t: Table, split: bool, e: Ends, limit: int)
    requires EndsInOrder(t, split, e)
    ensures Dupped(WithEnds(t, e), split, limit, Applied(WithEnds(t, e), ChildOps(e), 3, limit))
  {
    Unfold3(WithEnds(t, e), ChildOps(e), limit);
  }

  lemma AfterCloses(t: Table, e: Ends, limit: int)
    ensures EndsClosed(e, Applied(t, ChildOps(e), 3, limit), Applied(t, ChildOps(e), 9, limit))
  {
    var ops := ChildOps(e);
    var gone := UnfoldCloses(t, ops, 3, 9, limit);
    forall fd: nat | fd > 2 && IsEnd(e, fd) ensures fd in gone {
      assert || fd == ops[3].fd || fd == ops[4].fd || fd == ops[5].fd
             || fd == ops[6].fd || fd == ops[7].fd || fd == ops[8].fd;
      assert exists i: nat :: 3 <= i < 9 && fd in Unused(ops[i].fd);
    }
  }

  /** Above 2 the child has what the caller had, whatever the limit. */
  lemma AboveTwo(t: Table, split: bool, e: Ends, limit: int, f: Table, d: Table, child: Table)
    requires AllForeign(t) && EndsInOrder(t, split, e) && f == WithEnds(t, e)
    requires Dupped(f, split, limit, d) && EndsClosed(e, d, child)
    ensures forall fd: nat :: fd > 2 ==> (fd in child <==> fd in t) && (fd in child ==> child[fd] == t[fd])
    ensures 2 in f ==> f[2] != PipeEnd(if split then Err else Out, WriteEnd)
  {
  }

  lemma DuppedAndClosed(t: Table, split: bool, e: Ends, limit: int, f: Table, d: Table, child: Table)
    requires AllForeign(t) && EndsInOrder(t, split, e) && f == WithEnds(t, e)
    requires Dupped(f, split, limit, d) && EndsClosed(e, d, child)
    ensures child == StandardTable(t, split) <==> limit <= 0 || limit >= 3
  {
    AboveTwo(t, split, e, limit, f, d, child);
    var standard := StandardTable(t, split);
    if limit <= 0 || limit >= 3 {
      assert forall fd: nat :: fd in child <==> fd in standard;
      assert forall fd: nat :: fd in child ==> child[fd] == standard[fd];
    } else {
      assert standard[2] == PipeEnd(if split then Err else Out, WriteEnd);
    }
  }

  /**
    child_exec wires the child correctly for every table the caller may have, closed standard
    streams included, exactly when the descriptor limit leaves room for 0, 1 and 2.
   */
  lemma ChildWiring(t: Table, split: bool, limit: int)
    requires AllForeign(t)
    ensures ChildTable(t, split, limit) == StandardTable(t, split) <==> limit <= 0 || limit >= 3
  {
    ForkedEnds(t, split);
    var e := ForkTable(t, split).1;
    AfterDups(t, split, e, limit);
    AfterCloses(WithEnds(t, e), e, limit);
    var f, ops := WithEnds(t, e), ChildOps(e);
    DuppedAndClosed(t, split, e, limit, f, Applied(f, ops, 3, limit), Applied(f, ops, 9, limit));
  }

  /** All numbers up to the last end are taken. */
  lemma NoGaps(t: Table)
    ensures var (f, e) := ForkTable(t, false); forall fd: nat :: fd <= e.outW ==> fd in f
  {
  }

  /**
    The C runner's child ends with that table less the standard numbers its caller had closed: a pipe
    end sits on each of them, and the unconditional close shuts it again. So it is wired correctly
    exactly when the caller has 0, 1 and 2 open.
   */
  lemma CChildWiring(t: Table)
    requires AllForeign(t)
    ensures CChildTable(t) == CStandardTable(t)
    ensures CChildTable(t) == StandardTable(t, false) <==> 0 in t && 1 in t && 2 in t
  {
    var (f, e) := ForkTable(t, false);
    ForkedEnds(t, false);
    NoGaps(t);
    var d := Applied(f, CChildOps(e), 3, 0);
    Unfold3(f, CChildOps(e), 0);
    CCloses(f, e);
    DuppedAndAllClosed(t, e, f, d);
    hide CStandardTable, StandardTable;
    WhollyStandard(t);
  }

  lemma WhollyStandard(t: Table)
    ensures CStandardTable(t) == StandardTable(t, false) <==> 0 in t && 1 in t && 2 in t
  {
    var standard := StandardTable(t, false);
    assert 0 in standard && 1 in standard && 2 in standard;
    assert CStandardTable(t).Keys == standard.Keys * t.Keys;
  }

  lemma DuppedAndAllClosed(t: Table, e: Ends, f: Table, d: Table)
    requires AllForeign(t) && EndsInOrder(t, false, e) && f == WithEnds(t, e)
    requires forall fd: nat :: fd <= e.outW ==> fd in f
    requires d == f[0 := PipeEnd(In, ReadEnd)][1 := PipeEnd(Out, WriteEnd)][2 := PipeEnd(Out, WriteEnd)]
    ensures d - {e.inR} - {e.inW} - {e.outR} - {e.outW} == CStandardTable(t)
  {
    var child := d - {e.inR} - {e.inW} - {e.outR} - {e.outW};
    forall fd: nat ensures fd in child <==> fd in t {
      assert fd in f <==> fd in t || IsEnd(e, fd);
    }
    assert forall fd: nat :: fd in t ==> !IsEnd(e, fd);
  }

  /** The four closes of the C runner's child. */
  lemma CCloses(f: Table, e: Ends)
    requires e.errR == -1 && e.errW == -1
    ensures Applied(f, CChildOps(e), 7, 0)
         == Applied(f, CChildOps(e), 3, 0) - {e.inR} - {e.inW} - {e.outR} - {e.outW}
  {
    var ops := CChildOps(e);
    var d := Applied(f, ops, 3, 0);
    assert Applied(f, ops, 5, 0) == d - {e.inR} - {e.inW};
    assert Applied(f, ops, 6, 0) == d - {e.inR} - {e.inW} - {e.outR};
  }
}
