/**
  ftl/io/capture.hpp, `FdCapture`: a descriptor redirected to a temporary file while a buffered
  stream goes on writing to it.
 */
module Captures {
  import opened Descriptors

  type Bytes = seq<char>

  /** An open file: what it holds, and the offset that all descriptors naming it share. */
  datatype RawFile = RawFile(data: Bytes, pos: nat)

  type File = f: RawFile | f.pos <= |f.data| witness RawFile([], 0)

  /** What lies before the offset. */
  function Front(f: File): Bytes {
    f.data[..f.pos]
  }

  /** write(2): over what is there, from the offset on. */
  function Write(f: File, bs: Bytes): File {
    var end := f.pos + |bs|;
    RawFile(f.data[..f.pos] + bs + (if end <= |f.data| then f.data[end..] else []), end)
  }

  lemma FrontWritten(f: File, bs: Bytes)
    ensures Front(Write(f, bs)) == Front(f) + bs
  {
  }

  /**
    The process: its descriptors, each naming an open file; those files; and a buffered stream that
    writes to the descriptor numbered `stream`. `unused` is a name no file has yet.
   */
  datatype State = State(os: Files<nat>, files: map<nat, File>, unused: nat, stream: nat, buffer: Bytes) {

    /** The library writes the oldest `k` buffered bytes to the stream's descriptor, if it is open. */
    function FlushSome(k: nat): State {
      if k <= |buffer| && stream in os.table && os.table[stream] in files then
        var id := os.table[stream];
        this.(files := files[id := Write(files[id], buffer[..k])], buffer := buffer[k..])
      else
        this
    }

    /** fflush */
    function Flush(): State {
      FlushSome(|buffer|)
    }

    /** The descriptor names an open file. */
    predicate Names(fd: int) {
      fd >= 0 && fd in os.table && os.table[fd] in files
    }

    function FlushIf(b: bool): State {
      if b then Flush() else this
    }
  }

  /** The fields of an `FdCapture`; -1 stands for a stream or descriptor it does not have. */
  datatype Capture = Capture(target: nat, flushes: bool, file: int, saved: int)

  /** tmpfile(3); it may fail. */
  function Tmpfile(s: State, works: bool): (State, int) {
    if works then
      (s.(os := s.os.Opened(s.unused), files := s.files[s.unused := RawFile([], 0)], unused := s.unused + 1),
       LowestFree(s.os.table.Keys) as int)
    else (s, -1 as int)
  }

  /** dup(2); it may fail, and does for a number that is not open. */
  function Dup(s: State, fd: nat, works: bool): (State, int) {
    if works && fd in s.os.table then
      (s.(os := s.os.Opened(s.os.table[fd])), LowestFree(s.os.table.Keys) as int)
    else (s, -1 as int)
  }

  /** The constructor; `None` when it throws. */
  function Open(s: State, target: nat, flushes: bool, tmpWorks: bool, dupWorks: bool): (State, Option<Capture>) {
    var s0 := s.FlushIf(flushes);
    var (s1, file) := Tmpfile(s0, tmpWorks);
    var (s2, saved) := Dup(s1, target, dupWorks);
    if file < 0 || saved < 0 then
      (s2.(os := s2.os.ClosedIfOwned(file).ClosedIfOwned(saved)), None)
    else
      (s2.(os := s2.os.Dup2(file, target)), Some(Capture(target, flushes, file, saved)))
  }

  /** content(): flush, then all that was written to the file; the offset ends where it was. */
  function Content(s: State, c: Capture): (State, Bytes) {
    var s0 := s.FlushIf(c.flushes);
    (s0, if s0.Names(c.file) then Front(s0.files[s0.os.table[c.file]]) else [])
  }

  /** The destructor. */
  function Close(s: State, c: Capture): State {
    var s0 := s.FlushIf(c.flushes);
    var s1 := if c.saved >= 0 then s0.(os := s0.os.Dup2(c.saved, c.target).Closed(c.saved)) else s0;
    s1.(os := s1.os.ClosedIfOwned(c.file))
  }

  /** write(2) straight to a descriptor. */
  function PutTo(s: State, fd: nat, bs: Bytes): State {
    if s.Names(fd) then
      var id := s.os.table[fd];
      s.(files := s.files[id := Write(s.files[id], bs)])
    else
      s
  }

  /**
    A program that prints to the stream, writes to other descriptors past it, and captures. The
    library may flush any part of its buffer at any point, and a constructor may fail, in which case
    its body does not run. A capture is read once, at the end of its body, as capture_stdout does,
    or not at all, as when its body throws: the scripts around it then end there, too.
   */
  datatype Script =
    | End
    | Print(bs: Bytes, next: Script)
    | Put(fd: nat, bs: Bytes, next: Script)
    | AutoFlush(k: nat, next: Script)
    | Within(target: nat, flushes: bool, tmpWorks: bool, dupWorks: bool, body: Script, isRead: bool, next: Script)

  /** The state after the script, and what its content() calls returned, in order. */
  function Exec(s: State, p: Script): (State, seq<Bytes>)
    decreases p
  {
    match p
    case End => (s, [])
    case Print(bs, next) => Exec(s.(buffer := s.buffer + bs), next)
    case Put(fd, bs, next) => Exec(PutTo(s, fd, bs), next)
    case AutoFlush(k, next) => Exec(s.FlushSome(k), next)
    case Within(target, flushes, tmpWorks, dupWorks, body, isRead, next) =>
      var (s1, c) := Open(s, target, flushes, tmpWorks, dupWorks);
      if c.None? then
        Exec(s1, next)
      else
        var (s2, inner) := Exec(s1, body);
        var (s3, text) := if isRead then Content(s2, c.value) else (s2, []);
        var (s4, after) := Exec(Close(s3, c.value), next);
        (s4, inner + (if isRead then [text] else []) + after)
  }

  /** Opening and closing cancel out, even where the temporary file lands on a closed target. */
  lemma OpenKeepsTable(s: State, target: nat, flushes: bool, tmpWorks: bool, dupWorks: bool)
    ensures var (s1, c) := Open(s, target, flushes, tmpWorks, dupWorks);
      && s1.os.faults == s.os.faults
      && (c.None? ==> s1.os.table == s.os.table)
  {
  }

  lemma CloseRestoresTable(s: State, target: nat, flushes: bool, tmpWorks: bool, dupWorks: bool, s2: State)
    requires Open(s, target, flushes, tmpWorks, dupWorks).1.Some?
    requires s2.os.table == Open(s, target, flushes, tmpWorks, dupWorks).0.os.table
    ensures var c := Open(s, target, flushes, tmpWorks, dupWorks).1.value;
      && Close(s2, c).os.table == s.os.table
      && Close(s2, c).os.faults == s2.os.faults
  {
  }

  /** Captures used as a stack leave any table as they found it, and close nothing that is not open. */
  lemma {:induction false} TableRestored(s: State, p: Script)
    ensures Exec(s, p).0.os.table == s.os.table
    ensures Exec(s, p).0.os.faults == s.os.faults
    ensures forall id :: id in s.files ==> id in Exec(s, p).0.files
    decreases p
  {
    match p
    case End =>
    case Print(bs, next) => TableRestored(s.(buffer := s.buffer + bs), next);
    case Put(fd, bs, next) => TableRestored(PutTo(s, fd, bs), next);
    case AutoFlush(k, next) => TableRestored(s.FlushSome(k), next);
    case Within(target, flushes, tmpWorks, dupWorks, body, isRead, next) =>
      OpenKeepsTable(s, target, flushes, tmpWorks, dupWorks);
      var (s1, c) := Open(s, target, flushes, tmpWorks, dupWorks);
      if c.None? {
        TableRestored(s1, next);
      } else {
        TableRestored(s1, body);
        var s2 := Exec(s1, body).0;
        var s3 := if isRead then Content(s2, c.value).0 else s2;
        CloseRestoresTable(s, target, flushes, tmpWorks, dupWorks, s3);
        TableRestored(Close(s3, c.value), next);
      }
  }

  /**
    The program writes past the stream only to descriptors of its own, `mine`, and not to the
    stream's; and a capture of the stream's own descriptor is told about the stream.
   */
  ghost predicate Careful(p: Script, mine: set<nat>, stream: nat) {
    match p
    case End => true
    case Print(_, next) => Careful(next, mine, stream)
    case Put(fd, _, next) => fd in mine && fd != stream && Careful(next, mine, stream)
    case AutoFlush(_, next) => Careful(next, mine, stream)
    case Within(target, flushes, _, _, body, _, next) =>
      (target == stream ==> flushes) && Careful(body, mine, stream) && Careful(next, mine, stream)
  }

  /** A capture opens if nothing fails, and the target is open or becomes so with the temporary file. */
  predicate Opens(open: set<nat>, target: nat, tmpWorks: bool, dupWorks: bool) {
    tmpWorks && dupWorks && (target in open || target == LowestFree(open))
  }

  /** While it lives its file and its copy of the target are open, too. */
  function Inside(open: set<nat>): set<nat> {
    var more := open + {LowestFree(open)};
    more + {LowestFree(more)}
  }

  /** The bytes sent through one of the descriptors `fds` outside every capture of that descriptor, in order. */
  function Sent(p: Script, open: set<nat>, stream: nat, fds: set<nat>): Bytes {
    match p
    case End => []
    case Print(bs, next) => (if stream in fds then bs else []) + Sent(next, open, stream, fds)
    case Put(fd, bs, next) => (if fd in fds then bs else []) + Sent(next, open, stream, fds)
    case AutoFlush(_, next) => Sent(next, open, stream, fds)
    case Within(target, _, tmpWorks, dupWorks, body, _, next) =>
      (if Opens(open, target, tmpWorks, dupWorks) then Sent(body, Inside(open), stream, fds - {target}) else [])
      + Sent(next, open, stream, fds)
  }

  /** What each capture that is read should report: the bytes sent through its descriptor while it was innermost. */
  function Meant(p: Script, open: set<nat>, stream: nat): seq<Bytes> {
    match p
    case End => []
    case Print(_, next) => Meant(next, open, stream)
    case Put(_, _, next) => Meant(next, open, stream)
    case AutoFlush(_, next) => Meant(next, open, stream)
    case Within(target, _, tmpWorks, dupWorks, body, isRead, next) =>
      if Opens(open, target, tmpWorks, dupWorks) then
        Meant(body, Inside(open), stream)
        + (if isRead then [Sent(body, Inside(open), stream, {target})] else [])
        + Meant(next, open, stream)
      else
        Meant(next, open, stream)
  }

  /** The stream's descriptor is open, and every descriptor names a file. */
  ghost predicate Ready(s: State) {
    && s.stream in s.os.table
    && (forall fd :: fd in s.os.table ==> s.os.table[fd] in s.files)
    && (forall id :: id in s.files ==> id < s.unused)
  }

  function Sink(s: State): nat
    requires s.stream in s.os.table
  {
    s.os.table[s.stream]
  }

  /** The program's descriptors are open, and none of the others shares the stream's file. */
  ghost predicate Fits(s: State, mine: set<nat>) {
    && Ready(s) && s.stream in mine && mine <= s.os.table.Keys
    && forall fd :: fd in mine && fd != s.stream ==> s.os.table[fd] != Sink(s)
  }

  /** The program's descriptors that name a file. */
  function Naming(s: State, mine: set<nat>, id: nat): set<nat> {
    set fd | fd in mine && fd in s.os.table && s.os.table[fd] == id
  }

  /** What a file has been given, and is yet to be given from the buffer. */
  ghost function Given(s: State, id: nat): Bytes
    requires Ready(s) && id in s.files
  {
    Front(s.files[id]) + (if id == Sink(s) then s.buffer else [])
  }

  /** The descriptors are as before, and the files are still there. */
  ghost predicate Kept(s: State, s': State) {
    && Ready(s') && s'.os.table == s.os.table && s'.stream == s.stream
    && forall id :: id in s.files ==> id in s'.files
  }

  /** No file was given anything. */
  ghost predicate GivenSame(s: State, s': State)
    requires Ready(s) && Ready(s')
  {
    forall id :: id in s.files ==> id in s'.files && Given(s', id) == Given(s, id)
  }

  /** Each file was given what the script sends through the program's descriptors that name it. */
  ghost predicate Delivered(s: State, s': State, p: Script, mine: set<nat>)
    requires Ready(s) && Ready(s')
  {
    forall id :: id in s.files ==>
      id in s'.files && Given(s', id) == Given(s, id) + Sent(p, s.os.table.Keys, s.stream, Naming(s, mine, id))
  }

  /** The target names a new, empty file, and every other descriptor what it did. */
  ghost predicate Redirects(s: State, s1: State, target: nat) {
    && Ready(s1) && s1.stream == s.stream && s.os.table.Keys <= s1.os.table.Keys
    && s.unused !in s.files && s.unused in s1.files && s1.files[s.unused] == RawFile([], 0)
    && target in s1.os.table && s1.os.table[target] == s.unused
    && forall fd :: fd in s.os.table && fd != target ==> s1.os.table[fd] == s.os.table[fd]
  }

  lemma {:induction false} PrintGives(s: State, bs: Bytes, id: nat)
    requires Ready(s) && id in s.files
    ensures var s1 := s.(buffer := s.buffer + bs);
            Given(s1, id) == Given(s, id) + if id == Sink(s) then bs else []
  {
  }

  lemma {:induction false} PutGives(s: State, fd: nat, bs: Bytes, id: nat)
    requires Ready(s) && fd in s.os.table && s.os.table[fd] != Sink(s) && id in s.files
    ensures Kept(s, PutTo(s, fd, bs)) && PutTo(s, fd, bs).buffer == s.buffer
    ensures Given(PutTo(s, fd, bs), id) == Given(s, id) + if s.os.table[fd] == id then bs else []
  {
    FrontWritten(s.files[s.os.table[fd]], bs);
  }

  /** A flush gives nothing to anyone that was not given before, and a full one leaves nothing in the buffer. */
  lemma {:induction false} FlushGives(s: State, k: nat)
    requires Ready(s)
    ensures Kept(s, s.FlushSome(k)) && forall id :: id in s.files ==> Given(s.FlushSome(k), id) == Given(s, id)
    ensures s.FlushSome(k).os == s.os && s.FlushSome(k).unused == s.unused && s.FlushSome(k).files.Keys == s.files.Keys
    ensures k == |s.buffer| ==> s.FlushSome(k).buffer == []
  {
    if k <= |s.buffer| {
      var f := s.files[Sink(s)];
      FrontWritten(f, s.buffer[..k]);
      assert Front(f) + s.buffer[..k] + s.buffer[k..] == Front(f) + s.buffer;
    }
  }

  lemma {:induction false} FlushIfGives(s: State, b: bool)
    requires Ready(s)
    ensures var s0 := s.FlushIf(b);
      && Kept(s, s0) && GivenSame(s, s0) && s0.os == s.os && s0.unused == s.unused && s0.files.Keys == s.files.Keys
      && (b ==> s0.buffer == [])
  {
    FlushGives(s, |s.buffer|);
  }

  /** The constructor's calls behind its flush, when they succeed. */
  lemma {:induction false} OpenUnflushed(s: State, target: nat)
    requires Ready(s) && Opens(s.os.table.Keys, target, true, true)
    ensures var (s1, c) := Open(s, target, false, true, true);
      && c.Some? && c.value.target == target
      && c.value.file >= 0 && c.value.file in s1.os.table && s1.os.table[c.value.file] == s.unused
      && s1.files == s.files[s.unused := RawFile([], 0)] && s1.buffer == s.buffer && s1.stream == s.stream
      && Ready(s1) && s1.os.table.Keys == Inside(s.os.table.Keys)
      && target in s1.os.table && s1.os.table[target] == s.unused
      && forall fd :: fd in s.os.table && fd != target ==> s1.os.table[fd] == s.os.table[fd]
  {
    var t := s.os.table;
    var f := LowestFree(t.Keys);
    var more := t[f := s.unused];
    assert more.Keys == t.Keys + {f};
    var copy := LowestFree(more.Keys);
    assert (t.Keys + {f}) + {copy} == Inside(t.Keys);
    var s1 := Open(s, target, false, true, true).0;
    assert s1.os.table == more[copy := more[target]][target := s.unused];
    hide LowestFree, Open;
  }

  lemma {:induction false} OnlyFlushes(s: State, target: nat, flushes: bool)
    ensures var (s1, c) := Open(s, target, flushes, true, true);
            var (s2, d) := Open(s.FlushIf(flushes), target, false, true, true);
      && s1 == s2 && c.Some? == d.Some?
      && (c.Some? ==> c.value == d.value.(flushes := flushes))
  {
    hide State.Flush, LowestFree;
  }

  /**
    A constructor that succeeds redirects its target, whatever that is: it names a new, empty file,
    and every other descriptor that was open still names what it did.
   */
  lemma {:induction false} TargetRedirected(s: State, target: nat, flushes: bool)
    requires Ready(s) && Opens(s.os.table.Keys, target, true, true)
    ensures var (s1, c) := Open(s, target, flushes, true, true);
      && c.Some? && c.value.target == target && c.value.flushes == flushes
      && c.value.file >= 0 && c.value.file in s1.os.table && s1.os.table[c.value.file] == s.unused
      && Redirects(s, s1, target) && s1.os.table.Keys == Inside(s.os.table.Keys)
      && s1.files == s.FlushIf(flushes).files[s.unused := RawFile([], 0)] && s1.buffer == s.FlushIf(flushes).buffer
  {
    FlushGives(s, |s.buffer|);
    var s0 := s.FlushIf(flushes);
    assert s0.os == s.os && s0.unused == s.unused && s0.stream == s.stream && Ready(s0);
    OpenUnflushed(s0, target);
    OnlyFlushes(s, target, flushes);
    hide Open, State.FlushIf, Ready, Opens, Inside;
  }

  lemma {:induction false} RedirectedNaming(s: State, s1: State, mine: set<nat>, target: nat)
    requires Ready(s) && Redirects(s, s1, target) && mine <= s.os.table.Keys
    ensures forall id :: id in s.files ==> Naming(s1, mine, id) == Naming(s, mine, id) - {target}
    ensures Naming(s1, mine, s.unused) == {target} * mine
  {
    forall id | id in s.files ensures Naming(s1, mine, id) == Naming(s, mine, id) - {target} {
      assert forall fd :: fd in Naming(s1, mine, id) <==> fd in Naming(s, mine, id) && fd != target;
    }
    assert forall fd :: fd in Naming(s1, mine, s.unused) <==> fd == target && fd in mine;
  }

  /** With a flush before it the redirection takes nothing from anyone, and the new file has nothing. */
  lemma {:induction false} RedirectedGives(s: State, s0: State, s1: State, target: nat)
    requires Ready(s) && Redirects(s, s1, target) && Kept(s, s0) && GivenSame(s, s0)
    requires s1.files == s0.files[s.unused := RawFile([], 0)] && s1.buffer == s0.buffer
    requires target == s.stream ==> s1.buffer == []
    ensures GivenSame(s, s1) && Given(s1, s.unused) == []
  {
    assert Sink(s1) == if target == s.stream then s.unused else Sink(s);
  }

  /** With it nothing that was printed before is lost or goes elsewhere, and the new file has nothing. */
  lemma {:induction false} OpenGives(s: State, mine: set<nat>, target: nat, flushes: bool)
    requires Fits(s, mine) && Opens(s.os.table.Keys, target, true, true) && (target == s.stream ==> flushes)
    ensures var s1 := Open(s, target, flushes, true, true).0;
            Redirects(s, s1, target) && Fits(s1, mine) && GivenSame(s, s1) && Given(s1, s.unused) == []
  {
    hide State.FlushIf;
    TargetRedirected(s, target, flushes);
    FlushIfGives(s, flushes);
    var s0, s1 := s.FlushIf(flushes), Open(s, target, flushes, true, true).0;
    hide Open, Inside, Opens, Given;
    RedirectedGives(s, s0, s1, target);
    hide GivenSame;
    assert Sink(s1) == if target == s.stream then s.unused else Sink(s);
  }

  /** A capture that does not open has at most flushed, and made a file nobody sees. */
  lemma {:induction false} OpenFails(s: State, target: nat, flushes: bool, tmpWorks: bool, dupWorks: bool)
    requires Ready(s) && !Opens(s.os.table.Keys, target, tmpWorks, dupWorks)
    ensures var (s1, c) := Open(s, target, flushes, tmpWorks, dupWorks);
            c.None? && Kept(s, s1) && GivenSame(s, s1)
  {
    hide State.FlushIf;
    FlushIfGives(s, flushes);
    var s0, s1 := s.FlushIf(flushes), Open(s, target, flushes, tmpWorks, dupWorks).0;
    FailedOpen(s, target, flushes, tmpWorks, dupWorks);
    hide Open, Opens;
    assert forall id :: id in s0.files ==> id in s1.files && s1.files[id] == s0.files[id];
  }

  lemma {:induction false} FailedOpen(s: State, target: nat, flushes: bool, tmpWorks: bool, dupWorks: bool)
    requires Ready(s.FlushIf(flushes)) && !Opens(s.FlushIf(flushes).os.table.Keys, target, tmpWorks, dupWorks)
    ensures var s0 := s.FlushIf(flushes);
            var (s1, c) := Open(s, target, flushes, tmpWorks, dupWorks);
      && c.None? && s1.os.table == s0.os.table && s1.buffer == s0.buffer && s1.stream == s0.stream
      && (s1.files, s1.unused) == if tmpWorks then (s0.files[s0.unused := RawFile([], 0)], s0.unused + 1)
                                  else (s0.files, s0.unused)
  {
    hide State.FlushIf;
  }

  /** The destructor gives nothing to anyone but what was on its way, whether or not the capture was read. */
  lemma {:induction false} CloseGives(s: State, target: nat, flushes: bool, s3: State)
    requires Ready(s) && Opens(s.os.table.Keys, target, true, true) && (target == s.stream ==> flushes)
    requires Open(s, target, flushes, true, true).1.Some? && Kept(Open(s, target, flushes, true, true).0, s3)
    requires forall id :: id in s.files ==> id in s3.files
    ensures var s4 := Close(s3, Open(s, target, flushes, true, true).1.value);
            Kept(s, s4) && forall id :: id in s.files ==> Given(s4, id) == Given(s3, id)
  {
    hide State.FlushIf;
    TargetRedirected(s, target, flushes);
    var (s1, c) := Open(s, target, flushes, true, true);
    CloseRestoresTable(s, target, flushes, true, true, s3);
    FlushIfGives(s3, flushes);
    var s4, s5 := Close(s3, c.value), s3.FlushIf(flushes);
    assert s4 == s5.(os := s4.os);
    hide Open, Close, Inside, Opens, Given;
    RestoredGives(s, s1, s3, s5, s4, target);
  }

  lemma {:induction false} RestoredGives(s: State, s1: State, s3: State, s5: State, s4: State, target: nat)
    requires Ready(s) && Redirects(s, s1, target) && Kept(s1, s3) && Kept(s3, s5) && GivenSame(s3, s5)
    requires forall id :: id in s.files ==> id in s3.files
    requires s4 == s5.(os := s4.os) && s4.os.table == s.os.table
    requires target == s.stream ==> s5.buffer == []
    ensures Kept(s, s4) && forall id :: id in s.files ==> Given(s4, id) == Given(s3, id)
  {
    assert Sink(s5) == if target == s.stream then s.unused else Sink(s);
    forall id | id in s.files ensures Given(s4, id) == Given(s3, id) {
      assert Given(s5, id) == Given(s3, id);
    }
  }

  /** content() reports all that the capture's file was given. */
  lemma {:induction false} ContentIsGiven(s: State, target: nat, flushes: bool, s2: State)
    requires Ready(s) && Opens(s.os.table.Keys, target, true, true) && (target == s.stream ==> flushes)
    requires Open(s, target, flushes, true, true).1.Some? && Kept(Open(s, target, flushes, true, true).0, s2)
    ensures var c := Open(s, target, flushes, true, true).1.value;
            var (s3, text) := Content(s2, c);
            s.unused in s2.files && text == Given(s2, s.unused) && Kept(s2, s3) && GivenSame(s2, s3)
  {
    TargetRedirected(s, target, flushes);
    FlushGives(s2, |s2.buffer|);
    hide Open, State.Flush, Inside, Opens;
  }

  /** Only the program's own descriptors matter to what is sent. */
  lemma {:induction false} SentThroughMine(p: Script, open: set<nat>, stream: nat, fds: set<nat>, mine: set<nat>)
    requires Careful(p, mine, stream) && stream in mine
    ensures Sent(p, open, stream, fds) == Sent(p, open, stream, fds * mine)
    decreases p
  {
    match p
    case End =>
    case Print(_, next) => SentThroughMine(next, open, stream, fds, mine);
    case Put(_, _, next) => SentThroughMine(next, open, stream, fds, mine);
    case AutoFlush(_, next) => SentThroughMine(next, open, stream, fds, mine);
    case Within(target, _, _, _, body, _, next) =>
      SentThroughMine(body, Inside(open), stream, fds - {target}, mine);
      assert (fds - {target}) * mine == fds * mine - {target};
      SentThroughMine(next, open, stream, fds, mine);
  }

  /**
    Every byte reaches the file behind its descriptor's innermost capture, however the library, failing
    constructors and bodies left early interleave: content() reports exactly the bytes sent through
    the captured descriptor, and each file that was there before gets the bytes sent through the
    descriptors naming it outside their captures, in order, and nothing else.
   */
  lemma {:induction false} BytesReachInnermostCapture(s: State, p: Script, mine: set<nat>)
    requires Fits(s, mine) && Careful(p, mine, s.stream)
    ensures Kept(s, Exec(s, p).0) && Delivered(s, Exec(s, p).0, p, mine)
    ensures Exec(s, p).1 == Meant(p, s.os.table.Keys, s.stream)
    decreases p
  {
    hide Open, Content, Close;
    match p
    case End => assert Exec(s, p).0 == s;
    case Print(bs, next) =>
      BytesReachInnermostCapture(s.(buffer := s.buffer + bs), next, mine);
      hide Delivered, Given;
      PrintDelivers(s, Exec(s, p).0, p, mine);
    case Put(fd, bs, next) =>
      PutGives(s, fd, bs, Sink(s));
      BytesReachInnermostCapture(PutTo(s, fd, bs), next, mine);
      hide Delivered, Given, PutTo;
      PutDelivers(s, Exec(s, p).0, p, mine);
    case AutoFlush(k, next) =>
      FlushGives(s, k);
      var s1 := s.FlushSome(k);
      SkipsSend(p, s.os.table.Keys, s.stream);
      hide State.FlushSome, Given, Delivered, SendsNoMore;
      BytesReachInnermostCapture(s1, next, mine);
      SameDelivers(s, s1, Exec(s1, next).0, p, next, mine);
    case Within(target, _, tmpWorks, dupWorks, _, _, _) =>
      hide Exec, Delivered, Meant, Careful, Fits;
      if Opens(s.os.table.Keys, target, tmpWorks, dupWorks) {
        CaptureDelivers(s, p, mine);
      } else {
        FailureDelivers(s, p, mine);
      }
  }

  lemma {:induction false} FailureDelivers(s: State, p: Script, mine: set<nat>)
    requires Fits(s, mine) && Careful(p, mine, s.stream) && p.Within?
    requires !Opens(s.os.table.Keys, p.target, p.tmpWorks, p.dupWorks)
    ensures Kept(s, Exec(s, p).0) && Delivered(s, Exec(s, p).0, p, mine)
    ensures Exec(s, p).1 == Meant(p, s.os.table.Keys, s.stream)
    decreases p, 0
  {
    OpenFails(s, p.target, p.flushes, p.tmpWorks, p.dupWorks);
    var s1 := Open(s, p.target, p.flushes, p.tmpWorks, p.dupWorks).0;
    SkipsSend(p, s.os.table.Keys, s.stream);
    hide Open, Content, Close, Given, Delivered, Opens, SendsNoMore;
    BytesReachInnermostCapture(s1, p.next, mine);
    SameDelivers(s, s1, Exec(s1, p.next).0, p, p.next, mine);
  }

  lemma {:induction false} PrintDelivers(s: State, s': State, p: Script, mine: set<nat>)
    requires Fits(s, mine) && p.Print?
    requires var s1 := s.(buffer := s.buffer + p.bs); Kept(s1, s') && Delivered(s1, s', p.next, mine)
    ensures Delivered(s, s', p, mine)
  {
    var s1 := s.(buffer := s.buffer + p.bs);
    forall id | id in s.files
      ensures Given(s', id) == Given(s, id) + Sent(p, s.os.table.Keys, s.stream, Naming(s, mine, id))
    {
      PrintGives(s, p.bs, id);
      hide Given;
      assert Naming(s1, mine, id) == Naming(s, mine, id);
    }
  }

  lemma {:induction false} PutDelivers(s: State, s': State, p: Script, mine: set<nat>)
    requires Fits(s, mine) && p.Put? && p.fd in mine && p.fd != s.stream
    requires Kept(s, PutTo(s, p.fd, p.bs)) && Kept(s, s') && Delivered(PutTo(s, p.fd, p.bs), s', p.next, mine)
    ensures Delivered(s, s', p, mine)
  {
    forall id | id in s.files
      ensures id in s'.files
      ensures Given(s', id) == Given(s, id) + Sent(p, s.os.table.Keys, s.stream, Naming(s, mine, id))
    {
      PutDeliversTo(s, s', p, mine, id);
    }
  }

  lemma {:induction false} PutDeliversTo(s: State, s': State, p: Script, mine: set<nat>, id: nat)
    requires Fits(s, mine) && p.Put? && p.fd in mine && p.fd != s.stream && id in s.files
    requires Kept(s, PutTo(s, p.fd, p.bs)) && Kept(s, s') && Delivered(PutTo(s, p.fd, p.bs), s', p.next, mine)
    ensures Given(s', id) == Given(s, id) + Sent(p, s.os.table.Keys, s.stream, Naming(s, mine, id))
  {
    var s1, names := PutTo(s, p.fd, p.bs), Naming(s, mine, id);
    PutGives(s, p.fd, p.bs, id);
    assert Naming(s1, mine, id) == names && (p.fd in names <==> s.os.table[p.fd] == id);
    var more, open := if s.os.table[p.fd] == id then p.bs else [], s.os.table.Keys;
    assert Sent(p, open, s.stream, names) == more + Sent(p.next, open, s.stream, names);
    hide Given, PutTo, Naming, Fits, Sent;
    assert Given(s', id) == Given(s1, id) + Sent(p.next, open, s.stream, names);
  }

  /** A step that gives nothing to anyone, and sends nothing, may come before. */
  lemma {:induction false} SameDelivers(s: State, s1: State, s': State, p: Script, next: Script, mine: set<nat>)
    requires Ready(s) && Kept(s, s1) && GivenSame(s, s1) && Kept(s1, s') && Delivered(s1, s', next, mine)
    requires SendsNoMore(p, next, s.os.table.Keys, s.stream)
    ensures Delivered(s, s', p, mine)
  {
    hide Given;
    forall id | id in s.files
      ensures Given(s', id) == Given(s, id) + Sent(p, s.os.table.Keys, s.stream, Naming(s, mine, id))
    {
      assert Naming(s1, mine, id) == Naming(s, mine, id);
    }
  }

  ghost predicate SendsNoMore(p: Script, next: Script, open: set<nat>, stream: nat) {
    forall fds: set<nat> :: Sent(p, open, stream, fds) == Sent(next, open, stream, fds)
  }

  lemma {:induction false} SkipsSend(p: Script, open: set<nat>, stream: nat)
    requires p.AutoFlush? || (p.Within? && !Opens(open, p.target, p.tmpWorks, p.dupWorks))
    ensures SendsNoMore(p, p.next, open, stream)
  {
  }

  /** The state when a capture's body is over, and when it is destroyed. */
  function AfterBody(s: State, p: Script): State
    requires p.Within?
  {
    Exec(Open(s, p.target, p.flushes, true, true).0, p.body).0
  }

  function AfterCapture(s: State, p: Script): State
    requires p.Within? && Open(s, p.target, p.flushes, true, true).1.Some?
  {
    var c := Open(s, p.target, p.flushes, true, true).1.value;
    var s2 := AfterBody(s, p);
    Close(if p.isRead then Content(s2, c).0 else s2, c)
  }

  /** A capture gives the outer files what its body sends past it. */
  lemma {:induction false} BodyDelivers(s: State, p: Script, mine: set<nat>)
    requires Fits(s, mine) && p.Within? && Careful(p, mine, s.stream) && Opens(s.os.table.Keys, p.target, true, true)
    requires var s1 := Open(s, p.target, p.flushes, true, true).0;
             Redirects(s, s1, p.target) && GivenSame(s, s1) && Given(s1, s.unused) == []
             && Kept(s1, AfterBody(s, p)) && Delivered(s1, AfterBody(s, p), p.body, mine)
             && s1.os.table.Keys == Inside(s.os.table.Keys)
    ensures var s2, inside := AfterBody(s, p), Inside(s.os.table.Keys);
            && s.unused in s2.files && Given(s2, s.unused) == Sent(p.body, inside, s.stream, {p.target})
            && forall id :: id in s.files ==>
                 && id in s2.files
                 && Given(s2, id) == Given(s, id) + Sent(p.body, inside, s.stream, Naming(s, mine, id) - {p.target})
  {
    var s1, s2 := Open(s, p.target, p.flushes, true, true).0, AfterBody(s, p);
    hide Open, AfterBody, Given, Opens, Inside;
    RedirectedNaming(s, s1, mine, p.target);
    SentThroughMine(p.body, Inside(s.os.table.Keys), s.stream, {p.target}, mine);
    var sent := Sent(p.body, Inside(s.os.table.Keys), s.stream, {p.target} * mine);
    assert Given(s2, s.unused) == Given(s1, s.unused) + sent;
  }

  /** The end of a capture, read or not, changes nothing of that. */
  lemma {:induction false} EndDelivers(s: State, p: Script, mine: set<nat>)
    requires Fits(s, mine) && p.Within? && Opens(s.os.table.Keys, p.target, true, true)
    requires p.target == s.stream ==> p.flushes
    requires Open(s, p.target, p.flushes, true, true).1.Some?
    requires Kept(Open(s, p.target, p.flushes, true, true).0, AfterBody(s, p))
    requires forall id :: id in s.files ==> id in AfterBody(s, p).files
    ensures Kept(s, AfterCapture(s, p))
    ensures forall id :: id in s.files ==> Given(AfterCapture(s, p), id) == Given(AfterBody(s, p), id)
    ensures var c := Open(s, p.target, p.flushes, true, true).1.value;
            s.unused in AfterBody(s, p).files && Content(AfterBody(s, p), c).1 == Given(AfterBody(s, p), s.unused)
  {
    var s2 := AfterBody(s, p);
    var (s1, c) := Open(s, p.target, p.flushes, true, true);
    ContentIsGiven(s, p.target, p.flushes, s2);
    var s3 := if p.isRead then Content(s2, c.value).0 else s2;
    CloseGives(s, p.target, p.flushes, s3);
    hide Open, Content, AfterBody, Given, Opens, Close;
  }

  lemma {:induction false} CaptureDelivers(s: State, p: Script, mine: set<nat>)
    requires Fits(s, mine) && Careful(p, mine, s.stream) && p.Within?
    requires Opens(s.os.table.Keys, p.target, p.tmpWorks, p.dupWorks)
    ensures Kept(s, Exec(s, p).0) && Delivered(s, Exec(s, p).0, p, mine)
    ensures Exec(s, p).1 == Meant(p, s.os.table.Keys, s.stream)
    decreases p, 0
  {
    TargetRedirected(s, p.target, p.flushes);
    OpenGives(s, mine, p.target, p.flushes);
    var s1 := Open(s, p.target, p.flushes, true, true).0;
    BytesReachInnermostCapture(s1, p.body, mine);
    BodyDelivers(s, p, mine);
    EndDelivers(s, p, mine);
    var s4 := AfterCapture(s, p);
    BytesReachInnermostCapture(s4, p.next, mine);
    hide Exec, Meant, Given;
    ExecWithin(s, p);
    TextsMeant(s, p);
    hide Open, AfterBody, AfterCapture, Opens, Careful;
    CaptureAndNext(s, s4, Exec(s, p).0, p, mine);
  }

  lemma {:induction false} ExecWithin(s: State, p: Script)
    requires p.Within? && p.tmpWorks && p.dupWorks && Open(s, p.target, p.flushes, true, true).1.Some?
    ensures Exec(s, p).0 == Exec(AfterCapture(s, p), p.next).0
  {
    hide Open, Content, Close;
  }

  lemma {:induction false} TextsMeant(s: State, p: Script)
    requires p.Within? && Opens(s.os.table.Keys, p.target, p.tmpWorks, p.dupWorks)
    requires Open(s, p.target, p.flushes, true, true).1.Some?
    requires var (s1, c) := Open(s, p.target, p.flushes, true, true);
             && s1.stream == s.stream && s1.os.table.Keys == Inside(s.os.table.Keys)
             && Exec(s1, p.body).1 == Meant(p.body, Inside(s.os.table.Keys), s.stream)
             && Content(AfterBody(s, p), c.value).1 == Sent(p.body, Inside(s.os.table.Keys), s.stream, {p.target})
    requires Exec(AfterCapture(s, p), p.next).1 == Meant(p.next, s.os.table.Keys, s.stream)
    ensures Exec(s, p).1 == Meant(p, s.os.table.Keys, s.stream)
  {
    hide Open, Content, Close, Inside;
  }

  lemma {:induction false} CaptureAndNext(s: State, s4: State, s': State, p: Script, mine: set<nat>)
    requires Ready(s) && p.Within? && Opens(s.os.table.Keys, p.target, p.tmpWorks, p.dupWorks)
    requires Kept(s, s4) && Kept(s4, s') && Delivered(s4, s', p.next, mine)
    requires forall id :: id in s.files ==>
               Given(s4, id) == Given(s, id)
                 + Sent(p.body, Inside(s.os.table.Keys), s.stream, Naming(s, mine, id) - {p.target})
    ensures Delivered(s, s', p, mine)
  {
    hide Given, Inside, Opens;
    forall id | id in s.files
      ensures Given(s', id) == Given(s, id) + Sent(p, s.os.table.Keys, s.stream, Naming(s, mine, id))
    {
      assert Naming(s4, mine, id) == Naming(s, mine, id);
    }
  }

  /** What is printed inside a capture of the stream never reaches the outer sink, whether or not it is read. */
  lemma {:induction false} OuterSinkUntouched(s: State, mine: set<nat>, body: Script, isRead: bool)
    requires Fits(s, mine) && Careful(body, mine, s.stream)
    ensures var p := Within(s.stream, true, true, true, body, isRead, End);
            Kept(s, Exec(s, p).0) && Given(Exec(s, p).0, Sink(s)) == Given(s, Sink(s))
  {
    var p := Within(s.stream, true, true, true, body, isRead, End);
    assert Careful(p, mine, s.stream);
    BytesReachInnermostCapture(s, p, mine);
    assert Naming(s, mine, Sink(s)) == {s.stream};
    SentThroughNone(body, Inside(s.os.table.Keys), s.stream);
    hide Exec, Given, Inside;
    assert {s.stream} - {s.stream} == {};
    assert Sent(p, s.os.table.Keys, s.stream, {s.stream}) == [];
  }

  lemma {:induction false} SentThroughNone(p: Script, open: set<nat>, stream: nat)
    ensures Sent(p, open, stream, {}) == []
    decreases p
  {
    match p
    case End =>
    case Print(_, next) => SentThroughNone(next, open, stream);
    case Put(_, _, next) => SentThroughNone(next, open, stream);
    case AutoFlush(_, next) => SentThroughNone(next, open, stream);
    case Within(target, _, _, _, body, _, next) =>
      assert {} - {target} == {};
      SentThroughNone(body, Inside(open), stream);
      SentThroughNone(next, open, stream);
  }

  /** A stream on descriptor 1 with one byte in its buffer, and the same inside a capture that did not flush it. */
  const BUFFERED := State(Files(map[1 := 0], 0, []), map[0 := RawFile([], 0)], 1, 1, "x")
  const CAPTURED := State(
    Files(map[0 := 1, 1 := 1, 2 := 0], 0, []), map[0 := RawFile([], 0), 1 := RawFile([], 0)], 2, 1, "x")

  lemma OpenedUnflushed()
    ensures Open(BUFFERED, 1, false, true, true) == (CAPTURED, Some(Capture(1, false, 0, 2)))
  {
    LowestFreeIsUnique({1}, 0);
    LowestFreeIsUnique({0, 1}, 2);
    assert BUFFERED.os.table.Keys == {1};
    var s1 := Tmpfile(BUFFERED, true).0;
    assert s1.os.table == map[1 := 0, 0 := 1];
    assert s1.os.table.Keys == {0, 1};
    var s2 := Open(BUFFERED, 1, false, true, true).0;
    assert s2.os.table == CAPTURED.os.table && s2.files == CAPTURED.files;
  }

  lemma FlushedInside()
    ensures Content(CAPTURED.FlushSome(1), Capture(1, false, 0, 2)) == (CAPTURED.FlushSome(1), "x")
  {
    assert CAPTURED.buffer[..1] == "x";
    var s2 := CAPTURED.FlushSome(1);
    assert s2.files[1] == RawFile("x", 1);
  }

  /**
    Without the stream to flush, a byte printed before the capture lands inside it: the guard on
    the stream's own descriptor cannot be dropped.
   */
  lemma UnflushedByteIsMisrouted()
    ensures var s := BUFFERED.(buffer := []);
            var p := Print("x", Within(1, false, true, true, AutoFlush(1, End), true, End));
            Exec(s, p).1 == ["x"] && Meant(p, {1}, 1) == [""]
  {
    var inside := AutoFlush(1, End);
    OpenedUnflushed();
    FlushedInside();
    hide Open, Content, Close, State.FlushSome;
    var s2 := CAPTURED.FlushSome(1);
    assert Exec(CAPTURED, inside) == (s2, []);
    assert Exec(BUFFERED, Within(1, false, true, true, inside, true, End)).1 == [] + ["x"] + [];
    assert BUFFERED.(buffer := [] + "x") == BUFFERED;
    assert Meant(Within(1, false, true, true, inside, true, End), {1}, 1) == [] + [[]] + [];
  }

  /** The C library and the kernel, as the capture calls them. */
  class Process {
    var s: State

    constructor (s: State)
      ensures this.s == s
    {
      this.s := s;
    }

    method Fflush()
      modifies this
      ensures s == old(s).Flush()
    {
      s := s.Flush();
    }

    method TmpFile(works: bool) returns (file: int)
      modifies this
      ensures (s, file) == Tmpfile(old(s), works)
    {
      var r := Tmpfile(s, works);
      s, file := r.0, r.1;
    }

    method DupFd(fd: nat, works: bool) returns (copy: int)
      modifies this
      ensures (s, copy) == Dup(old(s), fd, works)
    {
      var r := Dup(s, fd, works);
      s, copy := r.0, r.1;
    }

    method Dup2Fd(src: int, dst: nat)
      requires src >= 0
      modifies this
      ensures s == old(s).(os := old(s).os.Dup2(src, dst))
    {
      s := s.(os := s.os.Dup2(src, dst));
    }

    /** ftell(3) of a stream with nothing buffered: the offset of its file, or -1. */
    method Ftell(fd: int) returns (size: int)
      ensures size == if s.Names(fd) then s.files[s.os.table[fd]].pos as int else -1
    {
      size := if s.Names(fd) then s.files[s.os.table[fd]].pos as int else -1;
    }

    /** rewind(3) */
    method Rewind(fd: int)
      requires s.Names(fd)
      modifies this
      ensures var id := old(s.os.table[fd]);
              s == old(s).(files := old(s.files)[id := RawFile(old(s.files)[id].data, 0)])
    {
      var id := s.os.table[fd];
      s := s.(files := s.files[id := RawFile(s.files[id].data, 0)]);
    }

    /** fread(3) of `n` bytes, fewer at the end of the file. */
    method Fread(fd: int, n: nat) returns (bs: Bytes)
      requires s.Names(fd)
      modifies this
      ensures var id := old(s.os.table[fd]);
              var f := old(s.files)[id];
              var end := if f.pos + n <= |f.data| then f.pos + n else |f.data|;
              bs == f.data[f.pos..end] && s == old(s).(files := old(s.files)[id := RawFile(f.data, end)])
    {
      var id := s.os.table[fd];
      var f := s.files[id];
      var end := if f.pos + n <= |f.data| then f.pos + n else |f.data|;
      bs := f.data[f.pos..end];
      s := s.(files := s.files[id := RawFile(f.data, end)]);
    }

    method CloseFd(fd: int)
      modifies this
      ensures s == old(s).(os := old(s).os.Closed(fd))
    {
      s := s.(os := s.os.Closed(fd));
    }
  }

  class FdCapture {
    const target: nat
    const flushes: bool
    var file: int
    var saved: int

    constructor Holding(target: nat, flushes: bool, file: int, saved: int)
      ensures View() == Capture(target, flushes, file, saved)
    {
      this.target, this.flushes, this.file, this.saved := target, flushes, file, saved;
    }

    function View(): Capture
      reads this
    {
      Capture(target, flushes, file, saved)
    }

    /** The C++ constructor; null stands for the exception. */
    static method Create(p: Process, target: nat, flushes: bool, tmpWorks: bool, dupWorks: bool) returns (c: FdCapture?)
      modifies p
      ensures p.s == Open(old(p.s), target, flushes, tmpWorks, dupWorks).0
      ensures (if c == null then None else Some(c.View())) == Open(old(p.s), target, flushes, tmpWorks, dupWorks).1
      ensures c != null ==> fresh(c)
    {
      if flushes {
        p.Fflush();
      }
      var file := p.TmpFile(tmpWorks);
      var saved := p.DupFd(target, dupWorks);
      if file < 0 || saved < 0 {
        if file >= 0 {
          p.CloseFd(file);
        }
        if saved >= 0 {
          p.CloseFd(saved);
          saved := -1;
        }
        return null;
      }
      p.Dup2Fd(file, target);
      c := new FdCapture.Holding(target, flushes, file, saved);
    }

    /** content(); `ok` is false when it throws, which it does only without a file to read. */
    method ReadContent(p: Process) returns (ok: bool, text: Bytes)
      modifies p
      ensures ok <==> old(p.s).Names(file)
      ensures ok ==> (p.s, text) == Content(old(p.s), View())
    {
      if flushes {
        p.Fflush();
      }
      ghost var flushed := p.s;
      var size := p.Ftell(file);
      if size < 0 {
        return false, [];
      }
      ghost var id := p.s.os.table[file];
      p.Rewind(file);
      text := [];
      if size > 0 {
        text := p.Fread(file, size);
        if |text| != size {
          return false, text;
        }
      }
      assert text == Front(flushed.files[id]);
      assert p.s.files == flushed.files;
      ok := true;
    }

    method Destroy(p: Process)
      modifies p
      ensures p.s == Close(old(p.s), View())
    {
      if flushes {
        p.Fflush();
      }
      if saved >= 0 {
        p.Dup2Fd(saved, target);
        p.CloseFd(saved);
      }
      if file >= 0 {
        p.CloseFd(file);
      }
    }
  }

  /** A script run with capture objects, each living for its body. */
  method Run(p: Process, script: Script) returns (texts: seq<Bytes>)
    modifies p
    ensures (p.s, texts) == Exec(old(p.s), script)
    decreases script, 1
  {
    hide Open, Content, Close;
    if script.End? {
      texts := [];
    } else if script.Print? {
      p.s := p.s.(buffer := p.s.buffer + script.bs);
      texts := Run(p, script.next);
    } else if script.Put? {
      p.s := PutTo(p.s, script.fd, script.bs);
      texts := Run(p, script.next);
    } else if script.AutoFlush? {
      p.s := p.s.FlushSome(script.k);
      texts := Run(p, script.next);
    } else {
      ghost var s := p.s;
      var c := FdCapture.Create(p, script.target, script.flushes, script.tmpWorks, script.dupWorks);
      if c == null {
        texts := Run(p, script.next);
      } else {
        OpenedFile(s, script.target, script.flushes, script.tmpWorks, script.dupWorks);
        texts := RunInside(p, c, script);
        var after := Run(p, script.next);
        assert texts + after == Exec(s, script).1;
        texts := texts + after;
      }
    }
  }

  /** A capture's file is open, and known, when its constructor is done. */
  lemma {:induction false} OpenedFile(s: State, target: nat, flushes: bool, tmpWorks: bool, dupWorks: bool)
    ensures var (s1, c) := Open(s, target, flushes, tmpWorks, dupWorks); c.Some? ==> s1.Names(c.value.file)
  {
    hide State.Flush;
  }

  /** The life of a capture: its body, content() if it is called, and the destructor. */
  method RunInside(p: Process, c: FdCapture, script: Script) returns (texts: seq<Bytes>)
    requires script.Within? && p.s.Names(c.file)
    modifies p
    ensures var (s2, inner) := Exec(old(p.s), script.body);
            var (s3, text) := if script.isRead then Content(s2, c.View()) else (s2, []);
            p.s == Close(s3, c.View()) && texts == inner + (if script.isRead then [text] else [])
    decreases script, 0
  {
    hide Content, Close;
    TableRestored(p.s, script.body);
    texts := Run(p, script.body);
    if script.isRead {
      var ok, text := c.ReadContent(p);
      assert ok;
      texts := texts + [text];
    }
    c.Destroy(p);
  }

  /** What a capture of stdout around a script returns, and what it leaves outside. */
  lemma {:induction false} StdoutCaptured(s: State, fn: Script, mine: set<nat>)
    requires s.stream == 1 && Fits(s, mine) && Careful(fn, mine, 1)
    ensures var (s1, c) := Open(s, 1, true, true, true);
            var s2 := Exec(s1, fn).0;
      && c.Some? && s1.Names(c.value.file)
      && var (s3, text) := Content(s2, c.value);
         && text == Sent(fn, Inside(s.os.table.Keys), 1, {1})
         && Kept(s, Close(s3, c.value)) && Given(Close(s3, c.value), Sink(s)) == Given(s, Sink(s))
  {
    var p := Within(1, true, true, true, fn, true, End);
    TargetRedirected(s, 1, true);
    OuterSinkUntouched(s, mine, fn, true);
    BytesReachInnermostCapture(s, p, mine);
    var (s1, c) := Open(s, 1, true, true, true);
    var (s2, inner) := Exec(s1, fn);
    var (s3, text) := Content(s2, c.value);
    ExecAlone(s, fn);
    assert Meant(End, s.os.table.Keys, 1) == [];
    hide Exec, Sent, Inside, Given, Open, Content, Close;
    assert (inner + [text])[|inner + [text]| - 1] == text;
  }

  lemma {:induction false} ExecAlone(s: State, fn: Script)
    requires Open(s, 1, true, true, true).1.Some?
    ensures var (s1, c) := Open(s, 1, true, true, true);
            var (s2, inner) := Exec(s1, fn);
            var (s3, text) := Content(s2, c.value);
            Exec(s, Within(1, true, true, true, fn, true, End)) == (Close(s3, c.value), inner + [text])
  {
    hide Open, Content, Close;
    var (s1, c) := Open(s, 1, true, true, true);
    var (s2, inner) := Exec(s1, fn);
    var (s3, text) := Content(s2, c.value);
    assert Exec(Close(s3, c.value), End) == (Close(s3, c.value), []);
    assert inner + [text] + [] == inner + [text];
  }

  /** capture_stdout, of a function that runs the script `fn`; `ok` is false when the constructor throws. */
  method CaptureStdout(p: Process, fn: Script, tmpWorks: bool, dupWorks: bool, ghost mine: set<nat>)
    returns (ok: bool, text: Bytes)
    requires p.s.stream == 1 && Fits(p.s, mine) && Careful(fn, mine, 1)
    modifies p
    ensures ok <==> tmpWorks && dupWorks
    ensures ok ==> text == Sent(fn, Inside(old(p.s.os.table.Keys)), 1, {1})
    ensures Kept(old(p.s), p.s) && Given(p.s, old(Sink(p.s))) == old(Given(p.s, Sink(p.s)))
  {
    if tmpWorks && dupWorks {
      StdoutCaptured(p.s, fn, mine);
    } else {
      OpenFails(p.s, 1, true, tmpWorks, dupWorks);
    }
    hide Given, Sent, Inside, Careful, Open, Exec, Content, Close;
    var c := FdCapture.Create(p, 1, true, tmpWorks, dupWorks);
    if c == null {
      return false, [];
    }
    var texts := RunInside(p, c, Within(1, true, true, true, fn, true, End));
    ok, text := true, texts[|texts| - 1];
  }
}
