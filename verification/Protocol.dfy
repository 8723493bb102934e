/**
  The two runners and everything that goes on around them, as one machine over events: the
  parent's steps from pipe creation to reaping, and the steps of the child and whatever it starts,
  in any interleaving. ftl/process/subprocess.hpp, `run`, `child_exec`, `drain_once` and `collect`;
  ftl/io/pipe.hpp, `write_all`; ftl/ftl.h, `ftl_run_command`.
 */
module Protocol {
  import opened Descriptors
  import opened Wiring
  import opened Clocks

  newtype byte = b: int | 0 <= b < 256

  type Bytes = seq<byte>

  /** Writes of up to PIPE_BUF bytes to a pipe are not split. */
  const PIPE_BUF: nat := 4096
  /** The size of drain_once's buffer. */
  const CHUNK: nat := 4096
  const INT_MAX := 0x7fff_ffff
  /** The process that fork created; its descendants have other names. */
  const CHILD: nat := 0

  /** The longest the C runner polls in one go, in milliseconds. */
  const LONGEST_POLL := 1_000_000

  /** Which of the two runners it is: they differ in how the child rewires and the parent collects. */
  datatype Style = Cpp | PlainC

  /** What a run starts from: the caller's table, the settings, and the size of a pipe. */
  datatype Config = Config(
    style: Style, initial: Table, split: bool, limit: int, stdin: Bytes, capacity: nat, timeoutMs: int)

  ghost predicate GoodConfig(c: Config) {
    && AllForeign(c.initial)
    && (match c.style
        case Cpp => c.limit <= 0 || c.limit >= 3
        case PlainC => c.limit == 0 && !c.split)
    && c.capacity >= PIPE_BUF
    && c.timeoutMs >= 1
  }

  /** A pipe, with all that was ever put in and taken out, and how much the processes asked to put in. */
  datatype Pipe = Pipe(queue: Bytes, written: Bytes, taken: Bytes, asked: nat) {
    function Put(bs: Bytes): Pipe {
      this.(queue := queue + bs, written := written + bs)
    }

    function Take(k: nat): Pipe
      requires k <= |queue|
    {
      this.(queue := queue[k..], taken := taken + queue[..k])
    }
  }

  const EMPTY := Pipe([], [], [], 0)

  /** What a process is about; a system call it has made is all it does until that returns. */
  datatype Activity =
    | Rewiring(done: nat)
    | Running
    | Reading(fd: nat, max: nat)
    | Writing(fd: nat, data: Bytes)

  datatype Process = Process(table: Table, activity: Activity)

  /**
    Where the parent is. `Polling` names the time at which poll gives up, if it does. A pipe or a
    fork that fails leads through Unwinding to Failed, everything else to Done.
   */
  datatype Phase =
    | Setup | Unwinding | Failed
    | Launched | Feeding | Fed
    | Check | Polling(until: Option<int>) | Draining(ready: seq<Stream>)
    | Expired | Waiting | Leaving | Done

  /** The variables of the collecting loop; only the C runner keeps its `last` reading of the clock. */
  datatype Collector = Collector(
    output: Bytes, errorOutput: Bytes, outOpen: bool, errOpen: bool,
    timedOut: bool, killed: bool, threw: bool, readFailed: bool, reaped: bool, deadline: int, last: int)
  {
    predicate IsOpen(st: Stream) {
      (st == Out && outOpen) || (st == Err && errOpen)
    }

    function Closed(st: Stream): Collector {
      if st == Err then this.(errOpen := false) else this.(outOpen := false)
    }

    function Got(st: Stream, bs: Bytes): Collector {
      if st == Err then this.(errorOutput := errorOutput + bs) else this.(output := output + bs)
    }

    function TimesOut(): Collector {
      this.(timedOut := true)
    }

    /** The C runner's elapsed_ms, as of its last reading of the clock. */
    function Elapsed(c: Config): int {
      ElapsedMs(At(deadline - c.timeoutMs * NS_PER_MS), At(last))
    }

    /** The C runner reads the clock whenever poll returns. */
    function ClockRead(c: Config, now: int): Collector {
      if c.style.Cpp? then this else this.(last := now)
    }
  }

  /** The parent: where it is, its table, and what it has yet to feed. */
  datatype Parent = Parent(phase: Phase, table: Table, tail: Bytes, writeFailed: bool, col: Collector) {
    /** The head of the loop: leave it, or poll for what is left of the time. */
    function TimeChecked(c: Config, now: int): Parent {
      var remaining := if c.style.Cpp? then ToMs(col.deadline - now) else c.timeoutMs - col.Elapsed(c);
      if !col.outOpen && !col.errOpen then this.(phase := Waiting)
      else if remaining <= 0 then this.(phase := Expired, col := col.TimesOut())
      else this.(phase := Polling(PollUntil(now, PollMs(c, remaining))))
    }

    /** poll returned 0; the C runner gives up only if it finds the time to be up. */
    function PollExpired(c: Config, now: int): Parent {
      var col' := col.ClockRead(c, now);
      if c.style.Cpp? || col'.Elapsed(c) >= c.timeoutMs then this.(phase := Expired, col := col'.TimesOut())
      else this.(phase := Check, col := col')
    }

    /** poll failed: the one runner throws, the other stops reading. */
    function PollFailed(c: Config, now: int): Parent {
      if c.style.Cpp? then this.(phase := Leaving, col := col.(threw := true))
      else this.(phase := Waiting, col := col.ClockRead(c, now).Closed(Out).(readFailed := true))
    }
  }

  datatype State = State(par: Parent, procs: map<nat, Process>, inP: Pipe, outP: Pipe, errP: Pipe, clock: int) {
    function PipeOf(st: Stream): Pipe {
      match st case In => inP case Out => outP case Err => errP
    }

    function WithPipe(st: Stream, p: Pipe): State {
      match st case In => this.(inP := p) case Out => this.(outP := p) case Err => this.(errP := p)
    }

    /** Some process still has `h` open. */
    predicate Held(h: Handle) {
      h in par.table.Values || exists p :: p in procs && h in procs[p].table.Values
    }

    /** poll reports POLLIN or POLLHUP. */
    predicate Readable(st: Stream) {
      PipeOf(st).queue != [] || !Held(PipeEnd(st, WriteEnd))
    }

    function WithActivity(p: nat, a: Activity): State
      requires p in procs
    {
      this.(procs := procs[p := procs[p].(activity := a)])
    }

    function WithTable(p: nat, t: Table): State
      requires p in procs
    {
      this.(procs := procs[p := procs[p].(table := t)])
    }
  }

  const IDLE := Collector([], [], false, false, false, false, false, false, false, 0, 0)

  function Start(c: Config): State {
    State(Parent(Setup, c.initial, c.stdin, false, IDLE), map[], EMPTY, EMPTY, EMPTY, 0)
  }

  function ForkedTable(c: Config): Table {
    ForkTable(c.initial, c.split).0
  }

  function EndsOf(c: Config): Ends {
    ForkTable(c.initial, c.split).1
  }

  /** The child's calls between fork and exec. */
  function Ops(c: Config): (ops: seq<FdOp>)
    ensures |ops| > 0
  {
    match c.style case Cpp => ChildOps(EndsOf(c)) case PlainC => CChildOps(EndsOf(c))
  }

  /** A pipe takes `k` of `n` bytes in one go. */
  predicate Accepts(c: Config, p: Pipe, n: nat, k: nat) {
    0 < k <= n && |p.queue| + k <= c.capacity && (n <= PIPE_BUF ==> k == n)
  }

  /** static_cast<int>, on a 32-bit int. */
  function AsInt(x: int): int {
    (x + 0x8000_0000) % 0x1_0000_0000 - 0x8000_0000
  }

  /** The timeout given to poll: cut to an int by the one runner, and to LONGEST_POLL by the other. */
  function PollMs(c: Config, remaining: int): int {
    if c.style.Cpp? then AsInt(remaining) else if remaining > LONGEST_POLL then LONGEST_POLL else remaining
  }

  /** When a poll of `ms` milliseconds begun at `now` gives up; a negative timeout never does. */
  function PollUntil(now: int, ms: int): Option<int> {
    if ms < 0 then None else Some(now + ms * NS_PER_MS)
  }

  /** A step of the child or of a process it started, directly or not. */
  datatype ProcEvent =
    | Rewire                                   // the child's next dup2 or close, then exec
    | ReadCall(p: nat, fd: nat, max: nat)
    | ReadDone(p: nat, k: nat)
    | WriteCall(p: nat, fd: nat, data: Bytes)
    | WriteDone(p: nat, k: nat)
    | WriteFails(p: nat)                       // EPIPE
    | CloseFd(p: nat, fd: nat)
    | DupFd(p: nat, fd: nat, dst: nat)
    | Spawn(p: nat, q: nat)
    | Exit(p: nat)
    | Die                                      // the child, of the parent's SIGKILL
    | Signal(p: nat)                           // killed from outside

  /** A step of the parent. */
  datatype ParentEvent =
    | PipeMade(st: Stream)
    | Forked
    | SetupFails                               // pipe or fork
    | ParentClose(end: nat)
    | Feed
    | FeedWrite(k: nat)
    | FeedStop                                 // EPIPE
    | FeedError                                // any other error but EINTR
    | FeedDone
    | Collect
    | CheckTime
    | PollReady(ready: seq<Stream>)
    | PollTimeout
    | PollInterrupted                          // EINTR
    | PollFails
    | Drain(k: nat)
    | DrainError
    | ReadRetried                              // EINTR, after which the C runner polls again
    | Kill
    | Reap
    | WaitInterrupted                          // EINTR, after which no runner waits again
    | Leave

  datatype Event = Below(proc: ProcEvent) | Above(step: ParentEvent) | Tick(ns: int)

  /** The ends the parent closes at this point. */
  predicate MayClose(c: Config, s: State, h: Handle) {
    match s.par.phase
    case Unwinding => h.PipeEnd?
    case Launched => h == PipeEnd(In, ReadEnd) || h == PipeEnd(Out, WriteEnd) || h == PipeEnd(Err, WriteEnd)
    case Fed => h == PipeEnd(In, WriteEnd)
    case Waiting => c.style.PlainC? && h == PipeEnd(Out, ReadEnd)
    case Leaving => h.PipeEnd?
    case _ => false
  }

  predicate NoEnds(t: Table) {
    forall fd: nat :: fd in t ==> !t[fd].PipeEnd?
  }

  predicate OneOrBoth(ready: seq<Stream>) {
    ready == [Out] || ready == [Err] || ready == [Out, Err]
  }

  /** A process between system calls. */
  predicate IsFree(s: State, p: nat) {
    p in s.procs && s.procs[p].activity == Running
  }

  predicate Refers(s: State, p: nat, fd: nat, side: Side) {
    p in s.procs && fd in s.procs[p].table && s.procs[p].table[fd].PipeEnd? && s.procs[p].table[fd].side == side
  }

  /** The stream of a pipe end that a process has open. */
  function StreamAt(s: State, p: nat, fd: nat): Stream
    requires p in s.procs && fd in s.procs[p].table && s.procs[p].table[fd].PipeEnd?
  {
    s.procs[p].table[fd].stream
  }

  /** A process inside a read, or a write, on a runner pipe. */
  predicate Reads(s: State, p: nat) {
    p in s.procs && s.procs[p].activity.Reading? && Refers(s, p, s.procs[p].activity.fd, ReadEnd)
  }

  predicate Writes(s: State, p: nat) {
    p in s.procs && s.procs[p].activity.Writing? && Refers(s, p, s.procs[p].activity.fd, WriteEnd)
  }

  /** A read of at most `max` bytes returns `k`; it waits while the pipe is empty and has a writer. */
  predicate Yields(s: State, st: Stream, max: nat, k: nat) {
    if s.PipeOf(st).queue != [] then 0 < k <= max && k <= |s.PipeOf(st).queue|
    else k == 0 && !s.Held(PipeEnd(st, WriteEnd))
  }

  predicate ProcEnabled(c: Config, s: State, e: ProcEvent) {
    match e
    case Rewire => CHILD in s.procs && s.procs[CHILD].activity.Rewiring? && s.procs[CHILD].activity.done < |Ops(c)|
    case ReadCall(p, fd, max) => IsFree(s, p) && Refers(s, p, fd, ReadEnd) && max > 0
    case ReadDone(p, k) => Reads(s, p) && Yields(s, StreamAt(s, p, s.procs[p].activity.fd), s.procs[p].activity.max, k)
    case WriteCall(p, fd, data) => IsFree(s, p) && Refers(s, p, fd, WriteEnd) && data != []
    case WriteDone(p, k) =>
      && Writes(s, p) && s.Held(PipeEnd(StreamAt(s, p, s.procs[p].activity.fd), ReadEnd))
      && Accepts(c, s.PipeOf(StreamAt(s, p, s.procs[p].activity.fd)), |s.procs[p].activity.data|, k)
    case WriteFails(p) => Writes(s, p) && !s.Held(PipeEnd(StreamAt(s, p, s.procs[p].activity.fd), ReadEnd))
    case CloseFd(p, fd) => IsFree(s, p) && fd in s.procs[p].table
    case DupFd(p, fd, _) => IsFree(s, p) && fd in s.procs[p].table
    case Spawn(p, q) => IsFree(s, p) && q !in s.procs && q != CHILD
    case Exit(p) => IsFree(s, p)
    case Die => s.par.col.killed && CHILD in s.procs
    case Signal(p) => p in s.procs
  }

  /** Before collecting, and closing. */
  predicate Opens(e: ParentEvent) {
    || e.PipeMade? || e.Forked? || e.SetupFails? || e.ParentClose?
    || e.Feed? || e.FeedWrite? || e.FeedStop? || e.FeedError? || e.FeedDone?
  }

  /** poll returns. */
  predicate Polled(e: ParentEvent) {
    e.PollReady? || e.PollTimeout? || e.PollInterrupted? || e.PollFails?
  }

  predicate OpenEnabled(c: Config, s: State, e: ParentEvent)
    requires Opens(e)
  {
    match e
    case PipeMade(st) => s.par.phase == Setup
    case Forked => s.par.phase == Setup && s.par.table == ForkedTable(c)
    case SetupFails => s.par.phase == Setup
    case ParentClose(end) => end in s.par.table && MayClose(c, s, s.par.table[end])
    case Feed =>
      && s.par.phase == Launched && PipeEnd(In, ReadEnd) !in s.par.table.Values
      && PipeEnd(Out, WriteEnd) !in s.par.table.Values && PipeEnd(Err, WriteEnd) !in s.par.table.Values
    case FeedWrite(k) =>
      s.par.phase == Feeding && s.Held(PipeEnd(In, ReadEnd)) && Accepts(c, s.inP, |s.par.tail|, k)
    case FeedStop => s.par.phase == Feeding && s.par.tail != [] && !s.Held(PipeEnd(In, ReadEnd))
    case FeedError => s.par.phase == Feeding && s.par.tail != []
    case FeedDone => s.par.phase == Feeding && s.par.tail == []
  }

  predicate LoopEnabled(c: Config, s: State, e: ParentEvent)
    requires !Opens(e)
  {
    match e
    case Collect => s.par.phase == Fed && PipeEnd(In, WriteEnd) !in s.par.table.Values
    case CheckTime => s.par.phase == Check
    case PollReady(ready) =>
      s.par.phase.Polling? && OneOrBoth(ready) && forall st :: st in ready ==> s.par.col.IsOpen(st) && s.Readable(st)
    case PollTimeout => s.par.phase.Polling? && s.par.phase.until.Some? && s.clock >= s.par.phase.until.value
    case PollInterrupted => s.par.phase.Polling?
    case PollFails => s.par.phase.Polling?
    case Drain(k) =>
      s.par.phase.Draining? && s.par.phase.ready != [] && Yields(s, s.par.phase.ready[0], CHUNK, k)
    case DrainError => s.par.phase.Draining? && s.par.phase.ready != []
    case ReadRetried => c.style.PlainC? && s.par.phase.Draining?
    case Kill => s.par.phase == Expired
    case Reap =>
      && s.par.phase == Waiting && CHILD !in s.procs
      && (c.style.PlainC? ==> PipeEnd(Out, ReadEnd) !in s.par.table.Values)
    case WaitInterrupted =>
      s.par.phase == Waiting && (c.style.PlainC? ==> PipeEnd(Out, ReadEnd) !in s.par.table.Values)
    case Leave => (s.par.phase == Leaving || s.par.phase == Unwinding) && NoEnds(s.par.table)
  }

  predicate ParentEnabled(c: Config, s: State, e: ParentEvent) {
    if Opens(e) then OpenEnabled(c, s, e) else LoopEnabled(c, s, e)
  }

  predicate Enabled(c: Config, s: State, e: Event) {
    match e
    case Below(pe) => ProcEnabled(c, s, pe)
    case Above(pe) => ParentEnabled(c, s, pe)
    case Tick(ns) => ns > 0
  }

  /** The child after its next rewiring step; exec follows the last. */
  function Rewired(c: Config, p: Process): Process
    requires p.activity.Rewiring? && p.activity.done < |Ops(c)|
  {
    var n := p.activity.done;
    Process(ApplyOp(p.table, Ops(c)[n], c.limit), if n + 1 < |Ops(c)| then Rewiring(n + 1) else Running)
  }

  /** One write of `k` bytes by a process; the call returns when all its bytes are in. */
  function Written(s: State, p: nat, k: nat): State
    requires Writes(s, p) && k <= |s.procs[p].activity.data|
  {
    var fd, data := s.procs[p].activity.fd, s.procs[p].activity.data;
    var st := StreamAt(s, p, fd);
    s.WithPipe(st, s.PipeOf(st).Put(data[..k])).WithActivity(p, if k == |data| then Running else Writing(fd, data[k..]))
  }

  function ReadBy(s: State, p: nat, k: nat): State
    requires Reads(s, p) && k <= |s.PipeOf(StreamAt(s, p, s.procs[p].activity.fd)).queue|
  {
    var st := StreamAt(s, p, s.procs[p].activity.fd);
    s.WithPipe(st, s.PipeOf(st).Take(k)).WithActivity(p, Running)
  }

  function NextDrain(ready: seq<Stream>): Phase
    requires ready != []
  {
    if |ready| == 1 then Check else Draining(ready[1..])
  }

  /** drain_once: `k` bytes, none of which means end of file. */
  function Drained(s: State, st: Stream, k: nat): State
    requires k <= |s.PipeOf(st).queue|
  {
    var bs := s.PipeOf(st).queue[..k];
    var col := s.par.col;
    s.WithPipe(st, s.PipeOf(st).Take(k)).(par := s.par.(col := if k == 0 then col.Closed(st) else col.Got(st, bs)))
  }

  function ProcAfter(c: Config, s: State, e: ProcEvent): State
    requires ProcEnabled(c, s, e)
  {
    match e
    case Rewire => s.(procs := s.procs[CHILD := Rewired(c, s.procs[CHILD])])
    case ReadCall(p, fd, max) => s.WithActivity(p, Reading(fd, max))
    case ReadDone(p, k) => ReadBy(s, p, k)
    case WriteCall(p, fd, data) =>
      var pipe := s.PipeOf(StreamAt(s, p, fd));
      s.WithPipe(StreamAt(s, p, fd), pipe.(asked := pipe.asked + |data|)).WithActivity(p, Writing(fd, data))
    case WriteDone(p, k) => Written(s, p, k)
    case WriteFails(p) => s.WithActivity(p, Running)
    case CloseFd(p, fd) => s.WithTable(p, s.procs[p].table - {fd})
    case DupFd(p, fd, dst) => s.WithTable(p, s.procs[p].table[dst := s.procs[p].table[fd]])
    case Spawn(p, q) => s.(procs := s.procs[q := s.procs[p]])
    case Exit(p) => s.(procs := s.procs - {p})
    case Die => s.(procs := s.procs - {CHILD})
    case Signal(p) => s.(procs := s.procs - {p})
  }

  function OpenAfter(c: Config, s: State, e: ParentEvent): State
    requires Opens(e) && OpenEnabled(c, s, e)
  {
    var par := s.par;
    match e
    case PipeMade(st) => s.(par := par.(table := WithPipe(par.table, st).0))
    case Forked => s.(par := par.(phase := Launched), procs := map[CHILD := Process(par.table, Rewiring(0))])
    case SetupFails => s.(par := par.(phase := Unwinding))
    case ParentClose(end) => s.(par := par.(table := par.table - {end}))
    case Feed => s.(par := par.(phase := Feeding))
    case FeedWrite(k) => s.(inP := s.inP.Put(par.tail[..k]), par := par.(tail := par.tail[k..]))
    case FeedStop => s.(par := par.(phase := Fed))
    case FeedError => s.(par := par.(phase := Fed, writeFailed := true))
    case FeedDone => s.(par := par.(phase := Fed))
  }

  function DrainAfter(s: State, k: nat): State
    requires s.par.phase.Draining? && s.par.phase.ready != []
    requires k <= |s.PipeOf(s.par.phase.ready[0]).queue|
  {
    var ready := s.par.phase.ready;
    var s1 := Drained(s, ready[0], k);
    s1.(par := s1.par.(phase := NextDrain(ready)))
  }

  /** All other steps of the loop, and those after it, are the parent's own business. */
  function LoopAfter(c: Config, par: Parent, now: int, e: ParentEvent): Parent
    requires !Opens(e) && !e.Drain? && (e.DrainError? ==> par.phase.Draining? && par.phase.ready != [])
  {
    var col := par.col;
    match e
    case Collect =>
      par.(phase := Check, col := col.(
        deadline := now + c.timeoutMs * NS_PER_MS, last := now, outOpen := true, errOpen := c.split))
    case CheckTime => par.TimeChecked(c, now)
    case PollReady(ready) => par.(phase := Draining(ready), col := col.ClockRead(c, now))
    case PollTimeout => par.PollExpired(c, now)
    case PollInterrupted => par.(phase := Check, col := col.ClockRead(c, now))
    case PollFails => par.PollFailed(c, now)
    case DrainError =>
      par.(phase := NextDrain(par.phase.ready), col := col.Closed(par.phase.ready[0]).(readFailed := true))
    case ReadRetried => par.(phase := Check)
    case Kill => par.(phase := Waiting, col := col.(killed := true))
    case Reap => par.(phase := Leaving, col := col.(reaped := true))
    case WaitInterrupted => par.(phase := Leaving)
    case Leave => par.(phase := if par.phase.Leaving? then Done else Failed)
  }

  function ParentAfter(c: Config, s: State, e: ParentEvent): State
    requires ParentEnabled(c, s, e)
  {
    if Opens(e) then OpenAfter(c, s, e)
    else if e.Drain? then DrainAfter(s, e.k)
    else s.(par := LoopAfter(c, s.par, s.clock, e))
  }

  function After(c: Config, s: State, e: Event): State
    requires Enabled(c, s, e)
  {
    match e
    case Below(pe) => ProcAfter(c, s, pe)
    case Above(pe) => ParentAfter(c, s, pe)
    case Tick(ns) => s.(clock := s.clock + ns)
  }

  predicate Early(ph: Phase) {
    ph.Setup? || ph.Unwinding? || ph.Failed?
  }

  predicate Over(ph: Phase) {
    ph.Done? || ph.Failed?
  }

  /** collect has begun. */
  predicate Collecting(ph: Phase) {
    ph.Check? || ph.Polling? || ph.Draining? || ph.Expired? || ph.Waiting? || ph.Leaving? || ph.Done?
  }

  /** collect's loop is over. */
  predicate Collected(ph: Phase) {
    ph.Expired? || ph.Waiting? || ph.Leaving? || ph.Done?
  }

  predicate FeedingOver(ph: Phase) {
    ph.Fed? || Collecting(ph)
  }

  /** What the loop's own decisions leave alone. */
  predicate SameButLoop(par: Parent, par': Parent) {
    && par'.table == par.table && par'.tail == par.tail && par'.writeFailed == par.writeFailed
    && par'.col.output == par.col.output && par'.col.errorOutput == par.col.errorOutput
    && par'.col.reaped == par.col.reaped && par'.col.deadline == par.col.deadline
    && (par'.phase.Expired? || par'.phase.Waiting? || par'.phase.Polling? || par'.phase.Check? || par'.phase.Leaving?)
  }

  lemma LoopKeeps(par: Parent, c: Config, now: int)
    ensures SameButLoop(par, par.TimeChecked(c, now)) && !par.TimeChecked(c, now).phase.Check?
    ensures SameButLoop(par, par.PollExpired(c, now)) && !par.PollExpired(c, now).phase.Polling?
    ensures SameButLoop(par, par.PollFailed(c, now)) && !par.PollFailed(c, now).phase.Polling?
  {
    hide ElapsedMs, At, ToMs, AsInt;
  }

  /** A step of the loop moves no byte and no descriptor, and only waitpid reaps. */
  predicate LoopStep(par: Parent, par': Parent, e: ParentEvent) {
    && par'.table == par.table && par'.tail == par.tail && par'.writeFailed == par.writeFailed
    && par'.col.output == par.col.output && par'.col.errorOutput == par.col.errorOutput
    && (par'.col.reaped <==> par.col.reaped || e.Reap?)
    && (!e.Collect? ==> par'.col.deadline == par.col.deadline)
    && (if e.Leave? then (par.phase.Unwinding? && par'.phase.Failed?) || (par.phase.Leaving? && par'.phase.Done?)
        else
          && Collecting(par'.phase) && !par'.phase.Done?
          && (if e.Collect? then par.phase.Fed? else Collecting(par.phase)))
    && (Collected(par.phase) && !e.Leave? ==> Collected(par'.phase))
    && (par'.phase.Polling? ==> e.CheckTime?)
    && (par.phase.Leaving? ==> e.Leave?) && !Over(par.phase)
  }

  lemma PolledSteps(c: Config, s: State, e: ParentEvent)
    requires (e.CheckTime? || Polled(e)) && LoopEnabled(c, s, e)
    ensures LoopStep(s.par, LoopAfter(c, s.par, s.clock, e), e)
  {
    LoopKeeps(s.par, c, s.clock);
    hide Parent.TimeChecked, Parent.PollExpired, Parent.PollFailed, State.Readable, OneOrBoth;
  }

  lemma OtherSteps(c: Config, s: State, e: ParentEvent)
    requires !Opens(e) && !e.Drain? && !e.CheckTime? && !Polled(e) && LoopEnabled(c, s, e)
    ensures LoopStep(s.par, LoopAfter(c, s.par, s.clock, e), e)
  {
    hide NoEnds;
  }

  lemma LoopSteps(c: Config, s: State, e: ParentEvent)
    requires !Opens(e) && !e.Drain? && LoopEnabled(c, s, e)
    ensures LoopStep(s.par, LoopAfter(c, s.par, s.clock, e), e)
  {
    hide LoopAfter, LoopEnabled, LoopStep;
    if e.CheckTime? || Polled(e) {
      PolledSteps(c, s, e);
    } else {
      OtherSteps(c, s, e);
    }
  }

  /** A run: events that are enabled one after the other. */
  ghost predicate IsRun(c: Config, s: State, es: seq<Event>)
    decreases |es|
  {
    es == [] || (Enabled(c, s, es[0]) && IsRun(c, After(c, s, es[0]), es[1..]))
  }

  ghost function Final(c: Config, s: State, es: seq<Event>): State
    requires IsRun(c, s, es)
    decreases |es|
  {
    if es == [] then s else Final(c, After(c, s, es[0]), es[1..])
  }

  ghost predicate Reachable(c: Config, s: State) {
    exists es :: IsRun(c, Start(c), es) && Final(c, Start(c), es) == s
  }

  lemma {:induction false} RunExtends(c: Config, s: State, es: seq<Event>, e: Event)
    requires IsRun(c, s, es) && Enabled(c, Final(c, s, es), e)
    ensures IsRun(c, s, es + [e]) && Final(c, s, es + [e]) == After(c, Final(c, s, es), e)
    decreases |es|
  {
    if es == [] {
      assert [e][1..] == [] && es + [e] == [e];
    } else {
      RunExtends(c, After(c, s, es[0]), es[1..], e);
      assert (es + [e])[1..] == es[1..] + [e];
    }
  }

  lemma ReachableStart(c: Config)
    ensures Reachable(c, Start(c))
  {
    assert IsRun(c, Start(c), []) && Final(c, Start(c), []) == Start(c);
  }

  lemma ReachableNext(c: Config, s: State, e: Event)
    requires Reachable(c, s) && Enabled(c, s, e)
    ensures Reachable(c, After(c, s, e))
  {
    var es :| IsRun(c, Start(c), es) && Final(c, Start(c), es) == s;
    RunExtends(c, Start(c), es, e);
  }
}
