# Descriptor discipline and process runners of ftl / ftest

This project models the parts of the library that promise "never leak, never hang", and proves what
they promise: the C++ subprocess runner (`ftl/process/subprocess.hpp`, with `ftl/io/pipe.hpp`), the
C runner (`ftl/ftl.h`), the descriptor owner, the redirection and the leak guard built on the same
table (`ftl/core/fd.hpp`, `ftl/io/capture.hpp`, `ftest/fdtrack.hpp`), and the guard against stuck
threads (`ftl/thread/thread_count.hpp`).

## How it is built

`Descriptors` is the kernel's table of one process: a new descriptor gets the lowest free number
(section 2.14 of the POSIX.1-2017 System Interfaces), closing a number that is not open is counted
as a fault. `Wiring` adds the runners' pipes and the child's calls between fork and exec.

`Protocol` is one machine for both runners: the parent's phases from pipe creation to reaping, the
three bounded pipes, a monotone clock, and an arbitrary family of processes below the parent that
read, write, close, duplicate, fork and exit at any moment. A run is any sequence of enabled events.
`Tables`, `Streams` and `Runs` prove what holds in every reachable state. `Progress` and `Hang` say
when parent and child can come to wait for each other, `Waits` what an unlimited waitpid looks like,
and `Finish` when a runner is sure to come to its end; `FairRuns` shows that there are runs such as
it speaks of. The two runners share everything but the
child's rewiring and the collecting loop, where each follows its own source, clock arithmetic
included.

`World` executes single system calls against that machine, with any number of steps of the other
processes in between and every result the machine allows. `Runner` and `CRunner` are the two runners
statement by statement over those calls; their contracts state what a caller gets. That their loops
end although the child may write for ever is part of what is verified: each loop has a measure.

The remaining modules follow their source files: `UniqueFds`, `Captures` and `LeakGuards` pair each
class with a specification function and prove the promises about the latter; `Builder` and
`PathSearch` do the same for the child's environment and its PATH; `CBuffer` and `Clocks` hold the
C runner's buffer and arithmetic; `StuckThreads` is a class over a small model of threads.

## What came out differently from the documentation

- "`run()` always returns" does not hold, for reasons that the timeout does not reach.
  - Deadlock. The stdin data is written before the deadline is set, so parent and child can come to
    wait for each other for ever. They can exactly when that data exceeds what a pipe holds and, for
    the C runner, the child has kept a stdin and an output
    (`Hang.DeadlocksExactlyWhenStdinExceedsAPipe`); and only once the child and its descendants have
    asked to write more than a pipe holds (`Progress.DeadlockOnlyWhileFeeding`).
  - waitpid. Once nothing can come out of the child's outputs any more the parent waits for it
    without limit, whatever the stdin data and the timeout (`Waits.WaitpidIsReachable`), and only
    the child's end or a signal ends that (`Waits.OnlyTheChildEndsTheWait`).
  - After a failed read the C++ runner keeps the pipe open unread, and the child can fill it
    (`Waits.FailedReadDeadlocks`).
  - A C++ timeout that is negative once it was cut to an int is none (`Waits.PollWithoutEnd`).

  A runner is sure to finish if the stdin data fits a pipe or is taken out of it, a C++ timeout fits
  an int, no read of the C++ runner fails, and a child that was killed, or whose output is at its
  end or closed, ends while it is waited for (`Finish.SureToFinish`). Interrupted system calls do no
  harm to that.
- When `poll` fails, `run` throws with its descriptors restored, but without killing or reaping the
  child (`Runner.Run`). Neither runner repeats a waitpid that a signal interrupts: it then returns
  without the child's status, and the child may run on unreaped (`Waits.ChildIsLeftUnreaped`).
- `FdLeakGuard` can miss a leak, and can report one where there is none:
  `LeakGuards.GuardThrowsExactly` says precisely when, `LeakGuards.GuardMissesALeak` is an instance.
- The C runner's output is not NULL when nothing was produced: it is an empty string, and NULL
  means that an allocation failed (`CRunner.RunCommand`). Its `timed_out` can be set without a kill,
  with the output complete, when end of file comes late (`Waits.TimedOutWithoutAKill`); a kill always
  sets it.
- The C runner's child has exactly those of its standard streams whose numbers the caller had open;
  the C++ one always has all three (`Wiring.CChildWiring`, `Wiring.ChildWiring`).
- `pthread_timedjoin_np` takes a time of the day and is given the time remaining. Once the clock of
  the day shows more than the timeout, as it has since shortly after 1970, no probe ever sleeps, and
  the guard probes in a busy loop (`StuckThreads.StuckThreadGuard.RequireAllFinished`).
- An override key that contains `=` sets another name (`Builder.KeyKeepsToItsName`).

## Model

| member | source | states |
|---|---|---|
| Wiring.ChildWiring | ftl/process/subprocess.hpp:203-233 | For every caller's table, closed standard streams included, the child ends with its three streams on the pipes, no other pipe end, and all else above 2 as the caller had it, exactly when the descriptor limit is unset or at least 3 |
| Wiring.CChildWiring | ftl/ftl.h:102-110 | For every caller's table the C child ends with that same table less the standard numbers the caller had closed, so with that table exactly when 0, 1 and 2 were open |
| Wiring.ForkedEnds | ftl/process/subprocess.hpp:168-177 | The pipes sit at increasing new numbers, and the caller's own entries are untouched |
| Runs.InvReachable | ftl/process/subprocess.hpp:166-415 | Every reachable state of either runner keeps the table, byte, source and clock invariants |
| Runs.StreamsExact | ftl/process/subprocess.hpp:324-337 | At every step what was collected followed by what is in the pipe is all that was ever written, for each stream by itself; a run that ends of its own accord has everything, a timed-out one a prefix |
| Runs.CompleteForGood | ftl/process/subprocess.hpp:360-414 | After a complete run no process ever writes another byte to the collected streams |
| Runs.StdinConserved | ftl/io/pipe.hpp:27-41 | Consumed bytes, pipe contents and unwritten tail always make up the stdin data; feeding stops short only if nobody can read or a write failed |
| Runs.StdinEnds | ftl/process/subprocess.hpp:189-194 | Once the parent has closed its end and the child has rewired, nobody holds the stdin write end: a reader of the empty pipe gets end of file, having seen all the data |
| Runs.EofOnlyAfterAllData | ftl/process/subprocess.hpp:193-194 | No reader is told end of file before the last byte of the stdin data was consumed |
| Runs.KilledOnlyAtDeadline | ftl/process/subprocess.hpp:362-400 | The child is killed iff the loop ran out of time, and less than 1 ms before the deadline, truncation and EINTR notwithstanding |
| Runs.DescriptorsConserved | ftl/process/subprocess.hpp:166-200 | When no pipe end is left to close, after a return, a failed poll, or a failed pipe or fork, the parent's table is the one it entered with |
| Runs.WaitsFor | ftl/process/subprocess.hpp:387-413 | A poll gives up unless its timeout exceeds an int, and waitpid is for a child that was killed or out of whose outputs nothing can come any more, unless a read failed |
| Runs.ProgramsAreClean | ftl/process/subprocess.hpp:220-233 | No program below the parent ever has an end of a runner pipe other than the three it is meant to have |
| Tables.HeldShrinksBelow | ftl/process/subprocess.hpp:220-233 | A pipe end nobody holds can never reappear in a child or its descendants |
| Tables.WholeRewiring | ftl/process/subprocess.hpp:213-233 | The steps of the rewiring, taken one by one, add up to the table its program is meant to have |
| Streams.RemainingFits | ftl/process/subprocess.hpp:362-388 | The truncated remaining time survives the cast to int, ends a poll within the last millisecond before the deadline, and is zero only there |
| Progress.DeadlockOnlyWhileFeeding | ftl/process/subprocess.hpp:189-200 | Unless the C++ runner failed to read, a deadlock is a state where the parent feeds more than a pipe holds and the processes below asked to write more than a pipe holds before taking it all |
| Progress.DeadlockAfterFailedRead | ftl/process/subprocess.hpp:333-336 | After a failed read the C++ runner can also be in deadlock while it waits for an unkilled child, or in a poll without end |
| Progress.DeadlockStays | ftl/process/subprocess.hpp:193-196 | A deadlock is left by no event but one from outside |
| Hang.DeadlocksExactlyWhenStdinExceedsAPipe | ftl/process/subprocess.hpp:193-196 | With no read failed, either runner can deadlock exactly when the stdin data exceeds a pipe's capacity and the child has a stdin and an output, as the C++ child always has, whatever the timeout |
| Hang.ReachStandstill | ftl/io/pipe.hpp:27-41 | The deadlock is reachable: a child that fills its output before it reads |
| Waits.WaitpidIsReachable | ftl/process/subprocess.hpp:411-413 | For every table, stdin data and timeout, either runner can come to waitpid for a child that is free to run on, with none of its timeout spent |
| Waits.OnlyTheChildEndsTheWait | ftl/process/subprocess.hpp:413 | No event but the child's end or a signal to the parent takes it out of there, however much time passes |
| Waits.ChildIsLeftUnreaped | ftl/process/subprocess.hpp:413 | For every configuration of either runner there is a run that returns while its child, neither killed nor reaped, runs on |
| Waits.TimedOutWithoutAKill | ftl/ftl.h:174-197 | For every C configuration there is a run that returns the complete output and finds its time to be up, though the child was not killed |
| Waits.PollWithoutEnd | ftl/process/subprocess.hpp:387-388 | For every C++ configuration whose timeout is negative as an int, a poll is reachable that neither time nor the outputs of a quiet child end |
| Waits.FailedReadDeadlocks | ftl/process/subprocess.hpp:333-336 | For every C++ configuration a failed read can lead to a deadlock in waitpid |
| Finish.SureToFinish | ftl/process/subprocess.hpp:189-200 | Every endless and fair run after the fork, of either runner, with any signals and interruptions, reaches its end if the stdin data fits a pipe or its readers empty it or give it up, a C++ timeout fits an int, no C++ read fails, and the child ends while it is waited for after it was killed or with its output at its end or closed |
| FairRuns.FavourableRun | ftl/process/subprocess.hpp:413-414 | For every configuration there is such a run, from a parent in waitpid with a child that is free to end |
| Finish.LoopDescends | ftl/process/subprocess.hpp:360-413 | Once the deadline has passed every step of the loop brings the parent nearer to its end, a stale clock reading of the C runner included |
| Runner.PipeCreate | ftl/io/pipe.hpp:17-24 | Two owners for two new numbers, or no change at all |
| Runner.WriteAll | ftl/io/pipe.hpp:27-41 | Returns with feeding over, or blocks for good because the pipe cannot take the rest |
| Runner.DrainOnce | ftl/process/subprocess.hpp:324-337 | One source's sink and open flag follow the bytes read, the other's stay, and time advances |
| Runner.Round | ftl/process/subprocess.hpp:360-411 | One turn of the loop keeps locals and state in step, and goes on only before the deadline and with time passing |
| Runner.Serve | ftl/process/subprocess.hpp:387-410 | poll for the remaining time cast to int: interrupted, failed, expired with the kill sent, or every reported source drained once |
| Runner.Collect | ftl/process/subprocess.hpp:339-415 | The result agrees with what the pipes gave out, the owned ends are closed once, and it blocks only in waitpid on an unkilled child with its outputs at their end, or in a poll longer than an int |
| Runner.WaitForChild | ftl/process/subprocess.hpp:413-414 | waitpid reaps the child, or is interrupted, or blocks; then the owned ends are closed |
| Runner.SetUp | ftl/process/subprocess.hpp:168-187 | Three pipes and a fork, or the table as it was |
| Runner.Unwind | ftl/core/fd.hpp:23-27 | The destructors of the six locals, whether `run` returns or throws, close exactly the pipe ends they still own |
| Runner.ResultIsExact | ftl/process/subprocess.hpp:339-415 | A returned result is exact, or a prefix after a timeout, and reports the kill |
| Runner.Run | ftl/process/subprocess.hpp:166-200 | It throws only if a pipe, the fork or a poll failed; then the child is neither killed nor reaped; returning or throwing, with all destructors run, it restores the descriptor table and closes nothing that is not open, the hand-off through release() included; the result is exact, with the child's status unless a signal cut waitpid short; the three ways in which it can block, each with its condition |
| CRunner.PollTurn | ftl/ftl.h:162-192 | A turn polls for what the last clock reading leaves, capped, or kills; going on means that time was left and has passed |
| Streams.PollLength | ftl/ftl.h:162-172 | The C runner polls for what its last clock reading leaves, and for at most 1000 seconds at a time |
| CRunner.Await | ftl/ftl.h:171-192 | poll for at most the given time, then the clock: the kill is sent iff nothing was reported and the time is up |
| CRunner.ReadOutput | ftl/ftl.h:194-203 | What was read is what the pipe gave out; an interrupted read goes back to poll, and end of file or an error leaves the loop |
| CRunner.ReadTurn | ftl/ftl.h:194-228 | A chunk that was read is stored, unless the buffer had to be given up |
| CRunner.ReadAll | ftl/ftl.h:151-229 | The loop ends, and leaves in the buffer what was read unless an allocation failed |
| CRunner.SetUp | ftl/ftl.h:83-100 | Two pipes and a fork, or the table as it was |
| CRunner.Feed | ftl/ftl.h:131-149 | The stdin loop and its close leave only the output end open, or block on more data than a pipe holds |
| CRunner.OutputIsExact | ftl/ftl.h:160-234 | The merged output is complete unless killed or unreadable, a kill implies the time was up, and the verdict is right to within 1 ms |
| CRunner.CloseAndWait | ftl/ftl.h:230-234 | The output end is closed before waitpid, which reaps the child, is interrupted, or blocks |
| CRunner.RunCommand | ftl/ftl.h:65-240 | For every caller's table: fails iff a pipe or the fork failed; table restored and nothing closed twice; NUL-terminated exact output; NULL exactly when an allocation failed; timed_out exactly when the elapsed time of the last clock reading is at least the timeout given, or 5000 ms if none was, as for every kill, none of which comes a millisecond before that; the child's status unless a signal cut waitpid short; blocked only in feeding more than a pipe holds or in waitpid |
| CBuffer.NextCapacity | ftl/ftl.h:208-210 | The doubled capacity suffices at once whenever twice the old one does, and is never twice too large |
| CBuffer.Append | ftl/ftl.h:204-228 | Appends the chunk with room for the NUL kept, in place or in a block of exactly twice the size; gives the buffer up iff the allocation fails |
| Clocks.ElapsedIsClose | ftl/ftl.h:174-176 | The elapsed-time formula is non-negative and strictly within 1 ms of the true time |
| Clocks.ElapsedCanBeThatFarOff | ftl/ftl.h:174-176 | The bound is tight: one nanosecond can count for a millisecond, and two milliseconds but one nanosecond for one |
| Clocks.ElapsedIsMonotone | ftl/ftl.h:174-176 | It never runs backwards, although its nanosecond difference may be negative |
| Builder.Subprocess.Env | ftl/process/subprocess.hpp:116-132 | The loop over the override list has the effect of one specified call: replace in place or append |
| Builder.Subprocess.SetTimeoutMs | ftl/process/subprocess.hpp:146-150 | A timeout is at least one millisecond, and otherwise the one given |
| Builder.Subprocess.SetTimeout | ftl/process/subprocess.hpp:134-144 | A duration counts for the whole milliseconds it holds, and at least for one |
| Builder.Subprocess.BuildChildEnv | ftl/process/subprocess.hpp:300-322 | The in-place merge computes the specified environment |
| Builder.EntryIsReplacedInPlace | ftl/process/subprocess.hpp:309-319 | The first entry of the name is overwritten where it stands and no other entry is touched; without one, one is appended |
| Builder.OverrideKeepsItsPlace | ftl/process/subprocess.hpp:124-130 | Setting a key again changes its value in place, and a new key comes last |
| Builder.ChildHasNoDoubles | ftl/process/subprocess.hpp:300-322 | A name stands in the child's environment exactly once if it was asked for and the parent has it at most once; in general as often as it was inherited, or once if it was brought in |
| Builder.LookupWithEntry | ftl/process/subprocess.hpp:309-319 | Merging one override gives its name that value and leaves the lookup of every other name alone |
| Builder.LookupMerged | ftl/process/subprocess.hpp:307-320 | After merging, a name is looked up in the overrides first and in the parent's entries otherwise |
| Builder.BuilderInvariant | ftl/process/subprocess.hpp:116-132 | Override keys stay distinct, and a replaced environment always has an override |
| Builder.OverridingIsAsked | ftl/process/subprocess.hpp:116-132 | The override list remembers, for each name, the last value set since the latest replacement |
| Builder.EmptyOverridesShortcut | ftl/process/subprocess.hpp:241-259 | With no overrides, plain execvp passes on exactly the environment that would have been built |
| Builder.ChildSeesWhatWasAsked | ftl/process/subprocess.hpp:300-322 | For any parent environment and any calls the child's first match for a name is what the calls asked for |
| Builder.KeyKeepsToItsName | ftl/process/subprocess.hpp:309-319 | A single call, replacing or not, sets its own name and no other over every parent environment exactly when its key has no `=` |
| Builder.ChildKeepsOtherEntries | ftl/process/subprocess.hpp:307-320 | Entries of names that were not overridden keep their text and their order |
| PathSearch.JoinSplit | ftl/process/subprocess.hpp:280-297 | The segments hold no colon and joined by colons give back the list |
| PathSearch.SplitJoin | ftl/process/subprocess.hpp:280-297 | Splitting undoes joining |
| PathSearch.SplitCount | ftl/process/subprocess.hpp:280-297 | There is one segment more than there are colons |
| PathSearch.PathOf | ftl/process/subprocess.hpp:273-279 | The loop finds the first PATH entry, or the default |
| PathSearch.TryEach | ftl/process/subprocess.hpp:280-297 | The index loop tries the candidates of the split list in order and stops at the first that runs |
| PathSearch.ExecvePortable | ftl/process/subprocess.hpp:265-298 | A slash means one attempt, at the program as given; otherwise the program is tried in the directories of the PATH in order, in all of them unless one runs, so the one that runs is the earliest that could |
| PathSearch.Directory | ftl/process/subprocess.hpp:288-291 | The empty segment is the current directory, and a slash is added exactly where there is none at the end |
| PathSearch.SearchWithoutPath | ftl/process/subprocess.hpp:273 | Without a PATH the two paths tried are the program in /usr/bin and in /bin |
| PathSearch.SearchOfPath | ftl/process/subprocess.hpp:274-297 | An instance in full: the first of two PATHs counts, its empty segment is the current directory, and no slash is doubled |
| PathSearch.SearchesTheChildsPath | ftl/process/subprocess.hpp:243-254 | The PATH that is searched is the one the calls ask for, not the parent's |
| UniqueFds.OwnershipHolds | ftl/core/fd.hpp:19-63 | Over every sequence of operations each open number has exactly one owner, every descriptor is closed at most once and without fault, and when no object lives only released numbers are open |
| UniqueFds.StepKeepsOwner | ftl/core/fd.hpp:29-63 | No operation gives a number two owners or none |
| UniqueFds.StepClosesOnce | ftl/core/fd.hpp:29-63 | No operation closes a descriptor a second time |
| UniqueFds.ResetKeepsOwnerExactly | ftl/core/fd.hpp:58-63 | reset(n) keeps the discipline exactly when n is nothing or a number the program owns itself |
| UniqueFds.SelfAssignIsHarmless | ftl/core/fd.hpp:34-44 | Self-move-assignment changes nothing |
| UniqueFds.UniqueFd.Assign | ftl/core/fd.hpp:34-44 | The old number is closed, the other's taken over, and self-assignment left alone |
| UniqueFds.UniqueFd.Reset | ftl/core/fd.hpp:58-63 | The old number is closed and the new one held |
| UniqueFds.Scope.Apply | ftl/core/fd.hpp:19-63 | The objects run against the kernel do exactly what the specified step says, without aliasing |
| Captures.TableRestored | ftl/io/capture.hpp:20-53 | Nested captures, failed ones included, restore any descriptor table and close nothing that is not open |
| Captures.CloseRestoresTable | ftl/io/capture.hpp:42-53 | The destructor undoes the constructor, even where the temporary file landed on a closed target |
| Captures.TargetRedirected | ftl/io/capture.hpp:20-40 | After a constructor that succeeds the target, whatever it is, names a new, empty file, and every other open descriptor what it did |
| Captures.BytesReachInnermostCapture | ftl/io/capture.hpp:20-74 | Every byte, printed or written straight to a descriptor, reaches the file behind that descriptor's innermost capture, whenever the library flushes and whether or not captures are read; content() reports exactly those bytes, and every other file gets exactly the rest, in order |
| Captures.OuterSinkUntouched | ftl/io/capture.hpp:42-53 | Nothing printed inside a capture of the stream reaches the outer sink, whether or not the capture is read before it is destroyed |
| Captures.CloseGives | ftl/io/capture.hpp:42-53 | The destructor flushes before it restores: no file outside is given anything by it |
| Captures.ContentIsGiven | ftl/io/capture.hpp:58-74 | content() reports all that the capture's file was given, what is still in the buffer included |
| Captures.UnflushedByteIsMisrouted | ftl/io/capture.hpp:23-24 | Without the flush a byte printed before the capture turns up inside it |
| Captures.FdCapture.Create | ftl/io/capture.hpp:20-40 | The constructor has the specified effect, its failure included |
| Captures.FdCapture.ReadContent | ftl/io/capture.hpp:58-74 | ftell, rewind and fread over the offset shared with the redirected descriptor return all that was written up to it and leave it where it was; it throws only without a file |
| Captures.FdCapture.Destroy | ftl/io/capture.hpp:42-53 | The destructor has the specified effect |
| Captures.Run | ftl/io/capture.hpp:20-74 | Capture objects nested at will, read or left early, run as the specified script |
| Captures.CaptureStdout | ftl/io/capture.hpp:85-90 | It returns exactly what the function sent through descriptor 1 outside captures of its own, and the outer sink is given none of it |
| LeakGuards.FdSnapshot | ftl/core/fd.hpp:80-107 | The snapshot lists the open numbers and its own, in increasing order, and leaves the table alone |
| LeakGuards.FdLeakGuard.RequireClean | ftest/fdtrack.hpp:24-44 | Reports the numbers of the second snapshot that the first did not have |
| LeakGuards.BinarySearch | ftest/fdtrack.hpp:28-31 | Finds a number iff it is there |
| LeakGuards.LeaksReported | ftest/fdtrack.hpp:16-44 | If both snapshots could be taken and nothing of the baseline was closed the count is exact, and the set is what leaked, with the baseline's directory number traded for the new one when it was reused |
| LeakGuards.GuardThrowsExactly | ftest/fdtrack.hpp:16-44 | For any two tables, and whether or not either snapshot could be taken: exactly when it throws; nothing is seen when the second fails, everything is reported when only the first does, and otherwise it throws iff something leaked, but for one described case |
| LeakGuards.Guarded | ftest/fdtrack.hpp:16-44 | A guard made before and asked after any change of the process's files throws exactly then, and leaves the files alone |
| LeakGuards.GuardMissesALeak | ftest/fdtrack.hpp:24-44 | An instance of that case |
| StuckThreads.TimespecFrom | ftl/thread/thread_count.hpp:149-164 | Nanoseconds in range, and both fields together the remaining time or zero |
| StuckThreads.ThreadFinished | ftl/thread/thread_count.hpp:120-135 | A thread is joined, or was not joinable, or was unfinished at its last probe with the deadline over; past the deadline there is one probe |
| StuckThreads.StuckThreadGuard.RequireAllFinished | ftl/thread/thread_count.hpp:81-109 | Names exactly the stuck threads and joins exactly the others, in watch order and under one deadline, the timeout after the first reading of the clock, each with the probes it is due, none of which sleeps once the clock of the day shows more than the timeout |
| StuckThreads.NamedInWatchOrder | ftl/thread/thread_count.hpp:86-88 | The names come in watch order |
| StuckThreads.JoinedInWatchOrder | ftl/thread/thread_count.hpp:86-88 | So do the joined threads |
| StuckThreads.NobodyNamed | ftl/thread/thread_count.hpp:86-95 | The guard returns normally iff no thread is stuck, and names exactly those that are |
| StuckThreads.NoneGone | ftl/thread/thread_count.hpp:124-128 | No distinct joinable thread is taken for one already gone |
| StuckThreads.Partition | ftl/thread/thread_count.hpp:81-109 | Distinct joinable threads split into those joined, once each, and those named |

## Left out

- Real system calls, `/proc`, signal delivery and close-on-exec; files reopened through
  `/proc/self/fd`; a parent that forks elsewhere while a runner is at work.
- Runner.Run: signals interrupt a run finitely often; a storm that interrupts one call for ever is not
  modelled.
- SIGPIPE in the C runner, memory exhaustion in the C++ parts, and `write` returning 0.
- Descriptor limits 1 and 2 enter only as the negative side of `Wiring.ChildWiring`; runs of the
  machine have the limit unset or at least 3.
- C++ timeouts above the range of int: the cast is modelled, but the bound on early kills is stated
  for timeouts that fit; overflow of the clock type is not modelled.
- Finish.SureToFinish: a child that is stopped by job control.
- Pipes that hold fewer than PIPE_BUF (4096) bytes.
- The value of the exit status, the argument vector, exec failure as exit code 127, null-argument checks of the
  C runner, and the texts of exceptions.
- Captures.BytesReachInnermostCapture: one content() call per capture, at the end of its body, so
  that libc reading ahead does not matter; the stream's own descriptor is open to begin with, and
  is not written to past the stream, nor is its file through another descriptor.
- glibc's execvpe: its choice of PATH is not visible, so nothing is claimed about it.
- Characters are abstract: embedded NUL characters in names, values and stdin data are not modelled.
- StuckThreads.ThreadFinished: the build without pthread_timedjoin_np, which never joins, and
  errors other than ESRCH and EINVAL.
- `ThreadLeakGuard`, `AllocGuard`, `TempFile`, `TempDir`, the test framework, the matchers and the
  `RunResult` accessors: formatting, counting or procfs reading.
