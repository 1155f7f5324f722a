# MTAppenderFile: a verified model of the durable log pipeline and its threads

MTAppenderFile appends log lines to a 150 KB memory-mapped area and moves them, block by block, to a
log file. The area outlives a crash; after one, the only evidence of what it holds are its bytes. This
project models that pipeline and the `Thread` class under it, and proves what they promise over every
interleaving of their callers, their background threads, crashes and reopenings.

| file | models |
|---|---|
| `Bytes.dfy` | byte strings, first-NUL reading, `%d`, memcpy / memset / memmove as loops |
| `PtrBuffer.dfy` | `comm/mtaf_ptrbuffer.cc`: cursor over borrowed memory, with its wrapping `max - 4` |
| `AutoBuffer.dfy` | `comm/mtaf_autobuffer.cc`: growable array, measured against an endless zero tape |
| `LogBuffer.dfy` | `loglib/mtaf_log_buffer.cpp`: what the bytes of the area say about the cursor |
| `Formatter.dfy` | `loglib/mtaf_formatter.cpp`: one line into the 16 KB scratch buffer |
| `Appender.dfy` | `loglib/mtaf_appender.cpp`: the locked sections of one appender, as methods |
| `Pipeline.dfy`, `Conservation.dfy`, `SerialOrder.dfy` | those sections interleaved with crashes: invariant, conservation, order |
| `Witnesses.dfy` | runs from the start that reach reordered blocks and stale bytes in the file |
| `Registry.dfy` | the vector of shared appenders and one round of the shared thread over it |
| `Refinement.dfy` | the appender object carries out the steps of that machine |
| `Locks.dfy`, `Condition.dfy` | `comm/mtaf_lock.h`, `comm/mtaf_condition.h` |
| `ThreadControl.dfy` | `comm/mtaf_thread.h`: the control block and its critical sections |
| `ThreadProtocol.dfy`, `ThreadLifetime.dfy`, `ThreadCancel.dfy` | those sections interleaved: counting, join/detach, signals, cancel |
| `Routines.dfy` | the three start routines as program text, and the machine's positions as places in it |
| `ThreadStarts.dfy` | what each kind of start amounts to, in calls and waits |
| `ThreadRefinement.dfy` | the control block and its condition carry out the steps of that machine |
| `LockOrder.dfy` | lock ranking across the appender: every call, every loop test |
| `Progress.dfy` | those calls and loops run by any number of threads: nobody is stuck |
| `Accesses.dfy` | what the calls do under those locks, and that nobody else is there |
| `Loops.dfy` | when the background loops end and when they go on |
| `Returns.dfy` | every call can be brought to its end, a close with its join included |

The form is the same throughout. A class holds the fields of the C++ object and its methods carry out
the source's statements; each method's contract equates the new state with a function of the old one.
The machines and the theorems are about those functions. A machine's event is one locked section (or,
for the flags the routines read without the lock, one store); the machines are tied to the appender
object and to a thread's control block by the methods of `Refinement` and `ThreadRefinement`.

The pipeline state carries a ledger beside the concrete bytes: every accepted record, where the drains
cut the history, and where each block went. The theorems connect the ledger to the bytes:
`HolderHasTheBytes` finds a record's own bytes, in front of any NUL, in whatever place the ledger names.

## Where a plausible claim is false

Each comes with the condition under which it does hold, for all inputs or over all runs.

- A `PtrBuffer` write stays inside its limit exactly when the limit is at least 4 (`StaysInsideIff`);
  below that `max - 4` wraps and the terminator lands past the end.
- `PtrBuffer::Seek` keeps its cursor inside the contents exactly when the target is below 2^32 or its low
  32 bits exceed the length (`SeekStaysInsideIff`): the upper comparison casts the position.
- The area reads as exactly the bytes pending in it, in every run that leaves n of them, exactly when
  n < max-4 or n = max (`ScanExactIff`). At each n from max-4 to max-1 stale bytes can follow
  (`SlackIsReached`).
- `Readme.md` tells readers of the area to stop at three NULs. That finds the end of the pending bytes in
  every run that leaves n of them exactly when 0 < n < max-4 (`TripleNulIff`). After a flush of n bytes,
  0 < n < max-4, such a reader stops at once exactly if n was 1 and otherwise rereads what was flushed
  (`FlushedTripleIff`, and `FlushedLine` for the line "abc"). The model follows the code, whose own recovery
  stops at the first NUL.
- The segments in the log file are in append order as long as no two blocks are in flight at once; the
  file then also reads as the history exactly when in each block a NUL or the end follows the segment
  (`SerialFileIsHistory`, `StaleIff`). From any state with two in flight the order can be lost
  (`TwoInFlightCanReorder`), so one at a time is exactly what drain order needs (`OneInFlightIff`). Both
  failures are reached from the start (`ReorderReached`, `StaleTailReached`).
- Close, from its drain to its wipe, loses something exactly when some append in between has no drain
  behind it (`CloseLosesIff`).
- "Every ended thread is detached, joined or awaited, once" holds at the end of a run exactly if no new
  routine was started in it while a joiner was between its unlock and its `pthread_join`
  (`HandshakeBrokenIff`, `DisciplinedRunReaps`); otherwise the old thread is never reaped (`RestartOrphans`,
  `OrphanForever`, reached in `RestartUnderJoinReached`).
- A signal let through by `kill` reaches the routine it was let through for exactly when no routine was
  created between the sender's unlock and its `pthread_kill`, and finds its receiver behind its init exactly
  when the last routine created in between, if any, has begun (`SignalReachesIff`). A signal in front of an
  init becomes possible as the next step exactly when a routine is started under such a sender
  (`TooEarlyPossibleIff`); one is sent in `RestartUnderSenderReached`.
- A cancel keeps its routine from ever blocking again exactly when its broadcast does not fall between the
  waiter's compare-and-swap and its enqueueing (`CancelWakesIff`). The flag may have been raised before or
  after the compare-and-swap (`MissedCancelReached`); the routine still ends, after its timeout
  (`CancelledRoutineEnds`).
- `makeTimeout` yields a well-formed timespec at every clock reading exactly when the request has no
  negative fraction of a second (`TimeoutWellFormedIff`).

## Assumptions

- `PtrBuffer::Write` and `memset` of the area are atomic with respect to crashes; the area's bytes survive
  a crash; an fwrite either appends the whole block or fails.
- Opening an appender (attach, flush) is not concurrent with `flush_sync` on the same appender, nor with an
  append that passed the flag test before a close: open flushes without the buffer mutex they hold. Close
  wipes only after its own flush. All of them read `sg_log_buff` outside the lock in the source.
- Callers obey the class's assertions: one `join` per routine (`isjoined` false on entry), a target before
  `start`, no destruction of a `Thread` while a call on it is in progress.
- The formatter is given C strings, a level below 6 and a header under 1024 bytes, and not an empty body
  with no info at the very start of the buffer, where the source would read the byte before it.
- Lengths, and a cursor plus a requested length, are below 2^32; where `ScanExactIff` and `TripleNulIff` count
  every fill level the area is below 2^31. Fewer than 10^9 overflow notices are counted in a row, and
  allocation succeeds.

## Model

| member | source | states |
|---|---|---|
| `PtrBuffers.StaysInsideIff` | comm/mtaf_ptrbuffer.cc:65-77 | a write's last store, terminator included, is within the buffer's limit if and only if the limit is at least 4 |
| `PtrBuffers.OutsideUntouched` | comm/mtaf_ptrbuffer.cc:60-77 | with a limit of at least 4 a cursor write changes nothing beyond the limit |
| `PtrBuffers.WriteAnywhere` | comm/mtaf_ptrbuffer.cc:65-77 | a write at any position stores what fits, three NULs and a CR behind it while the length is more than 4 below the limit, and nothing else; the length grows to the end of it and never shrinks |
| `PtrBuffers.AppendAtEnd` | comm/mtaf_ptrbuffer.cc:60-77 | an append at the end, cursor plus requested length below 2^32, stores the part of the input that fits, leaves the cursor on the length although it was advanced by the requested length, and puts a NUL behind the contents below max-4 |
| `PtrBuffers.AppendsKeepPrefix` | comm/mtaf_ptrbuffer.cc:60-77 | any sequence of appends to an empty buffer, limit plus each length below 2^32, holds the first min(total, max) bytes of all inputs, cursor = length, memory outside untouched |
| `PtrBuffers.PtrBuffer.WriteAtPos` | comm/mtaf_ptrbuffer.cc:65-77 | the object's write equals the specification function on the whole memory and all counters |
| `PtrBuffers.PtrBuffer.Write` | comm/mtaf_ptrbuffer.cc:60-63 | the object's cursor write equals the specification function |
| `PtrBuffers.SeekStaysInsideIff` | comm/mtaf_ptrbuffer.cc:115-119 | Seek's clamp keeps the cursor within the length, and is the plain clamp, if and only if the target is below 2^32 or its low 32 bits exceed the length |
| `PtrBuffers.PtrBuffer.Seek` | comm/mtaf_ptrbuffer.cc:96-120 | from each origin the cursor lands where the source's clamp puts the target, the cast to unsigned int included; the object stays valid exactly under that condition |
| `PtrBuffers.PtrBuffer.SetLengthTo` | comm/mtaf_ptrbuffer.cc:122-129 | the length saturates at the limit and the cursor is clamped into it |
| `Bytes.MemMove` | comm/mtaf_autobuffer.cc:157-166 | an overlapping move in either direction ends as if the source had been copied aside first |
| `AutoBuffers.GrowthIsLeast` | comm/mtaf_autobuffer.cc:279-303 | a growing buffer gets the least multiple of the allocation unit that holds the request, and one that is large enough is left alone |
| `AutoBuffers.FitSize` | comm/mtaf_autobuffer.cc:279-303 | growth keeps every old byte, reads as zero beyond them, keeps cursor and length, and reaches the requested size |
| `AutoBuffers.RoomIsMade` | comm/mtaf_autobuffer.cc:61-70 | AllocWrite, with or without the length change, and AddCapacity make the room asked for, by less than a unit too much, and move neither cursor nor, unless asked, length |
| `AutoBuffers.OpRefinesTape` | comm/mtaf_autobuffer.cc:61-90 | each operation keeps the buffer in step with an endless zero tape, stale bytes included |
| `AutoBuffers.RunRefinesTape` | comm/mtaf_autobuffer.cc:61-205 | so does every legal sequence of Write, Seek, Move, AllocWrite, AddCapacity and Length |
| `AutoBuffers.UnitIsUnobservable` | comm/mtaf_autobuffer.cc:279-303 | two buffers with different allocation units, run alike, agree in contents, cursor, length and all bytes that lengthening could expose |
| `AutoBuffers.MoveThereAndBack` | comm/mtaf_autobuffer.cc:154-171 | Move(n) then Move(-n) restores contents and cursor |
| `AutoBuffers.MovesBackMerge` | comm/mtaf_autobuffer.cc:161-168 | Move(-n) then Move(-m) is Move(-(n+m)), saturation included |
| `AutoBuffers.MoveBackAndThere` | comm/mtaf_autobuffer.cc:154-171 | Move(-n) then Move(n), n at most the length, zeroes the first n bytes and keeps the rest |
| `AutoBuffers.AutoBuffer.FitSizeTo` | comm/mtaf_autobuffer.cc:279-303 | realloc and memset on the object equal the specification function |
| `AutoBuffers.AutoBuffer.Append` | comm/mtaf_autobuffer.cc:72-75 | the cursor write on the object equals the specification function |
| `AutoBuffers.AutoBuffer.MoveBy` | comm/mtaf_autobuffer.cc:154-171 | Move on the object equals the specification function and returns the new length |
| `AutoBuffers.AutoBuffer.Detach` | comm/mtaf_autobuffer.cc:257-267 | the allocation and its length are handed out and the buffer is left empty |
| `AutoBuffers.AutoBuffer.TakeOver` | comm/mtaf_autobuffer.cc:246-255 | attaching another buffer moves its whole state and leaves it empty |
| `LogBuffers.WriteKeepsCursor` | loglib/mtaf_log_buffer.cpp:71-83 | a write extends the live bytes by what fits and keeps cursor, length and bytes of the area in agreement |
| `LogBuffers.FlushTakesLive` | loglib/mtaf_log_buffer.cpp:56-69 | a flush copies out exactly the live bytes, nothing if there are none, and leaves an area that reads as empty |
| `LogBuffers.ScanFindsLive` | loglib/mtaf_log_buffer.cpp:61-64 | the first-NUL scan of the area finds the live length below max-4 and on a full area, and at most four bytes more in between |
| `LogBuffers.ScanExactIff` | loglib/mtaf_log_buffer.cpp:56-98 | for every n: the scan reads exactly the pending bytes after every run that leaves n of them if and only if n < max-4 or n = max |
| `LogBuffers.RecoveryReadsLive` | loglib/mtaf_log_buffer.cpp:39-69 | attaching and flushing an area drains the whole of it exactly when something was live, and the new cursor agrees with the area |
| `LogBuffers.RunIsQueue` | loglib/mtaf_log_buffer.cpp:56-98 | from any initial area every sequence of NUL-free writes and flushes behaves as a bounded byte queue, and below max-4 the first NUL of the area is at the cursor |
| `LogBuffers.SlackIsReached` | loglib/mtaf_log_buffer.cpp:93-98 | for each n from max-4 to max-1 a run that leaves n bytes pending after which the scan also reads max-n stale ones |
| `LogBuffers.TripleNulIff` | Readme.md:30 | for every n: the first three NULs stand right behind the pending bytes after every run that leaves n of them if and only if 0 < n < max-4 |
| `LogBuffers.FlushedTripleIff` | loglib/mtaf_log_buffer.cpp:93-98 | in every run, after a flush of n bytes below max-4 the area starts with three NULs if and only if n = 1; otherwise they first stand at n, behind a NUL and the rest of the flushed bytes |
| `LogBuffers.FlushedLine` | loglib/mtaf_log_buffer.cpp:93-98 | so after the line abc is written and flushed the area starts with a NUL and the rest of that line, then three NULs |
| `LogBuffers.LogBuffer.Flush` | loglib/mtaf_log_buffer.cpp:56-69 | the object's flush appends the drained block to the destination and clears, and tells whether there was one |
| `LogBuffers.LogBuffer.WriteData` | loglib/mtaf_log_buffer.cpp:71-83 | the object's write equals the specification function and fails exactly on empty input |
| `Formatter.LineShape` | loglib/mtaf_formatter.cpp:44-77 | behind any C string passing the 5K guard: the line ends in a newline, added only if missing, is NUL-free, stays 129 bytes clear of the end and carries the old contents, the header and a body prefix that is shorter than the body only at 130 bytes from the end or at 65535 |
| `Formatter.ShortLineIsWhole` | loglib/mtaf_formatter.cpp:63-77 | in the 16K scratch a header and body of at most 16254 bytes together are printed whole |
| `Formatter.LineReadsBack` | loglib/mtaf_formatter.cpp:44-60 | a reader going by position and brackets recovers level letter, time and tag from the line |
| `Formatter.MissingBodyIsTold` | loglib/mtaf_formatter.cpp:57-73 | a NULL body is reported by its fixed text under letter F |
| `Formatter.NoticeShape` | loglib/mtaf_formatter.cpp:32-36 | an overflow notice is NUL-free and shorter than the room it is guarded by |
| `Formatter.NoticeLeadText` | loglib/mtaf_formatter.cpp:32 | the notice begins with the source's text |
| `Formatter.NoticeReadsBack` | loglib/mtaf_formatter.cpp:32-33 | a reader of that notice finds both counters behind its fixed text |
| `Formatter.LineFormatter.Format` | loglib/mtaf_formatter.cpp:27-78 | with 5K of room the contents become exactly that line; without, they grow by a notice that resets the counters, or only the counters move |
| `Bytes.DecimalRoundTrip` | loglib/mtaf_formatter.cpp:32-33 | the decimal text of a number denotes that number |
| `Appenders.GenuineRecordFits` | loglib/mtaf_appender.cpp:382-393 | with less than 4/5 of 153600 bytes filled a genuine record is taken and fits whole with its terminator; from there on it is replaced by the notice, and only a notice can be cut |
| `Appenders.OverflowNoticeReadsBack` | loglib/mtaf_appender.cpp:386-391 | a reader of the notice finds the fill level behind its fixed text |
| `Appenders.Appender.AppendAsync` | loglib/mtaf_appender.cpp:378-393 | an append writes the formatted record, or the notice at or above the guard, to the log buffer |
| `Appenders.Appender.TakeBlock` | loglib/mtaf_appender.cpp:316-319 | the buffer section hands out a fresh buffer holding exactly the drained block, and a null pointer if there is none |
| `Appenders.Appender.LogToFile` | loglib/mtaf_appender.cpp:290-311 | the file section appends the block iff there is one and open and write succeed, and leaves the file closed |
| `Appenders.Appender.Open` | loglib/mtaf_appender.cpp:190-208 | opening attaches the area as it is, drains all of it if its first byte is live, and opens for appends |
| `Appenders.Appender.Close` | loglib/mtaf_appender.cpp:439-472 | an undisturbed shared-thread close writes the live bytes, zeroes the area and drops the buffer |
| `Registry.SharedAppenders.Erase` | loglib/mtaf_appender.cpp:153-161 | destroying an appender removes its first entry from the registry and keeps the others in order |
| `Registry.Without` | loglib/mtaf_appender.cpp:154-159 | the registry loses one occurrence of the appender and nothing else |
| `Registry.SharedAppenders.FlushRound` | loglib/mtaf_appender.cpp:335-342 | after a round each open appender has its live bytes in its file, as one more block if there were any and the write succeeds, and an empty buffer; closed ones are as they were |
| `Refinement.DoAppend` | loglib/mtaf_appender.cpp:378-393 | the object's append carries out the machine's append step |
| `Refinement.DoDrain` | loglib/mtaf_appender.cpp:316-319 | the object's buffer section carries out the machine's drain step |
| `Refinement.DoLand` | loglib/mtaf_appender.cpp:290-311 | the object's file section carries out the machine's landing step |
| `Refinement.DoVisit` | loglib/mtaf_appender.cpp:313-342 | a visit of the shared thread is the machine's drain and, if that took a block, its landing |
| `Refinement.DoOpen` | loglib/mtaf_appender.cpp:190-214 | opening carries out the machine's open step, the recovered block in the opener's hands |
| `Refinement.DoWipe` | loglib/mtaf_appender.cpp:456-468 | the wipe section carries out the machine's wipe step |
| `Refinement.Restart` | loglib/mtaf_appender.cpp:120-140 | a new process over the surviving area and log file represents the crashed state |
| `Pipeline.StepKeeps` | loglib/mtaf_appender.cpp:290-403 | every step of appenders, flushers, close, crash and open keeps the invariant tying area, cursor, blocks in flight and file to the accepted history |
| `Conservation.EveryRunConserves` | loglib/mtaf_appender.cpp:203-324 | in every run each accepted record is in exactly one of: the live area, one flusher's block, one file block, the lost blocks |
| `Conservation.FileIsPermutation` | loglib/mtaf_appender.cpp:295-323 | in every run, crashes and failed writes included and however flushers overlap, the file holds exactly the drained blocks that are neither lost nor in flight, each once, each a contiguous stretch of the history |
| `Conservation.HolderHasTheBytes` | loglib/mtaf_appender.cpp:313-324 | a record not lost is found byte for byte, in front of any NUL, in the place that holds it |
| `Conservation.BlockReads` | loglib/mtaf_appender.cpp:203-215 | a block reads as its segment of the history, a recovered one with at most four stale bytes more and exactly below B-4 |
| `Conservation.LossNeedsACause` | loglib/mtaf_appender.cpp:290-324 | a block becomes lost only by a crash while in flight, by its own failed write, or by a wipe of what was appended after the last drain |
| `Conservation.WrittenAndLostArePermanent` | loglib/mtaf_appender.cpp:290-311 | the file only grows, and what is written or lost stays so |
| `Conservation.AppendAccepts` | loglib/mtaf_appender.cpp:382-393 | in every run an append at less than 4/5 of 153600 live bytes stores the whole record, from there on the notice as far as it fits |
| `Conservation.CrashThenOpenRecovers` | loglib/mtaf_appender.cpp:189-215 | a crash at any moment, in the middle of any flushes, and the next open lose exactly the blocks in flight; the recovered block is the whole area and reads as the live bytes |
| `Conservation.WipeLosesIff` | loglib/mtaf_appender.cpp:456-468 | the wipe at close loses something if and only if there are live bytes left |
| `Conservation.CloseLosesIff` | loglib/mtaf_appender.cpp:439-468 | from the closer's drain to its wipe, with any appends and other flushers whose writes succeed: something is lost if and only if some append in between has no drain behind it |
| `Conservation.CloseIsLossless` | loglib/mtaf_appender.cpp:439-472 | close with no append after its flush, any other flushers and successful writes: nothing is lost, the closer's block is in the file once landed, and the next open adds no block |
| `SerialOrder.SerialFileIsHistory` | loglib/mtaf_appender.cpp:313-324 | in every run with at most one block in flight the segments in the file, then the one in flight, then the live bytes, are the accepted history without the lost blocks; the bytes a reader of the file gets are, too, if and only if no stale byte stands behind a segment |
| `SerialOrder.FileReadStep` | loglib/mtaf_appender.cpp:203-215 | each block of the file reads as its segment and a stale tail |
| `SerialOrder.Stale` | loglib/mtaf_appender.cpp:203-215 | that tail is at most four bytes, and nonempty only for a recovered block whose segment has from B-4 to B-1 bytes |
| `SerialOrder.StaleIff` | loglib/mtaf_appender.cpp:203-215 | it is empty if and only if the segment reaches the end of the block or a NUL stands behind it |
| `Witnesses.StaleTailReached` | loglib/mtaf_appender.cpp:382-393 | a run from the start, never two blocks in flight and nothing lost, after which the file does not read as the history: records and overflow notices fill the area, are flushed, and fill it again to B-4 before a crash |
| `SerialOrder.NothingLostKeepsAll` | loglib/mtaf_appender.cpp:313-324 | and with nothing lost that is everything ever accepted |
| `SerialOrder.TwoInFlightCanReorder` | loglib/mtaf_appender.cpp:295-323 | from any state with two blocks in flight, two successful writes can put them into the file in the wrong order |
| `SerialOrder.OneInFlightIff` | loglib/mtaf_appender.cpp:295-323 | a step from a state in order leaves at most one block in flight if and only if the file keeps drain order however the blocks then in flight land |
| `Witnesses.ReorderReached` | loglib/mtaf_appender.cpp:295-323 | a run from the start reaches such a state and that order |
| `Locks.ScopedLock.Destroy` | comm/mtaf_lock.h:48-50 | a guard unlocks at most once in all, and does not touch the lock after an explicit unlock |
| `Locks.ScopedLock.TimedLock` | comm/mtaf_lock.h:92-107 | the polling lock succeeds if and only if some poll not later than the deadline finds the lock free |
| `Routines.AdvanceFollowsText` | comm/mtaf_thread.h:418-462 | the program texts of the three routines, run statement by statement, go through exactly the machine's positions, flag tests, waits and calls |
| `Routines.RunHas` | comm/mtaf_thread.h:418-462 | in every run each routine stands at a position its own text has |
| `ThreadRefinement.RunStatement` | comm/mtaf_thread.h:418-462 | a statement of such a text, run on the control block and its condition, has that meaning |
| `ThreadRefinement.DoGo` | comm/mtaf_thread.h:378-462 | init, cleanup and each statement of a routine on the object are the machine's step: control block, remaining text, calls, detachment and the signal to deliver |
| `ThreadRefinement.DoStart` | comm/mtaf_thread.h:186-294 | each of the four starts on the object is the machine's start step |
| `ThreadStarts.PlainStartCallsOnce` | comm/mtaf_thread.h:186-235 | over every run from start or start<T> on: the new thread calls the given target exactly once and never waits, cancelled or not |
| `ThreadStarts.DelayedStartWaitsOnce` | comm/mtaf_thread.h:237-259 | over every uncancelled run from start_after on: one wait, then one call |
| `ThreadStarts.PeriodicStartKeepsCalling` | comm/mtaf_thread.h:270-294 | over every uncancelled run from start_periodic on: never through, one call after each wait, at least one in eight own steps |
| `ThreadRefinement.DoCancel` | comm/mtaf_thread.h:261-268 | a cancel on the object is the machine's flag and post steps, or nothing if no routine runs |
| `ThreadRefinement.DoJoin` | comm/mtaf_thread.h:305-320 | the join section is the machine's step, and the caller goes on to wait exactly if the machine has it as a joiner; the routine itself is turned away |
| `ThreadRefinement.DoKill` | comm/mtaf_thread.h:331-345 | the kill section is the machine's step, and a signal is still to be sent exactly if the machine has it as a sender |
| `ThreadRefinement.DoDestroy` | comm/mtaf_thread.h:179-184 | dropping the handle is the machine's step, block and lock freed exactly when it says so |
| `Conditions.MakeTimeout` | comm/mtaf_condition.h:149-157 | the deadline is exactly the clock reading plus the requested time |
| `Conditions.TimeoutWellFormedIff` | comm/mtaf_condition.h:149-157 | the deadline is well formed at every clock reading if and only if the request has no negative fraction of a second |
| `ThreadControl.RunnableReference.RemoveRef` | comm/mtaf_thread.h:106-118 | dropping a reference unlocks first and frees the block, lock included, exactly when the count reaches zero |
| `ThreadControl.RunnableReference.Start` | comm/mtaf_thread.h:186-294 | the start section: nothing while a routine runs; otherwise reset, count, create; a failed creation takes its reference back |
| `ThreadControl.RunnableReference.Join` | comm/mtaf_thread.h:305-320 | the join section: the caller goes on to wait exactly if a routine runs and it is not that routine |
| `ThreadControl.RunnableReference.Kill` | comm/mtaf_thread.h:331-345 | the kill section: a signal is refused, recorded or to be sent, by the state of the routine |
| `ThreadControl.RunnableReference.Cleanup` | comm/mtaf_thread.h:398-415 | the cleanup section: flags reset, self-detach exactly if not joined, reference dropped |
| `ThreadProtocol.StepKeeps` | comm/mtaf_thread.h:186-415 | every step of starters, cancellers, joiners, signal senders, owner and routines keeps the flags, the count and the outstanding routine consistent |
| `ThreadLifetime.EveryRunCounts` | comm/mtaf_thread.h:105-118 | in every run the count is the handle plus the outstanding routine, at most one routine is outstanding, and the block is freed exactly once, when both are gone |
| `ThreadLifetime.FreedByTheLast` | comm/mtaf_thread.h:179-208 | the block is freed by exactly the last of handle destruction and cleanup, with isended set, and never by a failed start |
| `ThreadLifetime.NoUseAfterFree` | comm/mtaf_thread.h:106-118 | no step is possible on a freed block |
| `ThreadLifetime.StartIsNoOpWhileRunning` | comm/mtaf_thread.h:186-294 | while a routine is outstanding every start is a no-op, and target and thread id stay |
| `ThreadLifetime.IdleCallsDoNothing` | comm/mtaf_thread.h:261-345 | cancel, join and kill without a routine change nothing |
| `ThreadLifetime.HandshakeBrokenIff` | comm/mtaf_thread.h:305-320 | a step keeps "every ended thread is detached, joined or awaited by one joiner" if and only if it does not restart under a pending join |
| `ThreadLifetime.DisciplinedRunReaps` | comm/mtaf_thread.h:305-415 | over any run, for any number of joiners: it holds at the end if and only if the run had no such restart |
| `ThreadLifetime.AllReapedWhenQuiet` | comm/mtaf_thread.h:305-415 | once nobody is joining, every ended thread was detached or joined, not both |
| `ThreadLifetime.RestartOrphans` | comm/mtaf_thread.h:313-315 | a restart under a pending join leaves the old thread with nobody to reap it |
| `ThreadLifetime.RestartUnderJoinReached` | comm/mtaf_thread.h:305-320 | a run from a new Thread to such an orphan |
| `ThreadLifetime.OrphanForever` | comm/mtaf_thread.h:313-315 | and no later step ever reaps it |
| `ThreadLifetime.SignalsBeforeInit` | comm/mtaf_thread.h:331-340 | over any run before its init a thread is sent nothing, every signal asked for is recorded and the last one stands |
| `ThreadLifetime.EarlySignalIsDelivered` | comm/mtaf_thread.h:331-395 | whatever runs before and after init, the last signal recorded has then been delivered behind init, or init is about to deliver it |
| `ThreadLifetime.RecordedSignalIsDelivered` | comm/mtaf_thread.h:385-395 | between init's unlock and its delivery no step changes the recorded signal |
| `ThreadLifetime.SignalReachesIff` | comm/mtaf_thread.h:331-345 | in every run: a signal let through for a running routine reaches that routine if and only if no routine was created between the sender's unlock and its send, and finds its receiver initialised if and only if the last one created in between has begun since |
| `ThreadLifetime.TooEarlyPossibleIff` | comm/mtaf_thread.h:331-345 | a signal in front of its receiver's init becomes possible as the next step if and only if a new routine is started while a sender is past its unlock |
| `ThreadLifetime.SafeRunSignals` | comm/mtaf_thread.h:331-345 | over every run without such a restart every signal sent has reached an initialised thread |
| `ThreadLifetime.RestartSignalsTooEarly` | comm/mtaf_thread.h:341-343 | after such a restart the pending signal can reach the new thread before its init, though it was let through for the old one |
| `ThreadLifetime.RestartUnderSenderReached` | comm/mtaf_thread.h:341-343 | a run from a new Thread in which it does |
| `ThreadCancel.CancelIsNotErased` | comm/mtaf_thread.h:237-303 | no step erases a cancel while its routine is outstanding |
| `ThreadCancel.AtMostOneMoreCall` | comm/mtaf_thread.h:426-462 | after a cancel a routine begins no call, or one if it had already passed the test in front of it |
| `ThreadCancel.FreshStartIsUndisturbed` | comm/mtaf_thread.h:237-247 | a delayed start wipes out flag and notification left by an earlier cancel |
| `ThreadCancel.UncancelledCallsOnce` | comm/mtaf_thread.h:426-441 | a delayed routine that nobody cancels has called its target exactly once when it ends |
| `ThreadCancel.CancelledRoutineEnds` | comm/mtaf_thread.h:426-462 | a cancelled routine is through its cleanup after at most 12 steps of its own, even if the wakeup is missed |
| `ThreadCancel.NeverStuck` | comm/mtaf_thread.h:398-462 | an outstanding routine, or the canceller holding the spinlock, can always step |
| `ThreadCancel.WaitConsumes` | comm/mtaf_condition.h:88-92 | a wait takes the sticky notification with it, at its compare-and-swap and at its end |
| `ThreadCancel.StickyNotifyPreventsBlocking` | comm/mtaf_condition.h:81-104 | a cancel posted before the compare-and-swap of the wait keeps the routine from ever blocking |
| `ThreadCancel.CancelWakesIff` | comm/mtaf_condition.h:88-136 | in every run: after a cancel its routine never blocks again if and only if the broadcast did not find it between compare-and-swap and enqueueing |
| `ThreadCancel.CancelCanBeMissed` | comm/mtaf_condition.h:88-90 | from any state in front of the compare-and-swap, a cancel whose flag is raised before or after it can leave the routine blocked although cancelled |
| `ThreadCancel.MissedCancelReached` | comm/mtaf_thread.h:426-441 | both are reached from a new Thread by a delayed start |
| `LockOrder.ProgramsAreOrdered` | loglib/mtaf_appender.cpp:120-503 | every call, on every branch, takes locks in increasing rank, joins or waits holding none, and touches the vector, buffers, files and control blocks under their own lock |
| `LockOrder.ExpandOrdered` | loglib/mtaf_appender.cpp:326-364 | whatever the loops of the background threads find in the vector, the buffer pointer and the close flags, what they do next keeps that order |
| `Accesses.ProgramTouches` | loglib/mtaf_appender.cpp:120-503 | without its locks every call is its outline: the flags, buffers, files, joins and control blocks it touches, in that order |
| `Accesses.LogCallsReach` | loglib/mtaf_appender.cpp:366-503 | an append and a flush reach the buffer, a flush with a block and a sync append the file |
| `Accesses.CloseReaches` | loglib/mtaf_appender.cpp:439-472 | a close raises the flag, joins exactly a running worker, flushes exactly for the shared thread, drops the buffer and closes the file |
| `Accesses.DestroyReaches` | loglib/mtaf_appender.cpp:142-163 | destroy closes what is still open and then takes the appender out of the registry |
| `Accesses.OpenReaches` | loglib/mtaf_appender.cpp:120-216 | an open attaches the buffer, lowers the flag and writes a recovered block; only a shared appender is registered |
| `Accesses.ReturnedCallDid` | loglib/mtaf_appender.cpp:120-503 | in every run a call that has returned has done each step of its outline, at a moment when nobody else was at that buffer, file, control block or vector |
| `Accesses.AccessIsExclusive` | loglib/mtaf_appender.cpp:134-503 | in every reachable state at most one thread is at an appender's buffer, at its file, at a control block, at the vector |
| `Accesses.DetachAfterJoin` | loglib/mtaf_appender.cpp:445-468 | when a close that met a running worker drops the buffer it has been through its join, and no OS thread of that Thread object that was there then is unfinished |
| `Accesses.ExpandTouches` | loglib/mtaf_appender.cpp:326-364 | a round of a background thread touches everything registered and open, or its own appender, and waits on its condition |
| `Accesses.RoutineTouches` | comm/mtaf_thread.h:418-424 | a background thread runs init, its loop and cleanup |
| `Accesses.MemoryFollows` | loglib/mtaf_appender.cpp:126-468 | an appender accepts from its open to its close and has a buffer from attach to wipe; the vector changes by one entry |
| `Progress.DeadlockFree` | loglib/mtaf_appender.cpp:134-503 | from every reachable state, for any unfinished thread that is not waiting in a join: steps of the others that are under way lead to a state in which that thread, not having moved, can take its next step |
| `Progress.SomebodyCanStep` | loglib/mtaf_appender.cpp:134-503 | in every reachable state with an unfinished thread, joiners included, some thread can step |
| `Loops.ClosedWorkerEnds` | loglib/mtaf_appender.cpp:350-364 | from every reachable state: while the close flag stays up, an appender's own thread takes at most 16 more steps, the rest of its round, one more task and its cleanup |
| `Loops.OpenWorkerGoesOn` | loglib/mtaf_appender.cpp:350-364 | while its appender stays open its own thread never leaves its loop |
| `Loops.OpenWorkerLives` | loglib/mtaf_appender.cpp:350-364 | in particular from its start on |
| `Returns.JoinCanReturn` | loglib/mtaf_appender.cpp:445-448 | from every reachable state in which the unfinished OS threads of a Thread object belong to closing appenders, what is under way brings them to their end, and whoever waits in the join can go on |
| `Returns.CallReturns` | loglib/mtaf_appender.cpp:120-503 | from every reachable state a call without a join in front of it, or whose joins are for closing threads, can be brought to its end |
| `Returns.CloseReturns` | loglib/mtaf_appender.cpp:439-472 | so can a close from its first action on, its join included, if the appender alone uses its Thread object and nobody is opening it |
| `Loops.SharedLoopGoesOn` | loglib/mtaf_appender.cpp:327-347 | while something stays registered the shared thread never leaves its loop |
| `Loops.SharedThreadLives` | loglib/mtaf_appender.cpp:326-347 | in particular from its start on |
| `Loops.SharedLoopEnds` | loglib/mtaf_appender.cpp:327-347 | from every reachable state: once nothing is registered it ends, after a number of own steps bounded by the rest of its round |

## Left out

- The Objective-C wrapper, demo application, console output, build files and hook scripts.
- Real files, `mmap`, `fopen`, the day roll of the log file and `localtime`: a write appends a block or fails, the printed time is a parameter.
- zlib's `cstream_`, which is never initialised here, and the empty `__Fix` and `__Flush`.
- The heap fallback buffer: it is uninitialised when first flushed, so nothing is promised about recovery there.
- Lossless close for an appender with its own thread, whose loop may flush before a last append and then see the close flag.
- The unlocked scan of the registry after an append and the NULL checks of `sg_log_buff` outside the lock.
- Sync mode and switching modes at run time, except for the locks those calls take.
- Positional reads and `AutoBuffer::Read`: both classes copy from the cursor whatever position is asked for.
- Wakeups as such in the lock model: a timed wait always ends, by its timeout at the latest.
- `outside_join`, `unsafe_exit`, stack sizes, thread names and the assembly behind the compare-and-swap.
- Appenders.Appender.AppendAsync: does not say which threads are notified or that the shared thread is started afterwards.
- Appenders.Appender.Open: only the memory-mapped branch; the heap fallback and the return on a NULL area are not modelled.
- Appenders.Appender.Close: only a shared-thread appender whose area is mapped, with nobody else inside; `CloseLosesIff` and `CloseIsLossless` interleave the sections with other threads.
- Returns.JoinCanReturn: says, like the other lemmas of that module, that a call can return, not that a scheduler which starves a thread lets it; nor that a join returns for an appender somebody reopens.
- LockOrder.ProgramsAreOrdered: the early returns of a call that find nothing to do take no lock and are not listed.
- Pipeline.StepKeeps: takes a crash inside one buffer write as happening before or after it.
