# Verified models of the concurrent and file-handling exercises

The repository is a collection of UNIX programming exercises.  Most are short
demonstrations of a system call; this project models the ones that hold a real
protocol or a real transformation, and proves what they promise for every input,
every schedule and every answer of the kernel.

| files | what they model |
|---|---|
| `TwoLockTable`, `TwoLockProof`, `TwoLockTheorems`, `TwoLockProgress`, `TwoLockLedger` | the reference-counted hash table with a table mutex and a mutex per object (11/6) |
| `Files` | open files with short transfers, `readn` and `writen` (lib/apue_file) |
| `Rot13`, `AsyncRot13`, `AsyncRot13Proof`, `AsyncRot13Theorems` | the sequential rot13 filter (14/7) and the sixteen-slot `io_uring` pipeline (14/8) |
| `BarrierSort`, `BarrierProtocol` | chunking, workers, barrier and k-way merge of the parallel sort (11/11) |
| `Timers`, `TimerTheorems`, `TimerMux` | many timers on one `alarm` (10/23) |
| `Decimal`, `SignalHandshake`, `HandshakeProof`, `HandshakeLimit` | the signal handshake and its two clients (lib/apue_ipc_signal, 10/24, 15/12) |
| `Requests`, `FdPassing` | descriptor requests, replies and descriptor accounting (lib/apue_unix_socket) |
| `HoleCopy` | the copy that leaves holes (4/11) |
| `Tree`, `TreeWalk` | the tree walk by pathname (4/7) and by current directory (4/12) |
| `CondQueue`, `CondQueueProof` | the message queue with a condition variable (11/10) |

Two forms are used.  What one thread does to its own objects is a class or a method
with loops.  What several threads or processes do to shared state is a transition
system: each program counter stands before one access to shared state, a run is any
sequence of enabled steps, and a theorem about `Reachable` states holds for every
interleaving.  The kernel is nondeterministic: a `read` may be short, a request may
complete in any order, a wait may end spuriously, a call may fail.

Some results are negative, and then exact:

- Two timers due in the same second spoil the set for good (`alarm(0)` cancels), so
  all timers fire if and only if the deadlines are pairwise distinct.
- The counter file is read through ten bytes, so `inc` takes k to k + 1 if and only
  if k < 10^10, and n rounds of the handshake keep the file exact on every schedule if
  and only if 2n <= 10^10.
- A printed request is parsed back to the same path and mode if and only if the path
  is a nonempty word without whitespace and the text fits the 1024 bytes the server
  reads.
- The walk by current directory resolves its path a second time, from inside the
  directory.  What it counts are exactly the nodes of the tree, place by place, if and
  only if the path leads back there, as every absolute path and "." do and a bare name
  never does.  The counters alone can still be right by accident, as for a/a/a.
- With n threads more than (n-1)^2 elements give every worker something to do and
  exactly (n-1)^2 do not; an empty last chunk leaves the main thread at the barrier
  for ever.

## Model

| member | source | states |
|---|---|---|
| `TwoLockTheorems.CountsAreReferences` | 11/6_usage_two_mutex.cpp:27-104 | in every reachable interleaving of any number of threads, an object's count is the size of the bag of its owners |
| `TwoLockLedger.OwnersAreHeld` | 11/6_usage_two_mutex.cpp:27-104 | for every run, object and thread: the entries of the thread in that bag are one for its `create`, one for each `hold`, one for each `find` that returned the object, less one for each `rele`, as its calls in the run say, up to its operation under way |
| `TwoLockLedger.CountIsLedger` | 11/6_usage_two_mutex.cpp:27-104 | so the count of every object is the number of references the calls of the run have left to all threads, up to the operations under way |
| `TwoLockLedger.HeldIffLinked` | 11/6_usage_two_mutex.cpp:27-104 | when every operation has returned, an object is in the chain of bucket `id % 29` if some reference is held, and otherwise its mutex is destroyed and it is in no chain |
| `TwoLockLedger.ServesLastCall` | 11/6_usage_two_mutex.cpp:27-104 | every thread inside an operation is inside the one it last called, on the object or the key that call was given |
| `TwoLockTheorems.LinkedWhileReferenced` | 11/6_usage_two_mutex.cpp:27-104 | whenever `hashlock` is free, every bucket is a finite chain without repetition and an inserted object is in the chain of `HASH(id)`, and in no other, exactly while its count is positive |
| `TwoLockTheorems.UnlinksOnlyUnshared` | 11/6_usage_two_mutex.cpp:71-94 | past the recheck in `rele` the remover holds the only reference and no other thread's operation is working on the object |
| `TwoLockTheorems.FindIsExact` | 11/6_usage_two_mutex.cpp:51-62 | when `find` is about to return, it has an owned linked object of the identifier it looks for, or no linked object has that identifier |
| `TwoLockLedger.FindAnswersCall` | 11/6_usage_two_mutex.cpp:51-62 | and the identifier it looks for is the one its caller gave |
| `TwoLockLedger.CreateKeepsId` | 11/6_usage_two_mutex.cpp:19-35 | the object a `create(id)` makes has that identifier, modulo 2^64, in every later state |
| `TwoLockTheorems.LongWayForLast` | 11/6_usage_two_mutex.cpp:71-102 | only the last reference is released the long way through `hashlock`, and a plain decrement always leaves one |
| `TwoLockTheorems.NeverFails` | 11/6_usage_two_mutex.cpp:41-104 | no exception is thrown, no null link is followed and no destroyed mutex is locked or unlocked |
| `TwoLockTheorems.HashBeforeObject` | 11/6_usage_two_mutex.cpp:51-104 | a thread that waits for `hashlock` holds no object mutex |
| `TwoLockTheorems.SomeoneRuns` | 11/6_usage_two_mutex.cpp:27-104 | no deadlock: while an operation is under way some thread inside an operation has an enabled step |
| `TwoLockProgress.OperationsEnd` | 11/6_usage_two_mutex.cpp:27-104 | without new calls every schedule is finite, at most 14 steps and one for each object a thread, and where it cannot go on every operation has returned |
| `TwoLockTheorems.DestroyedIsUnreachable` | 11/6_usage_two_mutex.cpp:84-99 | once a mutex is destroyed nobody holds it, waits for it, owns a reference to it, has a cursor on it or can reach it through a chain |
| `TwoLockTheorems.DeadStaysDead` | 11/6_usage_two_mutex.cpp:98 | a destroyed object stays destroyed in every later state |
| `TwoLockProof.StepKeeps` | 11/6_usage_two_mutex.cpp:27-104 | every step of every thread keeps the invariant, for some new assignment of chains to buckets |
| `TwoLockTable.ToSize` | 11/6_usage_two_mutex.cpp:19 | the `int` given to `create` is kept modulo 2^64 |
| `Files.ReadN` | lib/apue_file.cpp:3-22 | under any short reads, errors and end of file: no value exactly if n > 0 and the first call fails, otherwise k with exactly the next k bytes stored in order; it stops early only at a call that moved nothing |
| `Files.WriteN` | lib/apue_file.cpp:24-42 | the same for writing: exactly the first k bytes are in the file at the old position |
| `Files.WriteAtIs` | lib/apue_file.cpp:24-42 | what a write leaves at each position of the file, with zeros in a gap |
| `Files.WriteAppend` | lib/apue_file.cpp:28-40 | writes in a row are one write of the concatenation, so a split changes nothing |
| `Rot13.TranslateRotates` | 14/7_convert_rot13.cpp:7-19 | the four comparisons are the rotation by 13 within either case, and its own inverse |
| `Rot13.TranslateBuffer` | 14/7_convert_rot13.cpp:30-31 | the first n bytes of the buffer are translated in place, the rest is untouched |
| `Rot13.Convert` | 14/7_convert_rot13.cpp:29-35 | the output is the bytewise translation of the input for every split into reads and writes |
| `Rot13.ConvertTwice` | 14/7_convert_rot13.cpp:7-35 | filtering the filtered file restores the original |
| `Rot13.TranslateTwice` | 14/7_convert_rot13.cpp:7-19 | translating twice is the identity on every byte sequence |
| `AsyncRot13Theorems.EndsTranslated` | 14/8_convert_rot13_io_uring.cpp:38-122 | whatever the completion order, a run with nothing pending and no error exit has written exactly the translated input, same length |
| `AsyncRot13Theorems.FailsOnlyByRequest` | 14/8_convert_rot13_io_uring.cpp:94-118 | the program takes an error exit only if some request failed or some write was short |
| `AsyncRot13Theorems.AnsweredRunsTranslate` | 14/8_convert_rot13_io_uring.cpp:38-122 | a run whose requests all succeed can always go on that way while something is pending, and where it ends the output is the translated input |
| `AsyncRot13Theorems.EofExact` | 14/8_convert_rot13_io_uring.cpp:38-49 | `eof_reached` is set exactly by the reaping of a short or empty read, and from then on no read is issued |
| `AsyncRot13Theorems.PendingExact` | 14/8_convert_rot13_io_uring.cpp:38-59 | `pending_operations` is the number of slots in flight, at most 16, and reads issued never exceed 16 + ceil(size/BSZ) |
| `AsyncRot13Theorems.RangesDisjoint` | 14/8_convert_rot13_io_uring.cpp:38-59 | the byte ranges of two requests in flight are disjoint |
| `AsyncRot13Theorems.RunLength` | 14/8_convert_rot13_io_uring.cpp:86-122 | every run ends within five steps a block and sixty-five more |
| `AsyncRot13Theorems.NeverStuck` | 14/8_convert_rot13_io_uring.cpp:86-90 | while operations are pending some completion can come |
| `AsyncRot13Theorems.Converter.SubmitRead` | 14/8_convert_rot13_io_uring.cpp:38-49 | refines the read submission of the transition system |
| `AsyncRot13Theorems.Converter.HandleCompletion` | 14/8_convert_rot13_io_uring.cpp:94-120 | refines one turn of the completion loop of the transition system |
| `AsyncRot13Theorems.Converter.Run` | 14/8_convert_rot13_io_uring.cpp:79-122 | the main loop terminates, what it did is a run of the transition system, and unless a request in it failed or was short there is no error exit and the output file is the translated input |
| `BarrierSort.ChunksPartition` | 11/11_usage_barrier.cpp:27-50 | every position of the vector lies in exactly one chunk |
| `BarrierSort.AllNonemptyIff` | 11/11_usage_barrier.cpp:47-52 | every thread gets work exactly when the last one does |
| `BarrierSort.EnoughElements` | 11/11_usage_barrier.cpp:27-52 | more than (n-1)^2 elements leave no chunk of n threads empty |
| `BarrierSort.TooFewElements` | 11/11_usage_barrier.cpp:27-52 | for n >= 2 the bound is tight: with (n-1)^2 elements the last chunk is empty |
| `BarrierSort.PastTheEndWraps` | 11/11_usage_barrier.cpp:48-52 | a chunk that starts past the end gets a count wrapped around to more than the whole vector |
| `BarrierSort.FindMin` | 11/11_usage_barrier.cpp:91-101 | the least value under any cursor with the first cursor it is under, or the sentinel with cursor 0 if no value below it is left |
| `BarrierSort.ExactStep` | 11/11_usage_barrier.cpp:90-104 | below the sentinel, one turn moves the least missing value from its cursor to the result |
| `BarrierSort.TailStep` | 11/11_usage_barrier.cpp:91-103 | at the sentinel, advancing the wrong cursor does no harm since only INT_MAX is missing |
| `BarrierSort.MergeLoop` | 11/11_usage_barrier.cpp:90-105 | the loop over the cursor arrays computes the merge function: least head, advance, append, as often as the vector has elements |
| `BarrierSort.MergedIs` | 11/11_usage_barrier.cpp:81-106 | on any number of sorted chunks of any ints, INT_MAX among them, the merge function yields a sorted permutation, though the sentinel may advance the wrong cursor |
| `BarrierSort.MultithreadSort.Merge` | 11/11_usage_barrier.cpp:81-106 | for any number of sorted chunks of ints the member vector becomes a sorted permutation of itself |
| `BarrierProtocol.SortsTheInput` | 11/11_usage_barrier.cpp:43-106 | whatever the interleaving, `merge` starts only when every slice is sorted, and its result, which `sort` ends with, is the sorted permutation of the initial vector |
| `BarrierProtocol.BarrierWaitsForAll` | 11/11_usage_barrier.cpp:59-79 | nobody passes the barrier before every worker has sorted its slice and arrived |
| `BarrierProtocol.NeverBlocks` | 11/11_usage_barrier.cpp:43-79 | if no chunk is empty, some thread can always go on until `sort` is done |
| `BarrierProtocol.RunsAreFinite` | 11/11_usage_barrier.cpp:43-79 | apart from the rearranging of slices by `std::sort`, a run with n workers takes at most 4n + 5 steps |
| `BarrierProtocol.EmptyChunkBlocks` | 11/11_usage_barrier.cpp:52-59 | if the last chunk is empty the main thread never passes the barrier |
| `TimerTheorems.FiresOnTime` | 10/23_timers.cpp:14-69 | with distinct deadlines every callback is made at registration time plus seconds, once, in deadline order, and exactly those due have been made |
| `TimerTheorems.CallsRecorded` | 10/23_timers.cpp:23-55 | the registrations recorded are the calls of `apue_alarm` in the run, each due its seconds after the second it was made in |
| `TimerTheorems.CallsFireOnTime` | 10/23_timers.cpp:14-69 | so for every run, from its calls and seconds alone: with distinct deadlines a call has been answered exactly if the seconds passed have reached its deadline |
| `TimerTheorems.AllFireIffDistinct` | 10/23_timers.cpp:14-69 | once all deadlines are past, all timers have fired if and only if no two deadlines were equal |
| `TimerTheorems.TieSpoils` | 10/23_timers.cpp:23-55 | a registration due together with an outstanding timer puts the set in a state from which some timer never fires |
| `TimerTheorems.BadStays` | 10/23_timers.cpp:14-69 | no registration, tick or handler call leads out of such a state |
| `TimerTheorems.TieExample` | 10/23_timers.cpp:14-81 | two one-second timers: the first fires, the second stays in the set with no alarm armed |
| `Timers.InsertIs` | 10/23_timers.cpp:9 | insertion keeps the order of `alarm_set` and repeats no pair |
| `Timers.RebasedDue` | 10/23_timers.cpp:42-50 | rebasing to the remaining seconds keeps every absolute deadline |
| `Timers.RegisterKeeps` | 10/23_timers.cpp:23-55 | a registration without a tie keeps the relative set a refinement of the table of absolute deadlines |
| `Timers.HandleKeeps` | 10/23_timers.cpp:57-69 | the handler keeps the refinement and fires the first timer at its deadline |
| `TimerMux.Multiplexer.ApueAlarm` | 10/23_timers.cpp:23-55 | refines the registration step, including the early return |
| `TimerMux.Multiplexer.AlarmHandler` | 10/23_timers.cpp:57-69 | refines the expiry step |
| `TimerMux.Multiplexer.ResetSystemAlarm` | 10/23_timers.cpp:14-21 | the alarm is set for the first timer, or cancelled |
| `TimerMux.Rebase` | 10/23_timers.cpp:46-48 | rebuilding the set by insertion shifts every timer and loses none |
| `TimerMux.Multiplexer.WaitTimers` | 10/23_timers.cpp:71-81 | returns, and only when every registered timer has been called back |
| `HandshakeProof.Alternates` | lib/apue_ipc_signal.cpp:34-52 | on every schedule the increments strictly alternate, leader first |
| `HandshakeProof.NoSignalLost` | lib/apue_ipc_signal.cpp:34-52 | a signal is only sent to a process that waits and has neither a pending nor an unconsumed one |
| `HandshakeProof.NeverTogether` | lib/apue_ipc_signal.cpp:34-52 | the two processes never work at the same time and neither takes an error exit |
| `HandshakeProof.NeverStuck` | lib/apue_ipc_signal.cpp:38-52 | until both have exited some process can step |
| `HandshakeProof.AllRoundsDone` | 10/24_signal_handshake.cpp:46-61 | every schedule is bounded, and where it ends both processes did all their rounds and no signal is left over |
| `HandshakeProof.CounterExact` | 10/24_signal_handshake.cpp:9-61 | for n rounds with 2n <= 10^10, after k increments the file is exactly the decimal text of k, though it is overwritten without truncation; the shared cell is k |
| `HandshakeProof.IncExactIff` | 10/24_signal_handshake.cpp:9-30 | `inc` takes the text of k to the text of k + 1 if and only if k < 10^10 |
| `HandshakeLimit.WorkIsInc` | 10/24_signal_handshake.cpp:9-30 | the four file accesses of a process in a run are one `inc`; text that cannot be read is the error exit |
| `HandshakeLimit.CounterExactIff` | 10/24_signal_handshake.cpp:9-61 | the file is the decimal text of the number of increments in every reachable state if and only if 2n <= 10^10; beyond that some schedule leaves a wrong text |
| `HandshakeProof.UpdateReturnsIndex` | 15/12_shm_dev_zero.cpp:24-39 | what `update` returns is the caller's loop index, so both mismatch exits are unreachable |
| `HandshakeProof.SameTurns` | 15/12_shm_dev_zero.cpp:25-38 | for every loop bound the two loops take the same number of turns |
| `Decimal.DigitsRoundTrip` | 10/24_signal_handshake.cpp:16-21 | the decimal text of a number reads back as that number |
| `Decimal.LengthIff` | 10/24_signal_handshake.cpp:10-21 | a number has at most k digits exactly if it is below 10^k |
| `Requests.RoundTripIff` | lib/apue_unix_socket.cpp:210-260 | for every path and every int mode, the server parses back the same path and mode if and only if the path is a nonempty word and the text fits its buffer |
| `Requests.ParseOpen` | lib/apue_unix_socket.cpp:210-235 | the byte text of opcode 0, a word and a number with or without a minus is an OPEN of that word and number if it fits an int, and else a bad argument |
| `Requests.ParseOther` | lib/apue_unix_socket.cpp:215-239 | any other number that fits an int is an unknown opcode, and a larger one or none a bad one |
| `Requests.ParsedPath` | lib/apue_unix_socket.cpp:223-226 | whatever text arrives, the path given to `open` is nonempty and free of whitespace |
| `Requests.IntPrefix` | lib/apue_unix_socket.cpp:224-226 | a cut-off mode is never read as the mode |
| `FdPassing.HeaderBack` | lib/apue_unix_socket.cpp:84-114 | the code, negative or not, and the length are read back from the sixteen header bytes whatever the padding |
| `FdPassing.CString` | lib/apue_unix_socket.cpp:226 | the path given to `open` ends before the first zero byte, and is the whole word if there is none |
| `FdPassing.Clipped` | lib/apue_unix_socket.cpp:111-116 | the message sent is the first min(size, 1024) bytes |
| `FdPassing.ErrorSurvives` | lib/apue.h:55-62 | cutting the message to 1024 bytes keeps whether the status is an error |
| `FdPassing.ClientGetsDescriptorIff` | lib/apue_unix_socket.cpp:102-208 | given delivery, the client returns the number it was given exactly if a descriptor was sent with no error, and -1 otherwise |
| `FdPassing.Server.SendFd` | lib/apue_unix_socket.cpp:102-142 | one `sendmsg` with the framed status, a descriptor attached exactly if its number is not negative and there is no error; it passes on the file that descriptor stands for at that moment and fails if it is not open; nothing on a socket of another domain |
| `FdPassing.Server.ProcessRequest` | lib/apue_unix_socket.cpp:210-249 | for every request and every outcome of `open`: `open` is called once with the path and mode of a well-formed request and not otherwise, exactly one reply carries the status that follows and passes on the very file opened, the descriptor is closed exactly once, and none is left open |
| `FdPassing.ReplySays` | lib/apue_unix_socket.cpp:215-245 | the code in the reply is the error number of `open`, there is a message exactly if `open` was not called, and the descriptor attached is the one `open` returned |
| `FdPassing.RecvFd` | lib/apue_unix_socket.cpp:144-208 | nothing is read on a socket of another domain; otherwise the header is what the first read returned, and however `readn` goes the result is the descriptor in the last rights message if the header came whole with code 0 and length 0, and -1 if not |
| `FdPassing.LastOf` | lib/apue_unix_socket.cpp:192-203 | the descriptor of the last rights message, -1 without one, and the user id of the last credentials |
| `FdPassing.Exchange` | lib/apue_unix_socket.cpp:102-260 | over a whole exchange the descriptor the client gets is new and stands for the very file the server opened, by the path and mode the client asked for; on a connected socket with complete reads it gets one exactly if `open` succeeded, and in no case from an `open` that failed; the server's open descriptors are unchanged |
| `HoleCopy.CopyBlock` | 4/11_cp_holes.cpp:35-58 | a block moves the destination position by its size, extends the content by it up to trailing zeros, and adds exactly the positions of its nonzero bytes to those written |
| `HoleCopy.CopyHoles` | 4/11_cp_holes.cpp:30-63 | for every content and every split into reads the destination equals the source, the positions written are exactly those of the nonzero bytes, and at every read of the source, after each block and at the end, both files stand at the same position |
| `Tree.ResolveChild` | 4/7_myftw.cpp:82-84 | the extended pathname leads to the entry of that name |
| `TreeWalk.WalkPath` | 4/7_myftw.cpp:46-89 | the shared buffer is restored whatever fails; with no failing call every node of the tree is counted once, by type and place; a path that leads nowhere counts nothing |
| `TreeWalk.WalkChdir` | 4/12_myftw_chdir.cpp:56-117 | the current directory is restored though `lstat`, `opendir` or a descent may fail; with no failing call it counts what the path leads to and the trees below each name of its listing, looked up in the current directory |
| `TreeWalk.SeenSelf` | 4/12_myftw_chdir.cpp:92-115 | started on the directory it stands in, that is every node of the tree, once |
| `Tree.TypesCount` | 4/7_myftw.cpp:54-68 | how often a type occurs in the types of a tree is the number of places with a node of that type |
| `Tree.PlacesExact` | 4/7_myftw.cpp:75-86 | and a place is among them once if looking it up leads to a node of that type, and not at all otherwise |
| `Tree.TreePlaces` | 4/7_myftw.cpp:75-86 | the places of a tree are those that can be looked up below it, each once |
| `TreeWalk.VisitEntry` | 4/12_myftw_chdir.cpp:95-114 | one name looked up in the current directory: every node below it is counted and the directory is the same afterwards |
| `TreeWalk.ChdirMain` | 4/12_myftw_chdir.cpp:44-47 | for every path: the program stops if it names no directory; the places it counts are those of the tree if and only if the path leads back to the directory from inside; the counters are then right, and zero, hence wrong, if it leads nowhere |
| `TreeWalk.PlacesIff` | 4/12_myftw_chdir.cpp:57-115 | a walk comes across the places of the tree exactly if it is started on the directory it stands in |
| `TreeWalk.SameCounts` | 4/12_myftw_chdir.cpp:36-117 | the two programs count the same, namely the tree, for every path of a directory that leads back to it from inside |
| `TreeWalk.LeadsBack` | 4/12_myftw_chdir.cpp:44-59 | every absolute path, and ".", leads back |
| `TreeWalk.RelativeMisses` | 4/12_myftw_chdir.cpp:44-62 | for every bare name the second lookup, from inside the directory, never finds that directory, and finds nothing exactly if the directory has no entry of its own name |
| `TreeWalk.BareName` | 4/12_myftw_chdir.cpp:44-62 | on every bare name of a directory without an entry of that name, 4/7 counts the tree and 4/12 nothing |
| `TreeWalk.RightByAccident` | 4/12_myftw_chdir.cpp:57-115 | a directory a with a/a and a/a/a, entered as a: the counters are right though other places were counted |
| `CondQueueProof.HistoryKept` | 11/10_usage_cond.cpp:32-51 | processed messages, the one in hand and the queue are always the enqueue history, and each producer's messages are in it in order |
| `CondQueueProof.StopsAtFirst` | 11/10_usage_cond.cpp:41-43 | the consumer has stopped exactly if it processed an id -1, and then nothing after it |
| `CondQueueProof.NoLostWakeup` | 11/10_usage_cond.cpp:34-51 | a consumer waiting on a nonempty queue implies a producer between its push and its signal |
| `CondQueueProof.Exclusive` | 11/10_usage_cond.cpp:34-49 | at most one thread is between lock and unlock |
| `CondQueueProof.StuckIsFinished` | 11/10_usage_cond.cpp:32-51 | where only spurious wake-ups are left, everything was enqueued, and processed unless the consumer stopped |
| `CondQueueProof.RunsAreFinite` | 11/10_usage_cond.cpp:32-51 | a run takes at most thirteen steps a message, three more, and four for each spurious wake-up |

## Left out

- 11/6: memory reclamation by `shared_ptr`, the unsynchronised reads of `print`, `foo_thread` and `main`, which break the reference discipline that `hold` and `rele` need; threads and objects are values of a transition system rather than heap objects.
- 14/8: creation of the ring, a read of the input that returns fewer bytes than the file has left, an input and output that are the same file, `fsync`.
- 14/7: an output file that already has content, and failing calls.  A read that fails ends the loop as the end of the file does, and a `writen` that fails midway returns a count, which the test on line 32 takes for success, so the rest of that block is lost; only a first `write` that fails makes the program exit.
- 11/11: the random fill, failure to create a thread, and runs in which a chunk starts past the end of the vector, where `std::sort` is given an invalid range; `BarrierProtocol` excludes them and `BarrierSort.PastTheEndWraps` says what the count is.
- 10/23: a handler delayed by a second or more, registration while SIGALRM is pending, callbacks that register timers, and the signal mask.
- lib/apue_ipc_signal.cpp: installing and restoring handlers and masks, and signals from outside the two processes; the processes are values of a transition system.
- 10/24: a read of the counter file that returns fewer bytes than it holds, and failing calls.
- 15/12: loop bounds beyond the range of `int`, where the loop variable itself overflows.
- lib/apue_unix_socket.cpp: the result of `setsockopt`, listening, accepting and connecting, transfer of credentials beyond the user id, a request that reaches the server in several pieces, and locales other than C.
- 4/11: the loop over the arguments, and failing calls.  The result of `read` is kept in a `size_t`, so the test on line 32 never holds and a failing read is taken for a huge block; a failing `lseek` or `ftruncate` is reported and the copy goes on with the same file.
- 4/7 and 4/12: symbolic links inside the starting path, `chdir("..")` failing, trees that change during the walk, and the percentage output.
- 11/10: copying of message data, and several consumers.
- lib/apue_ipc_pipe.cpp: the pipe handshake, whose test of `write` is inverted.
- lib/apue_lock.cpp, 14/4, 14/6, 14/11: record locks, whose behaviour is all in the kernel.
- lib/apue_daemon.cpp, lib/apue_network.cpp, 13, 16, 17: daemons, networking and server loops around the modelled functions.
- Time conversion, memory-mapped copy, read-write-locked deque, path and descriptor limits, error formatting and the remaining demonstrations: they would only add easy members.
