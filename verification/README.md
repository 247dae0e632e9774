# Linux IPC programs: a verified model

This Dafny project models the concurrent protocols and the expression evaluator of a
collection of small Linux IPC programs, and proves what they keep on every interleaving.

Each protocol is a step system: a start state and the steps its processes can take, one
system call or one memory access at a time (`StepSystems.dfy`). "Reachable" means reachable by
any interleaving. The constants of the programs (capacity, items, workers, jobs, rounds,
processes, restart limit) are parameters everywhere. Beside the step system stands a class
that performs the same steps in place, and, where every schedule ends, a method that drives
it with an arbitrary scheduler to the final result.

| file | models |
|---|---|
| `SemaphoreRing.dfy` | producer and consumer over a ring of slots with three semaphores |
| `CalculatorGrammar.dfy`, `CalculatorParser.dfy`, `CalculatorTheorems.dfy` | the recursive-descent evaluator of the calculator server |
| `WorkerPool.dfy` | parent and workers over one typed System V message queue |
| `LockedCounter.dfy` | a mapped counter under `F_SETLKW` or `F_OFD_SETLKW` locks |
| `OrderedLocks.dfy` | byte locks taken in increasing order |
| `UndoGuard.dfy` | a counter guarded by a semaphore with SEM_UNDO, under kills |
| `FifoChat.dfy` | two peers exchanging messages over a pair of FIFOs |
| `Supervisor.dfy` | a SIGCHLD supervisor with a self-pipe |
| `SemaphoreBarrier.dfy`, `PingPong.dfy` | a barrier and a turn-taking protocol on semaphores |
| `WriteAll.dfy` | the write loop shared by the programs |
| `StepSystems.dfy`, `Totals.dfy`, `Remainders.dfy` | runs, invariants and measures; sums over processes; division with remainder |

## What the proofs found

- The OFD-locked counter does not protect its counter. `docs/SAMPLE_OUTPUT.md` shows 1500, but
  the children lock through one shared open file description, whose locks never conflict with
  each other. For two or more processes and rounds the possible final values are exactly
  2, ..., processes * rounds (`SharedDescriptionValues`). A counter is exact on every run if and
  only if no two processes lock as the same owner (`OwnersDecideTheCount`).
- The FIFO chat can hang: exactly when the number of rounds is not 1 (`ChatCanHang`). With the
  program's three rounds the only hang is a parent in `wait_for_pid` and a child in its last
  `select`, all messages already read (`StuckIsLateChild`).
- The supervisor dies from the very signal it waits for if the signal arrives while `poll` is
  blocked; a normal exit stays possible exactly until a `poll` blocks (`BlockingDecidesExit`). A
  SIGCHLD that has nothing to do with the worker ends it the same way (`ForeignSignalCanKill`).
- The worker pool has a reachable deadlock if and only if the queue holds fewer messages than
  there are jobs (`CapacityIsTight`).
- The SEM_UNDO flag is exactly what keeps survivors of a kill alive (`UndoDecidesSurvival`), and
  the barrier works exactly when its semaphore starts at the number of workers
  (`InitialValueIsExact`).

## Assumptions about the kernel

- A file lock conflicts with locks of other owners only; `F_SETLKW` locks are owned by the
  process, `F_OFD_SETLKW` locks by the open file description, shared across `fork`.
- A `select` on a FIFO that no writer has opened yet blocks; opening a FIFO for writing blocks
  while no reader has it open.
- Pending SIGCHLDs coalesce; a handler that interrupts `poll` makes it fail in spite of
  SA_RESTART.
- `strtod` takes the longest prefix of the expected form. About the expected forms only
  `NumeralLanguage` is assumed; unsigned decimal literals are proved to meet it.
- Loads and stores of an `int` are atomic steps in one global order.

## Model

| member | source | states |
|---|---|---|
| SemaphoreRing.RingHoldsProducedPrefix | SharedMemory/posix_shm_ring_sem.c:55-76 | in every reachable state the values loaded, followed by the slots read from the head, are 1..k for the k values stored, and at most CAPACITY are live |
| SemaphoreRing.RingRefinesFifo | SharedMemory/posix_shm_ring_sem.c:55-76 | every step is a step of a bounded first-in first-out channel or leaves the channel alone |
| SemaphoreRing.SemaphoresAreConserved | SharedMemory/posix_shm_ring_sem.c:48-76 | empty + full + tokens in flight is CAPACITY; the mutex admits one process |
| SemaphoreRing.SlotsAreSeparate | SharedMemory/posix_shm_ring_sem.c:56-75 | also with the mutex erased, the slot about to be written holds nothing the consumer has still to load |
| SemaphoreRing.RingNeverDeadlocks | SharedMemory/posix_shm_ring_sem.c:24-76 | until both are done some process has a step that is not an interrupted wait |
| SemaphoreRing.RingAlwaysFinishes | SharedMemory/posix_shm_ring_sem.c:24-76 | no run has more than 13 steps per item plus one per EINTR |
| SemaphoreRing.ConsumerSeesEveryItem | SharedMemory/posix_shm_ring_sem.c:54-76 | at the end the consumer saw exactly 1..ITEMS in order, total is ITEMS*(ITEMS+1)/2, semaphores are as they began |
| SemaphoreRing.StepKeepsInv | SharedMemory/posix_shm_ring_sem.c:55-75 | every single step of either process keeps the counters, indices, slot window and history in agreement |
| SemaphoreRing.WrapIsRemainder | SharedMemory/posix_shm_ring_sem.c:73 | the slot of the n-th item, which the invariants speak of, is n % CAPACITY |
| SemaphoreRing.InterruptedWaitIsRepeated | SharedMemory/posix_shm_ring_sem.c:24-31 | any wait of either process can be interrupted, and it then waits again with nothing changed |
| SemaphoreRing.SharedRing.constructor | SharedMemory/posix_shm_ring_sem.c:47-50 | the ring and the semaphores as initialised |
| SemaphoreRing.SharedRing.StepProducer | SharedMemory/posix_shm_ring_sem.c:69-76 | one producer step in place is the step of the system |
| SemaphoreRing.SharedRing.StepConsumer | SharedMemory/posix_shm_ring_sem.c:54-63 | one consumer step in place is the step of the system |
| SemaphoreRing.SharedRing.Interrupt | SharedMemory/posix_shm_ring_sem.c:24-31 | an interrupted wait changes nothing but the number of interrupts left |
| SemaphoreRing.SharedRing.Run | SharedMemory/posix_shm_ring_sem.c:52-78 | under any scheduler the program ends with the consumer's total over 1..ITEMS |
| CalculatorParser.Evaluator.SkipBlanks | Sockets/unix_calc_server.c:19-24 | the cursor moves over exactly the leading characters with codes 9 to 13 and 32, and stops at none of them |
| CalculatorParser.Evaluator.ParseNumber | Sockets/unix_calc_server.c:44-51 | takes the longest numeral, dies on none or on one out of range |
| CalculatorParser.Evaluator.ParseFactor | Sockets/unix_calc_server.c:28-52 | value, failure and cursor are those of the factor rule; on return the cursor has advanced and is not past the end |
| CalculatorParser.Evaluator.ParseTerm | Sockets/unix_calc_server.c:54-67 | the loop computes the term rule; the cursor has advanced |
| CalculatorParser.Evaluator.ParseExpression | Sockets/unix_calc_server.c:69-82 | the loop computes the expression rule; the cursor has advanced |
| CalculatorParser.Evaluator.Run | Sockets/unix_calc_server.c:84-93 | the outcome of `evaluate` on the whole text |
| CalculatorTheorems.WhiteSpaceIsExact | Sockets/unix_calc_server.c:19-24 | a character is skipped if and only if its code is 9, 10, 11, 12, 13 or 32 |
| CalculatorTheorems.SpacingDoesNotMatter | Sockets/unix_calc_server.c:19-93 | for any expression and any two ways to put such characters before, between and after its tokens the outcome is the same, also when a numeral is out of range |
| CalculatorTheorems.OperatorsReadAsWritten | Sockets/unix_calc_server.c:28-81 | for any two numerals u, v the outcomes of u+v, u-v, u*v, u/v, -u and (u), in literal characters |
| CalculatorTheorems.OperatorsBindAsWritten | Sockets/unix_calc_server.c:54-81 | for any three numerals: - and / associate to the left, * binds before +, parentheses before both |
| CalculatorTheorems.OutOfRangeDies | Sockets/unix_calc_server.c:44-51 | a well-formed text with a numeral out of range is refused |
| CalculatorTheorems.EvaluateIsExact | Sockets/unix_calc_server.c:28-93 | success with a tree if and only if the text before the first NUL spells a derivation of that tree with every numeral in range |
| CalculatorTheorems.EvaluateText | Sockets/unix_calc_server.c:84-93 | the evaluator returns exactly on derivable texts, with the fold of the tree in the given algebra |
| CalculatorTheorems.EvaluateFuses | Sockets/unix_calc_server.c:54-93 | the running accumulation is the fold of the parsed tree, in any algebra |
| CalculatorTheorems.ExpressionSound | Sockets/unix_calc_server.c:69-82 | what an expression parse consumes is a spelling of a derivation of its tree |
| CalculatorTheorems.ExpressionComplete | Sockets/unix_calc_server.c:69-82 | on any spelling of a derivation the parse continues its loop with exactly that tree behind exactly that text |
| CalculatorTheorems.GrammarIsUnambiguous | Sockets/unix_calc_server.c:28-82 | two derivations with one spelling stand for one tree |
| CalculatorTheorems.RoundTrip | Sockets/unix_calc_server.c:28-93 | a tree printed with the fewest parentheses and any white space (as `WhiteSpaceIsExact` pins it) evaluates to itself, and to its fold |
| CalculatorTheorems.PrintIsShortest | Sockets/unix_calc_server.c:54-82 | no derivation of the tree has fewer tokens than the printed one |
| CalculatorTheorems.NewlineTestIsDead | Sockets/unix_calc_server.c:88-91 | the comparison with newline never decides the outcome |
| CalculatorTheorems.DecimalsAreNumerals | Sockets/unix_calc_server.c:44-49 | unsigned decimal literals meet all that is assumed of `strtod`; every non-empty string of digits is one |
| WorkerPool.CapacityIsTight | MessageQueues/sysv_priority_workers.c:27-80 | no reachable deadlock if and only if the queue holds all jobs at once |
| WorkerPool.PoolMoves | MessageQueues/sysv_priority_workers.c:27-80 | with that room some process can always move until the queue is removed |
| WorkerPool.FullOfResultsIsStuck | MessageQueues/sysv_priority_workers.c:63-66 | with less room the parent gets stuck on a queue full of results |
| WorkerPool.EveryJobIsInOnePlace | MessageQueues/sysv_priority_workers.c:27-73 | each sent job is in exactly one of collected, queued result, held, queued job, and only with worker (id - 1) % WORKERS |
| WorkerPool.CollectedInOrder | MessageQueues/sysv_priority_workers.c:63-73 | the results of worker w arrive in the order its jobs were sent: the k-th has id k * WORKERS + w + 1 |
| WorkerPool.AssignedInClosedForm | MessageQueues/sysv_priority_workers.c:63-66 | of n jobs worker w gets exactly the ids w + 1, w + 1 + WORKERS, ..., which are n / WORKERS of them, one more if w < n % WORKERS |
| WorkerPool.StopComesAfterAllJobs | MessageQueues/sysv_priority_workers.c:32-34 | a worker that saw its stop has had all its jobs collected, JOBS / WORKERS of them, one more if w < JOBS % WORKERS |
| WorkerPool.EveryJobIsCollectedOnce | MessageQueues/sysv_priority_workers.c:68-80 | at removal the queue is empty, all workers have exited, every id was collected once, as a message of type 100 with the square of its value from worker (id - 1) % WORKERS |
| WorkerPool.PoolRunsAreBounded | MessageQueues/sysv_priority_workers.c:27-80 | no run exceeds four steps per job, two per worker and one |
| WorkerPool.StepKeepsInv | MessageQueues/sysv_priority_workers.c:27-80 | every send, receive and removal keeps the way of every worker's jobs and the balance of jobs and stops |
| WorkerPool.MessageQueue.Send | MessageQueues/sysv_priority_workers.c:65 | the message joins the end of the queue |
| WorkerPool.MessageQueue.Receive | MessageQueues/sysv_priority_workers.c:29 | the first message of the type leaves the queue, all others keep their order |
| WorkerPool.Program.StepParent | MessageQueues/sysv_priority_workers.c:63-80 | one step of the parent in place is the step of the system; job i goes out with type i % WORKERS + 1, id i + 1 and value i + 2, the stop of worker w with type w + 1 |
| WorkerPool.Program.StepWorker | MessageQueues/sysv_priority_workers.c:25-46 | one step of a worker in place is the step of the system |
| WorkerPool.RunPool | MessageQueues/sysv_priority_workers.c:48-82 | under any scheduler, with room for all jobs, every job is collected once with its square, from worker (id - 1) % WORKERS |
| LockedCounter.OwnersDecideTheCount | SharedMemory/mmap_file_lock_counter.c:37-47 | every run counts all increments if and only if no two processes lock as one owner, or nothing is to count |
| LockedCounter.ProcessOwnedValue | SharedMemory/mmap_file_lock_counter.c:13-50 | with process-owned locks the final value is processes * rounds on every run |
| LockedCounter.SharedDescriptionValues | FileLocking/ofd_lock_counter.c:28-51 | with a lock of the shared description the final values are exactly 2 to processes * rounds |
| LockedCounter.SharedOwnerLosesUpdate | FileLocking/ofd_lock_counter.c:39-47 | two processes with one owner can lose an update |
| LockedCounter.FinalValueIsBounded | FileLocking/ofd_lock_counter.c:39-51 | whoever owns the lock, the final value is between 2 and the number of increments |
| LockedCounter.CounterMoves | SharedMemory/mmap_file_lock_counter.c:13-47 | some unfinished process can always step |
| LockedCounter.CounterRunsAreBounded | SharedMemory/mmap_file_lock_counter.c:37-47 | every run ends within four steps per increment |
| LockedCounter.UnlockIsOwn | FileLocking/ofd_lock_counter.c:15-24 | an unlock drops its own owner's lock and leaves the lock of any other owner in place |
| LockedCounter.MappedFile.Step | SharedMemory/mmap_file_lock_counter.c:13-44 | lock, load, store or unlock in place is the step of the system |
| LockedCounter.RunCounter | SharedMemory/mmap_file_lock_counter.c:37-50 | under any scheduler the program ends, exact with distinct owners, at least 2 otherwise |
| OrderedLocks.NoWaitCycle | FileLocking/deadlock_avoidance_ordering.c:10-39 | with increasing plans no chain of waiting processes closes, in any reachable state |
| OrderedLocks.OrderedLocksMove | FileLocking/deadlock_avoidance_ordering.c:31-39 | some unfinished process can always step |
| OrderedLocks.LockRunsAreBounded | FileLocking/deadlock_avoidance_ordering.c:31-39 | no run has more steps than the plans have bytes in all, plus one exit per process |
| OrderedLocks.BlockedByOthersOnly | FileLocking/deadlock_avoidance_ordering.c:10-21 | a live process is held up exactly when another one has the byte it wants; its own lock never holds it up |
| OrderedLocks.TableIsExact | FileLocking/deadlock_avoidance_ordering.c:10-21 | a byte is locked by a process exactly when that process took it and has not exited |
| OrderedLocks.LockTable.Step | FileLocking/deadlock_avoidance_ordering.c:33-37 | a lock, or the exit that drops all locks, in place is the step of the system |
| OrderedLocks.RunLocks | FileLocking/deadlock_avoidance_ordering.c:31-41 | under any scheduler every process gets all its locks and none is left |
| OrderedLocks.OppositeOrdersDeadlock | FileLocking/deadlock_avoidance_ordering.c:33-34 | two processes with opposite orders can wait for each other for ever |
| UndoGuard.GuardSurvivesKills | Semaphores/sysv_binary_semaphore_guard.c:15-54 | under any kills semaphore + live holders is 1, one live process is inside, the counter is the number of stores |
| UndoGuard.KillKeepsStores | Semaphores/sysv_binary_semaphore_guard.c:15-54 | a live process can be killed at any point; the counter and all other processes stay as they are, the semaphore gets the adjustment back |
| UndoGuard.SurvivorsMove | Semaphores/sysv_binary_semaphore_guard.c:15-54 | a dead holder blocks nobody: some live process can step while one has rounds left |
| UndoGuard.SurvivorsAreCounted | Semaphores/sysv_binary_semaphore_guard.c:44-57 | at the end every survivor did all its rounds; without kills the counter is processes * rounds |
| UndoGuard.UndoDecidesSurvival | Semaphores/sysv_binary_semaphore_guard.c:17 | kills never strand a survivor if and only if the operations carry SEM_UNDO |
| UndoGuard.GuardRunsAreBounded | Semaphores/sysv_binary_semaphore_guard.c:44-54 | every run ends within four steps per increment and one kill per process |
| UndoGuard.SharedSegment.Operate | Semaphores/sysv_binary_semaphore_guard.c:15-21 | one `semop` moves the semaphore and, with SEM_UNDO, the adjustment against it |
| UndoGuard.SharedSegment.Do | Semaphores/sysv_binary_semaphore_guard.c:44-54 | a step or a kill in place is the step of the system |
| UndoGuard.RunGuard | Semaphores/sysv_binary_semaphore_guard.c:44-57 | under any scheduler and kills the program ends with the counter at the number of stores |
| FifoChat.ChatIsSafe | Pipes/fifo_select_chat.c:29-47 | never are both peers blocked in `select`, nobody gets past opening before the other has its reading end open, nobody writes to a FIFO whose reader is gone, reads get a prefix of what was written |
| FifoChat.FifoHoldsAtMostTwo | Pipes/fifo_select_chat.c:29-47 | a FIFO never holds more than two messages |
| FifoChat.ReadTakes | Pipes/fifo_select_chat.c:41-46 | a read takes any non-empty run of what waits, a draining read all of it and leaves the FIFO empty, at end of file nothing |
| FifoChat.FinalMeansAllReceived | Pipes/fifo_select_chat.c:41-46 | when both are done both have read every message |
| FifoChat.StuckIsLateChild | Pipes/fifo_select_chat.c:29-66 | with at least one round the only non-final stuck state is the late child, and it takes two rounds |
| FifoChat.LateChildIsReachable | Pipes/fifo_select_chat.c:29-66 | with two or more rounds that state is reachable |
| FifoChat.LateOpenIsReachable | Pipes/fifo_select_chat.c:23-24 | with no rounds the parent can block in opening its FIFO |
| FifoChat.ChatCanHang | Pipes/fifo_select_chat.c:21-66 | the chat can hang if and only if the number of rounds is not 1 |
| FifoChat.ChatRunsAreBounded | Pipes/fifo_select_chat.c:21-66 | every run ends within three steps per round and side and six more |
| FifoChat.Endpoint.Step | Pipes/fifo_select_chat.c:21-48 | one step of a peer in place is the step of the system |
| FifoChat.RunChat | Pipes/fifo_select_chat.c:55-66 | under any scheduler the program stops with all messages read, or with the late child |
| Supervisor.NoWakeupIsLost | Signals/sigchld_supervisor.c:15-64 | outside the drain-to-waitpid window an unreaped dead worker has a pending signal or a byte in the pipe, whatever other signals came |
| Supervisor.OneWorkerAtATime | Signals/sigchld_supervisor.c:49-70 | one unreaped worker at most; workers are reaped in order with their statuses |
| Supervisor.NormalExitReapedAll | Signals/sigchld_supervisor.c:52-72 | a normal exit started and reaped exactly RESTART_LIMIT workers in attempt order |
| Supervisor.BlockingDecidesExit | Signals/sigchld_supervisor.c:52-70 | a normal exit is reachable from a state if and only if no `poll` has blocked |
| Supervisor.WakeupCanKill | Signals/sigchld_supervisor.c:53-56 | a worker that exits while `poll` blocks ends the supervisor |
| Supervisor.ExitIsSignalled | Signals/sigchld_supervisor.c:22-29 | a running worker can exit at any point of the loop and raises the signal |
| Supervisor.ForeignSignalIsDelivered | Signals/sigchld_supervisor.c:15-20 | after a foreign SIGCHLD the handler can run and leaves one byte; if `poll` was blocked the supervisor is dead |
| Supervisor.ForeignSignalCanKill | Signals/sigchld_supervisor.c:53-56 | with one foreign SIGCHLD the supervisor can die while its first worker still runs |
| Supervisor.ForeignSignalPassesThrough | Signals/sigchld_supervisor.c:52-70 | delivered before `poll` it takes the loop through drain and `waitpid` back to `poll` with the worker running and nothing reaped |
| Supervisor.DrainTakesEight | Signals/sigchld_supervisor.c:57-58 | a drain takes up to 8 bytes: at most 8 in the pipe leave it empty |
| Supervisor.SupervisionEnds | Signals/sigchld_supervisor.c:49-72 | with finitely many foreign SIGCHLDs every run ends within 5 * (RESTART_LIMIT + foreign signals) + 2 steps, and only with the supervisor gone |
| Supervisor.Process.Reap | Signals/sigchld_supervisor.c:60-69 | `waitpid` and the restart in place are the step of the system |
| Supervisor.Process.Do | Signals/sigchld_supervisor.c:15-70 | a signal, the handler or a call of the loop in place is the step of the system |
| Supervisor.Supervise | Signals/sigchld_supervisor.c:49-72 | under any schedule the supervisor ends; its statuses are those of the attempts in order, all of them on normal exit |
| SemaphoreBarrier.BarrierIsSafe | Semaphores/sysv_semaphore_set_barrier.c:16-49 | the semaphore counts those still to come, the decrement never blocks, nobody is released early |
| SemaphoreBarrier.BarrierMoves | Semaphores/sysv_semaphore_set_barrier.c:42-53 | until all are released some worker can step |
| SemaphoreBarrier.StepLowersSteps | Semaphores/sysv_semaphore_set_barrier.c:47-48 | each step is one of two per worker and the semaphore never rises |
| SemaphoreBarrier.BarrierRunsAreBounded | Semaphores/sysv_semaphore_set_barrier.c:42-53 | every run ends within two steps per worker |
| SemaphoreBarrier.InitialValueIsExact | Semaphores/sysv_semaphore_set_barrier.c:38-40 | the barrier works if and only if the semaphore starts at the number of workers |
| SemaphoreBarrier.Meeting.Step | Semaphores/sysv_semaphore_set_barrier.c:16-30 | passing `change` or `wait_zero` in place is the step of the system |
| SemaphoreBarrier.RunBarrier | Semaphores/sysv_semaphore_set_barrier.c:42-55 | under any scheduler the program ends with every worker released |
| PingPong.TurnsAreStrict | Semaphores/posix_named_sem_pingpong.c:15-36 | there is exactly one turn at any time; event number j is ping j/2+1 for even j and pong j/2+1 for odd j |
| PingPong.TurnsOfRound | Semaphores/posix_named_sem_pingpong.c:24-34 | of n rounds, events 2k and 2k+1 are ping k+1 and pong k+1, and there are 2n |
| PingPong.GameMovesUntilOver | Semaphores/posix_named_sem_pingpong.c:22-36 | no deadlock; a finished game printed all 2 * rounds turns and leaves ping = 1, pong = 0 |
| PingPong.Court.StepParent | Semaphores/posix_named_sem_pingpong.c:32-36 | a wait, print or post of the parent in place is the step of the system |
| PingPong.Court.StepChild | Semaphores/posix_named_sem_pingpong.c:22-28 | a wait, print or post of the child in place is the step of the system |
| PingPong.RunGame | Semaphores/posix_named_sem_pingpong.c:21-38 | under any scheduler the program ends with 2 * rounds events, ping 1, pong 1, ping 2, pong 2 and so on |
| WriteAll.Write | Common/common.c:46-62 | the bytes sent are the prefix the kernel took, call by call in `log`; length means all of it, -1 a proper prefix and a failed last call; no call after either; it ends when stalls are finite |
| WriteAll.CallTakes | Common/common.c:49-59 | a call that accepts n adds exactly the next min(n, remaining) bytes, any other call none |
| WriteAll.InterruptIsInvisible | Common/common.c:52-55 | an EINTR inserted anywhere in the replies changes neither the bytes sent nor the result |
| WriteAll.FailureBeforeAnyByte | Common/common.c:52-57 | a kernel that takes nothing before it fails: nothing sent, -1, and no call after the failing one |
| WriteAll.ExecutionIsUnique | Common/common.c:46-62 | the replies determine the bytes sent, the result and the number of calls |

## Left out

- Creating, naming, mapping and removing kernel objects, `fork` failure and printing: the models start from the initialised state.
- The accept/fork loop, `serve` and `reap` of the calculator server, its client, and all other socket programs: thin use of system calls.
- IEEE arithmetic and the `%.3f` output of the calculator: values come from an arbitrary algebra; the texts of the error messages are not kept apart.
- The inner syntax of `strtod` (hexadecimal, exponents, infinities, its own sign): behind `NumeralLanguage`.
- 32-bit wrap-around of `int` counters and totals: the programs' constants stay far below it; the models use unbounded integers.
- The byte limits of pipes and queues: the message queue is limited by its number of messages, and the signal pipe never fills.
- A queue of capacity 0 and 100 or more workers: a worker type of 100 would take results.
- A restart limit of 0: the supervisor then leaves its first worker unreaped.
- Endless streams of foreign SIGCHLDs and of EINTRs: both are bounded by a parameter, so that every run can be shown to end.
- Memory ordering weaker than one global order of loads and stores.
- The remaining programs in `AlternativeIO/`, `InternetSockets/`, `Sockets/`, `Pipes/`, `Signals/`, `Semaphores/`, `FileLocking/` and `SharedMemory/`: one branch or a fixed exchange each, or a shape already modelled here.
