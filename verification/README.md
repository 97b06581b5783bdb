# Synchronisation protocols, thread-specific data and escape codecs

A Dafny model of two parts of the repository: the synchronisation layer of pthreads-win32
(`pthreads/pthreads.2`), a stack of small protocols that live off counters, flags and hand-offs, and
the escape functions of APR (`log4cxx/apr-1.5.2/encoding/apr_escape.c`).

Check it with `dafny verify dfyconfig.toml`.

## How it is modelled

- **Protocols** (`McsLock`, `CondVar`, `RwLock`, `Mutex`, `RobustMutex`, `Semaphore`, `Barrier`; for
  most, what holds over whole runs is in a module of its own: `CondVarLaws`, `RwLockLaws`, `MutexLaws`,
  `RobustMutexLaws`, `SemaphoreLaws`, `BarrierLaws`, `McsLaws`, `RobustWakeups`) are state machines
  over any number of threads. Each thread has a program counter whose values cite the line they stand
  before; one step is one interlocked instruction, one access to shared memory, or the code between
  two synchronisation calls under a lock. Memory is sequentially consistent. A time-out or a
  cancellation is a step that a waiting thread may take at any moment. `Reachable` states are those at
  the end of some run; the results hold in all of them. Deadlock freedom is stated as: if nobody
  inside a call can go on, then the state is one of the legitimate ones.
- **What a call comes to** is said of runs as sequences of events (`Traces`): who has taken which step,
  between which states. `InCall` picks the last call of a thread; the call is the one in the run, not
  one that the program counter remembers.
- The **code of the critical sections** is in classes with the fields of the original structs
  (`Cond`, `RwLockCounts`, `Sem`, `BarrierHeight`), and the methods are proved equal to the functions
  that the machines use. The code of the locks is in the classes of `McsCode`, `Mutex` and
  `RobustMutex`, and is proved to do what the machine does for a caller that nobody disturbs.
- The protocols are **layered**: the condition variable and the barrier use counting semaphores and
  locks as specified by `Semaphore`, `Mutex` and `McsLock`; the read/write lock uses mutexes and a
  condition variable that may wake its waiter for no reason. `Layers` shows that the steps of the
  lower layers and the uses that the upper ones make of them are steps of the same abstract lock,
  counter and mutex, and puts a barrier on a queue lock.
- `Tally` sums a weight over the program counters of all threads ("readers inside", "posts to come").
- **Linked structures** (`KeyMesh`, `RobustList`, `ThreadReuse`) are objects on the heap; each chain
  is also kept as a sequence in a ghost field, and `Valid` ties the two together.
  The walk at a thread's exit keeps a log of the values it takes and of the destructors it calls.
- **Codecs**: `EscapeSpec` says what each function computes and which undo each other, `EscapeLaws`
  and `EntityNames` relate that to shells, C strings, RFC 3986 and HTML; `Escape` and `Unescape` hold
  the loops over the string and the buffer, proved to compute that with a buffer and without;
  `EscapePool` has the allocating wrappers.

Standards: the pthread pages of IEEE Std 1003.1-2001 and, for robust mutexes, IEEE Std 1003.1-2008;
section 2.2 of its Shell Command Language; sections 2 and 3.3 of RFC 3986; sections 17.13.4.1 and
24.2.1 of HTML 4.01; section 4.6 of XML 1.0.

## Where the code and what it promises differ

- `apr_unescape_entity` reports NOTFOUND although it has left out a numeric reference that stands for
  no character, so `apr_punescape_entity` returns "&#5;" unchanged where unescaping makes it empty.
  It does so exactly if the string has a "&#" with a ';' somewhere behind it and no reference that
  stands for a character (`EntityNotFoundSame`, `PUnescapeEntity`; `DroppedIsNotFound` is an input).
- `apr_unescape_hex` stores the first digit of a byte before it has seen the second, so for a string
  with an odd number of digits it stores one byte more than it reports, the one behind the buffer of
  `apr_punescape_hex` (`UnescapeHex`, `HexStoredExact`, `PUnescapeHex`; `HexStoresOneMore` is an input).
- The apostrophe is not in the XML class of the generated table, so `apr_escape_entity` never writes
  `&apos;`, which `apr_unescape_entity` would not know; the round trip holds for all strings.
- A normal mutex does not check who unlocks it; only there the machine lets a thread unlock nothing
  but what it holds, as the comment in pthread_mutex_unlock.c:54-58 demands. `StrayUnlock` says when
  it would go wrong otherwise.
- Robust mutexes can lose a wakeup. A thread that was woken and inherits the mutex, or finds it
  unrecoverable at its second look, does not mark the lock again for those that still sleep; if the
  lock is not marked, its unlock will not wake them. `RobustWakeups.LostIfDeserted` says that this and
  nothing else loses a wakeup; `WakeupLost` is a run.
- `pthread_rwlock_trywrlock` would return EBUSY with both mutexes locked if it found a writer in
  (lines 116-119); it never does (`RwLockLaws.WriterEntersEmpty`).

## Model

| member | source | states |
|---|---|---|
| McsLock.StepKeepsInvariant | pthreads/pthreads.2/ptw32_MCS_lock.c:157-278 | every atomic step of acquire, try-acquire, release, transfer and the two flag functions keeps the invariant about tickets, links and flags of all nodes |
| McsLock.MutualExclusion | pthreads/pthreads.2/ptw32_MCS_lock.c:157-220 | in every interleaving at most one node owns the lock, and it is the one whose ticket is the number of hand-overs |
| McsLock.FirstComeFirstServed | pthreads/pthreads.2/ptw32_MCS_lock.c:167-178 | over a whole run the lock is owned in the order of the tail exchanges, and the owner has the lowest ticket of all nodes in the queue |
| McsLock.HandOversOnlyGrow | pthreads/pthreads.2/ptw32_MCS_lock.c:203-219 | hand-overs are never undone in a run |
| McsLock.StepMovesQueue | pthreads/pthreads.2/ptw32_MCS_lock.c:157-278 | acquiring appends to the queue, releasing removes its head, a transfer only puts another node in the head's place, and nothing else changes it |
| McsLock.HandOverReadiesNext | pthreads/pthreads.2/ptw32_MCS_lock.c:192-219 | a release empties the queue, or readies exactly the next node by its flag or by the event it is about to set |
| McsLock.SleeperHasWaker | pthreads/pthreads.2/ptw32_MCS_lock.c:102-144 | whoever sleeps on an unsignalled event will be woken: the thread that has to set it is about to, or has not got that far |
| McsLock.NoStaleHandle | pthreads/pthreads.2/ptw32_MCS_lock.c:109-142 | SetEvent is only called on the live event of a sleeping node, and a next pointer that is followed is never null |
| McsLock.NoDeadlock | pthreads/pthreads.2/ptw32_MCS_lock.c:157-278 | while a node queues and the head does not simply hold the lock, some operation can go on |
| McsLock.OwnerIsTheOwner | pthreads/pthreads.2/ptw32_MCS_lock.c:157-220 | the abstract owner is the node that the program counters say owns the lock |
| McsLock.RefinesAbstractLock | pthreads/pthreads.2/ptw32_MCS_lock.c:157-278 | each step is a step of an abstract lock with transfer: take a free lock, free one's own, or move it |
| McsLaws.CallsKeepTheirWord | pthreads/pthreads.2/ptw32_MCS_lock.c:157-278 | over any run, a call of acquire does not move the queue again and stays on its way until it has the lock; a release that is done has left the queue exactly once and otherwise not touched it; a transfer that is done has put its new node in its place exactly once and handed nothing on; until then both have the lock |
| McsLaws.CallJoins | pthreads/pthreads.2/ptw32_MCS_lock.c:157-240 | acquire joins the end of the queue and has the lock at once if and only if nobody queues; try-acquire does so only then, and otherwise changes nothing |
| McsCode.QueueLock.FlagSet | pthreads/pthreads.2/ptw32_MCS_lock.c:103-114 | the code raises the flag or signals the event that is in it, as the machine does for an operation that nobody disturbs |
| McsCode.QueueLock.FlagWait | pthreads/pthreads.2/ptw32_MCS_lock.c:123-144 | the code proceeds, or stores an event and sleeps, as the machine does alone |
| McsCode.QueueLock.StoreEvent | pthreads/pthreads.2/ptw32_MCS_lock.c:133-142 | the compare-exchange, whatever has happened to the flag since the first look: an event is stored, or the flag has been set and there is nothing to wait for |
| McsCode.QueueLock.Acquire | pthreads/pthreads.2/ptw32_MCS_lock.c:158-178 | the node comes last in the queue; the code takes a free lock, or links behind its predecessor, notifies it and sleeps, as the machine does alone |
| McsCode.QueueLock.TryAcquire | pthreads/pthreads.2/ptw32_MCS_lock.c:229-240 | the code takes a free lock, or returns EBUSY and changes nothing |
| McsCode.QueueLock.Release | pthreads/pthreads.2/ptw32_MCS_lock.c:192-220 | the code hands the lock on, the queue losing its head, or keeps it and sleeps until its successor has linked, as the machine does alone |
| McsCode.QueueLock.Transfer | pthreads/pthreads.2/ptw32_MCS_lock.c:257-278 | the new node stands, and owns the lock, where the old one stood, or the old one keeps it and spins until its successor has linked; the lock is never released; as the machine does alone |
| CondVar.Cond.Register | pthreads/pthreads.2/pthread_cond_wait.c:390 | a waiter counts itself in, nothing else changes |
| CondVar.Cond.LeaveSection | pthreads/pthreads.2/pthread_cond_wait.c:297-301 | a waiter leaves as unblocked or as gone, and finds out whether to fold |
| CondVar.Cond.FoldSubtract | pthreads/pthreads.2/pthread_cond_wait.c:314 | the fold subtracts those gone from those blocked |
| CondVar.Cond.FoldClear | pthreads/pthreads.2/pthread_cond_wait.c:325 | the gone count is cleared after the gate has been opened |
| CondVar.Cond.DecideSection | pthreads/pthreads.2/pthread_cond_signal.c:92-110 | what a signal or broadcast counts before it needs the gate, and whether it needs it |
| CondVar.Cond.CloseSection | pthreads/pthreads.2/pthread_cond_signal.c:119-133 | what it counts once the gate is closed, and how many posts it owes |
| CondVar.StepKeepsInvariant | pthreads/pthreads.2/pthread_cond_wait.c:275-341 | every step of waiters and signallers, with time-outs and cancellations, keeps the accounting, the gate and the wakeups in balance |
| CondVarLaws.Accounting | pthreads/pthreads.2/pthread_cond_wait.c:291-341 | with the unblock mutex free, registered waiters = blocked - gone + to unblock; the counts are non-negative, to unblock > 0 means gone = 0, and gone stays below INT_MAX / 2 |
| CondVarLaws.WakeupsNeverLost | pthreads/pthreads.2/pthread_cond_signal.c:87-148 | queue tokens, posts to come and waiters with a token cover the waiters to unblock, so a waiter without one is uncovered or has one coming |
| CondVarLaws.SectionCovers | pthreads/pthreads.2/pthread_cond_signal.c:92-142 | a section that ends for a broadcast leaves every registered waiter covered, for a signal one more if there is one, and the posts owed are the newly covered |
| CondVarLaws.CallCovers | pthreads/pthreads.2/pthread_cond_signal.c:76-148 | over any run: the section of pthread_cond_broadcast covers everybody registered, that of pthread_cond_signal one more waiter if there is one, by the call that was made |
| CondVarLaws.CallDelivers | pthreads/pthreads.2/pthread_cond_signal.c:140-148 | over any run: after its section a signaller posts exactly as many units as it owes, before it comes back |
| CondVarLaws.CallsKeepTheirWord | pthreads/pthreads.2/pthread_cond_wait.c:275-341 | over any run: a wait that comes back has taken a unit or has been given up, not both; a signal or broadcast that comes back has been through its section |
| CondVarLaws.CountersGuarded | pthreads/pthreads.2/pthread_cond_wait.c:291-390 | nWaitersBlocked is only written while the gate is closed, the other two counters only under the unblock mutex |
| CondVarLaws.GateHasOneHolder | pthreads/pthreads.2/pthread_cond_wait.c:297-341 | the gate is open or closed for exactly one reason, nobody registers while waiters are being unblocked, and each closing is undone once |
| CondVarLaws.SomebodyMoves | pthreads/pthreads.2/pthread_cond_wait.c:291-328 | whoever holds the unblock mutex, some thread can go on |
| CondVarLaws.NothingOwedWhenBlocked | pthreads/pthreads.2/pthread_cond_wait.c:291-341 | if all are blocked, the gate is open and nobody is owed a wakeup |
| CondVarLaws.NoDeadlock | pthreads/pthreads.2/pthread_cond_wait.c:275-341 | if nobody in a call can go on, the locks are free and everybody inside sleeps uncovered in an empty queue |
| RwLock.RwLockCounts.CountReader | pthreads/pthreads.2/pthread_rwlock_rdlock.c:81 | a reader counts itself in and finds out whether to normalise |
| RwLock.RwLockCounts.NormaliseSection | pthreads/pthreads.2/pthread_rwlock_rdlock.c:90-91 | normalising forgets the readers that have come and gone |
| RwLock.RwLockCounts.WriterSection | pthreads/pthreads.2/pthread_rwlock_wrlock.c:87-97 | a writer's entry section |
| RwLock.RwLockCounts.TryWriterSection | pthreads/pthreads.2/pthread_rwlock_trywrlock.c:88-119 | the entry section that does not wait |
| RwLock.RwLockCounts.CancelSection | pthreads/pthreads.2/ptw32_rwlock_cancelwrwait.c:45-46 | the roll-back of a writer that gives up |
| RwLock.RwLockCounts.CountReaderOut | pthreads/pthreads.2/pthread_rwlock_unlock.c:76 | a reader counts itself out and finds out whether to signal |
| RwLock.WriterEntryFits | pthreads/pthreads.2/pthread_rwlock_wrlock.c:87-97 | a writer waits if and only if there are readers inside, and its section leaves the counters fitting for that, the shared count being the readers inside |
| RwLock.TryWriterEntryFits | pthreads/pthreads.2/pthread_rwlock_trywrlock.c:88-119 | a trying writer gets in if and only if nobody is inside, and leaves the counters normalised either way |
| RwLock.CountInFits | pthreads/pthreads.2/pthread_rwlock_rdlock.c:81 | counting in keeps shared - completed equal to the readers inside |
| RwLock.NormaliseFits | pthreads/pthreads.2/pthread_rwlock_rdlock.c:90-91 | normalising at INT_MAX makes room again |
| RwLock.CountOutFits | pthreads/pthreads.2/pthread_rwlock_unlock.c:76 | counting out fits in every phase of a writer |
| RwLock.RollBackFits | pthreads/pthreads.2/ptw32_rwlock_cancelwrwait.c:45-46 | giving up leaves the counters as if the writer had never waited |
| RwLock.StepKeepsInvariant | pthreads/pthreads.2/pthread_rwlock_wrlock.c:76-132 | every step of readers and writers keeps the invariant about the mutexes, the counters and the sleeping writer |
| RwLockLaws.Exclusion | pthreads/pthreads.2/pthread_rwlock_wrlock.c:76-132 | a thread that may write excludes all readers and other writers |
| RwLockLaws.CountersTell | pthreads/pthreads.2/pthread_rwlock_rdlock.c:76-101 | readers inside = shared - completed, or -completed while a writer waits; the counters do not overflow with fewer than INT_MAX readers at once, however many locks are taken in total |
| RwLockLaws.RollBackRestores | pthreads/pthreads.2/pthread_rwlock_timedwrlock.c:91-138 | after a time-out or cancellation the counters again say who is inside |
| RwLockLaws.UnlockPicksOwnKind | pthreads/pthreads.2/pthread_rwlock_unlock.c:68 | the unlocked read picks the caller's own kind |
| RwLockLaws.ReachesZero | pthreads/pthreads.2/pthread_rwlock_unlock.c:76-78 | the completed count reaches zero by increment, and the reader signals, exactly when a writer waits and its last reader leaves |
| RwLockLaws.WriterEntersEmpty | pthreads/pthreads.2/pthread_rwlock_wrlock.c:95-129 | a writer gets in only when nobody is inside, and then without waiting; trywrlock gives its mutexes back otherwise |
| RwLockLaws.CallsKeepTheirWord | pthreads/pthreads.2/pthread_rwlock_wrlock.c:76-132 | over any run: pthread_rwlock_wrlock comes back without the lock only if its thread has given up a wait, and with it only if not; rdlock comes back with the lock; the tries never wait for it |
| RwLockLaws.TriesFailForAReason | pthreads/pthreads.2/pthread_rwlock_trywrlock.c:76-119 | a try fails if and only if it finds a mutex locked or, for a writer, readers inside |
| RwLockLaws.WokenWriterGetsIn | pthreads/pthreads.2/pthread_rwlock_wrlock.c:104-129 | a waiting writer that wakes when nobody is inside gets the lock by its own next steps |
| RwLock.WakingHarmless | pthreads/pthreads.2/pthread_rwlock_unlock.c:78 | a signal changes nothing that is counted |
| RwLockLaws.NoDeadlock | pthreads/pthreads.2/pthread_rwlock_wrlock.c:76-132 | unless somebody simply has the lock, a thread in a call can go on |
| Mutex.Mutex.Lock | pthreads/pthreads.2/pthread_mutex_lock.c:75-142 | a free mutex is taken, its owner nests or gets EDEADLK, everybody else marks it and sleeps; and this is what the machine does for a thread that nobody disturbs |
| Mutex.Mutex.MarkAndSleep | pthreads/pthreads.2/pthread_mutex_lock.c:123-138 | the wait loop marks a taken mutex and ends asleep, with the event consumed, as the machine does |
| Mutex.Mutex.TryLock | pthreads/pthreads.2/pthread_mutex_trylock.c:69-95 | a free mutex is taken, the owner of a recursive one nests, everybody else gets EBUSY and changes nothing; as the machine does alone |
| Mutex.Mutex.Unlock | pthreads/pthreads.2/pthread_mutex_unlock.c:63-110 | the last unlock clears the owner, frees the mutex and sets the event if it was marked; one that is nested only counts down; EPERM changes nothing; as the machine does alone |
| Mutex.FinishGiving | pthreads/pthreads.2/pthread_mutex_unlock.c:92-102 | an undisturbed release clears the owner, frees the lock and sets the event if it was marked |
| Mutex.StepKeepsInvariant | pthreads/pthreads.2/pthread_mutex_lock.c:75-142 | every step of lock, timedlock, trylock and unlock keeps the invariant, for all three kinds |
| MutexLaws.MutualExclusion | pthreads/pthreads.2/pthread_mutex_lock.c:75-142 | at most one thread is in possession, and lock_idx is 0 exactly when nobody is |
| MutexLaws.CountIsDepth | pthreads/pthreads.2/pthread_mutex_lock.c:105-114 | ownerThread names the holder, and recursive_count is how often it has locked |
| MutexLaws.OwnerReadsAreRight | pthreads/pthreads.2/pthread_mutex_unlock.c:87-108 | the racy owner comparisons come out right: EPERM, EDEADLK, EBUSY and the recursive path exactly when they should |
| MutexLaws.ReleasesAtZero | pthreads/pthreads.2/pthread_mutex_unlock.c:89-102 | possession begins with a free lock and ends exactly when the last nested lock is undone |
| MutexLaws.ResultsAreHonest | pthreads/pthreads.2/pthread_mutex_timedlock.c:137-198 | Ok exactly if the caller has the lock one level deeper, ETIMEDOUT exactly if its time ran out, EPERM exactly if it did not have it |
| MutexLaws.CallsKeepTheirWord | pthreads/pthreads.2/pthread_mutex_timedlock.c:137-198 | over any run, what each call has come to when it returns: lock and timedlock one level deeper, EDEADLK to an owner, ETIMEDOUT if and only if the time ran out; trylock one level deeper, or EBUSY having found the mutex taken and not its own to nest; unlock one level less, or EPERM to a thread that did not have it |
| MutexLaws.FreeIsTaken | pthreads/pthreads.2/pthread_mutex_lock.c:80-138 | a thread at an exchange of lock_idx takes the mutex if and only if it is free |
| MutexLaws.StrayUnlock | pthreads/pthreads.2/pthread_mutex_unlock.c:65-83 | a normal mutex that is unlocked and locked again by a thread that does not have it gets two holders if and only if it was locked |
| MutexLaws.NoLostWakeup | pthreads/pthreads.2/pthread_mutex_timedlock.c:145-198 | while somebody sleeps and the event is not set, lock_idx is -1 or a thread is about to write -1 or to set the event |
| MutexLaws.NobodyStranded | pthreads/pthreads.2/pthread_mutex_lock.c:84-93 | if nobody can go on, whoever sleeps does so behind a marked lock that a thread outside holds |
| Semaphore.Sem.WaitSection | pthreads/pthreads.2/sem_timedwait.c:175-178 | the field falls by one, and the caller must wait if it was not positive |
| Semaphore.Sem.TryWaitSection | pthreads/pthreads.2/sem_trywait.c:97-104 | a unit is taken, or EAGAIN |
| Semaphore.Sem.PostSection | pthreads/pthreads.2/sem_post.c:94-115 | one unit more, one token if somebody waits, undone if the OS refuses; ERANGE at SEM_VALUE_MAX |
| Semaphore.Sem.PostMultipleSection | pthreads/pthreads.2/sem_post_multiple.c:98-130 | count units more and min(count, waiters) tokens, undone if the OS refuses; ERANGE; for count = 1 the same function as sem_post |
| Semaphore.Sem.CleanupSection | pthreads/pthreads.2/sem_timedwait.c:71-91 | a waiter that gives up takes a token after all, or counts itself out |
| Semaphore.StepKeepsInvariant | pthreads/pthreads.2/sem_timedwait.c:61-93 | every step of waits, try-waits, posts, multi-posts, time-outs and cancellations keeps the conservation laws |
| SemaphoreLaws.Conservation | pthreads/pthreads.2/sem_timedwait.c:61-93 | taken + undelivered tokens + max(value, 0) = initial + posted, and waiters - tokens = max(0, -value) |
| SemaphoreLaws.NeverOverflows | pthreads/pthreads.2/sem_post_multiple.c:98-115 | value stays between minus the number of threads and SEM_VALUE_MAX, and with that many threads ReleaseSemaphore is never refused |
| SemaphoreLaws.RefinesCounter | pthreads/pthreads.2/ptw32_semwait.c:78-123 | the semaphore refines a counter of available units: a success takes one that was there, a post adds exactly its count or nothing |
| SemaphoreLaws.FailuresAreHonest | pthreads/pthreads.2/sem_trywait.c:97-104 | ETIMEDOUT only when no unit is available, EAGAIN only when all units belong to threads that wait already |
| SemaphoreLaws.CallsKeepTheirWord | pthreads/pthreads.2/sem_timedwait.c:130-200 | over any run: a wait that comes back has taken a unit, unless it was timed and has given up; sem_trywait never sleeps and has taken a unit or found none; a post that comes back has added its units, unless they would not fit |
| SemaphoreLaws.NobodyStranded | pthreads/pthreads.2/sem_timedwait.c:175-197 | if nobody can go on, the lock is free, and nobody waits while a unit is available |
| Barrier.BarrierHeight.Create | pthreads/pthreads.2/pthread_barrier_init.c:47-69 | EINVAL for count 0, ENOMEM if calloc or sem_init fails, else a barrier at full height |
| Barrier.BarrierHeight.Arrive | pthreads/pthreads.2/pthread_barrier_wait.c:57 | the height falls by one, and who brings it to zero knows |
| Barrier.BarrierHeight.Cross | pthreads/pthreads.2/pthread_barrier_wait.c:90-91 | the height rises by one, and who brings it to n knows |
| Barrier.StepKeepsInvariant | pthreads/pthreads.2/pthread_barrier_wait.c:54-101 | every step keeps the invariant, for any height, any number of threads and rounds |
| BarrierLaws.NobodyLeavesEarly | pthreads/pthreads.2/pthread_barrier_wait.c:66-90 | nobody gets past the semaphore before n threads have come in |
| BarrierLaws.RoundsComplete | pthreads/pthreads.2/pthread_barrier_wait.c:90-100 | in every finished round n threads came in, the same n went out, and exactly one is the serial thread |
| BarrierLaws.RoundsDoNotOverlap | pthreads/pthreads.2/pthread_barrier_wait.c:54-57 | nobody comes in before everybody of the round before has crossed; a round starts at full height with an empty semaphore |
| BarrierLaws.HeightInRange | pthreads/pthreads.2/pthread_barrier_wait.c:57-96 | the height stays in 0..n, and the lock is released by its taker or, once, from the proxy node |
| BarrierLaws.NoDeadlock | pthreads/pthreads.2/pthread_barrier_wait.c:54-101 | if nobody can go on, the lock is free and fewer than n threads have come |
| Layers.QueueLockServes | pthreads/pthreads.2/ptw32_MCS_lock.c:157-278 | every step of the queue lock is, for the user of the node that takes it, one that the barrier's lock allows |
| Layers.BarrierAsks | pthreads/pthreads.2/pthread_barrier_wait.c:54-96 | the barrier does nothing else to its lock, and lowers the height only while a thread has it |
| Layers.QueueLockHandsOut | pthreads/pthreads.2/ptw32_MCS_lock.c:192-219 | while somebody queues for a lock that nobody owns, an operation of the queue lock can go on |
| Layers.BarrierOnQueueLock | pthreads/pthreads.2/pthread_barrier_wait.c:54-101 | barrier and queue lock together: if nothing can go on, nobody queues for the lock and the barrier waits for threads that have not come |
| Layers.SemaphoreServes | pthreads/pthreads.2/sem_timedwait.c:61-93 | every step of the semaphore is one of a counter of units, unless the system refuses a post |
| Layers.BarrierCounts | pthreads/pthreads.2/pthread_barrier_wait.c:72-87 | the barrier uses its semaphore as such a counter |
| Layers.CondVarCounts | pthreads/pthreads.2/pthread_cond_wait.c:291-341 | the condition variable uses its gate and its queue as such counters |
| Layers.MutexServes | pthreads/pthreads.2/pthread_mutex_lock.c:75-142 | every step of a mutex takes it for the thread when free, or frees the thread's own |
| Layers.CondVarLocks | pthreads/pthreads.2/pthread_cond_wait.c:291-341 | the condition variable uses mtxUnblockLock like this |
| Layers.RwLockLocks | pthreads/pthreads.2/pthread_rwlock_wrlock.c:76-132 | the read/write lock uses both of its mutexes like this |
| Layers.OneWaiter | pthreads/pthreads.2/pthread_rwlock_wrlock.c:111-115 | at most one thread waits on the read/write lock's condition variable |
| Layers.SignalReachesIt | pthreads/pthreads.2/pthread_cond_signal.c:87-148 | with one waiter, a signal leaves none uncovered: a unit is there for it, on its way, or taken by it |
| Layers.ListsFollow | pthreads/pthreads.2/pthread_mutex_consistent.c:116-162 | the mutex is put on a list when it is on none and taken off the list of the thread that holds it, and stays listed where the machine says |
| KeyMesh.ThreadS.Push | pthreads/pthreads.2/ptw32_tkAssocCreate.c:108-114 | a new association comes first on its thread's chain; the links are those of the chain, and nextAssoc keeps its place |
| KeyMesh.ThreadS.UnlinkKeys | pthreads/pthreads.2/ptw32_tkAssocDestroy.c:68-83 | an association leaves its thread's chain, all others stay in order |
| KeyMesh.ThreadS.Unlink | pthreads/pthreads.2/ptw32_tkAssocDestroy.c:68-91 | and nextAssoc moves on if it stood there |
| KeyMesh.ThreadS.Advance | pthreads/pthreads.2/ptw32_callUserDestroyRoutines.c:156 | nextAssoc moves to the next association of the chain |
| KeyMesh.KeyS.Push | pthreads/pthreads.2/ptw32_tkAssocCreate.c:97-103 | a new association comes first on its key's chain |
| KeyMesh.KeyS.Unlink | pthreads/pthreads.2/ptw32_tkAssocDestroy.c:94-109 | an association leaves its key's chain, all others stay in order |
| KeyMesh.Mesh.constructor | pthreads/pthreads.2/implement.h:391-496 | an empty mesh is valid |
| KeyMesh.Mesh.Create | pthreads/pthreads.2/ptw32_tkAssocCreate.c:84-116 | an association is put on exactly its own thread's and its own key's chain, or ENOMEM and no change |
| KeyMesh.Mesh.Destroy | pthreads/pthreads.2/ptw32_tkAssocDestroy.c:63-112 | exactly this association leaves both chains; both families of chains stay well formed |
| KeyMesh.Mesh.Find | pthreads/pthreads.2/pthread_setspecific.c:129-143 | the search finds the association of the thread and the key if and only if there is one |
| KeyMesh.Mesh.Associate | pthreads/pthreads.2/pthread_setspecific.c:129-151 | find or create: at most one association per thread and key |
| KeyMesh.Mesh.SetSpecific | pthreads/pthreads.2/pthread_setspecific.c:106-164 | the value is stored exactly if the result is 0, and a value that a destructor will have to see has an association |
| KeyMesh.Mesh.DestroyAll | pthreads/pthreads.2/pthread_key_delete.c:86-107 | the loop destroys the key's associations and ends |
| KeyMesh.Mesh.KeyDelete | pthreads/pthreads.2/pthread_key_delete.c:72-125 | deleting a key removes its associations and leaves all others in order, on both sides of every cursor and in the chain as a whole |
| KeyMesh.WithoutHasNone | pthreads/pthreads.2/pthread_key_delete.c:86-107 | leaving out a key's associations leaves out those and no others |
| KeyMesh.WithoutOneSplit | pthreads/pthreads.2/ptw32_tkAssocDestroy.c:84-91 | taking one association out in place is leaving it out before and after the cursor, which keeps its place |
| KeyMesh.Mesh.HasOnlyOne | pthreads/pthreads.2/pthread_setspecific.c:129-151 | there is at most one association for a thread and a key |
| KeyMesh.Mesh.Take | pthreads/pthreads.2/ptw32_callUserDestroyRoutines.c:156-168 | the cursor moves on, and the slot is cleared, and no other, before anything else is done with the value |
| KeyMesh.Mesh.CallDestructor | pthreads/pthreads.2/ptw32_callUserDestroyRoutines.c:170-213 | a destructor is called for a live key with a value that has been cleared, the call is in the log with its key, thread and value, and no more associations are ahead of the cursor afterwards than before |
| KeyMesh.Mesh.Discard | pthreads/pthreads.2/ptw32_callUserDestroyRoutines.c:224 | an association without a value is removed from behind the cursor, and the same calls are due as before |
| KeyMesh.Mesh.Visit | pthreads/pthreads.2/ptw32_callUserDestroyRoutines.c:156-227 | the destructor is called with the value found in the slot if and only if there is one and the pass is not the one too many; each turn makes the part of the chain after nextAssoc shorter, whatever the destructor does |
| KeyMesh.Mesh.Pass | pthreads/pthreads.2/ptw32_callUserDestroyRoutines.c:95-229 | a pass ends; one that has called no destructor leaves the chain empty; up to pass PTHREAD_DESTRUCTOR_ITERATIONS a destructor is called for every value that is taken, and undisturbed these are all there were, in chain order |
| KeyMesh.Mesh.CallUserDestroyRoutines | pthreads/pthreads.2/ptw32_callUserDestroyRoutines.c:93-230 | for any destructors and any other threads: at most PTHREAD_DESTRUCTOR_ITERATIONS + 1 passes, then the chain is empty and no value is left that a destructor would have to see; undisturbed, the calls made are those of all associations with a value, each once, with its value and in chain order |
| RobustMutex.StepKeepsInvariant | pthreads/pthreads.2/pthread_mutex_lock.c:143-265 | every step of the robust lock, trylock and unlock, of pthread_mutex_consistent and of a thread's end keeps the invariant |
| RobustMutexLaws.MutualExclusion | pthreads/pthreads.2/pthread_mutex_lock.c:143-265 | never two live owners, and none beside the mark of a dead one |
| RobustMutexLaws.DeathsAreInherited | pthreads/pthreads.2/pthread_mutex_consistent.c:77-100 | EOWNERDEAD is given out once for each owner that died, except for the mark still there; while it is, the lock is not free |
| RobustMutexLaws.PossessionChanges | pthreads/pthreads.2/pthread_mutex_unlock.c:111-167 | possession begins with a free lock and result 0, or with the mark and EOWNERDEAD; it ends with the exchange with 0 or with the mark |
| RobustMutexLaws.ListedIsHeld | pthreads/pthreads.2/pthread_mutex_consistent.c:116-162 | the mutex is on the list of exactly the thread that has it locked, which ownerThread names; a thread that has ended holds nothing |
| RobustMutexLaws.OwnerReadsAreRight | pthreads/pthreads.2/pthread_mutex_trylock.c:130-149 | EPERM, EDEADLK and the recursive path are taken exactly when they should be |
| RobustMutexLaws.ResultsAreHonest | pthreads/pthreads.2/pthread_mutex_trylock.c:96-151 | Ok or EOWNERDEAD exactly if the caller has the mutex one level deeper; EPERM exactly if it did not have it |
| RobustMutexLaws.CallsKeepTheirWord | pthreads/pthreads.2/pthread_mutex_lock.c:143-265 | over any run, what each call has come to when it returns: Ok or EOWNERDEAD one level deeper; ENOTRECOVERABLE having found the mutex so; EDEADLK or, from trylock, EBUSY having found it taken and not its own to nest; unlock one level less or EPERM |
| RobustMutexLaws.LooksFirst | pthreads/pthreads.2/pthread_mutex_lock.c:168-190 | nobody marks the lock to sleep, or says EBUSY, without having just seen that no owner has died and the mutex is recoverable |
| RobustMutexLaws.FreeIsTaken | pthreads/pthreads.2/pthread_mutex_lock.c:164-260 | a thread at an exchange of lock_idx takes the mutex if and only if it is free |
| RobustMutexLaws.StateChanges | pthreads/pthreads.2/pthread_mutex_consistent.c:77-100 | the state goes from consistent to marked only by an owner's end, from marked to inconsistent only by its heir, and from there only by pthread_mutex_consistent, by an unlock without it or by another death |
| RobustMutexLaws.UnrecoverableIsSaid | pthreads/pthreads.2/pthread_mutex_lock.c:152-161 | a lock that begins with the mutex unrecoverable says so at its first look, and only then |
| RobustMutexLaws.ConsistentIsUsable | pthreads/pthreads.2/pthread_mutex_consistent.c:165-190 | an heir that calls pthread_mutex_consistent and unlocks leaves a mutex that the next thread locks; one that only unlocks leaves one that the next thread is told is unrecoverable |
| RobustWakeups.LostIfDeserted | pthreads/pthreads.2/pthread_mutex_lock.c:168-190 | a step makes somebody sleep on with nobody bound to wake it if and only if the last thread awake to answer for the sleepers looks again, at a mutex that is not marked, and inherits it or finds it unrecoverable |
| RobustWakeups.RunLosesIfDeserted | pthreads/pthreads.2/pthread_mutex_lock.c:168-190 | a run from the beginning loses a wakeup if and only if that happens in it |
| RobustWakeups.LostStaysLost | pthreads/pthreads.2/pthread_mutex_unlock.c:126-140 | no unlock makes a lost wakeup good; only a thread that comes to a taken mutex or an owner's end does |
| RobustWakeups.WakeupLost | pthreads/pthreads.2/pthread_mutex_lock.c:168-190 | a run, in which no call even interrupts another, that ends with the mutex free and consistent and a thread asleep for it |
| RobustWakeups.PassesOn | pthreads/pthreads.2/pthread_mutex_lock.c:180-190 | a woken thread that finds the mutex unrecoverable at its first look passes the wakeup on |
| RobustMutex.RobustMutexCode.Inherit | pthreads/pthreads.2/pthread_mutex_consistent.c:77-100 | the mark of a dead owner is taken away by who gets EOWNERDEAD, nothing else changes |
| RobustMutex.RobustMutexCode.Lock | pthreads/pthreads.2/pthread_mutex_lock.c:150-264 | the robust lock does what the machine does for a thread that nobody disturbs, up to its return or its sleep |
| RobustMutex.RobustMutexCode.InheritOrSleep | pthreads/pthreads.2/pthread_mutex_lock.c:229-260 | the loop that inherits or sleeps does what the machine does alone, and ends |
| RobustMutex.RobustMutexCode.TryLock | pthreads/pthreads.2/pthread_mutex_trylock.c:103-150 | the robust trylock does what the machine does alone |
| RobustMutex.RobustMutexCode.Unlock | pthreads/pthreads.2/pthread_mutex_unlock.c:114-166 | the robust unlock does what the machine does alone |
| RobustMutex.RobustMutexCode.MakeConsistent | pthreads/pthreads.2/pthread_mutex_consistent.c:179-188 | an inconsistent robust mutex becomes consistent, any other state or kind gives EINVAL |
| RobustList.HolderThread.Add | pthreads/pthreads.2/pthread_mutex_consistent.c:116-138 | the mutex comes first on its new owner's list |
| RobustList.Remove | pthreads/pthreads.2/pthread_mutex_consistent.c:142-162 | a mutex is taken off its owner's list from any place, all others stay in order |
| RobustList.GiveUpAll | pthreads/pthreads.2/pthread_win32_attach_detach_np.c:224-237 | the loop ends with an empty list, and marks and signals exactly the mutexes that were on it |
| RobustList.Holdings.Acquire | pthreads/pthreads.2/pthread_mutex_consistent.c:116-138 | each thread's list holds exactly its mutexes after a lock |
| RobustList.Holdings.Release | pthreads/pthreads.2/pthread_mutex_consistent.c:142-162 | and after unlocks in any order |
| RobustList.Holdings.Die | pthreads/pthreads.2/pthread_win32_attach_detach_np.c:224-237 | and after a thread's end, which marks all it held |
| ThreadReuse.Threads.Pop | pthreads/pthreads.2/ptw32_reuse.c:78-103 | the struct that has waited longest leaves the queue |
| ThreadReuse.Threads.Push | pthreads/pthreads.2/ptw32_reuse.c:116-150 | a struct joins the end of the queue with its reuse counter bumped, modulo 2^32 |
| ThreadReuse.Threads.New | pthreads/pthreads.2/ptw32_new.c:51-92 | a handle for a new life of a waiting struct or of a new one; without memory or event, none, and the struct waits |
| ThreadReuse.Threads.Destroy | pthreads/pthreads.2/ptw32_threadDestroy.c:43-78 | a live thread's struct joins the queue, which stays disjoint from the live structs |
| ThreadReuse.Threads.HandlesUnique | pthreads/pthreads.2/ptw32_reuse.c:128-133 | no handle is given out for two lives until its struct has been recycled 2^32 times in between |
| ThreadReuse.Threads.StaleDiffers | pthreads/pthreads.2/ptw32_reuse.c:59-69 | a copy equals the struct's handle while its life lasts, and then differs until 2^32 recyclings later |
| EscapeSpec.FlatSame | log4cxx/apr-1.5.2/encoding/apr_escape.c:130-135 | nothing to escape if and only if the output is the input |
| EscapeSpec.UrlNotFoundSame | log4cxx/apr-1.5.2/encoding/apr_escape.c:279-287 | NOTFOUND from unescape_url means that the output is the input |
| EscapeLaws.StatusTells | log4cxx/apr-1.5.2/encoding/apr_escape.c:198-233 | EINVAL if and only if there is a % without two digits; otherwise BADCH if and only if a zero byte or a forbidden character is escaped; otherwise SUCCESS if and only if something is decoded or a plus replaced |
| EscapeSpec.UndecodedSame | log4cxx/apr-1.5.2/encoding/apr_escape.c:198-233 | where nothing is decoded or forbidden, malformed escapes come out as they are |
| EscapeLaws.ShellRoundTrip | log4cxx/apr-1.5.2/encoding/apr_escape.c:81-138 | removing the backslashes as a shell does gives the string back, and no special character is left bare |
| EscapeLaws.EchoRoundTrip | log4cxx/apr-1.5.2/encoding/apr_escape.c:872-1000 | the output is printable, means the input as a C string, and has a bare quotation mark if and only if the input has one and quotation marks are not to be escaped |
| EscapeLaws.EchoIsShort | log4cxx/apr-1.5.2/encoding/apr_escape.c:899-960 | a character that has a letter in C gets that letter |
| EscapeLaws.NeverAScheme | log4cxx/apr-1.5.2/encoding/apr_escape.c:409-471 | an escaped path has no colon before its first slash unless it is said to be partial, and gets its prefix only for this |
| EscapeLaws.ClassesFitStandards | log4cxx/apr-1.5.2/tools/gen_test_char.c:63-107 | which characters are escaped, in terms of RFC 3986 and of the shell's quoting |
| EscapeLaws.OutputsFitStandards | log4cxx/apr-1.5.2/tools/gen_test_char.c:63-107 | escaped segments, paths and forms hold only characters that may stand there |
| EscapeSpec.PercentRoundTrip | log4cxx/apr-1.5.2/encoding/apr_escape.c:198-233 | whatever is escaped with % comes back, unless it is forbidden (then an error) or reserved (then something longer) |
| EscapeSpec.SegmentRoundTrip | log4cxx/apr-1.5.2/encoding/apr_escape.c:341-388 | unescape_url undoes escape_path_segment if and only if no character that gets escaped is forbidden or reserved and no '+' is taken for a space; its status is SUCCESS or NOTFOUND accordingly |
| EscapeSpec.SpacedSame | log4cxx/apr-1.5.2/encoding/apr_escape.c:198-201 | and that makes a difference if and only if there is a '+' |
| EscapeSpec.PathRoundTrip | log4cxx/apr-1.5.2/encoding/apr_escape.c:435-450 | unescape_url undoes the loop of escape_path under exactly the same condition |
| EscapeSpec.PathOutRoundTrip | log4cxx/apr-1.5.2/encoding/apr_escape.c:409-471 | unescape_url undoes escape_path up to the "./" prefix under exactly the same condition, with the right status |
| EscapeSpec.FormRoundTrip | log4cxx/apr-1.5.2/encoding/apr_escape.c:492-546 | unescape_url with plus set undoes escape_urlencoded if and only if no character that gets escaped is forbidden or reserved |
| EscapeSpec.EntityRoundTrip | log4cxx/apr-1.5.2/encoding/apr_escape.c:566-677 | unescape_entity undoes escape_entity |
| EntityNames.NumberResolves | log4cxx/apr-1.5.2/encoding/apr_escape.c:747-757 | a decimal number, with leading zeros or without, stands for its character if that is a tab, a line feed or a printing character of Latin-1, and otherwise for nothing |
| EntityNames.NumberDecodes | log4cxx/apr-1.5.2/encoding/apr_escape.c:747-757 | so "&#", the number in decimal and ';' decode to that character, or are left out |
| EntityNames.MalformedIsDropped | log4cxx/apr-1.5.2/encoding/apr_escape.c:747-752 | a number with anything but digits in it stands for nothing |
| EntityNames.NameResolves | log4cxx/apr-1.5.2/encoding/apr_escape.c:706-784 | a named reference stands for a character if and only if that is its name in HTML 4, for all 66 names |
| EscapeSpec.EntityNotFoundSame | log4cxx/apr-1.5.2/encoding/apr_escape.c:847-849 | NOTFOUND from unescape_entity means that the output is the input if and only if the input has no "&#" with a ';' behind it |
| EscapeSpec.DroppedIfNumeric | log4cxx/apr-1.5.2/encoding/apr_escape.c:747-784 | where nothing is found, a reference is left out if and only if there is such a "&#" |
| EscapeSpec.DroppedIsNotFound | log4cxx/apr-1.5.2/encoding/apr_escape.c:753-757 | "&#5;" is such an input: NOTFOUND, and an empty output |
| EscapeSpec.HexRoundTrip | log4cxx/apr-1.5.2/encoding/apr_escape.c:1073-1163 | unescape_hex undoes escape_hex on arbitrary bytes, with colons or without |
| EscapeSpec.HexLengthRight | log4cxx/apr-1.5.2/encoding/apr_escape.c:1042-1049 | the length that escape_hex reports is that of its output with the terminator |
| EscapeSpec.HexStoredExact | log4cxx/apr-1.5.2/encoding/apr_escape.c:1109-1116 | the bytes stored are those reported and, if and only if the number of digits is odd, one more: the last digit times 16 |
| EscapeSpec.HexStoresOneMore | log4cxx/apr-1.5.2/encoding/apr_escape.c:1114-1115 | "1" is an input that stores a byte and reports none |
| Escape.C2x | log4cxx/apr-1.5.2/encoding/apr_escape.c:329-339 | the prefix and the two hexadecimal digits of the byte are written |
| Escape.EscapeShell | log4cxx/apr-1.5.2/encoding/apr_escape.c:81-138 | with a buffer and without: the same status, NOTFOUND exactly if no character changes, and exactly as many bytes written as reported, terminator included |
| Escape.EscapePathSegment | log4cxx/apr-1.5.2/encoding/apr_escape.c:341-388 | with a buffer and without: the same status, NOTFOUND exactly if no character changes, and exactly as many bytes written as reported, terminator included |
| Escape.EscapeUrlEncoded | log4cxx/apr-1.5.2/encoding/apr_escape.c:492-546 | with a buffer and without: the same status, NOTFOUND exactly if no character changes, and exactly as many bytes written as reported, terminator included |
| Escape.EscapeEntity | log4cxx/apr-1.5.2/encoding/apr_escape.c:566-677 | with a buffer and without: the same status, NOTFOUND exactly if no character changes, and exactly as many bytes written as reported, terminator included |
| Escape.EscapeEcho | log4cxx/apr-1.5.2/encoding/apr_escape.c:872-1000 | with a buffer and without: the same status, NOTFOUND exactly if no character changes, and exactly as many bytes written as reported, terminator included |
| Escape.EscapePath | log4cxx/apr-1.5.2/encoding/apr_escape.c:409-471 | the same, with the prefix for a path that looks like a scheme |
| Unescape.DecodePair | log4cxx/apr-1.5.2/encoding/apr_escape.c:158-177 | x2c computes the byte that the two digits stand for |
| Unescape.UnescapeUrl | log4cxx/apr-1.5.2/encoding/apr_escape.c:179-290 | with a buffer and without: EINVAL, BADCH, NOTFOUND or SUCCESS in this order, and exactly as many bytes written as reported |
| Unescape.UrlStep | log4cxx/apr-1.5.2/encoding/apr_escape.c:198-233 | a turn of the writing loop is one step of the decoder |
| Unescape.UrlCount | log4cxx/apr-1.5.2/encoding/apr_escape.c:240-271 | a turn of the query counts what the same turn of the writing loop writes |
| Unescape.ResolveAt | log4cxx/apr-1.5.2/encoding/apr_escape.c:747-784 | what a numeric or named reference stands for, by the digits in decimal and by the table of its length (`EntityNames`): a Latin-1 character, nothing, or no reference |
| Unescape.UnescapeEntity | log4cxx/apr-1.5.2/encoding/apr_escape.c:701-852 | with a buffer and without: the same status, and exactly as many bytes written as reported |
| Unescape.EscapeHex | log4cxx/apr-1.5.2/encoding/apr_escape.c:1021-1052 | the digits of all bytes, and the length with the terminator, whether or not there is a buffer |
| Unescape.UnescapeHex | log4cxx/apr-1.5.2/encoding/apr_escape.c:1073-1163 | with a buffer and without, for any slen: BADCH for a wrong character, else the bytes and their number; what is stored in the buffer, byte for byte, and what stays as it was |
| EscapePool.PEscapeShell | log4cxx/apr-1.5.2/encoding/apr_escape.c:140-156 | the escaped string, in the allocated buffer or, if nothing changes, in the argument |
| EscapePool.PEscapePathSegment | log4cxx/apr-1.5.2/encoding/apr_escape.c:390-407 | the escaped string, in the allocated buffer or, if nothing changes, in the argument |
| EscapePool.PEscapePath | log4cxx/apr-1.5.2/encoding/apr_escape.c:473-490 | the escaped string, in the allocated buffer or, if nothing changes, in the argument |
| EscapePool.PEscapeUrlEncoded | log4cxx/apr-1.5.2/encoding/apr_escape.c:548-564 | the escaped string, in the allocated buffer or, if nothing changes, in the argument |
| EscapePool.PEscapeEntity | log4cxx/apr-1.5.2/encoding/apr_escape.c:679-696 | the escaped string, in the allocated buffer or, if nothing changes, in the argument |
| EscapePool.PEscapeEcho | log4cxx/apr-1.5.2/encoding/apr_escape.c:1002-1019 | the escaped string, in the allocated buffer or, if nothing changes, in the argument |
| EscapePool.PUnescapeUrl | log4cxx/apr-1.5.2/encoding/apr_escape.c:292-315 | the unescaped string, or NULL for EINVAL and BADCH |
| EscapePool.PUnescapeEntity | log4cxx/apr-1.5.2/encoding/apr_escape.c:854-870 | the unescaped string if and only if something was found or the string has no numeric reference |
| EscapePool.PEscapeHex | log4cxx/apr-1.5.2/encoding/apr_escape.c:1054-1071 | the digits in a buffer of the reported length |
| EscapePool.PUnescapeHex | log4cxx/apr-1.5.2/encoding/apr_escape.c:1165-1183 | the bytes; the byte behind the buffer is stored to if and only if the string has an odd number of digits |

## Left out

- Reuse or reclaiming of queue-lock nodes: every acquisition and every transfer has a node of its own.
- `McsLock` and `McsCode` keep the nodes in a map of records that the steps reassign, not in objects; so aliasing between nodes is expressed by node numbers.
- The methods of `McsCode`, `Mutex.Mutex` and `RobustMutex.RobustMutexCode` run for a caller that nobody disturbs and stop where it would sleep; interference is in the machines. So a second look at a flag or at the state that only interference can have changed (pthread_mutex_lock.c:180) is in the machines alone; that of ptw32_MCS_lock.c:133 is `StoreEvent`.
- The destroy functions of barriers, condition variables, mutexes, semaphores and read/write locks, whose lifetime races the code acknowledges.
- Failures of OS calls, except of calloc, CreateEvent, TlsSetValue and ReleaseSemaphore, which are parameters of the operations; so the error returns in the middle of the condition variable and of the read/write lock are not modelled.
- A thread number that reaches 2^31: nesting depth and the number of waiters are unbounded where the code has an int. `CondVarLaws.Accounting` and `SemaphoreLaws.NeverOverflows` bound them by the number of threads.
- The height of a barrier is not bounded by SEM_VALUE_MAX + 1, beyond which sem_post_multiple would refuse the post.
- The read/write lock's timed readers (`pthread_rwlock_timedrdlock`), which change the completed count without its mutex when they time out.
- `RwLock`: results hold for runs in which fewer than INT_MAX readers are active at once, the bound that the counters need.
- Robust `pthread_mutex_timedlock`; that ENOTRECOVERABLE is permanent under races, which it is not (`RobustMutexLaws.StateChanges` says how it ends).
- The cancellation cleanup of `sem_wait`, and the first word of the struct as a validity test.
- Locks inside the association mesh: operations on it are atomic, and other threads act between them. What names a deleted key does not happen.
- KeyMesh.Mesh.SetSpecific: for a thread and a key that exist; how the calling thread is found, and ENOENT if it has no handle, are left out (lines 66-103).
- KeyMesh.Mesh.DestroyAll: runs without interference, although the key lock is released inside the loop (line 106).
- KeyMesh.Mesh.KeyDelete: likewise.
- KeyMesh.Mesh.Pass: a turn that fails to get the key lock and goes round again only lengthens what other threads do before the next look at the chain; that such retries end is not claimed.
- In `KeyMesh`, keys are created before the walk starts; a destructor sets values and deletes keys but creates none.
- In `ThreadReuse`, the two values EMPTY and NULL of a link are one; fields of the struct other than handle, link, sequence number and state.
- Escape.EscapeShell: not the line-end branch for WIN32 and OS2.
- Escape.EscapeEntity: not the toasc branch for characters beyond ASCII.
- EscapePool.PEscapeEntity: likewise.
- Unescape.UnescapeUrl: for whole strings, not for an explicit length.
- Unescape.UnescapeEntity: for whole strings, not for an explicit length; and the value of a numeric reference is unbounded where the code has an int.
- Locales other than C, EBCDIC, NEED_SEM and WinCE variants.
- Thread creation and start, signals, scheduling, attributes, and the other programs of the repository.
