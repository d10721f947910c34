# A verified model of the list-swapping and bounded-queue labs

The repository has two concurrent systems and the hand-written locks under them.

**Adjacent swaps on a shared list** (lab2/3). A singly linked list with a lock in every node
is read by `process_thread` and rewired by several `swap_thread`s. A swapper try-locks three
consecutive nodes A, B, C, performs three pointer stores that turn A→B→C→X into A→C→B→X, bumps
its counter, reloads its pointers and unlocks. Every thread steps over nodes it fails to lock by
reading `next` with no lock. `SwapProtocol` is this program as a transition system: one step of
one thread is one load, store, try-lock, unlock or counter update, the program points are named
after the lines of lab2/3/mutex/main.c, and a schedule is any sequence of thread choices, so a
statement about all schedules is a statement about all interleavings of any number of threads.
The flag `rw` gives `process_thread` shared locks (lab2/3/rwlock); without it all locks are
exclusive (lab2/3/mutex, lab2/3/spinlock). The other `Swap` modules prove what holds in every run:

- `SwapInvariant`, `SwapSteps`, `SwapRuns`: the heap refines a sequence on which each swap is one
  atomic exchange at line 118; lock discipline; null pointers; stable pairs under shared locks.
- `SwapShape`, `SwapWalk`: the list between the three stores, and how long a walk can be while
  others swap.
- `SwapParity`: what the swap counters say about the order.
- `SwapSole`, `SwapRace`: exactly when the unlocked loads of `swap_thread` go wrong, and that
  those of `process_thread` never do. `SwapSchedules` builds the runs in which one swapper moves.
- `SwapUnbounded`: exactly when one pass over the list can go on for ever.
- `SwapTry`, `SwapCounters`: when a try-lock succeeds, told by who holds the node, and what the
  counters of both kinds of thread count.
- `SwapEnds`, `SwapSolo`: every pass is a walk from `first` to the end of the list, and ends if its
  thread runs alone; what it has done by then.
- `Storage`: building the list, and one uncontended pass, as methods over heap nodes.

**A bounded FIFO under four synchronisation schemes** (lab2/2, and without synchronisation in
lab2/1). `AtomicFifo` is the object they all implement, with the client loops of the readers and
writers. `QueueBody` is the critical section statement by statement, over a heap with malloc and
free. Around it stand

- `LockProtocol`, `LockedQueue` and `LockedProgress`: the CAS spinlock and the futex mutex, expanded into atomic
  instructions, FUTEX_WAIT and FUTEX_WAKE (lab2/2/a-spinlock, lab2/2/e-mutex, and lab2/4/4.c with
  the opposite lock values);
- `SemaphoreQueue` and `SemaphoreProgress`: a mutex and two counting semaphores
  (lab2/2/g-semaphore);
- `TurnQueue`, `TurnProgress` and `TurnStuck`: a mutex, one condition variable and a turn flag
  (lab2/2/f-cond_var).

The `Progress` modules prove what can happen from every reachable state: who can move, and that
clients get their calls through. `QueueClients` and `Wakeups` hold what these share, `LinkedQueue` is the sequential queue of lab2/1 as a class
over linked nodes, proved against the same atomic operations.

The model assumes sequentially consistent memory, integers that do not overflow, an allocator that
never fails, and no signals. Waits on the futex and on the condition variable may return
spuriously.

What the code does that its own text does not say:

- With at least three nodes and two swappers, `swap_thread` can dereference a null pointer at
  line 102 and can stop at line 91 reporting "Too few elements" (`SwapRace.NullPointerIff`,
  `SwapRace.FalseStopIff`): both read `next` twice without a lock. The program starts three
  swappers on 1000 nodes.
- Under the same condition a single pass over the list, of either kind of thread, can make any
  number of advances (`SwapUnbounded.PassUnboundedIff`); otherwise n are enough.
- lab2/2/f-cond_var/queue.c:14 says reads and writes always take turns. Attempts do, but unless
  there is exactly one reader and one writer all threads can fall asleep (`TurnStuck.StuckIff`).
- The comment at lab2/2/e-mutex/queue.c:19-20 says FUTEX_WAIT blocks until the word is 0. The call
  passes 0 as the expected value, so it sleeps while the word is 0, which means held; the model
  follows the code.

## Model

| member | source | states |
|---|---|---|
| SwapRuns.RunRefines | lab2/3/mutex/main.c:82-152 | In every run of any threads, the list with the stores of swaps in flight undone is the order obtained by one atomic exchange per execution of line 118; locks record exactly who holds what |
| SwapSteps.StepKeepsInv | lab2/3/mutex/main.c:26-152 | Forward simulation: each load, store, try-lock, unlock or counter update keeps the invariant and moves the abstract order only at line 118 |
| SwapSteps.EarlyStoreKeepsOrder | lab2/3/mutex/main.c:116-117 | The first two stores leave the abstract order unchanged |
| SwapSteps.CommitSwapsOrder | lab2/3/mutex/main.c:118 | The third store exchanges the two elements after `curr1` and moves nothing else |
| SwapRuns.OrderMoves | lab2/3/mutex/main.c:114-118 | At line 118 the order has a, b, c in a row and becomes the same order with c, b in place of b, c |
| SwapSteps.ReleaseResume | lab2/3/mutex/main.c:120-140 | Every unlock names a node its thread has locked and gives up exactly that one, so the reloaded pointers name the locked nodes |
| SwapSteps.StoreToOwn | lab2/3/mutex/main.c:116-118 | A `next` field is written only by the thread that holds its node exclusively |
| SwapRuns.LockDiscipline | lab2/3/mutex/main.c:108-140 | A thread holds at most three consecutive nodes, the locks agree, and nothing stays locked between passes |
| SwapRuns.FaultExactlyAt102 | lab2/3/mutex/main.c:88-150 | The only null pointer ever dereferenced is the pass pointer at line 102; readers and locking passes never fault |
| SwapSole.AloneIsSafe | lab2/3/mutex/main.c:90-107 | With no other swapper, or fewer than three nodes, a swapper never faults and stops only on fewer than three nodes |
| SwapRace.NullPointerIff | lab2/3/mutex/main.c:100-107 | Some schedule makes a swapper dereference null exactly if there are three nodes and another swapper |
| SwapRace.FalseStopIff | lab2/3/mutex/main.c:90-95 | On three or more nodes some schedule makes a swapper give up exactly if there is another swapper |
| SwapRace.ReaderStopIff | lab2/3/mutex/main.c:31-44 | A reader can give up with "Too few elements" exactly on a list of fewer than two nodes, whatever the swappers do |
| SwapRuns.NodeExclusion | lab2/3/rwlock/main.c:48-127 | In every run two threads have the same node locked only if both are readers with shared locks |
| SwapTry.TryExact | lab2/3/rwlock/main.c:48-114 | In every run a try-lock succeeds exactly unless another thread holds the node: a swapper for a shared lock, anybody for an exclusive one |
| SwapTry.SharedPairIff | lab2/3/rwlock/main.c:48-59 | Two readers can hold the same pair of nodes at once exactly with read-write locks and at least two nodes |
| SwapRuns.StablePair | lab2/3/rwlock/main.c:48-59 | While a reader holds both locks, shared or exclusive, the two nodes stay adjacent and no swapper holds either |
| SwapShape.RankDrops | lab2/3/mutex/main.c:116-118 | Every link leads to a lower rank, even between the three stores of any number of swaps |
| SwapShape.ListShape | lab2/3/mutex/main.c:116-118 | In every state links from any node end within n hops, `first` stays, and the nodes unreachable from it are exactly the `curr3` of swaps between lines 116 and 118 |
| SwapWalk.StepRank | lab2/3/mutex/main.c:116-118 | Only line 117 raises a rank, that of its `curr3`, by at most one |
| SwapWalk.WalkBound | lab2/3/mutex/main.c:46-76 | A pass advances at most n times plus once per execution of line 117 by another thread on the node it stands on |
| SwapUnbounded.PassUnboundedIff | lab2/3/mutex/main.c:46-150 | For a thread of either kind n advances are enough for every pass exactly unless there are three nodes and another swapper; then no number is |
| SwapEnds.PassIsWalk | lab2/3/mutex/main.c:39-150 | A pass of either kind of thread starts at `first`, follows one link at a time, and ends only where the list ends |
| SwapEnds.PassNeedsNodes | lab2/3/mutex/main.c:31-95 | In every run a reader is on a pass only with two nodes, a swapper only with three: on a shorter list every thread gives up |
| SwapEnds.SoloPassEnds | lab2/3/mutex/main.c:46-150 | From every reachable state a thread that runs alone, with the others frozen anywhere and holding anything, is between passes with nothing locked, or has stopped, within 23(n + 1) + 5 steps, whatever its coins show |
| SwapSolo.SoloReadPass | lab2/3/mutex/main.c:46-76 | A reading pass while the others stand still outside their stores inspects, in order, exactly the neighbouring pairs that no other thread keeps it out of |
| SwapSolo.SoloSwapPass | lab2/3/mutex/main.c:90-151 | An uncontended swapping pass rotates the order behind the head, as the method on heap nodes does, and leaves nothing locked |
| SwapCounters.ReaderCounter | lab2/3/mutex/main.c:77 | In every run a reader's counter is the number of passes it has come to the end of, but for the one it is about to count |
| SwapCounters.SwapperCounter | lab2/3/mutex/main.c:118-119 | In every run a swapper's counter is the number of times its own steps have changed the order, but for the one it is about to count |
| SwapParity.ExchangeInversions | lab2/3/mutex/main.c:116-118 | Exchanging two different neighbours changes the number of inversions by exactly one |
| SwapParity.StepSwaps | lab2/3/mutex/main.c:118-119 | The count of swaps performed grows by one at line 118 and at no other step |
| SwapParity.SwapAccounting | lab2/3/mutex/main.c:116-119 | In every run the order is a permutation of the original whose inversions have the parity of the swaps performed and never exceed them |
| SwapParity.SettledList | lab2/3/mutex/main.c:116-119 | With no swap under way the real links are the order, head in place, and the sum of the swap counters gives its parity and bounds its inversions |
| Storage.List.AddNode | lab2/3/mutex/queue.c:18-43 | Appends one fresh, unlocked node with the given string after an existing list; the tail walk ends |
| Storage.List.Fill | lab2/3/mutex/queue.c:45-53 | Appends exactly the decimal strings of 0..capacity-1 in order, for every capacity whose strings fit the buffer |
| Storage.DecimalLength | lab2/3/mutex/queue.c:49-50 | A number's string has at most k digits exactly if the number is below 10^k |
| Storage.DecimalInjective | lab2/3/mutex/queue.c:50 | Different numbers have different strings |
| Storage.List.SwapPass | lab2/3/mutex/main.c:90-150 | Alone, stops exactly on fewer than three nodes; a swapping pass rotates everything behind the head by one, counts n - 2 and leaves every lock free; the other pass changes nothing |
| Storage.List.SwapTriple | lab2/3/mutex/main.c:114-125 | The three stores, the reloads and the unlocks exchange the two nodes after `curr1`, free all three locks and move on to the second |
| Storage.List.Advance | lab2/3/mutex/main.c:108-141 | One round of the pass swaps exactly if two more nodes follow, and steps to the next node |
| Storage.WholePass | lab2/3/mutex/main.c:98-150 | the n - 2 exchanges of a pass together carry the second element to the end |
| Storage.List.SwapPasses | lab2/3/mutex/main.c:88-151 | m uncontended swapping passes rotate the nodes m times, count m(n - 2) swaps, and put every node back exactly if m is a multiple of n - 1 |
| Storage.PassesRestoreIff | lab2/3/mutex/main.c:98-150 | m rotations behind the head restore an order of different elements exactly if m is a multiple of n - 1 |
| Storage.List.ReadPass | lab2/3/mutex/main.c:39-77 | Alone, stops exactly on fewer than two nodes; otherwise inspects the n - 1 neighbouring pairs, in order and each with both nodes locked, leaves every lock free, changes nothing and counts one pass |
| LockProtocol.LockSafe | lab2/4/4.c:20-50 | For every lock and polarity: at most one holder, the word reads held exactly when there is one, and a free lock with a sleeper has somebody awake who will act |
| LockProtocol.ReleaseNeverSkipped | lab2/2/e-mutex/queue.c:48-62 | The compare-and-exchange of unlock never fails for a holder, so the wake-up behind it is never skipped |
| LockProtocol.FreeLockIsTaken | lab2/2/e-mutex/queue.c:26-62 | With the lock free and a thread asleep, at most two steps of threads already inside the lock code get it taken |
| LockProtocol.MovesExactly | lab2/2/e-mutex/queue.c:26-62 | In every run a thread enters exactly from its exchange while nobody holds the lock, falls asleep exactly from FUTEX_WAIT while somebody does, and a holder that moves has left |
| LockProtocol.WakesExactlyOne | lab2/2/e-mutex/queue.c:52-61 | FUTEX_WAKE wakes exactly one sleeper if there is any and touches nobody else; FUTEX_WAIT may return for no reason |
| LockProtocol.EveryoneCanEnter | lab2/4/4.c:20-50 | From every reachable state every thread can get the lock, with no spurious wake-up |
| LockProtocol.NeverStuck | lab2/4/4.c:20-50 | With at least one thread, in every state some thread has a step that changes it and is no spurious wake-up |
| LockProtocol.RunsAlike | lab2/4/4.c:41-50 | Locks with the same waiting policy behave alike in every run: neither the polarity nor how unlocking writes the word matters |
| LockProtocol.FourLocks | lab2/2/e-mutex/queue.c:26-62 | The four locks are safe in every run; the futex mutexes of e-mutex and 4.c, of opposite polarity, take every schedule the same way |
| AtomicFifo.FifoConservation | lab2/2/a-spinlock/queue.c:102-159 | Values got followed by the contents are the values added; the capacity is never exceeded |
| AtomicFifo.ReaderChecks | lab2/2/g-semaphore/queue-threads.c:33-50 | With any clients a reader reports an error exactly if the values returned to it are not 0, 1, 2, ..., and expects the one after the last |
| AtomicFifo.WriterSends | lab2/2/g-semaphore/queue-threads.c:53-70 | With any clients the next value of a writer is the number of its calls that have succeeded |
| AtomicFifo.OrderCheckNeverFires | lab2/2/g-semaphore/queue-threads.c:33-70 | With one writer and one reader the values got are 0, 1, 2, ... and the error branch is never taken |
| QueueBody.BodyStep | lab2/2/a-spinlock/queue.c:104-155 | Each statement of a critical section keeps the heap relation, touches only allocated nodes, fails no assertion, and changes contents and outcome exactly as the atomic operation, once |
| LockedQueue.StepSim | lab2/2/e-mutex/queue.c:137-199 | Each instruction of lock, body and client loop is one atomic step of the FIFO by the same thread, or none |
| LockedQueue.RunRefinesFifo | lab2/2/e-mutex/queue.c:26-199 | Every run under a hand-written lock is a run of the atomic bounded FIFO with the same calls and results |
| LockedQueue.LockedQueueSafe | lab2/2/a-spinlock/queue.c:19-159 | No assertion fails, no freed node is touched, nothing leaks, and with the lock free the heap holds exactly the values added and not got |
| LockedQueue.LockedQueueInOrder | lab2/2/a-spinlock/queue-threads.c:31-69 | One reader never sees a value out of order from one writer |
| LockedQueue.StatisticsExact | lab2/2/a-spinlock/queue.c:105-155 | With the lock free the four statistics are the numbers of attempts and of successes of either operation |
| LockedProgress.CanStepIff | lab2/2/e-mutex/queue.c:26-62 | In every run a thread can move exactly unless it sleeps in FUTEX_WAIT or spins while somebody holds the lock |
| LockedProgress.SpuriousWakes | lab2/2/e-mutex/queue.c:39-45 | FUTEX_WAIT may return for no reason, which sends exactly a sleeper back to its exchange |
| LockedProgress.ClientServed | lab2/2/e-mutex/queue.c:26-199 | From every reachable state some continuation without spurious wake-ups lets any given client's call take effect or return, so no client keeps the lock for good |
| LockedProgress.ClientServedOften | lab2/2/a-spinlock/queue.c:102-159 | And lets it do so any number of times |
| LockedQueue.NeverStuck | lab2/2/e-mutex/queue.c:26-199 | With at least one client of either kind, in every state some thread has a step that changes it and is no spurious wake-up |
| SemaphoreQueue.RunRefinesFifo | lab2/2/g-semaphore/queue.c:89-155 | Every run of the semaphore queue is a run of the atomic bounded FIFO |
| SemaphoreQueue.TokenConservation | lab2/2/g-semaphore/queue.c:91-153 | Space tokens, used and unused, and queued values add up to the capacity; item tokens to `count` |
| SemaphoreQueue.RoomInside | lab2/2/g-semaphore/queue.c:98-103 | Inside the critical section an adder finds room and a getter an item |
| SemaphoreQueue.EveryCallSucceeds | lab2/2/g-semaphore/queue.c:96-154 | The full and empty branches are never taken and no call fails |
| SemaphoreQueue.StatisticsExact | lab2/2/g-semaphore/queue.c:94-149 | With the mutex free the four statistics are the numbers of attempts and of successes of either operation |
| SemaphoreProgress.CanStepIff | lab2/2/g-semaphore/queue.c:91-132 | In every run a thread at sem_wait can move exactly if its semaphore is positive, one at the mutex exactly if it is free, any other always |
| SemaphoreProgress.CanFill | lab2/2/g-semaphore/queue.c:89-127 | With an adder every reachable state has a continuation in which the queue holds max_count values |
| SemaphoreProgress.CanDrain | lab2/2/g-semaphore/queue.c:129-155 | With a getter every reachable state has a continuation in which it holds none |
| SemaphoreProgress.ClientServed | lab2/2/g-semaphore/queue.c:89-155 | With room for a value, an adder and a getter, from every reachable state any given client's call can take effect or return |
| SemaphoreQueue.NeverStuck | lab2/2/g-semaphore/queue.c:31-153 | With capacity at least one, an adder and a getter, some thread can always make a step |
| SemaphoreQueue.SemaphoreQueueInOrder | lab2/2/g-semaphore/queue-threads.c:33-70 | One reader never sees a value out of order from one writer |
| TurnQueue.RunRefinesFifo | lab2/2/f-cond_var/queue.c:79-153 | Every run of the turn queue is a run of the atomic bounded FIFO |
| TurnQueue.StrictAlternation | lab2/2/f-cond_var/queue.c:81-148 | For any readers and writers attempts take effect alternately, an add first, and `operation` says whose turn is next |
| TurnQueue.CountFollowsTurn | lab2/2/f-cond_var/queue.c:86-148 | With the mutex free `count` is 1 exactly if the capacity is positive and a read is due; a call succeeds exactly if the capacity is positive |
| TurnQueue.StatisticsExact | lab2/2/f-cond_var/queue.c:83-147 | With the mutex free the four statistics are the numbers of attempts and of successes of either operation |
| TurnProgress.CanStepIff | lab2/2/f-cond_var/queue.c:80-152 | In every run, spurious wake-ups aside, a thread that wants the mutex can move exactly if it is free, a sleeper not at all, any other thread always |
| TurnProgress.SignalWakesOne | lab2/2/f-cond_var/queue.c:81-118 | A signal wakes exactly one sleeper if there is any and touches nobody else; a wait may end for no reason |
| TurnProgress.ClientServed | lab2/2/f-cond_var/queue.c:79-153 | With one reader and one writer, from every reachable state the call of either can take effect or return without spurious wake-ups |
| TurnQueue.NeverStuck | lab2/2/f-cond_var/queue.c:80-150 | With one reader and one writer the two never sleep at once and one of them can always make a step |
| TurnQueue.TurnQueueInOrder | lab2/2/f-cond_var/queue-threads.c:32-69 | One reader never sees a value out of order from one writer |
| TurnStuck.StuckIff | lab2/2/f-cond_var/queue.c:81-150 | All threads can fall asleep for good exactly unless they are one reader and one writer |
| LinkedQueue.Queue.constructor | lab2/1/queue.c:20-44 | An empty queue with the given capacity, negative or not, and zero statistics |
| LinkedQueue.Queue.Add | lab2/1/queue.c:68-96 | Unless the assertion of line 71 fails: does what the atomic add does to the contents, returns 0 exactly when full, counts the attempt |
| LinkedQueue.Queue.Get | lab2/1/queue.c:98-116 | Does what the atomic get does, returns 0 and leaves the output alone exactly when empty, frees the node it removes |
| LinkedQueue.Queue.Destroy | lab2/1/queue.c:46-65 | Frees every remaining node once and reads none of them afterwards |

## Left out

- `compare_nodes` results: the call passes the counter's address where an operation code is expected (lab2/3/mutex/main.c:54) and the result is discarded; the model only records which nodes are locked and read.
- What happens after a null dereference: in the model the thread stops and the others go on, which allows more runs than the real program, which ends.
- Fairness and starvation: nothing in these locks or try-lock loops provides either, so walks are bounded by the interference of others, and progress is stated as what some continuation can do.
- Weaker memory orders and overflow of counters: memory is sequentially consistent and counters are unbounded.
- POSIX mutexes, read-write locks, semaphores and condition variables are atomic operations with the meaning POSIX.1-2017 gives them; limits such as the number of read locks are not modelled, and a failed try-lock means the lock could not be granted at once.
- The condition of lines 146-149 of lab2/3/mutex/main.c, stepping over a locked node, does not arise in the uncontended methods of `Storage`; it is part of `SwapProtocol`.
- Unsynchronised use of lab2/1/queue.c by two threads: it has no locking, so the class is for one thread.
- Statistics threads and printing (`qmonitor`, `count_monitor`, `queue_print_stats`, `print_storage`): unlocked reads and output.
- Thread creation and join, CPU affinity, cancellation, out-of-memory aborts, futex errors caused by signals, and threads still running during `queue_destroy`.
- lab2/3/rwlock/queue.c and lab2/3/spinlock/queue.c: the same construction as lab2/3/mutex/queue.c.
- lab1 and proxy: exercises in system calls, sockets and name lookup.
