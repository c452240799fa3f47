# Verified models of the Linux exercises

Dafny models, with proofs, of the concurrent protocols and the number and file algorithms in this
repository. `dafny verify dfyconfig.toml` checks everything. Compile-time constants of the programs
(the number of philosophers, the pool capacity, the thread and iteration counts, the sieve size) are
parameters, and every result holds for all their values, all inputs and all interleavings.

| file | models |
|---|---|
| `Philosophers.dfy` | the asymmetric dining philosophers over n binary semaphores |
| `Scheduler.dfy` | the thread pool: mutex, condition variable with spurious wake-ups, lock-free stop flag |
| `SmokersBar.dfy` | the bartender, the three smokers, and the shutdown by SIGTERM, EINTR and last posts |
| `Bank.dfy` | the bank calls on the shared account array and what every sequence of calls keeps |
| `BankConcurrency.dfy` | bank clients interleaved at single account reads and writes under the mutex |
| `Primes.dfy` | trial division, the m-th prime, the sieve, and their agreement |
| `SparseCopy.dfy` | the copy that seeks over all-zero blocks |
| `Counters.dfy` | threads incrementing one integer under a test-and-set flag, a mutex or a semaphore |
| `Options.dfy` | optional values |
| `Sums.dfy` | sums of a measure over the threads or accounts of a system |

## How the models are built

The concurrent programs are step machines: `Enabled` says when a thread can take its next atomic step
and `Next` or `Step` what the step does, one step for each semaphore, mutex, flag, queue or account
access. A run is a sequence of steps (`Valid`, `Exec`). Beside each machine stands the object the
program updates in place (`Table`, `Pool`, `Bar`, `Integer`); its methods follow the program text, and
each is proved to do exactly the machine's step. The sequential programs are methods with the
program's loops (`Bank.Memory`, `Primes`, `SparseCopy`).

Signals and semaphores follow POSIX.1-2017: `sigprocmask` delivers a pending signal it unblocks before
it returns, and a handler that runs during a blocked `sem_wait` makes it return EINTR.

Some properties a reader might expect do not hold of the programs in every case. For each there is a
concrete failing case and a proof of exactly when the property holds:

- One philosopher alone deadlocks: `SinglePhilosopherDeadlocks`, `NoDeadlockExactlyFromTwo`.
- The scheduler's destructor sets its flag and notifies without the mutex, so a worker between its
  false predicate and its block misses the notification and the join does not return:
  `StopCanBeMissed`, `DestructorJoinsExactly`.
- A smoker that passes its flag test on its last post before its SIGTERM is delivered prints a letter
  nobody ordered: `ShutdownCanPrint`, `FinalOutputExactly`.
- `deposit_all` and `withdraw_all` do not check the sign of the amount, and `init_bank` does not check
  its maximum, so balances can leave their limits: `NegativeBulkBreaksLimits`, `KeepsLimitsExactly`,
  `RunsKeepLimitsExactly`.
- The bank's 32-bit sums can overflow when limits and amounts are large together: `OverflowingRun`,
  `NoOverflowExactly`.
- A smoker whose putchar fails while orders are served exits with the token, and the bartender waits
  for it forever: `FailedPrintJamsTheBar`, `EveryRunShutsDown`.
- The sparse copy loses a hole at the end of the file, ignores a failed seek and goes on after a short
  write: `CopyZeros`, `Copy`, `CopyRegular`.

Where code and messages disagree the code is followed: `FS-10/copy.cpp` reports a successful copy also
after a failed read; the model's outcome keeps the two apart.

## Model

| member | source | states |
|---|---|---|
| Philosophers.Table.constructor | DiningPhilosophers/dining_philosophers.c:41-60 | all sticks are free and everybody is thinking |
| Philosophers.Table.SemWait | DiningPhilosophers/dining_philosophers.c:16-20 | passes exactly when the semaphore is positive and then takes one |
| Philosophers.Table.SemPost | DiningPhilosophers/dining_philosophers.c:26-27 | adds one to the semaphore and touches no other |
| Philosophers.StepTakesAndPosts | DiningPhilosophers/dining_philosophers.c:15-27 | philosopher 0 takes its right stick first, everybody else their own; each step takes or posts that one stick and moves nobody else |
| Philosophers.Table.Advance | DiningPhilosophers/dining_philosophers.c:10-30 | one step of a process on the shared semaphores is exactly the machine's step, and it stays where it is exactly when it waits for a semaphore that is 0: first its own stick (the next one for process 0), then the other; a post always goes through |
| Philosophers.StickConservation | DiningPhilosophers/dining_philosophers.c:15-27 | in every reachable state a semaphore's value plus the number of holders of the stick is 1, and only its two neighbours hold it |
| Philosophers.NeighboursExclude | DiningPhilosophers/dining_philosophers.c:15-27 | philosophers next to each other never eat together |
| Philosophers.AtMostHalfEat | DiningPhilosophers/dining_philosophers.c:15-27 | at most half of the philosophers eat at once |
| Philosophers.ChaseHolder | DiningPhilosophers/dining_philosophers.c:15-21 | from any busy philosopher the chain of holders, ascending in the order 1 < 2 < ... < n-1 < 0, ends in a busy one that can move |
| Philosophers.NoDeadlock | DiningPhilosophers/dining_philosophers.c:15-21 | for every n >= 2 and every reachable state someone can move, and if anyone is busy then someone busy can move |
| Philosophers.SinglePhilosopherDeadlocks | DiningPhilosophers/dining_philosophers.c:15-17 | with one philosopher the state after its first wait is stuck |
| Philosophers.NoDeadlockExactlyFromTwo | DiningPhilosophers/dining_philosophers.c:15-21 | no reachable state is stuck exactly when n >= 2 |
| Philosophers.MealsCostFourSteps | DiningPhilosophers/dining_philosophers.c:11-29 | the length of any run is four times its completed meals plus the change in unfinished progress |
| Philosophers.LongRunsServeMeals | DiningPhilosophers/dining_philosophers.c:11-29 | any run of 3n + 4m steps completes at least m meals |
| Philosophers.InfiniteRunsServeForever | DiningPhilosophers/dining_philosophers.c:11-29 | every infinite run completes more than any number of meals, without fairness |
| Philosophers.ClearTable | DiningPhilosophers/dining_philosophers.c:11-29 | from every state that conserves the sticks the philosophers already at the table can finish and free all of it |
| Philosophers.EverybodyCanEat | DiningPhilosophers/dining_philosophers.c:11-29 | from every reachable state every philosopher has a continuation in which it eats |
| Scheduler.Pool.constructor | TH-2/parallel_scheduler.cpp:3-8 | an empty queue, a clear flag, a free mutex and capacity workers at their loop test |
| Scheduler.Pool.WorkerThread | TH-2/parallel_scheduler.cpp:28-43 | each atomic step of a worker on the pool's members is exactly the machine's step, and a worker that is not blocked can take it unless it waits for a taken mutex |
| Scheduler.Pool.WakeSpuriously | TH-2/parallel_scheduler.cpp:33 | any blocked worker may wake up at any time |
| Scheduler.Pool.EnterRun | TH-2/parallel_scheduler.cpp:20 | a thread may call run with any task whenever it is not inside it |
| Scheduler.Pool.Run | TH-2/parallel_scheduler.cpp:20-24 | locking, pushing the task of the call and unlocking are exactly the machine's caller steps, held up only by a taken mutex |
| Scheduler.Pool.NotifyOne | TH-2/parallel_scheduler.cpp:25 | wakes one blocked worker if there is one and otherwise nobody |
| Scheduler.Pool.SetStop | TH-2/parallel_scheduler.cpp:11 | sets the flag whoever holds the mutex |
| Scheduler.Pool.NotifyAll | TH-2/parallel_scheduler.cpp:12 | wakes every worker that is blocked at that moment and no other |
| Scheduler.MonitorIsSafe | TH-2/parallel_scheduler.cpp:20-41 | in every reachable state at most one thread is inside the mutex, submissions are the dequeued tasks followed by the queue, a worker about to pop sees a task, a worker about to return after its wait sees the flag and an empty queue, and no worker keeps the mutex while it sleeps or runs a task |
| Scheduler.EveryTaskOnce | TH-2/parallel_scheduler.cpp:20-41 | every call of run has its task with the caller that has yet to push it, queued, in one worker's hands or finished, counted with multiplicity |
| Scheduler.WorkerKeepsNoLostWakeup | TH-2/parallel_scheduler.cpp:29-41 | every step of a worker keeps the wake-up bound, including the atomic release-and-block |
| Scheduler.WakeupsAreNeverLost | TH-2/parallel_scheduler.cpp:20-41 | before the stop, while a worker is blocked, the queue is no longer than the pending notifications plus the awake workers not running a task, through spurious wake-ups |
| Scheduler.EveryTaskFinishes | TH-2/parallel_scheduler.cpp:20-41 | before the stop, from every reachable state, the threads under way make at most 8 capacity + 16 callers + 7 queued moves under every schedule, and when none is left the queue is empty and every submitted task is finished, without a spurious wake-up or a new call |
| Scheduler.RestMeansDrained | TH-2/parallel_scheduler.cpp:29-41 | before the stop the pool is at rest only with an empty queue |
| Scheduler.OnePopEach | TH-2/parallel_scheduler.cpp:28-42 | after the stop a worker dequeues at most one task more, and none if it had already dequeued |
| Scheduler.StopLetsEachWorkerTakeOne | TH-2/parallel_scheduler.cpp:10-42 | after the stop at most capacity tasks start, and the tasks never started are a suffix of the submissions |
| Scheduler.WorkersSettle | TH-2/parallel_scheduler.cpp:28-43 | after the stop the workers take at most ten steps each, spurious wake-ups included |
| Scheduler.WorkerJoinsExactly | TH-2/parallel_scheduler.cpp:10-18 | once no worker can go on, a worker has exited exactly when it was not between a false predicate and blocking at the notification, or was spuriously woken |
| Scheduler.DestructorJoinsExactly | TH-2/parallel_scheduler.cpp:10-18 | the joins return under every schedule and every spurious wake-up exactly when no worker is between a false predicate and blocking at the notification |
| Scheduler.StopCanBeMissed | TH-2/parallel_scheduler.cpp:10-18 | a reachable run in which the join does not return |
| SmokersBar.Bar.constructor | SmokersBar/smokers.c:71-98 | all four semaphores are 0, no signal is pending and main is about to read |
| SmokersBar.Bar.RunSmoker | SmokersBar/smokers.c:23-69 | each atomic step of a smoker is exactly the machine's step, held up only by a wait on a semaphore that is 0; smokers 0, 1 and 2 print T, P and M |
| SmokersBar.Bar.FailPutchar | SmokersBar/smokers.c:52-55 | a smoker whose putchar fails exits without posting the bartender |
| SmokersBar.Bar.HandleSigterm | SmokersBar/smokers.c:19-42 | delivery is possible at any point outside the blocked section; it ends a process without a handler, and otherwise sets the flag and interrupts a blocked sem_wait |
| SmokersBar.Bar.RunMain | SmokersBar/smokers.c:99-145 | each step of the bartender loop and of the shutdown is exactly the machine's step, held up only by the waits for the token and the children; t, p and m are served by smokers 0, 1 and 2 |
| SmokersBar.OneSmokerAtATime | SmokersBar/smokers.c:32-60 | before end of input at most one smoker is smoking, and none while the bartender reads |
| SmokersBar.ImageOfOrders | SmokersBar/smokers.c:81-119 | t, p and m order exactly T, P and M, and any other character orders nothing |
| SmokersBar.OutputFollowsOrders | SmokersBar/smokers.c:32-127 | before end of input the output is the image of the input consumed without at most its last letter, and at end of input it is the image of the whole input |
| SmokersBar.EveryRunShutsDown | SmokersBar/smokers.c:32-145 | under every interleaving of processes, kills, posts, deliveries and failing prints a run has at most 52 + 11n steps; when it stops, every smoker has exited and main has finished exactly if no print failed while orders were served, and then the output starts with the image of the input |
| SmokersBar.FailedPrintJamsTheBar | SmokersBar/smokers.c:52-55 | with one order and a failing print the run stops with the bartender waiting |
| SmokersBar.SemaphoresStaySmall | SmokersBar/smokers.c:100-133 | no semaphore exceeds 3 in any run, so the sem_post error branches are never taken |
| SmokersBar.ServingNeverStops | SmokersBar/smokers.c:100-127 | while orders are served and no print has failed someone can move |
| SmokersBar.ShutdownNeverStops | SmokersBar/smokers.c:128-136 | until main is done someone can move: a smoker being waited for still has its last post or is on its way out |
| SmokersBar.SmokeKeepsShutdown | SmokersBar/smokers.c:33-66 | every smoker step keeps the shutdown invariant: a posted smoker has its post or will not return to sem_wait |
| SmokersBar.SignalWaitsForUnblocking | SmokersBar/smokers.c:46-65 | between the two sigprocmask calls no handler runs whatever anybody does, a pending signal stays pending, and unblocking delivers it |
| SmokersBar.SignalAloneStopsAWaiter | SmokersBar/smokers.c:19-42 | a smoker in sem_wait or without a handler can exit on its pending signal alone, without a post and without printing |
| SmokersBar.ShutdownAdds | SmokersBar/smokers.c:43-66 | the shutdown prints one letter for every flag test passed on a last post and not followed by a failing print, at most one for each smoker |
| SmokersBar.UnsilencedCanPrint | SmokersBar/smokers.c:32-136 | with all kills sent and no last post given, a smoker whose flag is clear and that has neither exited nor a pending signal between its post to the bartender and the unblocking has a continuation to the end that prints a letter |
| SmokersBar.FinalOutputExactly | SmokersBar/smokers.c:32-136 | with all kills sent and no last post given, every run to the end leaves exactly the image of the input as output if and only if each smoker has its flag set, has exited, or has its signal pending between its post to the bartender and the unblocking |
| SmokersBar.ShutdownCanPrint | SmokersBar/smokers.c:43-66 | a complete run on empty input whose output is not empty |
| Bank.Memory.constructor | TransparentBank/bank.cpp:26-42 | zero balances and minima, the given maximum, nothing frozen |
| Bank.TransferMoves | TransparentBank/bank.cpp:118-129 | a transfer is accepted exactly when the accounts exist, the amount is positive, neither is frozen and both stay within the limits checked; then exactly the amount moves (nothing, from an account to itself) and every other field and account stays |
| Bank.BulkCallsReachAll | TransparentBank/bank.cpp:131-167 | a bulk call is accepted exactly when no account is frozen or would pass its limit; then every balance changes by the amount and nothing else does, otherwise nothing changes |
| Bank.ReadersReport | TransparentBank/bank.cpp:66-100 | the three reading calls report balance, minimum and maximum of the account and change nothing |
| Bank.SettersStore | TransparentBank/bank.cpp:102-187 | freeze, unfreeze and the two limit calls change exactly their field of the account, the limit calls exactly when the new limit passes both checks |
| Bank.MissingAccountIsRefused | TransparentBank/bank.cpp:66-187 | a call that names a missing account replies oops and changes nothing |
| Bank.OppositeRestores | TransparentBank/bank.cpp:118-167 | in a bank within its limits every accepted transfer, deposit or withdrawal is undone exactly by the opposite call, which is accepted |
| Bank.Memory.GetBalance | TransparentBank/bank.cpp:66-76 | the balance, or oops for a missing account |
| Bank.Memory.GetMinBalance | TransparentBank/bank.cpp:78-88 | the minimum, or oops for a missing account |
| Bank.Memory.GetMaxBalance | TransparentBank/bank.cpp:90-100 | the maximum, or oops for a missing account |
| Bank.Memory.FreezeAccount | TransparentBank/bank.cpp:102-108 | freezes the account and changes nothing else |
| Bank.Memory.UnfreezeAccount | TransparentBank/bank.cpp:110-116 | unfreezes the account and changes nothing else |
| Bank.Memory.TransferAmount | TransparentBank/bank.cpp:118-129 | moves the amount exactly when the accounts exist, are not frozen and stay within the limits checked, also from an account to itself |
| Bank.Memory.DepositAll | TransparentBank/bank.cpp:131-148 | the two passes add the amount to every account, or to none when one of them refuses |
| Bank.Memory.WithdrawAll | TransparentBank/bank.cpp:150-167 | the two passes take the amount from every account, or from none when one of them refuses |
| Bank.Memory.SetMinBalance | TransparentBank/bank.cpp:169-177 | sets the minimum exactly when it is not above the maximum or the balance |
| Bank.Memory.SetMaxBalance | TransparentBank/bank.cpp:179-187 | sets the maximum exactly when it is not below the minimum or the balance |
| Bank.NegativeBulkBreaksLimits | TransparentBank/bank.cpp:131-167 | depositing or withdrawing -1 takes an account of zeros out of its limits |
| Bank.KeepsLimitsExactly | TransparentBank/bank.cpp:118-187 | a call keeps all balances of every bank within their limits exactly when it is not a bulk call with a negative amount |
| Bank.RunsKeepLimitsExactly | TransparentBank/bank.cpp:26-187 | over every sequence of such calls from init_bank the limits hold exactly when the maximum given is not negative |
| Bank.CallConservesMoney | TransparentBank/bank.cpp:118-187 | transfers, settings and refused calls conserve the total; accepted bulk calls change it by n times their amount |
| Bank.RunsConserveMoney | TransparentBank/bank.cpp:118-187 | over every run the total changes by n times accepted deposits minus accepted withdrawals |
| Bank.MoneyIsNetFlow | TransparentBank/bank.cpp:26-187 | after every run from init_bank the total is exactly the net flow of the accepted bulk calls |
| Bank.FrozenBalanceIsConstant | TransparentBank/bank.cpp:102-187 | a frozen account keeps its balance over every sequence of calls until it is unfrozen |
| BankConcurrency.SecondPass | TransparentBank/bank.cpp:143-145 | the per-account reads and writes of the second pass from index i update exactly the accounts from i on |
| BankConcurrency.FirstPass | TransparentBank/bank.cpp:134-145 | both passes of a bulk call, step by step, have its all-or-nothing effect |
| BankConcurrency.CallAlone | TransparentBank/bank.cpp:66-187 | the single steps of every call, run alone, give the effect and the reply of the atomic call |
| BankConcurrency.OneAccountPerStep | TransparentBank/bank.cpp:66-187 | no step inside the mutex writes two accounts |
| BankConcurrency.InterleavingsAreSerializable | TransparentBank/bank.cpp:66-187 | every interleaving of the clients' single steps gives the accounts and replies of the atomic calls run in lock order, and each client its own reply |
| BankConcurrency.ClientsKeepTheirCall | TransparentBank/bank.cpp:66-187 | the call a client waits for, runs or was answered is the one it made last |
| BankConcurrency.EveryCallOnce | TransparentBank/bank.cpp:66-187 | the lock order holds every call made exactly once, except those still waiting for the mutex |
| BankConcurrency.SerialOrderIsRealTime | TransparentBank/bank.cpp:66-187 | a call answered before another begins comes first in that order |
| BankConcurrency.OnlyTheMutexBlocks | TransparentBank/bank.cpp:66-187 | in every reachable state a client can make any call when outside, lock exactly when nobody is inside, always step or leave when inside, and return when answered |
| BankConcurrency.CallsMakeProgress | TransparentBank/bank.cpp:66-187 | every run takes at most 3n + 12 lock, account and unlock steps for each invocation, and while a call is under way one of them can take its next step |
| BankConcurrency.LimitsHoldAtEveryStep | TransparentBank/bank.cpp:118-187 | without negative bulk amounts every balance is within its limits at every single step, also while a call is half done |
| BankConcurrency.FrozenBalanceAtEveryStep | TransparentBank/bank.cpp:102-187 | from any state of any interleaving a frozen account stays frozen with the same balance at every single step, also in the middle of a call, until the step that writes its unfreezing |
| BankConcurrency.OverflowingRun | TransparentBank/bank.cpp:131-148 | when the bound on limits and the bound on amounts add up to more than 2^31, filling the accounts and depositing the largest amount leaves the 32-bit range |
| BankConcurrency.NoOverflowExactly | TransparentBank/bank.cpp:118-187 | for any number of accounts and clients from 1 on and any L, X >= 1: with limits in [-L, L) and amounts up to X, no sum or difference computed at any step of any interleaving leaves the 32-bit range exactly when L + X is at most 2^31 |
| BankConcurrency.ConcurrentClientsKeepTheBooks | TransparentBank/bank.cpp:26-187 | under concurrency, whenever the mutex is free, the limits hold and the total is the net flow of the replies |
| Primes.TestPrime | IPC-2/prime-calc.cpp:7-13 | true exactly for primes although divisors are tried only up to the square root |
| Primes.NoSmallDivisor | IPC-2/prime-calc.cpp:9-12 | a number without divisors up to its square root is prime |
| Primes.SquaresFitExactly | IPC-2/prime-calc.cpp:9 | the squares the loop computes fit a 32-bit int exactly when n is below 46340 squared or has a divisor up to 46340 |
| Primes.PrimeAbove | IPC-2/prime-calc.cpp:18 | above every number there is a prime, so the search ends |
| Primes.FindMthPrime | IPC-2/prime-calc.cpp:15-25 | terminates for every m; for m >= 1 gives the prime with exactly m primes up to it, otherwise 1; its squares fit a 32-bit int exactly when m is at most the number of primes up to 46340 squared |
| Primes.MthPrimeIsUnique | IPC-2/prime-calc.cpp:15-25 | only one number is the m-th prime |
| Primes.Strike | BONUS-TASKS/Bonus-7/set.c:30-32 | clears exactly the multiples of i from its square on |
| Primes.StruckExactly | BONUS-TASKS/Bonus-7/set.c:28-34 | below the next square exactly the composites have been cleared |
| Primes.Sieve | BONUS-TASKS/Bonus-7/set.c:24-34 | for every size, each cell from 2 on is 1 exactly when its index is prime, and cells 0 and 1 are untouched |
| Primes.SieveAgreesWithSearch | BONUS-TASKS/Bonus-7/set.c:24-34 | an index is the m-th marked cell exactly when it is the m-th prime |
| SparseCopy.Source.Read | FS-10/copy.cpp:43 | the next bytes of the file, fewer than asked only where the file allows it, none only at its end; a sound source never fails |
| SparseCopy.Destination.Write | FS-10/copy.cpp:59 | writes any number of bytes from the front of the block at the offset, all of them to a full-writing destination, with zeros in any gap before it, or fails and writes nothing |
| SparseCopy.Destination.SeekForward | FS-10/copy.cpp:57 | moves the offset where the destination can seek, and leaves the contents |
| SparseCopy.DetectHole | FS-10/copy.cpp:46-52 | a block is a hole exactly when all its bytes are zero |
| SparseCopy.CopyBlock | FS-10/copy.cpp:46-67 | a hole is counted and not written; any other block is handed to write as a whole, what was written is counted as data, and a failing write is reported; the tally of destination and counters is kept |
| SparseCopy.Copy | FS-10/copy.cpp:36-77 | for every chunking, short write, failing seek or failure the tally holds and the outcome names the failure; with full writes data and hole bytes add up to the total; after the whole source, the copy is the source exactly when they add up and the last block is not a hole (where seeking works) or there was no hole (where it does not); when they add up, non-zero bytes are data and the copy followed by zeros is the source |
| SparseCopy.CopyZeros | FS-10/copy.cpp:36-77 | every copy of a file of zeros, of any length and kind and to any destination, is empty; it reaches the end when no call fails, and then the counters report every byte as part of a hole |
| SparseCopy.CopyRegular | FS-10/copy.cpp:23-77 | between regular files the copy is complete whenever no call fails and no write is short; a complete copy followed by zeros is the file, and is the file exactly when the file's last 4096-aligned block is not all zero |
| Counters.LockContract | TH-SYNC/spinlock.cpp:13-15 | test-and-set, mutex and semaphore all admit a thread exactly when free, stay unchanged when not, and are free after release |
| Counters.Integer.Acquire | TH-SYNC/spinlock.cpp:13 | one attempt at each kind of lock is exactly the machine's attempt |
| Counters.Integer.Inc | TH-SYNC/mutex.cpp:14-18 | each step of lock, read, write and unlock is exactly the machine's step, possible until the thread has made all its calls |
| Counters.StepKeepsInv | TH-SYNC/mutex.cpp:14-18 | every step keeps exclusion, fresh copies and the value as initial plus increments written |
| Counters.NoUpdateIsLost | TH-SYNC/semaphore.cpp:15-34 | for every lock kind, number of threads and rounds and every interleaving, exclusion holds and the final value is the initial one plus threads times rounds |
| Counters.TwoInsideLoseOne | TH-SYNC/semaphore.cpp:13-19 | under a semaphore that starts at 2 or more two threads can read the same value and one of two increments is lost |
| Counters.SemaphoreCountsExactly | TH-SYNC/semaphore.cpp:13-34 | with two or more threads no run loses an increment exactly when the semaphore starts at 1 or, letting nobody in, at 0 |
| Counters.EverybodyFinishes | TH-SYNC/spinlock.cpp:12-27 | besides spinning a run has at most four steps for each increment, and until all are done someone can make one |

## Left out

- Scheduler.DestructorJoinsExactly: callers of run are taken to have returned when the destructor starts, as the lifetime of the object requires.
- Starvation freedom of a single philosopher or increment thread: the semaphores and locks are unfair; what holds without fairness is proved instead.
- SparseCopy.Copy: a failure ends the copy as in the program; the numeric error codes and the exit status are not modelled.
- SmokersBar.Bar.RunSmoker: a flush whose failure the program ignores, system calls that POSIX lets fail only on invalid arguments, and signals other than SIGTERM are not modelled.
- SmokersBar.Bar.RunMain: failures of sem_open and fork at startup are not modelled; the error branches of sem_post and sem_wait need an invalid or overflowing semaphore or a signal handler in main, and there is none.
- Bank.Memory.constructor: a negative number of accounts is not modelled; shared memory, mapping and the reply strings' formatting are system matters, and replies are values.
- Bank arithmetic is over unbounded integers; BankConcurrency.NoOverflowExactly says when the program's 32-bit arithmetic agrees with it, as Primes.FindMthPrime does for the search, and Counters assumes the initial value plus all increments fits an int.
- Memory is sequentially consistent: the weaker orderings of non-atomic or volatile accesses are not modelled.
- Exceptions thrown by a task, and tasks that never return, in the thread pool.
- TH-1 chunked sums, BONUS-1 to BONUS-6, FS-1 to FS-5 and FS-11, IPC-01, IPC-02, IPC-1, IPC-3, PS-1 and ENV-2: they would only add easy members.
- PS-2 and the socket clients and servers: process spawning, redirection and network plumbing.
- The pipe dialogue of IPC-2 around the two prime functions, printing, timing, fork and wait.
