# Round-robin scheduling and the dining philosophers, in Dafny

This project models the two exercises of an operating-systems course and proves properties about them.

**The round-robin CPU scheduler** is `ml224ec_pa1/RR.java`, module `RoundRobin` in `rr.dfy`.
- Processes arrive at given times and wait in a FIFO scheduling queue.
- Each process runs for at most one time quantum `tq` per dispatch.
- The simulator fills in each process's completion, turnaround and waiting times.
- It records a Gantt event list: idle ticks, and slices of CPU time given to a process.
- `RR.Run` sorts the processes by arrival time and runs the main loop.
- The main loop is `Simulate`. One iteration of it is `Step`, which is admission, poll, then an idle tick or a quantum followed by completion.

`Run` is proved to do the following:
- leave the process list sorted, as a stable permutation of the input;
- lay the event list end to end from time 0, every event matching the process it was recorded for;
- give every process exactly the burst it still had when `run()` started, which is its burst time for a process that has not run before, and then its waiting time is the time since arrival it spent not running;
- finish every process with `completedTime` equal to the end of its last slice, `turnaroundTime = completedTime - arrivalTime` and `waitingTime = turnaroundTime - burstTime`.

Termination for `tq >= 1` is proved as well.

**The dining philosophers** are `ml224ec_pa2/src/*.java`. There are five philosophers around a ring of five chopsticks, plus a deadlock detector and resolver.
- A chopstick (`ChopSticks`, `chopstick.dfy`) remembers the thread holding it. Threads are modelled by integer ids: every operation that the Java code performs "as `Thread.currentThread()`" takes the caller's id explicitly.
- A philosopher (`Philosophers`, `philosopher.dfy`) cycles THINK → HUNGRY → EAT. A THINK or EAT pass of its `run()` loop is one method call. A HUNGRY pass is one or more calls of `HungryTurn`: a refused pick-up ends the call, and the next call resumes at the same stick.
- The table (`Dining`, `dining_philosopher.dfy`) wires the ring and fixes the order in which the threads are launched.
- The resolver (`Resolver`, `deadlock_resolver.dfy`) detects a table where every philosopher holds its left stick and waits for its right one. It then either stops the simulation or tells every second philosopher to release its sticks. As written, that release frees nothing (see "## Findings"). The model also proves a corrected release that does break the deadlock.

`options.dfy` holds the `Option` type used for "no holder" (Java `null`).

The resolver's doc comment (ml224ec_pa2/src/DeadlockResolver.java:80-86) says the first resolution affects the 2nd and 4th philosophers. The code starts from `deadlockCount = 0` (line 21) at index `deadlockCount % 2` (line 98), so the first resolution affects indices 0, 2 and 4, the 1st, 3rd and 5th philosophers. The model follows the code (`Resolver.ResolutionsAtFive`).

## Model

| member | source | states |
|---|---|---|
| RoundRobin.InsertByArrival | ml224ec_pa1/RR.java:45 | inserting into a list sorted by arrival time keeps it sorted, adds exactly that process, and puts it after every process with the same arrival time |
| RoundRobin.SortByArrival | ml224ec_pa1/RR.java:45 | the result is ordered by arrival time, is a permutation of the input, and keeps processes with equal arrival times in their input order (a stable sort, as `List.sort` is) |
| RoundRobin.Arrived | ml224ec_pa1/RR.java:55-63 | the admitted processes all come from the pending list and have arrival time at most `ct` |
| RoundRobin.NotArrived | ml224ec_pa1/RR.java:55-63 | the processes left pending all come from the pending list and arrive after `ct` |
| RoundRobin.AdmitArrivals | ml224ec_pa1/RR.java:55-63 | the iterator pass takes out exactly the arrived processes, in list order, and leaves the others pending in their order |
| RoundRobin.AdmissionSplits | ml224ec_pa1/RR.java:55-63 | every pending process ends up on exactly one side, admitted or still pending, so it is admitted once and only once |
| RoundRobin.NothingArrived | ml224ec_pa1/RR.java:55-63 | when nothing has arrived, the pending list is unchanged |
| RoundRobin.AdmissionKeepsLoad | ml224ec_pa1/RR.java:55-63 | admission neither creates nor loses remaining work |
| RoundRobin.Quantum | ml224ec_pa1/RR.java:82-84 | a dispatch runs `min(remaining, tq)`; the remaining burst never goes below 0, and it reaches 0 exactly when it was at most `tq` |
| RoundRobin.IdleTickShrinksGap | ml224ec_pa1/RR.java:72-76 | an idle tick brings the clock strictly closer to the pending arrivals |
| RoundRobin.PidRunTimeIsRunTime | ml224ec_pa1/RR.java:89 | with unique process ids, the run lengths recorded under a pid add up to the CPU time given to that process |
| RoundRobin.TimelineAppend | ml224ec_pa1/RR.java:75 | an event that starts at the current time extends the tiling of the time line to its end |
| RoundRobin.AccountingAppend | ml224ec_pa1/RR.java:87-89 | recording a slice moves its length from the owner's remaining burst to its received CPU time, so received + remaining stays the initial burst |
| RoundRobin.InitialPartition | ml224ec_pa1/RR.java:45-48 | after sorting a list of distinct processes, each of them is pending exactly once |
| RoundRobin.RequeuePartition | ml224ec_pa1/RR.java:55-67 | admitting arrivals, then re-enqueuing the preempted process behind them, keeps every process in exactly one place |
| RoundRobin.PollPartition | ml224ec_pa1/RR.java:69 | the polled head is a process of the run that is found nowhere else, and it becomes the running process |
| RoundRobin.RetirePartition | ml224ec_pa1/RR.java:92-97 | a completed running process moves to the done processes, and no process is lost or duplicated |
| RoundRobin.NothingLeft | ml224ec_pa1/RR.java:52 | when nothing is pending, queued or running, every process is done |
| RoundRobin.RequeueLoad | ml224ec_pa1/RR.java:55-67 | admission and re-enqueuing keep the work still to be done |
| RoundRobin.PollKeepsMeasure | ml224ec_pa1/RR.java:69 | polling moves the head's work from the queue to the running process |
| RoundRobin.DispatchShrinksMeasure | ml224ec_pa1/RR.java:79-98 | with `tq >= 1`, running the head for one quantum strictly shrinks the work still to be done |
| RoundRobin.RR.constructor | ml224ec_pa1/RR.java:35-41 | a scheduler over the given processes and quantum, with an empty queue and event list |
| RoundRobin.RR.Admit | ml224ec_pa1/RR.java:55-67 | the new queue is the old queue, then the arrivals in list order, then the preempted process if it has burst left; the bookkeeping invariant is kept |
| RoundRobin.RR.RecordIdleTick | ml224ec_pa1/RR.java:72-76 | with an empty queue the clock advances by exactly 1 and `Idle(ct, ct + 1)` is appended |
| RoundRobin.RR.Poll | ml224ec_pa1/RR.java:69 | the head of the queue, or null for an empty queue; the rest of the queue stays |
| RoundRobin.RR.RunQuantum | ml224ec_pa1/RR.java:79-89 | the clock and the remaining burst move by `min(remaining, tq)`, and the slice `Ran(pid, ct, ct + act)` is appended |
| RoundRobin.RR.CompleteIfDone | ml224ec_pa1/RR.java:91-98 | a process with no burst left gets `completedTime = ct`, `turnaroundTime = completedTime - arrivalTime` and `waitingTime = turnaroundTime - burstTime`, and stops running; any other process keeps running, unchanged |
| RoundRobin.RR.Step | ml224ec_pa1/RR.java:55-98 | with `q` the old queue, then the arrivals, then the preempted process with burst left: if `q` is empty, the clock advances by 1, `Idle(ct, ct + 1)` is appended and nothing runs; otherwise the queue becomes `q[1..]`, `q[0]` runs `min(remaining, tq)`, `Ran(pid, ct, ct')` is appended, and `q[0]` stays the running process exactly while it has burst left. When `q[0]` has no burst left it is appended to the finished processes with `completedTime = ct'`, `turnaroundTime = completedTime - arrivalTime` and `waitingTime = turnaroundTime - burstTime`; otherwise the finished processes stay the same. Every other process is unchanged. The invariant is kept; the work left shrinks, or stays the same while the clock closes in on the next arrival |
| RoundRobin.RR.AdmitThenPoll | ml224ec_pa1/RR.java:55-69 | the process polled is the head of the old queue followed by the arrivals and the preempted process (null when that is empty), and the rest of it is the new queue |
| RoundRobin.RR.RunOrIdle | ml224ec_pa1/RR.java:71-98 | with nothing polled, one idle tick that brings the clock closer to the next arrival; otherwise one quantum of the polled process, recorded as a slice, after which it is still running exactly while it has burst left. A polled process with no burst left is appended to the finished processes and gets `completedTime = ct'`, `turnaroundTime = completedTime - arrivalTime` and `waitingTime = turnaroundTime - burstTime`. Any other polled process keeps its statistics, and the finished processes stay the same |
| RoundRobin.RR.Simulate | ml224ec_pa1/RR.java:52-99 | the loop ends with an empty queue and an event list tiling `[0, ct]`; every process has received exactly the remaining burst it had when the loop started and carries its completion statistics |
| RoundRobin.RR.Run | ml224ec_pa1/RR.java:43-99 | processes end sorted and permuted stably; events start at 0 and abut; each process has received exactly the remaining burst it had when `run()` started; every process is finished with consistent statistics; a process whose remaining burst equalled its burst time on entry has as waiting time the time from arrival to completion it did not spend running |
| ChopSticks.Picked | ml224ec_pa2/src/ChopStick.java:44-54 | `pickUp` succeeds exactly when the stick is free or held by the caller; success leaves the caller as holder, and failure leaves the holder unchanged |
| ChopSticks.Released | ml224ec_pa2/src/ChopStick.java:60-64 | `putDown` by the holder frees the stick; by anyone else it changes nothing |
| ChopSticks.PickUpIdempotent | ml224ec_pa2/src/ChopStick.java:51-52 | picking up a stick a second time changes nothing and returns the same answer |
| ChopSticks.PutDownIdempotent | ml224ec_pa2/src/ChopStick.java:60-64 | putting a stick down twice is putting it down once |
| ChopSticks.PickThenPut | ml224ec_pa2/src/ChopStick.java:44-64 | a successful pick-up followed by a put-down by the same thread frees the stick |
| ChopSticks.OthersCannotTouch | ml224ec_pa2/src/ChopStick.java:44-64 | no other thread's pick-up or put-down can make a thread the holder or remove it as holder |
| ChopSticks.ChopStick.constructor | ml224ec_pa2/src/ChopStick.java:4-6 | a new stick has the given id, a constant that `getId` returns ever after, and no holder |
| ChopSticks.ChopStick.IsUsedBy | ml224ec_pa2/src/ChopStick.java:29-32 | true exactly when the given thread (or "nobody", for `null`) is the holder; then a pick-up by that thread succeeds without change, and a put-down by it frees the stick |
| ChopSticks.ChopStick.AtMostOneUser | ml224ec_pa2/src/ChopStick.java:27-32 | a stick is used by at most one thread at a time |
| ChopSticks.ChopStick.PickUp | ml224ec_pa2/src/ChopStick.java:44-54 | the new holder and the result are those of `Picked` |
| ChopSticks.ChopStick.PutDown | ml224ec_pa2/src/ChopStick.java:60-64 | the new holder is that of `Released` |
| Philosophers.NextIntent | ml224ec_pa2/src/Philosopher.java:116-178 | every turn moves to a different intent: THINK to HUNGRY, HUNGRY to EAT, EAT to THINK |
| Philosophers.IntentCycle | ml224ec_pa2/src/Philosopher.java:103-176 | the intents form a single cycle of length three that passes through every intent |
| Philosophers.NextTime | ml224ec_pa2/src/Philosopher.java:223-226 | a draw of `nextInt(1000)` gives a period in `[1, 1000]`, namely the draw plus one |
| Philosophers.Philosopher.constructor | ml224ec_pa2/src/Philosopher.java:42-56 | the philosopher keeps its id, a constant that `getId` returns ever after, and both sticks; its turn counts and times are zero; it has no worker and starts with THINK |
| Philosophers.Philosopher.IsWaiting | ml224ec_pa2/src/Philosopher.java:202-208 | false without a worker thread; otherwise true exactly when the worker holds the left stick and not the right one |
| Philosophers.Philosopher.Begin | ml224ec_pa2/src/Philosopher.java:100-103 | `run()` records its thread and starts thinking, holding no stick |
| Philosophers.Philosopher.ReleaseAllLocks | ml224ec_pa2/src/Philosopher.java:213-217 | both sticks are put down as the calling thread, so only sticks the caller holds are freed |
| Philosophers.Philosopher.ForceRelease | ml224ec_pa2/src/Philosopher.java:213-217 | the corrected release: both sticks are put down as the philosopher's own worker, so afterwards it holds neither and is not waiting |
| Philosophers.Philosopher.ThinkingTurn | ml224ec_pa2/src/Philosopher.java:113-130 | the thinking count goes up by one; the period `NextTime(draw)`, between 1 and 1000 ms, is added to the thinking time; next comes HUNGRY |
| Philosophers.Philosopher.HungryTurn | ml224ec_pa2/src/Philosopher.java:141-160 | entering HUNGRY counts one hungry turn. If the turn ends fed, the worker holds both sticks, the elapsed time is added, and next comes EAT. Otherwise it is still spinning, and the stick it spins on is held by some other thread. Each stick keeps its holder, or passes to the worker only if it was free |
| Philosophers.Philosopher.EatingTurn | ml224ec_pa2/src/Philosopher.java:168-178 | the eating count goes up by one, both sticks become free, the period `NextTime(draw)` drawn at line 113, between 1 and 1000 ms, is added to the eating time, and next comes THINK |
| Dining.RightIndexIsSuccessor | ml224ec_pa2/src/DiningPhilosopher.java:93 | philosopher `i`'s right stick is stick `(i + 1) mod N` |
| Dining.NeighboursShareOneStick | ml224ec_pa2/src/DiningPhilosopher.java:92-93 | with `N >= 3`, neighbouring philosophers have exactly one stick in common |
| Dining.StrideMembers | ml224ec_pa2/src/DiningPhilosopher.java:44-55 | the indices `from, from + 2, ...` below `n` are exactly those in range with the parity of `from` |
| Dining.StrideAscending | ml224ec_pa2/src/DiningPhilosopher.java:44-55 | those indices come in strictly increasing order |
| Dining.LaunchOrderIsPermutation | ml224ec_pa2/src/DiningPhilosopher.java:44-55 | odd indices then even indices contain every index below `N` exactly once |
| Dining.DiningPhilosopher.constructor | ml224ec_pa2/src/DiningPhilosopher.java:16-30 | five philosophers, 10000 ms, seed 0, not stopping, nothing built yet |
| Dining.DiningPhilosopher.NeighbourShares | ml224ec_pa2/src/DiningPhilosopher.java:92-93 | once the ring is wired, each philosopher's right stick is its right neighbour's left stick |
| Dining.DiningPhilosopher.AddChopSticks | ml224ec_pa2/src/DiningPhilosopher.java:80-88 | creates `N` new free sticks, where stick `i` has id `i` |
| Dining.DiningPhilosopher.AddPhilosophers | ml224ec_pa2/src/DiningPhilosopher.java:89-96 | creates `N` new philosophers in their initial state: no worker, about to think, no turns counted and no time spent; philosopher `i` has id `i`, left stick `i` and right stick `i + 1`, or stick 0 for the last one |
| Dining.DiningPhilosopher.Initialize | ml224ec_pa2/src/DiningPhilosopher.java:76-97 | stores the time and seed, and wires the ring of fresh free sticks and fresh philosophers |
| Dining.DiningPhilosopher.LaunchOrder | ml224ec_pa2/src/DiningPhilosopher.java:44-55 | the launch order is odd indices ascending, then even ones, and is a permutation of `0..N-1` |
| Dining.DiningPhilosopher.Stop | ml224ec_pa2/src/DiningPhilosopher.java:130-133 | sets `stopping` and nothing else |
| Resolver.DeadlockIsInHolders | ml224ec_pa2/src/DeadlockResolver.java:71-77 | whether the table is deadlocked depends only on the philosophers and on who holds each stick |
| Resolver.NotWaitingBreaksDeadlock | ml224ec_pa2/src/DeadlockResolver.java:71-77 | one philosopher whose worker does not hold its left stick is enough to rule out a deadlock |
| Resolver.NonHolderReleasesNothing | ml224ec_pa2/src/DeadlockResolver.java:98-99 | when the releasing thread holds no stick, the release leaves every stick with its holder |
| Resolver.ResolutionMembers | ml224ec_pa2/src/DeadlockResolver.java:98 | resolution number `k` picks exactly the indices below the size with the parity of `k` |
| Resolver.ResolutionsAlternate | ml224ec_pa2/src/DeadlockResolver.java:98-101 | consecutive resolutions pick complementary index sets, and every second one repeats |
| Resolver.ResolutionsAtFive | ml224ec_pa2/src/DeadlockResolver.java:21 | at a table of five, the first resolution picks 0, 2 and 4, and the second picks 1 and 3 |
| Resolver.DeadlockResolver.constructor | ml224ec_pa2/src/DeadlockResolver.java:23-28 | a resolver for the given table and mode, with no deadlock counted |
| Resolver.DeadlockResolver.IsDeadlocked | ml224ec_pa2/src/DeadlockResolver.java:71-77 | true exactly when every philosopher is waiting, which includes the case of no philosophers at all |
| Resolver.DeadlockResolver.TryResolveDeadlock | ml224ec_pa2/src/DeadlockResolver.java:90-102 | as written: the count goes up by one; exactly the sticks of the chosen philosophers are put down as the resolver's thread; when the resolver holds no stick, every stick keeps its holder |
| Resolver.DeadlockResolver.ReleaseNext | ml224ec_pa2/src/DeadlockResolver.java:99 | one more chosen philosopher's sticks are put down as the resolver's thread |
| Resolver.DeadlockResolver.ResolveDeadlock | ml224ec_pa2/src/DeadlockResolver.java:90-102 | corrected: the same philosophers are chosen and the count goes up by one. A stick of a chosen philosopher that its worker held is freed; every other stick keeps its holder. Each chosen philosopher ends up holding neither stick. With anyone chosen, the table is no longer deadlocked |
| Resolver.ForcedFreeBreaksDeadlock | ml224ec_pa2/src/DeadlockResolver.java:71-77 | once some philosopher has been made to put down its sticks, the table is not deadlocked |
| Resolver.DeadlockResolver.ForceNext | ml224ec_pa2/src/DeadlockResolver.java:99 | one more chosen philosopher is made to put down its sticks as its own worker: the sticks its worker held are freed, and no other stick changes |
| Resolver.DeadlockResolver.Poll | ml224ec_pa2/src/DeadlockResolver.java:33-50 | one pass of the loop, as written; the result says whether a deadlock was seen. With no deadlock nothing changes. In abort mode a deadlock stops the master and ends the loop, with the count and the sticks unchanged. In resolve mode the count goes up by one, and when the resolver's thread holds no stick every stick keeps its holder and the table is still deadlocked |
| Resolver.DeadlockResolver.OnDeadlock | ml224ec_pa2/src/DeadlockResolver.java:34-47 | what a pass does on a deadlock: in abort mode the master is stopped and the loop ends; in resolve mode the count goes up by one, and when the resolver's thread holds no stick the sticks and the deadlock stay as they were |
| Resolver.DeadlockResolver.CorrectedPoll | ml224ec_pa2/src/DeadlockResolver.java:33-50 | the pass with the corrected resolution: the same as `Poll` without a deadlock or in abort mode; in resolve mode the count goes up by one, the chosen philosophers' sticks are freed as in `ResolveDeadlock`, and with anyone chosen the deadlock is broken |

## Left out

- Process.java is not part of this model. `RoundRobin.Process` is a class with the fields its getters and setters name.
- RoundRobin.RR.Run: requires `tq >= 1`. With `tq <= 0` the source's loop may not end: once a process with burst left is dispatched, a dispatch takes no time (`tq = 0`) or adds burst (`tq < 0`).
- RoundRobin.SortByArrival: the source's comparator `p1.getArrivalTime() - p2.getArrivalTime()` (RR.java:45) overflows 32 bits for arrival times far apart, and can then order processes wrongly; the model always orders by arrival time.
- RoundRobin.RR.Run: the source sorts the caller's `ArrayList` in place (RR.java:37 and 45), so the caller sees the sorted order. The model sorts the `processes` field, a value sequence, and the sharing with the caller is not modelled.
- RoundRobin.RR.Run: models one `run()` of a freshly constructed scheduler: it requires an empty scheduling queue and event list. In the source `schedulingQueue` is public (RR.java:29) and `run()` can be called again, which is not modelled.
- RoundRobin.RR.Run: requires the process list to hold each process object once. A process listed twice would be scheduled through both entries.
- RoundRobin.RR.Run: 32-bit `int` overflow of the clock and of the statistics is not modelled. Integers are unbounded.
- `RR.printProcesses` and `RR.printGanttChart` are output formatting. The event list is kept as `Event` values, not as `"pid;start;end"` strings.
- Threads, the `ExecutorService`, `Thread.sleep`, `Thread.interrupted` and the interrupt handlers are left out. This covers Philosopher.java:107 and 182-193, DeadlockResolver.java:33 and 50-63, and DiningPhilosopher.java:32-74. Thread identity is an integer id. A THINK or EAT pass of a philosopher's loop is one method call, and a HUNGRY pass is one or more calls of `HungryTurn`. A resolver pass is one call of `Poll`.
- `getId` (ChopStick.java:13-16, Philosopher.java:57-59) is not a separate member. `id` is a constant field, so reading `id` is what `getId` returns.
- Wall-clock time (`System.currentTimeMillis`) is a parameter: the `elapsed` argument of `HungryTurn`, the time a hungry turn took.
- `java.util.Random` and its seeding are left out. The draw of `nextInt(1000)` is the `draw` argument of `NextTime`, `ThinkingTurn` and `EatingTurn`.
- The constructor's `seed` and `debug` arguments are not passed to `Philosopher`, and no debug output is modelled.
- The `double` time totals are integers of milliseconds. The `getAverage*` divisions and `printTable` are not modelled.
- Philosophers.Philosopher.HungryTurn: the busy spins `while(!pickUp());` become resumable stages. A refused pick-up ends the call, and the next call resumes at the same stick.
- Philosophers.Philosopher.HungryTurn: requires that the sticks held match the stage (`HoldsAsIntended`). Every turn keeps that invariant. A turn after another thread has taken a held stick away is not modelled.
- `DiningPhilosopher.start()` is modelled only as the order in which it launches the philosophers (`LaunchOrder`). The timed wait on `stopping` is left out.
- The lists that are `null` before `initialize` are modelled as empty. `getPhilosophers` is the field itself.
- Resolver.DeadlockResolver.Poll: models one pass of the polling loop, not the loop.
- Resolver.DeadlockResolver.Poll: the overflow of `deadlockCount` after 2^31 resolutions is not modelled.

## Findings

| source | as written | input that shows it | evidently intended | confidence | as-written member | corrected member |
|---|---|---|---|---|---|---|
| ml224ec_pa2/src/DeadlockResolver.java:98-99 | `tryResolveDeadlock` runs on the resolver's own thread and calls `releaseAllLocks`. `putDown` (ChopStick.java:62) frees only a stick held by the calling thread, and the resolver never picks one up. So nothing is released. | Five philosophers with workers 1 to 5, each holding its left stick; resolver thread 6; `resolveLocks` true. After `tryResolveDeadlock` every stick keeps its holder, and `isDeadlocked()` still holds. | The chosen philosophers put their sticks down on behalf of their own worker threads, so the deadlock is broken. | high; not executed | Resolver.DeadlockResolver.Poll | Resolver.DeadlockResolver.CorrectedPoll |
