# Concurrent protocols and connection tables, modelled and proved in Dafny

The repository is a collection of Linux programming exercises. Six of its programs hold a real
protocol or a stateful table; this project models those six and proves what they guarantee, for
every interleaving, every kernel answer and every size.

Each concurrent program is a step relation: a state, a labelled step, `Enabled` and `Apply`, and a
run is any sequence of enabled steps. A block executed under a lock, up to unlocking or to a condition
wait, is one step where everything it shares is guarded by that lock. A pool worker's block is not such
a block, because `threadpool_destroy` sets `shutdown` and broadcasts without the lock: it is two steps,
its tests and then its wait or its take, with the lock held in between while the unlocked steps of the
adjuster and of `threadpool_destroy` go on. The thread a signal wakes, the order of threads and
unsignalled wakeups are all part of the step labels, so a theorem holds for every schedule of these
steps. Histories (what was added, taken, freed, produced, opened) are part of the state but no step
looks at them. Where the C code edits an array, a list node or a structure in place, a class does the
same with loops and assignments, and its contracts equate the new fields with the functions the step
relation uses; the linked list's are tied to the stack its history replays, as the step relation's are.

## Files

- `LostUpdates.dfy`: the unsynchronised counter; the exact set of final values for n increments.
- `TaskRing.dfy`: the thread pool's circular queue, as a queue and against the pool's history.
- `PoolSections.dfy`: what each locked block of the thread pool does; the pool object.
- `PoolProtocol.dfy`: submitters, workers, adjuster and destroyer as one step relation.
- `PoolInvariants.dfy`, `PoolTheorems.dfy`: what every step keeps, and the guarantees that follow.
- `PoolTasks.dfy`: each task from the call that brings it to the worker that runs it.
- `PoolProgress.dfy`: a measure that every submitter and worker step lowers: pending work drains, and in
  any run before shutdown these steps are bounded by the number of the others.
- `PoolShutdown.dfy`: how long shutting down takes, where it can stop, and when it frees the pool.
- `PoolSchedules.dfy`: building runs a step at a time, to show what can happen.
- `PoolHang.dfy`: exactly when `threadpool_destroy` can block for ever.
- `PoolDestroy.dfy`: exactly which pools are freed only after every worker has left.
- `PoolOrders.dfy`: what the adjuster samples, creates and orders, and which pools ever order an exit.
- `PoolArguments.dfy`: arguments freed while their tasks still run.
- `LateAdds.dfy`, `LateFrees.dfy`: calls of `threadpool_add` that go on unlocked during a shutdown, and
  what they do to the ring and to the arguments they free.
- `SemaphoreRing.dfy`: the bounded buffer guarded by two semaphores and no mutex.
- `CondStack.dfy`: the linked list of messages, with the heap and malloc/free explicit.
- `ClientTable.dfy`, `SelectServer.dfy`, `EpollServer.dfy`: the two servers' connection tables.
- `RaceFreeSleep.dfy`: `mysleep` against the clock and other signals.
- `LingeringAlarm.dfy`: what becomes of its alarm when something else ends the suspension.
- `Totals.dfy`, `Multisets.dfy`, `Remainders.dfy`, `IntSets.dfy`: sums and multisets over sequences, ring
  indices, small set facts.

## Where the code does not do what it is meant to

The model follows the code. These are the places where a natural promise is false of it, with what is
true instead:

- The pool never shrinks. The adjuster increments its own copy of the alive count (threadpool.c:227),
  `pthread_alive_num` stays at the minimum, and the exit at lines 166-171 is never taken, although the
  comments describe surplus threads leaving (`NeverShrinks`). The proof that no wakeup is lost depends on it.
- `pthread_busy_num` counts every task ever started, not the busy threads (`NeverShrinks`).
- `threadpool_destroy` can block for ever. A worker that has tested `shutdown` (line 159) may not have
  reached its wait (161) when 259 sets it and 263 broadcasts; it then waits with nobody left to signal
  it, and the join at 266 does not return. Every pool has such a run (`EveryPoolCanHang`). A destroy
  that can go no further has freed the pool if and only if every worker it joins that was late for the
  broadcast woke up unsignalled (`DestroyEndsIff`); setting `shutdown` can lead to a hang if and only if
  such a worker is between test and wait at that moment and the adjuster can leave without the lock
  (`CanHangIff`). With line 259 under the lock it would always end (`LockedShutdownEnds`).
- A task can be taken after `shutdown` is set, by a worker already past line 175, and then one only
  (`ShutdownStops`).
- `threadpool_destroy` joins only the first `pthread_min_num` threads. It frees the pool under no live
  worker exactly when `queue_max_size <= min + 3` or `max <= min + 1` (`FreeIsSafeIff`); every other
  configuration, the demonstration's 3, 10, 10 among them, has a run that frees too early.
- `threadpool_add` goes on after unlocking at line 123. One such call run in one piece breaks the ring
  exactly on a full pool (`AddKeepsRingIff`), where it overwrites the oldest queued task
  (`StoreWhenFull`). Any two that overlap can break it, full or not: over all interleavings the ring
  stays well formed if and only if there is at most one such call, with room for it (`LateAddsKeepRingIff`).
  They can free one argument twice if and only if two of them can come to the same one: an argument left
  in a slot that the calls before them lead to, or one that a third call has just stored (`FreesTwiceIff`).
- `threadpool_add` frees the argument of the task one lap back once that task has been taken, not once it
  has finished: every pool has a run that frees the argument of a running task
  (`ArgumentFreedWhileRunning`).
- The select server's "too many clients" exit is unreachable while descriptors are in range
  (`NeverFullInRange`), so it does not guard the descriptor set.
- Whether the epoll server exits depends on the order in which the kernel reports a batch's events,
  exactly when the table is full, a connection is waiting and a client of the same batch has closed
  (`ExitDependsIff`); for the descriptor accept returns held fixed, see `OrderMattersIff`.
- `mysleep(0)` can sleep for ever, `mysleep(n)` for n >= 1 cannot (`StrandsIff`).
- The alarm of `mysleep(n)`, n >= 1, can outlive the sleep: something else ends the suspension and the
  alarm fires before line 27 cancels it. It is then pending when line 29 has put the old action back, if
  and only if that action is not to ignore it and an alarm was armed or pending before the call, or
  another handled signal that the caller does not block may arrive, or two such were pending (line 21
  waits for the delivery of one) (`LingersIff`). If the caller does not block SIGALRM the old action meets
  it inside line 30, and the process is killed there if that is the action's effect (`DiesIff`). mysleep
  returns with it still pending only if the caller blocks SIGALRM or one more signal is delivered in its
  place inside line 30 (`LeavesAlarmIff`); over all arrivals, only ignoring SIGALRM rules that out
  (`LeavesAlarmUnlessIgnored`).

## Model

| member | source | states |
|---|---|---|
| LostUpdates.ExactOutcomes | 010_thread_sync/01thread_no_sync.c:9-27 | two threads of n increments can end with exactly the values min(n, 2) to 2n: every value has a schedule, no other is reachable |
| LostUpdates.InvAlways | 010_thread_sync/01thread_no_sync.c:9-17 | every state of every interleaving: the counter never exceeds the stores made, and is at least 2 once both threads have stored twice |
| LostUpdates.RunLossy | 010_thread_sync/01thread_no_sync.c:11-15 | a schedule that loses all but p + q + 2 of the 2n increments, for any p, q < n |
| LostUpdates.RunSolo | 010_thread_sync/01thread_no_sync.c:11-15 | k iterations of one thread undisturbed add k |
| LostUpdates.ThreadFunc | 010_thread_sync/01thread_no_sync.c:9-17 | the loop alone on the global adds n |
| LostUpdates.Interleave | 010_thread_sync/01thread_no_sync.c:9-27 | both loops stepped by a schedule compute what the step relation says, within the bounds when complete |
| TaskRing.StoreAppends | 013threadPoll/threadpool.c:125-136 | storing appends to the queue, and leaves a well-formed ring if and only if there was room |
| TaskRing.TakeRemoves | 013threadPoll/threadpool.c:181-186 | taking removes the oldest task and keeps the ring well formed |
| TaskRing.StoreWhenFull | 013threadPoll/threadpool.c:122-136 | a store into a full ring frees and overwrites the oldest queued task and exceeds the capacity |
| TaskRing.StoreAccounts | 013threadPoll/threadpool.c:127-136 | the ring still accounts for the whole history after a store, including the argument it frees |
| TaskRing.TakeAccounts | 013threadPoll/threadpool.c:182-186 | and after a take |
| TaskRing.AccountsIsQueue | 013threadPoll/threadpool.c:127-136 | such a ring has rear = (front + size) mod max and added = taken followed by stored |
| TaskRing.SlotReuse | 013threadPoll/threadpool.c:127-130 | what the next store frees is the argument stored one lap back, whose task was taken already |
| TaskRing.FreesAreSound | 013threadPoll/threadpool.c:127-130 | with distinct arguments none is freed twice, none that is queued is freed |
| LateAdds.SoloStores | 013threadPoll/threadpool.c:125-136 | one call past line 123, alone, does what a store under the lock does and frees what that frees |
| LateAdds.OverlapBreaks | 013threadPoll/threadpool.c:122-136 | two or more such calls have an interleaving that leaves the ring malformed, whatever room there was |
| LateAdds.CountLost | 013threadPoll/threadpool.c:136 | two or more such calls have an interleaving that leaves one task uncounted |
| LateAdds.AfterClear | 013threadPoll/threadpool.c:127-129 | once one call has cleared the slot another finds nothing there and frees nothing |
| LateAdds.LateAddsKeepRingIff | 013threadPoll/threadpool.c:122-136 | unlocked calls keep the ring well formed in all interleavings of their accesses, if and only if there is none, or one and room for it |
| LateFrees.FreesTwiceIff | 013threadPoll/threadpool.c:127-130 | unlocked calls have an interleaving that frees one argument twice if and only if two of them can come to the same one, left in a slot ahead or just stored by a third |
| LateFrees.FewFrees | 013threadPoll/threadpool.c:127-130 | otherwise all of them together free at most one argument, in every interleaving |
| PoolSections.AddKeepsRingIff | 013threadPoll/threadpool.c:118-136 | one add run in one piece keeps the ring well formed unless the pool is full and being shut down |
| PoolSections.GrowSpec | 013threadPoll/threadpool.c:218-231 | the creation loop makes at most ten new ids, each in an entry that was free; other entries stay and ids stay distinct |
| PoolSections.GrowPlaces | 013threadPoll/threadpool.c:222-229 | every new id stands in an entry, and the loop stops short of ten only when no free entry is left |
| PoolSections.RetiresWhen | 013threadPoll/threadpool.c:163-171 | a thread leaves for want of work exactly on an order met coming out of its wait with the alive count above the minimum, and takes one off both counts |
| PoolSections.ThreadPool.constructor | 013threadPoll/threadpool.c:62-103 | a new pool: empty ring, counts at their start, the first `min` entries of the table filled |
| PoolSections.ThreadPool.Add | 013threadPoll/threadpool.c:114-142 | the add's locked block, in place on the array, including what it frees |
| PoolSections.ThreadPool.Test | 013threadPoll/threadpool.c:157-179 | a worker's tests under the lock, first entry or resumed from the wait, in place |
| PoolSections.ThreadPool.TakeTask | 013threadPoll/threadpool.c:182-186 | taking the oldest task, in place |
| PoolSections.ThreadPool.Grow | 013threadPoll/threadpool.c:219-230 | the creation loop in place equals the recursive one |
| PoolInvariants.NeverRetires | 013threadPoll/threadpool.c:163-179 | with the alive count at the minimum a worker's tests never lead to the exit at 166-171, to a wait only on an empty queue, to the exit at 178 only on shutdown, and change only the exit orders |
| PoolInvariants.SubmitKept | 013threadPoll/threadpool.c:114-145 | an add's block keeps every pool invariant |
| PoolInvariants.WorkKept | 013threadPoll/threadpool.c:157-179 | a worker's tests keep the queue, count, lock and wakeup invariants |
| PoolInvariants.SettleKept | 013threadPoll/threadpool.c:159-161 | a worker starting its wait keeps every pool invariant: the queue is as empty as at its test |
| PoolInvariants.PickKept | 013threadPoll/threadpool.c:181-191 | a worker taking a task keeps the queue, count, lock and wakeup invariants |
| PoolInvariants.AdjustKept | 013threadPoll/threadpool.c:207-251 | each block of the adjuster keeps every pool invariant |
| PoolInvariants.InvRun | 013threadPoll/threadpool.c:114-270 | every run from a state satisfying the invariants stays in them |
| PoolTheorems.NoLostWakeup | 013threadPoll/threadpool.c:138-142 | in every reachable state before shutdown with a worker asleep, at least queue_size others have been woken and not yet run, or hold the lock to take a task |
| PoolTheorems.NobodySleepsOnWork | 013threadPoll/threadpool.c:118-119 | a queued task always finds a worker that is not asleep; submitters sleep only on a full queue |
| PoolTheorems.Fifo | 013threadPoll/threadpool.c:182-186 | tasks are taken in submission order, each once, in every run |
| PoolTasks.ReturnsOnceAdded | 013threadPoll/threadpool.c:114-145 | a threadpool_add call keeps its task until it returns, and returns only having added that task |
| PoolTasks.TestsAgain | 013threadPoll/threadpool.c:118-119 | a caller woken unsignalled tests again, and with the queue still full is back where it was |
| PoolTasks.NothingLost | 013threadPoll/threadpool.c:118-136 | the tasks being brought and those added grow by exactly the task each new call brings, at every step |
| PoolTasks.NothingLostRun | 013threadPoll/threadpool.c:118-136 | so over every run what calls brought is added or still being brought |
| PoolTasks.TakesNext | 013threadPoll/threadpool.c:182-183 | what a worker takes into its hands is the oldest task added and not yet taken |
| PoolTasks.RunsWhatItHolds | 013threadPoll/threadpool.c:182-200 | a worker keeps the task it took until it runs it, runs no other, and runs it until it returns |
| PoolTasks.EachTaskRunOnce | 013threadPoll/threadpool.c:182-200 | in every run each task taken is started exactly once or still held, and the busy count is of those started |
| PoolTheorems.EachAddFreesOneLapBack | 013threadPoll/threadpool.c:127-136 | the k-th add frees exactly the argument of task k - max when non-null, nothing on the first lap |
| PoolTheorems.ArgumentsFreedOnce | 013threadPoll/threadpool.c:127-136 | with distinct arguments, every run frees each at most once, after its task was taken |
| PoolTheorems.NeverShrinks | 013threadPoll/threadpool.c:163-172 | the alive count stays at the minimum, no worker exits before shutdown, the busy count is of tasks ever started |
| PoolTheorems.PopulationBound | 013threadPoll/threadpool.c:97-98 | live workers stand in distinct table entries and number at most pthread_max_num; exit orders stay in 0..10 |
| PoolTheorems.GrowthPerPass | 013threadPoll/threadpool.c:218-231 | one step adds at most ten workers, and only an adjuster that saw more than min + 3 queued tasks adds any |
| PoolTheorems.ExitOrders | 013threadPoll/threadpool.c:238-247 | exits are ordered only after workers were added, and only by a pass whose sample of the busy count, doubled, is below the minimum plus ten |
| PoolTheorems.NoMoreOrders | 013threadPoll/threadpool.c:234-243 | once at least half the minimum plus five tasks have started, and no earlier sample is outstanding, no step of any run orders exits |
| PoolOrders.Samples | 013threadPoll/threadpool.c:213-235 | the adjuster samples the tasks added and not taken, the minimum, and the tasks ever started |
| PoolOrders.CopyCountsCreated | 013threadPoll/threadpool.c:218-231 | after deciding, its copy of the alive count is the minimum and one for each worker created, the pool's own count unchanged |
| PoolOrders.OrdersWhen | 013threadPoll/threadpool.c:239-243 | it orders ten exits when twice its busy sample is below its alive copy and that is above the minimum, and otherwise rests |
| PoolOrders.SendsSignal | 013threadPoll/threadpool.c:245-246 | each signal wakes one sleeping worker, if there is any, and nobody else |
| PoolOrders.TenSignals | 013threadPoll/threadpool.c:245-246 | whatever happens meanwhile it rests after its tenth signal and not before |
| PoolOrders.OrdersLedger | 013threadPoll/threadpool.c:163-164 | an exit order is used up by each worker coming out of its wait and by nothing else |
| PoolOrders.CanOrderIff | 013threadPoll/threadpool.c:218-243 | some run of a pool orders ten exits if and only if its queue is longer than min + 3 and max above min + 1 |
| PoolProgress.WorkingDrains | 013threadPoll/threadpool.c:114-201 | every step of a submitter or worker lowers the work measure |
| PoolProgress.RestMeansDone | 013threadPoll/threadpool.c:118-119 | when none of them can move, nothing is queued and nobody waits to submit |
| PoolProgress.Drains | 013threadPoll/threadpool.c:114-201 | left alone, submitters and workers stop within a bound; then exactly the tasks being brought have been added, and every task added has been taken and run once |
| PoolProgress.WorkIsBounded | 013threadPoll/threadpool.c:114-201 | in every run before shutdown their steps are at most a constant plus a constant for each step of anybody else |
| PoolShutdown.ShutdownStep | 013threadPoll/threadpool.c:254-270 | once shutdown is set every step lowers the shutdown measure; a task is taken only by a worker already holding the lock for it |
| PoolShutdown.SomebodyMoves | 013threadPoll/threadpool.c:261-266 | until the pool is freed some thread can move, unless a sleeping worker is being joined |
| PoolShutdown.BroadcastWakes | 013threadPoll/threadpool.c:263 | the broadcast wakes every sleeper and moves nobody else |
| PoolShutdown.ShutdownStops | 013threadPoll/threadpool.c:254-270 | after shutdown at most 4 workers + min + 30 steps and one more task; a run that cannot go on has freed the pool or is joining a sleeper |
| PoolShutdown.FreedIff | 013threadPoll/threadpool.c:263-269 | from the broadcast on, a run that cannot go on has freed the pool if and only if every late worker to be joined woke up unsignalled |
| PoolHang.DestroyEndsIff | 013threadPoll/threadpool.c:159-161 | the same for whole destroys: each passes one broadcast, and the late workers are ones that made their test before shutdown was set |
| PoolHang.CanHangIff | 013threadPoll/threadpool.c:254-266 | setting shutdown in a reachable state can lead to a hang if and only if a worker to be joined is between test and wait and the adjuster can leave without the lock |
| PoolHang.EveryPoolCanHang | 013threadPoll/threadpool.c:259-266 | for all sizes and numbers of submitters a reachable state from which destroying can hang |
| PoolHang.WakesUpAtLast | 013threadPoll/threadpool.c:261-269 | a destroy that has hung still ends if waits end unsignalled |
| PoolHang.LockedShutdownEnds | 013threadPoll/threadpool.c:259 | were shutdown set under the lock, every run that cannot go on has freed the pool, and no further task is taken |
| PoolArguments.ArgumentFreedWhileRunning | 013threadPoll/threadpool.c:127-130 | every pool has a run with distinct arguments in which an add frees the argument of a task still running |
| PoolDestroy.FreeIsSafeIff | 013threadPoll/threadpool.c:218-270 | in all runs the pool is freed only after every worker left, if and only if the queue is at most min + 3 long or max at most min + 1 |
| PoolDestroy.FreeUnderLive | 013threadPoll/threadpool.c:254-270 | a constructed run of every other pool that frees it under a live worker |
| PoolDestroy.FreedAfterAll | 013threadPoll/threadpool.c:264-269 | on runs where the adjuster added nobody, the pool is freed after all workers left |
| SemaphoreRing.InvStep | 010_thread_sync/05thread_sync_sem_t.c:21-51 | every statement of either thread keeps the permit, index, slot and history invariants |
| SemaphoreRing.Fifo | 010_thread_sync/05thread_sync_sem_t.c:25-47 | the consumed values are a prefix of the produced ones, at most n behind, never the cleared 0 |
| SemaphoreRing.ConsumesWhatWasWritten | 010_thread_sync/05thread_sync_sem_t.c:27-43 | what is produced is the sequence of values drawn, and what is consumed a prefix of it, in every run |
| SemaphoreRing.PermitBalance | 010_thread_sync/05thread_sync_sem_t.c:57-58 | permits of both semaphores plus threads in their sections are always n |
| SemaphoreRing.NeverDeadlocked | 010_thread_sync/05thread_sync_sem_t.c:25-46 | one of the two threads can always take its next statement |
| SemaphoreRing.SlotExclusion | 010_thread_sync/05thread_sync_sem_t.c:25-31 | with both threads in their sections they are on different slots |
| SemaphoreRing.NeverOverwrites | 010_thread_sync/05thread_sync_sem_t.c:27 | the producer writes only over cleared slots |
| SemaphoreRing.SharedBuffer.constructor | 010_thread_sync/05thread_sync_sem_t.c:15-58 | the buffer as main starts it |
| SemaphoreRing.SharedBuffer.Produce | 010_thread_sync/05thread_sync_sem_t.c:21-35 | the producer's next statement on the array is the step relation's |
| SemaphoreRing.SharedBuffer.Consume | 010_thread_sync/05thread_sync_sem_t.c:37-51 | the consumer's next statement on the array is the step relation's, and prints what it consumed |
| CondStack.InvStep | 010_thread_sync/04thread_sync_pthread_cond.c:32-78 | every step touches only allocated memory and keeps the list, ownership, count, wakeup and log invariants |
| CondStack.MemorySafe | 010_thread_sync/04thread_sync_pthread_cond.c:46-52 | in every run no step touches dead memory; a freed node is allocated, unlinked and nobody else's |
| CondStack.ListOwnsItsNodes | 010_thread_sync/04thread_sync_pthread_cond.c:66-68 | the list is acyclic and allocated; the nodes on it and those threads hold are exactly the ones allocated, each counted once |
| CondStack.ConsumptionIsStack | 010_thread_sync/04thread_sync_pthread_cond.c:46-68 | every pop takes the newest value; produced = consumed + listed as multisets |
| CondStack.ConsumesWhatWasDrawn | 010_thread_sync/04thread_sync_pthread_cond.c:48-68 | in every run the values drawn are those pushed and those in producers' hands; what is consumed was pushed, and lies in 1 to 1000 |
| CondStack.StackConserves | 010_thread_sync/04thread_sync_pthread_cond.c:46-68 | any log whose pops take the top conserves values |
| CondStack.NoLostWakeup | 010_thread_sync/04thread_sync_pthread_cond.c:41-74 | with a consumer asleep, woken consumers plus producers yet to signal are at least the list length |
| CondStack.WorkingFalls | 010_thread_sync/04thread_sync_pthread_cond.c:36-74 | every step other than making a node or a spurious wakeup lowers the remaining work |
| CondStack.Drains | 010_thread_sync/04thread_sync_pthread_cond.c:36-74 | once no node is made, all threads stop within a bound with the list empty and every node freed |
| CondStack.MsgList.Push | 010_thread_sync/04thread_sync_pthread_cond.c:67-68 | linking a node puts it first, leaves the rest, and pushes its value on the stack the history replays |
| CondStack.MsgList.Pop | 010_thread_sync/04thread_sync_pthread_cond.c:46-47 | unlinking returns the first node, leaves the rest, and pops its value from that stack |
| ClientTable.FirstFree | 012_network_IO/01select/server.c:59-64 | the index of the first free entry, all before it taken |
| ClientTable.FindFree | 012_network_IO/01select/server.c:59-64 | the loop both servers share finds that entry on the array |
| ClientTable.InsertAgrees | 012_network_IO/01select/server.c:59-77 | registering keeps table and history in agreement: the clients, each once, at or below maxi, and maxi + 1 the peak |
| ClientTable.InsertPlaces | 012_network_IO/01select/server.c:59-77 | a client goes into the least free entry, the others stay, and maxi is raised to it |
| ClientTable.RemoveAgrees | 012_network_IO/01select/server.c:88-93 | so does freeing an entry |
| ClientTable.ClearAgrees | 012_network_IO/03epoll/server.c:102-108 | so does clearing a descriptor by search, which leaves every other entry |
| ClientTable.SurvivesIff | 012_network_IO/01select/server.c:59-77 | the table-full exit is taken exactly in histories with more clients at once than entries; otherwise maxi + 1 is the peak |
| ClientTable.NeverFullInRange | 012_network_IO/01select/server.c:65-69 | with the listener and all clients in the descriptor range the table is never full |
| SelectServer.EarlyExit | 012_network_IO/01select/server.c:100-101 | when as many clients have been served as are ready, no later entry is ready |
| SelectServer.ServesAll | 012_network_IO/01select/server.c:82-103 | the scanned ready clients are the ready set without the listener, each once |
| SelectServer.RegisterKeeps | 012_network_IO/01select/server.c:70-77 | watched set, maxfd and table stay consistent when a client joins |
| SelectServer.DropKeeps | 012_network_IO/01select/server.c:89-92 | and when one leaves |
| SelectServer.Server.constructor | 012_network_IO/01select/server.c:23-31 | the server as it first calls select |
| SelectServer.Server.Register | 012_network_IO/01select/server.c:59-77 | a connection is registered unless every entry is live; then nothing changes |
| SelectServer.Server.Drop | 012_network_IO/01select/server.c:89-92 | a closed client leaves the table, the watched set and nothing else |
| SelectServer.Server.ServeEntry | 012_network_IO/01select/server.c:84-99 | one entry of the scan |
| SelectServer.Server.Scan | 012_network_IO/01select/server.c:82-103 | the scan with its countdown serves every ready client once and drops exactly those that closed |
| SelectServer.Server.Round | 012_network_IO/01select/server.c:45-103 | one pass: served is rset without the listener, each once; a client leaves if and only if it was ready and its read returned 0; each exit exactly when it should be |
| EpollServer.BatchEffect | 012_network_IO/03epoll/server.c:65-128 | a batch takes away the clients that sent an end of file, keeps the others and adds the accepted one; table and history agree |
| EpollServer.ExitIff | 012_network_IO/03epoll/server.c:83-84 | a batch ends the server exactly when the table was full and nobody closed before the listener's event |
| EpollServer.AfterMeans | 012_network_IO/03epoll/server.c:93-109 | event by event: an end of file on flagged input takes its client away, data or no input keeps it, the listener adds one |
| EpollServer.ExitDependsIff | 012_network_IO/03epoll/server.c:65-128 | some order of the same events, with whatever descriptor accept then returns, exits where this one does not or the other way round, if and only if the table is full, a connection waits and a client closed |
| EpollServer.OrderMattersIff | 012_network_IO/03epoll/server.c:65-128 | with accept's descriptor held fixed, another order the kernel may answer gives another outcome if and only if, in addition, that descriptor was not open before the batch |
| EpollServer.AcceptKeeps | 012_network_IO/03epoll/server.c:76-91 | interest set and table stay consistent when a client joins |
| EpollServer.CloseKeeps | 012_network_IO/03epoll/server.c:97-108 | and when one leaves |
| EpollServer.Server.constructor | 012_network_IO/03epoll/server.c:35-58 | the server as it first calls epoll_wait |
| EpollServer.Server.Accept | 012_network_IO/03epoll/server.c:76-91 | a connection is registered unless every entry is live |
| EpollServer.Server.ClearEntries | 012_network_IO/03epoll/server.c:102-108 | the loop frees every entry up to maxi that holds the descriptor |
| EpollServer.Server.Close | 012_network_IO/03epoll/server.c:97-108 | a closed client leaves table and interest set |
| EpollServer.Server.Event | 012_network_IO/03epoll/server.c:69-127 | one event in place: a client leaves on an end of file and on nothing else |
| EpollServer.Server.Round | 012_network_IO/03epoll/server.c:61-128 | one pass of the outer loop: who left, who stayed and who joined, the interest set, exits exactly on overflow or error |
| RaceFreeSleep.InvStep | 007singnal/08sigsuspend.c:10-30 | every call, tick and signal keeps the sleep's invariant |
| RaceFreeSleep.WakeupIsComing | 007singnal/08sigsuspend.c:19-25 | a suspended sleep has SIGALRM deliverable, or its timer runs with exactly the rest of nSecs |
| RaceFreeSleep.Expires | 007singnal/08sigsuspend.c:21 | an expiring alarm becomes pending unless it is both ignored and unblocked |
| RaceFreeSleep.StrandsIff | 007singnal/08sigsuspend.c:19-25 | the sleep can be suspended with nothing to wake it if and only if nSecs is 0 |
| RaceFreeSleep.SleepAccounts | 007singnal/08sigsuspend.c:21-31 | time slept plus returned value is nSecs, or the time slept if longer; mask and SIGALRM action are restored, no alarm left armed |
| LingeringAlarm.LingersIff | 007singnal/08sigsuspend.c:21-29 | for n >= 1 and any set of signals that may arrive, SIGALRM can be pending once the old action is back if and only if that is not to ignore it and something may end the suspension early |
| LingeringAlarm.DiesIff | 007singnal/08sigsuspend.c:30 | SIGALRM can kill the process inside line 30 if and only if the old action is to terminate, the caller does not block it, and something may end the suspension early |
| LingeringAlarm.LeavesAlarmIff | 007singnal/08sigsuspend.c:21-30 | mysleep can return with it pending if and only if, in addition, the caller blocks it or one more handled, unblocked signal can be delivered inside line 30 |
| LingeringAlarm.SpentReached | 007singnal/08sigsuspend.c:21-30 | what must have been delivered for SIGALRM to be where it is, in every state reached when no other signal arrives |
| LingeringAlarm.LeavesAlarmUnlessIgnored | 007singnal/08sigsuspend.c:21-30 | for n >= 1, over all runs, mysleep can return with SIGALRM pending if and only if it is not ignored |
| RaceFreeSleep.Sleeper.constructor | 007singnal/08sigsuspend.c:5-8 | the process as mysleep is called |
| RaceFreeSleep.Sleeper.Call | 007singnal/08sigsuspend.c:14-30 | mysleep's next call in place is the step relation's; the sigprocmask calls complete only after a delivery if one is owed |

## Left out

- Weak memory and data races: steps are sequentially consistent. `threadpool_destroy` writes `shutdown` (line 259) and broadcasts (263), and the adjuster reads `shutdown` (210) and signals (246), without the lock; these are steps that can fall inside a worker's locked block, between its tests and its wait or take. A worker's two reads of `shutdown` (159 and 175) are one step: setting it between them comes to the same as setting it before both.
- `threadpool_add` calls that overlap or follow line 259: excluded from the step relation, because after line 123 they edit the queue without the lock; what they do to the ring among themselves is in `LateAdds.dfy` and `LateFrees.dfy`, without a worker taking a task meanwhile. There each of lines 127, 128, 129 and 132-133 is one access.
- What happens after `threadpool_free`: a run ends there, so the worker that `FreeUnderLive` leaves behind is shown alive but its later accesses are not modelled.
- Allocation and initialisation failures of the pool, and `threads` and `task_queue` not being zeroed (line 80 clears one pointer's worth): both arrays start zeroed and 1 <= queue_max_size, 1 <= min <= max.
- `pthread_cond_signal` waking several threads at once: one thread per signal, plus any number of unsignalled wakeups.
- Ids of created threads: every created thread gets an id never used before, and signal 0 fails exactly for threads that have exited.
- The widths of C's integers: all counts are unbounded; only the busy count and the counter grow without limit.
- Tasks that do not return: every task is assumed to.
- Scheduler fairness: progress is stated as measures that fall and as the absence of stuck states, not as eventual scheduling.
- Sockets, printing, address conversion, echoing and failed accepts; read errors in the epoll server (lines 110-118), which index client[] by event number.
- `sleep`, `usleep` and real time, other than the one-second ticks of the sleep model; handlers of other signals are taken not to touch the alarm or the mask.
- An alarm that fires while SIGALRM is ignored and blocked, which POSIX leaves unspecified: it stays pending here.
- The poll server, the mutex and read-write lock demonstrations, the process-shared counter and `flock`: nothing in them is harder than what is here.
- All other exercises: single system calls with no state of their own.
