# State Threads for Windows: a verified model

State Threads is a cooperative scheduler: threads run on one processor, switch only inside
blocking calls, and are woken by the clock, by each other or by I/O. On top of it stand a
reference-counted LRU cache and a DNS cache, and an example server throttles a pool of threads.
This project models the core of each in Dafny and proves what the code is for.

- **Timeout heap** (`Threads`, `Bits`, `HeapOrder`, `TimeoutHeap`). The complete binary heap of
  `sched.c` with its own links, slots (`_st_thread_t**`) and `heap_index` fields, updated in place.
  Every insertion and deletion keeps it complete, min-ordered and correctly indexed, and it holds
  exactly the set of sleepers.
- **Scheduler** (`PollSet`, `Scheduler`, `SchedulerInv`, `SchedulerDispatch`, `SchedulerTheorems`,
  `SchedulerWakeups`, `SchedulerCalls`, `SchedulerCode`, `SchedulerRuns`, `SleepQueue`). A step machine over mutexes,
  condition variables, sleeps, poll requests and interrupts; its steps run from one switch to the
  next. One invariant holds in every state of every run; the promises of the library follow from
  it. `SchedulerCode` holds the calls as they run, in place: each keeps the invariant, takes its
  step and returns its result with what `SchedulerCalls` promises the caller. `SleepQueue` shows
  that the timeout heap is the sleep queue of the machine.
- **LRU cache** (`CircularList`, `Lru`, `LruInv`, `LruTheorems`, `LruRuns`, `LruTable`, `LruCache`).
  The cache on entry identities with its invariant, eviction and replacement laws; its runs, with
  the references that callers hold counted from the history of calls; the hash table as
  `next` links and `pthis` back-pointers; and the cache object, whose methods compute exactly the
  functions of `Lru`.
- **DNS** (`DnsAnswer`, `DnsCache`, `DnsLookup`). The answer parser against an encoder of section
  4.1 of RFC 1035, and the cache against the history of all answers.
- **Thread pool** (`ThreadPool`). The limits and counters of the example server over every run.

`dafny verify dfyconfig.toml` checks everything.

## What the proofs found

- **A runnable thread can be queued twice.** The I/O dispatcher does not look at the state of the
  thread it wakes. The idle fiber is safe because it dispatches only with an empty run queue. The
  native fiber, which takes over when a thread exits (`sched.c:144-159`), may dispatch while a
  polling thread has already been woken by an interrupt or the clock. Its turn keeps the invariant
  if and only if no pass selects such a request (`TurnInvIffSafe`; `PassNoDupIffSafe` for one
  pass), and this is what the run theorems assume of it (`Benign`). `NativeDoubleQueue` is a run of
  seven steps that ends with a running thread still on the run queue. The model's queue then holds
  a second copy; the intrusive list (`common.h:35-61`) ends up with an element that points at
  itself, so that removing it changes nothing and the queue never empties (`AppendLinked`,
  `NeverEmpties`).
- **EINTR to an owner.** `st_mutex_lock` tests the interrupt flag before the owner, so a thread
  that locks a mutex it already holds gets EINTR instead of EDEADLK if an interrupt is pending.
  This is the only way EINTR reaches an owner (`LockOutcome`); `OwnerGetsEintr` is such a run.
- **A signal can be consumed by a wait that reports EINTR**: an interrupt that follows the signal
  overrides it, and only that (`WaitReturn`); `SignalConsumed` is such a run.
- **`st_usleep` hides an interrupt**: it returns 0 whatever woke it and leaves the interrupt flag
  up (`SleepReturn`); `SleepHidesInterrupt` is such a run.
- **`st_poll` without a timeout gives up**: it sleeps for one microsecond (`PollKept`) and returns
  0 exactly if the dispatcher has not taken its request by then (`PollReturn`); `PollGivesUp` is
  such a run.
- **`parse_answer` rejects a well-formed response** when it ends in a record with no data and the
  address array is not yet full, and only then (`WellFormedResponse`, `BareRejected`).
- Host names are cut to 127 characters before lookup and resolution: a name of 127 characters
  shares its entry with everything it is a prefix of (`SameEntry`).
- A refused insertion into the LRU cache has already evicted every idle entry (`InsertSpec`).
- **The unregister loop of the dispatcher does not skip descriptors that are not positive.** They
  never have a counter, so the counters stay right (`UnregisterCounts`). But for a descriptor of
  -199 or less, and only then, its group is negative (`NegativeGroup`) and the loop reads the table
  of groups below its start (`event.c:330-335`); `DispatchDel` returns whether that has happened.

## Model

| member | source | states |
|---|---|---|
| TimeoutHeap.Vp.Descend | sched.c:267-297 | the walk along the bits of the index ends at the slot of that index; of each pair compared the earlier thread stays, so the order is kept and what is carried on is not earlier than its parent-to-be |
| TimeoutHeap.Vp.HeapInsert | sched.c:259-303 | for any index up to one past the last: afterwards the shape is whole except below that index, the order holds except there, every index is right, and exactly the inserted thread has come in (and the thread that stood at the index gone out) |
| TimeoutHeap.Vp.LastSlot | sched.c:306-330 | the path of the size leads to the last node; neither exit for a missing child is taken |
| TimeoutHeap.Vp.SiftDown | sched.c:350-384 | re-linking a node with its earlier child until it is not later restores the order and keeps shape and indices |
| TimeoutHeap.Vp.Refill | sched.c:334-385 | the unlinked last node replaces the deleted one; the exits for a null slot and a null node are never taken |
| TimeoutHeap.Vp.HeapDelete | sched.c:306-387 | deleting any thread leaves a complete, ordered, correctly indexed heap of exactly the other threads, one smaller |
| TimeoutHeap.Vp.AddSleepQ | sched.c:389-394 | the heap gains exactly the thread, due at the last clock plus the timeout |
| TimeoutHeap.Vp.DelSleepQ | sched.c:396-399 | the heap loses exactly the thread, and its flag is cleared |
| TimeoutHeap.Vp.RootIsEarliest | sched.c:413-419 | the root is a minimum of the plain set of sleepers, and null exactly when there are none |
| TimeoutHeap.Vp.CheckClock | sched.c:401-431 | exactly the sleepers due by now move to the end of the run queue in nondecreasing due order; exactly the later ones stay in a well-formed heap, untouched; only condition waiters are flagged as timed out |
| HeapOrder.RootIsMinimum | sched.c:413-419 | in a complete ordered tree no node is due before the root |
| PollSet.NegativeGroup | event.c:85-87 | positive descriptors are grouped by two hundreds, and the group of a descriptor is negative exactly from -199 down |
| PollSet.RegisterCounts | event.c:122-155 | registering a request raises each counter by the number of its matching entries, and the number of groups just as far as its descriptors need |
| PollSet.UnregisterCounts | event.c:157-187 | both ways of unregistering lower each counter by exactly what registering added |
| SchedulerDispatch.ScanSpec | event.c:300-324 | a request is selected exactly if some entry wants an event that select reports for its descriptor; each mentioned entry is marked exactly under that condition, the others keep their mark |
| SchedulerDispatch.PassSpec | event.c:294-361 | a pass takes off the queue exactly the requests that are served, marks the entries, and appends exactly their threads to the run queue in queue order, woken with their flags as before; no other thread is touched |
| SchedulerDispatch.DispatchSpec | event.c:368-374 | over all select groups a request leaves the queue, and its thread is woken, exactly if some pass serves it |
| SchedulerInv.ScheduleInv | sched.c:82-105 | the scheduler takes the head of the run queue, never drops a thread it has taken, and reaches the idle fiber only with an empty run queue |
| SchedulerInv.IdleInv | sched.c:161-179 | a turn of the idle loop keeps the invariant: what was selected or due was waiting |
| SchedulerInv.StepInv | sched.c:24-105 | every call, every resumption and every idle turn keeps the invariant |
| SchedulerInv.RunInv | sched.c:161-179 | the invariant holds in every state of every run |
| SchedulerTheorems.QueueSafety | sched.c:401-448 | in every reachable state: no duplicates on the run queue, on it exactly the runnable threads, the sleep flag says who is in the heap, no running or runnable thread is in it, and each woken thread was woken by exactly one cause |
| SchedulerTheorems.RunnerGoesOn | sched.c:82-105 | in every reachable state the running thread is outside every call, or inside one that can return |
| SchedulerTheorems.MutualExclusion | sync.c:195-262 | over every run at most one thread is between a successful acquire and its unlock, and it is the owner |
| SchedulerTheorems.LockReturn | sync.c:217-229 | a resumed lock call returns 0 exactly if the caller is the owner and EINTR exactly if not, also when the interrupt came after the handoff |
| SchedulerTheorems.LockOutcome | sync.c:195-229 | every return of the lock call: 0 only to the owner, EINTR to an owner exactly if it already was the owner when it called |
| SchedulerTheorems.NoBarging | sync.c:231-262 | a free mutex has no thread waiting in it, so nobody is overtaken |
| SchedulerTheorems.StepMovesUp | sync.c:231-252 | each step of anyone leaves an uninterrupted waiter its place or a better one, and an unlock improves it |
| SchedulerTheorems.BoundedHandoff | sync.c:231-252 | an uninterrupted waiter with k waiters ahead owns the mutex after at most k + 1 unlocks |
| SchedulerWakeups.SignalWakesEarliest | sync.c:146-165 | a signal wakes exactly the earliest thread still waiting, or nobody |
| SchedulerWakeups.BroadcastWakesAll | sync.c:146-173 | a broadcast wakes exactly those still waiting, in queue order |
| SchedulerWakeups.WaitReturn | sync.c:103-140 | a wait returns 0 exactly after a signal, ETIME exactly if the deadline came first, and EINTR exactly with the flag up, which overrides both |
| SchedulerWakeups.TimeoutDoesNotLeak | sync.c:128-132 | the timed-out flag exists only inside the wait whose deadline set it |
| SchedulerWakeups.ClockMoves | sched.c:413-430 | the clock check appends exactly the expired threads, flags only condition waiters and changes no other thread |
| SchedulerWakeups.ClockSpec | sched.c:401-431 | after the clock check exactly the later sleepers sleep |
| SchedulerWakeups.PollReturn | sched.c:58-80 | a poll reports ready entries exactly if the dispatcher took its request off the queue; otherwise it withdraws the request itself |
| SchedulerWakeups.ReadyIsCounted | sched.c:66-71 | the count is the number of entries that are ready |
| SchedulerWakeups.PollConservation | event.c:122-187 | in every reachable state each counter is the number of matching entries of requests on the I/O queue, and each request is on it or has been unregistered once |
| SchedulerWakeups.CloseRefusedIffInUse | event.c:380-390 | closing is refused exactly if an outstanding request names the descriptor |
| SchedulerWakeups.PassNoDupIffSafe | event.c:354-358 | after one pass the run queue is free of duplicates if and only if no selected request belongs to a thread already woken; an empty run queue is enough |
| SchedulerWakeups.SleepReturn | sync.c:56-77 | a resumed sleep returns 0 whatever woke it and leaves the interrupt flag as it was |
| SchedulerWakeups.TurnInvIffSafe | sched.c:144-159 | a whole turn of the native fiber, over all select groups, keeps the invariant if and only if no pass selects a request whose thread was already woken |
| SchedulerRuns.NativeDoubleQueue | sched.c:144-159 | a run in which the native fiber queues a runnable thread again, which then runs while it is queued |
| SchedulerRuns.OwnerGetsEintr | sync.c:198-202 | a run in which the owner of a mutex gets EINTR from locking it |
| SchedulerRuns.SignalConsumed | sync.c:128-138 | a run in which a wait that a signal has ended reports EINTR |
| SchedulerRuns.SleepHidesInterrupt | sync.c:75-76 | a run in which an interrupted sleep returns 0 and the flag stays up |
| SchedulerRuns.PollGivesUp | sched.c:50-54 | a run in which a poll without timeout returns 0 after one microsecond |
| SchedulerCalls.ScheduleKept | sched.c:82-105 | called between threads, it restores the invariant, runs the head of the run queue, and idles only if there is none |
| SchedulerCalls.LockKept | sync.c:195-217 | a lock call that has not returned waits behind all others and has given up the processor; one that returned 0 holds the mutex alone and overtook nobody; EINTR has taken the interrupt and nothing else; EDEADLK has changed nothing |
| SchedulerCalls.LockedKept | sync.c:217-229 | a resumed lock call returns 0 exactly if it was handed the mutex, then holds it alone and leaves the interrupt flag as it is; EINTR takes the interrupt; it queues no longer and no other thread is touched |
| SchedulerCalls.TryLockKept | sync.c:254-262 | a trylock returns 0 exactly if the mutex was free, then holds it alone and overtook nobody; no thread is touched and no flag looked at |
| SchedulerCalls.UnlockKept | sync.c:231-252 | an unlock by the owner ends its hold; the new owner joins the end of the run queue, woken by the handoff alone, and every other waiter has fewer ahead of it; nobody else is touched |
| SchedulerCalls.WaitKept | sync.c:103-123 | a wait that has not returned is last in its queue, sleeps exactly if it has a deadline, until then, and has given up the processor; a pending interrupt is taken instead |
| SchedulerCalls.WaitedKept | sync.c:123-140 | a resumed wait returns by its cause and the flag, clears both flags and queues no longer; no other thread is touched |
| SchedulerCalls.NotifyKept | sync.c:146-173 | exactly the earliest thread still waiting, or all of them in order, join the run queue, with their flags as before; nobody else is touched |
| SchedulerCalls.PollKept | sched.c:24-57 | a poll that has not returned is queued with its entries, counted once per entry, and due after its timeout or one microsecond; a pending interrupt is taken instead |
| SchedulerCalls.PolledKept | sched.c:57-80 | a resumed poll returns the number of ready entries, at least one, if the dispatcher woke it, 0 otherwise, and EINTR exactly with the flag up, which it clears; its request is off the queue and the counters and its entries are as the dispatcher left them |
| SchedulerCalls.SleepKept | sync.c:56-75 | a sleep that has not returned is due exactly if it has a time |
| SchedulerCalls.InterruptKept | sched.c:433-448 | an interrupted thread that was blocked is woken by this alone and sleeps no more; no mutex changes hands and no other thread is touched |
| SchedulerCalls.TurnKept | sched.c:161-179 | after a turn of the idle loop a request is off the queue exactly if something it wants was reported, exactly the sleepers neither due nor woken by that sleep, and the processor idles only if nobody can run |
| SchedulerCode.Processor.constructor | sched.c:108-142 | the processor starts in the initial state and satisfies the invariant |
| SchedulerCode.Processor.VpSchedule | sched.c:82-105 | called between threads, the code restores the invariant and runs the head of the run queue |
| SchedulerCode.Processor.MutexLock | sync.c:195-217 | keeps the invariant, takes its step, and returns or waits as promised |
| SchedulerCode.Processor.MutexLocked | sync.c:217-229 | keeps the invariant; 0 exactly if the caller was handed the mutex and holds it alone, else EINTR, which takes the interrupt |
| SchedulerCode.Processor.MutexTrylock | sync.c:254-262 | keeps the invariant; 0 exactly if the mutex was free and nobody waited for it |
| SchedulerCode.Processor.PassOn | sync.c:237-251 | the loop finds the first thread still waiting and hands it the mutex, or frees it |
| SchedulerCode.Processor.MutexUnlock | sync.c:231-252 | keeps the invariant; 0 exactly for the owner, and every waiter has moved up |
| SchedulerCode.Processor.CondTimedwait | sync.c:103-123 | keeps the invariant; the caller waits last in the queue, with its deadline, or has taken the pending interrupt |
| SchedulerCode.Processor.CondWaited | sync.c:123-140 | keeps the invariant; 0 exactly after a signal, ETIME exactly after the deadline, EINTR exactly with the flag up |
| SchedulerCode.Processor.CondSignal | sync.c:146-165 | keeps the invariant; the loop wakes exactly the earliest thread still waiting, or all of them |
| SchedulerCode.Processor.PollEnter | sched.c:24-57 | keeps the invariant; the request is queued, counted and due |
| SchedulerCode.Processor.PollLeave | sched.c:57-80 | keeps the invariant; the number of ready entries exactly if the dispatcher woke the caller, EINTR exactly with the flag up, which it clears |
| SchedulerCode.Processor.Usleep | sync.c:56-75 | keeps the invariant; the caller sleeps until its time, or has taken the pending interrupt |
| SchedulerCode.Processor.Slept | sync.c:75-77 | keeps the invariant; 0 whatever woke it, and the flag stays |
| SchedulerCode.Processor.ThreadInterrupt | sched.c:433-448 | keeps the invariant; a blocked thread is woken by this alone, and no mutex changes hands |
| SchedulerCode.Processor.ThreadCreate | sched.c:463-552 | keeps the invariant; the new thread runs after all that are runnable |
| SchedulerCode.Processor.ThreadExit | sched.c:185-218 | keeps the invariant; the thread is on no queue and the native fiber takes over |
| SchedulerCode.Processor.CheckClock | sched.c:401-431 | the loop wakes the sleepers that are due in an expiry order, and its effect is to expire them in that order |
| SchedulerCode.Processor.VpIdle | sched.c:161-179 | keeps the invariant for the idle fiber always and for the native fiber under its exact condition; serves what was reported and wakes who is due |
| SchedulerCode.Processor.PollsetAdd | event.c:122-155 | the loop registers every entry of the request |
| SchedulerCode.Processor.PollsetDel | event.c:157-187 | the loop unregisters every entry of the request |
| SchedulerCode.Processor.DispatchDel | event.c:329-352 | the loop unregisters every entry, and indexes the table of groups below its start exactly if some descriptor is -199 or less |
| SchedulerCode.Processor.Scan | event.c:300-324 | the loop notifies exactly if some entry wants an event that select reports for its descriptor, and marks each mentioned entry by that |
| SchedulerCode.Processor.DispatchOnce | event.c:294-361 | the loop serves exactly the requests with a wanted event reported and wakes exactly their threads, in queue order |
| SleepQueue.Enqueue | sched.c:389-394 | adding a thread to the heap is adding it to the set of sleepers with its due time |
| SleepQueue.Wake | sched.c:396-399 | taking a thread out of the heap and queueing it is the requeueing of the machine |
| SleepQueue.Tick | sched.c:401-431 | the clock check on the heap yields an expiry order, and its effect on the thread objects is to expire the sleepers of the machine in that order |
| CircularList.CList.First | extensions/common.h:44-50 | the head is the first element of the sequence, none if it is empty |
| CircularList.CList.Append | extensions/common.h:17-36 | inserting before the head appends to the sequence |
| CircularList.CList.Unlink | extensions/common.h:38-43 | unlinking removes the element from the sequence |
| CircularList.CList.AppendLinked | common.h:35-61 | appending an element that is already linked makes the last one point at itself and cuts off those behind any other |
| CircularList.CList.NeverEmpties | common.h:71-79 | a list whose one element was appended twice does not get empty by removing it |
| LruInv.DeleteOk | extensions/lrucache.c:147-170 | deletion keeps the cache well formed, of idle and of referenced entries |
| LruInv.LookupOk | extensions/lrucache.c:172-191 | lookup keeps the cache well formed |
| LruInv.ReleaseOk | extensions/lrucache.c:193-205 | release keeps the cache well formed, also when it carries out a pending deletion |
| LruInv.NewEntryOk | extensions/lrucache.c:135-145 | creating an entry keeps the cache well formed |
| LruTheorems.LookupIsLatest | extensions/lrucache.c:172-191 | lookup finds exactly the latest entry inserted under the key that has not been deleted, evicted or replaced, even while older ones wait for deletion |
| LruTheorems.EvictHeadSpec | extensions/lrucache.c:257-262 | eviction removes exactly the entry idle for longest |
| LruTheorems.ShrinkSpec | extensions/lrucache.c:211-219 | the first loop evicts the least prefix of the LRU list that makes room, or all of it |
| LruTheorems.HeldAndIdle | extensions/lrucache.c:172-205 | size and weight split into referenced and idle entries |
| LruTheorems.InsertSpec | extensions/lrucache.c:207-255 | refused exactly if the referenced entries alone leave no room; otherwise evicts the shortest oldest prefix, one more only if the count is still full, then replaces and links |
| LruTheorems.EmptySpec | extensions/lrucache.c:71-82 | emptying leaves exactly the referenced entries in the table, all hidden from lookup |
| LruTheorems.Drained | extensions/lrucache.c:193-205 | a cache of pending entries without references has size and weight 0 |
| LruTheorems.EmptyThenDrain | extensions/lrucache.c:71-82 | after emptying, once every reference is released, size and weight are 0 |
| LruRuns.StepOk | extensions/lrucache.c:147-255 | every disciplined operation keeps the cache well formed |
| LruRuns.StepRefs | extensions/lrucache.c:147-255 | a step changes the count of an entry exactly by the reference it hands out or takes back |
| LruRuns.StepKeeps | extensions/lrucache.c:172-255 | a step changes the statistics exactly by the lookup, hit or insertion it is, and no limit |
| LruRuns.HeldSurvives | extensions/lrucache.c:147-255 | over every run an entry to which a caller holds a reference, counted from the history of insertions, lookups and releases, is alive, not idle and not cleaned up |
| LruRuns.RunOk | extensions/lrucache.c:45-255 | every state of every disciplined run is well formed (places, LRU order, one visible entry per key, counters, cleanup at most once and never of a live entry) and within the limits of its creation; the count of every entry is the number of references that callers hold, and the statistics count the calls |
| LruTable.Table.Prepend | extensions/lrucache.c:241-247 | the node joins the head of its chain and every link and back-pointer is right |
| LruTable.Table.Unlink | extensions/lrucache.c:152-156 | the node leaves its chain through the place its back-pointer names, and every other link and back-pointer is right |
| LruCache.Store.constructor | extensions/lrucache.c:45-69 | the cache starts empty and well formed |
| LruCache.Store.DeleteEntry | extensions/lrucache.c:147-170 | the object changes as the delete function says |
| LruCache.Store.FindEntry | extensions/lrucache.c:176-182 | the walk along the links finds what the function on the chain finds |
| LruCache.Store.LookupEntry | extensions/lrucache.c:172-191 | the object changes as the lookup function says |
| LruCache.Store.ReleaseEntry | extensions/lrucache.c:193-205 | the object changes as the release function says |
| LruCache.Store.NewEntry | extensions/lrucache.c:135-145 | the object gains an unlinked, unreferenced entry with the given key, data and weight |
| LruCache.Store.WriteData | extensions/lrucache.c:268-270 | data written through the pointer handed out changes nothing else |
| LruCache.Store.InsertEntry | extensions/lrucache.c:207-255 | the object changes as the insert function says, and the result tells whether it was refused |
| LruCache.Store.EmptyBucket | extensions/lrucache.c:75-80 | the walk that reads the next link before deleting deletes the whole chain |
| LruCache.Store.EmptyAll | extensions/lrucache.c:71-82 | the object changes as the emptying function says |
| DnsAnswer.PassQuestions | extensions/dnsres.c:36-39 | the cursor passes the questions |
| DnsAnswer.ReadRecord | extensions/dnsres.c:40-63 | on every message one turn accepts a record exactly if its name is found, it does not end with its fixed part and an A record has at most four bytes; it then stores the bytes of an A record over the old address and its signed time to live, and moves on by the length; it agrees with the parsing function |
| DnsAnswer.ParseAnswer | extensions/dnsres.c:23-67 | the loop stores the addresses and sets the time to live as the parsing function says, over what the array held |
| DnsAnswer.AnswersDeliver | extensions/dnsres.c:40-64 | the law below from any record boundary |
| DnsAnswer.WellFormedResponse | extensions/dnsres.c:23-67 | on every well-formed response the first addresses that fit are stored in message order, the time to live is the number in the last record stored, as a signed 32-bit number, or -1, and parsing fails exactly if the message ends in a record without data while there is room |
| DnsAnswer.BareRejected | extensions/dnsres.c:46-48 | a well-formed response that is rejected |
| DnsAnswer.PositiveTtlHasAddress | extensions/dnsres.c:40-66 | on every message at all, an accepted answer with a positive time to live has an address |
| DnsCache.HashHostname | extensions/dnscache.c:24-31 | the loop computes the base-15 hash in 32-bit arithmetic |
| DnsCache.HashLonger | extensions/dnscache.c:27-29 | one more character multiplies the hash by 15 and adds its signed code, modulo 2^32 |
| DnsCache.NormalName | extensions/dnscache.c:120-123 | the buffer holds the first 127 characters with the codes 65 to 90 raised by 32 and all others as they are |
| DnsCache.SameEntry | extensions/dnscache.c:113-125 | two names share an entry exactly if their first 127 characters are as many and pairwise equal or the two cases of one letter; a name of 127 or more shares it with all its extensions; a normal name has no upper case and a short name without is normal |
| DnsCache.ReplyHasAddress | extensions/dnscache.c:87-97 | what is cached has an address and at most 1024, for every answer the parser accepts |
| DnsCache.HitSpec | extensions/dnscache.c:50-70 | a hit changes only the rotation and the LRU place of the entry, and leaves it unreferenced |
| DnsCache.ExpiredSpec | extensions/dnscache.c:73-76 | an expired entry is removed, and nothing else |
| DnsCache.InsertHostSpec | extensions/dnscache.c:81-111 | the new entry weighs the length of the name plus 89 plus four bytes per address, and stays exactly if that fits in an empty cache; others are kept as they were or evicted, none of them for this host; if it does not fit nothing is left |
| DnsCache.RunInv | extensions/dnscache.c:45-138 | in every state of every run the cache is well formed, no entry is referenced between calls, and each holds the last answer with a positive time to live for its host |
| DnsCache.HitIsLatest | extensions/dnscache.c:45-79 | a hit hands out data of the last answer with a positive time to live for the host and never past its expiry; a miss leaves no entry for it |
| DnsCache.LearnThenAsk | extensions/dnscache.c:81-111 | an answer that fits is what the next lookup hands out, exactly until it expires |
| DnsCache.CyclicOrder | extensions/dnscache.c:54-60 | while an entry stays, rotating lookups hand out its addresses in cyclic order, whatever else happens |
| DnsCache.EachPositionOnce | extensions/dnscache.c:54-60 | as many rotating lookups as addresses hand out every position once |
| DnsLookup.Resolver.LookupEntry | extensions/dnscache.c:45-79 | the object changes and answers as the lookup function says; the entry it deletes after the release is still alive |
| DnsLookup.Resolver.InsertEntry | extensions/dnscache.c:81-111 | the object changes as the insert function says |
| DnsLookup.Resolver.Ask | extensions/dnscache.c:120-127 | the call up to the resolver looks up the name in lower case, cut to 127 characters |
| DnsLookup.Resolver.Answered | extensions/dnscache.c:132-137 | the call from the answer on copies as many addresses as fit and caches all |
| ThreadPool.SetThreadThrottling | examples/server.c:376-403 | the limits per process are the least shares that make up the totals, and minimum, spare and total limits are ordered |
| ThreadPool.ServerSocket.StartThreads | examples/server.c:787-798 | the loop counts the threads it created; the server goes on exactly if there is one |
| ThreadPool.ServerSocket.Accepted | examples/server.c:824-833 | the code takes the accept step and keeps the bounds |
| ThreadPool.ServerSocket.Finished | examples/server.c:837-843 | the code takes the finish step and keeps the bounds |
| ThreadPool.LeavesOnlyWhenSpare | examples/server.c:814-843 | a thread leaves exactly at the end of a session when the spare limit was already reached |
| ThreadPool.AcceptCreates | examples/server.c:824-833 | a spare thread is created exactly if fewer than the minimum are left waiting, the pool is not full and the creation succeeds |
| ThreadPool.StepInv | examples/server.c:805-844 | every step keeps counters and bounds |
| ThreadPool.RunInv | examples/server.c:774-844 | over every run the counters count the threads in each phase, spare and total threads stay within their limits, the pool never falls below what was started, and if every creation succeeded there are enough spare threads or the pool is full |

## Left out

- SchedulerInv.RunInv: assumes of the native fiber, and only of it, that it does not select a request whose thread was already woken (`Benign`); without that the property is false, see `NativeDoubleQueue`, and the condition is exact, see `TurnInvIffSafe`.
- SchedulerRuns.NativeDoubleQueue: shows the second copy in a sequence; what the intrusive list does is in `CircularList.CList.AppendLinked`.
- SchedulerCode.Processor.CheckClock: takes the earliest of a set; that the root of the heap is that is in `SleepQueue.Tick`.
- SchedulerInv.StepInv: threads have fresh identities and mutexes and condition variables exist from the start; creation failure and destruction are not steps.
- SchedulerTheorems.BoundedHandoff: counts unlocks; that an owner ever unlocks is up to the program.
- SchedulerWakeups.PollConservation: states the counters only; the contents of the `fd_set`s across `select`, and the `size` and `maxfd` fields, are not modelled.
- DnsAnswer.WellFormedResponse: `dn_skipname` and `dn_expand` are functions of the message that find every name at its place; the decrements of the header counts do not show in the message they read.
- LruRuns.RunOk: the caller's discipline is assumed: entries are fresh when created, alive when used and not inserted twice.
- LruCache.Store.InsertEntry: keys are compared by equality, weights do not wrap, and cleanup does not touch the cache.
- Joinable threads (`st_thread_join`, termination conditions) and stacks, keys and thread-specific data.
- `_st_select_find_bad_fd` and every error of `select`; the select timeout.
- The cached wall-clock time in `_st_vp_check_clock`, and wrap-around of 64-bit times and counters.
- The count of active threads that ends the idle loops.
- The sockets layer (`io_win.c`), the fiber wrappers, `stk.c` and `key.c`.
- The search-domain and socket code of the resolver; its answers enter as what `parse_answer` accepts.
- Failure of `malloc` in the caches, and the traversal functions of the LRU cache.
- The intrusive links of run, I/O, wait and LRU lists inside the larger models: `CircularList` shows that they are sequences with append and remove, and the models use sequences.
- The rest of the example server: processes, signals, logs, sessions.
