# Queues, semaphores and schedulers of the thread pool benchmark

The repository benchmarks thread pools; its hard code is in the headers it ships. This project models
that code in Dafny and proves what the headers' comments, assertions and documentation promise.

Concurrent code is a sequentially consistent step machine: a `State` with the shared words and, for
every thread, a program counter that names the atomic operation or critical section it performs next
and holds its local variables; an `Event`; and a function `Next`. A theorem about "every run" is about
`Play(init, es)` for every sequence `es` of events, for any number of threads. Fields of a state that no
guard reads are history variables, and each module says which those are. Code that one thread runs at a
time is a class whose methods change its fields, with a ghost sequence, map or bag that they refine.

## The parts

- **The concurrent queue.** `OptimisticDequeue` is the ticket protocol of four counters, with one
  producer and any number of consumers. `CircularIndex` and `WrappedDequeue` carry it over to machine
  words of any width. `BlockStore` and `ExplicitProducer` are the circular list of blocks and its
  circular index, through reuse, insertion, growth and bulk operations; together they refine a FIFO
  sequence. `ConcurrentLookUp` is a consumer's look-up, load by load, against the producer's stores.
  `SubQueue` puts tickets, look-ups, items and flags together into one concurrent machine that is a FIFO
  queue; `SubQueueRuns` shows that the first two go through runs of their own there. `FailedBulk` is what a
  failed bulk enqueue leaves behind. `ImplicitIndex` is the other index, by pointers to entries, and
  `ImplicitLookUp` a look-up in it, load by load. `FreeList` is the lock-free free list.
- **The semaphore and the blocking queue.** `Semaphore` has spinning, waiting, waiting for several
  tokens, timing out and signalling. `BlockingQueue` puts the inner queue behind it.
- **The concurrent priority queue.** `PriorityQueue` is the batch handler over a heap prefix and an
  unsorted tail, proved against a sequential order that it chooses.
- **The concurrent hash map.** `PowersOfTwo` and `LazyRehash` say in which bucket a key is at home while
  most buckets are still flagged, also under a mask that has become stale. `SegmentTable` is the growing
  array of buckets, `HashMap` the map over it, and `SharedHashMap` what several threads do to it at once.
- **Collaborative once.** `CallOnce` has the word that is a state, a pointer and a reference count, and
  the lifetime of the winner's stack object.
- **The pools.** `StealingQueue`, `WorkStealingPool` and `WorkStealingProgress`; `Blocks` and `BsPool`;
  `ThreadSafeQueue` and `DrainingPool`.
- **The LRU cache.** `LruCache` has reference counts, records and the history list.
- `Counting`, `Sequences`, `Runs` and `Wrappers` hold what several modules use.

## What turned out otherwise than one might read it

- `circular_less_than` answers "less" for two counters at most half the range apart, except when the
  first is exactly half the range behind. `CircularLessThanIsLess` states the condition both ways.
- A bulk enqueue that fails keeps the blocks it has linked in, but takes back the count of index entries. Later
  blocks can then be entered over those of blocks in use, and a consumer reads another item than its own;
  so too when the index was replaced after blocks had been reused. `FailureIsHarmless` says exactly when a
  failure does no harm, `CleanRunsFind` that all is well in runs of such failures only, and `HarmComes`
  that otherwise the producer need only go on. `FailureMisleads` is a run with two blocks and a failed third.
- The look-up on words is right even for a claim that has been left standing for more than half the index
  range: the offset is then wrong (`OffsetIsExact` says exactly when), but by whole turns of the block index
  (`SlotOfIsExact`).
- A task for which `tryEnqueueTask` has returned true need not run. A blocking call that gets its turn only
  after the shutdown returns true and drops its task (`TrueButDropped`); another call that has found the
  queue open can append its task after the drain has returned (`TrueButLeft`). `LastExitDecides` says which
  tasks run: exactly those appended before the last worker exits, and not cleared. What is promised to
  tasks accepted before the drain began holds without exception (`DrainRunsEverything`).
- Purging or pausing while no task is running leaves a thread in `wait()` asleep although its predicate
  holds; and of several threads that wait, one that returns or times out makes the workers forget the
  others, so that the last worker to finish notifies nobody. `StepLeaves` says exactly which steps leave a
  thread asleep, `StepWakes` which make that possible, and `StrandedStays` that no worker wakes such a
  thread until tasks or workers come back into play.
- `notify_one` wakes one thread: of two threads in `wait_for_tasks` of the work-stealing pool, one can stay
  asleep for ever (`SecondWaiterIsStranded`, `StrandedStays`). `StepNotes` says exactly which notifications
  are too few; with one thread asleep at a time, nobody is stranded (`OneWaiterIsWoken`), nor by
  `clear_tasks`, which lowers the count of unfinished tasks before that of unassigned ones.
- The once flag checks its count against the largest one for the pointer seen before. Its pointer is always
  right if and only if there are at most 128 callers (`PointerNeedsFewCallers`), and nobody ever touches a
  wrong runner if and only if there are at most 129 (`SafetyNeedsFewCallers`): addresses of runners are a
  multiple of 128 apart in the model, and next to each other.

## Model

| member | source | states |
|---|---|---|
| OptimisticDequeue.DequeueIsSafe | ThreadPoolBenchmark/concurrentqueue.h:1955-2338 | In every interleaving of single and bulk dequeues with one producer, the claims, made and still to be made, never exceed the published tail; claims follow one another in index order, and each index below the head is claimed by exactly one of them |
| OptimisticDequeue.StepInv | ThreadPoolBenchmark/concurrentqueue.h:1955-2338 | Every atomic operation of the producer or a consumer keeps the invariant: the overcommit a consumer has loaded counts only losses of smaller tickets |
| OptimisticDequeue.WinsAreBounded | ThreadPoolBenchmark/concurrentqueue.h:1975-1991 | If each winning ticket, less the losses up to it, is within the tail, then so are all the wins together |
| OptimisticDequeue.QuiescentCounters | ThreadPoolBenchmark/concurrentqueue.h:2046-2048 | With no consumer inside, optimistic count less overcommit is the head: every overshoot has been repaired |
| OptimisticDequeue.DequeueAloneSucceeds | ThreadPoolBenchmark/concurrentqueue.h:1955-2052 | After any history, a consumer running alone gets nothing exactly on an empty queue, and otherwise the oldest items: never more than its request, nor than there are, and as many as one of the two |
| OptimisticDequeue.ClaimsWithinRequest | ThreadPoolBenchmark/concurrentqueue.h:2248-2269 | In every run, each claim is all that its consumer has won, at most what the call asked for that the consumer is in, one item or the maximum of the bulk dequeue, and not empty unless that is 0 |
| OptimisticDequeue.TicketsWinInOrder | ThreadPoolBenchmark/concurrentqueue.h:2257-2265 | A ticket wins if and only if its number, less the overcommit loaded, is below the tail; the wins come first, and the consumer goes on with as many as win and repairs the others |
| OptimisticDequeue.EmptyHandedMeansDrawn | ThreadPoolBenchmark/concurrentqueue.h:1955-2052 | In every run, a call returns without a claim only when, at two moments within it, one after the other, the overcommit and the optimistic count differ by at least the tail at its beginning |
| OptimisticDequeue.CallsAreWaitFree | ThreadPoolBenchmark/concurrentqueue.h:2248-2269 | A call ends after at most six operations on the counters, whatever the producer and other consumers do |
| CircularIndex.CircularLessThanIsLess | ThreadPoolBenchmark/concurrentqueue.h:477-483 | On words of counters at most half the range apart the comparison is `<`, if and only if the first is not exactly half behind |
| CircularIndex.LeewayOnWords | ThreadPoolBenchmark/concurrentqueue.h:1874-1879 | The leeway check on words fails exactly when the new block would end half the range or more ahead of the head |
| CircularIndex.SizeApproxIsExact | ThreadPoolBenchmark/concurrentqueue.h:1737-1742 | On words, `size_approx` is the number of queued items, and 0 for a head read after the tail, across wraparound |
| CircularIndex.OffsetIsExact | ThreadPoolBenchmark/concurrentqueue.h:2012-2016 | The block offset computed by signed division of a wrapped difference is the true one, if and only if the bases are within half the range of each other |
| CircularIndex.SlotOfIsExact | ThreadPoolBenchmark/concurrentqueue.h:2012-2017 | The slot computed on words lies as far from the front as the block lies from the front's block, however far apart the two are, wrapped offsets included |
| WrappedDequeue.StepRefines | ThreadPoolBenchmark/concurrentqueue.h:1955-2338 | One operation on words is the operation on unbounded counters, taken modulo the word range |
| WrappedDequeue.RunRefines | ThreadPoolBenchmark/concurrentqueue.h:1955-2338 | Along any run whose compared counters stay within half the range, the words are those of the unbounded counters, however often they wrap |
| WrappedDequeue.SizeOfWords | ThreadPoolBenchmark/concurrentqueue.h:1737-1742 | At any moment of such a run `size_approx`, on words, reports what is queued |
| FreeList.FreeListIsSafe | ThreadPoolBenchmark/concurrentqueue.h:1459-1538 | In every interleaving the list is acyclic and holds no node twice; a node being handed out is not on the list and is handed to one thread only |
| FreeList.OnlyGetReturnsANode | ThreadPoolBenchmark/concurrentqueue.h:1459-1509 | A node leaves the clients' hands exactly when passed to `add`, and returns exactly when `try_get` hands it out |
| FreeList.TakenIsNotFlagged | ThreadPoolBenchmark/concurrentqueue.h:1491-1493 | The source's assertion: a node just taken carries no flag, and its count covers the two references given back |
| FreeList.NothingIsLost | ThreadPoolBenchmark/concurrentqueue.h:1459-1538 | With no thread inside, the nodes not held by clients are exactly those on the list, with counts 1, all others 0 |
| FreeList.GetAloneSucceeds | ThreadPoolBenchmark/concurrentqueue.h:1472-1509 | From rest, `try_get` takes the first node, or finds the list empty |
| FreeList.EmptyHandedMeansEmpty | ThreadPoolBenchmark/concurrentqueue.h:1472-1509 | In every run, under whatever contention, `try_get` returns without a node only when the list was empty at some moment within the call |
| FreeList.CallsEndAlone | ThreadPoolBenchmark/concurrentqueue.h:1459-1538 | From any state of any run, whatever other threads were doing when they stopped, a thread that runs on alone ends its call after at most 27 operations |
| FreeList.StepInv | ThreadPoolBenchmark/concurrentqueue.h:1459-1538 | Every atomic operation keeps: the low bits of a count are the transient references, plus one for a node listed, being published or just taken |
| BlockStore.TurnKeepsStore | ThreadPoolBenchmark/concurrentqueue.h:1857-1867 | Reusing the emptied block ahead loses no live item, and every other block keeps its items |
| BlockStore.InsertKeepsStore | ThreadPoolBenchmark/concurrentqueue.h:1895-1912 | Linking a new block behind the tail block keeps the ring, its bases and all items |
| BlockStore.ConstructKeepsStore | ThreadPoolBenchmark/concurrentqueue.h:1947-1949 | Constructing the next item in its place keeps all others, and the flags |
| BlockStore.DestroyKeepsStore | ThreadPoolBenchmark/concurrentqueue.h:2019-2041 | Claimed items are in their places, and moving them out and raising their flags keeps all others |
| BlockStore.WindowAfterWrite | ThreadPoolBenchmark/concurrentqueue.h:1934-1938 | Writing the entry of the newest block completes the window, without touching another entry in it |
| BlockStore.LookUpFindsBlock | ThreadPoolBenchmark/concurrentqueue.h:2006-2017 | From whichever entry of the window a consumer starts, newest or not, the slot it computes is that of the block that holds the index |
| ConcurrentLookUp.LookUpIsExact | ThreadPoolBenchmark/concurrentqueue.h:2006-2017 | However a consumer's loads interleave with the producer overwriting entries, publishing fronts and replacing the index, it ends at the block that holds the claimed index, and in a bulk dequeue at those after it, one for each time that it has gone on; no load is out of range |
| ConcurrentLookUp.LoadsEnd | ThreadPoolBenchmark/concurrentqueue.h:2272-2327 | A look-up takes four loads, and one from each block to the next, whatever the producer and other consumers do |
| ConcurrentLookUp.StepInv | ThreadPoolBenchmark/concurrentqueue.h:1857-1950 | Every store and every load keeps: each header, old or new, lists the blocks of its window, and a consumer's front is in the window and not older than its block |
| ConcurrentLookUp.GrowInv | ThreadPoolBenchmark/concurrentqueue.h:2356-2393 | A larger index lists the same blocks, and consumers of the old one are served by it |
| SubQueue.QueueIsFifo | ThreadPoolBenchmark/concurrentqueue.h:1848-2344 | In every interleaving of one producer with single and bulk dequeues, down to single operations on counters, index and items: what a consumer reads with a claimed index is the item that the producer was given at that place in its order, no index is read twice, and each index behind the head has been read or is held by exactly one consumer |
| SubQueue.ClaimIsServed | ThreadPoolBenchmark/concurrentqueue.h:2006-2044 | A consumer that has claimed indices can always go on: look up, take its next item, or raise flags |
| SubQueue.ClaimEnds | ThreadPoolBenchmark/concurrentqueue.h:2269-2338 | Each operation of a consumer with a claim brings it nearer to the end of its claim, and no step of others throws it back |
| SubQueue.ProducerGoesOn | ThreadPoolBenchmark/concurrentqueue.h:1849-1953 | The producer is never stuck: it completes its entry, there is room for the next item, or a new block can be linked in, after the index has grown if need be |
| SubQueueRuns.CountersRun | ThreadPoolBenchmark/concurrentqueue.h:2248-2269 | The counters of any run of the whole machine go through a run of `OptimisticDequeue` |
| SubQueueRuns.IndexRuns | ThreadPoolBenchmark/concurrentqueue.h:2272-2327 | Its block index and look-ups go through a run of `ConcurrentLookUp`, where a claim is a claim and a move of the head, and the test of the flags implies the guard of reuse |
| SubQueueRuns.AllCanBePublished | ThreadPoolBenchmark/concurrentqueue.h:1944-1951 | The producer can store the front and then the tail, which is that of all the items it has enqueued |
| SubQueue.StepInv | ThreadPoolBenchmark/concurrentqueue.h:1848-2344 | Every step keeps: the places of the ring hold just the live items, flags are up just for those destroyed, claims do not overlap, and the ticket counters agree with the look-up's blocks |
| SubQueue.EmptyIsOldest | ThreadPoolBenchmark/concurrentqueue.h:1857-1867 | The test of the flags of the block ahead implies what the look-up needs of a reused block: all its items are claimed, and no consumer is inside or on its way |
| FailedBulk.FailureIsHarmless | ThreadPoolBenchmark/concurrentqueue.h:2086-2131 | After a failed bulk enqueue the index lists and counts its blocks rightly, if and only if the first block it needed from the pool could not be had, and the index had not been replaced behind reused blocks |
| FailedBulk.HarmComes | ThreadPoolBenchmark/concurrentqueue.h:1853-2131 | After any other failure, single enqueues without further failures bring the queue to where a consumer of the oldest item arrives at another block |
| FailedBulk.FailureMisleads | ThreadPoolBenchmark/concurrentqueue.h:1853-2131 | A run from a new queue with an index for two blocks, in which a failed bulk enqueue ends with a consumer of the first item at the third block |
| FailedBulk.CleanRunsFind | ThreadPoolBenchmark/concurrentqueue.h:1853-2131 | In every run whose bulk enqueues succeed or fail harmlessly, each block that holds items is found |
| FailedBulk.BulkKeeps | ThreadPoolBenchmark/concurrentqueue.h:2068-2144 | A bulk enqueue that succeeds has listed and counted as many blocks as it needed |
| ExplicitProducer.ExplicitProducer.constructor | ThreadPoolBenchmark/concurrentqueue.h:1771-1786 | Starts an empty queue, with or without an index |
| ExplicitProducer.ExplicitProducer.Enqueue | ThreadPoolBenchmark/concurrentqueue.h:1848-1952 | Appends the item to the contents; fails exactly when a block is needed and cannot be had, and then leaves contents and claimed items as they were |
| ExplicitProducer.ExplicitProducer.StartBlock | ThreadPoolBenchmark/concurrentqueue.h:1853-1939 | There is room for the next item in the tail block, if and only if the block ahead is empty or limits, index memory and pool allow another |
| ExplicitProducer.ExplicitProducer.FullOnWords | ThreadPoolBenchmark/concurrentqueue.h:1872-1880 | The test made on words is the one on unbounded indices, size limit included |
| ExplicitProducer.ExplicitProducer.NewBlockIndex | ThreadPoolBenchmark/concurrentqueue.h:2356-2393 | Doubling keeps the window: the entries in use, in order, at the start of the new index |
| ExplicitProducer.ExplicitProducer.CopyInUse | ThreadPoolBenchmark/concurrentqueue.h:2370-2378 | The copying loop yields the entries of the ring from oldest to newest |
| ExplicitProducer.ExplicitProducer.Claim | ThreadPoolBenchmark/concurrentqueue.h:2003 | Takes the oldest items off the contents, in order, and only those |
| ExplicitProducer.ExplicitProducer.FindSlot | ThreadPoolBenchmark/concurrentqueue.h:2008-2017 | The slot found for a claimed index is that of its block, whatever was enqueued, reused or reallocated since the claim |
| ExplicitProducer.ExplicitProducer.LookUpOnWords | ThreadPoolBenchmark/concurrentqueue.h:2012-2017 | The look-up computed on the words of the claimed index and of the base at the front yields the same slot |
| ExplicitProducer.ExplicitProducer.Dequeue | ThreadPoolBenchmark/concurrentqueue.h:2003-2044 | Yields the item enqueued with the claimed index, and keeps all others |
| ExplicitProducer.ExplicitProducer.DequeueBulk | ThreadPoolBenchmark/concurrentqueue.h:2269-2327 | Yields the claimed items in enqueue order, across blocks |
| ExplicitProducer.ExplicitProducer.SetManyEmpty | ThreadPoolBenchmark/concurrentqueue.h:1616-1636 | Raises the flags of just those elements, which are kept in reverse order |
| ExplicitProducer.ExplicitProducer.EnqueueBulk | ThreadPoolBenchmark/concurrentqueue.h:2055-2245 | A successful bulk enqueue equals enqueuing the items one by one, a failed one adds no item; given memory, and leeway and size limit for its last block, it does succeed |
| ExplicitProducer.ExplicitProducer.ReuseAhead | ThreadPoolBenchmark/concurrentqueue.h:2072-2083 | Takes emptied blocks from ahead until there are enough, or none is left, or the next is in use |
| ExplicitProducer.ExplicitProducer.AllocateRest | ThreadPoolBenchmark/concurrentqueue.h:2086-2144 | Adds the blocks still missing, growing the index in between, if limits, memory and pool allow |
| ExplicitProducer.ExplicitProducer.ResetSpares | ThreadPoolBenchmark/concurrentqueue.h:2146-2155 | Puts exactly the new blocks in use |
| ExplicitProducer.ExplicitProducer.Fill | ThreadPoolBenchmark/concurrentqueue.h:2161-2236 | Fills the blocks from the start block to the end block with the items in order |
| ImplicitIndex.ImplicitIndex.LookUp | ThreadPoolBenchmark/concurrentqueue.h:2941-2962 | The entry found for an index of a live block has that block's base as its key, and that block |
| ImplicitIndex.ImplicitIndex.LookUpOnWords | ThreadPoolBenchmark/concurrentqueue.h:2941-2962 | Computed on words, the look-up finds the same entry |
| ImplicitLookUp.LookUpIsExact | ThreadPoolBenchmark/concurrentqueue.h:2941-2962 | However a consumer's loads of header, tail, key and value interleave with entries being inserted, taken back and cleared in any order, and with the index being replaced, it ends at the block in which it claimed its item; no load is out of range, and the key at the tail is there |
| ImplicitLookUp.ConsumerMoves | ThreadPoolBenchmark/concurrentqueue.h:2941-2962 | A look-up takes four loads, whatever the producer and other consumers do |
| ImplicitLookUp.ProducerGoesOn | ThreadPoolBenchmark/concurrentqueue.h:2887-2939 | The producer is never stuck: it can insert an entry, after the index has grown if need be, and then put the new block there, or take the entry back |
| ImplicitLookUp.StepInv | ThreadPoolBenchmark/concurrentqueue.h:2887-3008 | Every store and load keeps: live blocks and all the keys from them to the tail are listed, and an old header still shows a consumer the entries of the current one |
| ImplicitLookUp.GrowInv | ThreadPoolBenchmark/concurrentqueue.h:2964-3008 | A larger index has the old entries at slots that agree with their numbers, and a tail loaded before the growth stays good |
| ImplicitIndex.ImplicitIndex.InsertEntry | ThreadPoolBenchmark/concurrentqueue.h:2900-2933 | Adds an entry for the next base; fails exactly without an index, or when the next entry is in use and there is no memory; entries in use stay where they are |
| ImplicitIndex.ImplicitIndex.SetValue | ThreadPoolBenchmark/concurrentqueue.h:2532-2533 | The new block becomes live under its base |
| ImplicitIndex.ImplicitIndex.Rewind | ThreadPoolBenchmark/concurrentqueue.h:2935-2939 | Taking back an entry without a block leaves every live block findable |
| ImplicitIndex.ImplicitIndex.GiveBack | ThreadPoolBenchmark/concurrentqueue.h:2596-2608 | Clearing the entry of an emptied block, in any order, removes that block only |
| ImplicitIndex.ImplicitIndex.NewBlockIndex | ThreadPoolBenchmark/concurrentqueue.h:2964-3008 | A doubled index shows the same entries at the same addresses, and a free one next |
| ImplicitIndex.InsertKeepsView | ThreadPoolBenchmark/concurrentqueue.h:2900-2914 | Seen from the newest entry back, an insertion over an unused oldest entry keeps all live blocks at their places |
| ImplicitIndex.ReleaseKeepsView | ThreadPoolBenchmark/concurrentqueue.h:2596-2608 | Releasing a block out of order keeps all the others at their places |
| ImplicitIndex.GrowKeepsView | ThreadPoolBenchmark/concurrentqueue.h:2980-2994 | Unused entries behind the oldest change nothing |
| Semaphore.SemaphoreIsSafe | ThreadPoolBenchmark/lightweightsemaphore.h:278-418 | In every run: granted, held, counted, kernel and unposted tokens add up to the initial and signalled ones; the kernel never holds more than waiters will take; a waiter that sees a non-negative counter has a token posted or about to be; what each wait returns fits its kind, and giving up returns nothing |
| Semaphore.StepInv | ThreadPoolBenchmark/lightweightsemaphore.h:278-418 | Every operation keeps: waiters = the negative part of the counter + kernel tokens + unposted releases, and the conservation of tokens |
| Semaphore.SleepersMissNothing | ThreadPoolBenchmark/lightweightsemaphore.h:278-348 | When some thread sleeps in the kernel and nobody else can move, every token ever signalled has been granted |
| Semaphore.WaitForeverGetsAToken | ThreadPoolBenchmark/lightweightsemaphore.h:393-407 | As long as the kernel wait does not fail, the k-th wait of any thread, if its caller gave it no timeout, returns at least one token and at most the maximum that its caller gave |
| Semaphore.WaitsKeepTheirTerms | ThreadPoolBenchmark/lightweightsemaphore.h:278-407 | In every run, the results of each thread carry, in order, the maxima and the patience of the calls that it began, all but the last of which have returned; no result exceeds its caller's maximum; and what has been signalled is what callers announced, but for what is still to be added |
| Semaphore.ShortMeansNoneLeft | ThreadPoolBenchmark/lightweightsemaphore.h:357-391 | A wait returns with less than its maximum only when the counter has no token as the wait finds it or leaves it |
| Semaphore.CallsEndAlone | ThreadPoolBenchmark/lightweightsemaphore.h:278-348 | From any state of any run, a thread that runs on alone ends its call, or waits for a token that the counter does not have, or that another thread is about to post |
| Semaphore.TimeOutEndsWait | ThreadPoolBenchmark/lightweightsemaphore.h:336-346 | When the kernel wait ends without a token, the call is over after at most four more operations, unless a token is on its way |
| Semaphore.WaitAloneIsGreedy | ThreadPoolBenchmark/lightweightsemaphore.h:357-391 | A wait without interference takes the smaller of what it wants and what is there |
| Semaphore.SpinTakesWhatComes | ThreadPoolBenchmark/lightweightsemaphore.h:320-329 | A token that comes while a thread spins is taken by its next look, with as many more as it may have |
| Semaphore.WaitGoesToSleep | ThreadPoolBenchmark/lightweightsemaphore.h:317-336 | With no token to be had, a wait tries once, spins as often as the semaphore was made to, and then counts itself as a waiter and sleeps, or gives up if its timeout is 0 |
| BlockingQueue.TokensHaveItems | ThreadPoolBenchmark/blockingconcurrentqueue.h:294-390 | In every run, available tokens and the needs of spinning consumers together never exceed the items in the inner queue, so nobody spins on an empty one; accepted items are in the queue or delivered, as often as accepted |
| BlockingQueue.CallsGetTheirItems | ThreadPoolBenchmark/blockingconcurrentqueue.h:294-470 | In every run, what `enqueue` and its like have brought is what is in the inner queue and what attempts have taken; a call takes at most its maximum; it is over with less only when the semaphore had no token at some moment of it, and with nothing only for a maximum of 0, without waiting, or after a timeout, and never in `wait_dequeue` |
| BlockingQueue.SemaphoreRuns | ThreadPoolBenchmark/blockingconcurrentqueue.h:359-470 | The semaphore within the queue goes through a run of `Semaphore`, in which `wait_dequeue` makes its call again when that returns without a token |
| BlockingQueue.SpinningCanEnd | ThreadPoolBenchmark/blockingconcurrentqueue.h:363-390 | A consumer with tokens can always take from the inner queue all that it needs, and then its call is over |
| BlockingQueue.ItemsBehindTokens | ThreadPoolBenchmark/blockingconcurrentqueue.h:123-186 | The items in the inner queue are exactly the needs, the held, counted, kernel and unposted tokens, and the items not yet signalled |
| BlockingQueue.SleepersMissNoItem | ThreadPoolBenchmark/blockingconcurrentqueue.h:359-470 | When some consumer sleeps and nobody else can move, the queue is empty |
| BlockingQueue.StepInv | ThreadPoolBenchmark/blockingconcurrentqueue.h:123-470 | Every step of producers and consumers, the retry of `wait_dequeue` included, keeps the accounts |
| PriorityQueue.PriorityQueue.HandleOperations | ThreadPoolBenchmark/include/oneapi/tbb/concurrent_priority_queue.h:253-341 | The statuses of a batch are those of some sequential order of all its operations: a pop returns an element that nothing present outranks and fails only on empty; afterwards all elements are in heap order |
| PriorityQueue.PriorityQueue.Heapify | ThreadPoolBenchmark/include/oneapi/tbb/concurrent_priority_queue.h:343-361 | Moves the tail into the heap, and the pushes left take effect |
| PriorityQueue.PriorityQueue.PushUp | ThreadPoolBenchmark/include/oneapi/tbb/concurrent_priority_queue.h:346-360 | The element at the mark joins the heap, nothing else is lost or added |
| PriorityQueue.PriorityQueue.Reheap | ThreadPoolBenchmark/include/oneapi/tbb/concurrent_priority_queue.h:363-381 | The root leaves; the last element takes a place in the heap, or stays away when it was part of it; without a heap it replaces the first |
| PriorityQueue.PopBackKeeps | ThreadPoolBenchmark/include/oneapi/tbb/concurrent_priority_queue.h:274-283 | Popping the last element when it outranks the root is legal: its push and the pop take effect, the other pushes later |
| PriorityQueue.PopTopKeeps | ThreadPoolBenchmark/include/oneapi/tbb/concurrent_priority_queue.h:325-331 | So is popping the first element, with a heap, without one, and with a tail behind it |
| PriorityQueue.RootIsTop | ThreadPoolBenchmark/include/oneapi/tbb/concurrent_priority_queue.h:325-331 | Nothing in a heap outranks its root, for any strict weak order |
| PriorityQueue.HigherIsTop | ThreadPoolBenchmark/include/oneapi/tbb/concurrent_priority_queue.h:315-324 | What outranks the root is on top of the heap and itself |
| PriorityQueue.ElementsAreConserved | ThreadPoolBenchmark/include/oneapi/tbb/concurrent_priority_queue.h:253-341 | In a legal order, contents afterwards and popped elements are contents before and pushed elements |
| PriorityQueue.PopsDescend | ThreadPoolBenchmark/include/oneapi/tbb/concurrent_priority_queue.h:304-333 | In a legal order, of two pops with no push between them the later one's element does not outrank the earlier one's |
| LazyRehash.HomeAfterRehash | ThreadPoolBenchmark/include/oneapi/tbb/concurrent_hash_map.h:728-762 | Rehashing a bucket moves exactly the hashes that belong in it, all from its parent |
| LazyRehash.HomeInLargerTable | ThreadPoolBenchmark/include/oneapi/tbb/concurrent_hash_map.h:181-215 | Growing the table moves nothing |
| LazyRehash.StaleMask | ThreadPoolBenchmark/include/oneapi/tbb/concurrent_hash_map.h:270-285 | The collision check tells, both ways, whether what belongs to the hash has moved to a deeper bucket |
| SharedHashMap.StaleSearchIsSound | ThreadPoolBenchmark/include/oneapi/tbb/concurrent_hash_map.h:260-285 | A miss in the bucket of an old mask, with no collision reported, proves the key absent and the bucket its home, after any growth and with any buckets being filled, each with some of its nodes moved |
| SharedHashMap.StaleInsertKeepsMidway | ThreadPoolBenchmark/include/oneapi/tbb/concurrent_hash_map.h:1290-1318 | An insertion after such a search puts the key into its home |
| SharedHashMap.MoveKeepsMidway | ThreadPoolBenchmark/include/oneapi/tbb/concurrent_hash_map.h:737-761 | Relinking one node into the bucket being filled, whatever other buckets are being filled, leaves every node at home or on its way |
| SharedHashMap.FillKeepsMidway | ThreadPoolBenchmark/include/oneapi/tbb/concurrent_hash_map.h:728-762 | When no node of the parent belongs in the bucket any more, the bucket is rehashed: all that belongs in it is there |
| SharedHashMap.MarkKeepsMidway | ThreadPoolBenchmark/include/oneapi/tbb/concurrent_hash_map.h:728-732 | Lowering the flag of a bucket, to fill it, leaves all nodes where they are found |
| SharedHashMap.GrowKeepsMidway | ThreadPoolBenchmark/include/oneapi/tbb/concurrent_hash_map.h:181-215 | So does growing the table while buckets are being filled |
| SharedHashMap.EraseKeepsMidway | ThreadPoolBenchmark/include/oneapi/tbb/concurrent_hash_map.h:1423-1462 | Erasing a found node, under whatever mask, removes its key and moves nothing else |
| SharedHashMap.StepInv | ThreadPoolBenchmark/include/oneapi/tbb/concurrent_hash_map.h:696-762 | Every step of threads that fill buckets, grow the table, insert or erase keeps each node where it is found, and no key has two nodes |
| SharedHashMap.RunsFind | ThreadPoolBenchmark/include/oneapi/tbb/concurrent_hash_map.h:260-285 | In every run of such threads, a search under any mask of a bucket that is not being filled is right about what it finds, and, without a collision, about what it misses; once no bucket is being filled, the table is that of a single thread |
| SharedHashMap.FillingGoesOn | ThreadPoolBenchmark/include/oneapi/tbb/concurrent_hash_map.h:728-762 | In every run, the smallest bucket being filled can go on: by lowering its parent's flag, by moving a node, or because it has all of its nodes |
| HashMap.SearchIsExact | ThreadPoolBenchmark/include/oneapi/tbb/concurrent_hash_map.h:696-703 | A search of the home bucket finds a key exactly when the map contains it |
| HashMap.RefillKeepsTable | ThreadPoolBenchmark/include/oneapi/tbb/concurrent_hash_map.h:728-762 | Moving the nodes that belong in a new bucket keeps every node in its home, and the contents |
| HashMap.HashMap.RehashBucket | ThreadPoolBenchmark/include/oneapi/tbb/concurrent_hash_map.h:728-762 | Rehashes the bucket and those above it, terminates, and keeps the contents |
| HashMap.HashMap.MoveNodes | ThreadPoolBenchmark/include/oneapi/tbb/concurrent_hash_map.h:737-761 | The relinking loop divides the parent's chain, those that move in reverse order |
| HashMap.HashMap.Acquire | ThreadPoolBenchmark/include/oneapi/tbb/concurrent_hash_map.h:711-720 | Afterwards the bucket is rehashed, and the contents are the same |
| HashMap.HashMap.Find | ThreadPoolBenchmark/include/oneapi/tbb/concurrent_hash_map.h:1274-1347 | Finds what the map contains for the key |
| HashMap.HashMap.Insert | ThreadPoolBenchmark/include/oneapi/tbb/concurrent_hash_map.h:1274-1357 | Adds the key unless it is there; grows exactly when full and with memory; without memory the insertion stands and an exception is reported |
| HashMap.HashMap.EnableSegment | ThreadPoolBenchmark/include/oneapi/tbb/concurrent_hash_map.h:181-215 | Grows the table to twice its size, or from the embedded buckets to the first block, with all new buckets flagged, and keeps the contents |
| HashMap.HashMap.CheckMaskRace | ThreadPoolBenchmark/include/oneapi/tbb/concurrent_hash_map.h:260-285 | Reports whether the first bucket that the present mask adds to the hash's chain is rehashed |
| HashMap.HashMap.Erase | ThreadPoolBenchmark/include/oneapi/tbb/concurrent_hash_map.h:1423-1462 | Removes the key if it is there, and nothing else |
| SegmentTable.SegmentsTile | ThreadPoolBenchmark/include/oneapi/tbb/concurrent_hash_map.h:130-142 | Every index lies in exactly one segment, the one `segment_index_of` names |
| SegmentTable.PlaceIsExact | ThreadPoolBenchmark/include/oneapi/tbb/concurrent_hash_map.h:240-246 | The place computed for a bucket is in its allocation, as far from its start as the number says |
| SegmentTable.PlacesDiffer | ThreadPoolBenchmark/include/oneapi/tbb/concurrent_hash_map.h:240-246 | No two buckets share a place |
| SegmentTable.SegmentTable.GetBucket | ThreadPoolBenchmark/include/oneapi/tbb/concurrent_hash_map.h:240-246 | Finds the bucket with the given number |
| SegmentTable.SegmentTable.SetBucket | ThreadPoolBenchmark/include/oneapi/tbb/concurrent_hash_map.h:161-165 | Storing into one bucket changes that bucket only |
| SegmentTable.SegmentTable.EnableSegment | ThreadPoolBenchmark/include/oneapi/tbb/concurrent_hash_map.h:181-215 | Appends flagged buckets, the first block at once, later segments one by one, and moves none of the old |
| CallOnce.CallOnceIsSafe | ThreadPoolBenchmark/include/oneapi/tbb/collaborative_call_once.h:50-226 | With at most 129 callers, in every run: the functor completes at most once; done and every normal return mean that it has; nobody touches a runner that is not in use, or its storage before it is there |
| CallOnce.DoneIsPermanent | ThreadPoolBenchmark/include/oneapi/tbb/collaborative_call_once.h:177-226 | Once done, always done, and the functor does not complete again |
| CallOnce.ExceptionReopens | ThreadPoolBenchmark/include/oneapi/tbb/collaborative_call_once.h:165-193 | After any run in which the functor has not completed, with nobody inside, the next call of any thread runs the functor, and returns or throws as that does |
| CallOnce.ReturnsTellTheTruth | ThreadPoolBenchmark/include/oneapi/tbb/collaborative_call_once.h:177-226 | In every run, a call that has run the functor returns or throws as that did; a call that has not returns normally, and only when the functor has completed |
| CallOnce.EveryCallEndsOnce | ThreadPoolBenchmark/include/oneapi/tbb/collaborative_call_once.h:177-226 | In every run, each call of a thread has ended with one result, but for the call that it is in |
| CallOnce.StepsMoveOn | ThreadPoolBenchmark/include/oneapi/tbb/collaborative_call_once.h:165-226 | An operation leaves a thread where it is if and only if it is one of six looks that it has to repeat, each while what it waits for is not so |
| CallOnce.NobodyIsStuck | ThreadPoolBenchmark/include/oneapi/tbb/collaborative_call_once.h:87-226 | With at most 129 callers, in every run: when every thread inside waits for another, then there is none inside; so nobody waits in a circle |
| CallOnce.CallsEndAlone | ThreadPoolBenchmark/include/oneapi/tbb/collaborative_call_once.h:87-226 | With at most 129 callers, from any state of any run, a thread that runs on alone ends its call, gets to run the functor, or comes to wait for another, after at most 16 operations |
| CallOnce.RestIsNewOrDone | ThreadPoolBenchmark/include/oneapi/tbb/collaborative_call_once.h:87-226 | After any run, with nobody inside, the flag is done and the functor has completed, or it is as good as new: no count, no storage, no pointer left |
| CallOnce.PointerNeedsFewCallers | ThreadPoolBenchmark/include/oneapi/tbb/collaborative_call_once.h:196-207 | In all runs the word points to the winner's runner, if and only if there are at most 128 callers |
| CallOnce.SafetyNeedsFewCallers | ThreadPoolBenchmark/include/oneapi/tbb/collaborative_call_once.h:196-216 | In all runs nobody touches a runner that is not in use, if and only if there are at most 129 callers |
| CallOnce.OneCallerTooMany | ThreadPoolBenchmark/include/oneapi/tbb/collaborative_call_once.h:200-207 | From a fresh flag, with more than 128 callers and one exception, a run in which the count carries into the pointer, which is then that of a thread that does not win |
| CallOnce.RefsFit | ThreadPoolBenchmark/include/oneapi/tbb/collaborative_call_once.h:196-207 | The references being taken are fewer than the callers, and fewer still by one when a thread is to add one |
| CallOnce.StepInv | ThreadPoolBenchmark/include/oneapi/tbb/collaborative_call_once.h:87-226 | Every operation keeps: the word counts the references being taken, a runner's count its helpers, and a runner with helpers has an owner |
| WorkStealingPool.PoolIsSafe | ThreadPoolBenchmark/dp_threadpool.h:57-106 | In every run each accepted task is in exactly one place and is invoked or cleared at most once; the counters bound the queued and the unfinished tasks; the worker queue is a permutation of the ids |
| WorkStealingPool.WaitSeesTheEnd | ThreadPoolBenchmark/dp_threadpool.h:245-250 | The wait returns only with no counted task unfinished: every accepted task has been invoked or cleared, but for those still being counted in |
| WorkStealingPool.WorkIsNoticed | ThreadPoolBenchmark/dp_threadpool.h:57-99 | A worker with work in its deque, and no signal on its way, is signalled or draining |
| WorkStealingPool.WaiterIsWoken | ThreadPoolBenchmark/dp_threadpool.h:91-97 | As long as every notification suffices, a thread asleep in the wait with nothing in flight is going to be notified: the signal is set and a worker is about to notify, or a worker is on its way to setting it, even when tasks are cleared |
| WorkStealingPool.OneWaiterIsWoken | ThreadPoolBenchmark/dp_threadpool.h:245-250 | That is so in every run in which no two threads sleep in the wait at the same time |
| WorkStealingPool.StepNotes | ThreadPoolBenchmark/dp_threadpool.h:91-97 | A step leaves a thread asleep with the signal set and no notification to come, if and only if it is a notification that wakes one of several with no other worker about to notify |
| WorkStealingPool.SecondWaiterIsStranded | ThreadPoolBenchmark/dp_threadpool.h:95-96 | A run in which the last of the tasks is done, the signal is set, and the second of two waiting threads stays asleep |
| WorkStealingPool.StrandedStays | ThreadPoolBenchmark/dp_threadpool.h:245-250 | Nothing but a new task, or waking up for no reason, gets such a thread on |
| WorkStealingProgress.SearchFinds | ThreadPoolBenchmark/dp_threadpool.h:64-88 | When there is a task in any deque, a worker that begins a search, and is not interfered with, has taken one after as many looks as there are workers |
| WorkStealingProgress.WorkerEmptiesAlone | ThreadPoolBenchmark/dp_threadpool.h:57-99 | From any state of any run, a worker that has been signalled or is at work takes and invokes every task in every deque if it runs on alone, in a bounded number of operations |
| WorkStealingProgress.CallsEnd | ThreadPoolBenchmark/dp_threadpool.h:260-294 | Enqueuing takes five operations at most, and clearing three more than there are deques, whatever others do |
| WorkStealingProgress.WaitEnds | ThreadPoolBenchmark/dp_threadpool.h:245-250 | With nothing in flight and the signal set, a thread in the wait returns after three operations |
| WorkStealingProgress.SignalTellsTheTruth | ThreadPoolBenchmark/dp_threadpool.h:91-97 | In every run, a worker is about to set the completion signal if and only if it has just seen that nothing was in flight; and the signal is set if and only if the latest to change it was such a worker, not a thread that enqueued into an idle pool |
| WorkStealingProgress.ClearCountsWhatItClears | ThreadPoolBenchmark/dp_threadpool.h:260-269 | In every run, the count that `clear_tasks` subtracts and returns is that of the tasks it has cleared |
| WorkStealingPool.StepInv | ThreadPoolBenchmark/dp_threadpool.h:57-294 | Every step of workers and other threads keeps the counts, places, alarms, reports and ids |
| StealingQueue.RotatingPermutes | ThreadPoolBenchmark/dp_thread_safe_queue.h:83-106 | Rotating an item to the front or the first to the back permutes the queue; only an unknown item is added |
| StealingQueue.ThreadSafeQueue.RotateToFront | ThreadPoolBenchmark/dp_thread_safe_queue.h:83-92 | The first occurrence of the item, if any, is erased, and the item put in front |
| StealingQueue.ThreadSafeQueue.CopyFrontAndRotateToBack | ThreadPoolBenchmark/dp_thread_safe_queue.h:94-106 | The first item is returned and comes last |
| StealingQueue.ThreadSafeQueue.PopFront | ThreadPoolBenchmark/dp_thread_safe_queue.h:56-63 | Takes the first item, if any |
| StealingQueue.ThreadSafeQueue.Steal | ThreadPoolBenchmark/dp_thread_safe_queue.h:74-81 | Takes the last item, if any |
| BsPool.PoolIsSafe | ThreadPoolBenchmark/BS_thread_pool.hpp:2000-2049 | In every run `tasks_running` is the number of workers not parked or gone, and each submitted task is queued, running, finished or purged, in one place only |
| BsPool.WaitReturnsWhenAllAreDone | ThreadPoolBenchmark/BS_thread_pool.hpp:1792-1812 | The wait returns only with no task running, and, unless paused, with all submitted tasks finished or purged |
| BsPool.WaitEndsByItself | ThreadPoolBenchmark/BS_thread_pool.hpp:1792-1846 | A thread's wait ends if and only if its own look finds the predicate true, or its time is out; a notification alone does not end it |
| BsPool.WorkersObey | ThreadPoolBenchmark/BS_thread_pool.hpp:2000-2049 | In every run, a worker's next section makes it leave if the workers have been told to stop, wait if the pool has been paused or has no task, and otherwise take the task it chooses, whether it was parked or not |
| BsPool.LeftFalls | ThreadPoolBenchmark/BS_thread_pool.hpp:2000-2049 | Each section of a worker, but one that wakes up to nothing, and each task that returns, brings the workers nearer to their rest |
| BsPool.WorkersGoOn | ThreadPoolBenchmark/BS_thread_pool.hpp:1792-1812 | In every run, until the predicate of the wait is true, some worker has such a step to make, unless the workers have been told to stop |
| BsPool.PurgeStrandsTheWaiter | ThreadPoolBenchmark/BS_thread_pool.hpp:1530-1534 | A run in which purging leaves the only waiter asleep with its predicate true |
| BsPool.StepWakes | ThreadPoolBenchmark/BS_thread_pool.hpp:1521-2026 | A step leaves a waiting thread unnotified with nothing to wait for, or unknown to the workers, if and only if it purges or pauses while nothing runs and somebody has not been notified, or lets one of several waiting threads go |
| BsPool.WaitersAreKnown | ThreadPoolBenchmark/BS_thread_pool.hpp:1792-2018 | In every run without a step that strands a thread, the workers know of all that wait |
| BsPool.StepLeaves | ThreadPoolBenchmark/BS_thread_pool.hpp:1521-2026 | A step leaves a thread asleep, unnotified, with its predicate true, if and only if it purges or pauses while nothing runs, or is that of the last running worker after another thread has cleared `waiting`, and somebody has not been notified |
| BsPool.WaitersAreNotified | ThreadPoolBenchmark/BS_thread_pool.hpp:1792-2018 | In every run without a step that leaves a thread asleep, whoever waits without having been notified has something to wait for, whatever other threads wait and return |
| BsPool.TimeOutStrandsAnother | ThreadPoolBenchmark/BS_thread_pool.hpp:1824-1846 | A run in which one thread's timeout leaves another asleep after the last task is done |
| BsPool.StrandedStays | ThreadPoolBenchmark/BS_thread_pool.hpp:2005-2026 | No worker, and no other call, wakes a thread left asleep like that, until a task is submitted, the pool is unpaused or its workers are made anew |
| BsPool.StepInv | ThreadPoolBenchmark/BS_thread_pool.hpp:1422-2049 | Every critical section, of a reset as well, keeps the count and the places |
| Blocks.BlocksPartition | ThreadPoolBenchmark/BS_thread_pool.hpp:458-520 | There are as many blocks as asked for, or as indices if those are fewer; they are not empty, adjacent, cover the range from first to last, and differ in size by at most one |
| Blocks.BlocksAreDisjoint | ThreadPoolBenchmark/BS_thread_pool.hpp:497-518 | Of any two blocks the later starts no earlier than the earlier ends |
| Blocks.DetachLoop | ThreadPoolBenchmark/BS_thread_pool.hpp:1366-1383 | As many tasks as blocks asked for, or as indices, of sizes that differ by one at most, visit together, block after block, what the sequential loop visits, each index once |
| Blocks.RunTask | ThreadPoolBenchmark/BS_thread_pool.hpp:1374-1379 | One task visits the indices of its block in order |
| LruCache.LruCache.RetrieveSerial | ThreadPoolBenchmark/include/oneapi/tbb/concurrent_lru_cache.h:168-190 | Adds a handle and takes the key out of the history; a new value is needed exactly for a key in neither |
| LruCache.LruCache.SignalEndOfUsageSerial | ThreadPoolBenchmark/include/oneapi/tbb/concurrent_lru_cache.h:129-166 | Takes a handle back; with the last one the key comes first in the history, the others follow in their order, and the oldest leaves a full one; with other handles left, or no capacity, the history stays as it is |
| LruCache.LruCache.HandleOperations | ThreadPoolBenchmark/include/oneapi/tbb/concurrent_lru_cache.h:114-122 | A batch does what its operations do one after the other |
| LruCache.AlwaysConsistent | ThreadPoolBenchmark/include/oneapi/tbb/concurrent_lru_cache.h:129-190 | After any operations the history holds no key twice, no key with a handle, and no more keys than its capacity |
| LruCache.SmallerCacheIsPrefix | ThreadPoolBenchmark/include/oneapi/tbb/concurrent_lru_cache.h:139-162 | For every pair of capacities the smaller history is the beginning of the larger: eviction takes the least recently released |
| LruCache.HistoryIsByRelease | ThreadPoolBenchmark/include/oneapi/tbb/concurrent_lru_cache.h:139-164 | The history is in the order in which the usages last ended, the latest first |
| LruCache.HistoryIsExact | ThreadPoolBenchmark/include/oneapi/tbb/concurrent_lru_cache.h:129-190 | After any operations, a key is in the history if and only if it has no handle, has been released, and has at no moment since had as many keys released after it, and without a handle, as fit; and in front of it are just those |
| LruCache.OnceCrowdedOut | ThreadPoolBenchmark/include/oneapi/tbb/concurrent_lru_cache.h:129-190 | A run in which a key has been crowded out although in the end nothing released after it is without a handle: the condition has to hold at every moment |
| ThreadSafeQueue.ThreadSafeQueue.Push | ThreadPoolBenchmark/ThreadSafeQueue.h:130-145 | Appends within the bound; after a shutdown drops the value |
| ThreadSafeQueue.ThreadSafeQueue.TryPush | ThreadPoolBenchmark/ThreadSafeQueue.h:104-117 | Appends unless full or a shutdown was seen before locking |
| ThreadSafeQueue.ThreadSafeQueue.WaitPop | ThreadPoolBenchmark/ThreadSafeQueue.h:178-189 | Takes the oldest item; fails only when empty and shut down |
| ThreadSafeQueue.ThreadSafeQueue.TryPop | ThreadPoolBenchmark/ThreadSafeQueue.h:156-166 | Takes the oldest item, if any |
| DrainingPool.DrainRunsEverything | ThreadPoolBenchmark/ThreadPool.h:173-202 | When the drain that was begun after a run is about to return, every task for which `tryEnqueueTask` had returned true in that run has run exactly once, and all workers have exited |
| DrainingPool.LastExitDecides | ThreadPoolBenchmark/ThreadPool.h:130-240 | Whatever it was promised, a task runs if and only if it was appended before the last worker exits, and not cleared |
| DrainingPool.WhatTrueMeans | ThreadPoolBenchmark/ThreadPool.h:130-145 | For any run, any call, and whatever follows: on a pool made inactive before, the call returns false at once and its task is never enqueued; otherwise a blocking call returns true, with its task enqueued unless the queue was shut within the call; another call returns true if and only if its task is enqueued, and false only if the queue was shut or full within the call |
| DrainingPool.TurnDecides | ThreadPoolBenchmark/ThreadPool.h:130-145 | A blocking call appends its task if and only if its turn comes before the shutdown; another call returns false if it finds the queue shut, and else appends and returns true if and only if there is room, also after the shutdown |
| DrainingPool.TasksRunAtMostOnce | ThreadPoolBenchmark/ThreadPool.h:216-240 | No task runs twice or both runs and is cleared, and a bounded queue stays within its bound |
| DrainingPool.FirstCallPerforms | ThreadPoolBenchmark/ThreadPool.h:153-176 | Only the first call of either shutdown performs it; any other returns at once and changes nothing |
| DrainingPool.LeftFalls | ThreadPoolBenchmark/ThreadPool.h:173-202 | Once the pool is inactive, every step but a look at a queue that is not empty, or a refused call, brings it nearer to the end |
| DrainingPool.ShutdownGoesOn | ThreadPoolBenchmark/ThreadPool.h:173-240 | In every run, until a shutdown has returned, there is such a step to make, for a worker or for the shutdown itself, provided the pool has a worker |
| DrainingPool.TrueButDropped | ThreadPoolBenchmark/ThreadPool.h:130-202 | A run in which a blocking call returns true after the shutdown, and its task is nowhere |
| DrainingPool.TrueButLeft | ThreadPoolBenchmark/ThreadPool.h:130-202 | A run in which a non-blocking call returns true after the drain has returned, and its task never runs, whatever happens later |
| DrainingPool.StepInv | ThreadPoolBenchmark/ThreadPool.h:130-240 | Every step of producers, workers and both shutdowns keeps tasks in their places, and only one shutdown performs |

## Left out

- Memory orders, fences, spurious failures of weak compare-exchange and cache effects: atomic steps are sequentially consistent.
- Constructors and assignments that throw, whose undoing in `enqueue_bulk` and `enqueue` is the one modelled for failed allocations.
- ExplicitProducer.ExplicitProducer.EnqueueBulk: says nothing of the blocks and the index after a failure, which are the subject of `FailedBulk` on the producer's bookkeeping alone; and reusing blocks can let it succeed also where leeway, size limit or pool would not do for all of them.
- ExplicitProducer.ExplicitProducer.Claim: that so many items are there is its precondition; `SubQueue` joins it with the counters that guarantee it.
- ExplicitProducer.ExplicitProducer.FindSlot: computes on unbounded indices; `LookUpOnWords` is about the words.
- ExplicitProducer.ExplicitProducer.Dequeue: runs to its end once begun, though any number of other operations may come between the claim and it; the interleaving of single loads, stores and moved items is in `SubQueue`, where blocks have numbers instead of bases.
- ExplicitProducer.ExplicitProducer.DequeueBulk: the same.
- ImplicitIndex.ImplicitIndex.LookUp: runs to its end once begun; its single loads are interleaved with the stores of the producer and of other consumers in `ImplicitLookUp`, where blocks have numbers instead of bases.
- The counter variant of a block's empty flags, which larger blocks use, and `set_empty` for one element: raising one flag is raising several with a count of one.
- The choice among several producers, implicit producers' blocks and items, tokens, moving, swapping and destroying a queue: one producer's part is taken as given.
- Clocks: a timeout is an event that may happen at any time. The kernel semaphore is a counter, and the cast to `int` when releasing it is taken to fit.
- Which item a spinning consumer gets: the inner queue of `BlockingQueue` is a bag, and an attempt may take less than there is.
- The node locks, accessors and lock upgrades of the hash map, iteration, copying and bulk rehashing: of several threads there are only the buckets that they fill, node by node, and searches, insertions and erasures in other buckets.
- `mask` and `hash` as machine words: masks are powers of two less one, and `&` with one is a remainder.
- Tasks and arenas behind `execute_and_wait` and `assist`: helping is waiting until the winner releases the wait context.
- The destructor of the work-stealing pool, with which its runs end; thread affinity, priorities and names; initialization and cleanup functions of workers.
- Which of the threads waiting on the completion signal of the work-stealing pool the standard lets a notification wake: the model's wakes one of those asleep, whichever.
- `empty()` of `ThreadSafeQueue.h:256-258` reads `_size` without the lock, so that the drain may look between the change of a queue and that of its size; in `DrainingPool` it looks between critical sections.
- Waking of parked workers in `BsPool`: a worker may wake at any time, so that nothing is claimed about missed notifications of workers.
- Overflow of `index_after_last - first_index` in `blocks` for index types at the ends of their range.
- Computing and waiting for a value in the LRU cache, and moving handles.
- `concurrent_vector.h`, `concurrent_queue.h`, the other containers' wrappers, `task_thread_pool.hpp`, `hp_threadpool.h`, `main.cpp`, `Helpers.h`, `ThreadProfiler.h` and the test generators: they repeat what is here or do no such work.
