# AuraIO: verified models of its concurrent protocols and data structures

AuraIO is a self-tuning asynchronous I/O library over io_uring with a few tools
built on it. This project models the parts whose guarantees hold only over whole
runs and proves those guarantees: the pointer-to-size-class map, the life of a
request on a ring, the deferred release of registered buffers, the buffer pool
and its shutdown, the AIMD controller with its latency histogram, the lock-free
free list of BFFIO, the handoff of a ring from lock-free use to mutexes, and the
pipelines and tree work of `aura-hash`, `auracp` and `atree`.

Code that changes objects in place is a class over arrays whose methods are proved
against functions of the old state (`BufferSizeMap`, `PoolShard`, `BufferPool`,
`AimdController`, `LatencyHistogram`, `RequestRing`, `HashPipeline`,
`CopyPipeline`, `TreeAggregate`). Protocols between threads are state machines
whose steps are single loads, stores, read-modify-writes or lock sections, for
any number of threads and every interleaving (`RingMachine`,
`DeferredUnregistration`, `ShutdownMachine`, `IoCtxFreeList`, `RingHandoff`,
`WorkQueue`). Atomics are sequentially consistent. The kernel, the heap, `open`,
the clock and the event loop are nondeterministic steps or parameters.

Results that a reader may not expect:

- Removal from the size map is right on every table the code can reach, also on
  one filled to the last slot. The proof keeps one slot, the seam, that no
  displaced entry has passed; a table filled to the last slot keeps the slot
  filled last as its seam. An insert into a full table of maximum capacity fails
  even for a key that is present, because the capacity check comes first.
- A pool may be destroyed while other threads live, but not always safely:
  a thread that still has a cache and has not marked it can free the struct between
  the destroyer's unlock and its read of `owner_thread`, and a pop, which takes no
  lock, can hand out a buffer that the destroyer frees. `QuietShutdown.DestroyIsSafeExactly`
  and `QuietBooks.BooksAreSafeExactly` give the exact conditions on the other threads at
  the moment of the call. Both runs are exhibited.
- A tracked free of an address that the map does not know keeps the pool sound
  exactly if the address is not a buffer of the pool's; a second free is the failing
  case.
- In the controller CONVERGED, the plateau exit of PROBING and the return to
  pass-through are never reached, in any run and under any configuration, although
  the header documents them: after a plateau tick the limit is unchanged, so the
  next tick has no efficiency ratio, and the branch for that case never exits. The
  comment at `engine/src/adaptive_engine.c:487` says that `spike_count` is 0 there;
  it is so exactly when the tick does not rise (`AimdRuns.SpikeExactly`), and every
  controller has a run in which it is 1 (`AimdRuns.SpikeReached`). A floor raised at
  run time is not applied at once: a limit under it reaches it at the next BACKOFF or
  by probing, and not before (`AimdRuns.RaisedFloor`).
- The gain in throughput that probing measures decides only how soon: a tick that has
  not raised the limit leaves the next one without a ratio, which then raises it. So a
  controller in PROBING that gets samples and whose latency does not rise reaches the
  queue depth whatever throughput does, at no less than half the speed it has when
  throughput grows (`AimdProbing.CalmReachesDepth`, `AimdProbing.GrowthReachesDepth`).
- Sections of a ring exclude one another across the handoff exactly when no
  claimant clears `single_thread` before the first owner has set it; any two
  claimants can get there, and the run with two threads inside is exhibited
  (`RingHandoff.TwoInside`).
- The free list of BFFIO is sound exactly when at most one thread pops, none
  pushes, or there is at most one slot; in every other pool there is a run that hands
  one slot out twice.
- When the high-water mark of a shard is its number of slots, as the pool sets it
  up, a push fails exactly at that number (`PoolShard.Shard.OnlyTheMarkRefuses`): the
  branch for a shard without slots below its mark is not taken.

The files import one another; `dafny verify dfyconfig.toml` checks them together.

## Model

| member | source | states |
|---|---|---|
| BufferSizeMap.BufferSizeMap.Remove | engine/src/adaptive_buffer.c:1183-1222 | returns the class of the key, or -1 and no change; afterwards the table is exactly the old map without the key, `count` is one less, and every entry is still reachable; for every hash function and every reachable table, full ones included |
| BufferSizeMap.BufferSizeMap.Insert | engine/src/adaptive_buffer.c:1133-1181 | the new map is the old one with the key set if it succeeds and the old one if it fails; succeeds exactly if the key is not NULL and the table is below 75 % or can grow or, at maximum capacity, has a slot left; the validity it keeps says that below maximum capacity `4 * count <= 3 * capacity` |
| BufferSizeMap.BufferSizeMap.Put | engine/src/adaptive_buffer.c:1152-1181 | the probe and store of an insertion: the map gains or changes exactly this key, in a table that has room |
| BufferSizeMap.BufferSizeMap.Probe | engine/src/adaptive_buffer.c:1157-1176 | the bounded probe finds a key exactly if the map holds it, with its class, and otherwise stops at the first empty slot of its path |
| BufferSizeMap.BufferSizeMap.Vacate | engine/src/adaptive_buffer.c:1197-1214 | the circular backward shift closes the gap: the table holds the old map less the key at the start |
| BufferSizeMap.BufferSizeMap.Grow | engine/src/adaptive_buffer.c:1106-1131 | doubling keeps the map; a failed allocation changes nothing |
| BufferSizeMap.BufferSizeMap.Rehash | engine/src/adaptive_buffer.c:1118-1126 | one entry moved to the new table adds exactly its key to the map there |
| BufferSizeMap.ReSeam | engine/src/adaptive_buffer.c:1183-1222 | any empty slot can take the part of the seam: no probe path runs over it |
| BufferSizeMap.PlaceShape | engine/src/adaptive_buffer.c:1157-1176 | an entry stored in the first empty slot of its path leaves no empty slot on any probe path |
| BufferSizeMap.ProbeMisses | engine/src/adaptive_buffer.c:1194-1221 | a probe that ends at an empty slot, or comes back to its start, shows that the key is nowhere in the table |
| BufferSizeMap.ShiftTest | engine/src/adaptive_buffer.c:1203-1209 | comparing the two circular distances decides exactly whether the hole lies on the probe path of the next entry |
| BufferSizeMap.MoveShape | engine/src/adaptive_buffer.c:1209-1212 | moving an entry into the hole keeps every probe path free of gaps but the hole |
| BufferSizeMap.ShiftRound | engine/src/adaptive_buffer.c:1202-1213 | one round of the shift loop keeps its invariant also after wrapping past its own hole |
| BufferSizeMap.ShiftDone | engine/src/adaptive_buffer.c:1202-1215 | when the loop ends, at an empty slot or after a whole turn, the hole can be cleared |
| BufferSizeMap.CanDouble | engine/src/adaptive_buffer.h:184-200 | a capacity that is 1024 doubled some times and below the maximum can double again without passing it |
| Circle.Wrap | engine/src/adaptive_buffer.c:1206-1207 | the masked unsigned difference is the circular distance |
| SizeClasses.SmallestClass | engine/src/adaptive_buffer.c:87-103 | for every size the pool accepts the class is one of the 16, holds the size, and every smaller class does not |
| SizeClasses.ClassRoundTrip | engine/src/adaptive_buffer.c:1224-1236 | the size that a tracked free passes on has the class it was looked up from |
| PoolShard.Shard.constructor | engine/src/adaptive_buffer.c:123-152 | all slots are on the free list and all buckets empty |
| PoolShard.Shard.Pop | engine/src/adaptive_buffer.c:401-418 | takes the buffer pushed last to the class, moves its slot to the free list, leaves the other buckets as they are; nothing if the bucket is empty |
| PoolShard.Shard.Push | engine/src/adaptive_buffer.c:1034-1061 | puts the buffer on top of the bucket of its class and of no other, exactly if the shard is below its mark and has a slot |
| PoolShard.Shard.CountsBuffers | engine/src/adaptive_buffer.c:1052-1061 | `free_count` is the number of buffers in the buckets |
| PoolShard.PopKeeps | engine/src/adaptive_buffer.c:406-416 | rewiring two links keeps the lists: every slot in exactly one of the free list and the buckets, once, and `free_count` the number of those in buckets |
| PoolShard.PushKeeps | engine/src/adaptive_buffer.c:1040-1055 | the same for a push |
| PoolShard.MovePartition | engine/src/adaptive_buffer.c:395-423 | a slot that changes lists leaves the partition of the slots whole |
| BufferPool.Pool.Alloc | engine/src/adaptive_buffer.c:836-938 | a buffer that is returned was with nobody else, becomes the user's, is of the smallest class that holds the size and came from the heap with that class; where it comes from, and what becomes of every other buffer, exactly: the top of the thread's stack; or else the last of a batch that comes into it from the shard; or else, without a cache, the first of the next shard in turn; or else the heap, with up to fifteen more for the stack; or none, for want of memory, and nothing changes |
| BufferPool.Pool.Free | engine/src/adaptive_buffer.c:946-1069 | where the buffer goes, and what becomes of every other one, exactly: onto the thread's stack, all else and the totals unchanged; or, if that is full, after sixteen have gone to the front of the shard, or as many as it accepts and the rest to the heap; without a cache to the front of the next shard, or to the heap if and only if that accepts nothing |
| BufferPool.Pool.Refill | engine/src/adaptive_buffer.c:395-424 | the first of the shard come onto the stack in order, the least of a batch, the room in the cache and what the shard has; nothing else changes |
| BufferPool.Pool.Flush | engine/src/adaptive_buffer.c:438-500 | the last sixteen of the stack go to the front of the shard; if it refuses before that, all that are left go to the heap and out of the totals; nothing else changes |
| BufferPool.Pool.Drain | engine/src/adaptive_buffer.c:455-463 | above the high-water mark the whole stack goes back to the heap, and nothing else changes |
| BufferPool.Pool.Prefill | engine/src/adaptive_buffer.c:903-937 | extra buffers go onto the stack in order, each counted once: as many as the heap gives, up to a batch less one and the room in the cache |
| BufferPool.Pool.PopShard | engine/src/adaptive_buffer.c:868-890 | a buffer popped from a shard was on no other stack and with no user |
| BufferPool.Pool.FromHeap | engine/src/adaptive_buffer.c:892-902 | `total_buffers` and `total_allocated` grow by one buffer and its class size |
| BufferPool.Pool.ToHeap | engine/src/adaptive_buffer.c:1063-1068 | both totals shrink by the same |
| BufferPool.Taken | engine/src/adaptive_buffer.c:395-501 | a buffer that leaves a stack for the user is live, of the class of that stack, and was not with a user; every buffer stays in exactly one place |
| BufferPool.OnOneStack | engine/src/adaptive_buffer.c:836-1069 | a buffer on a stack is on no other stack of any cache or shard, on this one once, and not with a user |
| BufferPool.UserIsLive | engine/src/adaptive_buffer.c:836-1069 | a buffer with the user is live under the user's class and on no stack at all |
| BufferPool.BytesAdd | engine/src/adaptive_buffer.c:900-901 | one more live buffer is one more in `total_buffers` and its class size more in `total_allocated` |
| ManagedBuffers.ManagedBuffers.Alloc | engine/src/aura.c:2322-2336 | the size map always holds exactly the user's buffers with their classes; a buffer is withheld only for its size, want of memory or a map that accepts no more, and then nothing changes for the user |
| RingMachine.SlotsConserved | engine/src/adaptive_ring.c:353-411 | over every run: free, acquired and pending slots are all slots; `queued_sqes` is the number of unsubmitted SQEs; the free stack holds distinct indices, exactly those marked `in_pool` |
| RingMachine.CallbacksExactlyOnce | engine/src/adaptive_ring.c:763-836 | over every run, by what its submissions asked for: no callback twice, or for a request submitted without one; by the time a slot can be handed out again its request has had its callback; when nothing is pending every one has been made, as many as submissions asked for |
| RingMachine.RunRecords | engine/src/aura.c:545-550 | the requests a ring has accepted, and those it owes a callback, are those submitted, and submitted with one, in the run |
| RingMachine.AsksAreDistinct | engine/src/adaptive_ring.c:353-384 | no two submissions that ask for a callback are the same request |
| RingMachine.StepKeeps | engine/src/adaptive_ring.c:353-879 | every step keeps the invariant |
| RingMachine.GetKeeps | engine/src/adaptive_ring.c:353-384 | acquiring a slot |
| RingMachine.FinishKeeps | engine/src/adaptive_ring.c:452-475 | queueing an SQE: the pending flag and both counters move together, and the invariant is kept |
| RingMachine.FlushKeeps | engine/src/adaptive_ring.c:681-731 | a full, partial or failed flush leaves `queued_sqes` equal to what the kernel has not consumed |
| RingMachine.RetireKeeps | engine/src/adaptive_ring.c:849-879 | a batch of slots goes back at once and the pending counter falls by its size |
| RingMachine.StepSettles | engine/src/adaptive_ring.c:763-836 | a request that is no longer pending never is again |
| RequestRing.RequestRing.GetRequest | engine/src/adaptive_ring.c:353-384 | on the arrays: the top of the stack, or none; the step of the machine |
| RequestRing.RequestRing.PutRequest | engine/src/adaptive_ring.c:386-411 | on the arrays: pushed exactly if the machine pushes it |
| RequestRing.RequestRing.FinishSubmit | engine/src/adaptive_ring.c:452-475 | on the arrays: the step of the machine; the request is pending with exactly the callback it was submitted with |
| RequestRing.RequestRing.FlushQueue | engine/src/adaptive_ring.c:681-731 | the answer of the kernel may be an error or any number of SQEs; the counter never falls below zero |
| DeferredUnregistration.DropIsSafe | engine/src/aura.c:693-737 | whatever the interleaving: when the table is about to be freed no registered-buffer operation is in flight on any ring and no submitter is past its check |
| DeferredUnregistration.TableOutlivesUsers | engine/src/aura.c:575-675 | the table is there for every operation in flight and every submitter that has checked it; nobody is past the check while the pending flag is set |
| UnregistrationRuns.RequestStopsSubmissions | engine/src/aura.c:2415-2425 | from the step in which a thread asks for unregistration of a registered table to the one that answers it, whatever else happens: no submitter that looks is let through, none is past its look, and no submission ends |
| UnregistrationRuns.LetThroughExactly | engine/src/aura.c:579-596 | a submitter that looks is let through if and only if, by the steps of the run, a table has been registered, not freed and not asked to go |
| UnregistrationRuns.RequestIsCarriedOut | engine/src/aura.c:693-724 | in every reachable state with a request not answered, nothing in flight and no lock held, whichever thread comes to finalize: its steps are enabled one after another, and at their end the table is freed and neither registered nor pending |
| UnregistrationRuns.DropsExactly | engine/src/aura.c:693-700 | a finalizer goes on to free the table if and only if a request is not answered and the sum it has read is zero |
| UnregistrationRuns.RunRecords | engine/src/aura.c:2400-2425 | the two flags are what the steps of the run say: registered and not freed, asked to go and not answered |
| DeferredUnregistration.ZeroSumIsTrueZero | engine/src/aura.c:677-683 | counters read one after another while completions lower them: a sum of zero means that all are zero |
| DeferredUnregistration.StepKeeps | engine/src/aura.c:693-737 | every step under the lock keeps the invariant: exclusion, counters, and what each position says of the table |
| DeferredUnregistration.CompletionKeeps | engine/src/adaptive_ring.c:813-818 | a completion lowers its counter without the lock and keeps the invariant |
| DeferredUnregistration.CountersKeep | engine/src/aura.c:620-675 | each counter is the operations in flight plus the submitters that have raised it |
| RingHandoff.SectionsExclude | engine/src/adaptive_ring.h:488-524 | for any number of claimants: no two threads in a section of one side, across the switch from flag to mutex, in every run in which no claimant clears the flag before the first owner has set it |
| RingHandoff.TooEarlyBreaksIt | engine/src/aura.c:233-253 | the condition is exact: after the first early clear there is a continuation with two threads in a section |
| RingHandoff.EarlyClearHappens | engine/src/aura.c:233-245 | with two or more claimants such a clear can come |
| RingHandoff.TwoInside | engine/src/aura.c:233-253 | so every ring with two or more claimants has a run from start with two threads in a section |
| RingHandoff.WaitEnds | engine/src/aura.c:243-253 | the waits of a claimant end: with the flag cleared, after at most three further steps of the first owner in a lock the count that is waited for is zero, and stays zero |
| RingHandoff.EntersAlone | engine/src/adaptive_ring.h:488-524 | a thread in a lock, wherever it is, gets into the section within five steps of its own if the mutex is free and nobody comes between |
| RingHandoff.ReturnsFromSection | engine/src/adaptive_ring.h:488-524 | a lock comes back only from the section, or, when it only tries, because the mutex is taken; the section is entered with the mutex, or without it while the flag is still set on the second look |
| RingHandoff.LaneStepKeeps | engine/src/adaptive_ring.h:488-524 | loading, raising, re-checking, falling back, locking and leaving keep: only the first owner is ever a lock-free user, and not inside once a claimant has seen zero |
| RingHandoff.StepKeeps | engine/src/aura.c:233-253 | every step of every claim keeps the invariant |
| IoCtxFreeList.PopIsClean | tools/BFFIO/workload.c:105-116 | a successful swap takes exactly the top of the list, which was in no hands and in no push |
| IoCtxProgress.PushAlone | tools/BFFIO/workload.c:118-124 | a push, wherever it is in its loop, puts its slot on top within four steps if it runs alone: a failed swap starts over with the head it has seen |
| IoCtxProgress.PopAlone | tools/BFFIO/workload.c:105-116 | and the pop takes the slot on top within four, or none if there is none or it has seen none |
| IoCtxProgress.NobodyWaits | tools/BFFIO/workload.c:105-124 | every state that a pool with one popping thread reaches is such a state |
| IoCtxFreeList.SwapOutKeeps | tools/BFFIO/workload.c:109-112 | if the head is what the popper loaded, its successor is too |
| IoCtxFreeList.StoreNextKeeps | tools/BFFIO/workload.c:118-124 | linking a slot in a push disturbs neither the list nor the popper |
| IoCtxFreeList.SwapInKeeps | tools/BFFIO/workload.c:118-124 | a successful push puts its slot on top, a failed one starts over with the head it saw |
| PoolShutdown.ShardsOutliveUsers | engine/src/adaptive_buffer.c:589-601 | in every run, a thread between entering and leaving, or flushing from its destructor, finds the shards alive, and the destroyer has not got past waiting for users |
| PoolShutdown.NoLateRegistration | engine/src/adaptive_buffer.c:317-381 | once the destroyer has seen no registration in flight no thread is on its way to push a cache, and after the final detach the list stays empty |
| PoolShutdown.NeverFreedTwice | engine/src/adaptive_buffer.c:522-572 | no cache struct is freed twice; and none is freed while its owner has it under its key, registers it, refills, flushes, pops, stores or destroys it, or the destroyer is at it, with one exception: the destroyer about to read `owner_thread` of a cache that it has left to a living thread |
| PoolShutdown.ReadIsSafeExactly | engine/src/adaptive_buffer.c:770-795 | the exception, exactly: at that read the struct is there in every continuation if and only if the destroyer saw that the owner had exited or is the owner |
| PoolShutdown.ReadAfterFree | engine/src/adaptive_buffer.c:776-778 | a run of two threads after which the destroyer is about to read a struct that has been freed |
| PoolShutdown.FreedExactlyOnce | engine/src/adaptive_buffer.c:745-802 | after destruction the struct of every thread that has exited, and the destroyer's own, has been freed exactly once if there was one |
| QuietShutdown.DestroyIsSafeExactly | engine/src/adaptive_buffer.c:826-834 | for the caller: from the moment a pool is destroyed no struct is ever used after it has been freed, whatever the threads do, if and only if at that moment every other thread has no cache and is not making one, or has marked its cache as exited or holds its mutex to do so; then the books of the caches balance too (when exactly they do is `QuietBooks.BooksAreSafeExactly`) |
| QuietShutdown.StayingIsUnsafe | engine/src/adaptive_buffer.c:745-802 | the other half: with one other thread staying there is a schedule, through all waits and locks, in which its struct is read after it has been freed |
| QuietShutdown.NeverStuck | engine/src/adaptive_buffer.c:698-834 | no deadlock: some thread or the destroyer can step until all threads are gone and a shutdown that has begun is over |
| QuietBooks.BooksAreSafeExactly | engine/src/adaptive_buffer.c:844-864 | for the caller: from the moment a pool is destroyed no buffer is ever freed and handed out, whatever the threads do, if and only if at that moment no other thread is between its check, or its refill, and its pop on a cache that holds something, or in the shards with a cache |
| QuietBooks.TakingIsUnsafe | engine/src/adaptive_buffer.c:844-864 | the other half: with one such thread there is a schedule, through all waits and locks, in which a buffer is freed and handed out |
| QuietBooks.StillKept | engine/src/adaptive_buffer.c:836-864 | in a destroyed pool no thread begins to take from its cache, and where none is taking the destroyer overtakes nobody |
| ShutdownBound.ShutdownEnds | engine/src/adaptive_buffer.c:698-834 | a shutdown among `n` threads takes at most `8 n + 7` steps of the destroyer, waits not counted, whatever the threads do meanwhile; the steps still ahead are none exactly when it is over |
| ShutdownBound.ThreadsAddNothing | engine/src/adaptive_buffer.c:698-737 | no step of a thread gives the destroyer more to do: once it has waited for registrations its list does not grow |
| ShutdownChecks.ChecksExactly | engine/src/adaptive_buffer.c:589-601 | in every run: a thread at one of its checks goes on, to make a cache, keep it, use the shards, store its buffers or flush them, if and only if no destroy has begun, and turns back otherwise |
| ShutdownChecks.CallsExactly | engine/src/adaptive_buffer.c:251-300 | an allocation takes from the cache, and a cache is made, only until then |
| CacheLedger.NoBufferLeftBehind | engine/src/adaptive_buffer.c:201-239 | as long as the destroyer does not start to empty a cache that holds something while its owner is between its check and its pop: in every state no more buffers have left a cache than came in, and one that is freed, orphaned or without its owner is empty |
| CacheLedger.OvertakingBreaksIt | engine/src/adaptive_buffer.c:844-864 | the condition is exact: once it has, there is a continuation in which a buffer is freed and handed out |
| CacheLedger.FreedAndHandedOut | engine/src/adaptive_buffer.c:844-848 | a run of two threads that does it |
| CacheLedger.BooksKept | engine/src/adaptive_buffer.c:395-501 | every step that overtakes nobody keeps the count of a cache equal to what has come in less what has gone out |
| ShutdownMachine.StepKeeps | engine/src/adaptive_buffer.c:698-833 | every step of every thread and of the destroyer keeps the invariant |
| ShutdownMachine.QuietKept | engine/src/adaptive_buffer.c:698-737 | a counter seen at zero after `destroyed` is set guards for good: who comes later finds the flag and leaves |
| ShutdownMachine.GoKeeps | engine/src/adaptive_buffer.c:522-572 | a thread's own step keeps what is known of its cache, on both sides of the race for the mutex |
| ShutdownMachine.DestroyerAtCache | engine/src/adaptive_buffer.c:745-802 | locking, reading, freeing, clearing, orphaning, unlocking and disposing of a cache each keep what is known of it; who frees it is decided under the mutex |
| ManagedBuffers.ManagedBuffers.Free | engine/src/aura.c:2338-2344 | a tracked free returns the buffer to the class it came from, on top of the thread's own stack if it has a cache, and with room there changes no other stack and no total; any other address goes to the heap, which keeps the pool sound if and only if the address is NULL, the user's or not a buffer of the pool's |
| ManagedBuffers.ManagedBuffers.DoubleFree | engine/src/adaptive_buffer.c:1224-1236 | the failing case: after a second free the heap has the buffer and it is on top of the stack that serves the thread's next allocation of the class |
| BufferPool.LostOnStack | engine/src/adaptive_buffer.c:1224-1236 | a buffer that the heap takes back while a stack holds it breaks the bookkeeping of the pool |
| BufferPool.Pool.HeapTakes | engine/src/adaptive_buffer.c:1228-1231 | giving an address that is not the user's to the heap keeps the pool sound exactly if it is not a live buffer |
| BufferPool.Pool.GetThreadCache | engine/src/adaptive_buffer.c:251-384 | in a pool that is alive and the only one of the thread: a thread keeps the cache it has and otherwise gets an empty one for the next shard in turn or, without memory, none |
| PoolShard.Shard.OnlyTheMarkRefuses | engine/src/adaptive_buffer.c:1038-1046 | when the high-water mark is the number of slots, a shard below it has a free slot |
| IoCtxFreeList.SoundExactly | tools/BFFIO/workload.c:79-124 | for every capacity and every number of threads: the links from the head end, visit no slot twice and are the list, and every slot is on it, in one owner's hands or in one pending push, after every run, if and only if at most one thread pops, none pushes, or there is at most one slot |
| IoCtxFreeList.FreeListIsSound | tools/BFFIO/workload.c:79-124 | the case of at most one popper and any number of pushers |
| IoCtxFreeList.RunStill | tools/BFFIO/workload.c:79-124 | the case without pushers or with one slot: no link ever changes |
| IoCtxFreeList.TwoPoppersBreakIt | tools/BFFIO/workload.c:105-116 | otherwise: a run, for every such pool, after which one slot has been handed out twice |
| RingMachine.PutKeeps | engine/src/adaptive_ring.c:386-411 | a slot in the pool or pending is left alone, any other goes back, whatever index is given |
| RingMachine.HandleKeeps | engine/src/adaptive_ring.c:763-836 | a completion of a pending request makes the first callback and ends the pendency; of any other request it changes nothing |
| RequestRing.RequestRing.ProcessCompletion | engine/src/adaptive_ring.c:763-836 | the slot to retire, or none for a completion without a request or of one that is not pending |
| RequestRing.RequestRing.RetireBatch | engine/src/adaptive_ring.c:849-879 | skips entries without a slot, returns the others in one section and lowers the counter by their number |
| RequestRing.RequestRing.TakeBatch | engine/src/adaptive_ring.c:895-915 | copies out the first CQEs in order, with or without a request, at most a batch |
| RequestRing.RequestRing.ProcessBatch | engine/src/adaptive_ring.c:915-930 | handles every CQE it was given, although callbacks submit and flush and the kernel posts more between them |
| RequestRing.RequestRing.DrainCqes | engine/src/adaptive_ring.c:895-969 | while the kernel goes on posting, a bounded number of times: it ends with an empty completion queue and counts every CQE; what it did is a run of the machine; every completion posted before or during the drain has been handled, its request is no longer pending and has had one callback if it was submitted with one, before or during the drain, and none otherwise; nothing it took is left unhandled |
| RequestRing.AskedFromStart | engine/src/adaptive_ring.c:895-969 | those are the requests that asked for a callback in the whole run since the start |
| RingMachine.PostedIsPastKernel | engine/src/adaptive_ring.c:763-836 | whatever happens after the kernel has posted the completion of a request: the request is accepted and, until it is handled, its slot holds a posted or taken completion |
| RingMachine.RunPastKernel | engine/src/adaptive_ring.c:763-836 | and no second completion is posted for it |
| AimdProperties.PhaseDiscipline | engine/src/adaptive_engine.c:777-834 | over every run, the configuration changing at will: the phase discipline is kept and an engaged controller stays engaged |
| AimdProperties.ExitsNeverTaken | engine/src/adaptive_engine.c:476-577 | at every tick of every run: no exit by plateau, convergence or flat load; SETTLING and STEADY entered in order |
| AimdRuns.SpikeExactly | engine/src/adaptive_engine.c:480-487 | the comment, exactly: at every tick of every run the spike check enters BACKOFF if and only if this is the second rising tick; otherwise the spike count behind it is zero if and only if the tick does not rise, and else one |
| AimdRuns.SpikeReached | engine/src/adaptive_engine.c:480-492 | every legal controller has a run from start to a tick in PROBING that goes on past the check, with samples, at a spike count of one |
| AimdRuns.RaisedFloor | engine/src/aura.c:2968-2981 | after `min_in_flight` has been raised at run time: at the end of a run the limit is at or above the new floor if and only if it was so at its start or the run has a tick in BACKOFF, or one that probes up to the floor |
| AimdRuns.LeastFloorHolds | engine/src/aura.c:2968-2981 | over every run in which the settings change but the queue depth does not: a limit at or above the least floor of the run stays so |
| AimdRuns.UnderFloor | engine/src/adaptive_engine.c:582-605 | one tick with the limit under the floor: it is lifted to the floor by exactly those ticks, and by no tick does it fall |
| AimdRuns.FewNeverEngage | engine/src/adaptive_engine.c:690-745 | without a latency target a controller that never sees more than 135 operations in flight stays in pass-through with the queue depth as its limit, in every run |
| AimdRuns.ManyEngage | engine/src/adaptive_engine.c:690-745 | the number is exact: 136 are enough to engage every legal controller |
| HashPipeline.Pipeline.Run | tools/aura-hash/aura-hash.c:547-577 | total correctness for every order of completions and any bounded number of empty waits: the loop ends, and for every file that can be opened one digest is printed, fed with the whole file; no operation is left |
| CopyPipeline.Pipeline.Run | tools/auracp/auracp.c:788-823 | total correctness for every order of reads, writes and syncs and any bounded number of empty waits: the loop ends, every file that can be opened has been finished exactly once with a destination equal to its source, which with syncing on has reached stable storage, and no operation is left |
| WorkQueue.ScanEnds | tools/atree/atree.c:1024-1096 | a scan that finds `n` directories takes at most seven steps for each and one for each worker |
| WorkQueue.FirstInFirstOut | tools/atree/atree.c:673-747 | whatever the interleaving: what workers are handed, batch after batch, and then what is still queued, is the seeds and what was pushed, in that order |
| WorkQueue.BatchesFit | tools/atree/atree.c:721-747 | no worker is ever handed more than it has room for, nor less unless it has taken all there was |
| AimdProperties.TickKeepsDiscipline | engine/src/adaptive_engine.c:476-577 | a tick under any configuration: in PROBING the limit is the previous one or one more with no plateau counted; SETTLING and STEADY are entered through BACKOFF; the exits by plateau, convergence and flat load are not taken |
| AimdProperties.EngagedForGood | engine/src/adaptive_engine.c:815-834 | from the initial state: once engaged, the controller never returns to pass-through and never converges |
| AimdProperties.LimitsHoldFromStart | engine/src/adaptive_engine.c:302-367 | under every legal configuration and tick sequence: the limit in its range, pass-through mode exactly in its phase and then the maximum, the tuned batch threshold in [2, 64] |
| AimdProperties.TickKeepsBounds | engine/src/adaptive_engine.c:443-453 | one tick: bounds kept, batch threshold moved by at most one, limit raised by at most one |
| AimdProperties.SustainedLatencyReachesFloor | engine/src/adaptive_engine.c:532-543 | under latency that stays high the limit is at the floor after at most 122 deciding ticks and stays there |
| AimdProperties.Sustained | engine/src/adaptive_engine.c:425-437 | the same for every state, with the number of ticks it takes |
| AimdProperties.RisingStep | engine/src/adaptive_engine.c:582-605 | each such tick uses up the budget or is at the floor; BACKOFF and SETTLING alternate |
| AimdProperties.RisingIsTargetBreach | engine/src/adaptive_engine.c:425-437 | with a target, latency rises exactly when there are enough samples and the P99 is at or above the target |
| AimdProperties.CutShrinks | engine/src/adaptive_engine.c:582-597 | a cut takes a limit above the floor strictly down: to the floor or to at most four fifths |
| AimdProperties.CutsBound | engine/src/adaptive_engine.c:582-597 | sixty cuts bring any legal limit to the floor |
| AimdController.Controller.RunTick | engine/src/adaptive_engine.c:671-845 | the object's fields after a tick are the specified function of the fields before and of what was measured; the tick keeps the phase discipline, takes none of the three exits, and keeps the bounds |
| AimdProbing.ProbesExactly | engine/src/adaptive_engine.c:494-527 | from the samples alone, over every run with legal settings and one queue depth: at a tick in PROBING with samples that does not enter BACKOFF the limit rises by one if there is room and the last deciding tick had not raised it, or it had and throughput has grown since by more than one percent of what it is now, or there is a target and a valid P99 below it; in no other case |
| AimdProbing.LastDecision | engine/src/adaptive_engine.c:777-783 | what a controller in PROBING remembers is the throughput of the last tick that decided and the limit which that tick found |
| AimdProbing.GrowthReachesDepth | engine/src/adaptive_engine.c:507-510 | with throughput growing by more than a percent at each tick and latency not rising, every tick raises the limit by one until it is the queue depth |
| AimdProbing.GrowthFromStart | engine/src/adaptive_engine.c:456-510 | the same from start, for every legal controller: after 18 ticks into PROBING and one tick for each further operation |
| AimdProbing.CalmReachesDepth | engine/src/adaptive_engine.c:494-527 | whatever throughput does: with latency not rising no two ticks go by without a raise, so the limit reaches the queue depth all the same |
| AimdProbing.CutIsRecovered | engine/src/adaptive_engine.c:532-605 | after a cut to four fifths, with latency no longer high: ten ticks in SETTLING, a hundred in STEADY, then PROBING again, not a tick sooner or later |
| AimdTracking.EngagedExactly | engine/src/adaptive_engine.c:715-745 | from the samples alone: the controller is engaged if and only if at some time eight ticks in a row have each added more than sixteen operations in flight or missed the target |
| AimdTracking.EngagedStart | engine/src/adaptive_engine.c:626-665 | it starts in BASELINE at the configured limit, or half the depth, at least the floor |
| AimdTracking.WarmsUp | engine/src/adaptive_engine.c:456-471 | and probes after ten ticks, no sooner and no later, at that limit |
| AimdTracking.RisingIsTenfold | engine/src/adaptive_engine.c:105-190 | without a target latency rises exactly when there are twenty samples and their P99 is at least ten times the least of the last fifty P99s of ticks outside BACKOFF and SETTLING, or at least 50 ms if there is no positive one |
| AimdTracking.BatchTick | engine/src/adaptive_engine.c:756-776 | fewer than eight SQEs per submit raise the batch threshold by one while it is below 64, more than twelve lower it while it is above 2, anything else leaves it |
| AimdTracking.BatchFollows | engine/src/adaptive_engine.c:756-776 | over a run of small batches it climbs by one a tick to 64, over a run of large ones it falls to 2 |
| AimdController.Controller.Initialize | engine/src/adaptive_engine.c:302-367 | the initial fields |
| AimdController.Controller.ResetToBaseline | engine/src/adaptive_engine.c:626-665 | engaging clears counters and windows and sets the starting limit |
| AimdController.Controller.HandleProbing | engine/src/adaptive_engine.c:476-527 | in-place PROBING handler, the specified step; what that step does over runs is `AimdProbing.ProbesExactly` |
| AimdController.Controller.HandleSettling | engine/src/adaptive_engine.c:532-550 | in-place SETTLING handler |
| AimdController.Controller.HandleSteady | engine/src/adaptive_engine.c:555-577 | in-place STEADY handler |
| AimdController.Controller.HandleBackoff | engine/src/adaptive_engine.c:582-605 | in-place BACKOFF handler |
| AimdController.Controller.CheckSpikeBackoff | engine/src/adaptive_engine.c:425-437 | two rising ticks in a row enter BACKOFF |
| AimdController.Controller.TuneBatch | engine/src/adaptive_engine.c:756-776 | one step towards the target ratio |
| AimdController.SlidingWindow.Add | engine/src/adaptive_engine.c:29-35 | the ring buffer is the window of the last values |
| AimdController.SlidingWindow.Min | engine/src/adaptive_engine.c:40-49 | the least value of the window |
| AimdController.LeastIs | engine/src/adaptive_engine.c:40-49 | no value of the window is below it |
| AimdController.LeastBelongs | engine/src/adaptive_engine.c:40-49 | and it is one of them |
| LatencyHistogram.BucketHolds | engine/src/adaptive_engine.h:230-247 | a latency lies between the bounds of its bucket and of no other, and has none exactly beyond the range |
| LatencyHistogram.BucketsTile | engine/src/adaptive_engine.h:252-275 | buckets follow one another without gap from 0 to the maximum, the midpoint in the middle |
| LatencyHistogram.ScanStops | engine/src/adaptive_engine.c:220-262 | the level at which the scan from the top stops is that of the k-th largest sample |
| LatencyHistogram.DescendingSorts | engine/src/adaptive_engine.c:220-262 | the reference order is a descending permutation of the samples |
| LatencyHistogram.Histogram.Record | engine/src/adaptive_engine.c:205-218 | counts the sample in its bucket, or as overflow |
| LatencyHistogram.Histogram.P99 | engine/src/adaptive_engine.c:220-262 | is what is reported for the k-th largest sample, and nothing without samples |
| LatencyHistogram.P99Exactly | engine/src/adaptive_engine.c:226-256 | by counting samples: the reported level is the highest that one sample in a hundred, rounded down, reaches; with fewer than a hundred samples, one in twenty, rounded up |
| LatencyHistogram.ReportedValue | engine/src/adaptive_engine.c:238-256 | reported is the middle of the bucket, or 200 ms for a sample beyond the range, more than for any within |
| LatencyHistogram.HistogramPair.SwapAndRead | engine/src/adaptive_engine.c:73-103 | reports the P99 of exactly the samples recorded since the previous swap |
| LatencyHistogram.HistogramPair.SwapAndDrop | engine/src/adaptive_engine.c:652-660 | the swap of the reset to baseline also starts an empty period |
| LatencyHistogram.HistogramPair.Record | engine/src/adaptive_engine.c:205-218 | adds one sample to the current period |
| HashPipeline.NeverStalls | tools/aura-hash/aura-hash.c:469-577 | while a file is not finished some slot is being read: parked slots never block the pipeline |
| HashPipeline.Pipeline.Drain | tools/aura-hash/aura-hash.c:405-438 | feeds in file order until the slot at the hash offset is still being read; finishes the file if that was all |
| HashPipeline.Pipeline.OnReadComplete | tools/aura-hash/aura-hash.c:440-463 | a full read, in any order, keeps digest and tiling and brings the end closer |
| HashPipeline.Pipeline.SubmitNextRead | tools/aura-hash/aura-hash.c:469-538 | a free slot gets the next part, a whole chunk or the rest, of the first file that has any left, whose record moves on by as much; files passed over on the way have nothing left, later ones are untouched; the slot stays free only if no file has anything left |
| HashPipeline.FeedKeeps | tools/aura-hash/aura-hash.c:415-427 | the digest stays exactly the prefix of the file up to the hash offset, the slots in use tile the rest up to the read offset |
| HashPipeline.ArriveKeeps | tools/aura-hash/aura-hash.c:458-463 | a read that arrives fits the gap it was made for |
| HashPipeline.SubmitKeeps | tools/aura-hash/aura-hash.c:507-538 | a new read extends the tiling |
| HashPipeline.FinishKeeps | tools/aura-hash/aura-hash.c:430-437 | a file is finished with the whole file fed, and once |
| HashPipeline.FirstInFlight | tools/aura-hash/aura-hash.c:415-416 | the slot at the hash offset is the first in flight, and no other is |
| CopyPipeline.NeverStalls | tools/auracp/auracp.c:788-823 | while a file is not done something is in flight |
| CopyPipeline.Pipeline.OnWriteComplete | tools/auracp/auracp.c:641-672 | the record of the file takes the part in and the slot is free; the last write of a file finishes it, with a destination equal to its source and in the same slot: if syncing is on it goes to the sync, or, when none could be submitted, the file is synced at once; no other slot or file changes; `active_ops` stays the number of slots in use |
| CopyPipeline.Pipeline.OnReadComplete | tools/auracp/auracp.c:520-566 | the slot becomes a write of the same part, which holds what the file holds there, padded with zeros to a whole sector under O_DIRECT; nothing else changes |
| CopyPipeline.Pipeline.OnFsyncComplete | tools/auracp/auracp.c:568-589 | the file has reached stable storage, equal to its source; it is closed and done, its slot is free, and nothing else changes |
| CopyPipeline.Pipeline.FinishTask | tools/auracp/auracp.c:591-639 | trimmed under O_DIRECT; done unless a sync is to come, and then synced unless syncing is off |
| CopyPipeline.FinishSyncs | tools/auracp/auracp.c:611-638 | with syncing on no record is marked done before what the destination holds is stable |
| CopyPipeline.Pipeline.SubmitNextRead | tools/auracp/auracp.c:708-779 | a free slot gets the next part, a whole chunk or the rest, of the first file that has any left, whose record moves on by as much; files passed over on the way have nothing left, later ones are untouched; the slot stays free only if no file has anything left |
| CopyPipeline.LastWriteKeeps | tools/auracp/auracp.c:664-671 | when the last part has been written the destination is the source, padding trimmed off |
| CopyPipeline.PutCovers | tools/auracp/auracp.c:641-672 | a write puts the right bytes in its place and, but for padding past the end, touches no other |
| CopyPipeline.ReadKeeps | tools/auracp/auracp.c:536-549 | padding only past the end of the file |
| CopyPipeline.SubmitKeeps | tools/auracp/auracp.c:741-779 | every byte asked for is in flight or in the destination |
| WorkQueue.DoneMeansAllScanned | tools/atree/atree.c:1052-1091 | when `done` is signalled every directory ever found has been scanned exactly once and nothing is queued, held or owed |
| WorkQueue.NeverTwice | tools/atree/atree.c:1052-1091 | no directory is scanned twice, and a worker leaves only when all is done |
| WorkQueue.NeverStuck | tools/atree/atree.c:719-747 | until all workers have left one of them can step: nobody waits for a signal that does not come |
| WorkQueue.CounterKept | tools/atree/atree.c:1080-1091 | `pending` is the directories queued, popped and not discounted, or counted and not pushed |
| WorkQueue.EachOnceKept | tools/atree/atree.c:673-747 | each directory found is on the queue, in one worker's hands or scanned, once |
| WorkQueue.SignalKept | tools/atree/atree.c:1086-1091 | only a zero counter is signalled, and a zero counter is |
| WorkQueue.InitKeeps | tools/atree/atree.c:1159-1169 | the seeded queue |
| TreeAggregate.Aggregate | tools/atree/atree.c:1231-1294 | the loop over the explicit stack ends, gives every node of an arbitrary finite tree the totals of the recursive fold over its subtree, and writes nowhere else |
| TreeAggregate.FoldCountsNodes | tools/atree/atree.c:1231-1294 | the fold counts every node below a directory once |
| TreeAggregate.FoldIsSum | tools/atree/atree.c:1231-1294 | the totals of a directory are the number and the sizes of all files below it and the number of all directories below it, by a list of the nodes |
| TreeAggregate.BelowListsAll | tools/atree/atree.c:1231-1294 | that list misses no node below and has none twice |
| TreeAggregate.NodeDone | tools/atree/atree.c:1281-1290 | a finished directory is added to the one that waits for it |
| TreeAggregate.FileDone | tools/atree/atree.c:1263-1267 | a file is added at once |
| TreeAggregate.ChildPushed | tools/atree/atree.c:1269-1279 | a subdirectory is put on the stack |
| TreeAggregate.Counting | tools/atree/atree.c:1241-1292 | every round leaves fewer rounds |

## Left out

- io_uring system calls, eventfd, clocks, CPU detection, thread creation and logging: steps or parameters.
- Weak memory orderings: all atomics are sequentially consistent.
- Floating point: measurements are reals, NaN and the P99 of -1 are `None`, and `floor(limit * 0.80)` is `limit * 4 / 5`; counters do not wrap.
- AimdController.Controller.RunTick: takes the count and the P99 of the swapped histogram as inputs; `LatencyHistogram` proves what they are. The sliding windows of P99 and throughput that are stored and never read, and setters used while the controller runs, are left out.
- AimdProperties.LimitsHoldFromStart: for a configuration that does not change; `AimdRuns` has what a floor that is raised at run time does.
- LatencyHistogram.HistogramPair.SwapAndRead: recorders do not race the tick; latencies fit an int in microseconds.
- BufferSizeMap: the hash is any function; the lock makes every operation one step.
- RingMachine: one CQE for each SQE the kernel consumes, and further ones only for requests that are not pending; the weak compare-and-swap loop that lowers `queued_sqes` is one step; the path of `aura_read` with a registered buffer whose `AURA_FIXED_FILE` check fails (engine/src/aura.c:640-643), the paths without a lock for rings owned by one thread, linked SQEs, cancellation and link timeouts are not part of this model.
- RequestRing.RequestRing.DrainCqes: other threads do not use the ring while it drains, except through what a callback may do; the kernel posts while callbacks run.
- DeferredUnregistration: registered buffers only; registered files follow the same pattern. The single-thread path that does not take the lock is left out.
- ShutdownMachine: threads that use one pool, and a thread-exit key that could be created; the compare-and-swap loop that pushes a cache is one step, and so is a section in the shards. The count of one size class stands for the sixteen.
- BufferPool: operations are whole, one after another, before the pool is destroyed; `ShutdownMachine` has the interleavings of the shutdown. The two arrays of a thread cache are one stack per class. The destruction of shards is left out.
- BufferPool.Pool.GetThreadCache: has no path for a pool that is destroyed, which `ShutdownMachine` has, or for a thread with the cache of another pool.
- BufferPool.Pool.Free: asks, as the source does in its documentation, for a size of the class the buffer was asked for with; a tracked free asks for nothing.
- RingHandoff: sections of threads whose claim has finished; the unlocked fast path in `submit_begin` is left out.
- IoCtxFreeList: what the callers do with a slot is left out; a slot is given back only by who holds it.
- HashPipeline.Pipeline.Run: runs with finitely many empty waits, without read errors, short reads, failed submissions or interruption; files do not change; at least one slot. `aura_read` runs no callback inside the call: it would if the ring could not accept another operation (engine/src/aura.c:799-805, 825-829), which at most 64 slots do not bring about (`AimdRuns.FewNeverEngage`). The loop that waits for remaining operations is not needed, because none remain.
- CopyPipeline.Pipeline.Run: as for hashing, also for `aura_write` (engine/src/aura.c:799-805, 825-829), and writes take all they are given; with syncing on, no file is empty (the slot of an empty file is used again while its sync is in flight). Time stamps, modes and partial-file cleanup are left out; the destination changes when its write completes.
- WorkQueue: workers that own an engine, no interruption; what a scan finds is arbitrary. The linked list of the queue and the item pools are sequences.
- TreeAggregate.Aggregate: memory does not run out, totals do not wrap; nodes are places in an array.
- atree's visited set, sorting and output, the C++ and Rust bindings, BFFIO's statistics and job parser, and all command-line handling: not modelled.
