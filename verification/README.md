# libdispatch: list, queue state, allocator, parallel-for, data and order graph

A Dafny model of six parts of libdispatch, and proofs of what they keep.  `dafny verify dfyconfig.toml` checks
everything.

* **The multi-producer / single-consumer list** (`MpscQueue`, `MpscInvariant`, `MpscTheorems`, `MpscMacros`).  A state
  machine with one step per access to `head`, `tail` or a `next` pointer, any number of producers pushing lists, and one
  consumer that pops, puts back, captures, walks and prepends.  `MpscMacros.List` is the macros as code over the shared
  words; a call of `Interfere` or `Others` stands for any run of the other threads.
* **The `dq_state` word** (`QueueState`, `QueueWidth`).  The word as bit fields, tied to the 64-bit numbers the code
  compares and adds to; who holds width, and reader/writer exclusion over all runs; the retry loops under interference.
* **The continuation allocator** (`AllocatorBitmaps`, `AllocatorSupermaps`, `AllocatorHeapRace`, `AllocatorMagazine`,
  `AllocatorHeaps`, `AllocatorLayout`).  Concurrent allocation, free and page reclaim on shared bitmaps; when the
  supermaps are right; the race to extend the chain of heaps; the two-level search and the chain as a plain set of
  continuations in use; the address arithmetic.
* **`dispatch_apply`** (`ApplyProtocol`, `ApplyTheorems`, `ApplyInvoke`, `ApplyRedirect`).  The participants of a fan-out
  in every schedule; `_dispatch_apply_invoke2` as code; which plan, with how many
  threads; the width reservation along a chain of
  target queues, with its roll-back.
* **`dispatch_data`** (`DataRope`, `DataTraversal`, `DataStore`, `DataFlatten`).  Leaves, trivial subranges, composites and flattened
  composites against the flat bytes they stand for; traversal, regions and maps; reference counts and disposal; the race
  to cache a flat buffer.
* **The queue-order graph** of the introspection library (`QueueOrder`).  Recording, the recursive check, disposal.

`Common` holds what several of these use.

Conventions.  Interleavings are sequentially consistent.  A `Reachable` state is one after any finite run from the initial
state; the step relations are total functions of the action, so "every run" means every sequence of enabled actions.
Methods that run under interference call a method with an empty body (`Interfere`, `Others`): its contract is all the
caller learns, and a lemma beside it (`ProducersRely`, `OthersRely`, `OthersReplay`, `CachedMemory`) proves that any run
of the other threads meets that contract.

Five findings.

* `mark_bitmap_as_full_if_still_full` (allocator.c:270-293) tests the bitmap again only after a failed compare-and-swap,
  and a free clears the mark in an access of its own (allocator.c:589-592).  So a supermap bit can end up wrong both ways:
  set for a bitmap that is not full (`AllocatorSupermaps.SupermapCanBeStale`) and clear for one that is
  (`SupermapCanMissFull`).  `ExactAtRest` says exactly when it is right; `LateMarkFollowsFree` and `LateClearFollowsMark`
  say which overlap is behind each.  Ownership never depends on it (`AllocatorBitmaps.ReachableInv`).
* `_dispatch_queue_try_reserve_sync_width` (inline_internal.h:1069-1083) adds a unit whatever the width bits hold.  It
  disturbs IN_BARRIER exactly when all sixteen are ones (`QueueWidth.SyncCarriesIntoBarrier`), and such a word is reached
  by sync reservations alone (`SyncCarryReached`).
* The comment above `dispatch_data_copy_region` (data.c:681) promises a leaf or a part of one.  It is that except exactly
  for a flattened composite, which is returned itself (`DataStore.Store.CopyRegion`); `RegionOfFlattened` makes one.  The
  comment in `_dispatch_apply_redirect` (apply.c:214-217) speaks of the first queue in the chain with an autorelease
  frequency; the code asks the first queue only.  The two agree exactly when the first queue has a frequency or none has
  (`ApplyRedirect.FirstOnly`, `Redirect`), and `SecondFrequencyMissed` is a chain on which they do not.  The model follows
  the code in both.
* `_dispatch_queue_try_reserve_apply_width` (inline_internal.h:1090-1109) does not look at a pending barrier, as the other
  two reservations do.  So the readers of a queue with a barrier pending only leave, but for a `dispatch_apply` that takes
  the one unit the reservation leaves when nobody holds any (`QueueWidth.PendingDrains`); the barrier then waits for it too.
  The limit of the nesting number (apply.c:228) keeps nested `dispatch_apply` calls within the processors exactly as long as
  these are fewer than twice the limit (`ApplyRedirect.AllThreadsFit`, `AllThreadsOverflow`).
* `_dispatch_introspection_order_record` does not look whether both queues have the same bottom target.  If so it reports
  nothing and records a loop, and a later search that comes to it takes a lock it holds (`QueueOrder.SameBottomTarget`).
  `Order.Record` says that this is the only way the graph gets a cycle.

## Model

| member | source | states |
|---|---|---|
| MpscInvariant.StepInv | libdispatch_sourceCode/src/inline_internal.h:1293-1373 | every step of any thread keeps the list invariant: a chain from head to tail whose gaps are exactly the stores producers still owe |
| MpscTheorems.ReachableInv | libdispatch_sourceCode/src/inline_internal.h:1293-1373 | the invariant holds after every interleaving of any number of producers and the consumer |
| MpscTheorems.StreamStep | libdispatch_sourceCode/src/inline_internal.h:1293-1373 | only the tail exchange and a prepend add to the logical order, at its end and at the consumer's place; only finishing a pop takes from it, its first node |
| MpscTheorems.StreamIsExchangeOrder | libdispatch_sourceCode/src/inline_internal.h:1295-1301 | the logical order is the order of the tail exchanges, each pushed list whole |
| MpscTheorems.Fifo | libdispatch_sourceCode/src/inline_internal.h:1293-1334 | over every run: what the consumer got is a prefix of the pushed lists in exchange order, the rest is still there in that order, so nothing is lost, doubled or split |
| MpscTheorems.PendingLinkTarget | libdispatch_sourceCode/src/inline_internal.h:1296-1299 | a pending store to prev->next has a target that is still queued or captured, not in the consumer's hand, in no other producer's list, unlinked, and awaited by one producer only |
| MpscTheorems.OneHeadStoreOwed | libdispatch_sourceCode/src/inline_internal.h:1300-1311 | at most one producer owes the head store, head is NULL then, and it owes the first node |
| MpscTheorems.ConsumerHeadStoreSafe | libdispatch_sourceCode/src/inline_internal.h:1326-1332 | when the consumer stores to head no producer owes a head store, and head holds what the consumer last saw: no producer's store is overwritten |
| MpscTheorems.QuietGrowth | libdispatch_sourceCode/src/inline_internal.h:1336-1373 | whatever is going on, the live nodes only grow, at the end, by what is pushed |
| MpscTheorems.UndoRestores | libdispatch_sourceCode/src/inline_internal.h:1336-1344 | after undo_pop_head, under concurrent pushes, the queue is the popped node, then the old queue, then what was pushed meanwhile |
| MpscTheorems.PrependInFront | libdispatch_sourceCode/src/inline_internal.h:1364-1373 | prepend puts its list in front, whole, under concurrent pushes |
| MpscTheorems.CaptureTakesAll | libdispatch_sourceCode/src/inline_internal.h:1346-1355 | capture_snapshot takes everything up to the tail it exchanged and leaves the queue empty |
| MpscTheorems.WalkYieldsSnapshot | libdispatch_sourceCode/src/inline_internal.h:1357-1362 | walking a snapshot with pop_snapshot_head yields all of it in order |
| MpscTheorems.ProducersNeverWait | libdispatch_sourceCode/src/inline_internal.h:1293-1311 | the next access of every producer is always possible |
| MpscTheorems.ConsumerProgress | libdispatch_sourceCode/src/inline_internal.h:1317-1334 | a consumer that spins waits for a store that a named producer owes and can make at once, and goes on after it |
| MpscMacros.ProducersRely | libdispatch_sourceCode/src/inline_internal.h:1313-1373 | what the consumer's code may rely on across any run of producer steps |
| MpscMacros.OthersRely | libdispatch_sourceCode/src/inline_internal.h:1293-1311 | what a producer's code may rely on across any run of everybody else's steps |
| MpscMacros.List.ClearLast | libdispatch_sourceCode/src/inline_internal.h:1295 | the list's last next pointer is NULL and the list is still private |
| MpscMacros.List.ExchangeTail | libdispatch_sourceCode/src/inline_internal.h:1296 | the exchange returns the last node of the queue as it was, and puts the list behind it |
| MpscMacros.List.PushUpdateTailList | libdispatch_sourceCode/src/inline_internal.h:1293-1302 | returns true exactly when the queue was empty in the state the exchange met, which lies between entry and return; there the list went in whole behind what was queued; when true this producer owes the head store |
| MpscMacros.List.PushUpdateHead | libdispatch_sourceCode/src/inline_internal.h:1309-1311 | the owed head store is made; the producer is done |
| MpscMacros.List.GetHead | libdispatch_sourceCode/src/inline_internal.h:1317-1321 | returns the first node of a queue that is not empty |
| MpscMacros.List.PopHead | libdispatch_sourceCode/src/inline_internal.h:1323-1334 | takes out the head and nothing else: what was queued behind it, and what is pushed meanwhile, stays in order; a result other than NULL is the new head |
| MpscMacros.List.UndoPopHead | libdispatch_sourceCode/src/inline_internal.h:1336-1344 | the popped node is first again, followed by the queue |
| MpscMacros.List.Prepend | libdispatch_sourceCode/src/inline_internal.h:1364-1373 | the list is first, followed by the queue |
| MpscMacros.List.CaptureSnapshot | libdispatch_sourceCode/src/inline_internal.h:1346-1355 | returns first and last node of all that was queued at the tail exchange |
| MpscMacros.List.PopSnapshotHead | libdispatch_sourceCode/src/inline_internal.h:1357-1362 | takes the first node of the snapshot; returns the next one, or NULL after the last |
| MpscMacros.List.DrainSnapshot | libdispatch_sourceCode/src/queue.c:4583-4590 | the drain loop delivers the captured nodes, all of them, in order |
| QueueState.RawIsInjective | libdispatch_sourceCode/src/queue_internal.h:169-405 | a word of bit fields is determined by its 64-bit number |
| QueueState.NumericTests | libdispatch_sourceCode/src/inline_internal.h:720-836 | what the comparisons with NEEDS_ACTIVATION, IN_BARRIER and WIDTH_FULL_BIT say about the fields |
| QueueState.PlusWidthIsAddition | libdispatch_sourceCode/src/inline_internal.h:1107-1120 | adding or subtracting units on the fields is 64-bit addition, with the carry out of the width bits and the wrap-around |
| QueueState.ReserveApply | libdispatch_sourceCode/src/inline_internal.h:1090-1109 | reserves what is asked if there is that much below the limit, else what there is, and does nothing else to the word |
| QueueState.SyncWord | libdispatch_sourceCode/src/inline_internal.h:1069-1083 | a synchronous reader gets in exactly on a word not suspended, dirty, in a barrier or with one pending, and adds one unit |
| QueueState.AsyncWord | libdispatch_sourceCode/src/inline_internal.h:1127-1141 | an asynchronous one likewise, and only below the width limit |
| QueueState.DrainLockWord | libdispatch_sourceCode/src/inline_internal.h:972-1015 | the lock is had exactly on a runnable word nobody drains: then the owner is the thread, ENQUEUED flips unless stealing, DIRTY goes, the override stays, the width is full, IN_BARRIER as the width decides; else ENQUEUED flips, or nothing changes when stealing |
| QueueState.SumTest | libdispatch_sourceCode/src/inline_internal.h:1006-1008 | the 64-bit comparison with the full bit compares the width bits alone |
| QueueState.MinusIsSubtraction | libdispatch_sourceCode/src/inline_internal.h:1190-1190 | giving back what is owned on the fields is the 64-bit subtraction |
| QueueState.DrainUnlock | libdispatch_sourceCode/src/inline_internal.h:1173-1219 | refused exactly when DIRTY is set and the queue is not suspended, and then only DIRTY is cleared; else the owner is gone, exactly what was owned is given back, and what becomes of the dirty, override and waiters bits |
| QueueState.DrainTransfer | libdispatch_sourceCode/src/inline_internal.h:1226-1260 | the lock goes to the given thread, or to nobody; exactly what was owned is given back; the waiters bit stays or flips |
| QueueState.FullWidthIsAddition | libdispatch_sourceCode/src/queue.c:3781-3790 | adding the whole width, or using up a pending barrier's reservation, on the fields of a runnable word is the 64-bit addition |
| QueueState.CompleteWord | libdispatch_sourceCode/src/queue.c:3769-3797 | after a reader has left: the lock and the whole width are the leaving thread's exactly when nobody drains and no other unit is out, a pending barrier's reservation apart; DIRTY is set when the queue comes below its limit |
| QueueState.ResumeWord | libdispatch_sourceCode/src/queue.c:1636-1667 | after a resumption: likewise, when it lifts the last suspension |
| QueueState.RequeueWord | libdispatch_sourceCode/src/inline_internal.h:1690-1718 | after a drain: the lock stays for an upgrade to the whole width, or goes; then the queue is marked enqueued and dirty exactly when it could be drained and nobody is to do so |
| QueueState.SlowWakeupWord | libdispatch_sourceCode/src/queue.c:5254-5294 | a slow waiter leaves its mark on a lock, takes a lock nobody has exactly when nobody holds width or a barrier is pending, else has the queue drained |
| QueueWidth.StepInv | libdispatch_sourceCode/src/inline_internal.h:972-1219 | every reservation, release, completion, resumption, slow wakeup, drain lock, drain step, hand-over, unlock and upgrade keeps: width bits = unused width + units held + a pending barrier's reservation + what the drainer owns; and the owner in the word is the thread that took the lock or was handed it |
| QueueWidth.LockIsBarrierIffAlone | libdispatch_sourceCode/src/inline_internal.h:1005-1011 | the drain lock sets IN_BARRIER exactly when no other party holds width, in the pending-barrier case and in the sum test |
| QueueWidth.LockReturnsOwned | libdispatch_sourceCode/src/inline_internal.h:1017-1023 | the number drain_try_lock returns is the barrier bit and the width newly taken, a pending reservation left out |
| QueueWidth.BarrierExcludes | libdispatch_sourceCode/src/inline_internal.h:1037-1141 | over every run: while IN_BARRIER is set nobody else holds width, and sync, async, apply, barrier and drain-lock attempts all fail |
| QueueWidth.BarrierNeedsLock | libdispatch_sourceCode/src/inline_internal.h:972-1046 | nothing sets IN_BARRIER but the drain lock, a barrier acquisition, a slow waiter's lock, the completion that gives back the last unit, the resumption that lifts the last suspension, and a drainer's upgrade |
| QueueWidth.BarrierStartsAlone | libdispatch_sourceCode/src/inline_internal.h:1692-1718 | over every run: IN_BARRIER is set only when no width is held but the unit the same update gives back, and nobody drains but the drainer that upgrades; who set it then owns the whole width |
| QueueWidth.TakesExactlyWhenAlone | libdispatch_sourceCode/src/queue.c:3773-3797 | when the completion, the resumption and the upgrade take the whole width: exactly when nobody else holds any, nobody else drains and the queue is not (any more) suspended, for the upgrade with a barrier next and queue wider than 1 |
| QueueWidth.UpgradeExample | libdispatch_sourceCode/src/inline_internal.h:1694-1703 | for every queue width from 2 on, a run after which the upgrade fires |
| QueueWidth.ReserveWithinWidth | libdispatch_sourceCode/src/inline_internal.h:694-703 | over every run: async and apply reservations, the drainer's own among them, never go beyond the queue's width |
| QueueWidth.UsedWidthExact | libdispatch_sourceCode/src/inline_internal.h:705-718 | over every run: _dq_state_used_width is the width in use, a pending barrier's reservation left out |
| QueueWidth.AvailableWidthExact | libdispatch_sourceCode/src/inline_internal.h:694-703 | over every run: _dq_state_available_width is what the queue's width leaves beside the units held, the drainer's and a pending barrier's reservation, 0 beyond the limit; dispatch_apply gets the smaller of that and what it asks for |
| QueueWidth.PendingRefuses | libdispatch_sourceCode/src/inline_internal.h:1069-1141 | over every run: while a barrier is pending no synchronous or asynchronous reader gets in, nobody drains, and the drain lock can be had exactly when no reader is left and the queue is not suspended |
| QueueWidth.PendingDrains | libdispatch_sourceCode/src/inline_internal.h:1090-1109 | so from step to step readers only leave; except for a dispatch_apply that takes the one unit the reservation leaves when nobody else holds any |
| QueueWidth.UnlockReserves | libdispatch_sourceCode/src/inline_internal.h:1150-1163 | an unlock leaves a barrier pending exactly when the next item is one and the queue is wider than 1 |
| QueueWidth.DirtyNotLost | libdispatch_sourceCode/src/inline_internal.h:1166-1219 | over every run: a width or lock update that clears DIRTY leaves the queue locked, so that its holder looks again, or is a hand-over; updates of flags alone are left open |
| QueueWidth.WidthReturns | libdispatch_sourceCode/src/inline_internal.h:1114-1219 | over every run: with nothing held the width bits are those the queue started with |
| QueueWidth.SyncCarriesIntoBarrier | libdispatch_sourceCode/src/inline_internal.h:1069-1083 | a sync reservation looks at no width bit: it carries into IN_BARRIER exactly when the sixteen width bits are all ones |
| QueueWidth.SyncCarryReached | libdispatch_sourceCode/src/inline_internal.h:1069-1083 | for every queue width from 2 to 0x7ffe: 0x7fff + width sync reservations on a new queue lead to the all-ones width bits, and the next one sets IN_BARRIER with all of them still in |
| QueueWidth.DispatchQueue.TryReserveSyncWidth | libdispatch_sourceCode/src/inline_internal.h:1069-1083 | the retry loop under interference: takes effect once, on the word of that instant; succeeds exactly when that is not suspended, in a barrier, dirty or with a barrier pending, and then adds one unit, else changes nothing |
| QueueWidth.DispatchQueue.TryAcquireAsync | libdispatch_sourceCode/src/inline_internal.h:1127-1141 | likewise, with the width limit among the conditions |
| QueueWidth.DispatchQueue.TryReserveApplyWidth | libdispatch_sourceCode/src/inline_internal.h:1090-1109 | likewise: takes, and returns, what is asked or what is left below the limit of the word of that instant |
| QueueWidth.DispatchQueue.RelinquishWidth | libdispatch_sourceCode/src/inline_internal.h:1114-1120 | takes exactly the given units off the width bits and changes nothing else, when there are that many; always the 64-bit subtraction, wrap-around included |
| QueueWidth.DispatchQueue.DrainTryLock | libdispatch_sourceCode/src/inline_internal.h:972-1024 | the retry loop under interference, on the word of that instant: locks exactly a runnable queue nobody drains; every bit of the word it stores: the thread as owner, ENQUEUED flipped unless stealing, DIRTY and the pending barrier gone, full width, IN_BARRIER if a barrier was pending or nobody held width; otherwise only ENQUEUED flips; returns what it owns, 0 exactly when it did not lock |
| QueueWidth.DispatchQueue.TryAcquireBarrierSync | libdispatch_sourceCode/src/inline_internal.h:1037-1046 | succeeds exactly when the 64-bit word is (0x8000 - width) widths, that is on the idle word, and stores the number FULL_BIT + IN_BARRIER + the thread |
| AllocatorBitmaps.FirstUnset | libdispatch_sourceCode/src/shims/atomic_sfb.h:38-62 | the lowest index whose bit is clear |
| AllocatorBitmaps.StepInv | libdispatch_sourceCode/src/allocator.c:221-598 | every step keeps: a set bit is held by exactly one owner, or its whole bitmap is locked by exactly one reclaiming thread |
| AllocatorBitmaps.ReachableInv | libdispatch_sourceCode/src/allocator.c:221-598 | the invariant holds after every interleaving, whatever the supermaps contain |
| AllocatorBitmaps.NoDoubleOwner | libdispatch_sourceCode/src/allocator.c:323-346 | in every interleaving no continuation is with two threads at once (that none is given out while somebody, the same thread included, has it: the next two rows) |
| AllocatorBitmaps.AllocationIsFresh | libdispatch_sourceCode/src/allocator.c:221-239 | what a successful compare-and-swap, or bts, gives out nobody has, the allocating thread included; afterwards that thread alone has it; an attempt that fails gives out nothing, and starts again unless the bitmap was seen full |
| AllocatorBitmaps.NoDoubleAllocation | libdispatch_sourceCode/src/allocator.c:325-346 | over every run: a continuation that was given out is given out again, to anybody, only after it has been freed |
| AllocatorBitmaps.FreeFindsItsBit | libdispatch_sourceCode/src/allocator.c:247-266 | a free always finds its bit set: the corruption crash cannot happen to an owner |
| AllocatorBitmaps.MadviseOnlyWhenEmpty | libdispatch_sourceCode/src/allocator.c:547-570 | a page is madvised only while none of its continuations is held |
| AllocatorBitmaps.ReclaimsMainOnly | libdispatch_sourceCode/src/allocator.c:594-597 | a reclaim never takes a bitmap of a packed first page |
| AllocatorBitmaps.ReclaimsFreedPage | libdispatch_sourceCode/src/allocator.c:532-579 | over every run: the page a thread scans, takes and madvises is that of the continuation it freed last |
| AllocatorBitmaps.LastFreeReclaims | libdispatch_sourceCode/src/allocator.c:545-570 | undisturbed, the free of the last continuation of a page scans and takes all bitmaps of that page and comes to madvise it, for any page size |
| AllocatorBitmaps.ReclaimGivesUp | libdispatch_sourceCode/src/allocator.c:545-560 | a set bit met on the way ends the scan, or the taking, and changes no bitmap |
| AllocatorBitmaps.OneOwnerPerPage | libdispatch_sourceCode/src/allocator.c:551-560 | two threads never own a page at once |
| AllocatorBitmaps.UnlockClearsOwn | libdispatch_sourceCode/src/allocator.c:572-578 | each store of the unlock path zeroes a bitmap this thread has locked and nobody else has, and no other bitmap |
| AllocatorBitmaps.ReclaimGivesBack | libdispatch_sourceCode/src/allocator.c:551-578 | over every run: what a thread takes to reclaim pages it zeroes, each as often as it takes it, but for what it still has at the end, whether it got the page or gave up half way |
| AllocatorBitmaps.ReclaimsBalance | libdispatch_sourceCode/src/allocator.c:551-578 | from idle to idle it zeroes exactly what it took |
| AllocatorBitmaps.NoLeak | libdispatch_sourceCode/src/allocator.c:221-598 | a set bit always belongs to a holder or to a reclaim in progress |
| AllocatorSupermaps.SettledStep | libdispatch_sourceCode/src/allocator.c:270-293 | what every step does to a supermap bit: right or about to be put right it stays, except exactly for a mark that goes in late and a clear that goes out late; wrong it stays but for a free into the bitmap or the allocation that fills it |
| AllocatorSupermaps.ExactAtRest | libdispatch_sourceCode/src/allocator.c:270-293 | over every run: at rest the supermap bit says whether the bitmap is full if and only if every late step was followed by such a free or allocation |
| AllocatorSupermaps.ExactUnlessLate | libdispatch_sourceCode/src/allocator.c:270-293 | without a late step every supermap bit is right at rest |
| AllocatorSupermaps.LateMarkFollowsFree | libdispatch_sourceCode/src/allocator.c:280-292 | behind a late mark: another thread freed into the bitmap between this thread's full test and its successful compare-and-swap |
| AllocatorSupermaps.LateClearFollowsMark | libdispatch_sourceCode/src/allocator.c:589-592 | behind a late clear: the bitmap was filled again and marked between this thread's free and its clear |
| AllocatorSupermaps.SupermapCanBeStale | libdispatch_sourceCode/src/allocator.c:270-293 | in any layout with two continuations a bitmap or more: one late mark alone leaves, at rest, a bitmap marked that is not full |
| AllocatorSupermaps.SupermapCanMissFull | libdispatch_sourceCode/src/allocator.c:583-593 | likewise one late clear alone leaves a full bitmap unmarked |
| AllocatorMagazine.TakeValid | libdispatch_sourceCode/src/allocator.c:325-346 | giving out a clear bit keeps the supermaps exact and adds exactly one continuation to those in use |
| AllocatorMagazine.GiveValid | libdispatch_sourceCode/src/allocator.c:583-593 | taking a bit back keeps the supermaps exact and removes exactly one |
| AllocatorMagazine.SkipSupermap | libdispatch_sourceCode/src/allocator.c:330-334 | skipping a full supermap skips full bitmaps only |
| AllocatorMagazine.FoundFirstFit | libdispatch_sourceCode/src/allocator.c:335-344 | what the search finds is the first continuation not in use |
| AllocatorMagazine.PageUnusedIffZero | libdispatch_sourceCode/src/allocator.c:545-550 | a page's bitmaps are all zero exactly when none of its continuations is in use |
| AllocatorMagazine.Magazine.MarkIfFull | libdispatch_sourceCode/src/allocator.c:270-293 | the supermap bit is set exactly when the bitmap is full |
| AllocatorMagazine.Magazine.TakeFrom | libdispatch_sourceCode/src/allocator.c:335-342 | fails exactly on a full bitmap, else takes its lowest clear bit and marks the supermap if that filled it |
| AllocatorMagazine.Magazine.SearchSupermap | libdispatch_sourceCode/src/allocator.c:334-344 | first fit among the bitmaps of one supermap |
| AllocatorMagazine.Magazine.AllocFromMagazine | libdispatch_sourceCode/src/allocator.c:325-346 | the two-level search is first fit on the plain set, and fails exactly when every continuation is in use |
| AllocatorMagazine.Magazine.TakeFromFirst | libdispatch_sourceCode/src/allocator.c:223-239 | the bounded search of a first-page bitmap |
| AllocatorMagazine.Magazine.AllocFromFirstPage | libdispatch_sourceCode/src/allocator.c:301-320 | first fit in the packed first page, its partial last bitmap included |
| AllocatorMagazine.Magazine.AllocFromHeap | libdispatch_sourceCode/src/allocator.c:440-459 | first page before the rest; fails exactly when the magazine is exhausted |
| AllocatorMagazine.Magazine.AllocFromPage | libdispatch_sourceCode/src/allocator.c:503-517 | first fit on the remembered page; fails exactly when that page is full |
| AllocatorMagazine.Magazine.LockPage | libdispatch_sourceCode/src/allocator.c:551-560 | takes the bitmaps that are zero up to the first that is not |
| AllocatorMagazine.Magazine.UnlockPage | libdispatch_sourceCode/src/allocator.c:572-578 | zeroes exactly the bitmaps that were taken |
| AllocatorMagazine.Magazine.MaybeMadvise | libdispatch_sourceCode/src/allocator.c:532-579 | madvises exactly when nothing on the page is in use, and leaves every bitmap as it was |
| AllocatorMagazine.Magazine.Free | libdispatch_sourceCode/src/allocator.c:583-598 | crashes exactly on a continuation that is not in use; else removes it, and madvises exactly when its page has become unused |
| AllocatorHeaps.Allocator.Remember | libdispatch_sourceCode/src/allocator.c:46-57 | the page of the given bitmap is the one this CPU looks at first from now on |
| AllocatorHeaps.Allocator.AllocFromHeap | libdispatch_sourceCode/src/allocator.c:440-459 | this CPU's magazine of one heap: the first continuation in search order that is not in use, or none is left there; its page is remembered unless it is the packed first one |
| AllocatorHeaps.Allocator.AllocFromPage | libdispatch_sourceCode/src/allocator.c:500-517 | the first continuation on the remembered page that is not in use; none exactly when the page is full; what is remembered stays |
| AllocatorHeaps.Allocator.CreateHeap | libdispatch_sourceCode/src/allocator.c:350-436 | a zeroed heap joins the end of the chain; nothing in use changes; one call at a time, the race is AllocatorHeapRace |
| AllocatorHeaps.Allocator.AllocSlow | libdispatch_sourceCode/src/allocator.c:463-490 | the walk over the chain ends, in the first heap with a continuation left for this CPU, at the first such; it extends the chain by one heap exactly when all before are exhausted |
| AllocatorHeaps.Allocator.Alloc | libdispatch_sourceCode/src/allocator.c:494-525 | always returns a continuation that was not in use, and only that one is in use in addition: on the remembered page the first if any is left there, else the first of the first heap with any; what is remembered afterwards; the chain grows exactly when it must |
| AllocatorHeaps.Allocator.Free | libdispatch_sourceCode/src/allocator.c:583-598 | the refinement of set removal over the whole chain |
| AllocatorHeapRace.StepInv | libdispatch_sourceCode/src/allocator.c:348-490 | every step of any thread keeps: each region mapped is on one link, or in one thread's hands; links lead to mapped regions and lie in linked ones |
| AllocatorHeapRace.LinkSetOnce | libdispatch_sourceCode/src/allocator.c:425-426 | a heap link is set once; from then on it never changes, so all threads walk one chain |
| AllocatorHeapRace.NeverFaults | libdispatch_sourceCode/src/allocator.c:463-490 | in every interleaving no allocation and no walk along the chain uses NULL or memory that is not mapped |
| AllocatorHeapRace.UnmapsOwn | libdispatch_sourceCode/src/allocator.c:425-436 | what the loser of the race unmaps no link leads to, and no other thread has, walks or allocates from |
| AllocatorHeapRace.OnlyHeapsStayMapped | libdispatch_sourceCode/src/allocator.c:425-436 | with nobody allocating, what is mapped is the heaps of the chain, each on one link |
| AllocatorHeapRace.EveryRegionSettled | libdispatch_sourceCode/src/allocator.c:369-436 | over every run: each region a thread maps it links or unmaps, once, in order, but for one it may still have in hand |
| AllocatorHeapRace.WalksTheChain | libdispatch_sourceCode/src/allocator.c:463-489 | over every run: a thread that has left k heaps behind since it started is at the k-th link of the chain, or allocates from the heap on it |
| AllocatorHeapRace.NoneTwice | libdispatch_sourceCode/src/allocator.c:463-489 | no link, so no heap, is on the chain twice |
| AllocatorHeapRace.OneChainRun | libdispatch_sourceCode/src/allocator.c:463-489 | over every run: the links set are one chain from _dispatch_main_heap on, ended by a NULL link, and every thread is on it |
| AllocatorHeapRace.WalkGoesOn | libdispatch_sourceCode/src/allocator.c:463-489 | so on a chain of n heaps a thread at its k-th link goes on to the k-th heap, and from that to the next link, until at the n-th, which is NULL, it maps a heap of its own |
| AllocatorHeapRace.CasExtends | libdispatch_sourceCode/src/allocator.c:425-436 | the compare-and-swap succeeds exactly at the end of the chain, where it makes the thread's region the last heap; all heaps before stay |
| AllocatorHeapRace.WalkToEnd | libdispatch_sourceCode/src/allocator.c:463-489 | undisturbed, a thread that finds nothing gets past every heap of the chain, and maps |
| AllocatorLayout.LayoutsInUse | libdispatch_sourceCode/src/allocator_internal.h:68-199 | the packed 16K-page and the unpacked 4K-page 64-bit layouts meet the assumptions |
| AllocatorLayout.WhereItLies | libdispatch_sourceCode/src/allocator.c:97-135 | masking a continuation's address yields its magazine, and the first-page test is right |
| AllocatorLayout.FindAddress | libdispatch_sourceCode/src/allocator.c:139-166 | the indices found for the address of any continuation are its own |
| AllocatorLayout.AddressFind | libdispatch_sourceCode/src/allocator.c:84-93 | the address of the indices found for any continuation's address is that address: with FindAddress a bijection |
| AllocatorLayout.BitmapIndices | libdispatch_sourceCode/src/allocator.c:104-120 | the supermap index, map index and continuation recovered from a bitmap's address are its own, so the assertion there holds |
| AllocatorLayout.FirstBitmap | libdispatch_sourceCode/src/allocator.c:196-208 | masking a bitmap's address yields the first bitmap of its page |
| AllocatorLayout.PageBaseRow | libdispatch_sourceCode/src/allocator.c:171-189 | a page's base is the first continuation governed by the page's first bitmap |
| AllocatorLayout.PageBaseFound | libdispatch_sourceCode/src/allocator.c:533-542 | looking up a page base finds that first bitmap, index 0, outside the first page |
| AllocatorLayout.SamePage | libdispatch_sourceCode/src/allocator.c:171-208 | two continuations lie on one page exactly when their bitmaps have the same first bitmap |
| AllocatorLayout.Realigned | libdispatch_sourceCode/src/allocator.c:375-405 | the realigned heap is magazine-aligned and inside the mapped region, the slops are page multiples and add up to the one magazine mapped in excess |
| AllocatorLayout.SamePlaces | libdispatch_sourceCode/src/allocator.c:139-166 | the continuations the addresses speak of are those of AllocatorMagazine, whose bitmaps are numbered through |
| AllocatorLayout.SamePlacesBack | libdispatch_sourceCode/src/allocator.c:139-166 | and the other way round |
| AllocatorLayout.SearchOrderIsAddressOrder | libdispatch_sourceCode/src/allocator.c:325-346 | the search order is the order of the addresses: first fit takes the lowest free address of its area |
| ApplyProtocol.StepInv | libdispatch_sourceCode/src/apply.c:31-95 | every step keeps: each index below the iterations that was handed out is with its taker or off da_todo, da_todo counts the rest, da_thr_cnt counts those not yet gone |
| ApplyTheorems.ReachableInv | libdispatch_sourceCode/src/apply.c:31-95 | the invariant holds in every schedule of any number of participants |
| ApplyTheorems.CalledAtMostOnce | libdispatch_sourceCode/src/apply.c:61-70 | in every schedule no index is called twice and none outside 0..iterations |
| ApplyTheorems.SignalledOnceAfterAll | libdispatch_sourceCode/src/apply.c:79-83 | the event is signalled at most once, and by then every callout has returned |
| ApplyTheorems.FinishedMeansDone | libdispatch_sourceCode/src/apply.c:31-95 | when all have finished, each index was called exactly once, the event signalled once, da freed once |
| ApplyTheorems.CallerInsideWhenRead | libdispatch_sourceCode/src/apply.c:37-43 | da_dc, on the caller's stack, is read only before the signal, so while the caller is still inside dispatch_apply_f, also by late starters |
| ApplyTheorems.NoUseAfterFree | libdispatch_sourceCode/src/apply.c:89-94 | whoever can still take a step finds da not yet freed; it is freed when all others have finished |
| ApplyTheorems.WaitsOnlyForStarted | libdispatch_sourceCode/src/apply.c:84-88 | a caller that waits is waiting for a participant that has started, holds an index or is about to signal, and can go on; never for one that has not started |
| ApplyTheorems.NoDeadlock | libdispatch_sourceCode/src/apply.c:31-95 | until all have finished somebody can take a step |
| ApplyTheorems.RunsAreBounded | libdispatch_sourceCode/src/apply.c:61-94 | every step uses up some of a bounded amount of work |
| ApplyTheorems.EveryScheduleCompletes | libdispatch_sourceCode/src/apply.c:31-95 | every schedule stops, within 5 steps an index and 8 a participant, and only when each index was called exactly once and da freed |
| ApplyInvoke.OthersRely | libdispatch_sourceCode/src/apply.c:31-95 | what a participant's code may rely on across any run of the others' steps |
| ApplyInvoke.Apply.TakeIndex | libdispatch_sourceCode/src/apply.c:37-38 | the increment gives an index nobody else has or gets |
| ApplyInvoke.Apply.ReadContext | libdispatch_sourceCode/src/apply.c:40-43 | the reads through da_dc, made while the event is not signalled |
| ApplyInvoke.Apply.Work | libdispatch_sourceCode/src/apply.c:61-83 | the loop calls exactly the indices below the iterations that this participant got, then takes them off da_todo and signals if none is left |
| ApplyInvoke.Apply.WaitEvent | libdispatch_sourceCode/src/apply.c:85-88 | the wait ends, after finitely many steps of the participants at work |
| ApplyInvoke.Apply.Invoke2 | libdispatch_sourceCode/src/apply.c:31-95 | a participant finishes, having called exactly the indices it got; the caller only after the signal |
| ApplyRedirect.NestedFits | libdispatch_sourceCode/src/apply.c:244-250 | the product of nesting levels is positive and does not overflow 32 bits |
| ApplyRedirect.ThreadsFit | libdispatch_sourceCode/src/apply.c:240-289 | a parallel plan has between 2 and iterations threads, no more than the processors, nor with the outer levels together |
| ApplyRedirect.PlanOf | libdispatch_sourceCode/src/apply.c:233-290 | nothing exactly for 0 iterations; redirected exactly on a queue with a target, not current and wider than 1, with room for two threads; fanned out directly exactly on one without a target, likewise; else serially; the number of threads is the greatest that iterations and processors, shared with the outer levels, allow; the nesting number is the product unless a factor is past the limit |
| ApplyRedirect.ThrCntGreatest | libdispatch_sourceCode/src/apply.c:240-254 | for every j from 2 on: there are j threads or more exactly when there are j iterations and j processors for each outer iteration |
| ApplyRedirect.NestedCounts | libdispatch_sourceCode/src/apply.c:247-250 | at any depth the nesting number is the number of iterations of all levels together, or both are past the limit |
| ApplyRedirect.AllThreadsFit | libdispatch_sourceCode/src/apply.c:240-254 | at any depth all levels together ask for no more threads than there are processors, if these are fewer than twice the limit of the nesting number |
| ApplyRedirect.AllThreadsOverflow | libdispatch_sourceCode/src/apply.c:228-250 | on any machine with as many processors as that or more, three levels ask for twice as many threads as there are processors |
| ApplyRedirect.Serial | libdispatch_sourceCode/src/apply.c:134-155 | calls 0, 1, ... iterations - 1 in order, once each |
| ApplyRedirect.BuildList | libdispatch_sourceCode/src/apply.c:159-181 | the continuations form one list from head to tail, last allocated first, ended by NULL |
| ApplyRedirect.OthersKeepMine | libdispatch_sourceCode/src/inline_internal.h:1086-1120 | whatever the others do to a queue's word, the units held here stay reserved and no barrier starts |
| ApplyRedirect.OthersReplay | libdispatch_sourceCode/src/inline_internal.h:1086-1120 | any run of the others that spares those units extends the log of a queue's events by its steps, and leaves what this apply holds |
| ApplyRedirect.OwnMovesWidth | libdispatch_sourceCode/src/inline_internal.h:1086-1120 | what an own event counts for is what it does to the width bits, and it does nothing else to the word; so what a log leaves held is what its own events have left on the word |
| ApplyRedirect.HeldQueue.Reserve | libdispatch_sourceCode/src/inline_internal.h:1086-1109 | under interference: takes the smaller of what is asked and what the width of the queue at that instant leaves beside all that is held and reserved there, as one own event of the queue's log, and stays within that width |
| ApplyRedirect.HeldQueue.GiveUp | libdispatch_sourceCode/src/inline_internal.h:1114-1120 | under interference: exactly the given units come off the word, as the last event of the log |
| ApplyRedirect.RollBack | libdispatch_sourceCode/src/apply.c:203-206 | each queue visited before gives the excess back, and only those, as events of their words |
| ApplyRedirect.ReserveOn | libdispatch_sourceCode/src/apply.c:200-219 | a turn leaves the smaller of what was held and the width it met unreserved; every visited queue then holds that, one less than da_thr_cnt, or none holds any |
| ApplyRedirect.ReserveChain | libdispatch_sourceCode/src/apply.c:200-221 | the turns, in order along the chain, each asking for what the ones before have left, up to the root or to the first that meets no unreserved width |
| ApplyRedirect.ReturnAll | libdispatch_sourceCode/src/apply.c:222-225 | after the fan-out every visited queue gets its units back, as events of its word |
| ApplyRedirect.PushParallel | libdispatch_sourceCode/src/apply.c:159-189 | entered with exactly da_thr_cnt - 1 units on each visited queue; da_thr_cnt - 1 continuations are pushed, linked from head to tail |
| ApplyRedirect.Redirect | libdispatch_sourceCode/src/apply.c:193-226 | for any chain and any interference: serial exactly when a turn meets no unreserved width, each index called once in order; else da_thr_cnt - 1 is the least of what was asked and the unreserved widths met, and that many continuations are pushed; on both exits the own reservations and returns on each word cancel out |
| ApplyRedirect.FirstOnly | libdispatch_sourceCode/src/apply.c:213-218 | asking the first queue gives the first frequency along the chain exactly when it has one, or none has |
| ApplyRedirect.SecondFrequencyMissed | libdispatch_sourceCode/src/apply.c:213-218 | a chain on which it does not: the first queue has none, the second has one, and the fan-out goes without it |
| DataRope.SizeIsLength | libdispatch_sourceCode/src/data.c:330-333 | the size field is the number of bytes an object stands for |
| DataRope.RangesFlat | libdispatch_sourceCode/src/data.c:356-373 | the records an object brings into a concatenation are non-empty, inside leaves, and stand for its bytes |
| DataRope.RecordsFit | libdispatch_sourceCode/src/data.c:350-353 | there are never more records than bytes, so the record count does not overflow unless the size does |
| DataRope.FindRecord | libdispatch_sourceCode/src/data.c:415-426 | finds the record containing an offset; runs past the last one only for an offset past the end, so the first crash is unreachable |
| DataRope.FindEnd | libdispatch_sourceCode/src/data.c:440-457 | finds the record and the positive trimmed length at which the range ends; the second crash is unreachable |
| DataRope.Extent | libdispatch_sourceCode/src/data.c:433-458 | the number of records and the last length, whose trimmed total is the length asked for |
| DataRope.CopyRecords | libdispatch_sourceCode/src/data.c:460-470 | the copied and patched record array |
| DataRope.PatchedSlice | libdispatch_sourceCode/src/data.c:460-470 | the patched records lie inside their leaves and stand for the bytes between the two cuts |
| DataRope.InRecordIsSlice | libdispatch_sourceCode/src/data.c:428-432 | a range inside one record is the slice of its leaf |
| DataRope.DirectBytes | libdispatch_sourceCode/src/data_internal.h:123-146 | map_direct maps leaves, trivial subranges and flattened composites and nothing else, and what it points at are the object's bytes |
| DataTraversal.ApplyRange | libdispatch_sourceCode/src/data.c:582-602 | calls are contiguous, none empty, each with its region object, the object itself or the leaf of the record; their bytes join to the object's bytes, or to a prefix when the applier stops |
| DataTraversal.ApplyRecords | libdispatch_sourceCode/src/data.c:594-601 | the same over the records of a composite: one call a record, with its leaf as region and its bytes |
| DataTraversal.Apply | libdispatch_sourceCode/src/data.c:605-622 | the same from offset 0: the regions are the object's chunks, one for each record with its leaf or one in all with the object, and all of them exactly when the applier never stopped it |
| DataTraversal.Flatten | libdispatch_sourceCode/src/data.c:479-493 | a new buffer that holds exactly the object's bytes |
| DataTraversal.FindRegion | libdispatch_sourceCode/src/data.c:655-676 | the record a location lies in, and where it begins; the crash is unreachable |
| DataStore.BytesKept | libdispatch_sourceCode/src/data.c:32-58 | an object stands for the same bytes as long as it and its leaves are there |
| DataStore.AddRefOk | libdispatch_sourceCode/src/data.c:374-377 | a retain keeps every count exact |
| DataStore.InstalledOk | libdispatch_sourceCode/src/data.c:354-378 | a new object takes over the references its records need; every count stays exact |
| DataStore.DestroyedOk | libdispatch_sourceCode/src/data.c:287-299 | disposing of an object hands on exactly the references its records held |
| DataStore.NoLeak | libdispatch_sourceCode/src/data.c:287-299 | a live object is a client's, or a leaf in a composite that is a client's |
| DataStore.DestroyedUnreached | libdispatch_sourceCode/src/data.c:287-299 | a leaf whose buffer was destroyed is in no client's hands and in no record; and it is destroyed once |
| DataStore.ConcatSizeExact | libdispatch_sourceCode/src/data.c:355-355 | the size field of a concatenation is the record total exactly when the 64-bit sum does not wrap |
| DataStore.FlattenedBytes | libdispatch_sourceCode/src/data.c:538-566 | caching changes no object's bytes; an object that is flattened already stays as it is |
| DataStore.Store.Retain | libdispatch_sourceCode/src/data.c:95-101 | a client has one reference more; nothing else changes |
| DataStore.Store.Compose | libdispatch_sourceCode/src/data.c:354-378 | a new composite that stands for its records' bytes; a reference to each record's leaf; nothing else changes |
| DataStore.Store.Create | libdispatch_sourceCode/src/data.c:211-247 | a leaf with the bytes, or the empty object for none |
| DataStore.Store.Concat | libdispatch_sourceCode/src/data.c:336-379 | stands for the bytes of the first and then of the second, without copying any: the other one when one is empty, else a composite of the records of both; keeps the header's invariants |
| DataStore.Store.Subrange | libdispatch_sourceCode/src/data.c:382-476 | stands for the slice from offset, clipped to the end, without copying any: the object itself for all of it, the empty object for nothing, one record for a part of a leaf; keeps the header's invariants |
| DataStore.Store.SubrangeOfComposite | libdispatch_sourceCode/src/data.c:413-475 | the same on a composite |
| DataStore.Store.CopyRegion | libdispatch_sourceCode/src/data.c:682-692 | the region is, whole, the one dispatch_data_apply passes for that location, and it is a leaf or a part of one except exactly for a flattened composite; the object itself when it has one region only; past the end the empty object |
| DataStore.Store.RegionOf | libdispatch_sourceCode/src/data.c:625-679 | the same for a part of an object; of a leaf all of the part that was asked for |
| DataStore.Store.RegionOfRecord | libdispatch_sourceCode/src/data.c:655-676 | in a composite that is not flattened, the record the location is in, whole |
| DataStore.RegionOfFlattened | libdispatch_sourceCode/src/data.c:681-692 | any two buffers, concatenated and flattened: the region at any location in them is the flattened composite itself |
| DataStore.Store.CreateMap | libdispatch_sourceCode/src/data.c:499-533 | object and buffer hold the bytes, in one piece: the object itself when it has one already, else a new leaf |
| DataStore.Store.GetFlattened | libdispatch_sourceCode/src/data.c:538-566 | the object's bytes in one buffer, cached from then on; no other object changes (addresses and racing threads: DataFlatten) |
| DataFlatten.StepInv | libdispatch_sourceCode/src/data.c:538-566 | every step of any thread keeps: each flat buffer allocated is cached by one object or in one thread's hands; a cached one holds the object's bytes; who was given one has the object's |
| DataFlatten.CachedForGood | libdispatch_sourceCode/src/data.c:553-558 | the cached address is set at most once: as long as the object lives it stays, and so do the bytes there |
| DataFlatten.OneAddress | libdispatch_sourceCode/src/data.c:538-566 | over every run: all callers get one address, and the object's bytes are there as long as it lives |
| DataFlatten.NullOnlyWithoutMemory | libdispatch_sourceCode/src/data.c:552-564 | for a composite of several records NULL comes back only when malloc gave none |
| DataFlatten.EveryBufferSettled | libdispatch_sourceCode/src/data.c:551-558 | over every run: each buffer a thread allocates it installs or frees, once, in order, but for one it may still have in hand |
| DataFlatten.FreedAtDisposal | libdispatch_sourceCode/src/data.c:287-299 | the step that frees a cached buffer is the release by the last who holds the object |
| DataFlatten.OnlyCachedStay | libdispatch_sourceCode/src/data.c:287-299 | with no call in progress what is allocated is what live objects cache, each its own |
| DataFlatten.NeverFaults | libdispatch_sourceCode/src/data.c:287-299 | in every interleaving no buffer is freed twice or used after its free, and no object after its disposal |
| DataFlatten.BufferHoldsBytes | libdispatch_sourceCode/src/data.c:479-493 | the buffer an object caches holds the bytes it stands for |
| DataFlatten.OthersRely | libdispatch_sourceCode/src/data.c:538-566 | what a caller may rely on across any run of the others' steps |
| DataFlatten.Process.MapDirect | libdispatch_sourceCode/src/data_internal.h:137-142 | the cached address, and no other way out when there was one at entry |
| DataFlatten.Process.Flatten | libdispatch_sourceCode/src/data.c:479-493 | the copies, piece by piece, fill the buffer, whatever the others do |
| DataFlatten.Process.Install | libdispatch_sourceCode/src/data.c:553-558 | returns what is cached, which is what was cached before if anything was; the loser's buffer is freed |
| DataFlatten.Process.GetFlattenedBytes | libdispatch_sourceCode/src/data.c:538-566 | under interference: NULL only if malloc fails, and not when a buffer was cached at entry; else the address the object caches, the old one if there was one, with the object's bytes there |
| DataStore.Store.Drop | libdispatch_sourceCode/src/data.c:287-299 | a lost reference destroys the object exactly when it was the last, and its records' references with it |
| DataStore.Store.DropAll | libdispatch_sourceCode/src/data.c:293-296 | the releases of a composite's records |
| DataStore.Store.Release | libdispatch_sourceCode/src/data.c:95-101 | what stays is unchanged; exactly the leaves that go have their buffers destroyed; every count stays exact |
| QueueOrder.FindBottomTarget | libdispatch_sourceCode/src/introspection.c:728-734 | the loop ends, and finds the one queue on the chain of targets whose own target is a root |
| QueueOrder.AcyclicAfter | libdispatch_sourceCode/src/introspection.c:803-880 | a new edge keeps the graph acyclic exactly when it is no loop and its start was not reachable from its end |
| QueueOrder.SameBottomTarget | libdispatch_sourceCode/src/introspection.c:803-880 | for any targets and any two queues with one bottom target: the call between them records a loop, and the next call from a queue with another bottom target onto one of them takes a lock it holds |
| QueueOrder.Check | libdispatch_sourceCode/src/introspection.c:784-800 | the recursive search ends on any graph; it comes back only without a way to the top queue and without a cycle below; what it reports is a way; it comes to a lock it holds only where there is a cycle |
| QueueOrder.InsertConsistent | libdispatch_sourceCode/src/introspection.c:863-879 | inserting keeps top and bottom lists mirror images, with one entry at most a pair |
| QueueOrder.ClearedConsistent | libdispatch_sourceCode/src/introspection.c:688-723 | so does disposal |
| QueueOrder.AcyclicFewer | libdispatch_sourceCode/src/introspection.c:688-723 | and it creates no path |
| QueueOrder.RemoveAll | libdispatch_sourceCode/src/introspection.c:702-709 | one loop of the disposal: exactly the entries that lead to the queue go, the others keep their order |
| QueueOrder.Order.IsKnown | libdispatch_sourceCode/src/introspection.c:818-827 | whether the pair is recorded already |
| QueueOrder.Order.Record | libdispatch_sourceCode/src/introspection.c:803-880 | on an acyclic graph: reports an inversion exactly when there is a path back, records otherwise, and keeps the graph acyclic exactly when the two bottom targets differ; on any graph: changes nothing when it does not record, and records only with no path back and no cycle below |
| QueueOrder.Order.Dispose | libdispatch_sourceCode/src/introspection.c:688-723 | the queue's entries leave both lists they are on, all others stay in order, and the graph stays acyclic |

## Left out

- Memory ordering: every interleaving is sequentially consistent; acquire, release and relaxed make no difference here.
- Fairness: a spin (`_dispatch_wait_until`, the event wait) is a step that is possible once its condition holds; that the
  thread it waits for can go on is proved, that it is scheduled is not.
- Lock words other than the Mach one (inverted waiters bit), and what override and suspension counts do beyond moving no
  width.
- QueueWidth.StepInv: updates that carry out of the width bits are no steps: a sync reservation or a drainer's own on
  all-ones width bits, a hand-over to more readers than the width bits have room for, and an unlock, requeue or hand-over
  whose reservation for a pending barrier (inline_internal.h:1150-1163) lifts them past 0xffff.  SyncCarriesIntoBarrier and
  SyncCarryReached say what happens at a sync reservation.
- QueueWidth.BarrierExcludes: a queue's width does not change (`dispatch_queue_set_width`); the deferred invocation that
  pends a drain lock (queue.c:4753-4808), sources' own updates (source.c:1097), QoS overrides and vouchers are not part of
  this model.  What a drainer does between updates of the word (popping, invoking, signalling) is left open.
- AllocatorBitmaps.ReclaimsFreedPage: pages are numbers here; that the address of the freed continuation leads to the first
  bitmap of its page is AllocatorLayout.PageBaseFound.
- AllocatorMagazine.Magazine.MarkIfFull: the compare-and-swap loop succeeds at once, since calls do not overlap.
- AllocatorHeaps.Allocator.CreateHeap: one call at a time; mmap, madvise and their failures are events without effect on the
  bitmaps.
- AllocatorHeapRace.StepInv: the region is mapped in one step, realigned; AllocatorLayout.Realigned is the realignment.
- AllocatorLayout.FindAddress: masks are remainders, because all sizes are powers of two; the preprocessor's computation
  of the sizes is replaced by the assumptions _dispatch_alloc_init asserts, met by the two layouts of LayoutsInUse.
- ApplyProtocol.StepInv: da_index and da_todo do not wrap (iterations plus threads fit a size_t); the event is a flag that is
  set once; autorelease pools, priorities, thread frames and callouts that apply again are not modelled.
- ApplyRedirect.HeldQueue.Reserve: stated at the instant its compare-and-swap succeeds; the retry loop is
  QueueWidth.DispatchQueue.TryReserveApplyWidth.
- ApplyRedirect.BuildList: the allocator's continuations are a parameter; what each of them carries is not modelled.
- ApplyRedirect.PushParallel: the participants run in ApplyProtocol, not inside this call.
- DataStore.Store.Concat: the sum of the sizes fits 64 bits; ConcatSizeExact says that otherwise the size is wrong.
- DataStore.Store.Create: malloc failure, destructor blocks and their queues; a destroyed buffer is an event in `destroyed`.
- DataStore.Store.GetFlattened: buffers have no address there, and of the other threads only those that flatten the same
  object take part; DataFlatten has the addresses and the other threads.
- DataFlatten.StepInv: composites of several records only; the others have their buffer already (DataRope.DirectBytes).
- Concurrent retains and releases: reference counts change in one step each, and calls on a store do not overlap.
- QueueOrder.Order.Record: one call at a time; with overlapping calls check and insertion are not atomic and nothing is promised.
- QueueOrder.Order.Dispose: locks, labels and backtraces; `_dispatch_introspection_target_queue_changed`.
- Queues, groups, semaphores, sources, timers, I/O, firehose, benchmarks, and the iOS demonstration programs.
