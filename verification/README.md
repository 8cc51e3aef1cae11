# Pacecache in Dafny

Pacecache is an in-process cache: keys are routed to segments, each segment is an exact LRU with optional per-entry
expiration, and misses can be filled by loaders whose concurrent calls are coalesced. This project models its three
hardest parts and proves what they promise.

**Segments and the expiration index** (`Entries`, `ExpirationHeap`, `ExpirationIndex`, `Segment`). The intrusive
structures are modelled as they are: one `Entry` object is in a key map, in a doubly linked LRU list and in a doubly
linked bucket list at once; buckets are found by an id map and by a binary min-heap with back-pointers, and a few are kept as
spares. Every operation of the class `Segment` is proved equal to one step of a simple thing, a list of items with the most
recently used first (`SegmentModel`). What each of these steps means for a key, its value, its ttl and its deadline is stated and proved
on its own (`SegmentLaws`), and so is what a caller of the cache reads back (`CacheLaws`). Four of the consistency panics of the original are dead
branches here; the fifth is a type test that cannot be written.
On top of that list, `Runs` proves what holds of whole runs (a deadline is the latest one offered; the budget is never
exceeded), and `LruStack` the stack property of an exact LRU.

**Whole caches** (`Storage`, `Cleanup`, `Mutations`). Routing and capacity shares; the full drain of expired entries; the
budgeted cleanup worker with its list filtered in place and its rotating start, for an arbitrary clock; and the
mutations, which take state locks, forget calls in flight and then write. The lock discipline is a precondition of `Lock`: only a
lock above all those held may be taken. Every operation of `Cache` keeps the counters in balance: no entry is lost or counted
twice (`Balances` has the arithmetic of one list).

**The load protocol** (`Singleflight`, `LoadProtocol` and the files named `Load…`). `Singleflight` is the group of coalesced
calls as classes, proved against a value, `Flight`, that knows every wave ever registered. `LoadProtocol` is a transition system over
any number of processes, keys and segments. Looking up (for a load, and for a GetOrSet before it locks), taking and releasing
each lock, registering a call, rechecking, starting and ending a loader, testing for a barrier, storing, completing a wave, waiting, forgetting one key and writing one key are
separate steps. Each segment keeps a log of events; eviction, expiration and sliding reads may happen at any
time. The invariant is proved by letting every step keep what its own process knows (`LoadSteps`) and disturb nothing that others
know (`LoadInvariant.Undisturbed`). getOrLoad as a whole appears only in this form, not as a method: what it
promises is about interleavings. The promises are then statements about the log of any segment in any execution
(`LoadTheorems`, `LoadBarriers`), about what each operation has done when it is over (`LoadAccounts`), about progress
(`LoadProgress`), and about single executions (`LoadExceptions`). A loader may
return anything, including the errors of this cache that it has from another one.

Conventions. Times are integers from 0 to 2^63-1 and every intermediate result of time arithmetic has the type of a 64-bit
integer. The clock, the random source, the hash function and the outcome of a loader are parameters. `timeUp` stands for the time budget of
a cleanup quantum: any function from the number of earlier checks to an answer. Absent results are `None` or `Missing`.
Functions named `After…` give the list after an operation, what it found, and how many entries it reclaimed.

One finding. ErrLoadSuperseded is documented as the sign of a newer mutation of the key, naming GetOrSet only where it inserts
(errors.go:15-18, set.go:59-61). The code says it in two more cases. GetOrSet forgets the call in flight before its recheck under
the lock, also when the recheck finds a live entry and nothing is written (set.go:84-102); and a loader may itself return the
error, which is forwarded (load.go:234). Each case has an execution (`SupersededByNoWrite`, `SupersededByItsLoader`) and its exact
condition for all executions (`SupersededWithoutWrite`, `SupersededExactly`). The execution for the first case takes nothing that
the code could not do: its GetOrSet has looked the key up in vain before another load publishes it, and the only entry that
leaves the store on the way has a deadline, so that it may have expired; nothing is evicted. What the barriers are for
holds regardless: nothing stale is ever published, read or handed out.

## Model

| member | source | states |
|---|---|---|
| Deadlines.DeadlineAfter | cache.go:180-192 | `now + ttl` capped at the largest 64-bit integer, zero exactly without a positive ttl; never overflows |
| Deadlines.JitteredTTL | cache.go:194-207 | jitter only lengthens a ttl, by less than the configured limit, and never overflows |
| Deadlines.JitterReachesAll | cache.go:194-207 | every ttl within the jitter is drawn for some state of the random source, and by JitteredTTL no other |
| Deadlines.EffectiveTTL | cache.go:160-172 | exactly the ttl asked for, or the cache's own for the default, lengthened by less than the jitter; zero exactly for no expiration or an unset default |
| Deadlines.GridLines | expiration.go:145-169 | a deadline is rounded up, the current time down, to the grid of bucket boundaries |
| Deadlines.DueIsExpired | expiration.go:145-173 | what is in a due bucket has expired; what is not due expires less than one resolution ago or later |
| Entries.Bucket.ContainsOnly | expiration.go:257-263 | on a consistent bucket the five comparisons hold exactly if the item is its only member |
| Entries.Bucket.PushBack | expiration.go:265-277 | the linked chain is extended at its end |
| Entries.Bucket.Remove | expiration.go:279-303 | the item is taken out of the linked chain, wherever it is; the count cannot underflow |
| Entries.Bucket.PopBack | expiration.go:305-314 | the last of the chain, or nothing if it is empty |
| HeapOrder.RootIsLeast | expiration.go:316-328 | in heap order no id is below the root's |
| ExpirationHeap.BucketHeap.Up | expiration.go:320-328 | sifting up repairs an id that may be too small, with exact back-pointers |
| ExpirationHeap.BucketHeap.Down | expiration.go:320-328 | sifting down repairs an id that may be too large, and says whether it moved |
| ExpirationHeap.BucketHeap.Push | expiration.go:330-338 | a heap with one more bucket, back-pointers exact |
| ExpirationHeap.BucketHeap.Pop | expiration.go:340-350 | the root is taken out, back-pointers exact, its own cleared |
| ExpirationHeap.BucketHeap.Remove | expiration.go:237-240 | any position is taken out, back-pointers exact |
| ExpirationHeap.BucketHeap.Fix | expiration.go:215-217 | a heap again after one id has been overwritten with anything |
| Chains.RekeyIsMove | expiration.go:79-89 | giving a one-entry chain another id is removing the entry and adding it again |
| Expiration.ExpirationIndex.AcquireBucket | expiration.go:220-235 | a clean bucket, new or from the spares, which stay clean and distinct |
| Expiration.ExpirationIndex.ReleaseBucket | expiration.go:242-255 | the bucket is cleaned and kept if there is room; nothing active is touched |
| Expiration.ExpirationIndex.DeactivateBucket | expiration.go:237-240 | an empty bucket leaves both tables, which still hold the same buckets |
| Expiration.ExpirationIndex.Add | expiration.go:91-110 | an expiring entry is appended to the chain of its bucket id, others are as before; one without deadline is not indexed |
| Expiration.ExpirationIndex.Remove | expiration.go:112-129 | the entry leaves its chain, an emptied chain leaves the index; the bucket cannot be missing |
| Expiration.ExpirationIndex.Renumber | expiration.go:209-217 | heap and tables agree again after the in-place change of an id, though heap order is broken in between |
| Expiration.ExpirationIndex.Rekey | expiration.go:192-218 | the only entry of a bucket goes with it to a new chain, and the invariant holds again |
| Expiration.ExpirationIndex.RekeySingletonBucket | expiration.go:192-218 | taken exactly for a lone entry and an unused id, and then the same as remove, change, add |
| Expiration.ExpirationIndex.Update | expiration.go:44-89 | inside one bucket the entry keeps its place in the chain; otherwise, on the fast path and the slow, the index is that of removing the entry and adding it under the new deadline |
| Expiration.ExpirationIndex.RootIsFirst | expiration.go:171-173 | the heap's root is the non-empty bucket with the least id of any indexed entry |
| Expiration.ExpirationIndex.PopRootEntry | expiration.go:175-190 | the last entry of the least chain; an active bucket cannot be empty |
| Expiration.ExpirationIndex.Reset | expiration.go:131-143 | an empty index whose spares are clean |
| Segments.Segment.PushFrontLocked | segment.go:493-504 | the linked list with one more entry in front |
| Segments.Segment.UnlinkLocked | segment.go:515-530 | the linked list without the entry, wherever it was |
| Segments.Segment.MoveToFrontLocked | segment.go:506-513 | the entry in front of the others in their order |
| Segments.Segment.RemoveLocked | segment.go:451-455 | map, list and index all lose the entry; the order of the others is kept |
| Segments.Segment.GetLocked | segment.go:173-255 | AfterGet: an expired entry is reclaimed, a live one comes to the front, renewed if that makes its deadline later |
| Segments.Segment.Lookup | segment.go:114-160 | AfterGet, and exactly one hit or miss is counted |
| Segments.Segment.Exists | segment.go:48-72 | AfterExists: an expired entry is reclaimed, a live one keeps its place and deadline |
| Segments.Segment.RefreshTTL | segment.go:74-112 | AfterRefreshTTL: a live entry is renewed in its place |
| Segments.Segment.ReuseVictim | segment.go:354-373 | the least recently used entry object is emptied and comes back in front under the new key |
| Segments.Segment.SetLocked | segment.go:333-387 | AfterSet, for overwriting, inserting and reusing a victim at capacity; evictions are counted |
| Segments.Segment.GetOrSet | segment.go:276-331 | AfterGetOrSet: the live entry, or the stored one |
| Segments.Segment.Delete | segment.go:422-434 | the list without the key, and whether it was there |
| Segments.Segment.GetAndDelete | segment.go:389-420 | AfterGetAndDelete: a live value is returned and removed, an expired one only reclaimed |
| Segments.Segment.DeleteAll | segment.go:436-449 | nothing left, and the number of entries that were there |
| Segments.Segment.RootIsDue | segment.go:468-490 | the index shows a due bucket exactly if some item of the list is due |
| Segments.Segment.CleanupExpired | segment.go:457-491 | as many due items as the limit allows, lowest buckets first, the rest in order; pending exactly if more were due |
| SegmentModel.CleanedDeadlines | segment.go:457-491 | only expired items are removed; after a cleanup that is not pending no survivor expired a resolution ago |
| SegmentModel.ReclaimStep | segment.go:470-488 | taking one more item from the lowest due bucket is again a partial cleanup of the original list |
| SegmentLaws.GetMeans | segment.go:214-255 | a get finds a key exactly while its entry has no deadline or a later one, with its own value and ttl, in front, renewed if sliding; an expired entry is reclaimed and counted once; all others stay, in order |
| SegmentLaws.ExistsMeans | segment.go:48-72 | an existence check finds the same, and leaves a live entry where and as it is |
| SegmentLaws.RefreshMeans | segment.go:74-112 | a refresh finds the same; position by position only the entry of the key changes, to the later of its deadline and now plus its ttl |
| SegmentLaws.TakeMeans | segment.go:389-420 | a take returns exactly a live entry, and in any case the list is left without the key and otherwise as it was |
| SegmentLaws.SetMeans | segment.go:333-387 | a set puts the given value, deadline and ttl in front; another key leaves only if this one was absent and the list full, and then it is the last |
| SegmentLaws.GetOrSetMeans | segment.go:276-331 | a live entry as a get gives it, or else what a set puts where the expired one has been |
| SegmentLaws.SetThenGet | segment.go:214-255 | what a set has stored is what the next get returns, exactly until its deadline |
| SegmentLaws.WithoutInOrder | segment.go:436-491 | a list from which keys are removed keeps the others in their order |
| Drains.ReclaimTwice | storage.go:269-281 | a cleanup after a cleanup is one cleanup |
| Drains.ProgressEnd | storage.go:283-285 | when nothing is due any more, every segment has lost exactly what was due |
| Routing.RouteIsRemainder | storage.go:80-84 | with or without the mask a hash goes to its remainder, a valid segment |
| Routing.MaskIsRemainder | storage.go:126-140 | a count that shares no bit with its predecessor makes the predecessor a remainder mask |
| SegmentedStorage.SharesAddUp | storage.go:61-78 | capacities sum to maxEntries, are positive and differ by at most one |
| SegmentedStorage.Store.constructor | storage.go:61-109 | empty segments with their shares, disjoint in memory |
| SegmentedStorage.Store.CleanupExpired | storage.go:257-290 | terminates for any batch and budget, returns the number due, removes exactly those |
| SegmentedStorage.Store.DeleteAll | storage.go:238-246 | every segment empty, and the sum of what they held |
| Cleanup.CleanupWorker.SweepPending | cleanup.go:154-185 | filtering the list into its own array while reading it gives the list of segments still due; a round that is cut short resumes at the first segment it has not processed |
| Cleanup.CleanupWorker.FirstPass | cleanup.go:130-152 | segments from nextSegment on, each once, until budget or time is out; the next start is where it stopped |
| Cleanup.CleanupWorker.CleanupSegments | cleanup.go:121-189 | a quantum over several segments: within budget, exact if time never runs out; the answer is false only if nothing is due, and true only if the budget is used up or the last look at the clock said stop; the next start is one further after a finished quantum, and otherwise the first segment not reached |
| Cleanup.CleanupWorker.CleanupSingleSegment | cleanup.go:100-119 | the same for one segment |
| Cleanup.CleanupWorker.CleanupBatch | cleanup.go:135-147 | one batch removes the least of batch size, remaining budget and what is due |
| Cleanup.CleanupWorker.CleanupQuantum | cleanup.go:92-98 | the same for any number; nextSegment stays in range, and every due segment reached loses entries |
| Cleanup.CleanupWorker.RunQuanta | cleanup.go:54-85 | the worker's loop links each quantum to the next; in as many of them as there are segments every segment is attended to, each within its budget, and the counters stay in balance |
| Cleanup.RotationIsFair | cleanup.go:130-168 | in as many consecutive quanta as there are segments, every segment is reached, whatever the clock did after each first check |
| LockPlans.LocksAscend | delete.go:115-134 | the locks taken for sorted targets are strictly ascending |
| LockPlans.LocksCover | delete.go:126-134 | and they are exactly the segments of the targets |
| LockPlans.StepBack | delete.go:148-158 | going backward, the next unlock is of the last lock still held |
| LockPlans.LastInFirstOut | delete.go:148-158 | the lock taken last is released first |
| Batches.ForgotManyMeans | delete.go:138-141 | forgetting a set of keys marks their registered calls, and no others |
| Batches.BatchIsOneByOne | delete.go:86-94 | removing a set of keys is removing them one by one, in any order, with any repetitions, and counts each resident key once |
| Mutations.Cache.Lock | delete.go:115-116 | demands that the lock is above all locks held |
| Mutations.Cache.Conservation | stats.go:165-178 | inserted = resident + evictions + expirations counted by all segments + deleted + cleared; every lookup, mutation, cleanup and publication of a load keeps this balance |
| Mutations.Cache.PublishLoaded | load.go:246-279 | a result whose call has been forgotten is dropped; any other is stored with the cache's own ttl, if there is a value |
| Mutations.Cache.Get | lookup.go:50-61 | AfterGet on the key's segment; no other segment changes |
| Mutations.Cache.Exists | lookup.go:10-19 | AfterExists on the key's segment; what has expired is counted |
| Mutations.Cache.RefreshTTL | lookup.go:32-41 | AfterRefreshTTL on the key's segment |
| Mutations.Cache.DeleteExpired | delete.go:206-220 | everything due goes, from every segment, and the number of it is returned |
| Mutations.Cache.Set | set.go:15-48 | under the lock of the key's segment its call is forgotten, then the value stored with its deadline |
| Mutations.Cache.InsertIfAbsent | set.go:82-106 | under the lock the call is forgotten in any case; a value is stored only if there is no live one |
| Mutations.Cache.GetOrSet | set.go:62-107 | a live entry is returned without lock or barrier; otherwise the value is stored under both |
| Mutations.Cache.GetAndDelete | delete.go:24-52 | the call is forgotten, a live entry returned and removed, a deletion counted exactly then |
| Mutations.Cache.DeleteOne | delete.go:69-77 | the single-key path is the batch of one key |
| Mutations.Cache.DeleteUnderOneLock | delete.go:79-99 | the single-segment path removes and forgets the same as a batch |
| Mutations.Cache.LockAll | delete.go:124-134 | acquires each segment of the targets once, upward |
| Mutations.Cache.UnlockAll | delete.go:148-158 | releases exactly what was acquired, in reverse |
| Mutations.Cache.Delete | delete.go:64-161 | contents without the keys, their calls forgotten, the number of distinct resident keys recorded at the first key's segment, locks up and down |
| Mutations.Cache.Clear | delete.go:173-193 | every lock upward, every call forgotten, every segment emptied, every lock downward |
| CacheLaws.SetThenGet | set.go:15-48 | what has been stored is read back until its deadline and not from then on; without jitter that is exactly now plus the ttl asked for |
| CacheLaws.GetOrSetThenGet | set.go:62-107 | what a get-or-set returns is what the next get returns, until the deadline that came with it |
| CacheLaws.DeleteThenGet | delete.go:64-161 | what has been deleted is not found |
| RecencyStack.StackIsMostRecent | segment.go:354-386 | a list of capacity C is the first C of all keys by recency |
| RecencyStack.Inclusion | segment.go:214-255 | the list at a smaller capacity is a prefix of that at a larger one |
| RecencyStack.HitsGrow | benchmarks/performance/hitratio/internal/policy/policy.go:21-35 | hits never fall as capacity grows |
| RecencyStack.OrderedByLastUse | segment.go:506-513 | keys are listed by the position of their last use |
| TracePolicy.RecordIsTouch | benchmarks/performance/hitratio/internal/policy/policy.go:21-35 | a lookup, then an insertion if it missed, is one reference to the recency list; the value is always the key's |
| TracePolicy.Policy.Record | benchmarks/performance/hitratio/internal/policy/policy.go:12-35 | over any number of segments: after any trace each segment holds the recency list of its part of the trace, and the counters are its hits and misses |
| TracePolicy.HitsAddUp | benchmarks/performance/hitratio/internal/policy/policy.go:21-35 | the hits of a trace are those of its parts, each on the list of its own segment |
| TracePolicy.RoutedHitsGrow | benchmarks/performance/hitratio/internal/policy/policy.go:12-35 | with the same routing, more entries in all cost no segment a hit, and each list is a prefix of the larger one |
| TracePolicy.MoreRoomMoreHits | benchmarks/performance/hitratio/internal/policy/policy.go:37-43 | of two drivers with the same trace, hash and segment count the larger has no fewer hits and no more misses |
| Runs.StepBalance | segment.go:333-491 | every operation keeps keys distinct and the capacity, and balances insertions against what is left and gone |
| Runs.NeverOverBudget | storage.go:61-78 | at any point of any run at most maxEntries are resident |
| Runs.DeadlineIsLatest | segment.go:97-109 | as long as a key is not stored again, its entry has the latest of its own deadline and all that were offered since |
| Runs.LatestBounds | segment.go:240-248 | a stale timestamp never shortens a deadline, and a renewal is never lost |
| Singleflight.Group.StartCall | internal/singleflight/group.go:134-156 | joins the live wave of the key or registers a new one, and says which |
| Singleflight.Group.Forget | internal/singleflight/group.go:210-219 | marks and unregisters the live wave of the key |
| Singleflight.Group.ForgetAll | internal/singleflight/group.go:223-232 | marks and unregisters every live wave, in whatever order they are visited |
| Singleflight.Group.Finish | internal/singleflight/group.go:234-245 | closes the wave; the key is freed only if it still leads to this wave |
| Singleflight.Group.DoCall | internal/singleflight/group.go:164-205 | the wave is completed for every way in which its work can end: result, error, panic or exit |
| Waves.WaitersGet | internal/singleflight/group.go:81-107 | from registration to completion, whatever else happens to the group: a waiter gets what the work came to, a panic or exit takes effect again, shared exactly if another caller joined |
| Waves.FinishedFrees | internal/singleflight/group.go:234-245 | an old wave's end never removes a newer wave, and touches no other wave |
| Waves.DoneIsFrozen | internal/singleflight/group.go:112-120 | no operation changes a completed wave |
| SoundHistories.EnterSound | load.go:205-209 | registration keeps the history of a segment consistent |
| SoundHistories.PublishSound | load.go:258-279 | so does publication of a wave that is still registered |
| SoundHistories.CloseSound | internal/singleflight/group.go:234-245 | so does completion with the outcome the events demand |
| SoundHistories.BarrierSound | internal/singleflight/group.go:210-219 | so does a barrier |
| SoundHistories.WriteSound | set.go:38-45 | so does a write, if the key has no live wave |
| LoadSteps.StartStep | load.go:205-209 | StartCall under the read lock keeps what its process knows and disturbs no other |
| LoadSteps.PeekStep | set.go:76-78 | likewise the lookup of a GetOrSet before it locks |
| LoadSteps.RecheckStep | load.go:216-224 | likewise the owner's recheck |
| LoadSteps.LoaderStarts | load.go:226-228 | likewise the start of its loader |
| LoadSteps.TestStep | load.go:258-266 | likewise the test for a barrier, under the read lock |
| LoadSteps.StoreStep | load.go:268-277 | likewise the store write, still under that lock |
| LoadSteps.FinishStep | internal/singleflight/group.go:179-185 | likewise the completion of the wave |
| LoadSteps.ActStep | set.go:27-47 | likewise every action of a mutation under its locks, each a step of its own |
| LoadSteps.ForgetsFirst | delete.go:138-146 | a mutation writes no key that it has not forgotten before |
| LoadInvariant.Undisturbed | load.go:202-209 | what a process knows survives any step of another |
| LoadSafety.StepKeeps | load.go:169-300 | every step of the system keeps the invariant |
| LoadSafety.AlwaysOk | load.go:169-300 | the invariant holds in every reachable state |
| LoadTheorems.PublicationSafety | load.go:255-281 | no barrier of its key lies between a wave's registration and its publication; the test is positive exactly for such a barrier |
| LoadTheorems.ForgottenExactly | internal/singleflight/group.go:210-232 | a call is marked forgotten exactly if a barrier of its own key, or a clear, came while it was registered |
| LoadTheorems.JoinersAreFresh | load.go:205-224 | the source of a joined wave lies after every write that precedes the join |
| LoadTheorems.NothingStale | load.go:286-299 | whoever receives a result entered its wave, and the result's source lies after every write before that |
| LoadTheorems.ReadsAreFresh | load.go:184-190 | every value read is that of the latest write, or was loaded by a wave registered after it |
| LoadTheorems.WaveDiscipline | internal/singleflight/group.go:134-156 | a key leads to a wave exactly while that is registered, not forgotten and not finished; at most one is |
| LoadTheorems.PublishedInTurn | load.go:268-277 | publications of a key come in the order of registration, each before the next wave begins |
| LoadProgress.ClosedExactlyOnce | internal/singleflight/group.go:179-185 | when the process that began a wave is idle again, the wave has been closed once and only once |
| LoadTheorems.ClosedOnce | internal/singleflight/group.go:179-185 | the close of a wave comes after all else its owner does and before anybody receives; then its key is free of it |
| LoadTheorems.ClosedRightly | load.go:215-283 | for every loader outcome, and without a loader, the wave is closed with the right one; errors come before supersession |
| LoadTheorems.SupersededExactly | load.go:230-266 | ErrLoadSuperseded exactly if the loader succeeded and a barrier came before the test, or the loader returned it; so the error tells of a barrier exactly for loaders that do not return it |
| LoadExceptions.SupersededByItsLoader | load.go:230-236 | an execution without any barrier in which a load ends in ErrLoadSuperseded |
| LoadBarriers.AlwaysOrderly | set.go:38-45 | under its lock every mutation answers each barrier by its write, or as a GetOrSet by finding a live entry, before anything else happens there |
| LoadBarriers.BarredWithoutWrite | set.go:84-102 | the test finds a barrier though the key has not been written since the wave began exactly if every barrier was a GetOrSet that found a live entry |
| LoadBarriers.SupersededWithoutWrite | errors.go:15-18 | so ErrLoadSuperseded, unless it is the loader's own, comes without a newer write exactly in that case |
| LoadExceptions.SupersededByNoWrite | set.go:76-102 | an execution in which nothing ever writes the key and a successful load of it is superseded, by a GetOrSet that had not found the key at first; entries leave only by expiration |
| LoadTheorems.SameForAll | internal/singleflight/group.go:81-107 | all who receive from a wave get the same: what it was closed with, again as a panic or exit if it was one or was returned as one, and shared exactly if anybody joined |
| LoadTheorems.CallersGetTheLoad | load.go:230-300 | from the loader to the caller: its value is what every caller receives unless a barrier has overtaken it; errors, panics and exits come through as what they are |
| LoadTheorems.CallersGetTheEntry | load.go:216-224 | a wave that has taken the resident entry hands on that entry |
| LoadAccounts.WhatIsOverIsDone | load.go:169-300 | an operation that is over has done exactly what it has to do, in order, and nothing else: for loads, Set, GetOrSet, GetAndDelete, Delete of any batch, and Clear, whatever the others did |
| LoadAccounts.AlwaysTrue | load.go:202-279 | what an operation logs agrees with the store and the calls at that moment and with what becomes of the store; registrations, tests and publications under a read lock, barriers and writes under the write lock |
| LoadAccounts.EntrantsReceive | load.go:286-299 | whoever has entered a wave and has not given up receives that wave's outcome before its load is over, unless its own loader has made it exit |
| LoadAccounts.LoaderOnlyAfterMisses | load.go:184-228 | a loader runs only after the key has been missed by the lookup, and again between the registration and the loader |
| LoadAccounts.ResidentIsReturned | load.go:184-190 | an entry that is resident whenever a load looks is all that the load returns |
| LoadAccounts.SetStores | set.go:38-45 | a Set that is over has set its barrier and then stored exactly its own value |
| LoadAccounts.AlwaysLocal | delete.go:115-134 | no operation locks or touches a segment to which none of its keys is routed |
| LoadTheorems.LogsOnlyGrow | internal/singleflight/group.go:112-120 | from state to state logs only grow and a completed wave never changes |
| LoadProgress.NoDeadlock | delete.go:115-134 | while any operation is unfinished some process can step, even if waiting writers keep readers out |
| LoadProgress.LockersMove | delete.go:178-180 | whoever waits for a write lock waits, in the end, for a process that can step |
| LoadProgress.NeverStuck | load.go:205-209 | no execution reaches a deadlock |
| LoadProgress.StepShortens | load.go:169-300 | every step brings its operation closer to its end |
| LoadProgress.OperationsEnd | load.go:169-300 | however they are interleaved, the operations under way end after a bounded number of steps |
| LoadProgress.RunsToIdle | load.go:169-300 | from every reachable state the operations under way can all be brought to their end |
| LoadProgress.StuckMeansIdle | load.go:169-300 | and a stretch that cannot be carried on has ended them all |
| LoadProgress.IdleHoldsNothing | delete.go:148-158 | between operations a process holds no lock and owes no wave |

## Left out

- Nil receivers, zero-value caches, option setters, name, and the assembly of statistics snapshots: single-branch facts.
- Negative deadlines, segments of capacity zero and a disabled expiration index: they arise only from internal construction.
- Real clocks, timers, `Gosched`, the delays between quanta and the start and stop of the worker: time is a parameter, the time budget an arbitrary function.
- The hash function and the random source: any function, and any draw below its bound.
- Counters updated outside a lock (loads, shared waits, supersessions, worker runs) are not modelled.
- The panic "invalid expiration bucket heap value": the heap is typed here, so the type test cannot fail.
- getLocked and getEntryLocked, lookup and lookupEntry, getOrSet and getOrSetEntry differ only in what they return and are modelled once.
- Mutations.Cache.Lock: blocking and mutual exclusion are the business of the load protocol; here an operation runs alone, and what counts is the order in which it locks.
- Mutations.Cache.PublishLoaded: the other parts of getOrLoad have no method here; they are steps of the load protocol.
- LoadAccounts.WhatIsOverIsDone: an operation that never ends because its loader never ends is not over.
- Mutations.Cache.Delete: the library sort is any permutation of the keys that is ascending by segment, given as an argument.
- Mutations.Cache.GetOrSet: between the first lookup and the lock nothing else happens here; interleavings are the business of the load protocol.
- LoadProtocol.LoadStep: values and error of a wave are set in the step that closes it, as nobody reads them earlier.
- LoadProtocol.LoadStep: a loader does not itself use the cache; a loader that loads its own key would wait for itself.
- LoadProtocol.Upkeep: time is absent from the protocol; expiration, eviction and renewal are removals and deadline changes that may happen at any moment, an eviction also without the insertion that causes it; a joined waiter may receive an entry that has expired since.
- LoadProtocol.MutationStep: a batch arrives with its keys sorted by segment.
- LoadProgress.NoDeadlock: a loader is assumed to end; nothing is said about a loader that runs forever.
- LoadTheorems.ReceivedAfterClose: when a wait is cancelled and its wave is done, either may be observed, so nothing is claimed for that race.
- SegmentedStorage.Store.CleanupExpired: drains and worker quanta are not interleaved with other operations on the same segments.
- Panic values, stack traces, error wrapping and contexts beyond "given up".
