# MiniEngine's paged KV cache, verified

A Dafny 4.11 model of MiniEngine's paged memory manager and of the scheduler that drives it.
`dafny verify dfyconfig.toml` checks all of it.

MiniEngine serves language-model requests.  The keys and values of a request live in pages of a
pool.  A radix tree remembers which token prefixes are already in which pages; requests borrow
them under locks, and unlocked entries are evicted when the pool runs short.  A second tier moves
evicted pages to the CPU and back.  The engine reserves a request's worst case before it starts,
and the scheduler admits, prefills, retracts, decodes, finishes and aborts.

The code changes state in place, and so does the model: nodes, caches, pools, requests, engine
and scheduler are classes with the source's fields and loops.  Each class carries a ghost
snapshot of its state, and its methods are proved against functions and relations on snapshots.

| layer | files | what they hold |
|---|---|---|
| pages | `Paging`, `KvData`, `Wrappers` | page arithmetic, token lists cut into pages |
| tree | `TreeModel`, `TreeOps`, `TreeLocks`, `TreeCount`, `TreeWalk`, `TreeInsert`, `TreeEvict` | snapshots of the radix tree: shape, splits, counts, walks, evictions |
| prefix cache | `RadixCache`, `CacheRuns` | the cache and the page pool on the heap; runs of cache events |
| page ledger | `PageLedger`, `CommitLedger`, `CommitData` | every page in exactly one place; when a commit keeps that, and when it binds only computed pages |
| two tiers | `Tiers`, `TierRoom`, `TierSweep`, `TierShort`, `TierRun`, `TierWalk`, `TierLookup`, `TierFits`, `HiCache` | GPU and CPU tier: demotion, promotion, contents; what a sweep frees; when a lookup's answer is current |
| data | `KvStore`, `EngineData` | storing, appending and gathering keys and values, also in the pages of a live request |
| engine | `Requests`, `RequestViews`, `Engine` | reservation, prefill, decode, commit |
| scheduler | `SchedulerModel`, `SchedulerSteps`, `SchedulerFaults`, `SchedulerProgress`, `Scheduler` | one step, its faults, whole runs |

## Main results

1. **Allocation** succeeds exactly when free plus evictable pages suffice (`KVMemoryPool.Allocate`).
2. **The tree is a map.**  Lookup returns the longest bound prefix, insertion is map insertion,
   splitting is invisible, eviction removes only unlocked prefixes (`MatchPrefix`,
   `InsertAndReturn`, `SplitEdge`, `Evict`).
3. **Lock counts** are the locks outstanding below a node, in every state; a borrowed page stays
   bound at its prefix on every run until its lock is released (`BorrowSafe`).
4. **Page ledger.**  Free list, tree and private pages partition the pool through lookup,
   reservation, rollback, eviction, prefill and decode.  A commit keeps this if and only if its
   walk is clean (`CommitConservesIff`).
5. **Two tiers.**  Through any nest of promotion, allocation, eviction, demotion and CPU eviction
   tree, counts and CPU ledger hold, and the contents of every prefix still bound are unchanged
   as long as no GPU page is bound or free twice, which an unclean commit can break
   (`HiRadixCache`, `GpuApart`).  A demotion succeeds exactly when its edge fits the free CPU pages
   and those of the unlocked CPU subtrees (`DemoteNode`).
6. **Reservation suffices.**  No decode step allocates, and its writes go to private pages
   (`DecodeOne`, `BatchedDecode`).
7. **The scheduler** keeps every request on exactly one list, under both caps, the queue in
   arrival order, over all runs including engine calls that raise (`Turn`).  A request's stream is
   its outputs in order, closed by one terminator when it is finished, if and only if that request
   lost no token in streaming and was finished once (`StreamExact`).  Engine calls that raise lose
   no token and finish nobody twice, so while every token can be streamed all streams are exact
   (`Turn`, `Serve`).  Admitted requests leave flight within an exact number of steps
   (`Completes`).
8. **Data.**  In the pages of a live request a prompt stored from the start and its decoded tokens
   are read back as they were written; if it borrows nothing, no page in any other place changes
   (`LiveRoundTrip`).  Tokens written past the borrowed pages never change anybody else's
   (`LiveWrites`), so however live requests interleave such writes, each reads back exactly its own
   (`InterleavedExact`).

## Where the code falls short

Seven properties one would expect are false of the code.  For each the exact condition is proved,
for the last one in caches whose CPU tier has room and in which everything was accessed earlier.

- **Commits can lose or share pages.**  `insert_and_return` compares a whole edge's pages at once
  and reports nothing for an edge it splits.  A commit that fully crosses an edge straddling the
  end of the borrowed prefix frees borrowed pages; one that leaves an edge past it leaks its own
  (`CommitConservesIff`, `UncleanCommit`).
- **Continuation chunks overwrite the beginning.**  A prefill slice is always stored from token 0.
  It becomes the next part of the request's data if and only if nothing was stored before or it is
  empty (`StoreNextIff`, `LiveStoreNextIff`).  It leaves the borrowed pages alone if and only if
  none is borrowed (`StoreSparesIff`, `BorrowedSparedIff`), and every partial hit goes on with such
  a slice (`PartialHitContinues`, `Advance`).
- **Commits can bind pages that were not computed.**  A commit takes its length from the tokens of
  the request, not from how many of them have keys and values in its pages.  A prefix it newly
  binds holds its tokens' entries if and only if all of them were computed (`PrefixFilledIff`).  A
  request that finishes, or is aborted before its newest token was fed back, is one entry behind
  (`EndsOneBehind`): its commit is sound if and only if it binds nothing new or prompt and outputs
  do not end on a page boundary (`FinishFilledIff`).  A prompt aborted half-way is committed as a
  whole: that is sound if and only if it binds nothing new or all of its whole pages were computed
  (`AbortFilledIff`).
- **The batched append does not reach the pool.**  Indexing a tensor with two index tensors makes a
  new tensor, and `copy_` writes into that one.  The pool is unchanged for every batch, which is
  the effect of appending request by request if and only if the batch is empty (`AppendBatch`,
  `BatchAppendIff`).  After a decode step of that fallback a request reads its old tokens and then
  whatever its next slot held before, so the round trip holds if and only if nobody decodes
  (`DecodeReadsStale`, `DecodeRoundTripIff`).  An indexed assignment would have the effect of
  appending one by one if and only if all targets differ (`ScatterAppendIff`), as they do while no
  page has two owners (`WritesDiffer`).
- **A request can be finished twice.**  When a token cannot be streamed after an earlier request
  of the same prefill batch has moved to the running list, that request is on both live lists, and
  the clean-up finishes again exactly those on both (`FinishedAgain`, `FinishOnceIff`,
  `FinishedTwice`).
- **An eviction sweep can leave evictable pages behind.**  The comments in
  `miniengine/hicache.py:226-232` suggest that every page counted as evictable can be reclaimed.
  A sweep takes each node once, oldest first, and passes a node over when it can neither be demoted
  nor dropped: it has more pages than the CPU tier can make room for, and something below it is
  locked or on the GPU at that time.  Both are told from the cache the sweep begins with and the
  order of its nodes (`PassedOver`, `RunMirrors`), and so is what it frees.  It falls short of what
  is needed and evictable if and only if that order yields less than is needed and some node of it
  is passed over (`ShortIff`).  A node that is older than an unlocked child of its own and longer
  than the CPU pool always is (`FallsShort`); in a cache of three evictable pages any sweep frees at
  most one (`TallFallsShort`).
- **A tiered lookup can answer with pages that are gone.**  `match_prefix` collects the pages of an
  edge and goes on; promoting an edge further down may demote the collected one and reuse its
  pages.  When the CPU tier has room for all that is evictable and everything was last accessed
  before the lookup, it succeeds with the pages of its prefixes if and only if the query's edges
  that are on the CPU or unlocked, each as a whole, have no more pages than are free or evictable
  (`HiRadixCache.MatchPrefix`, `CurrentFits`): the edges already crossed are the last ones a sweep
  takes.  In any cache free pages for the query's way on the CPU are enough (`InPlaceCurrent`).
  `StaleLookup` is a lookup that goes wrong, `HalfSound` a cache to start it in.

## Reading the statements

A `Path` is a token list cut into pages.  `Bindings()` maps each prefix in the tree to the page
that ends it.  `View()` adds the locked paths; `Books` is the page ledger, `Holds` says in which
place a page is, and `Ledger` that each page of the pool is in exactly one.  `Now()` is the state
of both tiers and `Holdings` maps each prefix to the data of its page.  A `View` of requests maps
each request to a snapshot of its fields; `Sched` is the scheduler's state, `Boundary` what holds
between steps and `Torn` what holds after a step that raised.

`PagesNeeded` is the exact integer ceiling; the source divides in floating point.  The tokenizer,
the model, the sampler, the clock and every exception a call may raise are arbitrary choices.

## Model

| member | source | states |
|---|---|---|
| `Paging.MatchKeys` | miniengine/radix_cache.py:305-312 | the page-by-page comparison answers exactly the page size times the number of leading whole pages on which both lists agree |
| `Paging.BlocksOf` | miniengine/radix_cache.py:297-298 | aligning a length keeps all whole pages of the list, with their tokens, and drops only the partial last page |
| `Paging.BlocksFlat` | miniengine/radix_cache.py:301-302 | cutting a page-aligned list into pages and joining the pages again are inverse |
| `Paging.BlocksPrefix` | miniengine/engine.py:1013-1015 | the whole pages of prompt plus outputs begin with the whole pages of the prompt |
| `Paging.NeedIsCeiling` | miniengine/kv_memory_pool.py:89-91 | `k` pages hold `n` tokens if and only if `k` is at least `pages_needed(n)` |
| `TreeModel.PathsUnique` | miniengine/radix_cache.py:34-46 | in a well-formed tree no two nodes spell the same tokens |
| `TreeModel.PrefixClosed` | miniengine/radix_cache.py:63-69 | the prefixes the tree binds are closed under taking shorter nonempty prefixes |
| `TreeModel.AncestorStep` | miniengine/radix_cache.py:132-148 | a node whose tokens begin those of another lies on the other one's walk to the root |
| `TreeOps.SplitWF` | miniengine/radix_cache.py:329-358 | splitting an edge at an inner page boundary keeps every structural invariant of the tree |
| `TreeOps.SplitBind` | miniengine/radix_cache.py:329-358 | splitting an edge leaves the map from prefixes to pages unchanged |
| `TreeOps.SplitTier` | miniengine/radix_cache.py:341-349 | both halves of a split edge stay in the tier of the edge, so what each tier holds is unchanged |
| `TreeOps.LeafWF` | miniengine/radix_cache.py:315-326 | hanging a new leaf under a node that has no child for its first page keeps the structural invariants |
| `TreeOps.LeafBind` | miniengine/radix_cache.py:177-184 | attaching the leaf is insertion into the map: missing prefixes get the incoming pages, old ones keep theirs |
| `TreeOps.DropWF` | miniengine/radix_cache.py:240-245 | removing a childless node from its parent keeps the structural invariants |
| `TreeOps.DropBind` | miniengine/radix_cache.py:240-245 | removing a childless node unbinds exactly the prefixes ending on its edge |
| `TreeCount.LeafSize` | miniengine/radix_cache.py:180-181 | the cached-page count grows by exactly the pages of the new leaf |
| `TreeCount.DropSize` | miniengine/radix_cache.py:240-245 | and falls by exactly the pages of a dropped one |
| `TreeLocks.LockCounted` | miniengine/radix_cache.py:132-138 | after the lock walk every node's count is again the number of locks held on its subtree |
| `TreeLocks.UnlockCounted` | miniengine/radix_cache.py:140-148 | and after a release |
| `TreeLocks.SplitCounted` | miniengine/radix_cache.py:329-358 | a split that copies the count to the new upper node keeps that equation |
| `TreeLocks.CountsMonotone` | miniengine/radix_cache.py:132-148 | counts are never negative and a node's count is at least that of everything below it |
| `TreeLocks.UnlockedBelow` | miniengine/radix_cache.py:215-255 | below an unlocked node everything is unlocked, so leaf-first eviction is never stuck above a lock |
| `TreeLocks.LockedPrefix` | miniengine/radix_cache.py:132-138 | the node holding any prefix of a locked path has a positive count |
| `TreeWalk.LongestUnique` | miniengine/radix_cache.py:86-87 | a query has only one longest bound prefix |
| `TreeWalk.StopLongest` | miniengine/radix_cache.py:101-123 | where the walk stops, nothing longer is bound |
| `TreeWalk.EdgeDiverges` | miniengine/radix_cache.py:108-119 | when an edge is left in its middle, no longer prefix of the query is bound |
| `TreeWalk.ChildRefreshed` | miniengine/radix_cache.py:105-123 | refreshing the next child extends the path of refreshed nodes by exactly that edge |
| `TreeWalk.ClimbStep` | miniengine/radix_cache.py:145-148 | a release refreshes the nodes it passes, one edge at a time |
| `PrefixCache.RadixCache.FindChild` | miniengine/radix_cache.py:101-108 | one step of a walk: no child means the next prefix is unbound; otherwise how many pages of the edge agree |
| `PrefixCache.RadixCache.MatchPrefix` | miniengine/radix_cache.py:86-130 | returns the longest bound page-aligned prefix, its pages in order, and the node holding its last page; refreshes exactly the nodes from the root to that node; the zero-length branch is dead |
| `PrefixCache.RadixCache.WalkToRoot` | miniengine/radix_cache.py:136-148 | the walk terminates at the root and changes the count of exactly the nodes above and including its start |
| `PrefixCache.RadixCache.IncLockRef` | miniengine/radix_cache.py:132-138 | takes a lock: counts stay equal to outstanding locks, access times untouched |
| `PrefixCache.RadixCache.DecLockRef` | miniengine/radix_cache.py:140-148 | releases it: same equation, and the nodes walked, and only they, are refreshed |
| `PrefixCache.RadixCache.SplitNode` | miniengine/radix_cache.py:329-358 | the pointer surgery refines the split of the abstract tree; the source's assertions hold |
| `PrefixCache.RadixCache.SplitEdge` | miniengine/radix_cache.py:189-202 | the map, the locks and all invariants survive a split, and the new node spells the edge up to the cut |
| `PrefixCache.RadixCache.MakeChild` | miniengine/radix_cache.py:315-326 | the pointer surgery of a new leaf refines the abstract one |
| `PrefixCache.RadixCache.InsertAndReturn` | miniengine/radix_cache.py:150-213 | refines insertion into the prefix map: adds exactly the missing prefixes, keeps old bindings, returns the node spelling the aligned tokens and exactly the incoming pages of fully crossed edges whose page run differs; raises exactly when pages are too few |
| `TreeInsert.CrossReported` | miniengine/radix_cache.py:204-210 | the pages one full edge contributes to the redundant list: its whole run or nothing |
| `PrefixCache.RadixCache.CollectLeaves` | miniengine/radix_cache.py:272-282 | collects exactly the unlocked leaves of a subtree |
| `PrefixCache.RadixCache.PopOldest` | miniengine/radix_cache.py:228 | takes a heap entry with the least access time |
| `PrefixCache.RadixCache.Evict` | miniengine/radix_cache.py:215-255 | evicts in least-recently-used order, leaf by leaf, until enough is freed or nothing evictable is left; what is unbound is exactly what is freed and never lies on a locked path |
| `TreeEvict.DropEvictable` | miniengine/radix_cache.py:238-253 | dropping an unlocked leaf takes exactly its pages from the evictable ones |
| `TreeEvict.NoLeafNoPageIf` | miniengine/radix_cache.py:227 | when no unlocked leaf is left no page is evictable: cascading reaches everything |
| `TreeEvict.RunUnbound` | miniengine/radix_cache.py:227-253 | a whole eviction run unbinds exactly the prefixes of the dropped edges and frees exactly their pages |
| `PrefixCache.RadixCache.CountPages` | miniengine/radix_cache.py:284-294 | counts exactly the bound prefixes of a subtree whose node is locked, or unlocked |
| `PrefixCache.RadixCache.NumEvictablePages` | miniengine/radix_cache.py:82-84 | is the number of evictable prefixes of the specification |
| `PrefixCache.RadixCache.Reset` | miniengine/radix_cache.py:257-270 | returns the page of every bound prefix to the pool and binds nothing afterwards |
| `PrefixCache.KVMemoryPool.Pop` | miniengine/kv_memory_pool.py:83 | pops from the end of the free list |
| `PrefixCache.KVMemoryPool.Allocate` | miniengine/kv_memory_pool.py:69-83 | succeeds if and only if the request is at most the free plus the evictable pages at entry; the pages come off the free list extended by what was evicted, and without need nothing is evicted |
| `CacheRuns.InsertIsStep` | miniengine/radix_cache.py:150-213 | an insertion, seen from outside, only adds bindings and moves no lock |
| `CacheRuns.EvictIsStep` | miniengine/radix_cache.py:215-255 | an eviction, seen from outside, unbinds no prefix of a locked path |
| `CacheRuns.BorrowSafe` | miniengine/engine.py:650-658 | on every run of insertions, evictions, locks and releases by others, from taking a lock to releasing it every prefix on the locked path keeps its page |
| `PageLedger.EvictLedger` | miniengine/radix_cache.py:240-245 | the page ledger survives an eviction |
| `PageLedger.TakeLedger` | miniengine/engine.py:660-669 | and pages moving from the free list to a request |
| `CommitLedger.ReportedIff` | miniengine/radix_cache.py:204-207 | a page of the commit is reported redundant exactly when its edge is fully crossed and ends past the borrowed prefix |
| `CommitLedger.CommitConservesIff` | miniengine/engine.py:1008-1028 | a commit keeps "every page in exactly one place" if and only if its walk fully crosses no edge straddling the borrow boundary and leaves no edge past that boundary |
| `CommitLedger.DoublyOwned` | miniengine/engine.py:1008-1028 | a commit that reports a borrowed page redundant breaks the ledger: the page is then both free and in the tree |
| `CommitLedger.Leaked` | miniengine/engine.py:1008-1028 | a commit that does not report a private page whose prefix is already bound breaks the ledger: the page is then nowhere |
| `CommitLedger.UncleanCommit` | miniengine/radix_cache.py:199-202 | a concrete two-page tree and commit for which conservation fails |
| `CommitData.PrefixFilledIff` | miniengine/engine.py:1013-1021 | the page a commit newly binds to a prefix holds the entries of its tokens, whatever pool and entries are, if and only if all of these tokens were computed |
| `CommitData.CommitFilledIff` | miniengine/engine.py:1013-1021 | all newly bound pages do if and only if nothing new is bound or all of the committed tokens were computed |
| `CommitData.FinishFilledIff` | miniengine/scheduler.py:300-302 | a request that finishes, or is aborted before its newest token was fed back, commits one token more than was computed: that is sound if and only if nothing new is bound or prompt and outputs do not end on a page boundary |
| `CommitData.AbortFilledIff` | miniengine/scheduler.py:326-331 | an aborted prompt is committed as a whole: that is sound if and only if nothing new is bound or its whole pages were computed |
| `PagedEngine.BorrowsStep` | miniengine/engine.py:650-658 | what others do to the cache leaves a request's borrowed prefix in place |
| `PagedEngine.DecodeFits` | miniengine/engine.py:1214-1221 | a reserved request with fewer than `max_new_tokens` outputs has a page for its next token, past the borrowed ones |
| `PagedEngine.Undone` | miniengine/engine.py:624-639 | taking a lock, evicting, and releasing it restores all locks and the counts of all remaining nodes |
| `PagedEngine.WritesDiffer` | miniengine/engine.py:1231-1257 | while no page has two owners the targets of a batch of decode writes are pairwise different |
| `PagedEngine.Engine.constructor` | miniengine/engine.py:55 | a fresh engine satisfies every invariant, ledger included |
| `PagedEngine.Engine.BorrowPrefix` | miniengine/engine.py:650-658 | looks the prompt up, locks what was found, and starts prefill after it; the lock covers every matched page |
| `PagedEngine.Engine.ReservePages` | miniengine/engine.py:660-665 | allocation for one request succeeds exactly when free plus evictable pages suffice, and disturbs no live request and no lock |
| `PagedEngine.Engine.Rollback` | miniengine/engine.py:624-639 | returns new pages, releases the lock and blanks the request |
| `PagedEngine.Engine.PagedPrefillInit` | miniengine/engine.py:641-672 | on success the request holds exactly its peak pages, the matched ones first; on failure everything it took is given back, with locks and counts restored; success is characterised exactly; the ledger is kept either way |
| `PagedEngine.Engine.PayIn` | miniengine/engine.py:1012-1026 | the pages of a committed sequence go to the tree, the redundant and the surplus ones to the free list, by exact equation |
| `PagedEngine.Engine.CommitRequest` | miniengine/engine.py:1008-1028 | the same, with the lock released and the request no longer live |
| `PagedEngine.Engine.FreeRequestKv` | miniengine/engine.py:992-1006 | keeps the page ledger if and only if the walk of the commit is clean; a no-op for a request without pages |
| `PagedEngine.Engine.FreeClean` | miniengine/engine.py:992-1006 | over whole runs the ledger holds as long as every commit so far was clean |
| `PagedEngine.Engine.CanAdmit` | miniengine/engine.py:222-233 | admits exactly when all peaks fit the pool and the candidate's peak is allocatable now |
| `RequestViews.CallsFall` | miniengine/engine.py:486-502 | each prefill call leaves one call fewer of the ceiling of rest over chunk, and the last ends exactly at the end of the prompt |
| `PagedEngine.Engine.Chunk` | miniengine/engine.py:578-622 | one chunk moves offset and length together, by the chunk size or to the end; a token comes out exactly at the end |
| `PagedEngine.Engine.StageOne` | miniengine/engine.py:424-437 | one request of a batch: failed init flags it and leaves it blank, otherwise it is settled or queued for its forward pass |
| `PagedEngine.Engine.PrefillBatch` | miniengine/engine.py:403-484 | a batch that does not raise takes every request exactly one call on or flags it; one that raises leaves streams, outputs and all other requests alone, and every invariant intact |
| `PagedEngine.Engine.DecodeOne` | miniengine/engine.py:1243-1254 | the allocation branch is never taken; the write goes to a page of the request's own past its borrowed ones |
| `PagedEngine.Engine.BatchedDecode` | miniengine/engine.py:859-972 | every decoded request grows by one slot, no allocation happens, and while the ledger holds all writes of a batch go to different slots |
| `Tiers.PoppedApart` | miniengine/hicache.py:89-94 | freshly popped pages are distinct, real, and bound nowhere |
| `Tiers.DemotePreserves` | miniengine/hicache.py:318-335 | moving an edge to the CPU keeps every prefix's contents, the locked nodes and the GPU pages' distinctness, and brings nothing to the GPU |
| `Tiers.DemoteSound` | miniengine/hicache.py:318-335 | and keeps tree, counts and the CPU page ledger |
| `Tiers.DropPreserves` | miniengine/hicache.py:366-371 | dropping a leaf keeps the contents of all prefixes that remain |
| `Tiers.PromotePreserves` | miniengine/hicache.py:313-316 | moving an edge to the GPU keeps every prefix's contents and the GPU pages' distinctness |
| `Tiers.PromoteSound` | miniengine/hicache.py:313-316 | and keeps tree, counts and the CPU page ledger |
| `Tiers.DropEvictableIn` | miniengine/hicache.py:366-371 | dropping an unlocked leaf takes exactly its pages from the evictable ones of its own tier and none from the other |
| `TierSweep.PromotedServed` | miniengine/hicache.py:304-316 | a whole promotion, with whatever its allocation evicted, demoted and dropped, keeps all contents and every locked node |
| `TierSweep.UnpinServed` | miniengine/hicache.py:308-312 | raising and lowering the count around the allocation restores it, also when the allocation raises |
| `TierSweep.SweptDone` | miniengine/hicache.py:233-272 | when a sweep ends with an empty heap nothing evictable is left on the GPU, given room below |
| `TierSweep.GrownSound` | miniengine/radix_cache.py:150-213 | an insertion with GPU pages keeps the CPU ledger and all contents bound before |
| `TierSweep.ResetSound` | miniengine/hicache.py:274-294 | once all pages of each tier are back on its own free list and the tree is empty, both tiers are sound again |
| `TierShort.PassRound` | miniengine/hicache.py:239-270 | a node that is older than an unlocked child of its own and longer than the CPU pool stays where it is through every round of the sweep |
| `TierShort.FallsShort` | miniengine/hicache.py:226-264 | so any sweep frees at most the evictable pages less those of that node, however much is needed |
| `TierRoom.DropReclaimable` | miniengine/hicache.py:353-379 | dropping an unlocked CPU leaf takes exactly its pages from the reclaimable ones, those of unlocked CPU nodes with nothing locked and nothing on the GPU below |
| `TierRoom.NoLeafNoRoom` | miniengine/hicache.py:343-345 | when no unlocked CPU leaf is left no page is reclaimable: the cascade reaches all of them |
| `TierRoom.RoomIs` | miniengine/hicache.py:318-335 | so what the CPU tier can make room for is its size less the pages of CPU nodes that a lock or a GPU node below keeps in the tree |
| `TierSweep.ChildrenLeft` | miniengine/hicache.py:252-262 | a node that could not be demoted then has children exactly if something below it is locked or on the GPU |
| `TierRun.GuardRemains` | miniengine/hicache.py:246-264 | whether a round passes its node over is told by the cache the sweep began with and by which nodes are still on the GPU |
| `TierRun.RunMirrors` | miniengine/hicache.py:219-272 | so which nodes are on the GPU after any number of rounds, and what these have freed, is computed from the cache at entry and the order of the nodes |
| `TierRun.RunLatest` | miniengine/hicache.py:233-243 | whatever was tried was last accessed no later than anything still waiting |
| `TierRun.ShortIff` | miniengine/hicache.py:226-270 | a sweep falls short of what is needed and evictable if and only if, computed from the cache at entry, its order yields less than the need and some node of it is passed over |
| `TierShort.TallSound` | miniengine/hicache.py:226-264 | a concrete sound cache with such a node |
| `TierShort.TallFallsShort` | miniengine/hicache.py:226-264 | three pages are evictable in it, and any sweep frees one at most |
| `PageLedger.FreeBound` | miniengine/hicache.py:89-97 | a pool never has more free pages than pages, so an edge longer than the CPU pool is never demoted |
| `TierWalk.TierWalkEnds` | miniengine/hicache.py:184-217 | the walk ends at the longest bound prefix of the tree as it then is |
| `TieredCache.CPUKVPool.Allocate` | miniengine/hicache.py:89-94 | all or nothing: pops the pages, or returns an empty list and changes nothing |
| `TieredCache.CPUKVPool.Free` | miniengine/hicache.py:96-97 | extends the free list |
| `TieredCache.CopyPages` | miniengine/hicache.py:384-419 | target page by target page the source's data arrives, and no other page changes, when the targets are distinct |
| `TieredCache.HiRadixCache.CollectLeaves` | miniengine/hicache.py:449-465 | exactly the unlocked childless nodes of a tier |
| `TieredCache.HiRadixCache.EvictCpuLru` | miniengine/hicache.py:337-382 | frees CPU pages by dropping unlocked CPU leaves in least-recently-used order, parents in turn, until enough is freed or nothing is reclaimable: every GPU node and every prefix not dropped stays as it was |
| `TieredCache.HiRadixCache.DemoteNode` | miniengine/hicache.py:318-335 | true exactly when the edge fits the free CPU pages and the reclaimable ones: then the node is in the tree, on the CPU, with its contents, and its GPU pages are free; false: it is untouched and nothing is reclaimable; all other nodes stay as they were or are dropped CPU nodes |
| `TieredCache.HiRadixCache.CollectGpuNodes` | miniengine/hicache.py:421-441 | exactly the unlocked GPU nodes, internal ones included |
| `TieredCache.HiRadixCache.Evict` | miniengine/hicache.py:219-272 | takes the nodes in least-recently-used order until the need is met, and no longer, or none is left; keeps all contents still bound; what is freed is exactly what is no longer evictable; with room on the CPU for all that is evictable it frees at least the smaller of the need and the evictable pages without dropping a prefix |
| `TieredCache.HiRadixCache.Allocate` | miniengine/kv_memory_pool.py:69-83 | the pool's allocation over the tiered cache, with the eviction it nests |
| `TieredCache.HiRadixCache.PinnedAllocate` | miniengine/hicache.py:306-312 | while its pages are allocated the node being promoted stays attached with its CPU pages and their data |
| `TieredCache.HiRadixCache.PromoteNode` | miniengine/hicache.py:304-316 | success puts the edge on the GPU; failure leaves it on the CPU; either way contents, ledgers, locks and the cached-page count are right, nothing else came to the GPU, and with enough free pages nothing else moved |
| `TieredCache.HiRadixCache.EnsureGpuPages` | miniengine/hicache.py:299-302 | a node that has been ensured is on the GPU unless an allocation raised |
| `TieredCache.HiRadixCache.MatchPrefix` | miniengine/hicache.py:170-217 | the longest bound prefix of the tree left behind, with as many pages; the last node is on the GPU and its pages are the last ones returned; each earlier page is that of its prefix if the prefix is still on the GPU; exactly the nodes from the root to the last one are refreshed; it does not raise when the free pages suffice, or when no lock is held and the CPU tier has room; with room on the CPU and everything older it succeeds with current pages if and only if the query's edges fit the GPU |
| `TierLookup.AnswersMore` | miniengine/hicache.py:180-209 | one more edge: the pages collected stay those of their prefixes as far as these are still on the GPU |
| `TierFits.OlderGone` | miniengine/hicache.py:239-248 | before a sweep tries a node it has freed every evictable page on nodes accessed earlier, and that was less than the need |
| `TierFits.RunChosen` | miniengine/hicache.py:239-248 | so a node stays on the GPU with its pages whenever the free pages and those on older nodes suffice |
| `TierFits.CrossedSpared` | miniengine/hicache.py:180-209 | an edge the walk has crossed is therefore spared while all edges of the query fit the GPU |
| `TierFits.BalancedMoved` | miniengine/hicache.py:304-316 | each promotion takes as much from what can be had on the GPU as from what the query's edges still need; while they fit it does not raise |
| `TierFits.BoundFits` | miniengine/hicache.py:180-217 | conversely, if everything matched is on the GPU at the end, the query's edges fit |
| `TierFits.CurrentFits` | miniengine/hicache.py:170-217 | with room on the CPU and everything else accessed earlier, the answer is current if and only if the query's edges that are on the CPU or unlocked, each as a whole, have at most as many pages as are free or evictable |
| `TierLookup.InPlaceCurrent` | miniengine/hicache.py:180-217 | which holds when there are free pages for all of the query's way that is on the CPU |
| `TierLookup.InPlaceMoved` | miniengine/hicache.py:304-316 | because each promotion uses up as many free pages as prefixes leave the CPU, and demotes nothing |
| `TierLookup.HalfSound` | miniengine/hicache.py:180-209 | a concrete sound cache with a two-page prompt half on the CPU and one GPU page |
| `TieredCache.StaleLookup` | miniengine/hicache.py:180-217 | looking that prompt up succeeds and answers with two pages, not both those of their prefixes |
| `TieredCache.HiRadixCache.CountPages` | miniengine/hicache.py:467-485 | counts exactly the prefixes of a subtree by lock state and tier |
| `TieredCache.HiRadixCache.NumEvictablePages` | miniengine/hicache.py:296-297 | is the number of evictable GPU prefixes of the specification |
| `TieredCache.HiRadixCache.InsertAndReturn` | miniengine/radix_cache.py:150-213 | the inherited insertion refines the same map, reports the same redundant pages, and leaves the CPU tier and older contents alone |
| `TieredCache.HiRadixCache.Reset` | miniengine/hicache.py:274-294 | the page of every prefix bound in a tier goes back to that tier's free list, and nothing stays bound |
| `KvStore.WriteCell` | miniengine/engine.py:1064-1067 | over distinct pages a write reaches the slot of its own token and no other token's |
| `KvStore.StorePrefillSlice` | miniengine/engine.py:1050-1080 | the page-wise slice copy equals writing the tokens one by one from token 0 on |
| `KvStore.GatherKv` | miniengine/engine.py:1103-1128 | reads exactly the tokens in order |
| `KvStore.AppendToken` | miniengine/engine.py:1207-1229 | writes one token into the slot after the last |
| `KvStore.AppendRoundTrip` | miniengine/engine.py:1207-1229 | tokens written where the data ends are read back after it, in order |
| `KvStore.FreshRoundTrip` | miniengine/engine.py:1050-1080 | storing a fresh prompt and appending any number of tokens is read back exactly, and no other page changes |
| `KvStore.StoreNextIff` | miniengine/engine.py:1064 | a stored slice becomes the request's next tokens, for all pools and data, if and only if the request held none before or the slice is empty |
| `KvStore.StoreSparesIff` | miniengine/engine.py:1062-1067 | storing a nonempty slice leaves the first `M` pages as they were, for all pools and data, if and only if `M` is 0 |
| `KvStore.GatherInRange` | miniengine/engine.py:1172-1182 | every index the flat gather uses is inside the pool |
| `KvStore.BatchedIsGather` | miniengine/engine.py:1130-1205 | row by row the flat gather is the token-by-token gather, padded with zeros |
| `KvStore.ScatterAppendIff` | miniengine/engine.py:1259-1263 | an indexed assignment in place of the copy would have the effect of writing one by one, for all pools and data, if and only if all targets differ |
| `KvStore.BatchAppendIff` | miniengine/engine.py:1259-1263 | the batched append has the effect of appending one by one, for all pools and data, if and only if the batch is empty |
| `KvStore.AppendBatch` | miniengine/engine.py:1231-1263 | every length grows by one, the targets are the slots after the last, and the pool stays as it was |
| `KvStore.DecodeReadsStale` | miniengine/engine.py:1207-1229 | after it a request reads its old tokens and then whatever its next slot held before |
| `KvStore.DecodeRoundTripIff` | miniengine/engine.py:1259-1263 | so every request reads its old tokens and then its new one, for all pools and data, if and only if nobody decodes |
| `KvStore.AppendEachIsOneByOne` | miniengine/engine.py:1207-1229 | appending request by request is writing the targets one by one |
| `KvStore.IndexedCopy` | miniengine/engine.py:1262-1263 | indexing gathers the slots into a new array, the copy overwrites that array, and the pool stays as it was |
| `EngineData.LoanNoDup` | miniengine/engine.py:660-669 | under the page ledger the pages of a live request are pages of the pool, all different |
| `EngineData.LoanFits` | miniengine/engine.py:660-665 | and hold every token the request may ever have |
| `EngineData.LiveWrites` | miniengine/engine.py:1207-1229 | tokens written past the borrowed pages of a live request leave every page of the tree, of the free list and of every other request as it was |
| `EngineData.LiveRoundTrip` | miniengine/engine.py:1050-1080 | in its pages a prompt stored from the start and the tokens appended after it are read back exactly; if nothing is borrowed every page in any other place stays as it was |
| `EngineData.InterleavedExact` | miniengine/engine.py:1207-1229 | however the writes of live requests past their borrowed pages are interleaved, each request reads back exactly its own tokens in order, and tree and free pages stay as they were |
| `EngineData.BorrowedSparedIff` | miniengine/engine.py:1062-1067 | storing a slice of a live request leaves its borrowed pages as they were, for all pools and data, if and only if it borrows none |
| `EngineData.LiveStoreNextIff` | miniengine/engine.py:1064 | it becomes the next tokens of the request if and only if it is the first slice, or empty |
| `PagedEngine.Engine.Advance` | miniengine/engine.py:439-484 | after a successful init the request goes on with a slice stored behind tokens it already has exactly when its prompt was hit in part |
| `SchedulerModel.PartedIs` | miniengine/scheduler.py:78-117 | each request on as many lists as it arrived is the same as: the four lists together are the arrivals |
| `SchedulerModel.PartedOnce` | miniengine/scheduler.py:78-117 | every enqueued request is on exactly one of waiting, prefilling, running and finished, once |
| `SchedulerSteps.ArriveKeepsGap` | miniengine/scheduler.py:78-81 | a request may arrive at any moment before the engine is called without breaking what a step relies on |
| `SchedulerSteps.AdmitPop` | miniengine/scheduler.py:210-229 | one admission keeps order, partition and both caps |
| `SchedulerSteps.FlaggedAscends` | miniengine/scheduler.py:246-271 | requests sent back are older than everything still waiting, because only requests admitted in the same step can be sent back |
| `SchedulerSteps.SortStart` | miniengine/scheduler.py:236-246 | what holds when the results of a prefill batch are walked |
| `SchedulerSteps.SortBack` | miniengine/scheduler.py:247-255 | a retracted request keeps the invariant of that walk |
| `SchedulerSteps.SortMove` | miniengine/scheduler.py:261-266 | so does one that starts running |
| `SchedulerSteps.SortDone` | miniengine/scheduler.py:263-264 | and one that finishes at once, although finishing edits the list being walked |
| `SchedulerSteps.SortEnd` | miniengine/scheduler.py:267-271 | afterwards the queue is in arrival order with the retracted requests in front |
| `SchedulerSteps.EmitKeep` | miniengine/scheduler.py:298-304 | a decoded request that goes on keeps length = prompt + outputs - 1 |
| `SchedulerSteps.EmitDone` | miniengine/scheduler.py:301-302 | one that finishes leaves the others in place |
| `SchedulerFaults.PrefillFault` | miniengine/scheduler.py:113-117 | a prefill that raises leaves nothing but requests the clean-up can finish |
| `SchedulerFaults.DecodeFault` | miniengine/scheduler.py:113-117 | so does a decode that raises |
| `SchedulerFaults.SortFault` | miniengine/scheduler.py:261-266 | and a token that cannot be streamed after a prefill; a request is then on both live lists exactly when one of that batch had started running |
| `SchedulerFaults.EmitFault` | miniengine/scheduler.py:298-304 | and one after a decode, where no request is on both lists |
| `SchedulerFaults.AbortStep` | miniengine/scheduler.py:326-331 | each round of the clean-up finishes one request, and tolerates meeting it twice |
| `SchedulerFaults.AbortEnd` | miniengine/scheduler.py:326-331 | after the clean-up everything that holds between steps holds again |
| `SchedulerFaults.FinishOnceIff` | miniengine/scheduler.py:326-331 | the clean-up finishes every request once if and only if no request is on both live lists |
| `SchedulerFaults.FinishedTwice` | miniengine/scheduler.py:261-266 | a concrete batch of two after which one request is finished twice |
| `SchedulerModel.RepeatedConcat` | miniengine/scheduler.py:326-331 | of two lists without repeats put together, exactly who is on both is repeated |
| `SchedulerModel.TimesRepeated` | miniengine/scheduler.py:333-346 | a request is repeated on a list of finishes exactly when it is on it more than once |
| `SchedulerFaults.StreamExact` | miniengine/scheduler.py:319-346 | between steps the stream of an arrived request is its outputs in order, then exactly one terminator if it is finished, if and only if, once finished, it lost no token (or has no outputs) and was finished once |
| `SchedulerFaults.QuietExact` | miniengine/scheduler.py:319-346 | so all streams are exact while no token was lost and nobody finished twice |
| `SchedulerProgress.Completes` | miniengine/scheduler.py:199-307 | after its prefill calls plus `max(0, max_new_tokens - 2)` steps a request admitted at the start of a run is no longer in flight |
| `SchedulerProgress.FinishesInTime` | miniengine/core.py:81-88 | so it is finished by then if it never went back to the queue |
| `PagedScheduler.Scheduler.constructor` | miniengine/scheduler.py:46-74 | an idle scheduler over a fresh engine satisfies everything |
| `PagedScheduler.Scheduler.AddRequest` | miniengine/scheduler.py:78-81 | appends the request to the queue, changes nothing else, and keeps what holds between steps |
| `PagedScheduler.Scheduler.HandOut` | miniengine/scheduler.py:261-262 | the token is in the outputs, and in the stream unless decoding it raised |
| `PagedScheduler.Scheduler.CheckFinished` | miniengine/scheduler.py:311-317 | true exactly when the outputs are used up or the token is a stop token |
| `PagedScheduler.Scheduler.Unlist` | miniengine/scheduler.py:336-339 | takes the request off both live lists |
| `PagedScheduler.Scheduler.FinishRequest` | miniengine/scheduler.py:333-346 | status, lists, pages, terminator and totals, as one equation on the whole state |
| `PagedScheduler.Scheduler.PopAdmissible` | miniengine/scheduler.py:208-229 | takes from the front of the queue exactly as long as there is room and the pool admits the next request beside those already taken |
| `PagedScheduler.Scheduler.StartAll` | miniengine/scheduler.py:231-234 | the admitted requests join the prefilling ones |
| `PagedScheduler.Scheduler.SortOut` | miniengine/scheduler.py:246-266 | the walk over the batch sorts every request into retracted, still prefilling, running or finished, and gives each the token computed for it and nobody else anything |
| `PagedScheduler.Scheduler.Requeue` | miniengine/scheduler.py:268-271 | the reversed pushes put the retracted requests in front, in order |
| `PagedScheduler.Scheduler.EmitAll` | miniengine/scheduler.py:294-304 | every running request is given the token computed for it, and nobody else anything, although finishing edits the list being walked |
| `PagedScheduler.Scheduler.StepPaged` | miniengine/scheduler.py:199-307 | one step from any boundary state, with requests arriving: a boundary state again with every request in flight closer to its end, or, when something raised, a state the clean-up can handle; engine calls that raise lose no token |
| `PagedScheduler.Scheduler.Abort` | miniengine/scheduler.py:326-331 | finishes everything in flight and reaches a boundary state with both live lists empty |
| `PagedScheduler.FinishedAgain` | miniengine/scheduler.py:326-331 | the clean-up finishes once more exactly who is on both live lists |
| `PagedScheduler.Scheduler.CleanUp` | miniengine/scheduler.py:115-117 | from any torn state to a boundary state with empty live lists; the finishes are those before and then everyone who was on a live list |
| `PagedScheduler.Scheduler.Turn` | miniengine/scheduler.py:105-117 | one turn of the loop, raising or not, keeps partition, caps, order, totals, engine invariants and, while commits are clean, the page ledger; only a token that could not be streamed is lost, and who is finished again is exactly who was then on both live lists |
| `PagedScheduler.Scheduler.Enqueue` | miniengine/scheduler.py:78-81 | any number of arrivals between turns keep what holds there and leave those in flight as far as they were |
| `PagedScheduler.Scheduler.Serve` | miniengine/scheduler.py:105-117 | any number of turns, with arrivals between and during them: the states between turns make a run, and while every token could be streamed, whatever engine calls raised, all streams are exact |

## Left out

- The language model, attention masks, position ids, sampling, tokenizing, compilation and weight loading: a forward pass is an arbitrary token that may raise instead.
- The HTTP server, the command line, logging, warning throttles, metrics counters and benchmarks.
- Baseline and batched modes of engine and scheduler, and paged mode with the prefix cache switched off.
- Keys and values written by continuation chunks: the engine's bookkeeping models offsets, lengths and page lists, and `KvStore` treats the data of a store, an append and a gather on its own.
- The flash-attention path that decodes straight from the pages: only its page bookkeeping, which is the same, is covered.
- CUDA streams: page copies are synchronous; a page's per-layer tensors are one entry.
- Multiplying padding by zero: a product of NaN or infinity with zero is not zero in floating point, and the model takes it to be.
- Inheritance: `HiRadixCache` holds a `RadixCache` and calls its inherited operations; a tiered cache whose CPU tier is disabled is the plain cache and is not modelled again.
- Heaps: a heap is a set from which an entry with the least access time is taken; the tie-break by object identity is arbitrary.
- `PagedRequestState` is a value stored in the request, not an object of its own.
- A negative chunk size: excluded.  The engine takes one at its word (`miniengine/engine.py:491-500`) and would cut slices of negative length; 0 stands for 0 and None.
- The finished list a step returns, and the thread and idle sleep around the loop: a turn is one iteration with work to do, and arrivals may fall anywhere before its engine calls.
- An exception out of `free_request_kv` itself: the clean-up is taken not to raise.
- PrefixCache.RadixCache.InsertAndReturn: does not state the access times an insertion sets, because evictions and lookups are proved against whatever times they find.
- TieredCache.HiRadixCache.MatchPrefix: gives the exact condition for a current answer where the CPU tier has room for all that is evictable and everything was accessed before the lookup; in other caches what is dropped on the way depends on every node's place in the sweep, and only a sufficient condition is given.
- CommitData.FinishFilledIff: takes the entries counted by `kv_len` to be in place; a continuation chunk or a batched append leaves even fewer there.
- PrefixCache.RadixCache.Reset: voids all locks, as the code does; a request still holding one must not release it afterwards.
- Liveness of admission: a partial match locks a whole edge, so an admitted request may still fail its reservation and be sent back, any number of times.
- SchedulerProgress.FinishesInTime: assumes the request never went back to the queue; a retracted one starts over with its next admission.
- PagedScheduler.Scheduler.Turn: states the page ledger only while every commit so far was clean, because the code keeps it no further.
