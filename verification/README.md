# Verification of the tiered copy-on-write memory manager

A Dafny model of the memory manager in `src/mmu_api.cpp` and `src/core/`, of the test-name filter in
`3rdparty/googletest` and of the `.npy` header printer and parser in `3rdparty/libnpy`, with proofs
about them. `dafny verify dfyconfig.toml` checks everything.

## The system

Each context has a page table from logical to physical blocks. A block manager keeps a free list and
a reference count per block, so that forked contexts share blocks. A directory keeps residency, pins,
epoch and backing of every block. Two slab pools, grown chunk by chunk, hold the bytes of the L1 and
L2 tiers. Blocks move to L2 by least-recently-used eviction and come back on demand; a write to a
shared block first clones it.

What a reader sees of a block is its *content*: the L1 page of a resident block, the L2 page of
another, zeros where there is no page. A *view* of a context is the content behind each entry of its
page table. The main theorem says that the views behave like private arrays of pages.

## How the model is built

| files | what they hold |
|---|---|
| `MmuTypes`, `BlockManager`, `ChunkPool`, `BlockDirectory`, `Context` | the components: a value for each, its specification functions, and the class whose methods are proved against them |
| `Tiering`, `Api` | the state of the whole runtime as one value, and one specification function per internal routine and API call |
| `Runtime` | the runtime object; every method is proved to reach the state its specification function gives |
| `Invariants`, `Paging`, `Steps`, `Lifecycle` | the invariant (`Core`) and what each routine and call does to contents |
| `Sharing`, `Refinement` | conservation of reference counts, and the refinement of each call |
| `Batches`, `MapEffects`, `Exactness`, `Lru` | rollback of batches, what map and unmap leave behind, when mapping fails, least-recently-used eviction |
| `Answers` | what each call returns: every status, the routes, the order of new blocks and of batch outputs |
| `Runs`, `Clients`, `Isolation`, `Teardown` | whole runs: the invariant, clients and their mappings, the main theorem, pin safety, teardown |
| `Limits` | the shortest runs on which a hypothesis of the theorems is needed |
| `Glob` | the glob matcher and the filter |
| `NpyText`, `NpyHeader`, `NpyRoundTrip`, `NpyStream`, `NpyFormat` | the `.npy` header, printed, parsed and byte by byte (NEP 1, section "Format Specification: Version 1.0", and format version 2.0) |

The environment enters as parameters: `Os` says which chunk requests are refused, `pages` and
`pageSize` are the host's answers about its free memory, handles of new contexts are chosen freely among unused ones, and
stores by the host are steps of their own. A frame is an index into the memory of its pool; `frame` in
a mapping stands for the host pointer. Dafny's `int` and `nat` stand for the counters.

`Clients.Allowed` says what a well-behaved client does: it undoes only mappings it was given and
stores only through a write mapping that it has not undone, whose block has not been freed and whose
context has not been forked since. Nothing is assumed about destroying contexts or releasing blocks
under a mapping, or about forking under one: such a mapping just may not be written through any more. The one other demand is that no allocation
runs out half way.

## Where the code differs from its documentation

* `include/dsf_mmu/mmu_api.h:40` says that a failing batch resolve does not modify the output array.
  The loop (`src/mmu_api.cpp:741-751`) writes as it goes. `Teardown.FailedResolveLeavesOutput` says
  exactly when the promise holds, `Limits.FailedResolveWrites` gives an input on which it does not.
* `include/dsf_mmu/mmu_api.h:84` describes the reference count as the number of logical blocks mapped
  to a block. An allocation that runs out half way (`src/core/context.cpp:35-46`) leaves entries for
  blocks it has given back. `Teardown.StepConserves` says exactly when the description stays true,
  `Limits.FailedGrowBreaksCounts` gives a run on which it does not.
* A copy-on-write switches the page table before it clones the bytes (`src/mmu_api.cpp:785-797`). If
  no L2 page is left, the call fails and the slot has lost its contents:
  `Refinement.PrepareKeepsViewsExactly` and `Limits.FailedCloneLosesBytes`.
* `tests/readme.md:60` promises that writes of a fork do not reach the data of its parent. In the other
  direction there is an exception: a write mapping that the parent made before the fork still reaches
  the shared block, and if the parent's slot was copied since, it reaches a block that only the fork
  owns: `Refinement.WriteIsolatedExactly`, `Limits.WriteAcrossForkLeaks`, `Limits.StaleWriteLeaks`.
* A mapping made before a copy-on-write of its logical block can no longer be undone, and its pin
  stays (`src/mmu_api.cpp:924-926`): `Steps.UnmapEffect`, `Teardown.StaleMapping` and
  `Limits.StalePinStays`.
* `include/dsf_mmu/mmu_api.h:69` says that unmapping decrements the reference count of the block. It
  decrements the pin count; the ledger of reference counts is unchanged (`Batches.UnmapStep`).
* The same line promises an error if the block is not currently mapped. Without pins the call succeeds
  all the same (`src/mmu_api.cpp:933-952`), and a repeated unmap takes the pin of another holder:
  `MapEffects.UnmapFailsExactly` says when it is refused, `Limits.UnmapWithoutMapping` and
  `Limits.SecondUnmapTakesOtherPin` give inputs.

## Model

| member | source | states |
|---|---|---|
| `Isolation.RunIsPrivate` | src/mmu_api.cpp:589-863 | From start-up, for any limits and refusals, a run with well-behaved clients in which no step loses a slot and no existing context is refused growth shows in each context exactly what a store of private page arrays shows: fork is a deep copy, growing appends zero pages, releasing empties one slot, a host store changes one byte of one page, and mapping, unmapping and preparing change nothing; loads through held mappings read that store; every successful map hands out, in order, a mapping of each block asked for |
| `Isolation.PlentifulIsUndisturbed` | src/mmu_api.cpp:160-204 | With l2_block_count equal to l1_block_count, no refused chunk and enough free blocks for each growth, no step loses a slot and no growth is refused |
| `Isolation.SoundLoads` | src/mmu_api.cpp:840-860 | A load through any held mapping that still names its block reads the page the store shows; an exclusive mapping always names it |
| `Isolation.RunIsolates` | src/mmu_api.cpp:589-976 | The same step by step for any outcome: the views follow the store, except that a slot whose clone failed reads as zeros and a refused allocation appends nothing; pins equal the mappings held, every held mapping points at the frame of its block, and loads through it read the store; a successful map grants one mapping per block asked for, in that order |
| `Isolation.StepIsolates` | src/mmu_api.cpp:589-976 | One call, whatever its arguments and outcome, is one step of the private store and keeps every held mapping sound |
| `Isolation.StepGrants` | src/mmu_api.cpp:803-891 | A map call that succeeds grants one mapping for each requested block, in the order of the request and with its flags; one that fails grants none |
| `Isolation.ClientRunIsRun` | src/mmu_api.cpp:589-976 | The state a run with clients goes through is the plain run of the same calls |
| `Isolation.NothingLost` | src/mmu_api.cpp:424-471 | With as many L2 blocks as blocks and no refused chunk, no call loses the contents of a slot |
| `Refinement.CreateRefines` | src/mmu_api.cpp:567-587 | Creating a context adds an empty array and changes nothing else |
| `Refinement.ForkRefines` | src/mmu_api.cpp:602-627 | Fork adds a copy of the parent's array; every other array is as before |
| `Refinement.DestroyRefines` | src/mmu_api.cpp:589-600 | Destroying a context removes its array and leaves every other context's pages as they were, at any fork depth |
| `Refinement.AllocateRefines` | src/mmu_api.cpp:629-658 | A successful allocation appends zero pages to one array |
| `Refinement.ReleaseRefines` | src/mmu_api.cpp:660-697 | Releasing succeeds exactly when the slot holds a page, and then empties that slot only |
| `Refinement.ResolvesExactly` | src/core/context.cpp:74-98 | A logical block resolves exactly when the store has a page there, and to a block that holds this page |
| `Refinement.PrepareRefines` | src/mmu_api.cpp:756-801 | Preparing for a write changes no page, unless the clone fails: then it reports an error and that one slot reads as zeros |
| `Refinement.CloneFailsExactly` | src/mmu_api.cpp:169-190 | A copy-on-write fails if and only if the L2 pool has lent as many pages as l2_block_count, or has no free page and the next chunk is refused |
| `Refinement.PrepareKeepsViewsExactly` | src/mmu_api.cpp:785-797 | The views survive a prepare call if and only if it does not copy while L2 is exhausted in this sense, or the slot held zeros anyway |
| `Refinement.PrepareContract` | src/mmu_api.cpp:756-801 | A successful prepare yields a block with one owner and the old contents, replaces one page-table entry, takes one owner from a shared block and none from anyone else |
| `Refinement.MapRefines` | src/mmu_api.cpp:803-863 | Mapping changes no page, on success and on every error exit, unless a clone fails |
| `Refinement.UnmapRefines` | src/mmu_api.cpp:893-953 | Unmapping changes no page, whatever it returns |
| `Refinement.HostWriteRefines` | src/mmu_api.cpp:840-860 | A host store through the frame of a block with one owner changes one byte of the one slot that owns it |
| `Refinement.WriteIsolatedExactly` | src/mmu_api.cpp:840-860 | A store through a mapping, to a byte that changes, leaves every slot but that of the mapping as it was if and only if the block has one owner and the mapping still names it |
| `Refinement.LoadShowsView` | src/mmu_api.cpp:845-860 | The frame of a pinned mapping that still names its block holds the page of its slot |
| `Runs.StepCore` | src/mmu_api.cpp:567-976 | Every call, with any arguments and any failure, keeps the invariant: directory, pools, reference counts, page tables, resident count, recency and memory bounds agree |
| `Runs.RunCore` | src/mmu_api.cpp:509-976 | The invariant holds in every state between calls of every run |
| `Runs.RunBounded` | src/mmu_api.cpp:128-220 | Over all runs L2 never carves more frames than l2_block_count, and L1 never holds more than ceil(resident_limit / chunk_block_count) chunks |
| `Teardown.StepConserves` | src/core/context.cpp:27-196 | A call keeps "reference count = occurrences in all page tables" if and only if it is not an allocation that runs out after appending something |
| `Teardown.RunConserves` | src/core/context.cpp:27-196 | Reference counts equal occurrences after every run without such an allocation |
| `Teardown.StepPinSafe` | src/mmu_api.cpp:303-355 | A pinned block is live, resident and framed, and no call moves its frame while somebody owns it |
| `Teardown.RunPinSafe` | src/mmu_api.cpp:840-863 | While a block stays pinned its frame, and so the host pointer, stays the same over any run |
| `Teardown.DestroyReleasesExactly` | src/mmu_api.cpp:589-600 | Destroying a context lowers each reference count by the number of its entries, and resets and frees exactly the blocks nobody else refers to |
| `Teardown.DestroyEachEffect` | src/mmu_api.cpp:589-600 | Destroying contexts in any order, with repetitions, leaves the pages of all the others as they were |
| `Teardown.TeardownRestores` | src/mmu_api.cpp:270-301 | Destroying all contexts, in any order and with pins outstanding, restores a full duplicate-free free list, default metadata, no residents and no committed pages |
| `Teardown.DestroyFreesInOrder` | src/core/context.cpp:190-196 | The blocks freed by destroying a context join the free list in the order of their last mention in its table, after those free before |
| `Teardown.EmptyIsQuiescent` | src/mmu_api.cpp:270-301 | Without contexts no block is owned, framed, resident or committed |
| `Answers.ResolveBatchAnswers` | src/mmu_api.cpp:721-754 | The batch resolver fails with BadHandle and no output exactly for an unknown context; otherwise the routes written are those of the single resolves of the longest prefix that resolves, it succeeds if and only if that is all of them, and reports the status of the first block that does not resolve |
| `Answers.ResolveAnswers` | src/core/context.cpp:74-98 | The exact condition of each status of a resolve, and the block it answers |
| `Answers.RouteAnswers` | src/core/context.cpp:91-97 | A route carries the offset block times block size, inside the address range of the blocks, and tier L1 if and only if the block is resident |
| `Answers.RoutesDisjoint` | src/core/context.cpp:91-97 | Routes to different blocks, in any contexts, have disjoint byte ranges |
| `Answers.AllocatePlaces` | src/mmu_api.cpp:400-422 | The new blocks are the next of the free list; in that order the first ones get the resident slots that are left and are touched, the rest belong to L2 |
| `Answers.AllocateAnswers` | src/mmu_api.cpp:629-658 | The exact condition of each status of an allocation |
| `Answers.ForkAnswers` | src/mmu_api.cpp:602-627 | A fork succeeds if and only if the source context is known; otherwise nothing changes |
| `Answers.ReleaseAnswers` | src/mmu_api.cpp:660-697 | A release answers what a resolve of the same block answers |
| `Answers.PrepareAnswers` | src/mmu_api.cpp:756-801 | A prepare runs out of memory if and only if it must copy and finds no free block or no L2 page; otherwise it answers what a resolve answers |
| `Answers.MakeRoomAnswers` | src/mmu_api.cpp:375-385 | Making room fails if and only if it must evict and finds no victim or no L2 page for the victim; only the victim leaves L1, and its frame is returned |
| `Answers.EnsureResidentAnswers` | src/mmu_api.cpp:357-398 | A block cannot be made resident if and only if there is no room or no L1 frame; the residency of the block and of the block that leaves changes and no other |
| `Answers.EnsureResidentFrame` | src/mmu_api.cpp:387-395 | A block brought in has an L1 frame; a resident one is left as it is |
| `Answers.MapAnswers` | src/mmu_api.cpp:803-834 | Wrong flags, a block that does not resolve and a copy that finds no memory are refused with their own status, the first two before anything changes |
| `Answers.MapReadyAnswers` | src/mmu_api.cpp:834-860 | Past these checks a map fails if and only if the block cannot be made resident or given a frame; the dirty flag stays, and only the mapped block and the block that leaves change tier |
| `Answers.MapBatchAnswers` | src/mmu_api.cpp:865-891 | On success output i is the mapping that the single map of block i returns after those before it, it still maps block i at the end, and the state is that of the single maps in order; on failure the status is that of the first map that fails and the state is that of undoing the mappings made |
| `Answers.UnmapBatchAnswers` | src/mmu_api.cpp:955-976 | All mappings are undone one after the other; the call succeeds if and only if each does, and otherwise returns the status of the first that fails |
| `Answers.UnmapAnswers` | src/mmu_api.cpp:893-949 | The exact condition of each status of an unmap |
| `Answers.QuietClock` | src/mmu_api.cpp:567-801 | Creating, destroying, forking, releasing, preparing and storing touch no block |
| `Teardown.FailedResolveLeavesOutput` | src/mmu_api.cpp:741-751 | A failing batch leaves the output array alone if and only if the context is unknown or the first block fails |
| `Teardown.StaleMapping` | src/mmu_api.cpp:924-926 | A mapping made before a copy-on-write of its logical block could be undone before it and can no longer be undone after it; its pin stays |
| `Lru.VictimIsLeastRecent` | src/mmu_api.cpp:303-327 | The victim is the first evictable block of the list kept by touch order, and there is none if and only if all other resident blocks are pinned |
| `Lru.RunEvictsLru` | src/mmu_api.cpp:375-385 | In every reachable state at the resident limit, making room evicts exactly that block, once, or fails for want of one |
| `Lru.EpochsDistinct` | src/mmu_api.cpp:239-241 | Touched blocks have pairwise distinct epochs, each the time of its last touch |
| `Lru.RecencyLaws` | src/mmu_api.cpp:239-241 | The recency list holds every touched block, ordered strictly by last touch |
| `MapEffects.MappedIsMostRecent` | src/mmu_api.cpp:803-863 | A successful map touches its block, which becomes the most recently used |
| `MapEffects.UnmapWritesBack` | src/mmu_api.cpp:928-951 | Unmap fails if and only if a written resident block finds no L2 page; on success L2 holds what readers see and the block is clean, on failure it stays dirty; a read mapping leaves L2 and the dirty flag alone |
| `MapEffects.UnmapUndoesMap` | src/mmu_api.cpp:803-953 | Unmapping a fresh mapping restores every pin count, and cannot fail for a read mapping |
| `MapEffects.UnmapFailsExactly` | src/mmu_api.cpp:893-953 | Unmap is refused if and only if the mapping no longer names the block behind its logical block, or a write-back finds L2 exhausted; whether anything is mapped plays no part |
| `MapEffects.UnmapTwice` | src/mmu_api.cpp:933-937 | Unmapping a mapping again takes one more pin, if one is left |
| `Batches.BatchRollback` | src/mmu_api.cpp:865-891 | A failed batch map leaves every pin count as it was, for any list, even with repeated blocks, copies midway and failing write-backs; a successful one adds one pin per mapping |
| `Batches.MapEachPins` | src/mmu_api.cpp:880-888 | After any number of maps each mapping made counts as one pin and can still be undone |
| `Batches.UnmapAllPins` | src/mmu_api.cpp:955-976 | Undoing mappings that can be undone takes back exactly their pins and no frame moves |
| `Batches.MapStep` | src/mmu_api.cpp:803-863 | A map call adds one pin to the mapped block or none, keeps frames of pinned blocks, and changes ownership only by one copy-on-write |
| `Batches.UnmapStep` | src/mmu_api.cpp:893-953 | An unmap call takes at most one pin, and nothing happens when the mapping no longer names its block |
| `Batches.MapKeepsRelease` | src/mmu_api.cpp:803-863 | A mapping that can be undone stays so across other maps of the same context if read-only or exclusive |
| `Exactness.AmpleL2` | src/mmu_api.cpp:160-204 | With l2_block_count equal to l1_block_count and no refused chunk, an L2 page is always found |
| `Exactness.EnsureResidentExactly` | src/mmu_api.cpp:357-398 | Then a block can be made resident if and only if it is resident, there is room, or some resident block is unpinned |
| `Exactness.AmpleCloneSucceeds` | src/mmu_api.cpp:424-471 | Then no copy-on-write clone fails |
| `Exactness.MapFailsExactly` | src/mmu_api.cpp:803-863 | Then mapping a live block fails if and only if a shared write finds no free block, or the block is not resident (a copy never is) and every resident block is pinned at the limit |
| `Limits.FailedGrowBreaksCounts` | src/core/context.cpp:35-46 | Concrete run: growing by two with one block left leaves an entry for a block nobody owns, while the invariant still holds |
| `Limits.FailedResolveWrites` | src/mmu_api.cpp:741-751 | Concrete call: a batch that fails has written one route |
| `Limits.StalePinStays` | src/mmu_api.cpp:924-926 | Concrete run: after fork and copy the old mapping cannot be undone and its pin stays |
| `Limits.StaleWriteLeaks` | src/mmu_api.cpp:785-797 | Concrete run: a store through that old mapping shows in the other context although the block has one owner |
| `Limits.UnmapWithoutMapping` | src/mmu_api.cpp:933-952 | Concrete call: unmapping a block nobody mapped succeeds |
| `Limits.SecondUnmapTakesOtherPin` | src/mmu_api.cpp:933-937 | Concrete run: undoing one of two mappings twice succeeds and takes the pin of the other |
| `Limits.WriteAcrossForkLeaks` | src/mmu_api.cpp:602-627 | Concrete run: a store through a write mapping made before a fork shows in both contexts |
| `Limits.FailedCloneLosesBytes` | src/mmu_api.cpp:785-797 | Concrete run: with the second chunk refused, a failed copy-on-write turns a nonzero page into zeros |
| `Limits.WritingRunIsWellBehaved` | src/mmu_api.cpp:567-863 | Concrete run: creating, allocating, mapping for write and storing meets every hypothesis of the main theorem |
| `Paging.EnsureResidentEffect` | src/mmu_api.cpp:357-398 | Making a block resident leaves the contents and pins of every block and the frames of pinned blocks unchanged on success and on every error exit; on success the block is resident and touched once |
| `Paging.MoveBlockEffect` | src/mmu_api.cpp:329-355 | Evicting an unpinned resident block changes no contents, keeps the invariant and lowers the resident count by one; if no L2 page is found nothing moved |
| `Paging.MakeRoomOnce` | src/mmu_api.cpp:375-385 | The eviction loop runs at most once |
| `Paging.SyncL1ToL2Effect` | src/mmu_api.cpp:243-255 | On success the L2 page of the block equals its L1 page, or zeros without one, and is recorded as backing; on failure only the request counter moved |
| `Paging.SyncL2ToL1Effect` | src/mmu_api.cpp:257-268 | On success the L1 page of the block equals its L2 page, or zeros without one; no other page changes |
| `Paging.ForgetEffect` | src/mmu_api.cpp:285-301 | Forgetting a block returns both frames, restores default metadata, uncounts it if resident and touches no other block |
| `Paging.ReclaimEffect` | src/mmu_api.cpp:285-301 | Reclaiming forgets exactly the unowned blocks and keeps the counters right |
| `Paging.ReclaimIdle` | src/mmu_api.cpp:285-301 | Between calls there is nothing to reclaim |
| `Invariants.FewL1Frames` | src/mmu_api.cpp:840-846 | When a resident block or a free resident slot has no frame, fewer L1 frames are lent than the resident limit |
| `Invariants.L1StaysBounded` | src/mmu_api.cpp:160-204 | So acquiring an L1 frame keeps the bound on L1 memory |
| `Steps.CloneReads` | src/mmu_api.cpp:440-448 | The clone reads exactly what a reader of the source block would see |
| `Steps.CopyEffect` | src/mmu_api.cpp:756-801 | A copy-on-write moves one entry to a block nobody owned; it is clean and unpinned, its contents are the old ones, or zeros if the clone failed, and nothing else changes |
| `Steps.PrepareIdle` | src/core/context.cpp:143-151 | Without a copy a prepare call changes nothing; it succeeds if and only if the block resolves and has one owner |
| `Steps.MapResidentEffect` | src/mmu_api.cpp:834-860 | Mapping after the prepare step pins the resolved block once and returns its frame, or is transparent |
| `Steps.PinnedEffect` | src/mmu_api.cpp:845-860 | A resident block gets a frame and one more pin, or nothing changes |
| `Steps.WriteBackEffect` | src/mmu_api.cpp:943-949 | Writing back is transparent and leaves L1 alone |
| `Steps.UnmapEffect` | src/mmu_api.cpp:893-953 | A pin is taken, if there is one, if and only if the mapping still names the block behind its logical block; contents and frames stay |
| `Lifecycle.InitialCore` | src/mmu_api.cpp:39-49 | The runtime starts in a state with the invariant |
| `Lifecycle.ForkCore` | src/mmu_api.cpp:602-627 | Fork keeps the invariant and the contents of every block |
| `Lifecycle.RegisterShape` | src/mmu_api.cpp:400-422 | A fresh block takes a resident slot without a frame if one is left, and otherwise belongs to L2 |
| `Lifecycle.RegisterEffect` | src/mmu_api.cpp:400-422 | A registered block is live, unpinned, clean and reads as zeros; no other block changes |
| `Lifecycle.AllocateEffect` | src/mmu_api.cpp:629-658 | With enough free blocks allocation succeeds; the new blocks are the last of the free list from the back, were unowned, have one owner and read as zeros; the rest of the free list stays |
| `Lifecycle.AllocateFails` | src/core/context.cpp:35-46 | With too few free blocks allocation reports out of memory, restores all reference counts and contents, keeps the invariant, reverses the free list, and leaves the blocks it had taken in the page table |
| `Lifecycle.ReleaseEffect` | src/mmu_api.cpp:660-697 | Release changes one entry and one reference count; blocks that stay owned are not disturbed |
| `Lifecycle.DestroyEffect` | src/mmu_api.cpp:589-600 | Destroy drops the table and its references; blocks that stay owned are not disturbed |
| `Lifecycle.HostWriteEffect` | src/mmu_api.cpp:840-860 | A host store through a frame changes exactly the block that owns the frame |
| `Sharing.SoleOwner` | src/core/context.cpp:148-151 | A block with one owner is named by exactly one entry |
| `Sharing.OtherOwner` | src/core/context.cpp:148-151 | A block with more owners is named by some other entry too |
| `Sharing.ForkConserves` | src/core/context.cpp:168-178 | Fork conserves the counts |
| `Sharing.DropConserves` | src/core/context.cpp:190-196 | Releasing all blocks of a context conserves the counts of the others |
| `Sharing.ReleaseConserves` | src/core/context.cpp:55-72 | Releasing an entry conserves the counts |
| `Sharing.CopyConserves` | src/core/context.cpp:129-166 | Copy-on-write conserves the counts |
| `Sharing.GrowConserves` | src/core/context.cpp:27-53 | A successful allocation conserves the counts |
| `Sharing.RemapConserves` | src/core/context.cpp:100-127 | UpdateMapping conserves the counts, including when it backs out, and never reports an internal error |
| `Sharing.FailedAllocationConserves` | src/core/context.cpp:35-46 | A failed allocation conserves the counts if and only if nothing was free at all |
| `Contexts.TakeFreeCounts` | src/core/context.cpp:35-46 | Taking k blocks gives exactly the next k free blocks, unowned before, one owner each |
| `Contexts.RetainEachCounts` | src/core/context.cpp:168-178 | Fork adds one reference per mention to owned blocks |
| `Contexts.ReleaseEachCounts` | src/core/context.cpp:190-196 | Releasing a table takes one reference per mention |
| `Contexts.FailedAllocationRestoresCounts` | src/core/context.cpp:38-42 | The rollback restores every reference count |
| `Contexts.FailedAllocationReversesFree` | src/core/context.cpp:38-42 | A failed allocation takes every free block and gives them back in the same order, so the free list comes out reversed |
| `Contexts.FreshHandsOut` | src/core/context.cpp:35-46 | On a fresh runtime the first blocks are handed out in ascending order |
| `Contexts.FreedInOrder` | src/core/context.cpp:190-196 | Of the mentions of a block only the last frees it, so blocks join the free list in the order of their last mention |
| `Contexts.PrepareWrite` | src/core/context.cpp:129-166 | On success the returned block has one owner; a sole owner keeps its block and nothing changes, a shared block loses one owner to a block nobody owned; on failure nothing changes |
| `Contexts.RemapStatus` | src/core/context.cpp:100-127 | The exact condition of each status of UpdateMapping |
| `Contexts.RemapMoves` | src/core/context.cpp:100-127 | UpdateMapping gives the entry to the new block, which gets one owner while the old block loses one; when it refuses or backs out the table and all counts are as before |
| `Contexts.Context.AllocateBlocks` | src/core/context.cpp:27-53 | The loop with rollback does what the specification of allocation says, on both outcomes |
| `Contexts.Context.ReleaseLogicalBlock` | src/core/context.cpp:55-72 | The method changes manager and page table as specified |
| `Contexts.Context.UpdateMapping` | src/core/context.cpp:100-127 | The method changes manager and page table as specified, including the back-out |
| `Contexts.Context.PrepareBlockForWrite` | src/core/context.cpp:129-166 | The method changes manager and page table as specified |
| `Contexts.Context.Fork` | src/core/context.cpp:168-178 | The child has the same entries, and every mention was retained |
| `Contexts.Context.ReleaseAllBlocks` | src/core/context.cpp:190-196 | Every mention is released |
| `Contexts.Context.AllocatedLogicalBlocks` | src/core/context.cpp:180-188 | The loop counts the allocated entries |
| `Contexts.PageTable.Append` | src/core/page_table.cpp:6-9 | The entry is appended |
| `Contexts.PageTable.Get` | src/core/page_table.cpp:11-21 | An entry is found exactly inside the bounds |
| `Contexts.PageTable.Set` | src/core/page_table.cpp:23-30 | One entry inside the bounds is replaced, otherwise nothing |
| `BlockManagers.FreshLedger` | src/core/block_manager.cpp:9-15 | At the start every block is free, each listed once |
| `BlockManagers.Ledger.Allocated` | src/core/block_manager.cpp:17-27 | The last free block, unowned, gets one owner; the free list stays a duplicate-free list of exactly the unowned blocks |
| `BlockManagers.Ledger.Claimed` | src/core/block_manager.cpp:29-42 | A given free block gets one owner and leaves the free list, which keeps all others |
| `BlockManagers.Ledger.Retained` | src/core/block_manager.cpp:44-54 | An owned block gets one more owner; otherwise nothing changes |
| `BlockManagers.Ledger.Released` | src/core/block_manager.cpp:56-69 | An owned block loses one owner and becomes free with the last; otherwise nothing changes |
| `BlockManagers.ReleaseIsUndone` | src/core/block_manager.cpp:17-69 | After the last release of a block the next allocation hands out that block and restores the ledger |
| `BlockManagers.AllocateIsUndone` | src/core/block_manager.cpp:17-69 | Releasing a block just allocated restores the ledger, its place in the free list included |
| `BlockManagers.BlockManager.constructor` | src/core/block_manager.cpp:9-15 | The filling loop builds the specified free list |
| `BlockManagers.BlockManager.Allocate` | src/core/block_manager.cpp:17-27 | Fails exactly on an empty free list, else hands out its last block |
| `BlockManagers.BlockManager.AllocateSpecific` | src/core/block_manager.cpp:29-42 | Succeeds exactly when the block is free; the search finds its first position |
| `BlockManagers.BlockManager.Retain` | src/core/block_manager.cpp:44-54 | Succeeds exactly on owned blocks |
| `BlockManagers.BlockManager.Release` | src/core/block_manager.cpp:56-69 | Succeeds exactly on owned blocks; the block joins the free list with its last reference |
| `ChunkPools.Acquire` | src/mmu_api.cpp:160-204 | Slab ownership is kept; on success the block has a page, cleared if new, and no other page changes; on failure the pool is unchanged |
| `ChunkPools.AcquireKeepsFrames` | src/mmu_api.cpp:160-204 | Nobody else's frame changes and a block that has a frame keeps it |
| `ChunkPools.AcquireFailsExactly` | src/mmu_api.cpp:168-194 | Acquiring fails, with the status the code gives for it, if and only if the block has no page and the pool is at its limit, or has no free page and the next chunk is refused |
| `ChunkPools.AcquireAsksExactly` | src/mmu_api.cpp:168-190 | The host is asked for a chunk if and only if the block has no page, the pool is below its limit and no frame is free; the chunk has the configured number of frames, or what is left below the limit if that is less |
| `ChunkPools.AcquireSucceeds` | src/mmu_api.cpp:160-204 | With room below the limit and a generous operating system acquiring cannot fail |
| `ChunkPools.ChunkBytesFit` | src/mmu_api.cpp:135-138 | The overflow test on the chunk size never fires where size_t has 64 bits |
| `ChunkPools.AcquireBounded` | src/mmu_api.cpp:169-190 | A bounded pool never carves more frames than its limit |
| `ChunkPools.AcquireCarves` | src/mmu_api.cpp:174-194 | A chunk is carved only when every frame is lent |
| `ChunkPools.CarvedOk` | src/mmu_api.cpp:128-158 | A new chunk keeps slab ownership and every page |
| `ChunkPools.LentOk` | src/mmu_api.cpp:196-199 | Lending a free frame keeps slab ownership; the page is cleared and no other page changes |
| `ChunkPools.ReturnedOk` | src/mmu_api.cpp:206-220 | Returning a frame keeps slab ownership and every other page |
| `ChunkPools.ReturnedIsNext` | src/mmu_api.cpp:196-220 | A returned frame is the next one lent |
| `ChunkPools.StoredOk` | src/mmu_api.cpp:222-229 | Filling a page changes no other page |
| `ChunkPools.Locate` | src/mmu_api.cpp:145-150 | Every frame lies in one chunk at one position |
| `ChunkPools.FramesDisjoint` | src/mmu_api.cpp:145-150 | Distinct frames share no byte and lie inside their chunks |
| `ChunkPools.ChunkPool.AllocateChunk` | src/mmu_api.cpp:128-158 | The carving loop adds exactly the frames of the new chunk, or the request was refused or empty |
| `ChunkPools.ChunkPool.AcquirePage` | src/mmu_api.cpp:160-204 | The method changes pool and host memory as specified |
| `ChunkPools.ChunkPool.ReleasePage` | src/mmu_api.cpp:206-220 | The method changes the pool as specified |
| `ChunkPools.ChunkPool.RawPageIsPage` | src/mmu_api.cpp:80-82 | The page pointer names the bytes the pool holds for the block |
| `BlockDirectories.BlockDirectory.constructor` | src/core/block_directory.cpp:24-25 | All entries start as default metadata |
| `BlockDirectories.BlockDirectory.InitializeFreshBlock` | src/core/block_directory.cpp:31-38 | One valid entry becomes fresh metadata |
| `BlockDirectories.BlockDirectory.Reset` | src/core/block_directory.cpp:40-46 | One valid entry becomes default metadata |
| `BlockDirectories.BlockDirectory.IncrementPinCount` | src/core/block_directory.cpp:113-121 | One pin more on one entry |
| `BlockDirectories.BlockDirectory.DecrementPinCount` | src/core/block_directory.cpp:123-131 | One pin less, refused at zero |
| `BlockDirectories.BlockDirectory.SetTier` | src/core/block_directory.cpp:73-81 | Only the tier of one entry changes |
| `BlockDirectories.BlockDirectory.SetDirty` | src/core/block_directory.cpp:93-101 | Only the dirty flag of one entry changes |
| `BlockDirectories.BlockDirectory.SetLastAccessEpoch` | src/core/block_directory.cpp:133-141 | Only the epoch of one entry changes |
| `BlockDirectories.BlockDirectory.SetL1FrameId` | src/core/block_directory.cpp:143-151 | Only the frame id of one entry changes |
| `BlockDirectories.BlockDirectory.SetL2SlotId` | src/core/block_directory.cpp:153-161 | Only the slot id of one entry changes |
| `BlockDirectories.BlockDirectory.SetHasL2Backing` | src/core/block_directory.cpp:163-171 | Only the backing flag of one entry changes |
| `Tiering.Victim` | src/mmu_api.cpp:303-327 | The candidate is live, resident, unpinned, not protected and has the smallest epoch of all such blocks; there is none exactly when no such block exists |
| `Api.AvailableBytes` | src/mmu_api.cpp:84-101 | The number of free bytes is the product of pages and page size if both are known and it fits 64 bits, and 0 otherwise |
| `Api.AutoResidentLimit` | src/mmu_api.cpp:103-122 | The automatic limit lies between one and all blocks, and is all of them if the free memory is unknown |
| `Api.AutoResidentLimitFits` | src/mmu_api.cpp:103-122 | It is the largest number of blocks that fits into half of the free memory, but at least one and at most all |
| `Api.ResolveConfig` | src/mmu_api.cpp:526-544 | Zero L2 blocks means one per block, a zero chunk size means 4096, a zero resident limit means the automatic one, and a larger limit than there are blocks is cut to them; everything else is kept |
| `Api.ResolveConfigKeeps` | src/mmu_api.cpp:526-544 | Limits already in range are kept, whatever the probe reports |
| `Api.FlagBits` | src/mmu_api.cpp:813-823 | Valid flags are the combinations of READ and WRITE other than none, and WRITE is its own bit |
| `Api.WithByteChanges` | src/mmu_api.cpp:856-860 | A store changes the byte at its offset and no other |
| `MmuTypes.ZerosAre` | src/mmu_api.cpp:196-199 | A zero page has the block size and only zero bytes |
| `Runtimes.Init` | src/mmu_api.cpp:509-553 | Refuses a structure below 32 bytes or another version than 1, then a configuration without blocks or block size, and nothing else; otherwise yields a runtime in the initial state with resolved limits, the automatic one from the free memory of the host |
| `Runtimes.Runtime.constructor` | src/mmu_api.cpp:39-49 | The runtime starts in the initial state |
| `Runtimes.Runtime.TouchBlock` | src/mmu_api.cpp:239-241 | The next epoch goes to the block |
| `Runtimes.Runtime.SyncL1ToL2` | src/mmu_api.cpp:243-255 | Status and whole new state are those of the specification function the lemmas are about |
| `Runtimes.Runtime.SyncL2ToL1` | src/mmu_api.cpp:257-268 | Status and whole new state are those of the specification function the lemmas are about |
| `Runtimes.Runtime.ResetBlockData` | src/mmu_api.cpp:270-283 | Status and whole new state are those of the specification function the lemmas are about |
| `Runtimes.Runtime.ReclaimUnusedResidentBlocks` | src/mmu_api.cpp:285-301 | The loop forgets what the specification says |
| `Runtimes.Runtime.PickEvictionCandidate` | src/mmu_api.cpp:303-327 | The scan returns the specified victim and changes nothing |
| `Runtimes.Runtime.MoveBlockToL2` | src/mmu_api.cpp:329-355 | Status and whole new state are those of the specification function the lemmas are about |
| `Runtimes.Runtime.MakeRoom` | src/mmu_api.cpp:375-385 | The eviction loop ends where the specification says |
| `Runtimes.Runtime.EnsureResidentInL1` | src/mmu_api.cpp:357-398 | Status and whole new state are those of the specification function the lemmas are about |
| `Runtimes.Runtime.RegisterFreshBlock` | src/mmu_api.cpp:400-422 | Status and whole new state are those of the specification function the lemmas are about |
| `Runtimes.Runtime.CloneBlockDataForCow` | src/mmu_api.cpp:424-471 | Status and whole new state are those of the specification function the lemmas are about |
| `Runtimes.Runtime.CreateContext` | src/mmu_api.cpp:567-587 | Status and whole new state are those of the specification function the lemmas are about |
| `Runtimes.Runtime.DestroyContext` | src/mmu_api.cpp:589-600 | Status and whole new state are those of the specification function the lemmas are about |
| `Runtimes.Runtime.ForkContext` | src/mmu_api.cpp:602-627 | Status and whole new state are those of the specification function the lemmas are about |
| `Runtimes.Runtime.AllocateBlocks` | src/mmu_api.cpp:629-658 | Status and whole new state are those of the specification function the lemmas are about |
| `Runtimes.Runtime.ReleaseLogicalBlock` | src/mmu_api.cpp:660-697 | Status and whole new state are those of the specification function the lemmas are about |
| `Runtimes.Runtime.ResolveRouting` | src/mmu_api.cpp:699-719 | The route is the specified one; nothing changes |
| `Runtimes.Runtime.ResolveRoutingBatch` | src/mmu_api.cpp:721-754 | Status and written prefix are the specified ones |
| `Runtimes.Runtime.PrepareBlockForWrite` | src/mmu_api.cpp:756-801 | Status and whole new state are those of the specification function the lemmas are about |
| `Runtimes.Runtime.MapLogicalBlock` | src/mmu_api.cpp:803-863 | Status and whole new state are those of the specification function the lemmas are about |
| `Runtimes.Runtime.MapLogicalBlocks` | src/mmu_api.cpp:865-891 | The loop with rollback reaches the specified state |
| `Runtimes.Runtime.UnmapLogicalBlock` | src/mmu_api.cpp:893-953 | Status and whole new state are those of the specification function the lemmas are about |
| `Runtimes.Runtime.UnmapLogicalBlocks` | src/mmu_api.cpp:955-976 | The loop reaches the specified state and keeps the first error |
| `Runtimes.Runtime.HostWrite` | src/mmu_api.cpp:856-860 | A store through a frame pointer |
| `Globs.PatternMatchesString` | 3rdparty/googletest/src/gtest.cc:703-748 | True if and only if the name matches under the meaning of ? and *; it ends by a lexicographic measure across restarts |
| `Globs.AttemptReachesStar` | 3rdparty/googletest/src/gtest.cc:729-736 | At the next star earlier choices no longer matter, which is why going back to the last star suffices |
| `Globs.LiteralMatches` | 3rdparty/googletest/src/gtest.cc:752-755 | A pattern without wildcards matches exactly itself |
| `Globs.SplitString` | 3rdparty/googletest/src/gtest.cc:1251-1266 | The loop yields the pieces between delimiters |
| `Globs.JoinSplit` | 3rdparty/googletest/src/gtest.cc:1251-1266 | The pieces hold no delimiter and joined give the string back |
| `Globs.SplitJoin` | 3rdparty/googletest/src/gtest.cc:1251-1266 | They are the only such pieces |
| `Globs.UnitTestFilter.constructor` | 3rdparty/googletest/src/gtest.cc:762-776 | The patterns are sorted into globs and literals, none lost |
| `Globs.UnitTestFilter.MatchesName` | 3rdparty/googletest/src/gtest.cc:780-788 | True if and only if some colon-separated pattern matches the name |
| `NpyText.TrimKeeps` | 3rdparty/libnpy/npy.hpp:178-187 | Trimming removes the blanks around a text and nothing else |
| `NpyText.StoulReadsDecimal` | 3rdparty/libnpy/npy.hpp:370-374 | A printed number is read back, after a blank or not |
| `NpyHeader.DescrRoundTrip` | 3rdparty/libnpy/npy.hpp:148-171 | Every printed dtype is parsed back |
| `NpyHeader.ParseDict` | 3rdparty/libnpy/npy.hpp:202-248 | The loops compute the specified dictionary or the specified error |
| `NpyHeader.ParseTuple` | 3rdparty/libnpy/npy.hpp:272-290 | The items are those between commas, a last empty one dropped, or an error |
| `NpyHeader.ParseDims` | 3rdparty/libnpy/npy.hpp:370-374 | Every item is converted, or the first error reported |
| `NpyHeader.ParseHeader` | 3rdparty/libnpy/npy.hpp:322-377 | The header or the first error, as specified |
| `NpyRoundTrip.ShapeRoundTrip` | 3rdparty/libnpy/npy.hpp:272-311 | A shape of any rank survives printing and parsing, the empty and one-element ones included |
| `NpyRoundTrip.KeyPositions` | 3rdparty/libnpy/npy.hpp:217-224 | With the three entries in any order each key is first found at its own entry |
| `NpyRoundTrip.SortedAscends` | 3rdparty/libnpy/npy.hpp:226-227 | Sorting puts the positions in ascending order |
| `NpyRoundTrip.DictRead` | 3rdparty/libnpy/npy.hpp:202-248 | A padded dictionary with the three entries in any order parses to their values |
| `NpyRoundTrip.HeaderReadInAnyOrder` | 3rdparty/libnpy/npy.hpp:322-377 | A header is read back from a dictionary that lists its entries in any order |
| `NpyRoundTrip.HeaderRoundTrip` | 3rdparty/libnpy/npy.hpp:322-384 | For every legal dtype, order flag and shape, parsing the written dictionary with padding and newline gives the header back |
| `NpyFormat.ParsedIsLegal` | 3rdparty/libnpy/npy.hpp:322-384 | Whatever parses is a legal header, so printing it again and parsing that changes nothing |
| `NpyFormat.DecimalUnique` | 3rdparty/libnpy/npy.hpp:80-84 | A number is printed as the only string of digits with its value and without a leading zero |
| `NpyFormat.DecimalShape` | 3rdparty/libnpy/npy.hpp:80-84 | No printed number has a leading zero |
| `NpyFormat.TupleText` | 3rdparty/libnpy/npy.hpp:293-311 | A printed tuple is its numbers in parentheses separated by a comma and a space, with a comma after a single one |
| `NpyFormat.TupleExamples` | 3rdparty/libnpy/npy.hpp:293-311 | The texts of tuples with none, one, two and three items |
| `NpyFormat.DictExample` | 3rdparty/libnpy/npy.hpp:379-384 | The text for a 3 by 4 array of doubles, character by character |
| `NpyFormat.HeaderFormat` | 3rdparty/libnpy/npy.hpp:386-419 | The bytes of a header: 0x93, NUMPY, version 1.0 or, from 65025 bytes on, 2.0, the little-endian length, the dictionary, 1 to 16 spaces and a newline |
| `NpyFormat.ReadsExactly` | 3rdparty/libnpy/npy.hpp:103-119 | A stream has a readable header if and only if it starts with the signature of version 1.0 or 2.0; each failure has its own message |
| `NpyFormat.ReadsWhatIsThere` | 3rdparty/libnpy/npy.hpp:421-453 | From any complete stream the bytes counted by the little-endian length field are read, and no more |
| `NpyStream.Le16RoundTrip` | 3rdparty/libnpy/npy.hpp:404-429 | The 16-bit field is read back modulo 65536 |
| `NpyStream.Le32RoundTrip` | 3rdparty/libnpy/npy.hpp:410-439 | The 32-bit field is read back modulo 2^32 |
| `NpyStream.HeaderAligned` | 3rdparty/libnpy/npy.hpp:389-397 | Preamble and header together are a multiple of 16 bytes |
| `NpyStream.LengthFieldExact` | 3rdparty/libnpy/npy.hpp:389-416 | The length field read back equals the header length if and only if that is below 2^32; version 1 never truncates it |
| `NpyStream.HeaderBytesRead` | 3rdparty/libnpy/npy.hpp:421-453 | Reading what was written returns the header text and stops at the payload |
| `NpyStream.StreamRoundTrip` | 3rdparty/libnpy/npy.hpp:322-453 | A whole header survives being written to a stream, read back and parsed |
| `NpyStream.WriteMagic` | 3rdparty/libnpy/npy.hpp:97-101 | Magic string and version are appended |
| `NpyStream.WriteHeader` | 3rdparty/libnpy/npy.hpp:386-419 | The stream gets preamble, dictionary, padding and newline |
| `NpyStream.ReadHeader` | 3rdparty/libnpy/npy.hpp:421-453 | The text and the stream position, or the error, are the specified ones |

## Left out

- Isolation.RunIsPrivate: assumes that no step loses a slot and no growth is refused, because the pure store cannot know how much memory there is; `Isolation.RunIsolates` covers all other runs and `Isolation.PlentifulIsUndisturbed` gives memory conditions that suffice.
- Isolation.StepIsolates: assumes `Clients.Allowed`, which also excludes an allocation that runs out half way; `Runs.StepCore` and `Teardown.StepConserves` cover that case.
- Teardown.RunPinSafe: speaks of frame ids; that a frame id is one address is the meaning of the model, not a theorem.
- ChunkPools.ChunkPool.AllocateChunk: keeps all pages of a pool in one sequence instead of one array per chunk, so aliasing of raw pointers appears as equality of frame ids, with `ChunkPools.FramesDisjoint` for the layout in bytes; the overflow test on the chunk size is left out, since it cannot fire with a 64-bit `size_t` (`ChunkPools.ChunkBytesFit`), and so are exceptions thrown by vectors; bytes of a new chunk are one unknown value until the page is cleared.
- Lru.VictimIsLeastRecent: epochs are unbounded, so neither wrap-around nor the sentinel value of the scan (`src/mmu_api.cpp:306`) can occur.
- NpyHeader.ParseHeader: `front()` and `back()` of an empty string, which C++ leaves undefined, count as the error of the same test.
- NpyHeader.ParseDict: sorts by position with a stable insertion; two different keys never occur at the same position, so ties do not matter.
- NpyStream.ReadHeader: a short read leaves zeros in the buffer and the stream at its end, as the C++ stream does, but other stream failures are not modelled; `unsigned long` has 64 bits.
- Globs.UnitTestFilter.constructor: keeps patterns in their written order; `std::partition` may permute the globs, which `MatchesName` cannot observe.
- `mmu_test_*` hooks, getters and snapshots (`src/mmu_api.cpp:978-1122`); `mmu_test_update_mapping` can demote a pinned block, so pin safety does not extend to it. `Context::UpdateMapping` is modelled.
- `mmu_shutdown`: it destroys all contexts and frees everything; `Teardown.TeardownRestores` covers the destroying.
- The recursive mutex: every call is one atomic step. Null pointers and C++ exceptions are not modelled.
- Wrap-around of pin and reference counters, and page tables longer than `INT_MAX`.
- Branches that cannot be taken, such as an empty free list right after carving a chunk (`src/mmu_api.cpp:192-194`) or a failing release in `Context::PrepareBlockForWrite` (`src/core/context.cpp:158-161`).
- `PositiveAndNegativeUnitTestFilter` and the rest of googletest.
- The array payload of `.npy` files, `dtype_map` and endianness detection: the dtype is an input.
- `examples/` and the tiers and schedulers that only the documentation mentions.
