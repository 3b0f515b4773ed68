# Segno inference engine: a verified model

This project models, in Dafny, the parts of the inference engine that carry real algorithms, and
proves what their callers rely on. `dafny verify dfyconfig.toml` checks everything.

| modules | what is modelled |
|---|---|
| BfcSizes, BfcTable, BfcRegions, BfcHeap, BfcBins, BfcState, BfcAllocator, BfcTheorems | the best-fit-with-coalescing device allocator: regions, chunk records with physical links, size-ordered bins, the pointer-to-handle tables, growth and garbage collection of regions |
| BlockPool, MemoryReuser | the pool of device blocks and the linear scan that binds tensors to recycled blocks |
| ResultQueue, FetchTokens | a request's result queue between the model loop and a reading client, and the two-phase read of the C interface |
| RankPool, RankOperations, RankShutdown | operations fanned out to one worker queue for each rank, what each operation gives out and when it returns, and the end of the pool |
| Publishing, RequestTable, LoopRuns, EngineLoop, Interleavings, LoopReaders, RuntimeContext | the model loop: control messages, publication of results, eviction, synchronisation, stopping, whole runs of it, and these runs beside their readers; the running batch |
| LoraUsage | accounting of LoRAs in use |
| BlockingQueue, ThreadPool | the blocking queue over a lock-free queue and a semaphore; the worker pool |
| Md5 | streaming, counting and padding of the MD5 digest of RFC 1321 |
| ExtraEmbedding | placeholder runs of multi-media embeddings and the shift by a cached prefix |
| TensorDesc | tensor strides and four-dimensional formats |

Objects that the program updates in place are classes whose methods are proved against functions of
their old and new state; protocols between threads are state machines whose steps are single atomic
accesses or locked sections, with results for every run. In BfcAllocator the ghost fields `table`,
`live` and `recycled` are the abstract heap; the predicate `Quiet` is the invariant between steps.

The willingness of the sub-allocator, the outcomes of decoding, what the workers show of a request and the
messages seen in a turn are inputs; the addresses granted, the order in which hash tables are walked,
timeouts and the scheduling of threads are nondeterministic choices. In EngineLoop the ghost fields `begun`
and `records` note every synchronisation with the requests it covers and the queues when it was answered. What the code does and its own
comments do not promise, or contradict:

* Handle 0 also stands for "no region" (`csrc/device/bfc_allocator.cpp:321-325`, 1044), so that the
  first allocation of an allocator can never be freed (`BfcTheorems.FreeAllocation`,
  `BfcTheorems.FirstAllocationStays`). The invariant `Valid` includes that chunk 0, once made, stays in use.
* A fragmentation fraction whose product with the limit is below one byte gives a threshold of zero, and
  an exact fit is then cut, too, at its end (`BfcTheorems.SplitFindsSlot`). `SplitChunk` records the handle of
  the rest there before it sets any size (`csrc/device/bfc_allocator.cpp:990-1001`): over the entry of the next
  chunk (`BfcTheorems.ExactCut`), or past the region, where it finds another region's first entry, a region that
  does not hold the address, or behind the last region a null pointer (`BfcTheorems.EndOfRegion`).
* A reader keeps only the first token of each element (`csrc/interface/allspark.h:392-401`): with several
  tokens in an element the others are lost (`ResultQueue.CompleteIffSingle`).
* A use of a LoRA counted for a request that is then denied, interrupted or released early is never taken
  back (`LoraUsage.LeakIsForever`, `LoraUsage.DenialLeaksIff`); and the guards look at one model's uses only
  (`LoraUsage.OtherModelUnloads`).
* LoRA calls bypass the engine lock: the ranks agree on the order of all calls as long as the two sides do not
  give out calls at once (`RankPool.AlternatingRunsAgree`), but nothing keeps them from it
  (`RankPool.BothMayIssue`), and then ranks may disagree (`RankPool.BothIssuingMayDisagree`).
* A synchronisation naming a request that is not registered is never answered
  (`EngineLoop.ModelLoop.Serve`).
* The CPU branch of the embedding operator counts the offset of a shortened run in bytes where the CUDA branch
  counts words, so that a prefix ending inside a run makes it read other words
  (`ExtraEmbedding.WordsAfterShift`).
* A thread pool without workers never runs its tasks (`ThreadPool.NoWorkersRunNothing`).
* The destructor of the ranks' pool may leave queued calls unexecuted: exactly those not yet waited for by their
  worker (`RankShutdown.LeftExactly`, `RankShutdown.StragglerIsLeft`); none if both clients have collected every
  answer (`RankShutdown.NothingLeft`).
* A tensor descriptor that was rejected for its channels still answers, with no channels
  (`TensorDesc.GetUndoesSet`).

## Model

| member | source | states |
|---|---|---|
| BfcSizes.RoundedBytes | csrc/device/bfc_allocator.cpp:737-743 | the least multiple of 256 that is not below the request |
| BfcSizes.Log2FloorUnique | csrc/device/bfc_allocator.cpp:443-450 | the floor logarithm is the only exponent whose power of two brackets the number |
| BfcSizes.Log2FloorNonZeroSlow | csrc/device/bfc_allocator.cpp:443-450 | the shifting loop computes the floor logarithm of every positive number |
| BfcSizes.BinNumMonotone | csrc/device/bfc_allocator.cpp:472-476 | a larger chunk never falls into a lower bin |
| BfcSizes.BinNumInterval | csrc/device/bfc_allocator.cpp:469-476 | bin b holds exactly the sizes from 256·2^b up to the next bin, the last bin everything beyond: the checks that the constructor enforces hold for every size |
| BfcSizes.GrownSizeIsDoubling | csrc/device/bfc_allocator.cpp:616-623 | the size of the next region is the current one times a power of two |
| BfcSizes.GrownSizeLeast | csrc/device/bfc_allocator.cpp:616-623 | and the least of its doublings that holds the request |
| BfcRegions.UpperBoundUnique | csrc/device/bfc_allocator.cpp:335-345 | the region found for a pointer is the only one before which all regions end at or below it |
| BfcRegions.InsertOk | csrc/device/bfc_allocator.cpp:288-293 | inserting a disjoint region at the upper bound keeps the regions sorted and disjoint |
| BfcRegions.InsertView | csrc/device/bfc_allocator.cpp:288-293 | after an insertion every pointer still leads to the slot it led to, and the new region's slots are empty |
| BfcRegions.ExtendedOk | csrc/device/bfc_allocator.cpp:299-311 | extending the region that ends where the grant begins keeps the regions sorted and disjoint |
| BfcRegions.ExtendedViewOld | csrc/device/bfc_allocator.cpp:237-244 | extension keeps every recorded handle |
| BfcRegions.WithoutOk | csrc/device/bfc_allocator.cpp:316-319 | removing a region keeps the others sorted and disjoint |
| BfcRegions.WithoutView | csrc/device/bfc_allocator.cpp:316-319 | removing a region changes no other region's handles |
| BfcRegions.SetHandleView | csrc/device/bfc_allocator.cpp:248-263 | recording a handle changes the slot of its pointer and no other |
| BfcRegions.RepresentsSetHandle | csrc/device/bfc_allocator.cpp:321-330 | the sorted vector of handle tables represents one table from 256-byte slots to handles, before and after an update |
| BfcHeap.SplitShape | csrc/device/bfc_allocator.cpp:999-1023 | splitting a chunk keeps the whole heap invariant: tiling, links as physical adjacency, exact handle table |
| BfcHeap.MergeShape | csrc/device/bfc_allocator.cpp:1064-1102 | merging two neighbours keeps the whole heap invariant |
| BfcHeap.AddShape | csrc/device/bfc_allocator.cpp:656-682 | a new region, or a grant joined to a preceding region, keeps the whole heap invariant |
| BfcHeap.DropShape | csrc/device/bfc_allocator.cpp:835-850 | removing all chunks of a region with the region keeps the heap invariant of the rest |
| BfcBins.InsertKeepsBins | csrc/device/bfc_allocator.cpp:1104-1111 | filing a free chunk keeps every bin ordered by size and address, and each bin the set of free chunks of its interval |
| BfcBins.RemoveKeepsBins | csrc/device/bfc_allocator.cpp:1113-1129 | taking a chunk out of its bin keeps all bins ordered and complete |
| BfcBins.ChainPush | csrc/device/bfc_allocator.cpp:703-709 | a recycled record joins the free list without disturbing it |
| BfcBins.ChainPop | csrc/device/bfc_allocator.cpp:690-701 | taking the head of the free list leaves the rest of the list |
| BfcBins.SumUpdate | csrc/device/bfc_allocator.cpp:967 | changing one record changes the bytes in use by that record's share only |
| BfcState.FirstFitIsBest | csrc/device/bfc_allocator.cpp:928-937 | the first large enough chunk of the first fitting bin is least in (size, address) among all large enough free chunks |
| BfcState.TakePart | csrc/device/bfc_allocator.cpp:951-963 | cutting off the front and marking it used keeps tags, separation and accounting, and changes exactly two map entries |
| BfcState.MarkFreed | csrc/device/bfc_allocator.cpp:1131-1140 | marking a chunk free moves it from the used to the free map and reduces the bytes in use by its size |
| BfcState.SumKeptBusy | csrc/device/bfc_allocator.cpp:770-787 | the bytes kept by dropping the idle regions are exactly those of regions holding a chunk in use |
| BfcAllocator.SubAllocate | csrc/device/bfc_allocator.cpp:625-632 | a willing sub-allocator gives an arbitrary address range disjoint from all held ones, an unwilling one nothing |
| BfcAllocator.FragmentThreshold | csrc/device/bfc_allocator.cpp:946-949 | some waste is tolerated iff no fraction is given or its product with the limit reaches one byte |
| BfcAllocator.BfcAllocator.constructor | csrc/device/bfc_allocator.cpp:529-570 | a new allocator satisfies the invariant, holds no region and no allocation; its first region size is the rounded limit, or 2 MiB with growth and a limit of at least that; the tolerated waste is the truncated fraction of the limit, or 128 MiB |
| BfcAllocator.BfcAllocator.AllocateChunk | csrc/device/bfc_allocator.cpp:690-701 | the record handed out is neither live nor recycled; no other record changes |
| BfcAllocator.BfcAllocator.DeallocateChunk | csrc/device/bfc_allocator.cpp:703-709 | the record becomes the head of the free list; the used bytes stay |
| BfcAllocator.BfcAllocator.InsertFreeChunkIntoBin | csrc/device/bfc_allocator.cpp:1104-1111 | only the chunk's bin number changes; bins stay exact |
| BfcAllocator.BfcAllocator.RemoveFreeChunkFromBin | csrc/device/bfc_allocator.cpp:1123-1129 | only the chunk's bin number changes; bins stay exact |
| BfcAllocator.BfcAllocator.SplitChunk | csrc/device/bfc_allocator.cpp:990-1027 | the chunk is cut to the requested bytes and exactly one new free chunk holds the rest |
| BfcAllocator.BfcAllocator.Merge | csrc/device/bfc_allocator.cpp:1064-1102 | the second chunk is absorbed into the first, its record recycled; nothing else moves |
| BfcAllocator.BfcAllocator.TryToCoalesce | csrc/device/bfc_allocator.cpp:1142-1170 | the result has no free neighbour, covers the chunk, and the set of free bytes and all allocations are unchanged |
| BfcAllocator.BfcAllocator.FindBestChunk | csrc/device/bfc_allocator.cpp:928-937 | no chunk is found iff every free chunk is too small; otherwise the one found is least in (size, address) among those that fit |
| BfcAllocator.BfcAllocator.FindChunkPtr | csrc/device/bfc_allocator.cpp:925-988 | takes the best fit, whole iff the waste is below the request and below the tolerance, else cut to the request; states the whole new map of used and free chunks; fails iff nothing fits, changing nothing |
| BfcAllocator.BfcAllocator.TakeChunk | csrc/device/bfc_allocator.cpp:940-982 | one free chunk becomes an allocation with a fresh identifier; the rest, if split off, is the only other change |
| BfcAllocator.BfcAllocator.Extend | csrc/device/bfc_allocator.cpp:605-688 | succeeds iff the sub-allocator is willing and the request within the limit; asks for the least doubling of the current region size that holds the request, or for all that is available; adds exactly these bytes to the free bytes and the region total; leaves every allocation alone; afterwards a chunk of the granted size is free; a refused request leaves only the next region size grown |
| BfcAllocator.BfcAllocator.GrowRegionRequest | csrc/device/bfc_allocator.cpp:616-623 | the loop doubles to the least size that holds the request |
| BfcAllocator.BfcAllocator.ObtainGrant | csrc/device/bfc_allocator.cpp:606-638 | a region is granted iff the sub-allocator is willing and the request within the limit; the next region size doubles only if this one was granted without growing |
| BfcAllocator.BfcAllocator.RegisterRegion | csrc/device/bfc_allocator.cpp:648-654 | the grant is registered as its own region, or as the extension of the region that ends where it begins |
| BfcAllocator.BfcAllocator.LastBefore | csrc/device/bfc_allocator.cpp:669-679 | with coalescing regions, the last chunk of the region that ends at the grant, if there is one |
| BfcAllocator.BfcAllocator.DeallocateRaw | csrc/device/bfc_allocator.cpp:1035-1060 | releases exactly the chunk recorded for the pointer; its bytes become free and no others; null and handle 0 are ignored; a pointer to no used chunk is rejected |
| BfcAllocator.BfcAllocator.RegionInUse | csrc/device/bfc_allocator.cpp:770-780 | the walk along the links finds a chunk in use iff the region holds one |
| BfcAllocator.BfcAllocator.FindIdleRegions | csrc/device/bfc_allocator.cpp:767-787 | lists only idle regions, and all their bytes |
| BfcAllocator.BfcAllocator.DeallocateFreeRegions | csrc/device/bfc_allocator.cpp:759-818 | acts iff collection is on, something is idle and the request would then fit the limit; exactly the busy regions' bytes remain; no allocation is touched |
| BfcAllocator.BfcAllocator.DeallocateRegions | csrc/device/bfc_allocator.cpp:820-852 | the listed idle regions disappear, the total shrinks by their bytes, every allocation stays |
| BfcAllocator.BfcAllocator.DropRegion | csrc/device/bfc_allocator.cpp:835-850 | one region goes with its chunks, records and handles |
| BfcAllocator.BfcAllocator.AllocateRaw | csrc/device/bfc_allocator.cpp:854-907 | null is returned iff nothing is asked for, or no free chunk holds the rounded request and no room can be made: neither within the limit at once nor after dropping idle regions, as far as the sub-allocator is willing each time; otherwise exactly one allocation is added; from the best fit if there is one, and then regions and their total stay and the free chunks change as FindChunkPtr says; else the region total is the old one, or that of the busy regions after idle ones were dropped, plus exactly the size asked for; identifiers stay unique and waste below the bounds |
| BfcAllocator.BfcAllocator.CollectAndExtend | csrc/device/bfc_allocator.cpp:888-894 | idle regions are dropped iff that makes room, and the request is then served iff the sub-allocator is willing; the region total is the busy bytes plus exactly the size asked for |
| BfcAllocator.BfcAllocator.WillingRecovery | csrc/device/bfc_allocator.cpp:759-818 | with a willing sub-allocator room can be made iff the request is within the limit minus the bytes of regions in use, or of all regions without collection |
| BfcAllocator.BfcAllocator.LargestFreeChunk | csrc/device/bfc_allocator.cpp:909-916 | the size of the largest free chunk, 0 iff nothing is free |
| BfcTheorems.LayoutTiles | csrc/device/bfc_allocator.cpp:105-117 | following the links from a chunk meets consecutive chunks up to the end of its region |
| BfcTheorems.TileAt | csrc/device/bfc_allocator.cpp:108-109 | every address of a tiled span lies in one of its chunks |
| BfcTheorems.BytePartition | csrc/device/bfc_allocator.cpp:105-117 | every byte of every region is either free or in use, never both |
| BfcTheorems.AllocationsDisjoint | csrc/device/bfc_allocator.cpp:105-109 | different live allocations occupy disjoint memory inside regions |
| BfcTheorems.PointerToHandle | csrc/device/bfc_allocator.cpp:321-325 | the table leads from an allocation's pointer to its chunk |
| BfcTheorems.FreeAllocation | csrc/device/bfc_allocator.cpp:1042-1045 | freeing a live allocation's pointer releases it iff its chunk is not number 0 |
| BfcTheorems.FirstAllocationStays | csrc/device/bfc_allocator.cpp:1042-1045 | the first allocation of a new allocator succeeds iff the sub-allocator is willing and the limit allows it, and then can never be freed: its bytes stay in use |
| BfcTheorems.FirstRegion | csrc/device/bfc_allocator.cpp:539-546 | without growth the first allocation takes the whole limit rounded down to 256 bytes; with growth the least doubling of 2 MiB, or of a smaller limit, that holds the request, or all that the limit allows |
| BfcTheorems.FullLimitRefuses | csrc/device/bfc_allocator.cpp:606-613 | with the whole limit taken every request for a region is refused |
| BfcTheorems.BestFitServed | csrc/device/bfc_allocator.cpp:928-963 | the least free chunk that holds the rounded request is handed out whole when the waste is below the request and below the tolerance, else exactly the request is cut from its front; no other allocation or free chunk changes |
| BfcTheorems.SplitFindsSlot | csrc/device/bfc_allocator.cpp:946-1010 | in every sound heap every split finds a free table slot for its rest iff the tolerated waste is positive; a region of one slot that is cut at its end is the witness |
| BfcTheorems.InnerCut | csrc/device/bfc_allocator.cpp:990-1001 | a cut inside a chunk falls on an unused slot of the same region |
| BfcTheorems.ExactCut | csrc/device/bfc_allocator.cpp:990-1001 | an exact fit is cut at the next chunk, over whose handle the rest would be recorded, or at the end of the region |
| BfcTheorems.EndOfRegion | csrc/device/bfc_allocator.cpp:335-345 | the end of a region lies in the next region iff that starts there, and in none otherwise; after the last region the lookup finds nothing |
| BlockPool.Block.Resize | csrc/common/block_impl.h:89-96 | a block grows to the requested size and never shrinks |
| BlockPool.LowerBound | csrc/common/block_allocator.h:34 | all blocks before the position precede the search key, the block there does not |
| BlockPool.InsertedOrdered | csrc/common/block_allocator.h:60 | inserting at the lower bound keeps the pool ordered |
| BlockPool.BlockAllocator.Alloc | csrc/common/block_allocator.h:30-48 | the block is large enough and not handed out before; a new one is made only from an empty pool; otherwise a free block leaves the pool, grown only if no free block exceeds the request, and no larger one is taken than needed |
| BlockPool.BlockAllocator.GrowLast | csrc/common/block_allocator.h:38-41 | growing the largest free block in place keeps the ordered set ordered |
| BlockPool.BlockAllocator.Free | csrc/common/block_allocator.h:50-61 | a handed-out block returns to the pool; null and foreign blocks change nothing |
| BlockPool.BlockAllocator.Reset | csrc/common/block_allocator.h:63-68 | all blocks are free again and none is lost |
| MemoryReuser.RestPositive | csrc/common/memory_reuser.cpp:46-58 | the remaining count of a tensor is positive iff a later visit exists |
| MemoryReuser.CountVisits | csrc/common/memory_reuser.cpp:48-58 | the counts start as the numbers of visits of exactly the visited tensors |
| MemoryReuser.Visit | csrc/common/memory_reuser.cpp:62-71 | one visit binds a tensor seen for the first time to a block no live tensor holds, counts down, and skips the tensors not to be reused |
| MemoryReuser.BindStep | csrc/common/memory_reuser.cpp:62-71 | after the visits of a step exactly the reusable tensors seen so far are bound, and live tensors hold different blocks |
| MemoryReuser.ReleaseStep | csrc/common/memory_reuser.cpp:72-79 | in any order of the counts, exactly the tensors with no visits left give their blocks back, once |
| MemoryReuser.Step | csrc/common/memory_reuser.cpp:61-80 | a step makes new blocks only to serve the tensors live at it |
| MemoryReuser.BindingWithAlgo0 | csrc/common/memory_reuser.cpp:46-81 | exactly the visited tensors are bound whose name has none of the 14 reserved strings as a part; tensors sharing a block are never live together; every block is returned; the number of blocks made is the peak number of live tensors beyond those already handed out |
| MemoryReuser.PeakAttained | csrc/common/memory_reuser.cpp:61-80 | the peak bounds the live tensors of every step and is attained |
| MemoryReuser.PeakNeeded | csrc/common/memory_reuser.cpp:61-80 | any safe binding of the reusable tensors uses at least the peak number of blocks |
| MemoryReuser.SharersDisjoint | csrc/common/memory_reuser.cpp:46-81 | two tensors with the same block are at no step both live |
| MemoryReuser.CheckNoUsed | csrc/common/memory_reuser.cpp:36-43 | the search finds a reserved string iff one of the 14 is a part of the name |
| ResultQueue.AdvanceConserves | csrc/common/result_queue.cpp:135-287 | no single access of Get, timed Get or GetNoWait loses, repeats or reorders a token |
| ResultQueue.StepKeepsInv | csrc/common/result_queue.cpp:135-326 | every step of producer or client keeps: delivered, held and queued first tokens make up the appended ones; the generated length counts all tokens |
| ResultQueue.DeliveredPrefix | csrc/common/result_queue.cpp:149-287 | in every interleaving the concatenated replies are a prefix of the appended elements' first tokens |
| ResultQueue.HeadsAreAll | csrc/interface/allspark.h:392-401 | keeping the first token of each element keeps all tokens iff every element has one |
| ResultQueue.TokensPrefix | csrc/common/result_queue.cpp:149-287 | with one token in each element the replies are a prefix of all appended tokens |
| ResultQueue.TerminalReplyIsComplete | csrc/common/result_queue.cpp:189-199 | a waiting call that saw a terminal status returns with nothing left undelivered |
| ResultQueue.EmptyReplyMeansEnd | csrc/common/result_queue.cpp:171-199 | on an open queue an empty reply of a waiting call means generation has ended and all was delivered |
| ResultQueue.ExhaustedStays | csrc/common/result_queue.cpp:149-287 | after that nothing more is appended or delivered in any continuation |
| ResultQueue.TimeoutLosesNothing | csrc/common/result_queue.cpp:211-219 | a timed-out call returns null having taken no token |
| ResultQueue.CompleteIffSingle | csrc/common/result_queue.cpp:300-326 | at the end the client has as many tokens as GeneratedLength says iff no element held several |
| ResultQueue.CallAlone | csrc/common/result_queue.cpp:135-287 | with no producer step in between, GetNoWait returns all that is queued on an open queue, and so does a waiting call if something is queued or generation has ended |
| ResultQueue.CallWaits | csrc/common/result_queue.cpp:149-260 | a waiting call waits for as long as nothing is queued and generation goes on |
| ResultQueue.TimedCallMayGiveUp | csrc/common/result_queue.cpp:212-219 | then a call with a timeout may return null, leaving all else as it was |
| ResultQueue.UntimedNeverGivesUp | csrc/common/result_queue.cpp:211-219 | and one without never does, in any interleaving |
| ResultQueue.ClosedCallReturns | csrc/common/result_queue.cpp:166 | a queue is open at first and can be closed at any time; then every call returns at once |
| ResultQueue.GetNoWaitTakesAll | csrc/common/result_queue.cpp:272-287 | in every interleaving GetNoWait returns on an open queue only with nothing queued: the client then has every first token appended |
| ResultQueue.EndMetIsComplete | csrc/common/result_queue.cpp:189-199 | a waiting call that meets an end, or begins after it, returns with nothing left undelivered, whatever it held and whatever steps come before its return, unless the queue is closed |
| ResultQueue.MeetsTheEnd | csrc/common/result_queue.cpp:189-191 | such a call is one at a status comparison that holds, and one begun when generation has ended |
| ResultQueue.FinishingEnds | csrc/common/result_queue.cpp:149-260 | and it returns: each of its steps brings the return nearer |
| FetchTokens.Request.FetchTokens | csrc/interface/allspark_c.cpp:439-478 | status, count, pending batch and buffer after every kind of call, errors included; bytes beyond the batch are untouched |
| FetchTokens.FetchConserves | csrc/interface/allspark_c.cpp:445-477 | any sequence of queries, short buffers, copies and timeouts writes, with what is pending, exactly the replies it asked for |
| FetchTokens.QueryThenCopy | csrc/interface/allspark_c.cpp:460-476 | a copy after a query succeeds iff the buffer holds the announced number, delivers exactly that batch, and otherwise keeps it |
| FetchTokens.WrittenPrefix | csrc/interface/allspark_c.cpp:439-478 | through the C interface a reader gets a prefix of the first tokens appended |
| FetchTokens.FetchGetsQueued | csrc/interface/allspark_c.cpp:445-477 | a read of an open queue with nothing pending and enough room gets exactly what is queued: with timeout zero always, with another if something is queued or generation has ended |
| FetchTokens.TimesOutIff | csrc/interface/allspark_c.cpp:446-460 | while nothing is queued and generation goes on, a read may report an empty request iff its timeout is positive |
| RankPool.StepKeepsInv | csrc/common/as_engine.cpp:554-790 | every step of clients and ranks keeps: each rank has been given its client's calls, with what they are about, in order; clients wait as their operation says |
| RankPool.ExecutedPrefix | csrc/common/as_engine.cpp:554-790 | at every moment each rank has executed a prefix of one common sequence of engine calls, and of one common sequence of LoRA calls |
| RankOperations.LogIsOperations | csrc/common/as_engine.cpp:554-790 | in every run the calls given out by the engine, and those by the LoRA side, are exactly those of the operations begun, in their order, decoding having one or two phases |
| RankOperations.ReturnedEarlyIff | csrc/common/as_engine.cpp:588-622 | an operation that has returned has collected every rank iff none answered its last call with an error that ends it; stopping, releasing, starting and the context phase collect every rank |
| RankPool.AgreeAfterCollecting | csrc/common/as_engine.cpp:602-622 | when an operation returns after collecting every rank, all ranks have executed the whole sequence |
| RankPool.DecodingIsGuarded | csrc/common/as_engine.cpp:572-600 | a decoding call is only given out after the memory allocation before it succeeded on every rank |
| RankPool.ExecuteKeepsLine | csrc/common/thread_pool_with_id.h:39-62 | a worker takes its calls in the order they were enqueued |
| RankShutdown.StoppedPrefix | csrc/common/thread_pool_with_id.h:39-85 | in every run with a stop, each rank has executed a prefix of each client's calls, also when its worker has gone |
| RankShutdown.LeftExactly | csrc/common/thread_pool_with_id.h:39-85 | when a worker has gone, its queue is exactly that at the stop, without the first call iff the worker was already waiting for it |
| RankShutdown.NothingLeft | csrc/common/thread_pool_with_id.h:73-85 | if both clients have collected every answer when the pool is stopped, no call is left behind |
| RankShutdown.AnyQueueMayBeLeft | csrc/common/thread_pool_with_id.h:45-48 | every reachable state can be the one at the stop, with all its queued calls left behind |
| RankShutdown.StragglerIsLeft | csrc/common/thread_pool_with_id.h:45-48 | so a call of an operation that returned early is lost when rank 1 has not caught up |
| RankShutdown.StoppingEnds | csrc/common/thread_pool_with_id.h:73-85 | after the stop every move of a worker or the destructor brings the end nearer, and no client move undoes it |
| RankShutdown.StoppingProceeds | csrc/common/thread_pool_with_id.h:73-85 | until all workers have gone one of these moves is possible: the wake-up messages leave none waiting |
| RankPool.StragglerAfterEarlyReturn | csrc/common/as_engine.cpp:588-595 | after a failed allocation on rank 0 the operation returns while rank 1 has not caught up |
| RankPool.AlternatingRunsAgree | csrc/common/as_engine.cpp:554-790 | in every run in which the engine and LoRA operations do not give out calls at the same time, every rank has been given, and has executed, a prefix of one merged sequence of the calls of both |
| RankPool.GuardedRunsAlternate | csrc/common/as_engine_lora.cpp:16-50 | testing before each operation that the other side is not giving out calls, nor between the two phases of a decoding step, is enough for that |
| RankPool.BothIssuingMayDisagree | csrc/common/as_engine_lora.cpp:45-50 | from every reachable state in which both give out calls to two or more ranks, some continuation leaves two ranks with the calls in different orders |
| RankPool.BothMayIssue | csrc/common/as_engine_lora.cpp:16-50 | and such states are reached: any LoRA operation may begin beside any engine operation |
| Publishing.UpdateForward | csrc/common/as_engine.cpp:1122-1173 | an update moves a queue from Init to Generating to an end only, and an ended queue not at all |
| Publishing.UpdateKeepsTokens | csrc/common/as_engine.cpp:1005-1036 | an update publishes the tokens that are new, once and in order |
| Publishing.UpdatePublishesAll | csrc/common/as_engine.cpp:1005-1173 | an update of a request that is not over and whose view has begun publishes all tokens shown that are new, as one element, raises the length to what is shown, and finishes the request iff the view says so |
| Publishing.UpdateIsProducerRun | csrc/common/as_engine.cpp:1137-1173 | an update is a run of producer steps of the result queue model: tokens before the final status, nothing after it |
| Publishing.EvictionFeeds | csrc/common/as_engine.cpp:1598-1602 | the interruption of a generating request is a producer step, too |
| RequestTable.HandledOk | csrc/common/as_engine.cpp:1366-1467 | every message keeps the two maps' keys equal and each key its handle's uuid |
| RequestTable.RegisteredIff | csrc/common/as_engine.cpp:1339-1467 | after any messages exactly those requests are registered that were started in time, or registered before, and not released since; the graceful stop has begun iff a message said so |
| RequestTable.RegisteredWith | csrc/common/as_engine.cpp:1372-1384 | with the handle and queue they had, or the handle they were started with and a new queue |
| RequestTable.HaltedIff | csrc/common/as_engine.cpp:1346-1363 | a turn ends without execution iff one of its messages stops the loop or starts a request too late |
| RequestTable.PublishedEach | csrc/common/as_engine.cpp:1102-1174 | an update of all requests publishes what is shown of every one, and registers and releases none |
| RequestTable.PublishedOk | csrc/common/as_engine.cpp:1102-1174 | an update of all requests keeps the maps sound and moves every status forward |
| RequestTable.EvictionsEffect | csrc/common/as_engine.cpp:1544-1602 | exactly the victims of a retry loop are interrupted, each once, and those generating are fewer by one for each |
| RequestTable.VictimIsLongest | csrc/common/as_engine.cpp:1700-1711 | under MaxLength each victim is a longest one of those still generating |
| RequestTable.EvictionsDetermined | csrc/common/as_engine.cpp:1544-1619 | the number of attempts is fixed by their outcomes and the number of generating requests, whoever the victims are |
| LoopRuns.PathOk | csrc/common/as_engine.cpp:1255-1691 | in every run both maps have equal keys, and each key is its handle's uuid |
| LoopRuns.StatusForward | csrc/common/as_engine.cpp:1122-1173 | in every run, until it is released, a request's status only moves forward, and an ended queue stays as it is |
| LoopRuns.EachTokenOnce | csrc/common/as_engine.cpp:1005-1036 | in every run of messages, updates and evictions, each token of a request is published once and in order |
| LoopRuns.ExecutionCovers | csrc/common/as_engine.cpp:1530-1629 | in an execution all that the first view shows of a request not over is published, and all that the second shows unless the request was interrupted or decoding failed for good; it is finished only by a view that says so |
| LoopRuns.ShownIsPublished | csrc/common/as_engine.cpp:1255-1691 | in every run, at the end of a turn that executes, a request still generating has published all tokens of its last view |
| LoopRuns.EachQueueFeeds | csrc/common/as_engine.cpp:1137-1173 | in every run each request's queue is one that the result queue model reaches, so that what is proved there of readers holds here |
| Interleavings.RunPuts | csrc/common/result_queue.cpp:289-326 | in every interleaving the producer's steps alone decide status and appended elements |
| Interleavings.ExecutionLeads | csrc/common/as_engine.cpp:1102-1174 | what an execution publishes, interrupts and publishes again of one request is a sequence of producer steps none of which follows an end |
| LoopReaders.ExecutedEach | csrc/common/as_engine.cpp:1530-1629 | an execution treats every request by its own handle, queue and views, evicted iff it is a victim |
| LoopReaders.EveryInterleaving | csrc/common/as_engine.cpp:1255-1691 | in every run of the loop, from any matching state of a request's result queue and with any reader steps in between: no step of the loop is blocked, and the queue ends where the loop believes it to be |
| LoopReaders.ReaderGetsPublished | csrc/common/as_engine.cpp:1255-1691 | from the registration of a request on, in every run and every interleaving with its reader, the replies are, in order, first tokens of what the loop has published |
| EngineLoop.ChooseVictim | csrc/common/as_engine.cpp:1696-1733 | MaxLength picks the first longest request, Random any |
| EngineLoop.ModelLoop.constructor | csrc/common/as_engine.cpp:1241-1247 | the loop starts without requests, promises or synchronisation |
| EngineLoop.ModelLoop.UpdateResult | csrc/common/as_engine.cpp:1102-1174 | every registered request is updated once by its own view, all new tokens shown being published; exactly the requests that are over leave the pending set; all queues move forward |
| EngineLoop.ModelLoop.UpdateOne | csrc/common/as_engine.cpp:1110-1173 | one request's handle, queue and pending mark after its update, for each case of status and view |
| EngineLoop.ModelLoop.EvictOne | csrc/common/as_engine.cpp:1555-1602 | no victim iff nothing is generating; else exactly one generating request is interrupted, under MaxLength a longest one |
| EngineLoop.ModelLoop.Decode | csrc/common/as_engine.cpp:1544-1619 | attempts go on while memory is out and someone generates; after each such attempt one generating request is interrupted, under MaxLength a longest; exactly the victims change; the loop aborts iff the last outcome is another failure; one attempt more than victims |
| EngineLoop.ModelLoop.Register | csrc/common/as_engine.cpp:1372-1384 | a new uuid gets its handle and a new queue; a duplicate keeps the old ones; both maps keep equal keys |
| EngineLoop.ModelLoop.Unregister | csrc/common/as_engine.cpp:1458-1467 | releasing removes a request from both maps |
| EngineLoop.ModelLoop.BeginSync | csrc/common/as_engine.cpp:1410-1435 | a synchronisation owes its promise and waits for exactly the named requests, which are noted |
| EngineLoop.ModelLoop.Handle | csrc/common/as_engine.cpp:1337-1493 | effect of each control message on maps, promises, synchronisation and stopping; which promises are answered at once, and how; no answer is changed |
| EngineLoop.ModelLoop.HandleMessages | csrc/common/as_engine.cpp:1280-1502 | no message is taken while a synchronisation is outstanding, else all that are seen up to the first that begins one, with their joint effect |
| EngineLoop.ModelLoop.FinishSync | csrc/common/as_engine.cpp:1634-1650 | the promise is answered iff nothing is pending; every covered request is then over, and the queues of that moment go on record |
| EngineLoop.ModelLoop.CheckStop | csrc/common/as_engine.cpp:1655-1687 | the loop stops gracefully iff that phase has begun and nothing is left; success iff all requests were released |
| EngineLoop.ModelLoop.Execute | csrc/common/as_engine.cpp:1530-1629 | publishes by the first views, decodes with evictions, and publishes by the second views unless decoding failed for good; nothing is pending afterwards iff all waited for are registered and over |
| EngineLoop.ModelLoop.Turn | csrc/common/as_engine.cpp:1255-1691 | one turn is the messages taken followed by the execution, unless a message halts it; the outstanding synchronisation, also one begun in the turn, is answered iff the turn executes and all it waits for are registered and over, and is then on record with the queues; answers are given once; when the loop ends and what it answers then |
| EngineLoop.ModelLoop.Serve | csrc/common/as_engine.cpp:1255-1691 | in every run the messages are taken in order, each turn being one of LoopRuns; every synchronisation taken covers exactly the request it names, or exactly those registered in the table that its turn leaves, and is answered only on record, with every request it covers over in the queues of a table of the run; when one on all requests has been answered, all that were registered in its turn were over; one that waits for an unregistered request is never answered |
| RuntimeContext.RuntimeContext.PushBackGenCtx | csrc/common/generate_context.h:113-117 | every context stands at the position it names |
| RuntimeContext.RuntimeContext.FinishRequest | csrc/common/generate_context.h:119-127 | sets finish and the finished status together; exactly the finished context leaves; the last one takes the free place and knows it |
| RuntimeContext.SwappedOutMultiset | csrc/common/generate_context.h:124-126 | the other contexts stay, as often as they were there |
| RuntimeContext.SwappedOutMembers | csrc/common/generate_context.h:124-126 | exactly the finished context leaves the batch |
| LoraUsage.StepKeepsInv | csrc/common/as_engine_request.cpp:62-135 | every locked section keeps one multiset entry for each counted request and the total |
| LoraUsage.ExactAccounting | csrc/common/as_engine_request.cpp:62-72 | in every run the uses of a LoRA are exactly the requests naming it that were counted and not taken back, and the counter is their total |
| LoraUsage.UnloadInUseIff | csrc/common/as_engine_lora.cpp:73-84 | a loaded LoRA answers LORA_IN_USE iff a counted request of the model names it |
| LoraUsage.LoadAnswers | csrc/common/as_engine_lora.cpp:16-50 | what loading may answer, and that rank 0 changes only past all guards, in every reachable state: in use means that a request of the model naming the LoRA was counted and not taken back |
| LoraUsage.UnloadAnswers | csrc/common/as_engine_lora.cpp:62-100 | the same for unloading |
| LoraUsage.LoadedIff | csrc/common/as_engine_lora.cpp:16-100 | in every run a LoRA is loaded iff it was loaded and not unloaded since |
| LoraUsage.StoppedDenies | csrc/common/as_engine.cpp:1343-1346 | a model can be stopped at any time, and stays stopped |
| LoraUsage.PostDecides | csrc/common/as_engine_request.cpp:100-135 | a counted request is denied iff its model is stopping, else accepted iff it could be enqueued, else rolled back |
| LoraUsage.FinishTakesOne | csrc/common/as_engine.cpp:1175-1185 | finishing a request takes back exactly one use, its own |
| LoraUsage.RunningLoraStaysLoaded | csrc/common/as_engine_lora.cpp:62-84 | with one model served, the LoRA of an accepted request stays loaded until it finishes |
| LoraUsage.LeakIsForever | csrc/common/as_engine.cpp:1175-1185 | a request denied, or interrupted or released before it finished, keeps its use in every continuation, so that its LoRA can never be unloaded |
| LoraUsage.DenialLeaksIff | csrc/common/as_engine_request.cpp:106-109 | a denial leaks a use iff the request names a LoRA |
| LoraUsage.OtherModelUnloads | csrc/common/as_engine_lora.cpp:77-84 | under another model's name a LoRA in use passes the guards |
| BlockingQueue.StepKeepsBalance | csrc/utility/blockingconcurrentqueue.h:125-188 | every access keeps the balance of items, permits and claims |
| BlockingQueue.AlwaysBalanced | csrc/utility/blockingconcurrentqueue.h:125-369 | in every run items in the queue equal permits plus unsignalled plus unredeemed ones |
| BlockingQueue.SpinnerHasItem | csrc/utility/blockingconcurrentqueue.h:295-369 | a consumer past the semaphore always finds an item |
| BlockingQueue.NoLossNoRepeat | csrc/utility/blockingconcurrentqueue.h:125-369 | for each producer the delivered items are exactly a prefix of its own, the rest waiting |
| BlockingQueue.DeliveredOfRun | csrc/utility/blockingconcurrentqueue.h:125-369 | in every run what was delivered of a producer are the first items it enqueued, one for each taken, and the rest waits |
| BlockingQueue.EnqueueIsPossible | csrc/utility/blockingconcurrentqueue.h:125-188 | a thread in the middle of nothing may always enqueue |
| BlockingQueue.QuietPermitIffItem | csrc/utility/blockingconcurrentqueue.h:295-305 | with no thread inside, n permits can be taken iff the queue holds n items |
| ThreadPool.CounterAndOrder | csrc/common/thread_pool.h:54-100 | in every run the counter equals queued tasks plus tasks in hand, and tasks start in the order accepted |
| ThreadPool.StepKeepsOnce | csrc/common/thread_pool.h:58-69 | every started task is finished once or in one worker's hands |
| ThreadPool.DestroyedHasRunAll | csrc/common/thread_pool.h:103-112 | with at least one worker every accepted task has run exactly once when the destructor returns |
| ThreadPool.AcceptedOfRun | csrc/common/thread_pool.h:54-112 | in every run exactly the tasks enqueued are accepted, in order; enqueueing is possible until the stop; a waiting worker leaves iff the pool is stopped and empty |
| ThreadPool.StoppedPoolDrains | csrc/common/thread_pool.h:58-69 | in a stopped pool every worker that has not left can step, and each such step shortens the rest |
| ThreadPool.NoWorkersRunNothing | csrc/common/thread_pool.h:50-53 | without workers nothing runs: the promise holds iff nothing was accepted |
| Md5.DecodeEncode | csrc/common/as_param_check.hpp:216-231 | decoding undoes encoding |
| Md5.EncodeDecode | csrc/common/as_param_check.hpp:216-231 | encoding undoes decoding |
| Md5.EncodeInto | csrc/common/as_param_check.hpp:216-223 | the loop writes the words low-order byte first |
| Md5.DecodeInto | csrc/common/as_param_check.hpp:225-231 | the loop reads the words low-order byte first |
| Md5.CountGrows | csrc/common/as_param_check.hpp:112-115 | the two count words with their carry are the 64-bit sum of bit lengths |
| Md5.ReadWord | csrc/common/as_param_check.hpp:226-230 | the four shifted and joined bytes are the number they write in base 256 |
| Md5.ZeroCount | csrc/common/as_param_check.hpp:91 | the padding length brings the message to 56 modulo 64 with fewer than 64 zero bytes (section 3.1 of RFC 1321) |
| Md5.MD5Impl.FillBuffer | csrc/common/as_param_check.hpp:117-120 | the buffered bytes completed by the input are the next block transformed |
| Md5.MD5Impl.TransformRest | csrc/common/as_param_check.hpp:121-123 | exactly the whole blocks of the rest are transformed; the 32-bit bound is exact for inputs below 2^32 - 64 bytes |
| Md5.MD5Impl.Init | csrc/common/as_param_check.hpp:108-130 | after any sequence of inputs the registers are those of all whole blocks so far and the buffer holds the rest |
| Md5.MD5Impl.Pad | csrc/common/as_param_check.hpp:90-99 | what is absorbed after the message is exactly the padding of sections 3.1 and 3.2 of RFC 1321 |
| Md5.MD5Impl.Digest | csrc/common/as_param_check.hpp:79-105 | the digest is the fold of transform over the padded message from the registers of section 3.3 of RFC 1321 |
| Md5.PaddedPieces | csrc/common/as_param_check.hpp:90-99 | the padded message consists of whole blocks |
| Md5.PaddedInFull | csrc/common/as_param_check.hpp:90-99 | the padded message is the message, a byte 0x80, fewer than 64 zeros and the bit length modulo 2^64 in eight bytes, low-order byte first (sections 3.1 and 3.2 of RFC 1321) |
| Md5.InitialBytes | csrc/common/as_param_check.hpp:81-84 | the initial registers hold the bytes of section 3.3 of RFC 1321 |
| Md5.DigestBytes | csrc/common/as_param_check.hpp:100-103 | the digest is the four registers in order, low-order byte first (section 3.5 of RFC 1321) |
| ExtraEmbedding.RunsExactly | csrc/common/extra_embedding.hpp:63-76 | the stretches found are exactly the maximal runs of placeholder tokens |
| ExtraEmbedding.RunsInOrder | csrc/common/extra_embedding.hpp:63-76 | they are found from left to right without overlap |
| ExtraEmbedding.ParseExtraEmbedding | csrc/common/extra_embedding.hpp:48-123 | succeeds iff the k-th run of every token has a k-th tensor of its length; records exactly the runs, or those before the first misfit, each with the tensor of its rank among the runs of its token |
| ExtraEmbedding.UpdateREInfo | csrc/common/extra_embedding.hpp:125-145 | every record is shifted |
| ExtraEmbedding.ShiftKeepsRows | csrc/common/extra_embedding.hpp:129-143 | every uncached position reads after the shift the row it read before |
| ExtraEmbedding.UncachedRows | csrc/common/extra_embedding.hpp:48-145 | after a successful parse and any prefix, an uncached placeholder reads from its own run only, the row of its place; other positions read none |
| ExtraEmbedding.CudaReadsRow | csrc/core/operator/general/rich_embedding/rich_embedding_op.cpp:98-105 | the CUDA branch reads from the words of that row |
| ExtraEmbedding.CpuReadsRowIff | csrc/core/operator/general/rich_embedding/rich_embedding_op.cpp:115-119 | the CPU branch reads from them iff the offset is zero |
| ExtraEmbedding.WordsAfterShift | csrc/core/operator/general/rich_embedding/rich_embedding_op.cpp:80-121 | after any prefix an uncached placeholder reads its own words on CUDA, and on the CPU iff the prefix does not end inside its run |
| ExtraEmbedding.ShiftTwiceIff | csrc/common/extra_embedding.hpp:125-145 | as a property of the function, shifting twice equals shifting once by the sum iff the first shift left the run whole or the second swallows it |
| ExtraEmbedding.HashEmbedding | csrc/common/extra_embedding.hpp:200-220 | hashes go to the runs in order; the numbers must agree, unless there are no hash inputs |
| ExtraEmbedding.ReplacePlaceHolder | csrc/common/extra_embedding.hpp:222-238 | each run is overwritten by its hash, everything else stays |
| ExtraEmbedding.RecordedArePlaced | csrc/common/extra_embedding.hpp:165-172 | the records of a parse lie inside the sequence and do not overlap |
| ExtraEmbedding.CreateTensorForHash | csrc/common/extra_embedding.hpp:147-188 | succeeds iff there are no embeddings at all, or hash inputs and tensors match the runs; each placeholder then carries the hash of its run, each other token itself |
| TensorDesc.NormalStrideAt | HIE-DNN/dnn/tensor_desc.cpp:102-106 | each stride is the product of the later dimensions |
| TensorDesc.OffsetDigits | HIE-DNN/dnn/tensor_desc.cpp:102-106 | for any rank, addresses of index tuples lie inside the tensor and determine the tuple |
| TensorDesc.DigitsOffset | HIE-DNN/dnn/tensor_desc.cpp:102-106 | for any rank, every address inside the tensor belongs to an index tuple |
| TensorDesc.AddressFindsElement | HIE-DNN/dnn/tensor_desc.cpp:139-181 | in NORMAL, NHWC, NcHWc4 and NcHWc32 different elements have different addresses inside the tensor |
| TensorDesc.EveryAddressIsUsed | HIE-DNN/dnn/tensor_desc.cpp:139-181 | in each of these formats every address stores an element |
| TensorDesc.AddressInNumbers | HIE-DNN/dnn/tensor_desc.cpp:139-181 | where each format stores an element: batch, then the dimensions in the order of the name, channels in packs of 4 or 32 |
| TensorDesc.TensorDesc.SetNormal | HIE-DNN/dnn/tensor_desc.cpp:85-111 | dimensions, gap-free strides and size; 1 to 8 dimensions, else nothing changes |
| TensorDesc.TensorDesc.Set | HIE-DNN/dnn/tensor_desc.cpp:31-83 | NORMAL is reported iff the strides are those of SetNormal, NHWC iff they are not and are those of that format |
| TensorDesc.TensorDesc.CheckNormal | HIE-DNN/dnn/tensor_desc.cpp:55-62 | the running product recognises gap-free strides |
| TensorDesc.TensorDesc.Set4d | HIE-DNN/dnn/tensor_desc.cpp:113-187 | accepts NORMAL, NHWC, and NcHWc4 and NcHWc32 iff 4 and 32 divide the channels; dimensions, strides and size of the format; channels that do not fill their packs leave five dimensions, the last one zero, and no strides |
| TensorDesc.TensorDesc.Get4d | HIE-DNN/dnn/tensor_desc.cpp:189-222 | answers iff the descriptor has four dimensions or is channel-packed, with the four sizes it stands for |
| TensorDesc.GetUndoesSet | HIE-DNN/dnn/tensor_desc.cpp:202-216 | reading gives back the sizes set iff the format was accepted; after a rejected packing it answers with no channels |
| TensorDesc.FormatsAreTold | HIE-DNN/dnn/tensor_desc.cpp:72-80 | NHWC strides coincide with gap-free ones iff channels, height and width are 1 |

## Left out

- BfcAllocator.BfcAllocator.constructor: requires a tolerated waste of at least one byte when a fraction and a limit above zero are given, because with zero an exact fit is cut at its end, where the source writes over another chunk's table entry or through a region that is not there; BfcTheorems.SplitFindsSlot and BfcTheorems.ExactCut state exactly when.
- BfcAllocator.BfcAllocator.DeallocateRaw: does not cover pointers below a region that lie in no region, for which the source computes a table index out of range; a failed enforced check is the outcome Rejected.
- BfcAllocator.BfcAllocator.Extend: takes the bytes received to be the bytes asked for, as the sub-allocators do; sizes are unbounded, so that the doubling of the next region's size does not overflow.
- BfcAllocator.BfcAllocator.AllocateRaw: is one atomic step under the allocator's lock; peak and count statistics are not kept.
- The allocator's teardown (DeallocateAllRegions), fragmentation ratio, memory dump and the lookups by pointer: they add no invariant.
- MemoryReuser.BindingWithAlgo0: returns the binding as a map instead of storing each block in its tensor, and a tensor is a value; the list of all visits that is flattened before counting is not built.
- BlockPool.Block.Resize: models the block object, whose address orders the pool and never changes; the memory behind it, which the source frees and allocates anew when a block grows, is not tracked.
- ResultQueue: timing, spin counts, the abort on a hanging device, request statistics, log probabilities and prefix-cache lengths; an attempt to dequeue fails only when the queue is empty.
- RankPool: the growth of the pool before models run, and calls outside the engine and LoRA locks.
- RankShutdown: a client that enqueues after the stop gets an exception and makes no further step; the answers of calls left behind, which never come, are not modelled.
- EngineLoop.ModelLoop.Handle: the order of messages is the order of arrival; the results of stopping and releasing on the workers are arbitrary.
- EngineLoop.ModelLoop.Turn: the loop's suspension while idle, the lock step of several processes without CUDA, and the liveness of synchronisation are not modelled; after an aborted decoding the loop ends. A request is known by its uuid's identity.
- EngineLoop handles and queues are values in maps, so that a client's shared view of a queue object is not modelled there; LoopReaders ties every run, step by step, to the shared queue of ResultQueue.
- LoraUsage: uses are kept in one multiset of (model, LoRA) pairs instead of one multiset for each model.
- BlockingQueue: the insides of the lock-free queue and of the semaphore, and the timed waits, which are waits that may not happen.
- Md5.MD5Impl.Digest: is proved for messages shorter than 2^32 - 64 bytes, where the 32-bit loop bound and length are exact; transform is a parameter.
- ExtraEmbedding.ParseExtraEmbedding: keys are tokens instead of their decimal strings, so that the key of the hash inputs is apart; tensors are known by their number of rows.
- TensorDesc: the contiguous flag, hiednnGetTensorDesc and 64-bit overflow of sizes; dimensions are not negative.
- RuntimeContext: caches and log-probability vectors of the running batch.
- GPU kernels, remote calls, protocol buffers, Python bindings, model internals and configuration parsing: foreign code or plumbing.
