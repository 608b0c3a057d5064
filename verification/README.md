# Verified models of the Engram serving stack

This project models the parts of the repository whose correctness depends on order, sharing or address arithmetic, and proves what they promise. The models keep the branches, constants and error cases of the source, which is cited by path and line below.

## Components

- **I/O thread pool** (`Pool`, `PoolInvariant`, `PoolTheorems`, `PoolService`). `run`, `drain` and `loop` as a step relation: one program counter per thread, any number of callers and workers, any chunk size of at least 1, any sequence of jobs, spurious wakeups included. Every access to a variable that another thread can reach is a step of its own. The invariant says which tickets are held and what has been written for each; from it follow exactly-once delivery of the serial result, no stale worker, no lost wakeup, no deadlock, no worker that rests while there is work, and that the call being served returns however many others arrive and whenever waits end for no reason.
- **Row cache** (`CacheSpec`, `Cache`). One set is described by the history of its fills. Concurrent `fetch_row` calls are a second step relation, with 256 striped locks and the unlocked read between probe and fill, so racing misses may insert a row twice.
- **Lookup** (`Lookup`). The two machines composed: a thread that serves an owned id begins a fetch and stores whatever row the fetch returns. The composition refines the pool whose serve step stores the exact row.
- **Row store and packed shards** (`Rows`, `RowFiles`, `RowStore`, `RankRows`, `PackedFetch`). The `Store` object with its arrays updated in place, direct reads into an 8 KiB buffer, short reads, pinned scales, the packed file and its header, the split of a table over ranks, and the whole way from packing to fetching. How many bytes each read is ready to deliver is a function `give`, any function at all, so contracts say exactly when a call fails; what the source answers with `abort()` is the result `ok == false`.
- **KV page re-layout** (`KvPages`, `PageSplit`, `Stores`). Memory is counted in the 8-byte lanes that the kernel copies. The launch is modelled twice: program after program, and as its lanes (program, region, offset) in any order. The persistent buffers are a map from tag to array.
- **Candidate blocks** (`CandidateBlocks`, `TopkPages`). One row of logits; scores are ordered values with both infinities. `torch.topk` is any selection that meets its law.
- **Rank groups** (`RankGroups`, `RankLists`). Every list is a family of one mixed-radix digit; `RankLists` has one method per list, at its own widths.
- **Tensor dictionaries** (`TensorDict`, `TensorDictRuns`). One sender and one receiver per rank of the all-gather group, a FIFO channel per device type between them, the collective as a joint step; a send may also hand its message straight to the receive that waits for it.
- **wo_a pairing** (`WoA`). Names are strings split at their suffix (`NamesSplit`); the batch form's `replace` is modelled on characters. `_dequant_fp8` is a free constructor.
- **Benchmark jobs** (`DecodeBench`, `DecodeBenchRuns`, `DecodeBenchCrashes`). Each method is proved to leave exactly the manager and the sequence of file contents that a function describes; every element of that sequence is a point at which the process can die. Runs interleave calls, crashes and boots that may die themselves, from any lists without repeats. What the files keep (`ListsStayShort`, `JobsEndure`, `RecoveredOnce`) is proved for every start that the source lets through; only `RunAgrees`, on `activeBySpark`, asks that a start wait until the stopped jobs of its Spark have ended.
- **Event stream** (`Sse`) and **interval union** (`IntervalUnion`): two loops against definitions that do not mention them.
- `Arithmetic` and `Wrappers` hold shared facts. `Flat`, `Quot` and `Rem` are product, quotient and remainder by repetition (`FlatIsProduct`, `QuotIsDiv`).

## What turned out not to hold

- A change of range after a packed shard is attached is unguarded in the source, although the same change after pinning is refused. `RowStore.ShiftedReadIff` and `RowStore.RangeMustStay` say exactly when such reads stay right, `RowStore.WrongRow` gives a case where they do not, and `PackedFetch.MovedRange` runs the calls.
- `row_store_attach_packed` and the packer's early return look at header and size only, so a wrong file of the right form is served. `PackedFetch.PackThenFetch` says exactly when the fetched row is right, for every file at the target; `PackedFetch.DamagedIsServed` and `PackedFetch.TwoWrongRows` give files for which it is not.
- The newest visible block can lose its place when logits may be +inf: `CandidateBlocks.NewestLostIff`, `CandidateBlocks.NewestLost`.
- The batch wo_a form replaces every occurrence of the suffix in a name: `WoA.BatchAgrees`, `WoA.PatternTwice`.
- A start after `interruptAll` can lose its `activeBySpark` entry when the interrupted job ends: `DecodeBenchRuns.StartSafeIff`, `DecodeBenchRuns.StrayEnd`. Two jobs of one Spark can then run at once.
- Recovery cannot list every leftover of a Spark when there are more than ten (`DecodeBenchCrashes.TooMany`), and a boot after a dead one may order the list differently once a leftover has lost its place (`DecodeBenchCrashes.RecoveredTwice` has the condition). Each leftover is listed exactly unless ten newer jobs are: `DecodeBenchCrashes.RecoveredOnce`. Sparks with one leftover, the only ones in the runs of `RunAgrees` that begin so, never meet this: `DecodeBenchCrashes.RecoveredAlike`.
- A comment in `flash_mla_sm120.py:396` gives 37888 for a sum that is 37376; the padded size 37440 is right and is what the model uses.

## Model

| member | source | states |
|---|---|---|
| PoolInvariant.InitInv | adapter/row_store.cpp:251-257 | the pool as constructed satisfies the invariant |
| PoolInvariant.ReturnsComplete | adapter/row_store.cpp:194-201 | a caller past its wait finds every index of its Work written once, with the row that serial serving stores, for every chunk size of at least 1 |
| PoolTheorems.StepInv | adapter/row_store.cpp:179-249 | every action of every thread keeps the invariant: lock ownership, tickets, counters, delivered buffers |
| PoolTheorems.CallInv | adapter/row_store.cpp:179-183 | so does a new call of run() on any ids and any buffer |
| PoolTheorems.NextInv | adapter/row_store.cpp:179-249 | so does every step, spurious wakeups of both condition variables included |
| PoolTheorems.AnythingArrives | adapter/row_store.cpp:179-249 | what the environment may do: any caller outside run() calls it with any valid ids, any wait ends for no reason |
| PoolTheorems.RunInv | adapter/row_store.cpp:179-249 | the invariant holds in every state of every run |
| PoolTheorems.RunReturns | adapter/row_store.cpp:193-202 | in every run, a thread about to leave run() has its whole buffer filled, each index written exactly once |
| PoolTheorems.ReturnedForever | adapter/row_store.cpp:193-202 | once the call that owns a Work has returned, its buffer is complete and no later step of any thread changes it |
| PoolTheorems.NoStaleWorker | adapter/row_store.cpp:182-202 | active_ counts the workers between taking a job and leaving, next_ never exceeds chunks_ plus the number of threads, remaining_ counts the chunks unclaimed or claimed and unreported, whoever is in drain() works for the published job, and while a job is published nobody else is in drain() or holds mutex_ |
| PoolTheorems.NoLostWakeup | adapter/row_store.cpp:222-225 | a caller blocked although its condition holds is owed a notify by the worker that holds mutex_ |
| PoolTheorems.NoDeadlock | adapter/row_store.cpp:193-201 | a state in which no thread can act has no call waiting and every buffer handed in complete |
| PoolTheorems.StepDecreases | adapter/row_store.cpp:215-248 | every action lowers a lexicographic measure; only new calls and spurious wakeups raise it |
| PoolTheorems.HolderReturns | adapter/row_store.cpp:179-202 | whatever the schedule, however many calls arrive meanwhile and whenever waits end for no reason (any finite number of times), the call that holds caller_ returns with its buffer complete |
| PoolTheorems.EveryCallReturns | adapter/row_store.cpp:193-249 | and once calls stop arriving there comes a state in which every call has returned, again with any finite number of spurious wakeups on the way |
| PoolInvariant.OutstandingWorker | adapter/row_store.cpp:197-200 | while chunks are outstanding after the caller has drained, some worker is still inside drain() |
| PoolInvariant.TicketRange | adapter/row_store.cpp:218-221 | a ticket stands for exactly the indices of its chunk |
| PoolInvariant.TicketsServe | adapter/row_store.cpp:221 | serving one index keeps the account of which indices are written and by whose ticket |
| PoolService.NoIdleHands | adapter/row_store.cpp:229-243 | while the open job has unclaimed tickets every worker is inside drain() or has not yet seen its generation, and sleeps only if notify_all() is about to be called |
| PoolService.NoneSleepsOn | adapter/row_store.cpp:192 | after notify_all() no worker sleeps on an old generation |
| PoolService.LastChunkNotifies | adapter/row_store.cpp:222-225 | whoever takes remaining_ to zero goes on to notify under mutex_, and after any notify_one() no caller is blocked |
| CacheSpec.CursorIsMod | adapter/row_store.cpp:142-143 | the cursor is the number of fills modulo the ways, so it stays below them |
| CacheSpec.CachedIsRecent | adapter/row_store.cpp:139-146 | a set holds exactly the last min(n, ways) rows filled into it: a row is evicted by the fills that follow its own and by nothing else |
| CacheSpec.FitsBudget | adapter/row_store.cpp:340-341 | rows, keys and cursors together fit the budget, and one more set would not |
| Cache.NextInv | adapter/row_store.cpp:109-147 | every step of any number of concurrent fetches under 256 shared locks keeps the cache invariant |
| Cache.FetchIsExact | adapter/row_store.cpp:109-147 | whatever the interleaving, a completed fetch holds its row of the table; when all have returned, hits plus misses equal their number |
| Cache.ProbeVerdict | adapter/row_store.cpp:113-121 | a probe reports a hit only for a row its set holds, and a miss only when at the end of its scan the set held none, by the history of its fills |
| Cache.SetContents | adapter/row_store.cpp:139-146 | every occupied slot holds the exact row of an id of its set, id modulo the number of sets, and a set holds exactly the last min(n, ways) rows filled into it |
| Cache.CountsAreExact | adapter/row_store.cpp:118-138 | in every run a miss is a fill done or under way: with nothing under way misses_ is the number of fills and hits_ that of all other returned calls; without a cache every call is a miss |
| Cache.LocksAreStriped | adapter/row_store.cpp:110-113 | calls inside their locked sections work on sets that differ modulo 256, and a call waits only for one whose set does not |
| Cache.NoDeadlock | adapter/row_store.cpp:110-113 | a fetch that cannot act waits for a lock whose holder can |
| Lookup.Refines | adapter/row_store.cpp:149-164 | each step of pool and cache together is a step of the pool whose serve action stores the exact row, or leaves the pool alone |
| Lookup.NextInv | adapter/row_store.cpp:149-249 | pool and cache run together keep both invariants and the link between them |
| Lookup.LookupIsExact | adapter/row_store.cpp:355-363 | for every interleaving of callers, workers, hits, racing misses and evictions, a returned lookup holds the table's rows for owned ids and zeros for the rest |
| Lookup.LookupIsFinal | adapter/row_store.cpp:355-363 | and its buffer is never written again |
| Lookup.NoDeadlock | adapter/row_store.cpp:149-249 | when nothing can act no lookup is waiting |
| Lookup.HolderReturns | adapter/row_store.cpp:149-249 | the lookup that holds caller_ returns with the table's rows, whatever the schedule, the lookups that arrive meanwhile and the spurious wakeups, which are finitely many |
| Lookup.EveryLookupReturns | adapter/row_store.cpp:149-249 | and once lookups stop arriving every one of them returns with an exact buffer, after any finite number of spurious wakeups |
| RowStore.SizeCache | adapter/row_store.cpp:339-341 | ways are clamped to 1..16, the cache fits the budget and is as large as it can be; RAM mode has none |
| RowStore.FillKeeps | adapter/row_store.cpp:139-146 | a fill keeps every set in agreement with its fill history |
| RowStore.Store.constructor | adapter/row_store.cpp:309-353 | a new store is valid and exact, has arrays of its own, owns the whole table, and has an empty cache, as large as the budget allows |
| RowStore.Store.Probe | adapter/row_store.cpp:112-122 | hit exactly when the set's history holds the id among its last fills, and then with the row of a slot of that key |
| RowStore.Store.Fill | adapter/row_store.cpp:139-146 | adds the id to its set's history, and an exact row keeps every slot exact |
| RowStore.Store.ReadRow | adapter/row_store.cpp:124-137 | succeeds exactly when the next reads bring all bytes; then packed shard, pinned scales and two-read path deliver what they hold, in the promised number of reads; otherwise the read just tried fell short |
| RowStore.Store.ExactRead | adapter/row_store.cpp:124-137 | and all three hold the row of the table |
| RowStore.Store.FetchRow | adapter/row_store.cpp:109-147 | succeeds exactly for a cached row or one that arrives; the exact row, one hit or one miss counted, a hit exactly when the row was cached, the reads that a miss costs, one fill per miss |
| RowStore.Store.SetRange | adapter/row_store.cpp:404-417 | exactly when the call fails, the new range, and exactly when it pins the scales; exactness is kept unless the range moves under an attached shard |
| RowStore.Store.AttachPacked | adapter/row_store.cpp:379-402 | attaches exactly when the header arrives and all six of its fields and the length fit, whatever the rows are |
| RowStore.Store.Serve | adapter/row_store.cpp:149-164 | stops short of end only at an id outside the table or at an owned row whose read fell short; the rows before are stored, owned row or zeros, and no other |
| RowStore.PinScales | adapter/row_store.cpp:269-305 | succeeds exactly when there are owned rows and they are mapped or no read it takes comes back empty, so after any sequence of short positive reads from an unaligned start; the result is exactly the owned scale bytes |
| RowStore.ShortReadsDeliver | adapter/row_store.cpp:289-301 | reads may be as short as they like as long as none is empty |
| RowStore.PinnedScales | adapter/row_store.cpp:131-133 | the pinned copy holds, at the offset a miss uses, the scales of its id |
| RowStore.StoreRow | adapter/row_store.cpp:161-162 | the two copies change row i of the buffers and no other |
| RowStore.ShiftedReadIff | adapter/row_store.cpp:404-411 | a packed read after a change of range is right exactly when the shard has a record at that offset and the two rows are equal |
| RowStore.RangeMustStay | adapter/row_store.cpp:404-411 | so, on a table without repeated rows, exactly when the range still begins where it did |
| RowStore.WrongRow | adapter/row_store.cpp:404-411 | a concrete checkpoint, range and id whose packed read is another row |
| RowFiles.ReadFrom | adapter/row_store.cpp:88-102 | the aligned request fits 8 KiB, and the bytes asked for are delivered exactly when the file has them and the read brings them |
| RowFiles.ExtentMeans | adapter/row_store.cpp:327-329 | the extent test of row_store_open passes exactly when both tensors lie inside the file |
| RowFiles.HeaderByte | scripts/pack_engram.py:65-66 | byte by byte: magic, layer, range, table size and record size as little-endian words, then zeros |
| RowFiles.LeRoundTrip | scripts/pack_engram.py:66 | little-endian words read back |
| RowFiles.ShardRecord | scripts/pack_engram.py:82-86 | the packed record at the reader's offset is the row of its id |
| RowFiles.AcceptsOwnShard | adapter/row_store.cpp:386-399 | a reader accepts a packed shard exactly when layer, range and row count are its own |
| RowFiles.AcceptsMeans | adapter/row_store.cpp:386-399 | acceptance is exactly six header words and a sufficient length |
| RowFiles.PackLayer | scripts/pack_engram.py:51-94 | succeeds exactly when a target of the right size is kept or no read of the checkpoint falls short; the file is then that target, or header plus the records of the owned rows in order, for every chunk size of at least 1 |
| RowStore.ShardServes | scripts/pack_engram.py:51-92 | what the packer wrote serves every owned id |
| PackedFetch.CheckpointFetch | adapter/row_store.cpp:124-137 | opened for its rank without a shard, the store delivers the checkpoint's row for each owned id: in RAM mode without a read, by pinned scales with one, else with two; short positive reads pin the scales, and then one full read is enough |
| PackedFetch.PackThenFetch | scripts/pack_engram.py:51-94 | packing, opening, setting the range, attaching and fetching, for every table, rank, tp, chunk size and file at the target: the row is the checkpoint's exactly when no file of the right size was kept or its record is that row; when each step succeeds is stated exactly |
| PackedFetch.OwnShard | scripts/pack_engram.py:51-94 | the shard written for a rank is accepted by it and holds the row of every owned id |
| PackedFetch.FileFetch | adapter/row_store.cpp:379-402 | any file: attached exactly when header and length fit, and then the record at the place of the id is served, right or wrong |
| PackedFetch.DamagedIsServed | scripts/pack_engram.py:59-62 | a rank's shard with one changed byte is kept, accepted and served |
| PackedFetch.MovedRange | adapter/row_store.cpp:404-411 | open, attach, a range without its first row, fetch: no call fails, and row 1 is served as row 0 |
| PackedFetch.TwoWrongRows | adapter/row_store.cpp:379-411 | on a concrete two-row checkpoint both of these rows are wrong |
| RankRows.OneOwner | adapter/engram_backend.py:107-110 | every row is owned by exactly one rank, the one whose exact share rows * r / tp .. rows * (r + 1) / tp the row completes |
| RankRows.StartLaw | scripts/pack_engram.py:54 | a boundary is the exact share rows * r / tp rounded down |
| RankRows.SharesEven | scripts/pack_engram.py:54 | so no rank owns more than one row above any other |
| RankRows.LookupsSumToRow | adapter/row_store.cpp:154-163 | the byte-wise sum of the ranks' answers is the full row |
| KvPages.TokenSplit | patches/source/python/sglang/kernels/ops/attention/flash_mla_sm120.py:67-70 | page and place of a token under pages of P and of 64 tokens agree, for every P divisible by 64 |
| KvPages.TokenMeaning | patches/source/python/sglang/kernels/ops/attention/flash_mla_sm120.py:89-103 | the addressing of the gather reads the same data and scale lanes from a split page as from the source |
| KvPages.LanePlace | patches/source/python/sglang/kernels/ops/attention/flash_mla_sm120.py:67-103 | where a token lies in its page: 576 bytes of data for each token in turn, then 8 bytes of scales for each |
| KvPages.LanesApart | patches/source/python/sglang/kernels/ops/attention/flash_mla_sm120.py:67-103 | no two tokens share a lane |
| KvPages.PageSize | patches/source/python/sglang/kernels/ops/attention/flash_mla_sm120.py:388-399 | a destination page is 64 tokens of data and scales, padded to the least multiple of 576 bytes |
| PageSplit.MarkPages | patches/source/python/sglang/kernels/ops/attention/flash_mla_sm120.py:463-482 | a page is marked exactly when a valid index names one of its tokens |
| PageSplit.SplitProgram | patches/source/python/sglang/kernels/ops/attention/flash_mla_sm120.py:424-459 | one program writes its destination page, padding kept, and nothing else |
| PageSplit.SplitKernel | patches/source/python/sglang/kernels/ops/attention/flash_mla_sm120.py:403-459 | exactly the marked pages are rewritten, stale ones keep their bytes |
| PageSplit.OneWriter | patches/source/python/sglang/kernels/ops/attention/flash_mla_sm120.py:424-459 | no two lanes of the launch, told apart by program, region and offset, have one target |
| PageSplit.AnyOrder | patches/source/python/sglang/kernels/ops/attention/flash_mla_sm120.py:403-459 | so any order and interleaving of the stores leaves the same pages |
| PageSplit.PageReadsSame | patches/source/python/sglang/kernels/ops/attention/flash_mla_sm120.py:89-103 | all tokens of a copied page read the same |
| PageSplit.Splitter.Mark | patches/source/python/sglang/kernels/ops/attention/flash_mla_sm120.py:537-565 | the persistent mask, cleared and marked anew for each call: the tag's own while it is large enough, else a new one that is kept |
| PageSplit.Splitter.Buffer | patches/source/python/sglang/kernels/ops/attention/flash_mla_sm120.py:508-527 | the grow-only buffer of a tag: its own while it is large enough, else a new one; other tags keep theirs |
| PageSplit.Splitter.Split | patches/source/python/sglang/kernels/ops/attention/flash_mla_sm120.py:485-589 | from any stale contents, each promised token reads the same from the result, which is the tag's own buffer or a new one; other tags' buffers are unchanged |
| PageSplit.StaysReadable | patches/source/python/sglang/kernels/ops/attention/flash_mla_sm120.py:511-527 | what a call promised still reads right after any run of calls under other tags |
| PageSplit.Splitter.SplitAll | patches/source/python/sglang/kernels/ops/attention/flash_mla_sm120.py:485-589 | any sequence of calls makes such a run: at its end every token promised by the last call of its tag reads right |
| CandidateBlocks.CandidateScores | patches/source/python/sglang/kernels/ops/attention/dsv4/candidate_blocks.py:26-40 | tile after tile: the logits up to the visible length and -inf beyond, and for every block +inf if it holds the last visible position, else the largest of its visible logits |
| CandidateBlocks.ScoreMeaning | patches/source/python/sglang/kernels/ops/attention/dsv4/candidate_blocks.py:36-39 | a score that is finite is at least every visible finite logit of its block and equal to one; it is +inf or -inf exactly when some or all visible logits are |
| CandidateBlocks.ScoreOneWriter | patches/source/python/sglang/kernels/ops/attention/dsv4/candidate_blocks.py:29-35 | no two lanes of the scores kernel store to one column |
| CandidateBlocks.OutAnyOrder | patches/source/python/sglang/kernels/ops/attention/dsv4/candidate_blocks.py:32-35 | the masked row comes out the same for every order of the stores |
| CandidateBlocks.ScoresAnyOrder | patches/source/python/sglang/kernels/ops/attention/dsv4/candidate_blocks.py:40 | and so do the scores |
| CandidateBlocks.BlockMaxBounds | patches/source/python/sglang/kernels/ops/attention/dsv4/candidate_blocks.py:36 | a block's score is at least each visible logit in it |
| CandidateBlocks.BlockMaxWitness | patches/source/python/sglang/kernels/ops/attention/dsv4/candidate_blocks.py:36 | and is one of them unless it is -inf |
| CandidateBlocks.OneWriter | patches/source/python/sglang/kernels/ops/attention/dsv4/candidate_blocks.py:75-85 | distinct selected blocks never write the same column |
| CandidateBlocks.PublishMask | patches/source/python/sglang/kernels/ops/attention/dsv4/candidate_blocks.py:75-85 | keep is true exactly on the columns of selected blocks with a score above -inf |
| CandidateBlocks.PublishedMeans | patches/source/python/sglang/kernels/ops/attention/dsv4/candidate_blocks.py:75-85 | the published columns are those inside a selected block with a score above -inf |
| CandidateBlocks.PublishAnyOrder | patches/source/python/sglang/kernels/ops/attention/dsv4/candidate_blocks.py:75-85 | the same for every order of the stores |
| CandidateBlocks.SelectionLaw | patches/source/python/sglang/kernels/ops/attention/dsv4/candidate_blocks.py:135 | a block that is left out scores no more than any selected one, in numbers and with both infinities |
| CandidateBlocks.NewestIsKept | patches/source/python/sglang/kernels/ops/attention/dsv4/candidate_blocks.py:37-39 | for finite logits and 0 < length <= width the block of the newest position is kept by every top-k |
| CandidateBlocks.TopBlock | patches/source/python/sglang/kernels/ops/attention/dsv4/candidate_blocks.py:36-39 | a block other than the newest scores +inf exactly when it holds a visible +inf logit |
| CandidateBlocks.NewestLostIff | patches/source/python/sglang/kernels/ops/attention/dsv4/candidate_blocks.py:37-39 | some top-k drops the newest block exactly when other blocks with a visible +inf logit fill the selection |
| CandidateBlocks.NewestLost | patches/source/python/sglang/kernels/ops/attention/dsv4/candidate_blocks.py:37-39 | the smallest row on which that happens |
| CandidateBlocks.FewBlocksAllKept | patches/source/python/sglang/kernels/ops/attention/dsv4/candidate_blocks.py:135-148 | if the visible blocks number at most topk every visible position is kept |
| TopkPages.CandidateMask | patches/source/python/sglang/kernels/ops/attention/dsv4/candidate_blocks.py:55-62 | visible and published logits, -inf elsewhere |
| TopkPages.FilterTopkPages | patches/source/python/sglang/kernels/ops/attention/dsv4/indexer_postprocess.py:26-37 | top-k order kept, -1 exactly for positions without a score, else the mapped slot |
| TopkPages.SlotsApart | patches/source/python/sglang/kernels/ops/attention/dsv4/indexer_postprocess.py:33-35 | distinct positions have distinct slots when the page table is injective |
| TopkPages.SelectSlots | patches/source/python/sglang/kernels/ops/attention/dsv4/candidate_blocks.py:88-149 | source selection, consumer mask and filter composed: a slot other than -1 comes exactly from a visible, published, scored position |
| RankGroups.StridedGroups | patches/source/python/sglang/srt/distributed/parallel_state.py:2541-2556 | the triple loop over groups, sub-blocks and offsets builds one mixed-radix family (attention CP; with a stride of 1 also TP, attention TP and MoE TP; MoE EP and MoE DP) |
| RankGroups.DcpGroups | patches/source/python/sglang/srt/distributed/parallel_state.py:2500-2505 | cutting each TP group into runs of dcp ranks builds a family |
| RankGroups.PipelineGroups | patches/source/python/sglang/srt/distributed/parallel_state.py:2710-2718 | the pipeline ranges build a family |
| RankGroups.OverlapIsCp | patches/source/python/sglang/srt/distributed/parallel_state.py:2002-2007 | the overlap list equals the attention-CP list |
| RankGroups.FamilyElement | patches/source/python/sglang/srt/distributed/parallel_state.py:2545-2556 | each member of each group of a family in plain numbers |
| RankGroups.Digits | patches/source/python/sglang/srt/distributed/parallel_state.py:2545-2554 | rank numbers and digit triples correspond one to one (digits of a composed rank) |
| RankGroups.FromDigits | patches/source/python/sglang/srt/distributed/parallel_state.py:2545-2554 | and a rank is the composition of its digits |
| RankGroups.GroupIsFibre | patches/source/python/sglang/srt/distributed/parallel_state.py:2545-2556 | a group is exactly the ranks that share every digit but one |
| RankGroups.Partition | patches/source/python/sglang/srt/distributed/parallel_state.py:2455-2463 | every rank of the world is in exactly one group |
| RankGroups.GroupsFit | patches/source/python/sglang/srt/distributed/parallel_state.py:2455-2463 | groups have equal size and no rank from outside |
| RankGroups.TpMeetsPp | patches/source/python/sglang/srt/distributed/parallel_state.py:2710-2718 | a TP and a PP group meet in exactly one rank |
| RankLists.TpList | patches/source/python/sglang/srt/distributed/parallel_state.py:2454-2463 | the TP list partitions the world into groups of tp |
| RankLists.DcpList | patches/source/python/sglang/srt/distributed/parallel_state.py:2500-2505 | the DCP list into groups of dcp |
| RankLists.AttentionCpList | patches/source/python/sglang/srt/distributed/parallel_state.py:2541-2556 | the attention-CP list |
| RankLists.AttentionTpList | patches/source/python/sglang/srt/distributed/parallel_state.py:2588-2600 | the attention-TP list |
| RankLists.MoeDpList | patches/source/python/sglang/srt/distributed/parallel_state.py:2630-2638 | the MoE-DP list |
| RankLists.MoeEpList | patches/source/python/sglang/srt/distributed/parallel_state.py:2655-2666 | the MoE-EP list |
| RankLists.MoeTpList | patches/source/python/sglang/srt/distributed/parallel_state.py:2684-2696 | the MoE-TP list |
| RankLists.PpList | patches/source/python/sglang/srt/distributed/parallel_state.py:2710-2718 | the pipeline list |
| RankLists.OverlapSpansCp | patches/source/python/sglang/srt/distributed/parallel_state.py:2002-2007 | the second attention-CP communicator spans the same ranks |
| RankLists.PartitionMeans | patches/source/python/sglang/srt/distributed/parallel_state.py:2455-2463 | what it means for a list to partition the world |
| RankLists.CpMeetsTp | patches/source/python/sglang/srt/distributed/parallel_state.py:2541-2600 | an attention-CP and an attention-TP group meet in one rank or in none |
| TensorDict.SplitTensorDict | patches/source/python/sglang/srt/distributed/parallel_state.py:120-143 | metadata of all entries and the tensors, in order |
| TensorDict.SendTensorDict | patches/source/python/sglang/srt/distributed/parallel_state.py:1711-1750 | the transfers a sender starts: metadata, then each non-empty tensor, sliced exactly when its size divides |
| TensorDictRuns.ProgramIs | patches/source/python/sglang/srt/distributed/parallel_state.py:1725-1748 | the metadata first, then for each entry with a tensor that is not empty one message on the channel of its device |
| TensorDict.PartIs | patches/source/python/sglang/srt/distributed/parallel_state.py:1737-1741 | in a group whose size divides the tensor's the message holds numel / ranks elements from r * numel / ranks on, otherwise all |
| TensorDict.GatherIsWhole | patches/source/python/sglang/srt/distributed/parallel_state.py:1349-1357 | the gathered slices in rank order are the tensor |
| TensorDictRuns.ReceiveItemOk | patches/source/python/sglang/srt/distributed/parallel_state.py:1784-1810 | the next message fits the buffer handed to irecv, and the item is stored or goes to the collective |
| TensorDictRuns.BufferFits | patches/source/python/sglang/srt/distributed/parallel_state.py:1784-1801 | the message has the element type and the number of elements of the buffer: numel / ranks when the group slices, else numel |
| TensorDictRuns.SameEntry | patches/source/python/sglang/srt/distributed/parallel_state.py:1803-1805 | ranks inside the collective are at the same entry |
| TensorDictRuns.NextInv | patches/source/python/sglang/srt/distributed/parallel_state.py:1711-1810 | every step of senders, receivers and collective keeps the channels and dictionaries in agreement |
| TensorDictRuns.Rebuilt | patches/source/python/sglang/srt/distributed/parallel_state.py:1752-1810 | in every run no message misfits, and a receiver that has finished holds the senders' dictionary and has emptied its channels |
| TensorDictRuns.NoDeadlock | patches/source/python/sglang/srt/distributed/parallel_state.py:1711-1810 | until all receivers have finished something can act, whatever room the channels have, also when every send waits for its receive |
| TensorDictRuns.StepsEnd | patches/source/python/sglang/srt/distributed/parallel_state.py:1711-1810 | every step lowers a measure, so every run ends |
| WoA.Stream | patches/source/python/sglang/srt/models/deepseek_v4.py:5089-5131 | the map of pairs and pass-through items depends only on what arrives, not on the order; pass-through order kept; fails exactly when some weight lacks a scale although scales exist |
| WoA.PairedMeans | patches/source/python/sglang/srt/models/deepseek_v4.py:5097-5131 | what that map is: a weight dequantised by its own scale under the weight's name, no scale that was used, everything else unchanged |
| WoA.NamesSplit | patches/source/python/sglang/srt/models/deepseek_v4.py:5097-5112 | names are told apart by their suffix, and splitting them loses nothing |
| WoA.PendingIsOrphans | patches/source/python/sglang/srt/models/deepseek_v4.py:5126-5131 | pending is empty at the end exactly when everything has its partner |
| WoA.NoScales | patches/source/python/sglang/srt/models/deepseek_v4.py:5126-5131 | without scales the output is a permutation of the input |
| WoA.Batch | patches/source/python/sglang/srt/models/deepseek_v4.py:5134-5150 | fails exactly when a scale looked up is missing or taken twice; otherwise its map |
| WoA.BatchMeans | patches/source/python/sglang/srt/models/deepseek_v4.py:5139-5150 | what its map is |
| WoA.BatchFails | patches/source/python/sglang/srt/models/deepseek_v4.py:5145 | it fails exactly when some weight's scale is not there or two weights take one scale |
| WoA.ScaleName | patches/source/python/sglang/srt/models/deepseek_v4.py:5144 | the scale it looks up is the weight's whole name with every occurrence replaced |
| WoA.ReplaceFirst | patches/source/python/sglang/srt/models/deepseek_v4.py:5144 | replace() replaces the first occurrence and goes on behind it |
| WoA.ReplaceName | patches/source/python/sglang/srt/models/deepseek_v4.py:5144 | replacing all occurrences always replaces the suffix |
| WoA.ReplaceFixed | patches/source/python/sglang/srt/models/deepseek_v4.py:5144 | replace() leaves a string alone exactly when the pattern does not occur in it |
| WoA.NoneLeft | patches/source/python/sglang/srt/models/deepseek_v4.py:5144 | after replacing no occurrence is left |
| WoA.OnlySuffixIff | patches/source/python/sglang/srt/models/deepseek_v4.py:5142-5144 | the pattern occurs in a weight's name only as its suffix exactly when replacing leaves the stem alone |
| WoA.BatchAgrees | patches/source/python/sglang/srt/models/deepseek_v4.py:5089-5150 | when each weight has its scale, the two forms yield the same map exactly when no weight name holds the pattern before its suffix |
| WoA.PatternTwice | patches/source/python/sglang/srt/models/deepseek_v4.py:5144 | a concrete name on which the batch form fails |
| DecodeBench.DecodeBenchManager.constructor | bench/sparkdash/upstream/server/collectors/DecodeBench.js:428-439 | load, clean, recover |
| DecodeBench.LoadedAre | bench/sparkdash/upstream/server/collectors/DecodeBench.js:524-547 | loading keeps the first ten entries of each list, running ones as cancelled |
| DecodeBench.DecodeBenchManager.RecoverSnapshot | bench/sparkdash/upstream/server/collectors/DecodeBench.js:558-582 | a leftover that is not listed becomes the newest entry of its list, as failed; one that is listed changes nothing |
| DecodeBench.DecodeBenchManager.RecoverInterruptedActive | bench/sparkdash/upstream/server/collectors/DecodeBench.js:556-590 | each leftover not yet in the history is pushed as failed, then the active file is cleared |
| DecodeBench.DecodeBenchManager.PushToHistory | bench/sparkdash/upstream/server/collectors/DecodeBench.js:919-927 | newest first, one entry per job, ten at most, and the file written |
| DecodeBench.PushedMeans | bench/sparkdash/upstream/server/collectors/DecodeBench.js:919-926 | the list afterwards: the pushed job, then the others in order without its older entry, cut at ten |
| DecodeBench.DecodeBenchManager.CheckpointActive | bench/sparkdash/upstream/server/collectors/DecodeBench.js:621-628 | the active file holds the running jobs in start order |
| DecodeBench.RunningJoin | bench/sparkdash/upstream/server/collectors/DecodeBench.js:621-628 | the file lists the running jobs in start order |
| DecodeBench.DecodeBenchManager.StartJob | bench/sparkdash/upstream/server/collectors/DecodeBench.js:692-788 | 409, 400 or a running job that is in the active file, and named for its Spark, before the call returns |
| DecodeBench.DecodeBenchManager.CancelJob | bench/sparkdash/upstream/server/collectors/DecodeBench.js:790-798 | a running job will end as cancelled, however its _runJob() ends; any other is left alone |
| DecodeBench.DecodeBenchManager.AdvanceJob | bench/sparkdash/upstream/server/collectors/DecodeBench.js:849-885 | after a progress update the active file holds the running job as it now stands |
| DecodeBench.DecodeBenchManager.FinishJob | bench/sparkdash/upstream/server/collectors/DecodeBench.js:888-916 | a running job ends as cancelled if it was aborted, else as completed or failed by how its run ended; one that was stopped keeps its status; it becomes the newest entry of its list, its Spark's entry is dropped, both files are written |
| DecodeBench.DecodeBenchManager.InterruptJobs | bench/sparkdash/upstream/server/collectors/DecodeBench.js:635-658 | every running job is failed and its Spark's entry dropped, every other job and entry kept, the active file emptied |
| DecodeBench.DecodeBenchManager.ClearSpark | bench/sparkdash/upstream/server/collectors/DecodeBench.js:495-522 | exactly the entries and the idle jobs of a Spark, or of one port, are dropped; running jobs and other Sparks stay; the history is saved |
| DecodeBenchRuns.PushedIsRecent | bench/sparkdash/upstream/server/collectors/DecodeBench.js:919-926 | cutting the list at ten at every push loses nothing that belongs to the ten most recent jobs |
| DecodeBenchRuns.StartOk | bench/sparkdash/upstream/server/collectors/DecodeBench.js:710-781 | start keeps the invariant, whatever else runs or ends on its Spark, and leaves the job in the active file |
| DecodeBenchRuns.FinishOk | bench/sparkdash/upstream/server/collectors/DecodeBench.js:888-916 | so does the end of a job, which is then in the history |
| DecodeBenchRuns.InterruptOk | bench/sparkdash/upstream/server/collectors/DecodeBench.js:635-658 | so does interruptAll, after which nothing is running |
| DecodeBenchRuns.ClearOk | bench/sparkdash/upstream/server/collectors/DecodeBench.js:495-522 | so does clearHistory |
| DecodeBenchRuns.StartAgreed | bench/sparkdash/upstream/server/collectors/DecodeBench.js:710-781 | a start on a Spark without a stopping job keeps activeBySpark in agreement with the running jobs |
| DecodeBenchRuns.FinishAgreed | bench/sparkdash/upstream/server/collectors/DecodeBench.js:888-916 | and so does every end of a job |
| DecodeBenchRuns.InterruptAgreed | bench/sparkdash/upstream/server/collectors/DecodeBench.js:635-658 | and interruptAll |
| DecodeBenchRuns.StartSafeIff | bench/sparkdash/upstream/server/collectors/DecodeBench.js:710-714 | a start keeps activeBySpark and the running jobs in agreement for good exactly when no stopped job of the Spark is still on its way to its finally block |
| DecodeBenchRuns.StrayEnd | bench/sparkdash/upstream/server/collectors/DecodeBench.js:913-916 | the failing case: start, interruptAll, start, end of the first job leaves the second running and unnamed; a third then runs beside it, both in the active file |
| DecodeBenchCrashes.BootOk | bench/sparkdash/upstream/server/collectors/DecodeBench.js:428-439 | what boot leaves in the files at each of its writes, for any leftovers |
| DecodeBenchCrashes.RecoveredTwice | bench/sparkdash/upstream/server/collectors/DecodeBench.js:556-590 | recovering again after the first k leftovers gives the same history, unless one of them has already lost its place in its list |
| DecodeBenchCrashes.BootAfterBoot | bench/sparkdash/upstream/server/collectors/DecodeBench.js:556-590 | a boot after one that died ends with the same history if no leftover loses its place on the way |
| DecodeBenchCrashes.RecoveredOnce | bench/sparkdash/upstream/server/collectors/DecodeBench.js:552-590 | however often boot dies, the one that gets through leaves no leftover, clean lists, and each interrupted job listed exactly once and not running exactly unless ten newer ones have taken the places |
| DecodeBenchCrashes.RecoveredAlike | bench/sparkdash/upstream/server/collectors/DecodeBench.js:552-590 | the same clean lists with clears; with one leftover per Spark the history is that of a boot that never died, every leftover listed |
| DecodeBenchCrashes.TooMany | bench/sparkdash/upstream/server/collectors/DecodeBench.js:919-926 | of more than ten leftovers of one Spark some are not listed after boot |
| DecodeBenchCrashes.RunAgrees | bench/sparkdash/upstream/server/collectors/DecodeBench.js:692-927 | in every run with crashes and clears whose starts wait for stopped jobs to end: activeBySpark names exactly the running jobs, so one per Spark, and the active file never gets two of one Spark |
| DecodeBenchCrashes.ListsStayShort | bench/sparkdash/upstream/server/collectors/DecodeBench.js:919-927 | in every run, whatever starts when, the lists on disk and in memory agree and hold no job twice, none running and at most ten |
| DecodeBenchCrashes.EventsAreFree | bench/sparkdash/upstream/server/collectors/DecodeBench.js:692-798 | such a run may hold any call at any time: only identifiers of new jobs must be new, and only live jobs go on or end |
| DecodeBenchCrashes.AnyStart | bench/sparkdash/upstream/server/collectors/DecodeBench.js:428-439 | any active file and any lists without repeats are the start of a run |
| DecodeBenchCrashes.JobsEndure | bench/sparkdash/upstream/server/collectors/DecodeBench.js:621-658 | in every run without clears, whatever starts when: once in the active file a job is in one of the two files, at every crash point, until ten newer jobs of its Spark fill the list |
| Sse.Stream | bench/sparkdash/upstream/server/collectors/LlmStreaming.js:583-601 | for every chunking the payloads are those of the lines above the body's last blank line |
| Sse.DataLine | bench/sparkdash/upstream/server/collectors/LlmStreaming.js:597-601 | the payload of a data line: what follows "data:" without the blanks around it, none if that is empty or "[DONE]" |
| Sse.OtherLine | bench/sparkdash/upstream/server/collectors/LlmStreaming.js:598-599 | any other line has none |
| Sse.LineForms | bench/sparkdash/upstream/server/collectors/LlmStreaming.js:598-600 | every line is of one of these forms |
| Sse.LinesAre | bench/sparkdash/upstream/server/collectors/LlmStreaming.js:597 | the lines hold no line break and together make up the text |
| Sse.DrainTwice | bench/sparkdash/upstream/server/collectors/LlmStreaming.js:590-595 | draining after each of two chunks equals draining both at once |
| Sse.DrainPublishes | bench/sparkdash/upstream/server/collectors/LlmStreaming.js:593-601 | the events cut out by the loop hold the lines above the last blank line |
| IntervalUnion.Union | experiments/trace-02/analyze-traces.py:19-24 | for well-formed intervals, the number of integer points that they cover |
| IntervalUnion.UnionCountsPoints | experiments/trace-02/analyze-traces.py:19-24 | the sweep counts every covered integer point once, for any multiset of well-formed intervals |
| IntervalUnion.Idle | experiments/trace-02/analyze-traces.py:49-50 | for well-formed kernels and a gap that is not negative, the number of its points that no kernel covers |
| IntervalUnion.IdleCountsPoints | experiments/trace-02/analyze-traces.py:49-50 | for a gap that is not negative this is the number of its points that no kernel covers |

## Left out

- C++ memory orders: steps are sequentially consistent. Counters are unbounded integers, so the wrap of 64-bit tickets and generations is not modelled.
- The pool's destructor and `stop_`; the pool lives as long as the process.
- The termination claims allow any finite number of spurious wakeups, not infinitely many: a schedule that does nothing else would never end. Safety claims have no such limit. No fairness of the locks is assumed, so which of several waiting callers gets `caller_` next is left open.
- `row_store_lookup` below eight ids or without a pool runs `serve` alone: that path is `RowStore.Store.Serve`.
- System calls, mapping and locking of memory, the buffered fallback of O_DIRECT, environment variables. A file is a byte sequence that does not change; an aborted call has no further promise.
- RowFiles.PackLayer: a raw write is taken to be complete, and the rename to succeed.
- RankRows.LookupsSumToRow: sums bytes, not dequantised values.
- The staging buffers, streams and host callbacks of `engram_backend.py`.
- CUDA, Triton and NCCL launches, dequantisation and attention themselves.
- PageSplit.Splitter.Split: pages of more than 64 tokens; for 64 the source returns its argument.
- NaN scores, `topk`'s tie order, and the 32-bit product `page * PAGE_SIZE` in the filter. `RAW` is always written in `TopkPages.FilterTopkPages`.
- The widths in `RankLists.Fit` are taken to multiply to the tensor-parallel size, as `derive_parallel_widths` is not part of this model; branches that reuse an existing group (such as attention CP equal to TP) build no list.
- TensorDict.SendTensorDict: lists the transfers it starts. Asynchronous handles, device indices and the bypass for a world of one rank are not modelled.
- WoA.Stream: weights with repeated names, and clones of streamed tensors. Leftovers are emitted in any order.
- WoA.Batch: repeated names.
- Fields of a job other than status, port and owner Spark are one number, `detail`; timestamps, results and messages are not told apart. Changes that no checkpoint follows are seen only through the next one.
- Job records are values in a map, not objects: aliasing between the map and `_runJob` is expressed by keeping a record after its job is dropped.
- File writes succeed and are atomic; the fallback branches of `atomicWrite.js` and unreadable files are not modelled.
- DecodeBenchCrashes.JobsEndure: excludes clearHistory, which drops entries on purpose.
- JSON parsing, deltas and timing of the event stream; CRLF line ends. A final event without a blank line is dropped, as the source does.
- IntervalUnion.IdleCountsPoints: integer times and gaps that are not negative.
- `PrefillBench.js`, `c2.py`, and the remaining scripts and models.
