# Verification of the serving engine's orchestration

A Dafny model of the parts of the engine that decide where key/value blocks live,
how text becomes tokens, and how work is divided. Each part is modelled in the form
the program has (objects with fields that change, loops over tables, pure helpers)
and proved against a simple description of what it is for.

- **KV block directory** (`KvIndex`, `KvView`, `KvSealed`, `KvReadiness`, `KvRoom`, `KvLanes`,
  `KvDecode`, `KvPasses`, `KvDirectory`, `KvBuilt`, `KvTurns`, `KvData`): two open-addressed
  tables over physical slots, a backing store, pins and a clock sweep. Every operation,
  failing ones included, keeps reference counts, places, backing slots, pins and counters
  in agreement; a slot is refused for want of room exactly when there is none; a built
  block table is explained cell by cell by the directory and pins the build started from;
  what is committed is resident and ready for the next decode, while a cancel takes nothing
  but what is in flight; and whatever is spilled and faulted back in, a slot finds its data.
- **Byte-level BPE tokenizer** (`MergeHeap`, `NaiveBpe`, `MergeChain`, `Bpe`,
  `PieceCache`, `Encodings`, `Pretokenizer`, `Tokenizer`, `Batch`, `ByteText`,
  `Decoder`, `ChainedTables`, `Vocabulary`, `TokenizerTables`, `CompiledFile`): the
  heap-driven merge loop computes naive BPE, the cache and the batch splitter cannot
  be seen in the result, and encode/decode and save/load are inverses.
- **Prefix cache and arena** (`KvArena`, `CacheView`, `CacheTransactions`,
  `CachePrompts`, `CacheCapacity`, `CacheRoom`, `CacheDemands`, `CacheSharing`,
  `CacheStamps`, `CacheSteps`, `PrefixCache`, `OversizedArena`, `RecentUse`, `Lookahead`):
  entries, bindings, intrusive free lists, stamps and arena blocks agree; reserve, commit,
  cancel and bind are transactions; what they need to succeed is stated in free bindings,
  entries and blocks; and what was used last, or is protected, is evicted last.
- **Chunked prefill** (`PrefillRuns`, `ChunkedPrefill`, `ReusedSequence`): in every run,
  whatever other sequences do meanwhile, a prompt's chunks follow one another and reach
  its end, exactly unless a block of another prompt is in the way.
- **Stage planner** (`StagePlan`): the dynamic program finds the least worst stage, with
  the earliest boundaries among the best divisions.
- **Row allocator and long-context selection** (`RowAllocator`, `LongContext`):
  greedy is optimal; strided samples never collide.

## How it is built

`dafny verify dfyconfig.toml` checks the whole project. Large invariants are carried
as sealed facts: a number computed behind a recursion the verifier does not unroll,
with a lemma that opens it (`CacheView.Coherent`, `KvView.Coherent`). Table-level
code then handles an invariant as one fact, and all reasoning about it sits in small
lemmas over values.

## Where the code and its description part

- **Newest token.** A bounded selection can drop the newest context token. The tail is
  complete exactly when sink, samples and tail fit the capacity
  (`LongContext.TailIsSelectedIffItFits`, `LongContext.NewestTokenCanBeLost`).
- **Empty special token.** Matching an empty special token moves nothing, so the loop
  can stay where it is for ever (`Tokenizer.EmptySpecialStalls`: one empty special token,
  the text "A"). It ends on every text exactly when matching is off, no special token is
  empty, or every byte by itself is a special token, because longer ones are tried first
  (`Tokenizer.EveryTextEndsIff`; per text, `Tokenizer.HaltsIffItEnds`).
- **Idempotence of capacity.** Making room for a sequence is repeatable only when its
  blocks lie within the configured block count. An arena may be larger than that count,
  and then a repeat is refused (`OversizedArena.RepeatIsRefused`: two blocks, one
  configured). `PrefixCache.PrefixCache.EnsureCapacity` gives the exact condition and
  `CacheCapacity.RightSizedArena` the configurations that meet it.
- **Reused sequence ids and extended prompts.** A reservation keeps whatever the sequence
  already has at an offset, without comparing hashes or lengths, while a probe does
  compare. A sequence may hold a block of another prompt, or the short last block of a
  prompt that has been extended. Chunks then follow one another exactly when none but the
  last ends past the first such block (`PrefillRuns.ChunksFollowIff`); a prompt too long
  for one step from there never finishes (`PrefillRuns.ForeignBlockStarves`).
  `ReusedSequence.ExtendedPromptRepeats` drives an empty cache into scheduling the same
  tokens twice. A block at an offset no probe looks at does no harm, and
  `PrefillRuns.RunProgresses` admits it.
- **Skipped blocks of another prompt.** If the cache offers the prompt's block at an offset
  where the sequence holds another, the probe counts the block, the chunk starts past it,
  and the reservation keeps the other block in the table
  (`ReusedSequence.OfferedBlockIsSkipped`). After an admission the block at an offset is the
  prompt's exactly when the sequence held no foreign block there before
  (`PrefillRuns.ReservedIsPromptsIff`).
- **Half load of the block table** comes from validating a packet, not from configuring
  the backing store (`KvDirectory.KvState.Validate`).

## Model

| member | source | states |
|---|---|---|
| `StagePlan.TablesAreLowerBound` | crates/spark-sched/src/stage_plan.rs:404-483 | no legal division of the first layers into that many stages has a smaller largest stage than the table cell |
| `StagePlan.TraceReachesTables` | crates/spark-sched/src/stage_plan.rs:404-483 | a reachable cell is the exact cost of a legal division, the one its recorded splits describe |
| `StagePlan.TraceIsEarliest` | crates/spark-sched/src/stage_plan.rs:404-483 | every prefix of the plan is itself an optimal division of the layers it covers, and its last stage starts no later than in any other optimal one |
| `StagePlan.PrefixCosts` | crates/spark-sched/src/stage_plan.rs:404-483 | succeeds exactly when every layer costs something and the sums stay within 64 bits, and then the sums are exact |
| `StagePlan.FillRow` | crates/spark-sched/src/stage_plan.rs:404-483 | one row of the program from the row before: each cell is the minimum over all legal last stages, with the first split that gives it |
| `StagePlan.FillTables` | crates/spark-sched/src/stage_plan.rs:404-483 | all cells satisfy the recurrence, the last stage charged its extra cost |
| `StagePlan.Backtrack` | crates/spark-sched/src/stage_plan.rs:404-483 | following the splits of a reachable cell never fails and yields the stages of the traced division |
| `StagePlan.AssignStageFlags` | crates/spark-sched/src/stage_plan.rs:295-308 | every stage gets exactly the flags its position and range call for |
| `StagePlan.FlagsAreMeant` | crates/spark-sched/src/stage_plan.rs:295-308 | in a plan that tiles the layers every stage takes hidden state, all but the last pass it on, the last gives the token, and the dense prefix is marked on the first stage exactly when it holds all dense layers |
| `StagePlan.LegalStageIff` | crates/spark-sched/src/stage_plan.rs:249-292 | a stage is legal exactly when it is a non-empty range of the model's layers that holds all dense layers or none, unless all are dense, and no more routed layers than allowed |
| `StagePlan.Validate` | crates/spark-sched/src/stage_plan.rs:311-366 | a plan passes exactly when it is a contiguous legal cover of all layers with the right flags |
| `StagePlan.BuildBalancedWithFinalCost` | crates/spark-sched/src/stage_plan.rs:404-483 | succeeds exactly when some legal cut costs less than the unreachable mark, and then returns a valid plan that no legal cut beats, with the earliest boundaries; the cut-rules error means every legal cut costs at least that mark; back-tracking and validation errors cannot occur |
| `StagePlan.PlanCriticalPathNs` | crates/spark-sched/src/scheduler.rs:549-566 | the critical path of a valid plan is its worst stage cost times the block count |
| `StagePlan.StageCostNs` | crates/spark-sched/src/scheduler.rs:534-546 | the cost of a stage is the sum of its layers plus the extra of the final stage |
| `StagePlan.PathIsLeast` | crates/spark-sched/src/scheduler.rs:549-566 | for at most one block the critical path of an optimal plan is the least worst-stage cost over all legal cuts, and is positive |
| `StagePlan.EstimateDecodeChunkNs` | crates/spark-sched/src/scheduler.rs:1142-1153 | an estimate is the least worst-stage cost over all legal cuts, and the "not validated" error cannot occur |
| `RowAllocator.AlphaMilli` | crates/spark-core/src/row_allocator.rs:44-51 | the acceptance estimate is (ema - 1000) / ema in thousandths, rounded down, within 0..999 |
| `RowAllocator.MarginalIsRounded` | crates/spark-core/src/row_allocator.rs:79-119 | the first row is worth alpha per unit of cost, each further one alpha of the row before, rounded down |
| `RowAllocator.MarginalDecreases` | crates/spark-core/src/row_allocator.rs:79-119 | deeper rows of a slot are never worth more under the fixed-point rounding |
| `RowAllocator.GainIsBounded` | crates/spark-core/src/row_allocator.rs:79-119 | moving from a priced hand-out to any other gains at most the price for each extra row |
| `RowAllocator.PricedIsOptimal` | crates/spark-core/src/row_allocator.rs:79-119 | a hand-out with one price for all slots is optimal when rows are used up or the price is zero |
| `RowAllocator.GrantProbes` | crates/spark-core/src/row_allocator.rs:56-69 | probes are served in slot order, in full until rows run out, and rows are conserved |
| `RowAllocator.NextMarginal` | crates/spark-core/src/row_allocator.rs:79-119 | recomputing a marginal from the grant count gives the slot's marginal at that depth |
| `RowAllocator.BestSlot` | crates/spark-core/src/row_allocator.rs:79-119 | the slot with the most valuable next row, the lowest index among equals |
| `RowAllocator.GreedyGrant` | crates/spark-core/src/row_allocator.rs:79-119 | among all feasible hand-outs of the remaining rows to non-probing slots none has a larger total of marginal values |
| `RowAllocator.RowAllocatorAssign` | crates/spark-core/src/row_allocator.rs:137-159 | total rows never exceed the cap, base rows come first, probes next, and the rest is spent optimally; a zero cap writes nothing |
| `LongContext.StrideIncreases` | crates/spark-sched/src/long_context.rs:513-599 | strided samples never collide |
| `LongContext.StrideIsInside` | crates/spark-sched/src/long_context.rs:513-599 | samples stay inside the middle, so the clamp never fires |
| `LongContext.StrideIsEven` | crates/spark-sched/src/long_context.rs:513-599 | the gaps between neighbouring samples differ by at most one, from the first on |
| `LongContext.PrefixIsOrdered` | crates/spark-sched/src/long_context.rs:513-599 | every selection is strictly increasing and below the context length |
| `LongContext.TailIsSelectedIffItFits` | crates/spark-sched/src/long_context.rs:513-599 | the whole recent tail is selected exactly when sink, samples and tail fit the capacity; otherwise the newest token is lost |
| `LongContext.NewestTokenCanBeLost` | crates/spark-sched/src/long_context.rs:513-599 | a concrete valid policy under which the newest token is not selected |
| `LongContext.AppendFollowsShape` | crates/spark-sched/src/long_context.rs:488-496 | appending the next token of the shape is never refused as a duplicate |
| `LongContext.SelectBounded` | crates/spark-sched/src/long_context.rs:513-599 | the three loops produce exactly the selection the policy's shape prescribes |
| `LongContext.WriteSelection` | crates/spark-sched/src/long_context.rs:513-599 | the buffer holds the selection, padded exactly to capacity, and nothing beyond it changes |
| `LongContext.CountUniqueBlocks` | crates/spark-sched/src/long_context.rs:500-508 | the number of distinct blocks of an increasing selection |
| `LongContext.FullBlocksAreCounted` | crates/spark-sched/src/long_context.rs:451-483 | a whole context touches as many blocks as it fills, the last one perhaps in part |
| `LongContext.BuildBoundedSelection` | crates/spark-sched/src/long_context.rs:513-599 | the bounded plan and the padded buffer of the shape's selection |
| `LongContext.BuildFullSelection` | crates/spark-sched/src/long_context.rs:451-483 | the whole context in order, padded to capacity, with a plan that describes it |
| `LongContext.BuildDecodeSelection` | crates/spark-sched/src/long_context.rs:341-406 | succeeds exactly when not refused and within capacity and scan budget; the result is strictly increasing and padded to the clamped capacity; counts and blocks of the plan are those of the selection, and each flag is set exactly when it should be |
| `KvIndex.Probe` | crates/spark-sched/src/work_control.rs:2012-2026 | a key is found exactly when the table's map has it; otherwise the answer is a slot whose occupation keeps all chains, or the marker exactly when the table is full |
| `KvIndex.Find` | crates/spark-sched/src/work_control.rs:2059-2066 | the slot of a key, exactly when the map has it |
| `KvIndex.InsertRefines` | crates/spark-sched/src/work_control.rs:2012-2026 | occupying the slot a probe returned adds exactly that key to the map and keeps the table well-formed |
| `KvIndex.ShiftMovesHole` | crates/spark-sched/src/work_control.rs:2032-2054 | moving a displaced entry back into the hole keeps the map and moves the hole, also around the end |
| `KvIndex.Erase` | crates/spark-sched/src/work_control.rs:2032-2054 | backward-shift deletion terminates, even in a full table, keeps the table well-formed and removes exactly one key |
| `KvIndex.UnfilledTableHasVacancy` | crates/spark-sched/src/work_control.rs:2012-2026 | a table that holds fewer keys than it has slots has a vacant slot, so a probe does not saturate |
| `KvView.PrivateKey` | crates/spark-sched/src/work_control.rs:1920-1925 | private keys carry the private tag bit |
| `KvView.ContentKey` | crates/spark-sched/src/work_control.rs:1928-1930 | content keys carry the content tag bits |
| `KvView.ContentKeepsDigest` | crates/spark-sched/src/work_control.rs:1928-1930 | a content key has the digest's bits but for the two tag bits, which are fixed |
| `KvView.PrivateKeysAgreeIff` | crates/spark-sched/src/work_control.rs:1920-1925 | two private keys are one exactly when the mixed words of sequence and block agree in all bits but the tag bit |
| `KvView.PrivateBlockIsUnshared` | crates/spark-sched/src/work_control.rs:2662-2750 | a private block has reference count one and is named only by the slot with the same key |
| `KvView.ResolvedKeeps` | crates/spark-sched/src/work_control.rs:2587-2627 | taking a reference keeps storage exact, adds one reference and disturbs no live block |
| `KvView.DroppedKeeps` | crates/spark-sched/src/work_control.rs:2633-2656 | dropping a reference keeps storage exact and touches only that block |
| `KvView.MadeResidentKeeps` | crates/spark-sched/src/work_control.rs:2706-2723 | faulting a block in keeps storage exact and disturbs no live block |
| `KvView.RekeyedKeeps` | crates/spark-sched/src/work_control.rs:2662-2671 | renaming an unshared block keeps everything consistent |
| `KvView.MovedKeeps` | crates/spark-sched/src/work_control.rs:2679-2701 | moving a slot to another block keeps everything consistent |
| `KvView.UnboundMeansNoBlocks` | crates/spark-sched/src/work_control.rs:3161-3200 | without bindings there are no blocks, nothing is swapped and every backing slot is free |
| `KvReadiness.SpillKeepsReadiness` | crates/spark-sched/src/work_control.rs:2494-2511 | spilling a block leaves every block as ready as it was and with its data: a copy is written unless a true one is there |
| `KvReadiness.ResolvedReadiness` | crates/spark-sched/src/work_control.rs:2587-2627 | a block just admitted is missing, a shared one is as ready as it was with its data, and no other block's readiness or data change |
| `KvReadiness.ResidentReadiness` | crates/spark-sched/src/work_control.rs:2706-2723 | spilling and faulting blocks in changes no block's readiness or data: what has been written out comes back complete |
| `KvReadiness.PromoteReadies` | crates/spark-sched/src/work_control.rs:2679-2701 | whichever way a slot is rebound, it finds the readiness and data that can be read off the state before, and no other block's change |
| `KvReadiness.BindingDisturbs` | crates/spark-sched/src/work_control.rs:2679-2750 | binding one slot leaves every other slot bound as it was, with the data it had, and every valid backing copy a true one |
| `KvReadiness.UndisturbedChain` | crates/spark-sched/src/work_control.rs:2986-3092 | disturbing some slots and then others disturbs no more than both |
| `KvRoom.InsertSpends` | crates/spark-sched/src/work_control.rs:2726-2750 | the same for a slot bound for the first time |
| `KvRoom.PromoteSpends` | crates/spark-sched/src/work_control.rs:2679-2701 | rebinding a slot takes at most one record, one backing slot and the claimable slot its block sits in, and the block can be placed afterwards exactly when that could be read off the state before |
| `KvRoom.ResidentSpends` | crates/spark-sched/src/work_control.rs:2706-2723 | faulting a block in takes no claimable slot but its own |
| `KvRoom.RoomStep` | crates/spark-sched/src/work_control.rs:2726-2750 | with room for some cells the next can be acquired, whatever it asks for, and room for the rest remains |
| `KvRoom.IdleIsRoomy` | crates/spark-sched/src/work_control.rs:2380-2403 | an empty store has room for as many cells as slots, records and backing slots allow |
| `KvLanes.CommittedFrontier` | crates/spark-sched/src/work_control.rs:1938-1946 | the frontier and the speculative and draft tokens together reach the end of the context, and exactly the end unless the frontier is zero |
| `KvLanes.SelectKey` | crates/spark-sched/src/work_control.rs:3207-3221 | a content key is chosen exactly when the row offers one and the block ends within the frontier; otherwise the private key of the slot |
| `KvLanes.DraftBlockStaysPrivate` | crates/spark-sched/src/work_control.rs:3207-3221 | the block of every speculative or draft position asks for its private key, whatever keys are published |
| `KvLanes.SharedIffCommitted` | crates/spark-sched/src/work_control.rs:3207-3221 | a block asks for a content key exactly when a row is published that covers the lane, it has a key for the block, and the block ends at or before the draft tail |
| `KvLanes.ContentIsPublished` | crates/spark-sched/src/work_control.rs:3207-3221 | the content key a block asks for is the one published at its lane and block, all bits but the two tag bits |
| `KvLanes.ContentsAgreeIff` | crates/spark-sched/src/work_control.rs:3207-3221 | two shared blocks ask for one key exactly when the keys published for them agree outside the tag bits |
| `KvLanes.PacketSlotIsCell` | crates/spark-sched/src/work_control.rs:2890-2925 | the slots of a packet are exactly the slots of its cells |
| `KvLanes.PacketDirectoryAt` | crates/spark-sched/src/work_control.rs:3058-3092 | after a build the slot of every cell names the key it asked for, unless a pin held the block it named before the build; cells not yet reached are untouched |
| `KvLanes.ResolveEntryState` | crates/spark-sched/src/work_control.rs:2962-2983 | which blocks may start in flight and when a decode is refused |
| `KvLanes.FillingKeepsFilled` | crates/spark-sched/src/work_control.rs:2986-3019 | filling one more cell leaves every finished cell finished, ready and counted, when no two cells share a slot |
| `KvLanes.FittingPacketBindsWithinLimit` | crates/spark-sched/src/work_control.rs:2890-2956 | a packet that was admitted can bind all its slots within half load of the directory |
| `KvDecode.CellKeepsWarm` | crates/spark-sched/src/work_control.rs:2962-3019 | binding one cell leaves every other cell bound to a resident block that was |
| `KvDecode.WarmIsNotBusy` | crates/spark-sched/src/work_control.rs:2962-2983 | no cell of a packet is refused as busy when all its blocks are bound and resident, or are last blocks that may start |
| `KvPasses.MarkedIsResident` | crates/spark-sched/src/work_control.rs:3022-3055 | after marking, the blocks of the marked slots are resident and all others are as ready as they were |
| `KvPasses.WrittenIffBetween` | crates/spark-sched/src/work_control.rs:3095-3122 | a block lies in the range a commit invalidates exactly when a position in it is written |
| `KvPasses.WrittenBlockIsStale` | crates/spark-sched/src/work_control.rs:3095-3122 | after a commit the block of any written position has no valid backing copy |
| `KvPasses.UnboundWasFree` | crates/spark-sched/src/work_control.rs:3125-3177 | slots that have been unbound left no pinned block without a name |
| `KvPasses.RefusedIsStuck` | crates/spark-sched/src/work_control.rs:2753-2762 | a slot that cannot be unbound is the last to name a pinned block |
| `KvDirectory.KvState.constructor` | crates/spark-sched/src/work_control.rs:2176-2242 | a new state is valid and idle |
| `KvDirectory.KvState.Create` | crates/spark-sched/src/work_control.rs:2176-2242 | the geometry is refused exactly when it is malformed or its table exceeds 32 bits; a created state is idle |
| `KvDirectory.KvState.ConfigureSwap` | crates/spark-sched/src/work_control.rs:2245-2273 | succeeds exactly on an unused state without a backing store and a capacity within half the directory; then every backing slot is free |
| `KvDirectory.KvState.ConfigurePins` | crates/spark-sched/src/work_control.rs:2277-2288 | gives an unused state a zeroed pin table |
| `KvDirectory.KvState.ConfigureSharing` | crates/spark-sched/src/work_control.rs:2295-2309 | publishes content keys and changes nothing else |
| `KvDirectory.KvState.PinPhysicalBlock` | crates/spark-sched/src/work_control.rs:2312-2325 | a pin goes only on an occupied slot |
| `KvDirectory.KvState.UnpinPhysicalBlock` | crates/spark-sched/src/work_control.rs:2328-2339 | drops one pin of a pinned slot, which is always occupied |
| `KvDirectory.KvState.ResetGeneration` | crates/spark-sched/src/work_control.rs:2380-2403 | forgets all blocks and bindings and puts the sweep back to the first slot; the result is idle |
| `KvDirectory.KvState.AdvanceGeneration` | crates/spark-sched/src/work_control.rs:2342-2361 | a newer generation starts idle, the same one changes nothing, an older one is refused |
| `KvDirectory.KvState.BackingAcquire` | crates/spark-sched/src/work_control.rs:2456-2469 | takes the head of the free list, or the "no block" marker without a store |
| `KvDirectory.KvState.BackingRelease` | crates/spark-sched/src/work_control.rs:2472-2490 | returns a slot; the double-release checks never fire |
| `KvDirectory.KvState.SpillBlock` | crates/spark-sched/src/work_control.rs:2494-2511 | on success the block is swapped, its data stored unless a valid copy is there; a failed store changes nothing |
| `KvDirectory.KvState.AcquirePhysicalBlock` | crates/spark-sched/src/work_control.rs:2519-2544 | the first claimable slot from the hand on: free, or holding an unpinned block outside the epoch, which is spilled; a full store is reported exactly when no slot is claimable, and a failure changes nothing |
| `KvDirectory.KvState.AcquireTransient` | crates/spark-sched/src/work_control.rs:2547-2561 | lends out a slot the sweep finds or frees, transient, pinned once, under its reserved key, and changes nothing else; no room is reported exactly when no slot is claimable |
| `KvDirectory.KvState.ReleaseTransient` | crates/spark-sched/src/work_control.rs:2564-2582 | takes a slot back exactly when it is one that was lent out; anything else changes nothing |
| `KvSealed.BorrowedIsReturned` | crates/spark-sched/src/work_control.rs:2547-2582 | a slot that was lent out can be given back, and then the store is what the sweep left |
| `KvDirectory.KvState.BlockResolve` | crates/spark-sched/src/work_control.rs:2587-2627 | one more reference, sharing or admitting the block; no room is reported exactly when the block is absent and there is no record, backing slot or claimable slot for it; a failure changes nothing |
| `KvDirectory.KvState.BlockDeref` | crates/spark-sched/src/work_control.rs:2633-2656 | one reference fewer; the last frees the block unless its slot is pinned |
| `KvDirectory.KvState.RekeyBlock` | crates/spark-sched/src/work_control.rs:2662-2671 | the block changes its key in place and nothing else moves |
| `KvDirectory.KvState.PromoteBlock` | crates/spark-sched/src/work_control.rs:2679-2701 | the slot ends on its target key in one of the three legal ways; no room is reported exactly when the block must move and its target cannot be resolved; a failure changes nothing |
| `KvDirectory.KvState.BlockResident` | crates/spark-sched/src/work_control.rs:2706-2723 | answers the slot the block sits in, faulted in with its data if needed, with all live blocks in place; no room is reported exactly when the block is swapped out and no slot is claimable |
| `KvDirectory.KvState.BindSlot` | crates/spark-sched/src/work_control.rs:2726-2750 | a new slot is bound or a bound one promoted; no room is reported exactly when the directory is at its limit or the block cannot be resolved |
| `KvDirectory.KvState.DirectoryAcquire` | crates/spark-sched/src/work_control.rs:2726-2750 | the slot is bound to its target and placed where the answer says; no room is reported exactly when it cannot be bound or placed, judged by the state before the call; a hook failure needs a backing store; on every outcome each other slot placed this epoch is where it was |
| `KvDirectory.KvState.DirectoryRelease` | crates/spark-sched/src/work_control.rs:2753-2762 | unbinds exactly one slot and drops its reference |
| `KvDirectory.KvState.Validate` | crates/spark-sched/src/work_control.rs:2768-2813 | the counter checks never fire: only backing capacity, packet and shape decide |
| `KvDirectory.KvState.CollectPrefetch` | crates/spark-sched/src/work_control.rs:2819-2869 | lists, each once, exactly the swapped blocks that packets of the current generation name which are not to be released; succeeds exactly when every packet is accepted and the list fits; blocks only gain the mark, on every outcome |
| `KvDirectory.KvState.CountAdmission` | crates/spark-sched/src/work_control.rs:2890-2925 | counts exactly the unbound slots and missing blocks of the packet |
| `KvDirectory.KvState.AdmitPacket` | crates/spark-sched/src/work_control.rs:2933-2956 | rejects exactly the packets that do not fit, before anything changes |
| `KvDirectory.KvState.BuildLane` | crates/spark-sched/src/work_control.rs:2986-3019 | the lane's cells are finished and earlier lanes' cells stay finished; the pins are unchanged and the directory is the old one with the lane's slots bound; with room for every cell the lane is not refused for want of room, and with every cell warm not as busy; both remain for the other lanes |
| `KvDirectory.KvState.BuildTable` | crates/spark-sched/src/work_control.rs:3058-3092 | on success every cell of every lane names the physical slot that holds its block at the end of the build, every block is resident, or in flight where the packet may start one, the counts are exact, and the directory is determined by the old directory and the old pinned blocks; an invalid packet and an older generation are reported exactly and change nothing; an accepted packet with room for all its cells is not refused for want of room, and one whose cells are warm is not refused as busy; on every outcome the state stays valid, pins and pinned blocks of the same generation are unchanged, and no slot but the packet's is bound anew or finds other data |
| `KvDirectory.RoomAtStart` | crates/spark-sched/src/work_control.rs:2933-3092 | a build with room for all cells starts with that room and its packet is admitted |
| `KvBuilt.CellNamesItsBlock` | crates/spark-sched/src/work_control.rs:3058-3092 | each cell of a built table records the slot of the block it names: the one it asked for, or the one a pin held before the build; the block is resident, or in flight where the packet may start one |
| `KvBuilt.CellsShareASlotIffTheyShareABlock` | crates/spark-sched/src/work_control.rs:2986-3092 | two cells of a built table record the same physical slot exactly when they name the same block |
| `KvBuilt.SharedCellsAgreeIff` | crates/spark-sched/src/work_control.rs:2986-3092 | two shared cells that no pin holds record the same physical slot exactly when the keys published for them agree outside the tag bits |
| `KvBuilt.OthersStayAsReady` | crates/spark-sched/src/work_control.rs:2986-3092 | a build changes the readiness of no block but those its cells name |
| `KvBuilt.DraftIsPrivateUnlessPinned` | crates/spark-sched/src/work_control.rs:3207-3221 | the block of every speculative or draft position is its slot's own, with one reference and no other slot naming it, exactly unless a pin held another block in the slot before the build |
| `KvBuilt.DraftSlotIsItsOwn` | crates/spark-sched/src/work_control.rs:2986-3092 | the physical slot of a draft position that no pin holds is recorded by no other cell of the packet |
| `KvDirectory.KvState.MarkTable` | crates/spark-sched/src/work_control.rs:3022-3055 | succeeds exactly on an accepted packet of the current generation whose blocks are all on the GPU; then exactly the slots of its blocks become resident and used, and nothing else changes; a failure has marked some of them and nothing else |
| `KvDirectory.KvState.CommitTable` | crates/spark-sched/src/work_control.rs:3095-3122 | succeeds exactly when marking does and every lane writes within its context; then exactly the packet's blocks are resident and exactly the written ones lose their backing copy; nothing moves; a failure has done some of it and nothing else |
| `KvDirectory.KvState.CancelTable` | crates/spark-sched/src/work_control.rs:3125-3158 | on success exactly the packet's slots that named a block in flight are unbound; on every outcome no other slot is, and every block left keeps place, backing and readiness; succeeds exactly on an accepted packet of the current generation unless a pin holds a block only those slots name |
| `KvDirectory.KvState.ReleaseSequence` | crates/spark-sched/src/work_control.rs:3161-3177 | unbinds exactly the slots of the sequence's blocks; refused as busy exactly when a pin holds a block only they name; every block left keeps place, backing and readiness |
| `KvDirectory.KvState.ReleasePacket` | crates/spark-sched/src/work_control.rs:3180-3200 | in the current generation unbinds exactly the packet's slots, and fails exactly when a lane is too long or a pin holds a block only they name; a newer generation starts empty; an older packet does nothing |
| `KvTurns.CommittedIsWarm` | crates/spark-sched/src/work_control.rs:2962-3122 | what a built and committed packet leaves is warm for every decode that goes on from it, if the decode asks for no block another sequence had in flight before the build |
| `KvTurns.PrefillThenDecode` | crates/spark-sched/src/work_control.rs:3058-3122 | build and commit, then build a decode that goes on: the decode is not busy, under a condition on the state before the build |
| `KvTurns.CancelKeepsTheRest` | crates/spark-sched/src/work_control.rs:3125-3158 | a slot is unbound by a cancel exactly when it is the packet's and names a block in flight; any other stays bound to the same block in the same place and state |
| `KvData.ComputedElsewhere` | crates/spark-sched/src/work_control.rs:3095-3122 | a block the device did not write has its data, and its backing copy is as good as it was |
| `KvData.CommitKeepsData` | crates/spark-sched/src/work_control.rs:3095-3122 | a commit moves no data, and afterwards no backing copy counts as valid that was made before a write |
| `KvData.UnbindingKeepsData` | crates/spark-sched/src/work_control.rs:3125-3200 | a cancel or a release leaves every slot that stays bound its data |
| `KvData.BorrowingKeepsData` | crates/spark-sched/src/work_control.rs:2547-2561 | lending a slot out, for which a block may have to be spilled, leaves every slot its data |
| `KvData.TurnKeepsData` | crates/spark-sched/src/work_control.rs:2494-3122 | build, device writes, commit: true backing copies stay true, a written block has what the device wrote, and a slot that stays bound to an unwritten block finds the data it had |
| `KvData.FinishTurn` | crates/spark-sched/src/work_control.rs:3095-3122 | the device writes the blocks of written positions and the packet is committed: the data of all slots is then as `TurnKeepsData` says |
| `KvDirectory.NothingLeaks` | crates/spark-sched/src/work_control.rs:2441-2762 | once no slot is bound no block, swapped block or backing slot is held |
| `KvDirectory.CountersAreBounded` | crates/spark-sched/src/work_control.rs:2441-2762 | the four counters stay within their capacities |
| `MergeHeap.Push` | crates/spark-text/src/tokenizer.rs:522-541 | pushing keeps the heap order and adds exactly one candidate |
| `MergeHeap.Pop` | crates/spark-text/src/tokenizer.rs:544-583 | popping answers the least candidate, keeps the heap order and removes exactly that candidate |
| `NaiveBpe.BestStep` | crates/spark-text/src/tokenizer.rs:422-424 | the least (rank, position) pair is unique, so the reference step is determined |
| `NaiveBpe.EncodeIsFinal` | crates/spark-text/src/tokenizer.rs:1355-1440 | the reference ends with nothing mergeable |
| `MergeChain.RejectedIsStale` | crates/spark-text/src/tokenizer.rs:1355-1440 | a candidate the generation check rejects can be dropped without losing a pair |
| `MergeChain.AcceptedIsBest` | crates/spark-text/src/tokenizer.rs:1355-1440 | the least candidate, when accepted, is the pair the reference merges next |
| `MergeChain.MergeStep` | crates/spark-text/src/tokenizer.rs:1355-1440 | the in-place merge is one step of the reference and leaves two pairs to propose |
| `MergeChain.ExhaustedIsFinal` | crates/spark-text/src/tokenizer.rs:1355-1440 | with no candidate left the reference is done |
| `Bpe.Workspace.EnsureSymbolBuffers` | crates/spark-text/src/tokenizer.rs:490-508 | buffers grow and never shrink; a size beyond 32 bits is refused |
| `Bpe.Workspace.HeapPush` | crates/spark-text/src/tokenizer.rs:522-541 | a candidate is added within the capacity |
| `Bpe.Workspace.PushPairCandidate` | crates/spark-text/src/tokenizer.rs:1324-1349 | a mergeable pair is proposed and the heap never overflows |
| `Bpe.Workspace.MergeLoop` | crates/spark-text/src/tokenizer.rs:1355-1440 | the loop ends with the tokens of the reference |
| `Bpe.Workspace.EncodeUncached` | crates/spark-text/src/tokenizer.rs:1355-1440 | the token list is exactly that of naive BPE, for every byte string that fits the buffers |
| `PieceCache.Lookup` | crates/spark-text/src/tokenizer.rs:1445-1465 | the first slot on the probe path that holds the piece or is free |
| `PieceCache.RememberKeepsSound` | crates/spark-text/src/tokenizer.rs:1468-1545 | recording an encoding keeps every entry equal to the merge loop's result |
| `PieceCache.RememberedIsFound` | crates/spark-text/src/tokenizer.rs:1468-1545 | a recorded piece is found by the next lookup |
| `PieceCache.NothingIsForgotten` | crates/spark-text/src/tokenizer.rs:1468-1545 | filling a free slot loses no piece that was in the cache |
| `Bpe.Workspace.EncodeByteLevelPiece` | crates/spark-text/src/tokenizer.rs:1468-1545 | with or without the cache, after any history, the outcome is that of the merge loop; the cache changes only for a short piece that was not in it, with caching on and no failure; it then has the piece, if the probe path and the pool have room, and has lost none |
| `Pretokenizer.ClassesAreMeant` | crates/spark-text/src/tokenizer.rs:1195-1209 | the byte classes in characters: blanks, letters and what is not ASCII, digits, the rest |
| `Pretokenizer.ContractionIff` | crates/spark-text/src/tokenizer.rs:1222-1248 | a contraction is found exactly where one of 's 't 'm 'd 're 've 'll stands, in either case |
| `Pretokenizer.ScanClassRun` | crates/spark-text/src/tokenizer.rs:1214-1219 | the sweep stops at the end of the run |
| `Pretokenizer.FindNextPiece` | crates/spark-text/src/tokenizer.rs:1251-1305 | a piece is found wherever text is left, so the "stalled" error is unreachable |
| `Pretokenizer.PiecesPartition` | crates/spark-text/src/tokenizer.rs:1251-1305 | the pieces put together give the text back |
| `Pretokenizer.PieceIsWellShaped` | crates/spark-text/src/tokenizer.rs:1251-1305 | a piece is a contraction, or one class of bytes with at most one leading space |
| `Tokenizer.FindSpecialTokenAt` | crates/spark-text/src/tokenizer.rs:1309-1316 | the first special token in match order that starts the text |
| `Tokenizer.HaltsIffItEnds` | crates/spark-text/src/tokenizer.rs:1591-1638 | the loop halts within some number of turns exactly on the texts on which every matched special token it meets is non-empty |
| `Tokenizer.EveryTextEndsIff` | crates/spark-text/src/tokenizer.rs:1591-1638 | for special tokens in match order, the loop ends on every text exactly when matching is off, none is empty, or every byte alone is one |
| `Tokenizer.EmptySpecialStalls` | crates/spark-text/src/tokenizer.rs:1591-1638 | with one empty special token the loop is still at the first byte of "A" after any number of turns |
| `Tokenizer.LongestSpecialWins` | crates/spark-text/src/tokenizer.rs:1309-1316 | the special token matched is a longest one that starts the text |
| `Tokenizer.EncodeRegularSegment` | crates/spark-text/src/tokenizer.rs:1548-1584 | the pieces of a segment in turn, a failing piece counted as invalid |
| `Tokenizer.EncodeWithWorkspace` | crates/spark-text/src/tokenizer.rs:1591-1638 | on every text on which the loop ends, after any history of the workspace, the result is that of a cache-less encode, cut off at the capacity |
| `Batch.EncodeText` | crates/spark-text/src/tokenizer.rs:1640-1652 | encoding with a workspace of its own succeeds exactly on known flags, a text that fits the buffers and an output that fits, with the cache-less encoding |
| `Batch.BatchWorker` | crates/spark-text/src/tokenizer.rs:1780-1814 | a worker succeeds exactly when each text alone does, gives each its single-text encoding and stops at the first failure |
| `Batch.SharesCover` | crates/spark-text/src/tokenizer.rs:1825-1912 | the workers' shares add up to all texts |
| `Batch.RunWorkers` | crates/spark-text/src/tokenizer.rs:1825-1912 | for every worker count, succeeds exactly when every text alone does, with its encodings |
| `Batch.EncodeBatch` | crates/spark-text/src/tokenizer.rs:1825-1912 | row i of a successful batch is the encoding of text i alone |
| `ByteText.BytesAreRecovered` | crates/spark-text/src/tokenizer.rs:148-189 | the byte and code-point maps are inverse to each other |
| `ByteText.CodePointsAreRead` | crates/spark-text/src/tokenizer.rs:195-248 | reading UTF-8 back gives the code point written, whatever follows (section 3 of RFC 3629) |
| `ByteText.DecodeTextJoins` | crates/spark-text/src/tokenizer.rs:195-233 | decoding token text follows concatenation |
| `Decoder.TokenIdIsSpecial` | crates/spark-text/src/tokenizer.rs:1319-1321 | whether an id is a special token's |
| `Decoder.DecodeOneToken` | crates/spark-text/src/tokenizer.rs:1663-1685 | appends a token's bytes exactly when they fit |
| `Decoder.DecodeWithCapacity` | crates/spark-text/src/tokenizer.rs:1692-1717 | decodes everything exactly when it fits, and fails otherwise |
| `Decoder.EncodeKeepsBytes` | crates/spark-text/src/tokenizer.rs:1355-1440 | merging to the end keeps the concatenated bytes |
| `Decoder.RoundTrip` | crates/spark-text/src/tokenizer.rs:1591-1717 | decoding the encoding of any byte string returns it, with every byte symbol present, no special matching and no prefix space |
| `Vocabulary.RankIsFirst` | crates/spark-text/src/tokenizer.rs:849-983 | a rule says what the merge string at its rank says, and no earlier merge string gives a rule for its tokens |
| `Vocabulary.RankOfRule` | crates/spark-text/src/tokenizer.rs:849-983 | two tokens have a rule of rank k exactly when merge string k is the first whose parts are their texts and whose whole is a token's |
| `Vocabulary.FirstMergeStringWins` | crates/spark-text/src/tokenizer.rs:849-983 | the pair merged next is one whose merge string comes first of all that apply to adjacent tokens, the leftmost of those |
| `Vocabulary.LoadedIsInvertible` | crates/spark-text/src/tokenizer.rs:930-983 | one text per id, all byte symbols and rules from merge strings give a tokenizer to which the round trip applies |
| `Vocabulary.SortSorts` | crates/spark-text/src/tokenizer.rs:987-991 | sorted special tokens are in match order: longest first, then by id |
| `Vocabulary.Sort` | crates/spark-text/src/tokenizer.rs:987-991 | sorting rearranges the special tokens, losing and repeating none |
| `Vocabulary.SortedStaysPut` | crates/spark-text/src/tokenizer.rs:987-991 | sorting again changes nothing |
| `ChainedTables.NextPowerOfTwo` | crates/spark-text/src/tokenizer.rs:119-125 | the least power of two at or above the value |
| `ChainedTables.ChainedTable.Find` | crates/spark-text/src/tokenizer.rs:278-293 | the walk terminates, because links point to older entries, and finds exactly what the map has |
| `ChainedTables.ChainedTable.Insert` | crates/spark-text/src/tokenizer.rs:299-315 | adds exactly a key that is not there; a duplicate changes nothing |
| `ChainedTables.ChainedTable.PushEmptySlot` | crates/spark-text/src/tokenizer.rs:319-321 | a slot no lookup sees |
| `TokenizerTables.FillVocabulary` | crates/spark-text/src/tokenizer.rs:1121-1185 | filling succeeds exactly when no text repeats, and the table then is the vocabulary map |
| `TokenizerTables.FillPairs` | crates/spark-text/src/tokenizer.rs:1121-1185 | filling succeeds exactly when no pair repeats, and the table then is the rule map |
| `TokenizerTables.FindSeparator` | crates/spark-text/src/tokenizer.rs:951-954 | the place of the first space of a merge string, or its length |
| `TokenizerTables.BuildMergePairTable` | crates/spark-text/src/tokenizer.rs:944-983 | the table looks up exactly the rules of the merge strings, the first string of a pair deciding |
| `TokenizerTables.FillByteTable` | crates/spark-text/src/tokenizer.rs:930-941 | each byte gets its symbol's token, or the unknown token |
| `CompiledFile.FilesAreRead` | crates/spark-text/src/tokenizer.rs:1046-1185 | parsing what the writer wrote gives the same vocabulary, rules, special tokens and settings exactly when the document is storable: 32-bit numbers, no repeated key, special tokens in match order |
| `CompiledFile.HeaderIsOurs` | crates/spark-text/src/tokenizer.rs:1121-1185 | a header is accepted exactly when the file starts with the written magic and version |
| `CompiledFile.ForeignFileIsRefused` | crates/spark-text/src/tokenizer.rs:1121-1185 | a file that starts otherwise is refused, whatever follows |
| `CompiledFile.ParsedIsStorable` | crates/spark-text/src/tokenizer.rs:1121-1185 | whatever bytes a file holds, a tokenizer read from it is storable |
| `CompiledFile.LoadedIsStorable` | crates/spark-text/src/tokenizer.rs:930-991 | a tokenizer built from a vocabulary without repeats, merge strings and sorted special tokens is storable |
| `CompiledFile.ReadingIsStable` | crates/spark-text/src/tokenizer.rs:1046-1185 | storing what was read and reading it again changes nothing |
| `KvArena.KvArena.constructor` | crates/spark-core/src/kv_arena.rs:169-243 | all blocks free, none resident |
| `KvArena.SparedStay` | crates/spark-core/src/kv_arena.rs:537-586 | evictions never go below the protected residents, and without a victim exactly those are left |
| `KvArena.KvArena.AcquireBlock` | crates/spark-core/src/kv_arena.rs:281-295 | allocates the first free block with a new generation, and fails exactly when none is free |
| `KvArena.KvArena.RecycleBlock` | crates/spark-core/src/kv_arena.rs:310-329 | re-arms an unreferenced block in place |
| `KvArena.KvArena.RetainBlock` | crates/spark-core/src/kv_arena.rs:332-344 | one more reference on an allocated block |
| `KvArena.KvArena.ReleaseBlockReference` | crates/spark-core/src/kv_arena.rs:347-362 | one reference fewer, exactly on a referenced block |
| `KvArena.KvArena.MarkBlockResident` | crates/spark-core/src/kv_arena.rs:366-383 | succeeds exactly on an allocated block; below capacity only that block changes, at capacity others lose residency in rank order only and the count stays at capacity |
| `KvArena.KvArena.MarkBlockNonresident` | crates/spark-core/src/kv_arena.rs:386-405 | succeeds exactly on an allocated block, takes its residency and changes no other block |
| `KvArena.KvArena.FreeBlock` | crates/spark-core/src/kv_arena.rs:409-427 | frees an unreferenced block, exactly then |
| `KvArena.KvArena.TrimResidentBlocks` | crates/spark-core/src/kv_arena.rs:455-467 | the number left is the target or the protected residents, whichever is more, and unchanged if within the target; succeeds exactly when the target is met; every evicted block ranks at or below every unprotected survivor by references, last use and index |
| `KvArena.KvArena.EvictToLimit` | crates/spark-core/src/kv_arena.rs:473-490 | evicts in rank order and leaves exactly the limit, or the protected residents if they are more |
| `KvArena.KvArena.MakeRoom` | crates/spark-core/src/kv_arena.rs:511-531 | room for one more resident block can always be made |
| `KvArena.KvArena.Trim` | crates/spark-core/src/kv_arena.rs:537-554 | evicts in rank order and stops at the target; fails exactly when the protected residents exceed it |
| `KvArena.RanksAreStrict` | crates/spark-core/src/kv_arena.rs:560-586 | blocks rank by references, then last use, then index, and of two exactly one ranks below the other |
| `KvArena.KvArena.SelectVictim` | crates/spark-core/src/kv_arena.rs:560-586 | the lowest-ranked unprotected resident block, if there is one |
| `KvArena.KvArena.Reset` | crates/spark-core/src/kv_arena.rs:495-506 | every block is free again |
| `CacheView.BoundKeeps` | crates/spark-core/src/prefix_cache.rs:805-847 | binding keeps counts equal, entries and blocks in bijection and free lists exact |
| `CacheView.UnboundKeeps` | crates/spark-core/src/prefix_cache.rs:780-802 | unbinding keeps all of it |
| `CacheView.InvalidatedKeeps` | crates/spark-core/src/prefix_cache.rs:702-722 | giving an unreferenced entry up keeps all of it |
| `CacheView.InstalledKeeps` | crates/spark-core/src/prefix_cache.rs:725-777 | installing an entry on a new block keeps all of it |
| `CacheView.ReplacedKeeps` | crates/spark-core/src/prefix_cache.rs:725-777 | evicting an unreferenced entry for another keeps all of it |
| `CacheView.GrownKeeps` | crates/spark-core/src/prefix_cache.rs:1515-1619 | growing the one binding of an entry keeps all of it |
| `CacheTransactions.PendingIsUnreferenced` | crates/spark-core/src/prefix_cache.rs:849-875 | once an epoch's bindings are released its pending entries are unreferenced |
| `CacheTransactions.RollbackIsComplete` | crates/spark-core/src/prefix_cache.rs:849-875 | a rollback releases every binding and frees every pending entry of the epoch |
| `CacheTransactions.RollbackRestores` | crates/spark-core/src/prefix_cache.rs:849-875 | after a rollback every earlier binding is on the same entry and block, none is added, every entry is as it was or gone, and nothing of the epoch is pending |
| `CacheTransactions.RollbackWithdraws` | crates/spark-core/src/prefix_cache.rs:849-875 | whatever epoch and sequence are given, a rollback withdraws exactly the bindings of the sequence at the epoch and the pending entries of the epoch that nothing else binds, and touches nothing else but counts |
| `CacheTransactions.CancelledBlocksAreFree` | crates/spark-core/src/prefix_cache.rs:1480-1489 | cancelling frees the arena block of every entry the epoch had pending |
| `CacheTransactions.EpochIsOfOne` | crates/spark-core/src/prefix_cache.rs:1299-1413 | an operation epoch belongs to one sequence |
| `CacheTransactions.LeavingIsComplete` | crates/spark-core/src/prefix_cache.rs:1809-1830 | after a release an entry is gone exactly when no other sequence holds it and it is not reusable |
| `CacheTransactions.CommitIsComplete` | crates/spark-core/src/prefix_cache.rs:1438-1476 | a commit leaves nothing of its epoch pending |
| `CachePrompts.ReservingSteps` | crates/spark-core/src/prefix_cache.rs:1299-1413 | one more reserved block keeps the account of the reservation: blocks in order, no other binding added, held blocks kept, and available ones taken from the cache |
| `CachePrompts.SharingSteps` | crates/spark-core/src/prefix_cache.rs:1299-1413 | if all leading blocks were available before the reservation, each is in an entry that was there, however the blocks before it were bound |
| `CachePrompts.FollowedIsSpelled` | crates/spark-core/src/prefix_cache.rs:1299-1413 | when the sequence held no foreign block, the reserved blocks are the prompt's |
| `CacheRoom.InstalledRoom` | crates/spark-core/src/prefix_cache.rs:725-777 | a new entry on a free slot uses up one entry and one block of the room, no more |
| `CacheRoom.ReplacedRoom` | crates/spark-core/src/prefix_cache.rs:725-777 | a new entry in place of an evictable one uses up one evictable entry and no block |
| `CacheRoom.BoundRoom` | crates/spark-core/src/prefix_cache.rs:805-847 | a binding uses up the binding and the entry it is on |
| `CacheRoom.NoRoom` | crates/spark-core/src/prefix_cache.rs:649-777 | no slot and nothing evictable, or a slot and a full arena, is no room for any block |
| `CacheRoom.TallySteps` | crates/spark-core/src/prefix_cache.rs:1299-1413 | room for all missing blocks of a prompt before the reservation is room for the rest of them after each block |
| `CacheRoom.CommittedRoom` | crates/spark-core/src/prefix_cache.rs:1438-1476 | a commit takes no room |
| `CacheStamps.OrderIsStrict` | crates/spark-core/src/prefix_cache.rs:649-700 | of two entries exactly one goes before the other |
| `CacheStamps.UsesChain` | crates/spark-core/src/prefix_cache.rs:879-1413 | one use after another stamps what either stamps, leaves the rest as it was, and evicts in order |
| `CacheStamps.UsedGoesLater` | crates/spark-core/src/prefix_cache.rs:649-700 | what an operation used goes after everything it left alone, within the same protection and priority |
| `CacheStamps.UsedIsNotNext` | crates/spark-core/src/prefix_cache.rs:649-700 | an entry that goes next was not just used, while another of its standing could go |
| `CacheStamps.TakenInTurn` | crates/spark-core/src/prefix_cache.rs:649-777 | what has been taken over went before everything that could go and was left alone |
| `CacheStamps.MatchIsSame` | crates/spark-core/src/prefix_cache.rs:879-946 | stamps do not matter to what a probe finds |
| `CacheDemands.FareFails` | crates/spark-core/src/prefix_cache.rs:1515-1619 | a held block that will not do when it is met will not do for any choice of the one block that may grow |
| `CacheDemands.FareEnds` | crates/spark-core/src/prefix_cache.rs:1515-1619 | a pass over all blocks that finds every block good or adds it shows that the demand could be met from the start |
| `CacheDemands.ReadyIsMetIffWithin` | crates/spark-core/src/prefix_cache.rs:1515-1619 | when every block is ready, the demand can be met exactly when all lie within the configured count |
| `CacheSharing.ShareStepSame` | crates/spark-core/src/prefix_cache.rs:1747-1805 | midway, what the next block of the source answers is what it would have answered before the first |
| `PrefixCache.PopThread` | crates/spark-core/src/prefix_cache.rs:725-777 | popping the head keeps the intrusive list threaded through the rest |
| `PrefixCache.PushThread` | crates/spark-core/src/prefix_cache.rs:702-722 | pushing a slot keeps the intrusive list threaded |
| `PrefixCache.PrefixCache.constructor` | crates/spark-core/src/prefix_cache.rs:474-527 | a cache with no entry, binding or block in use, in which everything agrees |
| `PrefixCache.PrefixCache.Create` | crates/spark-core/src/prefix_cache.rs:474-527 | a configuration is refused exactly when it is malformed or does not fit the arena |
| `PrefixCache.PrefixCache.Reset` | crates/spark-core/src/prefix_cache.rs:1834-1867 | everything is dropped and agrees again |
| `PrefixCache.PrefixCache.FindBindingAt` | crates/spark-core/src/prefix_cache.rs:620-634 | the binding of a sequence at an offset, if there is one |
| `PrefixCache.PrefixCache.FindReusable` | crates/spark-core/src/prefix_cache.rs:584-606 | the first reusable entry with the hashes, if there is one |
| `PrefixCache.PrefixCache.Touch` | crates/spark-core/src/prefix_cache.rs:929-931 | the entry is stamped with the next tick, which is ahead of every other stamp; nothing else changes |
| `PrefixCache.PrefixCache.SelectVictim` | crates/spark-core/src/prefix_cache.rs:649-700 | a free entry, or the evictable entry that goes first: unprotected before protected, then by priority and age |
| `PrefixCache.PrefixCache.InvalidateEntry` | crates/spark-core/src/prefix_cache.rs:702-722 | gives the entry's block back exactly when it is unreferenced |
| `PrefixCache.PrefixCache.InstallEntry` | crates/spark-core/src/prefix_cache.rs:725-777 | a pending entry on a new or the evicted block; fails exactly when a free slot is used and the arena is full, changing nothing |
| `PrefixCache.PrefixCache.ReleaseBinding` | crates/spark-core/src/prefix_cache.rs:780-802 | never fails, and gives up exactly one reference |
| `PrefixCache.PrefixCache.AddBinding` | crates/spark-core/src/prefix_cache.rs:805-847 | one new binding and one reference on entry and block; fails exactly when no binding is free, changing nothing |
| `PrefixCache.PrefixCache.AcquireEntry` | crates/spark-core/src/prefix_cache.rs:805-847 | binds unless bound already; fails exactly when not bound and no binding is free, changing nothing |
| `PrefixCache.PrefixCache.RollbackEpoch` | crates/spark-core/src/prefix_cache.rs:849-875 | never fails, withdraws exactly what the sequence did at the epoch, and takes an epoch of its own back completely |
| `PrefixCache.PrefixCache.FindMatch` | crates/spark-core/src/prefix_cache.rs:879-946 | the sequence's own block with the hashes, or else the first to share, exactly when there is one |
| `PrefixCache.PrefixCache.ProbePrompt` | crates/spark-core/src/prefix_cache.rs:879-946 | answers the longest run of leading blocks that are available, short of the last token; exactly the entries found for those blocks are stamped as last used, and nothing else changes |
| `PrefixCache.PrefixCache.ReserveBlocks` | crates/spark-core/src/prefix_cache.rs:1299-1413 | every block of the prompt is bound in order, with the prompt's hash chain; where sharing is allowed, leading blocks that were available lie in entries the cache already had; exactly the entries bound are stamped as last used, and those taken over went first; the only error is a full cache, which does not occur with bindings, free or evictable entries and blocks for the missing blocks, and without sharing occurs exactly otherwise; room beyond that remains |
| `PrefixCache.PrefixCache.ReservePrompt` | crates/spark-core/src/prefix_cache.rs:1299-1435 | all blocks of the prompt, or nothing: a failure leaves every earlier binding, adds none and leaves no pending entry, and does not occur when there is room for the missing blocks; without sharing it occurs exactly when there is not; where sharing is allowed, leading blocks that were available are bound to entries the cache already had; every entry changed is a pending one of this epoch, so nothing becomes reusable before a commit; exactly the entries bound are stamped as last used, and those taken over went before all that could go and were left alone |
| `PrefixCache.PrefixCache.CommitEntry` | crates/spark-core/src/prefix_cache.rs:1438-1476 | the block becomes resident without fail, and a full shareable block becomes reusable |
| `PrefixCache.PrefixCache.CommitReservation` | crates/spark-core/src/prefix_cache.rs:1438-1476 | never stops half way: nothing of the epoch stays pending and only flags change |
| `PrefixCache.PrefixCache.CancelReservation` | crates/spark-core/src/prefix_cache.rs:1480-1489 | refused exactly for a zero sequence or epoch; otherwise it withdraws exactly the bindings of the sequence at the epoch and the epoch's pending entries that nothing else binds, whoever the epoch belongs to, and every pending entry when it belongs to the sequence |
| `PrefixCache.PrefixCache.EnsureCapacity` | crates/spark-core/src/prefix_cache.rs:1515-1619 | succeeds exactly when every held block will do, at most one of them by growing, and there is room for the missing ones; the sequence then holds committed blocks with room for all tokens, every binding it had keeps its entry and block, and its tokens unless it is the one that grew, and blocks added are live-only; other sequences' entries keep tokens and block on every outcome; a failure restores; a repeat changes nothing but the clock exactly when the held blocks are within the configured count |
| `PrefixCache.PrefixCache.FitMissing` | crates/spark-core/src/prefix_cache.rs:1565-1600 | an added block carries on the sequence's chain of hashes |
| `CacheCapacity.AddedBlocksArePrivate` | crates/spark-core/src/prefix_cache.rs:1515-1619 | every block added is committed, live-only and never reusable, so no other sequence comes to share it |
| `CacheCapacity.AllIsHeldOn` | crates/spark-core/src/prefix_cache.rs:1515-1619 | through reservation, commit and growth every binding of every sequence keeps its entry and block, and its tokens unless it is the one that grew |
| `CacheCapacity.CapacityCoversFewer` | crates/spark-core/src/prefix_cache.rs:1515-1647 | room for some tokens is room for any smaller count, for which the block table can be built |
| `CacheCapacity.RightSizedArena` | crates/spark-core/src/prefix_cache.rs:1515-1619 | with an arena no larger than configured the repeat condition always holds |
| `OversizedArena.RepeatIsRefused` | crates/spark-core/src/prefix_cache.rs:1515-1619 | an arena of two blocks under a cache configured for one: room for two blocks is made, and the same call is then refused |
| `OversizedArena.TwoBlocksAreTwo` | crates/spark-core/src/prefix_cache.rs:1515-1619 | two blocks of a sequence never both lie within a configured count of one |
| `RecentUse.UsedGoesLast` | crates/spark-core/src/prefix_cache.rs:649-1413 | an entry used in one operation is taken over in the next only if everything else of its standing is used too |
| `RecentUse.ProbeThenReserve` | crates/spark-core/src/prefix_cache.rs:649-1413 | probe a prompt, then reserve another: what the probe found gives way only after every other entry of its standing |
| `Lookahead.ResetProtection` | crates/spark-core/src/prefix_cache.rs:1058-1069 | nothing is protected after a reset, even when the epoch wraps around |
| `Lookahead.ProtectPrompt` | crates/spark-core/src/prefix_cache.rs:1073-1122 | protects exactly the first entries on offer for the longest run of leading blocks, short of the last token, with at least the demanded weight; nothing else changes |
| `Lookahead.ProtectedGoesLast` | crates/spark-core/src/prefix_cache.rs:649-1122 | a protected entry gives way only if every entry that could go and is not protected is used too |
| `Lookahead.LighterGoesFirst` | crates/spark-core/src/prefix_cache.rs:649-700 | of two protected entries the one that weighs less gives way first |
| `PrefixCache.PrefixCache.CheckHeld` | crates/spark-core/src/prefix_cache.rs:1515-1619 | a held block passes exactly when it is committed, of legal size, within the configured count, and large enough or the one private block that may grow |
| `PrefixCache.PrefixCache.BuildBlockTable` | crates/spark-core/src/prefix_cache.rs:1623-1647 | succeeds exactly when the sequence holds enough blocks, and lists them in order |
| `PrefixCache.PrefixCache.BindCommittedPrefix` | crates/spark-core/src/prefix_cache.rs:1747-1805 | the target shares the source's entries for all the tokens, or nothing: a failure restores; the outcome, error included, is the block-by-block reading of the state before the call |
| `PrefixCache.PrefixCache.FindShared` | crates/spark-core/src/prefix_cache.rs:1747-1805 | the source's committed block at the offset, or the error the block-by-block reading gives |
| `PrefixCache.PrefixCache.ReleaseSequence` | crates/spark-core/src/prefix_cache.rs:1809-1830 | the sequence holds nothing; what stays is held by another sequence or reusable |
| `ChunkedPrefill.HashPrompt` | crates/spark-core/src/prefix_cache.rs:124-153 | the prompt hash is the end of the same chain that reservation and probe use |
| `PrefillRuns.StepIsWholeOrFinal` | crates/spark-sched/src/scheduler.rs:1015-1048 | a step has at least one token, and one that does not finish the prompt is whole blocks |
| `PrefillRuns.StepIsLargest` | crates/spark-sched/src/scheduler.rs:1015-1048 | a step takes all that is left within the smaller of the request's and the scheduler's limits, at least a block, and otherwise the largest number of whole blocks within it |
| `PrefillRuns.ProbeSeesProgress` | crates/spark-sched/src/scheduler.rs:977-993 | a probe sees at least the blocks the sequence holds |
| `PrefillRuns.AdmissionProgresses` | crates/spark-sched/src/scheduler.rs:1186-1240 | an admitted chunk extends what the sequence holds of the prompt, up to the first foreign block |
| `PrefillRuns.AdmittedChunk` | crates/spark-sched/src/scheduler.rs:1186-1240 | an admitted chunk starts at or after what the sequence holds, is not empty, and ends on a block boundary or with the prompt |
| `PrefillRuns.AdmissionKeepsForeign` | crates/spark-core/src/prefix_cache.rs:1299-1413 | an admission leaves a block of another prompt, or a short block, where it is |
| `PrefillRuns.ReservedIsPromptsIff` | crates/spark-sched/src/scheduler.rs:1186-1240 | after an admission each block up to the end of the chunk is the prompt's exactly when the sequence held no foreign block there before |
| `PrefillRuns.SkippedIsOld` | crates/spark-sched/src/scheduler.rs:1186-1240 | the blocks a chunk skips lie in entries that were in the cache before the admission |
| `PrefillRuns.ProbedIsUnique` | crates/spark-core/src/prefix_cache.rs:879-946 | a probe has one answer: the longest run of available leading blocks |
| `PrefillRuns.InterferenceIsHarmless` | crates/spark-sched/src/scheduler.rs:1186-1440 | no reservation, commit, cancel of any epoch, release or growth of another sequence, no commit and no probe takes anything from the sequence |
| `PrefillRuns.RunProgresses` | crates/spark-sched/src/scheduler.rs:977-1048 | in every run of a sequence that holds no foreign block where a probe looks, chunks follow one another, non-final ones end on a block boundary, and the final chunk is reached within as many admissions as the prompt has blocks |
| `PrefillRuns.ChunksAreDisjoint` | crates/spark-sched/src/scheduler.rs:977-1048 | no token is scheduled twice |
| `PrefillRuns.ProbeStops` | crates/spark-core/src/prefix_cache.rs:879-946 | a probe stops at a probed block that the sequence does not hold as the prompt has it and nobody offers |
| `PrefillRuns.NextChunkFollowsIff` | crates/spark-sched/src/scheduler.rs:977-1048 | the next chunk starts at or after the end of the one before exactly when that end is at or before the first foreign block |
| `PrefillRuns.ChunksFollowIff` | crates/spark-sched/src/scheduler.rs:977-1048 | in every run in which nobody offers the prompt's block there, chunks follow one another exactly when none but the last ends past the first foreign block |
| `PrefillRuns.ChunksStartAtForeign` | crates/spark-sched/src/scheduler.rs:977-1048 | no chunk ever starts past a foreign block nobody offers, and the block stays |
| `PrefillRuns.ChunksPastForeignOverlap` | crates/spark-sched/src/scheduler.rs:977-1048 | every chunk after one that ends past such a block overlaps it |
| `PrefillRuns.ForeignBlockStarves` | crates/spark-sched/src/scheduler.rs:977-1048 | if one step cannot reach from such a block to the end, no run finishes the prompt |
| `ReusedSequence.ExtendedPromptRepeats` | crates/spark-sched/src/scheduler.rs:977-1240 | from an empty cache: a prompt of one token is prefilled and then extended, and two chunks of the longer prompt schedule the same tokens |
| `ReusedSequence.OfferedBlockIsSkipped` | crates/spark-core/src/prefix_cache.rs:879-946 | from an empty cache: a chunk starts past a block that another sequence offers while the table keeps the sequence's own short block there |
| `ChunkedPrefill.Prefill.Choose` | crates/spark-sched/src/scheduler.rs:977-1048 | the chunk starts at the probed prefix and lies within the prompt |
| `ChunkedPrefill.Prefill.Admit` | crates/spark-sched/src/scheduler.rs:1186-1240 | a successful admission is a step of the run model that keeps every other binding and entry; a rejected one restores the cache; with room for the missing blocks of the next chunk it succeeds, and room beyond that remains |
| `ChunkedPrefill.Prefill.ParentHash` | crates/spark-sched/src/scheduler.rs:1286-1303 | the parent hash of a chunk is the chain hash of the tokens before it |
| `ChunkedPrefill.Prefill.Complete` | crates/spark-sched/src/scheduler.rs:1424-1439 | a completed chunk is committed |
| `ChunkedPrefill.Prefill.Cancel` | crates/spark-sched/src/scheduler.rs:1441-1456 | a cancelled chunk is withdrawn exactly; a decision without a reservation changes nothing |

## Left out

- Gateway, sockets, streaming, drivers, build scripts and foreign-function bindings: input and output only.
- Contract parsing, model families and chat templates: shape checks and fixed data.
- Other arenas and state pools: smaller repeats of the free-list pattern proved for the prefix cache.
- Topology switching: its pin balance rests on tier code the repository does not fix.
- JSON loading of tokenizers: the model starts from the vocabulary, merge strings and special tokens in memory.
- Hash mixing (FNV, splitmix): hashes are arbitrary functions, and no content identity is claimed from equal hashes. Private keys are not injective, so statements about the directory are per key.
- Statistics counters, tracing, clocks and time stamps other than the ones that order eviction.
- Threads of the batch encoder: the workers run one after another over the same slices.
- Store and load hooks of the backing tier: each call may succeed or fail, as a hook decides; one that succeeds copies a slot's data, one that fails changes nothing.
- Packet checks that do not concern the block table: one flag of the packet says whether they passed.
- Building packets, transaction identities and speculative-decoding trees of the control plane: straight-line field copies.
- `PrefixCache::lookup_prompt`: it can bind a sequence twice at one offset, so the one-binding-per-offset invariant does not hold with it.
- Reuse scores, prefetch sources and residency probes of the prefix cache: they read state.
- Forward passes: what the device writes is arbitrary; it writes no physical slot but those of the blocks that hold written positions.
- Counts a reservation reports (cached, pending): sums over the blocks the model lists.
- Addresses and strides of arena blocks, and handle resolution: arithmetic on constants.
- In-flight counts, batch buckets, decision flags and measured cost tables of the scheduler: an admission is modelled from the probe to the reservation.
- Prefill with chunking or cross-sequence reuse switched off: one step, nothing to prove about runs.
- 32-bit and 64-bit widths, except where the code checks them: sizes are unbounded numbers.
- Tokenizer.EncodeWithWorkspace: requires that the loop ends on the text, which it does exactly when no matched special token it meets is empty (`HaltsIffItEnds`).
- Batch.EncodeBatch: requires that the loop ends on every text a worker reaches before its first failure; the same for `BatchWorker` and `RunWorkers`.
- PrefixCache.PrefixCache.ReservePrompt: with sharing allowed, room for the missing blocks is sufficient and not necessary, because a reusable entry may stand in for a new one.
- KvDirectory.KvState.BuildTable: room for every cell is sufficient and not necessary, because cells may share blocks or keep the ones they name, and so is warmth for not being busy; which bindings and data it leaves alone is stated for packets no two cells of which have one slot.
- ChunkedPrefill.Prefill.Admit: room for the chunk's missing blocks is sufficient and not necessary, as for `ReservePrompt`.
- CompiledFile.FilesAreRead: the merge-string table, which the file does not hold, is not restored.
- PrefixCache.PrefixCache.constructor: takes an arena with no block in use; the arena is then driven through the cache, and from outside only for residency.
