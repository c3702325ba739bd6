# tierkv, modelled and proved in Dafny

tierkv keeps the KV-cache blocks of a language model in tiers: GPU memory, a compressed hot tier in RAM,
and cold vaults on other machines. This project models its stateful core and proves what that core is
for: a block that comes back is the block that went away, nothing is lost or counted without a reason,
and nobody frees or reuses memory too early.

| module | what it models |
|---|---|
| `Common`, `VaultKeys` | shared types; the keys `vk-{hash}-{seq}` and hexadecimal hashes |
| `VllmVault` | the vLLM cold vault as a class, specified by the history of its stores |
| `VaultTasks` | the same vault as an interleaving of many tasks and two locks |
| `ExoVault` | the EXO cold vault with destructive promotion and a 64-bit byte counter |
| `ExoTasks` | the same vault with stores and promotions interleaved |
| `TurboQuant`, `TurboQuantLoops` | the grouped INT8 quantiser over the reals; its loops and the parallel in-place decoder |
| `GpuBlocks`, `GpuDevice` | gathering a block out of the GPU caches and scattering it back; the loops over device memory |
| `Planning` | token counts, choice of block groups, pairing of plan and physical blocks |
| `WriteBehind` | the SQLite table behind a queue of operations that is drained in batches |
| `Persistence` | registry, queue, writer and table together; the queue carries records that may still change |
| `HotTier`, `TieredCache` | the LRU tier; the two-tier cache with background stores as messages |
| `BatchAnswers` | for which layers a batch request has an entry, and what is in it |
| `Protobuf`, `ProtobufLoops` | the wire format of Protocol Buffers; the client's loops over it |
| `Registry`, `StoreHandler` | block records, planning, registration; the worker's store loop |
| `Ownership` | who may free GPU blocks, from `request_finished` to `get_finished`, in every interleaving |
| `Connector` | the connector's methods over registry, store handler and GPU caches, as steps of `Ownership` |
| `RestoreBuffers` | decoding into pooled buffers over many restores |
| `Protocol`, `Restores` | storing and restoring end to end, in every interleaving; what a restore brings back, and when it does not |
| `RestoreTimes` | the same in terms of points of the run, and the tokens that were reported |
| `RegistrySteps` | the registry class carries out the protocol's steps |

Code that changes state in the source is a class or an in-place method here, proved against a function
of the old state; the properties are lemmas about those functions and about whole runs. Concurrency is a
state machine whose steps are the lock regions and RPCs of the source. `dafny verify dfyconfig.toml` checks everything.

## Where the code and its comments disagree

The model follows the code.

- `get_batch` promises an empty bytes object for every missing layer (`tiered_kv.rs:231`). If the vault cannot be
  reached, or answers with an error, missing layers are left out of the list altogether (lines 264-283):
  `BatchAnswers.NothingAnswered`. Each requested layer has an entry iff the vault answers or all of them are hot
  (`EveryLayerAnsweredIff`).
- `README.md:443` says the hash in each record detects any corruption in flight. The connector rebuilds its records for the worker
  (`connector.py:536-548`), and the hash is set on the rebuilt record, not on the registered one; so a
  restore planned from the registry has an empty hash and the check passes every payload.
  `Restores.RebuiltRecordsCarryNoHash` proves this. The integrity theorem does not use the check.
- `restore_handler.py:68-73` speaks of a pool of 8 buffers that are reused across blocks, lines 38-41 of 40 buffers that
  never cycle. The code does the latter: the index never goes back, even between restores, so after 40 quantised blocks
  every buffer is newly allocated. That is what keeps earlier results valid.
- `decode_into` asks for a buffer of exactly `decoded_size` bytes (`turbo_quant.rs:73`); a larger one is accepted and its tail left alone.
- TierKV is said to own the free of a request's blocks once `request_finished` answers True. If no KV caches
  are registered the task returns before its callback, and the blocks are never reported
  (`Ownership.NeverReportedWithoutCaches`).

## Properties that hold only under a condition

Each of these is false of the code as it stands; there is an input that shows it, and a condition.

- A planned block is not always restored while the vault holds it. A second store of the block between the metadata and the lookup
  takes its key out of the index (`block_registry.py:100-103`), and `connector.py:408-413` then drops it although
  it is stored, registered and held under both its keys: `Restores.RekeyedBlockIsMissing`. By then `connector.py:198-202` has reported its
  tokens as matched. A planned block comes back iff its key was known at the lookup and the key its record
  had when the fetch was prepared was held with a payload (`Restores.RestoredExactly`, `PlannedExactly`). A step makes
  a known key unknown iff it removes or re-keys the block (`ForgottenIff`), and without such a step since the metadata the key is found
  (`FoundUnlessRekeyedOrRemoved`). `RestoreTimes.ComesBackIff` and `ComesBackUnless` put this together for any position of any finished
  restore, with the points of the run in order. `Restores.UnwrittenBlocks` and `RestoreTimes.ReportedTokensBalance` say what a missing block leaves undone.
- The EXO vault's byte counter is not always the bytes held: `ExoVault.OverwriteWitness`. After a store into a sound vault it is
  under exactly this condition (`ExoVault.StoreIsExactIff`): if eviction reaches a queue entry the key had before, the key is not held
  and that entry says the size being stored; if it does not, nothing that has bytes is overwritten. Count and queue entries both stay right iff the key is not held
  with bytes and all its entries say this size (`StoreStaysSoundIff`); with a limit, a store outside that
  condition is wrong at once or after one later store of a new key (`DisallowedStoreDoomsIff`).
- A store does not only evict when what is counted does not fit: a promotion between insert and count can take the counter below zero,
  where it wraps, and the next store evicts the whole vault (`ExoTasks.EarlyPromotionEmptiesVault`). If what a store
  has counted fits the limit, it evicts iff at that moment fewer bytes are held than are inserted and not yet counted, and then everything in the
  queue goes (`StoreEvictsIff`, `RunsEvictIff`, `TrimBelowZero`). The counter is exact iff no bytes are in flight (`ExactIffNothingInFlight`).
- The table behind the registry is not always sequential replay: `WriteBehind.RestoreInOneBatchIsLost`. For a given cut into batches it
  is iff no hash is finally upserted in a batch that also deletes it (`DrainEqualsReplayIff`), and for every cut iff no
  delete comes less than 64 operations before an upsert that is last on its hash (`EveryCutEqualsReplayIff`). It is a submap always.
- A restart does not always find a submap of the stored records: `Persistence.FailedBlockComesBackStored`. For records whose versions
  differ it does iff for each row found the record it was read from is registered, stored, and unchanged since the batch that
  read it (`RestartIsSubmapOfStoredIff`, `UpToDateIff`), from every start and at every moment.
- A cache does not always get its own part back: `GpuBlocks.SkippedCacheShiftsTheRest`. It does for all contents iff no
  cache up to it raises at the target and those before it take the same number of elements at both ends (`GpuBlocks.OwnPartIff`).
- A block that decodes to more than a pool buffer holds is not restored while the pool lasts, and is afterwards
  (`RestoreBuffers.RestoreHandler.OversizedNeedsEmptyPool`).
- Plan entries and physical blocks line up if the last planned block has tokens;
  `Planning.EmptyLastBlockNeedsFewer` is the other half.

## Model

| member | source | states |
|---|---|---|
| `VaultKeys.DecimalInjective` | tierkv-core/src/residual_sync.rs:323-324 | two counter values never print as the same digits |
| `VaultKeys.SplitAtLastDash` | tierkv-core/src/residual_sync.rs:324 | a string ending in a dash and digits splits in only one way, even if the hash part contains dashes itself |
| `VaultKeys.VaultKeyInjective` | tierkv-core/src/residual_sync.rs:323-324 | two stores share a key only if both hash and counter value are equal |
| `VaultKeys.HexInjective` | tierkv/connectors/vllm/request_handler.py:176-182 | hex rendering of a block hash loses nothing, so a key identifies the block it was made for |
| `VllmVault.RetainIsLongestFittingSuffix` | tierkv-core/src/residual_sync.rs:333-346 | what eviction leaves is the longest suffix of the stores that fits the limit (all of them when the limit is 0): every longer suffix is too big |
| `VllmVault.RetainIncremental` | tierkv-core/src/residual_sync.rs:333-346 | evicting after every single store ends where one eviction over the whole history ends |
| `VllmVault.AgreesPop` | tierkv-core/src/residual_sync.rs:336-343 | popping and removing the oldest entry keeps map, queue and counter in agreement, and its key is always there to be removed |
| `VllmVault.AgreesEmpty` | tierkv-core/src/residual_sync.rs:336-338 | the queue is never empty while bytes are counted, so `None => break` is never taken over the limit |
| `VllmVault.StorePushed` | tierkv-core/src/residual_sync.rs:323-332 | one store draws a fresh key, keeps the containers in agreement, and leaves the suffix specification one eviction away |
| `VllmVault.StoreIsAddThenDrop` | tierkv-core/src/residual_sync.rs:323-346 | seen from outside, a store adds its block under its key and drops some keys; no other entry changes |
| `VllmVault.VllmColdVault.constructor` | tierkv-core/src/residual_sync.rs:305-313 | a new vault is empty |
| `VllmVault.VllmColdVault.EvictOldest` | tierkv-core/src/residual_sync.rs:334-345 | the eviction loop reaches exactly the longest fitting suffix |
| `VllmVault.VllmColdVault.StoreBlock` | tierkv-core/src/residual_sync.rs:318-348 | returns a key that was not in the store; the vault then holds the longest fitting suffix of the history with this store appended, counter and queue agreeing with it |
| `VllmVault.VllmColdVault.BatchPromote` | tierkv-core/src/residual_sync.rs:350-371 | one answer for each key in the order asked, the empty block for a key not held, and nothing is removed |
| `VllmVault.VllmColdVault.Flush` | tierkv-core/src/residual_sync.rs:373-382 | empties the containers, keeps the key counter, and answers the bytes that were held |
| `VaultTasks.StepKeepsInv` | tierkv-core/src/residual_sync.rs:318-371 | every atomic action of any number of interleaved stores, promotions and quiescent flushes keeps the invariant relating map, queue, counter, locks and tasks |
| `VaultTasks.RunsKeepInv` | tierkv-core/src/residual_sync.rs:318-382 | so the invariant holds after every interleaved run |
| `VaultTasks.SafeWheneverOrderLockIsFree` | tierkv-core/src/residual_sync.rs:322-346 | whenever nobody holds the order lock: counter equals the queued sizes and is within the limit, the queue is the longest fitting suffix of the pushes, and the store has exactly the queued keys and those inserted but not yet queued |
| `VaultTasks.QuiescentAgreesWithSequential` | tierkv-core/src/residual_sync.rs:318-348 | with no store in progress, the interleaved vault is in a state of the sequential specification, every number in its history below the counter, and holds no lock |
| `VaultTasks.EvictionNeverRunsDry` | tierkv-core/src/residual_sync.rs:336-343 | in every interleaving a popping task finds the queue non-empty, the popped key is in the store, and the subtraction cannot underflow |
| `VaultTasks.NoDeadlock` | tierkv-core/src/residual_sync.rs:326-346 | as long as a store is unfinished some task can take its next step: the two locks are always taken in the same order |
| `VaultTasks.PromoteAnswersStoredBlocks` | tierkv-core/src/residual_sync.rs:350-371 | a promotion at any moment answers a key with nothing or with a block that a store of this vault has put under that very key: one of the history, or one inserted and not yet queued |
| `ExoVault.HeldRemove` | tierkv-core/src/residual_sync.rs:140-142 | the bytes held are the bytes of any one key plus those of the rest, whatever the map order |
| `ExoVault.EvictFits` | tierkv-core/src/residual_sync.rs:133-145 | with the count right, eviction keeps it right and ends within the limit in spite of stale queue entries |
| `ExoVault.EvictKeepsOffset` | tierkv-core/src/residual_sync.rs:135-145 | if the counter is off by some amount modulo 2^64, eviction leaves it off by exactly that amount |
| `ExoVault.AllowedStoreKeepsAccounts` | tierkv-core/src/residual_sync.rs:125-147 | storing a key that is not held (or holds no bytes), with the size its stale entries say, keeps the count exact and ends within the limit |
| `ExoVault.OverwriteSpoils` | tierkv-core/src/residual_sync.rs:126-131 | overwriting a held non-empty key, at any size, makes the counter differ from the bytes held at once |
| `ExoVault.EvictOffset` | tierkv-core/src/residual_sync.rs:135-145 | eviction with one key whose first queue entry says another size: the offset of the counter changes by the difference if that entry is popped, and not otherwise |
| `ExoVault.HitsIff` | tierkv-core/src/residual_sync.rs:135-145 | eviction reaches that entry iff freeing every key queued ahead of it is not enough to get within the limit |
| `ExoVault.StoreIsOffBy` | tierkv-core/src/residual_sync.rs:125-147 | the counter after any store, to the byte: off by what was overwritten, plus the difference of the sizes if eviction reaches an entry the key had before |
| `ExoVault.StoreIsExactIff` | tierkv-core/src/residual_sync.rs:125-147 | from a sound vault: the counter equals the bytes held after a store iff, when eviction reaches an old entry of the key, the key is not held and the entry says the size stored, and otherwise nothing held is overwritten |
| `ExoVault.StoreStaysSoundIff` | tierkv-core/src/residual_sync.rs:125-147 | a store leaves count and queue sizes both right iff the key is not held with bytes and its queue entries all say the size stored |
| `ExoVault.FlushingStoreShowsIt` | tierkv-core/src/residual_sync.rs:133-145 | a waiting entry of another size makes the counter wrong at the next store that flushes the queue |
| `ExoVault.DisallowedStoreDoomsIff` | tierkv-core/src/residual_sync.rs:125-147 | with a limit: a store followed by one store of a new key larger than the limit leaves the counter exact both times iff the first one was allowed |
| `ExoVault.PromoteKeepsSound` | tierkv-core/src/residual_sync.rs:158-165 | destructive promotion takes exactly the promoted bytes off the count, never underflows, and keeps the vault sound |
| `ExoVault.BatchPromoteConserves` | tierkv-core/src/residual_sync.rs:173-190 | batch promotion hands out exactly the bytes it takes out, repeated layers included |
| `ExoVault.BatchPromoteAnswers` | tierkv-core/src/residual_sync.rs:174-190 | answers come in request order; only the first request for a held layer gets data; exactly the requested keys leave the store |
| `ExoVault.DisciplinedRunsStaySound` | tierkv-core/src/residual_sync.rs:125-202 | over whole runs in which a key is only stored while not held and always at one size, the counter equals the bytes held and is within the limit |
| `ExoVault.OverwriteWitness` | tierkv-core/src/residual_sync.rs:126-131 | a run of three calls after which nothing is held and two bytes are counted |
| `ExoVault.ColdVault.constructor` | tierkv-core/src/residual_sync.rs:109-116 | a new vault is empty |
| `ExoVault.ColdVault.StoreTensor` | tierkv-core/src/residual_sync.rs:121-148 | the in-place store and its eviction loop compute the specified vault |
| `ExoVault.ColdVault.PromoteTensor` | tierkv-core/src/residual_sync.rs:153-166 | the in-place promotion computes the specified vault and answer |
| `ExoVault.ColdVault.BatchPromoteTensors` | tierkv-core/src/residual_sync.rs:168-191 | the loop over layers computes the specified vault and answers |
| `ExoVault.ColdVault.Flush` | tierkv-core/src/residual_sync.rs:193-202 | empties the vault and answers the count as it was |
| `ExoTasks.StepsMakeStore` | tierkv-core/src/residual_sync.rs:125-147 | the insert, count and evict steps of a store with nothing in between are the sequential store |
| `ExoTasks.StepKeepsInv` | tierkv-core/src/residual_sync.rs:121-191 | every step of interleaved stores and promotions keeps the counter short of the bytes held by exactly what is inserted and not yet counted |
| `ExoTasks.RunsKeepInv` | tierkv-core/src/residual_sync.rs:121-191 | and so does every run that stores a key only while it is not held and always at one size |
| `ExoTasks.QuiescentIsExact` | tierkv-core/src/residual_sync.rs:121-191 | so in such a run, whenever no store is in progress, the counter equals the bytes held and is within the limit |
| `ExoTasks.ExactIffNothingInFlight` | tierkv-core/src/residual_sync.rs:128-131 | in any state of such a run the counter equals the bytes held iff no bytes are inserted and not yet counted |
| `ExoVault.EvictStops` | tierkv-core/src/residual_sync.rs:135-145 | eviction drops queue entries up to the first point at which what the counter stands for is within the limit and not below zero, or all of them; with each entry its block, and nothing else |
| `ExoTasks.WhileLocked` | tierkv-core/src/residual_sync.rs:129-145 | while one call holds the order lock, others only insert and promote: the queue stays as it is and what the counter stands for can only fall |
| `ExoTasks.TrimStops` | tierkv-core/src/residual_sync.rs:133-145 | in a run, what a trim that evicts leaves |
| `ExoTasks.TrimEvictsIff` | tierkv-core/src/residual_sync.rs:133-145 | a trim changes the vault iff its own total was over the limit and the counter still reads as over the limit |
| `ExoTasks.TrimBelowZero` | tierkv-core/src/residual_sync.rs:133-145 | below zero it empties the queue; what is left is exactly the blocks without a queue entry, all of them still in flight |
| `ExoTasks.StoreEvictsIff` | tierkv-core/src/residual_sync.rs:121-147 | a store that counts now and trims later, whatever is inserted and promoted in between, evicts iff the counter reads as over the limit both times; if what it counted fits, iff fewer bytes were held than in flight |
| `ExoTasks.RunsEvictIff` | tierkv-core/src/residual_sync.rs:121-191 | the same for every store of every run from an empty vault |
| `ExoTasks.EvictsAll` | tierkv-core/src/residual_sync.rs:135-145 | a counter wrapped below zero makes eviction empty the whole vault |
| `ExoTasks.EarlyPromotionEmptiesVault` | tierkv-core/src/residual_sync.rs:125-165 | an instance: a promotion between insert and `fetch_add` wraps the counter, and the next store evicts everything, itself included, although all would fit |
| `TurboQuant.EncodedLayout` | tierkv-core/src/turbo_quant.rs:227-234 | an encoding of non-empty input has a header; its length is a multiple of the stride exactly when the input is group-aligned, and then has as many groups |
| `TurboQuant.DecodeSucceedsIff` | tierkv-core/src/turbo_quant.rs:342-362 | decoding an encoding of n floats succeeds iff n > 0 and the group size divides n, and yields n floats |
| `TurboQuant.DecodedSizeIsExact` | tierkv-core/src/turbo_quant.rs:171-180 | `decoded_size` announces exactly the bytes decoding produces, and accepts a length iff decoding accepts the data, except that it also accepts the empty one |
| `TurboQuant.GroupRoundTrip` | tierkv-core/src/turbo_quant.rs:212-222 | decoding an encoded group gives each element as code times scale |
| `TurboQuant.RoundTrip` | tierkv-core/src/turbo_quant.rs:227-234 | for every group-aligned input, decode after encode is element-wise requantisation group by group |
| `TurboQuant.ClampIsInactive` | tierkv-core/src/turbo_quant.rs:213-219 | the clamp never changes a rounded quotient |
| `TurboQuant.GroupErrorBound` | tierkv-core/src/turbo_quant.rs:213-219 | every element is off by at most half its group's scale, which is absmax/127 or the floor |
| `TurboQuant.GroupOfIsSlice` | tierkv-core/src/turbo_quant.rs:230-232 | the group of an element is the aligned slice around it |
| `TurboQuant.ErrorBound` | tierkv-core/src/turbo_quant.rs:227-234 | every decoded element is within absmax/254 of its own group of the original, or 0.5e-8 at the floor |
| `TurboQuant.ScaleIsStable` | tierkv-core/src/turbo_quant.rs:213-214 | a requantised group has the same scale as the original, at the floor as well |
| `TurboQuant.GroupProjection` | tierkv-core/src/turbo_quant.rs:212-222 | encoding a requantised group gives the same bytes again |
| `TurboQuant.AllProjection` | tierkv-core/src/turbo_quant.rs:227-234 | the same for whole inputs, group by group |
| `TurboQuant.BytesRoundTrip` | tierkv-core/src/turbo_quant.rs:258-270 | floats to bytes and back is the identity |
| `TurboQuant.EncodeIsProjection` | tierkv-core/src/turbo_quant.rs:212-270 | over bytes: encode of decode of encode equals encode, for every group-aligned input, so evict and restore cycles add no drift |
| `TurboQuantLoops.EncodeGroup` | tierkv-core/src/turbo_quant.rs:212-222 | the two loops compute the specified group encoding |
| `TurboQuantLoops.EncodeGrouped` | tierkv-core/src/turbo_quant.rs:227-234 | the chunk loop computes the specified encoding |
| `TurboQuantLoops.DecodeChunk` | tierkv-core/src/turbo_quant.rs:356-359 | the inner loop computes the specified group decoding |
| `TurboQuantLoops.DecodeGroupedInner` | tierkv-core/src/turbo_quant.rs:342-362 | the sequential decoder computes the specified result, errors included |
| `TurboQuantLoops.DecodedAt` | tierkv-core/src/turbo_quant.rs:353-360 | lane l of group g is float g * size + l of the sequential decoding |
| `TurboQuantLoops.WriteLane` | tierkv-core/src/turbo_quant.rs:327-336 | one worker writes the four bytes of its float, which are those of the sequential decoding, and no others |
| `TurboQuantLoops.DecodeGroupedInto` | tierkv-core/src/turbo_quant.rs:281-339 | whatever the order of the workers: the buffer starts with the bytes of the sequential decoding, its tail is untouched, the announced size is returned, and on an error nothing is written; it succeeds iff the input decodes and the buffer is large enough |
| `GpuBlocks.LiveInside` | tierkv/connectors/vllm/connector.py:487-505 | a block that is not skipped lies inside both planes, so no slice is cut short |
| `GpuBlocks.DistinctBlocksDisjoint` | tierkv/connectors/vllm/connector.py:499-501 | different block ids name disjoint runs of pages |
| `GpuBlocks.ScatterRestores` | tierkv/connectors/vllm/connector.py:642-698 | over any list of caches, writing back the gathered buffer consumes it at the offsets at which it was built and restores every cache, without an exception |
| `GpuBlocks.RestoredOneFacts` | tierkv/connectors/vllm/connector.py:661-698 | the restored block reads back as the source block, and every position outside it keeps its value |
| `GpuBlocks.GatherThenScatter` | tierkv/connectors/vllm/connector.py:463-511 | gather at one pair of ids and scatter at another is the identity on the block in every cache and changes nothing else, for list and paged caches alike |
| `GpuBlocks.OthersKept` | tierkv/connectors/vllm/connector.py:632-698 | writing one block leaves a block at other ids as it was |
| `GpuBlocks.AllBlocksRestored` | tierkv/connectors/vllm/connector.py:632-698 | several blocks with pairwise distinct effective target ids are all in place at the end, and positions none of them covers are unchanged |
| `GpuBlocks.WitnessGathers` | tierkv/connectors/vllm/connector.py:476-511 | a concrete gather out of two list caches of different length |
| `GpuBlocks.GatheredPart` | tierkv/connectors/vllm/connector.py:475-511 | a live cache contributes its own part to the buffer, at the summed length of the live caches before it |
| `GpuBlocks.ScatteredPart` | tierkv/connectors/vllm/connector.py:642-698 | scattering without an exception gives a live cache the run of the buffer at that same sum at the target |
| `GpuBlocks.PrefixDecides` | tierkv/connectors/vllm/connector.py:642-698 | whether a cache receives the run at its offset is decided by the caches up to it and the length of the buffer |
| `GpuBlocks.OwnPartIff` | tierkv/connectors/vllm/connector.py:463-698 | a cache that takes part at both ends gets its own part back for all contents iff no cache up to it raises at the target and the live caches before it take the same number of elements at both ends |
| `GpuBlocks.SkippedCacheShiftsTheRest` | tierkv/connectors/vllm/connector.py:656-658 | an instance: a cache is skipped at the target only, and the next one silently receives its data |
| `GpuDevice.GatherPair` | tierkv/connectors/vllm/connector.py:481-491 | the branch for a list cache reads out exactly its part, passes it over or raises |
| `GpuDevice.GatherPaged` | tierkv/connectors/vllm/connector.py:492-505 | so does the branch for a paged cache |
| `GpuDevice.GatherCache` | tierkv/connectors/vllm/connector.py:477-505 | the branches for one cache read out exactly its part |
| `GpuDevice.GatherCaches` | tierkv/connectors/vllm/connector.py:475-517 | the gather loop over caches in device memory computes the specified buffer, or none when nothing takes part or something raises |
| `GpuDevice.PutRun` | tierkv/connectors/vllm/connector.py:664-669 | copying a run into a plane replaces that run and nothing else |
| `GpuDevice.ScatterPair` | tierkv/connectors/vllm/connector.py:650-670 | the branch for a list cache writes its part in place, advances the offset, and raises where the source raises |
| `GpuDevice.ScatterPaged` | tierkv/connectors/vllm/connector.py:671-698 | so does the branch for a paged cache |
| `GpuDevice.ScatterCache` | tierkv/connectors/vllm/connector.py:645-698 | the branches for one cache write its part in place, advance the offset, and raise where the source raises |
| `GpuDevice.ScatterCacheAt` | tierkv/connectors/vllm/connector.py:644-698 | writing one cache leaves all other caches alone |
| `GpuDevice.ScatterCaches` | tierkv/connectors/vllm/connector.py:640-698 | the scatter loop over caches in device memory computes the specified contents |
| `Planning.TokensSum` | tierkv/connectors/vllm/connector.py:321-326 | the per-block token counts of a request sum to min(total, n * block size) |
| `Planning.PlanNeedsItsLength` | tierkv/connectors/vllm/connector.py:221-221 | a restored prefix with tokens in its last block needs exactly as many physical blocks as it has entries |
| `Planning.EmptyLastBlockNeedsFewer` | tierkv/connectors/vllm/connector.py:221-221 | and with an empty last block strictly fewer, so the positivity condition is needed |
| `Planning.FirstLargest` | tierkv/connectors/vllm/connector.py:336-341 | the head of the stable descending sort is the first group with the most non-zero ids |
| `Planning.SplitGroups` | tierkv/connectors/vllm/connector.py:237-247 | primary is the first group with the most non-zero ids; secondary is the first such group among the others, in their order, or primary itself if there is only one |
| `Planning.PairPlan` | tierkv/connectors/vllm/connector.py:249-256 | a hash is paired iff one of its positions is within the count and has a non-zero primary id, and then with the ids at the last such position |
| `Planning.OwnPosition` | tierkv/connectors/vllm/connector.py:249-256 | so an entry whose hash does not repeat is paired with the ids at its own position or not at all |
| `Planning.PairWholePlan` | tierkv/connectors/vllm/connector.py:198-259 | put together: no entry of a plan with nothing computed yet is cut off, and each hash is paired with the physical block at its own position, the last one where it repeats |
| `WriteBehind.ReplayAt` | tierkv/connectors/vllm/registry_persistence.py:189-203 | sequential replay gives a hash what the last operation on it says |
| `WriteBehind.LastOnMeaning` | tierkv/connectors/vllm/registry_persistence.py:189-203 | the last operation on a hash occurs in the log and no later one concerns that hash |
| `WriteBehind.CommitAt` | tierkv/connectors/vllm/registry_persistence.py:255-261 | one committed batch leaves a hash without a row if the batch deletes it anywhere, else with its last upsert |
| `WriteBehind.DrainedAt` | tierkv/connectors/vllm/registry_persistence.py:210-274 | after any cut into batches, what a hash has is what replay gives it, or nothing |
| `WriteBehind.DrainIsSubmapOfReplay` | tierkv/connectors/vllm/registry_persistence.py:207-274 | for every log and every cut the table is a submap of sequential replay: no resurrected hash, no stale row |
| `WriteBehind.DrainEqualsReplayIff` | tierkv/connectors/vllm/registry_persistence.py:255-261 | for every log and cut, equality holds iff no hash has its last operation be an upsert in a batch that also deletes it |
| `WriteBehind.EveryCutEqualsReplayIff` | tierkv/connectors/vllm/registry_persistence.py:222-261 | for every log: every cut into batches of 1 to 64 gives replay iff no hash is deleted less than 64 operations before the upsert that is its last operation |
| `WriteBehind.SomeCutLoses` | tierkv/connectors/vllm/registry_persistence.py:255-261 | and otherwise there is a cut that gives something else |
| `WriteBehind.DrainEqualsReplayWithoutRestores` | tierkv/connectors/vllm/registry_persistence.py:255-261 | in particular equality holds when no batch deletes a hash before upserting it |
| `WriteBehind.RestoreInOneBatchIsLost` | tierkv/connectors/vllm/registry_persistence.py:255-261 | a remove followed by a store of one block in one batch leaves the table without its row |
| `WriteBehind.ExecuteMany` | tierkv/connectors/vllm/registry_persistence.py:256-259 | executing a list of statements one by one is replaying it |
| `WriteBehind.Drain` | tierkv/connectors/vllm/registry_persistence.py:222-232 | a batch is the next 1 to 64 items of the queue and never reaches past the sentinel |
| `WriteBehind.Sort` | tierkv/connectors/vllm/registry_persistence.py:234-253 | a batch is split into its upserts and its deletes in order, up to the sentinel |
| `WriteBehind.WriteLoop` | tierkv/connectors/vllm/registry_persistence.py:207-274 | whenever the queue looks empty: everything before the sentinel is committed once and in order, nothing behind it is, in batches of 1 to 64; the table is a submap of replaying the queue |
| `WriteBehind.LoadFromDb` | tierkv/connectors/vllm/registry_persistence.py:146-185 | exactly the rows younger than the cutoff come back, and the index has exactly their non-empty keys |
| `WriteBehind.RowsAreLastStored` | tierkv/connectors/vllm/registry_persistence.py:207-274 | for a log of row values and any cut: a row found in the end is the last operation on its hash |
| `Persistence.StartExists` | tierkv/connectors/vllm/registry_persistence.py:146-185 | for every table and age limit there is a start: a stored record for each row younger than the limit |
| `Persistence.RunsKeepInv` | tierkv/connectors/vllm/registry_persistence.py:146-274 | from every start, in every interleaving of registry calls, changes to records, log calls and batches: each row is the version of a record it was read from, or was too old to be loaded and has stayed |
| `Persistence.RowsAreLastStored` | tierkv/connectors/vllm/registry_persistence.py:189-274 | after a clean shutdown of any process: a row is a version, no older than when it was queued, of the record last queued for its block, with no removal queued after it; or nothing was queued for its block and it was there at the start |
| `Persistence.LastUpIs` | tierkv/connectors/vllm/registry_persistence.py:234-250 | what a batch writes for a block is its record as it is when the batch is drained, the last one queued in it |
| `Persistence.RestartIsSubmapOfStoredIff` | tierkv/connectors/vllm/registry_persistence.py:146-274 | what the next process finds is a submap of the rows of the stored records iff for each row the record it was read from is registered, stored and still the version that was read; for records whose versions differ |
| `Persistence.UpToDateIff` | tierkv/connectors/vllm/registry_persistence.py:207-274 | and that is so iff the record is registered, stored and no step since the batch that read it, or since the start, has changed it |
| `Persistence.FailedBlockComesBackStored` | tierkv/connectors/vllm/registry_persistence.py:189-203 | it is not always so: a block marked failed after it was stored is found stored after a restart |
| `HotTier.InsertedFacts` | tierkv-core/src/tiered_kv.rs:47-68 | an insertion keeps keys unique and the size within capacity, loses nothing but the returned entry, and either keeps or returns what was inserted |
| `HotTier.TouchedFacts` | tierkv-core/src/tiered_kv.rs:70-78 | a lookup reorders the entries and changes none |
| `HotTier.RunsStayBounded` | tierkv-core/src/tiered_kv.rs:47-78 | in every reachable state keys are unique and the size is at most the capacity, zero included |
| `HotTier.LargerTierIncludesSmaller` | tierkv-core/src/tiered_kv.rs:47-78 | for the same accesses, the list of a smaller tier is always a subsequence of the list of a larger one, with equal values |
| `HotTier.LargerTierHits` | tierkv-core/src/tiered_kv.rs:70-78 | so a larger tier never misses a key a smaller one has, and answers the same |
| `HotTier.ListIsByLastTouch` | tierkv-core/src/tiered_kv.rs:51-78 | the list is always in the order of last touch, each key with what was last inserted for it |
| `HotTier.EvictsLeastRecentlyTouched` | tierkv-core/src/tiered_kv.rs:55-65 | an eviction returns the key with the oldest last touch, with the bytes and dimension last inserted for it |
| `HotTier.HotTier.constructor` | tierkv-core/src/tiered_kv.rs:37-44 | a new tier is empty |
| `HotTier.HotTier.Insert` | tierkv-core/src/tiered_kv.rs:47-68 | map, dims and queue keep the same keys, and together compute the specified list and evicted entry |
| `HotTier.HotTier.Get` | tierkv-core/src/tiered_kv.rs:70-78 | answers what the key was inserted with and moves it to the back; a miss changes nothing |
| `TieredCache.SortByLayerFacts` | tierkv-core/src/tiered_kv.rs:288-288 | the answer is sorted by layer and is a permutation of what was found |
| `TieredCache.SortByLayerIsStable` | tierkv-core/src/tiered_kv.rs:288-288 | entries of one layer keep their order |
| `TieredCache.GetAgrees` | tierkv-core/src/tiered_kv.rs:165-225 | if every key only ever has one value, `get` answers its quantisation round trip or nothing, and keeps that agreement |
| `TieredCache.GetBatchAgrees` | tierkv-core/src/tiered_kv.rs:232-298 | the same for every entry that a batch request is answered with, and the entries are sorted by layer |
| `TieredCache.StepAgrees` | tierkv-core/src/tiered_kv.rs:132-298 | every step keeps hot tier, messages in flight and vault in agreement with the values, and every answer agrees |
| `TieredCache.RunsAgree` | tierkv-core/src/tiered_kv.rs:132-298 | so in every run with delayed, reordered and lost stores, every non-empty answer is the round trip of that key's value |
| `TieredCache.VictimsAreFew` | tierkv-core/src/tiered_kv.rs:266-277 | a batch pushes out at most one hot entry for each tensor it brings back |
| `TieredCache.StepConserves` | tierkv-core/src/tiered_kv.rs:132-298 | with lossless delivery and an unlimited vault no step removes a key from hot, in flight or cold, except for the entries pushed out by promotions, of which there is at most one for each promoted entry |
| `TieredCache.RunsConserve` | tierkv-core/src/tiered_kv.rs:132-298 | the same after every run, with the bound for each step of it |
| `BatchAnswers.HotPassRaises` | tierkv-core/src/tiered_kv.rs:241-249 | the first loop raises iff the hot tier holds something undecodable for a requested layer |
| `BatchAnswers.HotPassLayers` | tierkv-core/src/tiered_kv.rs:241-254 | otherwise it sorts the requested layers, with multiplicity, into found and missed |
| `BatchAnswers.BatchContents` | tierkv-core/src/tiered_kv.rs:232-298 | for any state a run can reach: when `get_batch` raises; for which layers, with multiplicity, it has entries; and each entry is what the tiers had for its layer, or empty behind an earlier one of a repeated layer |
| `BatchAnswers.EveryLayerAnsweredIff` | tierkv-core/src/tiered_kv.rs:231-283 | the documented promise, an entry for every requested layer, is kept iff the vault answers or every layer is hot |
| `BatchAnswers.NothingAnswered` | tierkv-core/src/tiered_kv.rs:264-283 | a request that is answered with an empty list because the vault is out of reach |
| `BatchAnswers.RunsAnswerEveryLayerIff` | tierkv-core/src/tiered_kv.rs:132-298 | the same after every run, whatever was inserted, delivered and lost |
| `TieredCache.TieredKVCache.constructor` | tierkv-core/src/tiered_kv.rs:110-128 | a new cache is empty |
| `TieredCache.TieredKVCache.InsertKv` | tierkv-core/src/tiered_kv.rs:132-162 | computes the specified step; a bad length raises and changes nothing |
| `TieredCache.TieredKVCache.Arrive` | tierkv-core/src/tiered_kv.rs:145-159 | a background store arrives at the vault, or is lost |
| `TieredCache.TieredKVCache.GetKv` | tierkv-core/src/tiered_kv.rs:165-225 | computes the specified step and answer |
| `TieredCache.TieredKVCache.CollectHot` | tierkv-core/src/tiered_kv.rs:241-254 | the first loop answers hits in order and lists the misses |
| `TieredCache.TieredKVCache.ReinsertCold` | tierkv-core/src/tiered_kv.rs:266-280 | the second loop re-inserts what came back and answers every tensor |
| `TieredCache.TieredKVCache.GetBatchKv` | tierkv-core/src/tiered_kv.rs:232-298 | computes the specified step and answer |
| `Protobuf.VarintRoundTrip` | tierkv/connectors/vault_client.py:184-195 | reading a varint written anywhere in a buffer returns its value and the position right behind it, for every natural number |
| `Protobuf.DecodeDistributes` | tierkv/connectors/vault_client.py:198-224 | decoding a complete message followed by anything is decoding both and concatenating, exceptions included |
| `Protobuf.BytesFieldDecodes` | tierkv/connectors/vault_client.py:138-146 | a length-delimited field decodes to itself, empty values included |
| `Protobuf.VarintFieldDecodes` | tierkv/connectors/vault_client.py:206-208 | a varint field decodes to itself |
| `Protobuf.BoolFieldDecodes` | tierkv/connectors/vault_client.py:149-153 | a bool decodes to itself, false being left out |
| `Protobuf.Uint32FieldDecodes` | tierkv/connectors/vault_client.py:156-160 | a uint32 decodes to itself, zero being left out |
| `Protobuf.StoreRequestRoundTrip` | tierkv/connectors/vault_client.py:163-171 | a store request is recovered from its bytes, left-out defaults included |
| `Protobuf.BatchPromoteRequestRoundTrip` | tierkv/connectors/vault_client.py:174-179 | the keys of a batch-promote request are recovered in order |
| `Protobuf.BlockDataRoundTrip` | tierkv/connectors/vault_client.py:236-246 | a block message is recovered from its bytes |
| `Protobuf.BatchPromoteResponseRoundTrip` | tierkv/connectors/vault_client.py:249-255 | nested blocks come back complete and in order, empty ones included |
| `Protobuf.BlockDataLastOneWins` | tierkv/connectors/vault_client.py:239-245 | behind a complete message, a second one overrides exactly the fields it has |
| `Protobuf.ShortResponsesRoundTrip` | tierkv/connectors/vault_client.py:227-233 | the two one-field responses are recovered from their bytes |
| `ProtobufLoops.EncodeVarintLoop` | tierkv/connectors/vault_client.py:128-135 | the shift loop computes the specified bytes |
| `ProtobufLoops.ReadVarintLoop` | tierkv/connectors/vault_client.py:184-195 | the accumulate loop computes the specified value and position, and errs exactly when the data runs out |
| `ProtobufLoops.DecodeFieldsLoop` | tierkv/connectors/vault_client.py:198-224 | the loop computes the specified fields and ends on every input |
| `ProtobufLoops.ParseOne` | tierkv/connectors/vault_client.py:203-223 | one round parses the specified field |
| `ProtobufLoops.SerializeBatchPromoteRequestLoop` | tierkv/connectors/vault_client.py:174-179 | the loop computes the specified bytes |
| `ProtobufLoops.DeserializeBlockData` | tierkv/connectors/vault_client.py:236-246 | the loop over fields computes the specified block |
| `ProtobufLoops.DeserializeBatchPromoteResponse` | tierkv/connectors/vault_client.py:249-255 | the loop over fields computes the specified list of blocks |
| `Registry.BlockRegistry.Register` | tierkv/connectors/vllm/block_registry.py:45-49 | files the record under its hash and its key, if it has one |
| `Registry.BlockRegistry.MarkStored` | tierkv/connectors/vllm/block_registry.py:51-55 | changes the status of that record only, and nothing if there is none |
| `Registry.BlockRegistry.MarkFailed` | tierkv/connectors/vllm/block_registry.py:57-61 | changes the status of that record only, and nothing if there is none |
| `Registry.BlockRegistry.LookupStored` | tierkv/connectors/vllm/block_registry.py:63-67 | answers the record iff it is stored |
| `Registry.BlockRegistry.LookupByVaultKey` | tierkv/connectors/vllm/block_registry.py:75-80 | answers the record the index leads to, if it is still there |
| `Registry.BlockRegistry.Remove` | tierkv/connectors/vllm/block_registry.py:90-94 | takes out the record and the index entry of its key |
| `Registry.BlockRegistry.UpdateVaultKey` | tierkv/connectors/vllm/block_registry.py:96-103 | replaces key and index entry; a registry in which every key is indexed stays so for fresh keys |
| `Registry.BlockRegistry.PurgeStale` | tierkv/connectors/vllm/block_registry.py:105-121 | removes exactly the failed and stored records older than the cutoff and their index entries, and answers how many |
| `Registry.BlockRegistry.ExpirePending` | tierkv/connectors/vllm/block_registry.py:123-137 | exactly the pending records older than the cutoff become failed, a stored record never; answers how many |
| `Registry.StoredPrefix` | tierkv/connectors/vllm/restore_handler.py:100-105 | the walk stops at the first hash that is not stored |
| `Registry.Plan` | tierkv/connectors/vllm/restore_handler.py:87-108 | the longest prefix of hashes stored before the call, in order, with its token total; expiry never shortens it |
| `Registry.ShouldStore` | tierkv/connectors/vllm/request_handler.py:56-69 | True iff some known hash is not stored |
| `Registry.RegisterOne` | tierkv/connectors/vllm/request_handler.py:80-107 | the record for one position is new, pending, carries its own tokens and layer type, and changes which hashes are stored for none |
| `Registry.RegisterPending` | tierkv/connectors/vllm/request_handler.py:71-109 | one fresh pending record for each known, not yet stored hash, in order, each with its own tokens and layer type; all are filed, the later one where a hash repeats; stored ones stay |
| `StoreHandler.StoreHandler.StoreOne` | tierkv/connectors/vllm/request_handler.py:158-189 | succeeds iff encoder and RPC do; the chosen vault gets exactly this block; the registry's own record becomes stored under the new key and the record handed in gets the payload hash; a failure leaves the registry, its record and the record handed in as they were |
| `StoreHandler.StoreHandler.StoreOrFail` | tierkv/connectors/vllm/request_handler.py:135-148 | one round of the loop leaves its block settled: failed, or stored under a key that leads to its own bytes |
| `StoreHandler.StoreHandler.StoreAll` | tierkv/connectors/vllm/request_handler.py:126-155 | whatever fails, at the end every block of the batch is settled, and blocks settled before stay so |
| `Ownership.StepKeepsPlace` | tierkv/connectors/vllm/connector.py:354-398 | every step keeps an answered request in exactly one place and an unanswered one nowhere |
| `Ownership.ExactlyOnePlace` | tierkv/connectors/vllm/connector.py:363-372 | in every run a request answered True is in exactly one of plans, metadata, working, finished and reported, others nowhere |
| `Ownership.RecordsFacts` | tierkv/connectors/vllm/connector.py:523-548 | the rebuilt records are exactly the plan's gathered blocks |
| `Ownership.FreedIsMarked` | tierkv/connectors/vllm/request_handler.py:126-156 | when the free callback comes every block of the plan has been marked |
| `Ownership.ReportedOnceAndOnlyWhenMarked` | tierkv/connectors/vllm/connector.py:713-731 | a request is reported at most once, only if answered True, and only after each of its blocks was marked stored or failed |
| `Ownership.NeverReportedWithoutCaches` | tierkv/connectors/vllm/connector.py:454-458 | without KV caches the task returns before its callback and no request is ever reported |
| `Ownership.AlwaysOneStepCloser` | tierkv/connectors/vllm/connector.py:374-561 | an answered request that is not yet reported can always be brought a step closer, however gathers and stores turn out |
| `Connector.BlockIds` | tierkv/connectors/vllm/connector.py:345-352 | each known hash gets the ids at its last position |
| `Connector.WantedIsPending` | tierkv/connectors/vllm/request_handler.py:80-108 | after registration every wanted block has a pending record, the last one made for it where a hash repeats |
| `Connector.TensorsHold` | tierkv/connectors/vllm/connector.py:463-516 | a block is in memory after the gathers iff one of its gathers gave bytes, and then with the bytes of the last that did |
| `Connector.RebuiltCovers` | tierkv/connectors/vllm/connector.py:523-548 | every block that was read has a record among the rebuilt ones |
| `Connector.Connector.constructor` | tierkv/connectors/vllm/connector.py:160-176 | nothing waits and nothing is finished at the start |
| `Connector.Connector.RegisterBlocks` | tierkv/connectors/vllm/connector.py:318-372 | each known block that is not stored gets a pending record and a spec with its own tokens, layer type and the ids of the two leading groups |
| `Connector.Connector.RequestFinished` | tierkv/connectors/vllm/connector.py:295-372 | True iff some known block is not stored; then exactly the specs of those blocks wait for the metadata, all their records are pending, and the call is the protocol's step |
| `Connector.Connector.BuildConnectorMeta` | tierkv/connectors/vllm/connector.py:390-392 | every waiting plan moves into the metadata, none stays behind, and the call is the protocol's step |
| `Connector.Connector.GetFinished` | tierkv/connectors/vllm/connector.py:713-731 | hands out all finished requests once, `None` when there is none, and the call is the protocol's step |
| `Connector.Connector.FailSpecs` | tierkv/connectors/vllm/connector.py:454-458 | without caches every block of the plan is marked failed |
| `Connector.Connector.GatherSpecs` | tierkv/connectors/vllm/connector.py:463-521 | reads each block out of the caches into the specified map and marks every block it has no bytes for as failed |
| `Connector.Connector.RebuildRecords` | tierkv/connectors/vllm/connector.py:523-548 | fresh pending records without key or payload hash, for the blocks that were read, in the order of the plan |
| `Connector.Connector.StoreSpecs` | tierkv/connectors/vllm/connector.py:523-561 | all blocks are settled once the rebuilt records are stored |
| `Connector.Connector.WorkerExecuteStore` | tierkv/connectors/vllm/connector.py:427-561 | with caches every block of the plan ends up failed, or stored under a key that leads to the bytes read from the caches, and the request is finished; without caches all are failed and it is not |
| `RestoreBuffers.DecodeInto` | tierkv-core/src/turbo_quant.rs:78-101 | writes the decoding to the front of the buffer iff there is one and it fits |
| `RestoreBuffers.RestoreHandler.constructor` | tierkv/connectors/vllm/restore_handler.py:74-85 | 40 separate pool buffers with quantisation, none without |
| `RestoreBuffers.RestoreHandler.AssignPool` | tierkv/connectors/vllm/restore_handler.py:195-202 | a pool buffer is handed out once and never again; none when the pool is used up or the block is not quantised |
| `RestoreBuffers.RestoreHandler.IdxIsCount` | tierkv/connectors/vllm/restore_handler.py:195-202 | the number of pool buffers gone is the number of blocks decoded, up to the size of the pool |
| `RestoreBuffers.RestoreHandler.OversizedNeedsEmptyPool` | tierkv/connectors/vllm/restore_handler.py:130-145 | a block that decodes to more than a pool buffer holds raises as long as the pool lasts and is restored once it is used up |
| `RestoreBuffers.RestoreHandler.DecodeOne` | tierkv/connectors/vllm/restore_handler.py:110-145 | succeeds iff the payload has its hash and, when it is to be decoded, decodes and fits the buffer it was given; then the tensor is the decoding |
| `RestoreBuffers.RestoreHandler.RestoreOne` | tierkv/connectors/vllm/restore_handler.py:191-208 | succeeds iff the block can be restored with the buffer it is due; that is a buffer nobody has, and all earlier results keep their bytes |
| `RestoreBuffers.RestoreHandler.Execute` | tierkv/connectors/vllm/restore_handler.py:147-215 | succeeds iff each block that came back with a payload can be restored, and then restores exactly those, in order, with earlier results of this and other calls intact |
| `RestoreBuffers.RestoreHandler.ExecuteMany` | tierkv/connectors/vllm/restore_handler.py:147-215 | over any sequence of calls, beyond the 40th buffer too: which calls succeed is exactly determined, the successful ones restore their blocks, no two results share a buffer, and all keep their bytes |
| `Restores.KeyLeadsHome` | tierkv-core/src/residual_sync.rs:323-329 | a block found under a key made for a hash was stored under that hash |
| `Protocol.StepKeepsInv` | tierkv/connectors/vllm/request_handler.py:158-189 | every step of every task keeps keys, index, vault contents and fetches consistent with what was ever stored |
| `Protocol.RunsKeepInv` | tierkv/connectors/vllm/restore_handler.py:147-215 | and so does every interleaving of registration, stores, expiry, removal, eviction and restores |
| `RegistrySteps.Register` | tierkv/connectors/vllm/block_registry.py:45-49 | registering a new record is the protocol's step on what the registry's objects show |
| `RegistrySteps.Mark` | tierkv/connectors/vllm/block_registry.py:51-61 | so are `mark_stored` and `mark_failed` |
| `RegistrySteps.UpdateVaultKey` | tierkv/connectors/vllm/block_registry.py:96-103 | so is giving a record another key |
| `RegistrySteps.Remove` | tierkv/connectors/vllm/block_registry.py:90-94 | so is removing one |
| `RegistrySteps.Expire` | tierkv/connectors/vllm/block_registry.py:123-137 | so is expiring the overdue pending ones |
| `RegistrySteps.LookUp` | tierkv/connectors/vllm/block_registry.py:75-80 | looking a key up answers the object the protocol's lookup names |
| `RegistrySteps.LookUpStored` | tierkv/connectors/vllm/block_registry.py:63-67 | a stored lookup answers iff the protocol calls the block stored, and then its object |
| `Restores.EntriesExactly` | tierkv/connectors/vllm/restore_handler.py:187-213 | exactly the positions answered with a payload have an entry, and it is that payload decoded under that record's hash |
| `Restores.RestoredIsGenuine` | tierkv/connectors/vllm/restore_handler.py:161-215 | in every interleaving whatever a restore returns for a hash is the decoding of a payload once stored under that hash |
| `Restores.RestoredExactly` | tierkv/connectors/vllm/restore_handler.py:147-215 | in every interleaving, for every finished restore: a block has an entry iff some planned position for it was found at its lookup and its record's key was held with a payload at the fetch |
| `Restores.PlannedExactly` | tierkv/connectors/vllm/connector.py:402-419 | for a plan without repeats, position by position: absent iff its key was unknown at the lookup, or the key its record had when the fetch was prepared was not held with a payload |
| `Restores.UnwrittenBlocks` | tierkv/connectors/vllm/connector.py:618-634 | the physical blocks of a plan left unwritten are exactly those of the positions that do not come back |
| `Restores.ForgottenIff` | tierkv/connectors/vllm/block_registry.py:90-103 | a step makes a known key unknown iff it removes the block's record or gives it another key |
| `Restores.KeySurvives` | tierkv/connectors/vllm/block_registry.py:90-103 | over any stretch of a run a known key stays known unless such a step occurs in it |
| `Restores.RunsKeepIndexed` | tierkv/connectors/vllm/block_registry.py:45-103 | in every interleaving each key of a registered record is in the index |
| `Restores.FoundUnlessRekeyedOrRemoved` | tierkv/connectors/vllm/connector.py:385-413 | the key a registered record has when the metadata is built leads to that block at the lookup, unless it was re-keyed or removed in between |
| `Restores.RekeyedBlockIsMissing` | tierkv/connectors/vllm/connector.py:402-413 | a run in which a planned block, stored, registered and held under both its keys, gets no entry because a second store re-keyed it in between |
| `RestoreTimes.TimesOf` | tierkv/connectors/vllm/connector.py:374-419 | in every run each restore has one point for its metadata, one for each of its lookups, one for the start of its fetch and one for each vault, in this order, and goes by the state at these points |
| `RestoreTimes.ComesBackIff` | tierkv/connectors/vllm/connector.py:374-419 | so for every run, finished restore and planned position: it comes back iff the key its record had at the metadata was known at its own lookup, and the key the found record had at the start of the fetch was held with a payload when the vault was asked |
| `RestoreTimes.ComesBackUnless` | tierkv/connectors/vllm/connector.py:385-419 | it comes back unless its record was no longer registered with a key at the metadata, or a step between that and its own lookup re-keyed or removed the block, or the record found was not held |
| `RestoreTimes.EntriesCarry` | tierkv/connectors/vllm/restore_handler.py:147-215 | the entries of a restore carry exactly the tokens of the positions that came back |
| `RestoreTimes.ReportedTokensBalance` | tierkv/connectors/vllm/connector.py:198-202 | the tokens reported as matched are those of the entries and those of the positions that do not come back; the entries carry all of them iff every planned block with tokens comes back |
| `RegistrySteps.ReportedTokens` | tierkv/connectors/vllm/restore_handler.py:100-108 | the total `RestoreHandler.plan` reports is the total of the protocol's plan |
| `Restores.SplitKeepsAll` | tierkv/connectors/vllm/restore_handler.py:162-169 | the two lists of the split together are the records, with multiplicity |
| `Restores.SplitKeepsOrder` | tierkv/connectors/vllm/restore_handler.py:162-169 | and each list is in the order of the whole |
| `Restores.ShippedKeyFindsItsBlock` | tierkv/connectors/vllm/block_registry.py:75-103 | a key made for a block leads the lookup back to that block or nowhere |
| `Restores.VaultStoreIsShipThenEvict` | tierkv-core/src/residual_sync.rs:318-348 | the vault of the protocol is the one above: its store is a store step and one eviction step |
| `Restores.RebuiltRecordsCarryNoHash` | tierkv/connectors/vllm/connector.py:536-548 | when all stores go through rebuilt records, no registered record ever has a payload hash and no restore ever reports a mismatch |

## Left out

- Networking: gRPC channels and servers, the tokio runtime, warm-up and message-size limits. An RPC is one step
  on the vault, a fire-and-forget store is a message that may be delayed, reordered or lost.
- Floating point: floats are reals, so IEEE rounding, NaN, infinities, bf16 and the exact bytes of a float are not modelled. The four bytes
  of a float are four abstract cells that name its value; four bytes that are not one float read as zero.
- SHA-256 is an uninterpreted function.
- Flushes that race with stores: a flush happens when no store is in progress, because it clears map, queue and counter
  in separate statements.
- ExoTasks.RunsEvictIff: limit and bytes in flight together fit a 64-bit word, and a key is stored only while not held and always at one
  size. The addition at `residual_sync.rs:131` wraps, as in a release build.
- ExoTasks.QuiescentIsExact: stores and promotions are interleaved, flushes are not; queueing, adding and reading the
  counter under the order lock are one step, and so are eviction and a promotion.
- Integer widths: token counts, sizes and key counters are unbounded, except the EXO byte counter, which wraps at 2^64.
- `update_state_after_alloc` for a request with tokens already computed, where the plan is indexed from 0.
- SQLite errors and rollback, WAL, the two-second wait, the five-second join and `atexit`: batches commit and the drain finishes.
- WriteBehind.WriteLoop: an operation carries its row. In the source the queue carries the record, which may change before
  the batch is drained (`request_handler.py:190-191`); `Persistence` models that, with one batch read and committed in one step.
- Persistence.RestartIsSubmapOfStoredIff: versions of one block's records are taken to be different rows, as each new vault key makes them; without
  that, a changed record could have its old row again by coincidence. Read-only worker processes, which load and never write, are left out.
- RestoreTimes.ReportedTokensBalance: for records found with as many tokens as the planned ones; a block registered again may have
  another number. Entries are counted by position, where the source keeps the last one of a repeated hash.
- WriteBehind.LoadFromDb: a missing database file or table, which leaves the registry empty, is not modelled.
- GpuDevice.ScatterCaches: no two planes share storage; dtype conversion is the identity; caches of other shapes, which both loops pass over, are `Absent`.
- TurboQuantLoops.DecodeGroupedInto: a worker's unit of work is one float, which is finer than the thread pool's groups; the SIMD cast is not modelled.
- Protobuf.StoreRequestRoundTrip: strings are their UTF-8 bytes; invalid UTF-8 in a response and negative varints are not modelled.
- RestoreBuffers.RestoreHandler.Execute: blocks are decoded one after the other, where the source uses four threads on disjoint buffers; the
  result is a list in fetch order, where the source has a dictionary.
- StoreHandler.StoreHandler.StoreAll: store callbacks, logging and byte sizes on the record are left out, and the free callback is in `Connector`.
- HotTier.HotTier.Insert: calls are one at a time, as callers hold the GIL; the window between the map and queue updates is not interleaved.
- Protocol.RunsKeepInv: the two lists of keys, in the metadata and of a fetch, are each read in one step. The source does not start a
  restore none of whose keys is known; here it ends without entries.
- Restores.FoundUnlessRekeyedOrRemoved: the converse over a whole run, as a key of the other vault may equal the forgotten one;
  for single steps `ForgottenIff` has both directions.
- Connector.Connector.WorkerExecuteStore: runs as one call, where the source hands the stores to an executor; the interleaving is in `Ownership`.
  The steps `RequestFinished`, `BuildMeta`, `Free` and `GetFinished` are matched step by step, the marks by their effect on the records.
- RegistrySteps.Mark: registry calls are one at a time under the registry's lock.
- Registry.RegisterPending: context ids, positions and vault node names on records are left out.
- Bodies of long source functions are split into helper methods (an eviction loop, one round of a loop, the branch for one kind of cache); iteration
  order of dictionaries does not matter to what is proved.
- `tierkv/exo/hook.py`, the command line, configuration, smoke scripts, the context tracker and hit statistics: plumbing and counters.
