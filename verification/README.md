# A verified model of the two-tier cache

This project models the stateful kernels of the cache and proves what they promise, in Dafny 4.11.

* **Region authority.** `RegionManager` moves each Region through Free, Active, Sealed and Reclaiming, and
  runs one append pipeline per shard: tail reservation, open span, padding, submitted span, completed
  prefix. `Regions` states every operation as a function from one state to the next. `Pipelines`,
  `Authority` and `Lifecycle` prove the invariant, `Effects` when each operation succeeds and what it then
  does; `Runs`, `Receipts`, `Flush` and `Ledgers` prove what holds over every run; `Managers` is the class with the source's fields, each method proved equal to its
  function. `IndexLayout`, `Metadatas`, `Recovery` and `WarmCycles` cover recovery and freezing.
* **Region store.** `Stores` is the protocol around the manager: staging, sealing, landing, publication,
  rotation, deletion, reclaim scan and reinsertion as interleaved atomic steps over an abstract point index
  (a map from index token to location). `StoreSafety`, `StoreSteps`, `StoreCycle` and `StoreReclaim` prove
  its invariant, `StoreRuns` what it guarantees over every interleaving. `StoreEffects` states the exact effect
  of each step; `StoreOrigins` traces every record and mapping to the put it came from, and shows that puts,
  rotations, reclaims and reinsertions complete.
* **L1.** `Directory` is the fixed open-addressing map. `Lists`, `Policies`, `GhostQueues` and `Eviction`
  are the CLOCK and S3-FIFO policies; `EvictionStates` is the one a shard is configured with, and `Notes`
  what it knows about each resident. `Tables`, `Clearings`, `Charges`, `Shards`, `Admission` and `Memory` are
  the shard: collision chains and their directory, byte accounting, transactional admission over the real
  policy, and publication. `L1` states what every history of requests and released handles guarantees;
  `Crowds` and `Rejections` are two histories with a surprising end.
* **Fill control.** `FillControl` is the packed token bucket under any interleaving of loads and
  compare-exchanges; `Fences` is the pause and recovery fence of background I/O.

`Machine`, `Bits`, `Collect` and `Sums` hold shared integers, bit operations, multisets and sums.

Large invariants are written as sets of states indexed by a facet (`States`, `Facets`, `Tabled`, `Lawful`,
`Shares`, `Ghosts`), quantified with the membership itself as trigger. A proof opens a facet by mentioning it,
and is otherwise not disturbed by it. Where there is only one facet its index is `Machine.Veil`.

## What was found

* **The L1 directory preflight is not stable.** `MemoryShard::insert` checks `can_upsert`, then evicts, then
  inserts with `expect`. A preflight that found a free slot in the probe window survives any number of
  removals. One that succeeded only because the fingerprint was already there need not: removing that entry
  may refill the hole from beyond the window. `Directory.PreflightExact` gives the exact condition, and
  `Memory.MemoryShard.Insert` carries it to the shard: an insertion poisons it exactly when the directory,
  after the replaced and evicted entries have left it one by one (`Clearings.Cleared`), has no place for the
  fingerprint. For the replacement of the only entry with its fingerprint, with bytes to spare, that is
  exactly when its window was full and the final hole leaves it. `Directory.CrowdTable` reaches such a table of
  130 slots by 65 insertions, and `Crowds.ReplacementPoisons` leads a whole shard into it with 65 different
  keys, under either policy.
* **A rejected admission is not without effect on the policy.** Table, directory, free list, bytes, ledger
  and history come back exactly, and the policy tracks the same residents. The selections that looked for
  victims have spent second chances and moved residents to the main queue (`Admission.Undone`,
  `Notes.Milder`); a detached victim returns with the queue and frequency it had when detached, under CLOCK
  with its visited bit set. `Rejections.PassedBy` is a shard whose only resident loses its visited bit to an
  admission that finds nobody. Such a search in vain changes nothing exactly when it passes nobody visited
  (CLOCK, `Policies.SweepUnmoved`), or when it finds no small queue and meets only spent residents
  (S3-FIFO, `Policies.SelectUnmoved`, which also covers a search of a single look).
* **Clean metadata may carry an unaligned Active Region.** `RegionMetadata::validate` asks for 32-byte
  offsets. `WarmCycles.UnalignedImageAccepted` is such an image, with one index page and one partition;
  `WarmCycles.FirstFlush` shows that the first flush after recovery succeeds exactly when the Active Region
  ends on a 4096-byte boundary. Images written by the program itself are always aligned
  (`WarmCycles.WarmCycle`).
* **Freezing and validation.** A frozen manager's image is accepted exactly when its index side is accepted,
  every Region holds at least 64 bytes per record and no Region has bytes without records
  (`Metadatas.FreezeValid`); encoded records always meet the latter two.
* **Slot clamp.** The L1 entry count is clamped to 2^32 - 1, so its last slot index may be 2^32 - 2, the
  directory's tombstone value. An accepted write is found again exactly if its value is below that
  (`Directory.StoredExactly`), so every slot index of an n-entry shard can be stored exactly when
  n <= 2^32 - 2 (`Directory.IndicesStorable`), and the clamp lets n = 2^32 - 1 through
  (`Memory.ClampAdmitsTombstone`).

* **A restarted attempt may not pause again.** `BackgroundIoAttempt::start` replaces the observation but keeps
  the attempt's `slow` flag, so an attempt that is restarted while slow no longer holds the pause, and noting
  slowness again does not take it back (`Fences.NotePauses`, with the exact condition).

## Model

| member | source | states |
|---|---|---|
| `Directory.FixedPrehashedMap.Get` | cache2/src/hashing.rs:68-85 | the bounded probe finds exactly the fingerprints of the plain map |
| `Directory.FixedPrehashedMap.FindUpsertSlot` | cache2/src/hashing.rs:150-171 | succeeds exactly when the fingerprint is present or its window holds a slot that is not live |
| `Directory.FixedPrehashedMap.Insert` | cache2/src/hashing.rs:91-99 | updates the plain map, returns the previous owner, refuses only a new fingerprint whose whole window is live |
| `Directory.FixedPrehashedMap.Remove` | cache2/src/hashing.rs:101-125 | removes exactly one fingerprint from the plain map and makes no slot live |
| `Directory.FixedPrehashedMap.CompactDeleted` | cache2/src/hashing.rs:127-148 | the loop performs the bounded backward shift |
| `Directory.CompactKeeps` | cache2/src/hashing.rs:127-148 | compaction neither hides nor duplicates a live entry, from any settled hole |
| `Directory.RemoveRefines` | cache2/src/hashing.rs:101-148 | removal with compaction is removal in the plain map |
| `Directory.RemoveFootprint` | cache2/src/hashing.rs:127-148 | exactly one slot stops being live and at most that one becomes a tombstone; none does when the scan meets an empty slot |
| `Directory.UpsertRefines` | cache2/src/hashing.rs:91-99 | writing the accepted slot is an update of the plain map |
| `Directory.Replay` | cache2/src/hashing.rs:68-171 | every operation sequence on a fresh table answers as a plain map would |
| `Directory.PreflightSurvivesOthers` | cache2/src/memory/mod.rs:399-407 | removing other fingerprints keeps a successful preflight |
| `Directory.PreflightExact` | cache2/src/memory/mod.rs:705-711 | after removing the fingerprint itself the preflight holds exactly if the window had a spare slot or the final hole stays inside it |
| `Directory.PreflightSurvivesSmall` | cache2/src/memory/mod.rs:399-407 | tables of at most 64 slots never lose a preflight |
| `Directory.PreflightCanFail` | cache2/src/memory/mod.rs:399-407 | a concrete full window in which removing a fingerprint leaves no slot for it |
| `Directory.CrowdTable` | cache2/src/hashing.rs:91-99 | 65 insertions into a fresh table for 65 entries produce that table |
| `Directory.CrowdRefuses` | cache2/src/hashing.rs:91-125 | removing its first fingerprint and inserting it again is refused |
| `Directory.LockedExact` | cache2/src/memory/mod.rs:399-407 | a listed fingerprint cannot be put back after its removal exactly when its window was full and the final hole left it |
| `Directory.StoredExactly` | cache2/src/hashing.rs:91-99 | an accepted write is found again exactly when the value is below the tombstone; otherwise the fingerprint is absent |
| `Directory.IndicesStorable` | cache2/src/memory/eviction.rs:33 | every slot index of an n-entry shard can be stored exactly when n is at most the tombstone value |
| `Memory.ClampAdmitsTombstone` | cache2/src/memory/mod.rs:866-868 | the clamp admits 2^32 - 1 entries; their last index, written into the fresh directory of that shard or anywhere else it is accepted, leaves the fingerprint absent |
| `Directory.SmallAccepts` | cache2/src/hashing.rs:150-171 | a table of at most 64 slots refuses nobody while it has fewer keys than slots |
| `Directory.SparePreflight` | cache2/src/memory/mod.rs:705-711 | a preflight that found a free slot survives any number of removals |
| `Directory.RouteIsModulo` | cache2/src/hashing.rs:223-231 | masking and dividing routes agree with modulo |
| `Regions.TailPadding` | cache2/src/region/manager.rs:624-625 | negate-and-mask is the distance to the next 4096 boundary |
| `Pipelines.Reserved` | cache2/src/region/manager.rs:453-519 | reserving a tail keeps the tiling |
| `Pipelines.Staged` | cache2/src/region/manager.rs:524-570 | staging extends the open span up to the cursor |
| `Pipelines.Padded` | cache2/src/region/manager.rs:576-654 | padding reaches the next boundary |
| `Pipelines.SubmittedSpan` | cache2/src/region/manager.rs:766-800 | sealing turns open span and padding into one submitted span |
| `Pipelines.Completed` | cache2/src/region/manager.rs:805-842 | completion extends the completed prefix |
| `Authority.ReserveKeeps` | cache2/src/region/manager.rs:453-519 | every reservation attempt keeps the invariant |
| `Authority.StageKeeps` | cache2/src/region/manager.rs:524-570 | the current tail always stages, any other receipt is stale |
| `Authority.PadKeeps` | cache2/src/region/manager.rs:576-654 | padding is refused exactly when the shard is busy or has staged nothing |
| `Authority.SealKeeps` | cache2/src/region/manager.rs:695-716 | an unpadded seal succeeds exactly on an aligned, idle, open span |
| `Authority.SealPaddedKeeps` | cache2/src/region/manager.rs:719-763 | the pending padding receipt always seals, any other is stale |
| `Authority.CompleteKeeps` | cache2/src/region/manager.rs:805-842 | the current submitted span always completes, any other is stale |
| `Authority.RequestKeeps` | cache2/src/region/manager.rs:402-436 | a rotation request keeps the invariant |
| `Authority.AllocateKeeps` | cache2/src/region/manager.rs:441-448 | allocating a sequence number keeps the invariant |
| `Effects.ReserveExact` | cache2/src/region/manager.rs:453-519 | a reservation succeeds exactly for whole record units that fit behind the cursor of an idle shard, hands out the bytes at the cursor under the next number, and on a full Region only asks for a rotation |
| `Effects.AllocateExact` | cache2/src/region/manager.rs:441-448 | numbers are handed out one by one, up to but not including u64::MAX |
| `Effects.RequestExact` | cache2/src/region/manager.rs:402-436 | a rotation is requested exactly if the record would not fit behind the next direct-I/O boundary |
| `Lifecycle.SelectKinds` | cache2/src/region/manager.rs:919-980 | the victim is Free and distinct, so the Invariant branches cannot occur |
| `Lifecycle.BeginRotationKeeps` | cache2/src/region/manager.rs:875-917 | rotation keeps the invariant and never reports Invariant |
| `Lifecycle.FinishRotationKeeps` | cache2/src/region/manager.rs:986-1030 | the rotation in flight always finishes, any other receipt is stale |
| `Lifecycle.BeginReclaimKeeps` | cache2/src/region/manager.rs:1035-1069 | reclaim keeps the invariant and never fails on a valid manager |
| `Lifecycle.FinishReclaimKeeps` | cache2/src/region/manager.rs:1074-1116 | a held pin always finishes within capacity, any other receipt is stale |
| `Lifecycle.ConfigureKeeps` | cache2/src/region/manager.rs:362-373 | reconfiguring reclaim workers keeps the invariant |
| `Effects.BeginExact` | cache2/src/region/manager.rs:875-917 | a rotation begins exactly for a requested, quiescent shard with the oldest Free Region and a number left; the whole new state |
| `Effects.ReclaimExact` | cache2/src/region/manager.rs:1035-1069 | reclaim pins exactly while free plus reclaiming Regions are fewer than the shards, one is Sealed and a worker is left, and takes the oldest Sealed one |
| `Effects.ConfigureExact` | cache2/src/region/manager.rs:362-373 | the worker limit changes exactly while nothing is being reclaimed, to between one and the number of shards |
| `Effects.ReclaimedInOrder` | cache2/src/region/manager.rs:986-1069 | over every run Regions are reclaimed in the order in which they were sealed |
| `Effects.ActivatedInOrder` | cache2/src/region/manager.rs:875-1116 | over every run Regions are activated in the order in which they were freed |
| `Lifecycle.OwnerCount` | cache2/src/region/manager.rs:237-247 | the owners of all kinds count every Region once |
| `Runs.RunKeeps` | cache2/src/region/manager.rs:402-1116 | every run of operations stays valid |
| `Runs.OwnershipPartition` | cache2/src/region/manager.rs:875-1116 | each Region has exactly one owner and its state says which kind |
| `Runs.ReserveBounded` | cache2/src/region/manager.rs:237-247 | free plus reclaiming never exceeds the capacity reserved at recovery |
| `Receipts.AcceptSpends` | cache2/src/region/manager.rs:524-570 | accepting a receipt spends it |
| `Receipts.AcceptedOnce` | cache2/src/region/manager.rs:719-1116 | after acceptance no continuation accepts the receipt again |
| `Receipts.SpanGeneration` | cache2/src/region/manager.rs:805-842 | a span of one generation never completes in another |
| `Receipts.PaddingGeneration` | cache2/src/region/manager.rs:719-763 | a padding receipt of one generation never seals in another |
| `Receipts.NamedGeneration` | cache2/src/region/manager.rs:986-1116 | the other receipts are accepted only while their generation is current |
| `Receipts.IssuedIncrease` | cache2/src/region/manager.rs:441-448 | issued sequence numbers strictly increase and never reach u64::MAX |
| `Flush.Tiling` | cache2/src/region/manager.rs:453-842 | in every reachable state prefix, submitted, open and tail or padding are contiguous up to the cursor, within the Region |
| `Flush.SubmittedPasses` | cache2/src/region/appender.rs:206-246 | every submitted span passes the submit check and lands in its own extent |
| `Flush.FlushCompletes` | cache2/src/region/manager.rs:576-842 | a shard with no tail or rotation pending flushes completely |
| `Flush.PreflightExact` | cache2/src/region/manager.rs:402-436 | the rotation preflight is true exactly when the record would hit RegionFull after a complete flush, and reserves nothing |
| `Flush.RequestLasts` | cache2/src/region/manager.rs:486-500 | over every run a request lasts until the first rotation of its shard, and exactly that rotation ends it |
| `Flush.RotationNeedsRequest` | cache2/src/region/manager.rs:919-934 | no rotation starts unrequested, and starting consumes the request |
| `Ledgers.RunBalanced` | cache2/src/region/manager.rs:453-842 | completed spans tile the prefix with aligned ends, and every staged record is counted once |
| `Ledgers.LedgerBalances` | cache2/src/region/manager.rs:453-842 | the same from any valid state with an opening balance |
| `Managers.RegionManager.Reserve` | cache2/src/region/manager.rs:453-519 | the method is the specified transition and keeps the invariant |
| `Managers.RegionManager.Stage` | cache2/src/region/manager.rs:524-570 | the method is the specified transition and keeps the invariant |
| `Managers.RegionManager.ReservePadding` | cache2/src/region/manager.rs:576-654 | the method is the specified transition and keeps the invariant |
| `Managers.RegionManager.Seal` | cache2/src/region/manager.rs:695-716 | the method is the specified transition and keeps the invariant |
| `Managers.RegionManager.SealPadded` | cache2/src/region/manager.rs:719-763 | the method is the specified transition and keeps the invariant |
| `Managers.RegionManager.Submit` | cache2/src/region/manager.rs:766-800 | the method is the specified transition, and keeps the invariant and succeeds wherever the seal operations call it |
| `Managers.RegionManager.Complete` | cache2/src/region/manager.rs:805-842 | the method is the specified transition and keeps the invariant |
| `Managers.RegionManager.RequestRotation` | cache2/src/region/manager.rs:402-436 | the method is the specified transition and keeps the invariant |
| `Managers.RegionManager.RotationCandidate` | cache2/src/region/manager.rs:848-853 | a candidate exists exactly when the shard asked for rotation, is quiescent and a Free Region is left, and is the oldest Free Region |
| `Managers.RegionManager.Begin` | cache2/src/region/manager.rs:875-917 | the method is the specified transition and keeps the invariant |
| `Managers.RegionManager.Finish` | cache2/src/region/manager.rs:986-1030 | the method is the specified transition and keeps the invariant |
| `Managers.RegionManager.BeginReclaiming` | cache2/src/region/manager.rs:1035-1069 | the method is the specified transition and keeps the invariant |
| `Managers.RegionManager.FinishReclaiming` | cache2/src/region/manager.rs:1074-1116 | the method is the specified transition and keeps the invariant |
| `Managers.RegionManager.ConfigureWorkers` | cache2/src/region/manager.rs:362-373 | the method is the specified transition and keeps the invariant |
| `Managers.RegionManager.Allocate` | cache2/src/region/manager.rs:441-448 | the method is the specified transition and keeps the invariant |
| `Metadatas.RecoverValid` | cache2/src/region/manager.rs:218-303 | recovering a valid, aligned image yields a valid manager |
| `Metadatas.RecoveredQueue` | cache2/src/region/manager.rs:1243-1265 | each recovered queue holds exactly the Regions of its state |
| `Metadatas.RecoverThenFreeze` | cache2/src/region/manager.rs:1121-1184 | recover then freeze gives the image back |
| `Metadatas.FreezeThenRecover` | cache2/src/region/manager.rs:218-303 | freeze then recover restores descriptors, queue orders and the next sequence number |
| `IndexLayout.CanonicalTotals` | cache2/src/region/index/storage/mod.rs:155-209 | the canonical partition ranges add up to exactly all index pages and slots |
| `IndexLayout.CountMaximal` | cache2/src/region/index/storage/mod.rs:155-168 | the partition count is the greatest power of two, within the pages and 4096, that leaves the last partition four buckets |
| `IndexLayout.RangesTile` | cache2/src/region/index/storage/mod.rs:169-209 | the ranges follow each other from the first page and slot to the last without a gap |
| `IndexLayout.RangesUsable` | cache2/src/region/index/storage/mod.rs:169-209 | every range has at least four buckets, so the InvalidArgument branch cannot occur; page counts differ by at most one, the larger last |
| `Metadatas.FreezeValid` | cache2/src/region/recovery/metadata.rs:577-735 | the exact condition under which a frozen image is accepted, root, Regions and partitions |
| `Metadatas.QuietRegion` | cache2/src/region/manager.rs:1121-1140 | in a quiet manager every Region is queued and fully completed |
| `Recovery.InstallRecovered` | cache2/src/region/manager.rs:1243-1265 | installing every Region at its ordinal cannot fail on valid metadata |
| `Recovery.FromMetadata` | cache2/src/region/manager.rs:218-303 | succeeds exactly on valid metadata |
| `Recovery.InstallLiveQueue` | cache2/src/region/manager.rs:1267-1292 | numbers one live queue in order |
| `Recovery.FreezeMetadata` | cache2/src/region/manager.rs:1121-1221 | succeeds exactly when nothing is outstanding and the totals and counts fit, and then yields the frozen image |
| `Recovery.FreezeQueueOrdinals` | cache2/src/region/manager.rs:1186-1215 | numbers the Active, Free and Sealed queues of a quiet manager in order, without a clash |
| `Recovery.PartitionTotals` | cache2/src/region/manager.rs:1223-1241 | checked sums of the partition columns |
| `WarmCycles.WarmCycle` | cache2/src/region/manager.rs:218-1184 | recover, run any encoded operations, freeze: the new image is accepted, aligned, and recovers the same authority |
| `WarmCycles.FirstFlush` | cache2/src/region/manager.rs:576-654 | the first flush after recovery succeeds exactly when the recovered Active Region is aligned |
| `WarmCycles.UnalignedImageAccepted` | cache2/src/region/recovery/metadata.rs:639-691 | an accepted image whose Active Region is not aligned |
| `StoreRuns.Opened` | cache2/src/region/mod.rs:318-368 | a store opened from recovery satisfies the invariant |
| `StoreSteps.StageStep` | cache2/src/region/mod.rs:904-1025 | staging a value or a replacement keeps the invariant, whatever the store answers |
| `StoreSteps.SealStep` | cache2/src/region/mod.rs:1097-1165 | padding and sealing keep the staged records tiling the span |
| `StoreSteps.LandStep` | cache2/src/region/mod.rs:1197-1211 | completion appends exactly the records in flight to the written prefix |
| `StoreCycle.PublishStep` | cache2/src/region/mod.rs:1284-1297 | publishing one record keeps the invariant |
| `StoreCycle.RotateStep` | cache2/src/region/mod.rs:1227-1257 | beginning a rotation keeps the invariant |
| `StoreCycle.StoreGeneration` | cache2/src/region/mod.rs:1257-1267 | storing the activated generation keeps the table current |
| `StoreCycle.EndRotation` | cache2/src/region/mod.rs:1269-1279 | finishing a rotation keeps the invariant |
| `StoreReclaim.PrepareStep` | cache2/src/region/mod.rs:543-551 | classifying the record under the scan keeps the invariant |
| `StoreReclaim.OfferStep` | cache2/src/region/mod.rs:552-596 | offering a hot record once keeps the invariant, accepted or not |
| `StoreReclaim.DropStep` | cache2/src/region/mod.rs:597-606 | a record not reinserted loses its mapping |
| `StoreReclaim.ReleasedUnnamed` | cache2/src/region/mod.rs:621-639 | nothing in the index names a released source |
| `StoreEffects.PutExact` | cache2/src/region/mod.rs:904-1025 | a put adds one last record of exactly its hash and length at the cursor and generation of the Active Region, exactly if an idle shard has that room left, and otherwise changes no lane |
| `StoreEffects.SealExact` | cache2/src/region/mod.rs:1097-1165 | a seal takes everything staged into flight; only the last record grows, to the block boundary |
| `StoreEffects.LandExact` | cache2/src/region/mod.rs:1197-1211 | a completed write appends exactly the records in flight to their Region |
| `StoreEffects.PublishExact` | cache2/src/region/mod.rs:1284-1297 | publication takes the first completed record off its lane and touches nothing but the index |
| `StoreEffects.DeleteExact` | cache2/src/region/mod.rs:1030-1054 | a deletion removes the mapping of its token and nothing else |
| `StoreEffects.DeletedStaysAbsent` | cache2/src/region/mod.rs:1030-1054 | after a deletion the token is absent through every run in which no value of it is published |
| `StoreEffects.RotateExact` | cache2/src/region/mod.rs:1227-1257 | a rotation begins exactly when it can, with the oldest Free Region in a new generation |
| `StoreEffects.GenerationExact` | cache2/src/region/mod.rs:1257-1267 | the entry of the activated Region becomes its new generation |
| `StoreEffects.RetireExact` | cache2/src/region/mod.rs:1269-1279 | the retired Region is last in the Sealed queue |
| `StoreEffects.PinExact` | cache2/src/region/mod.rs:467-487 | a worker pins the oldest Sealed Region exactly while the reserve is short, and starts with its budget at the first record |
| `StoreEffects.PrepareExact` | cache2/src/region/mod.rs:543-551 | the scan moves on exactly unless the record is hot and still mapped |
| `StoreEffects.OfferExact` | cache2/src/region/mod.rs:552-596 | an offer is accepted exactly if the shard has room, stages one copy that names what it replaces, and pays for it; a refusal unmaps the record and ends reinsertion for the source |
| `StoreEffects.DropExact` | cache2/src/region/mod.rs:597-606 | a dropped record is unmapped and the scan moves on |
| `StoreEffects.ReleaseExact` | cache2/src/region/mod.rs:621-639 | releasing a source withdraws its generation entry |
| `StoreEffects.FreeExact` | cache2/src/region/mod.rs:621-639 | a released source is the newest Free Region, empty |
| `StoreOrigins.RecordOrigin` | cache2/src/region/mod.rs:904-1025 | over every run, every value record staged or on disk was there before or staged by a put of its hash, every copy by an offer of a record with its hash |
| `StoreOrigins.HashOrigin` | cache2/src/region/mod.rs:904-1297 | no hash appears that was not put, however often its record is copied |
| `StoreOrigins.MappingOrigin` | cache2/src/region/mod.rs:1284-1297 | every mapping is that of a hash that was put |
| `StoreOrigins.PutReadable` | cache2/src/region/mod.rs:862-1297 | a put that is taken and flushed is readable: its token names a record of its hash on disk in the generation a reader loads, and no other key is affected |
| `StoreOrigins.RotationCompletes` | cache2/src/region/mod.rs:1227-1279 | a requested rotation of an idle shard completes, with the oldest Free Region Active in a generation that readers can load |
| `StoreOrigins.ReclaimCompletes` | cache2/src/region/mod.rs:467-639 | a pinned source that is scanned cold is released and becomes the newest Free Region, empty and unnamed |
| `StoreOrigins.HotSurvives` | cache2/src/region/mod.rs:543-596 | a hot record offered to a shard with room is named at its copy in another Region |
| `StoreRuns.SoundStep` | cache2/src/region/mod.rs:467-1297 | every step of the protocol keeps the invariant |
| `StoreRuns.SoundRun` | cache2/src/region/mod.rs:467-1297 | every interleaving keeps the invariant |
| `StoreRuns.MappingSafe` | cache2/src/region/mod.rs:1197-1297 | every mapping names a whole record of its token, in the current generation, within the completed prefix of a Region that is not Free |
| `StoreRuns.FreedUnnamed` | cache2/src/region/mod.rs:621-639 | when a Region becomes Free no mapping names it and its generation entry is 0 |
| `StoreRuns.GenerationCurrent` | cache2/src/region/mod.rs:623-639 | a generation entry is 0 or the Region's current generation |
| `StoreRuns.ReadCandidate` | cache2/src/region/mod.rs:692-718 | however many steps lie between the index probe and the generation load, a nonzero generation is that of the record found, which is still on disk, or strictly newer than it, so the header check rejects it |
| `StoreRuns.ReadRecord` | cache2/src/region/mod.rs:692-807 | with any steps also between the load and the device read, a record that passes the identity check at the probed offset is the record the probe found exactly if the loaded generation is that record's |
| `StoreRuns.RunAges` | cache2/src/region/mod.rs:623-639 | over every run a Region either keeps its generation, with the records on disk only growing, or becomes Free, or has a generation newer than every sequence number issued before |
| `StoreRuns.ReinsertExact` | cache2/src/region/mod.rs:1284-1297 | a reinsertion moves only its own mapping, and only from the still pinned location it was copied from |
| `StoreRuns.ValuePublished` | cache2/src/region/mod.rs:1284-1297 | publishing a value makes its token name the completed record |
| `StoreRuns.ScanExact` | cache2/src/region/mod.rs:543-606 | a scan unmaps only the record it looks at, and keeps exactly the hot and accepted ones |
| `StoreRuns.MovedAwayForGood` | cache2/src/region/mod.rs:485-618 | while a source is pinned, a mapping that left one of its records never names that record again |
| `StoreRuns.NoResurrection` | cache2/src/region/mod.rs:1030-1054 | a token that is absent stays absent until a value of that token is published |
| `StoreRuns.ScanCounts` | cache2/src/region/mod.rs:612-618 | a finished scan has seen exactly the records its receipt promises |
| `StoreRuns.ScanRecordValid` | cache2/src/region/mod.rs:488-531 | the scanned record is in bounds, contiguous and of the receipt's generation, so the format errors cannot occur |
| `StoreRuns.SpentRun` | cache2/src/region/mod.rs:591-596 | the spent counter is the sum of the accepted replacements |
| `StoreRuns.BudgetExact` | cache2/src/region/mod.rs:485-487 | the budget is whole records, within one record of an eighth of the source less one block, and zero below that |
| `StoreRuns.ReinsertBounded` | cache2/src/region/mod.rs:485-487 | accepted replacements of one source never exceed its aligned one-eighth budget |
| `FillControl.PackRoundTrip` | cache2/src/io/fill_control.rs:50-58 | packing then unpacking returns both credits |
| `FillControl.UnpackRoundTrip` | cache2/src/io/fill_control.rs:50-58 | unpacking then packing returns the word |
| `FillControl.OpenValid` | cache2/src/io/fill_control.rs:131-182 | an opened controller is full and within its representation |
| `FillControl.FullBucketAdmits` | cache2/src/io/fill_control.rs:328-353 | a full bucket admits a flush of any size |
| `FillControl.TakeMeans` | cache2/src/io/fill_control.rs:329-362 | a flush below the burst pays exactly its size in records and 64-byte units, a larger one what is left; the exact condition under which it waits |
| `FillControl.TakeExact` | cache2/src/io/fill_control.rs:336-374 | a successful exchange takes exactly the charge it returns |
| `FillControl.EarnedBound` | cache2/src/io/fill_control.rs:385-402 | a refill claims at most the rate times its interval, in records and in units |
| `FillControl.EarnedExact` | cache2/src/io/fill_control.rs:385-402 | where the product fits 64 bits, a refill is worth exactly the whole records and whole 64-byte units of the rate over the interval |
| `FillControl.EarnedAtLeast` | cache2/src/io/fill_control.rs:385-402 | the same from below for any interval: a longer one is worth at least what the clock yielded, up to the 64-bit cap |
| `FillControl.OpenExact` | cache2/src/io/fill_control.rs:131-182 | opening succeeds exactly for rates in range and a representable burst, and what the burst is |
| `FillControl.AddExact` | cache2/src/io/fill_control.rs:415-433 | a successful exchange raises each credit to exactly the smaller of burst and sum |
| `FillControl.LoneRefund` | cache2/src/io/fill_control.rs:378-383 | an undisturbed refund returns exactly what was charged, up to the burst |
| `FillControl.LoneRefill` | cache2/src/io/fill_control.rs:385-433 | an undisturbed refill claims the interval and adds exactly what it is worth |
| `FillControl.LoneProgress` | cache2/src/io/fill_control.rs:316-433 | a lone worker that begins a paced flush after the clock has yielded what it needs is admitted |
| `FillControl.EssentialProceeds` | cache2/src/io/fill_control.rs:316-327 | exactly essential work, and all work while nothing is enforced, proceeds without a charge |
| `FillControl.RunBalances` | cache2/src/io/fill_control.rs:316-433 | under any interleaving no refill or refund is dropped: credit, credit on its way and charges balance exactly against claims and refunds, less what exceeded the burst |
| `FillControl.SpillFills` | cache2/src/io/fill_control.rs:415-433 | credit is lost only by an addition that leaves the bucket full |
| `FillControl.AskExact` | cache2/src/io/fill_control.rs:336-374 | a flush waits exactly when the word read does not cover it or its exchange has lost four times; a lost exchange is made again |
| `FillControl.TimeNotBurnt` | cache2/src/io/fill_control.rs:385-413 | over every run the refill clock advances only where credit was claimed, so refills below one record and one unit use up no time |
| `FillControl.CreditBounded` | cache2/src/io/fill_control.rs:415-433 | packed credits never exceed the burst in any reachable state |
| `FillControl.RateBound` | cache2/src/io/fill_control.rs:316-433 | charges by time T are at most burst + rate x T + refunds under any interleaving |
| `FillControl.WindowBound` | cache2/src/io/fill_control.rs:316-433 | the same over any window of a run |
| `Fences.OpenedValid` | cache2/src/io/background.rs:38-44 | a fresh fence counts nothing and has every slot free |
| `Fences.StepKeeps` | cache2/src/io/background.rs:103-174 | every atomic access keeps the three counters and the slot table exact |
| `Fences.FenceCounts` | cache2/src/io/fill_control.rs:193-220 | pause holders equal live slow observations; the recovery count is never below pending, even between paired updates |
| `Fences.OpensExactly` | cache2/src/io/background.rs:158-174 | once all attempts are gone admission is open exactly when not stopped and nothing was dropped unfinished |
| `Fences.CheckExact` | cache2/src/io/fill_control.rs:239-243 | a check is admitted exactly when nothing is enforced or its three reads, any steps apart, found it not stopped, nobody recovering and nobody pausing |
| `Fences.SlowRejects` | cache2/src/io/fill_control.rs:300-313 | while a slow observation lasts every enforcing check rejects |
| `Fences.RecoveryRejects` | cache2/src/io/background.rs:144-174 | from the start of a recovery until its last exchange every enforcing check rejects |
| `Fences.QuietAdmits` | cache2/src/io/fill_control.rs:300-313 | a check that meets nothing raised is admitted |
| `Fences.NotePauses` | cache2/src/io/background.rs:122-130 | noting slowness pauses exactly if the attempt is observed and had not noted it, or holds the pause already |
| `Fences.ClearReleases` | cache2/src/io/background.rs:132-140 | clearing slowness gives exactly its own pause back |
| `Fences.CycleRestores` | cache2/src/io/background.rs:103-174 | an attempt that entered, was slow, recovered and finished leaves the whole fence as it was |
| `Fences.NeverReopens` | cache2/src/io/fill_control.rs:300-313 | after a stop or a dropped recovery every later Adaptive check rejects |
| `Fences.RaisesFence` | cache2/src/io/background.rs:144-156 | exactly stopping and dropping a recovering attempt raise the permanent fence |
| `Fences.SlotsExclusive` | cache2/src/io/fill_control.rs:435-455 | no two live observations share a slot |
| `Lists.PushQueue` | cache2/src/memory/eviction.rs:448-465 | push_back on the links appends to the sequence and to the byte count |
| `Lists.RemoveQueue` | cache2/src/memory/eviction.rs:467-489 | remove takes one member out of the sequence, wherever it is |
| `Lists.MoveQueue` | cache2/src/memory/eviction.rs:491-499 | move_to_back moves one member to the end and keeps every weight |
| `Lists.QueueFrame` | cache2/src/memory/eviction.rs:424-499 | a queue depends only on the links of its own members |
| `Lists.WeightFits` | cache2/src/memory/eviction.rs:464 | the saturating byte counter never saturates |
| `Lists.PolicyQueue.PushBack` | cache2/src/memory/eviction.rs:448-465 | the method performs the specified relinking |
| `Lists.PolicyQueue.Remove` | cache2/src/memory/eviction.rs:467-489 | the method performs the specified relinking |
| `Lists.PolicyQueue.MoveToBack` | cache2/src/memory/eviction.rs:491-499 | the method performs the specified relinking |
| `Policies.SelectKeeps` | cache2/src/memory/eviction.rs:587-637 | selection only rearranges the residents between two disjoint queues; frequencies only fall, and not while in the small queue |
| `Policies.VictimSpent` | cache2/src/memory/eviction.rs:612-634 | a victim is reclaimable, at the head of its queue, with its second chances used up |
| `Policies.FirstVictim` | cache2/src/memory/eviction.rs:598-634 | the first look takes a victim exactly from the small queue, below two hits, while the main queue weighs at most its share, and otherwise from the main queue, at no hits |
| `Policies.VictimQueue` | cache2/src/memory/eviction.rs:596-634 | at whichever look it is found, a main-queue victim means an overweight main queue or no small one, a small-queue victim a main queue within its share or with a spent resident that cannot be reclaimed |
| `Policies.SelectOrdered` | cache2/src/memory/eviction.rs:587-637 | both queues are first in, first out: the small queue loses its oldest residents, every moved resident joins the main queue behind, and each turn round it costs exactly one hit |
| `Policies.SelectProgress` | cache2/src/memory/eviction.rs:587-637 | with everything reclaimable a victim is found within the sum of frequencies plus the small queue's length |
| `Policies.SweepKeeps` | cache2/src/memory/eviction.rs:368-404 | a sweep keeps the residents, sets no bit and returns only reclaimable ones |
| `Policies.ClockExact` | cache2/src/memory/eviction.rs:368-404 | with at most 32 residents and a fresh budget CLOCK finds a victim exactly when one is reclaimable |
| `Policies.SweepExact` | cache2/src/memory/eviction.rs:368-404 | the victim is exactly the reclaimable resident the hand reaches first, visited ones one turn later, if the bounds reach it; the hand stops right behind it |
| `Policies.SweepBits` | cache2/src/memory/eviction.rs:368-404 | a sweep clears exactly the visited bits of the residents within its looks |
| `Policies.SweepUnmoved` | cache2/src/memory/eviction.rs:368-404 | a sweep in vain changes no visited bit exactly when none of the residents within its looks is visited |
| `Policies.SelectUnmoved` | cache2/src/memory/eviction.rs:587-637 | the exact condition under which an S3-FIFO search in vain leaves every queue membership and frequency as it was |
| `GhostQueues.TakeExact` | cache2/src/memory/eviction.rs:735-745 | a hash is taken exactly when it is queued; collisions are no hits; exactly the hint with its fingerprint goes |
| `GhostQueues.TakeKeeps` | cache2/src/memory/eviction.rs:735-745 | taking keeps the history within its bounds |
| `GhostQueues.InsertKeeps` | cache2/src/memory/eviction.rs:747-807 | the history keeps distinct fingerprints, its slots and its byte capacity |
| `GhostQueues.InsertRemembers` | cache2/src/memory/eviction.rs:747-807 | an eviction that fits and that the directory accepts is the newest hint, and the others keep their order |
| `GhostQueues.RoomExact` | cache2/src/memory/eviction.rs:747-779 | an eviction of a recordable weight is recorded exactly when it fits without the oldest hint |
| `GhostQueues.InsertExact` | cache2/src/memory/eviction.rs:747-807 | which hints remain: all but the one with the same fingerprint, and the oldest exactly when no slot or bytes are needed |
| `GhostQueues.GoodHistory` | cache2/src/memory/eviction.rs:664-674 | bytes are the exact sum and queue length plus free count is the slot count |
| `GhostQueues.FoundSlot` | cache2/src/memory/eviction.rs:735-745 | the directory is a bijection onto the queued slots |
| `GhostQueues.GhostQueue.constructor` | cache2/src/memory/eviction.rs:676-716 | a fresh history is empty and valid |
| `GhostQueues.GhostQueue.Take` | cache2/src/memory/eviction.rs:735-745 | the method consumes the specified hint |
| `GhostQueues.GhostQueue.Insert` | cache2/src/memory/eviction.rs:747-807 | the method records the eviction as specified, with the exact answer of the directory after the oldest hint made room; within 64 directory slots it always accepts |
| `GhostQueues.GhostQueue.Put` | cache2/src/memory/eviction.rs:780-807 | a fingerprint is recorded exactly when the directory accepts it |
| `GhostQueues.GhostQueue.RemoveHead` | cache2/src/memory/eviction.rs:809-817 | the oldest hint goes |
| `GhostQueues.GhostQueue.Unlink` | cache2/src/memory/eviction.rs:824-851 | the method performs the specified relinking |
| `Eviction.ClockState.Insert` | cache2/src/memory/eviction.rs:336-347 | appends a resident with its back pointer |
| `Eviction.ClockState.Remove` | cache2/src/memory/eviction.rs:349-366 | swap-remove keeps every back pointer |
| `Eviction.ClockState.SelectVictim` | cache2/src/memory/eviction.rs:368-404 | the loop is the specified sweep |
| `Eviction.S3FifoState.SelectVictim` | cache2/src/memory/eviction.rs:587-637 | the loop over linked queues is the specified selection |
| `Eviction.S3FifoState.Insert` | cache2/src/memory/eviction.rs:539-547 | a remembered hash enters the main queue, any other the small one |
| `Eviction.ResidentHeld` | cache2/src/memory/eviction.rs:549-561 | a resident slot is in the queue its flag names |
| `Eviction.S3FifoState.Detach` | cache2/src/memory/eviction.rs:555-572 | takes a resident out and remembers its queue, frequency and weight |
| `Eviction.S3FifoState.Restore` | cache2/src/memory/eviction.rs:574-585 | puts it back behind its queue |
| `Eviction.S3FifoState.CommitEviction` | cache2/src/memory/eviction.rs:281-291 | only evictions from the small queue are remembered |
| `Eviction.RestoreUndoesDetach` | cache2/src/memory/eviction.rs:555-585 | one S3-FIFO victim regains queue, frequency and weight in the linked queues, and no other slot changes |
| `EvictionStates.SweepEases` | cache2/src/memory/eviction.rs:368-404 | a CLOCK selection only spends visited bits and stops at an unvisited reclaimable resident |
| `EvictionStates.SelectEases` | cache2/src/memory/eviction.rs:587-637 | an S3-FIFO selection leaves every resident tracked, with its hash and weight, never back in the small queue and never with more chances, and stops at a spent reclaimable one |
| `EvictionStates.EvictionState.constructor` | cache2/src/memory/eviction.rs:175-189 | a policy over blank parts of either kind tracks nobody and remembers nothing |
| `EvictionStates.NewPolicy` | cache2/src/memory/eviction.rs:175-189 | builds the configured policy, valid and empty, with a slot per entry |
| `EvictionStates.EvictionState.Insert` | cache2/src/memory/eviction.rs:198-210 | a new entry is tracked without a chance; S3-FIFO consumes a remembered eviction and starts it in the main queue |
| `EvictionStates.EvictionState.RecordHit` | cache2/src/memory/eviction.rs:212-217 | only the note of the hit resident changes: visited, or one more up to three |
| `EvictionStates.EvictionState.Detach` | cache2/src/memory/eviction.rs:232-250 | hands out exactly what the policy knew and tracks everyone else as before |
| `EvictionStates.EvictionState.Restore` | cache2/src/memory/eviction.rs:252-279 | the detached resident is tracked again with its queue and frequency, or visited under CLOCK; the history is untouched |
| `EvictionStates.EvictionState.SelectVictim` | cache2/src/memory/eviction.rs:293-311 | the configured policy's selection: same residents, eased notes, a spent and reclaimable victim; a search in vain changes the notes exactly unless the scene was quiescent |
| `EvictionStates.EvictionState.CommitEviction` | cache2/src/memory/eviction.rs:281-291 | the history remembers exactly the S3-FIFO evictions from the small queue, as the directory answers |
| `Tables.RemovedContents` | cache2/src/memory/mod.rs:461-537 | unlinking takes exactly one key out of the map |
| `Tables.RemovedSound` | cache2/src/memory/mod.rs:461-537 | unlinking keeps chains, coverage and distinct keys |
| `Tables.InsertedSound` | cache2/src/memory/mod.rs:721-739 | linking at the chain head adds exactly one key |
| `Charges.StepBalanced` | cache2/src/memory/mod.rs:87-157 | every step keeps used bytes equal to armed charges plus the charge in hand, within capacity |
| `Charges.ChargesConserved` | cache2/src/memory/mod.rs:87-283 | between admissions used bytes are exactly the armed charges of live allocations |
| `Charges.HeldImmutable` | cache2/src/memory/mod.rs:185-224 | a value held by a caller keeps its bytes and charge, whatever is recycled |
| `Charges.TransferStep` | cache2/src/memory/mod.rs:122-157 | a transfer moves exactly the victims' bytes to the candidate |
| `Shards.EvictedGood` | cache2/src/memory/mod.rs:461-537 | evicting an entry keeps the whole shard consistent |
| `Shards.EvictedContents` | cache2/src/memory/mod.rs:461-537 | an eviction takes exactly its own key out of the shard |
| `Shards.PlacedGood` | cache2/src/memory/mod.rs:714-748 | placing an entry keeps the whole shard consistent |
| `Shards.PlacedContents` | cache2/src/memory/mod.rs:714-748 | placing adds exactly its own key to the shard |
| `Admission.GatherStep` | cache2/src/memory/mod.rs:614-640 | one more selection and detachment keeps the shard consistent, with all notes at most as protected as at the start |
| `Admission.RestoreUndoes` | cache2/src/memory/mod.rs:575-586 | giving back any number of victims undoes the admission: table, free list, bytes and ledger are the same, the policy tracks the same residents, each victim as it was when detached |
| `Admission.UndoneQueued` | cache2/src/memory/mod.rs:575-586 | after a rejection an S3-FIFO resident still in the small queue has exactly its old note, and a returned victim exactly the one it left with |
| `Admission.TransferReady` | cache2/src/memory/mod.rs:643-657 | the transfer is covered by the exclusive victims, and committing them then releases nothing |
| `Admission.ChainShrinks` | cache2/src/memory/mod.rs:461-537 | evictions never lengthen a chain |
| `Memory.MemoryShard.Find` | cache2/src/memory/mod.rs:413-429 | finds a key within eight steps exactly when it is cached |
| `Memory.MemoryShard.HashChainIsFull` | cache2/src/memory/mod.rs:431-448 | true exactly for a chain of eight |
| `Memory.MemoryShard.RemoveSlotAfterPolicy` | cache2/src/memory/mod.rs:461-537 | the method is the specified eviction |
| `Memory.TrackedExactly` | cache2/src/memory/mod.rs:696-748 | between admissions the policy tracks exactly the occupied slots, with their hashes and charges |
| `Memory.MemoryShard.GatherOne` | cache2/src/memory/mod.rs:621-640 | takes exactly the victim of the policy's selection among the exclusively owned residents: tracked, spent and distinct from the earlier ones |
| `Memory.MemoryShard.GatherVictims` | cache2/src/memory/mod.rs:614-640 | gathers at most sixteen distinct, spent, exclusively owned victims within one step budget, counts their bytes exactly, takes none once there are enough, and falls short only after sixteen, without steps left, or when the policy found nobody |
| `Memory.MemoryShard.RestoreVictims` | cache2/src/memory/mod.rs:575-586 | the policy takes every victim back, last one first, and the admission is undone |
| `Memory.MemoryShard.CommitDetached` | cache2/src/memory/mod.rs:562-573 | evicts exactly one detached entry; the history changes only if the eviction is recorded, and then as the policy remembers it |
| `Memory.MemoryShard.CommitAll` | cache2/src/memory/mod.rs:658-667 | committing evicts exactly the list, in table and directory, and releases no charge; each recorded eviction takes the history to exactly what the policy remembers next, the replaced entry leaves it alone |
| `Memory.MemoryShard.ChargeWithRoom` | cache2/src/memory/mod.rs:597-612 | with bytes available at most one slot is vacated and used bytes grow by the charge |
| `Memory.MemoryShard.ChargeWithSlotEviction` | cache2/src/memory/mod.rs:674-694 | the policy's choice, held or not, gives up its slot, or only the policy has moved on |
| `Memory.MemoryShard.ChargeByTransfer` | cache2/src/memory/mod.rs:614-672 | under byte pressure exclusive victims cover the charge with none to spare, or all of them go back |
| `Memory.MemoryShard.ChargeWithEviction` | cache2/src/memory/mod.rs:588-694 | a rejection is undone as above and leaves directory and history alone; a charge evicts at most sixteen, under byte pressure exclusively owned and none too many |
| `Memory.MemoryShard.MakeValue` | cache2/src/memory/mod.rs:185-224 | reuses the victim's buffer exactly if it is exclusive and of the exact size |
| `Memory.MemoryShard.Insert` | cache2/src/memory/mod.rs:696-748 | caches the item and loses at most the evicted keys; a refusal is undone as above and says when it changes no note; among charged insertions with memory to allocate it poisons the shard exactly if the directory left by the listed evictions has no place for the fingerprint, and a lone replacement exactly if the directory is locked for it |
| `Memory.RoomMade` | cache2/src/memory/mod.rs:714-717 | a charged admission always leaves a free slot, so only a failed allocation drops a charged candidate |
| `Clearings.ClearsLone` | cache2/src/memory/mod.rs:461-537 | the last entry with its fingerprint takes it out of the directory |
| `Memory.MemoryShard.Publish` | cache2/src/memory/mod.rs:926-960 | never replaces a value that is at least as new; a newer one that is too large removes the older one, a newer one that fits replaces it unless its insertion is refused, and with room to spare it is always kept |
| `Memory.MemoryShard.Delete` | cache2/src/memory/mod.rs:964-984 | removes the key unless its value is newer |
| `Memory.MemoryShard.Lookup` | cache2/src/memory/mod.rs:986-1013 | returns exactly the cached item, counts the hit with the policy and the allocation, and changes nothing on a miss |
| `Memory.MemoryShard.Promote` | cache2/src/memory/mod.rs:1015-1067 | returns what is cached afterwards, never older than the offer, with a handle for the caller; an offer that fits without eviction is cached |
| `Memory.MemoryShard.Release` | cache2/src/memory/mod.rs:268-275 | dropping a caller's handle changes no resident, and the last owner returns the charge |
| `Crowds.ReplacementPoisons` | cache2/src/memory/mod.rs:696-748 | 65 insertions of different keys and one replacement poison a fresh shard of 65 entries, under either policy |
| `Rejections.PassedBy` | cache2/src/memory/mod.rs:614-647 | an admission under byte pressure is rejected and the only, held resident of a CLOCK shard has lost its visited bit; nothing else changed |
| `L1.Serve` | cache2/src/memory/mod.rs:926-1067 | a best-effort map explains every answer of every sequence of requests, clones and releases, under either policy |
| `L1.HitWasPublished` | cache2/src/memory/mod.rs:986-1013 | a hit returns the exact bytes of an earlier publication of that key |
| `L1.DeletedStaysGone` | cache2/src/memory/mod.rs:964-984 | after a deletion a hit is newer than it or was published after it |
| `L1.SeqnoRises` | cache2/src/memory/mod.rs:926-960 | a resident key's sequence number never falls |
| `L1.PutOutdates` | cache2/src/memory/mod.rs:926-960 | after a publication that was kept, or was newer and too large, a hit is at least as new or was offered later |
| `L1.NewerSurvives` | cache2/src/memory/mod.rs:926-1067 | an older publish, promote or delete never displaces a newer value |

## Left out

- Device I/O, locks, O_DIRECT, io_uring, mmap: a device write is one step that completes; failures latch the store miss-only and end a run.
- Allocation failure and mutex poisoning: only where they decide an outcome (`exhausted` in `Memory.MemoryShard.Insert`, the poisoned shard of `L1.Serve`).
- CRC32C and XXH3: hashes are arbitrary 64-bit inputs, payload validation is not modelled.
- Index page format and its four-candidate buckets: the index is a map from token to location; an upsert may push out at most one other mapping; a location includes its exact length.
- Stores: region/mod.rs as a state machine of atomic steps on values, not as a class; the steps that one shard gate covers (pad and seal, select and begin) are single steps, a deletion numbers itself and removes its mapping in two, and one worker per shard runs seal, land, publish and rotate in order.
- StoreRuns.FreedUnnamed: that accepted replacements are published before the source is released is a guard of the release step, as the reclaim worker waits for the drain.
- Record codec, staging buffers and recovery page encoding: records are (hash, Region, generation, offset, length).
- Recovery.FromMetadata: does not model which validation error is reported first.
- Rebinding append shards (cache2/src/region/recovery/metadata.rs:453-517) and `cancel_reservation`, which is test-only.
- FillControl and Fences: state machines over atomic accesses, not classes; counter widths of the fence are unbounded; the published pressure byte is only logged and left out.
- Lookup lock contention, which turns a hit into a miss without changing the shard.
- Memory.MemoryShard: the free list is a sequence (the same chaining through slots is verified for the ghost queue), the policy slots belong to the policy object, and the array of detached victims is a map. Callers clone and drop handles between requests; inside an admission their drops are covered by Charges only.
- PolicySlot flag bits: fields instead of one byte.
- Tables: shards of at most 2^32 - 2 entries, the exact bound of `Directory.IndicesStorable`.
- Statistics, snapshots, histograms, floating-point estimates, configuration sums, the public wrapper and session code, benchmarks and tooling: they hold no stateful invariant.
