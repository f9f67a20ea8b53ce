# The storage engine of a forked chain

`pop-fork` forks a live chain: it serves the state of the chain at the fork point, lets blocks be built on top,
and answers reads at every block built since. Three layers stack up. The remote layer mirrors an immutable upstream
state through a cache that fills as keys are read and prefixes are scanned. The cache keeps those mirrors beside a
history of local values, each row valid for a range of blocks. The local layer holds the latest write per key in
memory, over that history, over the fork point. A block builder writes the diffs of runtime calls to the local layer
and commits them block by block, and the chain moves its head with an optimistic check.

This project models those layers and proves that they mean something simple: a block reads as the fork-point state
with the diffs of all blocks up to it applied in order.

## How the modules fit together

- `Wrappers`, `ByteStrings`: option and result types; byte strings in lexicographic order.
- `PrefixRange`: the key ranges behind every prefix query.
- `Upstream`: the live chain and the RPC client. A connection may drop at any call; one reconnect and one retry follow.
- `IntervalTable`: `local_keys` and `local_values` as values, one commit and one lookup at a time.
- `ScanRecords`: `storage` and `prefix_scans`, and a state machine of scans that interleave between two awaits.
- `StorageCache`, `RemoteStorage`: the classes over these tables. A transaction applies wholly or not at all.
- `Versioning`: the local layer as a value, the four operations on it, the invariant and what reads mean.
- `Enumeration`, `MetadataHistory`, `Scatter`: listings and pages, metadata versions, the index loops of batch reads.
- `LocalStorage`: the class whose methods are steps of `Versioning`.
- `BlockBuilding`: a build as a function of the runtime. `Blocks`, `BlockBuilder`, `Blockchain`: the objects that do it.
- `BuildHistory`: runs of builds. `HeadProtocol`: concurrent builds.

`SharedState.log` records every write, prefix deletion and injection in order, and `SharedState.working` is the state
at the working block; both are ghost. A key is *clean* when it was only ever written. `LocalStorageLayer.Valid()` is
the invariant; it wraps `Consistent()` in a quantifier so that callers pass it along unopened (`Open` opens it), as `BuildHistory` does with the facts of a build in progress
and of a run (`OpenRun`).

A run of builds in `BuildHistory` is a sequence of ledgers (log, working state, metadata versions) in which each step
is `Recorded`, `Finished` and `Recompiled`, as `Blockchain.BuildBlock` ensures of the ledger before and after.
`Blockchain.BuildBlocks` makes such runs and `Blockchain.ReadBack` reads their blocks; `ListAll` lists keys page by page;
they are what a client does with the calls of the source; reads between two builds leave
the ledger alone, as their `modifies` clauses show. A key is *seeded* when it was injected, if at all, before it was
first written: every key of such a run is.

## Assumptions

- The upstream state of a block is a finite map that does not change. `state_getKeysPaged` returns, in order, at most
  `count` keys with the prefix after the start key.
- The runtime is one deterministic function of its code, the call and the working state. An inherent provider is one of
  the executor's code, the parent block with its metadata, and the working state.
  During a call `next_key` ranges over the fork point (executor.rs:429-465), so for one fork the function may depend on
  that as well; `Enumeration.IterationMeetsWorkingState` says when it sees the keys of the working state. Nothing calls
  `delete_prefix` during a build.
- Block hashes are opaque. `Blocks.LookupsInvert` and `HeadProtocol` assume that no hash occurs twice.
- The local tables are empty when the layer is made, and one build at a time writes to storage.
- `reachable` and `healthy` say that the node answers after a reconnect and that the database accepts writes
  (`Serves()`). Reads and listings then succeed, and a build succeeds exactly when it is `BuildHistory.Buildable`. Without
  them every method may fail, and what it ensures of the state holds all the same.

## Where the code differs from its documentation

- `apply_extrinsic` counts any output that starts with byte 0 as a success (builder.rs:560). A dispatch error inside the
  outer `Ok` therefore keeps its storage changes and its place in the body, although the documentation says that a
  failed dispatch leaves none. The model follows the code (`BlockBuilding.DispatchErrorDropped`).
- `runtime_upgraded` is asked before finalization (blockchain.rs:1235), so `:code` written by finalization alone leaves
  the executor on the old code: `BuildHistory.UpgradeInFinalizationMissed`, and `BuildHistory.ExecutorKeepsUp` for when
  the executor does follow.
- `set_initial` promises visibility at the fork point and for any later fork-local query (local.rs:633-642). At the fork
  point it is kept unless that is block 0 (`Versioning.InjectedAtForkPoint`). Its entries are never committed, so once
  the key is written, earlier blocks read the fork-point value: `Versioning.InjectedThenWritten` has the exact condition.
- `delete_prefix` has no block: it empties past blocks too (`Versioning.DeletePrefixAnswers`), while `get_batch`
  at earlier blocks forgets it (`Enumeration.BatchAgrees`).
- `keys_by_prefix` also lists keys cached as empty. Before the working block it sees neither injected keys nor deleted
  prefixes, although reads do, so on a fork with injected accounts the listing at the head misses those that upstream
  lacks. `Enumeration.ListingAgrees` is the exact condition, `SeededAgrees` and `ErasedAgrees` what it comes to.
- A scan with page size 0 records itself as complete, or stops at an unfinished record and reports success:
  `ScanRecords.PageSizeZero` and `ScanRecords.PageSizeZeroResumed`. Clearing a block under a running scan
  can leave a false record: `ScanRecords.ClearDuringScanLies` and `ScanRecords.ClearBeforeCaching` say when.
- `storage_keys_paged` takes any block numbered above the fork point for a local one, also one only upstream knows;
  `Blockchain.Blockchain.ListedBlock` says exactly when the block listed is the block asked for.

## Model

| member | source | states |
|---|---|---|
| `PrefixRange.PrefixRangeExact` | crates/pop-fork/src/cache.rs:608-636 | `StartsWith(key, prefix)` iff `prefix <= key` and the bound is absent or above `key`, for all byte strings, with empty, trailing-0xFF and all-0xFF prefixes |
| `PrefixRange.PrefixUpperBound` | crates/pop-fork/src/cache.rs:678-690 | the popping loop computes the recursively defined bound, so the range it yields is exact |
| `PrefixRange.IncrementPrefix` | crates/pop-fork/src/cache.rs:1197-1209 | the indexed loop computes the same bound |
| `ByteStrings.Least` | crates/pop-fork/src/cache.rs:1138-1164 | the least element of a non-empty set of keys in the order of the `key` column |
| `ByteStrings.AscendingUnique` | crates/pop-fork/src/local.rs:510-527 | a set of keys has only one ascending listing, the one a `BTreeSet` reads out |
| `IntervalTable.CommitAllRead` | crates/pop-fork/src/cache.rs:765-839 | a committed batch changes what is read of the keys it names from its block on, to their last entry, and changes no other read |
| `IntervalTable.CommitAllWellFormed` | crates/pop-fork/src/cache.rs:786-826 | commits at non-decreasing blocks keep ids unique, rows forward in time and rows of one key disjoint |
| `IntervalTable.HistoryTable` | crates/pop-fork/src/cache.rs:765-839 | over every run of commits at non-decreasing blocks from empty tables: well formed, and every (key, block) reads as the last committed entry |
| `IntervalTable.IntervalsDisjoint` | crates/pop-fork/src/cache.rs:786-826 | over the same runs: rows end no earlier than they begin, at most one open row per key, no block inside two rows of one key |
| `IntervalTable.HitUnique` | crates/pop-fork/src/cache.rs:496-529 | no block sees two rows of one key, so the single lookup and the batch lookup mean the same row |
| `Upstream.PageSplits` | crates/pop-fork/src/remote.rs:369-430 | a page is an initial segment of the keys left: all up to its last key, and all of them when it is short |
| `Upstream.PageShrinks` | crates/pop-fork/src/remote.rs:369-430 | going on from the last key of a page leaves strictly fewer keys: the measure of the scan loop |
| `Upstream.PageOfOne` | crates/pop-fork/src/remote.rs:618-627 | a page of one key is the least next key |
| `ScanRecords.UpsertFetched` | crates/pop-fork/src/cache.rs:362-428 | caching fetched values keeps every row equal to the upstream value and adds exactly the requested keys |
| `ScanRecords.CachingAPage` | crates/pop-fork/src/remote.rs:394-418 | a cached page carries the coverage from its start key to its last key, and to the whole prefix when it is short |
| `ScanRecords.EmptyPageCompletes` | crates/pop-fork/src/remote.rs:385-392 | an empty page of a positive size means everything under the prefix is cached |
| `ScanRecords.PageLeaves` | crates/pop-fork/src/remote.rs:369-426 | a short page leaves the greatest remaining key on record as complete, or the prefix when a scan from the start found nothing; a full page leaves its last key as incomplete and the keys above it still to fetch |
| `ScanRecords.PageTakesOn` | crates/pop-fork/src/remote.rs:369-426 | whatever record a scan of the rest leaves, page and rest together leave the record of one scan of all the keys: greatest key, complete iff their number is no multiple of the page size |
| `ScanRecords.FullPagesAreMultiples` | crates/pop-fork/src/remote.rs:394-426 | a scan whose last page is full fetched a multiple of the page size, `MultiplesFillPages` being the converse |
| `ScanRecords.MultiplesFillPages` | crates/pop-fork/src/remote.rs:394-426 | every multiple of the page size is fetched in full pages |
| `ScanRecords.CompleteScanAnswers` | crates/pop-fork/src/remote.rs:600-616 | under a complete scan of a prefix or of a shorter prefix of it, the non-empty cached keys after a key are the upstream keys after it |
| `ScanRecords.StepKeepsInv` | crates/pop-fork/src/remote.rs:350-498 | each step of interleaved scans, point fetches and clears keeps rows transparent and records truthful |
| `ScanRecords.RecordsAlwaysSound` | crates/pop-fork/src/remote.rs:350-498 | over every run of any number of scans that interleave, fail or stop between caching and recording: a record implies that every upstream key it claims is cached with its value |
| `ScanRecords.PageSizeZero` | crates/pop-fork/src/remote.rs:385-395 | a fresh scan with page size 0 records itself complete; that record is true iff every key of the prefix had been cached |
| `ScanRecords.PageSizeZeroResumed` | crates/pop-fork/src/remote.rs:366-392 | going on from an unfinished record with page size 0 changes nothing; everything is cached then iff the keys after the recorded one already were |
| `ScanRecords.ClearDuringScanLies` | crates/pop-fork/src/cache.rs:975-1018 | when a block is cleared between caching a page and recording it, the record is true iff the page was empty |
| `ScanRecords.ClearBeforeCaching` | crates/pop-fork/src/cache.rs:975-1018 | when it is cleared before the next page is cached, the record is true iff the scan was at its first page or the page is empty: a resumed scan claims the keys of its earlier pages |
| `Scatter.OpenPositions` | crates/pop-fork/src/local.rs:691-703 | the positions without an answer, in order, and the keys there |
| `Scatter.WriteBack` | crates/pop-fork/src/local.rs:706-752 | each late answer lands at its own position and no other position changes |
| `StorageCache.StorageCache.SetStorage` | crates/pop-fork/src/cache.rs:276-316 | upserts one row with its `is_empty` flag, or changes nothing |
| `StorageCache.StorageCache.GetStorageBatch` | crates/pop-fork/src/cache.rs:321-357 | in input order what the single lookup answers, or `DuplicatedKeys` iff a key repeats |
| `StorageCache.StorageCache.SetStorageBatch` | crates/pop-fork/src/cache.rs:362-428 | all rows in order, or nothing; `DuplicatedKeys` iff a key repeats |
| `StorageCache.StorageCache.LatestRows` | crates/pop-fork/src/cache.rs:574-587 | folding the rows by key id keeps for each id the row a single lookup finds |
| `StorageCache.StorageCache.GetLocalValuesAtBlockBatch` | crates/pop-fork/src/cache.rs:537-597 | the batch lookup answers every key as the single lookup does |
| `StorageCache.StorageCache.GetLocalKeysAtBlock` | crates/pop-fork/src/cache.rs:608-636 | exactly the keys with the prefix whose visible row has a value, ascending |
| `StorageCache.StorageCache.GetLocalDeletedKeysAtBlock` | crates/pop-fork/src/cache.rs:643-671 | exactly the keys with the prefix whose visible row is a deletion, ascending |
| `StorageCache.StorageCache.CommitLocalChanges` | crates/pop-fork/src/cache.rs:765-839 | the tables become the specification of the commit, or stay as they were |
| `StorageCache.StorageCache.UpdatePrefixScan` | crates/pop-fork/src/cache.rs:1058-1098 | replaces the record of one scan, or changes nothing |
| `StorageCache.StorageCache.GetKeysByPrefix` | crates/pop-fork/src/cache.rs:1105-1128 | all cached keys with the prefix, those cached as empty included, in no promised order |
| `StorageCache.StorageCache.CountKeysByPrefix` | crates/pop-fork/src/cache.rs:1170-1192 | how many keys with the prefix are cached |
| `StorageCache.StorageCache.NextKeyFromCache` | crates/pop-fork/src/cache.rs:1138-1164 | the least cached non-empty key after a key with the prefix |
| `StorageCache.StorageCache.ClearBlock` | crates/pop-fork/src/cache.rs:975-1018 | removes rows, scan records and block rows of one hash and nothing else, or nothing at all |
| `RemoteStorage.RemoteStorageLayer.Get` | crates/pop-fork/src/remote.rs:204-262 | on the hit, prefetch-hit, miss and reconnect paths: the upstream value, the key cached afterwards, cache and records still sound; a cached key needs no node; a first miss of a key of 32 bytes or more caches and records the first 1000 keys of its 32-byte prefix, anything else at most the key itself |
| `RemoteStorage.RemoteStorageLayer.FetchAndCache` | crates/pop-fork/src/remote.rs:306-324 | the upstream values of distinct keys, all of them and nothing else cached, or nothing at all |
| `RemoteStorage.RemoteStorageLayer.GetBatch` | crates/pop-fork/src/remote.rs:278-335 | for distinct keys the upstream values in input order, all cached afterwards, without the node when they were cached before; `DuplicatedKeys` otherwise |
| `RemoteStorage.RemoteStorageLayer.CachePage` | crates/pop-fork/src/remote.rs:394-418 | caches a page and then records the progress; stopping between the two keeps the cache sound |
| `RemoteStorage.RemoteStorageLayer.FinishScan` | crates/pop-fork/src/remote.rs:385-392 | an empty page ends the scan and is recorded only for a scan that found nothing |
| `RemoteStorage.RemoteStorageLayer.ScanOnce` | crates/pop-fork/src/remote.rs:369-426 | one round caches and records exactly one page of upstream, goes on from its last key when it is full and is over otherwise, with everything under the prefix cached then |
| `RemoteStorage.RemoteStorageLayer.PrefetchPrefix` | crates/pop-fork/src/remote.rs:350-430 | from any sound record and page size > 0 the loop ends; on success every upstream key with the prefix is cached and the record holds the greatest key there was left, complete iff their number is no multiple of the page size; other records stay; a finished record, or an unfinished one with page size 0, changes nothing |
| `RemoteStorage.RemoteStorageLayer.PrefetchPrefixSinglePage` | crates/pop-fork/src/remote.rs:440-498 | without a record of the prefix it caches exactly the first page and records it, complete iff the page is short; with one it changes nothing |
| `RemoteStorage.RemoteStorageLayer.GetKeys` | crates/pop-fork/src/remote.rs:519-529 | the upstream keys with the prefix and the keys cached as empty under it, no duplicates; everything under the prefix is cached afterwards |
| `RemoteStorage.RemoteStorageLayer.NextKey` | crates/pop-fork/src/remote.rs:594-628 | the least upstream key after the given one with the prefix, whichever complete ancestor scan or the node answers; a finished scan of the prefix, its 32 or its 16 bytes needs no node |
| `RemoteStorage.RemoteStorageLayer.FetchAndCacheBlockByNumber` | crates/pop-fork/src/remote.rs:549-576 | the canonical hash of the number; a hash found is in the block table afterwards, and no other row changes |
| `RemoteStorage.EmptiesUnchanged` | crates/pop-fork/src/remote.rs:350-430 | a scan neither adds nor removes rows cached as empty |
| `Versioning.EventKeepsInv` | crates/pop-fork/src/local.rs:614-659 | every write, prefix deletion and injection keeps the agreement between the latest-write map, the interval table and what was written |
| `Versioning.LastWriteIsLast` | crates/pop-fork/src/local.rs:366-440 | the last write of a key up to a block is an entry of the log and no later entry is one |
| `Versioning.BlockNumbersHave32Bits` | crates/pop-fork/src/local.rs:953-957 | a block number fits four bytes |
| `Versioning.CommitKeepsInv` | crates/pop-fork/src/local.rs:953-987 | a commit in any iteration order of the map keeps it |
| `Versioning.RunKeepsInv` | crates/pop-fork/src/local.rs:614-987 | it holds after every run of operations |
| `Versioning.ReadsLastWrite` | crates/pop-fork/src/local.rs:323-440 | the three places together answer a fork-local block with the last write at or before it, and the fork-point value if there is none |
| `Versioning.RunReadsLastWrite` | crates/pop-fork/src/local.rs:323-440 | the same over every run of `set`, `set_batch` and `commit`, with prefix deletions and injections of other keys in between |
| `Versioning.RunReadsSeeded` | crates/pop-fork/src/local.rs:323-440 | the same over every run with injections before the first write of the key: the last write at or before the block, else the injected value of a key never written, else the fork-point value |
| `Versioning.WorkingReadsLastTouch` | crates/pop-fork/src/local.rs:366-393 | at the working block the last write, deletion or injection that concerns the key decides |
| `Versioning.CommittedHistoryImmutable` | crates/pop-fork/src/local.rs:336-346 | no continuation of a run changes what a committed fork-local block reads, whoever answers |
| `Versioning.OpenRowMirrored` | crates/pop-fork/src/local.rs:959-982 | a key with rows is in the map, with the value of its open row unless rewritten at the working block |
| `Versioning.DeletePrefixAnswers` | crates/pop-fork/src/local.rs:336-346 | at every block, those before the fork point included, a key under a deleted prefix has the local answer "no value" and any other key keeps its own |
| `Versioning.MemoryAnswers` | crates/pop-fork/src/local.rs:323-347 | after any run of valid operations memory answers a block from the last event that concerns the key: a deletion at every block, a write after its own block, an injection from the fork point on unless that is block 0, and all three at the working block |
| `Versioning.BeforeTheFork` | crates/pop-fork/src/local.rs:323-347 | at or before the fork point a write is never seen, an injection only at a positive fork point, a deletion always |
| `Versioning.DeletePrefixRewritesHistory` | crates/pop-fork/src/local.rs:882-897 | `delete_prefix` changes a read at a fork-local block iff the key has the prefix and had a value there |
| `Versioning.InjectedEverywhere` | crates/pop-fork/src/local.rs:645-659 | after any run, an injected value is read at every fork-local block until its key is touched again |
| `Versioning.InjectedAtForkPoint` | crates/pop-fork/src/local.rs:645-659 | and at the fork point itself iff that is not block 0 |
| `Versioning.InjectedThenWritten` | crates/pop-fork/src/local.rs:633-659 | over every run: before its first write an injected key still reads as injected iff it is never written afterwards or the fork point holds the same; otherwise it reads as the fork point |
| `Versioning.StateIsLastWrite` | crates/pop-fork/src/local.rs:366-440 | folding the diffs of the blocks in order onto the fork-point state reads, key by key, as the last write |
| `Versioning.RunReadsFoldedState` | crates/pop-fork/src/local.rs:366-440 | over every run, `get` at a fork-local block is a lookup in that folded state |
| `Versioning.PutsKeepInv` | crates/pop-fork/src/local.rs:815-836 | a batch of writes keeps the invariant |
| `Versioning.PutsWorkingState` | crates/pop-fork/src/local.rs:815-836 | a batch overlays the working state with its entries, a later one winning |
| `Versioning.CommitWorkingState` | crates/pop-fork/src/local.rs:953-987 | a commit leaves the working state as it was |
| `Versioning.BatchDiff` | crates/pop-fork/src/local.rs:815-836 | a batch adds its entries to the diff of its block and to no other |
| `Enumeration.WorkingListing` | crates/pop-fork/src/local.rs:530-569 | at the working block, after anything, a key is listed iff it has the prefix and reads as a value or is cached as empty with no local record |
| `Enumeration.KeyListed` | crates/pop-fork/src/local.rs:510-598 | at every block, after anything: before the working block the visible row decides, and without one the remote layer |
| `Enumeration.HistoricalListing` | crates/pop-fork/src/local.rs:572-598 | for each seeded key at an earlier fork-local block: listed iff its last write at or before the block has a value, or there is none and the fork point has it or it is cached as empty |
| `Enumeration.ListingAgrees` | crates/pop-fork/src/local.rs:510-598 | at every fork-local block, after anything: the listing is exactly the keys that read as a value iff each key under the prefix agrees: where memory answers the read, its answer matches the table and upstream, and elsewhere the key is no phantom |
| `Enumeration.SeededAgrees` | crates/pop-fork/src/local.rs:572-598 | at an earlier fork-local block a key that was injected and never written agrees iff it has a value just when the remote layer lists it; any other seeded key iff it is no phantom |
| `Enumeration.ErasedAgrees` | crates/pop-fork/src/local.rs:572-598 | a key under a deleted prefix reads as nothing and agrees at an earlier block iff no row with a value is visible and, without a row, the remote layer does not list it |
| `Enumeration.SkipDeleted` | crates/pop-fork/src/local.rs:470-494 | skipping a key under a deleted prefix loses nothing and makes progress |
| `Enumeration.IterationMeetsWorkingState` | crates/pop-fork/src/executor.rs:429-465 | what a call can still iterate over is the rest of the working state iff no local record in that range adds or removes a key |
| `Enumeration.BatchAgrees` | crates/pop-fork/src/local.rs:694-774 | `get_batch` and `get` agree on a key iff the block is the working one, the key is in the map, no deleted prefix covers it, or the fork point has no value for it |
| `Enumeration.PaginationComplete` | crates/pop-fork/src/blockchain.rs:1424-1440 | for every ascending listing and count > 0 the pages, each from the last key of the one before, concatenate to the whole of it |
| `Enumeration.PageOfSplits` | crates/pop-fork/src/blockchain.rs:1434-1438 | a page of an ascending listing has at most `count` keys: an initial segment of the keys after the start key in order, and all of them when it is short |
| `Enumeration.NextPageUnderway` | crates/pop-fork/src/blockchain.rs:1433-1438 | each page brings a client closer to the whole listing, and an empty one says that it has it |
| `MetadataHistory.VersionsTotal` | crates/pop-fork/src/local.rs:222-244 | a version exists for every block from the fork point on |
| `MetadataHistory.VersionIsLatest` | crates/pop-fork/src/local.rs:222-244 | the version found is the one registered at the greatest block at or before the one asked for |
| `MetadataHistory.RegisterAppends` | crates/pop-fork/src/local.rs:277-289 | registering at the working block leaves every earlier answer and sets every later one |
| `LocalStorage.LocalStorageLayer.constructor` | crates/pop-fork/src/local.rs:134-153 | a new layer works on the block after the fork point, reads as the fork point and has its metadata |
| `LocalStorage.LocalStorageLayer.Clone` | crates/pop-fork/src/local.rs:1002-1004 | a clone shares everything but its block number |
| `LocalStorage.LocalStorageLayer.Set` | crates/pop-fork/src/local.rs:614-631 | one write at the working block, as a step of the specification, overlaid on the working state |
| `LocalStorage.LocalStorageLayer.SetBatch` | crates/pop-fork/src/local.rs:815-836 | the writes of the batch one by one |
| `LocalStorage.LocalStorageLayer.SetInitial` | crates/pop-fork/src/local.rs:645-659 | one injection, as a step of the specification |
| `LocalStorage.LocalStorageLayer.SetBatchInitial` | crates/pop-fork/src/local.rs:844-867 | the injections of the batch one by one |
| `LocalStorage.LocalStorageLayer.DeletePrefix` | crates/pop-fork/src/local.rs:882-897 | drops the map entries under the prefix and remembers it, as a step of the specification |
| `LocalStorage.LocalStorageLayer.EntriesToCommit` | crates/pop-fork/src/local.rs:959-976 | each entry of the working block exactly once, no other |
| `LocalStorage.LocalStorageLayer.Commit` | crates/pop-fork/src/local.rs:953-987 | a commit step of the specification and the next block, or no change at all; fails at the last 32-bit block |
| `LocalStorage.LocalStorageLayer.GetLocalModification` | crates/pop-fork/src/local.rs:323-347 | the answer of the map, or of the deleted prefixes, or none |
| `LocalStorage.LocalStorageLayer.Get` | crates/pop-fork/src/local.rs:366-440 | at a fork-local block the specified read and, for a key only ever written, the folded state; elsewhere the local modification or else canonical upstream; what memory or a visible row answers needs no node |
| `LocalStorage.LocalStorageLayer.ForkPointReads` | crates/pop-fork/src/local.rs:421-439 | at the fork point of a fork taken from the canonical chain, a key only ever written, or never touched, reads as the fork has it before the first block |
| `LocalStorage.LocalStorageLayer.GetMeets` | crates/pop-fork/src/local.rs:366-440 | the specified read is a lookup in the folded state |
| `LocalStorage.LocalStorageLayer.FillFromUpstream` | crates/pop-fork/src/local.rs:754-773 | every position still open gets the fork-point value, the others keep theirs |
| `LocalStorage.LocalStorageLayer.BatchAtWorkingBlock` | crates/pop-fork/src/local.rs:691-724 | at the working block every key as the point read answers it |
| `LocalStorage.LocalStorageLayer.BatchAtEarlierBlock` | crates/pop-fork/src/local.rs:726-774 | at an earlier fork-local block every key as `BatchAnswer` says |
| `LocalStorage.LocalStorageLayer.GetBatch` | crates/pop-fork/src/local.rs:680-799 | in input order, at every block, with `Enumeration.BatchAgrees` saying when that is the point read |
| `LocalStorage.LocalStorageLayer.NextKey` | crates/pop-fork/src/local.rs:462-495 | terminates with the least upstream key after the given one that no deleted prefix covers |
| `LocalStorage.LocalStorageLayer.MergeKeysWithCache` | crates/pop-fork/src/local.rs:572-598 | upstream keys without the keys deleted at the block, with the keys live at it |
| `LocalStorage.LocalStorageLayer.KeysByPrefix` | crates/pop-fork/src/local.rs:510-527 | the ascending, duplicate-free merged listing, with the exact condition for each key to agree with its point read |
| `LocalStorage.LocalStorageLayer.MetadataAt` | crates/pop-fork/src/local.rs:222-263 | succeeds at every block from the fork point on with the version in force; below it the node answers |
| `LocalStorage.LocalStorageLayer.RegisterMetadataVersion` | crates/pop-fork/src/local.rs:277-289 | at the working block it appends: earlier blocks keep their answer |
| `LocalStorage.CodeSpelled` | crates/pop-fork/src/local.rs:309-309 | the key watched for upgrades is the bytes of ":code" |
| `LocalStorage.LocalStorageLayer.CodeChangeIsLastTouch` | crates/pop-fork/src/local.rs:304-315 | a change of `:code` is seen at a block iff the last event that concerns the key is a write at that block (or an injection just below the fork point) |
| `LocalStorage.LocalStorageLayer.SettledReads` | crates/pop-fork/src/block.rs:312-319 | while nothing is written at the working block, reading the block before reads the working state |
| `BlockBuilding.FailedLeaveNoDiff` | crates/pop-fork/src/builder.rs:544-600 | included and failed split the input in order, and applying only the included ones gives the same diff |
| `BlockBuilding.SplitMarks` | crates/pop-fork/src/builder.rs:544-600 | every extrinsic of the input goes to exactly one of the included and the failed, in order |
| `BlockBuilding.FailedLeaveNoTrace` | crates/pop-fork/src/blockchain.rs:1217-1231 | the body is the inherents and then the included ones, and building without the failed ones gives the same block and the same storage |
| `BlockBuilding.ApplyAppend` | crates/pop-fork/src/blockchain.rs:1217-1231 | applying some extrinsics and then others is applying them all |
| `BlockBuilding.OuterOk` | crates/pop-fork/src/builder.rs:558-560 | a user extrinsic is included iff its output starts with byte 0 |
| `BlockBuilding.InherentOk` | crates/pop-fork/src/builder.rs:448-473 | an inherent passes iff its output starts with two bytes 0 |
| `BlockBuilding.EveryProviderAsked` | crates/pop-fork/src/builder.rs:425-435 | collecting succeeds iff every provider answers, and yields their answers one after the other in order |
| `BlockBuilding.FlattenAppend` | crates/pop-fork/src/builder.rs:425-435 | what two lists of answers come to, one after the other |
| `BlockBuilding.DispatchErrorDropped` | crates/pop-fork/src/builder.rs:544-600 | at any position of the input: a dispatch that did not succeed leaves no diff and no place in the body iff its output does not start with byte 0, and the rest goes on from there |
| `BlockBuilding.InherentStep` | crates/pop-fork/src/builder.rs:437-491 | an inherent that fails or whose dispatch fails ends the build; any other is applied before the rest run |
| `BlockBuilding.ApplyStep` | crates/pop-fork/src/blockchain.rs:1217-1231 | applying the next extrinsic and going on is applying the rest from the state so far |
| `BlockBuilder.CallRuntime` | crates/pop-fork/src/builder.rs:606-621 | a runtime call reads exactly the working state, and keys to iterate over from the fixed fork point |
| `BlockBuilder.BlockBuilder.Initialize` | crates/pop-fork/src/builder.rs:351-394 | only once; its diff is overlaid on the working state |
| `BlockBuilder.BlockBuilder.ApplyEachInherent` | crates/pop-fork/src/builder.rs:437-491 | inherents run in order, each on what the ones before left; the first failure ends the phase |
| `BlockBuilder.BlockBuilder.MockRelayChainInherent` | crates/pop-fork/src/builder.rs:508-522 | on a relay chain, and only there, `ParaInherent::Included` is written with the empty value; key by key no other value changes |
| `BlockBuilder.BlockBuilder.ApplyInherents` | crates/pop-fork/src/builder.rs:413-499 | only after initialization and only once; collects all inherents first, applies them, then mocks |
| `BlockBuilder.BlockBuilder.ApplyUserExtrinsic` | crates/pop-fork/src/builder.rs:544-600 | only after the inherents; included iff the output starts with byte 0, which leaves its diff and joins the body; anything else leaves nothing |
| `BlockBuilder.BlockBuilder.RuntimeUpgraded` | crates/pop-fork/src/builder.rs:706-709 | whether `:code` was last touched by this block so far |
| `BlockBuilder.BlockBuilder.RegisterNewMetadata` | crates/pop-fork/src/builder.rs:718-750 | registers what the runtime reports on the working state, or nothing; with storage answering it succeeds iff the report decodes |
| `BlockBuilder.BlockBuilder.Collect` | crates/pop-fork/src/builder.rs:425-435 | succeeds iff every provider answers on the parent block and the working state before any inherent is applied; the result is all their answers, in order |
| `BlockBuilder.BlockBuilder.Finalize` | crates/pop-fork/src/builder.rs:640-699 | finalization on the working state, metadata of an upgrade of the parent block, commit, and a child that sees the same state; with storage answering it fails only when the call does, the metadata cannot be had, or block numbers run out |
| `Blocks.Child` | crates/pop-fork/src/block.rs:200-216 | commits and puts a block on top: number + 1, parent hash, a clone of the layer on the next block; a refused commit leaves the parent as it was |
| `Blocks.LookupsInvert` | crates/pop-fork/src/blockchain.rs:1018-1129 | along the local chain: every number from fork point to head has a block, its hash finds it again, its parent hash is the hash one below |
| `Blocks.NothingBelowFork` | crates/pop-fork/src/blockchain.rs:1026-1039 | below the fork point nothing is found locally |
| `Blocks.FoundByHashIffPresent` | crates/pop-fork/src/blockchain.rs:1070-1080 | the walk by hash finds a block iff the chain has one with that hash |
| `Blocks.NumbersFindBack` | crates/pop-fork/src/blockchain.rs:1070-1080 | the number of the block found by a hash finds that block again |
| `Blockchain.RunPreparation` | crates/pop-fork/src/blockchain.rs:1201-1215 | initialization and inherents make up `Prepare` on the working state |
| `Blockchain.RunExtrinsics` | crates/pop-fork/src/blockchain.rs:1217-1231 | the loop over user extrinsics is `ApplyAll` |
| `Blockchain.RunBody` | crates/pop-fork/src/blockchain.rs:1201-1235 | preparation, extrinsics and then the check for an upgrade, before finalization; with storage answering it fails iff a block cannot be prepared or an extrinsic cannot be run |
| `BuildHistory.BuildEnds` | crates/pop-fork/src/builder.rs:640-699 | body and finalization together make the build, or show that it was not `Buildable` |
| `Blockchain.RunBuild` | crates/pop-fork/src/blockchain.rs:1201-1238 | a finished build is `Build` on the working state it found; any build records exactly its diff and keeps earlier metadata; with storage answering it finishes iff it was `Buildable` |
| `Blockchain.Blockchain.CommitHead` | crates/pop-fork/src/blockchain.rs:1271-1291 | the head and the executor change iff the head is still the captured one |
| `Blockchain.Blockchain.PrepareExecutor` | crates/pop-fork/src/blockchain.rs:1240-1269 | a new executor only after a noticed upgrade, compiled from what `:code` now holds |
| `Blockchain.Blockchain.BuildBlock` | crates/pop-fork/src/blockchain.rs:1156-1330 | with storage answering it succeeds iff the build was `Buildable`; success moves the head to a block built by `Build` on the old head; failure leaves head and executor; both keep the invariant, the earlier metadata and the diffs of earlier blocks |
| `Blockchain.Blockchain.StorageAt` | crates/pop-fork/src/blockchain.rs:1522-1541 | at every fork-local block the specified `get`, which is a lookup in the folded state for a key only ever written and `SeededRead` for one injected first; elsewhere the local modification, else the value of the canonical block, else nothing; at the fork point the fork-point value; success with storage answering |
| `Blockchain.Blockchain.BuildNext` | crates/pop-fork/src/blockchain.rs:1156-1330 | one build of a run, with the record that the run lemmas speak of; the next build runs on the executor it leaves; success as for `BuildBlock` |
| `Blockchain.Blockchain.FreshStart` | crates/pop-fork/src/local.rs:645-659 | the state a fresh fork starts from is the fork-point state with the last injection of each key |
| `Blockchain.Blockchain.BuildBlocks` | crates/pop-fork/src/blockchain.rs:1156-1330 | building block after block on a fresh fork, initial state injected or not, leaves a recorded, finished run on one chain whose last ledger is the shared state; with storage answering it stops only before an input that is not `Buildable` there |
| `Blockchain.Blockchain.ReadBack` | crates/pop-fork/src/blockchain.rs:1385-1391 | after such a run every block reads as its state in the final history, except for a key injected with another value than the fork point has and first written after that block |
| `Blockchain.Blockchain.BlockHashAt` | crates/pop-fork/src/blockchain.rs:1018-1055 | local from fork point to head, none above, the node below |
| `Blockchain.Blockchain.BlockNumberByHash` | crates/pop-fork/src/blockchain.rs:1070-1092 | a local block answers before the node, and without it |
| `Blockchain.Blockchain.BlockParentHash` | crates/pop-fork/src/blockchain.rs:1107-1129 | the same for the parent hash |
| `Blockchain.Blockchain.StorageKeysPaged` | crates/pop-fork/src/blockchain.rs:1401-1469 | at most `count` keys: a page of the listing when the fork or the node numbers the block above the fork point, otherwise the page of the node; with storage answering it succeeds for every block known |
| `Blockchain.Blockchain.ListedBlock` | crates/pop-fork/src/blockchain.rs:1422-1432 | the block listed is the block asked for iff the fork has that block; otherwise it is another local block with its number, or the working block |
| `Blockchain.Blockchain.StorageKeysByPrefix` | crates/pop-fork/src/blockchain.rs:1479-1515 | the whole listing at once; below the fork point the keys of the remote layer |
| `Blockchain.Blockchain.ListAll` | crates/pop-fork/src/blockchain.rs:1424-1440 | asking for page after page, each call scanning and caching as it goes, ends and returns exactly that listing |
| `BuildHistory.RecordedStates` | crates/pop-fork/src/builder.rs:783-796 | a build at block n keeps every earlier state and overlays its diff on the state of n, which is the state of n - 1 when nothing was left there |
| `BuildHistory.BlocksKept` | crates/pop-fork/src/blockchain.rs:1156-1330 | however many builds follow, a block keeps the state and the metadata it had as the head |
| `BuildHistory.BlocksRefineBuilds` | crates/pop-fork/src/blockchain.rs:1156-1330 | over every run of successful builds, from the fork point with what was injected: in the final history each block is `Build` on exactly the state and metadata of its parent |
| `BuildHistory.ParentSeen` | crates/pop-fork/src/builder.rs:425-435 | what a build sees of its parent is number, hashes, header and body of the block built just before |
| `BuildHistory.BlocksReadTheirState` | crates/pop-fork/src/local.rs:366-440 | over every such run the read of a key at a block is that state, iff the key was written at or before the block, never, or was not injected with another value |
| `BuildHistory.MetadataAfterUpgrade` | crates/pop-fork/src/builder.rs:670-675 | over every run: when block X writes `:code` and X + 1 does not, X + 1 registers the metadata of its runtime, and every block up to the first one after the next write sees it |
| `BuildHistory.UpgradeNoticed` | crates/pop-fork/src/blockchain.rs:1233-1235 | an upgrade is noticed iff `:code` was written before finalization |
| `BuildHistory.ExecutorKeepsUp` | crates/pop-fork/src/blockchain.rs:1233-1286 | after a build the executor runs the code in storage iff the build left it as it was, or wrote it before finalization and it compiles |
| `BuildHistory.BlocksRunTheirCode` | crates/pop-fork/src/blockchain.rs:1233-1286 | over every run: each block runs exactly the code in the state of its parent iff no build changes `:code` in finalization alone or to something that does not compile |
| `BuildHistory.BlocksRefineOwnCode` | crates/pop-fork/src/blockchain.rs:1156-1330 | then each block of the final history is `Build` under the code its parent state holds |
| `BuildHistory.UpgradeInFinalizationMissed` | crates/pop-fork/src/blockchain.rs:1233-1269 | a runtime whose finalization installs code: the build succeeds, `:code` holds the new code, no new executor is prepared |
| `HeadProtocol.StepKeepsInv` | crates/pop-fork/src/blockchain.rs:1161-1280 | each step of concurrent builds keeps the chain of heads and only extends it |
| `HeadProtocol.HeadsFormOneChain` | crates/pop-fork/src/blockchain.rs:1271-1280 | over every interleaving with fresh hashes the installed heads are one chain by number and parent hash, without repetition |
| `HeadProtocol.AtMostOneCommits` | crates/pop-fork/src/blockchain.rs:1271-1280 | of the builds that captured the same head at most one commits |
| `HeadProtocol.UnopposedBuildCommits` | crates/pop-fork/src/blockchain.rs:1161-1280 | over every interleaving with fresh hashes: a finished build is rejected iff another one committed since it captured the head |
| `HeadProtocol.BuildAloneCommits` | crates/pop-fork/src/blockchain.rs:1161-1280 | a build that captures the head and finishes with no other commit becomes the head: next number, own hash, the hash of the captured block as parent |

## Left out

- The inner option of the modifications map: it is never `None`, so an entry is the value itself.
- The 32-bit limit of `local_keys` ids: ids are unbounded. The limit of block numbers is kept, in `Commit`.
- The `blocks` table is keyed by number alone; header rows, and cached blocks looked up by hash, are not modelled.
- SQLite itself: the pool, pragmas, migrations and the retries on a locked database.
- RPC transport: semaphores, the debounce of reconnects, decoding. A reconnect succeeds iff the node is reachable.
- The executor: WASM prototypes, warm prototypes, signature mocking, offchain storage.
- Header and slot encoding: the encoded header is a parameter of a build; the cached slot duration is not modelled.
- The prefetch before a build and the background warmup: they only fill the cache, as scans do.
- Events and `modified_keys`, `clear_local_storage`, statistics, logging, telemetry.
- Runtime calls at historical blocks: they read the shared map at the layer's working block, so nothing is claimed of them.
- Blockchain.Blockchain.BuildBlock: claims nothing about undoing the diff of an abandoned build, because the code does not undo it; the diff stays and is part of what the next build finds.
- HeadProtocol.HeadsFormOneChain: covers the head only; what racing builds leave in storage is not modelled.
- BlockBuilder.CallRuntime: the keys a call iterates over are not computed; they are part of the runtime function, as the assumptions say.
- StorageCache.StorageCache.ClearBlock: no layer calls it; its effect on running scans is in `ScanRecords`.
- Which accounts `initialize_dev_accounts` injects, `TxPool`, the CLI and every crate other than `pop-fork`.
