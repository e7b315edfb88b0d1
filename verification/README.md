# lightnfs in Dafny

A model of the protocols and table transformations at the heart of lightnfs, a userspace NFS
server, and proofs of what they promise. One file holds one component.

- `sync.dfy`, `objlocks.dfy`, `lockorder.dfy`: the FIFO shared mutex, the registry that gives one
  live mutex per object, and the two together under any number of operations that take one or two
  object locks.
- `offload.dfy`: the offload pool with its sharded queues, overflow queue, semaphore and exit
  permits. Workers scan shard by shard, so a permit and a job can part company.
- `drc.dfy`, `argshash.dfy`: the duplicate request cache and the argument checksum in its key.
- `exports.dfy`, `rcu.dfy`: the published export set, `ExportTable::apply`, and the ownership
  protocol that decides when a removed export may be stopped.
- `config.dfy`, `ordering.dfy`, `catalog.dfy`, `applier.dfy`: the shared catalog as a document, its
  difference and merge, and the pipeline that brings a running table to a new version.
- `configtext.dfy`, `catalogtext.dfy`, `catalogmeaning.dfy`, `cataloglines.dfy`: the catalog as text, written and read
  back, and what a text written by hand means.
- `readdir.dfy`, `compound.dfy`, `stateids.dfy`: READDIR paging for NFSv3 and NFSv4, the COMPOUND
  driver with its reply budget and slot handling, and the current-stateid rules (sections
  2.10.6.4, 16.2.3.1.2 and 18.23 of RFC 8881; sections 3.3.16 and 3.3.17 of RFC 1813).
- `bucket.dfy`, `utf8.dfy`: the debt-mode token bucket and strict UTF-8 (RFC 3629).

Code between two suspension points, or one critical section, is one step. Objects whose methods
update their fields are classes, each method tied to a function of the old state; theorems over
runs are about sequences of such states. Time, clock readings, backend answers, CIDR parsing and
the state manager are parameters with stated contracts.

`dafny verify dfyconfig.toml` checks the whole project.

## What the code does not promise

- Round trip of the catalog text. The header of `catalog.hpp` promises it for every valid catalog.
  It fails for valid catalogs through subtable keys: validation looks at keys only for per-node
  names, so a key `#x` is written as a comment and lost, a key `[x` is read as a section header
  (`CatalogText.CommentKeyIsLost`). `CatalogText.ValidRoundTrip` gives the exact condition: exports
  by fsid, and keys that are trimmed, hold no equals sign or newline, do not start with a bracket
  and start no comment. Client and node entries ending in a backslash are lost as well, but
  validation refuses them (`CatalogText.ValidIsStorable`).
- One version of a catalog text. If the header assigns the version twice, `peek_catalog_version`
  takes the first and `parse_catalog` the last (`CatalogMeaning.PeekAgrees`).
- Comments. Behind a quoted text that ends in a backslash a comment is not cut, because the closing
  quotes count as escaped, and the value is refused (`CatalogLines.CommentedStringIff`).
- Reply size of a COMPOUND. READ and READ_PLUS clamp themselves but are not rolled back, so with
  less than 16 bytes left they exceed the limit, and so does any operation with less than 8 bytes
  left (`Compound.OperationFits`, `Compound.ReplyFits`). `Compound.OverfullCompound` is a session
  compound that does. `Compound.SafeIff` says for which requests it can happen: without READDIR
  those with READ or READ_PLUS before the last place.
- Progress of READDIR. If the limits pass the minimum but the next visible entry does not fit, the
  answer is OK with no entry and eof false, and the client cannot go on (`Readdir.AnswerCovers`).
- Token bucket under clock readings that go back. The refill stamp is set back as well, and the
  same time is refilled twice. The rate is kept exactly at readings that never go back
  (`TokenBuckets.RateIsKeptIff`). Readings are taken under the mutex from the steady clock, so only
  an injected clock (`src/runtime/reactor.hpp:59-82`) can go back.
- Offload submits during shutdown. A job handed over before the stop flag is never lost, even if
  other submits overlap; one submitted after the last worker returned always is
  (`OffloadPool.OverlapVerdict`). A submit that still carries its job at the flag can be lost
  (`OffloadPool.NotHandedOverCanBeLost`, `OffloadPool.LateSubmitNeverRuns`).
- Source stateid of COPY. Without a saved stateid the placeholder falls back on the current one,
  which belongs to the target (`Stateids.PlaceholderFitsFile`, `Stateids.SourceFallsOnTarget`).

## Model

| member | source | states |
|---|---|---|
| `Sync.AsyncSharedMutex.TryGrantLocked` | src/runtime/sync.hpp:185-195 | grants exactly when nobody waits and the request is compatible with the holders |
| `Sync.AsyncSharedMutex.AwaitReady` | src/runtime/sync.hpp:164-167 | the first check of an awaiter is one grant attempt |
| `Sync.AsyncSharedMutex.AwaitSuspend` | src/runtime/sync.hpp:168-176 | the second check grants or appends to the FIFO queue: the lock state after it is that of an arrival |
| `Sync.AsyncSharedMutex.GrantFromQueueLocked` | src/runtime/sync.hpp:196-209 | hands the lock to one writer or to the whole leading run of readers, in queue order |
| `Sync.AsyncSharedMutex.Unlock` | src/runtime/sync.hpp:210-219 | a writer leaves and the queue is served |
| `Sync.AsyncSharedMutex.UnlockShared` | src/runtime/sync.hpp:220-229 | a reader leaves and the queue is served |
| `Sync.HandOverBlocksHead` | src/runtime/sync.hpp:196-209 | after any hand-over the head of a non-empty queue is incompatible with the holders |
| `Sync.RunsAreValid` | src/runtime/sync.hpp:160-229 | in every state of every run: counters equal holders, a writer is alone, grants are exactly the arrival order, the head is blocked |
| `Sync.WriterExcludes` | src/runtime/sync.hpp:185-229 | two distinct holders are both readers |
| `Sync.WaitersHaveHolders` | src/runtime/sync.hpp:185-229 | a non-empty queue implies a holder |
| `Sync.RankDescends` | src/runtime/sync.hpp:196-229 | holders plus older waiters is a rank that every release lowers by one and no arrival changes |
| `Sync.RankCountsReleases` | src/runtime/sync.hpp:196-229 | over any stretch of a run the rank of a waiting request drops by exactly the number of releases |
| `Sync.EveryWaiterIsServed` | src/runtime/sync.hpp:160-229 | no starvation: after as many releases as its rank, a waiting request has been granted |
| `ObjLocks.ObjLockRegistry.Get` | src/core/obj_lock.cpp:5-37 | returns the live mutex of the key, or a fresh one in a reused or new slot, and sweeps only dead slots |
| `ObjLocks.ObjLockRegistry.Sweep` | src/core/obj_lock.cpp:24-34 | the bounded bucket sweep removes expired slots only |
| `ObjLocks.RunsAreTracked` | src/core/obj_lock.cpp:5-37 | in every run of get and drop, a live mutex sits under the key it was made for |
| `ObjLocks.OneLiveMutexPerObject` | src/core/obj_lock.cpp:5-37 | while any holder keeps the mutex of a key, every get for that key returns it |
| `ObjLocks.OwnerIsStable` | src/core/obj_lock.cpp:5-37 | a live mutex never changes its key |
| `ObjLocks.DistinctObjectsDistinctMutexes` | src/core/obj_lock.cpp:5-37 | live mutexes of different objects differ |
| `ObjLocks.SameMutexIffSameObject` | src/core/mutate.cpp:47-49 | two mutexes taken one after the other are the same if and only if their objects are |
| `LockOrder.MutateGuard.Enter` | src/core/mutate.cpp:32-42 | one target: its mutex is taken from the registry and one exclusive lock asked for |
| `LockOrder.MutateGuard.EnterTwo` | src/core/mutate.cpp:44-67 | two targets: the mutexes from the registry coincide exactly for one object, then one lock is asked for and the second reference dropped, else both locks in ObjId order |
| `LockOrder.KeyOrder` | src/backend/api.hpp:30-38 | the order on (fsid, ObjId) keys is total, transitive and irreflexive |
| `LockOrder.PlansAscend` | src/core/mutate.cpp:32-67 | every operation asks for its locks in strictly ascending order, independent of argument order, and each round of COPY takes the same locks |
| `LockOrder.PlansCover` | src/core/mutate.cpp:32-67 | an operation asks for exactly the objects it names, exclusively unless it only reads |
| `LockOrder.StepKeepsInv` | src/core/mutate.cpp:32-67 | any number of operations over any number of locks: every start, request and release keeps the invariant tying lock states to operations |
| `LockOrder.HolderExists` | src/runtime/sync.hpp:185-229 | behind a parked operation stands a holder of that lock, and if that one is parked too it waits for a greater key |
| `LockOrder.DeadlockFree` | src/core/mutate.cpp:32-67 | in every state with the invariant an unfinished operation implies an enabled step |
| `LockOrder.RunsNeverDeadlock` | src/nfsv4/engine.cpp:3364-3389 | deadlock freedom in every state of every run from the empty system |
| `LockOrder.MutationExcludes` | src/core/mutate.cpp:40-64 | in every state of every run, two operations that have all their locks and name a common object are both reads |
| `LockOrder.ReadersShare` | src/runtime/sync.hpp:185-195 | two reads of one object can be inside together |
| `LockOrder.EveryRunCompletes` | src/core/mutate.cpp:32-67 | once nothing starts any more a run is bounded by the remaining work, and one that cannot go on has finished every operation |
| `OffloadPool.StepKeepsInv` | src/runtime/offload_pool.cpp:32-125 | every step of submit, worker scan, promotion and shutdown keeps the invariant |
| `OffloadPool.PermitsKept` | src/runtime/offload_pool.cpp:57-65 | semaphore permits plus permits in hand always balance queued jobs and exit permits |
| `OffloadPool.JobsKept` | src/runtime/offload_pool.cpp:57-125 | conservation: no step loses, copies or reruns a job, overflow and jobs in a worker's hand included |
| `OffloadPool.CoveredKept` | src/runtime/offload_pool.cpp:82-125 | while a job is queued some worker will still see it, although scans are not atomic |
| `OffloadPool.RunsKeepInv` | src/runtime/offload_pool.cpp:32-125 | the invariant holds in every run without a submit overlapping the shutdown |
| `OffloadPool.RestMeansRun` | src/runtime/offload_pool.cpp:57-125 | in every run before a shutdown a pool at rest has run every submitted job, apart from those in the overflow queue |
| `OffloadPool.BelowCapNobodyWaits` | src/runtime/offload_pool.cpp:67-80 | while the admission counter stays below the cap no job is ever deferred |
| `OffloadPool.RefillPromotes` | src/runtime/offload_pool.cpp:98-125 | a worker left alone after a job moves the oldest deferred job to a shard, with a permit, if the counter is below the cap |
| `OffloadPool.NothingIsLost` | src/runtime/offload_pool.cpp:32-55 | once the last worker has returned, every submitted job has run exactly once and nothing is queued |
| `OffloadPool.ShutdownNeverStuck` | src/runtime/offload_pool.cpp:32-55 | until every worker has returned some thread of the pool can step |
| `OffloadPool.ShutdownDescends` | src/runtime/offload_pool.cpp:82-125 | each step of the shutdown lowers a measure |
| `OffloadPool.ShutdownEnds` | src/runtime/offload_pool.cpp:32-125 | the shutdown is bounded, and a run that cannot go on has returned every worker and run every job |
| `OffloadPool.LateSubmitNeverRuns` | src/runtime/offload_pool.cpp:67-80 | a reachable loss: with one worker, the job of a submit that only began before the stop flag is accepted, queued, and not run in any continuation of the run |
| `OffloadPool.ExitedForGood` | src/runtime/offload_pool.cpp:82-125 | in every run nothing is run any more once the last worker has returned |
| `OffloadPool.RunsKeepInSight` | src/runtime/offload_pool.cpp:32-125 | overlapping submits or not: a job handed over before the stop flag leaves the overflow queue before the exit permits go out, and some worker will look while it is queued |
| `OffloadPool.OverlapVerdict` | src/runtime/offload_pool.cpp:32-125 | in every run: a job handed over before the stop flag has run as often as it was submitted once the last worker returns, whatever other submits do; one submitted after that return never runs |
| `OffloadPool.NotHandedOverCanBeLost` | src/runtime/offload_pool.cpp:67-125 | that condition is exact: from every run, with any number of workers, in which a submit still carries a job while the pool is stopping, the run can go on to a state where every submit and worker has returned and the job is lost |
| `Drc.Shard.DoPurge` | src/rpc/drc.cpp:42-61 | evicts expired or excess replies in completion order and keeps the counters |
| `Drc.Shard.BeginRound` | src/rpc/drc.cpp:63-84 | one round of begin: owner, replay of the cached reply, or wait |
| `Drc.Shard.Complete` | src/rpc/drc.cpp:86-99 | marks the entry done and purges |
| `Drc.Shard.Abort` | src/rpc/drc.cpp:101-110 | drops an unfinished claim |
| `Drc.Shard.Flush` | src/rpc/drc.cpp:112-125 | empties the shard and reports how much |
| `Drc.PurgeAccounted` | src/rpc/drc.cpp:42-61 | after a purge the completion queue lists exactly the done keys, once each, in completion order, bytes is their size and within the cap, nothing is past its TTL |
| `Drc.PurgeTrims` | src/rpc/drc.cpp:42-61 | a purge removes a prefix of the completion queue and nothing else |
| `Drc.EvictedForCause` | src/rpc/drc.cpp:52-54 | an evicted reply was expired, or the replies from it on exceeded the memory cap |
| `Drc.StepKeepsInv` | src/rpc/drc.cpp:63-125 | every begin, retry, complete, abort and flush keeps the accounting and the people invariant |
| `Drc.RunsKeepInv` | src/rpc/drc.cpp:42-125 | they hold in every run |
| `Drc.SingleExecution` | src/nfsv3/engine.cpp:201-227 | without a flush a key has at most one owner at any time |
| `Drc.NoStrandedWaiter` | src/rpc/drc.cpp:79-99 | in every run a parked coroutine waits for a key that is present and in progress, and whatever its owner does wakes it |
| `Drc.ReplayIsFaithful` | src/rpc/drc.cpp:75-78 | a replay returns the bytes the key was last completed with |
| `Drc.RetransmissionReplays` | src/rpc/drc.cpp:42-78 | in every run a key completed since the last flush is answered with that reply if and only if its time to live has not passed and its reply and the later ones are within the memory cap |
| `Drc.RunsKeepHistory` | src/rpc/drc.cpp:42-125 | in every run the completion queue is the end of the log of completions, and what left it since the last flush was expired or over the cap |
| `Exports.ByFsid` | src/core/config.cpp:853-857 | the binary search finds an fsid exactly when a linear search does |
| `Exports.ExportSetBuilder.Keep` | src/core/config.hpp:372-372 | a kept entry is shared, not copied |
| `Exports.ExportSetBuilder.Add` | src/core/config.cpp:873-896 | refuses exactly a null backend, fsid 0, a duplicate fsid or a bad CIDR; otherwise appends a fresh entry with the configured fields |
| `Exports.CheckRemoves` | src/core/config.cpp:989-990 | accepts exactly distinct, listed fsids |
| `Exports.CheckUpdates` | src/core/config.cpp:991-997 | accepts exactly distinct, listed, kept exports whose path does not change and whose CIDRs parse |
| `Exports.CheckAdds` | src/core/config.cpp:998-1003 | accepts exactly distinct, nonzero fsids that are new or being removed, with good CIDRs |
| `Exports.ExportTable.Apply` | src/core/config.cpp:978-1031 | all or nothing: error exactly when the plan is bad, and then nothing is published, updated or consumed; otherwise kept entries are the same objects, the others retire, and the served exports are those of the plan |
| `Exports.ExportTable.Commit` | src/core/config.cpp:1005-1031 | the publishing half of apply |
| `Exports.AddEntries` | src/core/config.cpp:1014-1018 | after validation no builder.add can fail |
| `Exports.ExportTable.UpdateEntry` | src/core/config.cpp:956-968 | an update changes settings and owners of the one entry, in place |
| `Exports.ExportTable.TakeRetired` | src/core/config.cpp:1033-1042 | hands out exactly the queued entries with use count one and keeps the others, both in queue order |
| `Exports.ServedAfter` | src/core/config.cpp:978-1031 | loops, sort and in-place updates together give exactly the intended map from fsid to export |
| `Ordering.SortSorts` | src/core/config.cpp:904-905 | sorting distinct keys gives strictly ascending order |
| `Ordering.SortedStays` | src/core/config.cpp:904-905 | sorting an ordered sequence changes nothing |
| `Rcu.SoleOwner` | src/core/config.cpp:1036-1040 | a use count of one on a queued entry means the queue slot is its only owner |
| `Rcu.StepKeepsInv` | src/core/config.cpp:978-1042 | with any number of concurrent apply() calls, readers and pins, every step keeps: a stopped entry has no owner |
| `Rcu.RunsKeepInv` | src/core/config.cpp:978-1042 | the invariant over all runs |
| `Rcu.StoppedIsGone` | src/server/catalog_applier.cpp:278-285 | once handed out to be stopped, an entry is in no live snapshot, no later published set, no queue, builder or pin |
| `Rcu.TakenWhenReleased` | src/core/config.cpp:1033-1042 | with one apply() at a time a queued entry is handed out if and only if no live set lists it and nothing pins it |
| `Rcu.TakeLeavesOnlyReferenced` | src/core/config.cpp:1033-1042 | so in every such run the sweep leaves only referenced entries |
| `Config.NormalizePath` | src/core/config.cpp:130-133 | the path without the slashes at its end and nothing else cut, a lone "/" kept |
| `Catalogs.ValidateCatalog` | src/core/catalog.cpp:180-235 | accepts exactly documents whose exports are admissible one by one and pairwise distinct in fsid, path and nesting |
| `Catalogs.NestedMeans` | src/core/catalog.cpp:36-39 | a path is nested in another exactly if its list of directories properly extends the other one |
| `Catalogs.MergeWithLocal` | src/core/catalog.cpp:156-178 | fails exactly on a default that is not per-node; otherwise a merge of every enabled export and of nothing else: all fields its own, per-node values from this host, its other values unless this host sets them |
| `Catalogs.MergeMeansMerged` | src/core/catalog.cpp:156-178 | the merged list is the map from fsid to merged configuration, in fsid order |
| `Catalogs.DiffCatalog` | src/core/catalog.cpp:237-267 | each change is reported in exactly its list, each list ascending |
| `Catalogs.RejectedMeans` | src/core/catalog.cpp:252-255 | a change is rejected exactly if path, backend or the value of some key that is not per-node differs |
| `Applier.WantAdd` | src/server/catalog_applier.cpp:183-191 | plans an addition or update at most once |
| `Applier.WantRemove` | src/server/catalog_applier.cpp:192-195 | plans a removal at most once |
| `Applier.MakePlan` | src/server/catalog_applier.cpp:175-209 | diff lists and reconcile loops: adds exactly what the table lacks, removes exactly the surplus, updates exactly what a change touches, each fsid once |
| `Applier.StartBackends` | src/server/catalog_applier.cpp:210-244 | starts all backends in order, or stops the ones started before the failure |
| `Applier.Prepare` | src/server/catalog_applier.cpp:132-209 | ready if and only if the document is valid, merges, is accepted by the host and changes no identity; otherwise the reason is the first check that fails, with exactly the rejected fsids |
| `Applier.UpdatedMeans` | src/core/config.cpp:1020-1022 | distinct updates set settings and owners of the exports they name |
| `Applier.AppliedAt` | src/server/catalog_applier.cpp:175-253 | for any table: what one fsid serves after the plan |
| `Applier.IncrementalIsRebuild` | src/server/catalog_applier.cpp:136-253 | a table in step with the applied document becomes exactly the table the new document would build, every field of every fsid |
| `Applier.RebuiltShows` | src/server/catalog_applier.cpp:136-253 | the rebuilt table serves exactly the enabled exports, each with its own fields and the merged values |
| `Applier.NeverRefused` | src/server/catalog_applier.cpp:245-253 | for such a table ExportTable::apply never refuses the plan |
| `Applier.CatalogApplier.Bring` | src/server/catalog_applier.cpp:132-253 | prepare, start, publish: for a table in step the change is made if and only if the document can be planned for and every backend it adds runs; a failure leaves the table as it was and names the first check that fails |
| `Applier.CatalogApplier.ApplyPipeline` | src/server/catalog_applier.cpp:106-276 | the whole pipeline on the stored text: up to date exactly when nothing newer is stored; for a table in step applied if and only if the newer text parses to its own version, can be planned for and its added backends run, and then the table shows the document, merged values included; otherwise the reason is the first check that fails and nothing changed |
| `Applier.CatalogApplier.ApplyLatest` | src/server/catalog_applier.cpp:81-104 | the same success condition; a failure is counted, recorded and held back |
| `Applier.CatalogApplier.Poll` | src/server/catalog_applier.cpp:30-57 | the tick records the stored version and posts an apply unless the version is held back |
| `Applier.RetriedEveryThirtiethPoll` | src/server/catalog_applier.hpp:55-62 | a failed version is left alone for 29 ticks and posted on the 30th; any other newer version is posted at once |
| `ConfigText.TrimLoop` | src/core/config.cpp:28-32 | strips blanks from both ends |
| `ConfigText.StripComment` | src/core/config.cpp:34-41 | cuts at the first # outside quotes |
| `ConfigText.QuoteLoop` | src/core/config.cpp:141-153 | writes the quoted form |
| `ConfigText.StringValueLoop` | src/core/config.cpp:43-56 | reads a quoted string |
| `ConfigText.StringArrayLoop` | src/core/config.cpp:95-114 | reads an array of quoted strings |
| `ConfigText.StringRoundTrip` | src/core/config.cpp:43-56 | every string, whatever its characters, is read back from its quoted form |
| `ConfigText.CutQuote` | src/core/config.cpp:34-41 | the comment scan keeps a quoted string whole and leaves the quotes open only behind a trailing backslash |
| `ConfigText.ArrayRoundTrip` | src/core/config.cpp:95-114 | an array without items ending in a backslash is read back |
| `ConfigText.ArrayDiffers` | src/core/config.cpp:95-114 | a text starting like an array up to an item ending in a backslash is read as an error or as another array |
| `ConfigText.ArrayLine` | src/core/config.cpp:155-159 | an array line splits at its key, and its items come back if and only if none ends in a backslash |
| `ConfigText.ScalarLine` | src/core/config.cpp:174-178 | key and text of a scalar line come back whole |
| `ConfigText.DigitsRoundTrip` | src/core/config.cpp:58-64 | decimal text of a number reads as the number |
| `ConfigText.BackendRoundTrip` | src/core/config.cpp:161-166 | every backend value is read back from the text written for it, bare or quoted |
| `ConfigText.EntryIff` | src/core/config.cpp:174-182 | the line of a subtable entry adds its own key or nothing, and its own value if and only if no comment starts on it |
| `ConfigText.PlainKeyUncut` | src/core/config.cpp:34-41 | for a key without quotes that means no hash mark in the key, whatever the value |
| `ConfigText.SplitIsLegible` | src/core/config.cpp:174-178 | a key read from a line is trimmed, holds no equals sign or newline and does not start with a bracket |
| `CatalogText.ParseCatalog` | src/core/catalog.cpp:54-108 | the line loop computes the document; what a text means is stated by the rows of CatalogMeaning |
| `CatalogMeaning.AssignsMean` | src/core/config.hpp:128-160 | for assignments in any order, repeated or missing, each field of the export has the last value assigned to its key, or its literal default |
| `CatalogMeaning.ParseMeans` | src/core/catalog.cpp:54-108 | a text of any such header and blocks is refused without a version, and otherwise parses to exactly what its assignments and subtables mean, without per-node keys, by fsid |
| `CatalogMeaning.FaultRefusesText` | src/core/config.cpp:168-231 | an unknown key, a number, size, unit, squash mode or value of the wrong kind anywhere in a block refuses the whole text |
| `CatalogMeaning.SectionRefusesText` | src/core/catalog.cpp:77-81 | an unknown section or a second header refuses the whole text |
| `CatalogMeaning.KeyRefusesText` | src/core/catalog.cpp:82-97 | an unknown header key, or any key before the header, refuses the whole text |
| `CatalogMeaning.BareValueReads` | src/core/config.cpp:135-139 | an unquoted subtable value is a truth value, a number in its shortest form, or an error |
| `CatalogLines.FeedByMeaning` | src/core/catalog.cpp:69-105 | two lines that clean to nothing, to the same section text, or to the same key and value text do the same to every parser state |
| `CatalogLines.ParseByMeaning` | src/core/catalog.cpp:54-108 | two texts whose lines mean the same, blank ones aside, parse to the same catalog or the same error |
| `CatalogLines.PeekByMeaning` | src/core/catalog.cpp:110-127 | and give the same version to the peek |
| `CatalogLines.StyledMeans` | src/core/config.cpp:28-41 | blanks around the line, the key and the equals sign and a trailing comment do not change what a line means |
| `CatalogLines.NoiseMeansNothing` | src/core/config.cpp:28-41 | blanks and a comment alone mean nothing |
| `CatalogLines.CommentedStringIff` | src/core/config.cpp:34-41 | a path or backend name with a comment behind it is read if and only if there is no comment or it does not end in a backslash |
| `CatalogText.PeekCatalogVersion` | src/core/catalog.cpp:110-127 | the line loop finds the version |
| `CatalogMeaning.PeekAgrees` | src/core/catalog.cpp:110-127 | the version peeked is the first of the header, the one parsed the last; they agree exactly if these are the same |
| `CatalogMeaning.PeekNeedsHeader` | src/core/catalog.cpp:118-124 | a version outside the header is passed over |
| `CatalogMeaning.SectionEndsHeader` | src/core/catalog.cpp:118-121 | any other section ends the header |
| `CatalogText.SerializeCatalog` | src/core/catalog.cpp:129-154 | writes the canonical text: exports by fsid, subtable keys sorted |
| `CatalogText.CanonicalTextIsUnique` | src/core/catalog.hpp:51-53 | a document has exactly one canonical text |
| `CatalogText.LinesRoundTrip` | src/core/catalog.cpp:59-61 | splitting undoes joining for lines without newlines, whatever follows them |
| `CatalogText.AssignReads` | src/core/config.cpp:168-231 | every line written for an export is read as the assignment it was written for |
| `CatalogText.FeedExport` | src/core/catalog.cpp:54-108 | the lines of one export append exactly that export, its arrays and subtable as they are read |
| `CatalogText.TableIff` | src/core/catalog.cpp:148-152 | a subtable comes back if and only if no comment starts on any of its lines |
| `CatalogText.ParsedKeysAreLegible` | src/core/catalog.cpp:54-108 | from whatever text, parsing yields no key that a line cannot carry |
| `CatalogText.ParseSerialized` | src/core/catalog.cpp:54-154 | parsing the written text gives the document by fsid with arrays and subtables as they are read, or an error |
| `CatalogText.CatalogRoundTrip` | src/core/catalog.hpp:51-56 | parse(serialize(c)) == c if and only if the exports stand by fsid, no client or node entry ends in a backslash, and every subtable key can be read from its line and no comment starts there |
| `CatalogText.ValidIsStorable` | src/core/catalog.cpp:180-235 | validation excludes trailing backslashes: arrays never break a valid document |
| `CatalogText.ValidRoundTrip` | src/core/catalog.hpp:51-56 | for valid documents the promise holds if and only if they stand by fsid and their subtable keys fit on their lines |
| `CatalogText.CommentKeyIsLost` | src/core/catalog.cpp:148-152 | valid documents with the subtable key #x or [x do not survive |
| `CatalogText.TrailingBackslashIsLost` | src/core/config.cpp:95-114 | a document with a client entry ending in a backslash does not survive, but validation refuses it |
| `CatalogText.PeekSerialized` | src/core/catalog.cpp:110-127 | the version is read from the text, whatever the exports hold |
| `Readdir.ReaddirPage` | src/core/readdir.cpp:8-36 | the page at the position a cookie asks for: dots still due, then backend entries with shifted cookies; unknown cookies and overflow refused |
| `Readdir.CookieMeans` | src/core/readdir.cpp:27-33 | every cookie handed out leads back to exactly its position |
| `Readdir.PageIsStretch` | src/core/readdir.cpp:8-36 | a page is a stretch of the listing, empty or eof only at the end |
| `Readdir.FillMeans` | src/nfsv3/engine.cpp:550-575 | the budget loop emits exactly the visible entries of a prefix and stops only before one that does not fit |
| `Readdir.ProcReaddir` | src/nfsv3/engine.cpp:527-575 | the NFSv3 reply at a position; for any cookie its names and cookies are within dircount and the whole reply within maxcount |
| `Readdir.Answer3Keeps` | src/nfsv3/engine.cpp:547-575 | an NFSv3 answer keeps both limits, counted byte by byte, and cuts the page only before an entry that would break one of them |
| `Readdir.ScanPages` | src/nfsv4/engine.cpp:1638-1682 | the NFSv4 loop over backend pages is one scan over the rest of the listing, however the backend pages it |
| `Readdir.OpReaddir` | src/nfsv4/engine.cpp:1446-1682 | the NFSv4 reply at a position; cookies 1 and 2 refused |
| `Readdir.Answer4Keeps` | src/nfsv4/engine.cpp:1560-1598 | an NFSv4 answer lists visible entries in order within both limits, and stops only before one that would break one of them |
| `Readdir.AnswerCovers` | src/nfsv4/engine.cpp:1560-1598 | every request is refused as too small, or answered OK with no entry and no eof exactly if the next visible entry does not fit, or covers a stretch of the listing, where only the end goes without an entry |
| `Readdir.SessionProgress` | src/core/readdir.cpp:8-36 | after any number of requests the client holds exactly the visible entries before its position |
| `Readdir.SessionEnumerates` | src/nfsv4/engine.cpp:1638-1682 | while each request admits the next entry, following the cookies from 0 yields every visible entry once and in order, eof only then, within one request per entry and one more |
| `Readdir.V3ListsEverything` | src/nfsv3/engine.cpp:534-575 | for NFSv3 that is the entry ".", the entry ".." and every backend entry in order |
| `Readdir.V4ListsShown` | src/nfsv4/engine.cpp:1648-1664 | the visible NFSv4 entries are exactly the shown backend entries not named "." or "..", in order |
| `Readdir.V4ListsDirectory` | src/nfsv4/engine.cpp:1650-1650 | the two dot entries are not among them |
| `Compound.OperationBound` | src/nfsv4/engine.cpp:434-455 | an operation leaves the reply within max(max_response, size before + 16); a rolled-back one adds exactly opcode and status |
| `Compound.OperationFits` | src/nfsv4/engine.cpp:434-455 | an operation leaves the reply within the limit if and only if its smallest result fits: 16 bytes for READ and READ_PLUS, 8 for any other |
| `Compound.ReadBound` | src/nfsv4/engine.cpp:1285-1315 | READ clamps its data |
| `Compound.ReadIsMaximal` | src/nfsv4/engine.cpp:1285-1315 | READ returns all there is of what was asked for, or exactly as much as leaves 256 bytes |
| `Compound.ReadPlusIsMaximal` | src/nfsv4/engine.cpp:1362-1442 | READ_PLUS likewise: nothing, the hole, or as much data as fits |
| `Compound.ReadPlusBound` | src/nfsv4/engine.cpp:1362-1442 | READ_PLUS clamps its segment |
| `Compound.ReaddirBound` | src/nfsv4/engine.cpp:1507-1513 | READDIR stays within its budget |
| `Compound.ResultShape` | src/nfsv4/engine.cpp:416-455 | all results but the last are OK, the last carries the status, only an undecodable operation leaves none |
| `Compound.ReplyBound` | src/nfsv4/engine.cpp:416-455 | the whole reply exceeds the limit by at most 16 bytes per operation |
| `Compound.ReplyFits` | src/nfsv4/engine.cpp:416-455 | a whole compound keeps the limit if and only if the last operation that ran started with room for its smallest result |
| `Compound.ReadLastFits` | src/nfsv4/engine.cpp:416-455 | with 16 bytes left behind SEQUENCE and READ or READ_PLUS only as the last operation the limit is kept, wherever READDIR stands |
| `Compound.SafeIff` | src/nfsv4/engine.cpp:416-455 | the exact condition on the opcodes of a request: with 16 bytes behind SEQUENCE its reply keeps the limit whatever the operations find, if and only if no operation can start with less room than its smallest result |
| `Compound.SafeMeansReadLast` | src/nfsv4/engine.cpp:434-455 | without READDIR and session operations that means: READ and READ_PLUS nowhere but in the last place |
| `Compound.PlainReplyFits` | src/nfsv4/engine.cpp:440-455 | without READ, READ_PLUS and READDIR the reply keeps the limit |
| `Compound.ReadsGrow` | src/nfsv4/engine.cpp:434-439 | however full the reply is, a READ without data succeeds and adds 16 bytes |
| `Compound.ExecuteInto` | src/nfsv4/engine.cpp:434-455 | encode, compare, roll back: what ends up in the encoder |
| `Compound.RunLoop` | src/nfsv4/engine.cpp:416-455 | the operation loop encodes exactly the results of the run and counts them |
| `Compound.SessionCompound` | src/nfsv4/engine.cpp:345-471 | a claimed slot is settled by exactly one abort or complete before the one reply is sent, with each refusal for its reason; what is completed and sent honours what the session negotiated |
| `Compound.RunHonours` | src/nfsv4/engine.cpp:400-471 | the reply keeps min(max_response, max_response_cached) when it is cached and max_response otherwise, up to 16 bytes per result, and exactly for safe requests; what is cached is the reply without its 24 header bytes |
| `Compound.ResultsExplained` | src/nfsv4/engine.cpp:440-455 | a result is kept if it leaves 16 bytes of the limit; otherwise the error is REP_TOO_BIG_TO_CACHE exactly if it would have fitted without caching |
| `Compound.FailingSays` | src/nfsv4/engine.cpp:345-395 | a refused compound carries its status in the header and in its one result |
| `Compound.ReplyIsSound` | src/nfsv4/engine.cpp:416-471 | status and count in the header match the well-shaped results that follow, and the size keeps the bound |
| `Compound.FilledReplyOverflows` | src/nfsv4/engine.cpp:434-455 | in every session whose limit a link text fills up to 16 bytes, PUTFH, READLINK, PUTFH and k READs give a reply of exactly limit - 16 + 16 k bytes |
| `Compound.OverfullCompound` | src/nfsv4/engine.cpp:345-471 | such a session compound: a link of 900 bytes and two READs make a reply 16 bytes over its limit of 1024 |
| `Stateids.Ctx.Resolve` | src/nfsv4/engine.cpp:119-124 | a placeholder resolves to the current stateid if there is one |
| `Stateids.Ctx.ExecOp` | src/nfsv4/engine.cpp:517-668 | the registers after each kind of operation |
| `Stateids.StepMatches` | src/nfsv4/engine.cpp:517-668 | no operation separates a stateid register from the file of its filehandle register |
| `Stateids.RunsMatch` | src/nfsv4/engine.cpp:2067-2069 | in every compound, with whatever stateids earlier ones got, a valid current stateid was issued for the file of the current filehandle, likewise the saved pair |
| `Stateids.IssuedForever` | src/nfsv4/engine.cpp:2180-2181 | a stateid never changes its file |
| `Stateids.PlaceholderFitsFile` | src/nfsv4/engine.cpp:3325-3338 | wherever an operation falls back on the current stateid it belongs to the current file; what a COPY source falls back on belongs to the saved file if and only if a stateid was saved or both filehandles are the same |
| `Stateids.SourceFallsOnTarget` | src/nfsv4/engine.cpp:3325-3334 | a run in which the source placeholder of COPY resolves to a stateid of the target |
| `Stateids.EarlierStateidCarries` | src/nfsv4/engine.cpp:3023-3024 | PUTFH, LOCK with the stateid of an earlier compound, READ with the placeholder: the READ uses the new stateid, which belongs to the same file |
| `Stateids.SaveRestore` | src/nfsv4/engine.cpp:535-558 | SAVEFH, anything but another SAVEFH, RESTOREFH brings back filehandle and stateid |
| `Stateids.FilehandleFollows` | src/nfsv4/engine.cpp:517-668 | in every run the current filehandle is moved by successful PUTFH, LOOKUP, CREATE, OPEN, SECINFO and RESTOREFH only, each to where it says |
| `Stateids.PlaceholderNeedsStateid` | src/nfsv4/engine.cpp:119-124 | a placeholder without a stateid to stand for is BAD_STATEID |
| `TokenBuckets.TokenBucket.Configure` | src/runtime/token_bucket.hpp:25-34 | new shape, level capped, a disabled bucket starts full |
| `TokenBuckets.TokenBucket.TryAcquire` | src/runtime/token_bucket.hpp:41-66 | one critical section of acquire |
| `TokenBuckets.LevelIsCapped` | src/runtime/token_bucket.hpp:25-58 | the level never exceeds the burst |
| `TokenBuckets.EnabledBucketIsFull` | src/runtime/token_bucket.hpp:25-34 | an enabled bucket grants its burst at once and no more; burst 0 means one second of the rate |
| `TokenBuckets.ReconfiguredKeepsLevel` | src/runtime/token_bucket.hpp:25-34 | a new shape keeps level and clock, cut to the new burst |
| `TokenBuckets.TakenPlusLevel` | src/runtime/token_bucket.hpp:45-60 | what was taken plus what is left is at most a full bucket and the refill |
| `TokenBuckets.WindowBound` | src/runtime/token_bucket.hpp:45-60 | for any clock readings: taken <= rate * climb of the readings + max(burst, largest request) |
| `TokenBuckets.RateIsKept` | src/runtime/token_bucket.hpp:40-60 | for readings that never go back: taken in a window <= rate * T + max(burst, largest request) |
| `TokenBuckets.RateIsKeptIff` | src/runtime/token_bucket.hpp:49-60 | the clock readings at which every bucket and all requests keep that bound are exactly those that never go back |
| `TokenBuckets.DropMisses` | src/runtime/token_bucket.hpp:49-60 | wherever a reading goes back, single tokens from a full bucket miss the bound |
| `TokenBuckets.BackwardClockRefillsTwice` | src/runtime/token_bucket.hpp:49-55 | a reading that goes back far enough lets a full bucket be emptied twice within a window of length zero |
| `TokenBuckets.LoneAcquireFinishes` | src/runtime/token_bucket.hpp:56-66 | a lone acquire of any size is granted after at most two sleeps |
| `TokenBuckets.SleepIsExact` | src/runtime/token_bucket.hpp:61-66 | a sleep is the time the missing tokens take, up to a nanosecond, and at least a millisecond |
| `Utf8.ValidUtf8` | src/core/names.cpp:14-36 | accepts exactly the concatenations of RFC 3629 encodings of scalar values other than U+FFFE and U+FFFF |
| `Utf8.AcceptedIsEncoding` | src/core/names.cpp:18-34 | every accepted sequence is the encoding of an admitted value |
| `Utf8.EncodingIsAccepted` | src/core/names.cpp:18-34 | every encoding of an admitted value is accepted and decodes to it |
| `Utf8.DecompositionIsUnique` | src/core/names.cpp:14-36 | no byte string has two decompositions |
| `ArgsHash.HashBytes` | src/rpc/rpc_msg.cpp:43-46 | the inner loop continues FNV-1a |
| `ArgsHash.OneSegment` | src/rpc/rpc_msg.cpp:33-48 | one segment further: header bytes skipped, then up to the wanted bytes hashed |
| `ArgsHash.ArgsHash` | src/rpc/rpc_msg.cpp:25-50 | the checksum is the flat FNV-1a of the first min(256, rest) argument bytes, for every way of cutting the record |
| `ArgsHash.MixIsInjective` | src/rpc/rpc_msg.cpp:44-45 | one round keeps different bytes and different states apart |
| `ArgsHash.OneByteChangesHash` | src/rpc/rpc_msg.cpp:25-50 | changing one covered byte changes the checksum |

## Left out

- io_uring and epoll rings, sockets, TLS, eventfd wakeups, metrics, logs, the control program: no hard property.
- Memory orderings, exceptions, C++ object lifetime and coroutine frames: steps are sequentially consistent.
- Backend libraries, the state manager, the cluster controller: only the contracts the models name.
- Offload pool as a class: its threads interfere between single instructions, so it is a state machine over values; the round-robin shard choice is left open.
- AsyncMutex and Semaphore on their own: the shared mutex covers the first, the pool's permit count the second.
- Sharding of the duplicate request cache by hash, its statistics, and single ownership across an operator flush.
- LockOrder.MutateGuard.Enter: attribute samples, the name precheck and `check_component`; the waiting for the lock is the step machine of the same module.
- LockOrder.MutateGuard.EnterTwo: as for one target.
- Exports.ExportTable.Apply: the pseudo tree, QoS bucket contents and retirement timestamps are not modelled; CIDR parsing is a predicate on texts.
- Exports.ExportTable.TakeRetired: the use count is a parameter; `rcu.dfy` counts owners.
- Catalogs.ValidateCatalog: backend names, owner-list syntax and shared-volume owners are predicates given by the environment; the reason texts are not modelled.
- Applier.CatalogApplier.ApplyPipeline: validation of the merged host configuration is a predicate; digest, log and the record written back to the store are not modelled.
- CatalogText.CatalogRoundTrip: for an export with a subtable the backend name holds no quotes, hash marks and newlines; the registered names local, cephfs, gluster and lustre are such.
- CatalogText.ValidIsStorable: that CIDR texts and owner names do not end in a backslash is a condition on the environment; `inet_pton` ends a text at a NUL character, which is not modelled.
- CatalogMeaning.ParseMeans: lines as `key = value`; other spacing and comments reduce to these by CatalogLines.ParseByMeaning and StyledMeans.
- CatalogText.ParseCatalog: local configuration sections other than exports, durations, and the warning about per-node keys.
- Readdir.OpReaddir: cookie verifiers (the directory does not change), the synthesized tree's own listing, attribute encoding (entries carry their encoded size).
- Compounds without SEQUENCE (`src/nfsv4/engine.cpp:474-500`), which hold no slot and at most one operation.
- Decoding of arguments, and what operations of a compound do besides their results.
- Stateids.Ctx.ExecOp: which errors precede which; delegations.
- TokenBuckets.TokenBucket.TryAcquire: levels are exact numbers instead of doubles.
