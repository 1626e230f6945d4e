# QuantumCache: a verified model

QuantumCache is a crash-safe write-back cache: sharded LRU memory, a write-ahead journal, an
append-only key/value log as backing store, and a startup protocol that decides whether to replay
the journal. This project models those parts in Dafny and proves how they agree;
`dafny verify dfyconfig.toml` checks the whole of it.

The model has four layers.

- **Bytes.** `Bytes` (little-endian fields), `Crc32`, `RecordCodec`, `Framing` (scans of framed
  logs, generic), `ByteFileModel`, `Journal`, `BackingStore`, `SessionMarkers`, `Sessions`. Files are
  byte sequences; a crash keeps a prefix of the write in progress. 32-bit words are numbers below
  2^32 and exclusive or is defined bit by bit on numbers. Integers are laid out lowest byte first, as
  the source's raw copies do on its target machines.
- **One shard.** `LruList` (recency lists, accounting sums, eviction as functions) and `ShardModel`
  (the class, updated in place). Every critical section is a method that keeps the accounting
  invariant, so every interleaving of critical sections keeps it.
- **The engine, one caller at a time.** `EngineMemory` (its state as a value), `EngineCapacity` and
  `CacheEngineModel` (the class). Any journal or store call may fail without effect; the constant
  `faultFree` states an environment in which none does. `Lookup`, the cached value or else the stored
  one, is the plain map the engine refines.
- **Threads.** `Protocol` is a program-counter machine in which every shard critical section, journal
  call, store call and admission action is one atomic step. Runs have crashes, crashes that tear an
  append, repeated recovery, orderly stops marked clean, and startups that then skip replay.
  Writes of every length are journaled, and what replay cannot read or decode has its effect.
  `Versions`, `Admission`, `Fence`, `CommitOrder`, `Completion`, `Invalidation`, `Limits`, `KeyViews`,
  `Durability`, `Answers`, `Acknowledged`, `Reads`, `PlainMap` and `Drain` prove what every run keeps
  and what its callers are told; `Counterexamples`, built on `Runs`, gives runs that show which
  hypotheses cannot be dropped. `Replay` is shared by the last two layers.

`EndToEnd` joins the layers: from the step machine's journal and store down to the bytes of both files.

Where comments and code disagree the model follows the code:

- the mutation fence is advanced by read-fills too (src/CoreEngine/src/CacheEngine.cpp:997), although
  the comment at line 176 says it never is;
- an invalidation mints no version and erases on equality (lines 1302 and 1336), although lines 86-90
  say otherwise;
- replay records FlushInProgress in its pending table but never reads it (line 257);
- a Put that took effect may report NotFound under write-through when relief has already flushed and
  evicted its own entry (lines 651-663); the value is then in the store;
- the marker's comment excludes torn writes (src/PowerResilience/src/SessionMarker.cpp:11-16); the
  model allows them at every byte.

## Model

| member | source | states |
|---|---|---|
| `Durability.CrashDurability` | src/CoreEngine/src/CacheEngine.cpp:219-338 | Over any number of sessions, in every interleaving in which no two compactions overlap, no two flushes of one key overlap, no two Puts of one key are between append and commit at once, an invalidation overlaps no other mutation of its key and no store removal of one fails, no flush of a key completes after its Invalidate in the same journal, no write is journaled behind a torn append or in a frame over 256 MiB, and stops are marked clean only with nothing unflushed: after a crash at any step, torn or not, a startup that succeeds serves for every key what its last journaled Upsert or Invalidate made of it, or its original store value. If no call ever passed a key or value over 64 MiB, every startup succeeds |
| `Durability.PutSurvivesExactly` | src/CoreEngine/src/JournalRecordCodec.cpp:84-101 | In such a run, after the step that journals a Put, startup succeeds if and only if the record is within 64 MiB per field or its frame exceeds 256 MiB; then it serves the new value if and only if the record is within 64 MiB per field, and every other key as before |
| `Durability.StartupOpens` | src/CoreEngine/src/CacheEngine.cpp:309-317 | After a crash a session can be opened if and only if the marker says clean or every record replay reaches is within 64 MiB per field, and it then serves exactly that map |
| `Limits.RunSized` | src/CoreEngine/src/CacheEngine.cpp:909-925 | In every interleaving, if the writes callers journal are within a limit, 64 MiB per field or 256 MiB per frame, then so is every record the engine ever appends, its flush records included, and all that is unflushed or on its way to the store |
| `Limits.CallsSized` | src/CoreEngine/src/CacheEngine.cpp:608-649 | Bounding what Put and Invalidate are called with bounds what they journal |
| `PlainMap.ServesPlainMap` | src/CoreEngine/src/CacheEngine.cpp:446-553 | In every benign run without invalidations an open session serves every key with the plain map's value, what the last startup found changed only by the commits of Puts, whatever flushes, evictions, read-fills, compactions and failures happen in between |
| `PlainMap.ServesTruth` | src/CoreEngine/src/CacheEngine.cpp:624-649 | In such runs a key is served with exactly what a restart would serve, whenever no Put of it is between append and commit |
| `PlainMap.GetsAreAtomic` | src/CoreEngine/src/CacheEngine.cpp:446-553 | In such runs what every Get tells its caller, a value or NotFound, is the plain map's value at one moment between its lookup and its return |
| `Answers.GetAnswers` | src/CoreEngine/src/CacheEngine.cpp:446-553 | In every interleaving a Get that ends answers: a value, if its key is cached then, is the live entry's and never an older one read from the store; if it is not cached, what the store held at a step of the call; IoError, NotFound or CorruptData exactly if its read of the store failed, found nothing or found a value over 64 MiB. What was read is cached as Clean if and only if the fence has not moved |
| `Answers.OneAnswer` | src/CoreEngine/src/CacheEngine.cpp:446-848 | In every interleaving every call of Get, Put, Invalidate, Flush, FlushAll or Shutdown is told nothing while it is at work and exactly one result when it ends |
| `Answers.AckedPutIsJournaled` | src/CoreEngine/src/CacheEngine.cpp:608-666 | In every interleaving a Put answered after its append has journaled its Upsert, under the version it works for and with the value it was called with; without write-through the answer is success |
| `Answers.RefusedPutLeavesNothing` | src/CoreEngine/src/CacheEngine.cpp:617-646 | In every interleaving a Put answered before that is told that the engine is stopping or that the append failed, and its call has journaled nothing |
| `Answers.FlushAnswers` | src/CoreEngine/src/CacheEngine.cpp:1173-1262 | In every interleaving the flush of Flush or of a write-through Put answers NotFound exactly if the key is not cached; success only if the entry is not Dirty or not of the expected version, or this flush itself has put the claimed value into the store; IoError only if one of its calls failed |
| `Answers.InvalidateAnswers` | src/CoreEngine/src/CacheEngine.cpp:1280-1345 | In every interleaving an invalidation answers UnflushedDirtyData exactly if it is not forced and finds unflushed data; success only after it has journaled its record and then removed the key from the store, and the version it noted is no longer cached |
| `Answers.FlushAllAnswers` | src/CoreEngine/src/CacheEngine.cpp:686-734 | In every interleaving FlushAll reports a failure if and only if one of its flushes failed |
| `Answers.FlushAllTriesAll` | src/CoreEngine/src/CacheEngine.cpp:692-724 | In every interleaving, and however many of its flushes fail, FlushAll sets out to flush every key that was Dirty when it looked at its shard, in every shard |
| `Acknowledged.AckedPutSurvives` | src/CoreEngine/src/CacheEngine.cpp:608-666 | In every benign run with calls within 64 MiB: once a Put is answered after its append, a crash at any later step is followed by a startup that serves the value it was called with, unless a later write of its key was journaled |
| `Counterexamples.NotFoundAlthoughCached` | src/CoreEngine/src/CacheEngine.cpp:476-483 | A run in which a Get answers NotFound although a Put of its key was committed and acknowledged since its lookup |
| `Durability.TruncationQuiescent` | src/CoreEngine/src/CacheEngine.cpp:1629-1664 | In such runs every truncation, by Shutdown or by compaction, finds no admitted write unfinished and every entry Clean |
| `Admission.InFlightCountExact` | src/CoreEngine/src/CacheEngine.cpp:1456-1492 | In every interleaving the in-flight count equals the number of threads between admission and release, relief flushes included |
| `Admission.ShutdownTruncationSafe` | src/CoreEngine/src/CacheEngine.cpp:765-848 | In every interleaving, when Shutdown truncates the journal no admitted Put or Invalidate is unfinished and no entry is Dirty or FlushInProgress; if the call succeeds, the journal is empty afterwards and any tear is gone |
| `Admission.CompactionTruncationSafe` | src/CoreEngine/src/CacheEngine.cpp:1544-1680 | The same for opportunistic compaction, as long as compactions have not overlapped |
| `Admission.OnlyWritersDirty` | src/CoreEngine/src/CacheEngine.cpp:624-649 | Only a thread that holds a write admission can make an entry unflushed |
| `Versions.RunInv` | src/CoreEngine/src/CacheEngine.cpp:909-925 | In every reachable state versions are unique and below the counter, version 0 is reserved for Clean read-fills, and what a thread holds in its hands is consistent with the entry it came from |
| `Versions.UnflushedNeverDropped` | src/CoreEngine/src/CacheEngine.cpp:941-1030 | In every interleaving a Dirty or FlushInProgress entry survives each step or is replaced by a strictly newer version; the only exceptions are a crash and a ForceInvalidate of that version. It turns Clean only by its own flush after FlushComplete was journaled |
| `Fence.FenceSound` | src/CoreEngine/src/CacheEngine.cpp:509-523 | Equal fence values at a Get's miss and commit imply that in between the shard saw no insert, no update and no completed invalidation, and that the key is still absent, so a read-fill replaces nothing |
| `Fence.EqualFences` | src/CoreEngine/src/CacheEngine.cpp:991-997 | Any two states of a run with equal fence values of a shard enclose only steps that bring nothing new into that shard |
| `Fence.PutReplacesFill` | src/CoreEngine/src/CacheEngine.cpp:952-960 | A Put that commits over a read-fill or over nothing always becomes the resident Dirty entry |
| `CommitOrder.CommitOrderIrrelevant` | src/CoreEngine/src/CacheEngine.cpp:941-1002 | In any interleaving of a session that neither evicts nor invalidates a key, its resident value is that of the highest-version committed Put, and of the last journaled Upsert once no Put of it is between append and commit |
| `CommitOrder.VersionsIncrease` | src/CoreEngine/src/CacheEngine.cpp:914-925 | Upsert versions are strictly increasing in journal order within a session, and above every version known when it began |
| `Drain.DrainEnds` | src/CoreEngine/src/CacheEngine.cpp:1456-1492 | While admission stays paused or stopping, the admitted writers together take at most a fixed number of steps (64 relief flushes each at most); until the count is zero some writer can step, and the measure is zero exactly when the count is, so the waits of Shutdown and compaction end |
| `Drain.NoDeadlock` | src/CoreEngine/src/CacheEngine.cpp:1456-1492 | In every reachable state with an unfinished operation some unfinished operation can take a step |
| `Counterexamples.OverlappingFlushesLose` | src/CoreEngine/src/CacheEngine.cpp:1213-1218 | A run in which two overlapping flushes of one key store their values in the wrong order: all calls succeed, nothing is pending, the store keeps the older value |
| `Counterexamples.LateCommitReverts` | src/CoreEngine/src/CacheEngine.cpp:944-968 | A run in which a Put commits after a newer one was committed, flushed and evicted: the older value returns to cache and store |
| `Counterexamples.OverlappingCompactionsLose` | src/CoreEngine/src/CacheEngine.cpp:1617-1679 | A run in which one compaction clears the pause flag under another, and a Put that succeeds is truncated away |
| `Counterexamples.ReputKeyIsLost` | src/CoreEngine/src/CacheEngine.cpp:262-303 | A run in which a key is invalidated, put again and flushed within one journal: the cache and the store hold its value, and a restart loses it |
| `Counterexamples.BuriedPutIsLost` | src/PowerResilience/src/WriteAheadJournal.cpp:68-103 | A run in which a crash tears an append, the next session's Put of a key succeeds, and a restart takes the key back to its value before the tear |
| `Counterexamples.UncleanStopLoses` | src/Service/src/main_service.cpp:351-363 | A run in which the flush of an orderly stop fails, the stop is marked clean all the same, and the next session opens without replay and does not serve the key |
| `Invalidation.InvalidationExact` | src/CoreEngine/src/CacheEngine.cpp:1280-1345 | In every interleaving a completed invalidation leaves its key cached if and only if between its note and its erase some thread committed another version of the key that was still resident at the end; in particular never if nobody committed the key in between |
| `Invalidation.OtherVersion` | src/CoreEngine/src/CacheEngine.cpp:1316-1345 | After the note, any resident version other than the noted one was brought by a commit of the key and has stayed since |
| `Completion.CompletionMatches` | src/CoreEngine/src/CacheEngine.cpp:262-270 | In every interleaving, over all sessions and with tears, skipped replays, invalidations and overlaps, a FlushComplete that settles a pending Upsert settles one whose value is the value that flush stored, although version numbers repeat |
| `Completion.RunAgrees` | src/CoreEngine/src/CacheEngine.cpp:909-925 | In every reachable state equal versions of a key mean equal values in the readable journal, in the cache and in the hands of writers and flushes |
| `Reads.GetReadsSomeMoment` | src/CoreEngine/src/CacheEngine.cpp:446-553 | In every benign run without invalidations what a Get tells its caller, a value or NotFound, is what was served for its key at some moment between its lookup and its return |
| `EndToEnd.CrashServesTruth` | src/CoreEngine/src/CacheEngine.cpp:235-338 | From the journal file of any state of a benign run, followed by bytes that form no frame, and its store file, followed by a torn entry, scanning, decoding and replaying succeeds if and only if every readable record is within 64 MiB per field, as it is if no call passed more; it then serves every key with what its last journaled Upsert or Invalidate made of it, or its original store value |
| `EndToEnd.TornWritesServeTruth` | src/CoreEngine/src/CacheEngine.cpp:235-338 | The same with one append torn at any byte at the end of each file, no hypothesis on the tail, and every call within 64 MiB: the restart succeeds and serves that map |
| `EndToEnd.MachineReadsFile` | src/PowerResilience/src/WriteAheadJournal.cpp:54-167 | What the step machine keeps as its journal is exactly what replay reads back from the file of all frames appended since the last truncation, for records of any length below 4 GiB |
| `EndToEnd.StoredReadable` | src/Storage/src/FileBackingStore.cpp:94-101 | Every value a benign run writes to the store is short enough to be read back on reopening |
| `EndToEnd.RestartExact` | src/CoreEngine/src/CacheEngine.cpp:235-317 | For records of any length, a restart from the two files reads the records before the first frame over 256 MiB, fails with CorruptData if and only if one of those has a key or value over 64 MiB, and otherwise serves exactly the recovered map |
| `Counterexamples.InvalidatedKeyStaysReadable` | src/CoreEngine/src/CacheEngine.cpp:1316-1345 | A run in which an invalidation succeeds and the store loses the key, while a read-fill taken in between keeps serving it from the cache |
| `Counterexamples.LongPutBlocksRestart` | src/CoreEngine/src/JournalRecordCodec.cpp:84-101 | A run in which a Put over 64 MiB succeeds and after a crash no startup does, so not even the small write before it is served |
| `Counterexamples.OverlongPutHidesLater` | src/PowerResilience/src/WriteAheadJournal.cpp:120-122 | A run in which a Put whose frame exceeds 256 MiB succeeds, then a small Put; after a crash the startup succeeds and has silently lost both |
| `Counterexamples.OverlappingFlushResurrects` | src/CoreEngine/src/CacheEngine.cpp:1213-1218 | A run in which a ForceInvalidate runs to its end inside a flush of its key: both succeed, and the store holds the key again |
| `Replay.PendingExact` | src/CoreEngine/src/CacheEngine.cpp:228-308 | For every record sequence a key is pending after replay exactly when its last Upsert is followed by no Invalidate of it and no FlushComplete of that version, and then with that Upsert's value and version |
| `Replay.ReplayRestartable` | src/CoreEngine/src/CacheEngine.cpp:272-303 | Replay may stop after any number of records and start again: same recovered map, same store |
| `Replay.ReplayIdempotent` | src/CoreEngine/src/CacheEngine.cpp:226-233 | Restoring the same pending writes twice leaves the same entries as once |
| `EngineMemory.ReplayTwice` | src/CoreEngine/src/CacheEngine.cpp:219-348 | A second whole replay leaves the same entries, the same store and the same version counter |
| `EngineMemory.ReplayedSound` | src/CoreEngine/src/CacheEngine.cpp:319-338 | Replay into an empty engine leaves a state in which every pending key is Dirty, every version is covered by the counter, and the map served is exactly the one recovered from the records replay reaches |
| `EngineMemory.RecoveryExact` | src/CoreEngine/src/CacheEngine.cpp:235-303 | After a failure-free history with no record too long for a frame, a restart succeeds if and only if every record of the journal is within 64 MiB per field; it then serves a key exactly as before the crash if and only if it is not the case that the key is stored, not pending and named by an Invalidate record still in the journal |
| `EngineMemory.RecoveryFaithful` | src/CoreEngine/src/CacheEngine.cpp:262-303 | After a failure-free history, if in the journal no FlushComplete of a key follows an Invalidate of it and every record is within 64 MiB per field, a restart succeeds and serves exactly the map before the crash |
| `EngineMemory.CleanIsStored` | src/CoreEngine/src/CacheEngine.cpp:821-839 | When nothing is unflushed the store alone holds the plain map |
| `CacheEngineModel.CacheEngine.constructor` | src/CoreEngine/src/CacheEngine.cpp:189-200 | At least one shard, budgets split evenly with at least one entry each, empty and not ready |
| `CacheEngineModel.CacheEngine.Put` | src/CoreEngine/src/CacheEngine.cpp:608-666 | Refuses with the error of its lifecycle state or CacheDisabled, changing nothing. Otherwise uses up a version and changes the plain map (cached value, else stored) for exactly this key and exactly when its Upsert reaches the journal, or answers IoError with nothing changed. A write-back Put that is journaled answers success and, if its shard stays within budget, does nothing else. A write-through Put answers success with the value stored and the entry Clean, NotFound only if relief has flushed and evicted its entry, IoError only if a call failed and the entry is still Dirty. Without failures it keeps every shard within its budgets for keys and values of at most 4032 bytes together |
| `CacheEngineModel.CacheEngine.CommitWrite` | src/CoreEngine/src/CacheEngine.cpp:914-1002 | A journaled write gets the next version, becomes the Dirty front entry and evicts only Clean entries of its shard |
| `CacheEngineModel.CacheEngine.FlushThrough` | src/CoreEngine/src/CacheEngine.cpp:653-663 | Answers success with the entry Clean and the value in the store, NotFound exactly if the entry is gone, its value then being in the store, and IoError only if a call failed and the entry is still Dirty |
| `CacheEngineModel.CacheEngine.Get` | src/CoreEngine/src/CacheEngine.cpp:446-553 | Refuses with the error of its lifecycle state or CacheDisabled; otherwise returns the plain map's value, NotFound, or CorruptData for an uncached value over 64 MiB. A hit moves its key to the front, a value read from the store is inserted there as Clean and followed by eviction, and nothing else changes |
| `CacheEngineModel.CacheEngine.Fill` | src/CoreEngine/src/CacheEngine.cpp:509-523 | A read-fill with eviction keeps the plain map and the shard's budgets |
| `CacheEngineModel.CacheEngine.Flush` | src/CoreEngine/src/CacheEngine.cpp:680-684 | Refuses with the error of its lifecycle state; NotFound exactly for a key that is not cached; success leaves the entry Clean and its value in the store, with intent and completion journaled if it was Dirty; IoError only if a call failed, and the entry is then still Dirty. No other key of the store is touched |
| `CacheEngineModel.CacheEngine.FlushKey` | src/CoreEngine/src/CacheEngine.cpp:1173-1262 | The exact state after a flush that reached 0, 1, 2 or 3 of its effects; the plain map and the recency order never change |
| `CacheEngineModel.CacheEngine.FlushAll` | src/CoreEngine/src/CacheEngine.cpp:686-734 | Refuses with the error of its lifecycle state; otherwise succeeds if and only if every entry is Clean afterwards, which is so unless a call failed; the map never changes; without failures the journal is emptied if it had grown or anything was unflushed |
| `CacheEngineModel.CacheEngine.FlushShard` | src/CoreEngine/src/CacheEngine.cpp:693-716 | Tries every Dirty key of the shard, also after a failure; succeeds if and only if the whole shard is then Clean |
| `CacheEngineModel.CacheEngine.TryCompact` | src/CoreEngine/src/CacheEngine.cpp:1544-1680 | The journal is emptied only when everything is Clean, and without failures exactly then if it counts any record; the map never changes |
| `CacheEngineModel.CacheEngine.NothingDirty` | src/CoreEngine/src/CacheEngine.cpp:826-832 | The shards' dirty counters sum to zero exactly when no entry is unflushed |
| `CacheEngineModel.CacheEngine.Invalidate` | src/CoreEngine/src/CacheEngine.cpp:1264-1378 | Refuses with the error of its lifecycle state, and with UnflushedDirtyData exactly if not forced on unflushed data, changing nothing. Otherwise it succeeds, with its record journaled and the key gone from store and cache, or answers IoError because a call failed, with at most its record journaled; the map changes at its key on success and only then |
| `CacheEngineModel.CacheEngine.Shutdown` | src/CoreEngine/src/CacheEngine.cpp:765-848 | Keeps the map; truncates only if nothing is unflushed, otherwise the journal keeps all it held; if its scan finds nothing unflushed the store equals the map before the stop at every key; without failures everything is flushed and the journal is empty; idempotent |
| `CacheEngineModel.CacheEngine.ReplayFromJournal` | src/CoreEngine/src/CacheEngine.cpp:219-348 | Without I/O failures it succeeds if and only if every record before the first frame over 256 MiB is within 64 MiB per field, and fails with CorruptData otherwise. Success leaves exactly the replayed state; into an empty engine that is a valid engine serving the recovered map; a failure, the journal's, the decoder's or the store's, is passed on and latches RecoveryFailed with no entry changed and only journaled removals done |
| `CacheEngineModel.CacheEngine.ScanJournal` | src/CoreEngine/src/CacheEngine.cpp:235-308 | The callback loop, over the records replay reaches, computes the pending table and removes from the store exactly the keys of the Invalidate records read so far; it rejects a record with a key or value over 64 MiB, and without I/O failures no other |
| `CacheEngineModel.CacheEngine.RestorePending` | src/CoreEngine/src/CacheEngine.cpp:329-338 | In any iteration order the restored entries are the pending writes under the version guard, and the counter is their maximum |
| `CacheEngineModel.CacheEngine.MarkRecoveryComplete` | src/CoreEngine/src/CacheEngine.cpp:350-383 | Succeeds exactly from NotReady or Ready; RecoveryFailed can never become Ready |
| `CacheEngineModel.CacheEngine.ReliefRound` | src/CoreEngine/src/CacheEngine.cpp:1091-1157 | Does nothing within budget; otherwise flushes exactly the least recently used Dirty entry, if there is one, up to the effect that fails, and evicts; without failures a round in an over-budget shard of unflushed entries frees at least 64 bytes and one entry |
| `CacheEngineModel.CacheEngine.Relieve` | src/CoreEngine/src/CacheEngine.cpp:1088-1166 | Without failures 64 rounds bring a shard that one write of at most 4096 bytes pushed over back within both budgets; the map never changes |
| `EngineMemory.EvictSound` | src/CoreEngine/src/CacheEngine.cpp:1004-1030 | Evicting Clean entries never changes the plain map |
| `EngineMemory.FlushSound` | src/CoreEngine/src/CacheEngine.cpp:1202-1253 | However many of its effects a flush completes, the plain map stays the same |
| `EngineMemory.PutSound` | src/CoreEngine/src/CacheEngine.cpp:631-649 | A journaled and committed write changes the plain map at its key only |
| `EngineMemory.InvalidateSound` | src/CoreEngine/src/CacheEngine.cpp:1299-1345 | A completed invalidation removes exactly its key; one whose store removal failed changes nothing |
| `EngineMemory.TruncateSound` | src/CoreEngine/src/CacheEngine.cpp:1635-1652 | Truncating the journal of an all-Clean engine changes neither the map nor what a restart recovers |
| `EngineCapacity.InsertExceeds` | src/CoreEngine/src/CacheEngine.cpp:975-1000 | A write of at most B bytes into a shard within budget leaves it over by at most B bytes and one entry, and then without any Clean entry |
| `EngineCapacity.FillWithin` | src/CoreEngine/src/CacheEngine.cpp:999-1030 | A read-fill of any size leaves a shard that was within budget within budget |
| `EngineCapacity.RoundFrees` | src/CoreEngine/src/CacheEngine.cpp:1122-1129 | Flushing one key of an over-budget shard without Clean entries lets eviction take exactly it |
| `LruList.EvictionExact` | src/CoreEngine/src/CacheEngine.cpp:1010-1030 | Eviction removes exactly the shortest back-to-front run of Clean entries that meets both budgets, or all Clean entries if none does, and keeps the rest in order |
| `LruList.EvictedEnds` | src/CoreEngine/src/CacheEngine.cpp:1010-1030 | Eviction ends within budget or with no Clean entry left |
| `LruList.EvictedOnlyClean` | src/CoreEngine/src/CacheEngine.cpp:1004-1030 | Eviction takes only Clean entries and leaves the others as they were |
| `LruList.RemoveAccounts` | src/CoreEngine/src/CacheEngine.cpp:961-967 | Removing an entry removes its share of all three counters, and none of the subtractions underflows |
| `LruList.PushAccounts` | src/CoreEngine/src/CacheEngine.cpp:977-983 | Adding an entry at the front adds its share to all three counters |
| `LruList.RestateAccounts` | src/CoreEngine/src/CacheEngine.cpp:1239-1245 | A state change moves exactly the entry's share of the dirty counters, without underflow |
| `LruList.BytesMeaning` | src/CoreEngine/src/CacheEngine.cpp:975-983 | The byte budget measures all key bytes, all value bytes and 64 bytes an entry |
| `ShardModel.Shard.InsertOrUpdate` | src/CoreEngine/src/CacheEngine.cpp:941-1002 | Keeps the accounting; a write changes nothing unless the key is absent, its version is higher, or both versions are 0, otherwise the entry is in front, the fence is one higher and the rest is what eviction leaves |
| `ShardModel.Shard.EvictClean` | src/CoreEngine/src/CacheEngine.cpp:1010-1030 | The loop computes the eviction function and keeps the accounting exact |
| `ShardModel.Shard.Touch` | src/CoreEngine/src/CacheEngine.cpp:457-465 | A hit returns the value and moves the entry to the front; nothing else changes |
| `ShardModel.Shard.Claim` | src/CoreEngine/src/CacheEngine.cpp:1178-1200 | Claims if and only if the key is cached, Dirty and of the expected version, if one is expected, and hands out exactly that value and version |
| `ShardModel.Shard.Finish` | src/CoreEngine/src/CacheEngine.cpp:1236-1262 | Settles exactly the claimed entry as Clean or Dirty, with the dirty counters |
| `ShardModel.Shard.EraseVersion` | src/CoreEngine/src/CacheEngine.cpp:1316-1374 | Erases exactly the targeted version and always advances the fence |
| `ShardModel.Shard.LastDirty` | src/CoreEngine/src/CacheEngine.cpp:1102-1109 | The key after which no Dirty entry follows in the recency list, or the empty key when nothing is Dirty |
| `ShardModel.Shard.DirtyKeys` | src/CoreEngine/src/CacheEngine.cpp:694-703 | Exactly the Dirty keys, in recency order |
| `ShardModel.Shard.DirtyCounted` | src/CoreEngine/src/CacheEngine.cpp:826-832 | The dirty counter is zero exactly when every entry of the shard is Clean |
| `Crc32.ComputeSeeded` | src/Common/src/Crc32.cpp:28-35 | The table-driven loop computes the remainder of bit-by-bit reflected division by 0xEDB88320 for every input and seed |
| `Crc32.Compute` | src/Common/src/Crc32.cpp:24-26 | The unseeded form is the checksum: all-ones seed, complemented result, below 2^32 |
| `Crc32.BuildTable` | src/Common/src/Crc32.cpp:8-18 | Every table entry is its index divided by eight reference steps |
| `Crc32.TableStep` | src/Common/src/Crc32.cpp:32-32 | One table step equals eight single-bit division steps, for every register and byte |
| `Crc32.DivideIsShifts` | src/Common/src/Crc32.cpp:28-35 | Closed form: the remainder is the whole message, read as one number, shifted out at once |
| `Crc32.BurstDetected` | src/Common/src/Crc32.cpp:24-35 | Two different messages of one length that agree outside four consecutive bytes have different checksums |
| `Crc32.CheckValue` | src/Common/src/Crc32.cpp:8-35 | The checksum of the bytes FF FF FF 7F is 12477CDF, which fixes polynomial, seed and complement |
| `RecordCodec.Encode` | src/CoreEngine/src/JournalRecordCodec.cpp:36-51 | Writes exactly the record layout |
| `RecordCodec.Decode` | src/CoreEngine/src/JournalRecordCodec.cpp:53-104 | Accepts and rejects exactly as the field-by-field grammar, with its error for each case |
| `RecordCodec.RoundTrip` | src/CoreEngine/src/JournalRecordCodec.cpp:36-104 | An encoded record, followed by anything, decodes to itself if and only if key and value are at most 64 MiB; a larger one is refused as corrupt |
| `RecordCodec.DecodedExact` | src/CoreEngine/src/JournalRecordCodec.cpp:53-104 | A payload that decodes starts with the layout of what it decodes to, within the limits |
| `RecordCodec.DecodedWhen` | src/CoreEngine/src/JournalRecordCodec.cpp:53-104 | A payload decodes if and only if format, kind, both lengths and the total length at their offsets are right; VersionMismatch exactly for a whole header of another format, CorruptData otherwise |
| `RecordCodec.RecordBytes` | src/CoreEngine/src/JournalRecordCodec.cpp:36-51 | One record of each kind, byte for byte |
| `Journal.WriteAheadJournal.Append` | src/PowerResilience/src/WriteAheadJournal.cpp:54-83 | Adds exactly one frame at the end of the file under the next sequence number and counts it |
| `Journal.WriteAheadJournal.Replay` | src/PowerResilience/src/WriteAheadJournal.cpp:85-167 | Hands out exactly the trusted frames up to the callback's first verdict other than continue; leaves file and record count alone; continues the numbering after the last frame |
| `Journal.WriteAheadJournal.ReadFrame` | src/PowerResilience/src/WriteAheadJournal.cpp:93-145 | One loop turn reads a frame if and only if it is whole, sized within 256 MiB and matches its checksum |
| `Journal.WriteAheadJournal.Truncate` | src/PowerResilience/src/WriteAheadJournal.cpp:169-186 | Empties the file and restarts both counters |
| `Journal.JournalRoundTrip` | src/PowerResilience/src/WriteAheadJournal.cpp:54-167 | Records within the limits come back through both codecs in order with consecutive sequence numbers; from a file cut at any byte, exactly those whose frames are whole, without any checksum assumption |
| `Journal.FrameFront` | src/PowerResilience/src/WriteAheadJournal.cpp:120-145 | A frame is read back, whatever follows, if and only if its payload is at most 256 MiB |
| `Journal.FramesExact` | src/PowerResilience/src/WriteAheadJournal.cpp:108-123 | Replay reads a journal up to the first frame with a payload over 256 MiB and, without an error, nothing from there on |
| `Journal.DeliveredMeaning` | src/PowerResilience/src/WriteAheadJournal.cpp:145-160 | The callback sees a prefix of the frames, and the next one exactly as long as it says Continue |
| `Journal.FrameCut` | src/PowerResilience/src/WriteAheadJournal.cpp:105-131 | A frame cut at any byte is never read |
| `Journal.TakeFrameExact` | src/PowerResilience/src/WriteAheadJournal.cpp:93-145 | Replay reads a frame at the start of any data if and only if the bytes at the fixed offsets hold the magic, a length of at most 256 MiB that fits, and the checksum of all before it |
| `Journal.TornTailHides` | src/PowerResilience/src/WriteAheadJournal.cpp:68-103 | For a frame torn at any byte and anything appended after it, the frames before it are handed out, and nothing else if and only if the splice of the torn bytes and what follows is not accepted as a frame |
| `Journal.TornMagicHides` | src/PowerResilience/src/WriteAheadJournal.cpp:98-103 | A tear inside the first four bytes always hides every later frame |
| `Journal.TornChecksumMends` | src/PowerResilience/src/WriteAheadJournal.cpp:130-145 | A tear inside the checksum is accepted if and only if what follows begins with the missing bytes |
| `Framing.ScanPrinted` | src/PowerResilience/src/WriteAheadJournal.cpp:92-161 | A scan of frames followed by any tail returns all frames and then what the tail scans to |
| `Framing.ScanCut` | src/PowerResilience/src/WriteAheadJournal.cpp:92-161 | A scan of frames cut at any byte returns exactly the whole ones |
| `Framing.WholeFramesFit` | src/PowerResilience/src/WriteAheadJournal.cpp:92-161 | The frames counted as whole are the most whose bytes fit before the cut |
| `Framing.ScanPrefix` | src/Storage/src/FileBackingStore.cpp:81-145 | What a scan accepts is, byte for byte, a prefix of the file |
| `BackingStore.FileBackingStore.Initialize` | src/Storage/src/FileBackingStore.cpp:73-148 | From any file content: keeps exactly the longest run of intact entries, rebuilds the index from it, cuts everything after it, and continues one above the highest sequence number kept, in 64 bits |
| `BackingStore.FileBackingStore.Get` | src/Storage/src/FileBackingStore.cpp:150-188 | NotFound exactly for keys not in the map; the map's value for every key whose entries fit the 32-bit length fields |
| `BackingStore.FileBackingStore.Put` | src/Storage/src/FileBackingStore.cpp:190-193 | Appends one live entry under the next sequence number and updates the map at its key only |
| `BackingStore.FileBackingStore.Remove` | src/Storage/src/FileBackingStore.cpp:195-202 | Removes its key from the map by one tombstone under the next sequence number; writes nothing for an absent key |
| `BackingStore.FileBackingStore.AppendRecord` | src/Storage/src/FileBackingStore.cpp:220-258 | Appends exactly one entry and keeps file, index and end offset in agreement |
| `BackingStore.FileBackingStore.Contains` | src/Storage/src/FileBackingStore.cpp:204-208 | Agrees with the map |
| `BackingStore.FileBackingStore.EntryCount` | src/Storage/src/FileBackingStore.cpp:210-217 | Is the size of the map |
| `BackingStore.IndexPoints` | src/Storage/src/FileBackingStore.cpp:253-254 | The index holds a live key exactly when the map does, and its offset is where that key's last entry starts |
| `BackingStore.ReopenAfterCrash` | src/Storage/src/FileBackingStore.cpp:109-145 | A crash at any byte of an append, then reopening, gives the map before the append, or after it exactly when every byte arrived |
| `BackingStore.ReopenExact` | src/Storage/src/FileBackingStore.cpp:94-101 | Reopening keeps the log up to the first entry with a key or value over 256 MiB and nothing from there on |
| `BackingStore.EntryFront` | src/Storage/src/FileBackingStore.cpp:81-119 | An entry is read back, whatever follows, if and only if key and value are at most 256 MiB each |
| `BackingStore.EntryExact` | src/Storage/src/FileBackingStore.cpp:81-119 | Whatever is accepted as an entry is exactly that entry's bytes |
| `SessionMarkers.SessionMarker.ReadLastState` | src/PowerResilience/src/SessionMarker.cpp:64-155 | Clean for a file never written, unclean for a short one, CorruptData exactly for a whole record of another magic or version; unclean with no field taken from it if its checksum fails, otherwise the fields at their offsets |
| `SessionMarkers.SessionMarker.OnSessionStart` | src/PowerResilience/src/SessionMarker.cpp:157-166 | Rewrites the record as open under the next generation; succeeds exactly if the write is whole and durable, and a failed write may have reached any byte |
| `SessionMarkers.SessionMarker.OnCleanShutdown` | src/PowerResilience/src/SessionMarker.cpp:168-193 | Rewrites the record as closed under the current generation; succeeds exactly if the write is whole and durable, and a failed write may have reached any byte |
| `SessionMarkers.MarkerRoundTrip` | src/PowerResilience/src/SessionMarker.cpp:64-193 | A whole record is trusted and read back exactly |
| `SessionMarkers.NoFalseClean` | src/PowerResilience/src/SessionMarker.cpp:182-193 | An open marker rewritten by a clean one and cut at any byte reads clean if and only if the file is the whole new record, with no assumption on checksum collisions |
| `SessionMarkers.OpenStaysOpen` | src/PowerResilience/src/SessionMarker.cpp:157-193 | An open marker rewritten by another open one never reads clean, wherever it is cut |
| `SessionMarkers.TornMarkerReadable` | src/PowerResilience/src/SessionMarker.cpp:99-146 | A marker rewritten by any other and cut at any byte is readable, never an error |
| `SessionMarkers.NextSession` | src/PowerResilience/src/SessionMarker.cpp:157-166 | A startup on a whole record opens the next generation; on a short or torn one, the one after the generation it knew |
| `SessionMarkers.RecoveryManager.InitializeAndRecover` | src/PowerResilience/src/RecoveryManager.cpp:25-60 | The replay handler runs exactly when the marker is readable and not clean; the result is the reader's error, else the handler's, else that of the marker write, which only then is made; RecoveryComplete exactly on success, RecoveryFailed otherwise |
| `SessionMarkers.RecoveryManager.MarkCleanShutdown` | src/PowerResilience/src/RecoveryManager.cpp:64-66 | Writes the clean marker of the current generation; succeeds exactly if it is whole and durable |
| `Sessions.UnclosedSessionIsNoticed` | src/PowerResilience/src/RecoveryManager.cpp:25-60 | Over all histories of starts, stops and crashes without two successive torn marker writes, a startup that follows a session not fully closed reads the marker and reads it as unclean, so it replays |
| `Sessions.MarkerAlwaysReadable` | src/PowerResilience/src/SessionMarker.cpp:64-155 | Over all histories, however many marker writes are torn, every startup can read the marker |
| `Sessions.HistoryInv` | src/PowerResilience/src/SessionMarker.cpp:64-193 | In such histories the marker file is always empty, a whole record, or a torn one that does not hide an unclosed session |

## Left out

- Durability.CrashDurability: assumes no overlapping compactions, no two overlapping flushes of one key, no two Puts of one key between append and commit, no other mutation of a key during its invalidation, no failed store removal of an invalidation, no completed flush of a key after its Invalidate in the same journal, no write behind a tear or in a frame over 256 MiB, clean marks only with nothing unflushed, and, for startup to succeed at all, no call with a key or value over 64 MiB; `Counterexamples` gives a losing run for each, except for a failed store removal, which its caller is told of.
- Reads.GetReadsSomeMoment: is proved for benign runs in which nobody invalidates; `Counterexamples.InvalidatedKeyStaysReadable` shows an invalidated key served from the cache.
- PlainMap.ServesPlainMap: the same, and with it `PlainMap.ServesTruth` and `PlainMap.GetsAreAtomic`.
- Torn appends in `Protocol`: records behind a tear are taken as unreadable; by `Journal.TornTailHides` that is so unless the splice happens to pass the checksum, in which case replay hands out a frame nobody wrote, which is not modelled.
- BackingStore.FileBackingStore.Get: says which value it returns only for keys whose entries have lengths below 4 GiB, because the source truncates longer lengths to 32 bits.
- Short journal and store writes and failed flushes that do not stop the machine: in those two files a write arrives whole or the machine stops, and in the engine a failed call has no effect.
- Sessions.UnclosedSessionIsNoticed: assumes no two successive torn marker writes, because a second tear over a torn record could match its checksum by chance.
- Journal.JournalRoundTrip: requires fewer than 2^64 appends in all; the sequence counter of the journal object is unbounded while its 8-byte field wraps.
- Records of 4 GiB and more: their length fields wrap to 32 bits; `Protocol` and `CacheEngineModel` take them as unreadable frames, and `EndToEnd` excludes the first of them.
- Store entries over 256 MiB in `Protocol` and `CacheEngineModel`: the store survives a restart whole there; `BackingStore.ReopenExact` says what reopening drops, and by `EndToEnd.StoredReadable` benign runs write none.
- CacheEngineModel.CacheEngine.Put: does not model the wrap-around of the 64-bit version counter.
- Which Clean entries an eviction takes, and which Dirty key relief picks, are left open in `Protocol` and fixed in `ShardModel`; `Protocol` keeps neither recency lists nor byte counters.
- Contains, GetEntryInfo and the hit, miss, insert, update and flush statistics of the engine: easy reads.
- The background flush thread: it is another caller of FlushAll; its timing and joining are not modelled.
- Condition variables, mutex internals and the memory model: waits are guards of steps, critical sections are atomic.
- The hash function: any function of the key.
- Logging, clocks (timestamps are parameters), file opening, platform file classes.
- IPC codec, JSON configuration, service host, GUI and installer: plumbing or easier copies of what is modelled.
