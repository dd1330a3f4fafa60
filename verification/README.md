# A verified model of RedGW

RedGW is a gateway over Redis. This project models the parts of it that carry state, concurrency or
arithmetic, and proves what they promise for every input and every run. `dafny verify dfyconfig.toml`
checks all of it.

| file | models |
|---|---|
| `LogFiles`, `RotationRules`, `RotationEffects`, `RotatingHandler` | the rotating log handler: active file, numbered backups, the background gzip worker |
| `PendingCompressions` | the set of unfinished compressions shared by all handlers and gzip workers |
| `SizeCleanup` | the cap on the total size of a log directory |
| `Utf8`, `KeyCodec`, `Text`, `KeyApi` | the key format, its Python and Rust validators and parsers, and the wrapper that chooses an error code |
| `ScanSelection` | SCAN patterns, glob matching, and the filter on what a scan returns |
| `StatusLeader` | electing the worker that logs the periodic STATUS line |
| `TtlContract` | what writes do to a key's time to live and what they report about it |
| `Histogram` | the shared request counters and latency histogram |
| `WebSocketSlots` | the limit on simultaneous subscriptions |
| `BoundedQueue` | the length-limited queue and its scripts |
| `AuditQueue`, `AuditCapture` | the bounded audit queue; body capture, the capture rule, and the lines each request leaves |
| `MetricsCache` | the two nested caches of the metrics endpoint |
| `AdminScan` | statistics over a scan, and bulk deletion |

Objects that the program updates in place are classes whose methods are proved against specification
functions (`RotatingHandler.Handler` against `RotationRules`, `AuditQueue.AuditLogger` against its state
machine, and so on). Protocols between processes, threads or coroutines are state machines; a run is a
sequence of states linked by enabled steps, in any order, and the theorems hold in every state of every run.

## What the code does not keep

The model follows the code where the code and its documentation differ. Each of these is proved, with the
exact condition where there is one:

- A failed copy normally removes its partial `.gz`. If it cannot, the next backup shift renames the
  partial archive over the numbering and the newest backup is lost, unless it is empty or is the slot that
  gets dropped anyway (`RotationRules.StuckPartialLoses`, `RotationRules.StuckPartialBreaksSuffix`). A process
  that ends in the middle of a compression leaves the next one the same loss
  (`RotatingHandler.CrashCostsNewestBackup`).
- The Rust build reports `INVALID_NAMESPACE` for an invalid key that contains the word `Namespace`
  (`KeyApi.BuildsAgreeUnless`).
- The scan pattern check accepts a final newline; such patterns select nothing
  (`ScanSelection.NewlinePatternsSelectNothing`).
- Without a type, a pattern is also tried after every colon of the user's key; without a namespace, a type
  filter can select keys of another type, namely those whose user part names the type
  (`ScanSelection.UntypedSelectionAsExpected`, `ScanSelection.AnyNamespaceSelectionAsExpected`).
- `__redgw` is a valid namespace, so user keys can start with `__redgw:` (but are never mistaken for
  internal keys: `KeyCodec.ReservedNamespaceIsNotReserved`).
- A write that Redis rejects has still changed the key's TTL, in a pipeline, in a transaction and in a batch
  (`TtlContract.RejectedWriteStillRetimes`, `TtlContract.BatchWithRejections`).
- A WebSocket slot is lost for good if its handler is cancelled while it waits for the lock to release. Somebody
  holds the lock across an await only while turning a newcomer away, so this needs the limit to have been
  reached; and once it is, any handler that still holds a slot can lose it that way
  (`WebSocketSlots.TroubleNeedsFullHouse`, `WebSocketSlots.CancelledAtFullHouse`).
- A scan over exactly `limit` keys is complete and reports truncation (`AdminScan.GetStats`).
- A stop request that finds the audit queue full is swallowed and the listener stays; lines put after the
  sentinel are never written (`AuditQueue.RefusedStopLeavesListener`,
  `AuditQueue.EndedListenerLeavesLateLines`).
- At level 1 the test for channel publishing also skips every write in a namespace called `publish`, and
  operations below a key called so (`AuditCapture.WritesMissedAtLevelOne`).
- A text body cut inside a character at the capture limit is recorded as binary
  (`AuditCapture.TextIsRecordedAsText`).
- Metrics text can hold key counts up to 35 seconds old, but only when it comes from the text cache
  (`MetricsCache.LifetimesAddUp`, `MetricsCache.OnlyCachedTextIsOlder`).
- A slow refresh can overwrite a newer one. What is served goes back in time exactly in the runs in which
  refreshes do not end in the order in which they began to read (`MetricsCache.ReadsCanGoBack`,
  `MetricsCache.ReadsGoBackExactlyWhen`).

## Model

| member | source | states |
|---|---|---|
| RotatingHandler.Handler.constructor | app/utils/file_logger.py:131-175 | keeps of the directory exactly what retention and the size cap leave, opens today's file, and counts its size, or zero if that is not known |
| RotatingHandler.Handler.ShouldRollover | app/utils/file_logger.py:182-204 | true if and only if the date is new or the record would make the counter reach the limit; the counter grows by the record only if not |
| RotatingHandler.Handler.WorkerStep | app/utils/file_logger.py:269-292 | the three moves of a compression: open source, finish or abandon the archive, drop the source |
| RotatingHandler.Handler.WaitPendingCompressions | app/utils/file_logger.py:90-105 | the worker has run to the end, with the same result as if it had run unobserved |
| RotatingHandler.Handler.UnlinkOld | app/utils/file_logger.py:306-320 | in any directory order exactly the files dated before the cutoff go, except those that cannot be unlinked; the others keep their content |
| RotatingHandler.Handler.CleanupOldFiles | app/utils/file_logger.py:306-320 | retention over both forms of every file |
| RotatingHandler.Handler.RenumberBackups | app/utils/file_logger.py:246-259 | the descending renames leave every backup, in either form, where the specified shift puts it, and slot 1 free |
| RotatingHandler.Handler.ShiftBackups | app/utils/file_logger.py:242-267 | the renames and the move of the base file amount, file by file, to the simultaneous shift of all slots, and only a moved base file is handed to the worker |
| RotatingHandler.Handler.SwitchDate | app/utils/file_logger.py:223-230 | a date change compresses the old base file and applies retention |
| RotatingHandler.Handler.DoRollover | app/utils/file_logger.py:206-240 | waits, then shifts or switches date, then opens an empty file with a zero counter, and at the end the size cap may remove any file but the active one |
| RotatingHandler.Handler.Emit | app/utils/file_logger.py:182-240 | below the limit the record joins the active file and no other file changes; at the limit every backup moves up one slot, the active file becomes slot 1 and is submitted; on a new date the old active file is submitted and expired files go; the invariant is kept |
| RotatingHandler.FreshStarts | app/utils/file_logger.py:131-175 | what the constructor leaves on an orderly directory, its size known, is a valid starting point of every run theorem, whatever the size cap removed |
| RotatingHandler.CrashCostsNewestBackup | app/utils/file_logger.py:242-267 | on a directory left in the middle of compressing slot 1, the first size rollover drops only slot N if and only if slot 1 is slot N or empty |
| RotationEffects.SmallRecordStays | app/utils/file_logger.py:182-204 | a record of the current date that stays below the limit, or any with the limit off, is counted and appended, and no other file changes |
| RotationEffects.BigRecordShifts | app/utils/file_logger.py:182-240 | a record of the current date that would reach the limit moves every slot up by one, empties the active file before it is written, and submits slot 1 |
| RotationEffects.DateChangeSwitches | app/utils/file_logger.py:222-240 | on a later date the old active file is submitted for compression, a new one starts at zero, expired files go unless they cannot be unlinked, and all others read as before |
| RotationEffects.CompressionReplaces | app/utils/file_logger.py:269-292 | waiting for a compression leaves the file's lines in its archive and removes the file, or after a failed copy keeps the file and removes the archive, each as far as unlinking works; no other file changes |
| RotationEffects.SmallRecordsNeverShift | app/utils/file_logger.py:182-204 | records of one date that together stay below the limit, with any worker steps between, are all appended to the active file, and no backup moves |
| RotationEffects.RotatesAtTheLimit | app/utils/file_logger.py:182-240 | the first record with which the date's records reach the limit, and none before it, turns the active file with all the earlier records into slot 1 |
| RotationRules.WorkStepKeepsSlots | app/utils/file_logger.py:269-292 | no step of a compression changes what a reader finds in any slot |
| RotationRules.DrainKeepsInv | app/utils/file_logger.py:90-105 | waiting for a compression keeps the invariant and every slot's content |
| RotationRules.SizeRollDropsOldest | app/utils/file_logger.py:242-267 | a size rollover drops slot N and nothing else |
| RotationRules.SizeRollIsSound | app/utils/file_logger.py:232-237 | after a shift only slots 0 and 1 can hold both forms, with equal content, and nothing else is lost |
| RotationRules.DateRollIsSound | app/utils/file_logger.py:222-230 | a date change loses nothing of any date inside the retention horizon |
| RotationRules.ApplyKeepsInv | app/utils/file_logger.py:206-304 | every record and every worker step keeps the whole invariant |
| RotationRules.RunKeepsInv | app/utils/file_logger.py:206-304 | the invariant holds after any run, under any scheduling of the worker, failed copies and failed unlinks |
| RotationRules.RotationKeepsSuffix | app/utils/file_logger.py:206-267 | within a day, slots N to 1 followed by the active file are a suffix of what was there and then accepted |
| RotationRules.ActiveFileBound | app/utils/file_logger.py:182-204 | actual size is the counter plus the record that caused the last rollover, so it stays below the limit plus that record |
| RotationRules.RunFound | app/utils/file_logger.py:167-171 | the size found at start counts only until the first rollover |
| RotationRules.RunIsSafe | app/utils/file_logger.py:206-304 | in every run a queued compression finds no archive at its target and one under way only its own, whatever is deleted at any time |
| RotationRules.WorkerNeverCostsAnArchive | app/utils/file_logger.py:269-292 | after any run, with any deletions at any point and in every phase of the compression, no worker step and no wait removes or changes a finished archive, not even when the source is gone before it is opened |
| RotationRules.ArchivesAreDisposedOnPurpose | app/utils/file_logger.py:206-240 | a finished archive stays or moves up one slot at every event, unless it is in the last slot of a shift, too old, or deleted by the size cap or from outside |
| RotationRules.StuckPartialLoses | app/utils/file_logger.py:279-287 | after a failed copy the next shift drops only slot N if and only if the partial archive was removed, or the newest backup is empty or is slot N |
| RotationRules.PartialInSlot1Loses | app/utils/file_logger.py:251-261 | with a partial archive in slot 1, however it got there, a shift drops only slot N if and only if slot 1 is slot N or reads as empty |
| RotationRules.StuckPartialBreaksSuffix | app/utils/file_logger.py:251-261 | a run from a proper start, with lines of equal length and a limit of two lines, in which an unremovable partial archive makes a newer backup unreadable and leaves an older one |
| LogFiles.Shift | app/utils/file_logger.py:242-267 | where every plain file and archive is after one shift, both forms present or not |
| LogFiles.KeptShift | app/utils/file_logger.py:242-267 | moving every slot up by one keeps the reading order |
| PendingCompressions.RunKeepsInv | app/utils/file_logger.py:68-105 | every unfinished compression is in the shared set or about to be put there by the handler that owns it |
| PendingCompressions.NoRenameUnderCompression | app/utils/file_logger.py:206-237 | in every interleaving of any number of handlers and workers, no renaming handler has a file under compression |
| PendingCompressions.QuiescentSetIsEmpty | app/utils/file_logger.py:84-87 | finished compressions do not stay in the set |
| PendingCompressions.RunKeepsFifo | app/utils/file_logger.py:75-81 | with the one worker, whatever has been started has everything submitted before it finished |
| PendingCompressions.WaitMakesProgress | app/utils/file_logger.py:90-105 | with the one worker, while a handler waits either a result it waits for arrives or the worker has a step to make |
| PendingCompressions.WaitIsBounded | app/utils/file_logger.py:90-105 | as long as a compression is unfinished, worker steps made and worker steps to come add up to those to come before, whatever handlers submit meanwhile; so every wait ends after that many |
| SizeCleanup.LogDirectory.Collect | app/utils/file_logger.py:332-343 | the archives with their sizes, each once, skipping those whose stat fails |
| SizeCleanup.LogDirectory.CleanupByTotalSize | app/utils/file_logger.py:322-376 | exactly the planned archives are deleted, none younger than a survivor that could have gone; the active file survives, the running total matches the disk, disk_full grows by the number deleted for audit prefixes only |
| SizeCleanup.LogDirectory.UnlinkOldest | app/utils/file_logger.py:349-366 | the greedy loop deletes what the specification names and keeps its running total true |
| SizeCleanup.DoomedIsShortestPrefix | app/utils/file_logger.py:352-366 | the deleted archives are the shortest prefix of the candidates that reaches the cap, or all of them |
| SizeCleanup.SortByAgeSorts | app/utils/file_logger.py:349-350 | sorting is a permutation in ascending order of modification time |
| SizeCleanup.CandidatesAreFree | app/utils/file_logger.py:355-366 | the candidates are all archives except the active file and those whose unlink fails, in order of age if the archives are |
| SizeCleanup.OldestGoFirst | app/utils/file_logger.py:349-366 | a deleted archive is at least as old as every one that could have been deleted and was not |
| Utf8.EncodeLength | redgw_core/src/validation.rs:11-13 | encoded length is at least the character count, equal exactly for ASCII, at most four times it |
| Utf8.EncodeCharTable | redgw_core/src/key_builder.rs:12-36 | the length, lead byte, continuation bytes and value of every encoded character, as in the table of section 3 of RFC 3629 |
| Utf8.EncodeInjective | redgw_core/src/key_builder.rs:12-36 | different texts have different encodings |
| Utf8.EncodeCharPrefixFree | redgw_core/src/key_builder.rs:12-36 | no encoded character is the beginning of another |
| Utf8.DecodesExactlyText | app/audit/middleware.py:74-78 | the strict decoder accepts exactly the encodings of texts |
| KeyCodec.ValidatorsAgree | redgw_core/src/key_builder.rs:12-36 | on every text, counting characters (Python) and counting bytes (Rust) accept the same namespaces and keys |
| KeyCodec.SizeChecksAgree | app/utils/validation.py:26-30 | the two size checks agree, and how they relate to the character count |
| KeyCodec.PyParseCuts | app/utils/key_builder.py:78-82 | splitting at most twice is cutting at the first two colons |
| KeyCodec.RustParseCuts | redgw_core/src/key_builder.rs:88-101 | two searches on the bytes cut at the first two colons |
| KeyCodec.ParsersAgree | redgw_core/src/key_builder.rs:88-101 | on every text both parsers give the same parts or both fail |
| KeyCodec.JoinParse | app/utils/key_builder.py:72-82 | what parses is the join of its parts |
| KeyCodec.CodecRoundTrip | app/utils/key_builder.py:72-82 | a built key parses to the namespace, prefix and key it was built from, colons in the key included |
| KeyCodec.CodecInjective | app/utils/key_builder.py:72-75 | different triples give different stored keys |
| KeyCodec.StorageKeyShape | app/routers/admin.py:83-93 | the storage filter accepts exactly the texts `namespace:type:key` with one of the six types and no colon in the namespace |
| KeyCodec.InternalKeysAreNotStorage | app/routers/admin.py:83-93 | no internal key passes the storage filter |
| KeyCodec.ReservedNamespaceIsNotReserved | app/utils/key_builder.py:44-57 | a built key is never internal, and starts with the reserved prefix exactly when the namespace is `__redgw` |
| KeyApi.RustBuildKeys | redgw_core/src/key_builder.rs:75-83 | a batch fails on its namespace or at its first bad key, and otherwise gives what Python gives |
| KeyApi.WordInMessage | app/utils/key_builder.py:106-113 | the word test on the error message finds only what the key itself contains |
| KeyApi.BuildsAgreeUnless | app/utils/key_builder.py:106-113 | the two builds answer alike if and only if it is not an invalid key with the word `Namespace` |
| KeyApi.RustBlamesNamespace | app/utils/key_builder.py:106-113 | for those keys the Rust build reports the wrong code |
| KeyApi.SuchKeysExist | app/utils/key_builder.py:106-113 | such a key |
| KeyApi.BuiltKeysParseBack | app/utils/key_builder.py:91-133 | both builds accept the same keys, and those parse back and pass the filter |
| KeyApi.ApiBuildKeys | app/utils/key_builder.py:119-126 | batches succeed together with the same keys, and fail with the same code exactly unless the first bad key has the word |
| ScanSelection.GlobLiteral | app/utils/key_builder.py:162-179 | literal text in a pattern matches only itself |
| ScanSelection.GlobStar | app/utils/key_builder.py:162-179 | a star matches any stretch of bytes |
| ScanSelection.TypesResolveToStorage | app/utils/key_builder.py:136-155 | every type name resolves to a storage prefix, and every storage prefix to itself |
| ScanSelection.SelectionByName | app/utils/key_builder.py:136-179 | name by name: `string` and `kv` select keys with the prefix `kv`, `hash` and `map` those with `map`, and so on, exactly in the namespace and where the key part matches; any other name is INVALID_TYPE |
| ScanSelection.PatternCheck | app/utils/key_builder.py:158-176 | a character outside the charset is INVALID_KEY whatever the type, unless it is a final newline; every valid key is a pattern |
| ScanSelection.SelectionIsIsolated | app/utils/key_builder.py:162-179 | every selected key lies in the namespace, has a storage prefix, that of the type if one is given, and is not internal |
| ScanSelection.TypedSelectionIsExact | app/utils/key_builder.py:162-179 | with a type, a built key is selected if and only if namespace and prefix are right and its key part matches |
| ScanSelection.UntypedSelectionIsExact | app/utils/key_builder.py:162-179 | without a type, the key part or what follows one of its colons must match |
| ScanSelection.UntypedSelectionAsExpected | app/utils/key_builder.py:162-179 | without a type, selection is plain matching of the key part for all patterns if and only if the key has no colon |
| ScanSelection.AnyNamespaceSelectionIsExact | app/utils/key_builder.py:162-179 | what a type filter selects when no namespace is given |
| ScanSelection.AnyNamespaceSelectionAsExpected | app/utils/key_builder.py:162-179 | without a namespace, a type filter keeps a key of another type out for all patterns if and only if its user key does not name the wanted type |
| ScanSelection.LeakThroughKey | app/utils/key_builder.py:162-179 | without a namespace, every key whose user part contains `:type:` before a match is selected, whatever its own type |
| ScanSelection.AnyNamespaceLeaksTypes | app/utils/key_builder.py:162-179 | such a key |
| ScanSelection.NewlinePatternsSelectNothing | app/utils/key_builder.py:159 | the only patterns accepted beyond the charset end in a newline and select no built key |
| StatusLeader.RunKeepsInv | app/main.py:84-98 | wins are an expiry apart in every run, with workers joining and dying at any time |
| StatusLeader.WinsAreApart | app/main.py:30-34 | any two wins are 480 s apart, and two of one worker 600 s |
| StatusLeader.TimeCanPass | app/main.py:84-98 | the clock can always move on, or else every worker in its way can try again and then no longer is |
| StatusLeader.FewWinsInWindow | app/main.py:30-34 | a window of length L holds at most L / 480 s + 1 wins |
| StatusLeader.FewLinesInWindow | app/main.py:84-90 | the same for the lines, which are written within the loop's slack after the win |
| StatusLeader.NextWinIsDue | app/main.py:84-98 | the next win comes within a period while the winner lives, and within expiry plus period while any worker lives |
| StatusLeader.FirstWinIsDue | app/main.py:84-98 | from a cold start there is a win after an expiry plus a period |
| TtlContract.NeverReportsMissing | app/utils/ttl.py:16-38 | whatever other clients do, no successful write or touch reports the TTL of a missing key |
| TtlContract.TouchNotFound | app/utils/ttl.py:30-37 | touch answers 404 exactly when the key was missing at EXISTS or at TTL |
| TtlContract.WritesSetTtl | app/routers/group.py:79-94 | undisturbed group, rank, queue, map and kv writes store and report the TTL of the body if it is positive, no expiry and -1 if it is not, and without one in the body the same with the configured default; no other key changes |
| TtlContract.RefusedWritesChangeNothing | app/routers/kv.py:195-206 | an existing key at set-if-new, a full queue, a score or delta that is not finite: the error of each, and no change of any key or TTL |
| TtlContract.TouchSetsTtl | app/utils/ttl.py:16-38 | a touch of an existing key stores and reports a positive TTL, removes the expiry and reports -1 otherwise; of a missing key it does nothing and answers 404 |
| TtlContract.IncrementKeepsTtl | app/routers/kv.py:152-169 | an increment of a value or a score keeps the TTL and reports it, a new key has none; a rejected one changes nothing |
| TtlContract.RejectedWriteStillRetimes | app/routers/rank.py:104-125 | a group, map or rank write that Redis rejects leaves the store unchanged if and only if the key is missing, already has the wanted TTL, or a score was refused beforehand; a rejected queue push changes nothing |
| TtlContract.BatchSetsTtl | app/routers/kv.py:52-61 | an accepted batch gives every one of its keys the TTL of the body if positive and no expiry if not, or the same with the default if the body has none, and changes no other key |
| TtlContract.BatchWithRejections | app/routers/map.py:53-66 | a map or group batch fails exactly if Redis rejects one of its inserts; the others are written all the same, every key of the batch that exists gets the TTL of body or default, the rejected ones too, and no other key changes |
| TtlContract.TransactionReportsLive | app/routers/map.py:125-139 | a map write that passes on its TTL unchanged never passes on -2, because it runs as one transaction |
| Histogram.QueuePipeline | app/utils/metrics.py:82-108 | the pipeline queued for a request is the specified sequence of increments |
| Histogram.QueueBuckets | app/utils/metrics.py:102-104 | the loop queues one increment for every bucket whose bound is not below the duration |
| Histogram.RunKeepsInv | app/utils/metrics.py:76-110 | in every interleaving each counter is the sum of what all pipelines have executed |
| Histogram.PipeOrder | app/utils/metrics.py:85-106 | at any point of one pipeline: +Inf and buckets at most the latency count, that at most the total |
| Histogram.PipeComplete | app/utils/metrics.py:85-106 | what one completed pipeline adds to each counter |
| Histogram.PipeCompleteLabels | app/utils/metrics.py:88-94 | a completed pipeline has counted its namespace and its client once each, if not empty, and no other |
| Histogram.SumIsAddedOnce | app/utils/metrics.py:97-98 | a pipeline adds the duration to the latency sum exactly once if it is positive, and adds nothing else |
| Histogram.CountersStayOrdered | app/utils/metrics.py:85-106 | in every intermediate state +Inf <= latency count <= total, each bucket <= latency count, status counts <= total |
| Histogram.CompleteCountersAreExact | app/utils/metrics.py:85-106 | when all pipelines are complete each bucket counts the durations up to its bound, and the sums agree |
| Histogram.CompleteLabelsAreExact | app/utils/metrics.py:85-94 | when all pipelines are complete the counter of a status, namespace or client is the number of requests with it |
| Histogram.CompleteHistogramIsCumulative | app/utils/metrics.py:98-106 | a completed histogram does not decrease from bucket to bucket |
| WebSocketSlots.CounterCountsSlots | app/routers/pubsub.py:80-93 | in every interleaving the counter is the number of admitted, unreleased handlers and stays in 0..100 |
| WebSocketSlots.RejectedOnlyWhenFull | app/routers/pubsub.py:81-92 | in every run a handler that was turned away made its check in a state with all 100 slots taken |
| WebSocketSlots.NobodyIsStuck | app/routers/pubsub.py:80-158 | in every state of every run a handler that has not ended has a regular step of its own, or waits for a lock whose holder has one |
| WebSocketSlots.ReleasesExactlyOnce | app/routers/pubsub.py:80-158 | in every run a handler raises the counter once if admitted and lowers it once if released, and never otherwise; one that was rejected or gave up does neither |
| WebSocketSlots.ReleaseAfterTasks | app/routers/pubsub.py:137-158 | whoever lowers the counter has both its tasks behind it |
| WebSocketSlots.SlotOutlivesTasks | app/routers/pubsub.py:137-158 | a slot whose handler had started its tasks is given back only after the last steps of both are in the run |
| WebSocketSlots.LostForever | app/routers/pubsub.py:155-158 | a lost slot stays lost, and the counter never falls below the number of them |
| WebSocketSlots.TroubleNeedsFullHouse | app/routers/pubsub.py:81-92 | a handler waits for the lock, or a slot is lost, only in a run in which the limit was reached |
| WebSocketSlots.AllSlotsComeBack | app/routers/pubsub.py:155-158 | when all handlers have ended the counter is zero if and only if none was cancelled while it waited to release, so always if the limit was never reached |
| WebSocketSlots.CancelledAtFullHouse | app/routers/pubsub.py:81-158 | whenever the limit is reached in a run, that run can go on so that the slot of any handler still holding one is lost |
| WebSocketSlots.SlotCanBeLost | app/routers/pubsub.py:155-158 | there is such a run |
| BoundedQueue.Queue.SinglePush | app/routers/queue.py:24-28 | -1 and no change when full, otherwise one item at the chosen end and the new length |
| BoundedQueue.Queue.BatchPush | app/routers/queue.py:31-39 | the loop of pushes is one block of items, reversed on the left; -1 and no change when it does not fit |
| BoundedQueue.Queue.Pop | app/routers/queue.py:140-148 | the item at the chosen end is taken off, 404 exactly when empty |
| BoundedQueue.Queue.Trim | app/routers/queue.py:208-220 | exactly the last min(keep, length) items stay |
| BoundedQueue.TrimKeepsTail | app/routers/queue.py:218 | LTRIM from -keep to -1 keeps the tail, for every length |
| BoundedQueue.LeftBatchReverses | app/routers/queue.py:37 | item k of a left batch ends up k places before the batch's end, in front of the old list |
| BoundedQueue.BatchIsAllOrNothing | app/routers/queue.py:31-39 | a batch succeeds exactly when all its single pushes would, and then has the same result; else nothing changes |
| BoundedQueue.LengthStaysBounded | app/routers/queue.py:24-39 | no run of pushes, batches, pops, trims, deletions and expiries takes the list over the maximum |
| BoundedQueue.FifoConservation | app/routers/queue.py:140-143 | with right pushes and left pops, what was popped followed by the list is what was there and then accepted |
| AuditQueue.AuditLogger.Enqueue | app/audit/logger.py:109-119 | a line goes to the end of the queue, or is counted as dropped exactly when 10000 entries are queued |
| AuditQueue.AuditLogger.ListenerTurn | app/audit/logger.py:91-98 | the line in hand is handled and the queue stays, or else the head is taken off, as the line in hand or, being the sentinel, as the end of the listener |
| AuditQueue.AuditLogger.Shutdown | app/audit/logger.py:140-156 | whatever the listener is doing: if the sentinel fits, the queue is drained and the count returned covers every handled or dropped line; otherwise nothing changes and the listener stays |
| AuditQueue.RunKeepsInv | app/audit/logger.py:91-119 | accepted lines are handled, in hand or queued, in order, in every interleaving of requests and listener |
| AuditQueue.EventsAreConserved | app/audit/logger.py:109-119 | events = written + lost to handler errors + in hand + queued + dropped |
| AuditQueue.QueueIsBounded | app/audit/logger.py:50 | the queue never exceeds its bound |
| AuditQueue.WrittenInOrder | app/audit/logger.py:91-98 | what is written is a prefix of what was accepted |
| AuditQueue.EndedListenerLeavesLateLines | app/audit/logger.py:140-156 | after the listener ended, the queue holds exactly the lines put after the sentinel |
| AuditQueue.RefusedStopLeavesListener | app/audit/logger.py:147-152 | a stop that found the queue full never ends the listener |
| AuditCapture.BodyCollector.Receive | app/audit/middleware.py:125-140 | collected bytes stay the first part of the stream up to the limit, truncated exactly when it is longer |
| AuditCapture.BodyCollector.Body | app/audit/middleware.py:171-172 | the recorded body is the first 1 MiB of the stream, for every chunking |
| AuditCapture.TextIsRecordedAsText | app/audit/middleware.py:171-181 | the line of a captured write of a text holds its size up to the limit, and the type string if and only if it fits or is cut between two characters |
| AuditCapture.EncodedPrefix | app/audit/middleware.py:61-78 | an encoded text that begins another's encoding is a beginning of that text |
| AuditCapture.ContainsSegment | app/audit/middleware.py:47 | a substring test for a name between slashes finds exactly the segments before the last |
| AuditCapture.StartsWithSegments | app/audit/middleware.py:46 | a prefix test on a path is a prefix test on its segments |
| AuditCapture.LevelOneCaptures | app/audit/middleware.py:36-59 | level 1 captures exactly admin calls, and PUT, POST and DELETE on paths of which no segment but the last is `publish` |
| AuditCapture.WritesMissedAtLevelOne | app/audit/middleware.py:46-55 | which data writes level 1 records, and which it skips because a name is `publish` |
| AuditCapture.HigherLevelsCaptureMore | app/audit/middleware.py:36-59 | what a level captures every higher one captures |
| AuditCapture.AuditMiddleware.ConsumePendingEvent | app/audit/logger.py:257-262 | gives the pending event and leaves none |
| AuditCapture.AuditMiddleware.PassWithHeader | app/audit/middleware.py:275-332 | one line if an event is pending and lines are wanted, and no event is left pending either way |
| AuditCapture.AuditMiddleware.Call | app/audit/middleware.py:85-222 | a WebSocket and an excluded path add no line; an uncaptured request adds one line if and only if an event is pending at its end, with the last event marked; a captured request always adds one line, with that event or `api_call`, and for a write with a body the size, type and bytes of its first 1 MiB; no event survives an HTTP request |
| AuditCapture.ReadBody | app/audit/middleware.py:125-140 | whatever messages the application receives, the collector has seen their bytes |
| AuditCapture.Serve | app/audit/middleware.py:85-222 | requests served one after the other each leave the lines they would leave alone |
| AuditCapture.LevelTwoRecordsEverything | app/audit/middleware.py:36-59 | level 2 leaves exactly one line for each HTTP request off the excluded paths, in order |
| MetricsCache.RunKeepsInv | app/routers/admin.py:54-80 | in every interleaving of refreshes each stamp is a lower bound for what is stored with it |
| MetricsCache.ServedIsFresh | app/routers/admin.py:341-345 | every body served was read less than 5 s before its request, its key counts less than 35 s before |
| MetricsCache.OnlyCachedTextIsOlder | app/routers/admin.py:54-80 | a body with counts of 30 s or more was served from the text cache, as stored; one generated for its own request never has them |
| MetricsCache.LifetimesAddUp | app/routers/admin.py:341-345 | the bounds cannot be improved: runs that reach any age below them |
| MetricsCache.ReadsCanGoBack | app/routers/admin.py:481-484 | a run in which a later request is served older reads |
| MetricsCache.ReadsGoBackExactlyWhen | app/routers/admin.py:481-484 | in every run what is served never goes back in time if and only if the refreshes ended in the order in which they began to read |
| MetricsCache.OneAtATimeNeverGoesBack | app/routers/admin.py:341-345 | so it never does while no two refreshes are under way at a time |
| AdminScan.GetStats | app/routers/admin.py:256-295 | the loop counts the first `limit` keys and no more; truncation is reported exactly when there are at least that many |
| AdminScan.GetNsCounts | app/routers/admin.py:54-80 | the loop counts the first 5000 keys |
| AdminScan.StatsAreCounts | app/routers/admin.py:269-286 | every entry is the true number of keys seen of that namespace and type, and there is an entry for exactly those seen |
| AdminScan.StatsAddUp | app/routers/admin.py:279-283 | per namespace the counts by type add up to the total, and the totals to the storage keys seen |
| AdminScan.CountsAreTotals | app/routers/admin.py:62-76 | the key counts of the metrics text are the totals of the statistics |
| AdminScan.Collect | app/routers/admin.py:212-224 | the first 10000 storage keys, truncated exactly when there is a further one |
| AdminScan.StorageKeysConcat | app/routers/admin.py:212-224 | the storage keys of a scan are those of its parts, in order |
| AdminScan.StorageKeysCount | app/routers/admin.py:212-224 | a key is among them as often as in the scan if it is a storage key, and otherwise never |
| AdminScan.Store.DelInBatches | app/routers/admin.py:229-232 | every collected entry goes to DEL exactly once, in full batches of 100 but the last; the number reported is what disappeared |
| AdminScan.Store.BulkDelete | app/routers/admin.py:199-234 | a run that is no dry run deletes exactly the first 10000 storage keys of the scan, truncated or not, and reports how many disappeared; all of them are of the namespace and, by the name of the type, of its prefix, and none is internal; errors and dry runs change nothing |
| AdminScan.DoomedBelongHere | app/routers/admin.py:212-224 | every key collected from a scan with the built pattern belongs to the namespace and type |

## Left out

- Rename or unlink failures inside a backup shift (the code lets them escape), a crash during a compression of another slot than the first, several processes writing one log file, and clocks running backwards.
- `backupCount` 0: the handler's methods cover it, the run theorems start at 1. With `maxBytes` 0 or less the size theorem says nothing, because nothing is counted.
- RotatingHandler.Handler.DoRollover: the size cap may remove any files but the active one; which ones it picks is the subject of SizeCleanup.
- RotationRules.RotationKeepsSuffix: the size cap, and deletions from outside, touch only dates before the retention horizon; the theorems about archives allow any.
- RotationRules.ActiveFileBound: from a start at which the size of the file could be found out.
- RotatingHandler.Handler.Append: the write of the standard library's file handler is one step that works or fails.
- PendingCompressions.WaitMakesProgress: for the one worker; two exist if two threads are the first to use the executor at the same moment (the safety theorems allow any number).
- The cached timestamp text of the log handler: only the date it yields enters, as a value that never decreases.
- Which file names count as archives or as files of a date (regular expressions over names): taken as given sets.
- A source whose directory entry disappears while its copy is open stays readable, as on POSIX file systems.
- Lone surrogates in Python strings: a character is a Unicode scalar value.
- Glob character classes and escapes: the pattern charset excludes them.
- TtlContract.WritesSetTtl: on values rather than a class, because the store belongs to Redis; it assumes that no time passes between the commands.
- Limits of Redis on TTL values, and Redis errors other than a rejected write (connections, memory).
- INCR commands that Redis rejects one by one, and the value of the latency sum, which is a float (what is added to it is modelled).
- The limit is fixed in the queue theorems; it comes from the configuration.
- AuditCapture.TextIsRecordedAsText: the media type is given, not parsed from its header; the hash is represented by the bytes it is taken of.
- Requests before the audit log is initialised, which pass through unrecorded.
- Exceptions while an audit record is formatted, the payload prefix of the body, and the correlation key written after a captured write.
- AuditCapture.Serve: requests in one context, which is the strictest case; the server gives each request a context of its own.
- AuditCapture.LevelOneCaptures: segments without slashes; a percent-encoded slash splits a segment after decoding.
- MetricsCache.ServedIsFresh: a clock at least 30 seconds past its epoch when the process starts, and monotone.
- SCAN itself: what it yields is an arbitrary sequence, with repetitions, of keys that match its pattern.
- AdminScan.Store.DelInBatches: no other client writes between two batches.
- Stream trimming and consumer groups (approximate by design or internal to Redis), request routing, permission checks, API-key lookup, configuration loading, response texts.
