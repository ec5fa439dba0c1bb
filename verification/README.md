# Verified models of the proxy's stateful components

This project models, in Dafny, the parts of the package proxy whose correctness depends on state that changes over
unbounded runs, and proves what each of them promises:

- the size-bounded LRU file cache (`cache/`): heap-based victim selection, the two-file layout on disk, the manager
  as a plain map with expiry and eviction, and every interleaving of the backend's locked sections;
- the worker pool (`internal/goroutine`): submitters, workers and closers as a state machine;
- the batch script language (`internal/batch`): grammar, cursor-based parser, round trips, and the executor;
- three rate limiters: the sliding-window alert limiter (`internal/alerts`), the fixed-window API key limiter with its
  recent-address list (`internal/auth`), and the bandwidth limiter of Maven copies (`internal/backup`);
- Maven sync and incremental backup (`internal/backup`): change detection, parallel workers over disjoint files, and
  when source and copy are equal.

Check everything with `dafny verify dfyconfig.toml` (Dafny 4.11).

## How the model is built

Code that changes things step by step is a class with the same fields, or a method with the same loops; each is proved
against functions or predicates over values, and the results about whole runs are lemmas over those. Concurrency is
either an explicit state machine (`CacheInterleaving`, `CacheSections`, `WorkerPool`, the key runs in `ApiKeys`) or a scheduler loop that
may let any worker take the next step (`CopyPool`). Time is an explicit integer or, for bandwidth, real number. Outside
functions are parameters: JSON encoding (`Codec`, `marshal`/`unmarshal`), checksums, file-name matching, float parsing
and the outcome of CLI calls, each under no assumption but the one a result names (decoding undoes encoding, checksums
do not collide).

Where a promise does not hold of the code as written, the code is kept and the exact condition is proved:

- Storing a key can break the pairing of data and metadata files: when its temporary file's path is itself a stored key
  (`TwoPutsBreakPairs`), or when a key or its metadata path plays the other part for another key. `PutKeepsPairsIff` and
  `RemoveKeepsPairsIff` say exactly when, for every key. The plain map is for keys that do not end in `.meta` and are not stored next to a key
  of theirs with `.tmp` added.
- Keys ending in `.tmp` or `.partial` are stored and count, but eviction passes them over (`PartialIsOutOfReach`), so the
  size bounds of eviction and of `Put` hold exactly as far as such keys leave room (`PerformEviction`, `EvictionBoundIff`,
  `PutWithinLimitIff`).
- A `MaxSize` of zero or less means "no limit" to `Put`, but to periodic eviction that no byte it can reach may stay
  (`PerformEviction`).
- An expired `Get` removes the entry in a second locked section. It then deletes a live entry exactly if the key was
  stored after that `Get`, not removed since, and has not expired again (`LateRemovalLosesIff`); that can happen
  (`LateRemovalCanLoseFreshEntry`).
- `Shutdown` holds the lock while it waits for the workers. A task that makes any call to its own pool meanwhile blocks it
  for good (`DeadlockingRun`, `BlockedForever`). Apart from that the pool never stops short (`StuckIff`), and if no task is
  inside such a call every schedule ends with all calls returned (`EveryCallReturns`).
- `Shutdown` having returned does not keep a task from starting later: a first `Start` after it begins a left-over task
  exactly if there is one and a worker to start (`LateStartBeginsIff`). Without such a `Start` none begins
  (`QuietAfterShutdown`).
- A first `Start` after `Shutdown` can lead to a panic exactly if an accepted task was left in the queue and there is a
  worker to start (`LateStartPanicsIff`); without such a `Start` nothing panics (`NoPanic`), and only pools without workers
  or without a buffer are free of it (`CanPanicIff`).
- `else` and `fi` are ordinary command names outside the blocks they close, and a line of 64 KiB or more silently ends
  the script; the parser's exact range is `WellFormedAll` (`RoundTripIff`). Errors carry the number of the kept line, not
  that of the source line (`Parser.Parse`).
- Conditions can be resolved before the run exactly when the executor starts with exit code zero
  (`ResolvesIffLastExitZero`).
- With at most `callers` API key uses between check and count, a window records at most `limit + callers - 1`, which is
  attained for every limit and every number of callers (`EveryWindowBounded`, `BoundIsAttained`), so the configured limit
  holds in every window exactly if uses never overlap (`LimitHoldsIff`). A closed minute can hold twice a window's bound, and
  for every limit some run does (`EveryMinuteBounded`, `MinuteBoundIsAttained`).
- Sync without checksums overlooks same-size changes, and exactly those its mode does not catch by time
  (`FaithfulIffNotOverlooked`, `SameSizeEditReachesIff`); with fewer than one worker it copies nothing and reports no error (`Sync`).
- A backup is complete exactly if it used checksums or every file is stamped after the backup before or is as it was last
  saved (`BackupCompleteIff`, `UnstampedEditIsMissed`); the backups of a history are all complete exactly if at each timestamp backup every file that differs from what a backup
  last saw of it is stamped after the backup before (`EveryBackupCompleteIff`).

## Model

| member | source | states |
|---|---|---|
| `LruHeap.SiftStep` | cache/eviction.go:300-309 | swapping a node with its older child moves the only possible heap violation down to that child |
| `LruHeap.RootIsOldest` | cache/eviction.go:300-304 | in a heap over access times the root is least recently accessed |
| `LruHeap.MetadataHeap.Down` | cache/eviction.go:297-309 | sift-down repairs the heap at its start, permutes the first n items and leaves the rest |
| `LruHeap.MetadataHeap.Init` | cache/eviction.go:41-42 | heap construction orders a permutation of the items |
| `LruHeap.MetadataHeap.Pop` | cache/eviction.go:318-325 | removes a least recently accessed item and keeps a heap of exactly the others |
| `LruHeap.SelectEvictionCandidates` | cache/eviction.go:39-56 | the keys of a least-recently-accessed part, oldest first, that covers the required space or is everything, while every shorter prefix of it falls short |
| `CacheFiles.PutKeepsPairsIff` | cache/filesystem.go:97-164 | storing any key keeps every data file paired with metadata of its name and length if and only if its temporary path is no stored key, a key that is a metadata path gets data describing its file, and a stored key that is this key's metadata path keeps its length |
| `CacheFiles.TwoPutsBreakPairs` | cache/filesystem.go:97-164 | for every key, storing its temporary path as a key and then the key itself breaks a pair |
| `CacheFiles.RemoveKeepsPairsIff` | cache/filesystem.go:194-212 | deleting any key keeps the pairs if and only if the key is not the metadata path of a data file and its metadata path is not a stored key |
| `CacheFiles.StorableFits` | cache/filesystem.go:97-164 | on a layout without metadata paths as keys, what keeps the pairs are the storable keys, and metadata paths given data that describes their file |
| `CacheFiles.PlainIff` | cache/eviction.go:199-207 | the scan reports exactly the paths that do not end in `.meta`, `.tmp` or `.partial` |
| `CacheFiles.PutKeepsLayout` | cache/filesystem.go:97-164 | storing a key that is no metadata path, with its temporary path not stored, keeps the layout |
| `CacheFiles.RemoveKeepsLayoutIff` | cache/filesystem.go:194-212 | deleting a key keeps the layout if and only if the key is not the path of an existing metadata file |
| `CacheFiles.PutEntries` | cache/filesystem.go:97-164 | storing through a temporary file and rename changes exactly one entry of the plain map |
| `CacheFiles.RemoveEntries` | cache/filesystem.go:194-212 | deleting removes exactly one entry of the plain map |
| `CacheFiles.TouchEntries` | cache/filesystem.go:306-322 | an access-time update changes at most one access time and never adds or revives a file |
| `CacheFiles.MetaMeansData` | cache/filesystem.go:289-304 | metadata can be loaded for a key exactly when its data file is there |
| `FileSystemBackend.BytesReader.Read` | cache/manager.go:159-166 | a read returns the next bytes up to the buffer size, and end of file exactly when none are left |
| `FileSystemBackend.ReadAll` | cache/manager.go:48-58 | reading chunk by chunk until end of file yields all remaining bytes in order |
| `FileSystemBackend.Backend.Get` | cache/filesystem.go:46-94 | misses without metadata, removes an expired entry, otherwise opens the data and schedules one access-time update |
| `FileSystemBackend.Backend.Put` | cache/filesystem.go:97-164 | after temporary file, copy, rename and metadata, the files are those of the layout with this entry stored |
| `FileSystemBackend.Backend.Exists` | cache/filesystem.go:167-191 | true exactly for a data file with unexpired metadata |
| `FileSystemBackend.Backend.Delete` | cache/filesystem.go:194-212 | removes the data and the metadata file and nothing else |
| `FileSystemBackend.Backend.Clear` | cache/filesystem.go:223-233 | leaves no file |
| `FileSystemBackend.Backend.Size` | cache/filesystem.go:236-256 | the sum of the lengths of all files that are not metadata, in any walk order |
| `FileSystemBackend.Backend.UpdateAccessTime` | cache/filesystem.go:307-322 | rewrites the access time of whatever entry the key has by then, or does nothing |
| `CacheEviction.SelectionEvictsLru` | cache/eviction.go:233-259 | the heap's selection over the collected metadata is a least-recently-used eviction of the scannable part of the plain map, by real data lengths |
| `CacheEviction.RecordedSizes` | cache/eviction.go:47-53 | recorded sizes of distinct entries add up to the lengths of their data files |
| `CacheEviction.RemoveAllEntries` | cache/eviction.go:244-252 | deleting a set of keys removes exactly those entries and their bytes from the total |
| `CacheEviction.EvictionBoundIff` | cache/eviction.go:233-259 | evicting for a required space leaves at most the old total less that space if and only if the keys the scan passes over hold no more than that, and otherwise leaves exactly those |
| `CacheEviction.StopsInTime` | cache/eviction.go:47-53 | put back the newest of what eviction removed, and more is left than was to be |
| `CacheEviction.PartialIsOutOfReach` | cache/eviction.go:185-223 | one stored key ending in `.partial` holds any number of bytes that eviction cannot reach |
| `CacheEviction.StoreWithinLimitIff` | cache/manager.go:73-93 | on the plain map, evicting for the excess and storing leaves at most max(MaxSize, length of the data) if and only if the other keys out of the scan's reach leave room for the data, and otherwise exactly those and the data |
| `CacheManager.LastStoreWins` | cache/manager.go:32-115 | a key is in the cache exactly if its last store was not followed by a delete, expiry, eviction or clear, and then with that store's bytes |
| `CacheManager.ScanCacheKeys` | cache/eviction.go:185-223 | reports each data file once and no metadata, temporary or partial file |
| `CacheManager.CollectAllMetadata` | cache/eviction.go:262-282 | one stored metadata record per key |
| `CacheManager.EvictByPolicy` | cache/eviction.go:233-259 | removes exactly a least-recently-used selection for the required space and bounds the remaining total |
| `CacheManager.EvictExpired` | cache/eviction.go:153-182 | removes exactly the expired entries that the scan reports |
| `CacheManager.PerformEviction` | cache/eviction.go:116-135 | with ordinary keys, total at most MaxSize, at most 90% of it after an overflow, and nothing with MaxSize zero or less; in general if and only if the keys the scan passes over hold no more than that; without overflow exactly the expired scannable entries go |
| `CacheManager.StopsNearNinety` | cache/eviction.go:132-134 | eviction after an overflow goes below 90% by no more than the newest entry it removed |
| `CacheManager.NegativeLimitEvictsAll` | cache/eviction.go:127-134 | a limit of minus two or less makes periodic eviction remove every entry the scan reports |
| `CacheManager.StaleMeans` | cache/eviction.go:28-36 | with ordinary keys exactly the entries with a positive lifetime that is over count as expired |
| `CacheManager.Manager.Get` | cache/manager.go:33-61 | returns exactly the bytes of the last store in the history that nothing has removed since, unless they have expired; an expired entry is removed; counts hits and misses |
| `CacheManager.Manager.MakeRoom` | cache/manager.go:73-88 | evicts a least-recently-used selection exactly when the new data would overflow, and makes room if and only if the keys out of the scan's reach leave it |
| `CacheManager.Manager.Store` | cache/manager.go:90-92 | writes one entry into the plain map, adding at most its length to the total |
| `CacheManager.Manager.Put` | cache/manager.go:64-93 | stores the entry with the effective lifetime, disturbs no other key but the evicted ones, and with ordinary keys leaves a total of at most max(MaxSize, length of the data); in general if and only if the other keys out of the scan's reach leave room for the data, and otherwise exactly those and the data |
| `CacheManager.PutWithinLimitIff` | cache/manager.go:64-93 | the same as a statement on the files before and after |
| `CacheManager.Manager.Exists` | cache/manager.go:96-98 | for every key, true exactly for an unexpired entry of the plain map |
| `CacheManager.Manager.Delete` | cache/manager.go:101-106 | removes one key from the plain map |
| `CacheManager.Manager.Clear` | cache/manager.go:109-115 | empties the plain map and records the time |
| `CacheManager.Manager.ForceEviction` | cache/manager.go:148-150 | the plain map loses exactly what periodic eviction removes, with its size bounds |
| `CacheManager.Manager.RunPendingUpdate` | cache/filesystem.go:90-91 | a late access-time update changes the plain map at most by one access time, and no size |
| `CacheInterleaving.StepKeepsInv` | cache/filesystem.go:46-322 | every locked section keeps the layout, including a delayed expiry removal and a late access-time update |
| `CacheInterleaving.GetIsDecided` | cache/filesystem.go:46-94 | in every state each `Get` has exactly one way to go: a hit exactly on an entry whose lifetime is not over, an expired one exactly if it is, a miss exactly without an entry |
| `CacheInterleaving.FilesInPairs` | cache/filesystem.go:46-322 | in every interleaving a data file exists iff its metadata does, the recorded size is the data length, and all files are in pairs |
| `CacheInterleaving.PresentIff` | cache/filesystem.go:46-322 | in every interleaving exactly the keys stored and not removed since are there, with the bytes, time and lifetime last stored; so no temporary file remains |
| `CacheInterleaving.NoRevival` | cache/filesystem.go:307-322 | in every interleaving a key that is gone stays gone until it is stored again |
| `CacheInterleaving.SectionsScheduled` | cache/filesystem.go:58-91 | in every interleaving the hits on a key are its pending and its carried-out access-time updates, and its expired `Get`s the pending and carried-out removals |
| `CacheInterleaving.LateRemovalLosesIff` | cache/filesystem.go:58-72 | a delayed expiry removal deletes a live entry if and only if the key was stored after that `Get`, neither stored nor removed again since, and has not outlived its lifetime |
| `CacheInterleaving.LateRemovalCanLoseFreshEntry` | cache/filesystem.go:58-72 | a run in which the delayed removal deletes a fresh entry |
| `CacheSections.SectionKeepsTrack` | cache/eviction.go:233-282 | every section of an eviction, with deletions by others in between, accounts for each byte it has seen go |
| `CacheSections.EvictorBegins` | cache/eviction.go:116-134 | an evictor at rest that finds the cache above its limit sets out to bring it to 90% |
| `CacheSections.StepKeepsInv` | cache/manager.go:64-93 | every interleaved section of `Put`, the evictor and other callers keeps the layout and the size bound |
| `CacheSections.AlwaysWithinLimit` | cache/manager.go:64-93 | over every interleaving of these sections the total is at most MaxSize, or at most the length of the data stored last and the bytes out of the scan's reach |
| `CacheSections.UndisturbedPassShrinks` | cache/eviction.go:116-135 | an evictor pass that found an overflow, and during which no `Put` wrote, ends at 90% of MaxSize or less if and only if the bytes out of the scan's reach are no more |
| `WorkerPool.StepIsSafe` | internal/goroutine/worker_pool.go:78-180 | lock exclusion, closing order and absence of panics are kept by every step |
| `WorkerPool.NoPanic` | internal/goroutine/worker_pool.go:167-180 | in every interleaving no step sends on or closes a closed channel, if a late Start finds an empty queue or has no worker to start |
| `WorkerPool.TasksConserved` | internal/goroutine/worker_pool.go:96-137 | in every interleaving, late Starts included, tasks are begun in acceptance order, accepted tasks are the queued, running and finished ones, and workers and both channels stay within their configured size |
| `WorkerPool.ErrorsConserved` | internal/goroutine/worker_pool.go:107-115 | in every interleaving the failures of tasks are those whose error a worker still holds, those in the channel, those received, and those dropped because the channel was full |
| `WorkerPool.AnswersHaveReasons` | internal/goroutine/worker_pool.go:96-137 | in every interleaving as many Submit calls are answered without error as tasks are accepted, a call is told closed or cancelled only if the pool is, and a worker leaves an uncancelled pool only once the task channel is closed and empty |
| `WorkerPool.AnswerMeans` | internal/goroutine/worker_pool.go:121-137 | what each answer of Submit says about the pool at the moment it is decided, and that exactly acceptance adds the task |
| `WorkerPool.QuietAfterShutdown` | internal/goroutine/worker_pool.go:167-180 | once any Shutdown has returned no task runs, starts, finishes or is accepted, if a late Start finds an empty queue or has no worker to start |
| `WorkerPool.LateStartBeginsIff` | internal/goroutine/worker_pool.go:78-117 | in every reachable state a late Start can begin a task if and only if one was left in the queue and there is a worker to start |
| `WorkerPool.StuckIff` | internal/goroutine/worker_pool.go:96-180 | a reachable state with an unreturned call has no step of the pool's own if and only if a Shutdown waits for workers whose tasks are all inside pool calls that wait for the lock or are that Shutdown; with all calls returned, if and only if the workers have exited or wait on an empty open queue |
| `WorkerPool.SomethingMoves` | internal/goroutine/worker_pool.go:96-180 | short of that deadlock some call or worker can move, even if waiting writers bar new readers |
| `WorkerPool.BlockedForever` | internal/goroutine/worker_pool.go:167-180 | a Shutdown waiting for a worker whose task waits for the pool never returns, whatever happens |
| `WorkerPool.DeadlockingRun` | internal/goroutine/worker_pool.go:121-180 | for every pool with workers and every kind of call, a run from the start in which a task makes that call while another goroutine shuts down, and blocks it |
| `WorkerPool.CanDeadlockIff` | internal/goroutine/worker_pool.go:167-180 | a pool can deadlock if and only if it has a worker |
| `WorkerPool.EveryScheduleEnds` | internal/goroutine/worker_pool.go:96-180 | every schedule of the pool's own steps is finite, by a measure each step decreases |
| `WorkerPool.EveryCallReturns` | internal/goroutine/worker_pool.go:96-180 | if no running task is inside a call to its own pool, every schedule run to its end has all calls returned, Shutdown included |
| `WorkerPool.LateStartPanicsIff` | internal/goroutine/worker_pool.go:78-93 | in every reachable state a late Start can lead to a send on the closed error channel if and only if a task was left in the queue and there is a worker to start |
| `WorkerPool.CanPanicIff` | internal/goroutine/worker_pool.go:78-180 | some interleaving from the start makes the pool panic if and only if it has a worker and a buffer |
| `BatchText.FieldsOfJoin` | internal/batch/parser.go:66 | splitting words joined by blanks gives the words back |
| `BatchText.JoinOfFields` | internal/batch/parser.go:138 | joining the fields of text with single inner blanks gives the text back |
| `BatchText.ScanOfJoin` | internal/batch/parser.go:22-30 | scanning lines joined by line feeds gives the lines back |
| `BatchText.ScanOfText` | internal/batch/parser.go:22-30 | scanning a text of any lines below the limit gives them back without carriage returns at their ends |
| `BatchText.LineEnds` | internal/batch/parser.go:22-30 | either line ending ends a line, and a line of 64 KiB or more silently ends the scan |
| `BatchText.KeepIff` | internal/batch/parser.go:25-29 | what is kept of raw lines is a list if and only if they are that list with white space around its lines and blank or comment lines anywhere between |
| `BatchText.FieldsIff` | internal/batch/parser.go:66 | the fields of a text are a list of words if and only if the text is those words with white space between and around |
| `BatchText.AtoiMeans` | internal/batch/parser.go:105 | a number is read from digits with an optional sign exactly if it fits 64 bits |
| `BatchText.QuotesAroundDropped` | internal/batch/parser.go:95 | all quotes around a message go and none inside it |
| `BatchText.AtoiOfItoa` | internal/batch/parser.go:105 | every 64-bit exit code reads back from its decimal form |
| `BatchGrammar.ParsesNodes` | internal/batch/parser.go:127-196 | a block laid out legally at any depth is parsed to its meaning, up to the line that stops it |
| `BatchGrammar.NodesOf` | internal/batch/parser.go:127-196 | whatever a block parse accepts has a legal layout with that meaning on exactly the lines it consumed |
| `BatchGrammar.ParsesExactlyLegalScripts` | internal/batch/parser.go:39-57 | the parser returns commands if and only if all lines, once and in order, form a legal layout with that meaning |
| `BatchParser.Parser.constructor` | internal/batch/parser.go:21-36 | keeps the trimmed lines that are neither empty nor comments |
| `BatchParser.LineMeans` | internal/batch/parser.go:60-138 | what a kept line means by its words, whatever white space separates them: each keyword, a bare `exit`, extra arguments and malformed lines |
| `BatchParser.WrittenTextParses` | internal/batch/parser.go:21-57 | a text with any white space around its lines, blank lines and comments between, and either line ending parses as its bare lines do |
| `BatchParser.Parser.Parse` | internal/batch/parser.go:39-57 | the cursor loop computes the grammar's parse, ends at the last line and stores the kept lines as source, or reports the error with its line number |
| `BatchParser.Parser.ParseOne` | internal/batch/parser.go:60-85 | one command is parsed as the grammar says, the cursor left on its last line |
| `BatchParser.Parser.ParseIf` | internal/batch/parser.go:127-160 | a conditional is parsed as the grammar says, with its three errors |
| `BatchParser.Parser.ParseElseAndFi` | internal/batch/parser.go:162-195 | the optional else-block and the required `fi` |
| `BatchParser.Parser.ParseUntil` | internal/batch/parser.go:144-160 | the block loop computes the grammar's block parse with measure lines left |
| `BatchParser.RoundTripIff` | internal/batch/parser.go:39-196 | parsing the canonical rendering of a tree of any depth gives exactly that tree if and only if the tree is well formed |
| `BatchParser.SourceRoundTrip` | internal/batch/parser.go:21-57 | the same from source text when the rendered lines fit the line scanner |
| `BatchParser.ParsedIsWellFormed` | internal/batch/parser.go:59-196 | every tree the parser ever returns is well formed |
| `BatchParser.ReparseSource` | internal/batch/parser.go:53-56 | reparsing the stored source gives the same result |
| `BatchParser.EveryLineConsumed` | internal/batch/parser.go:42-51 | on success every kept line is used once, in order |
| `BatchExecutor.Executor.Execute` | internal/batch/executor.go:47-69 | the step loop has the specified output, exit code, calls and result, with cancellation between steps |
| `BatchExecutor.Executor.ExecuteCommand` | internal/batch/types.go:57-127 | each command acts as specified; a conditional runs the selected block |
| `BatchExecutor.Executor.ExecuteBlock` | internal/batch/types.go:112-124 | a block runs its commands in order and stops at the first fault |
| `BatchExecutor.Executor.ExecuteCli` | internal/batch/executor.go:72-109 | refuses exactly commands off the list and then changes nothing; otherwise one call is made, its output written and its exit code kept, and it fails exactly if that is not a success |
| `BatchExecutor.NothingAfterFault` | internal/batch/types.go:112-124 | after the first failure or exit nothing else of a block runs, whatever follows |
| `BatchExecutor.EqualityMeans` | internal/batch/executor.go:112-135 | for any words and any white space, `==` and `!=` hold exactly if the values the words stand for are equal and differ |
| `BatchExecutor.OrderMeans` | internal/batch/executor.go:136-192 | the four orders hold exactly as on the two numbers |
| `BatchExecutor.SpecialOrderMeans` | internal/batch/executor.go:168-192 | infinities bound the finite numbers and nothing compares with what is not a number |
| `BatchExecutor.FaultyConditions` | internal/batch/executor.go:112-146 | short conditions, unknown operators and values that are no numbers give their faults |
| `BatchExecutor.ResolvesToItsValue` | internal/batch/executor.go:150-165 | a word stands for the last exit code, a variable's value or itself |
| `BatchExecutor.CommandsMean` | internal/batch/types.go:57-127 | a conditional runs its first block if its condition holds, its second if not, and neither if it is faulty |
| `BatchExecutor.ScriptIsItsBlock` | internal/batch/executor.go:47-69 | without cancellation a script makes the same calls and output as its commands run as a block, and its result is that block's fault |
| `BatchExecutor.SuccessKeepsZero` | internal/batch/executor.go:97-108 | as long as commands succeed, at any depth, the exit code conditions see stays zero |
| `BatchExecutor.ConditionsResolveBeforeTheRun` | internal/batch/executor.go:47-147 | a script has the same output, calls, exit code and result as the straight-line script with all conditions resolved before the run |
| `BatchExecutor.ResolvesIffLastExitZero` | internal/batch/executor.go:150-156 | that holds for all scripts exactly when the executor starts with exit code zero (given no variable named `0` and no cancellation before the first step, which would hide the difference) |
| `AlertLimiter.TimeWindow.Cleanup` | internal/alerts/alert_manager.go:244-251 | drops exactly the leading times older than the window |
| `AlertLimiter.TimeWindow.Add` | internal/alerts/alert_manager.go:222-225 | appends a time and prunes |
| `AlertLimiter.TimeWindow.Count` | internal/alerts/alert_manager.go:227-230 | on ordered times, the number at or after the cutoff |
| `AlertLimiter.TimeWindow.CountRecent` | internal/alerts/alert_manager.go:232-242 | on ordered times, counting back from the newest gives the number within the span |
| `AlertLimiter.RateLimiter.Check` | internal/alerts/alert_manager.go:179-201 | the three checks on pruned windows decide as counting over the whole history does |
| `AlertLimiter.RateLimiter.Allow` | internal/alerts/alert_manager.go:172-207 | allows exactly if fewer alerts than each positive limit were allowed in the closed minute, hour and ten seconds up to now, deciding like a limiter that keeps its whole history, while each limited window stores no more than its limit |
| `AlertLimiter.EveryIntervalWithinLimits` | internal/alerts/alert_manager.go:172-207 | over any run every closed minute, hour and ten seconds holds at most the configured number of allowed alerts |
| `ApiKeys.Manager.ValidateAPIKey` | internal/auth/api_keys.go:188-215 | unknown exactly if no key matches, otherwise accepted exactly if a matching key is active, unexpired and its window over or below a positive limit, with the exact condition of each refusal; only that key's window may be refreshed |
| `ApiKeys.Manager.RecordAPIKeyUsage` | internal/auth/api_keys.go:218-272 | updates exactly the named key's counters, window and recent list |
| `ApiKeys.EveryWindowBounded` | internal/auth/api_keys.go:392-415 | in every run with at most `callers` uses between validation and recording, no window records more than `limit + callers - 1` uses |
| `ApiKeys.EveryMinuteBounded` | internal/auth/api_keys.go:392-415 | no closed minute holds more than twice that |
| `ApiKeys.BoundIsAttained` | internal/auth/api_keys.go:206-234 | for every limit and number of callers some run records `limit + callers - 1` uses in one window |
| `ApiKeys.MinuteBoundIsAttained` | internal/auth/api_keys.go:392-415 | for every limit and number of callers some run records twice that in one closed minute |
| `ApiKeys.LimitHoldsIff` | internal/auth/api_keys.go:206-234 | the configured limit holds in every window of every run if and only if uses never overlap |
| `ApiKeys.HistoryIsRun` | internal/auth/api_keys.go:188-272 | in every history of validating and recording calls on any keys in which a use is recorded only after it was accepted, what happens to one unused key is a run, with its window, the times of its recorded uses and the accepted uses in flight |
| `ApiKeys.UsesPerMinute` | internal/auth/api_keys.go:188-272 | so over every such history no closed minute holds more recorded uses of a key than twice `limit + callers - 1` |
| `ApiKeys.RefusalMeansUses` | internal/auth/api_keys.go:392-402 | over every such history a key is refused for its rate only if as many uses as its limit were recorded in the minute before |
| `RecentList.AddToRecentList` | internal/auth/api_keys.go:418-436 | removes the first equal entry, puts the item in front and truncates |
| `RecentList.StoredIsFrontOfMru` | internal/auth/api_keys.go:247 | after any history the stored list has no duplicates and is the front of the unbounded most-recently-used order |
| `RecentList.MruIsByLastUse` | internal/auth/api_keys.go:418-436 | that order lists exactly the addresses seen, by decreasing time of last use |
| `BandwidthLimiter.AdmissionWithinRate` | internal/backup/maven_sync.go:457-475 | one admission lets through at most the rate times the time it moves the limiter's clock |
| `BandwidthLimiter.WaitIsNeeded` | internal/backup/maven_sync.go:457-475 | bytes wait exactly if they exceed what has accrued, and less than one byte's time longer than the excess takes |
| `BandwidthLimiter.RunWithinRate` | internal/backup/maven_sync.go:457-475 | over any sequence of admissions by any workers, total bytes are at most the rate times the time passed |
| `BandwidthLimiter.RateLimiter.WaitForQuota` | internal/backup/maven_sync.go:457-475 | admits the bytes after waiting and keeps the run possible |
| `BandwidthLimiter.RateLimiter.AlwaysWithinRate` | internal/backup/maven_sync.go:411-423 | at all times the bytes admitted since creation are within the rate |
| `BandwidthLimiter.RateLimiter.CopyWithLimit` | internal/backup/maven_sync.go:425-455 | writes exactly the source bytes in order, each chunk admitted first, while other workers share the limiter |
| `CopyPool.Advance` | internal/backup/maven_sync.go:182-218 | one step of a worker (decide, create, copy a chunk, finish) keeps every path's state right |
| `CopyPool.RunJobs` | internal/backup/maven_sync.go:177-229 | every schedule of the workers ends, with the same target and the same counts |
| `MavenSync.CollectSourceFiles` | internal/backup/maven_sync.go:107-132 | the non-excluded source files |
| `MavenSync.ExcludedIff` | internal/backup/maven_sync.go:383-410 | a file is excluded exactly if a default or user pattern matches its name or is contained in its path |
| `MavenSync.SyncAt` | internal/backup/maven_sync.go:73-322 | what the target holds at each path after a sync, in every mode, with dry runs, confirmation and any number of workers |
| `MavenSync.CleanupTarget` | internal/backup/maven_sync.go:275-322 | removes exactly the extra non-excluded target files, unless in a dry run or when confirmation is required |
| `MavenSync.Sync` | internal/backup/maven_sync.go:73-156 | the resulting target and the three counts, in every mode and on any number of workers |
| `MavenSync.FaithfulIffNotOverlooked` | internal/backup/maven_sync.go:233-272 | a file ends up identical if and only if change detection does not overlook it |
| `MavenSync.SameSizeEditReachesIff` | internal/backup/maven_sync.go:233-272 | without checksums, an edit that keeps a file's size reaches a target synced before if and only if the mode is incremental and the edit is stamped later |
| `MavenSync.MirrorEqualsSource` | internal/backup/maven_sync.go:73-322 | after a mirror sync with checksums the non-excluded target equals the non-excluded source and excluded target files are untouched |
| `MavenSync.SecondSyncIsIdle` | internal/backup/maven_sync.go:233-322 | a second sync copies and deletes nothing, in every mode |
| `IncrementalBackup.Backup.Collect` | internal/backup/maven_incremental_backup.go:160-213 | the files that need a backup and the new checksums |
| `IncrementalBackup.Backup.BackupFiles` | internal/backup/maven_incremental_backup.go:239-331 | the workers leave copies of exactly the chosen files, four workers standing in for none |
| `IncrementalBackup.Backup.PerformBackup` | internal/backup/maven_incremental_backup.go:132-236 | fails only on undecodable metadata and then changes nothing; otherwise copies the chosen files and saves new metadata |
| `IncrementalBackup.BackupKeepsHonest` | internal/backup/maven_incremental_backup.go:183-202 | in either mode recorded checksums stay those of the copies |
| `IncrementalBackup.ChecksumBackupIsComplete` | internal/backup/maven_incremental_backup.go:132-236 | after any history, right after a checksum backup every non-excluded source file but the metadata file's namesake has an identical copy |
| `IncrementalBackup.BackupCompleteIff` | internal/backup/maven_incremental_backup.go:132-236 | after any history, the last backup is complete if and only if it used checksums or every file is stamped after the backup before or is as it was last saved |
| `IncrementalBackup.CopyIsLastSaved` | internal/backup/maven_incremental_backup.go:183-236 | after any history the copy of a file is its contents at the last backup that used checksums or found it stamped since the one before |
| `IncrementalBackup.UnstampedEditIsMissed` | internal/backup/maven_incremental_backup.go:197-202 | an edit not stamped after the latest backup is missing after the next timestamp backup |
| `IncrementalBackup.UnchangedIsLeftAlone` | internal/backup/maven_incremental_backup.go:183-202 | a file whose contents the backup before recorded, or not stamped since, is not copied again |
| `IncrementalBackup.ExcludedStaysOut` | internal/backup/maven_incremental_backup.go:111-130 | over any history an excluded file never gets into the backup |
| `IncrementalBackup.EveryBackupCompleteIff` | internal/backup/maven_incremental_backup.go:132-236 | all backups of a history, in any mixture of modes, are complete if and only if at each timestamp backup every file that differs from what a backup last saw of it is stamped after the backup before |
| `IncrementalBackup.CopyIsLastSeen` | internal/backup/maven_incremental_backup.go:197-236 | after complete backups the copy of each file is what a backup last saw of it, even if the file is gone |
| `IncrementalBackup.HonestClockIsComplete` | internal/backup/maven_incremental_backup.go:132-236 | if edits are stamped after the latest backup, every backup in any mixture of modes is complete |

## Left out

- I/O failures and the error values they produce; every file operation succeeds. A key that is also a directory prefix of another key is such a failure.
- Path cleaning: cache keys and relative paths are taken as already cleaned.
- 64-bit overflow of sizes and counters, and rounding of floating-point products: `0.9 * MaxSize` is exact with truncation, bandwidth arithmetic is exact and sleeps are not cut to whole nanoseconds.
- Two clock readings within one call (creation and access time of an entry, expiry and window of a key) are one reading.
- The S3 cache backend: a remote client whose eviction is a stub.
- Cache statistics other than hits, misses and the time of the last clear; the periodic eviction ticker.
- `SubmitWithTimeout`, `ShutdownWithTimeout` and `SafeGoGroup`: they wrap the modelled pool.
- Tasks that never finish for reasons of their own: a running task that is not inside a pool call may always end.
- The batch job manager: its status fields are written without synchronisation.
- UTF-8 decoding: script text is a sequence of characters, with byte lengths counted only for the line limit.
- API key generation, storage and revocation.
- ApiKeys.Manager.ValidateAPIKey: is one atomic step here, while the source refreshes the window under the read lock only, so two validations of one key can race on its two fields.
- ApiKeys.Manager.RecordAPIKeyUsage: does not model the hourly, daily and per-endpoint counters and their clean-up, which are counters by a formatted time.
- CacheManager.Manager.ForceEviction: is stated, like the other calls of the manager, for a call that runs by itself; sections of several calls interleave in `CacheSections`.
- Updates of a key's rate limit in the middle of a run.
- Alert senders, filter rules, HTTP handlers, configuration and monitoring.
- Byte totals, durations, progress callbacks, file permissions and error lists of sync and backup results.
- `IncrementalBackup.Restore` and failed backups: the former copies into the backup directory instead of the requested target.
