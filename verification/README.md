# A verified model of the ingest and search service

A Dafny model of the algorithms and protocols of a Go semantic-search service: how texts are cut into chunks and
chunks are found again in their text, how one importer at a time holds a Redis lock, how an ingest job moves through
queue, worker and job table, how a language model's output is read line by line, how key phrases are scored, how hits
from several searches are merged, and how rows travel through three layers of batches.

`dafny verify dfyconfig.toml` checks everything.

## Files

| files | subject |
|---|---|
| Text, Utf8 | strings as code points, spans of a text, trimming, splitting; UTF-8 |
| Merging, MergeLaws | `mergeSplits`: the loops, and what their windows are |
| RecursiveSplit, SplitLaws, SplitStructure | the recursive splitter over all levels, and what it keeps together |
| Decimal, Chunker, ChunkStructure | decimal points, the whole chunker |
| ChunkIds, Records | chunk ids; `SplitRecord` with its search for offsets |
| ImporterLock | the lock as classes, and all runs of all processes as event sequences |
| JobQueue, JobRows, SortedStrings, S3Keys, JobWorker, JobLifecycle | the ingest job from enqueue to terminal status |
| JobSystem | all runs of requests, queue, workers and crashes as event sequences |
| QueryLines, QueryParsing | streamed lines and parsed lines |
| Rake, RakeScorer, Stopwords | the scoring identity, the scorer with its maps, the stop word cutter |
| Deduplication, RecallMerge, RecallMany | the merges, the fan-out and a whole retrieval |
| Embedding, MilvusWrites, EntityDocs | embedding and writing in batches; entity documents |
| BatchRuns, PlainTexts, InputFiles, Runner | runs as functions of their surroundings, and the runner that follows them |
| WholePath | the runner with the splitter: from a text to the rows that are held |

## How to read it

Code that changes things step by step is a method or a class here, proved against functions and predicates on values;
the lemmas then say what those functions mean. Text is a sequence of code points. A chunk is tracked as a span of its
text, so that order, coverage and size are statements about indices; only `Records` goes down to bytes.

What the environment does is a parameter: whether a call to Redis, MySQL, Elasticsearch, Milvus or S3 succeeds, what
the embedding service and the language model answer, in which order goroutines complete, what time it is. A call that
fails changes nothing, except that the lock's SetNX may have run although its reply was lost. SHA-256 is taken as
injective, tokens of lock holders as unique. The digit class of the decimal pattern, the letters and digits of an id, the
Han class, lower-casing, JSON decoding and the inference of source types are parameters, so the results hold for any of
them.

Some statements come out different from what one might expect of the code:

- `SplitRecord` can reject a record whose chunks all stand in it: with overlap, two trimmed chunks may start at the
  same place (`Records.OverlapCanMisalign`). It succeeds exactly when some placement with increasing offsets exists
  (`Records.SplitRecord`); overlap 0 is enough for that, also when separators are not kept (`Records.NoOverlapSucceeds`).
- The lock excludes a second importer if and only if holders are heard in time: any holder silent for one TTL is joined
  (`ImporterLock.ExclusionIffOnTime`, `ImporterLock.SilentHolderIsJoined`).
- The API accepts a form whose bucket contradicts its URIs, which the worker then rejects (`S3Keys.ResolveBoth`, with the
  form of `S3Keys.ContradictingForm`).
- A run can succeed and yet lose rows: when the collection is dropped after some batches were accepted, the next batch
  creates it again, empty (`MilvusWrites.AllThere`, `Runner.Runner.RunNDJSON`, `MilvusWrites.DroppedBetween`).
- The label "both" can appear without Milvus (`RecallMerge.BothWithoutMilvus`).
- Splitting a part at stop words again may trim it: parts keep inner white space at their ends
  (`Stopwords.ResplitIsSame`, `Stopwords.ResplitTrims`). Its caller `rawTokens` passes runs of Han characters, which
  have no white space.
- Creation times of entity documents depend on the order of the batch when zero is among different non-negative times
  (`EntityDocs.CreatedInAnyOrder`, `EntityDocs.CreatedDiffers`). `RunNDJSON` and `RunPlain` stamp the present, a
  positive time, on every row, so the batches they write do not come to that.
- Chunks can be held but not counted: exactly when a later insert of a batch fails behind one that was accepted, or the
  entity index fails behind all of them (`BatchRuns.MiscountedRun`, `Runner.HeldButNotCounted`). A batch whose document
  ids conflict is always of that kind, once rows of it are accepted (`BatchRuns.ConflictNeverCounts`).
- A plain text for a negative page gets the id of that page, but its record says page 0, and sent in
  again the record would get another id (`PlainTexts.PlainRecordIsNormal`, `Runner.NegativePage`).

## Model

| member | source | states |
|---|---|---|
| Merging.PopPieces | internal/ingest/chunk/recursive_split.go:167-173 | the inner loop stops exactly where the pop test first fails, and the running total is still the length of the pieces that are left, joined |
| Merging.MergeSplits | internal/ingest/chunk/recursive_split.go:151-188 | the two loops over strings return the trimmed texts of the non-blank windows, in order, where windows are ranges of pieces of one text |
| Merging.HoldsAfterPop | internal/ingest/chunk/recursive_split.go:168-172 | dropping the first piece keeps the running total equal to the length of the joined window |
| Merging.HoldsAfterPush | internal/ingest/chunk/recursive_split.go:176-180 | taking a piece keeps the running total equal to the length of the joined window |
| Merging.JoinDocsOfGroup | internal/ingest/chunk/recursive_split.go:163-166 | joining and trimming the pieces of a window gives the trimmed stretch of text between its first start and its last end, which is empty exactly when the window is blank |
| MergeLaws.GroupsArePlan | internal/ingest/chunk/recursive_split.go:151-188 | each window took every piece that still fitted and could not take the next one; the next window starts at the first piece where the pop test fails |
| MergeLaws.PlanIsUnique | internal/ingest/chunk/recursive_split.go:151-188 | that description has exactly one solution, the windows of the loop |
| MergeLaws.KeptTailIsLongest | internal/ingest/chunk/recursive_split.go:167-173 | popping keeps the longest tail of the window that is within the overlap and leaves room for the next piece; in front of a tail of one piece the separator is not counted |
| MergeLaws.TouchingTailIsLongest | internal/ingest/chunk/recursive_split.go:194-202 | pieces that touch: every longer tail passes the overlap, or passes the size together with the next piece |
| MergeLaws.WindowsAreUnique | internal/ingest/chunk/recursive_split.go:151-188 | in joined lengths only: a window is closed where the next piece would pass the size and nowhere before, the next one starts with the longest tail that may be kept, and no other list of windows has these properties |
| MergeLaws.WindowsOfPoints | internal/ingest/chunk/recursive_split.go:151-188 | single code points: windows of exactly the size (the last may be shorter), each sharing exactly the overlap with the one before |
| MergeLaws.NextWindow | internal/ingest/chunk/recursive_split.go:162-174 | after popping: the kept tail is at most the overlap, the new window starts no earlier (strictly later when pieces touch) and ends no earlier |
| MergeLaws.PopAdvances | internal/ingest/chunk/recursive_split.go:194-202 | pieces that touch: popping an overflowing window of short pieces does not stop before the start of the window has moved |
| MergeLaws.OpenedWithinSize | internal/ingest/chunk/recursive_split.go:194-202 | when popping stops, the rest is at most the overlap and leaves room for the next piece, up to one separator |
| MergeLaws.GroupsWithinSize | internal/ingest/chunk/recursive_split.go:151-188 | no window is longer than the chunk size plus one separator |
| MergeLaws.GroupsInOrder | internal/ingest/chunk/recursive_split.go:151-188 | any two windows of one merge are in order, share at most the overlap, and start strictly apart when pieces touch |
| MergeLaws.GroupsCover | internal/ingest/chunk/recursive_split.go:151-188 | every position is in a window or inside a separator between two pieces |
| RecursiveSplit.ChooseSeparator | internal/ingest/chunk/recursive_split.go:79-90 | the first separator that is empty or occurs in the text, and just those behind it; if there is none, the last and nothing |
| RecursiveSplit.ChosenIsUnique | internal/ingest/chunk/recursive_split.go:79-90 | there is only one such choice, and all levels of the recursion make it |
| Text.SplitPiecesFree | internal/ingest/chunk/recursive_split.go:96 | no occurrence of the separator starts in a piece of a split |
| Text.SplitIsUnique | internal/ingest/chunk/recursive_split.go:96 | spans of the text with the separator between any two and starting in none of them: there is one such list, that of the split |
| Text.JoinSplit | internal/ingest/chunk/recursive_split.go:96 | joining the pieces of a split gives the text back |
| RecursiveSplit.CutIntoPieces | internal/ingest/chunk/recursive_split.go:92-101 | code points for the empty separator, else the pieces of the split, with the separator in front of all but the first if it is kept; joined they are the text |
| RecursiveSplit.AddSeparatorPrefixToSplits | internal/ingest/chunk/recursive_split.go:131-140 | every piece but the first gets the separator in front |
| RecursiveSplit.SplitByRunes | internal/ingest/chunk/recursive_split.go:142-149 | one piece for each code point |
| RecursiveSplit.MergePending | internal/ingest/chunk/recursive_split.go:109-113 | the short pieces collected so far, merged, are the cuts of their stretch of text |
| RecursiveSplit.SplitText | internal/ingest/chunk/recursive_split.go:77-129 | the recursion ends (the separator list shrinks) and returns the texts of a list of spans of its input, described on indices only |
| SplitLaws.CutsOrdered | internal/ingest/chunk/recursive_split.go:77-129 | across all recursion levels the chunks are non-empty spans of the text in order, with strictly increasing starts when separators are kept |
| SplitLaws.CutsSize | internal/ingest/chunk/recursive_split.go:104-127 | with "" among the separators no chunk exceeds the chunk size, plus one separator if these are not kept |
| SplitLaws.CutsCover | internal/ingest/chunk/recursive_split.go:77-129 | every visible code point is in a chunk or, without kept separators, in a separator that was cut out |
| SplitStructure.CutsOfRun | internal/ingest/chunk/recursive_split.go:104-127 | a run of short pieces between two long ones is merged as a whole, with the configured size and overlap, and with nothing else |
| SplitStructure.CutsOfLongPiece | internal/ingest/chunk/recursive_split.go:114-122 | a piece that reaches the size is cut on its own, at the separators behind the chosen one, or kept as it is if none is left |
| SplitStructure.ShortTextIsOneChunk | internal/ingest/chunk/recursive_split.go:77-129 | a text shorter than the size is one chunk, or none if it is blank |
| SplitStructure.StretchesAreWhole | internal/ingest/chunk/recursive_split.go:77-129 | at every level: a stretch between two neighbouring cuts at the first n separators is torn by no chunk if it is shorter than the size, and shares no chunk with its surroundings if it is not |
| Decimal.ProtectExact | internal/ingest/chunk/decimal.go:13-17 | a full stop is replaced exactly when it stands between digits and the digits before it do not already follow a protected full stop; nothing else changes |
| Decimal.UnprotectProtect | internal/ingest/chunk/decimal.go:13-21 | unprotecting undoes protecting if and only if the text has no U+E000 of its own |
| Decimal.SecondDotStays | internal/ingest/chunk/decimal.go:11-17 | in "1.2.3" the second full stop stays unprotected |
| Chunker.ChunkTextRecursively | internal/ingest/chunk/recursive_split.go:27-67 | an error exactly when the effective overlap reaches the effective size; otherwise the trimmed windows of the text with placeholders turned back |
| Chunker.RestoreChunks | internal/ingest/chunk/recursive_split.go:59-66 | the last loop: restored, trimmed, empty ones dropped |
| Chunker.RestoreChunk | internal/ingest/chunk/recursive_split.go:61 | trimming before or after restoring full stops gives the same text |
| Chunker.RestoredText | internal/ingest/chunk/decimal.go:13-21 | the windows are windows of the text itself exactly when it has no U+E000 |
| Chunker.WindowsInOrder | internal/ingest/chunk/recursive_split.go:48-66 | any two windows are in order and share at most the overlap; starts strictly increase when separators are kept |
| Chunker.ChunksWithinSize | internal/ingest/chunk/recursive_split.go:104-127 | no chunk exceeds the chunk size, plus the longest separator if separators are not kept |
| Chunker.ChunkIsBody | internal/ingest/chunk/recursive_split.go:59-66 | every chunk is a non-empty contiguous stretch of the text |
| Chunker.EveryVisibleCodePointKept | internal/ingest/chunk/recursive_split.go:48-66 | every code point that is not white space lies in a returned chunk (or, without kept separators, in a separator) |
| Chunker.NoOverlapBodiesAdvance | internal/ingest/chunk/recursive_split.go:151-202 | without overlap the chunks are disjoint and advance, in both separator modes |
| ChunkStructure.WindowsTearNoStretch | internal/ingest/chunk/recursive_split.go:48-66 | for all options: no window tears a stretch between two separators that is shorter than the chunk size |
| ChunkStructure.FixedWindows | internal/ingest/chunk/recursive_split.go:27-67 | a text without white space, cut at every code point: windows of exactly the chunk size, each sharing exactly the overlap with the one before, from its start to its end |
| Utf8.PrefixDecodes | internal/ingest/chunk/ndjson.go:108-124 | UTF-8 bytes that are a prefix come from a text that is a prefix (section 3 of RFC 3629) |
| Utf8.TextToBytes | internal/ingest/chunk/ndjson.go:108-124 | where a text occurs, its bytes occur |
| Utf8.BytesToText | internal/ingest/chunk/ndjson.go:124-128 | where the bytes of a non-empty text occur, a code point starts and the text occurs |
| Utf8.EncodeCharLength | internal/ingest/chunk/ndjson.go:108 | a code point takes the shortest form that holds it (section 3 of RFC 3629) |
| Utf8.DecodeEncode | internal/ingest/chunk/ndjson.go:108 | and decoding that form gives it back |
| Records.SplitRecord | internal/ingest/chunk/ndjson.go:102-161 | succeeds exactly when the chunks can be placed in the text at strictly increasing byte offsets, and then returns the earliest placement; the error names the first chunk that cannot be placed; a single chunk keeps the id of its record, several get the hash of document, page and their number, or without a document the id of the record, "#" and their index; all other fields are copied |
| Records.GreedyStep | internal/ingest/chunk/ndjson.go:116-129 | the leftmost occurrence behind the previous start extends an earliest placement to an earliest placement |
| Records.GreedyStuck | internal/ingest/chunk/ndjson.go:121-127 | when the search finds nothing, no placement of these chunks exists |
| Records.AdvancingIsPlaceable | internal/ingest/chunk/ndjson.go:109-129 | if the trimmed starts strictly increase, the chunks can be placed at their own starts |
| Records.NeverLaterThanBody | internal/ingest/chunk/ndjson.go:116-129 | the search then never places a chunk later than its own start |
| Records.NoOverlapAdvances | internal/ingest/chunk/ndjson.go:109-129 | with overlap 0 the trimmed starts strictly increase |
| Records.NoOverlapSucceeds | internal/ingest/chunk/ndjson.go:102-129 | with overlap 0 and no U+E000 the alignment always succeeds, whether or not separators are kept |
| Records.BodiesAdvanceIfVisible | internal/ingest/chunk/ndjson.go:109-129 | for any overlap: the trimmed starts strictly increase if and only if something visible stands between the starts of any two windows |
| Records.NoSpacesSucceed | internal/ingest/chunk/ndjson.go:102-129 | with kept separators a text without white space and without U+E000 is always aligned, for any overlap |
| Records.PlacedAtCodePoints | internal/ingest/chunk/ndjson.go:124-130 | every offset found is the offset of a code point, and the chunk is spelled from there |
| Records.DistinctIds | internal/ingest/chunk/ndjson.go:131-148 | the chunks of one record get different ids and consecutive chunk numbers |
| Records.SplitAgrees | internal/ingest/chunk/ndjson.go:102-161 | splitting computes one function of the record |
| Records.SplitOfMeans | internal/ingest/chunk/ndjson.go:102-161 | that function: defined exactly when the chunks can be placed, with the earliest offsets |
| Records.LeftmostIsPlaced | internal/ingest/chunk/ndjson.go:109-129 | the leftmost search places the parts as early as possible, and fails only if they cannot be placed |
| Records.SharedIds | internal/ingest/chunk/ndjson.go:131-148 | two records, each split into several chunks, share an id if and only if document and page agree and their ranges of chunk numbers meet |
| Records.OverlapCanMisalign | internal/ingest/chunk/ndjson.go:121-127 | "x ab", size 2, overlap 1, separators [""]: the trimmed starts do not increase and the record is rejected as not aligned |
| ChunkIds.PreimageInjective | pkg/util/chunkid.go:12-15 | two different (document id, page, chunk number) never share a preimage, even when document ids contain NUL |
| ChunkIds.DigitsMean | pkg/util/chunkid.go:12-15 | numbers in ids are written in decimal, without a leading zero |
| ImporterLock.Redis.SetNX | internal/queue/importer_lock.go:51 | sets the key exactly when it is absent or expired |
| ImporterLock.Redis.RunRefresh | internal/queue/importer_lock.go:29-34 | extends the time to live only of the token in the key |
| ImporterLock.Redis.RunRelease | internal/queue/importer_lock.go:36-41 | deletes the key exactly if it holds the token and has not expired |
| ImporterLock.Holder.Tick | internal/queue/importer_lock.go:70-75 | one tick of the refresher; an error changes nothing |
| ImporterLock.Holder.Release | internal/queue/importer_lock.go:79-86 | only the first call stops the refresher and runs the script |
| ImporterLock.HoldImporterSingletonLock | internal/queue/importer_lock.go:45-88 | a holder exactly when Redis answered and the key was absent; without an answer an error, after which the key may hold the token if the command did run |
| ImporterLock.Restart | internal/queue/importer_lock.go:79-86 | after the first release of its owner the next caller gets the lock at once |
| ImporterLock.AtMostOneHolder | internal/queue/importer_lock.go:29-41 | in every run of any number of processes where every holder was last heard by Redis less than one TTL ago, at most one is between its SetNX and its release |
| ImporterLock.SilentHolderIsJoined | internal/queue/importer_lock.go:51-75 | after any run, a holder that is then silent for one whole TTL is joined by the next process that comes |
| ImporterLock.ExclusionIffOnTime | internal/queue/importer_lock.go:51-75 | after a run that was on time, the next process is kept out if and only if every holder is on time now |
| ImporterLock.LateHolderIsJoined | internal/queue/importer_lock.go:71-74 | a run of three events after which two processes hold the lock |
| ImporterLock.OnlyOwnersTouchKey | internal/queue/importer_lock.go:29-41 | whatever the timing, a process changes the key only while its token is in it, or by its own SetNX on an absent key |
| ImporterLock.LostStaysLost | internal/queue/importer_lock.go:29-41 | a started process that has lost the key never has it again |
| ImporterLock.OneInterval | internal/queue/importer_lock.go:29-86 | each token occupies the key for one contiguous stretch of a run |
| ImporterLock.ReleaseIsLast | internal/queue/importer_lock.go:79-86 | a process runs its release script at most once, and no refresh after it |
| ImporterLock.StaleLockExpires | internal/queue/importer_lock.go:51-58 | after one TTL of silence the next process gets the lock |
| ImporterLock.ReleasedLockIsFree | internal/queue/importer_lock.go:36-86 | after any run: when the owner releases the key, the next process holds it with no time passing |
| ImporterLock.UnreleasedLockHolds | internal/queue/importer_lock.go:36-86 | a release that does not reach Redis, or of a process that lost the key, leaves the key alone, and the next process is refused |
| ImporterLock.RefreshedLockHolds | internal/queue/importer_lock.go:29-34 | after a refresh that reached Redis the next process is refused for one TTL, and no longer |
| JobQueue.Broker.Enqueue | internal/queue/redis_broker.go:72-87 | one more job is pushed, or nothing |
| JobQueue.Broker.Dequeue | internal/queue/redis_broker.go:91-109 | the oldest job still queued, removed; idle when there is none; an unreadable job is removed and lost |
| JobQueue.DeliveredInOrder | internal/queue/redis_broker.go:72-109 | the jobs taken off the list are a prefix of the jobs pushed, each at most once |
| JobRows.JobTable.InsertQueued | internal/storage/mysqldb/ingest_job.go:58-81 | one new row with zero counters, or an error and no change |
| JobRows.JobTable.MarkRunning | internal/storage/mysqldb/ingest_job.go:84-106 | an error exactly when the row is missing or the store fails |
| JobRows.JobTable.SetTotalFiles | internal/storage/mysqldb/ingest_job.go:109-115 | sets the file count; a missing row is no error |
| JobRows.JobTable.AddOutcome | internal/storage/mysqldb/ingest_job.go:121-146 | the counts of one call are added in one statement, a negative total clamped to zero; an error exactly when the store fails or an unsigned column would become negative; a missing row is none |
| JobRows.JobTable.MarkTerminal | internal/storage/mysqldb/ingest_job.go:149-188 | sets the terminal status; an error exactly when the row is missing or the store fails |
| JobRows.DifferentJobsCommute | internal/storage/mysqldb/ingest_job.go:84-188 | swapping two neighbouring statements of different jobs changes no row |
| JobWorker.OnTaskFailed | internal/ingest/meta/service.go:212-231 | the task document first, then one failed file with one failed document in the row |
| JobWorker.OnTaskSucceeded | internal/ingest/meta/service.go:192-209 | the task document first, then one successful file with its input lines as documents and its written chunks as chunks; nothing if either update fails |
| JobWorker.ProcessFile | internal/ingest/pipeline/job_worker.go:89-149 | when a file ends in an error, and exactly when it adds one success, one failure or nothing to the row, for every way its calls turn out |
| JobWorker.ProcessMultipart | internal/ingest/pipeline/job_worker.go:82-156 | successes in file order, at most one failure and nothing after it; all of the plan if there was no error |
| JobWorker.ProcessKey | internal/ingest/pipeline/job_worker.go:208-296 | when an object ends in an error, and exactly when it adds one success, one failure or nothing to the row |
| JobWorker.AfterS3List | internal/ingest/meta/service.go:158-170 | placeholders, then the file count |
| JobWorker.ProcessS3 | internal/ingest/pipeline/job_worker.go:158-302 | the keys are resolved, the file count of a deferred job is corrected before any outcome, then the outcomes follow in key order |
| JobWorker.ProcessJob | internal/ingest/pipeline/job_worker.go:32-73 | marked running first, terminal status last, exactly one of each; the terminal status says whether there was an error |
| JobLifecycle.OnEnqueueMultipart | internal/ingest/meta/service.go:50-90 | the row is inserted, with the number of files, exactly when the store is reached and has none; success exactly when also the placeholders are indexed or there are none |
| JobLifecycle.OnEnqueueS3 | internal/ingest/meta/service.go:93-129 | the same for an object job: the file count is the number of resolved keys, or zero for a deferred listing, and nothing is inserted when they do not resolve |
| JobLifecycle.RowAt | internal/ingest/pipeline/job_worker.go:32-302 | the row at every moment of a run, as a function of how far the run is |
| JobLifecycle.RowLaws | internal/storage/mysqldb/ingest_job.go:121-188 | at every moment documents add up, at most one file fails, no more files are counted than there are; a job that succeeded counted all it asked for, and this is the file count exactly when the plan covers it |
| JobLifecycle.StatusMovesForward | internal/storage/mysqldb/ingest_job.go:84-188 | the status only moves queued, running, terminal, and a terminal status stays |
| JobLifecycle.MultipartPlan | internal/ingest/pipeline/job_worker.go:89-99 | every file is counted exactly when each has a payload key and a task id |
| JobLifecycle.CountsMeans | internal/ingest/pipeline/job_worker.go:89-99 | a file is counted if it has a payload key, and the file or its job a task id |
| JobLifecycle.PlanCarriesCounts | internal/ingest/meta/service.go:192-209 | what a job asks for adds up to what the runner reported for its counted files or its objects: lines as documents, chunks as chunks |
| JobLifecycle.PlanWithinTotal | internal/ingest/meta/service.go:104-113 | what the worker plans is what was counted at enqueue, for multipart, key-only and deferred jobs |
| JobLifecycle.LogMoment | internal/ingest/pipeline/job_worker.go:32-302 | the laws hold for the row that a log gives a job, when the log holds a prefix of one run of it |
| JobLifecycle.ProcessQueued | internal/ingest/pipeline/job_worker.go:32-73 | a processed job: success if and only if no error and both status updates got through; its documents and chunks are then the sums of what the runner reported for its files; no other row changes |
| JobSystem.IssuedByProcessJob | internal/ingest/pipeline/job_worker.go:32-73 | the scripts of the system are what processing a job issues: in each call, the statements of one possible run and nothing else |
| JobSystem.InsertedByRequest | internal/ingest/meta/service.go:50-129 | a request writes at most the insert of its job, with the file count due to it, and only where there is no row |
| JobSystem.AlwaysInv | cmd/importer/main.go:350-382 | every request, pop, statement and crash keeps the invariant: queue in order and without duplicates, each job a prefix of one script, at most one request and one worker for each job |
| JobSystem.OneWorkerEach | cmd/importer/main.go:350-382 | in every reachable state no two workers are on one job, none is on a queued job, and no job is queued or delivered twice |
| JobSystem.AlwaysOrderly | internal/api/handler/ingest.go:145-157 | in every reachable state the statements of a job are its insert and a prefix of one run, whatever other requests and workers do and wherever they crash |
| JobSystem.RowsAlwaysLawful | internal/api/handler/ingest_remote.go:101-110 | in every reachable state the row of a job obeys the counter laws, and a job that succeeded has just the lines read and the chunks written for it |
| JobSystem.AnyMoment | internal/storage/mysqldb/ingest_job.go:84-188 | so does the table, when it holds what a run of the system has written |
| JobSystem.StatusNeverGoesBack | cmd/importer/main.go:350-382 | over a whole run of the system a status only moves queued, running, terminal, and a terminal status stays |
| S3Keys.ResolveS3EnqueueKeys | internal/ingest/meta/s3keys.go:12-57 | the sorted, duplicate-free, non-blank keys of URIs and keys, and their bucket; each error says what is wrong |
| S3Keys.ResolveWorkerKeys | internal/ingest/pipeline/job_worker.go:162-208 | the same for the worker, with listed keys, a bucket that must agree and at least one key |
| S3Keys.ResolutionsAgree | internal/ingest/meta/s3keys.go:12-57 | what both resolutions promise leaves one result: the same bucket and the same key sequence |
| S3Keys.ResolveBoth | internal/ingest/pipeline/job_worker.go:162-208 | without a prefix, whenever the worker resolves its keys the API has resolved the same ones; the worker does so exactly when the API found a bucket and a key and the bucket of the form, if any, is that bucket |
| S3Keys.ContradictingForm | internal/ingest/pipeline/job_worker.go:158-208 | bucket "x" with "s3://y/k": the API resolves bucket "y" and key "k", the worker refuses |
| S3Keys.WhatIsS3URI | internal/storage/s3/client.go:147-159 | exactly what is an S3 URI: trimmed, the scheme in either case, a bucket without a slash, a slash, and a key, which may hold slashes; neither is empty |
| SortedStrings.SortSorts | internal/ingest/meta/s3keys.go:55 | sorting gives a strictly increasing list of the same strings |
| SortedStrings.SortedIsUnique | internal/ingest/meta/s3keys.go:55 | a strictly increasing list is determined by its members |
| SortedStrings.LessMeans | internal/ingest/meta/s3keys.go:55 | the order: the first code point in which two strings differ decides, and a proper prefix comes first |
| QueryLines.LineQuerySplitter.constructor | internal/query/rewrite/lines.go:31-36 | a limit that is not positive becomes five |
| QueryLines.LineQuerySplitter.Write | internal/query/rewrite/lines.go:38-60 | after any piece: the finished lines of everything written were handled in order, the unfinished one is in the buffer |
| QueryLines.LineQuerySplitter.FlushTail | internal/query/rewrite/lines.go:62-71 | the rest of the buffer is handled as the last line |
| QueryLines.StreamAll | internal/query/rewrite/lines.go:38-71 | for every way of cutting the output into pieces, exactly the first clean lines of the whole that may be streamed are emitted |
| QueryLines.StripEnumerationPrefix | internal/query/rewrite/lines.go:11-21 | the loop ends; the result is trimmed and has no prefix left |
| QueryLines.StrippedIsDone | internal/query/rewrite/lines.go:11-21 | nothing is left to strip or to trim |
| QueryLines.StripTwice | internal/query/rewrite/lines.go:11-21 | stripping is idempotent |
| QueryLines.PrefixIsLongest | internal/query/rewrite/lines.go:9 | what the pattern removes is the longest start of the line that is an enumeration of one of its four kinds, described without the scanner |
| QueryLines.StripsLongest | internal/query/rewrite/lines.go:11-21 | stripping takes the longest enumeration, then the one behind it, until there is none |
| QueryLines.CleanLinesMean | internal/query/rewrite/lines.go:73-88 | the clean lines are those of all lines of which something is left and that may be streamed, in order |
| QueryLines.LooksLikeMeans | internal/query/rewrite/lines.go:90-93 | taken for queries JSON: trimmed, a brace first and the quoted word somewhere |
| QueryLines.LinesMean | internal/query/rewrite/lines.go:73-77 | the lines hold no newline and put together they are the text |
| QueryLines.ShortTestIsRedundant | internal/query/rewrite/lines.go:90-102 | the length test of the streaming filter never decides |
| QueryLines.TryParseLines | internal/query/rewrite/lines.go:73-88 | the first five clean lines of the whole text |
| QueryParsing.ParseQueriesFromModel | internal/query/rewrite/lines.go:104-120 | JSON if it looks like it and holds queries, else lines, else JSON, else an error |
| QueryParsing.TrimIgnored | internal/query/rewrite/lines.go:73-88 | white space around the whole output changes no clean line |
| QueryParsing.FenceIsStripped | internal/query/rewrite/llm.go:87-102 | a fenced block gives what is in it, trimmed, whatever the tag behind the opening fence |
| QueryParsing.InlineFenceIsStripped | internal/query/rewrite/llm.go:87-102 | on one line, what stands between the fences |
| QueryParsing.OpenFenceIsStripped | internal/query/rewrite/llm.go:87-102 | a fence that is never closed gives what is behind its line, if anything is visible there and holds no other fence |
| QueryParsing.FenceIsIgnored | internal/query/rewrite/lines.go:104-120 | a fence around a text that has none changes nothing in how it is parsed |
| QueryParsing.WhichWins | internal/query/rewrite/lines.go:104-120 | queries JSON wins over lines, lines win over any other JSON, and there is an error exactly when there is neither a clean line nor JSON with queries |
| QueryParsing.StreamShowsWhatIsParsed | internal/query/rewrite/lines.go:38-120 | for output without a fence that has a clean line and is not taken for JSON as a whole: the parser returns the first five clean lines, and what was streamed is what it returns if and only if none of these looks like queries JSON |
| Rake.DoubleCount | internal/query/entity/rake.go:49-67 | word scores added over all occurrences give phrase lengths added over all occurrences |
| Rake.PhraseScoresSumToSquares | internal/query/entity/rake.go:49-82 | the scores of all phrases add up to the sum of their squared lengths |
| Rake.ScoreBetween | internal/query/entity/rake.go:61-67 | a word score lies between one and the longest phrase length |
| Rake.ScoreMeans | internal/query/entity/rake.go:49-67 | the score of a word, counted in the phrases: the lengths of the phrases it stands in over how often it does |
| Rake.PhraseScoreMeans | internal/query/entity/rake.go:74-77 | a phrase scores what its words score, however it is cut in two |
| RakeScorer.ScorePhrases | internal/query/entity/rake.go:36-88 | every display is listed once, with the scores of all usable phrases shown under it |
| RakeScorer.CountWords | internal/query/entity/rake.go:49-60 | the two maps hold the frequency and the degree of every word |
| RakeScorer.ScoresConserved | internal/query/entity/rake.go:68-87 | the listed scores add up to the sum of squared phrase lengths exactly when every phrase has a display, and to less otherwise |
| RakeScorer.NonEmptyWordsDisplay | internal/query/entity/tokenize.go:298-322 | a phrase of non-empty words has a display |
| RakeScorer.DisplayIsWritten | internal/query/entity/tokenize.go:298-322 | a phrase of Han words only is written without spaces, any other with one space between words |
| RakeScorer.UsableMeans | internal/query/entity/rake.go:40-45 | the phrases scored are all those with enough words, in order |
| RakeScorer.WordScoreBetween | internal/query/entity/rake.go:61-67 | the bound on word scores, for every word of every phrase |
| RakeScorer.SortRanked | internal/query/entity/rake.go:24-29 | a permutation in order of score, then byte length |
| RakeScorer.RankedMeans | internal/query/entity/rake.go:24-29 | scores never rise, and among equal scores the displays do not get longer in bytes |
| RakeScorer.TopPhrases | internal/query/entity/rake.go:18-34 | the best entries, ten if no number is given; nothing dropped precedes anything kept |
| Stopwords.SplitHanAtStopwords | internal/query/entity/tokenize.go:44-76 | the parts are the spans between longest stop word matches of the trimmed string |
| Stopwords.BestIsLongest | internal/query/entity/tokenize.go:51-63 | at a position the longest listed stop word is taken |
| Stopwords.PartsHaveNoStopword | internal/query/entity/tokenize.go:44-76 | no part contains a listed stop word anywhere, and none is empty |
| Stopwords.PiecesRebuild | internal/query/entity/tokenize.go:44-76 | the parts with the removed stop words between them are the string again |
| Stopwords.PartsAreRest | internal/query/entity/tokenize.go:44-76 | what is not in a removed stop word is in a part, and what is in one is in none |
| Stopwords.ResplitIsIdentity | internal/query/entity/tokenize.go:44-76 | splitting a part again gives that part trimmed, or nothing if it is blank |
| Stopwords.ResplitIsSame | internal/query/entity/tokenize.go:44-76 | splitting a part again gives just that part if and only if it has no outer white space |
| Stopwords.ResplitTrims | internal/query/entity/tokenize.go:44-76 | a string whose part "a " becomes "a" when it is split again |
| Stopwords.OrderDoesNotMatter | internal/query/entity/tokenize.go:15-63 | the order of the stop word list, and repetitions in it, do not matter |
| Deduplication.DistinctMeans | internal/query/recall/merge_many.go:6-27 | removing repetitions keeps no key twice, every key that occurs, and of each key the first item |
| Deduplication.DistinctPicks | internal/query/recall/merge_many.go:6-27 | what is kept are the items at the first positions of all keys, in the order of these positions |
| Deduplication.DistinctIsUnique | internal/query/recall/merge_many.go:6-27 | and that fixes the result |
| Deduplication.EnoughFound | internal/query/recall/merge_many.go:20-23 | once enough items are found, reading on changes none of them |
| RecallMerge.MergeDedupeMilvusFirst | internal/query/recall/merge.go:5-54 | with the early exit: the first topK distinct non-empty ids of Milvus then Elasticsearch; each hit is the first of its id, changed only by the Elasticsearch hits scanned behind it |
| RecallMerge.KeepMilvus | internal/query/recall/merge.go:12-25 | the first loop keeps the first hit of every Milvus id and knows its position |
| RecallMerge.LabelledMeans | internal/query/recall/merge.go:31-38 | scanning changes the label exactly when the id is seen, the source only if it was empty, and no other field |
| RecallMerge.SourceMeans | internal/query/recall/merge.go:34-36 | an empty source becomes the first one that is not empty among the hits met with the same id |
| RecallMerge.ReturnedMeans | internal/query/recall/merge.go:12-46 | a returned hit field by field: the first of its id, of Milvus if Milvus has it; "both" if the id was met again, else its own label, else its origin |
| RecallMerge.StopsMeans | internal/query/recall/merge.go:43-47 | the scan ends at the first new Elasticsearch hit that makes the list long enough |
| RecallMerge.BothMeans | internal/query/recall/merge.go:31-46 | with own labels only: "both" means that Milvus has the hit and the scanned part has it, or that Milvus does not have it and the scanned part has it twice |
| RecallMerge.BothIsBoth | internal/query/recall/merge.go:31-46 | with distinct Elasticsearch ids, "both" is exactly a Milvus hit seen in the scanned part |
| RecallMerge.BothWithoutMilvus | internal/query/recall/merge.go:31-46 | Elasticsearch returning one chunk twice is labelled "both" although Milvus returned nothing |
| RecallMany.MergeHitsDedupeSequential | internal/query/recall/merge_many.go:6-27 | the first maxTotal distinct hits of all lists in order, by trimmed chunk id; no limit if it is not positive |
| RecallMany.AllHitsMean | internal/query/recall/merge_many.go:6-27 | no two hits with the same trimmed id and none with a blank one; of every other hit, it or an earlier one with its trimmed id |
| RecallMany.FlatIsConcat | internal/query/recall/merge_many.go:10-26 | the lists are read one behind the other |
| RecallMany.MergeParallelHitLists | internal/query/recall/parallel.go:115-132 | dropping empty lists changes nothing; at most 250 hits |
| RecallMany.MergedLimitDropsNothing | internal/query/recall/parallel.go:12-16 | five paths of fifty hits: the limit of 250 drops nothing |
| RecallMany.FanOut | internal/query/recall/parallel.go:40-56 | whatever the order in which the goroutines complete, the result is the merge in query order; an error is that of the first to fail |
| RecallMany.DedupeQueriesForParallel | internal/query/recall/parallel.go:135-154 | the first distinct trimmed queries, compared in lower case |
| RecallMany.CleanQueriesMean | internal/query/recall/parallel.go:135-154 | the queries kept differ in lower case; of every query that is not blank, it or an earlier one that is the same in lower case is kept, trimmed |
| RecallMany.NormalizeQueries | internal/query/rewrite/llm.go:117-139 | at most five clean queries, or the trimmed question |
| RecallMany.CleaningIsIdempotent | internal/query/recall/parallel.go:135-154 | cleaning up a second time changes nothing |
| RecallMany.NormalizedIsClean | internal/query/rewrite/llm.go:117-139 | cleaning up the rewriter's answer leaves it as it is if and only if some query or the question is not blank |
| RecallMany.RunParallel | internal/query/recall/parallel.go:21-57 | queries are cleaned up again; none is an error, one is an ordinary retrieval, several are fanned out and merged |
| RecallMany.RunTextRetrieval | internal/query/rewrite/run.go:17-106 | for several sub-queries the result is the first finalTopK distinct hits in query order, whatever the order of completion, and the limit of 250 drops none if no path returns more than asked; a failed rewrite falls back to the question |
| Embedding.SortedAnswer | internal/model/embedding/http_embedder.go:134 | a full answer in any order, sorted by index, gives the vectors in the order of the texts |
| Embedding.ParseOpenAIData | internal/model/embedding/http_embedder.go:121-145 | an empty answer is an error, else the vectors sorted by index |
| Embedding.ParseEmbeddingsArray | internal/model/embedding/http_embedder.go:147-168 | an empty list is an error, else the listed vectors |
| Embedding.EmbedBatch | internal/model/embedding/http_embedder.go:60-119 | one request in either response format: the vectors of its texts in order, or an error; an answer in the other format counts as empty |
| Embedding.Embed | internal/model/embedding/http_embedder.go:29-58 | for all batch sizes and all orders of answers, the vectors of the texts in order; success exactly when every batch is answered and every dimension fits |
| MilvusWrites.ChunkColumns | internal/storage/milvus/repository.go:441-496 | the columns hold the rows in order, every row with its own vector |
| MilvusWrites.Repository.RunEnsureCollection | internal/storage/milvus/repository.go:114-126 | a writer makes the collection ready only if the flag is not set; the flag then says whether that worked |
| MilvusWrites.Repository.InvalidateWriteCache | internal/storage/milvus/repository.go:128-132 | clears the flag |
| MilvusWrites.Repository.ValidateChunkEntities | internal/storage/milvus/repository.go:368-400 | every row can be stored |
| MilvusWrites.Repository.WriteBatch | internal/storage/milvus/repository.go:330-361 | the writes are those the replies of the server ask for: one, or two if the collection was missing and could be made again; the rows are accepted once or not at all, and a collection that was missing holds nothing from before |
| MilvusWrites.Repository.WriteChunks | internal/storage/milvus/repository.go:297-366 | every write is in the log with the reply of the server; as many rows are accepted, in order and each once, as the replies decide, all of them exactly on success; then all are in the collection if and only if no reply reports it missing behind one that accepted rows; each write is a whole batch, at most two of each |
| MilvusWrites.DroppedMeans | internal/storage/milvus/repository.go:134-151 | what was dropped, and dropped late, in terms of the replies |
| MilvusWrites.AllAccepting | internal/storage/milvus/repository.go:319-365 | a server that accepts every write gets every row |
| MilvusWrites.AllThere | internal/storage/milvus/repository.go:134-151 | for any writes: the accepted rows are all in the collection if and only if no missing collection follows an accepted write |
| MilvusWrites.DroppedBetween | internal/storage/milvus/repository.go:297-366 | two rows in batches of one, the collection dropped in between: written with success, and only the second row is held |
| BatchRuns.MiscountedBatch | internal/ingest/pipeline/runner.go:290-356 | a batch counts other than it is accepted if and only if it is embedded, its first rows are accepted, and a later insert or the entity index fails |
| BatchRuns.ConflictNeverCounts | internal/ingest/pipeline/runner.go:337-356 | with an entity index, a batch whose document ids conflict or are missing never counts, however much of it is accepted |
| BatchRuns.IndexNotAsked | internal/ingest/pipeline/runner.go:337-356 | a batch without entity keys gets past the entity index, whatever its bulk request would do |
| BatchRuns.FailingIsNext | internal/ingest/pipeline/runner.go:232-245 | the slice that fails is the one behind the chunks counted, where running these leaves the calls |
| BatchRuns.CountedIsAccepted | internal/ingest/pipeline/runner.go:232-245 | over all slices the chunks counted are the chunks accepted if and only if no slice fails or the failing one had none accepted |
| BatchRuns.MiscountedRun | internal/ingest/pipeline/runner.go:232-245 | they differ if and only if the slice behind the counted chunks, run where running these leaves the calls, is embedded, its first rows are accepted, and then a later insert of it or its entity index fails |
| BatchRuns.SlicesConcat | internal/ingest/pipeline/runner.go:145-168 | running on behind whole slices is running them, and then the rest if they succeed |
| BatchRuns.ReliableRun | internal/ingest/pipeline/runner.go:232-245 | if every service does its part, everything is counted, accepted and held |
| Runner.Runner.WriteBatch | internal/ingest/pipeline/runner.go:290-356 | a prefix of the batch is accepted, in order, every chunk once and with its own vector, as long as service and server decide; it counts as a whole if all of it was accepted and indexed, else not at all |
| Runner.Runner.AddChunk | internal/ingest/pipeline/runner.go:145-157 | the chunks written so far are whole slices, run as slices are; with the pending ones they are all the chunks taken |
| Runner.Runner.AddRecord | internal/ingest/pipeline/runner.go:145-157 | the same for all chunks of one record, stamped with the time of writing |
| Runner.Runner.RunNDJSON | internal/ingest/pipeline/runner.go:106-171 | reading and writing in turn comes to running all chunks slice by slice, without the last partial slice when reading stops early: the count, the accepted prefix and the state of the connection; on success all are in the collection if and only if no reply reports it missing behind one that accepted rows, and the counts are those of the preview |
| Runner.Runner.WriteSlices | internal/ingest/pipeline/runner.go:232-245 | the loop over slices comes to the run of the slices: count, accepted prefix, outcome |
| Runner.Runner.RunPlain | internal/ingest/pipeline/runner.go:174-253 | an unusable request changes nothing; otherwise the run of the chunks of its record, in slices, with the same condition for their being in the collection |
| Runner.HeldButNotCounted | internal/ingest/pipeline/runner.go:337-356 | one chunk, accepted and held, and not counted, because the bulk request fails or because the chunk names no document |
| Runner.NegativePage | internal/ingest/pipeline/runner.go:178-227 | a request for page -1 becomes a record of page 0 with the id of page -1 |
| PlainTexts.PlainRecordIsNormal | internal/ingest/pipeline/runner.go:178-227 | the record of a plain text is a normal form: the request it could have come from gives it back, if and only if its id was generated for a page that is not negative or cleaning the given id left something |
| PlainTexts.CleanRequestIsKept | internal/ingest/pipeline/runner.go:178-227 | a clean request is kept field by field |
| PlainTexts.SanitizedMeans | internal/ingest/pipeline/runner.go:491-501 | a cleaned id holds id characters only, is no longer than the given one, and is the given one exactly if that was clean |
| PlainTexts.SanitizeTwice | internal/ingest/pipeline/runner.go:491-501 | cleaning is idempotent |
| PlainTexts.SanitizedInPlace | internal/ingest/pipeline/runner.go:491-501 | blanks and slashes become underscores, anything else that is no id character is dropped |
| PlainTexts.WhenRefused | internal/ingest/pipeline/runner.go:178-227 | a request is refused exactly if its text is blank, it names neither chunk nor document, or its id is too long |
| PlainTexts.MissingFields | internal/ingest/pipeline/runner.go:178-227 | fields that are missing or negative get their defaults, a missing id the hash of document and page |
| PlainTexts.PlainIdsDiffer | internal/ingest/pipeline/runner.go:183-189 | generated ids of plain texts are equal exactly for equal document id and page |
| InputFiles.PreviewNDJSON | internal/ingest/pipeline/runner.go:76-103 | succeeds exactly when every line can be read and split, with the numbers of lines and chunks |
| InputFiles.ReadableMeans | internal/ingest/pipeline/runner.go:128-144 | lines can be read if and only if none is malformed and every record among them can be split |
| InputFiles.LinesMean | internal/ingest/pipeline/runner.go:128-140 | the input lines counted are those that are not blank |
| InputFiles.ChunksOfLine | internal/ingest/pipeline/runner.go:128-157 | the chunks of a line stand behind those of the lines before it |
| InputFiles.WhatIsSubmitted | internal/ingest/pipeline/runner.go:106-171 | a file read to its end is run as a whole; of any other the longest part that fills whole slices, of the lines in front of the first that cannot be read or split |
| WholePath.TrimmedIdsDiffer | internal/ingest/chunk/ndjson.go:131-148 | the ids of the chunks of one record stay different when the store trims them |
| WholePath.StoredAreChunks | internal/ingest/chunk/ndjson.go:102-161 | what ought to be held for a record are all its chunks, in order, at increasing and earliest offsets, each with the vector of its own text, an id of its own, and every other field from the record or the run |
| WholePath.ImportPlain | internal/ingest/pipeline/runner.go:174-253 | on success, if no reply says that the collection was gone, it holds what it held and behind it just the chunks of the text |
| WholePath.RowOfFile | internal/ingest/pipeline/runner.go:106-171 | every row held for a file is a chunk of one of its lines, at its offset and with its own vector, with the fields of that line, the source type of the file if the line has none, and the time at which it was taken |
| EntityDocs.Aggregate | internal/ingest/pipeline/runner.go:389-459 | succeeds exactly when every row with keys names its document and the rows of a chunk agree on it |
| EntityDocs.SortedKeys | internal/ingest/pipeline/runner.go:462-466 | the keys of a set, strictly sorted, whatever order they were collected in |
| EntityDocs.EntityChunkDocsFromBatch | internal/ingest/pipeline/runner.go:374-489 | one document for each chunk id with a usable key: strictly sorted union of the normalized keys, smallest offset and page, latest update, first row's labels |
| EntityDocs.FeedsMeans | internal/ingest/pipeline/runner.go:392-402 | which rows belong to a chunk |
| EntityDocs.DocMeans | internal/ingest/pipeline/runner.go:374-489 | keys, document id, offset, page and update time of a document in terms of the rows of its chunk |
| EntityDocs.DocOfFirst | internal/ingest/pipeline/runner.go:404-430 | source type, language, job and task of a document are those of the first row of its chunk |
| EntityDocs.ExtraMeans | internal/ingest/pipeline/runner.go:412-448 | of each name in the extra information the value in the last row of the chunk that has it |
| EntityDocs.AcceptableInAnyOrder | internal/ingest/pipeline/runner.go:395-435 | a missing or conflicting document id is an error in every order of the batch |
| EntityDocs.SameDocInAnyOrder | internal/ingest/pipeline/runner.go:374-489 | keys, document id, offset, page and update time of a document are the same in every order of the batch |
| EntityDocs.SameChunksInAnyOrder | internal/ingest/pipeline/runner.go:374-489 | the same chunk ids get a document in every order |
| EntityDocs.EarliestInAnyOrder | internal/ingest/pipeline/runner.go:439-441 | folding a list of times gives one result in every order if and only if zero is not the smallest of different times |
| EntityDocs.TimesReordered | internal/ingest/pipeline/runner.go:439-441 | reordered batches have reordered creation times |
| EntityDocs.TimesLift | internal/ingest/pipeline/runner.go:439-441 | every order of the creation times is that of some order of the batch |
| EntityDocs.CreatedInAnyOrder | internal/ingest/pipeline/runner.go:374-489 | the document of a chunk has the same creation time in every order of the batch if and only if zero is not the smallest of different times |
| EntityDocs.CreatedDiffers | internal/ingest/pipeline/runner.go:374-489 | one batch in two orders, whose documents are created at 0 and at 5 |
| EntityDocs.CreatedIsEarliest | internal/ingest/pipeline/runner.go:439-441 | with positive times it is the earliest of the rows |

## Left out

- A length function other than code points (`RecursiveChunkOptions.Len`), and input that is not valid UTF-8.
- 64-bit overflow of counters and offsets; float64 rounding, NaN and infinity in scores, for which reals are used.
- The ticker of the lock's refresher: refreshes come at arbitrary times, and being on time is a hypothesis.
- `rawTokens`, `candidatePhrasesFromSentence`, `splitHanRakeUnits`, `mergeAdjacentSingletons` and the search-query heuristics: phrases are the scorer's input.
- The order among entries that tie in `sort.Slice`: results are stated up to ties.
- S3 jobs that give keys or URIs together with a prefix: their file count is taken before the listing, so counting every file is not claimed for them.
- JobWorker.ProcessS3: the worker trims keys both when it collects and when it deduplicates them; one trim is modelled.
- Status hashes in Redis and the contents of task documents in Elasticsearch; only whether their updates succeed matters here.
- RecallMany.FanOut: after the first error the other goroutines are cancelled; here each has some result of its own, and the first failure decides.
- The batched embedding of several sub-queries: it is part of the retrieval of each query here.
- MilvusWrites.Repository.WriteChunks: insert and upsert are one operation that appends rows; replacing rows of the same id is the server's. A collection that others drop and create again between two writes, so that no write fails, is not modelled.
- The checks of the vector store on a row are one predicate; the creation of collections and indexes, flush and load are calls that succeed or fail.
- Runner.Runner.RunPlain: how the record is split is a parameter here; `WholePath` puts in the splitter of `Records`.
- `ParseTextChunkLine`: a line is blank, malformed or a record.
- HTTP handlers, configuration, logging, the Python services and the front end.
