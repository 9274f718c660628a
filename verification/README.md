# Verification of the ingest, retrieval and rate-limit core

A Dafny model of the parts of this repository that hold its hardest promises, with proofs. Check it with
`dafny verify dfyconfig.toml`.

The model is imperative where the program is: classes with the program's fields and methods that change them, loops
with invariants, each proved to do what a specification function says; the promises are then lemmas about those
functions. Floats are reals, a clock reading is a parameter, and a crash or an exception is a planned fault that
strikes between two atomic steps.

| file | models |
|---|---|
| `Chunker.dfy`, `ChunkText.dfy` | the separator split and the greedy merge with carried tails and hard splits |
| `IngestState.dfy` | the job state machine and `transition_job` |
| `Pipeline.dfy`, `IngestPipeline.dfy`, `Outlook.dfy` | the four ingest stages over job row, artifact files with stamps, chunk rows and vector store, with faults; the object form; which jobs can still become READY |
| `TaskChain.dfy` | the four-task chain with its retries |
| `RateLimit.dfy` | in-memory bucket, expiring Lua bucket, fail-over wrapper |
| `Wrappers.dfy`, `Bounds.dfy` | option and result types, minimum and maximum |
| `Sorting.dfy`, `Bm25.dfy` | stable sorting, deduplication, string order; the inverted index, its clamped search and the full scan it refines |
| `Fusion.dfy`, `Parent.dfy` | rank fusion, hybrid ranking, reranking; the widening of hits |
| `SearchCache.dfy`, `SearchLaws.dfy`, `SearchService.dfy` | the per-KB caches against the registry and the vector store; what a search, an upload and a deletion do in terms of rows, points and scores; the object form |
| `Crawl.dfy`, `Crawler.dfy` | due subscriptions, fetches, and what gets queued; the object form |

Where the code does less than its documentation says, the model follows the code, and a lemma says exactly when the
promise holds:

- `docs/design/ingest-state-machine.md` section 2 rule 3 has a failed job go on from the stage that failed.
  `failed_at` holds the last completed stage and `retry_from` steps one further back, so a retried embed or index
  task finds the job too early and can never complete (`FailedEmbedOrIndexIsFinal`, `NewChainLost`); a chunk
  task does (`ChunkRetryCompletes`), and a whole `run()` recovers (`RecoversIff`).
- Rule 4 of the same section promises that re-ingesting leaves no old data. Points are never removed when chunks are
  made anew, so reconciliation then fails for good (`OrphanBlocksReady`). Every new job can be driven there
  (`NewJobDoomed`, `NewJobOrphans`); `CanBecomeReadyIff` says which jobs can still be finished.
- A job killed right after INDEXED is recorded is not finished by running it again, because `index_stage` returns
  early: the run reports nothing and the job stays where it is (`RecoversIff`, `RunFromIndexed`,
  `NewJobStuckAtIndexed`).
- `set_chunks` marks the document ready before anything is embedded; `StatusAgreesIff` says which kills leave it so.
- `chunk_text` promises that adjacent chunks overlap. Next to a piece longer than `chunk_size` they do not
  (`NeighboursOverlapIff`, `OverlapFails`), and with a negative overlap, which it accepts, characters are lost there
  (`NegativeOverlapLoses`, `NegativeOverlapExample`).
- Both caches survive an ingest whose store raises after the rows were committed (`IngestKeepsIff`,
  `StaleAfterFailedUpload`), the chunk stage of the pipeline (`PipelineKeepsIff`) and the deletion of a document by an
  admin (`AdminDeleteKeepsIff`), after which a search can still return the deleted chunks
  (`AdminDeletedReturnedIff`).
- A KB whose chunks hold no token at all cannot be searched: building its index divides by zero (`NewRetriever`,
  `SearchRaisesIff`).
- An upload that failed is found by its hash, so uploading the same content again never indexes it
  (`SecondUploadFindsFirst`); a crawl that raises after creating the document loses that content in the same way
  (`FetchLoses`).

Three things to read beside these. The key of a Redis bucket without refill expires after a day, which hands its
capacity out again (`ExpiryUnobservableIff`); that is a property of the bucket's interface, since every call the
program makes passes a positive rate. `delete_document` of the search service removes the rows of a document whatever its
KB, and `DeleteKeepsIff` says what that does to the caches of other KBs; its one caller checks the KB first, so the
program never gets there (`RequestKeepsCoherent`). And `docs/design/url-crawler.md` has failed fetches back off by
doubling; the code has no such back-off, and the model follows it: every fetch that does not raise waits the whole
interval.

## Model

| member | source | states |
|---|---|---|
| `Chunker.Split` | core/ingest/chunker.py:29-41 | the loop over `text.split(sep)` yields the pieces of a simpler reference: cut once at the leftmost occurrence of the first separator that occurs, and split both sides again; with an empty separator in the list it fails exactly if the separators before that one leave a piece |
| `Chunker.PartsOfText` | core/ingest/chunker.py:33-41 | splitting the parts of `text.split(sep)` one by one, each at its running offset, gives the reference split; every part is shorter than a text in which the separator occurs, so the recursion terminates |
| `Chunker.FirstSepIsFirst` | core/ingest/chunker.py:33 | the separator a text is split at is the first in the order of the list that occurs in it: none before it does |
| `Chunker.SplitJoins` | core/ingest/chunker.py:38-40 | `text.split(sep)` takes the text apart at every occurrence and nowhere else: joining the parts with the separator gives the text back, and no part has an occurrence left |
| `Chunker.EmptySeparatorFails` | core/ingest/chunker.py:33-38 | with an empty separator in the list, splitting fails if a character lies outside the separators before it; if it does not fail there are no pieces |
| `Chunker.SplitDecomposes` | core/ingest/chunker.py:29-41 | the pieces decompose the text exactly: non-empty, free of separators, equal to the source slice at their offsets, in order and disjoint, and every gap before, between and after them is a run of whole separators |
| `Chunker.WeaveConcat` | core/ingest/chunker.py:37-40 | decompositions of two adjacent stretches of text join to a decomposition of both |
| `ChunkText.Flush` | core/ingest/chunker.py:65-76 | settles the buffer as the chunk it stands for and leaves exactly its last `keep` characters, with their source offsets, as the next buffer |
| `ChunkText.SplitLong` | core/ingest/chunker.py:82-85 | the hard-split loop appends one segment every `chunk_size - overlap` characters of a long piece |
| `ChunkText.MergePieces` | core/ingest/chunker.py:61-94 | the buffer loop with `flush` computes the reference merge, in which a chunk remembers how many leading characters it repeats |
| `ChunkText.ChunkText` | core/ingest/chunker.py:44-96 | for any size, overlap and separators: fails exactly if `chunk_size <= overlap` or the split fails; otherwise returns the reference chunks, numbered from 0 |
| `ChunkText.OneChunkIfItFits` | core/ingest/chunker.py:87-94 | if all pieces of a text together fit in `chunk_size`, there is exactly one chunk and it is all of them |
| `ChunkText.ChunksAreFull` | core/ingest/chunker.py:87-90 | greedy merging over every text: where an ordinary chunk follows another, it opens, after the repeated head, with the very next piece, and the chunk before it plus that piece exceeds `chunk_size` |
| `ChunkText.HardSplitAt` | core/ingest/chunker.py:82-85 | segment k of a long piece starts k steps on and has `chunk_size` characters, or all that are left |
| `ChunkText.HardSplitCount` | core/ingest/chunker.py:82-85 | there are as many segments as steps begin in the piece |
| `ChunkText.HardSplitKeeps` | core/ingest/chunker.py:82-85 | the segments of a long piece stay within `chunk_size`, each repeats the last characters of the one before it, and without those they concatenate to the piece |
| `ChunkText.MergeKeeps` | core/ingest/chunker.py:78-94 | after any number of pieces: the chunks without their repeated heads concatenate to the pieces, every chunk keeps its bounds and offsets, and every chunk follows the one before it as promised |
| `ChunkText.ChunksConserve` | core/ingest/chunker.py:44-96 | conservation and bounds together: removing the repeated heads and concatenating gives all split pieces; every chunk is at most `chunk_size + overlap` long (`chunk_size` if hard-split), ends exactly where its last character ends, spans at least its length, and after a flush begins with the last `min(overlap, length)` characters of the chunk before it |
| `ChunkText.NothingLost` | core/ingest/chunker.py:44-96 | the characters of the text that are in no separator are in the chunks exactly once and in order, once the repeated heads are dropped |
| `ChunkText.OffsetsMonotone` | core/ingest/chunker.py:69-94 | starts and ends of the chunks never decrease |
| `ChunkText.NeighboursOverlap` | core/ingest/chunker.py:53-54 | if no piece exceeds the limit, every chunk begins with the last `min(overlap, length)` characters of the chunk before it |
| `ChunkText.GapsAtLongPieces` | core/ingest/chunker.py:50-55 | with a positive overlap, the number of neighbouring chunks that do not overlap in the source equals the number of neighbouring pieces of which one is longer than `chunk_size` |
| `ChunkText.NeighboursOverlapIff` | core/ingest/chunker.py:50-55 | the promise that adjacent chunks overlap, exactly: all neighbours overlap if and only if no piece longer than `chunk_size` has a neighbour |
| `ChunkText.OverlapFails` | core/ingest/chunker.py:79-86 | an input that breaks it: "aaaa b" split at spaces with size 3 and overlap 1 |
| `ChunkText.NegativeOverlapLoses` | core/ingest/chunker.py:82-85 | with a negative overlap the chunks concatenate to exactly the pieces if and only if no piece is longer than `chunk_size`; otherwise they hold fewer characters |
| `ChunkText.NegativeOverlapExample` | core/ingest/chunker.py:82-85 | an input that loses characters: "abcd" with size 1 and overlap -1 gives "a" and "c" |
| `IngestState.JobStaysOk` | core/storage/registry.py:784-814 | over every sequence of transition requests: a FAILED job knows a stage UPLOADED..INDEXED it failed at, a job that is not FAILED carries no error, and `attempt` is the number of entries into FAILED |
| `IngestState.ResumeIsLegal` | core/ingest/state.py:33-59 | over every sequence of requests, resuming a FAILED job never raises; it lands at `failed_at` itself if that is UPLOADED or PARSED and exactly one stage before it otherwise, keeping the count and clearing the error |
| `IngestState.FailureIsRecorded` | core/storage/registry.py:794-802 | a request to fail is refused exactly at READY; elsewhere it records its error, the stage it struck and one more attempt, and a job that is FAILED already keeps its first error |
| `IngestState.FailedAtIsLast` | core/storage/registry.py:799-801 | over every sequence of requests: until the next failure `failed_at` is the stage the job was at when it last failed |
| `IngestState.TransitionTable` | core/ingest/state.py:17-31 | the table in terms of the order of the stages: to the next one, to FAILED from all but READY, and from FAILED to all but READY |
| `IngestState.OrderIsTheRun` | core/ingest/state.py:62-78 | a stage counts as reached from its place in the order on, and never at FAILED |
| `IngestState.ReadyIsFinal` | core/ingest/state.py:17-31 | READY is absorbing: no later request changes anything about the job |
| `IngestState.NoStageIsSkipped` | core/ingest/state.py:17-31 | a job moves ahead one stage at a time, and failing and resuming never moves it ahead |
| `IngestPipelineObject.IngestPipeline.constructor` | core/ingest/pipeline.py:31-43 | a new job starts from the initial state, whatever points the store already holds |
| `IngestPipelineObject.IngestPipeline.CommitTransition` | core/storage/registry.py:784-814 | updates the job row and the document row as the transition says, or refuses and changes nothing |
| `IngestPipelineObject.IngestPipeline.ResumeIfFailed` | core/ingest/pipeline.py:58-64 | moves a FAILED job back to the stage it is retried from, which is the one `ResumeIsLegal` says |
| `IngestPipelineObject.IngestPipeline.ParseStage` | core/ingest/pipeline.py:99-116 | writes text and stamp and moves to PARSED step by step, ending where the step function ends for the same fault |
| `IngestPipelineObject.IngestPipeline.SetChunks` | core/storage/registry.py:382-409 | replaces the rows of the document under fresh ids in one commit |
| `IngestPipelineObject.IngestPipeline.ChunkStage` | core/ingest/pipeline.py:118-137 | chunks, replaces the rows, writes `chunks.json` and its stamp and moves to CHUNKED, under every fault |
| `IngestPipelineObject.IngestPipeline.EmbedStage` | core/ingest/pipeline.py:139-157 | embeds the rows of the listed ids, writes `vecs.json` and its stamp and moves to EMBEDDED, under every fault |
| `IngestPipelineObject.IngestPipeline.Upsert` | core/storage/vector.py:78-84 | writes the points one by one and may be struck between any two |
| `IngestPipelineObject.IngestPipeline.IndexStage` | core/ingest/pipeline.py:159-183 | upserts, moves to INDEXED, reconciles the count and moves to READY, under every fault |
| `IngestPipelineObject.IngestPipeline.MarkFailed` | core/ingest/pipeline.py:66-68 | records the failure; from READY nothing changes |
| `IngestPipelineObject.IngestPipeline.Run` | core/ingest/pipeline.py:185-198 | the four stages in order, ending with the first failure, which is recorded |
| `Pipeline.HistoryKeeps` | core/ingest/pipeline.py:99-183 | the invariant (artifacts, stamps, rows and points agree up to the stage the job stands at) holds over every history of stages, in any order, with a crash or exception before any step |
| `Pipeline.ReadyIsExact` | core/ingest/pipeline.py:159-183 | READY is exact over all histories: the points of the document are exactly the ids in `chunks.json`, which are the registry's rows, and each holds the embedding of its chunk of the parsed source |
| `Pipeline.Reconciles` | core/ingest/pipeline.py:178-182 | after the upsert, equal counts mean equal sets: the count matches if and only if the document had no points beside the listed ones |
| `Pipeline.ReadyIsFrozen` | core/ingest/pipeline.py:99-183 | once READY, no stage under any fault changes the job, the files, the rows or the points |
| `Pipeline.StageEffect` | core/ingest/pipeline.py:99-183 | what every stage leaves behind under every fault: the points of the document only grow, the rows are the old ones or all new, no attempt is counted, a completed stage has reached its target, and only the chunk stage may set the two rows apart |
| `Pipeline.DoneReaches` | core/ingest/pipeline.py:99-183 | a stage that ends without raising leaves the job at its target stage or beyond |
| `Pipeline.StatusAgreesIff` | core/ingest/pipeline.py:118-137 | exactly when a stage sets the document row and the job apart: if and only if a chunk stage that makes the chunks anew is killed after `set_chunks` has committed and before the transition has; the document then reads READY with the job at UPLOADED or PARSED |
| `Pipeline.StatusAgrees` | core/storage/registry.py:806-814 | a document row that shows the job stage still shows it after every stage that is not killed |
| `Pipeline.PrematureReady` | core/storage/registry.py:404-408 | such a kill of a new job: the row is at READY, the job at PARSED, and nothing is indexed |
| `Pipeline.StageCompletesIff` | core/ingest/pipeline.py:99-183 | exactly when a fault-free stage completes, from every reachable state: it depends on the stage the job stands at, on the text giving a chunk, and for `index_stage` on the leftover points |
| `Pipeline.RecoversIff` | core/ingest/pipeline.py:185-198 | crash recovery, exactly: from every reachable state a fault-free `run()` ends READY if and only if the job was READY, or it is not at INDEXED, the text gives a chunk, and the store holds no points of the document other than those of the chunks the run keeps; it returns without raising exactly then or from INDEXED |
| `Pipeline.RunFromIndexed` | core/ingest/pipeline.py:163-164 | from INDEXED a run changes nothing and returns without raising, with the job still not READY |
| `Pipeline.RecoversBeforeUpsert` | core/ingest/pipeline.py:90-198 | from any state left by crashing or failing at any step before the first point is written, a fault-free `run()` raises nothing, ends READY and is exact |
| `Pipeline.OrphanBlocksReady` | core/ingest/pipeline.py:131-134 | once the store holds a point whose chunk row is gone, no history brings the job to READY |
| `Outlook.CanBecomeReadyIff` | core/ingest/pipeline.py:58-198 | from every reachable state, some sequence of stages and faults leads to READY if and only if the text gives a chunk and all points of the document are points of its present chunks (from CHUNKED on) or there are none (before) |
| `Outlook.NewJobStuckAtIndexed` | core/ingest/pipeline.py:176-182 | every new job whose text gives a chunk gets there by a kill right after INDEXED is recorded |
| `Outlook.NewJobBreaks` | core/ingest/pipeline.py:159-183 | from every new job whose text gives a chunk, an index stage that raises after its first write leaves the job FAILED at EMBEDDED with a point of its own |
| `Outlook.EmbedFailureDooms` | core/ingest/state.py:33-41 | a failure of the embed task after that makes the job unfinishable, whatever happens later |
| `Outlook.NewJobDoomed` | core/ingest/state.py:33-41 | so an index failure and an embed failure in a row make any new job whose text gives a chunk unfinishable |
| `Outlook.TwoFailuresDoom` | core/ingest/state.py:33-41 | the same from any job at EMBEDDED whose document has points |
| `Outlook.NewJobOrphans` | core/ingest/pipeline.py:131-134 | and making the chunks anew after that leaves a point in the store whose chunk row is gone |
| `Outlook.NewChainLost` | core/ingest/tasks.py:75-82 | the task chain of any new job whose text gives a chunk never completes once its index task raises after the first write, whatever the retries meet |
| `Outlook.DoomedForever` | core/ingest/pipeline.py:118-137 | a point that belongs to no chunk the job will keep stays so over every history |
| `TaskChain.EnqueueIngest` | core/ingest/tasks.py:97-161 | the four retried tasks over the pipeline object end as the chain function says, with the same number of executions; a task that cannot build its pipeline ends the chain with nothing recorded |
| `TaskChain.ChunkRetryCompletes` | core/ingest/tasks.py:75-161 | a chain retried without faults from FAILED at PARSED completes without a further retry, READY and exact, if the text gives a chunk and the document has no points |
| `TaskChain.ChunkFailsOnce` | core/ingest/tasks.py:75-161 | so a chunk task that raises once costs one execution and nothing else |
| `TaskChain.KilledAtOnce` | core/ingest/tasks.py:97-146 | a worker that dies in a task ends the chain there, with nothing recorded and nothing retried |
| `TaskChain.RefusedAtReady` | core/ingest/tasks.py:75-82 | a task that raises at READY cannot record it: the chain ends after that execution, with the job as it was |
| `TaskChain.StageCounts` | core/ingest/tasks.py:75-82 | past the resume step a stage leaves the job in a stage other than FAILED and does not count an attempt |
| `TaskChain.ChainBound` | core/ingest/tasks.py:75-161 | from `attempt = a < 5` and m tasks to go, whatever strikes after the resume step: at most m + 4 - a executions, and it is the job's limit that stops the chain, never the retry limit of a task |
| `TaskChain.FullChainBound` | core/ingest/tasks.py:149-161 | the whole chain performs at most 8 - a executions |
| `TaskChain.BoundAttained` | core/ingest/tasks.py:75-161 | that bound is attained: a chain whose first 4 - a parses fail completes with execution 8 - a |
| `TaskChain.FaultFreeChain` | core/ingest/tasks.py:97-161 | a chain that meets no fault completes if and only if each task can complete where the one before it leaves the job, and then without a retry |
| `TaskChain.FaultFreeChainIff` | core/ingest/pipeline.py:185-198 | without faults the task chain completes exactly when `run()` does |
| `TaskChain.RetryBound` | core/ingest/tasks.py:97-146 | under any faults at all each task is executed at most six times |
| `TaskChain.ResumeFaultsUncounted` | core/ingest/tasks.py:75-82 | failures at the resume step of a FAILED job are not counted: then only the retry limit of the task ends the chain |
| `TaskChain.TooEarly` | core/ingest/state.py:33-41 | a stage run before the job stands where the stage begins never completes and never moves the job ahead |
| `TaskChain.RetryNeverCompletes` | core/ingest/tasks.py:75-82 | a chain whose next task finds the job too early never completes, whatever the faults |
| `TaskChain.FailedEmbedOrIndexIsFinal` | core/ingest/tasks.py:123-146 | so an embed task that failed at CHUNKED and an index task that failed at EMBEDDED are retried in vain |
| `RateLimit.InMemoryTokenBucket.Allow` | core/security/ratelimit.py:74-89 | answers and updates the one bucket of its key, capacity and rate, and leaves all others |
| `RateLimit.RedisTokenBucket.Allow` | core/security/ratelimit.py:29-51 | the script on a key that may have expired: same arithmetic, and the expiry is set again |
| `RateLimit.FailOpenLimiter.Allow` | core/security/ratelimit.py:144-163 | answers from the Redis bucket, or from the in-memory fallback (or admits, without one) when it fails, and logs the edges; a failure may strike before or after the inner bucket took effect; `GuardDecides` says what it answers |
| `RateLimit.UpperBound` | core/security/ratelimit.py:74-89 | for any timestamps, including steps back: admitted calls are at most capacity plus refill over the forward movement of the clock |
| `RateLimit.StaysFilled` | core/security/ratelimit.py:83-89 | the tokens stay within 0 and the capacity, whatever the clock does |
| `RateLimit.LevelIsLeastRoom` | core/security/ratelimit.py:83-85 | on a monotone clock the token level is the least, over all earlier calls, of capacity plus refill since then minus what was admitted since then |
| `RateLimit.AdmitsExactly` | core/security/ratelimit.py:85-89 | on a monotone clock a call is admitted if and only if that keeps every earlier quota: the bucket admits as much as the bound allows |
| `RateLimit.NeverDeniesEarly` | core/security/ratelimit.py:83-87 | for any timestamps, including steps back: a call that every earlier quota has room for is admitted |
| `RateLimit.RefillPerSecond` | core/security/ratelimit.py:85 | a bucket gains its refill rate in every second, in proportion to the time |
| `RateLimit.BucketsIndependent` | core/security/ratelimit.py:71-79 | in a run over many buckets each one behaves as it does alone on its own calls |
| `RateLimit.AdmittedIsBounded` | core/security/ratelimit.py:74-89 | the upper bound and the token range for each bucket of a run over many |
| `RateLimit.RefilledByExpiry` | core/security/ratelimit.py:106-109 | a key that may expire belongs to a bucket that has filled up |
| `RateLimit.KeyLifetime` | core/security/ratelimit.py:107-109 | a key that refills lives for twice the time to fill an empty bucket plus a minute, to the second below; any other for a day |
| `RateLimit.ExpiryUnobservable` | core/security/ratelimit.py:29-51 | for a bucket that refills, in every run over many buckets, the expiring bucket makes the decision of the never-expiring one on every call, and holds the same tokens |
| `RateLimit.ExpiryObservable` | core/security/ratelimit.py:109 | counterexample without refill: a used-up bucket whose key disappears after a day admits again |
| `RateLimit.ExpiryUnobservableIff` | core/security/ratelimit.py:106-109 | expiry is unobservable for a bucket in all runs if and only if it refills or its capacity is 0 |
| `RateLimit.GuardSplits` | core/security/ratelimit.py:144-158 | the two limiters behind the wrapper are driven by exactly the calls that reach them, and the wrapper admits exactly what the inner one admits of the calls it answers together with what the fallback admits of the failed calls, or, without one, all of these |
| `RateLimit.GuardDecides` | core/security/ratelimit.py:144-163 | the decision of every call: the inner limiter's over the calls that reached it if it answers; otherwise the fallback's over the calls that reached that; otherwise, without a fallback, yes |
| `RateLimit.FailOverBound` | core/security/ratelimit.py:131-163 | with a fallback, whatever fails and when, admitted calls are at most the sum of the bounds of the inner limiter and the fallback over the calls that reached each |
| `RateLimit.FailOpenBound` | core/security/ratelimit.py:147-158 | without a fallback they are at most the bound of the inner limiter plus the number of failed calls, and at least the number of failed calls |
| `RateLimit.LogAlternates` | core/security/ratelimit.py:153-162 | the log alternates strictly, beginning with `rate_limiter_fail_open`, and its last entry tells whether the wrapper is failing |
| `Bm25.NewRetriever` | core/retrieval/bm25.py:48-73 | builds document lengths, df, posting lists and norms that describe the corpus exactly, and fails, by a division by zero, exactly for a corpus of documents none of which has a token |
| `Bm25.IndexDocument` | core/retrieval/bm25.py:61-70 | adding a document to the index of a corpus gives the index of the longer corpus |
| `Bm25.PostingIsExact` | core/retrieval/bm25.py:63-70 | a posting list has strictly increasing document numbers, the term count at each, an entry for every document with the term, and df entries |
| `Bm25.TfCounts` | core/retrieval/bm25.py:60-62 | the term frequency is the multiplicity of the term among the tokens |
| `Bm25.DfCountsDocs` | core/retrieval/bm25.py:63-64 | the document frequency is the number of documents that hold the term |
| `Bm25.TotalLenAdds` | core/retrieval/bm25.py:71-72 | the total length adds up over the documents |
| `Bm25.IdfLaw` | core/retrieval/bm25.py:75-79 | the idf of a known term is the logarithm of x, where (x - 1)(df + 0.5) = n - df + 0.5 |
| `Bm25.RarerTermsWeighMore` | core/retrieval/bm25.py:75-79 | of two terms of a corpus the one in fewer documents has the larger idf, for every increasing logarithm |
| `Bm25.WeightGrows` | core/retrieval/bm25.py:109-111 | more occurrences weigh strictly more and a larger norm makes them weigh strictly less |
| `Bm25.WeightLaw` | core/retrieval/bm25.py:109-111 | the weight times (tf + k1 norm) is tf (k1 + 1) |
| `Bm25.NormOfAverage` | core/retrieval/bm25.py:73 | a document of average length has norm 1 |
| `Bm25.NormGrows` | core/retrieval/bm25.py:73 | a longer document has a larger norm |
| `Bm25.NormLaw` | core/retrieval/bm25.py:73 | (norm - (1 - b)) times the average length is b times the length |
| `Bm25.ContributionLaw` | core/retrieval/bm25.py:100-111 | what a term adds to a document that holds it is its idf times the weight of its multiplicity there |
| `Bm25.QueryTerms` | core/retrieval/bm25.py:83 | enumerating the set in any order and sorting gives the distinct tokens in strictly increasing order |
| `Bm25.QueryTermsUnique` | core/retrieval/bm25.py:82-83 | they depend on nothing but the set of tokens |
| `Bm25.ContributionBounds` | core/retrieval/bm25.py:75-79 | a term adds a positive amount to exactly the documents it occurs in, at most (k1 + 1) times its idf |
| `Bm25.ScoreSign` | core/retrieval/bm25.py:109-112 | a score is positive exactly for the documents that contain a query term |
| `Bm25.BM25Retriever.AddTerm` | core/retrieval/bm25.py:101-111 | walking one posting list adds the term's contribution to the score of every document |
| `Bm25.BM25Retriever.Search` | core/retrieval/bm25.py:81-115 | walking the posting lists under both clamps returns min(`top_k`, matching documents) hits, each with its score over the kept terms; by falling score, and by document number where scores are equal; no matching document left out comes before a returned one; and it is the ranking over all query terms when nothing is clamped |
| `Bm25.RankingIsBest` | core/retrieval/bm25.py:112-115 | the same of the ranking by direct scoring, in terms of scores and document numbers alone |
| `Bm25.KeptIsPrefix` | core/retrieval/bm25.py:92-105 | which terms are kept: of the first m query terms those that occur, and in a corpus of 1000 documents or more in at most nine tenths of them; their postings number at most 200000, and with the next such term they would be more |
| `Bm25.RankingCanonical` | core/retrieval/bm25.py:112-115 | however the dict is enumerated, sorting by score and document number gives the order of a stable sort of a full scan by score |
| `Bm25.IndexRefinesFullScan` | core/retrieval/bm25.py:81-115 | if no term is skipped and the budget is not hit, the kept terms give the same ranking as all query terms |
| `Bm25.ScoreOfOwnTerms` | tests/test_bm25.py:81-92 | a score does not depend on the order in which the terms are summed, nor on query terms the document does not contain |
| `Bm25.IndexRefinesReference` | tests/test_bm25.py:64-96 | without clamping a search returns the same ids, scores and order as the reference scan, which sums each document over its own terms in its own order |
| `Bm25.ClampGap` | core/retrieval/bm25.py:98-104 | clamping never raises a score and lowers it by at most (k1 + 1) times the idf of the dropped terms |
| `Bm25.BudgetHolds` | core/retrieval/bm25.py:102-104 | the postings walked never exceed the budget |
| `Bm25.ClampedSearch` | core/retrieval/bm25.py:81-115 | every returned score is positive, at most the full score and short of it by at most the bound; a document that is not ranked has a full score within the bound; the postings walked stay within 200000 |
| `Fusion.DedupRank` | core/retrieval/rrf.py:12-19 | the r-th distinct id has rank r: one more than the number of distinct ids before its first occurrence |
| `Fusion.ShareAt` | core/retrieval/rrf.py:12-20 | in a list without repetitions the id at place r from 0 gets 1 / (k + r + 1) |
| `Fusion.ReciprocalRankFusion` | core/retrieval/rrf.py:4-21 | scores exactly the listed ids, each with the sum over the lists of 1 / (k + rank of its first occurrence), keyed in order of first occurrence |
| `Fusion.ScoreOrderFree` | core/retrieval/rrf.py:10-21 | the score does not depend on the order of the lists |
| `Fusion.DominanceScoresHigher` | core/retrieval/rrf.py:4-21 | an id ahead of another in every list that has the latter scores strictly higher |
| `Fusion.HybridSearch` | core/retrieval/hybrid.py:42-57 | the hits are the fused ranking, with the dense score of each id that has one |
| `Fusion.RankingExact` | core/retrieval/hybrid.py:46-53 | the fused ranking is exactly the min(`top_k`, listed ids) best of the listed ids, each once and with its score: by falling score, and by first occurrence where scores are equal; no id left out belongs before one that is kept |
| `Fusion.HitsCarryScores` | core/retrieval/hybrid.py:44-57 | a hit carries the sum of its id's shares in the two lists, and a dense score exactly if the dense list has it |
| `Fusion.LookupExact` | core/retrieval/hybrid.py:44-55 | that score is the one of the last dense entry of the id |
| `Fusion.UniqueLookup` | core/retrieval/hybrid.py:44-55 | which is the only one where each id has one entry |
| `Fusion.FlattenPair` | core/retrieval/hybrid.py:46-52 | the order of first occurrence is that of the dense candidates followed by the sparse ones |
| `Fusion.RankingClosedUpward` | core/retrieval/hybrid.py:53-57 | the truncated ranking holds, and holds earlier, every id that dominates one it holds |
| `Fusion.RerankedAreHits` | core/retrieval/search.py:244-251 | reranking returns hits it was given |
| `Fusion.RerankExact` | core/retrieval/search.py:245-249 | reranking picks min(`rerank_top_k`, hits) of the hits, each with its own rerank score: scores never rise, equal scores keep the order of the hits, and what is left out is behind |
| `Fusion.NoopKeepsOrder` | core/retrieval/rerank.py:15-19 | with the no-op reranker the stable sort keeps the fusion order |
| `Parent.WindowShape` | core/retrieval/parent.py:48-69 | the window grows by one chunk a step, contains the hit, and its sides differ by at most one while neither is used up |
| `Parent.StopsExactly` | core/retrieval/parent.py:49-69 | the window stops at the target size or at the whole document, and every smaller window on the way was below the target |
| `Parent.ExpandOne` | core/retrieval/parent.py:46-70 | the right-left loop computes that window and terminates |
| `Parent.GroupByDoc` | core/retrieval/parent.py:34-38 | groups the chunk ids by document, in sequence order |
| `Parent.ExpandParents` | core/retrieval/parent.py:40-73 | expands every hit, and only the hits |
| `Parent.ExpansionPromise` | core/retrieval/parent.py:11-73 | an expansion is a contiguous run of the hit's own document that contains the hit, in order; it reaches the target or is the whole document; without its first or its last part it was below the target; its sides differ by at most one chunk while neither is used up |
| `Parent.DocSeqPlaces` | core/retrieval/parent.py:34-38 | the chunks grouped for a document are exactly its places in the sequence, in order |
| `Parent.JoinConcat` | core/retrieval/parent.py:72 | joining puts a blank line between neighbouring parts and nothing else |
| `SearchCache.RemovalIsSeen` | core/storage/registry.py:432-440 | removing a document changes what a KB lists if the KB has rows of it and leaves the list as it is otherwise |
| `SearchCache.DeleteKeepsIff` | core/retrieval/search.py:279-283 | the bare method keeps the caches coherent if and only if no other cached KB has rows of the document |
| `SearchCache.RequestKeepsCoherent` | apps/api/routes/documents.py:202-204 | so a deletion that passes the check of its one caller, that the document belongs to the KB, always does |
| `SearchCache.SearchRaisesIff` | core/retrieval/search.py:200-211 | a search raises if and only if the KB has chunks and none of them has a token |
| `SearchCache.IngestKeepsIff` | core/retrieval/search.py:77-148 | ingesting keeps the caches coherent, except that a store that raises after the rows were committed skips the invalidation: then they stay coherent if and only if the KB was not cached |
| `SearchCache.StaleAfterFailedUpload` | core/retrieval/search.py:128-148 | an input that leaves stale caches, from an empty service: upload a file with a token, search, and upload another while the store raises |
| `SearchCache.AdminDeleteKeepsIff` | apps/api/routes/admin_kb.py:173-190 | the admin deletion, which goes to the registry alone, keeps the caches coherent if and only if it deletes no row or the KB is not cached |
| `SearchCache.AdminDeletedReturnedIff` | apps/api/routes/admin_kb.py:173-190 | after it a search of a cached KB has the hits it had before; where nothing is cut off, a deleted chunk is returned if and only if it was before, and comes without document and text |
| `SearchCache.PipelineKeepsIff` | core/ingest/pipeline.py:131 | the rows written by the chunk stage of the pipeline keep the caches coherent if and only if the KB is not cached |
| `SearchCache.UpsertEffect` | core/storage/vector.py:78-84 | upserting replaces exactly the points of the given ids |
| `SearchCache.RunKeepsSound` | core/retrieval/search.py:77-283 | over every clean history of searches, ingests and deletions over several KBs: caches equal rebuilds, rows and points belong to their documents and KBs, and the points are exactly the rows' points |
| `SearchCache.CachedSearchIsUncached` | core/retrieval/search.py:200-228 | after every clean history a cached search answers what a search without caches answers |
| `SearchCache.AnswersAreLive` | core/retrieval/search.py:230-277 | every result is a chunk the registry holds for the searched KB, with its own document and text, and its expansion is the texts of a contiguous run, around it, of the rows of that document, of 2048 characters or all of them |
| `SearchLaws.SearchScores` | core/retrieval/search.py:230-277 | a search end to end: the candidates are the fused best of what the store ranks for the query's embedding among the points of the KB and what the index ranks of its texts; each result has the id of a candidate, as `score` the rerank score of that candidate's text, and as `dense_score` the score the store gave its id, or 0.0 if none; scores never rise, and the results are the best min(`top_k`, `rerank_top_k`, candidates) |
| `SearchLaws.AnswerScores` | core/retrieval/search.py:244-277 | the same for the results made of any candidates, without saying where those come from |
| `SearchLaws.SearchFillsCaches` | core/retrieval/search.py:200-238 | a search caches the retriever of the KB unless building it raises and, if there are hits, its chunk sequences; what is cached already and everything of other KBs stays |
| `SearchLaws.TextOfHit` | core/retrieval/search.py:240-243 | the reranker is given the text of each candidate's row, or "" for one without a row |
| `SearchLaws.KbPointsExact` | core/storage/vector.py:86-91 | the store ranks the points of the KB, all of them and no others |
| `SearchLaws.ListExact` | core/storage/registry.py:422-430 | a KB lists exactly its rows, each as often as the registry holds it, by document and then by index |
| `SearchLaws.DocumentInOrder` | core/storage/registry.py:422-430 | so the rows among which a hit is widened are exactly those of its document in the KB, by index |
| `SearchLaws.HybridPairs` | core/retrieval/hybrid.py:38-40 | a retriever is built over the listed rows, the id of each beside its text |
| `SearchCache.DeletedNeverReturned` | core/retrieval/search.py:279-283 | no chunk of a deleted document is returned, and none of its rows is in an expansion, by any search of any KB after any clean history that follows |
| `SearchCache.SecondUploadFindsFirst` | core/retrieval/search.py:104-107 | once its document exists, uploading a content again changes nothing, which includes a first upload that failed: it is never indexed by uploading again |
| `SearchLaws.UploadOutcome` | core/retrieval/search.py:104-148 | how an upload ends: found exactly if the KB has a document of that content; refused exactly if the text gives no chunk; ingested exactly if nothing raises; and the row of a created document is marked failed exactly if something raised and that could be recorded |
| `SearchLaws.UploadWrites` | core/retrieval/search.py:119-141 | what an upload writes: rows and points of all its chunks if it is ingested, with the KB no longer cached; the rows and the points written so far if the store raised; otherwise no row, no point and no cache changes |
| `SearchLaws.SetChunksReplaces` | core/storage/registry.py:382-409 | the rows of the document are replaced by the given ones, and all other rows stay |
| `SearchLaws.DeletionRemoves` | core/retrieval/search.py:279-283 | after a deletion of a document of the KB its row, its chunks and its points are gone and everything else is as it was, but for the caches of the KB; any other deletion changes nothing |
| `SearchServiceObject.SearchService.IngestFile` | core/retrieval/search.py:104-148 | writes document, rows and points step by step, under each fault, with the result of the specification |
| `SearchServiceObject.SearchService.DeleteDocument` | core/retrieval/search.py:279-283 | points first, then rows, then the caches |
| `SearchServiceObject.SearchService.Search` | core/retrieval/search.py:230-277 | returns the answer of the specification, of which `SearchScores` says the ids, scores and dense scores, or nothing where building the retriever raises, and changes nothing but the two caches of the KB |
| `Crawl.DueExactly` | core/storage/registry.py:712-724 | the due list holds exactly once every enabled subscription that was never fetched or whose next fetch is not later than now |
| `Crawl.DueByUrl` | core/storage/registry.py:722 | in the order of their URLs |
| `Crawl.FetchRecords` | core/ingest/crawl.py:56-83 | the whole effect of a fetch: exactly when it raises and what the status says; a content that differs from the last one and has no document is queued together with its document, and nothing else is; the row keeps its settings and records the time, the next fetch, and the content or the error |
| `Crawl.PassesKeepRemembered` | core/ingest/crawl.py:67-83 | over any passes: what a subscription last saw has a document in its KB, so skipping an unchanged content misses nothing |
| `Crawl.FetchCursor` | core/ingest/crawl.py:40-83 | a fetch moves the cursor of its subscription one interval ahead, unless it raises, and touches no other row |
| `Crawl.FetchesSpaced` | core/ingest/crawl.py:86-96 | over any sequence of passes two fetches of one subscription are at least its interval apart, unless the earlier one raised |
| `Crawl.FetchLoses` | core/ingest/crawl.py:72-83 | every content is queued at most once; a fetch adds to the contents that no crawl queues if and only if creating or queueing the job raises after the document was committed, and the next fetch of such a content reports it as ingested and queues nothing |
| `Crawl.LostIsForever` | core/ingest/crawl.py:86-96 | over any passes such contents stay unqueued, and none is added while no job raises |
| `CrawlerObject.Crawler.FetchSubscription` | core/ingest/crawl.py:40-83 | updates the subscription row and the document rows step by step, with the status of the specification |
| `CrawlerObject.Crawler.CrawlDue` | core/ingest/crawl.py:86-96 | fetches the due subscriptions one by one in URL order; a raise ends the pass |

## Left out

- Atomicity: a file write, a database commit and the write of one point are single steps; torn writes, SQL locking and
  threads interleaving inside a step are not modelled.
- Hashes: a content hash is taken to be injective, and a stamp is modelled as the content it was taken of.
- Chunk ids in the pipeline are a counter, and new ids in the search service are required to be unused and distinct,
  for `uuid4`.
- The source file of a job is fixed, and parsing, embedding, chunk sizes and the cosine ranking of the vector store are
  uninterpreted functions; embedding maps each text on its own.
- `set_pipeline_version`, the `emit_stage` events and all other logging are not modelled.
- Celery's delivery (redelivery after a worker dies, two workers on one job) and its back-off are not modelled.
- Bm25.NewRetriever: tokenisation is abstract, `array('h')` overflow and float rounding are not modelled.
- RateLimit.FailOpenLimiter.Allow: the inner limiter is the Redis bucket and the fallback the in-memory one, as
  `build_limiter` puts them together; the in-memory bucket has nothing that raises.
- RateLimit.RedisTokenBucket.Allow: expiry is judged on the clock the calls read, at the time of a call; the rounding
  of numbers to Redis strings and the decimal form of the rate in the key are not modelled.
- SearchServiceObject.SearchService.Search: document titles, the KB type that selects the search parameters and a
  negative `top_k` are not modelled; the sparse ranking of an indexed corpus is a function of that corpus (the BM25
  index itself is in `Bm25.dfy`).
- The results over histories cover searches, ingests and deletions through the service; of the writers that bypass it,
  the admin deletion and the chunk stage of the pipeline are covered one call at a time.
- `debug_search`, the HTTP routes, middleware, MCP server, front end, refusal and metrics: plumbing around the core.
- `QdrantVectorStore`, real embedders and rerankers, the chat client, PDF parsing and HTTP fetching: calls into other
  programs, kept as parameters or outcomes.
- Address checks, access control, keys and sessions: each is one comparison or one library call, with no state of its
  own to keep consistent.
- KB statistics, pagination and subscription CRUD: single queries, whose result the database engine defines.
- The importer and the evaluation scripts: they only call the operations modelled here, or measure their quality.
