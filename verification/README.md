# Stream2Pretrain verification

A Dafny model of the stateful protocols of Stream2Pretrain, an at-least-once streaming pipeline that turns
fetched documents into training data, with proofs of what those protocols promise. `dafny verify
dfyconfig.toml` checks the whole project.

| files | what they model |
|---|---|
| `Curation`, `CurationRules`, `CurationRecipe`, `CurationBatch`, `CurationWorker`, `CurationReplay`, `CurationCounterexamples`, `CurationText`, `CurationPromises` | one document's curation, what its gates decide together and what becomes of its text, and the laws batches rely on; a micro-batch against one-at-a-time processing; the worker's loops; crash and replay; inputs at which batches and serial processing part |
| `NearDuplicateIndex`, `NearDuplicateReference`, `SegmentAggregation` | the banded MinHash index, what a near duplicate is in terms of the documents seen, and the weighted mean and median of section scores |
| `DecisionCache`, `QualityCache`, `ModelRetry` | the first-writer-wins decision cache, the score cache with eviction, and the retry loop under the work cutoff |
| `IcebergRows`, `IcebergProtocol`, `IcebergWriter` | compare-and-swap appends by any number of writers, and the buffer-and-commit writer |
| `EndpointPool`, `EndpointLeases` | the endpoint lease pool: its critical sections, and their interleavings with refresh and close |
| `ServingProjection`, `ServingOverview`, `ServingIndex`, `ServingConsumer` | the incremental serving tables, their stored overview, and the consumer of either topic with its catch-up check |
| `DocumentPages` | keyset pagination over the document collection |
| `TableReachability`, `TableExpiry`, `GarbageProtocol` | garbage collection of table objects against concurrent commits |
| `PdfWorker` | the isolated PDF process, its pipe and its controller |
| `CardParser`, `ScientificSections` | the two line-driven parsers |
| `Ordering`, `Outcomes`, `Text` | string order, stable sorting, optional values, and words and white space, shared by the others |

A protocol is a state machine: a `Step` function over named actions, a `Run` over any list of them, an
invariant that every step keeps, and the promises that follow for all runs. An action that is not enabled
changes nothing. An object that updates its fields is a class whose methods establish `View() ==
Spec(old(View()))` or state the new fields outright; what the specification means is then proved by lemmas.
What the program cannot control (other processes, lost answers, crashes, clocks) is an arbitrary action, an
argument, or an arbitrary value that the model of the environment records as history.

## Premises

- Payloads of one batch that share a `doc_id` are byte-identical (`CurationBatch.OnePayloadPerDocument`).
  Skips are keyed by document, so the batch theorems need this; `CurationCounterexamples` shows what happens without it.
- Scorers, sanitizers, section parsers and MinHash are pure functions of their inputs, fixed by the recipe
  (`Curation.Models`). So is the outcome of preserving structured evidence (`Models.handoff`), which the program
  obtains by writing to an object store. The near-duplicate index is not assumed monotone: `NearDuplicateIndex` models it and
  proves it.
- JSON, gzip, base64 and SHA-256 are lossless or injective, so a payload stands for its cache key and a row
  for its cursor. Times are integers and scores are reals. White space is ASCII.
- Stored objects, manifests and metadata files are written once under their path
  (`TableReachability.ManifestsWriteOnce`, `GarbageProtocol.Step`), and the object store reports errors only
  for keys it was asked about or for none (`TableExpiry.Answered`). When it answers per key, a requested key is
  gone unless an error that is not benign names it or some error names no key (`TableExpiry.Left`).
- A key scan and the append after it refer to one metadata version, and the catalog accepts an append only on
  that version.
- Killing the PDF child ends it.
- Rows that tie in all four ranking columns keep their table order in the latest-decision ranking.

The batch theorems are stated for every `CurationRecipe.Recipe` that obeys `Lawful`;
`CurationRecipe.RecipeIsLawful` proves that the recipe of any pinned models does.

## What the proofs found

- "Serial state semantics" holds for flags, routes, the index and the cached keys, but not for bytes: a record
  that becomes a near duplicate inside its own batch was already scored, and its stored decision carries a
  report that one-at-a-time processing does not compute. `CurationBatch.BatchEqualsSerialIff` says exactly when
  the bytes agree, in terms of the starting index and the records alone;
  `CurationCounterexamples.CopyDiffersFromSerial` is a batch for which they do not.
- The claim that a skip creates no acceptance rule holds for single records and for batches under the premise
  above. `CurationBatch.AcceptanceRuleIff` says exactly for which batches it holds without it, and
  `CurationCounterexamples.SharedIdentifierSkipsQuality` is one for which it fails.
- The score cache's bound holds within one process. With restarts it grows by 999 rows each:
  `QualityCache.LeastBound` is the least bound, and `QualityCache.ProcessBoundIff` says that the bound of one
  process holds exactly without a restart.
- An undecodable startup reply escapes `start()` without terminating the PDF child, unlike every other failure
  (`PdfWorker.StartupSurvivors`, `PdfWorker.UndecodableStartupEscapes`); the next call is still safe
  (`PdfWorker.QuietBetweenCalls`).
- A delete request counts as done although it may have deleted nothing in two cases: it was answered as a whole
  with a benign code, or its answer has an error that names no key. `TableExpiry.AllGoneIff` is the exact
  condition; `TableExpiry.BenignAnswerLeavesKey` and `TableExpiry.UnnamedErrorLeavesKey` are instances.
- `CurationReplay.EmissionsOfOnePayloadAgree` needs its single worker: two workers can emit different decisions of
  one payload (`CurationCounterexamples.TwoWorkersDisagree`).
- The count of committed rows misses an append that took effect without an answer
  (`IcebergWriter.Writer.CommitUniqueRows`).
- The cursors lose rows exactly when rows that tie in all sort columns straddle a page end
  (`DocumentPages.FollowingIsCompleteIff`, with an instance in `DocumentPages.TiedRowIsLost`); with distinct sort
  keys none do.
- A refresh that finds no usable endpoint at all forgets the clients it removes: they are neither pooled nor closed
  (`EndpointLeases.ClientForgottenIff`).
- A serving consumer cannot catch up by itself with a partition whose unread records have all expired; it waits for
  a new record there (`ServingConsumer.CatchesUpIff`).
- Without a work cutoff nothing bounds the model-service retry loop (`ModelRetry.FailuresEndIff`).

## Model

| member | source | states |
|---|---|---|
| CurationRules.PreflightExact | processor/curate.py:516-599 | The preflight fires exactly when the full curation records a reason other than low quality, high perplexity or near duplicate, whatever the classifier report and the index answer |
| CurationRules.PreflightFindings | processor/curate.py:537-599 | The preflight decides on the projection that curation scores, and its verdict is the disjunction of the gates that need neither inference nor the index |
| CurationRules.ReasonRecorded | processor/curate.py:963-1093 | A reject reason is recorded if and only if its gate fired; a short body silences the web heuristics |
| CurationRules.AllRemovedMeansShort | processor/curate.py:902-975 | A document whose sections were all removed by the C4 gate is too short as well, so that reason never stands alone |
| CurationRules.TrainableIffNoReason | processor/curate.py:1331-1339 | Before the evidence hand-off a record is trainable exactly when it carries no reject reason, whichever route, risk tier and PII flags were computed on the way |
| CurationRules.AcceptanceRule | processor/curate.py:832-1064 | A record is trainable exactly when the preflight is clear, perplexity is acceptable, the index saw no near duplicate and any report passed its cutoff |
| CurationRules.AcceptedUnscored | processor/curate.py:865-871 | A record is accepted without a report exactly when its document was skipped although none of its own gates asks for it |
| CurationRules.DuplicateIsQuarantined | processor/curate.py:1088-1098 | A near duplicate is quarantined and not trainable, with or without a report, also after the evidence hand-off |
| CurationRules.HandOffOnlyWithdraws | processor/curate.py:1411-1450 | Preserving structured evidence can only withdraw a trainable record, and never touches its report |
| CurationRules.HandOffRule | processor/curate.py:1411-1450 | The hand-off withdraws a trainable record exactly when its evidence was not preserved although the record depends on it: it has evidence of its own or may only be used in derived form |
| CurationRules.RouteRule | processor/curate.py:1094-1131 | A record is retried exactly when all its reasons are retryable and the bounded alternate retry is possible, routed to training exactly when it has no reason, and eligible for pretraining exactly then unless its licence allows derived use only |
| CurationRules.ReportWithinScores | processor/curate.py:691-734 | A document’s token-weighted quality score lies between its least and greatest section score |
| CurationText.SafeIsCleaned | processor/curate.py:847-858 | Section by section, what is projected, scored and stored is what the sanitizer left of the source text; identity, title and position stay |
| CurationText.KeptIsCleaned | processor/curate.py:888-941 | The kept sections are exactly the sanitized source sections that neither the card placeholder check nor the web heuristics isolate |
| CurationText.KeptInOrder | processor/curate.py:888-941 | Isolating sections keeps the order of the others |
| CurationText.RawTextDoesNotMatter | processor/curate.py:847-858 | Records that the sanitizer makes equal get the same projection, the same classifier report, the same section scores and the same stored text; with equal flags also the same reasons and the same verdict |
| CurationText.SameProjection | processor/curate.py:761-769 | The projection, prefetched or not, is a function of the sanitized text |
| CurationText.StoredTextIsDecidedText | processor/curate.py:832-1236 | The stored text is the one the preflight decided on, under the record’s own identifiers, with the index’s answer and exactly the flags that some sanitized part raised |
| CurationText.BodyKeepsWords | processor/curate.py:943 | The body that the gates measure has exactly the words of the kept sections, in order |
| CurationText.ProjectionKeepsWords | processor/curate.py:1239-1261 | The projected text has exactly the words of the title, of the kept sections below their headings, and of the sanitized structured evidence, in that order |
| CurationText.SourceBegins | processor/curate.py:501-514 | A paper is read from its first abstract, without one from its first introduction, otherwise whole; any other record whole |
| CurationPromises.PreflightMeans | processor/curate.py:516-599 | The preflight lets a record through exactly if it meets every text, language, licence, extraction and card condition, spelled out |
| CurationPromises.TrainableMeans | processor/curate.py:1331-1339 | What makes a record trainable before the hand-off, spelled out: the preflight’s conditions, under three quarters of measured web sections in the tail or a perplexity of at most 2000, no near duplicate, and the score of any report at the source’s cutoff |
| CurationPromises.ScoredWhen | processor/curate.py:859-871 | The classifier runs exactly on records that pass every hard gate and are not skipped; a record without a report has quality zero and says so |
| CurationPromises.PerplexityMeans | processor/curate.py:1005-1016 | A web page is rejected for perplexity exactly with three quarters of its measured sections in the tail and a weighted median above 2000 |
| CurationPromises.BucketCounts | processor/curate.py:1005-1014 | The tail share counts the included, measured sections |
| CurationPromises.SignalIsLast | processor/curate.py:422-481 | A language-model signal is the one of the last section with its identifier |
| CurationPromises.ScoreRowMeans | processor/curate.py:888-941 | A section’s score row counts its words, carries its signal and says whether it was kept |
| CurationPromises.ReportRowMeans | processor/curate.py:691-734 | A report row weighs its score by the classifier’s tokens, else by its words, at least one |
| CurationPromises.ScoreIsTheWeightedMean | processor/curate.py:691-734 | Moving a row’s score moves the document’s score by the row’s share of the tokens |
| CurationPromises.ReportMeans | processor/curate.py:691-734 | A report has one row per section and passes at 3.5 for model and dataset cards, at 3.0 otherwise |
| CurationRecipe.RecipeIsLawful | processor/curate.py:516-599 | Every recipe obeys the laws the batch theorems use: a skip that a hard gate confirms changes nothing, one that a near-duplicate verdict confirms changes neither flag nor route, and no confirmed skip makes a record trainable without a passing report |
| CurationRecipe.SkipsShow | processor/curate.py:865-871 | A skip that no hard gate confirms is visible in the stored record, whatever the index answers |
| CurationRecipe.ScoredUnlessAccepted | processor/curate.py:832-1064 | A stored decision is trainable without a report exactly when the record was skipped, none of its gates asks for that, perplexity is acceptable, the index calls it original and the hand-off keeps it |
| CurationRecipe.ConfirmedSkipScores | processor/curate.py:523-528 | After a skip that the record’s own gates or the index confirm, a record is trainable only with a report that passed |
| CurationBatch.BatchRefinesSerial | processor/curate.py:1459-1567 | A batch gives every item the trainable flag and route of one-at-a-time processing and leaves the same near-duplicate index and cached keys, if payloads of one batch that share a document identifier are identical |
| CurationBatch.BatchAcceptsOnlyScored | processor/curate.py:523-528 | Skipping inference creates no acceptance rule: whatever a batch newly decides is trainable only with a report that passed its cutoff |
| CurationBatch.AcceptanceRuleIff | processor/curate.py:523-528 | Without any premise: everything a batch newly decides is scored before it is trainable if and only if no record slips through, that is, is skipped for another record’s sake, original in the index that observed the undecided records before it, and stopped by no other gate |
| CurationBatch.SlippedDecision | processor/curate.py:780 | Record by record, a newly decided payload of any batch is trainable without a report exactly if it slips through |
| CurationBatch.BatchEqualsSerialIff | processor/curate.py:1465-1472 | A batch equals one-at-a-time processing to the byte if and only if no record that needs no skip at the start is a near duplicate in the starting index extended by the undecided records before it |
| CurationBatch.PromotedDiffers | processor/curate.py:777-785 | A record that turns duplicate within its batch is scored by the batch and left unscored on its own, so the two stored decisions differ |
| CurationBatch.DuplicateUntilTurn | processor/curate.py:777-780 | A record found duplicate while prefetching is still a duplicate when the ordered observation reaches it |
| CurationBatch.SharedSkip | processor/curate.py:780 | Under the premise on identifiers the batch-wide skip set answers each undecided record exactly as a batch of its own would |
| CurationBatch.SkipsDifferOnlyOnDuplicates | processor/curate.py:754-785 | At a record’s turn the shared skip set and its own differ only for a hard rejection or a near duplicate |
| CurationBatch.TurnsObserve | processor/curate.py:1532-1564 | A run of turns adds to the index exactly the observations of its undecided payloads, each at its first occurrence, stores a decision for every readable one, and changes no stored decision |
| CurationCounterexamples.CopyDiffersFromSerial | processor/curate.py:777-785 | Byte equality fails at a concrete batch: of a card and its copy under another identifier the batch scores the copy, serial processing does not |
| CurationCounterexamples.TwoWorkersDisagree | processor/curate.py:1402-1456 | With two workers on one cache and one index, emissions of one payload can differ: the worker that loses the put emits the decision it computed, which the other one’s skip made different from the stored one |
| CurationCounterexamples.SharedIdentifierSkipsQuality | processor/curate.py:780 | Without the premise the acceptance rule fails: two cards with one document identifier, the first in a wrong language, make the second trainable without any report |
| CurationWorker.Curator.ProcessSilverDecisionPayloads | processor/curate.py:1459-1567 | The batch loop over results, pending items, cache and index computes exactly the batch, or one-at-a-time processing when the shared prefetch is refused |
| CurationWorker.Curator.FinalizeItem | processor/curate.py:1532-1564 | One finalizing pass looks the cache up again and otherwise decides the payload, exactly as its turn prescribes |
| CurationWorker.Curator.LookUp | processor/curate.py:1485-1499 | The first pass settles unreadable and already decided payloads and lists the others with their positions, in order |
| CurationWorker.Curator.PrefetchedCurateState | processor/curate.py:737-829 | Prefetching changes neither index nor cache; its skip set names exactly the documents that need no classifier, and its scorers answer as the pinned models do |
| CurationWorker.Curator.PrefetchAll | processor/curate.py:754-788 | Preflighting and probing a batch in order collects exactly the documents that need no classifier |
| CurationWorker.Curator.PrefetchOne | processor/curate.py:754-788 | The speculative check of one record is its hard gates or a probe of the current index |
| CurationWorker.Curator.MaterializeUncachedDecision | processor/curate.py:1402-1456 | Curate, hand off, store unless stored: the new index and cache are those of the specification |
| CurationWorker.Curator.CurateOne | processor/curate.py:832-1236 | One record’s curation builds the specified record for the index’s answer, and the observation is its only change of ordered state |
| CurationWorker.Curator.SourceQualityReport | processor/curate.py:653-734 | The report’s score is the token-weighted mean of its section rows, zero without tokens, and passes at the source’s cutoff |
| CurationWorker.Curator.ScoreSegments | processor/curate.py:422-486 | Sections are kept or excluded one by one, and every section keeps a score row |
| CurationWorker.PrefetchedScorer.Fill | processor/curate.py:607-641 | Bounded requests over distinct texts record exactly the pinned scorer’s result of every requested text |
| CurationWorker.PrefetchedScorer.ScoreMany | processor/curate.py:217-222 | A prefetched scorer answers every text, prepared or not, as the pinned scorer does, in order |
| CurationWorker.RecordReasons | processor/curate.py:963-1093 | Appending the failed checks’ reasons and keeping first occurrences yields the ordered reason list |
| CurationWorker.SkipKnown | processor/curate.py:1532-1541 | A payload the first lookup settled leaves index and cache alone at its turn and keeps its outcome |
| CurationReplay.EmissionsOfOnePayloadAgree | processor/decision_cache.py:12-19 | For a single worker and a fixed recipe, over every crash and replay schedule all emissions of one payload are the same stored decision |
| CurationReplay.ObservedAgainOnlyAfterLoss | processor/curate.py:1494-1564 | A payload is observed by the near-duplicate index at most once, plus once for every observation that a crash or a record error separated from its cache put |
| CurationReplay.LossNeedsTheWindow | processor/curate.py:1402-1456 | An observation is thrown away only by a crash or a record error that falls between the observe and the put |
| CurationReplay.CrashFreeRunIsTheBatch | processor/curate.py:1459-1567 | Without crashes the observe, put and emit steps reach exactly the batch’s results and state |
| CurationReplay.FinishedBatchEmits | processor/curate.py:1747-1761 | A batch that meets no crash ends with the batch’s state and with one emission for each readable record, in order, each its decision |
| NearDuplicateIndex.LshBloomIndex.Observe | processor/operators/lshbloom.py:278-314 | Observing returns the verdict of the first deciding bucket, or mints a cluster that takes every still empty bucket; index and counter become the specified ones |
| NearDuplicateIndex.LshBloomIndex.Probe | processor/operators/lshbloom.py:316-323 | A probe answers as an observation would and changes nothing |
| NearDuplicateIndex.LshBloomIndex.ProbeClusterKeys | processor/operators/lshbloom.py:325-349 | Collecting the distinct candidate clusters first does not change which one decides |
| NearDuplicateIndex.LshBloomIndex.EmptyBuckets | processor/operators/lshbloom.py:302-309 | A new anchor writes exactly the buckets nobody owns |
| NearDuplicateIndex.DuplicateIsMonotone | processor/operators/lshbloom.py:278-349 | A near-duplicate verdict survives any observations of other documents |
| NearDuplicateIndex.CopyIsDuplicate | processor/operators/lshbloom.py:325-349 | An exact copy of a document that claimed its first bucket is a near duplicate, whatever its identifier |
| NearDuplicateIndex.ProbeFrozen | processor/operators/lshbloom.py:325-349 | Once every bucket of a signature is owned, no later observation changes its verdict |
| NearDuplicateIndex.ReplayKeepsVerdict | processor/operators/lshbloom.py:278-314 | Observing a document again after any other observations repeats its first verdict: an anchor is never a duplicate of itself |
| NearDuplicateIndex.ProbeIsObserveVerdict | processor/operators/lshbloom.py:316-323 | At one index the speculative probe and the authoritative observation agree on near duplication |
| NearDuplicateReference.DuplicateMeans | processor/operators/lshbloom.py:278-349 | After any history, replays included, a document is called a duplicate exactly if the first of its blocks that an earlier anchor owns and settles, as the same document or an alike one, names another document |
| NearDuplicateReference.SecondDocument | processor/operators/lshbloom.py:278-349 | Of two documents the second is a duplicate exactly when one of the 28 aligned blocks of four permutations has equal digests and the permutations they agree on reach the threshold |
| NearDuplicateReference.DuplicateHasCause | processor/operators/lshbloom.py:325-349 | Every duplicate verdict has a cause: another document seen before, alike and with an equal block |
| NearDuplicateReference.NewClusterIsFresh | processor/operators/lshbloom.py:351-353 | A new anchor’s cluster identifier is not in use and ends with eight characters of the document’s identifier |
| NearDuplicateReference.SimilarityIsAgreement | processor/operators/lshbloom.py:325-349 | Similarity reaches the threshold exactly when the set of agreeing permutations does |
| SegmentAggregation.AggregateSegmentScores | processor/scientific_policy.py:33-71 | The aggregation over included, measured sections returns the specified weighted mean, median and bucket |
| SegmentAggregation.ScanForMedian | processor/scientific_policy.py:58-68 | The running-weight loop stops at the first perplexity whose cumulative weight reaches half the total |
| SegmentAggregation.MedianIsWeightedMedian | processor/scientific_policy.py:58-68 | The returned perplexity is a weighted median: the weight at or below it is at least half, the weight strictly below it under half |
| SegmentAggregation.MeanBetween | processor/scientific_policy.py:45-57 | The source quality lies between the least and the greatest measured section score |
| SegmentAggregation.AggregateProperties | processor/scientific_policy.py:33-71 | Both bounds hold of the aggregate of every score list with a measured section |
| SegmentAggregation.OneMeasured | processor/scientific_policy.py:33-57 | A section is measured exactly if it was included and scored, with its words as weight, at least 1 and at most 512 |
| SegmentAggregation.MeasuredInOrder | processor/scientific_policy.py:33-57 | The measured sections are those of the parts, in order |
| SegmentAggregation.MeanIsWeighted | processor/scientific_policy.py:45-57 | The source quality times the total weight is the sum of the weighted scores |
| DecisionCache.FirstWriterWins | processor/decision_cache.py:102-110 | Whatever clients and lost answers do, a key holds its first insertion, and no stored decision is ever replaced |
| DecisionCache.ReadersAgree | processor/decision_cache.py:93-110 | Two readers at any two times see the same decision, if they see one |
| DecisionCache.PostgresDecisionCache.Put | processor/decision_cache.py:102-122 | A put that returns has decided its key, and no put changes a stored decision; it fails only on a refused connection or after two lost answers, sends nothing but this decision, and leaves a closed cache untouched |
| DecisionCache.PostgresDecisionCache.Get | processor/decision_cache.py:93-122 | A get returns a decision stored before the call, and what it returns stays stored; it fails only on a refused connection or after two lost answers |
| DecisionCache.PostgresDecisionCache.EnsureConnection | processor/decision_cache.py:124-132 | A call proceeds only on an open connection, and a closed cache opens none |
| QualityCache.CachedQualityScorer.ScoreMany | processor/quality_cache.py:43-82 | The result is the pure scorer mapped over the texts in order, duplicates included, whatever was cached, filled or evicted meanwhile; the inner scorer is asked once, for exactly the distinct texts not stored, whose answers are stored; afterwards the table has at most 999 rows more than it started with or retains |
| QualityCache.CachedQualityScorer.Lookup | processor/quality_cache.py:44-60 | Exactly the stored texts are answered, with their exact scores, and exactly the others listed once as missing |
| QualityCache.CachedQualityScorer.Fill | processor/quality_cache.py:68-80 | A fill replaces the given rows and evicts once a thousand rows were written since the last eviction |
| QualityCache.EvictionBound | processor/quality_cache.py:75-79 | Eviction leaves at most the retained number of rows |
| QualityCache.EvictionKeepsNewest | processor/quality_cache.py:76-79 | Everything kept is newer, then smaller in key, than everything evicted, and nothing is evicted below the retained number |
| QualityCache.FreshRowsSurvive | processor/quality_cache.py:68-80 | Rows newer than everything stored survive the write that stores them |
| QualityCache.BoundAcrossRestarts | processor/quality_cache.py:17-27 | Across restarts the table stays within the retained rows plus 999 per restart plus the writes since the last eviction |
| QualityCache.BoundIsReached | processor/quality_cache.py:27 | For every number of restarts some history reaches that bound: the write counter starts at zero in every process, so 999 new texts after each restart are never evicted |
| QualityCache.LeastBound | processor/quality_cache.py:17-27 | No smaller bound holds of every history with at most so many restarts |
| QualityCache.ProcessBoundIff | processor/quality_cache.py:17-27 | The bound of 100999 rows holds for every history if and only if the process never restarts |
| IcebergRows.FreshRowsComplete | processor/iceberg_writer.py:523-538 | The rows still to commit have distinct keys, exactly the offered keys the table lacks, and come from the offered rows |
| IcebergRows.FreshRowsAreFirst | processor/iceberg_writer.py:532-537 | The first row of each missing key is the one committed |
| IcebergRows.TrainableMeans | processor/iceberg_writer.py:959-967 | The writer’s guard admits first-tier rows on a training route with no reason and no flag against them |
| IcebergProtocol.NoDuplicateKeys | processor/iceberg_writer.py:487-538 | Under every interleaving of any number of writers, whose appends commit, are refused, or have an unknown and possibly late outcome, no table ever holds two rows with one decision key |
| IcebergProtocol.GoldKeysAreDecisionKeys | processor/iceberg_writer.py:446-485 | In every reachable state the Gold keys are decision keys and the decision keys are keys of the log |
| IcebergProtocol.FlushedLogIsComplete | processor/iceberg_writer.py:446-485 | Once every log record was part of a finished flush, the decision keys are exactly the log’s keys and the Gold keys exactly those of its trainable records |
| IcebergProtocol.LogCanBeFlushed | processor/iceberg_writer.py:430-485 | From every state with a writer between flushes there is a continuation that flushes the whole log |
| IcebergProtocol.FailureKeepsBuffer | processor/iceberg_writer.py:449-453 | Only a crash, or a flush that stored all of it, empties a buffer |
| IcebergProtocol.RespondedKeeps | processor/iceberg_writer.py:509-520 | Every answer to an append, including a late application of an unknown one, keeps the protocol’s invariant |
| IcebergProtocol.ScanKeeps | processor/iceberg_writer.py:504-508 | A key scan pins a metadata version on which its pending rows are fresh |
| IcebergProtocol.AnswerMeans | processor/iceberg_writer.py:501-521 | A refused or unknown append is tried again from a fresh scan, eight attempts in all; any other error ends the flush, and the buffer is kept |
| IcebergWriter.Writer.CommitUniqueRows | processor/iceberg_writer.py:487-521 | On success every offered key is stored. The call’s own appends store nothing, or one row for each offered key that was still missing; it reports all of them unless some append got no answer, whose rows may be stored without being counted. Refused and unknown answers, and no others, are retried, and it fails exactly on another error or after the last attempt |
| IcebergWriter.Writer.FlushLocked | processor/iceberg_writer.py:446-485 | A failed flush leaves buffer and watermark as they were; a successful one empties them with every decision stored and every clean one in Gold, reports each table’s rows, exactly those its appends stored there when every append was answered, and fails only on an error that may not be retried or after all attempts on one table |
| IcebergWriter.Writer.Add | processor/iceberg_writer.py:430-437 | A record is buffered, and flushed with the others once the batch is full |
| IcebergWriter.Writer.Flush | processor/iceberg_writer.py:439-444 | A forced flush stores the whole buffer and reports it per table, or keeps it; an empty buffer sends nothing |
| IcebergWriter.Writer.UncommittedRows | processor/iceberg_writer.py:523-538 | The loop over rows and pending keys returns the first row of each key the table lacks |
| IcebergWriter.Writer.BufferAdd | processor/iceberg_writer.py:370-374 | The watermark is always the latest valid-from time of the buffered rows |
| IcebergWriter.LatestIsMaximum | processor/iceberg_writer.py:372-374 | The watermark is the maximum of the buffered times, and absent exactly for an empty buffer |
| IcebergWriter.PendingAdmissions | processor/iceberg_writer.py:168-184 | Deduplicating admissions before the retry loop and filtering inside it appends the same rows as the one-pass rule |
| IcebergWriter.DedupThenFilter | processor/iceberg_writer.py:168-184 | The two-pass selection of admissions equals the one-pass selection of decisions, for every stored set |
| EndpointLeases.PoolIsPartitioned | processor/model_client.py:170-282 | Before close, in every interleaving of leases, releases and multi-step refreshes, free and leased endpoints are disjoint, free ones without repetition, together exactly the pooled ones, and stale ones are leased |
| EndpointLeases.NoEndpointHeldTwice | processor/model_client.py:170-218 | In every run, also after close, no endpoint is held by two requests |
| EndpointLeases.HeldClientIsOpen | processor/model_client.py:205-282 | Before close a request works on its endpoint’s own pooled client, and that client has not been closed |
| EndpointLeases.PostTriesTwoEndpoints | processor/model_client.py:144-168 | One post leases at most two endpoints, and they differ |
| EndpointLeases.MergeKeepsClients | processor/model_client.py:248-282 | A merge adds new clients only and closes none that stays pooled |
| EndpointLeases.LeaseKeeps | processor/model_client.py:170-204 | A lease keeps the leased set exactly what the requests hold |
| EndpointLeases.AnswerKeeps | processor/model_client.py:152-168 | An answered request gives up exactly its own endpoint |
| EndpointLeases.SecondEndpointServes | processor/model_client.py:144-168 | After any run, a post whose first endpoint is unavailable is served by another usable one that is free; the failed endpoint and its client are gone |
| EndpointLeases.AnswerMeans | processor/model_client.py:144-168 | An unavailable endpoint leaves the pool, and the post goes on exactly when it was its first; otherwise the post ends and its endpoint is free again, last in line, unless it is stale |
| EndpointLeases.RefreshResolves | processor/model_client.py:229-282 | A refresh that built every listed endpoint it did not know leaves exactly the listed ones pooled and free, apart from endpoints in use |
| EndpointLeases.ClientForgottenIff | processor/model_client.py:255-282 | While the pool is open, and when it is closed, a client is forgotten, neither pooled nor closed, exactly by a refresh that leaves no endpoint at all |
| EndpointPool.EndpointPool.TryLease | processor/model_client.py:176-197 | One pass takes the first endpoint that is neither excluded nor stale, rotates those before it to the back, and tells waiting from having nothing untried |
| EndpointPool.EndpointPool.Release | processor/model_client.py:205-218 | A release drops a discarded or stale endpoint with its client and otherwise returns it to the back of the queue |
| EndpointPool.EndpointPool.MergeRefresh | processor/model_client.py:255-275 | The merge admits additions not pooled meanwhile, marks unlisted leased endpoints stale, removes the others, and returns the clients to close |
| EndpointPool.EndpointPool.DepartUnlisted | processor/model_client.py:262-270 | The loop over unlisted endpoints, in whatever order, removes exactly the free ones |
| EndpointPool.EndpointPool.Close | processor/model_client.py:284-294 | Closing empties the pool but for the leases in use, and yields every pooled client |
| EndpointPool.RotateTakesFirst | processor/model_client.py:180-188 | The scan loses no pooled endpoint but the one it returns, and returns one exactly when a usable one is queued |
| EndpointPool.LeaseMeans | processor/model_client.py:176-197 | A lease takes the first free endpoint that is neither tried nor stale, behind which the queue turns; without one it waits exactly while some pooled endpoint is neither, and nothing moves |
| EndpointPool.ReleaseMeans | processor/model_client.py:205-218 | A released endpoint goes to the back of the queue, unless it failed or is stale: then it leaves and its client is closed |
| EndpointPool.MergeMeans | processor/model_client.py:255-275 | After a merge the listed endpoints among the pooled and added ones are pooled, besides them only leased ones, which are stale; what is not leased is free, and no pooled endpoint changes its client |
| ServingProjection.TableIsTheView | processor/duckdb_api.py:1405-1412 | For every split of a delivered sequence into polls, redeliveries included, the table has one row per key: the first-delivered record of least trace, which is what the ranking view over the whole sequence selects |
| ServingProjection.RedeliveryChangesNothing | processor/serving_index.py:174-193 | Delivering again what was delivered before, in any order and number, changes no row |
| ServingProjection.ViewIsBest | processor/duckdb_api.py:1408-1411 | A record is ranked first in its key exactly when it is the first of least trace |
| ServingProjection.AppliedHoldsBest | processor/serving_index.py:238-277 | Collapsing a poll, dropping incoming rows with a stored trace at most theirs, and replacing the rest moves the table from the view before the poll to the view after it |
| ServingProjection.AdmissionsHoldLast | processor/serving_index.py:211-236 | One applied poll moves the admission table from the last delivery per identifier to the last one including the poll |
| ServingProjection.AdmissionTableIsTheLast | processor/serving_index.py:211-236 | However the delivered admissions, redeliveries included, are split into polls, the admission table has one row per identifier: the last delivered one |
| ServingProjection.BestAppend | processor/serving_index.py:174-193 | The best record of a concatenation is the better of the two bests, the earlier winning ties |
| ServingOverview.OverviewAddsUp | processor/duckdb_api.py:416-442 | With one row per key, durable decisions are the sum of the sources’ totals and training documents the sum of their accepted rows; a source accepts exactly its clean latest visible decisions, never more than its total |
| ServingOverview.JoinCountsClean | processor/duckdb_api.py:349-358 | The inner join of Gold with the latest decisions counts, per source, exactly the clean rows among them |
| ServingOverview.LatestIsOnePerDocument | processor/duckdb_api.py:336-343 | The ranking keeps exactly one row of every document, one that no other row of it outranks |
| ServingOverview.SourcesListed | processor/duckdb_api.py:425-432 | The per-source list is sorted and names every source that occurs exactly once |
| ServingOverview.LatestIsNewest | processor/duckdb_api.py:336-343 | The kept row of a document is its newest; later scoring versions, then later policies, then smaller traces break ties |
| ServingOverview.VisibleDecisions | processor/duckdb_api.py:336-358 | The counted decisions are the latest rows of their documents that the dashboard shows, one per document |
| ServingOverview.ReasonsMean | processor/duckdb_api.py:416-442 | Each reject reason is counted as often as the counted decisions give it, and an early licence rejection once, as missing or as not permitted; a reason nobody gives is not listed |
| ServingOverview.SourcesMean | processor/duckdb_api.py:416-442 | A source is listed exactly if it has a counted decision or an early rejection, with their number as total and its clean decisions as accepted |
| ServingOverview.EarlyRejectionMeans | processor/duckdb_api.py:359-380 | An early rejection is a visible source’s payload that the current licence policy quarantined and no decision follows |
| ServingIndex.Index.ApplyDecisions | processor/serving_index.py:170-206 | A poll of decisions moves table and stored overview together to the applied table and its recomputed overview; it changes nothing exactly when the database fails |
| ServingIndex.Index.ApplyAdmissions | processor/serving_index.py:211-236 | A poll of admissions moves table and stored overview together; it changes nothing exactly when the database fails |
| ServingIndex.Index.CollapseDecisions | processor/serving_index.py:180-194 | Collapsing a poll keeps, per scoring identity, the first row of least trace |
| ServingIndex.Index.CollapseAdmissions | processor/serving_index.py:219-225 | Collapsing a poll of admissions keeps the last row of each identifier, in the place of the first |
| ServingIndex.Index.StoredOverviewAddsUp | processor/serving_index.py:287-308 | After every committed batch the stored overview’s sums agree |
| ServingIndex.CorpusOverview | processor/duckdb_api.py:416-442 | The dictionary merges and the per-source list compute the overview of the two tables |
| ServingIndex.MergeCounts | processor/duckdb_api.py:423-435 | Merging the early-licence counts adds them key by key |
| ServingConsumer.AcknowledgedIsApplied | processor/serving_index.py:557-560 | Across crashes anywhere, every retained record below the acknowledged offset has been applied or deliberately skipped |
| ServingConsumer.AcknowledgedIsNotRedelivered | processor/serving_index.py:557-560 | A record is delivered only while it is not acknowledged, and once its poll is acknowledged the acknowledged offset is past it |
| ServingConsumer.CaughtUpMeans | processor/serving_index.py:517-526 | The caught-up flag stands only with a mark for every partition assigned, at least one; each mark is the length of the partition’s log at an assignment, and every record then in the log and still retained has been applied or skipped |
| ServingConsumer.CatchesUpIff | processor/serving_index.py:580-590 | Left alone after an assignment, the consumer catches up if and only if no assigned partition has unread records all of which have expired |
| ServingConsumer.TableIsTheViewOfDelivered | processor/serving_index.py:532-566 | Whatever crashed and was redelivered, the table is the ranking view of the delivered records |
| ServingConsumer.CaughtUpTableAnswers | processor/serving_index.py:580-590 | Once caught up, the table answers every retained decision that a partition’s log held when it was assigned, with a row of its key whose trace is at most its own |
| ServingConsumer.AdmissionsAreTheLastDelivered | processor/serving_index.py:532-566 | In every run of the admission topic’s consumer the admission table holds the last delivery of every identifier |
| ServingConsumer.CaughtUpAdmissionsAnswer | processor/serving_index.py:580-590 | Once caught up, the admission table answers every retained admission that a partition’s log held when it was assigned |
| ServingConsumer.AcknowledgeOk | processor/serving_index.py:559-560 | Acknowledging the fetched positions keeps acknowledged offsets behind the applied prefix |
| TableReachability.ProtectedTableObjects | processor/iceberg_maintenance.py:229-263 | The walk succeeds exactly when everything reachable lies in the table’s bucket, and then protects exactly the keys of everything reachable, although it opens each manifest once |
| TableReachability.ProtectedMetadata | processor/iceberg_maintenance.py:204-212 | The current and the logged metadata files are protected, or the walk fails on one outside the bucket or of another kind |
| TableReachability.VisitedManifestIsSeen | processor/iceberg_maintenance.py:247-249 | A manifest visited before has nothing left to protect |
| TableExpiry.SnapshotIdsToExpire | processor/iceberg_maintenance.py:266-294 | The selected identifiers are those of aged snapshots outside the newest ones and outside every reference |
| TableExpiry.ExpiryContract | processor/iceberg_maintenance.py:272-277 | A snapshot expires exactly when it is older than the cutoff, no reference names it and at least the configured number of snapshots are newer |
| TableExpiry.FilterTwice | processor/iceberg_maintenance.py:361-385 | Filtering the candidates again with the reloaded table’s protection is filtering once with both |
| TableExpiry.ObjectBucket.DeleteObjects | processor/iceberg_maintenance.py:110-148 | The pass does to the bucket what the store’s scripted answers prescribe; only candidates are deleted, and after a normal return a candidate is still stored exactly if its last request left it stored and was answered as a whole with a benign code or per key with an error that names no key |
| TableExpiry.ChunksExact | processor/iceberg_maintenance.py:110-148 | Per key: after a normal return it is stored exactly if the last request that named it left it stored and was answered with a benign code for the whole request, or per key with an error that names none, which the retry drops |
| TableExpiry.AllGoneIff | processor/iceberg_maintenance.py:110-148 | After a normal return all candidates are gone if and only if no candidate’s last request was overlooked in one of these two ways |
| TableExpiry.BenignAnswerLeavesKey | processor/iceberg_maintenance.py:126-129 | Such a return exists: one request answered with NoSuchKey counts as done and deletes nothing |
| TableExpiry.UnnamedErrorLeavesKey | processor/iceberg_maintenance.py:132-143 | So does another: a SlowDown error without a key empties the retry set, and the call returns normally with the key still stored |
| TableExpiry.ObjectBucket.DeleteChunk | processor/iceberg_maintenance.py:115-148 | At most five requests, each after the first for the keys the last answer called retryable, or for the same ones after a retryable error of the whole request |
| TableExpiry.CandidatesMean | processor/iceberg_maintenance.py:95-107 | A candidate is a listed table file, by its suffix, that nothing protects and that is older than the cutoff |
| TableExpiry.AttemptsOutcome | processor/iceberg_maintenance.py:115-148 | A chunk’s requests follow the answers; it succeeds exactly if the last answer settles it, and gives up on a repeatable answer only after the last attempt |
| TableExpiry.PassOutcome | processor/iceberg_maintenance.py:110-148 | A pass succeeds exactly if its last answer settles the last chunk, and asks for at most a thousand keys at a time |
| TableExpiry.NoErrorsDeletesAll | processor/iceberg_maintenance.py:110-148 | A store that reports no error has deleted every candidate and nothing else |
| TableExpiry.CodesMean | processor/iceberg_maintenance.py:111-112 | The benign and the retryable codes, which are disjoint |
| GarbageProtocol.ReachableObjectsSurvive | processor/iceberg_maintenance.py:350-386 | If every object newly referenced by a commit is younger than the age floor, then after any interleaving of commits and maintenance cycles everything the table reaches still exists |
| GarbageProtocol.DeletionsAreGarbage | processor/iceberg_maintenance.py:366-386 | No object is reachable from the table at the moment it is deleted |
| GarbageProtocol.OldReferenceCanBeLost | processor/iceberg_maintenance.py:229-263 | The premise cannot be weakened: whenever a commit would newly reference a stored table file older than the age floor, one maintenance cycle around that commit loses the file |
| GarbageProtocol.OldReferenceIsLost | processor/iceberg_maintenance.py:371 | Without the premise a run from an empty healthy table loses a reachable file, whatever the age floor |
| GarbageProtocol.ReloadOk | processor/iceberg_maintenance.py:372-385 | Reloading before the sweep leaves no candidate that the then current table reaches |
| GarbageProtocol.SweepMeans | processor/iceberg_maintenance.py:361-385 | With the table unmoved a sweep takes on exactly the listed garbage: unreached table files older than the cutoff |
| PdfWorker.NoCrossTalk | processor/pdf_worker.py:270-354 | In every run with deadlines, crashes and bad replies, a result returned for a request was produced from that request |
| PdfWorker.QuietBetweenCalls | processor/pdf_worker.py:265-354 | Between calls either no child is live, or the live child’s pipe is empty and it awaits a request |
| PdfWorker.StartupSurvivors | processor/pdf_worker.py:360-395 | When a call ends during startup the child survives exactly if the call is a bare start that read a ready or an undecodable reply, so among failures only the undecodable one leaves a child |
| PdfWorker.UndecodableStartupEscapes | processor/pdf_worker.py:397-407 | That failure happens: a start whose child answers with bytes that are not JSON raises and leaves the child running |
| PdfWorker.FailureRecycles | processor/pdf_worker.py:295-354 | A call that raises leaves no child behind, one that returns leaves a child |
| PdfWorker.ChildKeepsServing | processor/pdf_worker.py:178-221 | The child’s loop owes exactly one answer to the one request it was sent |
| PdfWorker.PdfProcessWorker.Process | processor/pdf_worker.py:270-354 | Whatever happens around the call, process ends as specified; it returns only the conversion of this very request and keeps the child exactly then |
| PdfWorker.PdfProcessWorker.EnsureStarted | processor/pdf_worker.py:360-395 | A live child is kept; otherwise the first reply of a new one decides, and only an undecodable one fails without terminating it |
| PdfWorker.PdfProcessWorker.Start | processor/pdf_worker.py:265-268 | An eager start leaves the controller ready for the next call, even when it fails |
| PdfWorker.OutcomeFollowsReply | processor/pdf_worker.py:296-354 | A call that got its request out times out exactly if nothing came from a live child, returns exactly a decodable result, reports exactly the error replies, and keeps the child exactly for a result |
| PdfWorker.ProcessedIsARun | processor/pdf_worker.py:270-354 | Whatever happens around it, one call is a run of the protocol that records the call’s outcome |
| PdfWorker.CallCanBeServed | processor/pdf_worker.py:178-221 | After any run, a further call can be served: a prompt child’s answer is recorded as a conversion, a document error or a processing error of that very request, and the child lives on exactly for a conversion |
| DocumentPages.CursorIsStrictlyAfter | processor/duckdb_api.py:644-692 | For each of the five sort orders, and unknown ones, the cursor clause selects exactly the rows strictly after the page tail |
| DocumentPages.FollowingVisitsEachRowOnce | processor/duckdb_api.py:785-817 | Over an unchanged relation without ties, following the cursors from the first page yields every matching row exactly once, in order, in as many pages as announced, and stops |
| DocumentPages.PageIsSlice | processor/duckdb_api.py:773-795 | The page behind a cursor is the next slice of the ordered collection |
| DocumentPages.FollowingIsCompleteIff | processor/duckdb_api.py:785-817 | For every page size, following the cursors visits every matching row exactly once if and only if no tie class straddles a page end; otherwise rows are lost |
| DocumentPages.TiedRowIsLost | processor/duckdb_api.py:637-643 | Two distinct rows that tie in all sort columns, one row to a page: in every sort order one of them is never shown |
| DocumentPages.SingleRowPagesNeedNoTies | processor/duckdb_api.py:637-643 | With single-row pages every matching row is visited exactly once if and only if no two tie in all sort columns |
| DocumentPages.ForeignCursorRefused | processor/duckdb_api.py:648-649 | A cursor is refused exactly when it was issued for another sort |
| DocumentPages.SizeMeans | processor/duckdb_api.py:618 | A page size from 1 to 100 is kept; others are moved to the nearer bound |
| DocumentPages.OrderMeans | processor/duckdb_api.py:635-643 | Along the ordered rows the column each sort is named after falls or rises; ties go to the newer row, then to the lesser identifier |
| DocumentPages.PagesAnnounced | processor/duckdb_api.py:785-817 | Without straddling ties the announced number of pages is the number of pages walked, but for an empty collection, which announces none and shows one |
| CardParser.SectionsConserveLines | processor/fetcher.py:318-387 | The sections’ lines one after the other are exactly the kept lines that are not headings, in order and once each, each under its nearest preceding heading, and no section is empty |
| CardParser.ProjectionConservesLines | processor/fetcher.py:309-388 | The projection holds every kept line, heading or prose, in order; it adds only single blanks |
| CardParser.SectionTextsAreTheirLines | processor/fetcher.py:361-387 | Stripping removes nothing: the sections are the groups of lines in order, each with its title, its lines joined and the number of their words |
| CardParser.MarkdownProseSections | processor/fetcher.py:290-389 | The loop with its fence, comment and section variables computes the projection, title, metadata and sections of the line events |
| CardParser.ReadStep | processor/fetcher.py:318-354 | Fences, comments, blanks, headings and prose are told apart in the specified order |
| CardParser.FrontMatter | processor/fetcher.py:300-307 | Front matter ends at its first closing line, and unterminated front matter is ordinary text |
| CardParser.LineShows | processor/fetcher.py:318-354 | What becomes of a line, said of the input lines alone: nothing in or of a fence or inside a comment, and else what is left of it around its first comment, told apart and cleaned |
| CardParser.PlainLineShows | processor/fetcher.py:318-354 | Where nothing looks like a fence or a comment every line is read for what it is |
| CardParser.ScanMeans | processor/fetcher.py:315-341 | The loop’s fence and comment variables say which earlier line opened a fence whose marker was not repeated, and which left a comment open that nothing closed |
| CardParser.TitleIsFirstHeading | processor/fetcher.py:356-361 | The title is the first heading, shortened |
| CardParser.BodyStartMeans | processor/fetcher.py:300-307 | There is front matter exactly when a first line of dashes is followed by a closing line |
| ScientificSections.ParagraphTextsAreTheirLines | processor/scientific.py:1033-1083 | Every returned block has its level and title, and the text of each of its paragraphs is its lines joined, up to the indentation of the first one |
| ScientificSections.BlocksConserveLines | processor/scientific.py:1056-1083 | The lines of the blocks’ paragraphs are the lines of the events, in order and once each, every one in its block, in its paragraph and under its heading; no block or paragraph is empty, and the document’s title is the first level-one heading before any text |
| ScientificSections.EventsCoverLines | processor/scientific.py:1056-1083 | Every line is the place of exactly one event, in order, or the underline of the line just before it; each event says what its line is |
| ScientificSections.TextIsConserved | processor/scientific.py:1033-1083 | The paragraphs’ lines are exactly the input lines that are neither blank, nor a heading, nor the underline of one, in order and once each, without the white space at their ends |
| ScientificSections.ParseHeadingText | processor/scientific.py:1033-1083 | The indexed loop with its paragraph and block buffers computes the blocks and title of the line events |
| ScientificSections.OpenHeading | processor/scientific.py:1064-1076 | A heading closes the block in hand; the first level-one heading before any block only names the document |
| ScientificSections.FlushParagraph | processor/scientific.py:1042-1047 | A paragraph is kept exactly when it has lines |
| ScientificSections.FrontMatterExcludedOnce | processor/scientific.py:1123-1150 | Excluding the front matter is idempotent, leaves nothing before the boundary in training and everything after it alone |
| ScientificSections.BoundaryIsStable | processor/scientific.py:1153-1159 | Relabelling the front matter does not move the body boundary |
| ScientificSections.BoundaryMeans | processor/scientific.py:1153-1159 | The first abstract is the boundary, else the first introduction, else there is none |
| ScientificSections.FrontMatterMeans | processor/scientific.py:1123-1150 | The sections before the boundary leave training with their texts and titles; the rest is left alone |
| ModelRetry.PrefetchWithRetry | processor/curate.py:1501-1530 | Whatever the service does the loop ends, after at most half as many retries as the longest remaining lifetime has seconds, rounded up; what is left are exactly the items unexpired at some check during the call. It ends with the first answer or with nothing left, and before every further try it sleeps two seconds more, up to thirty |
| ModelRetry.CutoffEmpties | processor/curate.py:1508-1515 | With a cutoff, enough consecutive failures leave no pending item |
| ModelRetry.FailuresEndIff | processor/curate.py:1477-1515 | A service that never answers lets the loop end if and only if there is a cutoff or nothing was pending |
| ModelRetry.RemainingShrinks | processor/work_cutoff.py:32-51 | Time spent comes off the longest remaining lifetime, the loop’s measure |

## Left out

- IcebergWriter.Store: the shared tables carry rows only; schema creation and evolution, namespaces and the catalog client are not part of this model.
- PdfWorker.PdfProcessWorker.Process: the subclasses of document errors, the size-limit evidence and the recorded durations are not modelled.
- CardParser.MarkdownProseSections: the link, tag and bullet rewriting of a line is one function, whose result is assumed stripped where that matters; decoding and line splitting happen before.
- ScientificSections.ParseHeadingText: the ATX pattern and the title cleaning are given functions; section roles come with the sections.
- ModelRetry.PrefetchWithRetry: the items' expiry inside the batch method is modelled here and not in the curation batch, which treats batches without expiry.
- DecisionCache.PostgresDecisionCache.Get: table creation and errors that are not connection errors are not modelled.
- CurationWorker.Curator.ProcessSilverDecisionPayloads: record-local errors after the prefetch and model-service retries are left to CurationReplay and ModelRetry; the post-training diagnostic heads are not modelled.
- CurationWorker.Curator.SourceQualityReport: the diagnostic heads of post-training candidates, and a section's confidence and class, are not part of the report.
- CurationBatch.BatchEqualsSerialIff: the stored record has no diagnostic head scores; like the report, they are computed only for a record that is not skipped.
- CurationReplay.EmissionsOfOnePayloadAgree: one worker only; with two it is false.
- The PostgreSQL near-duplicate index and its legacy band mode, and the Bloom bitmaps, which no decision reads.
- Row-level agreement between the serving index and the Iceberg table: the writer keeps the first commit, the index the least trace.
- Bootstrapping the serving index from Iceberg, its schema migration, and readiness beyond the caught-up check.
- Composite and structural quality scores, content tags, licence resolution and source policy dispatch, which are local expressions.
- Kafka, Bytewax, DuckDB, SQLite, S3 and HTTP clients, metrics, tracing and logging.
- Kubernetes controllers, Polaris bootstrap, notebooks, benchmarks, the user interface and deployment.
