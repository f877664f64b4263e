# KnowledgeForge: verified models

KnowledgeForge is a multi-tenant service that ingests documents, extracts structured fields and knowledge graphs from them, and answers questions with citations. This project models its self-contained algorithms and protocols in Dafny and proves what they keep, over every input and over every run.

`dafny verify dfyconfig.toml` checks the whole project. Each module follows one part of the service:

- `privacy_vault.dfy`: overlap filter, right-to-left masking and re-hydration.
- `graph_traversal.dfy`: storing triples, and the recursive query over them.
- `token_bucket.dfy`: the rate limiter, its capped map and the shared script.
- `extraction_store.dfy`, `extraction_protocol.dfy`, `extraction_worker.dfy`: the extraction tables, every interleaving of dispatchers and workers on them, and the dispatcher and worker as sequential code.
- `ingestion_store.dfy`, `ingestion_protocol.dfy`: documents and chunks, and every interleaving of uploads, claims, commits, failures and re-ingest requests beside extraction.
- `chunker.dfy`: sections, sliding windows and offsets.
- `citations.dfy`: printing, scanning and resolving citation markers.
- `diff_engine.dfy`: clause alignment and risk rating.
- `clustering.dfy`: greedy clustering.
- `refresh_tokens.dfy`, `circuit_breaker.dfy`, `embed_cache.dfy`, `document_versions.dfy`, `stripe_events.dfy`: token families, the two breakers, the embedding cache, the version chain and billing events.
- `common.dfy`: what several modules share.

Code that updates state in place is a class or a loop proved against a specification function; the results about runs are proved of those functions. A protocol is a state machine whose steps are the committed transactions; an execution is any list of states joined by enabled steps. Each database call or transaction is one atomic step, and clocks, digests, regular-expression matches, the provider's answers and fresh ids are parameters.

Where the code does less than a reader may expect, the model follows the code and a lemma gives the case:

- `finish_extraction_job` and the status writes of ingestion are unguarded, so a worker that outlives its ten-minute lease can reopen an ended job (`LateWorkerReopens`) or share a document's lease (`LateFailureSharesLease`). `EndedStaysEndedIff` and `OneLeaseHolder` say exactly when that happens. At most one active job per document holds regardless, because of the partial unique index in `migrations/014_structured_extraction.sql`.
- The refresh endpoint raises inside its connection block, which rolls the revocation of a replayed family back, so a replay through it revokes nothing (`ServedReplayLeavesFamilyLive`). `FamilyEndsIff` says exactly when a family ends.
- With its 120-second key expiry the shared breaker decides as the local one only for the settings of `AgreesWithExpiryIff`, which the shipped ones are not.
- In the clause differ, a moderate clause that was only added or removed leaves the rating LOW.
- The Stripe claim commits before the update, so events are applied at most once, not exactly once (`ClaimedIsLost`).
- A text that quotes one of the tokens it is masked with is not restored; `MaskRoundTripIff` says exactly when masking can be undone.
- A section of several lines is joined by spaces, so its page need not hold it, and then its chunks' offsets may point elsewhere (`TwoLinesMisplaced`); `OffsetsSpellIff` says when they do.
- The limiter judges every bucket by the limit of the caller that needs room, so "fully refilled" does not mean full once the map serves more than one limit (`OneLimitIff`, `UploadDropsBusyAsk`).
- The comment on the overlap filter promises earlier or larger spans; the code keeps the span that starts latest, which makes the number of kept spans maximal.

## Model

| member | source | states |
|---|---|---|
| PrivacyVault.MaskRoundTrip | src/knowledgeforge/security/privacy_vault.py:152-205 | unmasking what masking returned gives back the original text exactly, for any detected spans, any collision-free digest and any text that holds none of the returned tokens |
| PrivacyVault.MaskRoundTripIff | src/knowledgeforge/security/privacy_vault.py:152-205 | for spans without opening brackets, as the patterns at lines 34-41 match, the round trip holds if and only if no token of the map stands in the text where it touches no kept span but those restored before its turn |
| PrivacyVault.UnmaskRestoresIff | src/knowledgeforge/security/privacy_vault.py:193-205 | sequential replacement restores a rendering if and only if each token, when its turn comes, stands only where an entity still has it |
| PrivacyVault.QuotedTokenIsNotRestored | src/knowledgeforge/security/privacy_vault.py:152-205 | a text that quotes any of the tokens it is masked with, away from every kept span, is not restored |
| PrivacyVault.OpensOfReplace | src/knowledgeforge/security/privacy_vault.py:201-205 | replacing a token by a value without brackets takes away exactly one opening bracket per occurrence |
| PrivacyVault.OccurrencesSurvive | src/knowledgeforge/security/privacy_vault.py:201-205 | replacing one token loses no occurrence of another |
| PrivacyVault.NoMatchAcross | src/knowledgeforge/security/privacy_vault.py:201-205 | in gap + token + rest, a bracketed token matches only at the token itself: replacement never splits or straddles one |
| PrivacyVault.ReplaceRestores | src/knowledgeforge/security/privacy_vault.py:201-205 | where a token stands in no gap, one replacement restores exactly the entities that carry it and leaves the rest masked as they were |
| PrivacyVault.UnmaskAnyOrder | src/knowledgeforge/security/privacy_vault.py:193-205 | sequential replacement restores the text whatever the order of the map's items, and with extra items that do not occur |
| PrivacyVault.TokenIsBracketed | src/knowledgeforge/security/privacy_vault.py:107-116 | a surrogate token has brackets at its ends and nowhere else |
| PrivacyVault.TokensCoincide | src/knowledgeforge/security/privacy_vault.py:107-116 | two values share a token if and only if they share a type and the digest of their stripped texts |
| PrivacyVault.SortByStart | src/knowledgeforge/security/privacy_vault.py:148-150 | the sort is a permutation in descending start order |
| PrivacyVault.DetectEntities | src/knowledgeforge/security/privacy_vault.py:118-150 | every match becomes an entity with its own span and token, sorted by descending start |
| PrivacyVault.DetectedMembers | src/knowledgeforge/security/privacy_vault.py:118-150 | the detected entities are exactly those of the matches, and no span is empty |
| PrivacyVault.KeepIsDisjoint | src/knowledgeforge/security/privacy_vault.py:164-174 | the overlap filter keeps pairwise disjoint spans |
| PrivacyVault.KeepIsMaximum | src/knowledgeforge/security/privacy_vault.py:164-174 | no pairwise disjoint choice among the spans is larger than the filter's |
| PrivacyVault.KeepStabsAll | src/knowledgeforge/security/privacy_vault.py:164-174 | a span is dropped only for a kept one whose start lies inside it |
| PrivacyVault.MaskReplacesMaximum | src/knowledgeforge/security/privacy_vault.py:152-191 | of all the matches, masking replaces a largest possible disjoint set |
| PrivacyVault.SpliceStep | src/knowledgeforge/security/privacy_vault.py:176-186 | splicing one more token in to the left of those done equals rendering gaps and tokens left to right with one more entity |
| PrivacyVault.FilterOverlaps | src/knowledgeforge/security/privacy_vault.py:164-174 | the loop computes the filter |
| PrivacyVault.SpliceTokens | src/knowledgeforge/security/privacy_vault.py:176-186 | the right-to-left loop computes the left-to-right rendering and the insertion-ordered token map |
| PrivacyVault.MaskText | src/knowledgeforge/security/privacy_vault.py:152-191 | the masked text and the returned map of the whole operation |
| PrivacyVault.TokenMapFacts | src/knowledgeforge/security/privacy_vault.py:176-186 | the returned map has every kept token, each with the value of an entity that carries it |
| PrivacyVault.UnmaskText | src/knowledgeforge/security/privacy_vault.py:193-205 | the loop is sequential replacement over the items of the map |
| GraphTraversal.ReachedExactly | src/knowledgeforge/retrieval/graph_traversal.py:32-71 | from a seed, another entity is produced within depth k if and only if a walk of at most k same-tenant edges reaches it: cycle pruning loses nothing |
| GraphTraversal.ProducedIffNear | src/knowledgeforge/retrieval/graph_traversal.py:32-71 | the same for a set of seeds and an entity outside them |
| GraphTraversal.SmallestDepthIsDistance | src/knowledgeforge/retrieval/graph_traversal.py:32-71 | the smallest depth produced is the true distance from the seeds |
| GraphTraversal.UnboundedReachesAll | src/knowledgeforge/retrieval/graph_traversal.py:32-71 | without the depth test the recursion still ends and produces exactly the reachable entities |
| GraphTraversal.RoundIsShallow | src/knowledgeforge/retrieval/graph_traversal.py:32-71 | visited ids grow strictly in a finite set, so a round is empty after at most as many rounds as there are entities |
| GraphTraversal.RoundsAreWalks | src/knowledgeforge/retrieval/graph_traversal.py:32-71 | every row ends a walk of its own depth whose visited ids do not repeat past the first |
| GraphTraversal.Shorten | src/knowledgeforge/retrieval/graph_traversal.py:32-71 | cutting loops out of a walk leaves a simple path that is no longer |
| GraphTraversal.BoundBelowOne | src/knowledgeforge/retrieval/graph_traversal.py:32-71 | the anchor has no depth test, so a bound below one behaves as one |
| GraphTraversal.StoredPathsAreSimple | src/knowledgeforge/retrieval/graph_traversal.py:32-71 | over a store built by triple insertion no path repeats an entity or leaves its tenant |
| GraphTraversal.GraphStore.StoreGraphTriples | src/knowledgeforge/extraction/graph_extractor.py:127-171 | one call adds exactly its entities and the relationships between two different entities it named, and keeps ids unique and edges free of self-loops |
| GraphTraversal.GraphStore.UpsertEntities | src/knowledgeforge/extraction/graph_extractor.py:136-153 | entities are added or found by key and never renumbered |
| GraphTraversal.GraphStore.InsertRelationships | src/knowledgeforge/extraction/graph_extractor.py:155-171 | relationships are appended for pairs of named, different entities |
| GraphTraversal.NewEdgesFacts | src/knowledgeforge/extraction/graph_extractor.py:155-171 | inserted edges stay in the tenant, join ids of this call and are never loops |
| TokenBucket.IntervalBound | src/knowledgeforge/limits.py:28-43 | a bucket with capacity C and window W admits at most C + d*C/W checks in any stretch of a run that spans d seconds |
| TokenBucket.RepliesAreOneBucket | src/knowledgeforge/limits.py:28-61 | in a run of the capped map by any subjects, the replies to one subject are its own bucket's run as long as that bucket is not evicted |
| TokenBucket.SubjectBound | src/knowledgeforge/limits.py:28-61 | in any stretch of any run from the empty map one subject is admitted at most C + d*C/W times, and C times more for every eviction of its bucket |
| TokenBucket.AdmissionsArePaidFor | src/knowledgeforge/limits.py:28-43 | admissions plus what is left never exceed the starting level plus the refill |
| TokenBucket.LevelComposes | src/knowledgeforge/limits.py:35-36 | refilling in two steps is refilling once, cap included |
| TokenBucket.LazyRefinesContinuous | src/knowledgeforge/limits.py:28-43 | the bucket that stores nothing on a rejection decides as a continuously refilled one, for any interleaving of refills |
| TokenBucket.CheckKeepsCap | src/knowledgeforge/limits.py:41-61 | keys stay unique and the map never exceeds its cap |
| TokenBucket.TokenBucketLimiter.Check | src/knowledgeforge/limits.py:28-43 | the decision and the whole new map of one check, and the refused capacity |
| TokenBucket.TokenBucketLimiter.EvictIdle | src/knowledgeforge/limits.py:45-61 | the first idle bucket goes, else the oldest |
| TokenBucket.DroppingKeepsLevelsIff | src/knowledgeforge/limits.py:45-61 | whatever limits the subjects ask for, dropping a bucket changes no level if and only if it is idle under its own subject's limit |
| TokenBucket.ServedKeepsLevelsIff | src/knowledgeforge/limits.py:28-61 | one check keeps the levels of all subjects, against an unbounded map, if and only if it evicts no bucket that is busy under its own subject's limit |
| TokenBucket.LimiterRefinesUnbounded | src/knowledgeforge/limits.py:41-61 | with any limit per subject, the capped limiter gives the trace of an unbounded one as long as every victim is idle under its own limit |
| TokenBucket.BoundedRefinesUnbounded | src/knowledgeforge/limits.py:41-61 | the same from any two states with equal levels |
| TokenBucket.JudgedRightIff | src/knowledgeforge/limits.py:54-59 | a caller's verdict that a bucket is idle is right for every bucket of another subject if and only if neither the caller's capacity nor its window is smaller than that subject's |
| TokenBucket.OneLimitIff | src/knowledgeforge/limits.py:46-59 | so the verdicts of all callers are right if and only if the map serves one limit only |
| TokenBucket.BusyEvictionGrantsExtra | src/knowledgeforge/limits.py:45-61 | from any map, whatever the limits, a check that evicts a busy bucket lets that bucket's subject be admitted once too often |
| TokenBucket.FloodGrantsExtra | src/knowledgeforge/limits.py:41-61 | for every cap and whatever the limits such an eviction is reached from empty maps: a flood of new subjects |
| TokenBucket.UploadDropsBusyAsk | src/knowledgeforge/limits.py:45-59 | with the shipped limits of questions and documents, at any cap: an upload calls an ask bucket idle that has just been used, and drops it |
| TokenBucket.ExpiryIsInvisibleIff | src/knowledgeforge/limits.py:71-89 | the script's key expiry never changes a decision if and only if the window is at most 120 seconds |
| TokenBucket.ExpiryIsInvisibleFrom | src/knowledgeforge/limits.py:71-89 | with such a window the script decides as one whose keys never expire, from any equal levels |
| ExtractionStore.Database.InsertExtractionJob | src/knowledgeforge/extraction/store.py:57-135 | a job and its event in one transaction, or nothing when the document is not eligible or has an active job |
| ExtractionStore.Database.ClaimExtractionJob | src/knowledgeforge/extraction/store.py:138-153 | a queued job, or one whose ten-minute lease has passed, is claimed and counted |
| ExtractionStore.Database.FinishExtractionJob | src/knowledgeforge/extraction/store.py:156-163 | an unguarded status write, refused only by the one-active-job index |
| ExtractionStore.Database.ClaimOutboxBatch | src/knowledgeforge/extraction/store.py:208-240 | the oldest unsent, unclaimed rows up to the batch size get a lease and one more attempt |
| ExtractionStore.Database.SelectOldest | src/knowledgeforge/extraction/store.py:208-240 | what the inner SELECT may return |
| ExtractionProtocol.ReachableGuarantees | src/knowledgeforge/extraction/store.py:57-248 | in every reachable state a job has exactly one outbox row, carrying its own event and unsent or published; attempts equal claims; a succeeded job has its extraction row; a document has at most one active job |
| ExtractionProtocol.ReachableInv | src/knowledgeforge/extraction/store.py:57-248 | the invariants behind that hold along every execution, workers late or not |
| ExtractionProtocol.StepKeepsInv | src/knowledgeforge/extraction/pipeline.py:185-287 | every step of dispatchers and workers keeps them |
| ExtractionProtocol.OutboxStep | src/knowledgeforge/extraction/store.py:208-248 | one outbox row per job, with its own event, unsent or published |
| ExtractionProtocol.DispatchStep | src/knowledgeforge/extraction/store.py:208-240 | no two dispatchers hold unexpired claims on one row |
| ExtractionProtocol.EventsStep | src/knowledgeforge/extraction/outbox_dispatcher.py:22-37 | published events, claimed rows and running workers all name a stored job as inserted |
| ExtractionProtocol.LogStep | src/knowledgeforge/extraction/store.py:138-163 | attempt_count counts the successful claims, and claims with no finish between are spaced |
| ExtractionProtocol.ClaimsAreSpaced | src/knowledgeforge/extraction/store.py:138-153 | two claims of a job with no finish between them are more than ten minutes apart |
| ExtractionProtocol.ActiveStep | src/knowledgeforge/extraction/store.py:57-163 | at most one active job per document, lease or no lease |
| ExtractionProtocol.StoredStep | src/knowledgeforge/extraction/pipeline.py:226-287 | a succeeded job has a stored extraction of its tenant, content, version and model |
| ExtractionProtocol.RowsAreLastStored | src/knowledgeforge/extraction/pipeline.py:185-287 | between any two states of an execution the extraction row under a key is the one stored last in between, or unchanged if no run stored one: failed, reset, skipped and crashed runs leave rows as they were |
| ExtractionProtocol.TerminalStaysTerminal | src/knowledgeforge/extraction/store.py:156-163 | if workers act within their lease, a job that has ended stays exactly as it ended |
| ExtractionProtocol.TimelyLeases | src/knowledgeforge/extraction/store.py:138-163 | under that premise live workers hold their jobs, no two the same one |
| ExtractionProtocol.EndedStaysEndedIff | src/knowledgeforge/extraction/store.py:156-163 | along any execution, late workers or not, an ended job stays ended if and only if no worker requeues it while its document has no other active job |
| ExtractionProtocol.ReopenedIff | src/knowledgeforge/extraction/store.py:156-163 | one step makes an ended job active again if and only if it is such a requeue, which no worker with a live lease makes |
| ExtractionProtocol.LateWorkerReopens | src/knowledgeforge/extraction/store.py:156-163 | such an execution exists: one worker stores its result, then one that outlived its lease requeues the job |
| ExtractionWorker.DispatchOnce | src/knowledgeforge/extraction/outbox_dispatcher.py:22-37 | each picked row is published once, in order, and marked at its own time; a publish that raises leaves the rows after it claimed and unsent |
| ExtractionWorker.MarkAllFacts | src/knowledgeforge/extraction/outbox_dispatcher.py:30-36 | marking row by row marks exactly the rows sent, each at its time |
| ExtractionWorker.ExtractFields | src/knowledgeforge/extraction/pipeline.py:150-182 | at most two attempts, the second with the stricter prompt and only after invalid output; a provider error ends it, and two invalid outputs give the prefixed error of both |
| ExtractionWorker.FinishWork | src/knowledgeforge/extraction/pipeline.py:226-287 | what each verdict of a run writes, with the detail cut to 500 characters, and which errors are raised again |
| ExtractionWorker.ProcessExtractionJob | src/knowledgeforge/extraction/pipeline.py:185-287 | a run that nothing interleaves with, whatever time it takes, makes exactly the writes of the protocol's steps, or none for a duplicate delivery |
| ExtractionWorker.LastStepWrites | src/knowledgeforge/extraction/pipeline.py:226-287 | the last step of a run is enabled and writes what the code writes |
| IngestionStore.DocumentStore.ClaimDocument | src/knowledgeforge/ingestion/store.py:491-511 | a pending document, or one processing for over ten minutes, is claimed |
| IngestionStore.DocumentStore.QueueReingestion | src/knowledgeforge/ingestion/store.py:475-488 | only ready or failed documents go back to pending |
| IngestionStore.DocumentStore.StoreChunkRows | src/knowledgeforge/ingestion/store.py:135-170 | chunks are added and the document set ready, or the length mismatch is raised and nothing changes |
| IngestionStore.DocumentStore.CommitIngestion | src/knowledgeforge/worker/pipeline.py:115-148 | delete, insert, ready and extraction job commit together, or nothing does |
| IngestionProtocol.ReadyIsOneOutput | src/knowledgeforge/worker/pipeline.py:87-148 | in every reachable state a ready document has at least one chunk, and its chunks are exactly the chunker's output for its last complete run |
| IngestionProtocol.ChunkableProduces | src/knowledgeforge/worker/pipeline.py:87-89 | pages that each hold a word make at least one chunk |
| Chunker.KeptPagesHaveWords | src/knowledgeforge/ingestion/extract.py:6-14 | pages that are stripped and kept when text is left each hold a word |
| Chunker.NoWordsIff | src/knowledgeforge/ingestion/chunk.py:67-72 | a text has no token if and only if it is all whitespace |
| IngestionProtocol.ReadyComesWithJob | src/knowledgeforge/worker/pipeline.py:115-148 | a document becomes ready on the asynchronous path only in a commit, and only together with an active extraction job |
| IngestionProtocol.ReachableInv | src/knowledgeforge/worker/processor.py:18-33 | documents, chunks and the extraction tables keep their invariants over every interleaving |
| IngestionProtocol.ChunksStep | src/knowledgeforge/worker/pipeline.py:115-148 | each step leaves a document's chunks as one run's whole output |
| IngestionProtocol.DocsStep | src/knowledgeforge/ingestion/store.py:475-519 | documents keep their tenant, content and original, and workers hold documents of their tenant |
| IngestionProtocol.ExtractionStep | src/knowledgeforge/worker/pipeline.py:138-148 | every ingestion step keeps the extraction invariants |
| IngestionProtocol.OneLeaseHolder | src/knowledgeforge/ingestion/store.py:491-519 | along any execution at most one worker holds an unexpired lease on each document, and its row says so, in every state up to n if and only if no step before n writes without a live lease on a document that some worker holds |
| IngestionProtocol.LeaseStep | src/knowledgeforge/worker/entrypoint.py:81-108 | one step keeps that if and only if it is no such write, the failure write of a delivery that never had a lease included |
| IngestionProtocol.LateWriteSharesLease | src/knowledgeforge/ingestion/store.py:475-519 | after any such write a re-ingest request and one more delivery give the document two live holders |
| IngestionProtocol.LateFailureSharesLease | src/knowledgeforge/ingestion/store.py:514-519 | such a write is reached: from the empty state a late failure report lets two workers hold unexpired leases |
| Chunker.WindowCount | src/knowledgeforge/ingestion/chunk.py:79-98 | n tokens make 0, 1 or 1 + ceil((n - size) / (size - overlap)) windows |
| Chunker.WindowShape | src/knowledgeforge/ingestion/chunk.py:79-98 | windows start at the first token, end at the last, are full but for the last, and reach back over exactly the overlap |
| Chunker.UnoverlapRestores | src/knowledgeforge/ingestion/chunk.py:79-98 | dropping each later window's shared prefix and concatenating restores the sequence |
| Chunker.SectionChunksRestore | src/knowledgeforge/ingestion/chunk.py:67-98 | the chunks' texts, re-tokenised, share exactly the overlap and restore the section's words |
| Chunker.SectionChunkCount | src/knowledgeforge/ingestion/chunk.py:67-98 | how many chunks a section has, and that each carries its page, title and boxes |
| Chunker.OffsetsSpellIff | src/knowledgeforge/ingestion/chunk.py:67-95 | for the sections of any page: a chunk's offsets lie in the page; if the page has the section's shape between them, re-tokenising it there gives the chunk's words; and only then, when the section has no run of whitespace |
| Chunker.SameWordsIff | src/knowledgeforge/ingestion/chunk.py:67-70 | a text of single-spaced words and another of its length have the same words if and only if they agree at every character but for which whitespace it is |
| Chunker.OffsetsSpellChunks | src/knowledgeforge/ingestion/chunk.py:67-98 | so the offsets are right wherever the section text is found in the page, and always without sections |
| Chunker.OneLineIsFound | src/knowledgeforge/ingestion/chunk.py:49-77 | a section of one line is always found in its page |
| Chunker.TwoLinesMisplaced | src/knowledgeforge/ingestion/chunk.py:73-84 | a heading over two lines: the joined section text is not found and the offsets point at the heading |
| Chunker.PagesEmptyIff | src/knowledgeforge/ingestion/chunk.py:64-72 | without sections nothing is produced if and only if no page has a word |
| Chunker.WindowWords | src/knowledgeforge/ingestion/chunk.py:79-84 | re-tokenising the text from the first to the last token of a run gives their words |
| Chunker.TokensSpellWords | src/knowledgeforge/ingestion/chunk.py:67-70 | token spans are in order, inside the text and spell its words |
| Chunker.SectionsConserveLines | src/knowledgeforge/ingestion/chunk.py:49-63 | the non-heading lines are conserved in order under the nearest preceding titled heading, and no section is empty |
| Chunker.SectionsConserveWords | src/knowledgeforge/ingestion/chunk.py:49-70 | so are their words, through the joining of lines into section texts |
| Chunker.SplitSections | src/knowledgeforge/ingestion/chunk.py:49-63 | the section loop computes those sections |
| Chunker.SlideWindows | src/knowledgeforge/ingestion/chunk.py:79-98 | the window loop produces the chunks of the windows |
| Chunker.ChunkPages | src/knowledgeforge/ingestion/chunk.py:22-99 | all pages in order, and the two refused configurations |
| Chunker.ChunksEmptyIff | src/knowledgeforge/ingestion/chunk.py:40-99 | nothing is produced if and only if no section of the page has a word |
| Citations.LocalAnswerIsParsed | src/knowledgeforge/generation/local.py:26-30 | parsing a printed answer gives the question's own citations and the printed ones, pages before extracted fields, each once, for any question |
| Citations.PlainQuestionRoundTrip | src/knowledgeforge/generation/local.py:26-30 | for a question without an opening bracket: exactly the chunk pairs, then the extracted-field pairs, in first-occurrence order |
| Citations.LocalAnswerCitesRetrieved | src/knowledgeforge/api.py:3369-3428 | numbering, printing, parsing and resolving in turn give exactly the retrieved documents and pages, then the documents with fields |
| Citations.MarkersAreRead | src/knowledgeforge/generation/generate.py:33-47 | scanning printed markers gives back the citations of the pattern's kind, in order |
| Citations.MarkerIsRead | src/knowledgeforge/generation/generate.py:9-10 | a printed marker is matched whole, by the pattern of its own kind only |
| Citations.NoMatchReachesOver | src/knowledgeforge/generation/generate.py:9-10 | no match starting before the markers reaches into them, whatever the text before |
| Citations.ParseCitations | src/knowledgeforge/generation/generate.py:33-47 | the two loops give the matches of both patterns with duplicates removed |
| Citations.NumbersAreDense | src/knowledgeforge/api.py:3369-3376 | document numbering is a bijection onto 1..k in first-retrieval order |
| Citations.NumberDocuments | src/knowledgeforge/api.py:3369-3376 | the loop computes the numbering and every chunk's label number |
| Citations.CitationsFor | src/knowledgeforge/api.py:3401-3428 | known numbers are resolved through the inverse of the numbering, others skipped |
| Citations.ResolvedAreRetrieved | src/knowledgeforge/api.py:3401-3428 | for any answer text every resolved citation names a retrieved document |
| DiffEngine.AlignmentIsGreedyMatching | src/knowledgeforge/extraction/diff_engine.py:111-132 | the alignment never reuses a target, and each choice is the most similar target still free, the first of equals, at 0.25 or above, or none is |
| DiffEngine.CountsAddUp | src/knowledgeforge/extraction/diff_engine.py:103-226 | unmodified + modified + removed is the number of source clauses, matched + added that of target clauses |
| DiffEngine.RatingReflectsClauses | src/knowledgeforge/extraction/diff_engine.py:109-210 | the rating is HIGH exactly when some clause is CRITICAL, and MODERATE exactly when none is and some clause is modified |
| DiffEngine.SelfDiffIsIdentity | src/knowledgeforge/extraction/diff_engine.py:96-226 | a document diffed with itself is matched clause by clause with itself, all unmodified, rated LOW |
| DiffEngine.SelfAlignment | src/knowledgeforge/extraction/diff_engine.py:111-132 | the alignment of a document with itself is the identity, duplicates included |
| DiffEngine.TokenSimilarityBounds | src/knowledgeforge/extraction/diff_engine.py:73-80 | similarity is symmetric, within 0 and 1, and 1 exactly for equal token sets |
| DiffEngine.SimilarityBounds | src/knowledgeforge/extraction/diff_engine.py:118-125 | with the name bonus it stays within 0 and 1, and is 1 of a clause with itself |
| DiffEngine.FindBest | src/knowledgeforge/extraction/diff_engine.py:112-128 | the inner loop finds the first free target of highest positive similarity |
| DiffEngine.AlignSources | src/knowledgeforge/extraction/diff_engine.py:111-184 | the outer loop builds the alignment, its results and the running counters together |
| DiffEngine.ComputeClauseDiff | src/knowledgeforge/extraction/diff_engine.py:96-226 | the whole result: clauses, counters and rating |
| RefreshTokens.ReachableInv | src/knowledgeforge/security/refresh.py:37-113 | over any issue, rotate and logout calls every family is one linear chain of rotations by one user with at most its last token unrevoked |
| RefreshTokens.StepKeepsInv | src/knowledgeforge/security/refresh.py:37-113 | each call keeps that |
| RefreshTokens.FamilyEndsIff | src/knowledgeforge/security/refresh.py:74-113 | presenting a token ends its family for good, over all later calls, if and only if it is a logout, or a replay whose caller commits, or the family had ended before |
| RefreshTokens.HitFamilyStaysDead | src/knowledgeforge/security/refresh.py:74-113 | over any run, once a committed replay or a logout hits a family no token of it, old or new, is ever unrevoked again |
| RefreshTokens.ServedReplayLeavesFamilyLive | src/knowledgeforge/api.py:1044-1050 | so after a replay through the endpoint the family's live token is still accepted: a trace for any three tokens |
| RefreshTokens.TokenTable.ServeRefresh | src/knowledgeforge/api.py:1044-1050 | the endpoint rotates, and rolls a refused rotation back |
| RefreshTokens.AcceptedOnce | src/knowledgeforge/security/refresh.py:53-97 | a token is accepted at most once: after any calls, presenting it again is a replay |
| RefreshTokens.ReplayLocksOut | src/knowledgeforge/security/refresh.py:53-97 | for a caller that commits after a replay: once a token is presented twice no token of its family is ever accepted |
| RefreshTokens.TokenTable.CreateRefreshToken | src/knowledgeforge/security/refresh.py:37-50 | a live row in the given or new family, refused by a taken digest |
| RefreshTokens.TokenTable.RotateRefreshToken | src/knowledgeforge/security/refresh.py:53-97 | the reply and the table after each of the five outcomes |
| RefreshTokens.TokenTable.RevokeRefreshFamily | src/knowledgeforge/security/refresh.py:100-113 | the family is revoked, and the answer is true exactly for a known token |
| CircuitBreakers.SameDecisions | src/knowledgeforge/reliability.py:60-147 | the local breaker and the script answer every trace with non-decreasing time alike |
| CircuitBreakers.LocalMeets | src/knowledgeforge/reliability.py:60-98 | the local breaker answers as the history says, and keeps the history's opening unless its recovery time is over |
| CircuitBreakers.ScriptMeets | src/knowledgeforge/reliability.py:108-147 | so does the script, whose stored opening is the history's |
| CircuitBreakers.RefusedIff | src/knowledgeforge/reliability.py:60-87 | a check is refused if and only if the failures since the last success reach the threshold and the last is within the recovery time |
| CircuitBreakers.AgreesWithExpiryIff | src/knowledgeforge/reliability.py:108-147 | with expiring keys the two breakers agree on every trace if and only if the recovery time is not positive, or the threshold is at most one and the recovery time at most 120 seconds |
| CircuitBreakers.LapsingTraceDiffers | src/knowledgeforge/reliability.py:108-147 | with a threshold above one and any recovery time, the shipped settings included, a given trace tells them apart |
| CircuitBreakers.SameDecisionsWithExpiry | src/knowledgeforge/reliability.py:108-147 | whatever the settings, they agree on every trace that keeps the key alive |
| CircuitBreakers.CircuitBreaker.EnsureAvailable | src/knowledgeforge/reliability.py:60-74 | refusal within the recovery time, clearing after it |
| CircuitBreakers.CircuitBreaker.RecordFailure | src/knowledgeforge/reliability.py:82-87 | the failure is counted and opens the circuit at the threshold |
| CircuitBreakers.CircuitBreaker.Call | src/knowledgeforge/reliability.py:89-98 | a call that is refused changes no more than the check does, else its result is recorded |
| Clustering.ClustersAreSound | src/knowledgeforge/clustering/engine.py:102-122 | clusters are pairwise disjoint, at least the minimum size, and every member is similar to its leader |
| Clustering.LeftoversAreDissimilar | src/knowledgeforge/clustering/engine.py:102-122 | with minimum size two, any two documents left over are below the threshold |
| Clustering.LeftoverIsLonely | src/knowledgeforge/clustering/engine.py:102-122 | for any minimum size, a document left over had too few free similar documents after it at its turn |
| Clustering.GenerateClusters | src/knowledgeforge/clustering/engine.py:97-122 | the nested loops return those clusters, by document id |
| Clustering.CollectCluster | src/knowledgeforge/clustering/engine.py:108-118 | the inner loop collects the leader and its free similar followers in order |
| Clustering.CosineCommutes | src/knowledgeforge/clustering/engine.py:39-45 | similarity is symmetric, vectors of unequal length and zero vectors included |
| EmbedCache.CachedIsDirect | src/knowledgeforge/ingestion/embed_cache.py:23-66 | with a correct cache and a faithful provider: position by position the vectors of embedding directly, tokens for the misses alone, and a cache that stays correct and holds every text |
| EmbedCache.PaidOnceIff | src/knowledgeforge/ingestion/embed_cache.py:38-59 | a call pays for every position of an uncached text, and so for each such text once if and only if no text that costs anything is repeated among them |
| EmbedCache.SecondRunIsFree | src/knowledgeforge/ingestion/embed_cache.py:23-66 | embedding the same texts again costs nothing, serves the same vectors and needs no provider |
| EmbedCache.KeysDiffer | src/knowledgeforge/ingestion/embed_cache.py:33-33 | model names without a colon and texts are determined by the key |
| EmbedCache.EmbeddingCache.EmbedTextsCached | src/knowledgeforge/ingestion/embed_cache.py:23-66 | the answer and the cache of every path, provider errors and missing vectors included |
| EmbedCache.BatchesAreOneCall | src/knowledgeforge/ingestion/embed.py:41-58 | for any batch size the batches give the vectors and tokens of one request |
| EmbedCache.EmbedTexts | src/knowledgeforge/ingestion/embed.py:33-58 | the batch loop: all vectors and tokens in order, or the first error |
| EmbedCache.FillMissing | src/knowledgeforge/ingestion/embed_cache.py:62-63 | the last vector fetched for a digest is the one served |
| DocumentVersions.VersionsAreAChain | src/knowledgeforge/api.py:1740-1757 | after any uploads no tenant has a content twice, and the documents of each tenant and filename have versions 1..k, each superseded by the next and the last by none |
| DocumentVersions.UploadKeepsInv | src/knowledgeforge/api.py:1657-1677 | each upload keeps that |
| DocumentVersions.SameContentSameDocument | src/knowledgeforge/ingestion/dedup.py:16-30 | content once uploaded is answered with the same document ever after, under any filename |
| DocumentVersions.LatestIsLast | src/knowledgeforge/ingestion/store.py:535-548 | the lookup by filename finds the end of the chain |
| DocumentVersions.DocumentTable.IngestUpload | src/knowledgeforge/api.py:1740-1757 | lookups, decision, insert and link in sequence give the answer and the table |
| StripeEvents.ReplaysChangeNothing | src/knowledgeforge/billing/service.py:31-211 | any trace with replays leaves all tables as its first claimable deliveries alone do, whatever the replays carry |
| StripeEvents.FirstOccurrencesDecide | src/knowledgeforge/billing/service.py:31-211 | when deliveries of one id carry one event, the first occurrence of each event id, in order, decides alone, from any tables |
| StripeEvents.EachEffectOnce | src/knowledgeforge/billing/service.py:87-198 | the tenants table is as if each of those deliveries had made its update once |
| StripeEvents.ClaimsIff | src/knowledgeforge/billing/service.py:12-45 | a delivery claims its event if and only if it is claimable and not done; otherwise it changes nothing |
| StripeEvents.FirstsAreDistinct | src/knowledgeforge/billing/service.py:31-45 | no event is among the first deliveries twice |
| StripeEvents.ClaimedIsLost | src/knowledgeforge/billing/service.py:43-45 | a worker that dies after its committed claim loses the event: no redelivery reaches the tenants |
| StripeEvents.TiersStayAllowed | src/knowledgeforge/billing/service.py:111-198 | whatever events arrive, every tenant keeps a tier that exists, and no tenant is added or removed |
| StripeEvents.OnlyConcernedChange | src/knowledgeforge/billing/service.py:111-198 | an event changes no tenant but the resolved one or those with its customer or subscription, and erases no customer id or period end |
| StripeEvents.DeletionUnlinks | src/knowledgeforge/billing/service.py:161-174 | after a cancellation no tenant has the subscription, and its tenants are free and canceled |
| StripeEvents.BillingDatabase.ClaimWebhookEvent | src/knowledgeforge/billing/service.py:12-45 | insert, mark an unprocessed row, or fail to claim |
| StripeEvents.BillingDatabase.ProcessStripeEvent | src/knowledgeforge/billing/service.py:87-211 | the reply and both tables after any event type |

## Left out

- Regular expressions of the detectors, the clause tokeniser and the keyword search: matches, token sets and hits are parameters. The citation patterns are modelled as scanners over ASCII digits; `\d` also accepts other decimal digits.
- Cryptography: digests are parameters, assumed collision-free where a result needs it. Encryption of stored surrogates and the database path of `unmask_text` are not modelled.
- Floating point: token counts, similarities and times are reals, and the square root is a parameter.
- ORDER BY and LIMIT of the graph query, and the extraction of triples from text.
- The Redis wrappers that fall back to a local limiter or breaker when Redis fails, including the breaker catching its own refusal (`reliability.py:171-175`).
- The `skipped` writes at `extraction/pipeline.py:243-261` run on a connection whose block has ended; the model has the intended write.
- Budget reservation, telemetry, audit logs, cache invalidation, retries with backoff, highlights in citations and the `cluster` rows written to the database.
- ExtractionProtocol.TerminalStaysTerminal: that an ended job's row never changes at all is shown for workers that act within their lease; for others EndedStaysEndedIff says when its status stays terminal.
- IngestionProtocol.ReadyIsOneOutput: the extractors are libraries; a commit is taken to hand the chunker pages that each hold a word, as `ingestion/extract*.py` keep only stripped, non-empty text, and a run without pages to raise.
- TokenBucket.LimiterRefinesUnbounded: a subject asks for one limit throughout a run; and checks are processed in the order of their clock readings, while `limits.py:31` reads the clock before it takes the lock.
- TokenBucket.SubjectBound: the same two premises.
- DiffEngine.ComputeClauseDiff: the summary sentences of clauses and result are not modelled.
- Chunker.OffsetsSpellIff: where a section has a run of whitespace only the if half is stated, since then a page stretch of another shape can have the same words.
- RefreshTokens.HitFamilyStaysDead: of replays it covers those whose caller commits; users and tenants of the joined row are not modelled.
- DocumentVersions.VersionsAreAChain: uploads are serial and documents are not deleted; a race between two uploads is stopped by the unique index on tenant and content only.
- StripeEvents.ReplaysChangeNothing: a lookup that returns one of several rows returns the same one for the same rows; metadata is an object, and a JSON null status counts as absent.
- EmbedCache.CachedIsDirect: the average token count stored with a cache row is not modelled.
- Document deletion, approval, conversations, digests, collections, SSO, webhooks, evaluation, HTTP routing and pages: thin SQL or single-branch logic that would add only easy members.
