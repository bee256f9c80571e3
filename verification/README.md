# Verified model of the hybrid RAG platform's stateful core

This Dafny project models the parts of the platform in which a small algorithm
carries a hard promise, and proves the promise. Each module stands beside the
source file it models.

| file | models |
|---|---|
| RateWindow.dfy, MemorySlots.dfy, AdmissionLimits.dfy | in-memory admission: a sliding window on pruned deques, and counted stream slots |
| StreamSlots.dfy | the Redis stream-slot protocol, any number of clients interleaving between single commands |
| CircuitBreaker.dfy | the three-state breaker and the guard that drives it |
| QueryCache.dfy | the version-numbered answer cache and the events that invalidate it |
| PipelineGraph.dfy, RagPipeline.dfy, RagRuns.dfy, RagFields.dfy, RagEnds.dfy, RagCalls.dfy, RagOutages.dfy | the retrieval graph, its streaming runner, its nodes under every outcome of every client, and what whole runs ask and end with |
| Reranker.dfy | reranking with its fallback |
| MultiTopK.dfy, BestScores.dfy, SearchStrategies.dfy, RankFusion.dfy | retrieval across collections: merging parallel searches, and what they find against one search, for any store and for rank fusion |
| CatalogPages.dfy, CatalogCrawl.dfy | access-filtered listing, and following its cursors |
| FederatedMerge.dfy | merging the research results of regional peers |
| ChunkSplit.dfy | splitting block text into overlapping pieces |
| StoreData.dfy, IngestWrites.dfy, IngestWriter.dfy, IngestRuns.dfy, DedupKeys.dfy | the ingest write path across four stores, with crashes and retries, and which chunks count as duplicates |
| CatalogSpec.dfy, CatalogStore.dfy, PruneSettings.dfy, VersionPrune.dfy, Quota.dfy | the document catalog, retention and quotas |
| PythonLists.dfy, Sorting.dfy, MapWrites.dfy, MapSums.dfy, SetSizes.dfy, Quotients.dfy, KeyNames.dfy, Options.dfy | list slices, Python's stable sort, dictionary updates, joined names, and sums, sizes and quotients |

`dafny verify dfyconfig.toml` checks everything.

## How the pieces fit

Code that updates state in place is a class or a method with a loop, and its
contract ties the new state to a specification function or to a ghost history;
the promises are then proved of that specification over all inputs and all
runs. The reference is kept independent of the code: the limiter is compared with
a history that forgets nothing, the breaker with the list of all outcomes, the
cache with a map that really deletes, the retrieval runner with the graph,
retention with a count of newer versions, and batched writes with a description
that knows no batches.

Time is a nondecreasing `real` passed in. Scores are reals too, so sums
and comparisons do not round. The outcomes of client calls, the order in which
parallel searches end, and the moment a process dies are inputs, so a
statement about every run is a statement about every input. Python's negative
slice bounds, its truncating `int()` and its stable reversed sort are written
out.

## What the proofs found

Where a promise does not hold of every input, the project keeps the code's
behaviour, shows it by an input or for all the inputs of a kind, and proves the
exact condition.

- The retry hint is rounded down, so after a tenant's refusal waiting for it helps only when less than a second was left (RetryHintSuffices, TenantRefusalMisleads); after a user's refusal it is taken from the tenant's oldest admission and helps only when the user's own has less time left (UserRefusalRetry, UserRefusalMisleads). RetryAdmittedIff covers both at once.
- A tenant name with a colon lets rate buckets and stream counters of different tenants coincide, a tenant's counter with another tenant's user's among them (UserBucketsCollide, UserSlotsCollide, UserCountersCollide, TenantCounterCollides); the counters say how many slots are held exactly for names that do not (CountsSlotsIff).
- Cached requests are told apart by a joined string. A bar in a name lets one tenant read another's answer (SeparatorConfusesTenants); a comma in the name of an additional collection lets a search of two collections read the answer to a search of one (CommaConfusesCollections). A lookup is right on every run exactly when no two requests that differ join alike (RefinesIffJoinedApart); names without separators suffice (NeverStale).
- Increments in transit count: a stream can be refused although a slot is free (TransitRefusesEarly), exactly when as many clients are in transit as slots are free (RefusedEarlyIff). The limit itself is never passed.
- After the timeout the breaker lets every request through, not one probe, until an outcome is recorded (HalfOpenRefusesNobody, for every history). The class comment speaks of a half-open probe; the model follows the code.
- An answer is cached under the request as rewritten by the supervisor but looked up under the original one (CachedUnderSupervisedKey), so a rewritten one is not found again (FoundAgainIff, RewrittenIsNotFoundAgain); and a bump of a collection that was searched as an additional one leaves the answer in place (BumpClearsOnlyPrimary).
- The abstention caused by an open embed breaker is overturned when the state already holds chunks that some reranker would accept (EmbedderAbstentionSurvivesIff).
- The fallback order scores a missing score as 0, the stub reranker as 0.85 (FallbackMatchesStubIff).
- A negative retention count makes repeated prunes eat into a document and sets the two stores apart (SecondPruneIdleIff, StoresAgreeIff).
- Dedup keys join tenant and hash with a colon, so a tenant whose name, with its colon, starts another's can hide that one's chunks from the stores (ColonHidesChunk); two tenants never do this to one another exactly when no key is ever stored or neither name starts the other so (IsolatedIff).
- Graph nodes of a surviving version go when the same document and version id is pruned in another collection (CollateralNodes, KeptVersionLosesNode), and points of a pruned version stay when their chunk named no version or lies elsewhere (PointStaysIff, PrunedPointStaysIff), nodes when it named no version (NodeStaysIff, PrunedNodeStaysIff, NamelessVersionStays).
- Dedup keys survive a prune, so pruned content is recorded but not written again, whatever the batch (PrunedContentStaysOut), and a uuid used again for other content breaks what an earlier key stands for (AlwaysHeldIff).
- A negative batch size writes nothing to its store while the dedup keys are stored (NegativeBatchStoresKeyAlone); KeysBackedIff says for which settings keys are always backed.
- A batch is written to the collection of its first chunk's tenant (BatchFoundAtHomeIff, SecondTenantMissesOut).
- Two queued ingests can each pass the quota check and pass the quota together (QueuedWritesOvershoot); QueueKeepsQuotaIff says when any number of them cannot, and OvershootWithinPeak bounds the excess when checks and records interleave.
- A listing over several collections sorts by collection but pages by document id, so it can skip rows (CursorSkipsCollection; CrawlCompleteIff, and CrawlCompleteAtIff for one page size), and a limit of zero raises (PageRaisesIff).
- Rank fusion scores a chunk by its place among what passes the filter, so parallel searches of several collections score higher than one search over all (ParallelNeverScoresLower) and agree with it exactly when at most one of the collections holds a chunk (FusedStrategiesAlwaysAgreeIff, TwoChunksSuffice).
- Searches that return the same uuid for different chunks leave the answer to the order of completion (OrderIrrelevantIff); the stub store's do (StubCitesLast).
- A splitter setting with a negative overlap or without room loses characters (KeepsEveryCharacterIff).

## Model

| member | source | states |
|---|---|---|
| RateWindow.Limiter.Prune | query/app/rate_limit.py:45-50 | popping expired events off the left leaves exactly the admissions still in the window, counted over the full history that is never shortened |
| RateWindow.Limiter.CheckBuckets | query/app/rate_limit.py:58-78 | for any two bucket keys: the verdict, the new histories, the retry hint and the remaining allowances are those of the full admission history |
| RateWindow.Limiter.CheckQuery | query/app/rate_limit.py:52-78 | a query is refused exactly when the tenant or the user already has its limit of admissions in the last 60 seconds of the full history; a refusal changes no history |
| RateWindow.PrunedIsWindow | query/app/rate_limit.py:45-50 | in a time-ordered history, a pruned bucket with no expired head holds exactly the admissions in the window, and its head is the oldest of them |
| RateWindow.AdmissionIsRecorded | query/app/rate_limit.py:63-71 | an admitted query is one more admission, at the time it was decided, of its tenant and its user and of nobody else; a refused one is none |
| RateWindow.HintIsTimeLeft | query/app/rate_limit.py:59-61 | the hint is one second for an empty window, else the whole seconds, at least one, until the tenant's oldest admission is 60 old |
| RateWindow.RatesAreBounded | query/app/rate_limit.py:45-78 | over every run with a clock that does not go back, every closed 60-second interval holds at most the tenant limit of a tenant's admissions and the user limit of a user's |
| RateWindow.RefusalsLeaveNoTrace | query/app/rate_limit.py:58-71 | leaving out the refused queries of a run gives the same histories and the same admissions |
| RateWindow.RetryHintRange | query/app/rate_limit.py:59-61 | the retry hint of a refusal lies between 1 and 60 |
| RateWindow.RetryAdmittedIff | query/app/rate_limit.py:52-78 | with nothing in between, a refused caller who comes back at the hinted time is admitted if and only if in each bucket the admission whose expiry brings the count under its limit is then more than 60 seconds old |
| RateWindow.RetryHintSuffices | query/app/rate_limit.py:58-61 | after a refusal by the tenant's limit alone the retry is admitted if and only if less than a second was left: the hint is rounded down |
| RateWindow.TenantRefusalMisleads | query/app/rate_limit.py:58-61 | a concrete caller refused by the tenant's limit is refused again at the hinted time, half a second early |
| RateWindow.UserRefusalRetry | query/app/rate_limit.py:58-61 | after a refusal by the user's limit alone the retry is admitted if and only if the user's oldest admission has less time left than the hint, which is taken from the tenant's oldest |
| RateWindow.UserRefusalMisleads | query/app/rate_limit.py:58-61 | a concrete refused user is told to come back in a second and is refused again then |
| RateWindow.UserBucketsCollide | query/app/rate_limit.py:54-55 | two tenants can share a user bucket if and only if one name with its colon is a prefix of the other |
| RateWindow.UserBucketsSeparate | query/app/rate_limit.py:55 | tenants whose names hold no colon never share a user bucket |
| MemorySlots.InMemorySlots.AcquireStream | query/app/rate_limit.py:80-91 | a stream is granted exactly when tenant and user both hold fewer grants than their limits; a refusal leaves the grants as they were |
| MemorySlots.InMemorySlots.ReleaseStream | query/app/rate_limit.py:93-98 | the counters of this tenant and this user, and no other, go down by one and stop at zero; releasing a granted stream keeps every counter equal to the grants still held |
| MemorySlots.GrantCounts | query/app/rate_limit.py:90-91 | two bumps keep every counter equal to the number of grants held on it |
| MemorySlots.ReleaseCounts | query/app/rate_limit.py:97-98 | two drops keep every counter equal to the number of grants still held on it |
| MemorySlots.KeysEqualIff | query/app/rate_limit.py:83-84 | tenant counters are the same only for the same tenant; two users' when the joined names are the same |
| MemorySlots.UserSlotsCollide | query/app/rate_limit.py:84 | users of two tenants can share a counter if and only if one tenant's name with its colon is a prefix of the other's |
| MemorySlots.TenantsCountedApart | query/app/rate_limit.py:83 | a tenant's counter counts that tenant's grants and no other's, whatever the names |
| MemorySlots.UsersCountedApart | query/app/rate_limit.py:84 | a user's counter counts that user's grants and no other's, where no tenant's name holds a colon |
| StreamSlots.StepMoves | query/app/rate_limit.py:135-153 | each single command moves one counter by one, and exactly one increment of its client becomes or stops being outstanding |
| StreamSlots.StepKeepsLedger | query/app/rate_limit.py:135-153 | the inductive invariant: outstanding increments on a key can be queued so that the value a client saw bounds its place |
| StreamSlots.CountersAreExact | query/app/rate_limit.py:135-153 | over every interleaving of any number of clients each counter equals the increments outstanding on it, so none is negative |
| StreamSlots.SlotsAreBounded | query/app/rate_limit.py:135-153 | over every interleaving the slot holders never pass the tenant's limit nor a user's limit |
| StreamSlots.RefusedIff | query/app/rate_limit.py:138-142 | whatever others do before and between its two INCR commands, an acquire is refused if and only if the first finds the tenant's limit of increments outstanding or the second finds the user's |
| StreamSlots.CountersCoincideIff | query/app/rate_limit.py:136-137 | which counters of two clients are the same: a tenant's and a user's when the tenant is named like tenant, colon, principal; two users' when those joined names are the same |
| StreamSlots.UserCountersCollide | query/app/rate_limit.py:137 | users of two tenants can share a counter if and only if one tenant's name with its colon is a prefix of the other's |
| StreamSlots.TenantCounterCollides | query/app/rate_limit.py:136-137 | a tenant can share its counter with a user of another tenant if and only if the other's name with its colon is a prefix of its own |
| StreamSlots.ColonFreeSeparates | query/app/rate_limit.py:136-137 | tenants whose names hold no colon share no counter |
| StreamSlots.OutstandingSplits | query/app/rate_limit.py:138-153 | where no names share a counter, the increments outstanding on it are the slots held plus the clients in transit |
| StreamSlots.RefusedEarlyIff | query/app/rate_limit.py:138-142 | with a slot free an acquire is refused all the same if and only if clients in transit are as many as the free slots of the tenant at the first command or of the user at the second |
| StreamSlots.QuiescentCounters | query/app/rate_limit.py:135-153 | where no names share a counter and no client is between commands, the counters equal the numbers of slots held |
| StreamSlots.CountsSlotsIff | query/app/rate_limit.py:135-153 | over all runs of clients with given names, counters equal the slots held whenever all is quiet if and only if no two of the names share a counter |
| StreamSlots.LoneAcquireIsExact | query/app/rate_limit.py:135-153 | an undisturbed acquire, whatever state the others are in, admits if and only if the increments outstanding on its two counters are below their limits; its refusal, or its release, puts every counter back |
| StreamSlotsInTransit.TransitRefusesEarly | query/app/rate_limit.py:138-142 | a concrete schedule in which a stream is refused although tenant and user are both below their limits |
| CircuitBreakers.CircuitBreaker.AllowRequest | query/app/circuit_breaker.py:29-37 | refuses exactly when the failures since the last success number at least the threshold and the latest is younger than the reset timeout |
| CircuitBreakers.CircuitBreaker.RecordSuccess | query/app/circuit_breaker.py:39-41 | appends a success to the history the other methods read their answers off |
| CircuitBreakers.CircuitBreaker.RecordFailure | query/app/circuit_breaker.py:43-52 | appends a failure at this time to that history, from every state |
| CircuitBreakers.CircuitBreaker.State | query/app/circuit_breaker.py:54-58 | reports open exactly when a request would be refused, half open when tripped with the timeout served, and closed otherwise |
| CircuitBreakers.CircuitBreaker.RunGuarded | query/app/circuit_breaker.py:75-87 | fn is called exactly when breakers are off or the breaker does not refuse, and then its outcome, and nothing else, is recorded |
| CircuitBreakers.RefusesOnTrailingFailures | query/app/circuit_breaker.py:29-58 | for every threshold: a request is refused if and only if the last threshold outcomes (one, if the threshold is not positive) are all failures and the newest is younger than the timeout |
| CircuitBreakers.PhaseByTrailingFailures | query/app/circuit_breaker.py:29-58 | open and half open are told apart by the age of the newest of those failures, and everything else is closed |
| CircuitBreakers.RecoversAfterSuccess | query/app/circuit_breaker.py:39-52 | after one success, whatever came before, a request is refused if and only if the failures since number at least the threshold and the newest is younger than the timeout |
| CircuitBreakers.HalfOpenRefusesNobody | query/app/circuit_breaker.py:29-37 | once the timeout is served no later request is refused until an outcome is recorded, for every history |
| QueryCaching.QueryCache.GetCachedAnswer | query/app/query_cache.py:83-98 | a lookup returns what the numbered cache holds after the whole history of stores and bumps, or nothing when disabled |
| QueryCaching.QueryCache.SetCachedAnswer | query/app/query_cache.py:101-115 | a store adds one store operation to the history, or nothing when disabled |
| QueryCaching.QueryCache.BumpCacheVersion | query/app/query_cache.py:40-53 | a bump adds one bump of the scope to the history and returns the scope's number, one more than before |
| QueryCaching.QueryCache.HandleEvent | query/app/event_subscriber.py:29-43 | an event bumps exactly when it reports new content of a named tenant and does not opt out; every other event leaves the cache |
| QueryCaching.EventClears | query/app/event_subscriber.py:29-43 | in any run of requests that join apart an event of new content of a named tenant that does not opt out clears the lookups of its tenant and collection, and every other event and lookup is left as it was |
| QueryCaching.LookupIsLastStored | query/app/query_cache.py:26-115 | for any run over requests that join to the same string only if they ask the same, a lookup gives the last payload stored for the same request since the scope's last bump |
| QueryCaching.RefinesIffJoinedApart | query/app/query_cache.py:66-80 | over any set of requests the numbered cache answers every run as the deleting reference, which compares the fields and joins nothing, if and only if no two of the requests that differ join to the same string; they differ unless tenant, collection, the additional collections up to order, document, version, query and, with history, session are the same |
| QueryCaching.SeparableJoinApart | query/app/query_cache.py:67-78 | requests with no bar outside the query, no comma in an additional collection and not one nameless additional collection join to the same string only if they ask the same |
| QueryCaching.ListsJoinAlikeIff | query/app/query_cache.py:67 | two lists of comma-free names join alike if and only if they are the same list, or each is empty or one empty name |
| QueryCaching.NeverStale | query/app/query_cache.py:66-115 | on such requests, in any run of one deployment, a lookup is never stale and never another request's |
| QueryCaching.SeparatorConfusesTenants | query/app/query_cache.py:78 | a bar in a name makes a lookup of one tenant return what was stored for another |
| QueryCaching.CommaConfusesCollections | query/app/query_cache.py:67 | a comma in the name of an additional collection makes a lookup for two collections return what was stored for one |
| QueryCaching.SameJoinsAlike | query/app/query_cache.py:67-78 | requests that ask the same, whatever order they name additional collections in, have the same joined string and scope |
| QueryCaching.RedeliveryOnlyForgets | query/app/event_subscriber.py:41-43 | a duplicated invalidation anywhere in a run of requests that join apart can only turn a hit of the cache into a miss, and only in its own scope |
| QueryCaching.DuplicateIsIdle | query/app/event_subscriber.py:41-43 | a duplicate delivered straight after the first changes no lookup of the cache |
| QueryCaching.BumpClearsOnlyPrimary | query/app/query_cache.py:79 | a bump turns the cache's lookup into a miss if it is of the request's primary collection and leaves it as it was otherwise, also for a collection searched as additional |
| Reranking.SortByScores | query/app/clients/reranker.py:71-83 | the stable descending sort of the pairs, cut, gives the same list as sorting the rescored chunks |
| Reranking.Rerank | query/app/clients/reranker.py:43-68 | both modes, with missing scores padded by zero, give the specified ranking and its scores |
| Reranking.RerankedIsTopK | query/app/clients/reranker.py:43-83 | for every top_k a ranking is the stable top of the input: distinct chunks of it, each with its own predicted score (0 where none was predicted; a stub keeps its score or takes 0.85), descending, ties in input order; nothing left out beats anything kept |
| Reranking.AbstainsIffAllBelow | query/app/rag_graph.py:185-187 | for every top-k, abstention holds if and only if no chunk's own score reaches the threshold or the slice is empty; cutting otherwise never changes it |
| Reranking.FallbackIsTopK | query/app/rag_graph.py:180-184 | the open-breaker order is the stable top of the chunks by the scores they carry, changes no chunk and lists their scores |
| Reranking.FallbackAbstainsIff | query/app/rag_graph.py:180-187 | likewise for the open-breaker order, by the scores the chunks carry |
| Reranking.FallbackMatchesStubIff | query/app/rag_graph.py:180-183 | the open-breaker order equals the stub reranker's for every top-k if and only if every chunk carries a score |
| PipelineGraph.AdvanceToAnswer | query/app/rag_runner.py:25-34 | for every state and every behaviour of the nodes, the runner followed by the answer node makes the same calls and ends in the same state, or the same failure, as the graph |
| PipelineGraph.FollowKeeps | query/app/rag_graph.py:266-310 | an invariant kept by every node along the graph's edges holds of every run, finished or failed |
| RagPipeline.NodesWriteTheirFields | query/app/rag_graph.py:65-263 | each node writes only the fields its description names, whatever its clients do |
| RagPipeline.EmbedsAtMostOnce | query/app/rag_graph.py:101-122 | from every state and under every client behaviour a run embeds the query at most once; a finished run did so unless the cache answered or the embed breaker was open |
| RagPipeline.RetrieveEmbeds | query/app/clients/qdrant.py:213-218 | retrieval asks nobody when the run has abstained or the store breaker is open; else it searches once, and embeds the query first if and only if a vector is missing |
| RagPipeline.CachesExactlyCompletedAnswers | query/app/rag_graph.py:222-263 | a run stores an answer if and only if it finished, was not served from the cache, did not abstain and the chat model answered; it stores once, last, the answer it returns |
| RagPipeline.CachedUnderSupervisedKey | query/app/rag_graph.py:65-98 | the first call, and no other, is a lookup, under the request as given; answers are stored under the request as the supervisor rewrote it |
| RagPipeline.FoundAgainIff | query/app/query_cache.py:66-80 | the cache key looked up and the cache key stored under are the same when the rewrite left query, collection and document as they were; if no separator makes requests join alike, only then |
| RagPipeline.RewrittenIsNotFoundAgain | query/app/rag_graph.py:80-98 | a concrete rewritten query whose answer is stored under another cache key than the one looked up |
| RagRuns.OrdinaryRun | query/app/rag_graph.py:142-263 | in a run that misses the cache, with embedder and store answering, every rerank is given exactly the retrieved chunks and the supervised query, and the graph is asked about the ranking; a finished one seeks an answer if and only if some score of these chunks reaches the threshold and top_k keeps any, gives the chat model the ranking and the graph context, and ends with the ranking's citations, the right degradation level, and the chat model's text or the right notice |
| RagRuns.ConfidentIff | query/app/rag_graph.py:185-187 | the chunks are good enough if and only if top_k keeps any and some retrieved chunk's own score, or carried score with the reranker's breaker open, reaches the threshold |
| RagFields.CachedRun | query/app/rag_graph.py:65-78 | a run that hits the cache asks nobody else, carries the cached text, sources and stub flag, and leaves every other field but its timings |
| RagFields.RunScopes | query/app/rag_graph.py:81-139 | a finished run that missed the cache says where its scope came from: the supervisor's word, inferred if it pinned something, what the caller said, or whether the caller pinned it |
| RagFields.RunTimes | query/app/rag_graph.py:53-62 | such a run has the time of every stage but the graph |
| RagFields.RunTimesGraph | query/app/rag_graph.py:199-219 | and of the graph, if it did not abstain |
| RagEnds.RunSettles | query/app/rag_graph.py:81-122 | a run that misses the cache looks it up and asks the supervisor with the caller's fields; it searches, asks the graph and the chat model, and stores its answer with the supervisor's query, scope and notes, the embedder's dense and sparse vectors, and the caller's other fields, and ends with them |
| RagEnds.RunScores | query/app/rag_graph.py:184-193 | a finished run that missed the cache has the score of each of its chunks beside it, place for place |
| RagEnds.RunGraphs | query/app/rag_graph.py:199-219 | such a run has the graph's context if it did not abstain and the graph was wanted and gave one, switches the graph off if its breaker was open, and else leaves both fields as the caller gave them |
| RagCalls.RunAsks | query/app/rag_graph.py:65-310 | a finished run that missed the cache has asked exactly these, once each and in this order: cache, supervisor, embedder, store, reranker, graph, chat model, cache; less those whose breaker was open or that are switched off, the store if the run abstained before it, and the last three if it abstained |
| RagOutages.OpenStoreAbstains | query/app/rag_graph.py:143-196 | with the vector store's breaker open a run that misses the cache ends abstained at L4 with nothing retrieved, asks for no answer and caches nothing |
| RagOutages.OpenEmbedderAbstains | query/app/rag_graph.py:101-122 | with the embed breaker open and no chunks to start with a run ends abstained at L3 in the same way |
| RagOutages.RerankOfNothing | query/app/rag_graph.py:164-196 | reranking nothing abstains again and keeps the level, whatever the reranker does |
| RagOutages.EmbedderAbstentionSurvivesIff | query/app/rag_graph.py:164-196 | the embed breaker's abstention outlasts every reranker, graph store and chat model if and only if the supervisor fails first or no reranker would be content with the chunks in the state: none survives the top-k slice, or a stub scores them all below the threshold |
| ChunkSplit.SplitText | ingest/app/chunk_builder.py:31-42 | for every pair of settings the loop ends and produces the specified pieces |
| ChunkSplit.PiecesAreWindows | ingest/app/chunk_builder.py:31-42 | piece i starts at i strides of max(max_chars - overlap, 1) and is max_chars long or ends the text; the number of pieces has a closed form |
| ChunkSplit.PiecesReassemble | ingest/app/chunk_builder.py:31-42 | dropping the overlaps gives the text back, character for character |
| ChunkSplit.ShortPassagesSurvive | ingest/app/chunk_builder.py:31-42 | every passage no longer than min(overlap + 1, max_chars) stands whole in one piece |
| ChunkSplit.PiecesStart | ingest/app/chunk_builder.py:35-41 | for every pair of settings each piece is the slice of the text at the position the loop had reached |
| ChunkSplit.KeepsEveryCharacterIff | ingest/app/chunk_builder.py:36-41 | the settings under which every position of every text lies in some piece are exactly max_chars >= 1 with overlap >= 0 |
| ChunkSplit.BlocksToChunks | ingest/app/chunk_builder.py:45-83 | one chunk for each piece of each block, in order, numbered from 1 without a gap across blocks |
| ChunkSplit.BlockReassembles | ingest/app/chunk_builder.py:45-83 | behind the pieces of the blocks before it a block has as many pieces as its length asks for, all of its type and none longer than max_chars, and dropping the overlaps gives its text back |
| CatalogStores.GroupChunks | ingest/app/catalog_store.py:53-62 | the loop groups the placed chunks by key, keys in order of first appearance and members in batch order |
| CatalogSpec.GroupOrderMeans | ingest/app/catalog_store.py:53-62 | the keys listed are distinct and are exactly those of the chunks with tenant, collection and document |
| CatalogStores.InMemoryCatalogStore.RecordFromChunks | ingest/app/catalog_store.py:73-107 | the loop leaves the catalog that the specification gives and returns the number of keys |
| CatalogSpec.RecordMeans | ingest/app/catalog_store.py:81-107 | one version row for each key of the batch, counting its chunks; other rows untouched; a document's latest version is the one whose first chunk comes last |
| CatalogSpec.VersionRowOfBatch | ingest/app/catalog_store.py:53-107 | the row of a tenant, collection, document and version has the number of its chunks in the batch (one without a version counting as v1), the job, and the ingest time its first carries or this moment; without such a chunk it stays as it was |
| CatalogSpec.DocumentRowOfBatch | ingest/app/catalog_store.py:81-95 | the row of a document with one version in the batch has the title its first chunk carries or its id, that version as the latest, and this moment; without a chunk it stays as it was |
| CatalogSpec.NoNamelessRow | ingest/app/catalog_store.py:53-62 | a batch makes no version row without a tenant, collection, document or version, and none without a chunk of it |
| CatalogSpec.RecordKeepsCoherent | ingest/app/catalog_store.py:81-107 | recording keeps a document row for every version row and a version row for every latest version |
| CatalogSpec.RecordKeepsNamed | ingest/app/catalog_store.py:59 | no version row has an empty id |
| CatalogStores.InMemoryCatalogStore.CountTenantChunks | ingest/app/catalog_store.py:109-114 | the sum over the tenant's version rows, in whatever order they are read |
| CatalogSpec.RecordConservesCount | ingest/app/catalog_store.py:53-62 | a batch changes a tenant's count by its placed chunks less the counts of the version rows it overwrites |
| CatalogStores.GroupRows | ingest/app/catalog_store.py:117-127 | version rows with a document row are grouped by document, each with its document's latest version |
| CatalogStores.PlaceIsRank | ingest/app/catalog_store.py:131-134 | in the descending sort a version stands behind exactly as many rows as there are versions newer than it by (ingested_at, version_id) |
| CatalogSpec.PrunableIff | ingest/app/catalog_store.py:116-148 | for keep_count >= 0 a version is prunable if and only if its document has a row naming another version as latest and at least keep_count of its versions are ingested later, or at the same time with a greater id |
| CatalogStores.PrunableOf | ingest/app/catalog_store.py:130-147 | sort, cut and skip list one document's prunable versions, each once |
| CatalogStores.InMemoryCatalogStore.ListPrunableVersions | ingest/app/catalog_store.py:116-148 | the listing is exactly the versions that are not the latest and have at least keep_count newer versions, pairwise distinct, with their chunk counts |
| CatalogSpec.StoresAgree | ingest/app/catalog_store.py:303-326 | for keep_count >= 0 the in-memory rule equals the ranking query's rule |
| PruneSettings.StoresAgreeIff | ingest/app/catalog_store.py:303-326 | the two stores prune alike on every catalog if and only if keep_count >= 0 |
| PruneSettings.SecondPruneIdleIff | ingest/app/catalog_store.py:116-148 | a second prune finds nothing on every catalog if and only if keep_count >= 0 |
| CatalogSpec.SecondPruneFindsNothing | ingest/app/catalog_store.py:116-148 | for keep_count >= 0 nothing is left to prune after a prune |
| CatalogSpec.PruneKeepsCoherent | ingest/app/catalog_store.py:136-138 | pruning never takes a latest version, so the rows stay coherent |
| CatalogStores.InMemoryCatalogStore.DeleteVersions | ingest/app/catalog_store.py:150-162 | exactly the named rows go and the result counts those that were there |
| CatalogStores.InMemoryCatalogStore.TenantScope | ingest/app/catalog_store.py:164-174 | the four totals are those of the tenant's rows |
| CatalogStores.InMemoryCatalogStore.PurgeTenant | ingest/app/catalog_store.py:176-180 | all rows of the tenant go, no other, and the four totals returned are what went |
| CatalogSpec.PurgeIsolates | ingest/app/catalog_store.py:176-180 | a purge empties the tenant's scope, leaves every other tenant's rows as they were, and keeps the rows coherent |
| VersionPruning.Pruner.PruneVersions | ingest/app/version_prune.py:19-59 | a dry run changes nothing; a real run, in a process that may die at any delete, does that many of its deletes in order, and one that gets to its end has removed exactly the prunable versions' catalog rows and points, and the graph nodes of their tenant, document and version, and reports those numbers |
| VersionPruning.Pruner.DeleteVersion | ingest/app/clients/qdrant.py:132-172 | the version's points go; the number returned is the one expected, not the one found |
| VersionPruning.Pruner.PruneVersion | ingest/app/clients/neo4j.py:99-129 | nodes are matched on tenant, document and version, and the number removed is returned |
| VersionPruning.InterruptedPruneConverges | ingest/app/version_prune.py:36-52 | after any number of prunes that died at any delete, or before the catalog delete, one that gets to its end leaves catalog, points and nodes as one undisturbed prune would have |
| VersionPruning.CutKeepsPartly | ingest/app/version_prune.py:36-52 | a prune cut anywhere leaves the catalog as it was and only the rest of the work to do |
| VersionPruning.RowsGoLast | ingest/app/version_prune.py:36-52 | wherever a prune dies, a candidate's nodes are gone only when its points are, and the catalog rows, by which a later prune finds them, only when all points and nodes are |
| VersionPruning.PointStaysIff | ingest/app/clients/qdrant.py:132-172 | a point is left if and only if it is not where its tenant is served, its chunk named no version, or the version of its tenant, collection and document is not prunable; what is left is as it was |
| VersionPruning.NodeStaysIff | ingest/app/clients/neo4j.py:99-129 | a node is left if and only if no prunable version, in whatever collection, has its tenant, document and version; what is left is as it was |
| VersionPruning.CollateralNodes | ingest/app/clients/neo4j.py:99-129 | after a prune the node of a kept version is gone if and only if a version with the same tenant, document and version id was prunable in another collection |
| VersionPruning.KeptVersionLosesNode | ingest/app/clients/neo4j.py:99-129 | three recorded chunks, a coherent catalog, and a prune that takes the node of a version it keeps |
| VersionPruning.PrunedPointStaysIff | ingest/app/clients/qdrant.py:132-172 | the point of a pruned version stays behind if and only if it is not where its tenant is served, or its chunk named no version |
| VersionPruning.PrunedNodeStaysIff | ingest/app/clients/neo4j.py:99-129 | the node of a pruned version stays behind if and only if its chunk named no version |
| VersionPruning.NamelessVersionStays | ingest/app/version_prune.py:24-66 | three recorded chunks, the oldest without a version id, and a prune that drops its catalog row and leaves its point and node |
| Quotas.QuotaHolds | ingest/app/quota_store.py:237-263 | over every history of checked and at once recorded ingests with estimates no smaller than actual, prunes and purges, no tenant passes its quota |
| Quotas.CheckFailsIff | ingest/app/quota_store.py:237-263 | a check fails if and only if quotas are enforced and the tenant's stored chunks with the estimate, a negative one counting as none, are more than its maximum; it reports these numbers |
| Quotas.HistoryKeepsCoherent | ingest/app/catalog_store.py:73-180 | over every such history documents and versions stay coherent |
| Quotas.OpLeaves | ingest/app/catalog_store.py:73-180 | a purge leaves nothing of its tenant and everything else; a prune the versions that are not prunable; an ingest that fails its check everything, and one that passes counts its placed chunks in place of the rows it overwrites |
| Quotas.ShortfallBounds | ingest/app/quota_store.py:249-252 | an understated estimate can carry a tenant over by no more than the shortfall |
| Quotas.ShortfallIsReached | ingest/app/quota_store.py:249-252 | on every catalog and for every shortfall some batch reaches that bound |
| Quotas.QueueKeepsQuotaIff | ingest/app/quota_store.py:249-252 | any number of ingests checked before any is recorded keep the quota, whatever their batches hold, if and only if one of them does not pass or their estimates fit all together |
| Quotas.QueuedWritesOvershoot | ingest/app/quota_store.py:249-252 | two concrete ingests, both checked before either is recorded, pass the quota together |
| Quotas.MoveKeepsCommitted | ingest/app/quota_store.py:249-252 | chunks held plus estimates in flight grow only by a check that passes, and then to no more than the quota and what was in flight |
| Quotas.UnqueuedIsHistory | ingest/app/quota_store.py:237-263 | checks and records that interleave with nothing queued are a history of ingests recorded at once, prunes and purges |
| Quotas.QueuedAloneIsIngest | ingest/app/quota_store.py:237-263 | an ingest queued and written with nothing in between leaves what one recorded at once does, whether its check passes or not |
| Quotas.OvershootWithinPeak | ingest/app/quota_store.py:249-252 | however checks, records, prunes and purges interleave, a tenant passes its quota by no more than was in flight for it when one of its checks passed |
| Quotas.PeakIsReached | ingest/app/quota_store.py:249-252 | on every catalog two queued ingests reach that bound |
| IngestWriters.IngestWriter.PartitionDeduped | ingest/app/dedup_store.py:149-167 | the loop splits off exactly the chunks whose key is stored with a uuid, keeping order, and counts them |
| DedupKeys.SameKeyIff | ingest/app/dedup_store.py:12-20 | two chunks have the same key if and only if their tenants, each joined by a colon to the content hash given or else to the digest of the text, join alike |
| DedupKeys.DuplicatesIff | ingest/app/dedup_store.py:12-20 | chunks of one tenant are duplicates if and only if their content hashes agree, a digest of the text standing for one that is not given |
| DedupKeys.KeysCanMeetIff | ingest/app/dedup_store.py:12-13 | chunks of two tenants can share a key if and only if one tenant's name with its colon is a prefix of the other's |
| DedupKeys.TenantsIsolated | ingest/app/dedup_store.py:149-180 | over every run of calls of one tenant, cut anywhere, the unseen chunks of another tenant are what they were, unless one name with its colon is a prefix of the other |
| DedupKeys.TenantsApart | ingest/app/dedup_store.py:12-13 | so tenants whose names hold no colon never hide one another's chunks |
| DedupKeys.ColonHidesChunk | ingest/app/dedup_store.py:12-13 | where one name with its colon is a prefix of the other, some chunk of the one tenant, once ingested, makes a chunk of the other be skipped |
| DedupKeys.IsolatedIff | ingest/app/dedup_store.py:149-180 | two tenants never hide one another's chunks on any run if and only if no key is ever stored or neither name with its colon is a prefix of the other |
| DedupKeys.RunKeepsOnlyValid | ingest/app/writers.py:29 | on every run nothing without a uuid and text reaches a store, points stand under their chunk's uuid, and no key vouches for nothing |
| DedupKeys.FinishedHolds | ingest/app/writers.py:48-106 | a call that is not cut short stores every valid, unknown chunk: its point with the chunk and the vector of its text where the first such chunk's tenant is served, its node with document, version and text, and its key |
| IngestWriters.IngestWriter.EmbedAll | ingest/app/writers.py:71-76 | the batched loop gives the replies joined in order, or raises with the first batch that does |
| IngestWriters.IngestWriter.UpsertChunks | ingest/app/clients/qdrant.py:77-114 | in a process that may die anywhere, a prefix of the batch upserts has run; the count is right when all have |
| IngestWriters.IngestWriter.MergeChunks | ingest/app/clients/neo4j.py:83-97 | likewise for the graph merges |
| IngestWriters.IngestWriter.RecordWritten | ingest/app/dedup_store.py:170-180 | the keys of all written chunks are stored in one operation, the later of two equal keys winning |
| IngestWriters.IngestWriter.WriteChunks | ingest/app/writers.py:26-106 | the whole call carries out a prefix of its program of store operations, as long as its process lives, and reports only when it got to the end |
| IngestWriters.ReportCounts | ingest/app/writers.py:26-106 | the report counts the chunks with a uuid and text, those of them that were known, the new ones that reached each store, and the versions recorded |
| IngestWrites.BodyShape | ingest/app/writers.py:80-95 | dedup keys are one operation, after all store writes |
| IngestWrites.RetryConverges | ingest/app/writers.py:48-106 | a write that died at any point, retried with the same chunks, ends with the same points, nodes, dedup keys and catalog as a first uninterrupted write at that time |
| IngestWrites.RetriesConverge | ingest/app/writers.py:48-106 | so does any number of retries, each dying anywhere, before the one that finishes |
| IngestWrites.FinishIsReference | ingest/app/writers.py:48-106 | an uninterrupted write puts each unseen chunk's point with its own vector and its node, then the keys, then the catalog rows; no batch size shows in the result |
| IngestWrites.FinishStores | ingest/app/writers.py:48-106 | for all settings: any call that goes through, whatever was embedded, leaves the points at the first unseen chunk's tenant's collection, the nodes, the keys and the catalog rows; a store with a negative batch size is left as it was |
| IngestWrites.WritesCover | ingest/app/clients/qdrant.py:94-114 | store writes that go through put every chunk's point and node in order, whatever the batch sizes, save that a negative one writes nothing to its store |
| IngestRuns.KeysAreBacked | ingest/app/dedup_store.py:170-180 | on every run of calls cut anywhere, a dedup key is there only when its chunk has its point and its node, if keys are never stored at all or both batch sizes are positive |
| IngestRuns.KeysBackedIff | ingest/app/clients/qdrant.py:94 | and, with an embedder that answers text by text, only then |
| IngestRuns.AlwaysHeldIff | ingest/app/dedup_store.py:149-180 | for all settings: every run keeps each key's content in both stores if and only if there is nothing to store, no key is ever stored, or both batch sizes are positive and no two chunks share a uuid but not a key |
| IngestRuns.PrunedContentStaysOut | ingest/app/dedup_store.py:149-167 | dedup keys outlive the content: a batch whose write once went through is recorded again in the catalog with nothing written, whatever the stores have lost |
| IngestRuns.BatchFoundAtHomeIff | ingest/app/clients/qdrant.py:88-114 | a batch goes where its first chunk's tenant is served: afterwards a chunk is found where its own tenant is served if and only if it was before or that is the same place |
| IngestRuns.SecondTenantMissesOut | ingest/app/clients/qdrant.py:88-114 | two tenants served apart and ingested in one batch into empty stores: the second one's chunk is not found at its home |
| IngestRuns.NegativeBatchStoresKeyAlone | ingest/app/clients/qdrant.py:94 | with a negative upsert batch size nothing reaches Qdrant, yet the chunk's key is stored |
| IngestWrites.RecordAbsorbs | ingest/app/catalog_store.py:81-107 | recording the same chunks again gives what recording them once at the later time gives |
| MultiTopK.ScopeCollectionIds | query/app/clients/qdrant.py:147-157 | the loop gives the specified list of collections |
| MultiTopK.ScopeIdsMeans | query/app/clients/qdrant.py:147-157 | each named collection is searched once, the primary one first, and no other |
| MultiTopK.MergeAndRank | query/app/clients/qdrant.py:277-288 | filling the dictionary in completion order, sorting and cutting gives the specified list |
| MultiTopK.MergedMeans | query/app/clients/qdrant.py:277-281 | the dictionary holds each uuid once, as the last search to find it found it |
| MultiTopK.OrderIrrelevantIff | query/app/clients/qdrant.py:279-281 | every completion order merges to the same chunks if and only if searches that found the same uuid found the same chunk |
| MultiTopK.AnyOrderSameRanking | query/app/clients/qdrant.py:277-288 | then every order gives the same scores; with distinct scores the same list |
| MultiTopK.RankingIsTopOfUnion | query/app/clients/qdrant.py:283-288 | no uuid twice, descending, and nothing left out of the union beats anything kept |
| MultiTopK.StubCitesLast | query/app/clients/qdrant.py:183-202 | with the stub store, which returns one uuid whatever is searched, the collection cited is that of the search that ended last |
| BestScores.TopOfTops | query/app/clients/qdrant.py:283-288 | the best k of two lists together depend only on the best k of each |
| SearchStrategies.ParallelIsAlone | query/app/clients/qdrant.py:249-288 | for any store that filters by collection, and any order of completion, the parallel strategy gives the scores of the best chunks of all, each scored as in a search of its own collection alone |
| SearchStrategies.StrategiesAgree | query/app/clients/qdrant.py:224-288 | with scores that do not depend on which other collections are searched (not those of rank fusion) the parallel strategy gives the scores of one search |
| SearchStrategies.ParallelDominates | query/app/clients/qdrant.py:249-288 | with scores that are never lower for searching a collection alone, the parallel strategy yields as many scores as one search and none lower |
| RankFusion.PlaceImproves | query/app/clients/qdrant.py:128-138 | fewer chunks rank before a chunk when only its own collection is searched, and strictly fewer when another one in scope has a chunk before it |
| RankFusion.FusedScoreIsSum | query/app/clients/qdrant.py:128-138 | a chunk in scope is found if and only if fewer than twice the recall limit of the chunks in scope rank before it in either ranking, and scores the sum of what its places there are worth |
| RankFusion.ParallelNeverScoresLower | query/app/clients/qdrant.py:128-140 | with rank fusion, at every recall limit, the parallel strategy yields as many chunks as one search and no lower score |
| RankFusion.FusedStrategiesAgreeIff | query/app/clients/qdrant.py:128-288 | with rank fusion the strategies give the same scores if at most one collection in scope holds a chunk; when the recall limit cuts nothing off, only then |
| RankFusion.FusedStrategiesAlwaysAgreeIff | query/app/clients/qdrant.py:128-288 | with rank fusion the strategies agree at every recall limit if and only if at most one collection in scope holds a chunk |
| RankFusion.TwoChunksSuffice | query/app/clients/qdrant.py:128-288 | two collections with one chunk each set the strategies apart, for every reciprocal rank constant and every recall limit above one |
| MultiTopK.RetrieveForState | query/app/clients/qdrant.py:220-246 | the parallel strategy is used exactly when the lower-cased strategy asks for it and more than one collection is in scope |
| CatalogPages.CanReadDocument | query/app/acl.py:22-46 | the loop answers as the declarative rule does: unsecured, on the default list, or holding a grant on the collection or the document |
| CatalogPages.AllowedIff | query/app/catalog_store.py:137-164 | a document is open to a caller if and only if nothing of its own tenant secures its collection, or that tenant's default list or a grant of that tenant on the collection, for this document or all, names the caller; other tenants' defaults and grants do not matter |
| CatalogPages.NamesOfPrincipal | query/app/acl.py:9-15 | a caller goes by its principal and, if that starts with user, colon, by the rest |
| CatalogPages.GrantOpensAndCloses | query/app/acl.py:18-46 | a new grant opens what it names to its holder and closes the collection to everyone who could read it only because it was unsecured |
| CatalogPages.ListIndexedDocuments | query/app/catalog_store.py:166-190 | the page and cursor are those of the specification, including the IndexError of a limit that cuts every row |
| CatalogPages.RowsAreReadable | query/app/catalog_store.py:176-185 | the rows are the documents of the tenant, and of the collection and document asked for, that the caller may read, each exactly as often as stored, by collection and then by document id |
| Sorting.StringLeIff | query/app/catalog_store.py:185 | one id sorts before another if and only if it starts it or has the lesser character where the two first differ |
| CatalogPages.PageRaisesIff | query/app/catalog_store.py:188-189 | a page raises if and only if there are more rows than the limit and the slice is empty |
| CatalogCrawl.CrawlIsExact | query/app/catalog_store.py:186-190 | with increasing, non-empty ids following the cursors gives every row once and in order, in exactly max(1, ceil(n / limit)) requests and no fewer |
| CatalogCrawl.CrawlCompleteAtIff | query/app/catalog_store.py:185-190 | for a given page size a crawl gives all of a listing's rows, each once and in order, if and only if the cursor of each of its page boundaries leaves the rows after it |
| CatalogCrawl.CrawlCompleteIff | query/app/catalog_store.py:185-190 | every page size gives all rows if and only if document ids increase through the rows and none but the last is empty: across collections the cursor can skip |
| CatalogCrawl.CursorSkipsCollection | query/app/catalog_store.py:166-190 | two rows of two collections, listed in order, of which pages of one row never show the second |
| CatalogCrawl.OneCollectionCrawlIff | query/app/catalog_store.py:166-190 | with a collection filter and unique document ids every page size gives all readable documents if and only if no id but the last is empty |
| FederatedMerge.MergeResearchResults | query/app/federated_research.py:85-131 | the loops give the merged sources, answer and regions of the specification |
| FederatedMerge.MergeMeans | query/app/federated_research.py:93-105 | the local list stays in front; one source is added for each offered key that is not there locally, so the length is the local length plus those keys |
| FederatedMerge.AddedMeans | query/app/federated_research.py:96-105 | what is added is new locally and is the first source offered with its key, marked with its region |
| FederatedMerge.AddedKeysDiffer | query/app/federated_research.py:101-105 | no two added entries share a key |
| FederatedMerge.MergeIsIdempotent | query/app/federated_research.py:93-105 | merging the same peers again, or any of them in any order, adds nothing |
| FederatedMerge.MergeFederated | query/app/federated_research.py:132-168 | the loop gives the specified result; without answers, or when federation is off or the call is itself federated, the local result is returned as it is |
| FederatedMerge.OrderIsHomeFirst | query/app/federated_research.py:149-152 | the order is the home region's endpoints and then all others, each in the order configured |
| FederatedMerge.FederatesReplies | query/app/federated_research.py:155-168 | what is merged are the replies of exactly the configured peers outside this region that answer, as often as configured, home first, each under its configured region |
| FederatedMerge.FederatedResult | query/app/federated_research.py:93-168 | the regions of the result are this one and those of the answering peers in that order; it cites what the local result or any of them cites and nothing else; without an answering peer it is the local result |
| FederatedMerge.FederatedAnswer | query/app/federated_research.py:107-111 | the answer is the first non-empty one of the home region when that is another region and has one, else the local one |
| FederatedMerge.AddedComesFrom | query/app/federated_research.py:96-105 | each source behind the local ones is a source of the first peer that cites it, not cited locally, marked with that peer's region |
| FederatedMerge.MergeCites | query/app/federated_research.py:93-105 | a document and version is cited in the result if and only if the local result or some peer cites it |
| FederatedMerge.HomeStandsFirst | query/app/federated_research.py:149-152 | the home region, if configured, stands first in the order |
| FederatedMerge.HomeCopyWins | query/app/federated_research.py:93-161 | a source that the home region has and the local result lacks is merged as the first copy in the home region's list, marked with that region, whatever other peers offer, and the home region's answer is the answer |

## Left out

- Redis per-minute query counter: whether its window holds depends on when a key expires between two commands; the in-memory window is modelled instead.
- Redis modes of the cache and of the dedup store beyond what the in-memory ones do: a connection error falls back to process memory, which makes two sources of truth; time-to-live of cached answers is left out with them.
- A Redis stream client that dies while it holds a slot: its increments stay outstanding forever, which CountersAreExact counts but nothing returns.
- Postgres stores: only the ranking query of the retention listing is modelled, as a declarative rule, without tombstones.
- Purging a tenant across Qdrant, Neo4j, object storage and dedup keys: only its catalog rows are modelled.
- Concurrent writers: write_chunks, prune_versions and the quota check run one call at a time, except where a lemma says otherwise.
- Qdrant's asynchronous upsert: an acknowledged batch counts as stored.
- Sparse vectors are a function of a chunk's text and are not stored separately; Neo4j sections, documents, references and edges are left out, chunk nodes are kept.
- Stub modes of the Qdrant and Neo4j writers hold nothing and are left out; the stub mode of the whole write path is modelled.
- A chunk without a required key makes the call raise before a store operation; it is one of the points at which a call can die.
- Version content hash, source_uri and source_system of catalog rows: copied or hashed, with no effect on any other row.
- Parser metadata, random uuids and timestamps in blocks_to_chunks: copied through.
- max_collections in the quota check, and limits other than max_chunks: a single comparison.
- Invalidation of the ACL cache by an acl.changed event, and the stream position of the subscriber: only the answer cache is modelled.
- SHA-256: injective where it digests the cache key, any function where it hashes content.
- get_document_metadata, collection listings and the markdown table: no property beyond the listing's.
- Appending the answers of all regions as markdown when FEDERATED_RESEARCH_APPEND is set: formatting.
- Prompts, answers and graph context texts, telemetry, HTTP, authentication and settings parsing.
- SortByScores: scores that are None or not numbers raise in Python and are not modelled.
- StrategiesAgree: for scores that do not depend on which other collections are searched; FusedStrategiesAgreeIff is about rank fusion.
- FusedStrategiesAgreeIff: says nothing of several collections under a limit that cuts; ParallelNeverScoresLower does. Both take the store's two rankings as exact and the filter as applied to what is prefetched; places are worth any strictly falling positive weights, of which reciprocal ranks are one kind.
- MergeAndRank: the fallback key for a chunk without a uuid is not modelled, because every retrieved chunk carries one.
- RunGuarded: exceptions that are not ordinary ones (a cancelled task) are recorded neither as failure nor as success and are left out.
- RatesAreBounded: the limits stay the same over the run, as the promise does.
- QuotaHolds: assumes that all chunks of one ingest are of the tenant that was checked.
- OrdinaryRun: for runs in which embedder and store answer; the runs in which a breaker is open are OpenStoreAbstains and OpenEmbedderAbstains, and cached ones CachedRun. A notice to the user stands for its wording, and so never equals an answer of the chat model with the same words.
- RunTimes: a duration is an input and counts whole milliseconds.
- ColonHidesChunk, IsolatedIff: for an embedder that answers text by text; TenantsIsolated is for any.
- FinishedHolds: for the same embedder and positive batch sizes, for a chunk whose uuid no other chunk of the batch has.
- AlwaysHeldIff: for an embedder that answers text by text; with one that always raises nothing is ever stored and nothing can be lost.
- KeysBackedIff: for the same embedder, in the direction that finds a key without its stores.
- FinishIsReference: for the same embedder and positive batch sizes; FinishStores says what any call that goes through leaves.
- RetrieveForState: str.lower is a parameter, not a definition.
- FoundAgainIff: without the condition on separators the stored key is found again exactly when the joined strings and the scopes' versions agree.
- OvershootWithinPeak: a queued ingest is recorded at most once, and holds no more than was estimated.
- RedeliveryOnlyForgets: for requests that join to the same string only if they ask the same, as DuplicateIsIdle and BumpClearsOnlyPrimary; RefinesIffJoinedApart says that without this the cache is not the deleting one.
- InterruptedPruneConverges: prunes run one after another, with no ingest in between; a dead run has done its deletes in full up to where it died.
- AdvanceToAnswer: the graph library's own execution is taken to be the following of edges with dictionary updates.
