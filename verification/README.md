# A verified model of the memory service

The program stores what users say about themselves as *memories*. A memory is a row in Postgres with an audit event,
and, when its text states a fact such as "X prefers Y", a temporal edge in Neo4j that stays open until the fact is
displaced or the memory deleted. The two stores share no transaction. In front of them sits a Redis cache of search
results; behind them a benchmark that seeds a namespace, searches it and classifies the answer.

The model follows the program piece by piece, one module per file:

| module | part of the program | what is proved there |
|---|---|---|
| `Domain`, `Stores`, `GraphClient`, `MockBackend` | the stores, the retrying graph client, the rule-based backend | the backend as a class over both stores, each method equal to a step function |
| `Outcomes` | one call of the rule-based backend | which requests are stored and what each leaves, by the request alone; the audit log tells the truth in every history |
| `CrashSafety`, `TornDeletes` | `add` and `delete`, stopping or failing at any store write | what every history keeps; exactly which inactive rows still have an open edge |
| `Coupling`, `Conservation` | failure-free histories, and the audit balance of all histories | rows and graph agree; refinement of a per-key list; rows against events |
| `Interleaving` | adds and deletes side by side | supersede chains end; nothing is revived |
| `AtLeastOnce`, `Frame`, `SearchOrder`, `Visibility` | retried writes, other users, what a search shows | retries cannot be observed; search is local to a user, ordered, newest first on ties; exactly when an operation changes an answer |
| `CacheKeys`, `SearchCache`, `Staleness` | the HTTP routes and their cache | when users share a key; exactly when the cache stays coherent; bounded staleness |
| `Retrieval`, `Percentile`, `Scoring` | ranking and metrics | stable top-k, how the signals trade off, Cauchy-Schwarz, the two percentiles, what each metric measures |
| `Runner`, `Clearing`, `Verdict`, `Hermetic` | the benchmark | what clearing leaves; the verdicts, and their independence of everything before |
| `Mem0Mirror`, `Mem0Outcomes`, `OrphanedEdges` | the Mem0 adapter | Mem0's last word on each memory is obeyed; the log replays to the rows whatever fails; when the graph stays coupled; exactly which edges lose their row |
| `RateLimit` | the request limiter | exact counters and counting bounds under any Redis failures; when falling back refuses |

A world is the row table with its insertion order, the event log, the edge list and a logical clock that each operation
advances. Every operation takes a *fault* argument saying, for each of its store writes, whether the write succeeds,
fails without effect, or takes effect and is reported as failed. A process that dies before or after a write is one of
the last two, so "for all histories" quantifies over every stopping point. The objects the program updates in place are
classes (`MockMemoryBackend`, `Mem0MemoryBackend`, `Neo4jClient`, `MemoryRoutes`, `EvalRunner`, `RateLimiter`); each
method's postcondition equates its whole new state and reply with a step function, and the theorems are about
sequences of those steps. Text extraction, embedding, tokenizing and rounding are the fields of one record of arbitrary
functions, so every theorem holds whatever they compute.

## Where the code does not do what one would expect

Each of these is stated as it is, with a concrete failing case and, where there is one, the exact condition.

* A key can have several open facts. Restating the newest object opens another edge (`Coupling.RestatementOpensTwo`);
  every key keeps at most one open fact throughout a history exactly when no operation restates
  (`Coupling.OneFactIffNoRestatement`).
* Two users can share a cache key, exactly when one id extends the other by `:` and a legal `top_k`
  (`CacheKeys.ShareKeyIffNested`, `CacheKeys.SharedKeyExample`). `user_id` is not validated.
* The cache can go stale with Redis up throughout. An add that commits and then fails on its link, or a delete that
  commits and then fails on its close, raises before the invalidation (app/routers/memories.py:69-78, 122-128); the
  same happens when Redis loses the invalidation (`SearchCache.MissedAddServesStale`,
  `SearchCache.MissedDeleteServesStale`). An answer with room for more than the user's active rows survives a mutation
  correctly exactly when the mutation is *unseen* by its query: nothing was committed, and no boosted fact was closed
  on the way (`SearchCache.SurvivingAnswerIff`, `SearchCache.CoherentIffHealthy`).
* Overlapping handlers can serve stale answers (`Staleness.OverlapServesStale`); what then remains is the 60-second
  bound, and the exact condition under which a hit is current (`Staleness.HitIsCurrentIff`).
* A Mem0 ADD for an id that still has an open edge opens a second one (`Mem0Mirror.ReuseOpensTwo`); without
  failures that is the only way rows and graph come apart (`Mem0Mirror.CoupledIffNoReuse`). With failures, a batch
  that does not end in a commit leaves an edge without a row (`Mem0Mirror.LostCommitOrphansEdge`) exactly when one of
  the items it reached was linked and has no row (`OrphanedEdges.AddAnchoredIff`,
  `OrphanedEdges.AnchoredIffNeverStrays`); `OrphanedEdges.OrphansExactly` says which edges those are at any time.
* `recall_at_k` is monotone in `k` only from 1 on (`Scoring.RecallAtZeroIsNotLeast`); `k = 0` fits in exactly when the
  cases that expect nothing but got something are no more than those found (`Scoring.RecallAtZeroIff`).
* The comment on `RateLimiter` (app/security.py:62-68) says any backend error lets the request through. The code falls
  back to the in-memory window, which refuses the request after `limit` others of its client in one window
  (`RateLimit.OutageRefuses`). An error admits exactly while fewer than `limit` earlier requests fell back
  (`RateLimit.FallbackAdmitsIff`, `RateLimit.FailsOpenIff`).
* An INCR whose EXPIRE is lost, or whose reply is, leaves a rate-limit counter in Redis for ever
  (`RateLimit.CounterLeaksIff`); no later request of the window sets the expiry again.
* The benchmark flags the memory of a seed marked as sarcastic (app/eval/runner.py:168-169), but the rule-based backend
  never stores one, so only seeds marked as false facts can be found (`Verdict.VerdictBySeeds`).

## Model

| member | source | states |
|---|---|---|
| GraphClient.Neo4jClient.RunWrite | app/graph/neo4j_client.py:65-101 | a write is tried at most twice; the caller sees success iff some attempt succeeds, and the edges are those after as many applications as attempts that took effect |
| GraphClient.Copies | app/graph/neo4j_client.py:92-101 | a write is applied at most twice, at least once if the caller sees success, and twice only if the first attempt was applied and reported failed |
| Stores.FindActive | app/memory/mock_backend.py:189-206 | the lookup returns an open edge of the key that no other open edge of the key is newer than, and nothing only if there is none |
| Stores.ActiveOf | app/memory/mock_backend.py:114-117 | exactly the committed ids whose row is active and belongs to the user |
| MockBackend.MockMemoryBackend.Add | app/memory/mock_backend.py:42-109 | new contents of both stores and reply, for every pattern of failing writes: no-op record, or flush, close of the displaced edge, commit, link |
| MockBackend.MockMemoryBackend.Delete | app/memory/mock_backend.py:167-187 | new contents of both stores and reply: an absent or inactive memory changes nothing, otherwise commit, then close |
| MockBackend.MockMemoryBackend.SearchFor | app/memory/mock_backend.py:111-144 | building the candidates row by row and ranking them returns the specified selection: active rows of the user as they are stored, in descending score, as many as the clamped `top_k` or all candidates if they are fewer |
| Outcomes.RejectedIsNotStored | app/memory/mock_backend.py:53-67 | a text that is flagged or sounds sarcastic, is not to be inferred from, or states no fact never touches rows or graph: its commit leaves one NOOP record of the stripped text, and the reply gives the matching reason |
| Outcomes.AcceptedIsStored | app/memory/mock_backend.py:53-109 | without failures a request with a fresh id is stored exactly when none of these holds; then the new row is active with the stripped text, the owner and the embedding, one open edge of the user states its fact since that moment, and one event quotes it |
| Outcomes.ContradictionDisplaces | app/memory/mock_backend.py:69-97 | when the newest open edge of the key has another object, its memory is superseded by the new row, its open edges end at that moment, the event is an UPDATE quoting the old content, and no other row or edge changes |
| Outcomes.AgreementOnlyAdds | app/memory/mock_backend.py:69-109 | otherwise the add changes no row and no edge, and its event is an ADD that quotes nothing |
| Outcomes.FaultsCutShort | app/memory/mock_backend.py:83-103 | with failures: a close that fails stops before the commit, a commit before the link; the request is stored, its row kept and its edge created exactly when all that it needed by then succeeded |
| Outcomes.DeletedIsRetired | app/memory/mock_backend.py:167-187 | a delete of an active memory retires its row, logs its content as a DELETE, ends its open edges at that moment and changes nothing else; any other delete changes nothing |
| Outcomes.FaultyDelete | app/memory/mock_backend.py:167-187 | a delete whose commit fails leaves the edges alone, and only one that did everything is reported |
| Outcomes.LostReplyDuplicates | app/graph/neo4j_client.py:92-101 | a link that takes effect but is reported failed is tried again and leaves two equal edges |
| Outcomes.RunIsDated | app/memory/mock_backend.py:68-251 | in every history each edge holds for a positive stretch of time, up to the call that closed it |
| Outcomes.AuditTellsTheTruth | app/memory/mock_backend.py:55-181 | in every history, failures included, an ADD or UPDATE event quotes the content of its row, an UPDATE also that of a row it superseded, a DELETE that of the inactive row it retired, and a NOOP names no memory |
| CrashSafety.StepSafe | app/memory/mock_backend.py:83-103 | one operation, failing or stopping at any store write, keeps the invariant; only a delete can add a row to those it left torn |
| CrashSafety.RunIsSafe | app/memory/mock_backend.py:42-187 | in every sequential history every edge names a row of its own user whose content yields its fact, a superseded row has no open edge and points to a newer row of its user, and an inactive row with an open edge is one whose delete stopped between commit and close |
| CrashSafety.ClosedSafe | app/memory/mock_backend.py:243-251 | a close, applied once or twice, leaves the memory without open edges and disturbs no other part of the invariant |
| TornDeletes.LingeringIsTorn | app/memory/mock_backend.py:83-187 | after every history a row is inactive with an open edge exactly when a delete left it so and no later add has closed its edges |
| Coupling.RunIsCoupled | app/memory/mock_backend.py:71-103 | in every failure-free history the ids with an open edge are exactly the active rows, one open edge each |
| Coupling.StepRefines | app/memory/mock_backend.py:69-103 | one failure-free operation on the stores is one step of the per-key list |
| Coupling.RunRefinesLedger | app/memory/mock_backend.py:69-103 | over every failure-free history each key's open facts are the abstract list: restating the newest object pushes, another object replaces the newest entry, delete removes its entry |
| Coupling.NewestIsLast | app/memory/mock_backend.py:189-206 | the graph lookup is the last entry of the key's list |
| Coupling.OneFactIffNoRestatement | app/memory/mock_backend.py:83 | every key has at most one open fact at every point of a history exactly when no operation restates the newest object |
| Coupling.RestatementOpensTwo | app/memory/mock_backend.py:83-103 | the same request under two ids, from empty stores, leaves two open facts |
| Conservation.RunIsBalanced | app/memory/mock_backend.py:71-181 | in every history, failures included, a user's active rows plus DELETE events equal the ADD events plus the UPDATEs that displaced an already inactive row |
| Conservation.CleanRunConserves | app/memory/mock_backend.py:71-181 | without failures that excess is zero and the balance exact |
| Interleaving.SoloAddIsSequential | app/memory/mock_backend.py:68-103 | the small-step machine run without interruption is the sequential `add`, for every failure pattern |
| Interleaving.SoloDeleteIsSequential | app/memory/mock_backend.py:167-187 | likewise the sequential `delete` |
| Interleaving.InterleavingIsSound | app/memory/mock_backend.py:69-101 | in every interleaving with every stopping point each superseded row is inactive and points to a strictly newer row of its user |
| Interleaving.NeverReactivated | app/memory/mock_backend.py:83-101 | rows never disappear, change owner or content, become active again or lose their `superseded_by` |
| Interleaving.Chain | app/memory/mock_backend.py:86-89 | following `superseded_by` ends at a row nothing supersedes, through strictly newer rows of the same user, all but the last inactive |
| Interleaving.ChainsEnd | app/memory/mock_backend.py:86-89 | every row of every interleaving has such a chain, without repetition |
| AtLeastOnce.RetriesAreInvisible | app/graph/neo4j_client.py:92-101 | a history with doubly applied graph writes leaves the same rows, log and set of edges as the one where each takes effect at most once |
| AtLeastOnce.RetriesAreUnobservable | app/graph/neo4j_client.py:65-101 | afterwards every search, lookup and graph id set agrees, and so does the reply to any further operation |
| Frame.OtherUsersSearchUnchanged | app/memory/mock_backend.py:111-144 | in any reachable state an add or delete for one user leaves every search of every other user unchanged |
| Frame.SameViewSameSearch | app/memory/mock_backend.py:253-267 | a search depends only on the user's active rows and open edges |
| SearchOrder.CandidatesNewestFirst | app/memory/mock_backend.py:114-119 | candidates reach the ranker in strictly descending creation order |
| SearchOrder.OnlyOldestLeftOut | app/memory/mock_backend.py:114-119 | an active row is not a candidate only if 200 newer ones are |
| SearchOrder.SearchIsOrdered | app/memory/mock_backend.py:111-144 | in every history search results descend by score, ties newest first, and every candidate left out comes after every one returned |
| Visibility.RetrievedAreActive | app/memory/mock_backend.py:111-144 | a search returns only active rows of the user |
| Visibility.AllActiveRetrieved | app/memory/mock_backend.py:111-144 | it returns all of them when they fit in `top_k` |
| Visibility.SearchCount | app/memory/mock_backend.py:112-144 | a search returns as many results as `top_k` says, at least 1 and at most 25, unless the user has fewer memories |
| Visibility.SearchSignals | app/memory/mock_backend.py:111-144 | each result reports the similarity of its row's embedding to the query's, the share of query tokens in its content, and a graph mark exactly when an open edge of the user about an entity of the query names it |
| Visibility.SearchesAgreeIff | app/memory/mock_backend.py:111-144 | when all active rows fit, two states answer a search alike exactly when they have the same candidates with the same graph boosts |
| Visibility.UnseenSameSearch | app/memory/mock_backend.py:83-103 | in any reachable state an operation that commits nothing and takes no boost from an active row the query is about changes nobody's answer |
| Visibility.AnswerUnchangedIff | app/memory/mock_backend.py:83-187 | for every `top_k` above the number of the user's active rows the answer is unchanged exactly by those operations, however they fail |
| Retrieval.RankMemories | app/memory/retrieval.py:17-45 | the scoring loop, sort and cut compute the stable top-k |
| Retrieval.RankIsStableTopK | app/memory/retrieval.py:25-45 | the result is a descending, tie-stable selection of distinct candidates and no omitted one precedes a returned one |
| Retrieval.StableOrderUnique | app/memory/retrieval.py:45 | only one arrangement of the candidates is stably sorted, so the sort is determined |
| Retrieval.PositionCounts | app/memory/retrieval.py:45 | an item's place is the number of items that precede it in the stable order |
| Retrieval.TopKIsPrefix | app/memory/retrieval.py:45 | a smaller `top_k` gives a prefix of a larger one's result |
| Retrieval.GraphBoostNeverDemotes | app/memory/retrieval.py:28-45 | adding an id to the graph ids never moves that candidate later, for any monotone rounding |
| Retrieval.CauchySchwarz | app/memory/retrieval.py:48-53 | the truncated dot product is bounded by the full magnitudes, whatever the two lengths |
| Retrieval.SimilarityNeedsNoClamp | app/memory/retrieval.py:48-57 | the clamp never changes a value: the similarity is the rescaled cosine and lies in [0, 1] |
| Retrieval.KeywordScoreBounds | app/memory/retrieval.py:60-65 | the keyword score lies in [0, 1], is 1 exactly when a nonempty query is covered, 0 exactly when nothing is shared |
| Retrieval.ScoreBounds | app/memory/retrieval.py:28-37 | the weighted score lies in [0, 1] |
| Retrieval.TradeOff | app/memory/retrieval.py:11-36 | with exact rounding one result scores above another exactly when three times its lead in the vector signal plus its leads in the keyword and graph signals is positive, by a fifth of that sum; all three signals at 1 score 1 |
| Retrieval.RoundedTradeOff | app/memory/retrieval.py:11-45 | with any monotone rounding such a lead by the unrounded signals is never turned around |
| Retrieval.BoostIsWorthAThird | app/memory/retrieval.py:11-36 | at equal keyword signals a graph boost makes up exactly for a vector deficit of at most a third |
| Retrieval.DeficitIsDecisive | app/memory/retrieval.py:11-36 | keywords and graph together never make up for a vector deficit above two thirds |
| Retrieval.ResultSignals | app/memory/retrieval.py:25-44 | a result reports the rounded similarity, keyword share and graph mark of its own candidate |
| Retrieval.SimilarityExtremes | app/memory/retrieval.py:48-57 | a vector has similarity 1 to itself and 0 to its opposite |
| Retrieval.DotTruncates | app/memory/retrieval.py:49-51 | components without a partner in the other vector do not count in the dot product |
| Retrieval.KeywordShare | app/memory/retrieval.py:60-65 | the keyword score times the number of query tokens is the number of those found |
| CacheKeys.DecRoundTrip | app/routers/memories.py:91 | the decimal form of `top_k` parses back and contains no separator |
| CacheKeys.ShareKeyIffNested | app/routers/memories.py:91 | two users can share a cache key exactly when they are equal or one id nests in the other |
| CacheKeys.SharedKeyExample | app/routers/memories.py:91 | a query of user "a" and a query of user "a:5" have the same key |
| CacheKeys.OneUserKeysInjective | app/routers/memories.py:91 | for one user the key determines `top_k` and query |
| CacheKeys.PatternCoversUser | app/routers/memories.py:164 | the invalidation pattern matches every key of its user, even when the id contains `*` or `?` |
| CacheKeys.PatternSelectsOneUser | app/routers/memories.py:164 | for ids without separator and glob characters it matches exactly that user's keys |
| CacheKeys.KeySafeNeverNested | app/routers/memories.py:91 | such ids never nest |
| SearchCache.MemoryRoutes.SearchMemories | app/routers/memories.py:83-104 | reply, hit flag and cache after a search, for every availability of Redis |
| SearchCache.MemoryRoutes.PostMemory | app/routers/memories.py:61-80 | an add mutates the stores and then invalidates; a raising backend skips the invalidation |
| SearchCache.MemoryRoutes.RemoveMemory | app/routers/memories.py:117-129 | a delete that found its memory invalidates the owner's keys, any other invalidates nothing |
| SearchCache.MemoryRoutes.CacheDeleteUser | app/routers/memories.py:159-169 | the loop removes the scanned keys up to the point where Redis fails |
| SearchCache.EntryLivesAMinute | app/routers/memories.py:132-156 | a stored answer is served for less than 60 seconds, replaces what was there and touches no other key |
| SearchCache.AddInvalidates | app/routers/memories.py:67-80 | an add that returns, stored or not, drops exactly the keys its scan got through; one that raises drops none |
| SearchCache.DeleteInvalidates | app/routers/memories.py:117-129 | a delete does so exactly when it deleted a memory |
| SearchCache.KeysDiffer | app/routers/memories.py:91 | among users whose ids do not nest the key determines user, limit and query |
| SearchCache.EvictionCovers | app/routers/memories.py:159-169 | a completed invalidation leaves no key of the user |
| SearchCache.RedisUpIsHealthy | app/routers/memories.py:67-129 | a mutation whose invalidation reaches Redis, or that raises having changed neither store, leaves no live entry behind that its query could see changed |
| SearchCache.RedisUpRunIsHealthy | app/routers/memories.py:67-129 | so a run with Redis up at every mutation meets the condition of the coherence theorem |
| SearchCache.ServeInvariant | app/routers/memories.py:61-129 | over every sequential run of the handlers, store failures included, in which each mutation invalidates or leaves alone every live entry of its user, every entry Redis holds is what the backend would answer now |
| SearchCache.CacheIsTransparent | app/routers/memories.py:83-104 | so the next search, hit or miss, with cache calls failing at will, answers exactly as the backend would |
| SearchCache.KeySafeSeparated | app/routers/memories.py:91-164 | ids without separator and glob characters meet the theorem's condition |
| SearchCache.MissedAddServesStale | app/routers/memories.py:67-80 | a search, then an add that commits but raises before its invalidation, or whose invalidation is lost, leaves a wrong entry, whatever was to be scanned |
| SearchCache.MissedDeleteServesStale | app/routers/memories.py:117-129 | likewise for a delete of the memory found |
| SearchCache.SurvivingAnswerIff | app/routers/memories.py:61-129 | after any mutation, however it fails, a live answer with `top_k` above the number of the user's active rows is gone or right exactly when it was invalidated or the mutation is unseen by its query |
| SearchCache.CoherentIffHealthy | app/routers/memories.py:61-129 | over every run whose live answers have such room when a memory of their user is mutated, the cache is coherent at every point exactly when no mutation leaves behind a live entry that sees it |
| Staleness.EveryEntryExplained | app/routers/memories.py:91-104 | every cached value, and every value about to be stored, was computed by a backend search under that key |
| Staleness.HitsAreRecent | app/routers/memories.py:132-156 | whatever fails, races or is mutated, a hit returns what the backend answered for the same user, limit and query and was stored less than 60 seconds before |
| Staleness.HitIsCurrentIff | app/routers/memories.py:91-104 | a hit is the current answer when no mutation since its computation changed what the query works from, and, when all active rows fit, exactly when it works from the same candidates and boosts as then |
| Staleness.OperationIsQuiet | app/memory/mock_backend.py:83-187 | an operation for another user, or one unseen by the query, is such a mutation |
| Staleness.HandlerIsSteps | app/routers/memories.py:83-104 | the uninterrupted handler is a look, then on a miss a compute and a store, for every availability of Redis |
| Staleness.OverlapServesStale | app/routers/memories.py:93-102 | a search that computes before an add and stores after the whole invalidation leaves an answer that differs from the current one |
| Percentile.PercentilesAgree | scripts/loadtest.py:74-81 | the load driver's interpolation and the report's inclusive quantile agree on every list |
| Percentile.P95WithinRange | app/eval/scoring.py:42-47 | the percentile lies between the smallest and the largest sample |
| Percentile.P95Between | app/eval/scoring.py:42-47 | it lies between the two neighbouring samples it interpolates, whose indices are in range |
| Percentile.SortMonotone | app/eval/scoring.py:47 | sorting preserves pointwise order |
| Percentile.P95Monotone | app/eval/scoring.py:42-47 | raising any subset of an unsorted list never lowers the percentile |
| Percentile.FewAboveP95 | app/eval/scoring.py:42-47 | at most (n - 1) / 20 samples, rounded up, lie strictly above it |
| Percentile.MostBelowP95 | app/eval/scoring.py:42-47 | at most 19 (n - 1) / 20 + 1 samples lie strictly below it |
| Percentile.P95OfTwo | app/eval/scoring.py:47 | of two samples it is nineteen twentieths of the way up, in either order |
| Scoring.RecallAtK | app/eval/scoring.py:8-17 | the loop counts the hits over the number of expectations |
| Scoring.ComputePrecision | app/eval/scoring.py:20-31 | the loop averages the per-case precisions; a nonempty expectation list with no results is the division by zero |
| Scoring.MetricSandwich | app/eval/scoring.py:8-31 | recall@k / k <= precision <= recall@k for results of length at most k |
| Scoring.RecallMonotone | app/eval/scoring.py:8-17 | recall never falls as k grows from 1, cases that expect nothing included |
| Scoring.RecallAtZeroIff | app/eval/scoring.py:8-17 | recall at 0 is at most recall at k >= 1 exactly when the cases that expect nothing but got something are no more than the cases found within k |
| Scoring.RecallAtZeroIsNotLeast | app/eval/scoring.py:13-14 | a case where it is not |
| Scoring.RecallIsShare | app/eval/scoring.py:8-17 | recall is the share of cases that show the expected memory at one of the first k places, or nothing when nothing is expected |
| Scoring.PrecisionOfOne | app/eval/scoring.py:25-30 | one case scores 1 for rightly showing nothing, the inverse of the number of results when the expected memory is among them, and 0 otherwise |
| Scoring.PrecisionIsMean | app/eval/scoring.py:20-31 | precision is the mean over the cases: one case more adds its own precision to the sum |
| Scoring.MoreResultsLessPrecise | app/eval/scoring.py:30 | a further result beside the expected memory strictly lowers the precision of its case |
| Scoring.UniformPrecision | app/eval/scoring.py:8-31 | when every case expects a memory and shows exactly n results, precision times n is recall at n |
| Scoring.RateIsShare | app/eval/scoring.py:34-53 | a failure rate is the share of cases with that verdict |
| Scoring.FirstRunPasses | app/eval/runner.py:245-251 | without a baseline, or when the run is to set it, the gate passes and names no baseline |
| Scoring.SlowerNeverPasses | app/eval/runner.py:245-256 | pointwise slower searches never turn a failing gate into a passing one |
| Scoring.GateDoesNotDrift | app/eval/runner.py:79-122 | over any sequence of runs the gate holds a run to the run that last set the baseline, or to the first, however many passed in between |
| Runner.EvalRunner.ClearUserNamespace | app/eval/runner.py:206-233 | both stores after the clearing and whether it returns, for every failure of its commit and its two graph deletes |
| Runner.ClearSucceeds | app/eval/runner.py:206-233 | a clearing that returns has removed rows, events and edges, repeated graph deletes included |
| Clearing.ClearKeepsTheRest | app/eval/runner.py:211-233 | the user's rows, the events about them and the user's edges go, and everything else stays as often as it was there |
| Clearing.KeptInOrder | app/eval/runner.py:215-217 | the events that stay keep their order |
| Clearing.ClearingIsLocal | app/eval/runner.py:206-233 | wherever a clearing stops, every search of every other user is unchanged |
| Clearing.ClearingIsRepeatable | app/eval/runner.py:206-233 | a clearing after a stopped one gives what one clearing gives |
| Clearing.ClearReturnsIff | app/eval/runner.py:206-233 | a clearing returns exactly when its commit, if there was anything to commit, and both graph deletes succeeded, and leaves the edges alone when one before the last failed |
| Runner.EvalRunner.SeedMemories | app/eval/runner.py:147-166 | clearing and the seed loop leave the stores, labels and flagged ids of the specification, or stop where the backend raises |
| Runner.EvalRunner.RunOneCase | app/eval/runner.py:141-203 | clear, seed, search, classify, for every case and prior state |
| Runner.EvalRunner.CollectCases | app/eval/runner.py:61-68 | the case loop threads the stores through the cases and ends early exactly when one raises |
| Runner.EvalRunner.RunEval | app/eval/runner.py:39-125 | the metrics are those of the collected results and the verdict is the gate's |
| Verdict.CaseCompletesIff | app/eval/runner.py:147-166 | with working stores a case completes exactly when one uuid was drawn per seed and those of the stored seeds are new |
| Verdict.ClassifyPrecedence | app/eval/classifier.py:37-44 | on every input, by places in the retrieved list: `false_fact` iff a flagged memory is retrieved, `stale_fact` iff none is and an inactive one is, `retrieval_miss` iff all are active and unflagged and the expected one is missing, else `none` |
| Verdict.InactiveRowIsStale | app/eval/classifier.py:40-41 | an inactive row of the user at any place of a list without flagged memories makes the case `stale_fact` |
| Verdict.StaleOnlyByRow | app/eval/runner.py:236-242 | and only a retrieved inactive row of that user does |
| Verdict.VerdictBySeeds | app/eval/runner.py:147-189 | verdict, score and expected memory of a completed case by its seeds: the expected memory is that of the last stored seed of the expected name, a retrieved memory of a seed marked as false fact makes it `false_fact`, and at most five are retrieved |
| Verdict.SeedsMark | app/eval/runner.py:147-169 | after the seed loop labels, flagged ids and the namespace's rows are exactly those of the stored seeds, filed under the agent "eval" and the case's id |
| Verdict.NeverStale | app/eval/classifier.py:37-44 | with the rule-based backend no case, from any prior state, is classified `stale_fact` |
| Verdict.StalenessRateIsZero | app/eval/scoring.py:34-35 | so the staleness rate of every evaluation is zero |
| Verdict.SmallCaseVerdict | app/eval/runner.py:152-189 | with at most five active rows the verdict ignores ranking: `false_fact` iff a flagged row is active, else `retrieval_miss` iff the expected row was superseded, else `none` |
| Hermetic.StoreAlike | app/memory/mock_backend.py:69-103 | the same request under different ids keeps two namespaces equal up to renaming ids and shifting the clock |
| Hermetic.SearchRenames | app/memory/mock_backend.py:111-144 | searches in such namespaces return the same scores and, up to the renaming, the same ids |
| Hermetic.CaseIsHermetic | app/eval/runner.py:141-203 | from any two prior contents of both stores and any ids drawn, a case gives the same verdict and the same expected and retrieved pattern up to an injective renaming |
| Hermetic.EvaluationIsHermetic | app/eval/runner.py:61-78 | two evaluations of the same cases score every case alike and agree on recall, precision, staleness and false-fact rate |
| Mem0Mirror.Mem0MemoryBackend.MirrorEvent | app/memory/mem0_backend.py:202-305 | session and graph after one mirrored item, for every failure of the flush and the graph writes, and whether there is a memory to report |
| Mem0Mirror.Mem0MemoryBackend.MirrorBatch | app/memory/mem0_backend.py:89-100 | the loop mirrors the items up to the first that raises and reports the first one with a row |
| Mem0Mirror.Mem0MemoryBackend.Add | app/memory/mem0_backend.py:59-109 | rows, log and graph for every failure: one commit for the whole batch or a rollback that leaves the graph written; sarcasm and empty batches leave only a NOOP record |
| Mem0Mirror.Mem0MemoryBackend.Delete | app/memory/mem0_backend.py:165-188 | retires an active memory in row and log, then in the graph, stopping where a write fails; changes nothing otherwise |
| Mem0Mirror.CleanAddIsPlay | app/memory/mem0_backend.py:84-101 | without failures a batch is the fold of its actionable items |
| Mem0Mirror.CleanDeleteIsPlay | app/memory/mem0_backend.py:165-188 | and a delete one step of such a history |
| Mem0Mirror.LogReplays | app/memory/mem0_backend.py:89-258 | after every sequence of batches and deletes, whatever fails in them, each row's content and activity is the replay of its log entries, and each UPDATE or DELETE quotes the content the log held before |
| Mem0Mirror.StepGraph | app/memory/mem0_backend.py:260-262 | one step keeps rows and graph coupled exactly when it is not an ADD for an id with an open edge |
| Mem0Mirror.CoupledIffNoReuse | app/memory/mem0_backend.py:260-305 | throughout a history each memory has one open edge when active with a fact-bearing content and none otherwise, if and only if no ADD reuses an id with an open edge |
| Mem0Mirror.ReuseOpensTwo | app/memory/mem0_backend.py:260-262 | the same ADD mirrored twice leaves two open edges |
| Mem0Mirror.FlawlessRunIsPlay | app/memory/mem0_backend.py:84-188 | a history of calls without failures is one history of mirrored items and deletes |
| Mem0Mirror.LostCommitOrphansEdge | app/memory/mem0_backend.py:91-101 | a batch whose commit fails leaves an open edge for a memory that does not exist |
| Mem0Outcomes.AnswerIsObeyed | app/memory/mem0_backend.py:73-101 | after a batch without failures, for every memory: if the last ADD, UPDATE or DELETE about it is a DELETE it has no open edge and no active row; if it is another, an active row with that content, its embedding and an open edge stating its fact; if there is none it is untouched. Existing rows keep their owner, edges end only at that moment, and the log grows by one entry per such result, or by one NOOP record if there is none |
| Mem0Outcomes.ActionableInOrder | app/memory/mem0_backend.py:84-91 | the items mirrored are exactly the results with one of the three events, in order |
| Mem0Outcomes.SarcasmIsNotMirrored | app/memory/mem0_backend.py:69-74 | a sarcastic text leaves rows and graph alone whatever Mem0 would have said, and one NOOP record if it commits |
| Mem0Outcomes.AddIsAtomic | app/memory/mem0_backend.py:89-101 | whatever fails in a batch, rows and log are those of the whole batch or those of before |
| Mem0Outcomes.DeleteIsObeyed | app/memory/mem0_backend.py:165-188 | a delete retires an active row, logs its content and then ends its open edges, stopping at a write that fails; any other memory is left alone |
| Mem0Outcomes.ReportsTheFirst | app/memory/mem0_backend.py:89-100 | the memory reported is that of the first mirrored item that has a row afterwards, none if no item has |
| OrphanedEdges.AddAnchoredIff | app/memory/mem0_backend.py:89-101 | when every edge names a row, it still does after a batch exactly when the batch ends in a commit, has nothing to mirror, or links no id without a row among the items it reaches |
| OrphanedEdges.AddOrphans | app/memory/mem0_backend.py:89-101 | from any state: a batch that commits gives rows to the orphans it writes, any other orphans what it linked without a row |
| OrphanedEdges.OrphansExactly | app/memory/mem0_backend.py:89-305 | after every history, whatever fails, the ids named by an edge and without a row are the strays of failed batches that no later batch has adopted |
| OrphanedEdges.AnchoredIffNeverStrays | app/memory/mem0_backend.py:89-305 | every edge names a row throughout a history if and only if no batch that fails to commit links a stray |
| RateLimit.RateLimiter.AllowInRedis | app/security.py:91-101 | counter, expiry and answer for every way Redis can fail |
| RateLimit.RateLimiter.AllowInMemory | app/security.py:103-111 | count and window start of the client's slot |
| RateLimit.RateLimiter.AllowRequest | app/security.py:77-89 | Redis first, then the in-memory window, and open when the limit is not positive or the window has no length |
| RateLimit.WindowsAgree | app/security.py:94-105 | the integer window of Redis and the remainder-based window start in memory are the same window |
| RateLimit.ExpiryAfterWindow | app/security.py:94-98 | a key's expiry never falls inside its own window |
| RateLimit.RateKeyInjective | app/security.py:95 | clients and windows never share a counter, whatever characters the client id has |
| RateLimit.WindowBound | app/security.py:77-111 | each limiter admits a client at most `limit` times per window, so both together at most twice that, for every trace and every pattern of Redis failures |
| RateLimit.IntervalBound | app/security.py:77-111 | in any interval no longer than a window, at most twice the per-window bound |
| RateLimit.WithinLimitNeverRefused | app/security.py:77-111 | a client with at most `limit` requests in a window is never refused, whatever Redis does |
| RateLimit.HealthyIsExact | app/security.py:91-101 | with Redis up, a request passes exactly when it is among the first `limit` of its window |
| RateLimit.CountersAreExact | app/security.py:91-98 | in every trace the counter of a client and window is the number of its requests that reached Redis, with the expiry the first of them set |
| RateLimit.CounterLeaksIff | app/security.py:96-98 | a counter outlives the window after its own, and then for ever, exactly when its first request lost the EXPIRE |
| RateLimit.RedisDecides | app/security.py:77-101 | every decision by what happened: Redis admits while fewer than `limit` earlier requests of the window reached it, and the in-memory window decides exactly when Redis is unreachable, loses a reply, fails to close, or fails the EXPIRE of a window's first request |
| RateLimit.NoLimitNeverRefuses | app/security.py:80-82 | a limit that is not positive admits every request and counts none |
| RateLimit.FallbackAdmitsIff | app/security.py:85-111 | a request on which Redis raises is admitted exactly when fewer than `limit` earlier requests of its client in its window fell back |
| RateLimit.FailsOpenIff | app/security.py:62-111 | errors of Redis refuse nobody exactly when no client falls back more than `limit` times in a window |
| RateLimit.OutageRefuses | app/security.py:85-111 | with Redis unreachable, the request after `limit` others of its client at one instant is refused |

## Left out

- Interleaving.InterleavingIsSound: says nothing about per-key lists or coupling, because two adds of one key read and write two stores without a common lock; those claims are for sequential histories.
- SearchCache.ServeInvariant: covers the HTTP handlers one after the other; the benchmark writes through the backend without invalidating, and overlapping handlers have the 60-second bound and the condition of `Staleness.HitIsCurrentIff`.
- SearchCache.CoherentIffHealthy: the converse is for answers that show every active row and have room for one more; an answer that is already full can survive a change by the luck of the ranking.
- Runner.EvalRunner.SeedMemories: seeds through working stores; `Verdict.CaseCompletesIff` says when a case then completes, and the benchmark theorems are about the cases that do.
- Mem0Mirror.CoupledIffNoReuse: failure-free histories; what failures leave of the coupling is the statement about orphans in `OrphanedEdges`.
- Mem0Mirror.Mem0MemoryBackend.Add: one clock value per operation; an exception of Mem0 itself comes before every write and is not a case of its own.
- CacheKeys.PatternCoversUser: user ids containing `[` or a backslash are outside the glob matching modelled.
- Retrieval.ScoreBounds: exact reals; floating-point rounding is not modelled, `round(…, 6)` is an arbitrary function, where needed monotone or keeping 0 and 1 apart, and a vector's magnitude is a given number whose square is the sum of squares.
- RateLimit.WindowBound: one process with a clock that does not go back, no eviction or restart of Redis inside a window; several workers share the Redis counter but not the in-memory one.
- Timestamps are logical: each operation has its own instant, so equal `created_at` values in one backend do not arise.
- A graph write that times out and is applied only after its own retry finished is not modelled; an attempt takes effect before the next one starts or never.
- FastAPI wiring, tokens, metrics, tracing, logging and health checks: plumbing without state of its own.
- SQLAlchemy, Postgres, Neo4j and Redis internals: abstract stores with an atomic commit, atomic graph writes and a map with expiry times.
- The `User`, `Memory` and `OWNS` graph nodes and `updated_at`: nothing modelled reads them.
- `list`, the serializers, JSON encoding of cached results and the `total` and `cache` reply fields: they would add only easy members.
- The fact pattern, entity normalization, sarcasm cues (app/memory/mock_backend.py:270-294) and the embedding: arbitrary functions here.
- Mem0 itself, `_normalize_results`, `_coerce_uuid` and the Mem0 search: what Mem0 answers is an arbitrary list of items with uuids.
- Reading datasets and baseline files, measuring latencies and storing the run report: their values are parameters.
