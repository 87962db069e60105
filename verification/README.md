# NexusAI: verified model of its algorithms and state machines

NexusAI is a multi-tenant question-answering service: documents are uploaded, cut into
chunks, embedded and indexed; questions are answered from the chunks a hybrid search
finds, streamed to a browser, cached per workspace, rate limited and authenticated with
rotating refresh tokens. This project models the parts of it that are algorithms or
protocols and proves what they promise, for all inputs and all runs. Nothing was
executed; every statement below is a theorem about the model.

| file | what it models |
|---|---|
| `Text`, `Chunker` | character classes, `findall` scans, stripping; overlapping character windows |
| `Ranking`, `Lists` | Python's stable descending sort as the unique order of positions; list comprehensions |
| `Reals`, `Vectors`, `VectorStore` | cosine scores over exact reals; the in-memory vector index and its operation log |
| `Fusion`, `Retrieval`, `Context` | reciprocal-rank fusion, keyword scan, re-ranking, budget packing; the layout of the context |
| `Ingestion`, `IndexAgreement`, `DocumentService` | document lifecycle with a failure injected at any statement of the ingestion's `try`; its invariant over all runs; the services statement by statement |
| `Lifecycle` | what the operations on documents do, in the terms of their callers |
| `IndexIsolation` | the vector operations of a run, and that tenants never share an id |
| `EndToEnd` | what ingestion guarantees to retrieval |
| `Sse`, `Chat` | the server's frame printer, the browser's deframing loop; cached and streamed answers |
| `BoundedLog`, `SemanticCache`, `AgentMemory` | bounded per-workspace lists against an unbounded log |
| `MockEmbedding` | the hashing bag-of-words embedder |
| `RateLimit` | the fixed-window limiter against its request history |
| `RefreshTokens` | refresh-token rotation with ghost token families |

Classes and methods follow the source's imperative code; each is proved equal to a
specification function (`Step`, `Ingest`, `KeywordHits`, ...), and the results are lemmas
about runs of those functions.

Where the code and its documentation disagree, the model follows the code:

- `app/models/document.py` says that the same content uploaded twice resolves to the
  existing document. After a deletion it does not: the unique constraint covers deleted
  rows, the lookup skips them, and the upload raises. `IndexAgreement.UploadSucceedsExactlyWhen`
  gives the exact condition, `IndexAgreement.ReuploadAfterDeletionRaises` a run that meets it.
- `app/core/ratelimit.py` speaks of a rolling window. Windows are aligned to multiples of
  the window length, so an interval of that length can admit twice the limit
  (`RateLimit.BoundIsReached`). An interval is sure to keep the limit if and only if it
  lies in one window (`RateLimit.RollingLimitExact`).
- A negative `embedding_batch_size` makes `_batches` empty, so ingestion reports success
  without writing any vector; zero raises. This affects that one document only, until its
  next successful ingestion: `IndexAgreement.IndexAgreesAfterRuns` states the exact
  condition over all runs, `IndexAgreement.NegativeBatchRun` reaches the exception.
- A failed re-ingestion sets `chunk_count` to 0 although the document's old chunk rows come
  back with the rollback and stay visible to the keyword scan. The count is true if and only
  if there were no rows (`IndexAgreement.FailureLeftovers`), over runs unless the document
  failed after an ingestion of it had succeeded (`IndexAgreement.IndexAgreesAfterRuns`);
  `IndexAgreement.FailedReplayRun` reaches the exception.
- At most `4 * limit` matching rows reach the keyword scan's ranking, in database order.
  With more of them the best chunk can be lost (`Retrieval.LimitIsExact`).

## Model

| member | source | states |
|---|---|---|
| Text.RunsExact | app/services/retrieval.py:48-49 | the `findall` scan returns exactly the maximal runs of the character class |
| Text.CountIsScan | app/services/ingestion/chunker.py:23-24 | the word estimate equals the number of run starts met from left to right |
| Text.StripKeepsWordCount | app/services/ingestion/chunker.py:48-55 | stripping a window does not change its number of words |
| Text.StripKeepsInk | app/services/ingestion/chunker.py:48-50 | stripping removes no non-blank character |
| Text.TokenOccurs | app/services/retrieval.py:82-95 | every token of a text is a non-empty substring of the lowered text |
| Text.TokensIgnoreCase | app/services/retrieval.py:48-49 | texts that differ only in the case of ASCII letters have the same tokens |
| Text.TokenAlphabet | app/services/retrieval.py:23 | tokens are non-empty and consist of lower-case letters and digits |
| Text.WholeToken | app/services/retrieval.py:23 | any non-empty text of lower-case letters and digits is one token |
| Chunker.ChunkPages | app/services/ingestion/chunker.py:32-64 | the nested loops with their running ordinal yield the stripped non-blank windows of every page, numbered across pages, or the size error |
| Chunker.CutPage | app/services/ingestion/chunker.py:47-63 | the inner loop appends exactly one page's windows after the chunks found before |
| Chunker.OverlapKeepsStretch | app/services/ingestion/chunker.py:32-64 | any stretch of at most overlap + 1 characters with non-blank ends occurs whole in some chunk |
| Chunker.OverlapKeepsToken | app/services/ingestion/chunker.py:32-64 | every token of at most overlap + 1 characters is a whole token of some chunk of its page |
| Chunker.TokenBoundExact | app/services/ingestion/chunker.py:38-40 | tokens of length n survive chunking of every text if and only if n is at most the clamped overlap plus one |
| Chunker.PageTokenCounts | app/services/ingestion/chunker.py:47-63 | the token counts of a page of T words and N chunks sum to at least T, and without overlap to at most T + N - 1 |
| Chunker.ConservationExact | app/services/ingestion/chunker.py:40-63 | the chunks' non-blank characters are those of every page, in order, if and only if the clamped overlap is zero |
| Chunker.ChunksWellFormed | app/services/ingestion/chunker.py:42-64 | ordinals are exactly 0..n-1 across pages; no chunk is blank or longer than the size; token counts are the chunks' own |
| Chunker.TokenReachesChunk | app/services/ingestion/chunker.py:42-64 | a short token of any page is a token of some numbered chunk that carries that page |
| Chunker.Clamped | app/services/ingestion/chunker.py:40 | the overlap applied is the configured one if that lies in [0, size - 1], else the nearer end of that range |
| Chunker.ChunkSource | app/services/ingestion/chunker.py:43-63 | every chunk is a stripped window of one page at a multiple of the step, and carries that page's number and section |
| Chunker.ChunksExist | app/services/ingestion/chunker.py:44-46 | there are chunks if and only if some page has a character that is not blank |
| Ranking.OrderSorts | app/services/retrieval.py:119 | the stable sort visits every position once, greater keys first, ties in original order |
| Ranking.OrderUnique | app/services/retrieval.py:119 | there is only one such order, so any stable descending sort is this one |
| Ranking.TwoSortsAreOne | app/services/retrieval.py:119-131 | a stable sort by score followed by a stable sort by (overlap, score) is one sort by (overlap, score, position) |
| Ranking.TopUnique | app/ai/vectorstore/memory.py:56-57 | a list of positions in which each beats all later and all omitted ones is the beginning of the sorted order, so that property determines every cut-off ranking |
| Vectors.ScoreIsSignedCosine | app/ai/vectorstore/memory.py:14-20 | the modelled score is the signed square of the cosine computed with any exact roots |
| Vectors.SignedSquareMonotone | app/services/semantic_cache.py:63-66 | squaring with sign preserves and reflects every comparison the code makes |
| Vectors.CauchySchwarz | app/services/semantic_cache.py:20-26 | the dot product truncated by `zip` is still bounded by the full norms |
| Vectors.ScoreAtMostOne | app/services/semantic_cache.py:20-26 | no score exceeds 1, for vectors of any lengths |
| Vectors.ScoreSelf | app/services/semantic_cache.py:24-26 | a nonzero vector scores 1 with itself, the zero vector scores 0 with everything |
| Vectors.DotAdds | app/ai/vectorstore/memory.py:15 | the dot product is additive in both arguments |
| Vectors.DotTimes | app/ai/vectorstore/memory.py:15 | a factor of one argument is a factor of the dot product, negative ones included |
| Vectors.DotUnit | app/ai/vectorstore/memory.py:15 | a unit vector picks the coordinate of the other vector, or 0 past its end |
| Vectors.DotTruncates | app/ai/vectorstore/memory.py:15 | the dot product is that of both vectors cut to the shorter length |
| Vectors.ScoreIgnoresLength | app/ai/vectorstore/memory.py:14-20 | a positive factor of a vector does not change its score |
| Vectors.ScoreNegates | app/ai/vectorstore/memory.py:14-20 | turning a vector round negates its score |
| Vectors.OppositeScore | app/ai/vectorstore/memory.py:14-20 | a nonzero vector and its opposite score -1 |
| VectorStore.InMemoryVectorStore.constructor | app/ai/vectorstore/memory.py:26-27 | a new index is empty |
| VectorStore.InMemoryVectorStore.Upsert | app/ai/vectorstore/memory.py:32-34 | ids stay distinct; the batch is assigned one record after the other |
| VectorStore.InMemoryVectorStore.DeleteByDocument | app/ai/vectorstore/memory.py:59-67 | an undisturbed deletion leaves exactly the other records in order; an interrupted one has removed a prefix of the keys |
| VectorStore.InMemoryVectorStore.Search | app/ai/vectorstore/memory.py:36-57 | the hits are `min(limit, n)` different records of the workspace, each scored with its cosine, best first and the earlier inserted first among equals, and no record of the workspace left out beats a hit |
| VectorStore.PutEffect | app/ai/vectorstore/memory.py:34 | assigning a known id replaces in place, a new id goes last |
| VectorStore.DroppingKeysDeletes | app/ai/vectorstore/memory.py:60-67 | deleting the collected keys one by one removes exactly the document's records in the workspace |
| VectorStore.StoreRefinesLog | app/ai/vectorstore/memory.py:32-67 | after any run of upserts, single removals and deletions the dict holds exactly the latest surviving record of every id, in the order the ids last became present |
| VectorStore.SearchRefinesLog | app/ai/vectorstore/memory.py:36-57 | hits are surviving records of the workspace, each before all it outranks (score, then age), and smaller limits give prefixes |
| VectorStore.RankingIsComplete | app/ai/vectorstore/memory.py:43-57 | the ranking misses no surviving record of the workspace |
| VectorStore.WorkspacesAreIsolated | app/ai/vectorstore/memory.py:43-47 | with disjoint ids, a workspace's records are those its own operations alone would have built |
| VectorStore.SearchIsIsolated | app/ai/vectorstore/memory.py:36-57 | operations on other workspaces never change a search |
| Fusion.Fuse | app/services/retrieval.py:112-122 | the two dict updates of the nested loops accumulate every id's reciprocal-rank sum and its first appearance, and the result is sorted by those sums |
| Fusion.FirstSeenExact | app/services/retrieval.py:118 | `setdefault` keeps every id once, from its earliest position |
| Fusion.FusedOrder | app/services/retrieval.py:119-122 | in the fused list a chunk precedes another if and only if its score is higher, or equal and its id appeared first; scores are the reciprocal-rank sums and no id is listed twice |
| Fusion.ConsensusBoundExact | app/services/retrieval.py:24-117 | for lists of at most m and n distinct ids, a chunk in both always outscores a chunk in one if and only if (60 + m)(60 + n) < 61(120 + m + n) |
| Fusion.SixtyOneIsTheLimit | app/services/retrieval.py:24 | for two lists of at most k ids the guarantee holds if and only if k is at most 61 |
| Fusion.ConsensusFirst | app/services/retrieval.py:112-122 | within the bound, every chunk both searches found is ranked before every chunk only one found |
| Retrieval.Keyword | app/services/retrieval.py:76-109 | the scan loop returns the best-overlapping of the fetched rows, and nothing for a query without tokens |
| Retrieval.KeywordOrder | app/services/retrieval.py:95-109 | hits are scored by the number of query tokens they share, at least one, and come most first |
| Retrieval.MatchesExact | app/services/retrieval.py:82-90 | a row matches if and only if its document is live and of the workspace and its lowered text contains some query token |
| Retrieval.PrefilterLosesNothing | app/services/retrieval.py:79-109 | if at most 4 * limit rows match the substring filter, the scan returns exactly the `limit` best chunks sharing a token with the query |
| Retrieval.LimitIsExact | app/services/retrieval.py:91 | for a positive limit, n matching rows are ranked faithfully whatever they are if and only if n is at most 4 * limit |
| Retrieval.RerankOfFuseIsOneRanking | app/services/retrieval.py:112-132 | fusing and re-ranking is one ranking of the distinct candidates by (overlap, fused score, first appearance) |
| Retrieval.Assemble | app/services/retrieval.py:135-156 | keeps the longest prefix within the budget but at least one chunk; the context is exactly the lines "[i] text" of the kept chunks in order, each line at its place and separated from the next by one newline |
| Context.JoinedIsLaidOut | app/services/retrieval.py:144-156 | joining the numbered lines puts line i at the sum of the earlier lengths: bracketed number, space, whole text, one newline unless last, and nothing else |
| Context.DecimalIsNumeral | app/services/retrieval.py:144 | the label of line i is the decimal numeral without leading zero whose value is i |
| Context.ContextSplitsBack | app/services/retrieval.py:156 | if no text has a newline, splitting the context at newlines gives back every text after its number |
| Retrieval.Retrieve | app/services/retrieval.py:159-174 | the citations are the longest prefix within the budget (but at least one) of the one ranking of all vector and keyword hits, cut to `rerank_top_k`; each beats all later and all uncited candidates by overlap, fused score and first appearance; the context is laid out as the numbered lines of exactly these citations |
| Retrieval.NothingBetterIsLeftOut | app/services/retrieval.py:125-132 | any prefix of the single ranking cites different candidates, each beating those cited after it and those not cited at all |
| Sse.Client.HandleSse | app/web/index.html:253-262 | one frame adds the text of a token event or renders the citations of a done event; unreadable frames change nothing |
| Sse.Client.Send | app/web/index.html:264-291 | after every read the screen shows the text of the frames complete so far, the buffer holds the incomplete rest, and a broken connection shows its error |
| Sse.DeframeAppend | app/web/index.html:278-288 | deframing the leftover with the next piece gives what deframing the whole stream would, for every stream and cut |
| Sse.RestHasNoBreak | app/web/index.html:283-286 | the inner loop leaves no complete frame in the buffer |
| Sse.PrintDeframes | app/api/v1/conversations.py:140-149 | the printed stream splits into one frame per event, nothing left over |
| Sse.BodyRoundTrip | app/api/v1/conversations.py:149 | the browser parses a printed frame back into exactly its event |
| Sse.FrameLines | app/api/v1/conversations.py:149 | a frame is the line `event: token` or `event: done` followed by the line `data: ` with the JSON |
| Sse.StreamRoundTrip | app/web/index.html:264-291 | however the printed stream is cut into reads, the browser has always handled a prefix of the events and finally exactly them, with an empty buffer |
| BoundedLog.BoundedIsTailOfLog | app/services/semantic_cache.py:76-83 | after any run a workspace's entries are the last min(n, max_entries) stores to it since the last clear |
| SemanticCache.SemanticCache.Lookup | app/services/semantic_cache.py:50-67 | the scan returns the value at the position specified by `BestIndex` |
| SemanticCache.SemanticCache.Store | app/services/semantic_cache.py:69-79 | appends to the workspace's list and drops the oldest entry beyond the bound |
| SemanticCache.SemanticCache.Clear | app/services/semantic_cache.py:81-83 | empties every workspace |
| SemanticCache.BestIndexExact | app/services/semantic_cache.py:60-67 | the scan ends on the latest entry of greatest score, or on none if and only if no entry reaches the threshold |
| SemanticCache.LookupRefinesLog | app/services/semantic_cache.py:50-83 | after any run a lookup returns the latest best entry among the last max_entries stores |
| SemanticCache.MissRefinesLog | app/services/semantic_cache.py:50-83 | after any run a lookup misses if and only if none of the last max_entries stores reaches the threshold |
| SemanticCache.ReadYourWrites | app/services/semantic_cache.py:60-79 | a lookup right after a store of the same vector returns the stored value, whatever else is cached, exactly when the cache has room and the threshold is at most the vector's self-similarity |
| SemanticCache.StillCached | app/services/semantic_cache.py:50-79 | later lookups of that vector still hit until max_entries further stores to the workspace |
| SemanticCache.SurvivalExact | app/services/semantic_cache.py:76-79 | for a positive threshold the vector reaches, an entry is sure to be hit after n further stores to its workspace if and only if n is below max_entries |
| AgentMemory.AgentMemory.Recall | app/services/agent/memory.py:65-77 | the summaries of `min(top_k, n)` different entries (none for top_k <= 0), the most similar first and the oldest first among equals, and no entry left out beats a recalled one |
| AgentMemory.AgentMemory.Remember | app/services/agent/memory.py:79-89 | appends to the workspace's list and drops the oldest entry beyond the bound |
| AgentMemory.AgentMemory.Clear | app/services/agent/memory.py:91-93 | empties every workspace |
| AgentMemory.RecallRefinesLog | app/services/agent/memory.py:65-93 | after any run recall is the stable top_k of the last max_entries summaries |
| AgentMemory.RecallPrefersOlder | app/services/agent/memory.py:72-77 | an earlier recalled summary is more similar, or equally similar and older |
| RateLimit.RateLimitMiddleware.Dispatch | app/core/ratelimit.py:47-70 | one request updates the hit table and is decided as `Step` says; exempt requests touch nothing |
| RateLimit.ExemptionExact | app/core/ratelimit.py:21-51 | a disabled limiter and the six listed path prefixes admit everything and leave the table alone; any other request is counted in its current window and changes no other client's entry |
| RateLimit.LimiterRefinesHistory | app/core/ratelimit.py:53-61 | over any monotone trace the table holds every client's exact request count in its latest window |
| RateLimit.DecisionByCount | app/core/ratelimit.py:59-70 | a request is admitted if and only if it is among the first `limit` of its client in its window |
| RateLimit.WindowAdmits | app/core/ratelimit.py:53-70 | every window admits exactly min(n, limit) of a client's n requests |
| RateLimit.SpanAdmits | app/core/ratelimit.py:53-70 | a closed interval admits at most the limit for every window it meets |
| RateLimit.IntervalBoundExact | app/core/ratelimit.py:53-70 | "at most n of any client in [from, to]" holds of all monotone traces if and only if n is at least the limit times the number of windows the interval meets |
| RateLimit.RollingLimitExact | app/core/ratelimit.py:3-4 | for a positive limit, "at most limit in [from, to]" holds of all monotone traces if and only if both ends lie in the same window |
| RateLimit.IntervalAdmits | app/core/ratelimit.py:53-70 | any closed interval as long as the window admits at most 2 * limit requests of a client |
| RateLimit.BoundIsReached | app/core/ratelimit.py:53-70 | that bound is reached for every window length, limit, client and start of the interval |
| RateLimit.ClientsAreIsolated | app/core/ratelimit.py:57-63 | a client's decisions are those its own requests alone would have led to |
| RateLimit.RetryAfterIsLeast | app/core/ratelimit.py:63-69 | Retry-After (section 10.2.3 of RFC 9110) is the least whole number of seconds that reaches a later window, lies in [1, window], and the outer `max` never acts |
| RateLimit.WaitingResets | app/core/ratelimit.py:59-69 | a rejected client that waits that long is counted from 1 again, and admitted exactly when the limit is positive, whatever other clients and exempt requests come in between |
| RefreshTokens.AuthService.IssueTokens | app/services/auth_service.py:25-33 | records exactly one new unrevoked token under a new id |
| RefreshTokens.AuthService.GetActive | app/services/token_service.py:31-39 | finds a token if and only if it is known, unrevoked and not yet expired |
| RefreshTokens.AuthService.Revoke | app/services/token_service.py:42-45 | sets the revocation time of that token only |
| RefreshTokens.AuthService.Login | app/services/auth_service.py:61-66 | issues tokens for an authenticated user, otherwise changes nothing |
| RefreshTokens.AuthService.Refresh | app/services/auth_service.py:69-84 | revokes the presented token and issues its successor, or changes nothing |
| RefreshTokens.AuthService.Logout | app/services/auth_service.py:87-94 | revokes the presented active token, or changes nothing |
| RefreshTokens.FamiliesStayRotated | app/services/auth_service.py:61-94 | over every run: a login's rotation chain has at most one unrevoked token and it is the newest, every token is redeemed at most once, chains never change user, and unrevoked rows are logins minus logouts |
| RefreshTokens.ObserveKeeps | app/services/auth_service.py:61-94 | each single step keeps all of that |
| RefreshTokens.RowsChange | app/services/auth_service.py:61-94 | a login adds one unrevoked row, a logout removes one, a refresh keeps their number, nothing else changes it |
| RefreshTokens.NeverReactivated | app/services/token_service.py:31-45 | a revoked or expired token never becomes active again |
| RefreshTokens.ExchangeExact | app/services/token_service.py:22-39 | in every run, a token issued by a login or refresh is later exchanged if and only if less than its lifetime has passed, no successful refresh or logout presented it, and the presented subject is the user it was issued to and active; logout needs only the first two |
| RefreshTokens.UnissuedIsRefused | app/services/token_service.py:33-36 | a token that no operation issued is never exchanged |
| RefreshTokens.LoggedOutFamilyIsFinished | app/services/auth_service.py:87-94 | a chain whose newest token was revoked never grows again |
| MockEmbedding.EmbedOne | app/ai/embeddings/mock.py:31-41 | the in-place loop over tokens and the normalisation compute `Embedding` |
| MockEmbedding.RewordingsEmbedAlike | app/ai/embeddings/mock.py:31-41 | texts with the same multiset of tokens get the same vector |
| MockEmbedding.CoordinateCounts | app/ai/embeddings/mock.py:33-37 | a raw coordinate is the number of positive minus the number of negative tokens whose slot it is |
| MockEmbedding.EmbeddingCounts | app/ai/embeddings/mock.py:33-41 | every coordinate of an embedding is that count, divided by the norm if that is not zero |
| MockEmbedding.UnitOrZero | app/ai/embeddings/mock.py:38-41 | every embedding has squared norm 1 or is the zero vector |
| Chat.Conversation.GenerateAnswer | app/services/chat_service.py:38-113 | with the cache enabled, the answer comes from the cache if and only if some entry of this workspace reaches the threshold, and then from the latest best of them; the user turn and one assistant turn with that text and those citations are stored; a miss is stored as one entry of this workspace, no other workspace's entries change; if the embedder, retrieval or the model raises, nothing changes |
| Chat.AskAfter | app/services/chat_service.py:63-93 | after any history, a question is answered from the cache if and only if one of the last max_entries stores of its workspace reaches the threshold, with the latest best of those; otherwise the history grows by the produced answer |
| Chat.HitOverHistory | app/services/chat_service.py:63-69 | the same of the specification function, for every log |
| Chat.OwnHistoryOnly | app/services/semantic_cache.py:57-59 | two histories that agree on a workspace give its questions the same answers and leave it the same entries; a question leaves other workspaces' entries alone |
| Chat.Conversation.StreamAnswer | app/services/chat_service.py:116-182 | yields one token event per delta and a final done event after storing the question and the joined text with its citations; a broken stream stores nothing |
| Chat.AskingAgain | app/services/chat_service.py:63-93 | asking again with the same vector gives the same answer, and calls the model exactly when the first call failed or its answer could not be cached |
| Chat.RewordingHitsCache | app/services/chat_service.py:63-69 | a rewording with the same tokens is answered from the cache at any threshold up to 1, provided its vector is not zero |
| Chat.ScreenShowsStoredAnswer | app/services/chat_service.py:156-182 | for every cut of the response the screen shows a prefix of the stored answer and finally exactly it, with its citations rendered once |
| Chat.BrokenStreamShowsPrefix | app/services/chat_service.py:156-159 | if the model breaks off the screen only ever shows a prefix of what it said, and no citations |
| Chat.Exchange | app/web/index.html:264-291 | server, network and browser together: for every cut of the response the screen always shows a prefix of what the model said and finally exactly the stored assistant turn with its citations; a broken stream stores nothing and shows no citation |
| DocumentService.DocumentService.EmbedRows | app/services/ingestion/pipeline.py:76-105 | the batch loop with its running offset pairs every row with its own vector, as embedding row by row would |
| DocumentService.DocumentService.IndexChunks | app/services/ingestion/pipeline.py:59-112 | the statements from the vector deletion to the commit have the effect of `Index`, with a failure at any of them |
| DocumentService.DocumentService.IndexDocument | app/services/ingestion/pipeline.py:51-112 | the statements of the `try` have the effect of `Try`, with a failure at any of them |
| DocumentService.DocumentService.RunIngestion | app/services/ingestion/pipeline.py:30-122 | commit, `try`, rollback and failure record together are the single transition `Ingest` |
| DocumentService.DocumentService.CreateDocument | app/services/document_service.py:58-95 | membership, duplicate lookup, unique constraint, registration and eager ingestion are the step `Create` |
| DocumentService.DocumentService.GetForUser | app/services/document_service.py:137-148 | finds a document exactly for members of its workspace while it is not deleted |
| DocumentService.DocumentService.DeleteDocument | app/services/document_service.py:167-178 | purges the vectors and marks the document, or reports it missing |
| DocumentService.DocumentService.ReprocessDocument | app/services/document_service.py:181-194 | replays ingestion from the stored bytes, or reports document or file missing |
| DocumentService.DocumentService.IngestJob | app/workers/tasks.py:23-37 | the background job ingests live documents and skips missing or deleted ones |
| DocumentService.ProcessingIsInvisible | app/services/ingestion/pipeline.py:47-49 | the intermediate PROCESSING commit leaves no trace in the outcome |
| DocumentService.CutJoins | app/services/ingestion/pipeline.py:26-27 | the batches concatenate to the items, for every positive size |
| IndexAgreement.TryEvolves | app/services/ingestion/pipeline.py:51-112 | wherever it stops, the `try` keeps ids distinct, only drops records of its document and only adds new ones of it |
| IndexAgreement.FailureLeftovers | app/services/ingestion/pipeline.py:113-119 | a failed ingestion records the error and chunk count 0 and restores all rows, so the count is true of them if and only if there were none; it leaves the old vectors, all but the first few of them, none, or the records of the first few new rows, depending on where it failed |
| IndexAgreement.SuccessfulIngest | app/services/ingestion/pipeline.py:57-112 | an ingestion that commits had a nonzero batch size, replaces the document's rows and vectors by the new ones (by none if the batch size is negative) and touches no other's |
| Lifecycle.IngestedDocument | app/services/ingestion/pipeline.py:57-112 | after a committed ingestion the document has one row per chunk of the extracted pages with that chunk's ordinal, text, token count, page and section, one vector per row (none for a negative batch size) with the embedding and payload of that chunk, and status, error and chunk count say so |
| Lifecycle.IngestionSucceeds | app/services/ingestion/pipeline.py:51-112 | an undisturbed ingestion ends indexed if and only if the extractor succeeds, some page is not blank, the chunk size is positive and the batch size is not zero |
| Lifecycle.UndisturbedError | app/services/ingestion/pipeline.py:113-118 | otherwise the recorded error is the first of the extractor's, the chunk size's, the missing text's and the zero batch size's |
| Lifecycle.FaultStrikes | app/services/ingestion/pipeline.py:51-118 | a fault makes an otherwise successful ingestion fail with its error, unless it waits for an embedding batch that does not exist |
| IndexAgreement.IngestKeepsInv | app/services/ingestion/pipeline.py:30-122 | ingestion keeps the invariant wherever a failure strikes and whatever the batch size |
| IndexAgreement.StepKeepsInv | app/services/document_service.py:58-194 | so does every operation, with no operation excluded |
| IndexAgreement.RunKeepsInv | app/services/document_service.py:58-194 | after every run: records name live documents of their own workspace, a record and a row with one id describe the same chunk, checksums are unique, a document has rows exactly when an ingestion of it ever succeeded, every document is as its status promises |
| IndexAgreement.IndexAgreesAfterRuns | app/services/ingestion/pipeline.py:107-119 | after every run a live indexed document's vectors and rows match one to one with equal ids, data and embeddings, as many as `chunk_count`, if and only if its last successful ingestion had no negative batch size; `chunk_count` is the number of rows unless the document failed after having been ingested; a failed document has count 0 and an error, a deleted one no vectors, none is left processing |
| IndexAgreement.AgreementNeedsBatches | app/services/ingestion/pipeline.py:26-27 | a successful ingestion leaves rows and vectors matching one to one if and only if the batch size is not negative |
| IndexAgreement.ReplayRecovers | app/services/document_service.py:181-194 | after any run, reprocessing a live document makes it indexed with rows and vectors matching one to one if and only if its text can be extracted and the batch size is positive |
| IndexAgreement.ReprocessingIsIdempotent | app/services/ingestion/pipeline.py:57-112 | from the same bytes and chunk settings any two successful ingestions leave the same row contents; the vectors are the same too, up to ids, if and only if both or neither batch size is negative |
| IndexAgreement.UploadSucceedsExactlyWhen | app/models/document.py:27 | an upload is answered with a document if and only if no deleted document of the workspace has the same content; otherwise the constraint raises and nothing changes |
| Lifecycle.NewUploadIsNamed | app/services/document_service.py:74-95 | the reply to an upload of new content names a new document with the uploaded name, content and checksum; no other document or file changes |
| Lifecycle.AccessExact | app/services/document_service.py:137-194 | deletion and reprocessing answer "not found" and change nothing exactly for non-members, missing or deleted documents and other workspaces; an allowed deletion marks the document and leaves no vector of it |
| Lifecycle.JobExact | app/workers/tasks.py:23-37 | the background job ingests exactly documents that exist, are not deleted and have a file |
| Lifecycle.DeletionIsFinal | app/services/document_service.py:167-178 | a deleted document stays as it is over any run |
| IndexAgreement.ReuploadAfterDeletionRaises | app/services/document_service.py:74-88 | upload, delete, upload again: the second upload raises and changes nothing, whatever the settings and failures |
| IndexAgreement.NegativeBatchRun | app/services/ingestion/pipeline.py:76-112 | one upload with a negative batch size ends indexed with rows and without any vector |
| IndexAgreement.FailedReplayRun | app/services/ingestion/pipeline.py:113-118 | an indexed document whose reprocessing fails at its commit is failed with chunk count 0 while its rows are still there |
| IndexAgreement.RunSpares | app/services/document_service.py:58-194 | operations on other documents leave a document and its rows as they are, over any run |
| IndexIsolation.IngestLogged | app/services/ingestion/pipeline.py:51-112 | the vector operations of an ingestion, wherever it fails, explain the index it leaves and touch only new ids or ids of its own workspace |
| IndexIsolation.RunLogged | app/services/document_service.py:58-194 | after any run the index is what its vector operations lead to, and no two workspaces ever touch the same id |
| IndexIsolation.TenantsAreIsolated | app/ai/vectorstore/memory.py:36-57 | after any run a workspace's records and searches are those its own vector operations alone would have led to |
| EndToEnd.CitationsNameLiveDocuments | app/services/retrieval.py:159-174 | after every run, whatever failed in it and whatever its batch sizes, every candidate of a retrieval belongs to a live document of the asking workspace |
| EndToEnd.CitationsQuoteSources | app/services/retrieval.py:62-106 | after every run, every candidate of a retrieval repeats field by field a chunk row or what was stored with a vector |
| EndToEnd.SearchesAgree | app/services/retrieval.py:118 | a chunk found by both searches is described identically by them, so keeping the first of the two loses nothing |
| EndToEnd.ConsensusAfterRuns | app/services/retrieval.py:170-172 | after any run, with at most 61 hits per search, every chunk both searches find is fused ahead of every chunk only one finds |
| EndToEnd.UploadedTokenIsFound | app/services/retrieval.py:76-109 | once an ingestion has succeeded, a short token of an extracted page is found by any query that contains it, in a chunk of that document, whatever happens to other documents afterwards, if the row limits cut nothing off |

## Left out

- FastAPI and Starlette plumbing, schemas, routers, DOM rendering, workspace CRUD, metrics and error envelopes: no algorithm in them.
- SQLAlchemy and SQL: tables are maps and sequences with commit and rollback as copies; the order of query results without ORDER BY is arbitrary. The `embeddings` provenance rows and timestamps are not part of this model.
- Qdrant, OpenAI, the URL fetcher, the file extractors and Celery: `extract` and `embed` are arbitrary functions, the first of which may fail; an embedder that raises is a fault of the stage `AtEmbed`, and one that returns fewer vectors than texts is excluded.
- `_latest_section`, SHA-256, MD5 slots and signs, JWT decoding and JSON are function parameters; JSON is known only as an invertible encoding into one line that starts with `{` and ends with `}`.
- uuid4 is a counter, so fresh ids are an assumption; two contents with one digest count as the same content, as in the code.
- IEEE rounding and `round(score, 6)`: scores are exact reals, cosines are compared by their signed squares, the score of a search hit is that signed square.
- Server-sent events beyond what this server prints: comments, ids, retry fields and carriage returns of section 9.2 of the WHATWG HTML Standard are not read by the browser code.
- Unicode lowering: only ASCII letters and the Kelvin sign are lowered, which covers every character that Python lowers to exactly one of `[a-z0-9]`; U+0130, which it lowers to two characters, is not. `ilike` is a substring test on text lowered in the same way.
- Concurrency: operations are atomic and run one after the other, and two refreshes of one token do not race although the code takes no row lock.
- Failures outside the `try` of `run_ingestion`, in particular a crash that leaves a document in PROCESSING or between purging vectors and committing a deletion.
- Rate limiting with a non-positive window, changes of settings during a run, and the derivation of the client key.
- Slices with negative limits: `retrieval_top_k`, `rerank_top_k` and search limits are natural numbers (recall's `top_k` is any integer).
- In-place mutation of `RetrievedChunk.score` and sharing of payload dicts: candidates are values.
- Message order by `created_at`, `recent_turns`, `format_memory_block`, the agent orchestrator and LLM usage accounting.
- Answers that stay cached after their documents were deleted: the code has no link between the two, so nothing is claimed.
