# Verification of the lexical retriever's engine

A Dafny model of the parts of the retriever that hold state: the LRU caches, the tokenizer and the
inverted index, the document and search services, the connection pool, the IDF updater, and the
variable expansion of `dotenv.h`. Code that updates things in place is modelled by classes and methods
with loops; every method is proved against a specification function or a step relation, and the
theorems are stated about those, over all inputs, all runs and all interleavings.

`dafny verify dfyconfig.toml` checks everything.

## What the project shows

**The cache** (`RecencyList`, `CacheTraces`, `LruCache`). `LruCache.Cache` is the doubly linked list
between two sentinels plus the map. Each method keeps the list linked both ways, in bijection with the
map, within the capacity, and every node it ever allocated either linked or freed, never both. Each
equals one function on the list of entries in recency order. Over whole traces: a cache with a larger
capacity contains the smaller one and hits whenever it does; the list order is the order of last touch;
the victim is the key touched longest ago; and a get returns exactly the latest put that nothing has
displaced.

**The index and the caches with whole requests as steps** (`Database`, `Engine`, `EngineInvariants`,
`EngineEffects`, `EngineRuns`, `StalePostings`, `Services`, `SearchLoops`, `Ranking`, `SearchMethods`). A
`World` is the two tables, the two caches and the IDF table; `Engine.Next` says what each request may do,
with the choices of the database, hash maps and sort left open. The service methods are proved to take
these steps, and to succeed exactly when their statements work. `EngineEffects` restates every step by
what can be looked up before and after it: what a create adds and evicts, that a read fills no cache, what
a delete takes away, and which postings and documents a search leaves in the caches. In every run
`term_frequency` is the index recomputed from the documents, the document cache agrees with the table,
every cached posting list was the word's full list at some earlier point, rolled-back documents appear
nowhere, and a deleted document is not read again. Searches may still list it, with an empty text:
whatever number of results they ask for, some continuation of the run does so exactly when, at the delete,
a cached posting list mentioned the document and the document was not cached, and five requests reach such
a state.

**Scores** (`SearchSpec`, `Scoring`, `ScoreBounds`, `EngineScores`, `ScoreRuns`, `IdfRuns`). The score of
a document in closed form for every cache state, including the code's asymmetry: a cached query token
counts once per occurrence, a missed one once. With distinct tokens the score does not depend on which
words are cached; with repeated tokens the difference is stated exactly. Scores are bounded by the largest
idf, which the updater's rounds bound through the number of documents alone. For distinct tokens even the
total is within that bound, in every reachable state, exactly when the text's stored frequencies of the
query words sum to at most 1; rounding can break this, and a run with the updater's own values shows it.
Ties can change which documents are returned but never the scores.

**The same requests operation by operation** (`Interleaving`, `InterleavingProofs`, `InterleavingHistory`,
`InterleavingRuns`, `InterleavingLeaks`, `InterleavingLists`, `InterleavingDirty`, `Operations`). Every
cache operation and SQL statement is a separate step of any number of threads. Texts and postings are
never mixed up between documents, the index still matches, and every cached posting list was full in an
earlier state. What breaks is stated too, each with its exact condition and a reachable instance:

- A search that overlaps a delete can put the deleted document back into the cache, where later reads find
  it. A delete is final for readers, in every continuation, exactly when at the deletion of the row the
  document is neither cached nor held by a search that has read it and not cached it yet. (A search that
  collected the text before may still answer with it.)
- Clearing the posting cache does not make a delete final for searches: a search that has grouped its rows
  before caches them afterwards. Some search that starts after the deletion of the row lists the document
  exactly when, at that moment, a list that is cached or grouped but not cached yet mentions it.
- While a create inserts the terms of a document, another thread can come to read it before the commit
  exactly when no insert has failed so far and the text has a token.

**The two models are the same without overlap** (`Serial`, `Serving`, `SerialRuns`). A request whose
operations run without interruption is one step of `Engine` with the same reply, and every step of
`Engine` can be served that way (of the creates, those whose document insert succeeds); so executions
without overlap are the runs of the engine, in both directions.

**The connection pool** (`ConnectionPool`). A state machine over the mutex's critical sections, with
spurious wakeups and signals that may wake several waiters (POSIX.1-2017, System Interfaces,
`pthread_cond_wait` and `pthread_cond_signal`). Connections leave in the order they came, no wakeup is
lost, and once callers stop arriving every schedule ends with every waiter served.

**Tokenizer, IDF round, dotenv** (`CharClasses`, `Tokenizer`, `TokenizerLaws`, `TermFrequency`,
`IdfUpdater`, `Dotenv`). The tokens of a text are a function of its words, and laws determine it: what one
word gives, that joining texts concatenates tokens, and exactly which words round-trip. A value of a .env
file has one of five forms, and one equation for each says what it expands to and whether it resolves.

## Modelling decisions

- Scores and frequencies are exact reals. `to_string` on a float prints six decimals, so the inserted
  value is `TermFrequency.Round6` of the frequency, halves to even. Because of it the bound on searches
  with distinct tokens fails by up to half a unit of the sixth decimal per token; `DistinctBoundIff`
  gives the exact condition on the text and the query, and `SixWordRun` with `SixWordText` a run of the
  system that violates it.
- Whether a statement works is an input of the methods, so their results are stated for every combination
  of failures, per row for the bulk insert; BEGIN and COMMIT succeed. The id of a new row is fresh, given
  as the parameter `generated`.
- A capacity is at least 1: with 0 the eviction branch would unlink the head sentinel. The pool theorems
  about progress need at least one connection.
- `sorted_docs.size() > top_k` compares as unsigned, so a negative `top_k` does not truncate.
- `std::sort` and iteration over hash maps choose any admissible order.
- The cache's mutex makes each of its methods one step, so methods of `LruCache.Cache` are sequential.
- The logarithm is any strictly increasing function with value 0 at 1.
- The repository's own description (`readme.md`, lines 68 and 78) says that a delete goes to the
  database first and then clears the whole cache. The code removes the document from the document cache
  first, clears the posting cache only if it was there, and then deletes the row. The model follows the
  code; `ListedLaterIff` says exactly when searches go on listing the deleted document, and
  `DeletedYetListed` gives such a run.
- `SearchService::search` tokenizes the query as documents are tokenized, so repeated query words are kept.

## Model

| member | source | states |
|---|---|---|
| LruCache.Cache.constructor | include/utils/lru_cache.h:55-68 | an empty valid cache: two linked sentinels, nothing freed |
| LruCache.Cache.Get | include/utils/lru_cache.h:112-133 | returns the entry's value or nothing; the entries become the recency list after a get; nothing is freed |
| LruCache.Cache.Put | include/utils/lru_cache.h:135-168 | the entries become the recency list after a put; frees the last node exactly when a new key meets a full cache |
| LruCache.Cache.Remove | include/utils/lru_cache.h:170-190 | true exactly when the key was cached; only that entry goes, and its node is the one freed |
| LruCache.Cache.Clear | include/utils/lru_cache.h:192-213 | the walk terminates, frees each entry's node once, and leaves an empty valid list |
| LruCache.Cache.Destroy | include/utils/lru_cache.h:70-85 | at the end every node ever allocated has been freed, sentinels included |
| LruCache.Cache.RemoveNode | include/utils/lru_cache.h:97-102 | the chain loses exactly the node at its position and stays linked both ways |
| LruCache.Cache.AddNode | include/utils/lru_cache.h:87-95 | the chain gains the node right after the head sentinel and stays linked both ways |
| LruCache.Cache.MoveToFront | include/utils/lru_cache.h:104-109 | the same nodes with this one first, the others in their old order |
| LruCache.Cache.EntriesMatchMap | include/utils/lru_cache.h:26-31 | the list has distinct keys and finds exactly what the map finds |
| RecencyList.RunWellFormed | include/utils/lru_cache.h:113-213 | after any trace the keys are distinct and the length is within the capacity |
| RecencyList.StepLookup | include/utils/lru_cache.h:113-213 | what each call does to each key: only put, remove, clear and the eviction of the last entry change it |
| CacheTraces.CapacityInclusion | include/utils/lru_cache.h:113-213 | for any trace and capacities c1 <= c2, the smaller list is a subsequence of the larger, which has no fewer free slots |
| CacheTraces.HitsIncluded | include/utils/lru_cache.h:112-133 | every hit of the smaller cache is a hit with the same value in the larger |
| CacheTraces.HitCountMonotone | include/utils/lru_cache.h:113-213 | a larger capacity never has fewer hits on the same trace |
| CacheTraces.ListOrderedByTouch | include/utils/lru_cache.h:28-31 | the list is strictly ordered by last touch (a put, or a get that hit), latest first |
| CacheTraces.VictimIsOldest | include/utils/lru_cache.h:145-154 | a put into a full cache drops a key if and only if it is the one touched longest ago |
| CacheTraces.GetReturnsLatestPut | include/utils/lru_cache.h:113-213 | a get returns v if and only if some put of (key, v) was not since overwritten, removed, cleared or evicted |
| ConnectionPool.Pool.Fill | src/db/connection_pool.cpp:14-47 | succeeds exactly when every connection opens, then the queue holds all in order; otherwise everything opened is deleted once |
| ConnectionPool.Pool.TryAcquire | src/db/connection_pool.cpp:63-77 | one pass of the wait loop: sleeps exactly on an empty queue, else takes the front connection |
| ConnectionPool.Pool.ReleaseConn | src/db/connection_pool.cpp:79-86 | queues the connection at the back and wakes the signalled sleepers |
| ConnectionPool.CallsAdmitted | src/db/connection_pool.cpp:63-86 | any thread outside can acquire and gets the front connection, or sleeps on an empty queue; any holder can release, which wakes a sleeper if there is one |
| ConnectionPool.ReachableConserves | src/db/connection_pool.cpp:63-86 | in every reachable state handed out ++ queued = initial ++ returned, no connection is held twice, and idle plus held is the initial set |
| ConnectionPool.ReachableNoLostWakeup | src/db/connection_pool.cpp:63-86 | in every reachable state with a sleeping thread, no more connections are idle than threads are woken |
| ConnectionPool.SomeWaiterServed | src/db/connection_pool.cpp:63-86 | waiters are never stuck: a woken thread can take a connection now, or after any holder's release, whoever the signal wakes |
| ConnectionPool.DrainTerminates | src/db/connection_pool.cpp:63-86 | without new callers or spurious wakeups every schedule has bounded length |
| ConnectionPool.DrainCompletes | src/db/connection_pool.cpp:63-86 | such a schedule can only end with every thread served and every connection queued |
| Tokenizer.LowerInPlace | src/utils/tokenizer.cpp:31-32 | the word array becomes its lowercase |
| Tokenizer.RemovePunctInPlace | src/utils/tokenizer.cpp:33-34 | the kept characters are compacted to the front, in order |
| Tokenizer.NextWord | src/utils/tokenizer.cpp:26-29 | extracts the next maximal run of non-whitespace, and none exactly at the end |
| Tokenizer.TokenizeText | src/utils/tokenizer.cpp:21-40 | the loop computes the cleaned words of the text in order, without the empty ones and the stopwords |
| CharClasses.StandardClasses | src/utils/tokenizer.cpp:31-34 | white space, punctuation and lower case are those of the C locale |
| TokenizerLaws.StopwordsListed | src/utils/tokenizer.cpp:12-17 | the stopwords are exactly those of the list, by first letter |
| TokenizerLaws.TokenMembers | src/utils/tokenizer.cpp:26-38 | the tokens of a text are exactly its cleaned words that are neither empty nor a stopword |
| TokenizerLaws.CleanConcat | src/utils/tokenizer.cpp:31-34 | cleaning works character by character: punctuation goes, everything else is lowered |
| TokenizerLaws.TokenizeWord | src/utils/tokenizer.cpp:26-38 | a text without whitespace gives its cleaned form as one token, or none if that is empty or a stopword |
| TokenizerLaws.TokenShape | src/utils/tokenizer.cpp:31-38 | every token is nonempty, no stopword, lowercase, without whitespace or punctuation (so without quotes) |
| TokenizerLaws.TokenizeConcat | src/utils/tokenizer.cpp:21-40 | tokenizing texts joined by a whitespace character concatenates their tokens |
| TokenizerLaws.JoinRoundTrip | src/utils/tokenizer.cpp:21-40 | joined words tokenize back to themselves if and only if each has the form of a token |
| TokenizerLaws.TokenizeIdempotent | src/utils/tokenizer.cpp:21-40 | re-tokenizing the joined tokens of any text gives the same tokens |
| TokenizerLaws.TokenizeIgnoresCase | src/utils/tokenizer.cpp:31-32 | texts that differ only in letter case have the same tokens |
| TermFrequency.TokenizeAndCompute | src/utils/tokenizer.cpp:49-72 | one entry per distinct token, with its share of all tokens, in any order |
| TermFrequency.FrequenciesSumToOne | src/utils/tokenizer.cpp:53-71 | the computed frequencies lie in (0, 1] and sum to exactly 1, one per distinct token |
| TermFrequency.VocabularyCounts | src/utils/tokenizer.cpp:57-62 | the counts of the distinct tokens sum to the number of tokens |
| TermFrequency.RoundIsNearestEven | src/db/term_frequency_repository.cpp:31 | q millionths is stored if and only if q is nearest to the value, an even q on a tie |
| TermFrequency.StoredSumNearOne | src/db/term_frequency_repository.cpp:25-31 | after rounding to six decimals a document's n frequencies sum to 1 within n half-units |
| TermFrequency.StoredZero | src/db/term_frequency_repository.cpp:25-31 | a word is stored with frequency 0 exactly when it is at most one token in two million |
| Database.Tables.InsertTermFrequenciesBulk | src/db/term_frequency_repository.cpp:13-62 | true exactly on a nonempty list all of whose upserts work; the upserts that work take effect in order, whatever the others do |
| Database.Tables.GetWordStatsForQuery | src/db/term_frequency_repository.cpp:65-106 | a working statement gives every row of the given words once, a failing one none |
| Database.Tables.GetAllIdfStats | src/db/term_frequency_repository.cpp:109-147 | a working statement gives every indexed word once with its number of documents, a failing one none |
| Database.Tables.DeleteDocument | src/db/document_repository.cpp:140-171 | true exactly when the statement works and the row exists; then it and exactly its term rows are gone, else nothing is |
| Database.UpsertedIsRows | src/db/term_frequency_repository.cpp:25-55 | inserting a new document's computed terms adds exactly its rows of the index |
| Services.DocumentService.InsertAll | src/service/document_service.cpp:12-31 | returns the id exactly when the text has a token and every insert works, with the document and all its terms added; otherwise both tables are as they were |
| Services.DocumentService.CreateDocument | src/service/document_service.cpp:7-48 | returns the id exactly when the text has a token and every insert works; then a create step has stored, indexed and cached it, otherwise nothing changed |
| Services.DocumentService.GetDocumentById | src/service/document_service.cpp:50-75 | takes a read step: the cached text, else the row unless the select fails, without filling the cache |
| Services.DocumentService.DeleteDocumentById | src/service/document_service.cpp:77-102 | true exactly when the statement works and the row exists; the delete step clears the posting cache only if the document was cached |
| SearchMethods.SearchService.LookupTokens | src/service/search_service.cpp:31-51 | splits the tokens into the records of those cached and the list of those missed, touching the cache per token |
| SearchMethods.SearchService.FillCache | src/service/search_service.cpp:60-72 | puts the rows of each word as one list, in some order of the words |
| SearchMethods.SearchService.ScoreDocuments | src/service/search_service.cpp:75-96 | the normalised score of every document that has a record, and of no other |
| SearchMethods.SearchService.Rank | src/service/search_service.cpp:98-103 | a best-first prefix of the scored documents: topK of them if 0 <= topK <= their number, else all, for any order of ties |
| SearchMethods.SearchService.FetchTexts | src/service/search_service.cpp:105-129 | fetches the texts in rank order through the document cache, with selects that fail exactly where the input says |
| SearchMethods.SearchService.Search | src/service/search_service.cpp:12-140 | takes a search step of the engine in which exactly the selects that the inputs say fail |
| EngineInvariants.BehaviourInv | src/service/document_service.cpp:7-102 | every state of every run satisfies the invariant of tables and caches |
| EngineInvariants.IndexIsRecomputed | src/service/document_service.cpp:12-41 | after any run term_frequency equals the index recomputed from the documents, and no document lacks tokens |
| EngineInvariants.CachesCoherent | src/service/document_service.cpp:33-91 | every cached document is the current row; both caches fit |
| EngineInvariants.CachedPostingsAreHistoric | src/service/search_service.cpp:53-73 | every cached list is nonempty and was the word's full posting list at an earlier state of the run |
| EngineInvariants.RolledBackNeverCached | src/service/document_service.cpp:16-31 | a rolled-back document is never stored, cached, or listed in a cached posting |
| EngineInvariants.ReadsAreTrue | src/service/document_service.cpp:50-75 | a read returns the stored text, and without a failing select finds exactly the existing documents |
| EngineInvariants.DeletedStaysDeleted | src/service/document_service.cpp:77-102 | after a successful delete no read finds the document and no search shows its text |
| EngineEffects.CreateEffect | src/service/document_service.cpp:7-48 | a created document is stored, indexed under exactly its tokens and cached, at the cost of at most the last cached entry; a failed create changes no table and no cache |
| EngineEffects.ReadEffect | src/service/document_service.cpp:50-75 | a read changes no table and leaves the same documents cached |
| EngineEffects.DeleteEffect | src/service/document_service.cpp:77-102 | takes the row and its terms if it succeeds, the cached text always, and the cached postings if and only if the text was cached; nothing else |
| EngineEffects.SearchFillsPostings | src/service/search_service.cpp:53-73 | after a working select the posting cache holds the full list of every word fetched, or of the last ones put if they do not all fit |
| EngineEffects.FetchedWords | src/service/search_service.cpp:31-58 | the words fetched are exactly the query words that were not cached and have a row |
| EngineEffects.SearchFillsDocuments | src/service/search_service.cpp:105-129 | the document cache then holds each listed document whose select works, or the last ones listed if they do not all fit |
| EngineEffects.SearchKeepsTables | src/service/search_service.cpp:12-29 | a search changes no table; without tokens it returns nothing and changes no cache either |
| StalePostings.NeverListedAgain | src/service/document_service.cpp:84-93 | in every run of whole requests: deleted while cached, or while no cached list mentions it, a document is in the results of no later search |
| StalePostings.PostedIsListed | src/service/search_service.cpp:31-49 | in every run of whole requests: once gone but still in a cached list, a document is listed with an empty text by a search for that list's word |
| StalePostings.PostedIsListedFirst | src/service/search_service.cpp:98-129 | and for any limit but 0, after the IDF table gives that word the value 0, by a search for it that ranks the document first among ties |
| StalePostings.ListedLaterIff | src/service/document_service.cpp:84-93 | with whole requests, for any limit but 0 that all later searches use: after a delete some continuation lists the document if and only if, before it, a cached list mentioned it and it was not cached |
| StalePostings.DeletedYetListed | src/service/document_service.cpp:77-102 | with room for one cached document, any two texts with tokens: create, search, create, delete the first, search with the default limit lists it |
| EngineRuns.SearchCanRun | src/service/search_service.cpp:12-140 | from every state every search has a complete step in which no select fails; with a large enough limit it lists every scored document |
| EngineInvariants.SearchTexts | src/service/search_service.cpp:107-129 | each result's text is its document's; without a failing select it is empty exactly when the document is gone |
| Scoring.ExactTotal | src/service/search_service.cpp:85-90 | a total is the sum over distinct query words of multiplicity times frequency times idf, for any cache state |
| Scoring.ScoresIndependentOfCache | src/service/search_service.cpp:31-96 | with distinct tokens, any two up-to-date caches give the same score map |
| Scoring.RepeatedTokenSkew | src/service/search_service.cpp:31-58 | with repeated tokens the total exceeds the empty-cache total by one extra term per repetition of a cached word |
| Scoring.SelectedGroup | src/service/search_service.cpp:60-66 | grouping the selected rows gives each word its full posting list |
| ScoreRuns.DistinctBoundIff | src/service/search_service.cpp:78-96 | for a text and a query of distinct tokens: in every reachable state with idf values within the bound the total is within it, if and only if the text's stored frequencies of the query words sum to at most 1 |
| ScoreRuns.OneDocumentRun | src/service/search_service.cpp:28-96 | for any text and query sharing a word there is a run that stores, updates and searches, with the score in closed form |
| ScoreRuns.SixWordRun | src/utils/idf_updater.cpp:41-58 | any text of six distinct tokens: stored, one updater round, searched for; every idf is ln(1/2) and the total is 1.000002 ln(1/2) |
| ScoreRuns.SixWordSearch | src/db/term_frequency_repository.cpp:25-31 | any stored text of six distinct tokens, searched for when its words share one idf value, totals 1.000002 times that value |
| ScoreRuns.SixWordText | src/utils/tokenizer.cpp:21-40 | such a text exists |
| EngineScores.ReturnedScoresExact | src/service/search_service.cpp:28-96 | every score a run returns is the closed form divided by the number of tokens |
| EngineScores.ReturnedBestFirst | src/service/search_service.cpp:98-129 | the results are distinct, best first, topK many or all that have a score, and nothing left out scores higher |
| EngineScores.ScoresWithinBound | src/service/search_service.cpp:78-96 | in every reachable state, however stale the caches, scores stay within the bound on the idf values |
| EngineScores.DistinctScoresWithinBound | src/service/search_service.cpp:78-96 | with n distinct tokens, n times the score stays within the bound up to the rounding slack |
| EngineScores.TopKScoresDetermined | src/service/search_service.cpp:98-103 | two rankings of the same scores list the same scores, whatever the order of ties |
| InterleavingProofs.NothingMixedUp | src/service/search_service.cpp:57-125 | operation by operation, for any threads: index matches, every text cached or returned is the id's own, every cached frequency is the document's own |
| InterleavingProofs.CachedIds | src/service/document_service.cpp:12-41 | a cached document is missing from the table if and only if it was deleted or is not committed yet; rolled-back ones are never cached |
| InterleavingHistory.CachedPostingsAreHistoric | src/service/search_service.cpp:57-72 | operation by operation every cached list is nonempty and was the word's full posting list in an earlier state |
| InterleavingHistory.PostedWasCommitted | src/service/document_service.cpp:16-31 | every document in a cached list was committed; none that was rolled back is |
| InterleavingRuns.DeletedComesBack | src/service/search_service.cpp:112-125 | from every state in which a search is about to fetch a stored document and another thread is idle, cached or not, an order exists that deletes the row, caches the text again and gives it to a read |
| InterleavingLeaks.StaysAway | src/service/document_service.cpp:81-95 | a deleted document that is neither cached nor about to be stays so after any actions of any threads |
| InterleavingLeaks.NoTextLater | src/service/document_service.cpp:50-75 | from then on no read and no fetch gives out its text |
| InterleavingLeaks.ReadableIffLeaks | src/service/search_service.cpp:112-125 | a deleted document can be read again if and only if it is cached or a search holds its row and is about to cache it |
| InterleavingLeaks.DeleteIsFinalIff | src/service/document_service.cpp:81-95 | in every execution: at the deletion of a row, some continuation lets it be read again if and only if it leaks at that moment |
| InterleavingLists.NotListedLater | src/service/search_service.cpp:68-72 | operation by operation: a deleted document that no cached or grouped list mentions is in the results of no search that starts later |
| InterleavingLists.ListingIsFinalIff | src/service/document_service.cpp:84-95 | in every execution: after the deletion of a row some later search lists the document if and only if a cached or grouped list mentions it at that moment |
| InterleavingLists.ListedAfterClear | src/service/search_service.cpp:57-72 | from an empty system: the delete has cleared the posting cache and deleted the row, and a search that starts then lists the document |
| InterleavingDirty.ReadBeforeCommitIff | src/service/document_service.cpp:23-40 | in every execution: while a create inserts its terms an idle thread can come to read the document before the commit if and only if no insert has failed and the text has a token |
| Serial.RequestIsOneStep | src/service/document_service.cpp:7-102 | a create, read, delete or search whose operations run without interruption is one engine step with the same reply |
| Serving.StepIsServed | src/service/search_service.cpp:12-140 | every engine step of a request can be served operation by operation by one thread, with the same reply |
| SerialRuns.SerialRunIsBehaviour | src/service/search_service.cpp:12-140 | an execution whose requests do not overlap is a run of the engine: same tables, caches and replies after every request |
| SerialRuns.BehaviourIsSerialRun | src/service/document_service.cpp:7-102 | every run of the engine whose document inserts succeed is such an execution, with the same tables, caches and replies |
| InterleavingRuns.StaleReadReachable | src/service/document_service.cpp:81-95 | from an empty system: a read after the delete completed returns the deleted text |
| InterleavingRuns.DirtyReadReachable | src/service/document_service.cpp:33-40 | from an empty system: a read returns a document before its commit |
| IdfUpdater.UpdateRound | src/utils/idf_updater.cpp:35-58 | every counted word gets ln(N / (df + 1)), every other entry stays; nothing is written when the count fails or is 0, or the statistics fail |
| IdfUpdater.RoundOnIndex | src/utils/idf_updater.cpp:41-58 | on a quiescent database exactly the indexed words get ln(N / (df + 1)), with N and df counted from the tables |
| IdfUpdater.CountWithinTotal | src/db/term_frequency_repository.cpp:119-122 | df is at most N, with equality exactly when every document has the word |
| IdfUpdater.IdfDecreases | src/utils/idf_updater.cpp:55 | idf strictly decreases in the document count |
| IdfUpdater.IdfSign | src/utils/idf_updater.cpp:55 | idf lies between ln(N / (N + 1)) and ln(N / 2), is negative exactly when every document has the word, zero exactly when all but one do |
| IdfRuns.IdfStaysInRange | src/utils/idf_updater.cpp:35-58 | when rounds are the only updates, written a word at a time between other requests, every idf of every run lies between ln(1/2) and ln(m/2) for at most m documents; ln(1/(m+1)) below when requests run between a round's queries |
| IdfRuns.RoundsBoundScores | src/utils/idf_updater.cpp:41-58 | in such runs every returned score lies within a bound given by m alone, also between two writes of a round |
| IdfRuns.WritesCompose | src/utils/idf_updater.cpp:51-57 | the writes of one part of the counted words and then of the rest add up to the writes of all |
| Dotenv.FindVarStart | include/dotenv.h:194-201 | the next dollar, with the brace tag exactly when a brace follows |
| Dotenv.FindVarEnd | include/dotenv.h:213-220 | the closing brace, or the next space or the end of the text |
| Dotenv.ResolveVars | include/dotenv.h:253-324 | the loop terminates; its output is the expansion of the parsed value, and ok holds exactly when every reference is closed and defined |
| Dotenv.NothingToResolve | include/dotenv.h:253-324 | a value without a dollar is copied and resolves |
| Dotenv.ParseLossless | include/dotenv.h:259-314 | the pieces as written concatenate to the value |
| Dotenv.ParseShape | include/dotenv.h:264-308 | plain pieces hold no dollar and only the last piece can be unclosed |
| Dotenv.SubstitutedVerbatim | include/dotenv.h:294-306 | a closed brace expands to the variable's value, copied as it is, and scanning goes on behind it; an undefined variable vanishes and makes the result fail |
| Dotenv.PlainSubstituted | include/dotenv.h:213-220 | likewise for the plain form, which ends at the next space or with the value; other whitespace before that end is trimmed from the name and vanishes |
| Dotenv.PlainAtEnd | include/dotenv.h:276-299 | a plain reference at the end of the value expands to the variable's value and resolves if and only if it is defined |
| Dotenv.UnclosedRepeats | include/dotenv.h:282-320 | an unclosed brace makes the result fail and writes the text before it twice |
| Dotenv.FormsCover | include/dotenv.h:253-324 | every value has the form of one of these equations: no dollar, a closed brace, a plain reference, an unclosed brace |

## Left out

- HTTP controllers, JSON, URI parsing, logging, timing and the CivetWeb threads.
- libpq, SQL text and `DBConnection`; the tables are maps with the primary keys and the cascade of query.txt.
- `catch` paths, and the tokenizer's missing return values after an exception.
- Float and double rounding other than the six decimals of `to_string`.
- Embedded NUL characters, non-canonical UUID spellings and locales other than C.
- `CacheManager` singletons, server start-up, sleeping, reading the .env file line by line, quote stripping and `setenv`.
- Pool threads that return a connection they do not hold, or never return one.
- Where no theorem needs the updater: in `Engine` any IDF table may be installed at any point, and in `Interleaving` a ranking may use any table.
- A create whose document insert fails, operation by operation: `Interleaving` begins a create with the id the insert generated.
- SearchMethods.SearchService.Rank: picks a best remaining document repeatedly in place of the library's `std::sort`, whose algorithm is not modelled.
