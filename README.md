# CortexDB memory service, modelled in Dafny

CortexDB's memory service stores what a user and an agent say to each other.
It keeps that in a PostgreSQL database with vector columns, and it answers
questions about it. Both halves of the service are modelled here.

**Writing.**
- `ingestContent` embeds a piece of content and stores it as a knowledge base.
- The asynchronous ingestion worker then cuts that knowledge base into
  overlapping chunks. Each chunk is embedded and saved as a context.
- For each new context, the worker asks a chat model for entities and
  relations. An extraction sanitiser cleans the model's JSON reply.
- Entities are deduplicated by name and linked to the context. Relations are
  saved between the entities the run resolved.

**Reading.** The query service turns repository reads into lists of scored
search results:
- vector searches, where the score is 1 minus the cosine distance;
- reads by time window;
- the entity–context junction;
- relation traversals;
- a hybrid search that puts the entities of each matching chunk right after it.

**Modules, one per part of the service:**

| Module | What it models |
|---|---|
| `Text` | The parts of `java.lang.String` that the services rely on. |
| `Json` | The part of a Jackson node tree they read and write. |
| `Chunking` | The chunker exactly as written: Java 32-bit `int` arithmetic, the sentence-boundary snap, and a loop that may throw or never exit. |
| `ChunkTermination` | Why a bounded run of the chunk loop decides the real one. |
| `ChunkFacts` | What the chunker guarantees, and where its loop never exits. |
| `FixedChunking` | The chunker as evidently intended. The worker uses this one. |
| `Extraction` | Fence stripping, defaults and filtering of the model reply. |
| `Store` | The tables, plus a `Database` class holding the writes the services issue. |
| `Selects` | Shared query shapes. |
| `ContextQueries`, `EntityQueries`, `KbQueries`, `RelationQueries` | The repository reads. |
| `Interval` | The interval operand of the recent-window reads, as the database evaluates it. |
| `RecentWindows` | The recent-window reads with their interval as written and as evidently intended. |
| `QueryService` | Every service read. |
| `IngestService` | The ingest front door. |
| `IngestionWorker` | Both event handlers. |
| `Responses` | The ingest-side response objects. |

Some of the service's dependencies are parameters of the model:
- the embedding call, the chat model and the JSON parser;
- pgvector's distance and the clock;
- the database's cast of date strings.

A failure of one of these parameters is the exception the service throws or
catches.

## Model

| member | source | states |
|---|---|---|
| Text.Trim | memory/src/main/java/com/vectornode/memory/ingest/service/ChunkingService.java:61 | the result starts and ends with a char above U+0020 and is no longer than the input |
| Text.TrimIsInfix | memory/src/main/java/com/vectornode/memory/ingest/service/ChunkingService.java:61 | trim() returns the substring that follows the leading chars at or below U+0020 |
| Text.TrimKeepsVisible | memory/src/main/java/com/vectornode/memory/ingest/service/ChunkingService.java:61 | trim() removes only chars at or below U+0020: every other char survives, in order |
| Text.TrimIdempotent | memory/src/main/java/com/vectornode/memory/ingest/service/ExtractionService.java:74-84 | trimming a trimmed string changes nothing |
| Text.CollapseSpaces | memory/src/main/java/com/vectornode/memory/ingest/service/ChunkingService.java:47 | replaceAll("\\s+", " ") leaves no two \s chars in a row and no \s char but the space |
| Text.CollapseKeepsVisible | memory/src/main/java/com/vectornode/memory/ingest/service/ChunkingService.java:47 | collapsing whitespace keeps every visible char, in order |
| Text.LastIndexOf | memory/src/main/java/com/vectornode/memory/ingest/service/ChunkingService.java:82-86 | lastIndexOf(c, from) is -1 or an index at or before from that holds c |
| Text.LastIndexOfSpec | memory/src/main/java/com/vectornode/memory/ingest/service/ChunkingService.java:82-86 | no c lies between the index lastIndexOf returns and from |
| Text.NatToStringRoundTrip | memory/src/main/java/com/vectornode/memory/ingest/service/IngestionWorker.java:79 | the decimal text of an id reads back as that id, so distinct ids print differently |
| Store.IdTextInjective | memory/src/main/java/com/vectornode/memory/ingest/service/IngestionWorker.java:144-148 | two ids written into metadata as the same text are the same id |
| Json.Json.Get | memory/src/main/java/com/vectornode/memory/ingest/dto/response/EntityResponse.java:26-28 | get(field) is non-null exactly when the node is an object that has the field |
| Json.Json.Path | memory/src/main/java/com/vectornode/memory/ingest/service/ExtractionService.java:97-99 | path(field) is the field's node when present and a MissingNode otherwise |
| Json.Json.AsTextOr | memory/src/main/java/com/vectornode/memory/ingest/service/ExtractionService.java:97-99 | asText(default) gives the default for NullNode and MissingNode and a string node's own text |
| Json.FieldText | memory/src/main/java/com/vectornode/memory/ingest/service/ExtractionService.java:97-99 | path(key).asText(default) is the default for an absent or null field and the string otherwise |
| Json.PathOfNonObject | memory/src/main/java/com/vectornode/memory/ingest/service/ExtractionService.java:94-105 | reading fields of a non-object array element yields only defaults |
| Chunking.Wrap32 | memory/src/main/java/com/vectornode/memory/ingest/service/ChunkingService.java:51 | Java int addition wraps back into the 32-bit range and is exact when no overflow happens |
| Chunking.Normalize | memory/src/main/java/com/vectornode/memory/ingest/service/ChunkingService.java:47 | the normalised text starts and ends with a non-trimmable char and is no longer than the input |
| Chunking.NormalizeKeepsVisible | memory/src/main/java/com/vectornode/memory/ingest/service/ChunkingService.java:47 | normalisation drops whitespace only: every visible char is kept in order |
| Chunking.NormalizeSingleSpaced | memory/src/main/java/com/vectornode/memory/ingest/service/ChunkingService.java:47 | normalised text has no two whitespace chars in a row and only plain spaces |
| Chunking.LastSentenceEnd | memory/src/main/java/com/vectornode/memory/ingest/service/ChunkingService.java:82-86 | the index found is -1 or a '.', '!' or '?' at or before from |
| Chunking.LastSentenceEndSpec | memory/src/main/java/com/vectornode/memory/ingest/service/ChunkingService.java:82-86 | no sentence end lies after the one found and at or before from |
| Chunking.LastSentenceEndIsMax | memory/src/main/java/com/vectornode/memory/ingest/service/ChunkingService.java:82-86 | the three lastIndexOf calls and their maximum equal one backward scan |
| Chunking.SentenceBoundarySpec | memory/src/main/java/com/vectornode/memory/ingest/service/ChunkingService.java:80-94 | a moved boundary is one past a sentence end beyond start+100, with no later sentence end before end |
| Chunking.FindSentenceBoundary | memory/src/main/java/com/vectornode/memory/ingest/service/ChunkingService.java:80-94 | the step-by-step method returns the specified boundary |
| Chunking.WindowEnd | memory/src/main/java/com/vectornode/memory/ingest/service/ChunkingService.java:51-59 | the window end never exceeds the text length |
| Chunking.WindowEndSpec | memory/src/main/java/com/vectornode/memory/ingest/service/ChunkingService.java:51-59 | the window ends at min(start+chunkSize, len) or one past a sentence end more than 100 chars in, in int arithmetic |
| Chunking.FindWindowEnd | memory/src/main/java/com/vectornode/memory/ingest/service/ChunkingService.java:51-59 | the loop body's end computation equals WindowEnd |
| Chunking.StepAt | memory/src/main/java/com/vectornode/memory/ingest/service/ChunkingService.java:49-71 | a pass that goes round again moves start into (0, len) |
| Chunking.StepOf | memory/src/main/java/com/vectornode/memory/ingest/service/ChunkingService.java:61-70 | a pass throws iff end < start, stops when end - overlap leaves (0, len), and else continues from end - overlap |
| Chunking.RunPass | memory/src/main/java/com/vectornode/memory/ingest/service/ChunkingService.java:49-71 | one pass of the bounded loop: throw, last window, or window then the rest of the run |
| Chunking.TracksPass | memory/src/main/java/com/vectornode/memory/ingest/service/ChunkingService.java:61-70 | a pass that exits yields the pieces of all windows so far; otherwise the loop state still leads to the outcome |
| Chunking.TracksOut | memory/src/main/java/com/vectornode/memory/ingest/service/ChunkingService.java:49-71 | a loop still going after len + 1 passes never exits |
| Chunking.TracksThrows | memory/src/main/java/com/vectornode/memory/ingest/service/ChunkingService.java:61 | a window ending before it starts makes substring throw |
| Chunking.SlidingPass | memory/src/main/java/com/vectornode/memory/ingest/service/ChunkingService.java:61-70 | one pass adds the trimmed window when non-empty and keeps the loop invariant |
| Chunking.SlideWindows | memory/src/main/java/com/vectornode/memory/ingest/service/ChunkingService.java:49-71 | the while loop returns exactly the specified outcome: chunks, an index exception, or no return |
| Chunking.ChunkText | memory/src/main/java/com/vectornode/memory/ingest/service/ChunkingService.java:39-75 | null or blank text gives no chunks; otherwise the outcome of the loop over the normalised text |
| Chunking.ChunkTextDefault | memory/src/main/java/com/vectornode/memory/ingest/service/ChunkingService.java:27-29 | the one-argument overload uses chunk size 1000 and overlap 200 |
| ChunkFacts.WindowEndBound | memory/src/main/java/com/vectornode/memory/ingest/service/ChunkingService.java:51-59 | a window that does not throw is at most chunkSize + 1 chars long |
| ChunkFacts.NoSnapForSmallChunks | memory/src/main/java/com/vectornode/memory/ingest/service/ChunkingService.java:54-59 | with chunkSize at most 100 the sentence snap never moves a window |
| ChunkFacts.StepWithin | memory/src/main/java/com/vectornode/memory/ingest/service/ChunkingService.java:49-64 | every window of a non-throwing pass starts at start, lies in the text and is at most chunkSize + 1 long |
| ChunkFacts.RunWindowsWithin | memory/src/main/java/com/vectornode/memory/ingest/service/ChunkingService.java:49-71 | every window of any run lies in the text and is at most chunkSize + 1 long |
| ChunkFacts.ChunksAreGood | memory/src/main/java/com/vectornode/memory/ingest/service/ChunkingService.java:39-75 | every returned chunk is non-empty, trimmed, a substring of the normalised text and at most chunkSize + 1 long |
| ChunkFacts.ShortTextIsOneChunk | memory/src/main/java/com/vectornode/memory/ingest/service/ChunkingService.java:39-75 | text whose normalised form fits both chunkSize and overlap comes back as that one chunk |
| ChunkFacts.ShortSlideIsOneChunk | memory/src/main/java/com/vectornode/memory/ingest/service/ChunkingService.java:49-71 | the loop over such a text returns it as the only chunk |
| ChunkFacts.EndWindowRepeats | memory/src/main/java/com/vectornode/memory/ingest/service/ChunkingService.java:67-70 | from start len - overlap the window reaches the end again and the loop never stops |
| ChunkFacts.TailIsLost | memory/src/main/java/com/vectornode/memory/ingest/service/ChunkingService.java:49-71 | whenever the loop returns with 0 < overlap < len, no window reached the end: the tail is in no chunk |
| ChunkFacts.TailPassAtEnd | memory/src/main/java/com/vectornode/memory/ingest/service/ChunkingService.java:67-70 | a pass whose window reaches the end never lets the loop return |
| ChunkFacts.DefaultHangsOnMediumText | memory/src/main/java/com/vectornode/memory/ingest/service/ChunkingService.java:27-29 | with 1000/200, every text normalising to 201..1000 chars sends chunkText into a loop that never exits |
| ChunkFacts.ShortWindowOverlapHangs | memory/src/main/java/com/vectornode/memory/ingest/service/ChunkingService.java:67-70 | a text longer than the overlap but within one window makes the loop never exit |
| ChunkTermination.NextStart | memory/src/main/java/com/vectornode/memory/ingest/service/ChunkingService.java:67-70 | the loop's next start always lies in (0, len) |
| ChunkTermination.OutOfFuelIffGoing | memory/src/main/java/com/vectornode/memory/ingest/service/ChunkingService.java:49-71 | a bounded run runs out of passes exactly when the loop is still going after that many passes |
| ChunkTermination.IterAdd | memory/src/main/java/com/vectornode/memory/ingest/service/ChunkingService.java:49-71 | m passes followed by n passes are m + n passes |
| ChunkTermination.Pigeonhole | memory/src/main/java/com/vectornode/memory/ingest/service/ChunkingService.java:49-71 | len + 1 starts drawn from [0, len) contain a repeat |
| ChunkTermination.RepeatIsForever | memory/src/main/java/com/vectornode/memory/ingest/service/ChunkingService.java:49-71 | once a start comes back the loop runs for every number of passes |
| ChunkTermination.StillGoingIsForever | memory/src/main/java/com/vectornode/memory/ingest/service/ChunkingService.java:49-71 | a loop still going after len + 1 passes goes on for ever |
| ChunkTermination.EndlessLoopIsForever | memory/src/main/java/com/vectornode/memory/ingest/service/ChunkingService.java:49-71 | the EndlessLoop outcome means no number of passes ends the loop |
| ChunkTermination.RunSettles | memory/src/main/java/com/vectornode/memory/ingest/service/ChunkingService.java:49-71 | a run that stopped within f passes stops the same way with any more passes |
| ChunkTermination.OtherOutcomesAreFinal | memory/src/main/java/com/vectornode/memory/ingest/service/ChunkingService.java:49-71 | chunks and index exceptions are what the loop yields with any larger bound |
| FixedChunking.FixedWindowEnd | memory/src/main/java/com/vectornode/memory/ingest/service/ChunkingService.java:51-59 | the corrected window end always lies past start and within the text |
| FixedChunking.FixedWindowEndBound | memory/src/main/java/com/vectornode/memory/ingest/service/ChunkingService.java:51-59 | a corrected window is at most chunkSize + 1 long |
| FixedChunking.FixedWindowEndAgrees | memory/src/main/java/com/vectornode/memory/ingest/service/ChunkingService.java:51-59 | without int overflow the corrected window end is the service's |
| FixedChunking.FixedRunCovers | memory/src/main/java/com/vectornode/memory/ingest/service/ChunkingService.java:49-71 | the corrected windows cover [start, len) in order, each overlapping the previous by at most overlap chars |
| FixedChunking.CoveredIndex | memory/src/main/java/com/vectornode/memory/ingest/service/ChunkingService.java:49-71 | every index of a covered range lies in some window |
| FixedChunking.FixedChunksAreGood | memory/src/main/java/com/vectornode/memory/ingest/service/ChunkingService.java:39-75 | corrected chunks are non-empty, trimmed, substrings, bounded, and every visible char lands in a chunk |
| FixedChunking.ZeroOverlapRun | memory/src/main/java/com/vectornode/memory/ingest/service/ChunkingService.java:49-71 | with overlap 0 and no overflow the service's loop stops and makes exactly the corrected windows |
| FixedChunking.ZeroOverlapTiles | memory/src/main/java/com/vectornode/memory/ingest/service/ChunkingService.java:39-75 | with overlap 0 chunkText returns the corrected chunks from windows that tile the text |
| FixedChunking.ZeroOverlapSlide | memory/src/main/java/com/vectornode/memory/ingest/service/ChunkingService.java:49-71 | with overlap 0 the service's loop returns the pieces of the corrected windows |
| FixedChunking.FixedTracksPass | memory/src/main/java/com/vectornode/memory/ingest/service/ChunkingService.java:61-70 | one corrected pass ends the run at len or continues from max(end - overlap, start + 1) |
| FixedChunking.FixedSlide | memory/src/main/java/com/vectornode/memory/ingest/service/ChunkingService.java:49-71 | the corrected loop returns the pieces of the corrected windows |
| FixedChunking.FixedChunkText | memory/src/main/java/com/vectornode/memory/ingest/service/ChunkingService.java:39-75 | the corrected chunkText returns the specified chunk list (no chunks for null or blank text) |
| FixedChunking.FindFixedWindowEnd | memory/src/main/java/com/vectornode/memory/ingest/service/ChunkingService.java:51-59 | the corrected end computation equals FixedWindowEnd |
| Extraction.CleanJsonResponse | memory/src/main/java/com/vectornode/memory/ingest/service/ExtractionService.java:69-85 | a null reply gives "{}"; the result is trimmed and no longer than the reply |
| Extraction.CleanJsonFenced | memory/src/main/java/com/vectornode/memory/ingest/service/ExtractionService.java:74-84 | a reply in a ```json fence cleans to its trimmed body |
| Extraction.CleanPlainFenced | memory/src/main/java/com/vectornode/memory/ingest/service/ExtractionService.java:74-84 | a reply in a plain ``` fence cleans to its trimmed body unless the body starts with "json" |
| Extraction.CleanUnfenced | memory/src/main/java/com/vectornode/memory/ingest/service/ExtractionService.java:69-85 | a trimmed reply without fences reaches the parser unchanged |
| Extraction.EntitiesOf | memory/src/main/java/com/vectornode/memory/ingest/service/ExtractionService.java:94-105 | kept entities have non-empty names, each built from one array node with the defaults |
| Extraction.RelationsOf | memory/src/main/java/com/vectornode/memory/ingest/service/ExtractionService.java:108-119 | kept relations name both ends, each built from one array node with the defaults |
| Extraction.NamedEntityKept | memory/src/main/java/com/vectornode/memory/ingest/service/ExtractionService.java:101-103 | every entity node with a non-empty name is kept |
| Extraction.NamedRelationKept | memory/src/main/java/com/vectornode/memory/ingest/service/ExtractionService.java:115-117 | every relation node naming both ends is kept |
| Extraction.EntitiesOfAppend | memory/src/main/java/com/vectornode/memory/ingest/service/ExtractionService.java:94-105 | filtering keeps array order |
| Extraction.RelationsOfAppend | memory/src/main/java/com/vectornode/memory/ingest/service/ExtractionService.java:108-119 | filtering keeps array order |
| Extraction.Parsed | memory/src/main/java/com/vectornode/memory/ingest/service/ExtractionService.java:122-124 | an unparseable reply gives the empty result |
| Extraction.MissingKeyEmptiesOwnList | memory/src/main/java/com/vectornode/memory/ingest/service/ExtractionService.java:87-127 | a missing or non-array key empties only its own list |
| Extraction.ParseResponse | memory/src/main/java/com/vectornode/memory/ingest/service/ExtractionService.java:87-127 | the loops of parseResponse compute the specified result |
| Extraction.Extracted | memory/src/main/java/com/vectornode/memory/ingest/service/ExtractionService.java:52-67 | null text fails; a failed model call gives the empty result; a null reply is parsed as "{}" |
| Extraction.ExtractFromText | memory/src/main/java/com/vectornode/memory/ingest/service/ExtractionService.java:52-67 | extractFromText returns the specified outcome |
| Extraction.ExtractedIsWellFormed | memory/src/main/java/com/vectornode/memory/ingest/service/ExtractionService.java:52-127 | for any reply, extraction succeeds with named entities and relations naming both ends |
| Store.Scan | memory/src/main/java/com/vectornode/memory/query/repository/ContextRepository.java:16 | a scan reads every row of the table once, in ascending id order |
| Store.Nearest | memory/src/main/java/com/vectornode/memory/query/repository/ContextRepository.java:50-57 | ORDER BY distance LIMIT n: fails on a negative limit; else min(n, rows) rows from the input, nearest first |
| Store.NearestIsTop | memory/src/main/java/com/vectornode/memory/query/repository/ContextRepository.java:50-57 | no row returned twice, and no left-out row is nearer than a returned one |
| Store.FindKey | memory/src/main/java/com/vectornode/memory/ingest/repository/RelationRepository.java:30-35 | finds a row holding the key (source, target, type), or proves none does |
| Store.FindKeyUnique | memory/src/main/java/com/vectornode/memory/ingest/repository/RelationRepository.java:30-35 | with unique keys the row holding a key is the one found |
| Store.KeysUniqueAppend | memory/src/main/java/com/vectornode/memory/ingest/repository/RelationRepository.java:30-35 | inserting a new key keeps the composite key unique |
| Store.UpsertCounts | memory/src/main/java/com/vectornode/memory/ingest/repository/RelationRepository.java:22-39 | an upsert adds one to its key's weight, touches no other key, and fails only at the INTEGER maximum |
| Store.UpsertCountsObservations | memory/src/main/java/com/vectornode/memory/ingest/repository/RelationRepository.java:22-28 | a key first seen and then upserted n times has weight n |
| Store.SaveResetsWeight | memory/src/main/java/com/vectornode/memory/ingest/service/IngestionWorker.java:180-188 | saving a relation built with weight 1 leaves weight 1 under its key whatever it was before |
| Store.MergeMovesLinks | memory/src/main/java/com/vectornode/memory/query/repository/EntityRepository.java:79-86 | after a merge no junction row names the source; every context of the source is one of the target |
| Store.MergeIdempotent | memory/src/main/java/com/vectornode/memory/query/repository/EntityRepository.java:79-86 | merging into itself, or merging the same pair twice, changes nothing more |
| Store.DeletedByUid | memory/src/main/java/com/vectornode/memory/query/repository/KnowledgeBaseRepository.java:53-58 | the user's knowledge bases go, and contexts survive exactly when their knowledge base does |
| Store.DeleteByUidForgets | memory/src/main/java/com/vectornode/memory/query/repository/KnowledgeBaseRepository.java:53-58 | deletion keeps the store consistent, keeps other users' rows, and a second deletion changes nothing |
| Store.Numbered | memory/src/main/java/com/vectornode/memory/ingest/service/IngestionWorker.java:97 | a saved batch takes the ids first .. first + n - 1 in list order |
| Store.Database.PersistKnowledgeBase | memory/src/main/java/com/vectornode/memory/ingest/service/IngestService.java:59-60 | the new knowledge base gets the next id; nothing else changes |
| Store.Database.SaveContexts | memory/src/main/java/com/vectornode/memory/ingest/service/IngestionWorker.java:97 | saveAll numbers the batch from the next id in list order; nothing else changes |
| Store.Database.SaveEntity | memory/src/main/java/com/vectornode/memory/ingest/service/IngestionWorker.java:150-160 | a new entity gets the next id and its junction row; nothing else changes |
| Store.Database.LinkContext | memory/src/main/java/com/vectornode/memory/ingest/service/IngestionWorker.java:133-135 | the junction row (entity, context) is added; nothing else changes |
| Store.Database.SaveRelation | memory/src/main/java/com/vectornode/memory/ingest/service/IngestionWorker.java:180-188 | the relations become SavedRelation of the old ones; nothing else changes |
| Store.Database.UpsertRelation | memory/src/main/java/com/vectornode/memory/ingest/repository/RelationRepository.java:22-39 | ok exactly when the upsert succeeds; the relations become the upserted ones, or stay on failure |
| Store.Database.MergeEntities | memory/src/main/java/com/vectornode/memory/query/repository/EntityRepository.java:78-86 | ok exactly when the UPDATE cannot fail; the junction becomes MergedLinks, or stays |
| Store.Database.Rollback | memory/src/main/java/com/vectornode/memory/ingest/service/IngestionWorker.java:51-52 | the tables return to the saved state; the id sequence is not rolled back |
| Store.Database.DeleteByUid | memory/src/main/java/com/vectornode/memory/query/repository/KnowledgeBaseRepository.java:56-58 | the store becomes DeletedByUid of the old one |
| Selects.NewestFirst | memory/src/main/java/com/vectornode/memory/query/repository/KnowledgeBaseRepository.java:23 | WHERE p ORDER BY created_at DESC: each matching row once, newest first |
| Selects.SelectOne | memory/src/main/java/com/vectornode/memory/query/repository/EntityRepository.java:18 | an Optional finder: empty exactly when no row matches, else a matching row |
| Selects.SelectOneFails | memory/src/main/java/com/vectornode/memory/query/repository/EntityRepository.java:18 | the finder fails exactly when two different rows match |
| Selects.Closest | memory/src/main/java/com/vectornode/memory/query/repository/EntityRepository.java:29-37 | LIMIT 1 by distance: empty exactly when there are no candidates |
| Selects.ClosestIsNearest | memory/src/main/java/com/vectornode/memory/query/repository/EntityRepository.java:29-37 | the row picked is at least as near as every candidate |
| Selects.ClosestWhere | memory/src/main/java/com/vectornode/memory/query/repository/EntityRepository.java:29-37 | the matching row picked, empty exactly when none matches |
| Selects.ClosestWhereIsNearest | memory/src/main/java/com/vectornode/memory/query/repository/EntityRepository.java:29-37 | the row picked is at least as near as every matching row |
| Selects.ScoredNearest | memory/src/main/java/com/vectornode/memory/query/repository/ContextRepository.java:38-47 | each returned row carries 1 - distance, scores never rise, count is min(limit, rows) |
| Selects.ScoredNearestIsTop | memory/src/main/java/com/vectornode/memory/query/repository/ContextRepository.java:38-47 | no row twice and no left-out row scores higher than a returned one |
| Selects.ScoreAllTop | memory/src/main/java/com/vectornode/memory/query/repository/ContextRepository.java:38-47 | scoring a nearest-first list keeps rows distinct and keeps the top-k property |
| ContextQueries.ByKnowledgeBase | memory/src/main/java/com/vectornode/memory/query/repository/ContextRepository.java:16 | exactly the contexts of the knowledge base, each once |
| ContextQueries.CreatedSince | memory/src/main/java/com/vectornode/memory/query/repository/ContextRepository.java:19-24 | exactly the contexts created at or after the instant, each once, newest first |
| ContextQueries.Recent | memory/src/main/java/com/vectornode/memory/query/repository/ContextRepository.java:19-24 | as evidently intended: exactly the contexts created at or after now minus the days, newest first |
| ContextQueries.RecentUnder | memory/src/main/java/com/vectornode/memory/query/repository/ContextRepository.java:19-24 | with the interval evaluated: fails iff the interval fails; else exactly the contexts created at or after now minus it, each once, newest first |
| ContextQueries.InRange | memory/src/main/java/com/vectornode/memory/query/repository/ContextRepository.java:27-34 | exactly the contexts created between the two instants, both included, newest first |
| ContextQueries.Similar | memory/src/main/java/com/vectornode/memory/query/repository/ContextRepository.java:50-57 | min(limit, all) contexts nearest first; a negative limit fails |
| ContextQueries.SimilarIsNearest | memory/src/main/java/com/vectornode/memory/query/repository/ContextRepository.java:50-57 | no context twice, none left out nearer than one returned |
| ContextQueries.CreatedAfter | memory/src/main/java/com/vectornode/memory/query/repository/ContextRepository.java:60-73 | exactly the contexts created strictly after the instant, each once |
| ContextQueries.RecentRows | memory/src/main/java/com/vectornode/memory/query/repository/ContextRepository.java:60-73 | as evidently intended: the candidates are the contexts created strictly after now minus the days |
| ContextQueries.RecentRowsUnder | memory/src/main/java/com/vectornode/memory/query/repository/ContextRepository.java:60-73 | with the interval evaluated: fails iff the interval fails; else exactly the contexts created after now minus it, each once |
| ContextQueries.SimilarWithScore | memory/src/main/java/com/vectornode/memory/query/repository/ContextRepository.java:38-47 | rows with score 1 - distance, best first, min(limit, all) of them |
| ContextQueries.SimilarWithScoreIsTop | memory/src/main/java/com/vectornode/memory/query/repository/ContextRepository.java:38-47 | no context twice, none left out scoring higher |
| ContextQueries.RecentSimilarWithScore | memory/src/main/java/com/vectornode/memory/query/repository/ContextRepository.java:60-73 | min(limit, recent) rows, each a recent context with score 1 - distance, best first; a negative limit fails |
| ContextQueries.RecentSimilarWithScoreIsTop | memory/src/main/java/com/vectornode/memory/query/repository/ContextRepository.java:60-73 | min(limit, recent) rows, no context twice, no recent context left out scoring higher than one returned |
| ContextQueries.ByChunkIndex | memory/src/main/java/com/vectornode/memory/query/repository/ContextRepository.java:76-81 | ORDER BY chunk_index: the same rows, indexed ones ascending, nulls last |
| ContextQueries.Siblings | memory/src/main/java/com/vectornode/memory/query/repository/ContextRepository.java:76-81 | the contexts sharing the given context's knowledge base by chunk index; none for an unknown context |
| EntityQueries.FindByName | memory/src/main/java/com/vectornode/memory/query/repository/EntityRepository.java:18 | an entity with exactly that name, or empty exactly when none has it |
| EntityQueries.FindByNameIgnoreCase | memory/src/main/java/com/vectornode/memory/query/repository/EntityRepository.java:21 | an entity whose name equals the given one ignoring case, or empty exactly when none does |
| EntityQueries.FindIdByName | memory/src/main/java/com/vectornode/memory/query/repository/EntityRepository.java:24-25 | the id of an entity with that name, or empty exactly when none has it |
| EntityQueries.FindByNameFailsOnSharedName | memory/src/main/java/com/vectornode/memory/query/repository/EntityRepository.java:18 | the lookup fails iff two entities share the name; with unique names it finds one iff one exists |
| EntityQueries.Named | memory/src/main/java/com/vectornode/memory/query/repository/EntityRepository.java:29-37 | exactly the entities with that name, each once |
| EntityQueries.Disambiguate | memory/src/main/java/com/vectornode/memory/query/repository/EntityRepository.java:29-37 | an entity with that name, empty exactly when none has it |
| EntityQueries.DisambiguatePicksNearest | memory/src/main/java/com/vectornode/memory/query/repository/EntityRepository.java:29-37 | the entity picked is at least as near to the context vector as every namesake |
| EntityQueries.SimilarEntities | memory/src/main/java/com/vectornode/memory/query/repository/EntityRepository.java:53-60 | min(limit, all) entities from the table, nearest first; a negative limit fails |
| EntityQueries.SimilarEntitiesIsNearest | memory/src/main/java/com/vectornode/memory/query/repository/EntityRepository.java:53-60 | no entity twice, none left out nearer than one returned |
| EntityQueries.SimilarEntitiesWithScore | memory/src/main/java/com/vectornode/memory/query/repository/EntityRepository.java:41-50 | rows with score 1 - distance, best first |
| EntityQueries.SimilarEntitiesWithScoreIsTop | memory/src/main/java/com/vectornode/memory/query/repository/EntityRepository.java:41-50 | no entity twice, none left out scoring higher |
| EntityQueries.ContextsForEntity | memory/src/main/java/com/vectornode/memory/query/repository/EntityRepository.java:63-68 | exactly the contexts linked to the entity, each once |
| EntityQueries.EntitiesForContext | memory/src/main/java/com/vectornode/memory/query/repository/EntityRepository.java:71-76 | exactly the entities linked to the context, each once |
| EntityQueries.JunctionReadsAgree | memory/src/main/java/com/vectornode/memory/query/repository/EntityRepository.java:63-76 | a context is listed for an entity iff the entity is listed for the context |
| KbQueries.ByUid | memory/src/main/java/com/vectornode/memory/query/repository/KnowledgeBaseRepository.java:23 | exactly the user's knowledge bases, newest first |
| KbQueries.Similar | memory/src/main/java/com/vectornode/memory/query/repository/KnowledgeBaseRepository.java:28-35 | min(limit, all) knowledge bases nearest first; a negative limit fails |
| KbQueries.SimilarIsNearest | memory/src/main/java/com/vectornode/memory/query/repository/KnowledgeBaseRepository.java:28-35 | none twice, none left out nearer than one returned |
| KbQueries.SimilarWithScore | memory/src/main/java/com/vectornode/memory/query/service/QueryService.java:335-345 | rows with score 1 - distance, best first |
| KbQueries.SimilarWithScoreIsTop | memory/src/main/java/com/vectornode/memory/query/service/QueryService.java:335-345 | none twice, none left out scoring higher |
| KbQueries.Recent | memory/src/main/java/com/vectornode/memory/query/repository/KnowledgeBaseRepository.java:40-45 | as evidently intended: exactly the knowledge bases created strictly after now minus the hours, newest first |
| KbQueries.RecentUnder | memory/src/main/java/com/vectornode/memory/query/repository/KnowledgeBaseRepository.java:40-45 | with the interval evaluated: fails iff the interval fails; else exactly the knowledge bases created after now minus it, each once, newest first |
| Interval.Seconds | memory/src/main/java/com/vectornode/memory/query/repository/ContextRepository.java:21 | a literal is accepted only when it starts with a digit, and otherwise fails as invalid interval input; a parameter succeeds exactly when it is bound, giving its value times the unit |
| Interval.QuotedParamRejected | memory/src/main/java/com/vectornode/memory/query/repository/ContextRepository.java:21 | a named parameter left inside the quotes fails for every argument |
| Interval.AsWrittenFails | memory/src/main/java/com/vectornode/memory/query/repository/KnowledgeBaseRepository.java:42 | INTERVAL ':days days' and INTERVAL ':hours hours' fail for every argument |
| Interval.BoundLiteralReads | memory/src/main/java/com/vectornode/memory/query/repository/KnowledgeBaseRepository.java:42 | the literal holding the value, such as '3 days', reads as that many days or hours |
| Interval.IntendedWindow | memory/src/main/java/com/vectornode/memory/query/repository/KnowledgeBaseRepository.java:42 | the intended interval spans the bound number of days or hours, as the literal with the value does |
| Interval.IntendedSeconds | memory/src/main/java/com/vectornode/memory/query/repository/ContextRepository.java:66 | the intended intervals are bound and span the given units |
| RecentWindows.ContextsAsWrittenFail | memory/src/main/java/com/vectornode/memory/query/repository/ContextRepository.java:19-24 | findRecentContexts as written fails for every number of days |
| RecentWindows.ContextsAsIntended | memory/src/main/java/com/vectornode/memory/query/repository/ContextRepository.java:19-24 | with the interval as intended, findRecentContexts reads ContextQueries.Recent |
| RecentWindows.CandidatesAsWrittenFail | memory/src/main/java/com/vectornode/memory/query/repository/ContextRepository.java:60-73 | findRecentSimilarWithScore as written fails for every number of days |
| RecentWindows.CandidatesAsIntended | memory/src/main/java/com/vectornode/memory/query/repository/ContextRepository.java:60-73 | with the interval as intended, its candidates are ContextQueries.RecentRows |
| RecentWindows.KbsAsWrittenFail | memory/src/main/java/com/vectornode/memory/query/repository/KnowledgeBaseRepository.java:40-45 | findRecent as written fails for every number of hours |
| RecentWindows.KbsAsIntended | memory/src/main/java/com/vectornode/memory/query/repository/KnowledgeBaseRepository.java:40-45 | with the interval as intended, findRecent reads KbQueries.Recent |
| KbQueries.CreatedAfter | memory/src/main/java/com/vectornode/memory/query/repository/KnowledgeBaseRepository.java:50 | exactly the knowledge bases created strictly after the instant |
| KbQueries.DeletedUserHasNoHistory | memory/src/main/java/com/vectornode/memory/query/repository/KnowledgeBaseRepository.java:53-58 | after deletion the user's history is empty and every other user's is unchanged |
| RelationQueries.Outgoing | memory/src/main/java/com/vectornode/memory/query/repository/RelationRepository.java:26-33 | rows ordered by edge weight, heaviest first |
| RelationQueries.OutgoingExact | memory/src/main/java/com/vectornode/memory/query/repository/RelationRepository.java:26-33 | a row is listed iff an edge leaves the entity to an existing target and gives it |
| RelationQueries.OutgoingCount | memory/src/main/java/com/vectornode/memory/query/repository/RelationRepository.java:26-33 | one row per such edge |
| RelationQueries.IncomingExact | memory/src/main/java/com/vectornode/memory/query/repository/RelationRepository.java:38-44 | a row is listed iff an edge arrives at the entity from an existing source and gives it |
| RelationQueries.IncomingCount | memory/src/main/java/com/vectornode/memory/query/repository/RelationRepository.java:38-44 | with unique edge keys, one row per such edge |
| RelationQueries.SecondHops | memory/src/main/java/com/vectornode/memory/query/repository/RelationRepository.java:49-55 | exactly the two-edge paths through the given first edge |
| RelationQueries.Paths | memory/src/main/java/com/vectornode/memory/query/repository/RelationRepository.java:49-55 | exactly the two-edge paths from the entity, each once |
| RelationQueries.TwoHop | memory/src/main/java/com/vectornode/memory/query/repository/RelationRepository.java:49-55 | the k-th name is the end of the k-th two-edge path |
| RelationQueries.TwoHopCountsPaths | memory/src/main/java/com/vectornode/memory/query/repository/RelationRepository.java:49-55 | one result per two-edge path |
| RelationQueries.TwoHopKeepsStartAndDuplicates | memory/src/main/java/com/vectornode/memory/query/repository/RelationRepository.java:49-55 | the start entity and repeated names appear (a concrete store gives ["A", "A"]) |
| RelationQueries.JoinedExact | memory/src/main/java/com/vectornode/memory/query/repository/RelationRepository.java:60-68 | every edge with both ends present gives a joined row |
| RelationQueries.JoinedFrom | memory/src/main/java/com/vectornode/memory/query/repository/RelationRepository.java:60-68 | every joined row comes from such an edge |
| RelationQueries.Top | memory/src/main/java/com/vectornode/memory/query/repository/RelationRepository.java:60-68 | min(limit, joined) rows heaviest first; a negative limit fails |
| RelationQueries.TopIsStrongest | memory/src/main/java/com/vectornode/memory/query/repository/RelationRepository.java:60-68 | rows come from edges with both ends present and no left-out edge outweighs a returned one |
| RelationQueries.BySource | memory/src/main/java/com/vectornode/memory/query/repository/RelationRepository.java:73 | exactly the edges with that source |
| RelationQueries.ByTarget | memory/src/main/java/com/vectornode/memory/query/repository/RelationRepository.java:78 | exactly the edges with that target |
| RelationQueries.ByType | memory/src/main/java/com/vectornode/memory/query/repository/RelationRepository.java:83 | exactly the edges with that type, compared case-sensitively |
| QueryService.Listed | memory/src/main/java/com/vectornode/memory/query/service/QueryService.java:76-84 | one result per row, in order, at score 1.0 |
| QueryService.ListedShows | memory/src/main/java/com/vectornode/memory/query/service/QueryService.java:76-84 | a listing shows every row of the read once and no other id |
| QueryService.ListedNewestFirst | memory/src/main/java/com/vectornode/memory/query/service/QueryService.java:100-108 | a listing keeps the read's newest-first order |
| QueryService.Ranked | memory/src/main/java/com/vectornode/memory/query/service/QueryService.java:47-56 | one result per scored row, in order, at the row's score |
| QueryService.RankedShows | memory/src/main/java/com/vectornode/memory/query/service/QueryService.java:47-56 | a ranking shows each row with score 1 - distance, best first |
| QueryService.RankedTop | memory/src/main/java/com/vectornode/memory/query/service/QueryService.java:47-56 | a ranking of a top-k search lists no id twice and leaves out nothing scoring higher |
| QueryService.SearchContexts | memory/src/main/java/com/vectornode/memory/query/service/QueryService.java:40-67 | fails iff embedding fails or the limit is negative; else min(limit, all) CHUNK results with chunk index, best first |
| QueryService.SearchContextsIsTop | memory/src/main/java/com/vectornode/memory/query/service/QueryService.java:40-67 | no context listed twice and none left out scoring higher |
| QueryService.ContextsByKnowledgeBaseLists | memory/src/main/java/com/vectornode/memory/query/service/QueryService.java:70-94 | query "kb:<id>"; each context of the knowledge base listed once as a CHUNK at 1.0, and no other |
| QueryService.RecentContextsLists | memory/src/main/java/com/vectornode/memory/query/service/QueryService.java:97-120 | query "recent:<days>days"; the contexts of the window, each once, newest first |
| QueryService.ContextsByDateRange | memory/src/main/java/com/vectornode/memory/query/service/QueryService.java:123-146 | fails exactly when a date string does not cast |
| QueryService.ContextsByDateRangeLists | memory/src/main/java/com/vectornode/memory/query/service/QueryService.java:123-146 | query "range:<s>_to_<e>"; the contexts in the range, each once, newest first |
| QueryService.SearchRecentContexts | memory/src/main/java/com/vectornode/memory/query/service/QueryService.java:149-175 | fails iff embedding fails or the limit is negative |
| QueryService.SearchRecentContextsIsTop | memory/src/main/java/com/vectornode/memory/query/service/QueryService.java:149-175 | min(limit, recent) CHUNK results, each a recent context once at score 1.0, nearest first, none nearer left out |
| QueryService.SiblingContextsLists | memory/src/main/java/com/vectornode/memory/query/service/QueryService.java:178-202 | query "siblings:<id>"; the knowledge base's contexts, each once, ordered by chunk index |
| QueryService.SearchEntities | memory/src/main/java/com/vectornode/memory/query/service/QueryService.java:207-236 | fails iff embedding fails or the limit is negative; else ENTITY results with type or UNKNOWN, best first |
| QueryService.SearchEntitiesIsTop | memory/src/main/java/com/vectornode/memory/query/service/QueryService.java:207-236 | no entity listed twice and none left out scoring higher |
| QueryService.DisambiguateEntity | memory/src/main/java/com/vectornode/memory/query/service/QueryService.java:256-262 | fails iff embedding the context fails; empty iff no entity has the name; else a namesake |
| QueryService.ContextsForEntityLists | memory/src/main/java/com/vectornode/memory/query/service/QueryService.java:265-288 | query "entity_contexts:<id>"; each linked context once, and no other |
| QueryService.EntitiesForContextLists | memory/src/main/java/com/vectornode/memory/query/service/QueryService.java:291-315 | query "context_entities:<id>"; each linked entity once, and no other |
| QueryService.SearchHistory | memory/src/main/java/com/vectornode/memory/query/service/QueryService.java:328-357 | fails iff embedding fails or the limit is negative; else KNOWLEDGE_BASE results with uid and converser, best first |
| QueryService.SearchHistoryIsTop | memory/src/main/java/com/vectornode/memory/query/service/QueryService.java:328-357 | no knowledge base listed twice and none left out scoring higher |
| QueryService.HistoryByUserLists | memory/src/main/java/com/vectornode/memory/query/service/QueryService.java:360-384 | query "user:<uid>"; each of the user's knowledge bases once, newest first |
| QueryService.RecentKnowledgeBasesLists | memory/src/main/java/com/vectornode/memory/query/service/QueryService.java:387-410 | query "recent:<hours>hours"; the knowledge bases of the window, each once, newest first |
| QueryService.KnowledgeBasesSinceLists | memory/src/main/java/com/vectornode/memory/query/service/QueryService.java:413-436 | query "since:<instant>"; each knowledge base created after it once |
| QueryService.OutgoingConnectionsLists | memory/src/main/java/com/vectornode/memory/query/service/QueryService.java:449-472 | one RELATION result per outgoing edge to an existing target, heaviest first |
| QueryService.IncomingConnectionsLists | memory/src/main/java/com/vectornode/memory/query/service/QueryService.java:475-498 | each incoming edge from an existing source is shown and nothing else; with unique edge keys, one RELATION result per such edge |
| QueryService.TwoHopConnectionsLists | memory/src/main/java/com/vectornode/memory/query/service/QueryService.java:501-523 | the k-th TWO_HOP_ENTITY result at 1.0 names the end of the k-th two-edge path |
| QueryService.TopRelations | memory/src/main/java/com/vectornode/memory/query/service/QueryService.java:526-549 | fails exactly on a negative limit |
| QueryService.TopRelationsLists | memory/src/main/java/com/vectornode/memory/query/service/QueryService.java:526-549 | min(limit, joined) results "src -> tgt" scored by weight, heaviest first, none heavier left out |
| QueryService.HybridResults | memory/src/main/java/com/vectornode/memory/query/service/QueryService.java:572-626 | fails iff embedding fails or the limit is negative; the response echoes the query |
| QueryService.HybridSearch | memory/src/main/java/com/vectornode/memory/query/service/QueryService.java:572-626 | the two loops build exactly HybridResults |
| QueryService.ExpandContexts | memory/src/main/java/com/vectornode/memory/query/service/QueryService.java:582-605 | the context loop appends each CHUNK followed by its linked entities |
| QueryService.AppendExpanded | memory/src/main/java/com/vectornode/memory/query/service/QueryService.java:583-604 | one pass appends the context's contribution |
| QueryService.AppendSimilar | memory/src/main/java/com/vectornode/memory/query/service/QueryService.java:608-616 | the entity loop appends one SIMILAR_ENTITY per row |
| QueryService.HybridSearchLinks | memory/src/main/java/com/vectornode/memory/query/service/QueryService.java:572-626 | every result shows what its kind says; each LINKED_ENTITY follows a CHUNK of a context it is linked to at 0.8 of its score; every linked entity appears; SIMILAR_ENTITY results come last |
| QueryService.ExpandedAllLength | memory/src/main/java/com/vectornode/memory/query/service/QueryService.java:582-605 | the context loop yields one result per context plus one per linked entity |
| QueryService.ExpandedAllAt | memory/src/main/java/com/vectornode/memory/query/service/QueryService.java:582-605 | the i-th context's CHUNK sits at ChunkAt(i), immediately followed by its linked entities at 0.8 of its score |
| QueryService.ExpandedAllLayout | memory/src/main/java/com/vectornode/memory/query/service/QueryService.java:582-605 | the context loop's output is, context by context, a CHUNK then its linked entities, and nothing else |
| QueryService.ContextRowsTop | memory/src/main/java/com/vectornode/memory/query/service/QueryService.java:582 | the context rows are the min(limit, all) nearest contexts, each once, with scores, best first |
| QueryService.EntityRowsTop | memory/src/main/java/com/vectornode/memory/query/service/QueryService.java:608 | the entity rows are the min(limit, all) nearest entities, each once, with scores, best first |
| QueryService.HybridParts | memory/src/main/java/com/vectornode/memory/query/service/QueryService.java:572-626 | the list is the context part laid out chunk by chunk, then exactly the SIMILAR_ENTITY results of the entity rows |
| QueryService.HybridSearchLayout | memory/src/main/java/com/vectornode/memory/query/service/QueryService.java:572-626 | min(limit, all) nearest contexts, each once and best first, each CHUNK immediately followed by exactly the entities the junction links to it at 0.8 of its score; then exactly the min(limit, all) nearest entities; \|contexts\| + linked + \|entities\| results, nothing merged |
| IngestService.Ingested | memory/src/main/java/com/vectornode/memory/ingest/service/IngestService.java:45-56 | the row carries the request's uid, role, content, the embedding and contentLength / embeddingDimensions |
| IngestService.IngestContent | memory/src/main/java/com/vectornode/memory/ingest/service/IngestService.java:34-87 | embedding failure gives "Ingestion failed: " + message and no change; else one new knowledge base under the next id |
| IngestService.IngestedIsInHistory | memory/src/main/java/com/vectornode/memory/ingest/service/IngestService.java:59-60 | the ingested row is in the user's history next to every earlier row |
| IngestionWorker.ContextMetadata | memory/src/main/java/com/vectornode/memory/ingest/service/IngestionWorker.java:78-83 | source_kb_id, chunk_index, total_chunks, chunk_length, processing_started |
| IngestionWorker.ContextsOf | memory/src/main/java/com/vectornode/memory/ingest/service/IngestionWorker.java:71-94 | one context per chunk, context i built from chunk i |
| IngestionWorker.EmbedChunks | memory/src/main/java/com/vectornode/memory/ingest/service/IngestionWorker.java:71-94 | a batch exactly when every chunk embeds, and then the specified batch |
| IngestionWorker.HandleKbCreated | memory/src/main/java/com/vectornode/memory/ingest/service/IngestionWorker.java:53-99 | unknown knowledge base: no change; embedding failure: rollback; else the batch is saved under fresh ids |
| IngestionWorker.ContextsFollowChunks | memory/src/main/java/com/vectornode/memory/ingest/service/IngestionWorker.java:67-94 | one context per chunk: context i holds chunk i and index i, and its metadata records chunk_index i and total_chunks = the number of chunks; every chunk is non-empty, trimmed and at most 1001 chars |
| IngestionWorker.Provenance | memory/src/main/java/com/vectornode/memory/ingest/service/IngestionWorker.java:144-148 | entity and relation metadata record source ids, start time and method "llm", and no type or description |
| IngestionWorker.Resolve | memory/src/main/java/com/vectornode/memory/ingest/service/IngestionWorker.java:165-172 | a resolved end is an entity of this run whose name equals the given one ignoring case |
| IngestionWorker.ResolvePicksFirst | memory/src/main/java/com/vectornode/memory/ingest/service/IngestionWorker.java:165-172 | the first matching entity of the run is picked |
| IngestionWorker.HandleContextCreated | memory/src/main/java/com/vectornode/memory/ingest/service/IngestionWorker.java:109-194 | unknown context: no change; embedding failure: rollback; else the store becomes ContextHandled |
| IngestionWorker.SaveEntities | memory/src/main/java/com/vectornode/memory/ingest/service/IngestionWorker.java:126-161 | the entity loop performs the specified steps |
| IngestionWorker.SaveEntity | memory/src/main/java/com/vectornode/memory/ingest/service/IngestionWorker.java:129-160 | one pass of the entity loop performs EntityStep |
| IngestionWorker.ReuseEntity | memory/src/main/java/com/vectornode/memory/ingest/service/IngestionWorker.java:129-138 | a stored name is reused: only its link is added |
| IngestionWorker.CreateEntity | memory/src/main/java/com/vectornode/memory/ingest/service/IngestionWorker.java:141-160 | a new name is saved as a new entity linked to the context |
| IngestionWorker.LinkExisting | memory/src/main/java/com/vectornode/memory/ingest/service/IngestionWorker.java:133-135 | the junction gains (entity, context), nothing else changes |
| IngestionWorker.SaveRelations | memory/src/main/java/com/vectornode/memory/ingest/service/IngestionWorker.java:164-190 | the relation loop performs the specified steps; only relations change |
| IngestionWorker.SaveRelation | memory/src/main/java/com/vectornode/memory/ingest/service/IngestionWorker.java:164-190 | one pass of the relation loop performs RelationStep |
| IngestionWorker.ExistingNameIsReused | memory/src/main/java/com/vectornode/memory/ingest/service/IngestionWorker.java:129-138 | a stored name is reused without embedding and without a new entity |
| IngestionWorker.NewNameIsCreated | memory/src/main/java/com/vectornode/memory/ingest/service/IngestionWorker.java:141-160 | a new name whose text embeds creates exactly one entity under the next id |
| IngestionWorker.EntityStepGrows | memory/src/main/java/com/vectornode/memory/ingest/service/IngestionWorker.java:126-161 | one pass keeps names unique and ids fresh and records the entity |
| IngestionWorker.EntityStepsGrow | memory/src/main/java/com/vectornode/memory/ingest/service/IngestionWorker.java:126-161 | the loop keeps names unique, records one entity per extracted one, and creates only from extracted ones |
| IngestionWorker.ReprocessingChangesNothing | memory/src/main/java/com/vectornode/memory/ingest/service/IngestionWorker.java:129-138 | running the entity loop again over the same entities changes no table |
| IngestionWorker.RelationStepWrites | memory/src/main/java/com/vectornode/memory/ingest/service/IngestionWorker.java:180-188 | a pass writes weight 1 under the resolved key, or changes nothing when an end is unresolved |
| IngestionWorker.RelationStepsWrite | memory/src/main/java/com/vectornode/memory/ingest/service/IngestionWorker.java:164-190 | the loop keeps keys unique and writes weight 1 only between this run's entities |
| IngestionWorker.ContextHandledGrows | memory/src/main/java/com/vectornode/memory/ingest/service/IngestionWorker.java:109-194 | a successful run keeps knowledge bases and contexts and grows entities, links and relations |
| IngestionWorker.WorkerEntityResponseHasNoType | memory/src/main/java/com/vectornode/memory/ingest/dto/response/EntityResponse.java:26-32 | an entity response over worker metadata reports null type and description |
| Responses.Preview | memory/src/main/java/com/vectornode/memory/ingest/dto/response/ContextResponse.java:41-43 | null stays null, up to 100 chars unchanged, longer text is its first 100 chars + "..." |
| Responses.PreviewIsStable | memory/src/main/java/com/vectornode/memory/ingest/dto/response/KnowledgeBaseResponse.java:37-39 | a preview is at most 103 chars, starts with the text and previews to itself |
| Responses.Dimensions | memory/src/main/java/com/vectornode/memory/ingest/dto/response/ContextResponse.java:44 | the vector length, or 0 for null |
| Responses.ContextResponseFrom | memory/src/main/java/com/vectornode/memory/ingest/dto/response/ContextResponse.java:37-50 | every field copied, the preview is Preview of the text (the text itself up to 100 chars, else 100 chars and "..."), only the vector's dimension count kept |
| Responses.KnowledgeBaseResponseFrom | memory/src/main/java/com/vectornode/memory/ingest/dto/response/KnowledgeBaseResponse.java:33-44 | every field copied, the preview is Preview of the text (the text itself up to 100 chars, else 100 chars and "..."), only the vector's dimension count kept |
| Responses.EntityResponse.Type | memory/src/main/java/com/vectornode/memory/ingest/dto/response/EntityResponse.java:26-28 | non-null exactly when metadata has "type", then its asText() |
| Responses.EntityResponse.Description | memory/src/main/java/com/vectornode/memory/ingest/dto/response/EntityResponse.java:30-32 | non-null exactly when metadata has "description", then its asText() |
| Responses.EntityResponseFrom | memory/src/main/java/com/vectornode/memory/ingest/dto/response/EntityResponse.java:34-53 | every field copied and the vector's dimension count kept |
| Responses.TypeReadsField | memory/src/main/java/com/vectornode/memory/ingest/dto/response/EntityResponse.java:26-28 | a string gives itself, JSON null gives "null", a number its digits, a container "" |
| Ordering.SortBy | memory/src/main/java/com/vectornode/memory/query/repository/ContextRepository.java:76-81 | a sorted permutation of the input |
| Ordering.SortLimit | memory/src/main/java/com/vectornode/memory/query/repository/RelationRepository.java:60-68 | ORDER BY ... LIMIT n: fails on a negative n; else min(n, all) sorted rows from the input |
| Ordering.SortLimitIsTop | memory/src/main/java/com/vectornode/memory/query/repository/RelationRepository.java:60-68 | no row twice and no left-out row ranks better than a returned one |
| Ordering.FirstMatchIsFirst | memory/src/main/java/com/vectornode/memory/ingest/service/IngestionWorker.java:165-172 | stream().filter().findFirst() returns a match at or before every matching position |

## Left out

### Divergences and simplifications in the model
- The listener that turns PostgreSQL notifications into worker calls is not part of this model. Neither are the LLM provider clients, the HTTP controllers, the setup module or the duplicate repository interfaces outside `ingest/` and `query/`.
- Ids are UUIDs in the source and natural numbers drawn from one sequence here. Only their equality and their decimal text matter to the model.
- String lengths count Java chars. There is no Unicode beyond that: `equalsIgnoreCase` folds ASCII letters only, and `\s` is the six ASCII whitespace chars.
- The embedding and chat-model calls, the JSON parser, the vector distance, the clock and the database's timestamp cast are parameters. Elapsed-time measurements (`processingTimeMs`, `embeddingTimeMs`) are inputs or omitted. Logging is omitted.
- Scores are IEEE doubles in the source. That covers `1 - (vector <=> q)` in SQL (query/repository/ContextRepository.java:40, 64 and the other scored reads), `((Number) row[i]).doubleValue()` in QueryService.java (for example 53, 585) and `score * 0.8` (QueryService.java:600). The model computes scores as exact reals. So `QueryService.HybridSearchLayout` and `QueryService.HybridSearchLinks` state a linked entity's score as exactly 0.8 times its chunk's score, where Java rounds (0.9 * 0.8 gives 0.7200000000000001). Rounding of `1 - distance` and of `score * 0.8` is not modelled; the order of the results and which rows appear do not depend on it.
- `toVectorString` (QueryService.java:631-641) is not modelled. The query vector is passed to the reads as a value.
- The prompt wording that `extractFromText` wraps around the text is not modelled. The model call receives the text.
- `QueryRequest.minRelevance` and the request filters are carried by the source but read by no query. The model leaves them out.
- `QueryService.SearchRecentContexts`: `searchRecentContexts` calls `findRecentSimilar` on the query-side context repository, and that repository declares no such method. Only ingest/repository/ContextRepository.java:77-86 declares one, returning whole contexts. The model gives the call that shape: the contexts created strictly after now minus the days, nearest first, at most limit, read through `ContextQueries.RecentSimilarWithScore`. Each is reported as a CHUNK at score 1.0, as the code does. Its test expects 0.85.
- `QueryService.TwoHopConnectionsLists`: two-hop results get score 1.0, where the test expects 0.5. The start entity and repeated names are kept, as the SQL returns them.
- `KbQueries.SimilarWithScore`: `searchHistory` calls `findSimilarWithScore` on the knowledge-base repository, and that repository declares no such method. The model gives it the shape that `searchHistory` reads: `[id, content, uid, converser, score]`, nearest first.
- `QueryService.ContextsForEntityLists`: the service reads column 1 of the junction query as the chunk text. The model takes it to be the text.
- `QueryService.HistoryByUserLists`: the converser stored in result metadata is the role itself (`Speaker(role)`), not its name as a string.
- `QueryService.HybridSearch`: a negative limit fails the first read, so the entity read never runs. The model returns the failure.
- `Store.Database.Rollback`: a rollback restores the tables but not the id sequence.
- `Store.DeletedByUid`: the cascade from knowledge bases to contexts and to the junction rows of those contexts is assumed from the schema comment at KnowledgeBaseRepository.java:53-54.
- `Store.Database.SaveRelation`: the worker saves relations through JPA `save` on the composite key. An existing edge therefore gets weight 1 again (`Store.SaveResetsWeight`) instead of being upserted. The upsert is modelled separately as `Store.Database.UpsertRelation`.

### Delegations and query shapes the model covers elsewhere
- The QueryService methods that only delegate to a repository are not repeated. They are `getEntityByName`, `getEntityByNameIgnoreCase`, `getEntityIdByName`, `mergeEntities`, `deleteUserData` and `getRelationsBySource/Target/Type` (QueryService.java:239-254, 318-323, 439-444, 552-567). Their behaviour is that of `EntityQueries.FindByName`, `EntityQueries.FindByNameIgnoreCase`, `EntityQueries.FindIdByName`, `Store.Database.MergeEntities`, `Store.Database.DeleteByUid` and `RelationQueries.BySource/ByTarget/ByType`.
- The read-only relation queries on the ingest side (ingest/repository/RelationRepository.java:47-117) have the same shapes as those on the query side. They are modelled once, in `RelationQueries`.
- The SQL text of the query-side recent-window reads puts the named parameter inside a string literal (`INTERVAL ':days days'`, `INTERVAL ':hours hours'`). The parameter is then never bound and the database rejects the text, so every such read fails (see Findings). `Interval` and `RecentWindows` model that text as written. The reads below model the window as evidently intended: `>=` in days for contexts and `>` in hours for knowledge bases, as each query compares.
- `ContextQueries.Recent`: models `findRecentContexts` with the window as evidently intended. As written the read fails for every argument (`RecentWindows.ContextsAsWrittenFail`); `RecentWindows.ContextsAsIntended` ties the two.
- `ContextQueries.RecentRows`: models `findRecentSimilarWithScore` with the window as evidently intended. As written the read fails for every argument (`RecentWindows.CandidatesAsWrittenFail`); `RecentWindows.CandidatesAsIntended` ties the two.
- `ContextQueries.RecentSimilarWithScore`: reads `ContextQueries.RecentRows`, so it too has the window as evidently intended. As written it fails (`RecentWindows.CandidatesAsWrittenFail`).
- `KbQueries.Recent`: models `findRecent` with the window as evidently intended. As written the read fails for every argument (`RecentWindows.KbsAsWrittenFail`); `RecentWindows.KbsAsIntended` ties the two.
- `QueryService.RecentContextsLists`: lists `ContextQueries.Recent`, the window as evidently intended. As written `getRecentContexts` throws at its first read (`RecentWindows.ContextsAsWrittenFail`).
- `QueryService.SearchRecentContexts`: reads `ContextQueries.RecentSimilarWithScore`, the window as evidently intended. The query-side text of that window fails as written (`RecentWindows.CandidatesAsWrittenFail`).
- `QueryService.RecentKnowledgeBasesLists`: lists `KbQueries.Recent`, the window as evidently intended. As written `getRecentKnowledgeBases` throws at its first read (`RecentWindows.KbsAsWrittenFail`).
- `QueryService.HybridResults`: its own contract states the failure cases and the echoed query only. The list it builds is stated by `QueryService.HybridSearchLayout` and `QueryService.HybridSearchLinks`.

### Chunker
- `Chunking.ChunkText`: an exception thrown by `substring` is the outcome `IndexOutOfBounds`. A loop that never exits is the outcome `EndlessLoop`. The model decides that case after len + 1 passes, and `ChunkTermination` proves that decision exact.
- `Chunking.ChunkText`: memory is not modelled. In Java an endless loop adds one chunk to the list per pass and ends in an `OutOfMemoryError`. The `@Transactional` handler then rolls back. The model stops at `EndlessLoop` and does not model that error or the rollback.
- `IngestionWorker.HandleKbCreated` cuts content with the corrected chunker, `FixedChunking.FixedChunkText` with 1000 and 200. With the chunker as written, most contents send the loop into endless passes that end in an `OutOfMemoryError` (see Findings).

## Findings

| source | as written | input that shows it | evidently intended | confidence | as-written member | corrected member |
|---|---|---|---|---|---|---|
| memory/src/main/java/com/vectornode/memory/ingest/service/ChunkingService.java:67-70 | After a window that reaches the end of the text, the next start is `len - overlap`. While 0 < overlap < len, that start lies inside the text. The next window reaches the end again, so the loop never exits. Each pass adds a chunk, so the call ends in an `OutOfMemoryError` and the ingestion transaction rolls back. Whenever the loop does exit, the text after its last window is in no chunk. | `chunkText` with the defaults (1000, 200) on any text whose normalised length is 201 to 1000, for example 300 letters `a`. | Stop once a window reaches the end, and always move start forward. Every visible char of the normalised text then lands in some chunk. | not executed | `ChunkFacts.DefaultHangsOnMediumText`, `ChunkFacts.ShortWindowOverlapHangs`, `ChunkFacts.TailIsLost` | `FixedChunking.FixedChunkText`, `FixedChunking.FixedChunksAreGood` |
| memory/src/main/java/com/vectornode/memory/query/repository/ContextRepository.java:21 | The interval is written `INTERVAL ':days days'`, with the named parameter inside the quotes. The parameter parser skips quoted text, so `:days` is never bound and the database is asked to read `:days days` as an interval, which it rejects. `findRecentContexts` fails on every call, and so does `findRecentSimilarWithScore`, which has the same text at line 66. | `findRecentContexts(7)`, or any other number of days. | The window of the last `days` days: `NOW() - :days * INTERVAL '1 day'`. | not executed | `Interval.QuotedParamRejected`, `Interval.AsWrittenFails`, `RecentWindows.ContextsAsWrittenFail`, `RecentWindows.CandidatesAsWrittenFail` | `Interval.IntendedWindow`, `RecentWindows.ContextsAsIntended`, `RecentWindows.CandidatesAsIntended` |
| memory/src/main/java/com/vectornode/memory/query/repository/KnowledgeBaseRepository.java:42 | The interval is written `INTERVAL ':hours hours'`, with the same quoting. `findRecent` fails on every call. | `findRecent(24)`, or any other number of hours. | The window of the last `hours` hours: `NOW() - :hours * INTERVAL '1 hour'`. | not executed | `Interval.AsWrittenFails`, `RecentWindows.KbsAsWrittenFail` | `Interval.IntendedWindow`, `RecentWindows.KbsAsIntended` |
