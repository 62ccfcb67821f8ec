/** The query service: every read of the memory turned into a response of
    search results. Each operation runs one repository read (after
    embedding the query text, for the vector searches) and maps each row it
    returns to one result, in the read's order; only the hybrid search
    combines several reads. The repository reads are the functions of
    ContextQueries, EntityQueries, KbQueries and RelationQueries; the
    embedding call is the parameter embed, whose Failure is the exception
    the service lets through, and dist is pgvector's cosine distance. */
module QueryService {
  import opened Wrappers
  import opened Ordering
  import opened Store
  import opened Selects
  import Text
  import Interval
  import ContextQueries
  import EntityQueries
  import KbQueries
  import RelationQueries

  /** A value of a result's metadata map: a number, a string, or the
      converser role as the entity stores it. */
  datatype Value = Number(n: int) | Str(s: string) | Speaker(role: Role)

  type Metadata = map<string, Value>

  /** QueryResponse.SearchResult; a Java null is None. */
  datatype SearchResult = SearchResult(id: Option<Id>, content: string, score: real, kind: string,
                                       metadata: Option<Metadata>)

  /** QueryResponse, without the elapsed time it also reports. */
  datatype QueryResponse = QueryResponse(query: string, results: seq<SearchResult>)

  /** QueryRequest: the query text and the result limit (5 unless set). */
  datatype QueryRequest = QueryRequest(query: string, limit: int)

  const ScoreOfListed: real := 1.0
  const LinkedEntityFactor: real := 0.8
  const Unknown := "UNKNOWN"

  /** Objects.requireNonNullElse. */
  function OrElse<T>(x: Option<T>, fallback: T): T {
    if x.Some? then x.value else fallback
  }

  // ---------------------------------------------------------------- result lists

  /** The ids of a result list, in order. */
  function IdsOf(rs: seq<SearchResult>): (r: seq<Option<Id>>)
    ensures |r| == |rs|
    ensures forall i :: 0 <= i < |rs| ==> r[i] == rs[i].id
  {
    Project(rs, (x: SearchResult) => x.id)
  }

  /** No id is listed twice. */
  predicate IdsDistinct(rs: seq<SearchResult>) {
    forall i, j :: 0 <= i < j < |rs| ==> rs[i].id != rs[j].id
  }

  /** Scores never rise down the list. */
  predicate ScoresNonIncreasing(rs: seq<SearchResult>) {
    forall i, j :: 0 <= i < j < |rs| ==> rs[i].score >= rs[j].score
  }

  /** The rows of a table read: rows of m, none twice. */
  predicate ReadOf<T(==)>(rows: seq<Row<T>>, m: map<Id, T>) {
    Distinct(rows) && forall row :: row in rows ==> row.id in m && m[row.id] == row.data
  }

  /** The result shows a row of m: its id, the content and metadata derived
      from that row, and the given type. */
  predicate Shows<T>(x: SearchResult, m: map<Id, T>, content: T -> string, kind: string, meta: T -> Option<Metadata>) {
    x.id.Some? && x.id.value in m && x.content == content(m[x.id.value]) && x.kind == kind
    && x.metadata == meta(m[x.id.value])
  }

  /** The result's score is 1 - the distance of its row's vector to q. */
  predicate ScoredBy<T>(x: SearchResult, m: map<Id, T>, vector: T -> Vector, q: Vector, dist: (Vector, Vector) -> real) {
    x.id.Some? && x.id.value in m && x.score == 1.0 - dist(vector(m[x.id.value]), q)
  }

  /** Every row of m the list leaves out scores no higher than every
      result. */
  predicate LeavesOutNoBetter<T>(rs: seq<SearchResult>, m: map<Id, T>, vector: T -> Vector, q: Vector,
                                 dist: (Vector, Vector) -> real) {
    forall id, i :: id in m && Some(id) !in IdsOf(rs) && 0 <= i < |rs| ==> 1.0 - dist(vector(m[id]), q) <= rs[i].score
  }

  /** created_at of the shown rows never rises down the list. */
  predicate NewestShownFirst<T>(rs: seq<SearchResult>, m: map<Id, T>, created: T -> Instant) {
    forall i, j :: 0 <= i < j < |rs| && rs[i].id.Some? && rs[i].id.value in m && rs[j].id.Some? && rs[j].id.value in m
      ==> created(m[rs[i].id.value]) >= created(m[rs[j].id.value])
  }

  /** One result per row of a read, in the read's order, at score 1.0. */
  function Listed<T>(rows: seq<Row<T>>, content: T -> string, kind: string, meta: T -> Option<Metadata>)
    : (r: seq<SearchResult>)
    ensures |r| == |rows|
    ensures forall i :: 0 <= i < |r| ==>
      r[i] == SearchResult(Some(rows[i].id), content(rows[i].data), ScoreOfListed, kind, meta(rows[i].data))
  {
    Project(rows, (row: Row<T>) => SearchResult(Some(row.id), content(row.data), ScoreOfListed, kind, meta(row.data)))
  }

  /** A listing of a table read lists each row of the read once, no other
      id, and shows each as that row. */
  lemma ListedShows<T>(rows: seq<Row<T>>, m: map<Id, T>, content: T -> string, kind: string, meta: T -> Option<Metadata>)
    requires ReadOf(rows, m)
    ensures var r := Listed(rows, content, kind, meta);
      IdsDistinct(r)
      && (forall id :: Some(id) in IdsOf(r) <==> id in m && Row(id, m[id]) in rows)
      && forall x :: x in r ==> Shows(x, m, content, kind, meta) && x.score == ScoreOfListed
  {
    var r := Listed(rows, content, kind, meta);
    forall i, j | 0 <= i < j < |r|
      ensures r[i].id != r[j].id
    {
      assert rows[i] in rows && rows[j] in rows;
    }
    forall id
      ensures Some(id) in IdsOf(r) <==> id in m && Row(id, m[id]) in rows
    {
      if Some(id) in IdsOf(r) {
        var k :| 0 <= k < |r| && IdsOf(r)[k] == Some(id);
        assert rows[k] in rows;
      }
      if id in m && Row(id, m[id]) in rows {
        var k :| 0 <= k < |rows| && rows[k] == Row(id, m[id]);
        assert IdsOf(r)[k] == Some(id);
      }
    }
    forall x | x in r
      ensures Shows(x, m, content, kind, meta) && x.score == ScoreOfListed
    {
      var k :| 0 <= k < |r| && r[k] == x;
      assert rows[k] in rows;
    }
  }

  /** A listing keeps the newest-first order of the read it lists. */
  lemma ListedNewestFirst<T>(rows: seq<Row<T>>, m: map<Id, T>, created: T -> Instant, content: T -> string,
                             kind: string, meta: T -> Option<Metadata>)
    requires ReadOf(rows, m) && NewestFirstOrder(rows, created)
    ensures NewestShownFirst(Listed(rows, content, kind, meta), m, created)
  {
    var r := Listed(rows, content, kind, meta);
    forall i, j | 0 <= i < j < |r| && r[i].id.Some? && r[i].id.value in m && r[j].id.Some? && r[j].id.value in m
      ensures created(m[r[i].id.value]) >= created(m[r[j].id.value])
    {
      assert rows[i] in rows && rows[j] in rows;
    }
  }

  /** One result per scored row, in the read's order, at the row's score. */
  function Ranked<T>(rows: seq<Scored<T>>, content: T -> string, kind: string, meta: T -> Option<Metadata>)
    : (r: seq<SearchResult>)
    ensures |r| == |rows|
    ensures forall i :: 0 <= i < |r| ==>
      r[i] == SearchResult(Some(rows[i].row.id), content(rows[i].row.data), rows[i].score, kind, meta(rows[i].row.data))
  {
    Project(rows, (s: Scored<T>) => SearchResult(Some(s.row.id), content(s.row.data), s.score, kind, meta(s.row.data)))
  }

  /** The rows of a scored search whose every row comes from m, scored by
      its distance to q. */
  predicate ScoredRead<T(==)>(rows: seq<Scored<T>>, m: map<Id, T>, vector: T -> Vector, q: Vector,
                          dist: (Vector, Vector) -> real) {
    forall i :: 0 <= i < |rows| ==>
      rows[i].row.id in m && m[rows[i].row.id] == rows[i].row.data
      && rows[i].score == 1.0 - dist(vector(rows[i].row.data), q)
  }

  /** A ranking of a scored read shows each row with its score, best
      first. */
  lemma RankedShows<T>(rows: seq<Scored<T>>, m: map<Id, T>, vector: T -> Vector, q: Vector,
                       dist: (Vector, Vector) -> real, content: T -> string, kind: string, meta: T -> Option<Metadata>)
    requires ScoredRead(rows, m, vector, q, dist) && ScoresDescending(rows)
    ensures var r := Ranked(rows, content, kind, meta);
      ScoresNonIncreasing(r)
      && forall x :: x in r ==> Shows(x, m, content, kind, meta) && ScoredBy(x, m, vector, q, dist)
  {
    var r := Ranked(rows, content, kind, meta);
    forall x | x in r
      ensures Shows(x, m, content, kind, meta) && ScoredBy(x, m, vector, q, dist)
    {
      var k :| 0 <= k < |r| && r[k] == x;
    }
  }

  /** A ranking of a top-k search over all of m lists no id twice and
      leaves out no row that scores higher than one it lists. */
  lemma RankedTop<T(!new)>(rows: seq<Scored<T>>, m: map<Id, T>, vector: T -> Vector, q: Vector,
                     dist: (Vector, Vector) -> real, content: T -> string, kind: string, meta: T -> Option<Metadata>)
    requires ScoredRead(rows, m, vector, q, dist) && RowsDistinct(rows) && ScoredTop(rows, Scan(m), vector, q, dist)
    ensures var r := Ranked(rows, content, kind, meta);
      IdsDistinct(r) && LeavesOutNoBetter(r, m, vector, q, dist)
  {
    RankedIdsDistinct(rows, m, vector, q, dist, content, kind, meta);
    RankedLeavesOut(rows, m, vector, q, dist, content, kind, meta);
  }

  lemma RankedIdsDistinct<T(!new)>(rows: seq<Scored<T>>, m: map<Id, T>, vector: T -> Vector, q: Vector,
                                   dist: (Vector, Vector) -> real, content: T -> string, kind: string,
                                   meta: T -> Option<Metadata>)
    requires ScoredRead(rows, m, vector, q, dist) && RowsDistinct(rows)
    ensures IdsDistinct(Ranked(rows, content, kind, meta))
  {
    var r := Ranked(rows, content, kind, meta);
    forall i, j | 0 <= i < j < |r|
      ensures r[i].id != r[j].id
    {
      assert rows[i].row != rows[j].row;
    }
  }

  lemma RankedLeavesOut<T(!new)>(rows: seq<Scored<T>>, m: map<Id, T>, vector: T -> Vector, q: Vector,
                                 dist: (Vector, Vector) -> real, content: T -> string, kind: string,
                                 meta: T -> Option<Metadata>)
    requires ScoredTop(rows, Scan(m), vector, q, dist)
    ensures LeavesOutNoBetter(Ranked(rows, content, kind, meta), m, vector, q, dist)
  {
    var r := Ranked(rows, content, kind, meta);
    forall id, i | id in m && Some(id) !in IdsOf(r) && 0 <= i < |r|
      ensures 1.0 - dist(vector(m[id]), q) <= r[i].score
    {
      var x := Row(id, m[id]);
      assert x in Scan(m);
      NotRanked(rows, content, kind, meta, id);
      ScoredTopAt(rows, Scan(m), vector, q, dist, x, i);
    }
  }

  /** An id missing from a ranking is the id of none of its rows. */
  lemma NotRanked<T>(rows: seq<Scored<T>>, content: T -> string, kind: string, meta: T -> Option<Metadata>, id: Id)
    requires Some(id) !in IdsOf(Ranked(rows, content, kind, meta))
    ensures forall k :: 0 <= k < |rows| ==> rows[k].row.id != id
  {
    var r := Ranked(rows, content, kind, meta);
    forall k | 0 <= k < |rows|
      ensures rows[k].row.id != id
    {
      assert IdsOf(r)[k] == Some(rows[k].row.id);
    }
  }

  /** ScoredTop at one left-out candidate and one position. */
  lemma ScoredTopAt<T>(rows: seq<Scored<T>>, cands: seq<Row<T>>, vector: T -> Vector, q: Vector,
                       dist: (Vector, Vector) -> real, x: Row<T>, i: nat)
    requires ScoredTop(rows, cands, vector, q, dist)
    requires x in cands && (forall k :: 0 <= k < |rows| ==> rows[k].row.id != x.id) && i < |rows|
    ensures 1.0 - dist(vector(x.data), q) <= rows[i].score
  {
  }

  // ---------------------------------------------------------------- contexts

  function ChunkText(c: Context): string {
    c.textChunk
  }

  /** {"chunkIndex": the chunk index, or 0 when it is null}. */
  function IndexMeta(c: Context): Option<Metadata> {
    Some(map["chunkIndex" := Number(OrElse(c.chunkIndex, 0))])
  }

  function NoContextMeta(c: Context): Option<Metadata> {
    None
  }

  /** searchContexts: embed the query, take the limit nearest contexts,
      one CHUNK result each with its score and chunk index. */
  function SearchContexts(t: Tables, request: QueryRequest, embed: string -> Result<Vector>,
                          dist: (Vector, Vector) -> real): (r: Result<QueryResponse>)
    ensures r.Failure? <==> embed(request.query).Failure? || request.limit < 0
    ensures embed(request.query).Failure? ==> r == Failure(embed(request.query).error)
    ensures r.Success? ==>
      var q := embed(request.query).value;
      var rs := r.value.results;
      r.value.query == request.query
      && |rs| == (if request.limit < |t.contexts| then request.limit else |t.contexts|)
      && ScoresNonIncreasing(rs)
      && forall x :: x in rs ==>
        Shows(x, t.contexts, ChunkText, "CHUNK", IndexMeta) && ScoredBy(x, t.contexts, ContextQueries.VectorOf, q, dist)
  {
    var q := embed(request.query);
    if q.Failure? then Failure(q.error)
    else
      var rows := ContextQueries.SimilarWithScore(t, q.value, dist, request.limit);
      if rows.Failure? then Failure(rows.error)
      else
        RankedShows(rows.value, t.contexts, ContextQueries.VectorOf, q.value, dist, ChunkText, "CHUNK", IndexMeta);
        Success(QueryResponse(request.query, Ranked(rows.value, ChunkText, "CHUNK", IndexMeta)))
  }

  /** The context search lists no context twice and leaves out no context
      that scores higher than one it lists. */
  lemma SearchContextsIsTop(t: Tables, request: QueryRequest, embed: string -> Result<Vector>,
                            dist: (Vector, Vector) -> real)
    requires embed(request.query).Success? && request.limit >= 0
    ensures var rs := SearchContexts(t, request, embed, dist).value.results;
      IdsDistinct(rs) && LeavesOutNoBetter(rs, t.contexts, ContextQueries.VectorOf, embed(request.query).value, dist)
  {
    var q := embed(request.query).value;
    var rows := ContextQueries.SimilarWithScore(t, q, dist, request.limit).value;
    assert SearchContexts(t, request, embed, dist).value.results == Ranked(rows, ChunkText, "CHUNK", IndexMeta);
    ContextQueries.SimilarWithScoreIsTop(t, q, dist, request.limit);
    RankedTop(rows, t.contexts, ContextQueries.VectorOf, q, dist, ChunkText, "CHUNK", IndexMeta);
  }

  /** getContextsByKnowledgeBase: a CHUNK result at score 1.0 per context
      of the knowledge base, with its chunk index. */
  function ContextsByKnowledgeBase(t: Tables, kbId: Id): QueryResponse {
    QueryResponse("kb:" + IdText(kbId), Listed(ContextQueries.ByKnowledgeBase(t, kbId), ChunkText, "CHUNK", IndexMeta))
  }

  /** Every context of the knowledge base is listed once, shown as itself,
      and no other context is. */
  lemma ContextsByKnowledgeBaseLists(t: Tables, kbId: Id)
    ensures var r := ContextsByKnowledgeBase(t, kbId);
      r.query == "kb:" + IdText(kbId)
      && IdsDistinct(r.results)
      && (forall id :: Some(id) in IdsOf(r.results) <==> id in t.contexts && t.contexts[id].kbId == kbId)
      && forall x :: x in r.results ==> Shows(x, t.contexts, ChunkText, "CHUNK", IndexMeta) && x.score == ScoreOfListed
  {
    KbContextsListed(t, kbId, ContextQueries.ByKnowledgeBase(t, kbId));
  }

  lemma KbContextsListed(t: Tables, kbId: Id, rows: seq<Row<Context>>)
    requires Distinct(rows)
    requires forall row :: row in rows <==> row.id in t.contexts && t.contexts[row.id] == row.data && row.data.kbId == kbId
    ensures var rs := Listed(rows, ChunkText, "CHUNK", IndexMeta);
      IdsDistinct(rs)
      && (forall id :: Some(id) in IdsOf(rs) <==> id in t.contexts && t.contexts[id].kbId == kbId)
      && forall x :: x in rs ==> Shows(x, t.contexts, ChunkText, "CHUNK", IndexMeta) && x.score == ScoreOfListed
  {
    ListedShows(rows, t.contexts, ChunkText, "CHUNK", IndexMeta);
  }

  /** getRecentContexts: a CHUNK result at score 1.0, without metadata, per
      context created at or after now minus the given days, newest first. */
  function RecentContexts(t: Tables, now: Instant, days: int): QueryResponse {
    QueryResponse("recent:" + Text.IntToString(days) + "days",
                  Listed(ContextQueries.Recent(t, now, days), ChunkText, "CHUNK", NoContextMeta))
  }

  /** Every context in the window is listed once, newest first, and no
      other context is. */
  lemma RecentContextsLists(t: Tables, now: Instant, days: int)
    ensures var r := RecentContexts(t, now, days);
      r.query == "recent:" + Text.IntToString(days) + "days"
      && IdsDistinct(r.results)
      && (forall id :: Some(id) in IdsOf(r.results) <==>
            id in t.contexts && t.contexts[id].createdAt >= now - days * Interval.SecondsPerDay)
      && (forall x :: x in r.results ==> Shows(x, t.contexts, ChunkText, "CHUNK", NoContextMeta) && x.score == ScoreOfListed)
      && NewestShownFirst(r.results, t.contexts, ContextQueries.ContextCreated)
  {
    WindowContextsListed(t, now - days * Interval.SecondsPerDay, ContextQueries.Recent(t, now, days));
  }

  lemma WindowContextsListed(t: Tables, from: Instant, rows: seq<Row<Context>>)
    requires Distinct(rows) && NewestFirstOrder(rows, ContextQueries.ContextCreated)
    requires forall row :: row in rows <==> row.id in t.contexts && t.contexts[row.id] == row.data && row.data.createdAt >= from
    ensures var rs := Listed(rows, ChunkText, "CHUNK", NoContextMeta);
      IdsDistinct(rs)
      && (forall id :: Some(id) in IdsOf(rs) <==> id in t.contexts && t.contexts[id].createdAt >= from)
      && (forall x :: x in rs ==> Shows(x, t.contexts, ChunkText, "CHUNK", NoContextMeta) && x.score == ScoreOfListed)
      && NewestShownFirst(rs, t.contexts, ContextQueries.ContextCreated)
  {
    ListedShows(rows, t.contexts, ChunkText, "CHUNK", NoContextMeta);
    ListedNewestFirst(rows, t.contexts, ContextQueries.ContextCreated, ChunkText, "CHUNK", NoContextMeta);
  }

  const CastError := "invalid input syntax for type timestamp with time zone"

  /** getContextsByDateRange: the two strings are cast to instants by the
      database (cast stands for that cast; None is a string it rejects,
      which fails the call), then a CHUNK result at score 1.0, without
      metadata, per context created between them, both included, newest
      first. */
  function ContextsByDateRange(t: Tables, startDate: string, endDate: string, cast: string -> Option<Instant>)
    : (r: Result<QueryResponse>)
    ensures r.Failure? <==> cast(startDate).None? || cast(endDate).None?
  {
    var start := cast(startDate);
    var end := cast(endDate);
    if start.None? || end.None? then Failure(CastError)
    else
      Success(QueryResponse("range:" + startDate + "_to_" + endDate,
                            Listed(ContextQueries.InRange(t, start.value, end.value), ChunkText, "CHUNK", NoContextMeta)))
  }

  /** With both bounds cast, every context created in the range is listed
      once, newest first, and no other context is. */
  lemma ContextsByDateRangeLists(t: Tables, startDate: string, endDate: string, cast: string -> Option<Instant>)
    requires cast(startDate).Some? && cast(endDate).Some?
    ensures var r := ContextsByDateRange(t, startDate, endDate, cast).value;
      var start := cast(startDate).value;
      var end := cast(endDate).value;
      r.query == "range:" + startDate + "_to_" + endDate
      && IdsDistinct(r.results)
      && (forall id :: Some(id) in IdsOf(r.results) <==> id in t.contexts && start <= t.contexts[id].createdAt <= end)
      && (forall x :: x in r.results ==> Shows(x, t.contexts, ChunkText, "CHUNK", NoContextMeta) && x.score == ScoreOfListed)
      && NewestShownFirst(r.results, t.contexts, ContextQueries.ContextCreated)
  {
    var start := cast(startDate).value;
    var end := cast(endDate).value;
    var rows := ContextQueries.InRange(t, start, end);
    assert ContextsByDateRange(t, startDate, endDate, cast).value.results == Listed(rows, ChunkText, "CHUNK", NoContextMeta);
    RangeContextsListed(t, start, end, ContextQueries.InRange(t, start, end));
  }

  lemma RangeContextsListed(t: Tables, start: Instant, end: Instant, rows: seq<Row<Context>>)
    requires Distinct(rows) && NewestFirstOrder(rows, ContextQueries.ContextCreated)
    requires forall row :: row in rows <==>
      row.id in t.contexts && t.contexts[row.id] == row.data && start <= row.data.createdAt <= end
    ensures var rs := Listed(rows, ChunkText, "CHUNK", NoContextMeta);
      IdsDistinct(rs)
      && (forall id :: Some(id) in IdsOf(rs) <==> id in t.contexts && start <= t.contexts[id].createdAt <= end)
      && (forall x :: x in rs ==> Shows(x, t.contexts, ChunkText, "CHUNK", NoContextMeta) && x.score == ScoreOfListed)
      && NewestShownFirst(rs, t.contexts, ContextQueries.ContextCreated)
  {
    ListedShows(rows, t.contexts, ChunkText, "CHUNK", NoContextMeta);
    ListedNewestFirst(rows, t.contexts, ContextQueries.ContextCreated, ChunkText, "CHUNK", NoContextMeta);
  }

  /** The rows of a scored read, without their scores. */
  function Unscored<T>(rows: seq<Scored<T>>): (r: seq<Row<T>>)
    ensures |r| == |rows|
    ensures forall i :: 0 <= i < |r| ==> r[i] == rows[i].row
  {
    Project(rows, (s: Scored<T>) => s.row)
  }

  /** The shown rows' vectors are never farther from q down the list. */
  predicate NearestShownFirst<T>(rs: seq<SearchResult>, m: map<Id, T>, vector: T -> Vector, q: Vector,
                                 dist: (Vector, Vector) -> real) {
    forall i, j :: 0 <= i < j < |rs| && rs[i].id.Some? && rs[i].id.value in m && rs[j].id.Some? && rs[j].id.value in m
      ==> dist(vector(m[rs[i].id.value]), q) <= dist(vector(m[rs[j].id.value]), q)
  }

  /** The recent contexts: created strictly after now minus the days. */
  predicate RecentContext(t: Tables, now: Instant, days: int, id: Id) {
    id in t.contexts && t.contexts[id].createdAt > now - days * Interval.SecondsPerDay
  }

  /** searchRecentContexts: embed the query, take the limit recent contexts
      nearest to it, nearest first, each as a CHUNK result at score 1.0
      without metadata. */
  function SearchRecentContexts(t: Tables, request: QueryRequest, days: int, now: Instant,
                                embed: string -> Result<Vector>, dist: (Vector, Vector) -> real)
    : (r: Result<QueryResponse>)
    ensures r.Failure? <==> embed(request.query).Failure? || request.limit < 0
    ensures embed(request.query).Failure? ==> r == Failure(embed(request.query).error)
  {
    var q := embed(request.query);
    if q.Failure? then Failure(q.error)
    else
      var rows := ContextQueries.RecentSimilarWithScore(t, now, days, q.value, dist, request.limit);
      if rows.Failure? then Failure(rows.error)
      else Success(QueryResponse(request.query, Listed(Unscored(rows.value), ChunkText, "CHUNK", NoContextMeta)))
  }

  /** rs lists recent contexts, each once as a CHUNK result at score 1.0,
      nearest first, and leaves out no recent context nearer to q than one
      it lists. */
  ghost predicate RecentListing(rs: seq<SearchResult>, t: Tables, now: Instant, days: int, q: Vector,
                                dist: (Vector, Vector) -> real) {
    IdsDistinct(rs)
    && (forall x :: x in rs ==>
          Shows(x, t.contexts, ChunkText, "CHUNK", NoContextMeta) && x.score == ScoreOfListed
          && RecentContext(t, now, days, x.id.value))
    && NearestShownFirst(rs, t.contexts, ContextQueries.VectorOf, q, dist)
    && forall id: Id, i ::
         RecentContext(t, now, days, id) && Some(id) !in IdsOf(rs) && 0 <= i < |rs|
         && rs[i].id.Some? && rs[i].id.value in t.contexts
         ==> dist(t.contexts[rs[i].id.value].vector, q) <= dist(t.contexts[id].vector, q)
  }

  /** The recent search lists min(limit, number of recent contexts)
      recent contexts, each once, nearest first, and leaves out no recent
      context nearer to the query than one it lists. */
  lemma SearchRecentContextsIsTop(t: Tables, request: QueryRequest, days: int, now: Instant,
                                  embed: string -> Result<Vector>, dist: (Vector, Vector) -> real)
    requires embed(request.query).Success? && request.limit >= 0
    ensures var r := SearchRecentContexts(t, request, days, now, embed, dist).value;
      var rs := r.results;
      var q := embed(request.query).value;
      var n := |ContextQueries.RecentRows(t, now, days)|;
      r.query == request.query
      && |rs| == (if request.limit < n then request.limit else n)
      && RecentListing(rs, t, now, days, q, dist)
  {
    var q := embed(request.query).value;
    var rows := ContextQueries.RecentSimilarWithScore(t, now, days, q, dist, request.limit).value;
    assert SearchRecentContexts(t, request, days, now, embed, dist).value
        == QueryResponse(request.query, Listed(Unscored(rows), ChunkText, "CHUNK", NoContextMeta));
    ContextQueries.RecentSimilarWithScoreIsTop(t, now, days, q, dist, request.limit);
    RecentRowsListed(t, now, days, q, dist, rows, ContextQueries.RecentRows(t, now, days));
  }

  lemma RecentRowsListed(t: Tables, now: Instant, days: int, q: Vector, dist: (Vector, Vector) -> real,
                         rows: seq<Scored<Context>>, cands: seq<Row<Context>>)
    requires forall i :: 0 <= i < |rows| ==>
      var row := rows[i].row;
      row.id in t.contexts && t.contexts[row.id] == row.data && row.data.createdAt > now - days * Interval.SecondsPerDay
      && rows[i].score == 1.0 - dist(row.data.vector, q)
    requires ScoresDescending(rows) && RowsDistinct(rows) && ScoredTop(rows, cands, ContextQueries.VectorOf, q, dist)
    requires forall row :: row in cands <==>
      row.id in t.contexts && t.contexts[row.id] == row.data && row.data.createdAt > now - days * Interval.SecondsPerDay
    ensures var rs := Listed(Unscored(rows), ChunkText, "CHUNK", NoContextMeta);
      |rs| == |rows| && RecentListing(rs, t, now, days, q, dist)
  {
    var rs := Listed(Unscored(rows), ChunkText, "CHUNK", NoContextMeta);
    forall x | x in rs
      ensures Shows(x, t.contexts, ChunkText, "CHUNK", NoContextMeta) && RecentContext(t, now, days, x.id.value)
    {
      var k :| 0 <= k < |rs| && rs[k] == x;
    }
    forall id: Id, i | RecentContext(t, now, days, id) && Some(id) !in IdsOf(rs) && 0 <= i < |rs|
      && rs[i].id.Some? && rs[i].id.value in t.contexts
      ensures dist(t.contexts[rs[i].id.value].vector, q) <= dist(t.contexts[id].vector, q)
    {
      var x := Row(id, t.contexts[id]);
      assert x in cands;
      forall k | 0 <= k < |rows|
        ensures rows[k].row != x
      {
        assert IdsOf(rs)[k] == Some(rows[k].row.id);
      }
    }
  }

  /** The chunk indexes of the shown contexts: indexed ones ascending, the
      unindexed ones after them. */
  predicate IndexShownOrder(rs: seq<SearchResult>, contexts: map<Id, Context>) {
    forall i, j :: 0 <= i < j < |rs| && rs[i].id.Some? && rs[i].id.value in contexts && rs[j].id.Some?
      && rs[j].id.value in contexts && contexts[rs[j].id.value].chunkIndex.Some?
      ==> contexts[rs[i].id.value].chunkIndex.Some?
          && contexts[rs[i].id.value].chunkIndex.value <= contexts[rs[j].id.value].chunkIndex.value
  }

  /** getSiblingContexts: a SIBLING_CHUNK result at score 1.0, with its
      chunk index, per context of the knowledge base the given context
      belongs to (none for an unknown context), by chunk index. */
  function SiblingContexts(t: Tables, contextId: Id): QueryResponse {
    QueryResponse("siblings:" + IdText(contextId),
                  Listed(ContextQueries.Siblings(t, contextId), ChunkText, "SIBLING_CHUNK", IndexMeta))
  }

  /** Every context sharing the given context's knowledge base is listed
      once, itself included, in chunk-index order with the unindexed last,
      and no other context is. */
  lemma SiblingContextsLists(t: Tables, contextId: Id)
    ensures var r := SiblingContexts(t, contextId);
      r.query == "siblings:" + IdText(contextId)
      && IdsDistinct(r.results)
      && (forall id :: Some(id) in IdsOf(r.results) <==>
            contextId in t.contexts && id in t.contexts && t.contexts[id].kbId == t.contexts[contextId].kbId)
      && (forall x :: x in r.results ==> Shows(x, t.contexts, ChunkText, "SIBLING_CHUNK", IndexMeta) && x.score == ScoreOfListed)
      && IndexShownOrder(r.results, t.contexts)
  {
    SiblingsDistinct(t, contextId);
    SiblingRowsListed(t, contextId, ContextQueries.Siblings(t, contextId));
  }

  lemma SiblingRowsListed(t: Tables, contextId: Id, rows: seq<Row<Context>>)
    requires Distinct(rows)
    requires contextId !in t.contexts ==> rows == []
    requires contextId in t.contexts ==> forall row :: row in rows <==>
      row.id in t.contexts && t.contexts[row.id] == row.data && row.data.kbId == t.contexts[contextId].kbId
    requires forall i, j :: 0 <= i < j < |rows| && rows[j].data.chunkIndex.Some? ==>
      rows[i].data.chunkIndex.Some? && rows[i].data.chunkIndex.value <= rows[j].data.chunkIndex.value
    ensures var rs := Listed(rows, ChunkText, "SIBLING_CHUNK", IndexMeta);
      IdsDistinct(rs)
      && (forall id :: Some(id) in IdsOf(rs) <==>
            contextId in t.contexts && id in t.contexts && t.contexts[id].kbId == t.contexts[contextId].kbId)
      && (forall x :: x in rs ==> Shows(x, t.contexts, ChunkText, "SIBLING_CHUNK", IndexMeta) && x.score == ScoreOfListed)
      && IndexShownOrder(rs, t.contexts)
  {
    assert forall row :: row in rows ==> row.id in t.contexts && t.contexts[row.id] == row.data;
    ListedShows(rows, t.contexts, ChunkText, "SIBLING_CHUNK", IndexMeta);
    var rs := Listed(rows, ChunkText, "SIBLING_CHUNK", IndexMeta);
    forall i, j | 0 <= i < j < |rs| && rs[i].id.Some? && rs[i].id.value in t.contexts && rs[j].id.Some?
      && rs[j].id.value in t.contexts && t.contexts[rs[j].id.value].chunkIndex.Some?
      ensures t.contexts[rs[i].id.value].chunkIndex.Some?
        && t.contexts[rs[i].id.value].chunkIndex.value <= t.contexts[rs[j].id.value].chunkIndex.value
    {
      assert rows[i] in rows && rows[j] in rows;
    }
  }

  /** The sibling read has no repeats. */
  lemma SiblingsDistinct(t: Tables, contextId: Id)
    ensures Distinct(ContextQueries.Siblings(t, contextId))
  {
    if contextId in t.contexts {
      var rows := ContextQueries.ByKnowledgeBase(t, t.contexts[contextId].kbId);
      var indexed := Filter(rows, ContextQueries.HasIndex);
      var unindexed := Filter(rows, ContextQueries.NoIndex);
      var sorted := SortBy(indexed, ContextQueries.IndexKey);
      assert ContextQueries.Siblings(t, contextId) == sorted + unindexed;
      FilterDistinct(rows, ContextQueries.HasIndex);
      FilterDistinct(rows, ContextQueries.NoIndex);
      DistinctPermutation(indexed, sorted);
      SortByMembers(indexed, ContextQueries.IndexKey);
      DistinctConcat(sorted, unindexed);
    }
  }

  // ---------------------------------------------------------------- entities

  function EntityName(e: Entity): string {
    e.name
  }

  /** {"entityType": the type, or "UNKNOWN"; "description": the
      description, or ""}. */
  function EntityMeta(e: Entity): Option<Metadata> {
    Some(map["entityType" := Str(OrElse(e.entityType, Unknown)), "description" := Str(OrElse(e.description, ""))])
  }

  /** {"entityType": the type, or "UNKNOWN"}. */
  function TypeMeta(e: Entity): Option<Metadata> {
    Some(map["entityType" := Str(OrElse(e.entityType, Unknown))])
  }

  /** searchEntities: embed the query, take the limit nearest entities, one
      ENTITY result each with its score, type and description. */
  function SearchEntities(t: Tables, request: QueryRequest, embed: string -> Result<Vector>,
                          dist: (Vector, Vector) -> real): (r: Result<QueryResponse>)
    ensures r.Failure? <==> embed(request.query).Failure? || request.limit < 0
    ensures embed(request.query).Failure? ==> r == Failure(embed(request.query).error)
    ensures r.Success? ==>
      var q := embed(request.query).value;
      var rs := r.value.results;
      r.value.query == request.query
      && |rs| == (if request.limit < |t.entities| then request.limit else |t.entities|)
      && ScoresNonIncreasing(rs)
      && forall x :: x in rs ==>
        Shows(x, t.entities, EntityName, "ENTITY", EntityMeta) && ScoredBy(x, t.entities, EntityQueries.EntityVector, q, dist)
  {
    var q := embed(request.query);
    if q.Failure? then Failure(q.error)
    else
      var rows := EntityQueries.SimilarEntitiesWithScore(t, q.value, dist, request.limit);
      if rows.Failure? then Failure(rows.error)
      else
        RankedShows(rows.value, t.entities, EntityQueries.EntityVector, q.value, dist, EntityName, "ENTITY", EntityMeta);
        Success(QueryResponse(request.query, Ranked(rows.value, EntityName, "ENTITY", EntityMeta)))
  }

  /** The entity search lists no entity twice and leaves out no entity
      that scores higher than one it lists. */
  lemma SearchEntitiesIsTop(t: Tables, request: QueryRequest, embed: string -> Result<Vector>,
                            dist: (Vector, Vector) -> real)
    requires embed(request.query).Success? && request.limit >= 0
    ensures var rs := SearchEntities(t, request, embed, dist).value.results;
      IdsDistinct(rs) && LeavesOutNoBetter(rs, t.entities, EntityQueries.EntityVector, embed(request.query).value, dist)
  {
    var q := embed(request.query).value;
    var rows := EntityQueries.SimilarEntitiesWithScore(t, q, dist, request.limit).value;
    assert SearchEntities(t, request, embed, dist).value.results == Ranked(rows, EntityName, "ENTITY", EntityMeta);
    EntityQueries.SimilarEntitiesWithScoreIsTop(t, q, dist, request.limit);
    RankedTop(rows, t.entities, EntityQueries.EntityVector, q, dist, EntityName, "ENTITY", EntityMeta);
  }

  /** disambiguateEntity: embed the context text, then, among the entities
      with exactly that name, the one nearest to it; none when no entity
      has the name. */
  function DisambiguateEntity(t: Tables, entityName: string, contextText: string, embed: string -> Result<Vector>,
                              dist: (Vector, Vector) -> real): (r: Result<Option<Row<Entity>>>)
    ensures r.Failure? <==> embed(contextText).Failure?
    ensures r.Success? ==> (r.value.None? <==> forall id :: id in t.entities ==> t.entities[id].name != entityName)
    ensures r.Success? && r.value.Some? ==>
      var row := r.value.value;
      row.id in t.entities && t.entities[row.id] == row.data && row.data.name == entityName
      && forall id :: id in t.entities && t.entities[id].name == entityName ==>
        dist(row.data.vector, embed(contextText).value) <= dist(t.entities[id].vector, embed(contextText).value)
  {
    var q := embed(contextText);
    if q.Failure? then Failure(q.error)
    else
      var found := EntityQueries.Disambiguate(t, entityName, q.value, dist);
      if found.None? then Success(None)
      else
        EntityQueries.DisambiguatePicksNearest(t, entityName, q.value, dist);
        Success(found)
  }

  /** getContextsForEntity: an ENTITY_CONTEXT result at score 1.0, without
      metadata, per context linked to the entity. */
  function ContextsForEntity(t: Tables, entityId: Id): QueryResponse {
    QueryResponse("entity_contexts:" + IdText(entityId),
                  Listed(EntityQueries.ContextsForEntity(t, entityId), ChunkText, "ENTITY_CONTEXT", NoContextMeta))
  }

  /** Every context linked to the entity is listed once, and no other. */
  lemma ContextsForEntityLists(t: Tables, entityId: Id)
    ensures var r := ContextsForEntity(t, entityId);
      r.query == "entity_contexts:" + IdText(entityId)
      && IdsDistinct(r.results)
      && (forall id :: Some(id) in IdsOf(r.results) <==> id in t.contexts && Link(entityId, id) in t.links)
      && forall x :: x in r.results ==>
        Shows(x, t.contexts, ChunkText, "ENTITY_CONTEXT", NoContextMeta) && x.score == ScoreOfListed
  {
    LinkedContextsListed(t, entityId, EntityQueries.ContextsForEntity(t, entityId));
  }

  lemma LinkedContextsListed(t: Tables, entityId: Id, rows: seq<Row<Context>>)
    requires Distinct(rows)
    requires forall row :: row in rows <==>
      row.id in t.contexts && t.contexts[row.id] == row.data && Link(entityId, row.id) in t.links
    ensures var rs := Listed(rows, ChunkText, "ENTITY_CONTEXT", NoContextMeta);
      IdsDistinct(rs)
      && (forall id :: Some(id) in IdsOf(rs) <==> id in t.contexts && Link(entityId, id) in t.links)
      && forall x :: x in rs ==> Shows(x, t.contexts, ChunkText, "ENTITY_CONTEXT", NoContextMeta) && x.score == ScoreOfListed
  {
    ListedShows(rows, t.contexts, ChunkText, "ENTITY_CONTEXT", NoContextMeta);
  }

  /** getEntitiesForContext: a CONTEXT_ENTITY result at score 1.0, with its
      type, per entity linked to the context. */
  function EntitiesForContext(t: Tables, contextId: Id): QueryResponse {
    QueryResponse("context_entities:" + IdText(contextId),
                  Listed(EntityQueries.EntitiesForContext(t, contextId), EntityName, "CONTEXT_ENTITY", TypeMeta))
  }

  /** Every entity linked to the context is listed once, and no other. */
  lemma EntitiesForContextLists(t: Tables, contextId: Id)
    ensures var r := EntitiesForContext(t, contextId);
      r.query == "context_entities:" + IdText(contextId)
      && IdsDistinct(r.results)
      && (forall id :: Some(id) in IdsOf(r.results) <==> id in t.entities && Link(id, contextId) in t.links)
      && forall x :: x in r.results ==> Shows(x, t.entities, EntityName, "CONTEXT_ENTITY", TypeMeta) && x.score == ScoreOfListed
  {
    LinkedEntitiesListed(t, contextId, EntityQueries.EntitiesForContext(t, contextId));
  }

  lemma LinkedEntitiesListed(t: Tables, contextId: Id, rows: seq<Row<Entity>>)
    requires Distinct(rows)
    requires forall row :: row in rows <==>
      row.id in t.entities && t.entities[row.id] == row.data && Link(row.id, contextId) in t.links
    ensures var rs := Listed(rows, EntityName, "CONTEXT_ENTITY", TypeMeta);
      IdsDistinct(rs)
      && (forall id :: Some(id) in IdsOf(rs) <==> id in t.entities && Link(id, contextId) in t.links)
      && forall x :: x in rs ==> Shows(x, t.entities, EntityName, "CONTEXT_ENTITY", TypeMeta) && x.score == ScoreOfListed
  {
    ListedShows(rows, t.entities, EntityName, "CONTEXT_ENTITY", TypeMeta);
  }

  // ---------------------------------------------------------------- knowledge bases

  function KbContent(kb: KnowledgeBase): string {
    kb.content
  }

  /** {"uid": the user id, "converser": the role}. */
  function HistoryMeta(kb: KnowledgeBase): Option<Metadata> {
    Some(map["uid" := Str(kb.uid), "converser" := Speaker(kb.converser)])
  }

  /** {"converser": the role}. */
  function ConverserMeta(kb: KnowledgeBase): Option<Metadata> {
    Some(map["converser" := Speaker(kb.converser)])
  }

  function NoKbMeta(kb: KnowledgeBase): Option<Metadata> {
    None
  }

  /** searchHistory: embed the query, take the limit nearest knowledge
      bases, one KNOWLEDGE_BASE result each with its score, user and
      converser. */
  function SearchHistory(t: Tables, request: QueryRequest, embed: string -> Result<Vector>,
                         dist: (Vector, Vector) -> real): (r: Result<QueryResponse>)
    ensures r.Failure? <==> embed(request.query).Failure? || request.limit < 0
    ensures embed(request.query).Failure? ==> r == Failure(embed(request.query).error)
    ensures r.Success? ==>
      var q := embed(request.query).value;
      var rs := r.value.results;
      r.value.query == request.query
      && |rs| == (if request.limit < |t.kbs| then request.limit else |t.kbs|)
      && ScoresNonIncreasing(rs)
      && forall x :: x in rs ==>
        Shows(x, t.kbs, KbContent, "KNOWLEDGE_BASE", HistoryMeta) && ScoredBy(x, t.kbs, KbQueries.KbVector, q, dist)
  {
    var q := embed(request.query);
    if q.Failure? then Failure(q.error)
    else
      var rows := KbQueries.SimilarWithScore(t, q.value, dist, request.limit);
      if rows.Failure? then Failure(rows.error)
      else
        RankedShows(rows.value, t.kbs, KbQueries.KbVector, q.value, dist, KbContent, "KNOWLEDGE_BASE", HistoryMeta);
        Success(QueryResponse(request.query, Ranked(rows.value, KbContent, "KNOWLEDGE_BASE", HistoryMeta)))
  }

  /** The history search lists no knowledge base twice and leaves out none
      that scores higher than one it lists. */
  lemma SearchHistoryIsTop(t: Tables, request: QueryRequest, embed: string -> Result<Vector>,
                           dist: (Vector, Vector) -> real)
    requires embed(request.query).Success? && request.limit >= 0
    ensures var rs := SearchHistory(t, request, embed, dist).value.results;
      IdsDistinct(rs) && LeavesOutNoBetter(rs, t.kbs, KbQueries.KbVector, embed(request.query).value, dist)
  {
    var q := embed(request.query).value;
    var rows := KbQueries.SimilarWithScore(t, q, dist, request.limit).value;
    assert SearchHistory(t, request, embed, dist).value.results == Ranked(rows, KbContent, "KNOWLEDGE_BASE", HistoryMeta);
    KbQueries.SimilarWithScoreIsTop(t, q, dist, request.limit);
    RankedTop(rows, t.kbs, KbQueries.KbVector, q, dist, KbContent, "KNOWLEDGE_BASE", HistoryMeta);
  }

  /** getHistoryByUser: a KNOWLEDGE_BASE result at score 1.0, with its
      converser, per knowledge base of the user, newest first. */
  function HistoryByUser(t: Tables, uid: string): QueryResponse {
    QueryResponse("user:" + uid, Listed(KbQueries.ByUid(t, uid), KbContent, "KNOWLEDGE_BASE", ConverserMeta))
  }

  /** Every knowledge base of the user is listed once, newest first, and no
      other. */
  lemma HistoryByUserLists(t: Tables, uid: string)
    ensures var r := HistoryByUser(t, uid);
      r.query == "user:" + uid
      && IdsDistinct(r.results)
      && (forall id :: Some(id) in IdsOf(r.results) <==> id in t.kbs && t.kbs[id].uid == uid)
      && (forall x :: x in r.results ==> Shows(x, t.kbs, KbContent, "KNOWLEDGE_BASE", ConverserMeta) && x.score == ScoreOfListed)
      && NewestShownFirst(r.results, t.kbs, KbQueries.KbCreated)
  {
    UserKbsListed(t, uid, KbQueries.ByUid(t, uid));
  }

  lemma UserKbsListed(t: Tables, uid: string, rows: seq<Row<KnowledgeBase>>)
    requires Distinct(rows) && NewestFirstOrder(rows, KbQueries.KbCreated)
    requires forall row :: row in rows <==> row.id in t.kbs && t.kbs[row.id] == row.data && row.data.uid == uid
    ensures var rs := Listed(rows, KbContent, "KNOWLEDGE_BASE", ConverserMeta);
      IdsDistinct(rs)
      && (forall id :: Some(id) in IdsOf(rs) <==> id in t.kbs && t.kbs[id].uid == uid)
      && (forall x :: x in rs ==> Shows(x, t.kbs, KbContent, "KNOWLEDGE_BASE", ConverserMeta) && x.score == ScoreOfListed)
      && NewestShownFirst(rs, t.kbs, KbQueries.KbCreated)
  {
    ListedShows(rows, t.kbs, KbContent, "KNOWLEDGE_BASE", ConverserMeta);
    ListedNewestFirst(rows, t.kbs, KbQueries.KbCreated, KbContent, "KNOWLEDGE_BASE", ConverserMeta);
  }

  /** getRecentKnowledgeBases: a KNOWLEDGE_BASE result at score 1.0,
      without metadata, per knowledge base created in the last hours,
      newest first. */
  function RecentKnowledgeBases(t: Tables, now: Instant, hours: int): QueryResponse {
    QueryResponse("recent:" + Text.IntToString(hours) + "hours",
                  Listed(KbQueries.Recent(t, now, hours), KbContent, "KNOWLEDGE_BASE", NoKbMeta))
  }

  /** Every knowledge base created after now minus the hours is listed
      once, newest first, and no other. */
  lemma RecentKnowledgeBasesLists(t: Tables, now: Instant, hours: int)
    ensures var r := RecentKnowledgeBases(t, now, hours);
      r.query == "recent:" + Text.IntToString(hours) + "hours"
      && IdsDistinct(r.results)
      && (forall id :: Some(id) in IdsOf(r.results) <==>
            id in t.kbs && t.kbs[id].createdAt > now - hours * Interval.SecondsPerHour)
      && (forall x :: x in r.results ==> Shows(x, t.kbs, KbContent, "KNOWLEDGE_BASE", NoKbMeta) && x.score == ScoreOfListed)
      && NewestShownFirst(r.results, t.kbs, KbQueries.KbCreated)
  {
    WindowKbsListed(t, now - hours * Interval.SecondsPerHour, KbQueries.Recent(t, now, hours));
  }

  lemma WindowKbsListed(t: Tables, after: Instant, rows: seq<Row<KnowledgeBase>>)
    requires Distinct(rows) && NewestFirstOrder(rows, KbQueries.KbCreated)
    requires forall row :: row in rows <==> row.id in t.kbs && t.kbs[row.id] == row.data && row.data.createdAt > after
    ensures var rs := Listed(rows, KbContent, "KNOWLEDGE_BASE", NoKbMeta);
      IdsDistinct(rs)
      && (forall id :: Some(id) in IdsOf(rs) <==> id in t.kbs && t.kbs[id].createdAt > after)
      && (forall x :: x in rs ==> Shows(x, t.kbs, KbContent, "KNOWLEDGE_BASE", NoKbMeta) && x.score == ScoreOfListed)
      && NewestShownFirst(rs, t.kbs, KbQueries.KbCreated)
  {
    ListedShows(rows, t.kbs, KbContent, "KNOWLEDGE_BASE", NoKbMeta);
    ListedNewestFirst(rows, t.kbs, KbQueries.KbCreated, KbContent, "KNOWLEDGE_BASE", NoKbMeta);
  }

  /** getKnowledgeBasesSince: a KNOWLEDGE_BASE result at score 1.0, without
      metadata, per knowledge base created after the instant; render
      stands for Instant.toString. */
  function KnowledgeBasesSince(t: Tables, since: Instant, render: Instant -> string): QueryResponse {
    QueryResponse("since:" + render(since), Listed(KbQueries.CreatedAfter(t, since), KbContent, "KNOWLEDGE_BASE", NoKbMeta))
  }

  /** Every knowledge base created after the instant is listed once, and
      no other. */
  lemma KnowledgeBasesSinceLists(t: Tables, since: Instant, render: Instant -> string)
    ensures var r := KnowledgeBasesSince(t, since, render);
      r.query == "since:" + render(since)
      && IdsDistinct(r.results)
      && (forall id :: Some(id) in IdsOf(r.results) <==> id in t.kbs && t.kbs[id].createdAt > since)
      && forall x :: x in r.results ==> Shows(x, t.kbs, KbContent, "KNOWLEDGE_BASE", NoKbMeta) && x.score == ScoreOfListed
  {
    LaterKbsListed(t, since, KbQueries.CreatedAfter(t, since));
  }

  lemma LaterKbsListed(t: Tables, since: Instant, rows: seq<Row<KnowledgeBase>>)
    requires Distinct(rows)
    requires forall row :: row in rows <==> row.id in t.kbs && t.kbs[row.id] == row.data && row.data.createdAt > since
    ensures var rs := Listed(rows, KbContent, "KNOWLEDGE_BASE", NoKbMeta);
      IdsDistinct(rs)
      && (forall id :: Some(id) in IdsOf(rs) <==> id in t.kbs && t.kbs[id].createdAt > since)
      && forall x :: x in rs ==> Shows(x, t.kbs, KbContent, "KNOWLEDGE_BASE", NoKbMeta) && x.score == ScoreOfListed
  {
    ListedShows(rows, t.kbs, KbContent, "KNOWLEDGE_BASE", NoKbMeta);
  }

  // ---------------------------------------------------------------- relations

  /** {"relationType": the type}. */
  function RelationMeta(relationType: string): Option<Metadata> {
    Some(map["relationType" := Str(relationType)])
  }

  /** The result an edge gives, showing the entity named at its other end:
      no id, the edge's weight as score, its type as metadata. */
  predicate ShowsEdge(x: SearchResult, name: string, r: Relation) {
    x == SearchResult(None, name, r.edgeWeight as real, "RELATION", RelationMeta(r.relationType))
  }

  function OutgoingHit(row: RelationQueries.OutgoingRow): SearchResult {
    SearchResult(None, row.targetName, row.edgeWeight as real, "RELATION", RelationMeta(row.relationType))
  }

  /** getOutgoingConnections: a RELATION result per edge leaving the
      entity, showing the target's name, heaviest first. */
  function OutgoingConnections(t: Tables, entityId: Id): QueryResponse {
    QueryResponse("outgoing:" + IdText(entityId), Project(RelationQueries.Outgoing(t, entityId), OutgoingHit))
  }

  /** Every edge leaving the entity to an existing target gives a result,
      every result comes from such an edge, heaviest first; with the
      relation key holding, there are as many results as edges. */
  lemma OutgoingConnectionsLists(t: Tables, entityId: Id)
    ensures var r := OutgoingConnections(t, entityId);
      r.query == "outgoing:" + IdText(entityId)
      && ScoresNonIncreasing(r.results)
      && (forall x :: x in t.relations && x.source == entityId && x.target in t.entities ==>
            exists y :: y in r.results && ShowsEdge(y, t.entities[x.target].name, x))
      && (forall y :: y in r.results ==>
            exists x :: x in t.relations && x.source == entityId && x.target in t.entities
              && ShowsEdge(y, t.entities[x.target].name, x))
      && (KeysUnique(t.relations) ==>
            |r.results| == |set x | x in t.relations && RelationQueries.LeavesFrom(t.entities, entityId, x)|)
  {
    RelationQueries.OutgoingExact(t, entityId);
    if KeysUnique(t.relations) {
      RelationQueries.OutgoingCount(t, entityId);
    }
    OutgoingHitsShown(t, entityId, RelationQueries.Outgoing(t, entityId));
  }

  lemma OutgoingHitsShown(t: Tables, entityId: Id, rows: seq<RelationQueries.OutgoingRow>)
    requires SortedDescBy(rows, RelationQueries.OutgoingWeight)
    requires forall x :: x in t.relations && RelationQueries.LeavesFrom(t.entities, entityId, x) ==>
      RelationQueries.AsOutgoing(t.entities, x) in rows
    requires forall row :: row in rows ==>
      exists x :: x in t.relations && RelationQueries.LeavesFrom(t.entities, entityId, x)
        && row == RelationQueries.AsOutgoing(t.entities, x)
    ensures var rs := Project(rows, OutgoingHit);
      ScoresNonIncreasing(rs)
      && (forall x :: x in t.relations && x.source == entityId && x.target in t.entities ==>
            exists y :: y in rs && ShowsEdge(y, t.entities[x.target].name, x))
      && (forall y :: y in rs ==>
            exists x :: x in t.relations && x.source == entityId && x.target in t.entities
              && ShowsEdge(y, t.entities[x.target].name, x))
  {
    var rs := Project(rows, OutgoingHit);
    ProjectMembers(rows, OutgoingHit);
    forall i, j | 0 <= i < j < |rs|
      ensures rs[i].score >= rs[j].score
    {
      assert RelationQueries.OutgoingWeight(rows[i]) >= RelationQueries.OutgoingWeight(rows[j]);
    }
    forall x | x in t.relations && x.source == entityId && x.target in t.entities
      ensures exists y :: y in rs && ShowsEdge(y, t.entities[x.target].name, x)
    {
      assert RelationQueries.LeavesFrom(t.entities, entityId, x);
      assert ShowsEdge(OutgoingHit(RelationQueries.AsOutgoing(t.entities, x)), t.entities[x.target].name, x);
    }
    forall y | y in rs
      ensures exists x :: x in t.relations && x.source == entityId && x.target in t.entities
                          && ShowsEdge(y, t.entities[x.target].name, x)
    {
      var row :| row in rows && y == OutgoingHit(row);
      var x :| x in t.relations && RelationQueries.LeavesFrom(t.entities, entityId, x)
        && row == RelationQueries.AsOutgoing(t.entities, x);
      assert ShowsEdge(y, t.entities[x.target].name, x);
    }
  }

  function IncomingHit(row: RelationQueries.IncomingRow): SearchResult {
    SearchResult(None, row.sourceName, row.edgeWeight as real, "RELATION", RelationMeta(row.relationType))
  }

  /** getIncomingConnections: a RELATION result per edge arriving at the
      entity, showing the source's name, in table order. */
  function IncomingConnections(t: Tables, entityId: Id): QueryResponse {
    QueryResponse("incoming:" + IdText(entityId), Project(RelationQueries.Incoming(t, entityId), IncomingHit))
  }

  /** Every edge arriving at the entity from an existing source gives a
      result, and every result comes from such an edge; with the relation
      key holding, there are as many results as edges. */
  lemma IncomingConnectionsLists(t: Tables, entityId: Id)
    ensures var r := IncomingConnections(t, entityId);
      r.query == "incoming:" + IdText(entityId)
      && |r.results| <= |t.relations|
      && (forall x :: x in t.relations && x.target == entityId && x.source in t.entities ==>
            exists y :: y in r.results && ShowsEdge(y, t.entities[x.source].name, x))
      && (forall y :: y in r.results ==>
            exists x :: x in t.relations && x.target == entityId && x.source in t.entities
              && ShowsEdge(y, t.entities[x.source].name, x))
      && (KeysUnique(t.relations) ==>
            |r.results| == |set x | x in t.relations && RelationQueries.ArrivesAt(t.entities, entityId, x)|)
  {
    RelationQueries.IncomingExact(t, entityId);
    if KeysUnique(t.relations) {
      RelationQueries.IncomingCount(t, entityId);
    }
    IncomingHitsShown(t, entityId, RelationQueries.Incoming(t, entityId));
  }

  lemma IncomingHitsShown(t: Tables, entityId: Id, rows: seq<RelationQueries.IncomingRow>)
    requires forall x :: x in t.relations && RelationQueries.ArrivesAt(t.entities, entityId, x) ==>
      RelationQueries.AsIncoming(t.entities, x) in rows
    requires forall row :: row in rows ==>
      exists x :: x in t.relations && RelationQueries.ArrivesAt(t.entities, entityId, x)
        && row == RelationQueries.AsIncoming(t.entities, x)
    ensures var rs := Project(rows, IncomingHit);
      (forall x :: x in t.relations && x.target == entityId && x.source in t.entities ==>
         exists y :: y in rs && ShowsEdge(y, t.entities[x.source].name, x))
      && (forall y :: y in rs ==>
            exists x :: x in t.relations && x.target == entityId && x.source in t.entities
              && ShowsEdge(y, t.entities[x.source].name, x))
  {
    var rs := Project(rows, IncomingHit);
    ProjectMembers(rows, IncomingHit);
    forall x | x in t.relations && x.target == entityId && x.source in t.entities
      ensures exists y :: y in rs && ShowsEdge(y, t.entities[x.source].name, x)
    {
      assert RelationQueries.ArrivesAt(t.entities, entityId, x);
      assert ShowsEdge(IncomingHit(RelationQueries.AsIncoming(t.entities, x)), t.entities[x.source].name, x);
    }
    forall y | y in rs
      ensures exists x :: x in t.relations && x.target == entityId && x.source in t.entities
                          && ShowsEdge(y, t.entities[x.source].name, x)
    {
      var row :| row in rows && y == IncomingHit(row);
      var x :| x in t.relations && RelationQueries.ArrivesAt(t.entities, entityId, x)
        && row == RelationQueries.AsIncoming(t.entities, x);
      assert ShowsEdge(y, t.entities[x.source].name, x);
    }
  }

  function TwoHopHit(name: string): SearchResult {
    SearchResult(None, name, ScoreOfListed, "TWO_HOP_ENTITY", None)
  }

  /** getTwoHopConnections: a TWO_HOP_ENTITY result at score 1.0 per
      two-edge path from the entity. */
  function TwoHopConnections(t: Tables, entityId: Id): QueryResponse {
    QueryResponse("2hop:" + IdText(entityId), Project(RelationQueries.TwoHop(t, entityId), TwoHopHit))
  }

  /** The k-th result names the end of the k-th two-edge path from the
      entity, and there is one result per such path. */
  lemma TwoHopConnectionsLists(t: Tables, entityId: Id)
    ensures var r := TwoHopConnections(t, entityId);
      var paths := RelationQueries.Paths(t.relations, t.entities, entityId, 0);
      r.query == "2hop:" + IdText(entityId)
      && |r.results| == |set p: RelationQueries.Path | p in paths|
      && (forall p: RelationQueries.Path :: p in paths <==> RelationQueries.Hop(t.relations, t.entities, entityId, p))
      && forall k :: 0 <= k < |r.results| ==>
        RelationQueries.Hop(t.relations, t.entities, entityId, paths[k])
        && r.results[k] == SearchResult(None, t.entities[t.relations[paths[k].second].target].name, ScoreOfListed,
                                        "TWO_HOP_ENTITY", None)
  {
    RelationQueries.TwoHopCountsPaths(t, entityId);
  }

  function TopHit(row: RelationQueries.TopRow): SearchResult {
    SearchResult(None, row.sourceName + " -> " + row.targetName, row.edgeWeight as real, "TOP_RELATION",
                 RelationMeta(row.relationType))
  }

  /** The result an edge with both ends present gives in the top list. */
  function TopResult(entities: map<Id, Entity>, r: Relation): SearchResult
    requires r.source in entities && r.target in entities
  {
    SearchResult(None, entities[r.source].name + " -> " + entities[r.target].name, r.edgeWeight as real,
                 "TOP_RELATION", RelationMeta(r.relationType))
  }

  /** getTopRelations: a TOP_RELATION result "source -> target" per edge,
      heaviest first, limit of them; a negative limit is refused by the
      database. */
  function TopRelations(t: Tables, limit: int): (r: Result<QueryResponse>)
    ensures r.Failure? <==> limit < 0
  {
    var rows := RelationQueries.Top(t, limit);
    if rows.Failure? then Failure(rows.error)
    else Success(QueryResponse("top_relations", Project(rows.value, TopHit)))
  }

  /** The top list holds limit edges (or all of them), heaviest first,
      each from an edge with both ends present, and no such edge it leaves
      out is heavier than one it lists. */
  lemma TopRelationsLists(t: Tables, limit: int)
    requires limit >= 0
    ensures var rs := TopRelations(t, limit).value.results;
      var joined := |RelationQueries.Joined(t)|;
      TopRelations(t, limit).value.query == "top_relations"
      && |rs| == (if limit < joined then limit else joined)
      && ScoresNonIncreasing(rs)
      && (forall y :: y in rs ==>
            exists x :: x in t.relations && x.source in t.entities && x.target in t.entities && y == TopResult(t.entities, x))
      && forall x, i ::
           (x in t.relations && x.source in t.entities && x.target in t.entities
            && TopResult(t.entities, x) !in rs && 0 <= i < |rs|)
           ==> x.edgeWeight as real <= rs[i].score
  {
    var rows := RelationQueries.Top(t, limit).value;
    assert TopRelations(t, limit).value.results == Project(rows, TopHit);
    RelationQueries.TopIsStrongest(t, limit);
    RelationQueries.JoinedExact(t);
    TopHitsShown(t, RelationQueries.Joined(t), rows);
  }

  lemma TopHitsShown(t: Tables, joined: seq<RelationQueries.TopRow>, rows: seq<RelationQueries.TopRow>)
    requires SortedDescBy(rows, RelationQueries.TopWeight)
    requires forall x :: x in t.relations && RelationQueries.Joins(t.entities, x) ==>
      RelationQueries.AsTop(t.entities, x) in joined
    requires forall row :: row in rows ==>
      exists x :: x in t.relations && RelationQueries.Joins(t.entities, x) && row == RelationQueries.AsTop(t.entities, x)
    requires forall row, i :: row in multiset(joined) - multiset(rows) && 0 <= i < |rows| ==>
      row.edgeWeight <= rows[i].edgeWeight
    ensures var rs := Project(rows, TopHit);
      ScoresNonIncreasing(rs)
      && (forall y :: y in rs ==>
            exists x :: x in t.relations && x.source in t.entities && x.target in t.entities && y == TopResult(t.entities, x))
      && forall x, i ::
           (x in t.relations && x.source in t.entities && x.target in t.entities
            && TopResult(t.entities, x) !in rs && 0 <= i < |rs|)
           ==> x.edgeWeight as real <= rs[i].score
  {
    var rs := Project(rows, TopHit);
    forall i, j | 0 <= i < j < |rs|
      ensures rs[i].score >= rs[j].score
    {
      assert RelationQueries.TopWeight(rows[i]) >= RelationQueries.TopWeight(rows[j]);
    }
    forall y | y in rs
      ensures exists x :: x in t.relations && x.source in t.entities && x.target in t.entities && y == TopResult(t.entities, x)
    {
      var k :| 0 <= k < |rs| && rs[k] == y;
      assert rows[k] in rows;
      var x :| x in t.relations && RelationQueries.Joins(t.entities, x) && rows[k] == RelationQueries.AsTop(t.entities, x);
      assert y == TopResult(t.entities, x);
    }
    forall x, i | x in t.relations && x.source in t.entities && x.target in t.entities
      && TopResult(t.entities, x) !in rs && 0 <= i < |rs|
      ensures x.edgeWeight as real <= rs[i].score
    {
      var row := RelationQueries.AsTop(t.entities, x);
      assert RelationQueries.Joins(t.entities, x);
      forall k | 0 <= k < |rows|
        ensures rows[k] != row
      {
        assert rs[k] in rs;
      }
      assert row in multiset(joined) - multiset(rows);
      assert row.edgeWeight <= rows[i].edgeWeight;
    }
  }

  // ---------------------------------------------------------------- hybrid search

  /** A CHUNK result of the hybrid search: the context with its score, no
      metadata. */
  function ChunkHit(s: Scored<Context>): SearchResult {
    SearchResult(Some(s.row.id), s.row.data.textChunk, s.score, "CHUNK", None)
  }

  /** A LINKED_ENTITY result: an entity of a listed context, at 0.8 of the
      context's score, with its type. */
  function LinkedHit(e: Row<Entity>, score: real): SearchResult {
    SearchResult(Some(e.id), e.data.name, score * LinkedEntityFactor, "LINKED_ENTITY", TypeMeta(e.data))
  }

  /** A SIMILAR_ENTITY result: an entity of the entity search with its
      score, no metadata. */
  function SimilarHit(s: Scored<Entity>): SearchResult {
    SearchResult(Some(s.row.id), s.row.data.name, s.score, "SIMILAR_ENTITY", None)
  }

  function NoEntityMeta(e: Entity): Option<Metadata> {
    None
  }

  /** The linked entities of one context, in the read's order. */
  function LinkedHits(es: seq<Row<Entity>>, score: real): (r: seq<SearchResult>)
    ensures |r| == |es|
    ensures forall k :: 0 <= k < |r| ==> r[k] == LinkedHit(es[k], score)
  {
    if es == [] then [] else LinkedHits(es[..|es| - 1], score) + [LinkedHit(es[|es| - 1], score)]
  }

  /** What one context row contributes: its CHUNK result, then one
      LINKED_ENTITY result per entity linked to it. */
  function Expanded(s: Scored<Context>, linked: Id -> seq<Row<Entity>>): seq<SearchResult> {
    [ChunkHit(s)] + LinkedHits(linked(s.row.id), s.score)
  }

  /** What the context rows contribute, row by row. */
  function ExpandedAll(rows: seq<Scored<Context>>, linked: Id -> seq<Row<Entity>>): seq<SearchResult> {
    if rows == [] then [] else ExpandedAll(rows[..|rows| - 1], linked) + Expanded(rows[|rows| - 1], linked)
  }

  /** What the entity rows contribute, row by row. */
  function SimilarHits(rows: seq<Scored<Entity>>): (r: seq<SearchResult>)
    ensures |r| == |rows|
    ensures forall k :: 0 <= k < |r| ==> r[k] == SimilarHit(rows[k])
  {
    if rows == [] then [] else SimilarHits(rows[..|rows| - 1]) + [SimilarHit(rows[|rows| - 1])]
  }

  /** findEntitiesForContext, as the hybrid search calls it per context. */
  function LinkedOf(t: Tables): Id -> seq<Row<Entity>> {
    (id: Id) => EntityQueries.EntitiesForContext(t, id)
  }

  /** hybridSearch: embed the query; for each of the limit nearest
      contexts, its CHUNK result followed by its linked entities; then the
      limit nearest entities. */
  function HybridResults(t: Tables, request: QueryRequest, embed: string -> Result<Vector>,
                         dist: (Vector, Vector) -> real): (r: Result<QueryResponse>)
    ensures r.Failure? <==> embed(request.query).Failure? || request.limit < 0
    ensures embed(request.query).Failure? ==> r == Failure(embed(request.query).error)
    ensures r.Success? ==> r.value.query == request.query
  {
    var q := embed(request.query);
    if q.Failure? then Failure(q.error)
    else
      var contextRows := ContextQueries.SimilarWithScore(t, q.value, dist, request.limit);
      if contextRows.Failure? then Failure(contextRows.error)
      else
        var entityRows := EntityQueries.SimilarEntitiesWithScore(t, q.value, dist, request.limit).value;
        Success(QueryResponse(request.query, ExpandedAll(contextRows.value, LinkedOf(t)) + SimilarHits(entityRows)))
  }

  /** hybridSearch, step by step as the service builds its result list. */
  method HybridSearch(t: Tables, request: QueryRequest, embed: string -> Result<Vector>,
                      dist: (Vector, Vector) -> real) returns (r: Result<QueryResponse>)
    ensures r == HybridResults(t, request, embed, dist)
  {
    var q := embed(request.query);
    if q.Failure? {
      return Failure(q.error);
    }
    var contextRows := ContextQueries.SimilarWithScore(t, q.value, dist, request.limit);
    if contextRows.Failure? {
      return Failure(contextRows.error);
    }
    var all := ExpandContexts(contextRows.value, LinkedOf(t));
    var entityRows := EntityQueries.SimilarEntitiesWithScore(t, q.value, dist, request.limit).value;
    all := AppendSimilar(all, entityRows);
    return Success(QueryResponse(request.query, all));
  }

  /** The context loop: each context's CHUNK result followed by its
      entities. */
  method ExpandContexts(rows: seq<Scored<Context>>, linked: Id -> seq<Row<Entity>>) returns (all: seq<SearchResult>)
    ensures all == ExpandedAll(rows, linked)
  {
    all := [];
    var i := 0;
    while i < |rows|
      invariant 0 <= i <= |rows|
      invariant all == ExpandedAll(rows[..i], linked)
    {
      all := AppendExpanded(all, rows[i], linked);
      ExpandedStep(rows, i, linked);
      i := i + 1;
    }
    assert rows[..i] == rows;
  }

  /** One pass of the context loop: the context's CHUNK result, then its
      entities, one by one. */
  method AppendExpanded(all: seq<SearchResult>, s: Scored<Context>, linked: Id -> seq<Row<Entity>>)
    returns (r: seq<SearchResult>)
    ensures r == all + Expanded(s, linked)
  {
    r := all + [ChunkHit(s)];
    var entities := linked(s.row.id);
    var k := 0;
    while k < |entities|
      invariant 0 <= k <= |entities|
      invariant r == all + [ChunkHit(s)] + LinkedHits(entities[..k], s.score)
    {
      r := r + [LinkedHit(entities[k], s.score)];
      assert entities[..k + 1][..k] == entities[..k];
      k := k + 1;
    }
    assert entities[..k] == entities;
  }

  /** The entity loop: one SIMILAR_ENTITY result per row, appended. */
  method AppendSimilar(all: seq<SearchResult>, rows: seq<Scored<Entity>>) returns (r: seq<SearchResult>)
    ensures r == all + SimilarHits(rows)
  {
    r := all;
    var n := 0;
    while n < |rows|
      invariant 0 <= n <= |rows|
      invariant r == all + SimilarHits(rows[..n])
    {
      r := r + [SimilarHit(rows[n])];
      assert rows[..n + 1][..n] == rows[..n];
      n := n + 1;
    }
    assert rows[..n] == rows;
  }

  lemma ExpandedStep(rows: seq<Scored<Context>>, i: nat, linked: Id -> seq<Row<Entity>>)
    requires i < |rows|
    ensures ExpandedAll(rows[..i + 1], linked) == ExpandedAll(rows[..i], linked) + Expanded(rows[i], linked)
  {
    assert rows[..i + 1][..i] == rows[..i];
  }

  /** linked reads the junction: for each context, exactly the entities
      linked to it. */
  ghost predicate LinkedExactly(linked: Id -> seq<Row<Entity>>, entities: map<Id, Entity>, links: set<Link>) {
    forall id, e :: e in linked(id) <==> e.id in entities && entities[e.id] == e.data && Link(e.id, id) in links
  }

  lemma LinkedOfExactly(t: Tables)
    ensures LinkedExactly(LinkedOf(t), t.entities, t.links)
  {
  }

  /** A hybrid result shows what its type says: a context with its score,
      an entity linked to a context, or an entity with its score. */
  predicate HybridShown(x: SearchResult, contexts: map<Id, Context>, entities: map<Id, Entity>, q: Vector,
                        dist: (Vector, Vector) -> real) {
    (Shows(x, contexts, ChunkText, "CHUNK", NoContextMeta) && ScoredBy(x, contexts, ContextQueries.VectorOf, q, dist))
    || Shows(x, entities, EntityName, "LINKED_ENTITY", TypeMeta)
    || (Shows(x, entities, EntityName, "SIMILAR_ENTITY", NoEntityMeta)
        && ScoredBy(x, entities, EntityQueries.EntityVector, q, dist))
  }

  /** x is listed as an entity of chunk c: linked to c's context, at 0.8 of
      c's score. */
  predicate FollowsChunk(c: SearchResult, x: SearchResult, links: set<Link>) {
    c.kind == "CHUNK" && c.id.Some? && x.id.Some? && Link(x.id.value, c.id.value) in links
    && x.score == c.score * LinkedEntityFactor
  }

  /** Every LINKED_ENTITY result comes after a CHUNK result of a context it
      is linked to. */
  predicate LinkedAfterChunk(rs: seq<SearchResult>, links: set<Link>) {
    forall k :: 0 <= k < |rs| && rs[k].kind == "LINKED_ENTITY" ==> exists j :: 0 <= j < k && FollowsChunk(rs[j], rs[k], links)
  }

  /** Every entity linked to the context of a CHUNK result is listed after
      it, at 0.8 of its score. */
  predicate ChunkFollowedByLinks(rs: seq<SearchResult>, entities: map<Id, Entity>, links: set<Link>) {
    forall j, eid :: 0 <= j < |rs| && rs[j].kind == "CHUNK" && rs[j].id.Some? && eid in entities
      && Link(eid, rs[j].id.value) in links
      ==> exists k :: j < k < |rs| && rs[k] == LinkedHit(Row(eid, entities[eid]), rs[j].score)
  }

  lemma LinkedAfterChunkConcat(a: seq<SearchResult>, b: seq<SearchResult>, links: set<Link>)
    requires LinkedAfterChunk(a, links) && LinkedAfterChunk(b, links)
    ensures LinkedAfterChunk(a + b, links)
  {
    var c := a + b;
    forall k | 0 <= k < |c| && c[k].kind == "LINKED_ENTITY"
      ensures exists j :: 0 <= j < k && FollowsChunk(c[j], c[k], links)
    {
      if k < |a| {
        var j :| 0 <= j < k && FollowsChunk(a[j], a[k], links);
        assert c[j] == a[j];
      } else {
        assert c[k] == b[k - |a|];
        var j :| 0 <= j < k - |a| && FollowsChunk(b[j], b[k - |a|], links);
        assert c[j + |a|] == b[j];
      }
    }
  }

  lemma ChunkFollowedConcat(a: seq<SearchResult>, b: seq<SearchResult>, entities: map<Id, Entity>, links: set<Link>)
    requires ChunkFollowedByLinks(a, entities, links) && ChunkFollowedByLinks(b, entities, links)
    ensures ChunkFollowedByLinks(a + b, entities, links)
  {
    var c := a + b;
    forall j, eid | 0 <= j < |c| && c[j].kind == "CHUNK" && c[j].id.Some? && eid in entities
      && Link(eid, c[j].id.value) in links
      ensures exists k :: j < k < |c| && c[k] == LinkedHit(Row(eid, entities[eid]), c[j].score)
    {
      if j < |a| {
        var k :| j < k < |a| && a[k] == LinkedHit(Row(eid, entities[eid]), a[j].score);
        assert c[k] == a[k];
      } else {
        assert c[j] == b[j - |a|];
        var k :| j - |a| < k < |b| && b[k] == LinkedHit(Row(eid, entities[eid]), b[j - |a|].score);
        assert c[k + |a|] == b[k];
      }
    }
  }

  /** One context's contribution keeps all three facts. */
  lemma ExpandedFacts(s: Scored<Context>, linked: Id -> seq<Row<Entity>>, contexts: map<Id, Context>,
                      entities: map<Id, Entity>, links: set<Link>, q: Vector, dist: (Vector, Vector) -> real)
    requires s.row.id in contexts && contexts[s.row.id] == s.row.data
    requires s.score == 1.0 - dist(s.row.data.vector, q)
    requires LinkedExactly(linked, entities, links)
    ensures var rs := Expanded(s, linked);
      (forall x :: x in rs ==> HybridShown(x, contexts, entities, q, dist) && x.kind != "SIMILAR_ENTITY")
      && LinkedAfterChunk(rs, links) && ChunkFollowedByLinks(rs, entities, links)
  {
    ExpandedShown(s, linked, contexts, entities, links, q, dist);
    ExpandedLinkedAfter(s, linked, entities, links);
    ExpandedChunkFollowed(s, linked, entities, links);
  }

  lemma ExpandedShown(s: Scored<Context>, linked: Id -> seq<Row<Entity>>, contexts: map<Id, Context>,
                      entities: map<Id, Entity>, links: set<Link>, q: Vector, dist: (Vector, Vector) -> real)
    requires s.row.id in contexts && contexts[s.row.id] == s.row.data
    requires s.score == 1.0 - dist(s.row.data.vector, q)
    requires LinkedExactly(linked, entities, links)
    ensures forall x :: x in Expanded(s, linked) ==> HybridShown(x, contexts, entities, q, dist) && x.kind != "SIMILAR_ENTITY"
  {
    var es := linked(s.row.id);
    var tail := LinkedHits(es, s.score);
    assert Expanded(s, linked) == [ChunkHit(s)] + tail;
    forall x | x in Expanded(s, linked)
      ensures HybridShown(x, contexts, entities, q, dist) && x.kind != "SIMILAR_ENTITY"
    {
      if x == ChunkHit(s) {
        ChunkHitShown(s, contexts, q, dist);
      } else {
        assert x in tail;
        var k :| 0 <= k < |tail| && tail[k] == x;
        assert es[k] in es;
        LinkedHitShown(es[k], s.score, entities);
      }
    }
  }

  lemma ChunkHitShown(s: Scored<Context>, contexts: map<Id, Context>, q: Vector, dist: (Vector, Vector) -> real)
    requires s.row.id in contexts && contexts[s.row.id] == s.row.data
    requires s.score == 1.0 - dist(s.row.data.vector, q)
    ensures Shows(ChunkHit(s), contexts, ChunkText, "CHUNK", NoContextMeta)
    ensures ScoredBy(ChunkHit(s), contexts, ContextQueries.VectorOf, q, dist)
  {
  }

  lemma LinkedHitShown(e: Row<Entity>, score: real, entities: map<Id, Entity>)
    requires e.id in entities && entities[e.id] == e.data
    ensures Shows(LinkedHit(e, score), entities, EntityName, "LINKED_ENTITY", TypeMeta)
  {
  }

  lemma ExpandedLinkedAfter(s: Scored<Context>, linked: Id -> seq<Row<Entity>>, entities: map<Id, Entity>,
                            links: set<Link>)
    requires LinkedExactly(linked, entities, links)
    ensures LinkedAfterChunk(Expanded(s, linked), links)
  {
    var rs := Expanded(s, linked);
    var es := linked(s.row.id);
    forall k | 0 <= k < |rs| && rs[k].kind == "LINKED_ENTITY"
      ensures exists j :: 0 <= j < k && FollowsChunk(rs[j], rs[k], links)
    {
      assert rs[k] == LinkedHit(es[k - 1], s.score) && es[k - 1] in es;
      assert FollowsChunk(rs[0], rs[k], links);
    }
  }

  lemma ExpandedChunkFollowed(s: Scored<Context>, linked: Id -> seq<Row<Entity>>, entities: map<Id, Entity>,
                              links: set<Link>)
    requires LinkedExactly(linked, entities, links)
    ensures ChunkFollowedByLinks(Expanded(s, linked), entities, links)
  {
    var rs := Expanded(s, linked);
    var es := linked(s.row.id);
    assert forall k :: 1 <= k < |rs| ==> rs[k] == LinkedHit(es[k - 1], s.score);
    forall j, eid | 0 <= j < |rs| && rs[j].kind == "CHUNK" && rs[j].id.Some? && eid in entities
      && Link(eid, rs[j].id.value) in links
      ensures exists k :: j < k < |rs| && rs[k] == LinkedHit(Row(eid, entities[eid]), rs[j].score)
    {
      var e := Row(eid, entities[eid]);
      assert e in es;
      var i :| 0 <= i < |es| && es[i] == e;
      assert rs[i + 1] == LinkedHit(e, s.score);
    }
  }

  /** The context loop's output keeps all three facts. */
  lemma {:induction false} ExpandedAllFacts(rows: seq<Scored<Context>>, linked: Id -> seq<Row<Entity>>,
                                           contexts: map<Id, Context>, entities: map<Id, Entity>, links: set<Link>,
                                           q: Vector, dist: (Vector, Vector) -> real)
    requires ScoredRead(rows, contexts, ContextQueries.VectorOf, q, dist)
    requires LinkedExactly(linked, entities, links)
    ensures var rs := ExpandedAll(rows, linked);
      (forall x :: x in rs ==> HybridShown(x, contexts, entities, q, dist) && x.kind != "SIMILAR_ENTITY")
      && LinkedAfterChunk(rs, links) && ChunkFollowedByLinks(rs, entities, links)
    decreases |rows|
  {
    if rows != [] {
      var init := rows[..|rows| - 1];
      var last := rows[|rows| - 1];
      assert ScoredRead(init, contexts, ContextQueries.VectorOf, q, dist) by {
        forall i | 0 <= i < |init|
          ensures init[i] == rows[i]
        {
        }
      }
      ExpandedAllFacts(init, linked, contexts, entities, links, q, dist);
      ExpandedFacts(last, linked, contexts, entities, links, q, dist);
      LinkedAfterChunkConcat(ExpandedAll(init, linked), Expanded(last, linked), links);
      ChunkFollowedConcat(ExpandedAll(init, linked), Expanded(last, linked), entities, links);
    }
  }

  /** The entity loop's output: SIMILAR_ENTITY results only, each an
      entity with its score. */
  lemma SimilarHitsFacts(rows: seq<Scored<Entity>>, contexts: map<Id, Context>, entities: map<Id, Entity>,
                         links: set<Link>, q: Vector, dist: (Vector, Vector) -> real)
    requires ScoredRead(rows, entities, EntityQueries.EntityVector, q, dist)
    ensures var rs := SimilarHits(rows);
      (forall x :: x in rs ==> HybridShown(x, contexts, entities, q, dist) && x.kind == "SIMILAR_ENTITY")
      && LinkedAfterChunk(rs, links) && ChunkFollowedByLinks(rs, entities, links)
  {
    var rs := SimilarHits(rows);
    forall x | x in rs
      ensures HybridShown(x, contexts, entities, q, dist) && x.kind == "SIMILAR_ENTITY"
    {
      var k :| 0 <= k < |rs| && rs[k] == x;
    }
    assert forall j :: 0 <= j < |rs| ==> rs[j].kind == "SIMILAR_ENTITY";
  }

  /** A part without SIMILAR_ENTITY results followed by a part of them
      only: the SIMILAR_ENTITY results are exactly the tail. */
  lemma SimilarTail(a: seq<SearchResult>, b: seq<SearchResult>)
    requires forall x :: x in a ==> x.kind != "SIMILAR_ENTITY"
    requires forall x :: x in b ==> x.kind == "SIMILAR_ENTITY"
    ensures var rs := a + b;
      forall k :: 0 <= k < |rs| ==> (rs[k].kind == "SIMILAR_ENTITY" <==> k >= |rs| - |b|)
  {
    var rs := a + b;
    forall k | 0 <= k < |rs|
      ensures rs[k].kind == "SIMILAR_ENTITY" <==> k >= |rs| - |b|
    {
      if k < |a| {
        assert rs[k] in a;
      } else {
        assert rs[k] == b[k - |a|];
        assert b[k - |a|] in b;
      }
    }
  }

  /** What the hybrid search promises of its list: every result shows what
      its type says; linked entities follow a chunk of a context they are
      linked to, and every entity linked to a listed chunk follows it; the
      last similar results, and only they, are SIMILAR_ENTITY results. */
  ghost predicate HybridListing(rs: seq<SearchResult>, contexts: map<Id, Context>, entities: map<Id, Entity>,
                                links: set<Link>, q: Vector, dist: (Vector, Vector) -> real, similar: nat) {
    (forall x :: x in rs ==> HybridShown(x, contexts, entities, q, dist))
    && LinkedAfterChunk(rs, links) && ChunkFollowedByLinks(rs, entities, links)
    && |rs| >= similar
    && forall k :: 0 <= k < |rs| ==> (rs[k].kind == "SIMILAR_ENTITY" <==> k >= |rs| - similar)
  }

  /** The whole list: the context part, then the entity part. */
  lemma HybridFacts(contextRows: seq<Scored<Context>>, entityRows: seq<Scored<Entity>>,
                    linked: Id -> seq<Row<Entity>>, contexts: map<Id, Context>, entities: map<Id, Entity>,
                    links: set<Link>, q: Vector, dist: (Vector, Vector) -> real)
    requires ScoredRead(contextRows, contexts, ContextQueries.VectorOf, q, dist)
    requires ScoredRead(entityRows, entities, EntityQueries.EntityVector, q, dist)
    requires LinkedExactly(linked, entities, links)
    ensures HybridListing(ExpandedAll(contextRows, linked) + SimilarHits(entityRows), contexts, entities, links, q, dist,
                          |entityRows|)
  {
    var a := ExpandedAll(contextRows, linked);
    var b := SimilarHits(entityRows);
    ExpandedAllFacts(contextRows, linked, contexts, entities, links, q, dist);
    SimilarHitsFacts(entityRows, contexts, entities, links, q, dist);
    LinkedAfterChunkConcat(a, b, links);
    ChunkFollowedConcat(a, b, entities, links);
    SimilarTail(a, b);
  }

  lemma ContextRowsScored(t: Tables, q: Vector, dist: (Vector, Vector) -> real, limit: int)
    requires limit >= 0
    ensures ScoredRead(ContextQueries.SimilarWithScore(t, q, dist, limit).value, t.contexts, ContextQueries.VectorOf, q, dist)
  {
  }

  lemma EntityRowsScored(t: Tables, q: Vector, dist: (Vector, Vector) -> real, limit: int)
    requires limit >= 0
    ensures ScoredRead(EntityQueries.SimilarEntitiesWithScore(t, q, dist, limit).value, t.entities,
                       EntityQueries.EntityVector, q, dist)
  {
  }

  /** Every result of the hybrid search shows what its kind says; every
      LINKED_ENTITY result comes after a CHUNK result of a context it is
      linked to, at 0.8 of that chunk's score; every entity linked to a
      listed chunk's context is listed after it; and the last
      min(limit, number of entities) results, and only they, are
      SIMILAR_ENTITY results. HybridSearchLayout gives the exact layout. */
  lemma HybridSearchLinks(t: Tables, request: QueryRequest, embed: string -> Result<Vector>,
                          dist: (Vector, Vector) -> real)
    requires embed(request.query).Success? && request.limit >= 0
    ensures HybridListing(HybridResults(t, request, embed, dist).value.results, t.contexts, t.entities, t.links,
                          embed(request.query).value, dist,
                          if request.limit < |t.entities| then request.limit else |t.entities|)
  {
    var q := embed(request.query).value;
    var contextRows := ContextQueries.SimilarWithScore(t, q, dist, request.limit).value;
    var entityRows := EntityQueries.SimilarEntitiesWithScore(t, q, dist, request.limit).value;
    assert HybridResults(t, request, embed, dist).value.results
        == ExpandedAll(contextRows, LinkedOf(t)) + SimilarHits(entityRows);
    LinkedOfExactly(t);
    ContextRowsScored(t, q, dist, request.limit);
    EntityRowsScored(t, q, dist, request.limit);
    HybridFacts(contextRows, entityRows, LinkedOf(t), t.contexts, t.entities, t.links, q, dist);
  }

  /** The number of LINKED_ENTITY results the context rows contribute. */
  function LinkedCount(rows: seq<Scored<Context>>, linked: Id -> seq<Row<Entity>>): nat {
    if rows == [] then 0 else LinkedCount(rows[..|rows| - 1], linked) + |linked(rows[|rows| - 1].row.id)|
  }

  /** Where the CHUNK result of rows[i] sits in the hybrid list: after the
      i rows before it and their linked entities. */
  function ChunkAt(rows: seq<Scored<Context>>, linked: Id -> seq<Row<Entity>>, i: nat): nat
    requires i <= |rows|
  {
    i + LinkedCount(rows[..i], linked)
  }

  /** rs is, row by row, each context's CHUNK result immediately followed by
      the LINKED_ENTITY results of its linked entities, and nothing else. */
  ghost predicate ChunksThenLinks(rs: seq<SearchResult>, rows: seq<Scored<Context>>, linked: Id -> seq<Row<Entity>>) {
    |rs| == ChunkAt(rows, linked, |rows|)
    && forall i :: 0 <= i < |rows| ==> LaidOutAt(rs, rows, linked, i)
  }

  /** rows[i] is listed in rs where ChunkAt puts it: its CHUNK result, then
      one LINKED_ENTITY result per linked entity, up to where rows[i + 1]
      starts. */
  ghost predicate LaidOutAt(rs: seq<SearchResult>, rows: seq<Scored<Context>>, linked: Id -> seq<Row<Entity>>, i: nat)
    requires i < |rows|
  {
    ChunkAt(rows, linked, i + 1) == ChunkAt(rows, linked, i) + 1 + |linked(rows[i].row.id)|
    && ChunkAt(rows, linked, i + 1) <= |rs|
    && rs[ChunkAt(rows, linked, i)] == ChunkHit(rows[i])
    && rs[ChunkAt(rows, linked, i) + 1..ChunkAt(rows, linked, i + 1)] == LinkedHits(linked(rows[i].row.id), rows[i].score)
  }

  lemma LinkedCountStep(rows: seq<Scored<Context>>, linked: Id -> seq<Row<Entity>>, i: nat)
    requires i < |rows|
    ensures ChunkAt(rows, linked, i + 1) == ChunkAt(rows, linked, i) + 1 + |linked(rows[i].row.id)|
  {
    assert rows[..i + 1][..i] == rows[..i];
  }

  lemma {:induction false} ExpandedAllLength(rows: seq<Scored<Context>>, linked: Id -> seq<Row<Entity>>)
    ensures |ExpandedAll(rows, linked)| == |rows| + LinkedCount(rows, linked)
    decreases |rows|
  {
    if rows != [] {
      ExpandedAllLength(rows[..|rows| - 1], linked);
    }
  }

  /** The CHUNK result of rows[i] and its linked entities, where ChunkAt
      places them. */
  lemma {:induction false} ExpandedAllAt(rows: seq<Scored<Context>>, linked: Id -> seq<Row<Entity>>, i: nat)
    requires i < |rows|
    ensures LaidOutAt(ExpandedAll(rows, linked), rows, linked, i)
    decreases |rows|
  {
    var init := rows[..|rows| - 1];
    var a := ExpandedAll(init, linked);
    var b := Expanded(rows[|rows| - 1], linked);
    assert ExpandedAll(rows, linked) == a + b;
    if i == |rows| - 1 {
      ExpandedAllLength(init, linked);
      LaidOutLast(rows, linked, a, b);
    } else {
      ExpandedAllAt(init, linked, i);
      LaidOutInit(rows, linked, i, a, b);
    }
  }

  lemma LaidOutLast(rows: seq<Scored<Context>>, linked: Id -> seq<Row<Entity>>, a: seq<SearchResult>,
                    b: seq<SearchResult>)
    requires |rows| > 0
    requires |a| == |rows| - 1 + LinkedCount(rows[..|rows| - 1], linked)
    requires b == Expanded(rows[|rows| - 1], linked)
    ensures LaidOutAt(a + b, rows, linked, |rows| - 1)
  {
    var i := |rows| - 1;
    LinkedCountStep(rows, linked, i);
    assert ChunkAt(rows, linked, i) == |a|;
    var hits := LinkedHits(linked(rows[i].row.id), rows[i].score);
    assert b == [ChunkHit(rows[i])] + hits;
    assert (a + b)[|a| + 1..] == hits;
  }

  lemma LaidOutInit(rows: seq<Scored<Context>>, linked: Id -> seq<Row<Entity>>, i: nat, a: seq<SearchResult>,
                    b: seq<SearchResult>)
    requires i < |rows| - 1
    requires LaidOutAt(a, rows[..|rows| - 1], linked, i)
    ensures LaidOutAt(a + b, rows, linked, i)
  {
    var init := rows[..|rows| - 1];
    assert rows[..i] == init[..i];
    assert rows[..i + 1] == init[..i + 1];
    InitSlice(a, b, ChunkAt(init, linked, i), ChunkAt(init, linked, i + 1));
  }

  lemma InitSlice(a: seq<SearchResult>, b: seq<SearchResult>, lo: nat, hi: nat)
    requires lo < hi <= |a|
    ensures (a + b)[lo] == a[lo] && (a + b)[lo + 1..hi] == a[lo + 1..hi]
  {
  }

  /** The context loop's output has |rows| + LinkedCount results, laid out
      row by row as ChunksThenLinks says. */
  lemma ExpandedAllLayout(rows: seq<Scored<Context>>, linked: Id -> seq<Row<Entity>>)
    ensures |ExpandedAll(rows, linked)| == |rows| + LinkedCount(rows, linked)
    ensures ChunksThenLinks(ExpandedAll(rows, linked), rows, linked)
  {
    ExpandedAllLength(rows, linked);
    assert rows[..|rows|] == rows;
    forall i | 0 <= i < |rows| {
      ExpandedAllAt(rows, linked, i);
    }
  }

  /** The rows of a scored search over m with the given limit: the nearest
      min(limit, |m|) rows, each once, best score first. */
  ghost predicate TopScored<T(!new)>(rows: seq<Scored<T>>, m: map<Id, T>, vector: T -> Vector, q: Vector,
                                     dist: (Vector, Vector) -> real, limit: int) {
    |rows| == (if limit < |m| then limit else |m|)
    && ScoredRead(rows, m, vector, q, dist) && ScoresDescending(rows) && RowsDistinct(rows)
    && ScoredTop(rows, Scan(m), vector, q, dist)
  }

  lemma ContextRowsTop(t: Tables, q: Vector, dist: (Vector, Vector) -> real, limit: int)
    requires limit >= 0
    ensures TopScored(ContextQueries.SimilarWithScore(t, q, dist, limit).value, t.contexts, ContextQueries.VectorOf,
                      q, dist, limit)
  {
    ContextQueries.SimilarWithScoreIsTop(t, q, dist, limit);
    ContextRowsScored(t, q, dist, limit);
  }

  lemma EntityRowsTop(t: Tables, q: Vector, dist: (Vector, Vector) -> real, limit: int)
    requires limit >= 0
    ensures TopScored(EntityQueries.SimilarEntitiesWithScore(t, q, dist, limit).value, t.entities,
                      EntityQueries.EntityVector, q, dist, limit)
  {
    EntityQueries.SimilarEntitiesWithScoreIsTop(t, q, dist, limit);
    EntityRowsScored(t, q, dist, limit);
  }

  /** The hybrid list laid out part by part: the context rows, each with
      its linked entities right after it, then exactly the SIMILAR_ENTITY
      results of the entity rows, with nothing dropped or merged. */
  ghost predicate HybridLayout(rs: seq<SearchResult>, contextRows: seq<Scored<Context>>,
                               entityRows: seq<Scored<Entity>>, linked: Id -> seq<Row<Entity>>)
  {
    |rs| == |contextRows| + LinkedCount(contextRows, linked) + |entityRows|
    && ChunksThenLinks(rs[..|rs| - |entityRows|], contextRows, linked)
    && rs[|rs| - |entityRows|..] == SimilarHits(entityRows)
  }

  lemma HybridParts(contextRows: seq<Scored<Context>>, entityRows: seq<Scored<Entity>>,
                    linked: Id -> seq<Row<Entity>>)
    ensures HybridLayout(ExpandedAll(contextRows, linked) + SimilarHits(entityRows), contextRows, entityRows, linked)
  {
    var a := ExpandedAll(contextRows, linked);
    var rs := a + SimilarHits(entityRows);
    ExpandedAllLayout(contextRows, linked);
    assert rs[..|rs| - |entityRows|] == a;
    assert rs[|rs| - |entityRows|..] == SimilarHits(entityRows);
  }

  /** With the query embedded and a limit of zero or more, the hybrid list
      is the nearest context rows expanded with their linked entities,
      followed by the nearest entity rows. */
  lemma HybridResultsAre(t: Tables, request: QueryRequest, embed: string -> Result<Vector>,
                         dist: (Vector, Vector) -> real)
    requires embed(request.query).Success? && request.limit >= 0
    ensures var q := embed(request.query).value;
      HybridResults(t, request, embed, dist).Success?
      && HybridResults(t, request, embed, dist).value.results
         == ExpandedAll(ContextQueries.SimilarWithScore(t, q, dist, request.limit).value, LinkedOf(t))
            + SimilarHits(EntityQueries.SimilarEntitiesWithScore(t, q, dist, request.limit).value)
  {
  }

  /** The hybrid search's list, part by part: the limit nearest contexts,
      each as its CHUNK result immediately followed by the entities the
      junction links to it at 0.8 of its score; then the limit nearest
      entities as SIMILAR_ENTITY results. */
  lemma HybridSearchLayout(t: Tables, request: QueryRequest, embed: string -> Result<Vector>,
                           dist: (Vector, Vector) -> real)
    requires embed(request.query).Success? && request.limit >= 0
    ensures var q := embed(request.query).value;
      var contextRows := ContextQueries.SimilarWithScore(t, q, dist, request.limit).value;
      var entityRows := EntityQueries.SimilarEntitiesWithScore(t, q, dist, request.limit).value;
      TopScored(contextRows, t.contexts, ContextQueries.VectorOf, q, dist, request.limit)
      && TopScored(entityRows, t.entities, EntityQueries.EntityVector, q, dist, request.limit)
      && LinkedExactly(LinkedOf(t), t.entities, t.links)
      && HybridLayout(HybridResults(t, request, embed, dist).value.results, contextRows, entityRows, LinkedOf(t))
  {
    var q := embed(request.query).value;
    var contextRows := ContextQueries.SimilarWithScore(t, q, dist, request.limit).value;
    var entityRows := EntityQueries.SimilarEntitiesWithScore(t, q, dist, request.limit).value;
    HybridResultsAre(t, request, embed, dist);
    ContextRowsTop(t, q, dist, request.limit);
    EntityRowsTop(t, q, dist, request.limit);
    LinkedOfExactly(t);
    HybridParts(contextRows, entityRows, LinkedOf(t));
  }
}
