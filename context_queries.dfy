/** The reads of the context repository: by knowledge base, by creation
    time, by vector similarity, and the siblings of a chunk. */
module ContextQueries {
  import opened Wrappers
  import opened Ordering
  import opened Store
  import opened Selects
  import Interval

  function VectorOf(c: Context): Vector {
    c.vector
  }

  /** findByKnowledgeBaseId: the contexts of one knowledge base, in scan
      order. */
  function ByKnowledgeBase(t: Tables, kbId: Id): (r: seq<Row<Context>>)
    ensures Distinct(r)
    ensures forall row :: row in r <==> row.id in t.contexts && t.contexts[row.id] == row.data && row.data.kbId == kbId
  {
    var p := (row: Row<Context>) => row.data.kbId == kbId;
    FilterDistinct(Scan(t.contexts), p);
    Filter(Scan(t.contexts), p)
  }

  function ContextCreated(c: Context): Instant {
    c.createdAt
  }

  /** Contexts created at or after the instant, newest first. */
  function CreatedSince(t: Tables, from: Instant): (r: seq<Row<Context>>)
    ensures Distinct(r)
    ensures forall row :: row in r <==> row.id in t.contexts && t.contexts[row.id] == row.data && row.data.createdAt >= from
    ensures NewestFirstOrder(r, ContextCreated)
  {
    NewestFirst(t.contexts, ContextCreated, (row: Row<Context>) => row.data.createdAt >= from)
  }

  /** findRecentContexts as evidently intended, with the days bound outside
      the interval literal: created at or after now minus the given days,
      newest first. */
  function Recent(t: Tables, now: Instant, days: int): (r: seq<Row<Context>>)
    ensures Distinct(r)
    ensures forall row :: row in r <==>
      row.id in t.contexts && t.contexts[row.id] == row.data && row.data.createdAt >= now - days * Interval.SecondsPerDay
    ensures NewestFirstOrder(r, ContextCreated)
  {
    Interval.IntendedSeconds(days);
    RecentUnder(t, now, Interval.DaysIntended, days).value
  }

  /** findRecentContexts with its interval evaluated as the database does:
      the read fails when the interval is rejected, and otherwise lists the
      contexts created at or after now minus the interval, newest first. */
  function RecentUnder(t: Tables, now: Instant, interval: Interval.IntervalExpr, days: int)
    : (r: Result<seq<Row<Context>>>)
    ensures r.Failure? <==> Interval.Seconds(interval, Interval.Binding("days", days)).Failure?
    ensures r.Success? ==> forall row :: row in r.value <==>
      row.id in t.contexts && t.contexts[row.id] == row.data
      && row.data.createdAt >= now - Interval.Seconds(interval, Interval.Binding("days", days)).value
    ensures r.Success? ==> Distinct(r.value) && NewestFirstOrder(r.value, ContextCreated)
  {
    SinceRead(t, now, Interval.Seconds(interval, Interval.Binding("days", days)))
  }

  /** The recent read over an evaluated window: the failure of the window,
      or the contexts created at or after now minus it. */
  function SinceRead(t: Tables, now: Instant, window: Result<int>): Result<seq<Row<Context>>> {
    if window.Failure? then Failure(window.error) else Success(CreatedSince(t, now - window.value))
  }

  /** findByDateRange: created between the two instants, both included,
      newest first. */
  function InRange(t: Tables, start: Instant, end: Instant): (r: seq<Row<Context>>)
    ensures Distinct(r)
    ensures forall row :: row in r <==>
      row.id in t.contexts && t.contexts[row.id] == row.data && start <= row.data.createdAt <= end
    ensures NewestFirstOrder(r, ContextCreated)
  {
    var p := (row: Row<Context>) => start <= row.data.createdAt && row.data.createdAt <= end;
    var r := NewestFirst(t.contexts, ContextCreated, p);
    forall row
      ensures row in r <==> row.id in t.contexts && t.contexts[row.id] == row.data && start <= row.data.createdAt <= end
    {
      assert p(row) <==> start <= row.data.createdAt <= end;
    }
    r
  }

  /** findSimilar: the contexts nearest to q. */
  function Similar(t: Tables, q: Vector, dist: (Vector, Vector) -> real, limit: int): (r: Result<seq<Row<Context>>>)
    ensures r.Failure? <==> limit < 0
    ensures r.Success? ==> |r.value| == (if limit < |t.contexts| then limit else |t.contexts|)
    ensures r.Success? ==> forall row :: row in r.value ==> row.id in t.contexts && t.contexts[row.id] == row.data
    ensures r.Success? ==> NearestFirst(r.value, VectorOf, q, dist)
  {
    Nearest(Scan(t.contexts), VectorOf, q, dist, limit)
  }

  /** findSimilar returns no row twice, and every context it leaves out is
      at least as far from q as every context it returns. */
  lemma SimilarIsNearest(t: Tables, q: Vector, dist: (Vector, Vector) -> real, limit: int)
    requires limit >= 0
    ensures Distinct(Similar(t, q, dist, limit).value)
    ensures NearestTop(Similar(t, q, dist, limit).value, Scan(t.contexts), VectorOf, q, dist)
  {
    NearestIsTop(Scan(t.contexts), VectorOf, q, dist, limit);
  }

  /** Contexts created strictly after the instant, in scan order. */
  function CreatedAfter(t: Tables, from: Instant): (r: seq<Row<Context>>)
    ensures Distinct(r)
    ensures forall row :: row in r <==> row.id in t.contexts && t.contexts[row.id] == row.data && row.data.createdAt > from
  {
    var p := (row: Row<Context>) => row.data.createdAt > from;
    FilterDistinct(Scan(t.contexts), p);
    Filter(Scan(t.contexts), p)
  }

  /** The candidates of findRecentSimilarWithScore as evidently intended,
      with the days bound outside the interval literal: created strictly
      after now minus the given days. */
  function RecentRows(t: Tables, now: Instant, days: int): (r: seq<Row<Context>>)
    ensures Distinct(r)
    ensures forall row :: row in r <==>
      row.id in t.contexts && t.contexts[row.id] == row.data && row.data.createdAt > now - days * Interval.SecondsPerDay
  {
    Interval.IntendedSeconds(days);
    RecentRowsUnder(t, now, Interval.DaysIntended, days).value
  }

  /** The candidates of findRecentSimilarWithScore with its interval
      evaluated as the database does: none when the interval is rejected,
      which fails the read. */
  function RecentRowsUnder(t: Tables, now: Instant, interval: Interval.IntervalExpr, days: int)
    : (r: Result<seq<Row<Context>>>)
    ensures r.Failure? <==> Interval.Seconds(interval, Interval.Binding("days", days)).Failure?
    ensures r.Success? ==> forall row :: row in r.value <==>
      row.id in t.contexts && t.contexts[row.id] == row.data
      && row.data.createdAt > now - Interval.Seconds(interval, Interval.Binding("days", days)).value
    ensures r.Success? ==> Distinct(r.value)
  {
    AfterRead(t, now, Interval.Seconds(interval, Interval.Binding("days", days)))
  }

  /** The candidate read over an evaluated window: the failure of the
      window, or the contexts created after now minus it. */
  function AfterRead(t: Tables, now: Instant, window: Result<int>): Result<seq<Row<Context>>> {
    if window.Failure? then Failure(window.error) else Success(CreatedAfter(t, now - window.value))
  }

  /** findSimilarWithScore: [id, text, chunk index, 1 - distance], nearest
      first. */
  function SimilarWithScore(t: Tables, q: Vector, dist: (Vector, Vector) -> real, limit: int)
    : (r: Result<seq<Scored<Context>>>)
    ensures r.Failure? <==> limit < 0
    ensures r.Success? ==> |r.value| == (if limit < |t.contexts| then limit else |t.contexts|)
    ensures r.Success? ==> ScoresDescending(r.value)
    ensures r.Success? ==> forall i :: 0 <= i < |r.value| ==>
      var row := r.value[i].row;
      row.id in t.contexts && t.contexts[row.id] == row.data && r.value[i].score == 1.0 - dist(row.data.vector, q)
  {
    ScoredNearest(Scan(t.contexts), VectorOf, q, dist, limit)
  }

  /** A scored search returns no context twice, and every context it leaves
      out scores no higher than every context it returns. */
  lemma SimilarWithScoreIsTop(t: Tables, q: Vector, dist: (Vector, Vector) -> real, limit: int)
    requires limit >= 0
    ensures RowsDistinct(SimilarWithScore(t, q, dist, limit).value)
    ensures ScoredTop(SimilarWithScore(t, q, dist, limit).value, Scan(t.contexts), VectorOf, q, dist)
  {
    ScoredNearestIsTop(Scan(t.contexts), VectorOf, q, dist, limit);
  }

  /** findRecentSimilarWithScore: the same search over the recent contexts
      only. */
  function RecentSimilarWithScore(t: Tables, now: Instant, days: int, q: Vector, dist: (Vector, Vector) -> real,
                                  limit: int): (r: Result<seq<Scored<Context>>>)
    ensures r.Failure? <==> limit < 0
    ensures r.Success? ==>
      |r.value| == (if limit < |RecentRows(t, now, days)| then limit else |RecentRows(t, now, days)|)
    ensures r.Success? ==> ScoresDescending(r.value)
    ensures r.Success? ==> forall i :: 0 <= i < |r.value| ==>
      var row := r.value[i].row;
      row.id in t.contexts && t.contexts[row.id] == row.data && row.data.createdAt > now - days * Interval.SecondsPerDay
      && r.value[i].score == 1.0 - dist(row.data.vector, q)
  {
    ScoredNearest(RecentRows(t, now, days), VectorOf, q, dist, limit)
  }

  /** The recent search returns min(limit, number of recent contexts)
      rows, no context twice, and leaves out no recent context that scores
      higher than one it returns. */
  lemma RecentSimilarWithScoreIsTop(t: Tables, now: Instant, days: int, q: Vector, dist: (Vector, Vector) -> real,
                                    limit: int)
    requires limit >= 0
    ensures var n := |RecentRows(t, now, days)|;
      |RecentSimilarWithScore(t, now, days, q, dist, limit).value| == (if limit < n then limit else n)
    ensures RowsDistinct(RecentSimilarWithScore(t, now, days, q, dist, limit).value)
    ensures ScoredTop(RecentSimilarWithScore(t, now, days, q, dist, limit).value, RecentRows(t, now, days),
                      VectorOf, q, dist)
  {
    ScoredNearestIsTop(RecentRows(t, now, days), VectorOf, q, dist, limit);
  }

  function IndexKey(row: Row<Context>): real {
    if row.data.chunkIndex.Some? then row.data.chunkIndex.value as real else 0.0
  }

  predicate HasIndex(row: Row<Context>) {
    row.data.chunkIndex.Some?
  }

  predicate NoIndex(row: Row<Context>) {
    row.data.chunkIndex.None?
  }

  lemma IndexOrder(sorted: seq<Row<Context>>, unindexed: seq<Row<Context>>)
    requires forall row :: row in sorted ==> HasIndex(row)
    requires forall row :: row in unindexed ==> NoIndex(row)
    requires SortedBy(sorted, IndexKey)
    ensures var r := sorted + unindexed;
      forall i, j :: 0 <= i < j < |r| && r[j].data.chunkIndex.Some? ==>
        r[i].data.chunkIndex.Some? && r[i].data.chunkIndex.value <= r[j].data.chunkIndex.value
  {
    var r := sorted + unindexed;
    assert forall k :: |sorted| <= k < |r| ==> r[k] == unindexed[k - |sorted|] && r[k] in unindexed;
    assert forall k :: 0 <= k < |sorted| ==> r[k] == sorted[k] && sorted[k] in sorted;
  }

  /** ORDER BY chunk_index ASC: rows with an index by index, rows without
      one after them (NULLS LAST). */
  function ByChunkIndex(rows: seq<Row<Context>>): (r: seq<Row<Context>>)
    ensures forall row :: row in r <==> row in rows
    ensures forall i, j :: 0 <= i < j < |r| && r[j].data.chunkIndex.Some? ==>
      r[i].data.chunkIndex.Some? && r[i].data.chunkIndex.value <= r[j].data.chunkIndex.value
  {
    var indexed := Filter(rows, HasIndex);
    var unindexed := Filter(rows, NoIndex);
    var sorted := SortBy(indexed, IndexKey);
    SortByMembers(indexed, IndexKey);
    IndexOrder(sorted, unindexed);
    sorted + unindexed
  }

  /** findSiblingContexts: the contexts of the knowledge base the given
      context belongs to (none when it does not exist), by chunk index. */
  function Siblings(t: Tables, contextId: Id): (r: seq<Row<Context>>)
    ensures contextId !in t.contexts ==> r == []
    ensures contextId in t.contexts ==> forall row :: row in r <==>
      row.id in t.contexts && t.contexts[row.id] == row.data && row.data.kbId == t.contexts[contextId].kbId
    ensures forall i, j :: 0 <= i < j < |r| && r[j].data.chunkIndex.Some? ==>
      r[i].data.chunkIndex.Some? && r[i].data.chunkIndex.value <= r[j].data.chunkIndex.value
  {
    if contextId !in t.contexts then [] else ByChunkIndex(ByKnowledgeBase(t, t.contexts[contextId].kbId))
  }
}
