/** The reads of the knowledge-base repository: one user's history newest
    first, vector similarity, the recent window and the since filter.
    deleteByUid, its one write, is Store.Database.DeleteByUid. */
module KbQueries {
  import opened Wrappers
  import opened Ordering
  import opened Store
  import opened Selects
  import Interval

  function KbVector(kb: KnowledgeBase): Vector {
    kb.vector
  }

  function KbCreated(kb: KnowledgeBase): Instant {
    kb.createdAt
  }

  /** findByUidOrderByCreatedAtDesc: every knowledge base of the user,
      newest first. */
  function ByUid(t: Tables, uid: string): (r: seq<Row<KnowledgeBase>>)
    ensures Distinct(r)
    ensures forall row :: row in r <==> row.id in t.kbs && t.kbs[row.id] == row.data && row.data.uid == uid
    ensures NewestFirstOrder(r, KbCreated)
  {
    NewestFirst(t.kbs, KbCreated, (row: Row<KnowledgeBase>) => row.data.uid == uid)
  }

  /** findSimilar: the knowledge bases nearest to q. */
  function Similar(t: Tables, q: Vector, dist: (Vector, Vector) -> real, limit: int)
    : (r: Result<seq<Row<KnowledgeBase>>>)
    ensures r.Failure? <==> limit < 0
    ensures r.Success? ==> |r.value| == (if limit < |t.kbs| then limit else |t.kbs|)
    ensures r.Success? ==> forall row :: row in r.value ==> row.id in t.kbs && t.kbs[row.id] == row.data
    ensures r.Success? ==> NearestFirst(r.value, KbVector, q, dist)
  {
    Nearest(Scan(t.kbs), KbVector, q, dist, limit)
  }

  /** findSimilar returns no knowledge base twice, and every one it leaves
      out is at least as far from q as every one it returns. */
  lemma SimilarIsNearest(t: Tables, q: Vector, dist: (Vector, Vector) -> real, limit: int)
    requires limit >= 0
    ensures Distinct(Similar(t, q, dist, limit).value)
    ensures NearestTop(Similar(t, q, dist, limit).value, Scan(t.kbs), KbVector, q, dist)
  {
    NearestIsTop(Scan(t.kbs), KbVector, q, dist, limit);
  }

  /** The scored history search that searchHistory reads as [id, content,
      uid, converser, 1 - distance], nearest first. */
  function SimilarWithScore(t: Tables, q: Vector, dist: (Vector, Vector) -> real, limit: int)
    : (r: Result<seq<Scored<KnowledgeBase>>>)
    ensures r.Failure? <==> limit < 0
    ensures r.Success? ==> |r.value| == (if limit < |t.kbs| then limit else |t.kbs|)
    ensures r.Success? ==> ScoresDescending(r.value)
    ensures r.Success? ==> forall i :: 0 <= i < |r.value| ==>
      var row := r.value[i].row;
      row.id in t.kbs && t.kbs[row.id] == row.data && r.value[i].score == 1.0 - dist(row.data.vector, q)
  {
    ScoredNearest(Scan(t.kbs), KbVector, q, dist, limit)
  }

  /** The scored history search returns no knowledge base twice and leaves
      out none that scores higher than one it returns. */
  lemma SimilarWithScoreIsTop(t: Tables, q: Vector, dist: (Vector, Vector) -> real, limit: int)
    requires limit >= 0
    ensures RowsDistinct(SimilarWithScore(t, q, dist, limit).value)
    ensures ScoredTop(SimilarWithScore(t, q, dist, limit).value, Scan(t.kbs), KbVector, q, dist)
  {
    ScoredNearestIsTop(Scan(t.kbs), KbVector, q, dist, limit);
  }

  /** findRecent as evidently intended, with the hours bound outside the
      interval literal: created strictly after now minus the given hours,
      newest first. */
  function Recent(t: Tables, now: Instant, hours: int): (r: seq<Row<KnowledgeBase>>)
    ensures Distinct(r)
    ensures forall row :: row in r <==>
      row.id in t.kbs && t.kbs[row.id] == row.data && row.data.createdAt > now - hours * Interval.SecondsPerHour
    ensures NewestFirstOrder(r, KbCreated)
  {
    Interval.IntendedSeconds(hours);
    RecentUnder(t, now, Interval.HoursIntended, hours).value
  }

  /** Knowledge bases created strictly after the instant, newest first. */
  function NewestAfter(t: Tables, from: Instant): seq<Row<KnowledgeBase>> {
    NewestFirst(t.kbs, KbCreated, (row: Row<KnowledgeBase>) => row.data.createdAt > from)
  }

  /** findRecent with its interval evaluated as the database does: the
      read fails when the interval is rejected, and otherwise lists the
      knowledge bases created after now minus the interval, newest first. */
  function RecentUnder(t: Tables, now: Instant, interval: Interval.IntervalExpr, hours: int)
    : (r: Result<seq<Row<KnowledgeBase>>>)
    ensures r.Failure? <==> Interval.Seconds(interval, Interval.Binding("hours", hours)).Failure?
    ensures r.Success? ==> forall row :: row in r.value <==>
      row.id in t.kbs && t.kbs[row.id] == row.data
      && row.data.createdAt > now - Interval.Seconds(interval, Interval.Binding("hours", hours)).value
    ensures r.Success? ==> Distinct(r.value) && NewestFirstOrder(r.value, KbCreated)
  {
    AfterRead(t, now, Interval.Seconds(interval, Interval.Binding("hours", hours)))
  }

  /** The recent read over an evaluated window: the failure of the window,
      or the knowledge bases created after now minus it. */
  function AfterRead(t: Tables, now: Instant, window: Result<int>): Result<seq<Row<KnowledgeBase>>> {
    if window.Failure? then Failure(window.error) else Success(NewestAfter(t, now - window.value))
  }

  /** findByCreatedAtAfter: created strictly after the instant, in scan
      order. */
  function CreatedAfter(t: Tables, since: Instant): (r: seq<Row<KnowledgeBase>>)
    ensures Distinct(r)
    ensures forall row :: row in r <==> row.id in t.kbs && t.kbs[row.id] == row.data && row.data.createdAt > since
  {
    var p := (row: Row<KnowledgeBase>) => row.data.createdAt > since;
    FilterDistinct(Scan(t.kbs), p);
    Filter(Scan(t.kbs), p)
  }

  /** After deleteByUid the user's history reads no row, and every other
      user's history reads the same rows as before. */
  lemma DeletedUserHasNoHistory(t: Tables, uid: string, other: string)
    requires other != uid
    ensures forall row :: row !in ByUid(DeletedByUid(t, uid), uid)
    ensures forall row :: row in ByUid(DeletedByUid(t, uid), other) <==> row in ByUid(t, other)
  {
  }
}
