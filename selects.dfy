/** Two shapes of SELECT that several repositories share, over any id-keyed
    table: a filtered scan ordered by creation time, newest first, and a
    vector search that also returns 1 - distance as a score. */
module Selects {
  import opened Wrappers
  import opened Ordering
  import opened Store

  /** created_at never rises down the list. */
  predicate NewestFirstOrder<T>(r: seq<Row<T>>, created: T -> Instant) {
    forall i, j :: 0 <= i < j < |r| ==> created(r[i].data) >= created(r[j].data)
  }

  /** WHERE p ORDER BY created_at DESC over a table; rows created at the
      same instant keep scan order. */
  function NewestFirst<T(!new)>(m: map<Id, T>, created: T -> Instant, p: Row<T> -> bool): (r: seq<Row<T>>)
    ensures Distinct(r)
    ensures forall row :: row in r <==> row.id in m && m[row.id] == row.data && p(row)
    ensures NewestFirstOrder(r, created)
  {
    var key := (row: Row<T>) => created(row.data) as real;
    var r := SortDescBy(Filter(Scan(m), p), key);
    FilterSortDesc(Scan(m), p, key);
    assert forall i, j :: 0 <= i < j < |r| ==> key(r[i]) >= key(r[j]);
    r
  }

  /** A derived finder returning Optional: no matching row gives empty, one
      gives that row, more than one fails with
      IncorrectResultSizeDataAccessException. */
  function SelectOne<T(!new)>(m: map<Id, T>, p: Row<T> -> bool): (r: Result<Option<Row<T>>>)
    ensures r.Success? && r.value.Some? ==>
      r.value.value.id in m && m[r.value.value.id] == r.value.value.data && p(r.value.value)
    ensures r.Success? && r.value.None? <==> forall id :: id in m ==> !p(Row(id, m[id]))
  {
    var rows := Filter(Scan(m), p);
    if rows == [] then
      assert forall id :: id in m ==> Row(id, m[id]) in Scan(m);
      Success(None)
    else
      assert rows[0] in rows;
      if |rows| == 1 then Success(Some(rows[0]))
      else Failure("IncorrectResultSizeDataAccessException")
  }

  /** Rows read from a table, without repeats, number more than one exactly
      when two different ids are among them. */
  lemma TwoRows<T>(rows: seq<Row<T>>, m: map<Id, T>, p: Row<T> -> bool)
    requires Distinct(rows)
    requires forall row :: row in rows <==> row.id in m && m[row.id] == row.data && p(row)
    ensures |rows| > 1 <==> exists a, b :: a in m && b in m && a != b && p(Row(a, m[a])) && p(Row(b, m[b]))
  {
    if |rows| > 1 {
      assert rows[0] in rows && rows[1] in rows;
      assert rows[0].id != rows[1].id;
    }
    if a, b :| a in m && b in m && a != b && p(Row(a, m[a])) && p(Row(b, m[b])) {
      assert Row(a, m[a]) in rows && Row(b, m[b]) in rows;
      var i :| 0 <= i < |rows| && rows[i] == Row(a, m[a]);
      var j :| 0 <= j < |rows| && rows[j] == Row(b, m[b]);
      assert i != j;
    }
  }

  /** The finder fails exactly when two different rows match. */
  lemma SelectOneFails<T(!new)>(m: map<Id, T>, p: Row<T> -> bool)
    ensures SelectOne(m, p).Failure? <==>
      exists a, b :: a in m && b in m && a != b && p(Row(a, m[a])) && p(Row(b, m[b]))
  {
    var rows := Filter(Scan(m), p);
    assert SelectOne(m, p).Failure? <==> |rows| > 1;
    FilterDistinct(Scan(m), p);
    TwoRows(rows, m, p);
  }

  /** Distance to q never falls down the list. */
  predicate NearestFirst<T>(rows: seq<Row<T>>, vector: T -> Vector, q: Vector, dist: (Vector, Vector) -> real) {
    forall i, j :: 0 <= i < j < |rows| ==> dist(vector(rows[i].data), q) <= dist(vector(rows[j].data), q)
  }

  /** ORDER BY vector <=> q LIMIT 1 over some rows: the nearest, if any. */
  function Closest<T>(rows: seq<Row<T>>, vector: T -> Vector, q: Vector, dist: (Vector, Vector) -> real)
    : (r: Option<Row<T>>)
    ensures r.None? <==> rows == []
    ensures r.Some? ==> r.value in rows
  {
    var top := Nearest(rows, vector, q, dist, 1).value;
    if top == [] then None
    else
      assert top[0] in top;
      Some(top[0])
  }

  /** The row picked is at least as near to q as every candidate. */
  lemma ClosestIsNearest<T>(rows: seq<Row<T>>, vector: T -> Vector, q: Vector, dist: (Vector, Vector) -> real)
    requires Distinct(rows) && rows != []
    ensures forall x :: x in rows ==> dist(vector(Closest(rows, vector, q, dist).value.data), q) <= dist(vector(x.data), q)
  {
    var top := Nearest(rows, vector, q, dist, 1).value;
    NearestIsTop(rows, vector, q, dist, 1);
    forall x | x in rows
      ensures dist(vector(top[0].data), q) <= dist(vector(x.data), q)
    {
      if x in top {
        assert x == top[0];
      }
    }
  }

  /** WHERE p ORDER BY vector <=> q LIMIT 1 over a table: the matching row
      nearest to q, empty when no row matches. */
  function ClosestWhere<T(!new)>(m: map<Id, T>, p: Row<T> -> bool, vector: T -> Vector, q: Vector,
                                 dist: (Vector, Vector) -> real): (r: Option<Row<T>>)
    ensures r.Some? ==> r.value.id in m && m[r.value.id] == r.value.data && p(r.value)
    ensures r.None? <==> forall id :: id in m ==> !p(Row(id, m[id]))
  {
    var rows := Filter(Scan(m), p);
    if rows == [] then
      assert forall id :: id in m ==> Row(id, m[id]) in Scan(m);
      None
    else
      Closest(rows, vector, q, dist)
  }

  /** The row picked is at least as near to q as every matching row. */
  lemma ClosestWhereIsNearest<T(!new)>(m: map<Id, T>, p: Row<T> -> bool, vector: T -> Vector, q: Vector,
                                       dist: (Vector, Vector) -> real)
    requires ClosestWhere(m, p, vector, q, dist).Some?
    ensures forall id :: id in m && p(Row(id, m[id])) ==>
      dist(vector(ClosestWhere(m, p, vector, q, dist).value.data), q) <= dist(vector(m[id]), q)
  {
    var rows := Filter(Scan(m), p);
    FilterDistinct(Scan(m), p);
    ClosestIsNearest(rows, vector, q, dist);
    forall id | id in m && p(Row(id, m[id]))
      ensures dist(vector(ClosestWhere(m, p, vector, q, dist).value.data), q) <= dist(vector(m[id]), q)
    {
      assert Row(id, m[id]) in Scan(m);
    }
  }

  /** A row of a vector search with score: the row, and 1 - its distance to
      the query vector. */
  datatype Scored<T> = Scored(row: Row<T>, score: real)

  function ScoreAll<T>(rows: seq<Row<T>>, vector: T -> Vector, q: Vector, dist: (Vector, Vector) -> real)
    : (r: seq<Scored<T>>)
    ensures |r| == |rows|
    ensures forall i :: 0 <= i < |r| ==> r[i] == Scored(rows[i], 1.0 - dist(vector(rows[i].data), q))
  {
    seq(|rows|, i requires 0 <= i < |rows| => Scored(rows[i], 1.0 - dist(vector(rows[i].data), q)))
  }

  /** Scores never rise down the list. */
  predicate ScoresDescending<T>(r: seq<Scored<T>>) {
    forall i, j :: 0 <= i < j < |r| ==> r[i].score >= r[j].score
  }

  /** No row is returned twice. */
  predicate RowsDistinct<T(==)>(r: seq<Scored<T>>) {
    forall i, j :: 0 <= i < j < |r| ==> r[i].row != r[j].row
  }

  /** Every candidate row the search leaves out scores no higher than every
      row it returns. */
  predicate ScoredTop<T(==)>(r: seq<Scored<T>>, rows: seq<Row<T>>, vector: T -> Vector, q: Vector,
                              dist: (Vector, Vector) -> real) {
    forall x, i :: x in rows && (forall k :: 0 <= k < |r| ==> r[k].row != x) && 0 <= i < |r| ==>
      1.0 - dist(vector(x.data), q) <= r[i].score
  }

  /** SELECT ..., 1 - (vector <=> q) ORDER BY vector <=> q LIMIT n. */
  function ScoredNearest<T>(rows: seq<Row<T>>, vector: T -> Vector, q: Vector, dist: (Vector, Vector) -> real,
                            limit: int): (r: Result<seq<Scored<T>>>)
    ensures r.Failure? <==> limit < 0
    ensures r.Success? ==> |r.value| == (if limit < |rows| then limit else |rows|)
    ensures r.Success? ==> forall i :: 0 <= i < |r.value| ==>
      r.value[i].row in rows && r.value[i].score == 1.0 - dist(vector(r.value[i].row.data), q)
    ensures r.Success? ==> ScoresDescending(r.value)
  {
    var n := Nearest(rows, vector, q, dist, limit);
    if n.Failure? then Failure(n.error)
    else
      assert forall i :: 0 <= i < |n.value| ==> n.value[i] in n.value;
      Success(ScoreAll(n.value, vector, q, dist))
  }

  /** Over candidates without repeats, a scored search returns no row twice
      and leaves out no row that scores higher than one it returns. */
  lemma ScoredNearestIsTop<T>(rows: seq<Row<T>>, vector: T -> Vector, q: Vector, dist: (Vector, Vector) -> real,
                              limit: int)
    requires Distinct(rows) && limit >= 0
    ensures RowsDistinct(ScoredNearest(rows, vector, q, dist, limit).value)
    ensures ScoredTop(ScoredNearest(rows, vector, q, dist, limit).value, rows, vector, q, dist)
  {
    var n := Nearest(rows, vector, q, dist, limit).value;
    assert ScoredNearest(rows, vector, q, dist, limit).value == ScoreAll(n, vector, q, dist);
    NearestIsTop(rows, vector, q, dist, limit);
    ScoreAllTop(n, rows, vector, q, dist);
  }

  /** Scoring the rows of a nearest-first search keeps them apart and keeps
      every left-out row scoring no higher. */
  lemma ScoreAllTop<T>(n: seq<Row<T>>, rows: seq<Row<T>>, vector: T -> Vector, q: Vector, dist: (Vector, Vector) -> real)
    requires Distinct(n)
    requires forall x, i :: x in rows && x !in n && 0 <= i < |n| ==> dist(vector(n[i].data), q) <= dist(vector(x.data), q)
    ensures RowsDistinct(ScoreAll(n, vector, q, dist))
    ensures ScoredTop(ScoreAll(n, vector, q, dist), rows, vector, q, dist)
  {
    var r := ScoreAll(n, vector, q, dist);
    forall x, i | x in rows && (forall k :: 0 <= k < |r| ==> r[k].row != x) && 0 <= i < |r|
      ensures 1.0 - dist(vector(x.data), q) <= r[i].score
    {
      forall k | 0 <= k < |n|
        ensures n[k] != x
      {
        assert r[k].row == n[k];
      }
    }
  }
}
