/** The PostgreSQL store behind both halves of the service: knowledge
    bases, their context chunks, entities, the entity-context junction and
    the relation edges, with the writes the services issue. Every id-keyed
    table is a map; relations, keyed by (source, target, type), are a row
    sequence in insertion order. */
module Store {
  import opened Wrappers
  import opened Json
  import opened Ordering
  import Text

  type Id = nat

  /** A timestamp in seconds. */
  type Instant = int

  type Vector = seq<real>

  const MaxInt: int := 0x7fff_ffff

  datatype Role = User | Agent | System

  datatype KnowledgeBase = KnowledgeBase(uid: string, converser: Role, content: string, vector: Vector,
                                         metadata: Json, createdAt: Instant)

  datatype Context = Context(kbId: Id, textChunk: string, chunkIndex: Option<int>, vector: Vector,
                             metadata: Json, createdAt: Instant)

  datatype Entity = Entity(name: string, entityType: Option<string>, description: Option<string>, vector: Vector,
                           metadata: Json, createdAt: Instant)

  /** A relation edge; (source, target, relationType) is its key. */
  datatype Relation = Relation(source: Id, target: Id, relationType: string, edgeWeight: int,
                               metadata: Json, createdAt: Instant)

  /** A row of the entity-context junction. */
  datatype Link = Link(entity: Id, context: Id)

  /** A row read from an id-keyed table. */
  datatype Row<T> = Row(id: Id, data: T)

  datatype Tables = Tables(
    kbs: map<Id, KnowledgeBase>,
    contexts: map<Id, Context>,
    entities: map<Id, Entity>,
    links: set<Link>,
    relations: seq<Relation>)

  /** The text of an id where the service concatenates one into a string. */
  function IdText(id: Id): string {
    Text.NatToString(id)
  }

  /** Distinct ids print as distinct text. */
  lemma IdTextInjective(a: Id, b: Id)
    requires IdText(a) == IdText(b)
    ensures a == b
  {
    Text.NatToStringRoundTrip(a);
    Text.NatToStringRoundTrip(b);
  }

  /** The rows of the given ids, in that order. */
  function RowsOf<T>(m: map<Id, T>, ids: seq<Id>): (r: seq<Row<T>>)
    requires forall id :: id in ids ==> id in m
    ensures |r| == |ids|
    ensures forall k :: 0 <= k < |r| ==> r[k] == Row(ids[k], m[ids[k]])
  {
    if ids == [] then [] else [Row(ids[0], m[ids[0]])] + RowsOf(m, ids[1..])
  }

  lemma ScanMembers<T>(m: map<Id, T>, ids: seq<Id>, row: Row<T>)
    requires forall id :: id in ids <==> id in m
    ensures row in RowsOf(m, ids) <==> row.id in m && m[row.id] == row.data
  {
    if row.id in m {
      var k := IndexIn(ids, row.id);
      assert RowsOf(m, ids)[k] == Row(row.id, m[row.id]);
    }
  }

  /** A sequential scan of an id-keyed table: every row once, ascending ids. */
  function Scan<T(!new)>(m: map<Id, T>): (r: seq<Row<T>>)
    ensures |r| == |m|
    ensures forall row :: row in r <==> row.id in m && m[row.id] == row.data
    ensures forall i, j :: 0 <= i < j < |r| ==> r[i].id < r[j].id
    ensures Distinct(r)
  {
    var ids := SortedIds(m.Keys);
    var r := RowsOf(m, ids);
    forall row | true
      ensures row in r <==> row.id in m && m[row.id] == row.data
    {
      ScanMembers(m, ids, row);
    }
    r
  }

  function IndexIn(ids: seq<nat>, x: nat): (k: nat)
    requires x in ids
    ensures k < |ids| && ids[k] == x
  {
    if ids[0] == x then 0 else 1 + IndexIn(ids[1..], x)
  }

  /** A vector search: ORDER BY the distance of each row's vector to q,
      LIMIT n. */
  function Nearest<T>(rows: seq<Row<T>>, vector: T -> Vector, q: Vector, dist: (Vector, Vector) -> real,
                      limit: int): (r: Result<seq<Row<T>>>)
    ensures r.Failure? <==> limit < 0
    ensures r.Success? ==> |r.value| == (if limit < |rows| then limit else |rows|)
    ensures r.Success? ==> forall x :: x in r.value ==> x in rows
    ensures r.Success? ==>
      forall i, j :: 0 <= i < j < |r.value| ==> dist(vector(r.value[i].data), q) <= dist(vector(r.value[j].data), q)
  {
    var key := (row: Row<T>) => dist(vector(row.data), q);
    var r := SortLimit(rows, key, limit);
    assert r.Success? ==> forall i, j :: 0 <= i < j < |r.value| ==> key(r.value[i]) <= key(r.value[j]);
    r
  }

  /** Every candidate row a vector search leaves out is at least as far
      from q as every row it returns. */
  predicate NearestTop<T(==)>(r: seq<Row<T>>, rows: seq<Row<T>>, vector: T -> Vector, q: Vector,
                              dist: (Vector, Vector) -> real) {
    forall x, i :: x in rows && x !in r && 0 <= i < |r| ==> dist(vector(r[i].data), q) <= dist(vector(x.data), q)
  }

  /** A vector search returns each row at most once, and every row it leaves
      out is at least as far from q as every row it returns. */
  lemma NearestIsTop<T>(rows: seq<Row<T>>, vector: T -> Vector, q: Vector, dist: (Vector, Vector) -> real, limit: int)
    requires Distinct(rows) && limit >= 0
    ensures var r := Nearest(rows, vector, q, dist, limit).value;
      Distinct(r) && NearestTop(r, rows, vector, q, dist)
  {
    var key := (row: Row<T>) => dist(vector(row.data), q);
    var r := Nearest(rows, vector, q, dist, limit).value;
    assert r == SortLimit(rows, key, limit).value;
    SortLimitIsTop(rows, key, limit);
    forall x, i | x in rows && x !in r && 0 <= i < |r|
      ensures dist(vector(r[i].data), q) <= dist(vector(x.data), q)
    {
      assert key(r[i]) <= key(x);
    }
  }

  predicate SameKey(r: Relation, source: Id, target: Id, relationType: string) {
    r.source == source && r.target == target && r.relationType == relationType
  }

  /** The composite key holds: no two relation rows share (source, target, type). */
  predicate KeysUnique(rels: seq<Relation>) {
    forall i, j :: 0 <= i < j < |rels| ==> !SameKey(rels[j], rels[i].source, rels[i].target, rels[i].relationType)
  }

  predicate NamesUnique(entities: map<Id, Entity>) {
    forall a, b :: a in entities && b in entities && entities[a].name == entities[b].name ==> a == b
  }

  /** Referential integrity, the relation key, positive edge weights, and
      one entity per name. */
  ghost predicate Consistent(t: Tables) {
    (forall c :: c in t.contexts ==> t.contexts[c].kbId in t.kbs)
    && (forall l :: l in t.links ==> l.entity in t.entities && l.context in t.contexts)
    && (forall r :: r in t.relations ==> r.source in t.entities && r.target in t.entities && 1 <= r.edgeWeight <= MaxInt)
    && KeysUnique(t.relations)
    && NamesUnique(t.entities)
  }

  /** Position of the row holding a key. */
  function FindKey(rels: seq<Relation>, source: Id, target: Id, relationType: string): (k: Option<nat>)
    ensures k.Some? ==> k.value < |rels| && SameKey(rels[k.value], source, target, relationType)
    ensures k.None? ==> forall r :: r in rels ==> !SameKey(r, source, target, relationType)
  {
    if rels == [] then None
    else if SameKey(rels[0], source, target, relationType) then Some(0)
    else
      var k := FindKey(rels[1..], source, target, relationType);
      if k.Some? then Some(k.value + 1) else None
  }

  /** The edge weight stored under a key; 0 when there is no such row. */
  function WeightOf(rels: seq<Relation>, source: Id, target: Id, relationType: string): int {
    var k := FindKey(rels, source, target, relationType);
    if k.Some? then rels[k.value].edgeWeight else 0
  }

  /** With unique keys, the row holding a key is the only one that does. */
  lemma {:induction false} FindKeyUnique(rels: seq<Relation>, source: Id, target: Id, relationType: string, i: nat)
    requires KeysUnique(rels) && i < |rels| && SameKey(rels[i], source, target, relationType)
    ensures FindKey(rels, source, target, relationType) == Some(i)
  {
    if i > 0 {
      assert !SameKey(rels[i], rels[0].source, rels[0].target, rels[0].relationType);
      assert KeysUnique(rels[1..]) by {
        forall a, b | 0 <= a < b < |rels| - 1
          ensures !SameKey(rels[1..][b], rels[1..][a].source, rels[1..][a].target, rels[1..][a].relationType)
        {
          assert rels[1..][a] == rels[a + 1] && rels[1..][b] == rels[b + 1];
        }
      }
      FindKeyUnique(rels[1..], source, target, relationType, i - 1);
    }
  }

  /** Appending a row under a key no row holds keeps the key unique. */
  lemma KeysUniqueAppend(rels: seq<Relation>, row: Relation)
    requires KeysUnique(rels)
    requires forall r :: r in rels ==> !SameKey(r, row.source, row.target, row.relationType)
    ensures KeysUnique(rels + [row])
  {
    var v := rels + [row];
    forall a, b | 0 <= a < b < |v|
      ensures !SameKey(v[b], v[a].source, v[a].target, v[a].relationType)
    {
      if b == |rels| {
        assert v[a] in rels;
      }
    }
  }

  /** upsertRelation: INSERT with weight 1 and NOW(), or ON CONFLICT add one
      to the weight; None when the INTEGER weight would overflow (the
      statement fails). */
  function Upserted(rels: seq<Relation>, source: Id, target: Id, relationType: string, now: Instant): Option<seq<Relation>> {
    var k := FindKey(rels, source, target, relationType);
    if k.None? then Some(rels + [Relation(source, target, relationType, 1, JNull, now)])
    else if rels[k.value].edgeWeight >= MaxInt then None
    else Some(rels[k.value := rels[k.value].(edgeWeight := rels[k.value].edgeWeight + 1)])
  }

  /** An upsert counts one more observation of its key and touches no other
      key; it fails only when the count is already the largest INTEGER. */
  lemma UpsertCounts(rels: seq<Relation>, source: Id, target: Id, relationType: string, now: Instant)
    requires KeysUnique(rels)
    ensures var u := Upserted(rels, source, target, relationType, now);
      (u.None? <==> WeightOf(rels, source, target, relationType) >= MaxInt)
      && (u.Some? ==>
        KeysUnique(u.value)
        && WeightOf(u.value, source, target, relationType) == WeightOf(rels, source, target, relationType) + 1
        && forall s, t, ty :: !(s == source && t == target && ty == relationType) ==>
             WeightOf(u.value, s, t, ty) == WeightOf(rels, s, t, ty))
  {
    var k := FindKey(rels, source, target, relationType);
    var u := Upserted(rels, source, target, relationType, now);
    if u.Some? {
      var v := u.value;
      if k.None? {
        var added := Relation(source, target, relationType, 1, JNull, now);
        assert v == rels + [added];
        KeysUniqueAppend(rels, added);
        FindKeyUnique(v, source, target, relationType, |rels|);
        forall s, t, ty | !(s == source && t == target && ty == relationType)
          ensures WeightOf(v, s, t, ty) == WeightOf(rels, s, t, ty)
        {
          FindKeyAppend(rels, added, s, t, ty);
        }
      } else {
        var i := k.value;
        assert KeysUnique(v) by {
          forall a, b | 0 <= a < b < |v|
            ensures !SameKey(v[b], v[a].source, v[a].target, v[a].relationType)
          {
            assert SameKey(v[a], rels[a].source, rels[a].target, rels[a].relationType);
            assert SameKey(v[b], rels[b].source, rels[b].target, rels[b].relationType);
          }
        }
        FindKeyUnique(v, source, target, relationType, i);
        forall s, t, ty | !(s == source && t == target && ty == relationType)
          ensures WeightOf(v, s, t, ty) == WeightOf(rels, s, t, ty)
        {
          FindKeySameKeys(rels, v, s, t, ty);
          var kk := FindKey(rels, s, t, ty);
          if kk.Some? {
            assert kk.value != i;
          }
        }
      }
    }
  }

  lemma {:induction false} FindKeyAppend(rels: seq<Relation>, row: Relation, s: Id, t: Id, ty: string)
    requires !SameKey(row, s, t, ty)
    ensures FindKey(rels + [row], s, t, ty) == FindKey(rels, s, t, ty)
  {
    if rels != [] {
      assert (rels + [row])[1..] == rels[1..] + [row];
      FindKeyAppend(rels[1..], row, s, t, ty);
    }
  }

  /** FindKey looks only at keys, so two tables with the same keys row by
      row find the same position. */
  lemma {:induction false} FindKeySameKeys(a: seq<Relation>, b: seq<Relation>, s: Id, t: Id, ty: string)
    requires |a| == |b|
    requires forall i :: 0 <= i < |a| ==> SameKey(b[i], a[i].source, a[i].target, a[i].relationType)
    ensures FindKey(a, s, t, ty) == FindKey(b, s, t, ty)
  {
    if a != [] {
      FindKeySameKeys(a[1..], b[1..], s, t, ty);
    }
  }

  /** The same key upserted n times in a row. */
  function UpsertedTimes(rels: seq<Relation>, source: Id, target: Id, relationType: string, now: Instant, n: nat): Option<seq<Relation>>
  {
    if n == 0 then Some(rels)
    else
      var before := UpsertedTimes(rels, source, target, relationType, now, n - 1);
      if before.None? then None else Upserted(before.value, source, target, relationType, now)
  }

  /** A key first seen and then upserted n times has weight n, as long as n
      fits an INTEGER. */
  lemma {:induction false} UpsertCountsObservations(rels: seq<Relation>, source: Id, target: Id, relationType: string, now: Instant, n: nat)
    requires KeysUnique(rels) && WeightOf(rels, source, target, relationType) == 0
    requires n <= MaxInt
    ensures UpsertedTimes(rels, source, target, relationType, now, n).Some?
    ensures KeysUnique(UpsertedTimes(rels, source, target, relationType, now, n).value)
    ensures WeightOf(UpsertedTimes(rels, source, target, relationType, now, n).value, source, target, relationType) == n
  {
    if n > 0 {
      UpsertCountsObservations(rels, source, target, relationType, now, n - 1);
      UpsertCounts(UpsertedTimes(rels, source, target, relationType, now, n - 1).value, source, target, relationType, now);
    }
  }

  /** What repository save() does with a relation built with weight 1: an
      existing row under the same key is overwritten with weight 1 and the new
      metadata, keeping its creation time (the column is not updatable);
      otherwise the row is inserted. */
  function SavedRelation(rels: seq<Relation>, source: Id, target: Id, relationType: string, metadata: Json, now: Instant): seq<Relation> {
    var k := FindKey(rels, source, target, relationType);
    if k.None? then rels + [Relation(source, target, relationType, 1, metadata, now)]
    else rels[k.value := Relation(source, target, relationType, 1, metadata, rels[k.value].createdAt)]
  }

  /** Saving leaves weight 1 under the key however often it was seen before,
      keeps the key unique, and no other key changes. */
  lemma SaveResetsWeight(rels: seq<Relation>, source: Id, target: Id, relationType: string, metadata: Json, now: Instant)
    requires KeysUnique(rels)
    ensures var v := SavedRelation(rels, source, target, relationType, metadata, now);
      KeysUnique(v)
      && WeightOf(v, source, target, relationType) == 1
      && forall s, t, ty :: !(s == source && t == target && ty == relationType) ==>
           WeightOf(v, s, t, ty) == WeightOf(rels, s, t, ty)
  {
    var k := FindKey(rels, source, target, relationType);
    var v := SavedRelation(rels, source, target, relationType, metadata, now);
    if k.None? {
      var added := Relation(source, target, relationType, 1, metadata, now);
      KeysUniqueAppend(rels, added);
      FindKeyUnique(v, source, target, relationType, |rels|);
      forall s, t, ty | !(s == source && t == target && ty == relationType)
        ensures WeightOf(v, s, t, ty) == WeightOf(rels, s, t, ty)
      {
        FindKeyAppend(rels, added, s, t, ty);
      }
    } else {
      var i := k.value;
      assert KeysUnique(v) by {
        forall a, b | 0 <= a < b < |v|
          ensures !SameKey(v[b], v[a].source, v[a].target, v[a].relationType)
        {
          assert SameKey(v[a], rels[a].source, rels[a].target, rels[a].relationType);
          assert SameKey(v[b], rels[b].source, rels[b].target, rels[b].relationType);
        }
      }
      FindKeyUnique(v, source, target, relationType, i);
      forall s, t, ty | !(s == source && t == target && ty == relationType)
        ensures WeightOf(v, s, t, ty) == WeightOf(rels, s, t, ty)
      {
        FindKeySameKeys(rels, v, s, t, ty);
        var kk := FindKey(rels, s, t, ty);
        if kk.Some? {
          assert kk.value != i;
        }
      }
    }
  }

  /** A junction row after the UPDATE of mergeEntities. */
  function Moved(l: Link, source: Id, target: Id): Link {
    if l.entity == source then Link(target, l.context) else l
  }

  /** The junction after mergeEntities(source, target): every row of source
      now names target. */
  function MergedLinks(links: set<Link>, source: Id, target: Id): set<Link> {
    set l | l in links :: Moved(l, source, target)
  }

  /** The UPDATE fails when a moved row would duplicate a row target already
      has, or when rows move to an entity that does not exist. */
  predicate MergeFails(t: Tables, source: Id, target: Id) {
    source != target
    && ((exists l :: l in t.links && l.entity == source && Link(target, l.context) in t.links)
        || (target !in t.entities && exists l :: l in t.links && l.entity == source))
  }

  /** After a merge no row names the source (unless it is the target), every
      context of the source is a context of the target, and rows of other
      entities are untouched. */
  lemma MergeMovesLinks(links: set<Link>, source: Id, target: Id)
    ensures var m := MergedLinks(links, source, target);
      (source != target ==> forall l :: l in m ==> l.entity != source)
      && (forall c :: Link(source, c) in links ==> Link(target, c) in m)
      && (forall l :: l in links && l.entity != source ==> l in m)
      && (forall l :: l in m && l.entity != target ==> l in links)
  {
    var m := MergedLinks(links, source, target);
    forall c | Link(source, c) in links
      ensures Link(target, c) in m
    {
      assert Moved(Link(source, c), source, target) == Link(target, c);
    }
    forall l | l in links && l.entity != source
      ensures l in m
    {
      assert Moved(l, source, target) == l;
    }
  }

  /** Merging an entity into itself changes nothing, and a second merge of
      the same pair changes nothing either. */
  lemma MergeIdempotent(links: set<Link>, source: Id, target: Id)
    ensures MergedLinks(links, source, source) == links
    ensures MergedLinks(MergedLinks(links, source, target), source, target) == MergedLinks(links, source, target)
  {
    forall l | l in links
      ensures l in MergedLinks(links, source, source)
    {
      assert Moved(l, source, source) == l;
    }
    var m := MergedLinks(links, source, target);
    forall l | l in m
      ensures l in MergedLinks(m, source, target)
    {
      var l0 :| l0 in links && Moved(l0, source, target) == l;
      assert Moved(l, source, target) == l;
    }
  }

  /** deleteByUid: the user's knowledge bases go, their contexts with them
      (ON DELETE CASCADE), and the junction rows of those contexts. */
  function DeletedByUid(t: Tables, uid: string): (r: Tables)
    ensures forall id :: id in r.kbs <==> id in t.kbs && t.kbs[id].uid != uid
    ensures forall id :: id in r.contexts <==> id in t.contexts && t.contexts[id].kbId in r.kbs
  {
    var kbs := map id | id in t.kbs && t.kbs[id].uid != uid :: t.kbs[id];
    var contexts := map id | id in t.contexts && t.contexts[id].kbId in kbs :: t.contexts[id];
    var links := set l | l in t.links && l.context in contexts;
    Tables(kbs, contexts, t.entities, links, t.relations)
  }

  /** Deleting a user's data keeps the store consistent, leaves no knowledge
      base of that user, keeps every other knowledge base and its contexts
      as they were, keeps entities and relations, and a second deletion
      changes nothing. */
  lemma DeleteByUidForgets(t: Tables, uid: string)
    requires Consistent(t)
    ensures var r := DeletedByUid(t, uid);
      Consistent(r)
      && (forall id :: id in r.kbs ==> r.kbs[id].uid != uid)
      && (forall id :: id in t.kbs && t.kbs[id].uid != uid ==> id in r.kbs && r.kbs[id] == t.kbs[id])
      && (forall id :: id in t.contexts && t.kbs[t.contexts[id].kbId].uid != uid ==>
            id in r.contexts && r.contexts[id] == t.contexts[id])
      && r.entities == t.entities && r.relations == t.relations
      && DeletedByUid(r, uid) == r
  {
  }

  /** ids 0 .. first-1 are taken; rows numbered from first. */
  function Numbered<T>(first: Id, batch: seq<T>): (m: map<Id, T>)
    ensures forall id :: id in m <==> first <= id < first + |batch|
    ensures forall id :: id in m ==> m[id] == batch[id - first]
  {
    if batch == [] then map[]
    else Numbered(first, batch[..|batch| - 1])[first + |batch| - 1 := batch[|batch| - 1]]
  }

  ghost predicate IdsBelow(t: Tables, next: Id) {
    (forall id :: id in t.kbs ==> id < next)
    && (forall id :: id in t.contexts ==> id < next)
    && (forall id :: id in t.entities ==> id < next)
  }

  /** The store as the services see it: the tables plus the identity
      sequence that numbers new rows. */
  class Database {
    var kbs: map<Id, KnowledgeBase>
    var contexts: map<Id, Context>
    var entities: map<Id, Entity>
    var links: set<Link>
    var relations: seq<Relation>
    var nextId: Id

    function State(): Tables
      reads this
    {
      Tables(kbs, contexts, entities, links, relations)
    }

    ghost predicate Valid()
      reads this
    {
      Consistent(State()) && IdsBelow(State(), nextId)
    }

    constructor ()
      ensures Valid()
      ensures State() == Tables(map[], map[], map[], {}, [])
    {
      kbs := map[];
      contexts := map[];
      entities := map[];
      links := {};
      relations := [];
      nextId := 0;
    }

    /** persist + flush of a new knowledge base: it receives the next id. */
    method PersistKnowledgeBase(kb: KnowledgeBase) returns (id: Id)
      requires Valid()
      modifies this
      ensures Valid()
      ensures id == old(nextId) && id !in old(kbs)
      ensures kbs == old(kbs)[id := kb] && nextId == id + 1
      ensures contexts == old(contexts) && entities == old(entities)
      ensures links == old(links) && relations == old(relations)
    {
      id := nextId;
      kbs := kbs[id := kb];
      nextId := nextId + 1;
    }

    /** saveAll of new contexts: each receives the next id, in list order. */
    method SaveContexts(batch: seq<Context>) returns (ids: seq<Id>)
      requires Valid()
      requires forall c :: c in batch ==> c.kbId in kbs
      modifies this
      ensures Valid()
      ensures |ids| == |batch| && forall i :: 0 <= i < |ids| ==> ids[i] == old(nextId) + i
      ensures contexts == old(contexts) + Numbered(old(nextId), batch)
      ensures nextId == old(nextId) + |batch|
      ensures kbs == old(kbs) && entities == old(entities)
      ensures links == old(links) && relations == old(relations)
    {
      var first := nextId;
      ids := seq(|batch|, i requires 0 <= i < |batch| => first + i);
      contexts := contexts + Numbered(nextId, batch);
      nextId := nextId + |batch|;
      assert Consistent(State()) by {
        assert forall c :: c in contexts ==> contexts[c].kbId in kbs;
      }
    }

    /** save of a new entity already linked to one context. */
    method SaveEntity(e: Entity, context: Id) returns (id: Id)
      requires Valid()
      requires context in contexts
      requires forall x :: x in entities ==> entities[x].name != e.name
      modifies this
      ensures Valid()
      ensures id == old(nextId) && id !in old(entities)
      ensures entities == old(entities)[id := e] && nextId == id + 1
      ensures links == old(links) + {Link(id, context)}
      ensures kbs == old(kbs) && contexts == old(contexts) && relations == old(relations)
    {
      id := nextId;
      entities := entities[id := e];
      links := links + {Link(id, context)};
      nextId := nextId + 1;
    }

    /** An existing entity gains a context: the junction row is added. */
    method LinkContext(entity: Id, context: Id)
      requires Valid()
      requires entity in entities && context in contexts
      modifies this
      ensures Valid()
      ensures links == old(links) + {Link(entity, context)}
      ensures kbs == old(kbs) && contexts == old(contexts) && entities == old(entities)
      ensures relations == old(relations) && nextId == old(nextId)
    {
      links := links + {Link(entity, context)};
    }

    /** save of a relation built with weight 1. */
    method SaveRelation(source: Id, target: Id, relationType: string, metadata: Json, now: Instant)
      requires Valid()
      requires source in entities && target in entities
      modifies this
      ensures Valid()
      ensures relations == SavedRelation(old(relations), source, target, relationType, metadata, now)
      ensures kbs == old(kbs) && contexts == old(contexts) && entities == old(entities)
      ensures links == old(links) && nextId == old(nextId)
    {
      SaveResetsWeight(relations, source, target, relationType, metadata, now);
      var k := FindKey(relations, source, target, relationType);
      if k.None? {
        relations := relations + [Relation(source, target, relationType, 1, metadata, now)];
      } else {
        relations := relations[k.value := Relation(source, target, relationType, 1, metadata, relations[k.value].createdAt)];
      }
    }

    /** upsertRelation; false when the statement fails on weight overflow,
        in which case nothing changes. */
    method UpsertRelation(source: Id, target: Id, relationType: string, now: Instant) returns (ok: bool)
      requires Valid()
      requires source in entities && target in entities
      modifies this
      ensures Valid()
      ensures var u := Upserted(old(relations), source, target, relationType, now);
        ok == u.Some? && relations == (if ok then u.value else old(relations))
      ensures kbs == old(kbs) && contexts == old(contexts) && entities == old(entities)
      ensures links == old(links) && nextId == old(nextId)
    {
      UpsertCounts(relations, source, target, relationType, now);
      var u := Upserted(relations, source, target, relationType, now);
      ok := u.Some?;
      if ok {
        relations := u.value;
      }
    }

    /** mergeEntities: false when the UPDATE fails, in which case nothing
        changes. */
    method MergeEntities(source: Id, target: Id) returns (ok: bool)
      requires Valid()
      modifies this
      ensures Valid()
      ensures ok == !MergeFails(old(State()), source, target)
      ensures links == (if ok then MergedLinks(old(links), source, target) else old(links))
      ensures kbs == old(kbs) && contexts == old(contexts) && entities == old(entities)
      ensures relations == old(relations) && nextId == old(nextId)
    {
      ok := !MergeFails(State(), source, target);
      if ok {
        MergeMovesLinks(links, source, target);
        links := MergedLinks(links, source, target);
      }
    }

    /** The transaction rolls back: the tables return to the state they had
        when it began; ids already drawn from the sequence stay used. */
    method Rollback(saved: Tables)
      requires Valid()
      requires Consistent(saved) && IdsBelow(saved, nextId)
      modifies this
      ensures Valid()
      ensures State() == saved && nextId == old(nextId)
    {
      kbs := saved.kbs;
      contexts := saved.contexts;
      entities := saved.entities;
      links := saved.links;
      relations := saved.relations;
    }

    /** deleteByUid. */
    method DeleteByUid(uid: string)
      requires Valid()
      modifies this
      ensures Valid()
      ensures State() == DeletedByUid(old(State()), uid)
      ensures nextId == old(nextId)
    {
      DeleteByUidForgets(State(), uid);
      var r := DeletedByUid(State(), uid);
      kbs := r.kbs;
      contexts := r.contexts;
      links := r.links;
    }
  }
}
