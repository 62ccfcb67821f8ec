/** The reads of the relation repositories: the outgoing and incoming edges
    of an entity joined with the names at their other end, the two-hop
    traversal, the strongest edges, and the three exact finders. None of
    them writes: each is a function of the tables. */
module RelationQueries {
  import opened Wrappers
  import opened Ordering
  import opened Store

  /** [relation_type, target name, edge_weight]. */
  datatype OutgoingRow = OutgoingRow(relationType: string, targetName: string, edgeWeight: int)

  /** [source name, relation_type, edge_weight]. */
  datatype IncomingRow = IncomingRow(sourceName: string, relationType: string, edgeWeight: int)

  /** [source name, relation_type, target name, edge_weight]. */
  datatype TopRow = TopRow(sourceName: string, relationType: string, targetName: string, edgeWeight: int)

  /** The name of an entity, for an id the caller has joined on. */
  function NameOf(entities: map<Id, Entity>, id: Id): string {
    if id in entities then entities[id].name else ""
  }

  // ---------------------------------------------------------------- outgoing

  /** r.source_entity_id = :id, joined with the target entity. */
  predicate LeavesFrom(entities: map<Id, Entity>, id: Id, r: Relation) {
    r.source == id && r.target in entities
  }

  function AsOutgoing(entities: map<Id, Entity>, r: Relation): OutgoingRow {
    OutgoingRow(r.relationType, NameOf(entities, r.target), r.edgeWeight)
  }

  function OutgoingWeight(row: OutgoingRow): real {
    row.edgeWeight as real
  }

  /** findOutgoingRelations: ORDER BY edge_weight DESC; equal weights keep
      table order. */
  function Outgoing(t: Tables, id: Id): (r: seq<OutgoingRow>)
    ensures SortedDescBy(r, OutgoingWeight)
  {
    var edges := Filter(t.relations, (x: Relation) => LeavesFrom(t.entities, id, x));
    SortDescBy(Project(edges, (x: Relation) => AsOutgoing(t.entities, x)), OutgoingWeight)
  }

  /** The outgoing read lists exactly the edges leaving the entity whose
      target exists: a row is there exactly when such an edge gives it. */
  lemma OutgoingExact(t: Tables, id: Id)
    ensures forall x :: x in t.relations && LeavesFrom(t.entities, id, x) ==> AsOutgoing(t.entities, x) in Outgoing(t, id)
    ensures forall row :: row in Outgoing(t, id) ==>
      exists x :: x in t.relations && LeavesFrom(t.entities, id, x) && row == AsOutgoing(t.entities, x)
  {
    var p := (x: Relation) => LeavesFrom(t.entities, id, x);
    var f := (x: Relation) => AsOutgoing(t.entities, x);
    FilterProjectMembers(t.relations, p, f);
    SortDescByMembers(Project(Filter(t.relations, p), f), OutgoingWeight);
  }

  /** Each edge gives one row: with the relation key holding, there are as
      many outgoing rows as edges leaving the entity to an existing target. */
  lemma OutgoingCount(t: Tables, id: Id)
    requires KeysUnique(t.relations)
    ensures |Outgoing(t, id)| == |set x | x in t.relations && LeavesFrom(t.entities, id, x)|
  {
    var p := (x: Relation) => LeavesFrom(t.entities, id, x);
    var edges := Filter(t.relations, p);
    KeysUniqueDistinct(t.relations);
    FilterDistinct(t.relations, p);
    DistinctCard(edges);
    assert (set x | x in edges) == (set x | x in t.relations && LeavesFrom(t.entities, id, x));
  }

  /** Rows with unique keys are different rows. */
  lemma KeysUniqueDistinct(rels: seq<Relation>)
    requires KeysUnique(rels)
    ensures Distinct(rels)
  {
    forall i, j | 0 <= i < j < |rels|
      ensures rels[i] != rels[j]
    {
      assert !SameKey(rels[j], rels[i].source, rels[i].target, rels[i].relationType);
    }
  }

  // ---------------------------------------------------------------- incoming

  /** r.target_entity_id = :id, joined with the source entity. */
  predicate ArrivesAt(entities: map<Id, Entity>, id: Id, r: Relation) {
    r.target == id && r.source in entities
  }

  function AsIncoming(entities: map<Id, Entity>, r: Relation): IncomingRow {
    IncomingRow(NameOf(entities, r.source), r.relationType, r.edgeWeight)
  }

  /** findIncomingRelations, in table order (the query has no ORDER BY). */
  function Incoming(t: Tables, id: Id): (r: seq<IncomingRow>)
    ensures |r| <= |t.relations|
  {
    Project(Filter(t.relations, (x: Relation) => ArrivesAt(t.entities, id, x)), (x: Relation) => AsIncoming(t.entities, x))
  }

  /** The incoming read lists exactly the edges arriving at the entity whose
      source exists. */
  lemma IncomingExact(t: Tables, id: Id)
    ensures forall x :: x in t.relations && ArrivesAt(t.entities, id, x) ==> AsIncoming(t.entities, x) in Incoming(t, id)
    ensures forall row :: row in Incoming(t, id) ==>
      exists x :: x in t.relations && ArrivesAt(t.entities, id, x) && row == AsIncoming(t.entities, x)
  {
    FilterProjectMembers(t.relations, (x: Relation) => ArrivesAt(t.entities, id, x), (x: Relation) => AsIncoming(t.entities, x));
  }

  /** Each edge gives one row: with the relation key holding, there are as
      many incoming rows as edges arriving at the entity from an existing
      source. */
  lemma IncomingCount(t: Tables, id: Id)
    requires KeysUnique(t.relations)
    ensures |Incoming(t, id)| == |set x | x in t.relations && ArrivesAt(t.entities, id, x)|
  {
    var p := (x: Relation) => ArrivesAt(t.entities, id, x);
    var edges := Filter(t.relations, p);
    KeysUniqueDistinct(t.relations);
    FilterDistinct(t.relations, p);
    DistinctCard(edges);
    assert (set x | x in edges) == (set x | x in t.relations && ArrivesAt(t.entities, id, x));
  }

  // ---------------------------------------------------------------- two hops

  /** A path through the join r1 JOIN r2: the positions of r1 and r2 in the
      relations table. */
  datatype Path = Path(first: nat, second: nat)

  /** r1.source = :id, r1.target = r2.source, and r2's target exists. */
  predicate Hop(rels: seq<Relation>, entities: map<Id, Entity>, id: Id, p: Path) {
    p.first < |rels| && p.second < |rels|
    && rels[p.first].source == id && rels[p.first].target == rels[p.second].source
    && rels[p.second].target in entities
  }

  /** The paths starting with relation i whose second relation is at j or
      later, in table order. */
  function SecondHops(rels: seq<Relation>, entities: map<Id, Entity>, id: Id, i: nat, j: nat): (r: seq<Path>)
    ensures Distinct(r)
    ensures forall p :: p in r <==> p.first == i && j <= p.second && Hop(rels, entities, id, p)
    decreases |rels| - j
  {
    if j >= |rels| then []
    else
      var rest := SecondHops(rels, entities, id, i, j + 1);
      if Hop(rels, entities, id, Path(i, j)) then
        assert Path(i, j) !in rest;
        [Path(i, j)] + rest
      else rest
  }

  /** The paths whose first relation is at i or later, r1 by r1 in table
      order, as a nested-loop join produces them. */
  function Paths(rels: seq<Relation>, entities: map<Id, Entity>, id: Id, i: nat): (r: seq<Path>)
    ensures Distinct(r)
    ensures forall p :: p in r <==> i <= p.first && Hop(rels, entities, id, p)
    decreases |rels| - i
  {
    if i >= |rels| then []
    else
      var here := SecondHops(rels, entities, id, i, 0);
      var rest := Paths(rels, entities, id, i + 1);
      DistinctConcat(here, rest);
      here + rest
  }

  function PathTarget(t: Tables, p: Path): string {
    if p.second < |t.relations| then NameOf(t.entities, t.relations[p.second].target) else ""
  }

  /** findTwoHopConnections: the name at the end of every two-edge path from
      the entity, one per path; the same name may come back several times,
      the start entity's own among them. */
  function TwoHop(t: Tables, id: Id): (r: seq<string>)
    ensures var paths := Paths(t.relations, t.entities, id, 0);
      |r| == |paths|
      && forall k :: 0 <= k < |r| ==>
        Hop(t.relations, t.entities, id, paths[k])
        && r[k] == t.entities[t.relations[paths[k].second].target].name
  {
    var paths := Paths(t.relations, t.entities, id, 0);
    assert forall k :: 0 <= k < |paths| ==> paths[k] in paths;
    Project(paths, (p: Path) => PathTarget(t, p))
  }

  /** Each two-edge path from the entity gives exactly one result: the
      result count is the number of such paths. */
  lemma TwoHopCountsPaths(t: Tables, id: Id)
    ensures |TwoHop(t, id)| == |set p: Path | p in Paths(t.relations, t.entities, id, 0)|
    ensures forall p: Path :: p in Paths(t.relations, t.entities, id, 0) <==> Hop(t.relations, t.entities, id, p)
  {
    DistinctCard(Paths(t.relations, t.entities, id, 0));
  }

  /** An edge A -> B and an edge B -> A make A its own two-hop neighbour,
      and two routes to one entity return its name twice. */
  lemma TwoHopKeepsStartAndDuplicates()
    ensures var e := Entity("A", None, None, [], Json.JNull, 0);
      var f := Entity("B", None, None, [], Json.JNull, 0);
      var back := Relation(1, 0, "KNOWS", 1, Json.JNull, 0);
      var t := Tables(map[], map[], map[0 := e, 1 := f], {},
                      [Relation(0, 1, "KNOWS", 1, Json.JNull, 0), Relation(0, 1, "WORKS_WITH", 1, Json.JNull, 0), back]);
      TwoHop(t, 0) == ["A", "A"]
  {
    var e := Entity("A", None, None, [], Json.JNull, 0);
    var f := Entity("B", None, None, [], Json.JNull, 0);
    var back := Relation(1, 0, "KNOWS", 1, Json.JNull, 0);
    var t := Tables(map[], map[], map[0 := e, 1 := f], {},
                    [Relation(0, 1, "KNOWS", 1, Json.JNull, 0), Relation(0, 1, "WORKS_WITH", 1, Json.JNull, 0), back]);
    var rels := t.relations;
    assert SecondHops(rels, t.entities, 0, 2, 3) == [];
    assert SecondHops(rels, t.entities, 0, 2, 2) == [];
    assert SecondHops(rels, t.entities, 0, 2, 1) == [];
    assert SecondHops(rels, t.entities, 0, 2, 0) == [];
    assert SecondHops(rels, t.entities, 0, 1, 3) == [];
    assert SecondHops(rels, t.entities, 0, 1, 2) == [Path(1, 2)];
    assert SecondHops(rels, t.entities, 0, 1, 1) == [Path(1, 2)];
    assert SecondHops(rels, t.entities, 0, 1, 0) == [Path(1, 2)];
    assert SecondHops(rels, t.entities, 0, 0, 3) == [];
    assert SecondHops(rels, t.entities, 0, 0, 2) == [Path(0, 2)];
    assert SecondHops(rels, t.entities, 0, 0, 1) == [Path(0, 2)];
    assert SecondHops(rels, t.entities, 0, 0, 0) == [Path(0, 2)];
    assert Paths(rels, t.entities, 0, 3) == [];
    assert Paths(rels, t.entities, 0, 2) == [];
    assert Paths(rels, t.entities, 0, 1) == [Path(1, 2)];
    assert Paths(rels, t.entities, 0, 0) == [Path(0, 2), Path(1, 2)];
  }

  // ---------------------------------------------------------------- top

  /** Both ends of the edge exist. */
  predicate Joins(entities: map<Id, Entity>, r: Relation) {
    r.source in entities && r.target in entities
  }

  function AsTop(entities: map<Id, Entity>, r: Relation): TopRow {
    TopRow(NameOf(entities, r.source), r.relationType, NameOf(entities, r.target), r.edgeWeight)
  }

  function TopWeight(row: TopRow): real {
    row.edgeWeight as real
  }

  /** Ascending in this key is descending in weight. */
  function Lighter(row: TopRow): real {
    -(row.edgeWeight as real)
  }

  /** Every edge with both ends present, as a top-relations row. */
  function Joined(t: Tables): seq<TopRow> {
    Project(Filter(t.relations, (x: Relation) => Joins(t.entities, x)), (x: Relation) => AsTop(t.entities, x))
  }

  /** Every edge with both ends present gives a joined row. */
  lemma JoinedExact(t: Tables)
    ensures forall x :: x in t.relations && Joins(t.entities, x) ==> AsTop(t.entities, x) in Joined(t)
  {
    FilterProjectMembers(t.relations, (x: Relation) => Joins(t.entities, x), (x: Relation) => AsTop(t.entities, x));
  }

  /** findTopRelations: ORDER BY edge_weight DESC LIMIT :limit. */
  function Top(t: Tables, limit: int): (r: Result<seq<TopRow>>)
    ensures r.Failure? <==> limit < 0
    ensures r.Success? ==> |r.value| == (if limit < |Joined(t)| then limit else |Joined(t)|)
    ensures r.Success? ==> SortedDescBy(r.value, TopWeight)
  {
    var r := SortLimit(Joined(t), Lighter, limit);
    assert r.Success? ==> forall i, j :: 0 <= i < j < |r.value| ==> Lighter(r.value[i]) <= Lighter(r.value[j]);
    r
  }

  /** Every row of the top read comes from an edge with both ends present,
      and no joined edge it leaves out outweighs a row it returns. */
  lemma TopIsStrongest(t: Tables, limit: int)
    requires limit >= 0
    ensures var r := Top(t, limit).value;
      (forall row :: row in r ==> exists x :: x in t.relations && Joins(t.entities, x) && row == AsTop(t.entities, x))
      && forall row, i :: row in multiset(Joined(t)) - multiset(r) && 0 <= i < |r| ==> row.edgeWeight <= r[i].edgeWeight
  {
    var joined := Joined(t);
    var r := Top(t, limit).value;
    assert r == SortLimit(joined, Lighter, limit).value;
    SortLimitDrops(joined, Lighter, limit);
    JoinedFrom(t);
    HeaviestKept(joined, r);
  }

  /** Every joined row comes from an edge with both ends present. */
  lemma JoinedFrom(t: Tables)
    ensures forall row :: row in Joined(t) ==> exists x :: x in t.relations && Joins(t.entities, x) && row == AsTop(t.entities, x)
  {
    FilterProjectMembers(t.relations, (x: Relation) => Joins(t.entities, x), (x: Relation) => AsTop(t.entities, x));
  }

  /** Ranking by Lighter keeps the heaviest edges. */
  lemma HeaviestKept(joined: seq<TopRow>, r: seq<TopRow>)
    requires forall x, i :: x in multiset(joined) - multiset(r) && 0 <= i < |r| ==> Lighter(r[i]) <= Lighter(x)
    ensures forall row, i :: row in multiset(joined) - multiset(r) && 0 <= i < |r| ==> row.edgeWeight <= r[i].edgeWeight
  {
    forall row, i | row in multiset(joined) - multiset(r) && 0 <= i < |r|
      ensures row.edgeWeight <= r[i].edgeWeight
    {
      assert Lighter(r[i]) <= Lighter(row);
    }
  }

  // ---------------------------------------------------------------- finders

  /** findBySourceEntityId. */
  function BySource(t: Tables, source: Id): (r: seq<Relation>)
    ensures forall x :: x in r <==> x in t.relations && x.source == source
  {
    Filter(t.relations, (x: Relation) => x.source == source)
  }

  /** findByTargetEntityId. */
  function ByTarget(t: Tables, target: Id): (r: seq<Relation>)
    ensures forall x :: x in r <==> x in t.relations && x.target == target
  {
    Filter(t.relations, (x: Relation) => x.target == target)
  }

  /** findByRelationType: an exact, case-sensitive match. */
  function ByType(t: Tables, relationType: string): (r: seq<Relation>)
    ensures forall x :: x in r <==> x in t.relations && x.relationType == relationType
  {
    Filter(t.relations, (x: Relation) => x.relationType == relationType)
  }
}
