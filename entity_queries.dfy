/** The reads of the entity repository: exact and case-insensitive name
    lookups, disambiguation of a name by vector similarity, similarity
    search with scores, and the two directions of the entity-context
    junction. mergeEntities, its one write, is Store.Database.MergeEntities. */
module EntityQueries {
  import opened Wrappers
  import opened Ordering
  import opened Store
  import opened Selects
  import Text

  function EntityVector(e: Entity): Vector {
    e.vector
  }

  /** findByName: the entity with exactly that name, if any. */
  function FindByName(t: Tables, name: string): (r: Result<Option<Row<Entity>>>)
    ensures r.Success? && r.value.Some? ==>
      var row := r.value.value;
      row.id in t.entities && t.entities[row.id] == row.data && row.data.name == name
    ensures r.Success? && r.value.None? <==> forall id :: id in t.entities ==> t.entities[id].name != name
  {
    SelectOne(t.entities, (row: Row<Entity>) => row.data.name == name)
  }

  /** findByNameIgnoreCase: the entity whose name equals the given one up
      to case, if any. */
  function FindByNameIgnoreCase(t: Tables, name: string): (r: Result<Option<Row<Entity>>>)
    ensures r.Success? && r.value.Some? ==>
      var row := r.value.value;
      row.id in t.entities && t.entities[row.id] == row.data && Text.EqualsIgnoreCase(row.data.name, name)
    ensures r.Success? && r.value.None? <==>
      forall id :: id in t.entities ==> !Text.EqualsIgnoreCase(t.entities[id].name, name)
  {
    SelectOne(t.entities, (row: Row<Entity>) => Text.EqualsIgnoreCase(row.data.name, name))
  }

  /** findIdByName: the id of the entity with exactly that name. */
  function FindIdByName(t: Tables, name: string): (r: Result<Option<Id>>)
    ensures r.Success? && r.value.Some? ==> r.value.value in t.entities && t.entities[r.value.value].name == name
    ensures r.Success? && r.value.None? <==> forall id :: id in t.entities ==> t.entities[id].name != name
  {
    var found := FindByName(t, name);
    if found.Failure? then Failure(found.error)
    else if found.value.None? then Success(None)
    else Success(Some(found.value.value.id))
  }

  /** The name lookups fail exactly when the name is shared by two
      entities; in a store whose names are unique they never fail, and they
      find an entity exactly when one has the name. */
  lemma FindByNameFailsOnSharedName(t: Tables, name: string)
    ensures FindByName(t, name).Failure? <==>
      exists a, b :: a in t.entities && b in t.entities && a != b && t.entities[a].name == name && t.entities[b].name == name
    ensures NamesUnique(t.entities) ==>
      FindByName(t, name).Success?
      && (FindByName(t, name).value.Some? <==> exists id :: id in t.entities && t.entities[id].name == name)
  {
    var p := (row: Row<Entity>) => row.data.name == name;
    SelectOneFails(t.entities, p);
    assert forall a :: a in t.entities ==> (p(Row(a, t.entities[a])) <==> t.entities[a].name == name);
  }

  /** The entities with exactly that name, in scan order. */
  function Named(t: Tables, name: string): (r: seq<Row<Entity>>)
    ensures Distinct(r)
    ensures forall row :: row in r <==> row.id in t.entities && t.entities[row.id] == row.data && row.data.name == name
  {
    var p := (row: Row<Entity>) => row.data.name == name;
    FilterDistinct(Scan(t.entities), p);
    Filter(Scan(t.entities), p)
  }

  /** disambiguateEntity: among the entities with exactly that name, the one
      nearest to the context vector. */
  function Disambiguate(t: Tables, name: string, q: Vector, dist: (Vector, Vector) -> real): (r: Option<Row<Entity>>)
    ensures r.None? <==> forall id :: id in t.entities ==> t.entities[id].name != name
    ensures r.Some? ==> r.value.id in t.entities && t.entities[r.value.id] == r.value.data && r.value.data.name == name
  {
    var p := (row: Row<Entity>) => row.data.name == name;
    assert forall id :: id in t.entities ==> (p(Row(id, t.entities[id])) <==> t.entities[id].name == name);
    ClosestWhere(t.entities, p, EntityVector, q, dist)
  }

  /** The entity disambiguation picks is at least as near to the context
      vector as every entity of that name. */
  lemma DisambiguatePicksNearest(t: Tables, name: string, q: Vector, dist: (Vector, Vector) -> real)
    requires Disambiguate(t, name, q, dist).Some?
    ensures forall id :: id in t.entities && t.entities[id].name == name ==>
      dist(Disambiguate(t, name, q, dist).value.data.vector, q) <= dist(t.entities[id].vector, q)
  {
    ClosestWhereIsNearest(t.entities, (row: Row<Entity>) => row.data.name == name, EntityVector, q, dist);
  }

  /** findSimilarEntities: the entities nearest to q. */
  function SimilarEntities(t: Tables, q: Vector, dist: (Vector, Vector) -> real, limit: int)
    : (r: Result<seq<Row<Entity>>>)
    ensures r.Failure? <==> limit < 0
    ensures r.Success? ==> |r.value| == (if limit < |t.entities| then limit else |t.entities|)
    ensures r.Success? ==> forall row :: row in r.value ==> row.id in t.entities && t.entities[row.id] == row.data
    ensures r.Success? ==> NearestFirst(r.value, EntityVector, q, dist)
  {
    Nearest(Scan(t.entities), EntityVector, q, dist, limit)
  }

  /** findSimilarEntities returns no entity twice, and every entity it
      leaves out is at least as far from q as every entity it returns. */
  lemma SimilarEntitiesIsNearest(t: Tables, q: Vector, dist: (Vector, Vector) -> real, limit: int)
    requires limit >= 0
    ensures Distinct(SimilarEntities(t, q, dist, limit).value)
    ensures NearestTop(SimilarEntities(t, q, dist, limit).value, Scan(t.entities), EntityVector, q, dist)
  {
    NearestIsTop(Scan(t.entities), EntityVector, q, dist, limit);
  }

  /** findSimilarEntitiesWithScore: [id, name, type, description,
      1 - distance], nearest first. */
  function SimilarEntitiesWithScore(t: Tables, q: Vector, dist: (Vector, Vector) -> real, limit: int)
    : (r: Result<seq<Scored<Entity>>>)
    ensures r.Failure? <==> limit < 0
    ensures r.Success? ==> |r.value| == (if limit < |t.entities| then limit else |t.entities|)
    ensures r.Success? ==> ScoresDescending(r.value)
    ensures r.Success? ==> forall i :: 0 <= i < |r.value| ==>
      var row := r.value[i].row;
      row.id in t.entities && t.entities[row.id] == row.data && r.value[i].score == 1.0 - dist(row.data.vector, q)
  {
    ScoredNearest(Scan(t.entities), EntityVector, q, dist, limit)
  }

  /** The scored entity search returns no entity twice and leaves out no
      entity that scores higher than one it returns. */
  lemma SimilarEntitiesWithScoreIsTop(t: Tables, q: Vector, dist: (Vector, Vector) -> real, limit: int)
    requires limit >= 0
    ensures RowsDistinct(SimilarEntitiesWithScore(t, q, dist, limit).value)
    ensures ScoredTop(SimilarEntitiesWithScore(t, q, dist, limit).value, Scan(t.entities), EntityVector, q, dist)
  {
    ScoredNearestIsTop(Scan(t.entities), EntityVector, q, dist, limit);
  }

  /** findContextsForEntity: the contexts the junction links to the entity,
      each once, in scan order. */
  function ContextsForEntity(t: Tables, entityId: Id): (r: seq<Row<Context>>)
    ensures Distinct(r)
    ensures forall row :: row in r <==>
      row.id in t.contexts && t.contexts[row.id] == row.data && Link(entityId, row.id) in t.links
  {
    var p := (row: Row<Context>) => Link(entityId, row.id) in t.links;
    FilterDistinct(Scan(t.contexts), p);
    Filter(Scan(t.contexts), p)
  }

  /** findEntitiesForContext: the entities the junction links to the
      context, each once, in scan order. */
  function EntitiesForContext(t: Tables, contextId: Id): (r: seq<Row<Entity>>)
    ensures Distinct(r)
    ensures forall row :: row in r <==>
      row.id in t.entities && t.entities[row.id] == row.data && Link(row.id, contextId) in t.links
  {
    var p := (row: Row<Entity>) => Link(row.id, contextId) in t.links;
    FilterDistinct(Scan(t.entities), p);
    Filter(Scan(t.entities), p)
  }

  /** The two junction reads agree: a context is listed for an entity
      exactly when the entity is listed for the context. */
  lemma JunctionReadsAgree(t: Tables, entityId: Id, contextId: Id)
    requires entityId in t.entities && contextId in t.contexts
    ensures Row(contextId, t.contexts[contextId]) in ContextsForEntity(t, entityId)
        <==> Row(entityId, t.entities[entityId]) in EntitiesForContext(t, contextId)
  {
  }
}
