/** The asynchronous ingestion worker. A new knowledge base is cut into
    chunks, each chunk embedded and saved as a context in one batch; a new
    context is sent to the extraction model, its entities deduplicated by
    name and linked to the context, and its relations saved between the
    entities this context produced. Both handlers run in one transaction:
    an embedding failure rolls back whatever the handler had written. */
module IngestionWorker {
  import opened Wrappers
  import opened Json
  import opened Ordering
  import opened Store
  import opened Extraction
  import Text
  import Chunking
  import FixedChunking
  import EntityQueries
  import Responses

  // ------------------------------------------------------------ KB_CREATED

  /** The metadata of context i of total: its knowledge base, index, the
      chunk count, its length, and when processing started. */
  function ContextMetadata(kbId: Id, i: nat, total: nat, chunk: string, started: string): (r: Json)
    ensures r.Path("source_kb_id") == JString(IdText(kbId)) && r.Path("chunk_index") == JInt(i)
    ensures r.Path("total_chunks") == JInt(total) && r.Path("chunk_length") == JInt(|chunk|)
    ensures r.Path("processing_started") == JString(started)
  {
    JObject(map["source_kb_id" := JString(IdText(kbId)), "chunk_index" := JInt(i), "total_chunks" := JInt(total),
                "chunk_length" := JInt(|chunk|), "processing_started" := JString(started)])
  }

  /** Every chunk embeds. */
  predicate AllEmbed(chunks: seq<string>, embed: string -> Result<Vector>) {
    forall i :: 0 <= i < |chunks| ==> embed(chunks[i]).Success?
  }

  /** Context i: chunk i with index i, its embedding and its metadata. */
  function ContextAt(kbId: Id, chunks: seq<string>, i: nat, embed: string -> Result<Vector>, started: string,
                     now: Instant): Context
    requires i < |chunks| && embed(chunks[i]).Success?
  {
    Context(kbId, chunks[i], Some(i), embed(chunks[i]).value, ContextMetadata(kbId, i, |chunks|, chunks[i], started), now)
  }

  /** The batch handleKbCreated saves. */
  function ContextsOf(kbId: Id, chunks: seq<string>, embed: string -> Result<Vector>, started: string, now: Instant)
    : (r: seq<Context>)
    requires AllEmbed(chunks, embed)
    ensures |r| == |chunks|
    ensures forall i :: 0 <= i < |r| ==> r[i] == ContextAt(kbId, chunks, i, embed, started, now)
  {
    seq(|chunks|, i requires 0 <= i < |chunks| => ContextAt(kbId, chunks, i, embed, started, now))
  }

  /** The chunks of a knowledge base's content, cut by the corrected
      chunker with the default window of 1000 chars and overlap 200. */
  function ChunksOf(content: string): seq<string> {
    FixedChunking.FixedChunked(Some(content), Chunking.DefaultChunkSize, Chunking.DefaultOverlap)
  }

  /** handleKbCreated. embed stands for the embedding call, started for the
      processing start stamp and now for the persist time. false is an
      embedding failure escaping the handler; nothing is then written. */
  method HandleKbCreated(db: Database, kbId: Id, embed: string -> Result<Vector>, started: string, now: Instant)
    returns (ok: bool)
    requires db.Valid()
    modifies db
    ensures db.Valid()
    ensures kbId !in old(db.kbs) ==> ok && db.State() == old(db.State()) && db.nextId == old(db.nextId)
    ensures kbId in old(db.kbs) ==>
      var chunks := ChunksOf(old(db.kbs)[kbId].content);
      ok == AllEmbed(chunks, embed)
      && (!ok ==> db.State() == old(db.State()) && db.nextId == old(db.nextId))
      && (ok ==>
        db.contexts == old(db.contexts) + Numbered(old(db.nextId), ContextsOf(kbId, chunks, embed, started, now))
        && db.nextId == old(db.nextId) + |chunks|
        && db.kbs == old(db.kbs) && db.entities == old(db.entities)
        && db.links == old(db.links) && db.relations == old(db.relations))
  {
    if kbId !in db.kbs {
      return true;
    }
    var kb := db.kbs[kbId];
    var chunks := FixedChunking.FixedChunkText(Some(kb.content), Chunking.DefaultChunkSize, Chunking.DefaultOverlap);
    var batch := EmbedChunks(kbId, chunks, embed, started, now);
    if batch.None? {
      return false;
    }
    var ids := db.SaveContexts(batch.value);
    return true;
  }

  /** The loop of handleKbCreated: embed chunk after chunk and build its
      context, giving up at the first embedding failure. */
  method EmbedChunks(kbId: Id, chunks: seq<string>, embed: string -> Result<Vector>, started: string, now: Instant)
    returns (batch: Option<seq<Context>>)
    ensures batch.Some? <==> AllEmbed(chunks, embed)
    ensures batch.Some? ==> batch.value == ContextsOf(kbId, chunks, embed, started, now)
  {
    var contexts: seq<Context> := [];
    var i := 0;
    while i < |chunks|
      invariant 0 <= i <= |chunks|
      invariant forall k :: 0 <= k < i ==> embed(chunks[k]).Success?
      invariant |contexts| == i
      invariant forall k :: 0 <= k < i ==> contexts[k] == ContextAt(kbId, chunks, k, embed, started, now)
    {
      if embed(chunks[i]).Failure? {
        return None;
      }
      contexts := contexts + [ContextAt(kbId, chunks, i, embed, started, now)];
      i := i + 1;
    }
    return Some(contexts);
  }

  /** The batch holds one context per chunk, in chunk order: context i
      carries chunk i and index i, its metadata records index i of the
      chunk count, and every chunk is non-empty, trimmed and at most one
      char over the window. */
  lemma ContextsFollowChunks(kbId: Id, content: string, embed: string -> Result<Vector>, started: string, now: Instant)
    requires AllEmbed(ChunksOf(content), embed)
    ensures var chunks := ChunksOf(content);
      var batch := ContextsOf(kbId, chunks, embed, started, now);
      |batch| == |chunks|
      && forall i :: 0 <= i < |batch| ==>
        batch[i].kbId == kbId && batch[i].textChunk == chunks[i] && batch[i].chunkIndex == Some(i)
        && batch[i].metadata.Path("chunk_index") == JInt(i)
        && batch[i].metadata.Path("total_chunks") == JInt(|chunks|)
        && batch[i].textChunk != [] && Text.IsTrimmed(batch[i].textChunk)
        && |batch[i].textChunk| <= Chunking.DefaultChunkSize + 1
  {
    var chunks := ChunksOf(content);
    var batch := ContextsOf(kbId, chunks, embed, started, now);
    FixedChunking.FixedChunksAreGood(content, Chunking.DefaultChunkSize, Chunking.DefaultOverlap, 0);
    forall i | 0 <= i < |batch|
      ensures batch[i].textChunk != [] && Text.IsTrimmed(batch[i].textChunk)
      ensures |batch[i].textChunk| <= Chunking.DefaultChunkSize + 1
    {
      assert batch[i].textChunk == chunks[i];
      assert chunks[i] in chunks;
    }
  }

  // ------------------------------------------------------- CONTEXT_CREATED

  /** The metadata every entity and relation of one context run carries:
      where it came from, when extraction started, and how. */
  function Provenance(kbId: Id, contextId: Id, started: string): (r: Json)
    ensures r.Path("source_kb_id") == JString(IdText(kbId))
    ensures r.Path("source_context_id") == JString(IdText(contextId))
    ensures r.Path("extraction_started") == JString(started) && r.Path("extraction_method") == JString("llm")
    ensures !r.Has("type") && !r.Has("description")
  {
    JObject(map["source_kb_id" := JString(IdText(kbId)), "source_context_id" := JString(IdText(contextId)),
                "extraction_started" := JString(started), "extraction_method" := JString("llm")])
  }

  /** The text an extracted entity is embedded by: its name, a space, its
      description. */
  function EmbeddingText(e: ExtractedEntity): string {
    e.name + " " + e.description
  }

  /** The row built for an extracted entity seen for the first time. */
  function NewEntity(e: ExtractedEntity, vector: Vector, metadata: Json, now: Instant): Entity {
    Entity(e.name, Some(e.entityType), Some(e.description), vector, metadata, now)
  }

  /** Where the entity phase stands: the tables, the next id the sequence
      hands out, and the ids of the entities this context produced so far,
      in extraction order. */
  datatype Progress = Progress(t: Tables, next: Id, saved: seq<Id>)

  /** One pass of the entity loop. A name already stored links its entity
      to the context (when not yet linked) and reuses it without embedding
      anything; a new name is embedded and saved, linked to the context.
      A failing lookup or embedding is an exception that ends the run. */
  function EntityStep(p: Progress, e: ExtractedEntity, contextId: Id, metadata: Json,
                      embed: string -> Result<Vector>, now: Instant): Result<Progress>
  {
    var found := EntityQueries.FindByName(p.t, e.name);
    if found.Failure? then Failure(found.error)
    else if found.value.Some? then
      var id := found.value.value.id;
      Success(Progress(p.t.(links := p.t.links + {Link(id, contextId)}), p.next, p.saved + [id]))
    else
      var v := embed(EmbeddingText(e));
      if v.Failure? then Failure(v.error)
      else
        var entities := p.t.entities[p.next := NewEntity(e, v.value, metadata, now)];
        Success(Progress(p.t.(entities := entities, links := p.t.links + {Link(p.next, contextId)}),
                         p.next + 1, p.saved + [p.next]))
  }

  /** The entity loop over the extracted entities in order. */
  function EntitySteps(p: Progress, es: seq<ExtractedEntity>, contextId: Id, metadata: Json,
                       embed: string -> Result<Vector>, now: Instant): Result<Progress>
    decreases |es|
  {
    if es == [] then Success(p)
    else
      var q := EntitySteps(p, es[..|es| - 1], contextId, metadata, embed, now);
      if q.Failure? then q else EntityStep(q.value, es[|es| - 1], contextId, metadata, embed, now)
  }

  /** The first entity of this context's run whose name equals the given
      one up to case. */
  function Resolve(entities: map<Id, Entity>, saved: seq<Id>, name: string): (r: Option<Id>)
    ensures r.Some? ==> r.value in saved && r.value in entities && Text.EqualsIgnoreCase(entities[r.value].name, name)
  {
    FirstMatch(saved, (id: Id) => id in entities && Text.EqualsIgnoreCase(entities[id].name, name))
  }

  /** One pass of the relation loop: saved with weight 1 when both ends
      resolve among this run's entities, skipped otherwise. */
  function RelationStep(rels: seq<Relation>, entities: map<Id, Entity>, saved: seq<Id>, r: ExtractedRelation,
                        metadata: Json, now: Instant): seq<Relation>
  {
    var source := Resolve(entities, saved, r.sourceName);
    var target := Resolve(entities, saved, r.targetName);
    if source.Some? && target.Some? then SavedRelation(rels, source.value, target.value, r.relationType, metadata, now)
    else rels
  }

  /** The relation loop over the extracted relations in order. */
  function RelationSteps(rels: seq<Relation>, entities: map<Id, Entity>, saved: seq<Id>, rs: seq<ExtractedRelation>,
                         metadata: Json, now: Instant): seq<Relation>
    decreases |rs|
  {
    if rs == [] then rels
    else RelationStep(RelationSteps(rels, entities, saved, rs[..|rs| - 1], metadata, now), entities, saved,
                      rs[|rs| - 1], metadata, now)
  }

  /** What handleContextCreated does to the store when the context exists:
      extraction, the entity loop, then the relation loop; a failure of the
      entity loop rolls the whole run back. */
  function ContextHandled(t: Tables, next: Id, contextId: Id, complete: string -> Result<Option<string>>,
                          parse: string -> Option<Json>, embed: string -> Result<Vector>, started: string,
                          now: Instant): Result<Progress>
    requires contextId in t.contexts
  {
    var ctx := t.contexts[contextId];
    var x := Extracted(Some(ctx.textChunk), complete, parse).value;
    var metadata := Provenance(ctx.kbId, contextId, started);
    var p := EntitySteps(Progress(t, next, []), x.entities, contextId, metadata, embed, now);
    if p.Failure? then p
    else
      var rels := RelationSteps(p.value.t.relations, p.value.t.entities, p.value.saved, x.relations, metadata, now);
      Success(p.value.(t := p.value.t.(relations := rels)))
  }

  /** handleContextCreated. complete and parse stand for the chat model and
      the JSON parser of the extraction, embed for the embedding call,
      started for the extraction start stamp and now for the persist time.
      false is an exception escaping the handler, after which the store is
      as it was. */
  method HandleContextCreated(db: Database, contextId: Id, complete: string -> Result<Option<string>>,
                              parse: string -> Option<Json>, embed: string -> Result<Vector>, started: string,
                              now: Instant) returns (ok: bool)
    requires db.Valid()
    modifies db
    ensures db.Valid()
    ensures contextId !in old(db.contexts) ==> ok && db.State() == old(db.State()) && db.nextId == old(db.nextId)
    ensures contextId in old(db.contexts) ==>
      var r := ContextHandled(old(db.State()), old(db.nextId), contextId, complete, parse, embed, started, now);
      ok == r.Success?
      && (ok ==> db.State() == r.value.t && db.nextId == r.value.next)
      && (!ok ==> db.State() == old(db.State()))
  {
    if contextId !in db.contexts {
      return true;
    }
    var snapshot := db.State();
    var ctx := db.contexts[contextId];
    var extraction := ExtractFromText(Some(ctx.textChunk), complete, parse);
    var metadata := Provenance(ctx.kbId, contextId, started);
    var saved := SaveEntities(db, extraction.value.entities, contextId, metadata, embed, now);
    if saved.None? {
      db.Rollback(snapshot);
      return false;
    }
    SaveRelations(db, saved.value, extraction.value.relations, metadata, now);
    return true;
  }

  /** The store is consistent, the context is present, and the sequence
      has not gone back past floor. */
  ghost predicate Ready(db: Database, contextId: Id, floor: Id)
    reads db
  {
    db.Valid() && contextId in db.contexts && db.nextId >= floor
  }

  /** The entity loop. None is the exception that ends the run; the store
      is then left for the caller to roll back. */
  method SaveEntities(db: Database, es: seq<ExtractedEntity>, contextId: Id, metadata: Json,
                      embed: string -> Result<Vector>, now: Instant) returns (saved: Option<seq<Id>>)
    requires db.Valid() && contextId in db.contexts
    modifies db
    ensures Ready(db, contextId, old(db.nextId))
    ensures var r := EntitySteps(Progress(old(db.State()), old(db.nextId), []), es, contextId, metadata, embed, now);
      saved.Some? == r.Success? && (saved.Some? ==> r.value == Progress(db.State(), db.nextId, saved.value))
  {
    ghost var start := Progress(db.State(), db.nextId, []);
    var ids: seq<Id> := [];
    var i := 0;
    while i < |es|
      invariant start.next == old(db.nextId)
      invariant EntityLoop(db, start, es, i, ids, contextId, metadata, embed, now)
    {
      var id := SaveNext(db, start, es, i, ids, contextId, metadata, embed, now);
      if id.None? {
        return None;
      }
      ids := ids + [id.value];
      i := i + 1;
    }
    assert es[..i] == es;
    return Some(ids);
  }

  /** Pass i of the entity loop, on the whole loop state. */
  method SaveNext(db: Database, ghost start: Progress, es: seq<ExtractedEntity>, i: nat, ghost ids: seq<Id>,
                  contextId: Id, metadata: Json, embed: string -> Result<Vector>, now: Instant) returns (id: Option<Id>)
    requires i < |es| && EntityLoop(db, start, es, i, ids, contextId, metadata, embed, now)
    modifies db
    ensures id.None? ==>
      Ready(db, contextId, start.next) && EntitySteps(start, es, contextId, metadata, embed, now).Failure?
    ensures id.Some? ==> EntityLoop(db, start, es, i + 1, ids + [id.value], contextId, metadata, embed, now)
  {
    EntityLoopNext(start, es, i, Progress(db.State(), db.nextId, ids), contextId, metadata, embed, now);
    id := SaveEntity(db, ids, es[i], contextId, metadata, embed, now);
    if id.None? {
      EntityStepsFailureSticks(start, es, i + 1, contextId, metadata, embed, now);
    }
  }

  /** The entity loop has run i passes without failing from start and
      reached the store's current state. */
  ghost predicate EntityLoop(db: Database, start: Progress, es: seq<ExtractedEntity>, i: int, ids: seq<Id>,
                             contextId: Id, metadata: Json, embed: string -> Result<Vector>, now: Instant)
    reads db
  {
    0 <= i <= |es| && Ready(db, contextId, start.next)
    && EntitySteps(start, es[..i], contextId, metadata, embed, now) == Success(Progress(db.State(), db.nextId, ids))
  }

  /** Pass i follows the first i passes. */
  lemma EntityLoopNext(start: Progress, es: seq<ExtractedEntity>, i: nat, p: Progress, contextId: Id, metadata: Json,
                       embed: string -> Result<Vector>, now: Instant)
    requires i < |es| && EntitySteps(start, es[..i], contextId, metadata, embed, now) == Success(p)
    ensures EntitySteps(start, es[..i + 1], contextId, metadata, embed, now)
      == EntityStep(p, es[i], contextId, metadata, embed, now)
  {
    assert es[..i + 1][..i] == es[..i];
  }

  /** Once a pass of the entity loop fails, the whole loop fails. */
  lemma {:induction false} EntityStepsFailureSticks(p: Progress, es: seq<ExtractedEntity>, k: nat, contextId: Id,
                                                    metadata: Json, embed: string -> Result<Vector>, now: Instant)
    requires k <= |es| && EntitySteps(p, es[..k], contextId, metadata, embed, now).Failure?
    ensures EntitySteps(p, es, contextId, metadata, embed, now).Failure?
    decreases |es|
  {
    if k < |es| {
      var front := es[..|es| - 1];
      assert front[..k] == es[..k];
      EntityStepsFailureSticks(p, front, k, contextId, metadata, embed, now);
    } else {
      assert es[..k] == es;
    }
  }

  /** The relation loop. */
  method SaveRelations(db: Database, saved: seq<Id>, rs: seq<ExtractedRelation>, metadata: Json, now: Instant)
    requires db.Valid()
    modifies db
    ensures db.Valid()
    ensures db.relations == RelationSteps(old(db.relations), old(db.entities), saved, rs, metadata, now)
    ensures db.kbs == old(db.kbs) && db.contexts == old(db.contexts) && db.entities == old(db.entities)
    ensures db.links == old(db.links) && db.nextId == old(db.nextId)
  {
    var i := 0;
    while i < |rs|
      invariant 0 <= i <= |rs|
      invariant db.Valid()
      invariant db.relations == RelationSteps(old(db.relations), old(db.entities), saved, rs[..i], metadata, now)
      invariant db.kbs == old(db.kbs) && db.contexts == old(db.contexts) && db.entities == old(db.entities)
      invariant db.links == old(db.links) && db.nextId == old(db.nextId)
    {
      assert rs[..i + 1][..i] == rs[..i];
      SaveRelation(db, saved, rs[i], metadata, now);
      i := i + 1;
    }
    assert rs[..i] == rs;
  }

  /** One pass of the relation loop. */
  method SaveRelation(db: Database, saved: seq<Id>, r: ExtractedRelation, metadata: Json, now: Instant)
    requires db.Valid()
    modifies db
    ensures db.Valid()
    ensures db.relations == RelationStep(old(db.relations), db.entities, saved, r, metadata, now)
    ensures db.kbs == old(db.kbs) && db.contexts == old(db.contexts) && db.entities == old(db.entities)
    ensures db.links == old(db.links) && db.nextId == old(db.nextId)
  {
    var source := Resolve(db.entities, saved, r.sourceName);
    var target := Resolve(db.entities, saved, r.targetName);
    if source.Some? && target.Some? {
      db.SaveRelation(source.value, target.value, r.relationType, metadata, now);
    }
  }

  /** One pass of the entity loop; None is the embedding failure. */
  method SaveEntity(db: Database, ghost ids: seq<Id>, e: ExtractedEntity, contextId: Id, metadata: Json,
                    embed: string -> Result<Vector>, now: Instant) returns (id: Option<Id>)
    requires Ready(db, contextId, 0)
    modifies db
    ensures Ready(db, contextId, old(db.nextId))
    ensures var r := EntityStep(Progress(old(db.State()), old(db.nextId), ids), e, contextId, metadata, embed, now);
      id.Some? == r.Success?
      && (id.Some? ==> r.value == Progress(db.State(), db.nextId, ids + [id.value]))
  {
    EntityQueries.FindByNameFailsOnSharedName(db.State(), e.name);
    var found := EntityQueries.FindByName(db.State(), e.name);
    if found.value.Some? {
      ReuseEntity(db, ids, e, found.value.value.id, contextId, metadata, embed, now);
      return Some(found.value.value.id);
    }
    var v := embed(EmbeddingText(e));
    if v.Failure? {
      return None;
    }
    var created := CreateEntity(db, ids, e, v.value, contextId, metadata, embed, now);
    return Some(created);
  }

  /** The pass over a name already stored: link its entity. */
  method ReuseEntity(db: Database, ghost ids: seq<Id>, e: ExtractedEntity, id: Id, contextId: Id, metadata: Json,
                     embed: string -> Result<Vector>, now: Instant)
    requires Ready(db, contextId, 0) && id in db.entities && db.entities[id].name == e.name
    modifies db
    ensures Ready(db, contextId, old(db.nextId))
    ensures EntityStep(Progress(old(db.State()), old(db.nextId), ids), e, contextId, metadata, embed, now)
      == Success(Progress(db.State(), db.nextId, ids + [id]))
  {
    ExistingNameIsReused(Progress(db.State(), db.nextId, ids), e, id, contextId, metadata, embed, embed, now);
    LinkExisting(db, id, contextId);
  }

  /** The pass over a new name whose text embedded to v: save the entity. */
  method CreateEntity(db: Database, ghost ids: seq<Id>, e: ExtractedEntity, v: Vector, contextId: Id, metadata: Json,
                      embed: string -> Result<Vector>, now: Instant) returns (created: Id)
    requires Ready(db, contextId, 0) && embed(EmbeddingText(e)) == Success(v)
    requires forall x :: x in db.entities ==> db.entities[x].name != e.name
    modifies db
    ensures Ready(db, contextId, old(db.nextId))
    ensures EntityStep(Progress(old(db.State()), old(db.nextId), ids), e, contextId, metadata, embed, now)
      == Success(Progress(db.State(), db.nextId, ids + [created]))
  {
    ghost var t := db.State();
    NewNameIsCreated(Progress(t, db.nextId, ids), e, contextId, metadata, embed, now);
    created := db.SaveEntity(NewEntity(e, v, metadata, now), contextId);
    assert db.State() == t.(entities := t.entities[created := NewEntity(e, v, metadata, now)],
                            links := t.links + {Link(created, contextId)});
  }

  lemma AddPresent<T>(s: set<T>, x: T)
    requires x in s
    ensures s + {x} == s
  {
  }

  /** An entity found by name is linked to the context unless it already is. */
  method LinkExisting(db: Database, entity: Id, contextId: Id)
    requires db.Valid() && entity in db.entities && contextId in db.contexts
    modifies db
    ensures db.Valid() && db.nextId == old(db.nextId)
    ensures db.State() == old(db.State()).(links := old(db.links) + {Link(entity, contextId)})
  {
    if Link(entity, contextId) !in db.links {
      db.LinkContext(entity, contextId);
    } else {
      AddPresent(db.links, Link(entity, contextId));
    }
  }

  // ------------------------------------------------ properties of the run

  /** No id in use lies at or past the sequence, and no two entities share
      a name. */
  ghost predicate Fresh(p: Progress) {
    NamesUnique(p.t.entities) && forall id :: id in p.t.entities ==> id < p.next
  }

  /** q is p after more passes: the other tables are as they were, links
      were only added, every entity of p is still there unchanged, and the
      run's ids only grew at the end. */
  ghost predicate Grows(p: Progress, q: Progress) {
    q.t.kbs == p.t.kbs && q.t.contexts == p.t.contexts && q.t.relations == p.t.relations
    && p.t.links <= q.t.links && p.next <= q.next
    && (forall id :: id in p.t.entities ==> id in q.t.entities && q.t.entities[id] == p.t.entities[id])
    && |p.saved| <= |q.saved| && q.saved[..|p.saved|] == p.saved
  }

  /** Entry k of ids is an entity bearing extracted entity k's name and
      linked to the context. */
  ghost predicate Recorded(t: Tables, ids: seq<Id>, es: seq<ExtractedEntity>, contextId: Id) {
    |ids| == |es|
    && forall k :: 0 <= k < |es| ==>
      ids[k] in t.entities && t.entities[ids[k]].name == es[k].name && Link(ids[k], contextId) in t.links
  }

  /** Every entity q has and p had not was built from one of the extracted
      entities, with the run's metadata and time, under an id the sequence
      handed out during the run. */
  ghost predicate Created(p: Progress, q: Progress, es: seq<ExtractedEntity>, metadata: Json, now: Instant) {
    forall id :: id in q.t.entities && id !in p.t.entities ==>
      p.next <= id < q.next && q.t.entities[id].metadata == metadata && q.t.entities[id].createdAt == now
      && exists k :: 0 <= k < |es| && q.t.entities[id] == NewEntity(es[k], q.t.entities[id].vector, metadata, now)
  }

  /** A pass over a name already stored reuses that entity: it creates
      nothing, calls no embedding (any two embedding functions give the
      same result), and only links the entity to the context. */
  lemma ExistingNameIsReused(p: Progress, e: ExtractedEntity, id: Id, contextId: Id, metadata: Json,
                             embed: string -> Result<Vector>, other: string -> Result<Vector>, now: Instant)
    requires NamesUnique(p.t.entities) && id in p.t.entities && p.t.entities[id].name == e.name
    ensures EntityStep(p, e, contextId, metadata, embed, now) == EntityStep(p, e, contextId, metadata, other, now)
    ensures EntityStep(p, e, contextId, metadata, embed, now)
      == Success(Progress(p.t.(links := p.t.links + {Link(id, contextId)}), p.next, p.saved + [id]))
  {
    EntityQueries.FindByNameFailsOnSharedName(p.t, e.name);
  }

  /** A pass over a new name whose text embeds creates exactly one entity,
      under the next id, carrying the extracted name, type and description,
      the run's metadata, and a link to the context; names stay unique. */
  lemma NewNameIsCreated(p: Progress, e: ExtractedEntity, contextId: Id, metadata: Json,
                         embed: string -> Result<Vector>, now: Instant)
    requires Fresh(p) && forall id :: id in p.t.entities ==> p.t.entities[id].name != e.name
    requires embed(EmbeddingText(e)).Success?
    ensures var r := EntityStep(p, e, contextId, metadata, embed, now);
      var created := Entity(e.name, Some(e.entityType), Some(e.description), embed(EmbeddingText(e)).value,
                            metadata, now);
      r == Success(Progress(p.t.(entities := p.t.entities[p.next := created],
                                 links := p.t.links + {Link(p.next, contextId)}), p.next + 1, p.saved + [p.next]))
      && p.next !in p.t.entities && Fresh(r.value)
  {
    EntityQueries.FindByNameFailsOnSharedName(p.t, e.name);
    assert EntityQueries.FindByName(p.t, e.name) == Success(None);
    var created := NewEntity(e, embed(EmbeddingText(e)).value, metadata, now);
    FreshAfterCreate(p, created, contextId);
  }

  /** Adding an entity under the next id with a name no entity has keeps
      names unique and ids fresh. */
  lemma FreshAfterCreate(p: Progress, created: Entity, contextId: Id)
    requires Fresh(p) && forall id :: id in p.t.entities ==> p.t.entities[id].name != created.name
    ensures p.next !in p.t.entities
    ensures Fresh(Progress(p.t.(entities := p.t.entities[p.next := created],
                                links := p.t.links + {Link(p.next, contextId)}), p.next + 1, p.saved + [p.next]))
  {
  }

  /** One pass keeps names unique and ids fresh, records the entity under
      the extracted name, and creates at most the one entity built from it. */
  lemma EntityStepGrows(p: Progress, e: ExtractedEntity, contextId: Id, metadata: Json,
                        embed: string -> Result<Vector>, now: Instant)
    requires Fresh(p)
    ensures var r := EntityStep(p, e, contextId, metadata, embed, now);
      r.Success? ==>
        Fresh(r.value) && Grows(p, r.value) && |r.value.saved| == |p.saved| + 1
        && Recorded(r.value.t, [r.value.saved[|p.saved|]], [e], contextId)
        && Created(p, r.value, [e], metadata, now)
  {
    var r := EntityStep(p, e, contextId, metadata, embed, now);
    if r.Success? {
      EntityQueries.FindByNameFailsOnSharedName(p.t, e.name);
      var found := EntityQueries.FindByName(p.t, e.name);
      if found.value.Some? {
        var id := found.value.value.id;
        ExistingNameIsReused(p, e, id, contextId, metadata, embed, embed, now);
        LinkGrows(p, e, id, contextId, metadata, now);
      } else {
        NewNameIsCreated(p, e, contextId, metadata, embed, now);
        CreateGrows(p, e, embed(EmbeddingText(e)).value, contextId, metadata, now);
      }
    }
  }

  /** The shape of a pass that reuses entity id. */
  lemma LinkGrows(p: Progress, e: ExtractedEntity, id: Id, contextId: Id, metadata: Json, now: Instant)
    requires Fresh(p) && id in p.t.entities && p.t.entities[id].name == e.name
    ensures var q := Progress(p.t.(links := p.t.links + {Link(id, contextId)}), p.next, p.saved + [id]);
      Fresh(q) && Grows(p, q) && |q.saved| == |p.saved| + 1 && Recorded(q.t, [q.saved[|p.saved|]], [e], contextId)
      && Created(p, q, [e], metadata, now)
  {
    var q := Progress(p.t.(links := p.t.links + {Link(id, contextId)}), p.next, p.saved + [id]);
    assert q.saved[..|p.saved|] == p.saved;
  }

  /** The shape of a pass that creates an entity from e. */
  lemma CreateGrows(p: Progress, e: ExtractedEntity, vector: Vector, contextId: Id, metadata: Json, now: Instant)
    requires Fresh(p) && p.next !in p.t.entities
    ensures var q := Progress(p.t.(entities := p.t.entities[p.next := NewEntity(e, vector, metadata, now)],
                                   links := p.t.links + {Link(p.next, contextId)}), p.next + 1, p.saved + [p.next]);
      Grows(p, q) && |q.saved| == |p.saved| + 1 && Recorded(q.t, [q.saved[|p.saved|]], [e], contextId)
      && Created(p, q, [e], metadata, now)
  {
    var q := Progress(p.t.(entities := p.t.entities[p.next := NewEntity(e, vector, metadata, now)],
                           links := p.t.links + {Link(p.next, contextId)}), p.next + 1, p.saved + [p.next]);
    assert q.saved[..|p.saved|] == p.saved;
    assert q.t.entities[p.next] == NewEntity([e][0], q.t.entities[p.next].vector, metadata, now);
  }

  /** The entity loop keeps names unique and ids fresh, leaves the other
      tables and every entity it found as they were, records one entity per
      extracted entity (by name, linked to the context), and creates only
      entities built from the extraction. In particular it never stores a
      second entity under a name already taken. */
  lemma {:induction false} EntityStepsGrow(p: Progress, es: seq<ExtractedEntity>, contextId: Id, metadata: Json,
                                           embed: string -> Result<Vector>, now: Instant)
    requires Fresh(p)
    ensures var r := EntitySteps(p, es, contextId, metadata, embed, now);
      r.Success? ==>
        Fresh(r.value) && Grows(p, r.value) && |r.value.saved| == |p.saved| + |es|
        && Recorded(r.value.t, r.value.saved[|p.saved|..], es, contextId)
        && Created(p, r.value, es, metadata, now)
    decreases |es|
  {
    if es != [] {
      var front := es[..|es| - 1];
      var e := es[|es| - 1];
      assert es == front + [e];
      EntityStepsGrow(p, front, contextId, metadata, embed, now);
      var q := EntitySteps(p, front, contextId, metadata, embed, now);
      if q.Success? {
        EntityStepGrows(q.value, e, contextId, metadata, embed, now);
        var r := EntityStep(q.value, e, contextId, metadata, embed, now);
        if r.Success? {
          GrowsTransitive(p, q.value, r.value);
          RecordedExtend(p, q.value, r.value, front, e, contextId);
          CreatedExtend(p, q.value, r.value, front, e, metadata, now);
        }
      }
    }
  }

  lemma GrowsTransitive(a: Progress, b: Progress, c: Progress)
    requires Grows(a, b) && Grows(b, c)
    ensures Grows(a, c)
  {
    assert c.saved[..|a.saved|] == c.saved[..|b.saved|][..|a.saved|];
  }

  lemma RecordedExtend(a: Progress, b: Progress, c: Progress, es: seq<ExtractedEntity>, e: ExtractedEntity,
                       contextId: Id)
    requires Grows(a, b) && Grows(b, c)
    requires |b.saved| == |a.saved| + |es| && |c.saved| == |b.saved| + 1
    requires Recorded(b.t, b.saved[|a.saved|..], es, contextId)
    requires Recorded(c.t, [c.saved[|b.saved|]], [e], contextId)
    ensures Recorded(c.t, c.saved[|a.saved|..], es + [e], contextId)
  {
    var ids := c.saved[|a.saved|..];
    forall k | 0 <= k < |es| + 1
      ensures ids[k] in c.t.entities && c.t.entities[ids[k]].name == (es + [e])[k].name
      ensures Link(ids[k], contextId) in c.t.links
    {
      if k < |es| {
        assert ids[k] == c.saved[..|b.saved|][|a.saved| + k] == b.saved[|a.saved|..][k];
        assert (es + [e])[k] == es[k];
      } else {
        assert ids[k] == [c.saved[|b.saved|]][0];
        assert (es + [e])[k] == [e][0];
      }
    }
  }

  lemma CreatedExtend(a: Progress, b: Progress, c: Progress, es: seq<ExtractedEntity>, e: ExtractedEntity,
                      metadata: Json, now: Instant)
    requires Grows(a, b) && Grows(b, c)
    requires Created(a, b, es, metadata, now) && Created(b, c, [e], metadata, now)
    ensures Created(a, c, es + [e], metadata, now)
  {
    forall id | id in c.t.entities && id !in a.t.entities
      ensures a.next <= id < c.next && c.t.entities[id].metadata == metadata && c.t.entities[id].createdAt == now
      ensures exists k :: 0 <= k < |es + [e]| && c.t.entities[id] == NewEntity((es + [e])[k], c.t.entities[id].vector, metadata, now)
    {
      if id in b.t.entities {
        var k :| 0 <= k < |es| && b.t.entities[id] == NewEntity(es[k], b.t.entities[id].vector, metadata, now);
        assert (es + [e])[k] == es[k];
      } else {
        assert (es + [e])[|es|] == [e][0];
      }
    }
  }

  /** A pass over an entity stored under its name and linked to the
      context already writes nothing. */
  lemma LinkedNameChangesNothing(t: Tables, next: Id, ids: seq<Id>, e: ExtractedEntity, id: Id, contextId: Id,
                                 metadata: Json, embed: string -> Result<Vector>, now: Instant)
    requires NamesUnique(t.entities) && id in t.entities && t.entities[id].name == e.name
    requires Link(id, contextId) in t.links
    ensures EntityStep(Progress(t, next, ids), e, contextId, metadata, embed, now) == Success(Progress(t, next, ids + [id]))
  {
    ExistingNameIsReused(Progress(t, next, ids), e, id, contextId, metadata, embed, embed, now);
    AddPresent(t.links, Link(id, contextId));
    assert t.(links := t.links) == t;
  }

  lemma RecordedPrefix(t: Tables, ids: seq<Id>, es: seq<ExtractedEntity>, contextId: Id, n: nat)
    requires Recorded(t, ids, es, contextId) && n <= |es|
    ensures Recorded(t, ids[..n], es[..n], contextId)
  {
    forall k | 0 <= k < n
      ensures ids[..n][k] == ids[k] && es[..n][k] == es[k]
    {
    }
  }

  /** Over entities all stored under their names and linked to the context
      already, the entity loop writes nothing, embeds nothing, and yields
      those entities. */
  lemma {:induction false} RecordedStepsChangeNothing(t: Tables, next: Id, ids: seq<Id>, es: seq<ExtractedEntity>,
                                                      contextId: Id, metadata: Json,
                                                      embed: string -> Result<Vector>, now: Instant)
    requires NamesUnique(t.entities) && Recorded(t, ids, es, contextId)
    ensures EntitySteps(Progress(t, next, []), es, contextId, metadata, embed, now) == Success(Progress(t, next, ids))
    decreases |es|
  {
    if es != [] {
      var n := |es| - 1;
      RecordedPrefix(t, ids, es, contextId, n);
      RecordedStepsChangeNothing(t, next, ids[..n], es[..n], contextId, metadata, embed, now);
      LinkedNameChangesNothing(t, next, ids[..n], es[n], ids[n], contextId, metadata, embed, now);
      LastSplit(ids);
    }
  }

  /** Processing the same context again: the entity loop over the same
      extraction finds every entity the first run recorded, writes nothing
      and calls no embedding, whatever the embedding function, metadata and
      time of the second run. */
  lemma ReprocessingChangesNothing(t: Tables, next: Id, es: seq<ExtractedEntity>, contextId: Id, metadata: Json,
                                   embed: string -> Result<Vector>, now: Instant, metadata2: Json,
                                   embed2: string -> Result<Vector>, now2: Instant)
    requires Fresh(Progress(t, next, []))
    requires EntitySteps(Progress(t, next, []), es, contextId, metadata, embed, now).Success?
    ensures var q := EntitySteps(Progress(t, next, []), es, contextId, metadata, embed, now).value;
      EntitySteps(Progress(q.t, q.next, []), es, contextId, metadata2, embed2, now2) == Success(q)
  {
    var p := Progress(t, next, []);
    EntityStepsGrow(p, es, contextId, metadata, embed, now);
    var q := EntitySteps(p, es, contextId, metadata, embed, now).value;
    assert q.saved[0..] == q.saved;
    RecordedStepsChangeNothing(q.t, q.next, q.saved, es, contextId, metadata2, embed2, now2);
  }

  lemma LastSplit<T>(s: seq<T>)
    requires s != []
    ensures s[..|s| - 1] + [s[|s| - 1]] == s
  {
  }

  /** Of the run's entities matching a name, Resolve picks the one the run
      recorded first: when entry k matches, the pick sits at k or before. */
  lemma ResolvePicksFirst(entities: map<Id, Entity>, saved: seq<Id>, name: string, k: nat)
    requires k < |saved| && saved[k] in entities && Text.EqualsIgnoreCase(entities[saved[k]].name, name)
    ensures Resolve(entities, saved, name).Some?
    ensures exists i :: 0 <= i <= k && saved[i] == Resolve(entities, saved, name).value
  {
    var p := (id: Id) => id in entities && Text.EqualsIgnoreCase(entities[id].name, name);
    assert p(saved[k]);
    FirstMatchIsFirst(saved, p, k);
  }

  /** v is rels after relation passes of a run that recorded saved: every
      row is the old row at its place, or was written by the run, with
      weight 1, the run's metadata, and both ends among the run's entities. */
  ghost predicate Written(rels: seq<Relation>, v: seq<Relation>, saved: seq<Id>, metadata: Json) {
    |rels| <= |v|
    && forall i :: 0 <= i < |v| ==>
      (i < |rels| && v[i] == rels[i])
      || (v[i].edgeWeight == 1 && v[i].metadata == metadata && v[i].source in saved && v[i].target in saved)
  }

  /** One relation pass writes weight 1 under the key of its resolved ends
      and touches no other key, or changes nothing when an end does not
      resolve; keys stay unique. */
  lemma RelationStepWrites(rels: seq<Relation>, entities: map<Id, Entity>, saved: seq<Id>, r: ExtractedRelation,
                           metadata: Json, now: Instant)
    requires KeysUnique(rels)
    ensures var v := RelationStep(rels, entities, saved, r, metadata, now);
      var source := Resolve(entities, saved, r.sourceName);
      var target := Resolve(entities, saved, r.targetName);
      KeysUnique(v) && Written(rels, v, saved, metadata) && |v| <= |rels| + 1
      && (source.None? || target.None? ==> v == rels)
      && (source.Some? && target.Some? ==>
            WeightOf(v, source.value, target.value, r.relationType) == 1
            && forall s, t, ty :: !(s == source.value && t == target.value && ty == r.relationType) ==>
                 WeightOf(v, s, t, ty) == WeightOf(rels, s, t, ty))
  {
    var source := Resolve(entities, saved, r.sourceName);
    var target := Resolve(entities, saved, r.targetName);
    if source.Some? && target.Some? {
      SaveResetsWeight(rels, source.value, target.value, r.relationType, metadata, now);
    }
  }

  lemma WrittenTransitive(a: seq<Relation>, b: seq<Relation>, c: seq<Relation>, saved: seq<Id>, metadata: Json)
    requires Written(a, b, saved, metadata) && Written(b, c, saved, metadata)
    ensures Written(a, c, saved, metadata)
  {
  }

  /** The relation loop keeps keys unique, adds at most one row per
      extracted relation, and every row it changes or adds has weight 1,
      the run's metadata and both ends among the run's entities. */
  lemma {:induction false} RelationStepsWrite(rels: seq<Relation>, entities: map<Id, Entity>, saved: seq<Id>,
                                              rs: seq<ExtractedRelation>, metadata: Json, now: Instant)
    requires KeysUnique(rels)
    ensures var v := RelationSteps(rels, entities, saved, rs, metadata, now);
      KeysUnique(v) && Written(rels, v, saved, metadata) && |v| <= |rels| + |rs|
    decreases |rs|
  {
    if rs != [] {
      var front := rs[..|rs| - 1];
      RelationStepsWrite(rels, entities, saved, front, metadata, now);
      var u := RelationSteps(rels, entities, saved, front, metadata, now);
      RelationStepWrites(u, entities, saved, rs[|rs| - 1], metadata, now);
      WrittenTransitive(rels, u, RelationStep(u, entities, saved, rs[|rs| - 1], metadata, now), saved, metadata);
    }
  }

  /** A context run that succeeds keeps knowledge bases and contexts as
      they were, keeps every stored entity unchanged and names unique,
      records one entity per extracted entity linked to the context, keeps
      relation keys unique, and writes only relations of weight 1 between
      this run's entities carrying the run's provenance. */
  lemma ContextHandledGrows(t: Tables, next: Id, contextId: Id, complete: string -> Result<Option<string>>,
                            parse: string -> Option<Json>, embed: string -> Result<Vector>, started: string,
                            now: Instant)
    requires Fresh(Progress(t, next, [])) && KeysUnique(t.relations) && contextId in t.contexts
    ensures var r := ContextHandled(t, next, contextId, complete, parse, embed, started, now);
      var x := Extracted(Some(t.contexts[contextId].textChunk), complete, parse).value;
      r.Success? ==>
        r.value.t.kbs == t.kbs && r.value.t.contexts == t.contexts && t.links <= r.value.t.links
        && NamesUnique(r.value.t.entities) && KeysUnique(r.value.t.relations)
        && (forall id :: id in t.entities ==> id in r.value.t.entities && r.value.t.entities[id] == t.entities[id])
        && Recorded(r.value.t, r.value.saved, x.entities, contextId)
        && Written(t.relations, r.value.t.relations, r.value.saved,
                   Provenance(t.contexts[contextId].kbId, contextId, started))
  {
    var ctx := t.contexts[contextId];
    var x := Extracted(Some(ctx.textChunk), complete, parse).value;
    var metadata := Provenance(ctx.kbId, contextId, started);
    EntityStepsGrow(Progress(t, next, []), x.entities, contextId, metadata, embed, now);
    var p := EntitySteps(Progress(t, next, []), x.entities, contextId, metadata, embed, now);
    if p.Success? {
      assert p.value.saved[0..] == p.value.saved;
      RelationStepsWrite(p.value.t.relations, p.value.t.entities, p.value.saved, x.relations, metadata, now);
    }
  }

  /** The entity response reads type and description from the metadata,
      where the worker never puts them: for every entity the worker creates
      both getters return null, although the entity's own type and
      description columns are set. */
  lemma WorkerEntityResponseHasNoType(kbId: Id, contextId: Id, started: string, r: Responses.EntityResponse)
    requires r.metadata == Some(Provenance(kbId, contextId, started))
    ensures r.Type().None? && r.Description().None?
  {
  }
}
