/** The ingestion front door: embed the content once, then persist one
    knowledge base carrying the embedding and three metadata counters. Any
    failure of the embedding call surfaces as "Ingestion failed: " plus its
    message, with nothing persisted. */
module IngestService {
  import opened Wrappers
  import opened Json
  import opened Store
  import KbQueries

  datatype IngestRequest = IngestRequest(uid: string, converser: Role, content: string)

  datatype IngestResponse = IngestResponse(id: Id, knowledgeBase: KnowledgeBase, status: string, message: string,
                                           embeddingTimeMs: int)

  const FailurePrefix := "Ingestion failed: "

  /** {contentLength, embeddingDimensions, embeddingTimeMs}. */
  function KbMetadata(content: string, embedding: Vector, embeddingTimeMs: int): Json {
    JObject(map["contentLength" := JInt(|content|), "embeddingDimensions" := JInt(|embedding|),
                "embeddingTimeMs" := JInt(embeddingTimeMs)])
  }

  /** The row persisted for a request whose content embedded to the given
      vector; createdAt is the persist time. */
  function Ingested(request: IngestRequest, embedding: Vector, embeddingTimeMs: int, now: Instant): (kb: KnowledgeBase)
    ensures kb.uid == request.uid && kb.converser == request.converser && kb.content == request.content
    ensures kb.vector == embedding
    ensures kb.metadata.Path("contentLength") == JInt(|request.content|)
    ensures kb.metadata.Path("embeddingDimensions") == JInt(|embedding|)
  {
    KnowledgeBase(request.uid, request.converser, request.content, embedding,
                  KbMetadata(request.content, embedding, embeddingTimeMs), now)
  }

  /** ingestContent. embed stands for the embedding call, embeddingTimeMs
      for the time it took and now for the persist time. */
  method IngestContent(db: Database, request: IngestRequest, embed: string -> Result<Vector>, embeddingTimeMs: int,
                       now: Instant) returns (r: Result<IngestResponse>)
    requires db.Valid()
    modifies db
    ensures db.Valid()
    ensures embed(request.content).Failure? ==>
      r == Failure(FailurePrefix + embed(request.content).error)
      && db.State() == old(db.State()) && db.nextId == old(db.nextId)
    ensures embed(request.content).Success? ==>
      var kb := Ingested(request, embed(request.content).value, embeddingTimeMs, now);
      r == Success(IngestResponse(old(db.nextId), kb, "SUCCESS", "Document ingested successfully", embeddingTimeMs))
      && old(db.nextId) !in old(db.kbs)
      && db.kbs == old(db.kbs)[old(db.nextId) := kb]
      && db.contexts == old(db.contexts) && db.entities == old(db.entities)
      && db.links == old(db.links) && db.relations == old(db.relations)
  {
    var embedding := embed(request.content);
    if embedding.Failure? {
      return Failure(FailurePrefix + embedding.error);
    }
    var kb := Ingested(request, embedding.value, embeddingTimeMs, now);
    var id := db.PersistKnowledgeBase(kb);
    return Success(IngestResponse(id, kb, "SUCCESS", "Document ingested successfully", embeddingTimeMs));
  }

  /** What is ingested can be read back: the new row is in the user's
      history, newest-first order and all, next to every row already
      there. */
  lemma IngestedIsInHistory(t: Tables, id: Id, kb: KnowledgeBase)
    requires id !in t.kbs
    ensures var after := Tables(t.kbs[id := kb], t.contexts, t.entities, t.links, t.relations);
      Row(id, kb) in KbQueries.ByUid(after, kb.uid)
      && forall row :: row in KbQueries.ByUid(t, kb.uid) ==> row in KbQueries.ByUid(after, kb.uid)
  {
  }
}
