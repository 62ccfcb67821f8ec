/** The response objects the ingest side returns: the stored fields of a
    knowledge base, a context or an entity, with a 100-character preview
    of the text and the vector's dimension count. Java null is None. */
module Responses {
  import opened Wrappers
  import opened Json
  import opened Store
  import Text

  const PreviewLength: nat := 100
  const Ellipsis := "..."

  /** The preview: the text itself when null or at most 100 chars long,
      else its first 100 chars followed by "...". */
  function Preview(text: Option<string>): (r: Option<string>)
    ensures text.None? <==> r.None?
    ensures text.Some? && |text.value| <= PreviewLength ==> r == text
    ensures text.Some? && |text.value| > PreviewLength ==>
      |r.value| == PreviewLength + 3 && r.value == text.value[..PreviewLength] + Ellipsis
  {
    if text.Some? && |text.value| > PreviewLength then Some(text.value[..PreviewLength] + Ellipsis) else text
  }

  /** A preview starts with as much of the text as it keeps, is never
      longer than 103 chars, and previewing a preview changes nothing. */
  lemma PreviewIsStable(text: string)
    ensures var p := Preview(Some(text)).value;
      |p| <= PreviewLength + 3
      && (|text| <= PreviewLength ==> p == text)
      && (|text| > PreviewLength ==> text[..PreviewLength] == p[..PreviewLength])
      && Preview(Some(p)) == Some(p)
  {
    var p := Preview(Some(text)).value;
    if |text| > PreviewLength {
      assert p[..PreviewLength] == text[..PreviewLength];
      assert Preview(Some(p)).value == p[..PreviewLength] + Ellipsis;
      assert p[PreviewLength..] == Ellipsis;
      assert p == p[..PreviewLength] + p[PreviewLength..];
    }
  }

  /** vector != null ? vector.length : 0. */
  function Dimensions(vector: Option<Vector>): (r: nat)
    ensures vector.None? ==> r == 0
    ensures vector.Some? ==> r == |vector.value|
  {
    if vector.Some? then |vector.value| else 0
  }

  datatype ContextResponse = ContextResponse(
    id: Option<int>, kbId: Option<int>, contextData: Option<string>, contextDataPreview: Option<string>,
    vectorDimensions: nat, metadata: Option<Json>, chunkIndex: int, totalChunks: int,
    createdAt: Option<Instant>, updatedAt: Option<Instant>)

  /** ContextResponse.from: every argument is copied but the vector, of
      which only the dimension count is kept; the preview is Preview of the
      text. */
  function ContextResponseFrom(id: Option<int>, kbId: Option<int>, contextData: Option<string>, vector: Option<Vector>,
                               metadata: Option<Json>, chunkIndex: int, totalChunks: int,
                               createdAt: Option<Instant>, updatedAt: Option<Instant>): (r: ContextResponse)
    ensures r.id == id && r.kbId == kbId && r.contextData == contextData && r.metadata == metadata
    ensures r.chunkIndex == chunkIndex && r.totalChunks == totalChunks
    ensures r.createdAt == createdAt && r.updatedAt == updatedAt
    ensures r.contextDataPreview == Preview(contextData)
    ensures r.vectorDimensions == (if vector.Some? then |vector.value| else 0)
  {
    ContextResponse(id, kbId, contextData, Preview(contextData), Dimensions(vector), metadata, chunkIndex,
                    totalChunks, createdAt, updatedAt)
  }

  datatype KnowledgeBaseResponse = KnowledgeBaseResponse(
    id: Option<int>, userId: Option<string>, content: Option<string>, contentPreview: Option<string>,
    vectorDimensions: nat, metadata: Option<Json>, createdAt: Option<Instant>, updatedAt: Option<Instant>)

  /** KnowledgeBaseResponse.from: the same shape for a knowledge base. */
  function KnowledgeBaseResponseFrom(id: Option<int>, userId: Option<string>, content: Option<string>,
                                     vector: Option<Vector>, metadata: Option<Json>,
                                     createdAt: Option<Instant>, updatedAt: Option<Instant>): (r: KnowledgeBaseResponse)
    ensures r.id == id && r.userId == userId && r.content == content && r.metadata == metadata
    ensures r.createdAt == createdAt && r.updatedAt == updatedAt
    ensures r.contentPreview == Preview(content)
    ensures r.vectorDimensions == (if vector.Some? then |vector.value| else 0)
  {
    KnowledgeBaseResponse(id, userId, content, Preview(content), Dimensions(vector), metadata, createdAt, updatedAt)
  }

  datatype EntityResponse = EntityResponse(
    id: Option<int>, entityName: Option<string>, vectorDimensions: nat, metadata: Option<Json>,
    isNewEntity: bool, sourceContextId: Option<int>, createdAt: Option<Instant>, updatedAt: Option<Instant>)
  {
    /** getType: the metadata's "type" text, null without metadata or
        without that key. */
    function Type(): (r: Option<string>)
      ensures r.Some? <==> metadata.Some? && metadata.value.Has("type")
      ensures r.Some? ==> r.value == metadata.value.fields["type"].AsText()
    {
      MetadataText(metadata, "type")
    }

    /** getDescription: the same for "description". */
    function Description(): (r: Option<string>)
      ensures r.Some? <==> metadata.Some? && metadata.value.Has("description")
      ensures r.Some? ==> r.value == metadata.value.fields["description"].AsText()
    {
      MetadataText(metadata, "description")
    }
  }

  /** metadata != null && metadata.has(key) ? metadata.get(key).asText() : null. */
  function MetadataText(metadata: Option<Json>, key: string): Option<string> {
    if metadata.Some? && metadata.value.Has(key) then Some(metadata.value.Get(key).value.AsText()) else None
  }

  /** EntityResponse.from. */
  function EntityResponseFrom(id: Option<int>, entityName: Option<string>, vector: Option<Vector>,
                              metadata: Option<Json>, isNewEntity: bool, sourceContextId: Option<int>,
                              createdAt: Option<Instant>, updatedAt: Option<Instant>): (r: EntityResponse)
    ensures r.id == id && r.entityName == entityName && r.metadata == metadata
    ensures r.isNewEntity == isNewEntity && r.sourceContextId == sourceContextId
    ensures r.createdAt == createdAt && r.updatedAt == updatedAt
    ensures r.vectorDimensions == (if vector.Some? then |vector.value| else 0)
  {
    EntityResponse(id, entityName, Dimensions(vector), metadata, isNewEntity, sourceContextId, createdAt, updatedAt)
  }

  /** The getters read the field as text whatever its kind: a string field
      gives its string, a number its decimal digits, a JSON null "null". */
  lemma TypeReadsField(fields: map<string, Json>, r: EntityResponse)
    requires r.metadata == Some(JObject(fields)) && "type" in fields
    ensures fields["type"].JString? ==> r.Type() == Some(fields["type"].s)
    ensures fields["type"].JNull? ==> r.Type() == Some("null")
    ensures fields["type"].JInt? ==> r.Type() == Some(Text.IntToString(fields["type"].i))
    ensures fields["type"].JObject? || fields["type"].JArray? ==> r.Type() == Some("")
  {
  }
}
