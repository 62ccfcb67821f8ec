/** The extraction sanitiser: the model's reply is stripped of a markdown
    code fence, parsed as a JSON tree, and turned into lists of named
    entities and relations; whatever goes wrong yields an empty result. */
module Extraction {
  import opened Wrappers
  import opened Text
  import opened Json

  datatype ExtractedEntity = ExtractedEntity(name: string, entityType: string, description: string)

  datatype ExtractedRelation = ExtractedRelation(sourceName: string, targetName: string, relationType: string)

  datatype ExtractionResult = ExtractionResult(entities: seq<ExtractedEntity>, relations: seq<ExtractedRelation>)

  const Empty := ExtractionResult([], [])

  const DefaultEntityType := "OTHER"
  const DefaultRelationType := "RELATED_TO"

  const JsonFence := "```json"
  const Fence := "```"

  /** What cleanJsonResponse hands to the parser: "{}" for a null reply,
      otherwise the trimmed reply with one leading ```json or ``` and one
      trailing ``` removed, trimmed again. */
  function CleanJsonResponse(response: Option<string>): (r: string)
    ensures response.None? ==> r == "{}"
    ensures IsTrimmed(r)
    ensures response.Some? ==> |r| <= |response.value|
  {
    if response.None? then "{}"
    else
      var a := Trim(response.value);
      var b := if StartsWith(a, JsonFence) then a[|JsonFence|..]
               else if StartsWith(a, Fence) then a[|Fence|..]
               else a;
      var c := if EndsWith(b, Fence) then b[..|b| - |Fence|] else b;
      Trim(c)
  }

  /** A reply wrapped in a ```json fence cleans to its trimmed body. */
  lemma CleanJsonFenced(body: string)
    ensures CleanJsonResponse(Some(JsonFence + body + Fence)) == Trim(body)
  {
    var s := JsonFence + body + Fence;
    assert s[0] == '`' && s[|s| - 1] == '`';
    TrimOfTrimmed(s);
    assert StartsWith(s, JsonFence);
    var b := s[|JsonFence|..];
    assert b == body + Fence;
    assert EndsWith(b, Fence);
    assert b[..|b| - |Fence|] == body;
  }

  /** A reply wrapped in a plain ``` fence cleans to its trimmed body, unless
      the body itself begins with "json". */
  lemma CleanPlainFenced(body: string)
    requires !StartsWith(body, "json")
    ensures CleanJsonResponse(Some(Fence + body + Fence)) == Trim(body)
  {
    var s := Fence + body + Fence;
    assert s[0] == '`' && s[|s| - 1] == '`';
    TrimOfTrimmed(s);
    if |body| >= 4 {
      assert s[3..7] == body[..4];
    } else {
      assert s[3 + |body|] == '`';
    }
    assert !StartsWith(s, JsonFence);
    assert StartsWith(s, Fence);
    var b := s[|Fence|..];
    assert b == body + Fence;
    assert EndsWith(b, Fence);
    assert b[..|b| - |Fence|] == body;
  }

  /** A reply that is already trimmed and carries no fence reaches the parser
      unchanged. */
  lemma CleanUnfenced(s: string)
    requires IsTrimmed(s) && !StartsWith(s, Fence) && !EndsWith(s, Fence)
    ensures CleanJsonResponse(Some(s)) == s
  {
    TrimOfTrimmed(s);
  }

  /** One element of "entities": name and description default to "", the
      type to OTHER. */
  function EntityOf(node: Json): ExtractedEntity {
    ExtractedEntity(
      node.Path("name").AsTextOr(""),
      node.Path("type").AsTextOr(DefaultEntityType),
      node.Path("description").AsTextOr(""))
  }

  /** One element of "relations": source and target default to "", the
      relation to RELATED_TO. */
  function RelationOf(node: Json): ExtractedRelation {
    ExtractedRelation(
      node.Path("source").AsTextOr(""),
      node.Path("target").AsTextOr(""),
      node.Path("relation").AsTextOr(DefaultRelationType))
  }

  /** The entities kept from an array of nodes: those with a non-empty name,
      in array order. */
  function EntitiesOf(nodes: seq<Json>): (r: seq<ExtractedEntity>)
    ensures |r| <= |nodes|
    ensures forall e :: e in r ==> e.name != []
    ensures forall e :: e in r ==> exists n :: n in nodes && e == EntityOf(n)
  {
    if nodes == [] then []
    else
      var init := nodes[..|nodes| - 1];
      var e := EntityOf(nodes[|nodes| - 1]);
      assert forall n :: n in init ==> n in nodes;
      EntitiesOf(init) + (if e.name != [] then [e] else [])
  }

  /** The relations kept from an array of nodes: those naming both ends, in
      array order. */
  function RelationsOf(nodes: seq<Json>): (r: seq<ExtractedRelation>)
    ensures |r| <= |nodes|
    ensures forall x :: x in r ==> x.sourceName != [] && x.targetName != []
    ensures forall x :: x in r ==> exists n :: n in nodes && x == RelationOf(n)
  {
    if nodes == [] then []
    else
      var init := nodes[..|nodes| - 1];
      var x := RelationOf(nodes[|nodes| - 1]);
      assert forall n :: n in init ==> n in nodes;
      RelationsOf(init) + (if x.sourceName != [] && x.targetName != [] then [x] else [])
  }

  /** Every named entity node is kept. */
  lemma {:induction false} NamedEntityKept(nodes: seq<Json>, n: Json)
    requires n in nodes && EntityOf(n).name != []
    ensures EntityOf(n) in EntitiesOf(nodes)
  {
    var init := nodes[..|nodes| - 1];
    if n != nodes[|nodes| - 1] {
      assert n in init by {
        var k :| 0 <= k < |nodes| && nodes[k] == n;
        assert init[k] == n;
      }
      NamedEntityKept(init, n);
    }
  }

  /** Every relation node naming both ends is kept. */
  lemma {:induction false} NamedRelationKept(nodes: seq<Json>, n: Json)
    requires n in nodes && RelationOf(n).sourceName != [] && RelationOf(n).targetName != []
    ensures RelationOf(n) in RelationsOf(nodes)
  {
    var init := nodes[..|nodes| - 1];
    if n != nodes[|nodes| - 1] {
      assert n in init by {
        var k :| 0 <= k < |nodes| && nodes[k] == n;
        assert init[k] == n;
      }
      NamedRelationKept(init, n);
    }
  }

  /** Filtering keeps array order: the entities of two arrays one after the
      other are those of the first followed by those of the second. */
  lemma {:induction false} EntitiesOfAppend(a: seq<Json>, b: seq<Json>)
    ensures EntitiesOf(a + b) == EntitiesOf(a) + EntitiesOf(b)
    decreases |b|
  {
    if b != [] {
      var init := b[..|b| - 1];
      assert (a + b)[..|a + b| - 1] == a + init;
      EntitiesOfAppend(a, init);
    } else {
      assert a + b == a;
    }
  }

  lemma {:induction false} RelationsOfAppend(a: seq<Json>, b: seq<Json>)
    ensures RelationsOf(a + b) == RelationsOf(a) + RelationsOf(b)
    decreases |b|
  {
    if b != [] {
      var init := b[..|b| - 1];
      assert (a + b)[..|a + b| - 1] == a + init;
      RelationsOfAppend(a, init);
    } else {
      assert a + b == a;
    }
  }

  /** The array under a key when the root has that key holding an array. */
  function ArrayAt(root: Json, key: string): seq<Json> {
    if root.Has(key) && root.Get(key).value.JArray? then root.Path(key).elements else []
  }

  /** What parseResponse returns for a parse outcome (None: readTree threw). */
  function Parsed(root: Option<Json>): (r: ExtractionResult)
    ensures root.None? ==> r == Empty
  {
    if root.None? then Empty
    else ExtractionResult(EntitiesOf(ArrayAt(root.value, "entities")), RelationsOf(ArrayAt(root.value, "relations")))
  }

  /** A missing or non-array key empties only its own list. */
  lemma MissingKeyEmptiesOwnList(root: Json)
    ensures !root.Has("entities") || !root.Path("entities").JArray? ==>
      Parsed(Some(root)).entities == [] && Parsed(Some(root)).relations == RelationsOf(ArrayAt(root, "relations"))
    ensures !root.Has("relations") || !root.Path("relations").JArray? ==>
      Parsed(Some(root)).relations == [] && Parsed(Some(root)).entities == EntitiesOf(ArrayAt(root, "entities"))
  {
  }

  /** parseResponse: readTree, then one pass over each array. */
  method ParseResponse(json: string, parse: string -> Option<Json>) returns (result: ExtractionResult)
    ensures result == Parsed(parse(json))
  {
    result := Empty;
    var tree := parse(json);
    if tree.None? {
      return;
    }
    var root := tree.value;
    if root.Has("entities") && root.Get("entities").value.JArray? {
      var nodes := root.Get("entities").value.elements;
      var entities := [];
      var i := 0;
      while i < |nodes|
        invariant 0 <= i <= |nodes|
        invariant entities == EntitiesOf(nodes[..i])
      {
        var entity := EntityOf(nodes[i]);
        assert nodes[..i + 1][..i] == nodes[..i];
        if entity.name != [] {
          entities := entities + [entity];
        }
        i := i + 1;
      }
      assert nodes[..i] == nodes;
      result := result.(entities := entities);
    }
    if root.Has("relations") && root.Get("relations").value.JArray? {
      var nodes := root.Get("relations").value.elements;
      var relations := [];
      var i := 0;
      while i < |nodes|
        invariant 0 <= i <= |nodes|
        invariant relations == RelationsOf(nodes[..i])
      {
        var relation := RelationOf(nodes[i]);
        assert nodes[..i + 1][..i] == nodes[..i];
        if relation.sourceName != [] && relation.targetName != [] {
          relations := relations + [relation];
        }
        i := i + 1;
      }
      assert nodes[..i] == nodes;
      result := result.(relations := relations);
    }
  }

  /** What extractFromText returns: a null text fails (its length is read
      before the guarded block); a failed model call gives the empty result;
      otherwise the cleaned reply is parsed. */
  function Extracted(text: Option<string>, complete: string -> Result<Option<string>>,
                     parse: string -> Option<Json>): (r: Result<ExtractionResult>)
    ensures text.None? <==> r.Failure?
    ensures text.Some? && complete(text.value).Failure? ==> r == Success(Empty)
    ensures text.Some? && complete(text.value) == Success(None) ==> r == Success(Parsed(parse("{}")))
  {
    if text.None? then Failure("NullPointerException")
    else
      var reply := complete(text.value);
      if reply.Failure? then Success(Empty)
      else Success(Parsed(parse(CleanJsonResponse(reply.value))))
  }

  /** extractFromText: the model is consulted with the text (the prompt wording
      around it is not modelled), and every failure after that is absorbed. */
  method ExtractFromText(text: Option<string>, complete: string -> Result<Option<string>>,
                         parse: string -> Option<Json>) returns (r: Result<ExtractionResult>)
    ensures r == Extracted(text, complete, parse)
  {
    if text.None? {
      return Failure("NullPointerException");
    }
    var reply := complete(text.value);
    if reply.Failure? {
      return Success(Empty);
    }
    var cleaned := CleanJsonResponse(reply.value);
    var result := ParseResponse(cleaned, parse);
    return Success(result);
  }

  /** Whatever the reply, every entity returned is named and every relation
      names both ends, and each comes from one node of the reply's arrays. */
  lemma ExtractedIsWellFormed(text: string, complete: string -> Result<Option<string>>, parse: string -> Option<Json>)
    ensures var r := Extracted(Some(text), complete, parse);
      r.Success?
      && (forall e :: e in r.value.entities ==> e.name != [])
      && (forall x :: x in r.value.relations ==> x.sourceName != [] && x.targetName != [])
  {
  }
}
