/** The part of a Jackson JsonNode tree the services read and write: the
    node kinds, and has / get / path / isArray / asText on them. */
module Json {
  import opened Wrappers
  import Text

  datatype Json =
    | JNull                          // NullNode
    | JBool(b: bool)
    | JInt(i: int)                   // IntNode / LongNode
    | JDecimal(literal: string)      // a floating number, kept as the text Jackson prints
    | JString(s: string)             // TextNode
    | JArray(elements: seq<Json>)
    | JObject(fields: map<string, Json>)
    | JMissing                       // MissingNode: what path() yields for an absent field
  {
    /** has(field): only an object has fields; a field holding JSON null
        counts as present. */
    predicate Has(key: string) {
      JObject? && key in fields
    }

    /** get(field): the field's node, or Java null. */
    function Get(key: string): (r: Option<Json>)
      ensures r.Some? <==> Has(key)
    {
      if JObject? && key in fields then Some(fields[key]) else None
    }

    /** path(field): like get, but never null; anything absent is a MissingNode. */
    function Path(key: string): (r: Json)
      ensures Has(key) ==> Get(key) == Some(r)
      ensures !Has(key) ==> r == JMissing
    {
      if JObject? && key in fields then fields[key] else JMissing
    }

    /** asText(): the scalar's text; containers and MissingNode give "",
        a NullNode gives "null". */
    function AsText(): string {
      match this
      case JNull => "null"
      case JBool(b) => if b then "true" else "false"
      case JInt(i) => Text.IntToString(i)
      case JDecimal(literal) => literal
      case JString(s) => s
      case JArray(_) => ""
      case JObject(_) => ""
      case JMissing => ""
    }

    /** asText(defaultValue): the default replaces the text of a NullNode and
        of a MissingNode; every other node gives its own text. */
    function AsTextOr(default: string): (r: string)
      ensures JNull? || JMissing? ==> r == default
      ensures JString? ==> r == s
    {
      if JNull? || JMissing? then default else AsText()
    }
  }

  /** path(key).asText(default) on an object: the field's text when present
      and not null, the default otherwise. */
  lemma FieldText(fields: map<string, Json>, key: string, default: string)
    ensures key !in fields ==> JObject(fields).Path(key).AsTextOr(default) == default
    ensures key in fields && fields[key].JNull? ==> JObject(fields).Path(key).AsTextOr(default) == default
    ensures key in fields && fields[key].JString? ==> JObject(fields).Path(key).AsTextOr(default) == fields[key].s
  {
  }

  /** Every path on a node that is not an object is a MissingNode, so any
      asText(default) on it gives the default. */
  lemma PathOfNonObject(node: Json, key: string, default: string)
    requires !node.JObject?
    ensures node.Path(key) == JMissing
    ensures node.Path(key).AsTextOr(default) == default
  {
  }
}
