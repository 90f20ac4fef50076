/** A small JSON value type standing in for Go's `interface{}` decoding and the client's
    parsed response bodies. Numbers are integers: no JSON number in this core needs a fraction. */
module JsonValue {
  import opened Wrappers

  datatype Json =
    | JNull
    | JBool(b: bool)
    | JNumber(n: int)
    | JString(s: string)
    | JArray(items: seq<Json>)
    | JObject(fields: map<string, Json>)

  /** The text stored in a JSON database column: it either parses to a value or is malformed. */
  datatype JsonText = Parsed(value: Json) | Malformed

  /** The member `key` of an object, absent for non-objects and missing keys. */
  function Member(j: Json, key: string): (r: Option<Json>)
    ensures r.Some? <==> j.JObject? && key in j.fields
    ensures r.Some? ==> r.value == j.fields[key]
  {
    if j.JObject? && key in j.fields then Some(j.fields[key]) else None
  }

  /** The member `key` when it is a string (a Go struct field of type `string` that was filled). */
  function StringMember(j: Json, key: string): (r: Option<string>)
    ensures r.Some? <==> Member(j, key).Some? && Member(j, key).value.JString?
    ensures r.Some? ==> Member(j, key) == Some(JString(r.value))
  {
    match Member(j, key)
    case Some(JString(s)) => Some(s)
    case _ => None
  }

  /** A JSON array of strings. */
  function StringArray(items: seq<string>): (j: Json)
    ensures j.JArray? && |j.items| == |items| && forall i :: 0 <= i < |items| ==> j.items[i] == JString(items[i])
  {
    JArray(seq(|items|, i requires 0 <= i < |items| => JString(items[i])))
  }

  /** Go's `json.Unmarshal` of stored text into a `[]string`, with the callers' fallback: a
      malformed text, a non-array or an array holding a non-string all give the empty list
      (`null` decodes to a nil slice, which is empty too). */
  function DecodeStringList(t: JsonText): (r: seq<string>)
    ensures t.Parsed? && t.value.JArray? && (forall i :: 0 <= i < |t.value.items| ==> t.value.items[i].JString?) ==>
              |r| == |t.value.items| && forall i :: 0 <= i < |r| ==> t.value.items[i] == JString(r[i])
    ensures !(t.Parsed? && t.value.JArray?) ==> r == []
  {
    if t.Parsed? && t.value.JArray? && forall i :: 0 <= i < |t.value.items| ==> t.value.items[i].JString? then
      seq(|t.value.items|, i requires 0 <= i < |t.value.items| && t.value.items[i].JString? => t.value.items[i].s)
    else []
  }

  /** A list of strings survives encoding and decoding. */
  lemma StringListRoundTrip(items: seq<string>)
    ensures DecodeStringList(Parsed(StringArray(items))) == items
  {
  }
}
