/** The values `json.loads` produces, as far as the notification handler looks at them. */
module JsonValue {
  import opened Wrappers

  /** A decoded JSON value. Numbers are kept as integers: the handler never
      distinguishes one number from another, only numbers from strings. */
  datatype Json =
    | JNull
    | JBool(b: bool)
    | JNumber(n: int)
    | JString(s: string)
    | JArray(items: seq<Json>)
    | JObject(members: map<string, Json>)

  /** An inbound event payload after UTF-8 decoding and JSON parsing: either
      decoding or parsing failed, or it yielded a JSON object. */
  datatype Payload = Invalid | Object(fields: map<string, Json>)

  /** The text of a JSON string; `None` for every other kind of value, which
      the process-launch library refuses as an argument or environment value. */
  function TextOf(j: Json): (r: Option<string>)
    ensures r.Some? <==> j.JString?
    ensures r.Some? ==> j == JString(r.value)
  {
    if j.JString? then Some(j.s) else None
  }

  /** Python's `j[0]`: the first item of a list, the one-character string
      made of the first character of a string, and an exception (`None`) for
      an empty list or string (IndexError), an object (its keys are strings,
      so the integer key 0 is never found: KeyError) and every scalar (TypeError). */
  function Index0(j: Json): (r: Option<Json>)
    ensures r.Some? <==> (j.JArray? && j.items != []) || (j.JString? && j.s != [])
    ensures r.Some? && j.JArray? ==> r.value == j.items[0]
    ensures r.Some? && j.JString? ==> r.value.JString? && |r.value.s| == 1 && r.value.s[0] == j.s[0]
  {
    match j
    case JArray(items) => if items == [] then None else Some(items[0])
    case JString(s) => if s == [] then None else Some(JString(s[..1]))
    case _ => None
  }
}
