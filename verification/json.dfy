/** JSON values as the request engine sees them after `JSON.parse` and before
    `JSON.stringify`. Numbers are integers (every number the engine produces is
    a count, an id or a millisecond timestamp); `undefined` is the absence of
    a field or an `Option.None`. */
module Json {
  import opened Wrappers

  datatype Json =
    | JNull
    | JBool(b: bool)
    | JNum(n: int)
    | JStr(s: string)
    | JArr(items: seq<Json>)
    | JObj(fields: map<string, Json>)

  /** `JSON.parse` (`None` when it throws) and `JSON.stringify`, supplied by
      the caller: the engine only moves their results around. */
  datatype Codec = Codec(parse: string -> Option<Json>, stringify: Json -> string)

  /** JavaScript truthiness of a JSON value. */
  predicate Truthy(j: Json) {
    match j
    case JNull => false
    case JBool(b) => b
    case JNum(n) => n != 0
    case JStr(s) => s != ""
    case JArr(_) => true
    case JObj(_) => true
  }

  /** `typeof j === 'object'` for a non-null value: arrays and objects. */
  predicate IsObject(j: Json) {
    j.JArr? || j.JObj?
  }

  /** Property read `j[key]` on a parsed value; `None` is `undefined`. */
  function Get(j: Json, key: string): (r: Option<Json>)
    ensures r.Some? <==> j.JObj? && key in j.fields
  {
    if j.JObj? && key in j.fields then Some(j.fields[key]) else None
  }

  /** Adds `key` to an object under construction unless the value is
      `undefined` (`JSON.stringify` drops such keys). */
  function Put(fields: map<string, Json>, key: string, v: Option<Json>): (r: map<string, Json>)
    ensures v.Some? ==> r == fields[key := v.value]
    ensures v.None? ==> r == fields
  {
    if v.Some? then fields[key := v.value] else fields
  }

  function OptStr(v: Option<string>): Option<Json> {
    if v.Some? then Some(JStr(v.value)) else None
  }

  /** A string map as a JSON object (`Object.fromEntries(headers.entries())`). */
  function StringMap(m: map<string, string>): (r: Json)
    ensures r.JObj? && r.fields.Keys == m.Keys
  {
    JObj(map k | k in m :: JStr(m[k]))
  }
}
