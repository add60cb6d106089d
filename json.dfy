/** The values JSON.parse produces, JavaScript property reads on them, and
    JavaScript truthiness. */
module Json {

  /** A parsed JSON value. Numbers are kept as reals: the pipeline never
      computes with them. Object key order is not kept. */
  datatype JsonValue =
    | JNull
    | JBool(b: bool)
    | JNum(n: real)
    | JStr(s: string)
    | JArr(items: seq<JsonValue>)
    | JObj(members: map<string, JsonValue>)

  /** What `v[key]` (or `v.key`) evaluates to. Reading a property of null
      throws a TypeError; reading a missing one gives undefined. The keys
      read in this pipeline are not properties that strings, numbers,
      booleans or arrays carry, so on those values the read is undefined. */
  datatype Read = Found(value: JsonValue) | Undefined | NullRead

  function ReadProperty(v: JsonValue, key: string): (r: Read)
    ensures r.Found? <==> v.JObj? && key in v.members
    ensures r.Found? ==> r.value == v.members[key]
    ensures r.NullRead? <==> v.JNull?
  {
    match v
    case JNull => NullRead
    case JObj(m) => if key in m then Found(m[key]) else Undefined
    case _ => Undefined
  }

  /** JavaScript truthiness of a JSON value (JSON has no NaN). */
  predicate Truthy(v: JsonValue) {
    match v
    case JNull => false
    case JBool(b) => b
    case JNum(n) => n != 0.0
    case JStr(s) => s != ""
    case JArr(_) => true
    case JObj(_) => true
  }

  /** Truthiness of a property read; undefined is falsy. */
  predicate ReadTruthy(r: Read) {
    r.Found? && Truthy(r.value)
  }
}
