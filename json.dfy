/** Parsed JSON values, and the JavaScript reading rules the client applies to them:
    truthiness, property reads that yield `undefined`, and `a || b`. */
module JsonValue {
  import opened Wrappers

  /** A JSON document after `JSON.parse` / `JsonDocument.Parse`. Numbers are kept
      exact; objects map member names to values (a repeated name keeps one value). */
  datatype Json =
    | JNull
    | JBool(b: bool)
    | JNum(n: real)
    | JStr(s: string)
    | JArr(items: seq<Json>)
    | JObj(members: map<string, Json>)

  /** JavaScript truthiness: `null`, `false`, `0` and `""` are falsy. */
  predicate Truthy(v: Json) {
    match v
    case JNull => false
    case JBool(b) => b
    case JNum(n) => n != 0.0
    case JStr(s) => s != ""
    case _ => true
  }

  /** Truthiness of a value that may be `undefined` (None). */
  predicate Present(v: Option<Json>) {
    v.Some? && Truthy(v.value)
  }

  /** `v.key` on a non-null value: the member when `v` is an object that holds it,
      `undefined` otherwise (the names this client reads are never array or string
      properties such as `length`). Reading a property of `null` throws, so callers
      test for `JNull` first. */
  function Prop(v: Json, key: string): (r: Option<Json>)
    ensures r.Some? <==> v.JObj? && key in v.members
    ensures r.Some? ==> r.value == v.members[key]
  {
    if v.JObj? && key in v.members then Some(v.members[key]) else None
  }

  /** `a || b`: the left operand when truthy, otherwise the right one. */
  function Or(a: Option<Json>, b: Option<Json>): (r: Option<Json>)
    ensures Present(a) ==> r == a
    ensures !Present(a) ==> r == b
  {
    if Present(a) then a else b
  }

  /** `typeof v === 'number'`. */
  function NumberOf(v: Option<Json>): (r: Option<real>)
    ensures r.Some? <==> v.Some? && v.value.JNum?
    ensures r.Some? ==> v.value == JNum(r.value)
  {
    if v.Some? && v.value.JNum? then Some(v.value.n) else None
  }
}
