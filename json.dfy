/** JSON values as `JSON.parse` hands them to the summary pipeline, with JavaScript's
    property access and truthiness on them. */
module Json {
  import opened Wrappers

  /** A parsed JSON value. Numbers are restricted to the natural numbers; an object is a
      map from its keys to their values (the last of duplicated keys wins, as in `JSON.parse`). */
  datatype Json =
    | JNull
    | JBool(b: bool)
    | JNum(n: nat)
    | JStr(s: string)
    | JArr(items: seq<Json>)
    | JObj(fields: map<string, Json>)

  /** `v[key]`: `None` stands for `undefined` (a missing key, or `v` is not an object). */
  function Get(v: Json, key: string): Option<Json>
  {
    if v.JObj? && key in v.fields then Some(v.fields[key]) else None
  }

  /** `v[key] != null`: the property exists and is not `null`. */
  predicate Present(v: Json, key: string)
  {
    v.JObj? && key in v.fields && v.fields[key] != JNull
  }

  /** JavaScript truthiness: `null`, `false`, `0` and `""` are falsy. */
  predicate Truthy(v: Json)
  {
    match v
    case JNull => false
    case JBool(b) => b
    case JNum(n) => n != 0
    case JStr(s) => s != ""
    case JArr(_) => true
    case JObj(_) => true
  }

  /** Truthiness of a property that may be `undefined`. */
  predicate TruthyProp(o: Option<Json>)
  {
    o.Some? && Truthy(o.value)
  }
}
