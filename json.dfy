/** JSON values as `JSON.parse` hands them to the extraction code, with the
    JavaScript operations the code applies to them: property access,
    truthiness (`||`) and `String(...)`. */
module Json {
  import opened Wrappers

  /** A parsed JSON value. A number carries, beside its value, the text that
      JavaScript's `String(n)` gives for it: the model does not reimplement
      the shortest round-trip rendering of doubles. */
  datatype Json =
    | JNull
    | JBool(b: bool)
    | JNum(n: real, text: string)
    | JStr(s: string)
    | JArr(items: seq<Json>)
    | JObj(fields: map<string, Json>)

  /** `v[key]` on a value that is not `null`: the property of an object, and
      `undefined` (None) for an absent key or for a string, number, boolean or
      array, none of which has the keys the extraction code reads. Reading a
      property of `null` throws a `TypeError`; callers handle that case. */
  function Member(v: Json, key: string): (r: Option<Json>)
    requires !v.JNull?
    ensures r.Some? <==> v.JObj? && key in v.fields
  {
    if v.JObj? && key in v.fields then Some(v.fields[key]) else None
  }

  /** JavaScript truthiness of a property value (`undefined` is None). JSON
      numbers are never NaN. */
  predicate Truthy(v: Option<Json>)
  {
    match v
    case None => false
    case Some(JNull) => false
    case Some(JBool(b)) => b
    case Some(JNum(n, _)) => n != 0.0
    case Some(JStr(s)) => s != ""
    case Some(JArr(_)) => true
    case Some(JObj(_)) => true
  }

  /** `String(v)`. An array is joined with commas, its `null` elements
      becoming empty strings. */
  function ToJsString(v: Json): string
    decreases v
  {
    match v
    case JNull => "null"
    case JBool(b) => if b then "true" else "false"
    case JNum(_, text) => text
    case JStr(s) => s
    case JArr(items) => JoinItems(items)
    case JObj(_) => "[object Object]"
  }

  /** `items.join(",")`. */
  function JoinItems(items: seq<Json>): string
    decreases items
  {
    if items == [] then ""
    else
      var head := if items[0].JNull? then "" else ToJsString(items[0]);
      if |items| == 1 then head else head + "," + JoinItems(items[1..])
  }

}
