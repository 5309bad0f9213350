/**
 * JSON values as `json.loads` returns them: dicts, lists, strings, numbers,
 * booleans and None. Objects are maps, since the model reads them only by key.
 */
module Json {
  import opened Errors

  datatype Json =
    | Null
    | Bool(b: bool)
    | Number(n: real)
    | Str(s: string)
    | Array(items: seq<Json>)
    | Object(fields: map<string, Json>)

  /** Python's truth value of the decoded value (`if value:`). */
  predicate Truthy(j: Json)
  {
    match j
    case Null => false
    case Bool(b) => b
    case Number(n) => n != 0.0
    case Str(s) => s != ""
    case Array(items) => items != []
    case Object(fields) => fields != map[]
  }

  /** `"key" in d and d["key"] == text` for a dict `d`. */
  predicate HasText(fields: map<string, Json>, key: string, text: string)
  {
    key in fields && fields[key] == Str(text)
  }

  /** The string held under `key` of an object, if there is one. */
  function TextField(j: Json, key: string): (r: Option<string>)
    ensures r.Some? <==> j.Object? && key in j.fields && j.fields[key].Str?
    ensures r.Some? ==> HasText(j.fields, key, r.value)
  {
    if j.Object? && key in j.fields && j.fields[key].Str? then Some(j.fields[key].s) else None
  }
}
