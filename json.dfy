/** JSON-like values as the Python code receives them from `json.loads`, from the
    GitHub API and from MongoDB documents. */
module JsonValue {
  import opened Wrappers

  datatype Json =
    | JNull
    | JBool(b: bool)
    | JInt(i: int)
    | JStr(s: string)
    | JArr(items: seq<Json>)
    | JObj(fields: map<string, Json>)

  /** `value[key]`: a `KeyError` for a missing key of a dict, a `TypeError` when the
      value is not a dict. */
  function Get(value: Json, key: string): (r: Result<Json>)
    ensures r.Ok? <==> value.JObj? && key in value.fields
    ensures r.Ok? ==> r.value == value.fields[key]
    ensures value.JObj? && key !in value.fields ==> r == Err(KeyError(key))
  {
    match value
    case JObj(f) => if key in f then Ok(f[key]) else Err(KeyError(key))
    case _ => Err(TypeError("value is not subscriptable by a string"))
  }
}
