/** The JSON-like values that travel inside tokens and request bodies, with
    Python's truthiness and `dict.get`. Floats and lists are not modelled. */
module Json {
  import opened Results

  datatype Json =
    | JNull
    | JBool(b: bool)
    | JInt(i: int)
    | JStr(s: string)
    | JObj(fields: map<string, Json>)

  /** A Python dict with string keys. */
  type Object = map<string, Json>

  /** Python's `bool(v)`. */
  predicate Truthy(v: Json) {
    match v
    case JNull => false
    case JBool(b) => b
    case JInt(i) => i != 0
    case JStr(s) => s != ""
    case JObj(m) => m != map[]
  }

  /** `d.get(key, default)`. */
  function Get(d: Object, key: string, default: Json): Json {
    if key in d then d[key] else default
  }

  /** `d.get(key)`, whose missing case is Python's None. */
  function Lookup(d: Object, key: string): Json {
    Get(d, key, JNull)
  }

  /** The attribute `.get` exists only on dicts. */
  function AsObject(v: Json): Option<Object> {
    if v.JObj? then Some(v.fields) else None
  }
}
