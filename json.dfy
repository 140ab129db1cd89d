/** Decoded JSON values and the Python operations the extractors apply to them. */
module Json {
  import opened Wrappers
  import opened Text

  /** A JSON value as `json.loads` produces it (floating-point numbers are not modelled).
      `JNull` is also Python's `None`. */
  datatype Json =
    | JNull
    | JBool(b: bool)
    | JInt(i: int)
    | JStr(s: string)
    | JArr(items: seq<Json>)
    | JObj(fields: map<string, Json>)

  /** Python truthiness. */
  predicate Truthy(j: Json) {
    match j
    case JNull => false
    case JBool(b) => b
    case JInt(i) => i != 0
    case JStr(s) => s != ""
    case JArr(items) => items != []
    case JObj(fields) => fields != map[]
  }

  /** `j == 0` (in Python `False == 0`). */
  predicate IsZero(j: Json) {
    j == JInt(0) || j == JBool(false)
  }

  /** `j == 1` (in Python `True == 1`). */
  predicate IsOne(j: Json) {
    j == JInt(1) || j == JBool(true)
  }

  /** `j.get(key, default)`: only a dict has `get`; `default` is evaluated whether or not
      it is used. */
  function DictGet(j: Json, key: string, default: Json): Res<Json> {
    if !j.JObj? then Raise("object has no attribute 'get'")
    else if key in j.fields then Ok(j.fields[key])
    else Ok(default)
  }

  /** `d.get(key, default)` on a dict's fields. */
  function Field(fields: map<string, Json>, key: string, default: Json): Json {
    if key in fields then fields[key] else default
  }

  /** `key in j` */
  function Has(j: Json, key: string): Res<bool> {
    match j
    case JObj(fields) => Ok(key in fields)
    case JArr(items) => Ok(JStr(key) in items)
    case JStr(s) => Ok(Contains(s, key))
    case _ => Raise("argument is not iterable")
  }

  /** `j[key]` */
  function Index(j: Json, key: string): Res<Json> {
    if j.JObj? && key in j.fields then Ok(j.fields[key])
    else if j.JObj? then Raise(key)
    else Raise("indices must be integers")
  }

  /** The items of `for item in j`, where the body starts with `item.get(...)`. A list gives
      its elements; an empty dict or string gives none; iterating a non-empty dict or string
      yields strings, whose first `get` raises; a scalar is not iterable. */
  function Items(j: Json): (r: Res<seq<Json>>)
    ensures r.Ok? && r.value != [] ==> j.JArr? && r.value == j.items
    ensures j.JArr? ==> r == Ok(j.items)
    ensures r.Ok? ==> (r.value == [] <==> !Truthy(j))
  {
    match j
    case JArr(items) => Ok(items)
    case JObj(fields) => if fields == map[] then Ok([]) else Raise("object has no attribute 'get'")
    case JStr(s) => if s == "" then Ok([]) else Raise("object has no attribute 'get'")
    case _ => Raise("object is not iterable")
  }

  /** A dict field holding a dict, read with `get`, or the empty dict when missing. */
  function GetObj(j: Json, key: string): Res<Json> {
    DictGet(j, key, JObj(map[]))
  }
}
