/** Decoded JSON values and the Python operations the decoders apply to them. */
module JsonValues {
  import opened Wrappers
  import opened Utils

  /** A value as `json.load` returns it; numbers are limited to integers. */
  datatype Json =
    | JNull
    | JBool(b: bool)
    | JInt(i: int)
    | JStr(s: string)
    | JList(items: seq<Json>)
    | JObject(fields: map<string, Json>)

  /** The exceptions the decoders can raise. */
  datatype PyError = KeyError | TypeError | ValueError

  /** Python truthiness of a decoded value. */
  predicate Truthy(j: Json) {
    match j
    case JNull => false
    case JBool(b) => b
    case JInt(i) => i != 0
    case JStr(s) => s != ""
    case JList(xs) => xs != []
    case JObject(m) => m != map[]
  }

  /** `dct[key]`: the value under `key` of an object; subscripting anything else is a TypeError. */
  function Get(j: Json, key: string): (r: Result<Json, PyError>)
    ensures r.Ok? <==> j.JObject? && key in j.fields
    ensures r.Ok? ==> r.value == j.fields[key]
    ensures r.Err? ==> r.error == (if j.JObject? then KeyError else TypeError)
  {
    match j
    case JObject(m) => if key in m then Ok(m[key]) else Err(KeyError)
    case _ => Err(TypeError)
  }

  /** `int(x)`: integers as they are, booleans as 0 or 1, digit strings parsed. */
  function IntOf(j: Json): (r: Result<int, PyError>)
    ensures j.JInt? ==> r == Ok(j.i)
    ensures j.JBool? ==> r == Ok(if j.b then 1 else 0)
    ensures j.JStr? ==> (r.Ok? <==> ParseInt(j.s).Some?)
    ensures j.JStr? && r.Ok? ==> r.value == ParseInt(j.s).value && r.value >= 0
    ensures j.JStr? && r.Err? ==> r.error == ValueError
    ensures j.JNull? || j.JList? || j.JObject? ==> r == Err(TypeError)
  {
    match j
    case JInt(i) => Ok(i)
    case JBool(b) => Ok(if b then 1 else 0)
    case JStr(s) => (match ParseInt(s) case Some(n) => Ok(n) case None => Err(ValueError))
    case _ => Err(TypeError)
  }

  /** A stored text field: a string is taken as it is; anything else is a TypeError. */
  function StrOf(j: Json): (r: Result<string, PyError>)
    ensures r.Ok? <==> j.JStr?
    ensures r.Ok? ==> r.value == j.s
    ensures r.Err? ==> r.error == TypeError
  {
    if j.JStr? then Ok(j.s) else Err(TypeError)
  }
}
