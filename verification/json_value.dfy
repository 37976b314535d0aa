/**
 * A decoded JSON document as the client receives it from `response.json()`,
 * and Python's `str()` of such a value, which every f-string placeholder uses.
 */
module JsonValue {

  import opened Wrappers
  import opened Text

  /** JSON numbers are modelled as integers; objects are Python dicts with string keys. */
  datatype Json =
    | JNull
    | JBool(b: bool)
    | JInt(n: int)
    | JStr(s: string)
    | JArray(items: seq<Json>)
    | JObject(fields: map<string, Json>)

  /**
   * Python's `str(j)`. Scalars are rendered exactly; the repr of a list or a
   * dict nested inside a record is left to `reprOf`.
   */
  function Str(j: Json, reprOf: Json -> string): (r: string)
    ensures j.JNull? ==> r == "None"
    ensures j.JBool? ==> r == (if j.b then "True" else "False")
    ensures j.JInt? ==> r == Decimal(j.n) && ParseDecimal(r) == Some(j.n) && ((r[0] == '-') <==> j.n < 0)
    ensures j.JStr? ==> r == j.s
    ensures j.JArray? || j.JObject? ==> r == reprOf(j)
  {
    match j
    case JNull => "None"
    case JBool(b) => if b then "True" else "False"
    case JInt(n) => Decimal(n)
    case JStr(s) => s
    case _ => reprOf(j)
  }

  /** Either the value a client routine produced, or a Python exception it raised. */
  datatype Outcome<+T> = Ok(value: T) | Raises
}
