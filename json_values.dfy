/** The values that `json.loads` produces and that the service stores, with Python's truthiness
    and `dict.get`. */
module JsonValues {

  /** A decoded JSON value: `None`, `bool`, `int`/`float`, `str`, `list` or `dict`. */
  datatype Json =
    | JNull
    | JBool(b: bool)
    | JNumber(n: real)
    | JString(s: string)
    | JArray(items: seq<Json>)
    | JObject(fields: map<string, Json>)

  /** A JSON object as a Python `dict`. */
  type Dict = map<string, Json>

  /** Python's `bool(v)`: `None`, `False`, zero, and empty strings, lists and dicts are false. */
  predicate Truthy(v: Json)
  {
    match v
    case JNull => false
    case JBool(b) => b
    case JNumber(n) => n != 0.0
    case JString(s) => s != []
    case JArray(items) => items != []
    case JObject(fields) => fields != map[]
  }

  /** `d.get(k, dflt)`. */
  function GetOr(d: Dict, k: string, dflt: Json): Json
  {
    if k in d then d[k] else dflt
  }

  /** `d.get(k)`, which gives `None` for an absent key. */
  function Get(d: Dict, k: string): Json
  {
    GetOr(d, k, JNull)
  }

  /** `a or b` on two JSON values. */
  function Or(a: Json, b: Json): (r: Json)
    ensures Truthy(b) ==> Truthy(r)
    ensures Truthy(a) ==> r == a
    ensures !Truthy(a) ==> r == b
  {
    if Truthy(a) then a else b
  }

  /** A JSON list of strings. */
  function Strings(ss: seq<string>): (r: Json)
    ensures r.JArray? && |r.items| == |ss|
    ensures forall k :: 0 <= k < |ss| ==> r.items[k] == JString(ss[k])
  {
    JArray(seq(|ss|, k requires 0 <= k < |ss| => JString(ss[k])))
  }
}
