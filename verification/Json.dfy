/** JSON values as Python sees them after `json.loads`. */
module Json {
  import opened Common

  datatype Json =
    | JNull
    | JBool(b: bool)
    | JNum(n: real)
    | JStr(s: string)
    | JArr(items: seq<Json>)
    | JObj(members: map<string, Json>)

  type Object = map<string, Json>

  /** Python's truth value. */
  predicate Truth(j: Json) {
    match j
    case JNull => false
    case JBool(b) => b
    case JNum(n) => n != 0.0
    case JStr(s) => s != ""
    case JArr(items) => items != []
    case JObj(members) => members != map[]
  }

  /** `d.get(key, default)`. */
  function GetOr(d: Object, key: string, default: Json): Json {
    if key in d then d[key] else default
  }

  /** `d.get(key)`; None and JSON null are the same value. */
  function Get(d: Object, key: string): Json {
    GetOr(d, key, JNull)
  }
}
