/** The conventional optional value. */
module Options {

  datatype Option<+T> = None | Some(value: T)
}

/**
 * The parsed JSON text that `User.model_validate_json` receives: a JSON
 * object becomes a map from keys to values. Numbers are integers only.
 */
module JsonValue {
  import opened Options

  datatype Json =
    | JNull
    | JBool(b: bool)
    | JInt(i: int)
    | JStr(s: string)
    | JArr(items: seq<Json>)
    | JObj(fields: map<string, Json>)

  /**
   * Python truthiness of the value that the JSON text decodes to: the falsy
   * values are exactly None, False, 0, "", [] and {}.
   */
  predicate Truthy(v: Json)
    ensures !Truthy(v) <==> v in {JNull, JBool(false), JInt(0), JStr([]), JArr([]), JObj(map[])}
  {
    match v
    case JNull => false
    case JBool(b) => b
    case JInt(i) => i != 0
    case JStr(s) => |s| > 0
    case JArr(items) => |items| > 0
    case JObj(fields) => |fields| > 0
  }

  /** Python's `dict.get(key)`: an absent key reads as None, just like a JSON null. */
  function Get(m: map<string, Json>, key: string): (v: Json)
    ensures Lookup(m, key).Some? ==> v == Lookup(m, key).value
    ensures v == JNull <==> Lookup(m, key) in {None, Some(JNull)}
  {
    if key in m then m[key] else JNull
  }

  /** What a field validator sees: an absent key is told apart from a JSON null. */
  function Lookup(m: map<string, Json>, key: string): Option<Json> {
    if key in m then Some(m[key]) else None
  }
}
