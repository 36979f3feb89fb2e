/**
 * Parsed JSON values, as the request handlers see them after `json.loads`: strings keep
 * their text, objects their keys, numbers their value; `true`, `false` and `null` are
 * kept apart.
 */
module JsonValue {
  import opened Wrappers

  datatype Json = JStr(s: string) | JArray(items: seq<Json>) | JObject(fields: map<string, Json>) | JNum(n: real)
                | JBool(b: bool) | JNull

  /** Python truthiness of a parsed value. */
  predicate Truthy(j: Json) {
    match j
    case JStr(s) => s != ""
    case JArray(items) => items != []
    case JObject(fields) => fields != map[]
    case JNum(n) => n != 0.0
    case JBool(b) => b
    case JNull => false
  }

  /** `d.get(key)` on an object: the value, or None. */
  function Get(fields: map<string, Json>, key: string): Option<Json> {
    if key in fields then Some(fields[key]) else None
  }
}
