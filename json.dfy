/**
 * The JSON values the configuration files hold, and the text codec that
 * `json.dumps` / `json.loads` stand for.  The codec is a parameter: only the
 * property that decoding what was encoded gives the value back is assumed,
 * and only where a statement needs it.
 */
module Json {
  import opened Common
  import opened Dict

  datatype Json =
    | JNull
    | JBool(b: bool)
    | JInt(i: int)
    | JStr(s: string)
    | JArray(items: seq<Json>)
    | JObject(fields: Dict<Json>)

  /** `json.dumps` and `json.loads`; None is the JSONDecodeError. */
  datatype Codec = Codec(dumps: Json -> string, loads: string -> Option<Json>)

  /** The codec reads back what it wrote for `j`. */
  predicate Decodes(codec: Codec, j: Json) {
    codec.loads(codec.dumps(j)) == Some(j)
  }

  /** Python truthiness of a decoded value: false, 0, empty text and empty containers are false. */
  predicate Truthy(j: Json) {
    match j
    case JNull => false
    case JBool(b) => b
    case JInt(i) => i != 0
    case JStr(s) => s != ""
    case JArray(items) => items != []
    case JObject(fields) => fields != []
  }

  /** `d[k]` on a decoded value, None when it is not an object or lacks the key. */
  function Field(j: Json, k: string): Option<Json> {
    if j.JObject? then Get(j.fields, k) else None
  }
}
