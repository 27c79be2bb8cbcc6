/** Decoded JSON values, as the Python code holds them after `json.loads`
    or `response.json()`, with Python's truthiness. */
module Json {

  /** A decoded JSON document. `JNull` is also Python's `None`. Numbers are
      kept as opaque reals: nothing in the core does arithmetic on them. */
  datatype Value =
    | JNull
    | JBool(b: bool)
    | JNumber(n: real)
    | JString(s: string)
    | JArray(items: seq<Value>)
    | JObject(fields: map<string, Value>)

  /** Python's `if v:` on a decoded value: None, False, zero and empty
      strings, lists and dicts are false. */
  predicate Truthy(v: Value) {
    match v
    case JNull => false
    case JBool(b) => b
    case JNumber(n) => n != 0.0
    case JString(s) => s != ""
    case JArray(items) => items != []
    case JObject(fields) => fields != map[]
  }
}
