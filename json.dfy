/** JSON values as the handler sees them after `json.loads`, and the
    optional-value wrapper used for Python's `None`. */
module JsonValue {

  /** Python's `None` versus a present value. */
  datatype Option<+T> = None | Some(value: T)

  /** A JSON value. Numbers are kept as their literal text: nothing in the
      handler computes with them, it only copies them through. */
  datatype Json =
    | JNull
    | JBool(b: bool)
    | JNumber(literal: string)
    | JString(s: string)
    | JArray(items: seq<Json>)
    | JObject(members: map<string, Json>)
}
