/**
 The JSON values a request body can carry in one of its fields, and the body
 itself as a map from field name to value; a field the client did not send
 is a key the map does not hold.
 */
module JsonValue {
  import opened Wrappers

  datatype Json = JNull | JBool(b: bool) | JNum(n: real) | JStr(s: string)

  type Fields = map<string, Json>

  function Lookup(body: Fields, key: string): Option<Json> {
    if key in body then Some(body[key]) else None
  }
}
