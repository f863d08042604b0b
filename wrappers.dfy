/** An optional value (a JSON field that may be absent, a nullable column, a
    query that may find no row) and the JavaScript truthiness tests the
    handlers apply to such fields. */
module Wrappers {

  datatype Option<+T> = None | Some(value: T)

  /** `!!x` for a numeric field: absent and `0` are falsy. */
  predicate TruthyNumber(x: Option<int>) {
    x.Some? && x.value != 0
  }

  /** `!!x` for a string field: absent and `""` are falsy. */
  predicate TruthyString(x: Option<string>) {
    x.Some? && x.value != ""
  }

  /** A JSON value of a request body, as far as JavaScript truthiness can
      tell values apart; arrays and objects are `JsonStructure`. */
  datatype JsonValue =
    | JsonNull
    | JsonBool(b: bool)
    | JsonNumber(n: int)
    | JsonString(s: string)
    | JsonStructure

  /** `if (x)` on a JSON value: null, false, 0 and "" are falsy. */
  predicate Truthy(v: JsonValue) {
    match v
    case JsonNull => false
    case JsonBool(b) => b
    case JsonNumber(n) => n != 0
    case JsonString(s) => s != ""
    case JsonStructure => true
  }
}
