/** JavaScript values as the server sees them in a parsed JSON request body:
    a field is either absent (`undefined`) or a string. */
module Values {

  datatype Option<+T> = None | Some(value: T)

  /** JavaScript truthiness of an optional string: `undefined` and `""` are falsy. */
  predicate Truthy(v: Option<string>) {
    v.Some? && v.value != ""
  }

  /** The property key JavaScript uses for `obj[v]`: `undefined` becomes the key "undefined". */
  function PropertyKey(v: Option<string>): string {
    match v
    case None => "undefined"
    case Some(s) => s
  }
}
