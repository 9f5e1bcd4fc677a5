/** Values shared by the topo server's request dispatcher and its resource
    handlers: Go's `error` split into its two kinds, the dynamically typed
    payloads (`interface{}` and `mapstr.MapStr`), and a handler's
    `(interface{}, error)` reply. */
module Values {

  /** Go's `nil`-or-value, used for an `error` that may be `nil`. */
  datatype Option<+T> = None | Some(value: T)

  /** An error as the dispatcher sees it: one that implements
      `errors.CCErrorCoder` and so carries a numeric code, or any other
      error value. Both have the string that `Error()` returns. */
  datatype Error = Coded(code: int, text: string) | Generic(text: string)

  /** A call that either yields a value or fails with an error. */
  datatype Result<+T> = Ok(value: T) | Err(error: Error)

  /** A byte of a request body. */
  newtype byte = x: int | 0 <= x < 256

  /** A dynamically typed payload, shaped like JSON. */
  datatype Value =
    | Null
    | Bool(b: bool)
    | Int(i: int)
    | Str(s: string)
    | List(items: seq<Value>)
    | Object(fields: map<string, Value>)

  /** `mapstr.MapStr`: a string-keyed map of dynamic values. */
  type MapStr = map<string, Value>

  /** What a handler returns: Go's `(interface{}, error)` pair, where the
      error may be `nil`. */
  datatype Reply = Reply(data: Value, err: Option<Error>)

  /** Path or query parameters of one request. */
  type Params = map<string, string>

  /** `req.PathParameter(key)` / `req.QueryParameter(key)`: the empty
      string when the parameter is absent. */
  function Param(p: Params, key: string): (v: string)
    ensures key in p ==> v == p[key]
    ensures key !in p ==> v == ""
  {
    if key in p then p[key] else ""
  }
}
