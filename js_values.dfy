/** JavaScript values the admin console passes around, as far as the model needs them. */
module JsValues {

  /** An optional property: `None` is `undefined` (the key is absent). */
  datatype Option<+T> = None | Some(value: T)

  /** A property typed `T | null | undefined`. */
  datatype Nullable<+T> = Undefined | Null | Present(value: T)

  /** A JSON value as axios serialises a request body (numbers are integers here). */
  datatype JsonValue = JString(s: string) | JNumber(n: int) | JBool(b: bool) | JNull

  /** Truthiness of an optional string: `undefined` and `""` are falsy. */
  predicate TruthyString(v: Option<string>)
  {
    v.Some? && v.value != ""
  }

  /** Truthiness of an optional number: `undefined` and `0` are falsy. */
  predicate TruthyNumber(v: Option<int>)
  {
    v.Some? && v.value != 0
  }
}
