/** The decoded JSON request body that the product-creation handler receives. */
module Json {
  import opened Decimals

  /**
   * A decoded JSON value. A JSON number without fraction or exponent decodes
   * to a Python `int` (`IntV`); any other number decodes to a `float`, held
   * here as the exact decimal that `str()` of that float spells (`FloatV`).
   * `BoolV` is kept apart from `NullV` because Python's `bool` is an `int`.
   */
  datatype Value =
    | IntV(i: int)
    | FloatV(d: Decimal)
    | StrV(s: string)
    | BoolV(b: bool)
    | NullV
    | ListV(items: seq<Value>)
    | DictV(fields: map<string, Value>)

  /** The request body: a JSON object, that is, a map from keys to values. */
  type Request = map<string, Value>
}
