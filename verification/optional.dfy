/** Optional record fields, and the JavaScript coercions the invoice code
    applies to them (`x || fallback`, `x || 0`, and string concatenation of
    a value that may be `undefined`). */
module Optional {

  /** A field that may be left `undefined`. */
  datatype Option<+T> = None | Some(value: T)

  /** JavaScript truthiness of an optional string: present and non-empty. */
  predicate Truthy(o: Option<string>)
  {
    o.Some? && o.value != ""
  }

  /** `o || fallback` for an optional string. */
  function OrElse(o: Option<string>, fallback: string): string
  {
    if Truthy(o) then o.value else fallback
  }

  /** `o || 0` for an optional number. The only falsy numbers are 0 and NaN;
      0 maps to itself and NaN does not exist among the reals. */
  function OrZero(o: Option<real>): real
  {
    match o
    case None => 0.0
    case Some(x) => x
  }

  /** The text JavaScript's `+` produces for an optional string operand. */
  function JsString(o: Option<string>): string
  {
    match o
    case None => "undefined"
    case Some(s) => s
  }
}
