/** The few JavaScript value conventions the modelled TypeScript relies on:
    optional fields, the `||` default on strings, the `??` default and
    truthiness of numbers. A JSON field that is absent or `null` is `None`. */
module JsValue {

  datatype Option<+T> = None | Some(value: T)

  /** `s || d` for an optional string: the empty string and a missing value are falsy. */
  function StrOr(s: Option<string>, d: string): (r: string)
    ensures s.Some? && s.value != "" ==> r == s.value
    ensures s.None? || s.value == "" ==> r == d
  {
    if s.Some? && s.value != "" then s.value else d
  }

  /** A string is truthy when present and non-empty. */
  predicate StrTruthy(s: Option<string>)
  {
    s.Some? && s.value != ""
  }

  /** `o ?? d`: only a missing value is replaced, a falsy one is kept. */
  function Coalesce<T>(o: Option<T>, d: T): (r: T)
    ensures o.Some? ==> r == o.value
    ensures o.None? ==> r == d
  {
    match o
    case Some(v) => v
    case None => d
  }

  /** A number is truthy when present and non-zero (JSON carries no NaN). */
  predicate NumTruthy(o: Option<real>)
  {
    o.Some? && o.value != 0.0
  }

  /** `xs || []` for an optional array: an array, even an empty one, is truthy. */
  function OrEmpty<T>(xs: Option<seq<T>>): seq<T>
  {
    match xs
    case Some(s) => s
    case None => []
  }
}
