/** Values shared by every part of the model: optional properties, outcomes of
    calls that can throw, and JavaScript's `||` on string-valued properties. */
module Common {

  /** A JavaScript property that may be `undefined` or `null` (None) or hold a value. */
  datatype Option<+T> = None | Some(value: T)

  /** The outcome of a call that either returns a value or throws an error. */
  datatype Result<+T, +E> = Success(value: T) | Failure(error: E)

  /** A string property is truthy when it is present and not the empty string. */
  predicate Truthy(a: Option<string>)
  {
    a.Some? && a.value != ""
  }

  /** JavaScript's `a || fallback` where `a` is a string property that may be missing. */
  function Or(a: Option<string>, fallback: string): string
  {
    if Truthy(a) then a.value else fallback
  }
}
