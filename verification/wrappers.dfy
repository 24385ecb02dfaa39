/** Optional values and results with an error, as the rest of the model uses them. */
module Wrappers {

  /** A value that may be absent (`undefined` or `null` in the toolbar's code). */
  datatype Option<+T> = None | Some(value: T)

  /** The outcome of a step that either yields a value or stops with an error. */
  datatype Result<+R, +E> = Success(value: R) | Failure(error: E)

  /** JavaScript truthiness of an optional string: present and not the empty string. */
  predicate Truthy(s: Option<string>)
  {
    s.Some? && s.value != ""
  }
}
