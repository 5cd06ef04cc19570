/** The optional value used wherever the page reads something that may be
    absent: a missing row, `null`, `undefined` or a `NaN` date part. */
module Wrappers {
  datatype Option<+T> = None | Some(value: T)

  /** JavaScript truthiness of a string that may be null: null and "" are falsy. */
  predicate Truthy(s: Option<string>) {
    s.Some? && s.value != ""
  }
}
