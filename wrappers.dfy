/** `Option` and `Result` values shared by the modules of this model: `Option`
    stands for Python's `None`-or-value, `Result` for a value or a raised
    exception's message. */
module Wrappers {

  datatype Option<+T> = None | Some(value: T)

  datatype Result<+R, +E> = Success(value: R) | Failure(error: E)

  /** Python truthiness of a nullable string column: `None` and `""` are false. */
  predicate Truthy(s: Option<string>)
  {
    s.Some? && s.value != ""
  }
}
