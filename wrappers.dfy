/** The optional-value type used for operations that can raise in the source. */
module Wrappers {

  /** `None` stands for a raised exception, `Some(v)` for a normal return. */
  datatype Option<+T> = None | Some(value: T)
}
