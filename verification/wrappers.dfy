/** The optional-value datatype used throughout the model for Go's nil-able values. */
module Wrappers {

  /** `None` stands for a nil value or a missing entry, `Some(v)` for a present value. */
  datatype Option<+T> = None | Some(value: T)
}
