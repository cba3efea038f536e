/** The optional-value datatype used across the model (PHP's `null` versus a value). */
module Wrappers {

  datatype Option<+T> = None | Some(value: T)
}
