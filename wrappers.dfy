/** The optional value used throughout the model for "no result" (JavaScript's `null`). */
module Wrappers {

  datatype Option<+T> = None | Some(value: T)
}
