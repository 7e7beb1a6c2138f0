/** Option, the "absent is a normal result" wrapper used throughout the model. */
module Wrappers {
  datatype Option<+T> = None | Some(value: T)
}
