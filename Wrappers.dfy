/** An optional value: the model's stand-in for the source's `null`. */
module Wrappers {
  datatype Option<+T> = None | Some(value: T)
}
