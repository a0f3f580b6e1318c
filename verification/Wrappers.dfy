/** An optional value, standing for the null pointers and out-parameters of the source. */
module Wrappers {
  datatype Option<+T> = None | Some(value: T)
}
