/** The optional value used for token values and optional hook arguments. */
module Wrappers {
  datatype Option<+T> = None | Some(value: T)
}
