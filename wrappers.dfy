/** Small helper datatypes shared by the cart and checkout modules. */
module Wrappers {

  /** A value that may be absent, as the result of a `find` that may not match. */
  datatype Option<+T> = None | Some(value: T)
}
