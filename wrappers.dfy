/** The optional value used for frames and requests that may be absent. */
module Wrappers {
  datatype Option<+T> = None | Some(value: T)
}
