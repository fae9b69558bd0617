/** Small value wrappers shared by the other modules. */
module Wrappers {

  /** A value that may be absent: a Go result paired with a nil/non-nil error. */
  datatype Option<+T> = None | Some(value: T)
}
