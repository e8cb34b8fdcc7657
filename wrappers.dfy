/** Small value wrappers shared by the server and client models. */
module Wrappers {

  /** A value that may be missing (JavaScript's null/undefined, or "not found"). */
  datatype Option<+T> = None | Some(value: T)
}
