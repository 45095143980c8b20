/** The optional value used wherever the source returns a nil pointer, an empty string or a not-found error. */
module Wrappers {

  datatype Option<+T> = None | Some(value: T)
}
