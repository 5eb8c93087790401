/** The optional value used wherever the Go code has a nil pointer, a missing map entry or a failed lookup. */
module Wrappers {

  datatype Option<+T> = None | Some(value: T)
}
