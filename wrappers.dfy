/** The optional value used wherever the source returns `null` or may fail. */
module Wrappers {

  datatype Option<+T> = None | Some(value: T)
}
