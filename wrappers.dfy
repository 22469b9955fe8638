/** The optional value used wherever the source fills an out-parameter only on success. */
module Wrappers {

  datatype Option<+T> = None | Some(value: T)
}
