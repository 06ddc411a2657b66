/** The optional value used for "not a number" and "not a date". */
module Wrappers {

  datatype Option<+T> = None | Some(value: T)
}
