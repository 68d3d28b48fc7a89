/** The optional value used for the source's `null` results and for quotients JavaScript leaves non-finite. */
module Wrappers {
  datatype Option<+T> = None | Some(value: T)
}
