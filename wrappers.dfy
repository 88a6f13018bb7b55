/** The optional value used for "no match" results and for nullable response fields. */
module Wrappers {

  datatype Option<+T> = None | Some(value: T)
}
