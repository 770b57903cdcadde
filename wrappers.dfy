/** The optional value behind the source's nullable references. */
module Wrappers {

  datatype Option<+T> = None | Some(value: T)
}
