/** The optional value used where the source reads an attribute or a
    return value that may be nil. */
module Wrappers {

  datatype Option<+T> = None | Some(value: T)
}
