/** A nullable reference: `None` plays the part of C's NULL. */
module Wrappers {

  datatype Option<+T> = None | Some(value: T)
}
