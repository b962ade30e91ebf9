/** The optional value that the handoff arrays hold per slot. */
module Wrappers {

  datatype Option<+T> = None | Some(value: T)
}
