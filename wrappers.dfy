/** The conventional optional value, used for calls that may raise. */
module Wrappers {

  datatype Option<+T> = None | Some(value: T)
}
