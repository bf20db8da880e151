/** The optional value used throughout the model for "no detection" and
    "no capture this frame". */
module Wrappers {

  datatype Option<+T> = None | Some(value: T)
}
