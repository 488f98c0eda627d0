/** Failure-compatible optional value, used for the text prompt's answer
    and for JavaScript's `undefined`. */
module Wrappers {

  datatype Option<+T> = None | Some(value: T)
}
