/** The optional value used wherever the Go code has a value that may be absent
    (a nil error, a capability a command does not implement). */
module Wrappers {

  datatype Option<+T> = None | Some(value: T)
}
