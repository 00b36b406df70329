/** The optional value used wherever the program returns `null`, leaves a field
    undefined or finds nothing. */
module Wrappers {
  datatype Option<+T> = None | Some(value: T)
}
