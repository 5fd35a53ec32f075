/** The optional value used where the script either finds a file or does not. */
module Wrappers {
  datatype Option<+T> = None | Some(value: T)
}
