/** The optional value used wherever the settings editor or the matcher may have nothing. */
module Wrappers {
  datatype Option<T> = None | Some(value: T)
}
