/** The optional value used wherever the modelled code may find nothing (an unreadable file). */
module Wrappers {
  datatype Option<+T> = None | Some(value: T)
}
