/** The Option datatype shared by the other modules, and the byte type of the wire. */
module Wrappers {
  datatype Option<+T> = None | Some(value: T)

  type Byte = b: int | 0 <= b < 256
}
