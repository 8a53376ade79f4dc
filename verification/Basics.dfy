/** What several parts of the model share. */
module Basics {

  /** A value that may be missing: the source's null pointers. */
  datatype Option<+T> = None | Some(value: T)

  type Byte = b: int | 0 <= b < 256
}
