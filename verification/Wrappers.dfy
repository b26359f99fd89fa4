/** Small types used throughout: a value that may be absent (the source's NULL), and bytes. */
module Wrappers {
  datatype Option<+T> = None | Some(value: T)

  type byte = x: int | 0 <= x < 256
}
