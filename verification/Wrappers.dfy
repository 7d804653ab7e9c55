// A value that may be missing -- a nil node, a file that is not there, an
// unset variable -- and the bytes of files and connections.

module Wrappers {

  datatype Option<+T> = None | Some(value: T)

  type Byte = x: int | 0 <= x < 256

  type Bytes = seq<Byte>
}
