/** The two result shapes shared by every module. */
module Wrappers {

  datatype Option<+T> = None | Some(value: T)

  datatype Result<+R, +E> = Success(value: R) | Failure(error: E)
}

/** Bytes as small integers, so that codecs stay within integer arithmetic. */
module ByteStrings {
  type byte = x: int | 0 <= x < 256
  type Bytes = seq<byte>
}
