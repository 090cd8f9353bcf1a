/** Value types shared by the protocol models. */
module Wrappers {
  datatype Option<+T> = None | Some(value: T)
}

/** Bytes as the wire carries them: integers below 256. */
module Bytes {
  type Byte = x: int | 0 <= x < 256
}
