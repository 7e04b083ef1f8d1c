/** Types shared by the whole project. */
module Common {

  type byte = b: int | 0 <= b < 256

  /** The name of the entry that closes an archive. */
  const TRAILER_NAME: seq<byte> := [84, 82, 65, 73, 76, 69, 82, 33, 33, 33]

  datatype Option<+T> = None | Some(value: T)
}
