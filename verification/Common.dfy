/** What several parts share. */
module Common {

  datatype Option<+T> = None | Some(value: T)

  type Byte = b: int | 0 <= b < 256

  /** Sequence numbers on the wire are 16 bits wide. */
  const SEQ_RANGE: int := 65536
}
