/** Values shared by every component: options and opaque byte strings. */
module Common {

  datatype Option<+T> = None | Some(value: T)

  newtype Byte = b: int | 0 <= b < 256

  /** A QUIC connection ID; the empty one means that no ID is in use. */
  type ConnectionId = seq<Byte>

  /** A stateless reset token. */
  type ResetToken = seq<Byte>

  function Min(a: int, b: int): int {
    if a < b then a else b
  }

  function Max(a: int, b: int): int {
    if a < b then b else a
  }
}
