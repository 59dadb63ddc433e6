/** Bytes as the Go program sees them, and the protocol's fixed byte values. */
module Wire {

  /** A Go `byte`. */
  newtype byte = x: int | 0 <= x < 256

  /** A Go `[]byte` (or a Go `string`, which is an immutable byte sequence). */
  type Bytes = seq<byte>

  datatype Option<T> = None | Some(value: T)

  const CR: byte := 13
  const LF: byte := 10
  const CRLF: Bytes := [CR, LF]

  // RESP type markers
  const PLUS: byte := 43    // '+' simple string
  const MINUS: byte := 45   // '-' error string, also a numeric sign
  const COLON: byte := 58   // ':' integer
  const DOLLAR: byte := 36  // '$' bulk string
  const STAR: byte := 42    // '*' array

  /** A freshly made Go byte slice of length n: all zero. */
  function Zeros(n: nat): (z: Bytes)
    ensures |z| == n
    ensures forall i :: 0 <= i < n ==> z[i] == 0
  {
    seq(n, _ => 0)
  }
}
