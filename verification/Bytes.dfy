/** Bytes, optional values and the fixed-width integers of the wire and file formats. */
module Bytes {

  type byte = b: int | 0 <= b < 256

  datatype Option<+T> = None | Some(value: T)

  /** `ntohs` of the first two bytes. */
  function Be16(s: seq<byte>): nat
    requires |s| >= 2
  {
    var a: int, b: int := s[0], s[1];
    a * 256 + b
  }

  /** `ntohl` of the first four bytes, as an unsigned number. */
  function Be32(s: seq<byte>): nat
    requires |s| >= 4
  {
    var a: int, b: int, c: int, d: int := s[0], s[1], s[2], s[3];
    ((a * 256 + b) * 256 + c) * 256 + d
  }

  function Le16(s: seq<byte>): nat
    requires |s| >= 2
  {
    var a: int, b: int := s[0], s[1];
    b * 256 + a
  }

  function Le32(s: seq<byte>): nat
    requires |s| >= 4
  {
    var a: int, b: int, c: int, d: int := s[0], s[1], s[2], s[3];
    ((d * 256 + c) * 256 + b) * 256 + a
  }

  /** `n` zero bytes. */
  function Zeros(n: nat): (r: seq<byte>)
    ensures |r| == n && forall i :: 0 <= i < n ==> r[i] == 0
  {
    seq(n, _ => 0)
  }
}
