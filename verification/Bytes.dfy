/** Integers in network byte order. */
module Bytes {
  import opened Serial

  function Be16(b: seq<byte>, at: nat): u16
    requires at + 2 <= |b|
  {
    0x100 * (b[at] as int) + b[at + 1] as int
  }

  function Put16(x: u16): (r: seq<byte>)
    ensures |r| == 2
  {
    [x / 0x100, x % 0x100]
  }
}
