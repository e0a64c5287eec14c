/** Fixed-width little-endian integers. */
module Bytes {
  import opened Rounding

  type Byte = b: int | 0 <= b < 256

  /** The number a sequence of bytes spells, least significant first. */
  function Decode(bytes: seq<Byte>): nat {
    if bytes == [] then 0 else bytes[0] + 256 * Decode(bytes[1..])
  }

  /** The lowest `width` bytes of a number. */
  function Encode(n: nat, width: nat): (bytes: seq<Byte>)
    ensures |bytes| == width
  {
    if width == 0 then [] else [n % 256] + Encode(n / 256, width - 1)
  }

  lemma {:induction false} DecodeInRange(bytes: seq<Byte>)
    ensures Decode(bytes) < Power(256, |bytes|)
  {
    if bytes != [] {
      DecodeInRange(bytes[1..]);
    }
  }

  /** A number that fits is read back. */
  lemma {:induction false} DecodeEncode(n: nat, width: nat)
    requires n < Power(256, width)
    ensures Decode(Encode(n, width)) == n
  {
    if width > 0 {
      FloorBounds(n, 256);
      DecodeEncode(n / 256, width - 1);
      assert Encode(n, width)[1..] == Encode(n / 256, width - 1);
    }
  }

  /** Two's complement: the upper half of the range stands for negative numbers. */
  function Signed(n: int, width: Pos): int {
    if 2 * n < Power(256, width) then n else n - Power(256, width)
  }

  function Unsign(n: int, width: Pos): int {
    if 0 <= n then n else n + Power(256, width)
  }

  /** `width` bytes from `offset` on. */
  function Field(bytes: seq<Byte>, offset: nat, width: nat): nat
    requires offset + width <= |bytes|
  {
    Decode(bytes[offset..offset + width])
  }
}
