/** Fixed-width integer encodings shared by the wire formats and the signing
    preimages: little-endian for frames, big-endian for signed payloads. */
module Bytes {
  type byte = b: int | 0 <= b < 256
  type bytes = seq<byte>

  const UINT16: nat := 0x1_0000
  const UINT32: nat := 0x1_0000_0000
  const UINT64: nat := 0x1_0000_0000_0000_0000

  type uint16 = n: int | 0 <= n < 0x1_0000
  type uint32 = n: int | 0 <= n < 0x1_0000_0000
  type uint64 = n: int | 0 <= n < 0x1_0000_0000_0000_0000
  type int64 = n: int | -0x8000_0000_0000_0000 <= n < 0x8000_0000_0000_0000

  /** A Go string: bytes whose length fits a machine word. */
  type text = s: bytes | |s| < 0x1_0000_0000_0000_0000

  function Pow256(n: nat): (p: nat)
    ensures p > 0
  {
    if n == 0 then 1 else 256 * Pow256(n - 1)
  }

  lemma Widths()
    ensures Pow256(1) == 256 && Pow256(2) == UINT16 && Pow256(4) == UINT32 && Pow256(8) == UINT64
  {
    assert Pow256(4) == 256 * (256 * (256 * (256 * Pow256(0))));
    assert Pow256(8) == 256 * (256 * (256 * (256 * Pow256(4))));
  }

  /** The `width` low-order bytes of `v`, least significant first. */
  function LE(width: nat, v: nat): (b: bytes)
    ensures |b| == width
  {
    if width == 0 then [] else [v % 256] + LE(width - 1, v / 256)
  }

  function FromLE(b: bytes): nat {
    if b == [] then 0 else b[0] + 256 * FromLE(b[1..])
  }

  /** The `width` low-order bytes of `v`, most significant first. */
  function BE(width: nat, v: nat): (b: bytes)
    ensures |b| == width
  {
    if width == 0 then [] else BE(width - 1, v / 256) + [v % 256]
  }

  /** Decoding an encoded value gives it back when it fits the width. */
  lemma {:induction false} FromLEOfLE(width: nat, v: nat)
    requires v < Pow256(width)
    ensures FromLE(LE(width, v)) == v
  {
    if width > 0 {
      FromLEOfLE(width - 1, v / 256);
      assert LE(width, v)[1..] == LE(width - 1, v / 256);
    }
  }

  /** Re-encoding a decoded field gives the field back, and the value fits. */
  lemma {:induction false} LEOfFromLE(b: bytes)
    ensures LE(|b|, FromLE(b)) == b && FromLE(b) < Pow256(|b|)
  {
    if b != [] {
      LEOfFromLE(b[1..]);
      assert b == [b[0]] + b[1..];
    }
  }

  /** Reducing a field's value to its own width changes nothing. */
  lemma {:induction false} FieldInverse(b: bytes, modulus: nat)
    requires modulus == Pow256(|b|)
    ensures FromLE(b) < modulus && LE(|b|, FromLE(b) % modulus) == b
  {
    LEOfFromLE(b);
    SmallMod(FromLE(b), modulus);
  }

  lemma SmallMod(n: nat, m: nat)
    requires n < m
    ensures n % m == n
  {}

  /** Equal big-endian fields hold equal values. */
  lemma {:induction false} BEInjective(width: nat, v: nat, w: nat)
    requires v < Pow256(width) && w < Pow256(width)
    requires BE(width, v) == BE(width, w)
    ensures v == w
  {
    if width > 0 {
      var a, b := BE(width - 1, v / 256), BE(width - 1, w / 256);
      assert BE(width, v)[..width - 1] == a && BE(width, w)[..width - 1] == b;
      assert v % 256 == BE(width, v)[width - 1] == BE(width, w)[width - 1] == w % 256;
      BEInjective(width - 1, v / 256, w / 256);
    }
  }

  /** The bit pattern of a signed 64-bit value read as unsigned. */
  function TwosComplement(v: int64): uint64 {
    if v < 0 then v + UINT64 else v
  }
}
