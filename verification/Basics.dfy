/** Integer widths of the firmware, their little-endian layout, and the option type shared by
    every component. */
module Basics {
  datatype Option<+T> = None | Some(value: T)

  type Byte = x: int | 0 <= x < 0x100
  type u16 = x: int | 0 <= x < 0x1_0000
  type u32 = x: int | 0 <= x < 0x1_0000_0000

  /** Little-endian layout of a 16-bit and a 32-bit word. */
  function Bytes16(w: u16): (b: seq<Byte>)
    ensures |b| == 2
  {
    [w % 0x100, w / 0x100]
  }

  function Bytes32(w: u32): (b: seq<Byte>)
    ensures |b| == 4
  {
    var w1 := w / 0x100;
    var w2 := w1 / 0x100;
    [w % 0x100, w1 % 0x100, w2 % 0x100, w2 / 0x100]
  }

  function Word16(b: seq<Byte>, offset: nat): u16
    requires offset + 2 <= |b|
  {
    var b0: int, b1: int := b[offset], b[offset + 1];
    b0 + 0x100 * b1
  }

  function Word32(b: seq<Byte>, offset: nat): u32
    requires offset + 4 <= |b|
  {
    var b0: int, b1: int, b2: int, b3: int := b[offset], b[offset + 1], b[offset + 2], b[offset + 3];
    b0 + 0x100 * (b1 + 0x100 * (b2 + 0x100 * b3))
  }

  /** A word written at an offset is read back from there. */
  lemma ReadBack16(b: seq<Byte>, offset: nat, w: u16)
    requires offset + 2 <= |b| && b[offset..offset + 2] == Bytes16(w)
    ensures Word16(b, offset) == w
  {
    var part := b[offset..offset + 2];
    assert b[offset] == part[0] && b[offset + 1] == part[1];
  }

  lemma ReadBack32(b: seq<Byte>, offset: nat, w: u32)
    requires offset + 4 <= |b| && b[offset..offset + 4] == Bytes32(w)
    ensures Word32(b, offset) == w
  {
  }

  lemma CardinalityMonotone<T>(a: set<T>, b: set<T>)
    requires a <= b
    ensures |a| <= |b|
  {
    assert b == a + (b - a);
  }
}
