/** Numbers as the machine words that go on air, bit by bit and byte by byte, and back. */
module Words {
  import opened Basics

  predicate Odd(x: int) {
    x % 2 == 1
  }

  function OfBits(b7: bool, b6: bool, b5: bool, b4: bool, b3: bool, b2: bool, b1: bool, b0: bool): bv8 {
    (if b7 then 0x80 else 0) | (if b6 then 0x40 else 0) | (if b5 then 0x20 else 0) | (if b4 then 0x10 else 0)
    | (if b3 then 0x08 else 0) | (if b2 then 0x04 else 0) | (if b1 then 0x02 else 0) | (if b0 then 0x01 else 0)
  }

  /** The low eight bits of a number, from the lowest on. */
  function Bits8(x: int): bv8 {
    var x1 := x / 2;
    var x2 := x1 / 2;
    var x3 := x2 / 2;
    var x4 := x3 / 2;
    var x5 := x4 / 2;
    var x6 := x5 / 2;
    var x7 := x6 / 2;
    OfBits(Odd(x7), Odd(x6), Odd(x5), Odd(x4), Odd(x3), Odd(x2), Odd(x1), Odd(x))
  }

  function Bits16(x: u16): bv16 {
    (Bits8(x / 0x100) as bv16 << 8) | Bits8(x % 0x100) as bv16
  }

  function Join32(b3: bv8, b2: bv8, b1: bv8, b0: bv8): bv32 {
    (b3 as bv32 << 24) | (b2 as bv32 << 16) | (b1 as bv32 << 8) | b0 as bv32
  }

  /** The low 32 bits of a number. */
  function Bits32(x: int): bv32 {
    Join32(Bits8(x / 0x100_0000 % 0x100), Bits8(x / 0x1_0000 % 0x100), Bits8(x / 0x100 % 0x100), Bits8(x % 0x100))
  }

  function Number8(b: bv8): (n: int)
    ensures 0 <= n < 0x100
  {
    (if b & 0x80 != 0 then 0x80 else 0) + (if b & 0x40 != 0 then 0x40 else 0) + (if b & 0x20 != 0 then 0x20 else 0)
    + (if b & 0x10 != 0 then 0x10 else 0) + (if b & 0x08 != 0 then 8 else 0) + (if b & 0x04 != 0 then 4 else 0)
    + (if b & 0x02 != 0 then 2 else 0) + (if b & 0x01 != 0 then 1 else 0)
  }

  function Number16(w: bv16): u16 {
    0x100 * Number8((w >> 8) as bv8) + Number8((w & 0xFF) as bv8)
  }

  function Number32(w: bv32): u32 {
    var b0, b1 := Number8((w & 0xFF) as bv8), Number8(((w >> 8) & 0xFF) as bv8);
    var b2, b3 := Number8(((w >> 16) & 0xFF) as bv8), Number8((w >> 24) as bv8);
    b0 + 0x100 * b1 + 0x1_0000 * b2 + 0x100_0000 * b3
  }

  lemma SameByte(x: int)
    requires 0 <= x < 0x100
    ensures Number8(Bits8(x)) == x
  {
    hide OfBits, Number8, Odd, SumOf;
    var x1 := Half(x, 0x80);
    var x2 := Half(x1, 0x40);
    var x3 := Half(x2, 0x20);
    var x4 := Half(x3, 0x10);
    var x5 := Half(x4, 8);
    var x6 := Half(x5, 4);
    var x7 := Half(x6, 2);
    var x8 := Half(x7, 1);
    BitsBack(Odd(x7), Odd(x6), Odd(x5), Odd(x4), Odd(x3), Odd(x2), Odd(x1), Odd(x));
    FourHalves(x, x1, x2, x3, x4, Odd(x), Odd(x1), Odd(x2), Odd(x3));
    FourHalves(x4, x5, x6, x7, x8, Odd(x4), Odd(x5), Odd(x6), Odd(x7));
    SumIs(x, x4, Odd(x7), Odd(x6), Odd(x5), Odd(x4), Odd(x3), Odd(x2), Odd(x1), Odd(x));
  }

  lemma Half(x: int, n: int) returns (h: int)
    requires 0 <= x < 2 * n
    ensures h == x / 2 && 0 <= h < n && x == 2 * h + One(Odd(x))
  {
    h := x / 2;
  }

  function One(b: bool): int {
    if b then 1 else 0
  }

  function SumOf(b7: bool, b6: bool, b5: bool, b4: bool, b3: bool, b2: bool, b1: bool, b0: bool): int {
    0x80 * One(b7) + 0x40 * One(b6) + 0x20 * One(b5) + 0x10 * One(b4)
    + 8 * One(b3) + 4 * One(b2) + 2 * One(b1) + One(b0)
  }

  lemma FourHalves(x: int, x1: int, x2: int, x3: int, x4: int, b0: bool, b1: bool, b2: bool, b3: bool)
    requires x == 2 * x1 + One(b0) && x1 == 2 * x2 + One(b1) && x2 == 2 * x3 + One(b2) && x3 == 2 * x4 + One(b3)
    ensures x == 0x10 * x4 + 8 * One(b3) + 4 * One(b2) + 2 * One(b1) + One(b0)
  {
    hide One;
  }

  lemma SumIs(x: int, x4: int, b7: bool, b6: bool, b5: bool, b4: bool, b3: bool, b2: bool, b1: bool, b0: bool)
    requires x == 0x10 * x4 + 8 * One(b3) + 4 * One(b2) + 2 * One(b1) + One(b0)
    requires x4 == 8 * One(b7) + 4 * One(b6) + 2 * One(b5) + One(b4)
    ensures x == SumOf(b7, b6, b5, b4, b3, b2, b1, b0)
  {
    hide One;
  }

  lemma BitsBack(b7: bool, b6: bool, b5: bool, b4: bool, b3: bool, b2: bool, b1: bool, b0: bool)
    ensures Number8(OfBits(b7, b6, b5, b4, b3, b2, b1, b0)) == SumOf(b7, b6, b5, b4, b3, b2, b1, b0)
  {
  }

  lemma Halves(high: bv8, low: bv8)
    ensures var w := (high as bv16 << 8) | low as bv16;
            (w >> 8) as bv8 == high && (w & 0xFF) as bv8 == low
  {
  }

  lemma Same16(x: u16)
    ensures Number16(Bits16(x)) == x
  {
    hide Bits8, Number8;
    SameByte(x / 0x100);
    SameByte(x % 0x100);
    Halves(Bits8(x / 0x100), Bits8(x % 0x100));
  }

  lemma Quarters(b3: bv8, b2: bv8, b1: bv8, b0: bv8)
    ensures var w := Join32(b3, b2, b1, b0) & 0xFF_FFFF;
            && (w & 0xFF) as bv8 == b0 && ((w >> 8) & 0xFF) as bv8 == b1
            && ((w >> 16) & 0xFF) as bv8 == b2 && (w >> 24) as bv8 == 0
  {
  }

  /** The low 24 bits of a word are the number modulo 2^24. */
  lemma Low24(x: int)
    ensures Number32(Bits32(x) & 0xFF_FFFF) == x % 0x100_0000
  {
    hide Bits8, Join32, Number8;
    var b0, b1, b2, b3 := x % 0x100, x / 0x100 % 0x100, x / 0x1_0000 % 0x100, x / 0x100_0000 % 0x100;
    SameByte(b0);
    SameByte(b1);
    SameByte(b2);
    SameByte(0);
    Quarters(Bits8(b3), Bits8(b2), Bits8(b1), Bits8(b0));
    assert Number32(Bits32(x) & 0xFF_FFFF) == b0 + 0x100 * b1 + 0x1_0000 * b2 by {
      ZeroByte();
    }
    ThreeBytes(x);
  }

  lemma ZeroByte()
    ensures Number8(0) == 0
  {
  }

  lemma ThreeBytes(x: int)
    ensures x % 0x100 + 0x100 * (x / 0x100 % 0x100) + 0x1_0000 * (x / 0x1_0000 % 0x100) == x % 0x100_0000
  {
    assert x / 0x1_0000 == x / 0x100 / 0x100;
    assert x / 0x100_0000 == x / 0x1_0000 / 0x100;
  }

  /** The nibble a frame has for a button. */
  lemma LowNibble(x: int)
    requires 0 <= x < 0x10
    ensures (Bits32(x) & 0xF) as bv8 == Bits8(x) && Number8(Bits8(x)) == x
  {
    hide Bits8, Number8, Join32;
    SameByte(x);
    NibbleByte(Bits8(x), Bits8(x / 0x100 % 0x100), Bits8(x / 0x1_0000 % 0x100), Bits8(x / 0x100_0000 % 0x100));
    SmallByte(x);
  }

  lemma NibbleByte(b0: bv8, b1: bv8, b2: bv8, b3: bv8)
    ensures (Join32(b3, b2, b1, b0) & 0xF) as bv8 == b0 & 0xF
  {
  }

  lemma SmallByte(x: int)
    requires 0 <= x < 0x10
    ensures Bits8(x) & 0xF == Bits8(x)
  {
  }
}
