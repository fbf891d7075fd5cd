/** The 7-byte Somfy RTS frame: building one for transmission and decoding one off the air. */
module Frames {
  import opened Basics

  const FRAME_SIZE := 7
  const FIXED_KEY: bv8 := 0x50
  const MY: bv8 := 1
  const UP: bv8 := 2
  const DOWN: bv8 := 4

  type Frame = f: seq<bv8> | |f| == FRAME_SIZE witness seq(FRAME_SIZE, _ => 0)

  // ---------------------------------------------------------------- the XOR chain

  function Xor(a: bv8, b: bv8): bv8 {
    a ^ b
  }

  lemma XorTwice(a: bv8, b: bv8)
    ensures Xor(Xor(a, b), b) == a
    ensures Xor(a, Xor(b, a)) == b
    ensures Xor(0, a) == a
  {
  }

  /** Each byte XORed with the encoded byte before it. */
  function Chain(s: seq<bv8>): (r: seq<bv8>)
    ensures |r| == |s|
  {
    if |s| <= 1 then s
    else var r := Chain(s[..|s| - 1]); r + [Xor(s[|s| - 1], r[|s| - 2])]
  }

  /** Each byte XORed with the byte before it. */
  function Unchain(s: seq<bv8>): (r: seq<bv8>)
    ensures |r| == |s|
  {
    if |s| <= 1 then s
    else Unchain(s[..|s| - 1]) + [Xor(s[|s| - 1], s[|s| - 2])]
  }

  function XorAll(s: seq<bv8>): bv8 {
    if s == [] then 0 else Xor(XorAll(s[..|s| - 1]), s[|s| - 1])
  }

  lemma {:induction false} UnchainChain(s: seq<bv8>)
    ensures Unchain(Chain(s)) == s
  {
    hide Xor;
    if |s| > 1 {
      var n := |s| - 1;
      UnchainChain(s[..n]);
      assert Chain(s)[..n] == Chain(s[..n]);
      XorTwice(s[n], Chain(s)[n - 1]);
    }
  }

  lemma {:induction false} ChainUnchain(s: seq<bv8>)
    ensures Chain(Unchain(s)) == s
  {
    hide Xor;
    if |s| > 1 {
      var n := |s| - 1;
      ChainUnchain(s[..n]);
      var u, x := Unchain(s[..n]), Xor(s[n], s[n - 1]);
      assert (u + [x])[..n] == u && Chain(u) == s[..n];
      assert Chain(u + [x]) == s[..n] + [Xor(x, s[n - 1])];
      XorTwice(s[n], s[n - 1]);
    }
  }

  /** Telescoping: the XOR of the decoded bytes of a chain of any length is its last byte on air. */
  lemma {:induction false} Telescope(s: seq<bv8>)
    requires s != []
    ensures XorAll(Unchain(s)) == s[|s| - 1]
  {
    hide Xor;
    var n := |s| - 1;
    if n > 0 {
      Telescope(s[..n]);
      assert Unchain(s)[..n] == Unchain(s[..n]);
      XorTwice(s[n - 1], s[n]);
    } else {
      assert Unchain(s)[..n] == [];
      XorTwice(s[0], 0);
    }
  }

  // ---------------------------------------------------------------- the nibble checksum

  /** The XOR of a byte's two nibbles, in the low nibble. */
  function Fold(b: bv8): bv8 {
    Xor(b, b >> 4)
  }

  function Checksum(s: seq<bv8>): bv8 {
    if s == [] then 0 else Xor(Checksum(s[..|s| - 1]), Fold(s[|s| - 1]))
  }

  lemma FoldXor(x: bv8, b: bv8)
    ensures Xor(Fold(x), Fold(b)) == Fold(Xor(x, b))
  {
    ShiftXor(x, b);
    XorPairs(x, x >> 4, b, b >> 4);
  }

  lemma ShiftXor(x: bv8, b: bv8)
    ensures Xor(x, b) >> 4 == Xor(x >> 4, b >> 4)
  {
  }

  lemma XorPairs(a: bv8, b: bv8, c: bv8, d: bv8)
    ensures Xor(Xor(a, b), Xor(c, d)) == Xor(Xor(a, c), Xor(b, d))
  {
    hide Xor;
    XorAssoc(a, b, Xor(c, d));
    XorAssoc(b, c, d);
    XorAssoc(c, b, d);
    XorAssoc(a, c, Xor(b, d));
  }

  lemma XorAssoc(a: bv8, b: bv8, c: bv8)
    ensures Xor(Xor(a, b), c) == Xor(a, Xor(b, c))
    ensures Xor(a, b) == Xor(b, a)
  {
  }

  lemma {:induction false} ChecksumOfXor(s: seq<bv8>)
    ensures Checksum(s) == Fold(XorAll(s))
  {
    if s != [] {
      hide Xor, Fold;
      var n := |s| - 1;
      ChecksumOfXor(s[..n]);
      FoldXor(XorAll(s[..n]), s[n]);
    }
  }

  lemma XorSwap(x: bv8, a: bv8, b: bv8, c: bv8)
    ensures Xor(x, b) == Xor(Xor(Xor(x, a), a), b)
    ensures Xor(Xor(Xor(x, a), b), c) == Xor(Xor(Xor(x, c), a), b)
  {
  }

  lemma {:induction false} ChecksumUpdate(s: seq<bv8>, i: nat, b: bv8)
    requires i < |s|
    ensures Checksum(s[i := b]) == Xor(Xor(Checksum(s), Fold(s[i])), Fold(b))
  {
    hide Xor, Fold;
    var n := |s| - 1;
    if i < n {
      ChecksumUpdate(s[..n], i, b);
      assert s[i := b][..n] == s[..n][i := b];
      XorSwap(Checksum(s[..n]), Fold(s[i]), Fold(b), Fold(s[n]));
    } else {
      assert s[i := b][..n] == s[..n];
      XorSwap(Checksum(s[..n]), Fold(s[n]), Fold(b), 0);
    }
  }

  // ---------------------------------------------------------------- encoding and decoding

  /** A received command: only these three parts of a frame are used. */
  datatype Command = Command(remoteId: bv32, rollingCode: bv16, button: bv8)

  /** Byte 0 (lowest), 1 or 2 of a remote id, and a remote id from its three bytes. */
  function IdByte(remoteId: bv32, n: nat): bv8
    requires n < 3
  {
    if n == 0 then (remoteId & 0xFF) as bv8
    else if n == 1 then ((remoteId >> 8) & 0xFF) as bv8
    else ((remoteId >> 16) & 0xFF) as bv8
  }

  function JoinId(b2: bv8, b1: bv8, b0: bv8): bv32 {
    (b2 as bv32 << 16) | (b1 as bv32 << 8) | b0 as bv32
  }

  function RollHigh(rollingCode: bv16): bv8 {
    (rollingCode >> 8) as bv8
  }

  function RollLow(rollingCode: bv16): bv8 {
    (rollingCode & 0xFF) as bv8
  }

  function JoinRoll(high: bv8, low: bv8): bv16 {
    (high as bv16 << 8) | low as bv16
  }

  function ButtonByte(button: bv32): bv8 {
    ((button << 4) & 0xFF) as bv8
  }

  function LowButton(button: bv32): bv8 {
    (button & 0x0F) as bv8
  }

  function High(b: bv8): bv8 {
    b & 0xF0
  }

  function Low(b: bv8): bv8 {
    b & 0x0F
  }

  function Merge(high: bv8, low: bv8): bv8 {
    high | low
  }

  function Plain(key: bv8, remoteId: bv32, rollingCode: bv16, button: bv32): Frame {
    [ key, ButtonByte(button),
      RollHigh(rollingCode), RollLow(rollingCode),
      IdByte(remoteId, 2), IdByte(remoteId, 1), IdByte(remoteId, 0) ]
  }

  /** The frame put on air, for any value of the key byte. */
  function EncodeKey(key: bv8, remoteId: bv32, rollingCode: bv16, button: bv32): Frame {
    var p := Plain(key, remoteId, rollingCode, button);
    Chain(p[1 := Merge(p[1], Low(Checksum(p)))])
  }

  function Encode(remoteId: bv32, rollingCode: bv16, button: bv32): Frame {
    EncodeKey(FIXED_KEY, remoteId, rollingCode, button)
  }

  predicate KnownButton(button: bv8) {
    button == MY || button == UP || button == DOWN
  }

  /** The receiver's checksum test, on the decoded bytes. */
  predicate ChecksumPasses(d: Frame) {
    Low(Checksum(d[1 := High(d[1])])) == Low(d[1])
  }

  function Fields(d: Frame): Command {
    Command(JoinId(d[4], d[5], d[6]), JoinRoll(d[2], d[3]), d[1] >> 4)
  }

  function Decode(f: Frame): Option<Command> {
    var d := Unchain(f);
    if ChecksumPasses(d) && KnownButton(d[1] >> 4) then Some(Fields(d)) else None
  }

  /** The checksum test looks at one on-air byte, whose two nibbles must be equal; a frame is
      accepted when in addition its button nibble is My, Up or Down. */
  lemma AcceptedLanguage(f: Frame)
    ensures ChecksumPasses(Unchain(f)) <==> f[FRAME_SIZE - 1] >> 4 == f[FRAME_SIZE - 1] & 0x0F
    ensures Decode(f).Some? <==>
            f[FRAME_SIZE - 1] >> 4 == f[FRAME_SIZE - 1] & 0x0F && KnownButton((f[0] ^ f[1]) >> 4)
  {
    hide Unchain, Checksum, Fold;
    var d := Unchain(f);
    Telescope(f);
    ChecksumOfXor(d);
    ChecksumUpdate(d, 1, High(d[1]));
    SplitNibbles(Fold(f[FRAME_SIZE - 1]), d[1]);
    EvenFold(f[FRAME_SIZE - 1]);
    UnchainAt(f, 1);
  }

  lemma SplitNibbles(x: bv8, b: bv8)
    ensures Xor(Xor(x, Fold(b)), Fold(b & 0xF0)) & 0x0F == b & 0x0F <==> x & 0x0F == 0
  {
  }

  lemma EvenFold(m: bv8)
    ensures Fold(m) & 0x0F == 0 <==> m >> 4 == m & 0x0F
  {
  }

  lemma {:induction false} UnchainAt(s: seq<bv8>, i: nat)
    requires i < |s|
    ensures Unchain(s)[i] == if i == 0 then s[0] else Xor(s[i], s[i - 1])
  {
    hide Xor;
    if i < |s| - 1 {
      UnchainAt(s[..|s| - 1], i);
    }
  }

  lemma JoinBytes(remoteId: bv32, rollingCode: bv16)
    ensures JoinId(IdByte(remoteId, 2), IdByte(remoteId, 1), IdByte(remoteId, 0)) == remoteId & 0xFF_FFFF
    ensures JoinRoll(RollHigh(rollingCode), RollLow(rollingCode)) == rollingCode
  {
  }

  lemma SplitBytes(high: bv8, low: bv8, b2: bv8, b1: bv8, b0: bv8)
    ensures var id := JoinId(b2, b1, b0);
            id <= 0xFF_FFFF && IdByte(id, 2) == b2 && IdByte(id, 1) == b1 && IdByte(id, 0) == b0
    ensures RollHigh(JoinRoll(high, low)) == high && RollLow(JoinRoll(high, low)) == low
  {
  }

  lemma NibbleBytes(button: bv32, sum: bv8)
    ensures var b := Merge(ButtonByte(button), Low(sum));
            High(b) == ButtonByte(button) && Low(b) == Low(sum) && b >> 4 == LowButton(button)
  {
  }

  lemma RestoreNibble(b: bv8, sum: bv8)
    requires Low(sum) == Low(b)
    ensures Merge(High(b), Low(sum)) == b && ButtonByte((b >> 4) as bv32) == High(b)
  {
  }

  /** Decoding what was encoded gives the command back: the rolling code, the low 24 bits of the
      remote id and the low nibble of the buttons, provided those are My, Up or Down. Any other
      button nibble makes the frame one that receivers of this kind ignore. */
  lemma DecodeEncode(key: bv8, remoteId: bv32, rollingCode: bv16, button: bv32)
    ensures Decode(EncodeKey(key, remoteId, rollingCode, button)) ==
            if KnownButton(LowButton(button))
            then Some(Command(remoteId & 0xFF_FFFF, rollingCode, LowButton(button))) else None
    ensures Unchain(EncodeKey(key, remoteId, rollingCode, button))[0] == key
  {
    hide Chain, Unchain, Checksum, KnownButton, LowButton, ButtonByte, JoinId, IdByte, JoinRoll, RollHigh, RollLow,
      High, Low, Merge;
    var p := Plain(key, remoteId, rollingCode, button);
    var d := p[1 := Merge(p[1], Low(Checksum(p)))];
    UnchainChain(d);
    NibbleBytes(button, Checksum(p));
    JoinBytes(remoteId, rollingCode);
    assert d[1 := p[1]] == p;
  }

  /** Every accepted frame is the encoding, under its own key byte, of the command it decodes to. */
  lemma EncodeDecode(f: Frame)
    requires Decode(f).Some?
    ensures var c := Decode(f).value;
            && f == EncodeKey(f[0], c.remoteId, c.rollingCode, c.button as bv32)
            && c.remoteId <= 0xFF_FFFF && KnownButton(c.button)
  {
    hide Chain, Unchain, Checksum, KnownButton, ButtonByte, JoinId, IdByte, JoinRoll, RollHigh, RollLow, High, Low,
      Merge;
    var d := Unchain(f);
    UnchainAt(f, 0);
    ChainUnchain(f);
    PlainOfFields(d);
    RestoreNibble(d[1], Checksum(d[1 := High(d[1])]));
    assert d[1 := High(d[1])][1 := d[1]] == d;
  }

  lemma PlainOfFields(d: Frame)
    ensures var c := Fields(d);
            Plain(d[0], c.remoteId, c.rollingCode, c.button as bv32) == d[1 := High(d[1])] && c.remoteId <= 0xFF_FFFF
  {
    hide ButtonByte, JoinId, IdByte, JoinRoll, RollHigh, RollLow, High, Low, Merge;
    SplitBytes(d[2], d[3], d[4], d[5], d[6]);
    RestoreNibble(d[1], d[1]);
  }

  /** The codec is a bijection between the frames that are accepted and carry the fixed key, and
      the commands with a 24-bit remote id, a 16-bit rolling code and a known button. */
  lemma CodecBijection(f: Frame, c: Command)
    requires c.remoteId <= 0xFF_FFFF && KnownButton(c.button)
    ensures f == Encode(c.remoteId, c.rollingCode, c.button as bv32) <==> Decode(f) == Some(c) && f[0] == FIXED_KEY
  {
    DecodeEncode(FIXED_KEY, c.remoteId, c.rollingCode, c.button as bv32);
    SmallFields(c);
    UnchainAt(Encode(c.remoteId, c.rollingCode, c.button as bv32), 0);
    hide Chain, Unchain, Checksum, Decode, EncodeKey, KnownButton, LowButton;
    if Decode(f).Some? {
      EncodeDecode(f);
    }
  }

  lemma SmallFields(c: Command)
    requires c.remoteId <= 0xFF_FFFF && KnownButton(c.button)
    ensures c.remoteId & 0xFF_FFFF == c.remoteId && LowButton(c.button as bv32) == c.button
  {
  }
}
