/** The records the firmware keeps in its store, as bytes and as values. */
module Records {
  import opened Basics
  import opened Flash

  const NAME_SIZE := 48
  const MAX_BLINDS := 32
  const REMOTE_SIZE := 120
  const BLIND_SIZE := 68

  /** A C string's characters: no NUL among them. */
  predicate IsText(s: seq<Byte>) {
    0 !in s
  }

  /** A name that fits its field together with the terminating NUL. */
  type Name = s: seq<Byte> | IsText(s) && |s| < NAME_SIZE witness []

  type i32 = x: int | -0x8000_0000 <= x < 0x8000_0000

  datatype RemoteConfig = RemoteConfig(name: Name, remoteId: u32, rollingCode: u16, blinds: seq<u16>)

  datatype BlindConfig = BlindConfig(name: Name, currentPosition: i32, myPosition: i32,
                                     openTime: i32, closeTime: i32, remoteId: u32)

  // ---------------------------------------------------------------- fields

  /** Where the first NUL is, or the end. */
  function TextLength(b: seq<Byte>): (n: nat)
    ensures n <= |b|
    ensures 0 !in b[..n]
    ensures n < |b| ==> b[n] == 0
  {
    if b == [] || b[0] == 0 then 0
    else
      var n := 1 + TextLength(b[1..]);
      assert b[..n] == [b[0]] + b[1..][..n - 1];
      n
  }

  function Text(b: seq<Byte>): seq<Byte> {
    b[..TextLength(b)]
  }

  /** A string copied over whatever was in a field. */
  function TextField(s: seq<Byte>, field: seq<Byte>): (r: seq<Byte>)
    requires |s| < |field|
    ensures |r| == |field|
  {
    s + [0] + field[|s| + 1..]
  }

  lemma {:induction false} TextRoundTrip(s: seq<Byte>, rest: seq<Byte>)
    requires IsText(s)
    ensures Text(s + [0] + rest) == s
  {
    if s != [] {
      TextRoundTrip(s[1..], rest);
      assert (s + [0] + rest)[1..] == s[1..] + [0] + rest;
    }
  }

  function Words16(ws: seq<u16>): (b: seq<Byte>)
    ensures |b| == 2 * |ws|
  {
    if ws == [] then [] else Words16(ws[..|ws| - 1]) + Bytes16(ws[|ws| - 1])
  }

  function Words32(ws: seq<u32>): (b: seq<Byte>)
    ensures |b| == 4 * |ws|
  {
    if ws == [] then [] else Words32(ws[..|ws| - 1]) + Bytes32(ws[|ws| - 1])
  }

  function ReadWords16(b: seq<Byte>, offset: nat, count: nat): (ws: seq<u16>)
    requires offset + 2 * count <= |b|
    ensures |ws| == count
  {
    seq(count, i requires 0 <= i < count => Word16(b, offset + 2 * i))
  }

  function ReadWords32(b: seq<Byte>, offset: nat, count: nat): (ws: seq<u32>)
    requires offset + 4 * count <= |b|
    ensures |ws| == count
  {
    seq(count, i requires 0 <= i < count => Word32(b, offset + 4 * i))
  }

  lemma {:induction false} WordsRoundTrip16(b: seq<Byte>, offset: nat, ws: seq<u16>)
    requires offset + 2 * |ws| <= |b| && b[offset..offset + 2 * |ws|] == Words16(ws)
    ensures ReadWords16(b, offset, |ws|) == ws
  {
    if ws != [] {
      var n := |ws| - 1;
      var field := b[offset..offset + 2 * |ws|];
      assert b[offset..offset + 2 * n] == field[..2 * n];
      assert b[offset + 2 * n..offset + 2 * n + 2] == field[2 * n..];
      WordsRoundTrip16(b, offset, ws[..n]);
      ReadBack16(b, offset + 2 * n, ws[n]);
      assert forall i :: 0 <= i < n ==> ReadWords16(b, offset, n)[i] == ReadWords16(b, offset, |ws|)[i];
    }
  }

  lemma {:induction false} WordsRoundTrip32(b: seq<Byte>, offset: nat, ws: seq<u32>)
    requires offset + 4 * |ws| <= |b| && b[offset..offset + 4 * |ws|] == Words32(ws)
    ensures ReadWords32(b, offset, |ws|) == ws
  {
    if ws != [] {
      var n := |ws| - 1;
      var field := b[offset..offset + 4 * |ws|];
      assert b[offset..offset + 4 * n] == field[..4 * n];
      assert b[offset + 4 * n..offset + 4 * n + 4] == field[4 * n..];
      WordsRoundTrip32(b, offset, ws[..n]);
      ReadBack32(b, offset + 4 * n, ws[n]);
      assert forall i :: 0 <= i < n ==> ReadWords32(b, offset, n)[i] == ReadWords32(b, offset, |ws|)[i];
    }
  }

  lemma WriteBack16(b: seq<Byte>, offset: nat)
    requires offset + 2 <= |b|
    ensures Bytes16(Word16(b, offset)) == b[offset..offset + 2]
  {
  }

  lemma ConcatEqual<T>(s: seq<T>, x: T, t: seq<T>, y: T)
    requires |s| == |t|
    ensures s + [x] == t + [y] <==> s == t && x == y
  {
    assert (s + [x])[..|s|] == s && (t + [y])[..|t|] == t;
    assert (s + [x])[|s|] == x && (t + [y])[|t|] == y;
  }

  /** Equal words, equal bytes. */
  lemma {:induction false} SameWords16(a: seq<Byte>, b: seq<Byte>, offset: nat, count: nat)
    requires offset + 2 * count <= |a| && offset + 2 * count <= |b|
    ensures ReadWords16(a, offset, count) == ReadWords16(b, offset, count)
            <==> a[offset..offset + 2 * count] == b[offset..offset + 2 * count]
  {
    if count > 0 {
      var o := offset + 2 * (count - 1);
      SameWords16(a, b, offset, count - 1);
      WriteBack16(a, o);
      WriteBack16(b, o);
      ConcatEqual(ReadWords16(a, offset, count - 1), Word16(a, o), ReadWords16(b, offset, count - 1), Word16(b, o));
      assert ReadWords16(a, offset, count) == ReadWords16(a, offset, count - 1) + [Word16(a, o)];
      assert ReadWords16(b, offset, count) == ReadWords16(b, offset, count - 1) + [Word16(b, o)];
      assert a[offset..o + 2] == a[offset..o] + a[o..o + 2];
      assert b[offset..o + 2] == b[offset..o] + b[o..o + 2];
      assert a[offset..o + 2][..o - offset] == a[offset..o] && a[offset..o + 2][o - offset..] == a[o..o + 2];
      assert b[offset..o + 2][..o - offset] == b[offset..o] && b[offset..o + 2][o - offset..] == b[o..o + 2];
    } else {
      assert a[offset..offset] == b[offset..offset];
    }
  }

  // ---------------------------------------------------------------- remotes

  type RemoteBytes = b: seq<Byte> | |b| >= REMOTE_SIZE witness seq(REMOTE_SIZE, _ => 0)

  /** The structure as it is filled in, over the bytes that happened to be in memory. */
  function EncodeRemote(c: RemoteConfig, memory: RemoteBytes): (b: RemoteBytes)
    requires |c.blinds| <= MAX_BLINDS
    ensures |b| == |memory|
  {
    TextField(c.name, memory[..NAME_SIZE]) + Bytes32(c.remoteId) + Bytes16(c.rollingCode)
    + Bytes16(|c.blinds|) + Words16(c.blinds) + memory[56 + 2 * |c.blinds|..]
  }

  predicate RemoteWellFormed(b: RemoteBytes) {
    TextLength(b[..NAME_SIZE]) < NAME_SIZE && Word16(b, 54) <= MAX_BLINDS
  }

  function DecodeRemote(b: RemoteBytes): RemoteConfig
    requires RemoteWellFormed(b)
  {
    RemoteConfig(Text(b[..NAME_SIZE]), Word32(b, 48), Word16(b, 52), ReadWords16(b, 56, Word16(b, 54)))
  }

  /** `operator==`: the blinds are compared as far as the left count reaches, the names as strings. */
  predicate RemoteEqual(left: RemoteBytes, right: RemoteBytes)
    requires RemoteWellFormed(left)
  {
    && Word32(left, 48) == Word32(right, 48)
    && Word16(left, 52) == Word16(right, 52)
    && Word16(left, 54) == Word16(right, 54)
    && left[56..56 + 2 * Word16(left, 54)] == right[56..56 + 2 * Word16(left, 54)]
    && Text(left[..NAME_SIZE]) == Text(right[..NAME_SIZE])
  }

  /** Whatever was in memory, and whatever follows in the block, decoding gives the record back. */
  lemma RemoteRoundTrip(c: RemoteConfig, memory: RemoteBytes, rest: seq<Byte>)
    requires |c.blinds| <= MAX_BLINDS
    ensures RemoteWellFormed(EncodeRemote(c, memory) + rest)
    ensures DecodeRemote(EncodeRemote(c, memory) + rest) == c
  {
    var b := EncodeRemote(c, memory) + rest;
    var n := |c.blinds|;
    assert b[..NAME_SIZE] == c.name + [0] + memory[..NAME_SIZE][|c.name| + 1..];
    TextRoundTrip(c.name, memory[..NAME_SIZE][|c.name| + 1..]);
    assert |Text(b[..NAME_SIZE])| == TextLength(b[..NAME_SIZE]);
    assert b[48..52] == Bytes32(c.remoteId);
    ReadBack32(b, 48, c.remoteId);
    assert b[52..54] == Bytes16(c.rollingCode);
    ReadBack16(b, 52, c.rollingCode);
    assert b[54..56] == Bytes16(n);
    ReadBack16(b, 54, n);
    assert b[56..56 + 2 * n] == Words16(c.blinds);
    WordsRoundTrip16(b, 56, c.blinds);
  }

  /** Where things are in a remote's structure, low bytes first. */
  lemma RemoteLayout(c: RemoteConfig, memory: RemoteBytes)
    requires |c.blinds| <= MAX_BLINDS
    ensures var b := EncodeRemote(c, memory);
            && b[..|c.name|] == c.name && b[|c.name|] == 0
            && LittleEndian(b[48..52]) == c.remoteId && LittleEndian(b[52..54]) == c.rollingCode
            && LittleEndian(b[54..56]) == |c.blinds|
            && forall k :: 0 <= k < |c.blinds| ==> LittleEndian(b[56 + 2 * k..58 + 2 * k]) == c.blinds[k]
  {
    var b, n := EncodeRemote(c, memory), |c.blinds|;
    assert b[..|c.name|] == c.name && b[|c.name|] == 0;
    assert b[48..52] == Bytes32(c.remoteId) && b[52..54] == Bytes16(c.rollingCode) && b[54..56] == Bytes16(n);
    assert b[56..56 + 2 * n] == Words16(c.blinds);
    LowFirst32(c.remoteId);
    LowFirst16(c.rollingCode);
    LowFirst16(n);
    forall k | 0 <= k < n
      ensures LittleEndian(b[56 + 2 * k..58 + 2 * k]) == c.blinds[k]
    {
      WordAt(c.blinds, k);
      assert b[56 + 2 * k..58 + 2 * k] == b[56..56 + 2 * n][2 * k..2 * k + 2];
      LowFirst16(c.blinds[k]);
    }
  }

  lemma {:induction false} WordAt(ws: seq<u16>, k: nat)
    requires k < |ws|
    ensures Words16(ws)[2 * k..2 * k + 2] == Bytes16(ws[k])
  {
    var n := |ws| - 1;
    if k < n {
      WordAt(ws[..n], k);
      assert Words16(ws)[2 * k..2 * k + 2] == Words16(ws[..n])[2 * k..2 * k + 2];
    }
  }

  /** The number some bytes stand for, the lowest first. */
  function LittleEndian(b: seq<Byte>): nat {
    if b == [] then 0 else b[0] + 0x100 * LittleEndian(b[1..])
  }

  lemma LowFirst16(w: u16)
    ensures LittleEndian(Bytes16(w)) == w
  {
    var b := Bytes16(w);
    assert b[1..] == [b[1]] && [b[1]][1..] == [];
    var b0: nat, b1: nat := b[0], b[1];
    assert LittleEndian([b[1]]) == b1;
    assert LittleEndian(b) == b0 + 0x100 * b1;
  }

  lemma LowFirst32(w: u32)
    ensures LittleEndian(Bytes32(w)) == w
  {
    var b := Bytes32(w);
    assert b[1..] == [b[1], b[2], b[3]] && [b[1], b[2], b[3]][1..] == [b[2], b[3]] && [b[2], b[3]][1..] == [b[3]];
    assert [b[3]][1..] == [];
    var b0: nat, b1: nat, b2: nat, b3: nat := b[0], b[1], b[2], b[3];
    assert LittleEndian([b[3]]) == b3;
    assert LittleEndian([b[2], b[3]]) == b2 + 0x100 * b3;
    assert LittleEndian([b[1], b[2], b[3]]) == b1 + 0x100 * (b2 + 0x100 * b3);
    assert LittleEndian(b) == b0 + 0x100 * (b1 + 0x100 * (b2 + 0x100 * b3));
  }

  /** The comparison that decides whether to write is equality of the decoded records. */
  lemma RemoteEqualIsEquality(left: RemoteBytes, right: RemoteBytes)
    requires RemoteWellFormed(left) && RemoteWellFormed(right)
    ensures RemoteEqual(left, right) <==> DecodeRemote(left) == DecodeRemote(right)
  {
    hide Text, Word16, Word32;
    if Word16(left, 54) == Word16(right, 54) {
      SameWords16(left, right, 56, Word16(left, 54));
    }
  }

  // ---------------------------------------------------------------- blinds

  type BlindBytes = b: seq<Byte> | |b| >= BLIND_SIZE witness seq(BLIND_SIZE, _ => 0)

  /** Two's complement. */
  function Unsigned(x: i32): u32 {
    if x < 0 then x + 0x1_0000_0000 else x
  }

  function Signed(w: u32): i32 {
    if w >= 0x8000_0000 then w - 0x1_0000_0000 else w
  }

  function EncodeBlind(c: BlindConfig, memory: BlindBytes): (b: BlindBytes)
    ensures |b| == |memory|
  {
    TextField(c.name, memory[..NAME_SIZE]) + Bytes32(Unsigned(c.currentPosition)) + Bytes32(Unsigned(c.myPosition))
    + Bytes32(Unsigned(c.openTime)) + Bytes32(Unsigned(c.closeTime)) + Bytes32(c.remoteId) + memory[BLIND_SIZE..]
  }

  predicate BlindWellFormed(b: BlindBytes) {
    TextLength(b[..NAME_SIZE]) < NAME_SIZE
  }

  function DecodeBlind(b: BlindBytes): BlindConfig
    requires BlindWellFormed(b)
  {
    BlindConfig(Text(b[..NAME_SIZE]), Signed(Word32(b, 48)), Signed(Word32(b, 52)),
                Signed(Word32(b, 56)), Signed(Word32(b, 60)), Word32(b, 64))
  }

  predicate BlindEqual(left: BlindBytes, right: BlindBytes) {
    && Text(left[..NAME_SIZE]) == Text(right[..NAME_SIZE])
    && Word32(left, 48) == Word32(right, 48) && Word32(left, 52) == Word32(right, 52)
    && Word32(left, 56) == Word32(right, 56) && Word32(left, 60) == Word32(right, 60)
    && Word32(left, 64) == Word32(right, 64)
  }

  lemma BlindRoundTrip(c: BlindConfig, memory: BlindBytes, rest: seq<Byte>)
    ensures BlindWellFormed(EncodeBlind(c, memory) + rest)
    ensures DecodeBlind(EncodeBlind(c, memory) + rest) == c
  {
    var b := EncodeBlind(c, memory) + rest;
    assert b[..NAME_SIZE] == c.name + [0] + memory[..NAME_SIZE][|c.name| + 1..];
    TextRoundTrip(c.name, memory[..NAME_SIZE][|c.name| + 1..]);
    assert |Text(b[..NAME_SIZE])| == TextLength(b[..NAME_SIZE]);
    assert b[48..52] == Bytes32(Unsigned(c.currentPosition));
    ReadBack32(b, 48, Unsigned(c.currentPosition));
    assert b[52..56] == Bytes32(Unsigned(c.myPosition));
    ReadBack32(b, 52, Unsigned(c.myPosition));
    assert b[56..60] == Bytes32(Unsigned(c.openTime));
    ReadBack32(b, 56, Unsigned(c.openTime));
    assert b[60..64] == Bytes32(Unsigned(c.closeTime));
    ReadBack32(b, 60, Unsigned(c.closeTime));
    assert b[64..68] == Bytes32(c.remoteId);
    ReadBack32(b, 64, c.remoteId);
  }

  /** Where things are in a blind's structure. */
  lemma BlindLayout(c: BlindConfig, memory: BlindBytes)
    ensures var b := EncodeBlind(c, memory);
            && b[..|c.name|] == c.name && b[|c.name|] == 0
            && LittleEndian(b[48..52]) == c.currentPosition % 0x1_0000_0000
            && LittleEndian(b[52..56]) == c.myPosition % 0x1_0000_0000
            && LittleEndian(b[56..60]) == c.openTime % 0x1_0000_0000
            && LittleEndian(b[60..64]) == c.closeTime % 0x1_0000_0000
            && LittleEndian(b[64..68]) == c.remoteId
  {
    hide LittleEndian;
    var b := EncodeBlind(c, memory);
    BlindFields(c, memory);
    LowFirst32(Unsigned(c.currentPosition));
    LowFirst32(Unsigned(c.myPosition));
    LowFirst32(Unsigned(c.openTime));
    LowFirst32(Unsigned(c.closeTime));
    LowFirst32(c.remoteId);
    hide EncodeBlind, Bytes32;
  }

  lemma BlindFields(c: BlindConfig, memory: BlindBytes)
    ensures var b := EncodeBlind(c, memory);
            && b[..|c.name|] == c.name && b[|c.name|] == 0
            && b[48..52] == Bytes32(Unsigned(c.currentPosition)) && b[52..56] == Bytes32(Unsigned(c.myPosition))
            && b[56..60] == Bytes32(Unsigned(c.openTime)) && b[60..64] == Bytes32(Unsigned(c.closeTime))
            && b[64..68] == Bytes32(c.remoteId)
  {
    hide Bytes32, Unsigned;
    var b := EncodeBlind(c, memory);
    assert b[..|c.name|] == c.name && b[|c.name|] == 0;
    assert b[48..52] == Bytes32(Unsigned(c.currentPosition)) && b[52..56] == Bytes32(Unsigned(c.myPosition));
    assert b[56..60] == Bytes32(Unsigned(c.openTime)) && b[60..64] == Bytes32(Unsigned(c.closeTime));
    assert b[64..68] == Bytes32(c.remoteId);
  }

  lemma BlindEqualIsEquality(left: BlindBytes, right: BlindBytes)
    requires BlindWellFormed(left) && BlindWellFormed(right)
    ensures BlindEqual(left, right) <==> DecodeBlind(left) == DecodeBlind(right)
  {
    hide Text, Word32;
  }

  // ---------------------------------------------------------------- id lists

  const MAX_IDS16 := 124
  const MAX_IDS32 := 62

  function EncodeIds16(ids: seq<u16>): (b: seq<Byte>)
    requires |ids| <= MAX_IDS16
    ensures 4 <= |b| <= BLOCK_SIZE
  {
    Bytes32(|ids|) + Words16(ids)
  }

  function EncodeIds32(ids: seq<u32>): (b: seq<Byte>)
    requires |ids| <= MAX_IDS32
    ensures 4 <= |b| <= BLOCK_SIZE
  {
    Bytes32(|ids|) + Words32(ids)
  }

  predicate Ids16WellFormed(b: Payload) {
    Word32(b, 0) <= MAX_IDS16
  }

  predicate Ids32WellFormed(b: Payload) {
    Word32(b, 0) <= MAX_IDS32
  }

  function DecodeIds16(b: Payload): (ids: seq<u16>)
    requires Ids16WellFormed(b)
    ensures |ids| <= MAX_IDS16
  {
    ReadWords16(b, 4, Word32(b, 0))
  }

  function DecodeIds32(b: Payload): (ids: seq<u32>)
    requires Ids32WellFormed(b)
    ensures |ids| <= MAX_IDS32
  {
    ReadWords32(b, 4, Word32(b, 0))
  }

  lemma Ids16RoundTrip(ids: seq<u16>)
    requires |ids| <= MAX_IDS16
    ensures Ids16WellFormed(Pad(EncodeIds16(ids))) && DecodeIds16(Pad(EncodeIds16(ids))) == ids
  {
    var b := Pad(EncodeIds16(ids));
    assert b[0..4] == Bytes32(|ids|);
    ReadBack32(b, 0, |ids|);
    assert b[4..4 + 2 * |ids|] == Words16(ids);
    WordsRoundTrip16(b, 4, ids);
  }

  lemma Ids32RoundTrip(ids: seq<u32>)
    requires |ids| <= MAX_IDS32
    ensures Ids32WellFormed(Pad(EncodeIds32(ids))) && DecodeIds32(Pad(EncodeIds32(ids))) == ids
  {
    var b := Pad(EncodeIds32(ids));
    assert b[0..4] == Bytes32(|ids|);
    ReadBack32(b, 0, |ids|);
    assert b[4..4 + 4 * |ids|] == Words32(ids);
    WordsRoundTrip32(b, 4, ids);
  }
}
