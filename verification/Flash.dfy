/** NOR flash as the block store sees it: 256-byte pages grouped into 4096-byte sectors.
    Programming a page can only clear bits; erasing a sector sets every bit. */
module Flash {
  import opened Basics

  const PAGE_SIZE := 256
  const SECTOR_SIZE := 4096
  const SECTOR_PAGES := 16
  const HEADER_SIZE := 4
  const BLOCK_SIZE := 252
  const BLOCK_FREE: u32 := 0xFFFF_FFFF
  const BLOCK_EMPTY: u32 := 0

  /** A record id: any 32-bit word that is neither of the two header marks. */
  type RecordId = x: int | BLOCK_EMPTY < x < BLOCK_FREE witness 1
  type Payload = p: seq<Byte> | |p| == BLOCK_SIZE witness seq(BLOCK_SIZE, _ => 0)
  type Page = p: seq<Byte> | |p| == PAGE_SIZE witness seq(PAGE_SIZE, _ => 0xFF)

  /** A record's bytes, zero-padded to a whole block. */
  function Pad(data: seq<Byte>): Payload
    requires |data| <= BLOCK_SIZE
  {
    data + seq(BLOCK_SIZE - |data|, _ => 0)
  }

  /** A record fills its page: the data, and zeros after it. */
  lemma Padded(data: seq<Byte>)
    requires |data| <= BLOCK_SIZE
    ensures |Pad(data)| == 252 && Pad(data)[..|data|] == data
    ensures forall k :: |data| <= k < 252 ==> Pad(data)[k] == 0
  {
  }

  /** What one page holds: nothing since the last erase, a deleted record, or a record. */
  datatype Slot = Free | Dead | Live(id: RecordId, payload: Payload) {
    function Header(): u32 {
      match this
      case Free => BLOCK_FREE
      case Dead => BLOCK_EMPTY
      case Live(id, _) => id
    }
  }

  /** The bytes of a page holding a given slot. */
  function PageBytes(s: Slot): (p: Page)
    ensures Word32(p, 0) == s.Header()
  {
    match s
    case Free => seq(PAGE_SIZE, _ => 0xFF)
    case Dead => seq(PAGE_SIZE, _ => 0)
    case Live(id, payload) =>
      var page := Bytes32(id) + payload;
      ReadBack32(page, 0, id);
      page
  }

  /** A page determines its slot. */
  lemma PageBytesInjective(s: Slot, t: Slot)
    requires PageBytes(s) == PageBytes(t)
    ensures s == t
  {
    assert s.Header() == Word32(PageBytes(s), 0) == t.Header();
    if s.Live? && t.Live? {
      assert s.payload == PageBytes(s)[HEADER_SIZE..] == t.payload;
    }
  }

  /** Bitwise AND, least significant bit first. */
  function And(a: nat, b: nat): (r: nat)
    ensures r <= a
  {
    if a == 0 then 0 else 2 * And(a / 2, b / 2) + (if a % 2 == 1 && b % 2 == 1 then 1 else 0)
  }

  /** Programming: a bit can go from 1 to 0 but never back. */
  function Program(cell: Byte, data: Byte): Byte {
    And(cell, data)
  }

  lemma AndOnes(a: nat, b: nat, ones: nat)
    requires b <= a && ones == a + 1 && PowerOfTwo(ones)
    ensures And(a, b) == b
  {
  }

  predicate PowerOfTwo(n: nat) {
    n == 1 || (n > 1 && n % 2 == 0 && PowerOfTwo(n / 2))
  }

  lemma {:induction false} ProgramErased(data: Byte)
    ensures Program(0xFF, data) == data
  {
    AndOnes(0xFF, data, 0x100);
  }

  lemma {:induction false} ProgramZero(cell: nat)
    ensures And(cell, 0) == 0
  {
    if cell > 0 {
      ProgramZero(cell / 2);
    }
  }

  function ProgramPage(cells: Page, data: Page): Page {
    seq(PAGE_SIZE, i requires 0 <= i < PAGE_SIZE => Program(cells[i], data[i]))
  }

  /** The two programs the store issues have the intended effect in spite of the AND: a record
      lands unchanged on a free page, and zeros kill whatever page they are written to. */
  lemma ProgramRecord(s: Slot)
    ensures ProgramPage(PageBytes(Free), PageBytes(s)) == PageBytes(s)
  {
    forall i | 0 <= i < PAGE_SIZE
      ensures ProgramPage(PageBytes(Free), PageBytes(s))[i] == PageBytes(s)[i]
    {
      ProgramErased(PageBytes(s)[i]);
    }
  }

  lemma ProgramZeros(p: Page)
    ensures ProgramPage(p, PageBytes(Dead)) == PageBytes(Dead)
  {
    forall i | 0 <= i < PAGE_SIZE
      ensures ProgramPage(p, PageBytes(Dead))[i] == 0
    {
      ProgramZero(p[i]);
    }
  }

  function PageAt(cells: seq<Byte>, page: nat): Page
    requires (page + 1) * PAGE_SIZE <= |cells|
  {
    cells[page * PAGE_SIZE..(page + 1) * PAGE_SIZE]
  }

  /** The storage area holds, page by page, exactly these slots. */
  ghost predicate Encodes(cells: seq<Byte>, slots: seq<Slot>) {
    && |cells| == PAGE_SIZE * |slots|
    && forall p :: 0 <= p < |slots| ==> PageAt(cells, p) == PageBytes(slots[p])
  }

  /** Replacing one page of the storage area. */
  function Splice(cells: seq<Byte>, page: nat, data: Page): (r: seq<Byte>)
    requires (page + 1) * PAGE_SIZE <= |cells|
    ensures |r| == |cells|
  {
    cells[..page * PAGE_SIZE] + data + cells[(page + 1) * PAGE_SIZE..]
  }

  lemma SpliceEncodes(cells: seq<Byte>, slots: seq<Slot>, page: nat, s: Slot)
    requires Encodes(cells, slots) && page < |slots|
    ensures Encodes(Splice(cells, page, PageBytes(s)), slots[page := s])
  {
  }

  /** Reading a page's header and payload straight from the storage area. */
  lemma ReadPage(cells: seq<Byte>, slots: seq<Slot>, p: nat)
    requires Encodes(cells, slots) && p < |slots|
    ensures Word32(cells, p * PAGE_SIZE) == slots[p].Header()
    ensures slots[p].Live? ==> cells[p * PAGE_SIZE + HEADER_SIZE..(p + 1) * PAGE_SIZE] == slots[p].payload
  {
  }

  lemma ReadFree(cells: seq<Byte>, slots: seq<Slot>, p: nat)
    requires Encodes(cells, slots) && p < |slots| && slots[p].Free?
    ensures PageAt(cells, p) == PageBytes(Free)
  {
  }

  /** Cells written one by one amount to replacing the page. */
  lemma WrittenEncodes(before: seq<Byte>, after: seq<Byte>, slots: seq<Slot>, p: nat, s: Slot)
    requires Encodes(before, slots) && p < |slots| && |after| == |before|
    requires forall j :: 0 <= j < PAGE_SIZE ==> after[p * PAGE_SIZE + j] == PageBytes(s)[j]
    requires forall j :: 0 <= j < |after| && !(p * PAGE_SIZE <= j < (p + 1) * PAGE_SIZE) ==> after[j] == before[j]
    ensures Encodes(after, slots[p := s])
  {
    var start, end := p * PAGE_SIZE, (p + 1) * PAGE_SIZE;
    assert after[..start] == before[..start];
    assert after[end..] == before[end..];
    assert after[start..end] == PageBytes(s);
    assert after == after[..start] + after[start..end] + after[end..];
    assert after == Splice(before, p, PageBytes(s));
    SpliceEncodes(before, slots, p, s);
  }

  /** Cells of a whole sector set to 0xFF amount to freeing its pages. */
  lemma ErasedEncodes(before: seq<Byte>, after: seq<Byte>, slots: seq<Slot>, erased: seq<Slot>, k: nat)
    requires Encodes(before, slots) && |after| == |before| && |erased| == |slots|
    requires (k + 1) * SECTOR_SIZE <= |before|
    requires forall p :: 0 <= p < |slots| ==> erased[p] == if p / SECTOR_PAGES == k then Free else slots[p]
    requires forall j :: k * SECTOR_SIZE <= j < (k + 1) * SECTOR_SIZE ==> after[j] == 0xFF
    requires forall j :: 0 <= j < |after| && !(k * SECTOR_SIZE <= j < (k + 1) * SECTOR_SIZE) ==> after[j] == before[j]
    ensures Encodes(after, erased)
  {
  }
}
