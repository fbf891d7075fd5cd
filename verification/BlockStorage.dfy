/** The block store as it runs: byte-addressed flash, searched, programmed and erased in place. */
module BlockStorage {
  import opened Basics
  import opened Flash
  import opened SlotLog

  /** A reclaiming pass that stood at sector k0 with slots s0 and operations h0 behind it now
      stands at sector k with slots s and operations h. */
  ghost predicate Reached(s0: seq<Slot>, k0: nat, h0: seq<seq<Slot>>, s: seq<Slot>, k: nat, h: seq<seq<Slot>>)
    requires Sectored(s0) && k0 <= k <= Sectors(s0)
  {
    && |s| == |s0|
    && h0 <= h
    && s == After(s0, h[|h0|..])
    && h[|h0|..] + EraseTrace(s, k) == EraseTrace(s0, k0)
    && forall p :: k * SECTOR_PAGES <= p < |s| ==> s[p] == s0[p]
  }

  lemma ReachedErase(s0: seq<Slot>, k0: nat, h0: seq<seq<Slot>>, s: seq<Slot>, k: nat, h: seq<seq<Slot>>)
    requires Sectored(s0) && k0 <= k < Sectors(s0) && Reached(s0, k0, h0, s, k, h) && SectorDead(s, k)
    ensures Reached(s0, k0, h0, EraseSector(s, k), k + 1, h + [EraseSector(s, k)])
  {
  }

  lemma ReachedTrans(s0: seq<Slot>, k0: nat, h0: seq<seq<Slot>>, s1: seq<Slot>, k1: nat, h1: seq<seq<Slot>>,
                     s2: seq<Slot>, k2: nat, h2: seq<seq<Slot>>)
    requires Sectored(s0) && k0 <= k1 <= k2 <= Sectors(s0)
    requires Reached(s0, k0, h0, s1, k1, h1) && Reached(s1, k1, h1, s2, k2, h2)
    ensures Reached(s0, k0, h0, s2, k2, h2)
  {
  }

  /** A save is a reclaim followed, if a page is free then, by a replacement. */
  lemma SaveParts(s: seq<Slot>, id: RecordId, payload: Payload, r: seq<Slot>, free: nat,
                  h0: seq<seq<Slot>>, h1: seq<seq<Slot>>)
    requires Sectored(s) && r == Reclaimed(s) && free == First(r, BLOCK_FREE)
    requires h1 == h0 + (if First(s, BLOCK_FREE) < |s| then [] else EraseTrace(s))
    ensures free == |s| ==> r == Save(s, id, payload) && h1 == h0 + SaveTrace(s, id, payload)
    ensures free < |s| ==>
              var saved := Kill(r, id)[free := Live(id, payload)];
              && saved == Save(s, id, payload)
              && h1 + (if First(r, id) < |r| then [Kill(r, id)] else []) + [saved] == h0 + SaveTrace(s, id, payload)
  {
    hide Reclaimed, EraseTrace, First, Kill;
  }

  lemma SaveOutcome(s: seq<Slot>, id: RecordId, payload: Payload)
    requires Sectored(s) && Distinct(s)
    ensures Contents(Save(s, id, payload)) == if HasRoom(s) then Contents(s)[id := payload] else Contents(s)
    ensures |Contents(s)| < Sectors(s) ==> HasRoom(s)
  {
    SaveRefinesMap(s, id, payload);
    if |Contents(s)| < Sectors(s) {
      RoomBelowCapacity(s);
    }
  }

  lemma ReachedStart(s: seq<Slot>, h: seq<seq<Slot>>)
    requires Sectored(s)
    ensures Reached(s, 0, h, s, 0, h)
  {
    assert h[|h|..] == [];
  }

  lemma ReachedSkip(s0: seq<Slot>, k0: nat, h0: seq<seq<Slot>>, s: seq<Slot>, k: nat, h: seq<seq<Slot>>)
    requires Sectored(s0) && k0 <= k < Sectors(s0) && Reached(s0, k0, h0, s, k, h)
    requires exists p :: k * SECTOR_PAGES <= p < (k + 1) * SECTOR_PAGES && !s[p].Dead?
    ensures Reached(s0, k0, h0, s, k + 1, h)
  {
    assert EraseTrace(s, k) == EraseTrace(s, k + 1);
  }

  lemma ReachedEnd(s0: seq<Slot>, h0: seq<seq<Slot>>, s: seq<Slot>, h: seq<seq<Slot>>)
    requires Sectored(s0) && Distinct(s0) && Reached(s0, 0, h0, s, Sectors(s0), h)
    ensures s == EraseDead(s0) && h == h0 + EraseTrace(s0) && Contents(s) == Contents(s0)
  {
    hide EraseDead, Contents, Distinct;
    assert EraseTrace(s, Sectors(s0)) == [];
    assert h[|h0|..] == EraseTrace(s0);
    assert h == h0 + h[|h0|..];
    EraseTraceEnds(s0, 0);
    EraseDeadSameLive(s0);
    SameLiveContents(s0, s);
  }

  class BlockStorage {
    const sectors: nat
    /** The storage area; offsets are relative to its base address. */
    const flash: array<Byte>

    /** What the pages hold now, and after each physical flash operation so far. */
    ghost var slots: seq<Slot>
    ghost var history: seq<seq<Slot>>

    ghost const Repr: set<object> := {this, flash}

    ghost predicate Valid()
      reads this, flash
    {
      && |slots| == sectors * SECTOR_PAGES
      && flash.Length == sectors * SECTOR_SIZE
      && Encodes(flash[..], slots)
      && Distinct(slots)
    }

    /** The stored map. */
    ghost function Records(): map<RecordId, Payload>
      reads this
    {
      Contents(slots)
    }

    /** Attach to a storage area whose pages hold the given slots. */
    constructor (sectors: nat, flash: array<Byte>, ghost slots: seq<Slot>)
      requires |slots| == sectors * SECTOR_PAGES && Encodes(flash[..], slots) && Distinct(slots)
      ensures Valid() && this.slots == slots && this.flash == flash && this.sectors == sectors
    {
      this.sectors := sectors;
      this.flash := flash;
      this.slots := slots;
      this.history := [];
    }

    /** Offset of the first page with the given header, by a search of every page. */
    method FindBlock(blockId: u32) returns (r: Option<nat>)
      requires Valid()
      ensures r == if First(slots, blockId) < |slots| then Some(First(slots, blockId) * PAGE_SIZE) else None
    {
      hide Encodes, Distinct;
      var offset := 0;
      var end := sectors * SECTOR_SIZE;
      ghost var p := 0;
      while offset < end
        invariant offset == p * PAGE_SIZE && p <= |slots|
        invariant First(slots, blockId) == First(slots, blockId, p)
      {
        var id := ReadHeader(offset);
        if id == blockId {
          return Some(offset);
        }
        offset := offset + PAGE_SIZE;
        p := p + 1;
      }
      return None;
    }

    /** The header word of the page at an offset. */
    method ReadHeader(offset: nat) returns (id: u32)
      requires Valid() && offset % PAGE_SIZE == 0 && offset < sectors * SECTOR_SIZE
      ensures id == slots[offset / PAGE_SIZE].Header()
    {
      id := Word32(flash[..], offset);
      ReadPage(flash[..], slots, offset / PAGE_SIZE);
    }

    /** Where the bytes of a stored record start: the record, zero-padded to a whole block. */
    method GetBlock(blockId: RecordId) returns (r: Option<nat>)
      requires Valid()
      ensures r.Some? <==> blockId in Records()
      ensures r.Some? ==> r.value + BLOCK_SIZE <= flash.Length
      ensures r.Some? ==> flash[r.value..r.value + BLOCK_SIZE] == Records()[blockId]
    {
      hide Contents, LiveIds, Encodes, Distinct;
      ContentsLookup(slots, blockId);
      var block := FindBlock(blockId);
      if block == None {
        return None;
      }
      ReadPage(flash[..], slots, First(slots, blockId));
      assert flash[..][block.value + HEADER_SIZE..block.value + PAGE_SIZE]
          == flash[block.value + HEADER_SIZE..block.value + PAGE_SIZE];
      return Some(block.value + HEADER_SIZE);
    }

    /** Program one page: every cell becomes the AND of what it held and the data. */
    method FlashRangeProgram(offset: nat, data: array<Byte>, ghost slot: Slot)
      requires Valid() && offset % PAGE_SIZE == 0 && offset < sectors * SECTOR_SIZE
      requires data != flash && data.Length == PAGE_SIZE
      requires ProgramPage(PageAt(flash[..], offset / PAGE_SIZE), data[..]) == PageBytes(slot)
      requires Distinct(slots[offset / PAGE_SIZE := slot])
      modifies this, flash
      ensures Valid() && slots == old(slots)[offset / PAGE_SIZE := slot]
      ensures history == old(history) + [slots]
    {
      hide Distinct, Program;
      ghost var before, p := flash[..], offset / PAGE_SIZE;
      ghost var page := ProgramPage(PageAt(before, p), data[..]);
      assert forall j :: 0 <= j < PAGE_SIZE ==> page[j] == Program(before[offset + j], data[j]);
      ProgramCells(offset, data);
      WrittenEncodes(before, flash[..], slots, p, slot);
      slots := slots[p := slot];
      history := history + [slots];
    }

    method ProgramCells(offset: nat, data: array<Byte>)
      requires data != flash && offset + data.Length <= flash.Length
      modifies flash
      ensures forall j :: 0 <= j < data.Length ==> flash[offset + j] == Program(old(flash[offset + j]), data[j])
      ensures forall j :: 0 <= j < flash.Length && !(offset <= j < offset + data.Length) ==> flash[j] == old(flash[j])
    {
      hide Program;
      var i := 0;
      while i < data.Length
        invariant 0 <= i <= data.Length
        invariant forall j :: 0 <= j < i ==> flash[offset + j] == Program(old(flash[offset + j]), data[j])
        invariant forall j :: 0 <= j < flash.Length && !(offset <= j < offset + i) ==> flash[j] == old(flash[j])
      {
        flash[offset + i] := Program(flash[offset + i], data[i]);
        i := i + 1;
      }
    }

    /** Kill the page at an offset by programming zeros over it. */
    method DeletePage(pageOffset: nat)
      requires Valid() && pageOffset % PAGE_SIZE == 0 && pageOffset < sectors * SECTOR_SIZE
      requires slots[pageOffset / PAGE_SIZE].Live?
      modifies this, flash
      ensures Valid() && slots == old(slots)[pageOffset / PAGE_SIZE := Dead]
      ensures history == old(history) + [slots]
    {
      var zeros := new Byte[PAGE_SIZE](_ => 0);
      assert zeros[..] == PageBytes(Dead);
      ProgramZeros(PageAt(flash[..], pageOffset / PAGE_SIZE));
      FlashRangeProgram(pageOffset, zeros, Dead);
    }

    /** Remove a record if it is stored. */
    method ClearBlock(blockId: RecordId)
      requires Valid()
      modifies this, flash
      ensures Valid() && slots == Kill(old(slots), blockId)
      ensures history == old(history) + if blockId in old(Records()) then [slots] else []
      ensures Records() == old(Records()) - {blockId}
    {
      hide Contents, Encodes, LiveIds;
      KillContents(slots, blockId);
      var existing := FindBlock(blockId);
      if existing.Some? {
        DeletePage(existing.value);
      }
    }

    /** Erase one sector: every cell back to 0xFF. */
    method FlashSectorErase(k: nat)
      requires Valid() && k < sectors
      modifies this, flash
      ensures Valid() && slots == EraseSector(old(slots), k)
      ensures history == old(history) + [slots]
    {
      ghost var before := flash[..];
      var j := k * SECTOR_SIZE;
      while j < (k + 1) * SECTOR_SIZE
        invariant k * SECTOR_SIZE <= j <= (k + 1) * SECTOR_SIZE
        invariant slots == old(slots) && history == old(history)
        invariant forall i :: k * SECTOR_SIZE <= i < j ==> flash[i] == 0xFF
        invariant forall i :: 0 <= i < flash.Length && !(k * SECTOR_SIZE <= i < j) ==> flash[i] == before[i]
      {
        flash[j] := 0xFF;
        j := j + 1;
      }
      ErasedEncodes(before, flash[..], slots, EraseSector(slots, k), k);
      slots := EraseSector(slots, k);
      history := history + [slots];
    }

    /** Erase a run of dead sectors, one after the other. */
    method FormatSectors(sector: nat, count: nat)
      requires Valid() && sector + count <= sectors
      requires forall p :: sector * SECTOR_PAGES <= p < (sector + count) * SECTOR_PAGES ==> slots[p].Dead?
      modifies this, flash
      ensures Valid() && Reached(old(slots), sector, old(history), slots, sector + count, history)
      ensures forall p :: (sector + count) * SECTOR_PAGES <= p < |slots| ==> slots[p] == old(slots)[p]
    {
      hide Encodes, Distinct, EraseSector;
      ghost var s0, h0 := slots, history;
      var k := sector;
      while k < sector + count
        invariant sector <= k <= sector + count
        invariant Valid() && Reached(s0, sector, h0, slots, k, history)
      {
        ReachedErase(s0, sector, h0, slots, k, history);
        FlashSectorErase(k);
        k := k + 1;
      }
    }

    /** Reclaim space: erase every sector that holds only deleted records. */
    method FormatEmptySectors()
      requires Valid()
      modifies this, flash
      ensures Valid() && slots == EraseDead(old(slots))
      ensures history == old(history) + EraseTrace(old(slots))
      ensures Records() == old(Records())
    {
      hide Encodes, Distinct, Contents, Reached;
      ghost var s0, h0 := slots, history;
      ReachedStart(s0, h0);
      var emptySectorStart: nat := 0;
      var offset: nat, end: nat := 0, sectors * SECTOR_SIZE;
      while offset < end
        invariant offset % PAGE_SIZE == 0 && offset <= end
        invariant emptySectorStart <= sectors && emptySectorStart * SECTOR_SIZE < offset + SECTOR_SIZE
        invariant Valid() && Reached(s0, 0, h0, slots, emptySectorStart, history)
        invariant forall p :: emptySectorStart * SECTOR_PAGES <= p < offset / PAGE_SIZE ==> slots[p].Dead?
      {
        var id := ReadHeader(offset);
        if id != BLOCK_EMPTY {
          ghost var page := offset / PAGE_SIZE;
          var emptySectorEnd := offset / SECTOR_SIZE;
          if emptySectorEnd > emptySectorStart {
            ghost var s1, h1 := slots, history;
            FormatSectors(emptySectorStart, emptySectorEnd - emptySectorStart);
            ReachedTrans(s0, 0, h0, s1, emptySectorStart, h1, slots, emptySectorEnd, history);
          }
          if emptySectorEnd >= emptySectorStart {
            assert !slots[page].Dead?;
            ReachedSkip(s0, 0, h0, slots, emptySectorEnd, history);
          }
          emptySectorStart := emptySectorEnd + 1;
        }
        offset := offset + PAGE_SIZE;
      }
      if sectors > emptySectorStart {
        ghost var s1, h1 := slots, history;
        FormatSectors(emptySectorStart, sectors - emptySectorStart);
        ReachedTrans(s0, 0, h0, s1, emptySectorStart, h1, slots, sectors, history);
      }
      ReachedEnd(s0, h0, slots, history);
    }

    /** The first part of a save: a free page, reclaiming dead sectors only if there is none. */
    method FindFreeBlock() returns (freeBlock: Option<nat>)
      requires Valid()
      modifies this, flash
      ensures Valid() && slots == Reclaimed(old(slots)) && Records() == old(Records())
      ensures history == old(history) + (if First(old(slots), BLOCK_FREE) < |slots| then [] else EraseTrace(old(slots)))
      ensures freeBlock == if First(slots, BLOCK_FREE) < |slots| then Some(First(slots, BLOCK_FREE) * PAGE_SIZE)
              else None
    {
      hide Encodes, Distinct, Contents, First, EraseDead, EraseTrace;
      freeBlock := FindBlock(BLOCK_FREE);
      if freeBlock == None {
        FormatEmptySectors();
        freeBlock := FindBlock(BLOCK_FREE);
      }
    }

    /** The second part: zero the old copy, if any, then program the new one. */
    method ReplaceBlock(freeBlock: nat, blockId: RecordId, data: seq<Byte>)
      requires Valid() && 1 <= |data| <= BLOCK_SIZE
      requires freeBlock % PAGE_SIZE == 0 && freeBlock < sectors * SECTOR_SIZE && slots[freeBlock / PAGE_SIZE].Free?
      modifies this, flash
      ensures Valid() && slots == Kill(old(slots), blockId)[freeBlock / PAGE_SIZE := Live(blockId, Pad(data))]
      ensures history == old(history) +
              (if First(old(slots), blockId) < |slots| then [Kill(old(slots), blockId)] else []) + [slots]
    {
      hide Encodes, Contents, Distinct, PageBytes;
      WriteContents(slots, freeBlock / PAGE_SIZE, blockId, Pad(data));
      var existing := FindBlock(blockId);
      if existing.Some? {
        DeletePage(existing.value);
      }
      assert slots[freeBlock / PAGE_SIZE] == Free;
      var tmpPage := BuildPage(blockId, data);
      ReadFree(flash[..], slots, freeBlock / PAGE_SIZE);
      ProgramRecord(Live(blockId, Pad(data)));
      FlashRangeProgram(freeBlock, tmpPage, Live(blockId, Pad(data)));
    }

    /** Store a record, replacing any earlier one with its id. When no page is free even after
        reclaiming dead sectors, nothing is stored and the flash is left as it was. */
    method SaveBlock(blockId: RecordId, data: seq<Byte>)
      requires Valid() && 1 <= |data| <= BLOCK_SIZE
      modifies this, flash
      ensures Valid() && slots == Save(old(slots), blockId, Pad(data))
      ensures history == old(history) + SaveTrace(old(slots), blockId, Pad(data))
      ensures Records() == if old(HasRoom(slots)) then old(Records())[blockId := Pad(data)] else old(Records())
      ensures |old(Records())| < sectors ==> Records() == old(Records())[blockId := Pad(data)]
    {
      hide Encodes, Distinct, Contents, Reclaimed, EraseTrace, HasRoom, Kill, Pad, Save, SaveTrace, First;
      ghost var s0, h0, payload := slots, history, Pad(data);
      SaveOutcome(s0, blockId, payload);
      var freeBlock := FindFreeBlock();
      SaveParts(s0, blockId, payload, slots, First(slots, BLOCK_FREE), h0, history);
      if freeBlock.Some? {
        ReplaceBlock(freeBlock.value, blockId, data);
      }
    }

    /** The page image of a record: its id, its bytes, and zeros up to the end of the page. */
    static method BuildPage(blockId: RecordId, data: seq<Byte>) returns (tmpPage: array<Byte>)
      requires |data| <= BLOCK_SIZE
      ensures fresh(tmpPage) && tmpPage[..] == PageBytes(Live(blockId, Pad(data)))
      ensures forall k :: 0 <= k < |data| ==> tmpPage[4 + k] == data[k]
      ensures forall k :: 4 + |data| <= k < 256 ==> tmpPage[k] == 0
    {
      tmpPage := new Byte[PAGE_SIZE];
      var header := Bytes32(blockId);
      forall i | 0 <= i < HEADER_SIZE {
        tmpPage[i] := header[i];
      }
      forall i | 0 <= i < |data| {
        tmpPage[HEADER_SIZE + i] := data[i];
      }
      forall i | HEADER_SIZE + |data| <= i < PAGE_SIZE {
        tmpPage[i] := 0;
      }
    }

    /** Erase the whole storage area. */
    method Format()
      requires Valid()
      modifies this, flash
      ensures Valid() && Records() == map[]
      ensures forall p :: 0 <= p < |slots| ==> slots[p].Free?
    {
      var k := 0;
      while k < sectors
        invariant 0 <= k <= sectors && Valid()
        invariant forall p :: 0 <= p < k * SECTOR_PAGES ==> slots[p].Free?
      {
        FlashSectorErase(k);
        k := k + 1;
      }
      assert LiveIds(slots) == {};
    }
  }
}
