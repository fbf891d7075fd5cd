/** The block store's algorithm on slots: what each operation does to the pages, and the
    guarantees that follow for every sequence of operations on a formatted device. */
module SlotLog {
  import opened Basics
  import opened Flash

  // ---------------------------------------------------------------- definitions

  /** A whole number of sectors. */
  ghost predicate Sectored(s: seq<Slot>) {
    |s| % SECTOR_PAGES == 0
  }

  function Sectors(s: seq<Slot>): nat {
    |s| / SECTOR_PAGES
  }

  /** No id is on two pages. */
  ghost predicate Distinct(s: seq<Slot>) {
    forall p, q :: 0 <= p < q < |s| && s[p].Live? && s[q].Live? ==> s[p].id != s[q].id
  }

  /** First page whose header is `word`, or |s|. */
  function First(s: seq<Slot>, word: u32, from: nat := 0): (r: nat)
    requires from <= |s|
    ensures from <= r <= |s|
    ensures r < |s| ==> s[r].Header() == word
    ensures forall p :: from <= p < r ==> s[p].Header() != word
    decreases |s| - from
  {
    if from == |s| || s[from].Header() == word then from else First(s, word, from + 1)
  }

  /** The record stored under an id, if any. */
  function Lookup(s: seq<Slot>, id: RecordId): Option<Payload> {
    var p := First(s, id);
    if p < |s| then Some(s[p].payload) else None
  }

  ghost function LiveIds(s: seq<Slot>): set<RecordId> {
    set p | 0 <= p < |s| && s[p].Live? :: s[p].id
  }

  /** The map the store implements. */
  ghost function Contents(s: seq<Slot>): (m: map<RecordId, Payload>)
    ensures m.Keys == LiveIds(s)
  {
    map id | id in LiveIds(s) :: Lookup(s, id).value
  }

  ghost predicate SectorDead(s: seq<Slot>, k: nat)
    requires (k + 1) * SECTOR_PAGES <= |s|
  {
    forall p :: k * SECTOR_PAGES <= p < (k + 1) * SECTOR_PAGES ==> s[p].Dead?
  }

  /** A save finds a page: one is free, or a sector holds nothing but deleted records. */
  ghost predicate HasRoom(s: seq<Slot>)
    requires Sectored(s)
  {
    || (exists p :: 0 <= p < |s| && s[p].Free?)
    || (exists k :: 0 <= k < Sectors(s) && SectorDead(s, k))
  }

  function EraseSector(s: seq<Slot>, k: nat): (r: seq<Slot>)
    ensures |r| == |s|
  {
    seq(|s|, p requires 0 <= p < |s| => if p / SECTOR_PAGES == k then Free else s[p])
  }

  /** The device after each sector erase of a pass over sectors k, k+1, ... in order. */
  ghost function EraseTrace(s: seq<Slot>, k: nat := 0): seq<seq<Slot>>
    requires Sectored(s) && k <= Sectors(s)
    decreases Sectors(s) - k
  {
    if k == Sectors(s) then []
    else if SectorDead(s, k) then [EraseSector(s, k)] + EraseTrace(EraseSector(s, k), k + 1)
    else EraseTrace(s, k + 1)
  }

  /** Every dead sector at or after sector k erased, all other pages as they were. */
  ghost function EraseDead(s: seq<Slot>, k: nat := 0): (r: seq<Slot>)
    requires Sectored(s)
    ensures |r| == |s|
  {
    seq(|s|, p requires 0 <= p < |s| =>
      if k <= p / SECTOR_PAGES && SectorDead(s, p / SECTOR_PAGES) then Free else s[p])
  }

  /** The device as the write finds it: reclaimed only if there was no free page. */
  ghost function Reclaimed(s: seq<Slot>): (r: seq<Slot>)
    requires Sectored(s)
    ensures |r| == |s|
  {
    if First(s, BLOCK_FREE) < |s| then s else EraseDead(s)
  }

  function Kill(s: seq<Slot>, id: RecordId): (r: seq<Slot>)
    ensures |r| == |s|
  {
    var stale := First(s, id);
    if stale < |s| then s[stale := Dead] else s
  }

  ghost function Save(s: seq<Slot>, id: RecordId, payload: Payload): (r: seq<Slot>)
    requires Sectored(s)
    ensures |r| == |s|
  {
    var reclaimed := Reclaimed(s);
    var free := First(reclaimed, BLOCK_FREE);
    if free < |s| then Kill(reclaimed, id)[free := Live(id, payload)] else reclaimed
  }

  /** The device after every physical operation of a save, in order. */
  ghost function SaveTrace(s: seq<Slot>, id: RecordId, payload: Payload): seq<seq<Slot>>
    requires Sectored(s)
  {
    var erases := if First(s, BLOCK_FREE) < |s| then [] else EraseTrace(s);
    var reclaimed := Reclaimed(s);
    erases +
    (if First(reclaimed, BLOCK_FREE) == |s| then []
     else (if First(reclaimed, id) < |s| then [Kill(reclaimed, id)] else []) + [Save(s, id, payload)])
  }

  // ---------------------------------------------------------------- reclaiming

  /** The device after a run of physical operations. */
  ghost function After(s: seq<Slot>, trace: seq<seq<Slot>>): seq<Slot> {
    if trace == [] then s else trace[|trace| - 1]
  }

  /** The pass ends with exactly those sectors erased whose headers were all zero when it began. */
  lemma {:induction false} EraseTraceEnds(s: seq<Slot>, k: nat)
    requires Sectored(s) && k <= Sectors(s)
    ensures After(s, EraseTrace(s, k)) == EraseDead(s, k)
    decreases Sectors(s) - k
  {
    if k < Sectors(s) {
      EraseStep(s, k);
      hide EraseDead, EraseSector, SectorDead;
      if SectorDead(s, k) {
        var t := EraseSector(s, k);
        EraseTraceEnds(t, k + 1);
        AfterCons(s, t, EraseTrace(t, k + 1));
      } else {
        EraseTraceEnds(s, k + 1);
      }
    } else {
      assert forall p :: 0 <= p < |s| ==> p / SECTOR_PAGES < k;
    }
  }

  lemma AfterCons(s: seq<Slot>, t: seq<Slot>, trace: seq<seq<Slot>>)
    ensures After(s, [t] + trace) == After(t, trace)
  {
  }

  lemma EraseStep(s: seq<Slot>, k: nat)
    requires Sectored(s) && k < Sectors(s)
    ensures EraseDead(s, k) == EraseDead(if SectorDead(s, k) then EraseSector(s, k) else s, k + 1)
  {
  }

  /** Reclaiming frees a page exactly when some sector is dead. */
  lemma ReclaimedHasFree(s: seq<Slot>)
    requires Sectored(s)
    ensures First(Reclaimed(s), BLOCK_FREE) < |s| <==> HasRoom(s)
  {
    var r := Reclaimed(s);
    var f := First(r, BLOCK_FREE);
    if First(s, BLOCK_FREE) == |s| {
      if f < |s| {
        assert r[f].Free? && !s[f].Free?;
        assert SectorDead(s, f / SECTOR_PAGES);
      }
      if HasRoom(s) {
        var k :| 0 <= k < Sectors(s) && SectorDead(s, k);
        var p := k * SECTOR_PAGES;
        assert p / SECTOR_PAGES == k;
        assert r[p] == Free;
      }
    } else {
      assert s[First(s, BLOCK_FREE)].Free?;
    }
  }

  // ---------------------------------------------------------------- refinement of a map

  /** Pages that were live keep their record through a reclaim, and no record appears. */
  ghost predicate SameLive(s: seq<Slot>, t: seq<Slot>) {
    && |s| == |t|
    && forall p :: 0 <= p < |s| && (s[p].Live? || t[p].Live?) ==> s[p] == t[p]
  }

  lemma LookupAt(s: seq<Slot>, p: nat)
    requires Distinct(s) && p < |s| && s[p].Live?
    ensures First(s, s[p].id) == p
  {
  }

  lemma ContentsLookup(s: seq<Slot>, id: RecordId)
    ensures Lookup(s, id) == if id in Contents(s) then Some(Contents(s)[id]) else None
  {
  }

  lemma ContentsEqual(s: seq<Slot>, m: map<RecordId, Payload>)
    requires forall id: RecordId :: Lookup(s, id) == if id in m then Some(m[id]) else None
    ensures Contents(s) == m
  {
  }

  lemma SameLiveContents(s: seq<Slot>, t: seq<Slot>)
    requires SameLive(s, t) && Distinct(s)
    ensures Distinct(t) && Contents(t) == Contents(s)
  {
    forall id: RecordId
      ensures Lookup(t, id) == Lookup(s, id)
    {
      ContentsLookup(s, id);
      if First(s, id) < |s| {
        assert t[First(s, id)].Live?;
      }
      if First(t, id) < |t| {
        assert s[First(t, id)].Live?;
      }
    }
    ContentsEqual(t, Contents(s));
  }

  lemma EraseDeadSameLive(s: seq<Slot>)
    requires Sectored(s)
    ensures SameLive(s, EraseDead(s))
  {
    assert forall p :: 0 <= p < |s| ==>
      p / SECTOR_PAGES * SECTOR_PAGES <= p < (p / SECTOR_PAGES + 1) * SECTOR_PAGES;
  }

  lemma ReclaimedSameLive(s: seq<Slot>)
    requires Sectored(s)
    ensures SameLive(s, Reclaimed(s))
  {
    EraseDeadSameLive(s);
  }

  lemma DropLookup(s: seq<Slot>, p: nat, i: RecordId)
    requires Distinct(s) && p < |s| && s[p].Live?
    ensures Lookup(s[p := Dead], i) == if i == s[p].id then None else Lookup(s, i)
  {
    var t, q := s[p := Dead], First(s, i);
    LookupAt(s, p);
    if i == s[p].id {
      if First(t, i) < |t| {
        LookupAt(s, First(t, i));
      }
    } else if q < |s| {
      assert t[q] == s[q];
      LookupAt(t, q);
    }
  }

  lemma DropContents(s: seq<Slot>, p: nat)
    requires Distinct(s) && p < |s| && s[p].Live?
    ensures Distinct(s[p := Dead]) && Contents(s[p := Dead]) == Contents(s) - {s[p].id}
  {
    var m := Contents(s) - {s[p].id};
    forall i: RecordId
      ensures Lookup(s[p := Dead], i) == if i in m then Some(m[i]) else None
    {
      DropLookup(s, p, i);
      ContentsLookup(s, i);
    }
    ContentsEqual(s[p := Dead], m);
  }

  lemma KillContents(s: seq<Slot>, id: RecordId)
    requires Distinct(s)
    ensures Distinct(Kill(s, id)) && Contents(Kill(s, id)) == Contents(s) - {id}
    ensures First(s, id) == |s| <==> id !in Contents(s)
  {
    ContentsLookup(s, id);
    if First(s, id) < |s| {
      DropContents(s, First(s, id));
    }
  }

  lemma PutDistinct(s: seq<Slot>, free: nat, id: RecordId, payload: Payload)
    requires Distinct(s) && free < |s| && id !in LiveIds(s)
    ensures Distinct(s[free := Live(id, payload)])
  {
    assert forall p :: 0 <= p < |s| && s[p].Live? ==> s[p].id in LiveIds(s);
  }

  lemma PutLookup(s: seq<Slot>, free: nat, id: RecordId, payload: Payload, i: RecordId)
    requires free < |s| && s[free].Free? && Distinct(s[free := Live(id, payload)])
    ensures Lookup(s[free := Live(id, payload)], i) == if i == id then Some(payload) else Lookup(s, i)
  {
    var t := s[free := Live(id, payload)];
    if i == id {
      LookupAt(t, free);
    } else if First(s, i) < |s| {
      assert t[First(s, i)] == s[First(s, i)];
      LookupAt(t, First(s, i));
    }
  }

  lemma PutContents(s: seq<Slot>, free: nat, id: RecordId, payload: Payload)
    requires Distinct(s) && free < |s| && s[free].Free? && id !in Contents(s)
    ensures Distinct(s[free := Live(id, payload)])
    ensures Contents(s[free := Live(id, payload)]) == Contents(s)[id := payload]
  {
    PutDistinct(s, free, id, payload);
    var m := Contents(s)[id := payload];
    forall i: RecordId
      ensures Lookup(s[free := Live(id, payload)], i) == if i in m then Some(m[i]) else None
    {
      PutLookup(s, free, id, payload, i);
      ContentsLookup(s, i);
    }
    ContentsEqual(s[free := Live(id, payload)], m);
  }

  lemma KillKeepsFree(s: seq<Slot>, free: nat, id: RecordId)
    requires free < |s| && s[free].Free?
    ensures Kill(s, id)[free].Free?
  {
  }

  /** Overwriting or inserting a record on a device that has a free page. */
  lemma WriteContents(s: seq<Slot>, free: nat, id: RecordId, payload: Payload)
    requires Distinct(s) && free < |s| && s[free].Free?
    ensures Distinct(Kill(s, id)[free := Live(id, payload)])
    ensures Contents(Kill(s, id)[free := Live(id, payload)]) == Contents(s)[id := payload]
  {
    KillContents(s, id);
    KillKeepsFree(s, free, id);
    PutContents(Kill(s, id), free, id, payload);
    assert forall m: map<RecordId, Payload> :: (m - {id})[id := payload] == m[id := payload];
  }

  /** A save updates exactly one key, and does so exactly when there is room. */
  lemma SaveRefinesMap(s: seq<Slot>, id: RecordId, payload: Payload)
    requires Sectored(s) && Distinct(s)
    ensures Distinct(Save(s, id, payload))
    ensures Contents(Save(s, id, payload)) ==
            if HasRoom(s) then Contents(s)[id := payload] else Contents(s)
    ensures !HasRoom(s) ==> Save(s, id, payload) == s
  {
    ReclaimedHasFree(s);
    ReclaimedSameLive(s);
    var r := Reclaimed(s);
    SameLiveContents(s, r);
    if HasRoom(s) {
      WriteContents(r, First(r, BLOCK_FREE), id, payload);
    } else {
      NothingReclaimed(s);
    }
  }

  lemma NothingReclaimed(s: seq<Slot>)
    requires Sectored(s) && !HasRoom(s)
    ensures Reclaimed(s) == s
  {
    assert forall p :: 0 <= p < |s| ==> 0 <= p / SECTOR_PAGES < Sectors(s);
  }

  // ---------------------------------------------------------------- capacity

  /** A sector without room adds an id to those before it. */
  lemma SectorAddsId(s: seq<Slot>, k: nat) returns (id: RecordId)
    requires Sectored(s) && Distinct(s) && !HasRoom(s) && k < Sectors(s)
    ensures id !in LiveIds(s[..k * SECTOR_PAGES])
    ensures LiveIds(s[..k * SECTOR_PAGES]) + {id} <= LiveIds(s[..(k + 1) * SECTOR_PAGES])
  {
    var before, upto := s[..k * SECTOR_PAGES], s[..(k + 1) * SECTOR_PAGES];
    assert !SectorDead(s, k);
    var p :| k * SECTOR_PAGES <= p < (k + 1) * SECTOR_PAGES && !s[p].Dead?;
    assert s[p].Live?;
    id := s[p].id;
    assert upto[p] == s[p];
    assert forall q :: 0 <= q < |before| ==> before[q] == upto[q];
  }

  /** Pigeonhole: with no room, each of the first k sectors holds a record of its own. */
  lemma {:induction false} NoRoomLive(s: seq<Slot>, k: nat)
    requires Sectored(s) && Distinct(s) && !HasRoom(s) && k <= Sectors(s)
    ensures |LiveIds(s[..k * SECTOR_PAGES])| >= k
  {
    hide LiveIds, HasRoom, Distinct;
    if k > 0 {
      NoRoomLive(s, k - 1);
      var id := SectorAddsId(s, k - 1);
      var before := LiveIds(s[..(k - 1) * SECTOR_PAGES]);
      CardinalityMonotone(before + {id}, LiveIds(s[..k * SECTOR_PAGES]));
    }
  }

  lemma FullHoldsRecordPerSector(s: seq<Slot>)
    requires Sectored(s) && Distinct(s) && !HasRoom(s)
    ensures |Contents(s)| >= Sectors(s)
  {
    NoRoomLive(s, Sectors(s));
    assert s[..Sectors(s) * SECTOR_PAGES] == s;
    assert |Contents(s)| == |Contents(s).Keys|;
  }

  /** With fewer records than sectors a save always finds a page. */
  lemma RoomBelowCapacity(s: seq<Slot>)
    requires Sectored(s) && Distinct(s) && |Contents(s)| < Sectors(s)
    ensures HasRoom(s)
  {
    if !HasRoom(s) {
      FullHoldsRecordPerSector(s);
    }
  }
}
