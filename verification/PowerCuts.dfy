/** Losing power while a blind is added or deleted, or a record is saved again: what is on flash at each
    moment, and exactly when something else that was registered is lost with it. */
module PowerCuts {
  import opened Basics
  import opened Flash
  import opened Records
  import opened House
  import opened HouseInvariant
  import opened HouseRestart
  import opened AddedRemotes
  import opened LostCodes
  import W = DiskWrites
  import S = SlotLog
  import D = DiskView

  // ---------------------------------------------------------------- what a reload brings back

  /** These remotes and blinds are there, each as its record says. */
  ghost predicate Survive(h: House, u: House, now: int, remotes: set<u32>, blinds: set<u32>) {
    && (forall id :: id in remotes ==>
          && id in h.remotes && Low(id) in h.disk.remotes && id in u.remotes
          && u.remotes[id] == LoadedRemote(h.disk.remotes[Low(id)], h.remotes[id].external))
    && (forall b :: b in blinds ==>
          b in h.disk.blinds && b in u.blinds && u.blinds[b] == LoadedBlind(h.disk.blinds[b], now))
  }

  /** The flash still has their records. */
  ghost predicate RecordsKept(h: House, d: Disk, remotes: set<u32>, blinds: set<u32>) {
    && (forall id :: id in remotes ==>
          && id in h.remotes && Low(id) in h.disk.remotes
          && Low(id) in d.remotes && d.remotes[Low(id)] == h.disk.remotes[Low(id)])
    && (forall b :: b in blinds ==>
          && b in h.blinds && b in h.disk.blinds && h.blinds[b].remoteId in remotes
          && b in d.blinds && d.blinds[b] == h.disk.blinds[b])
  }

  /** Each list is the one before an operation, the one after it, or missing. */
  ghost predicate ListsOf(d: Disk, before: Disk, end: Disk) {
    && (d.remoteIds == before.remoteIds || d.remoteIds == end.remoteIds || d.remoteIds == [])
    && (d.externalIds == before.externalIds || d.externalIds == end.externalIds || d.externalIds == [])
    && (d.blindIds == before.blindIds || d.blindIds == end.blindIds || d.blindIds == [])
  }

  /** The operation leaves them where they are. */
  ghost predicate Untouched(h: House, t: House, remotes: set<u32>, blinds: set<u32>) {
    && (forall id :: id in remotes ==>
          id in h.remotes && id in t.remotes && t.remotes[id].external == h.remotes[id].external)
    && (forall b :: b in blinds ==> b in h.blinds && b in t.blinds)
  }

  lemma RemoteBackIff(h: House, t: House, d: Disk, id: u32)
    requires Inv(h) && Inv(t) && ListsOf(d, h.disk, t.disk) && id in h.remotes && id in t.remotes
    requires t.remotes[id].external == h.remotes[id].external
    requires Low(id) in h.disk.remotes && Low(id) in d.remotes && d.remotes[Low(id)] == h.disk.remotes[Low(id)]
    ensures id in ReloadedRemotes(d) <==> if h.remotes[id].external then d.externalIds != [] else d.remoteIds != []
    ensures id in ReloadedRemotes(d) ==>
              ReloadedRemotes(d)[id] == LoadedRemote(h.disk.remotes[Low(id)], h.remotes[id].external)
  {
    ReadableId(h, id);
    ListedIff(h, id);
    ListedIff(t, id);
    hide Inv, LoadedRemote, Low;
    var ids := InternalIdsOf(d.remoteIds);
    LoadRemotesGives(d, map[], ids, false);
    LoadRemotesGives(d, LoadRemotes(d, map[], ids, false), d.externalIds, true);
    InternalIdsMember(d.remoteIds, id);
  }

  lemma ListedIff(h: House, id: u32)
    requires Inv(h) && id in h.remotes
    ensures BASE_REMOTE_ID <= id < BASE_REMOTE_ID + 0x1_0000 && id - BASE_REMOTE_ID in h.disk.remoteIds
            <==> !h.remotes[id].external
    ensures id in h.disk.externalIds <==> h.remotes[id].external
  {
    InternalShape(h.disk.remotes, h.remotes, h.nextRemote);
    assert IsInternal(h.remotes, id) <==> !h.remotes[id].external;
    assert IsExternal(h.remotes, id) <==> h.remotes[id].external;
  }

  lemma ReloadGives(d: Disk, now: int, issued: seq<Issue>)
    requires Bootable(d)
    ensures var u := Reload(d, now, issued);
            && u.remotes == ReloadedRemotes(d)
            && (forall b: u32 :: b in u.blinds <==> b in d.blindIds && d.blinds[b].remoteId in ReloadedRemotes(d))
            && (forall b: u32 :: b in u.blinds ==> u.blinds[b] == LoadedBlind(d.blinds[b], now))
  {
    hide LoadRemotes, NextId, LoadedBlind, LoadBlinds;
    LoadBlindsGives(d, ReloadedRemotes(d), d.blindIds, now);
  }

  lemma BlindBackIff(h: House, t: House, d: Disk, b: u32, now: int)
    requires Inv(h) && Inv(t) && Bootable(d) && ListsOf(d, h.disk, t.disk) && b in h.blinds && b in t.blinds
    requires b in h.disk.blinds && b in d.blinds && d.blinds[b] == h.disk.blinds[b]
    requires h.blinds[b].remoteId in ReloadedRemotes(d) <==> d.remoteIds != []
    ensures var u := Reload(d, now, h.issued);
            && (b in u.blinds <==> d.remoteIds != [] && d.blindIds != [])
            && (b in u.blinds ==> u.blinds[b] == LoadedBlind(h.disk.blinds[b], now))
  {
    hide Inv, Reload, ReloadedRemotes, LoadedBlind, Bootable;
    ReloadGives(d, now, h.issued);
    BlindListed(h, b);
    BlindListed(t, b);
  }

  lemma BlindListed(h: House, b: u32)
    requires Inv(h) && b in h.blinds
    ensures b in h.disk.blindIds && b < 0x1_0000 && b in h.disk.blinds
    ensures h.disk.blinds[b].remoteId == h.blinds[b].remoteId
    ensures h.blinds[b].remoteId in h.remotes && !h.remotes[h.blinds[b].remoteId].external
  {
    BlindIdsSmall(h.disk.blinds, h.remotes, h.blinds, h.nextBlind);
    assert BlindOk(h.disk.blinds, h.remotes, h.nextBlind, b, h.blinds[b]);
  }

  /** They all come back exactly if no list that names one of them is missing. */
  lemma SurviveIff(h: House, t: House, d: Disk, now: int, remotes: set<u32>, blinds: set<u32>)
    requires Inv(h) && Inv(t) && Bootable(d) && ListsOf(d, h.disk, t.disk)
    requires RecordsKept(h, d, remotes, blinds) && Untouched(h, t, remotes, blinds)
    ensures Survive(h, Reload(d, now, h.issued), now, remotes, blinds) <==>
            && (d.remoteIds == [] ==> forall id :: id in remotes ==> h.remotes[id].external)
            && (d.externalIds == [] ==> forall id :: id in remotes ==> !h.remotes[id].external)
            && (d.blindIds == [] ==> blinds == {})
  {
    hide Inv, Reload, ReloadedRemotes, LoadedRemote, LoadedBlind, Bootable, Low, ListsOf;
    ReloadGives(d, now, h.issued);
    forall id | id in remotes
      ensures id in ReloadedRemotes(d) <==> if h.remotes[id].external then d.externalIds != [] else d.remoteIds != []
      ensures id in ReloadedRemotes(d) ==>
                ReloadedRemotes(d)[id] == LoadedRemote(h.disk.remotes[Low(id)], h.remotes[id].external)
    {
      RemoteBackIff(h, t, d, id);
    }
    var u := Reload(d, now, h.issued);
    forall b | b in blinds
      ensures h.blinds[b].remoteId in remotes && !h.remotes[h.blinds[b].remoteId].external
      ensures b in u.blinds <==> d.remoteIds != [] && d.blindIds != []
      ensures b in u.blinds ==> u.blinds[b] == LoadedBlind(h.disk.blinds[b], now)
    {
      BlindListed(h, b);
      BlindBackIff(h, t, d, b, now);
    }
  }

  // ---------------------------------------------------------------- five writes

  /** The writes of adding or deleting a blind with its primary remote, and the disk wherever they are cut. */
  function FiveWrites(end: Disk, low: u16, b: u16, adding: bool): seq<W.Write>
    requires adding ==> low in end.remotes && b in end.blinds
  {
    [if adding then W.PutRemote(low, end.remotes[low]) else W.DropRemote(low),
     W.PutInternals(end.remoteIds), W.PutExternals(end.externalIds),
     if adding then W.PutBlind(b, end.blinds[b]) else W.DropBlind(b),
     W.PutBlindIds(end.blindIds)]
  }

  function CutDisk(before: Disk, end: Disk, low: u16, b: u16, k: nat, gap: bool): Disk {
    Disk(if k == 0 then (if gap then before.remotes - {low} else before.remotes) else end.remotes,
         if k <= 3 then (if gap && k == 3 then before.blinds - {b} else before.blinds) else end.blinds,
         if k <= 1 then (if gap && k == 1 then [] else before.remoteIds) else end.remoteIds,
         if k <= 2 then (if gap && k == 2 then [] else before.externalIds) else end.externalIds,
         if k <= 4 then (if gap && k == 4 then [] else before.blindIds) else end.blindIds)
  }

  lemma FiveCut(before: Disk, end: Disk, low: u16, b: u16, adding: bool, k: nat, gap: bool)
    requires adding ==> low in end.remotes && b in end.blinds
    requires end.remotes == if adding then before.remotes[low := end.remotes[low]] else before.remotes - {low}
    requires end.blinds == if adding then before.blinds[b := end.blinds[b]] else before.blinds - {b}
    requires k <= 5 && (gap ==> k < 5)
    ensures W.Cut(before, FiveWrites(end, low, b, adding), k, gap) == CutDisk(before, end, low, b, k, gap)
  {
    var ws := FiveWrites(end, low, b, adding);
    FiveDone(before, end, low, b, adding, k);
  }

  lemma {:induction false} FiveDone(before: Disk, end: Disk, low: u16, b: u16, adding: bool, k: nat)
    requires adding ==> low in end.remotes && b in end.blinds
    requires end.remotes == if adding then before.remotes[low := end.remotes[low]] else before.remotes - {low}
    requires end.blinds == if adding then before.blinds[b := end.blinds[b]] else before.blinds - {b}
    requires k <= 5
    ensures W.Done(before, FiveWrites(end, low, b, adding), k) == CutDisk(before, end, low, b, k, false)
  {
    hide W.Done;
    if k > 0 {
      FiveDone(before, end, low, b, adding, k - 1);
      W.DoneStep(before, FiveWrites(end, low, b, adding), k - 1);
    } else {
      W.DoneNone(before, FiveWrites(end, low, b, adding));
    }
  }

  // ---------------------------------------------------------------- adding a blind

  function AddWrites(h: House, t: House): seq<W.Write>
    requires Low(h.nextRemote) in t.disk.remotes && h.nextBlind < 0x1_0000 && h.nextBlind in t.disk.blinds
  {
    FiveWrites(t.disk, Low(h.nextRemote), h.nextBlind, true)
  }

  lemma AddBlindEffect(h: House, name: Name, openTime: int, closeTime: int, now: int)
    requires Inv(h) && CanCreate(h)
    requires h.nextBlind < 0x1_0000 && 0 < openTime < 0x8000_0000 && 0 < closeTime < 0x8000_0000
    ensures var t := AddBlind(h, name, openTime, closeTime, now);
            && Inv(t)
            && t.remotes.Keys == h.remotes.Keys + {h.nextRemote} && h.nextRemote !in h.remotes
            && (forall id :: id in h.remotes ==> t.remotes[id] == h.remotes[id]) && !t.remotes[h.nextRemote].external
            && t.blinds.Keys == h.blinds.Keys + {h.nextBlind} && h.nextBlind !in h.blinds
            && Low(h.nextRemote) in t.disk.remotes && h.nextBlind in t.disk.blinds
            && t.disk.remotes == h.disk.remotes[Low(h.nextRemote) := t.disk.remotes[Low(h.nextRemote)]]
            && t.disk.blinds == h.disk.blinds[h.nextBlind := t.disk.blinds[h.nextBlind]]
            && t.disk.blinds[h.nextBlind].remoteId == h.nextRemote
  {
    hide Inv, CreateRemote, AttachBlind, RemoteRecord;
    NextIsValid(h);
    AddBlindInv(h, name, openTime, closeTime, now);
    CreateRemoteEffect(h, name);
    AttachEffect(CreateRemote(h, name), NewBlind(name, h.nextRemote, openTime, closeTime, now));
  }

  /** The records of everything registered are as they were, wherever an addition is cut. */
  lemma AddKeepsRecords(h: House, t: House, k: nat, gap: bool)
    requires Inv(h) && CanCreate(h) && h.nextBlind < 0x1_0000
    requires Low(h.nextRemote) in t.disk.remotes && h.nextBlind in t.disk.blinds
    requires t.disk.remotes == h.disk.remotes[Low(h.nextRemote) := t.disk.remotes[Low(h.nextRemote)]]
    requires t.disk.blinds == h.disk.blinds[h.nextBlind := t.disk.blinds[h.nextBlind]]
    ensures RecordsKept(h, CutDisk(h.disk, t.disk, Low(h.nextRemote), h.nextBlind, k, gap),
                        h.remotes.Keys, h.blinds.Keys)
  {
    var d := CutDisk(h.disk, t.disk, Low(h.nextRemote), h.nextBlind, k, gap);
    hide Inv, Low, CanCreate;
    assert LowFree(h.remotes, h.nextRemote) by { NextIsValid(h); IdsLeft(h); }
    NextIsValid(h);
    forall id | id in h.remotes
      ensures Low(id) in h.disk.remotes && Low(id) in d.remotes && d.remotes[Low(id)] == h.disk.remotes[Low(id)]
    {
      RecordThere(h, id);
    }
    forall b | b in h.blinds
      ensures b in h.disk.blinds && h.blinds[b].remoteId in h.remotes
      ensures b in d.blinds && d.blinds[b] == h.disk.blinds[b]
    {
      BlindListed(h, b);
    }
  }

  lemma AddCutBoots(h: House, t: House, k: nat, gap: bool)
    requires Inv(h) && Inv(t) && k <= 5 && h.nextBlind < 0x1_0000 && h.nextBlind in t.disk.blinds
    requires t.disk.blinds == h.disk.blinds[h.nextBlind := t.disk.blinds[h.nextBlind]]
    ensures Bootable(CutDisk(h.disk, t.disk, Low(h.nextRemote), h.nextBlind, k, gap))
  {
    NextIsValid(h);
    BlindListBootable(h.disk, h.remotes, h.blinds, h.nextBlind);
    BlindListBootable(t.disk, t.remotes, t.blinds, t.nextBlind);
    assert h.nextBlind !in h.disk.blindIds;
    hide Inv;
  }

  /** Some list of others is missing. */
  predicate ListLost(h: House, k: nat, gap: bool, remotes: set<u32>, blinds: set<u32>)
    requires remotes <= h.remotes.Keys
  {
    gap &&
    (  || (k == 1 && exists id :: id in remotes && !h.remotes[id].external)
       || (k == 2 && exists id :: id in remotes && h.remotes[id].external)
       || (k == 4 && blinds != {}))
  }

  /** Of lists that are right, an empty one names nothing. */
  lemma EmptyLists(h: House)
    requires Inv(h)
    ensures h.disk.remoteIds == [] ==> forall id :: id in h.remotes ==> h.remotes[id].external
    ensures h.disk.externalIds == [] ==> forall id :: id in h.remotes ==> !h.remotes[id].external
    ensures h.disk.blindIds == [] ==> h.blinds == map[]
  {
    forall id | id in h.remotes
      ensures h.disk.remoteIds == [] ==> h.remotes[id].external
      ensures h.disk.externalIds == [] ==> !h.remotes[id].external
    {
      ListedIff(h, id);
    }
    forall b | b in h.blinds
      ensures b in h.disk.blindIds
    {
      BlindListed(h, b);
    }
  }

  lemma CutSurviveIff(h: House, t: House, low: u16, b: u16, k: nat, gap: bool, now: int, remotes: set<u32>,
                      blinds: set<u32>)
    requires Inv(h) && Inv(t) && k <= 5 && (gap ==> k < 5)
    requires Bootable(CutDisk(h.disk, t.disk, low, b, k, gap))
    requires RecordsKept(h, CutDisk(h.disk, t.disk, low, b, k, gap), remotes, blinds)
             && Untouched(h, t, remotes, blinds)
    ensures remotes <= h.remotes.Keys
    ensures Survive(h, Reload(CutDisk(h.disk, t.disk, low, b, k, gap), now, h.issued), now, remotes, blinds)
            <==> !ListLost(h, k, gap, remotes, blinds)
  {
    hide Inv, Reload, Survive, RecordsKept, Bootable;
    EmptyLists(h);
    EmptyLists(t);
    SurviveIff(h, t, CutDisk(h.disk, t.disk, low, b, k, gap), now, remotes, blinds);
  }

  /** While a blind is added the device can always start again, and it loses nothing that was registered
      unless power goes while a list is being replaced that names something. */
  lemma AddingCutIff(h: House, name: Name, openTime: int, closeTime: int, now: int, k: nat, gap: bool)
    requires Inv(h) && CanCreate(h) && k <= 5 && (gap ==> k < 5)
    requires h.nextBlind < 0x1_0000 && 0 < openTime < 0x8000_0000 && 0 < closeTime < 0x8000_0000
    ensures var t := AddBlind(h, name, openTime, closeTime, now);
            && Low(h.nextRemote) in t.disk.remotes && h.nextBlind in t.disk.blinds
            && var d := W.Cut(h.disk, AddWrites(h, t), k, gap);
               && Bootable(d)
               && (Survive(h, Reload(d, now, h.issued), now, h.remotes.Keys, h.blinds.Keys)
                   <==> !ListLost(h, k, gap, h.remotes.Keys, h.blinds.Keys))
  {
    hide Inv, CanCreate, AddBlind, Reload, Survive, ListLost, Bootable, RecordsKept, CutDisk, FiveWrites, W.Cut,
      Low;
    AddBlindEffect(h, name, openTime, closeTime, now);
    var t := AddBlind(h, name, openTime, closeTime, now);
    FiveCut(h.disk, t.disk, Low(h.nextRemote), h.nextBlind, true, k, gap);
    AddKeepsRecords(h, t, k, gap);
    AddCutBoots(h, t, k, gap);
    CutSurviveIff(h, t, Low(h.nextRemote), h.nextBlind, k, gap, now, h.remotes.Keys, h.blinds.Keys);
  }

  /** What a missing list takes with it: that of the internal remotes all of them and every blind, that of
      the external remotes all of them, that of the blinds every blind. */
  lemma MissingListLoses(h: House, t: House, d: Disk, now: int, remotes: set<u32>, blinds: set<u32>)
    requires Inv(h) && Inv(t) && Bootable(d) && ListsOf(d, h.disk, t.disk)
    requires RecordsKept(h, d, remotes, blinds) && Untouched(h, t, remotes, blinds)
    ensures var u := Reload(d, now, h.issued);
            && (forall id :: id in remotes ==>
                  (id in u.remotes <==> if h.remotes[id].external then d.externalIds != [] else d.remoteIds != []))
            && (forall b :: b in blinds ==> (b in u.blinds <==> d.remoteIds != [] && d.blindIds != []))
  {
    hide Inv, Reload, ReloadedRemotes, LoadedRemote, LoadedBlind, Bootable, Low, ListsOf;
    ReloadGives(d, now, h.issued);
    forall id | id in remotes
      ensures id in ReloadedRemotes(d) <==> if h.remotes[id].external then d.externalIds != [] else d.remoteIds != []
    {
      RemoteBackIff(h, t, d, id);
    }
    var u := Reload(d, now, h.issued);
    forall b | b in blinds
      ensures b in u.blinds <==> d.remoteIds != [] && d.blindIds != []
    {
      BlindListed(h, b);
      BlindBackIff(h, t, d, b, now);
    }
  }

  /** The new remote is there once the list of remotes names it, the new blind once the last write is done. */
  lemma AddedIff(h: House, name: Name, openTime: int, closeTime: int, now: int, k: nat, gap: bool)
    requires Inv(h) && CanCreate(h) && k <= 5 && (gap ==> k < 5)
    requires h.nextBlind < 0x1_0000 && 0 < openTime < 0x8000_0000 && 0 < closeTime < 0x8000_0000
    ensures var t := AddBlind(h, name, openTime, closeTime, now);
            && Low(h.nextRemote) in t.disk.remotes && h.nextBlind in t.disk.blinds
            && var d := W.Cut(h.disk, AddWrites(h, t), k, gap);
               && Bootable(d)
               && (h.nextRemote in Reload(d, now, h.issued).remotes <==> k >= 2)
               && (h.nextBlind in Reload(d, now, h.issued).blinds <==> k == 5)
  {
    hide Inv, CanCreate, AddBlind, Reload, Bootable, FiveWrites, W.Cut, Low, ReloadedRemotes;
    AddBlindEffect(h, name, openTime, closeTime, now);
    var t := AddBlind(h, name, openTime, closeTime, now);
    var d := CutDisk(h.disk, t.disk, Low(h.nextRemote), h.nextBlind, k, gap);
    FiveCut(h.disk, t.disk, Low(h.nextRemote), h.nextBlind, true, k, gap);
    AddCutBoots(h, t, k, gap);
    ReloadGives(d, now, h.issued);
    AddedListed(h, t);
    NewRemoteBackIff(d, h.nextRemote);
  }

  lemma NewRemoteBackIff(d: Disk, id: u32)
    requires BASE_REMOTE_ID <= id < BASE_REMOTE_ID + 0x1_0000 && id !in d.externalIds
    ensures id in ReloadedRemotes(d) <==> id - BASE_REMOTE_ID in d.remoteIds && Low(id) in d.remotes
  {
    hide LoadedRemote;
    var ids := InternalIdsOf(d.remoteIds);
    LoadRemotesGives(d, map[], ids, false);
    LoadRemotesGives(d, LoadRemotes(d, map[], ids, false), d.externalIds, true);
    InternalIdsMember(d.remoteIds, id);
  }

  lemma AddedListed(h: House, t: House)
    requires Inv(h) && Inv(t) && h.nextRemote !in h.remotes && h.nextRemote in t.remotes && h.nextBlind in t.blinds
    requires !t.remotes[h.nextRemote].external
    ensures BASE_REMOTE_ID < h.nextRemote < BASE_REMOTE_ID + 0x1_0000
    ensures h.nextRemote - BASE_REMOTE_ID !in h.disk.remoteIds && h.nextRemote - BASE_REMOTE_ID in t.disk.remoteIds
    ensures h.nextRemote !in h.disk.externalIds && h.nextRemote !in t.disk.externalIds
    ensures h.nextBlind !in h.disk.blindIds && h.nextBlind in t.disk.blindIds
  {
    NextIsValid(h);
    BlindListed(t, h.nextBlind);
    ListedIff(t, h.nextRemote);
    hide BlindsOk;
    InternalShape(t.disk.remotes, t.remotes, t.nextRemote);
    assert IsInternal(t.remotes, h.nextRemote) && !IsExternal(h.remotes, h.nextRemote)
      && !IsInternal(h.remotes, h.nextRemote);
    hide RemotesOk;
  }

  /** The flash passes through x while the writes of an addition are made. */
  ghost predicate AddMoment(h: House, t: House, s: seq<Slot>, ps: seq<Payload>, x: seq<Slot>) {
    && h.nextBlind < 0x1_0000 && Low(h.nextRemote) in t.disk.remotes && h.nextBlind in t.disk.blinds
    && W.Moment(s, AddWrites(h, t), ps, h.disk, x)
  }

  /** So it is on the device: wherever the programs and erases of an addition stop, the flash reads as one
      of these. That these are the writes the device makes is `Registry.Blinds.DoAddBlind`. */
  lemma AnyMomentOfAdding(h: House, name: Name, openTime: int, closeTime: int, now: int,
                          s: seq<Slot>, ps: seq<Payload>, x: seq<Slot>) returns (d: Disk, k: nat, gap: bool)
    requires Inv(h) && CanCreate(h)
    requires h.nextBlind < 0x1_0000 && 0 < openTime < 0x8000_0000 && 0 < closeTime < 0x8000_0000
    requires AddMoment(h, AddBlind(h, name, openTime, closeTime, now), s, ps, x)
    ensures k <= 5 && (gap ==> k < 5)
    ensures W.Holds(x, d) && d == W.Cut(h.disk, AddWrites(h, AddBlind(h, name, openTime, closeTime, now)), k, gap)
    ensures Bootable(d)
    ensures Survive(h, Reload(d, now, h.issued), now, h.remotes.Keys, h.blinds.Keys)
            <==> !ListLost(h, k, gap, h.remotes.Keys, h.blinds.Keys)
    ensures h.nextRemote in Reload(d, now, h.issued).remotes <==> k >= 2
    ensures h.nextBlind in Reload(d, now, h.issued).blinds <==> k == 5
  {
    hide Inv, CanCreate, AddBlind, Reload, Survive, ListLost, Bootable, W.Cut, W.AllCarry, W.Passes, Low, W.Holds;
    var t := AddBlind(h, name, openTime, closeTime, now);
    k, gap := W.SequenceCut(s, AddWrites(h, t), ps, h.disk, x);
    AddingCutIff(h, name, openTime, closeTime, now, k, gap);
    AddedIff(h, name, openTime, closeTime, now, k, gap);
    d := W.Cut(h.disk, AddWrites(h, t), k, gap);
  }

  // ---------------------------------------------------------------- deleting a blind

  function DeleteWrites(h: House, b: u32): seq<W.Write>
    requires b in h.blinds && b < 0x1_0000
  {
    FiveWrites(DeleteBlind(h, b).disk, Low(h.blinds[b].remoteId), b, false)
  }

  lemma DeletingEffect(h: House, b: u32)
    requires Inv(h) && b in h.blinds
    ensures var t, id := DeleteBlind(h, b), h.blinds[b].remoteId;
            && Inv(t) && b < 0x1_0000 && id in h.remotes && !h.remotes[id].external
            && t.remotes == h.remotes - {id} && t.blinds == h.blinds - {b}
            && t.disk.remotes == h.disk.remotes - {Low(id)} && t.disk.blinds == h.disk.blinds - {b}
  {
    hide Inv, DeleteBlind, SaveRemoteList, SaveBlindList;
    BlindListed(h, b);
    assert Low(b) == b;
    DeleteBlindInv(h, b);
    DeleteBlindEffect(h, b);
  }

  lemma DeleteKeepsRecords(h: House, t: House, b: u32, k: nat, gap: bool)
    requires Inv(h) && b in h.blinds && b < 0x1_0000
    requires t.disk.remotes == h.disk.remotes - {Low(h.blinds[b].remoteId)} && t.disk.blinds == h.disk.blinds - {b}
    ensures RecordsKept(h, CutDisk(h.disk, t.disk, Low(h.blinds[b].remoteId), b, k, gap),
                        h.remotes.Keys - {h.blinds[b].remoteId}, h.blinds.Keys - {b})
  {
    var r := h.blinds[b].remoteId;
    var d := CutDisk(h.disk, t.disk, Low(r), b, k, gap);
    hide Inv, Low;
    BlindListed(h, b);
    forall id | id in h.remotes.Keys - {r}
      ensures Low(id) in h.disk.remotes && Low(id) in d.remotes && d.remotes[Low(id)] == h.disk.remotes[Low(id)]
    {
      RecordThere(h, id);
      LowsDiffer(h, id, r);
    }
    forall c | c in h.blinds.Keys - {b}
      ensures c in h.disk.blinds && h.blinds[c].remoteId in h.remotes && h.blinds[c].remoteId != r
      ensures c in d.blinds && d.blinds[c] == h.disk.blinds[c]
    {
      BlindListed(h, c);
      PrimariesDiffer(h, b, c);
    }
  }

  lemma PrimariesDiffer(h: House, b: u32, c: u32)
    requires Inv(h) && b in h.blinds && c in h.blinds && b != c
    ensures h.blinds[b].remoteId != h.blinds[c].remoteId
  {
  }

  lemma DeleteCutBootsIff(h: House, t: House, b: u32, k: nat, gap: bool)
    requires Inv(h) && Inv(t) && k <= 5 && (gap ==> k != 3) && b in h.blinds && b < 0x1_0000
    requires t.disk.blinds == h.disk.blinds - {b} && t.blinds == h.blinds - {b}
    ensures Bootable(CutDisk(h.disk, t.disk, Low(h.blinds[b].remoteId), b, k, gap)) <==> k != 4 || gap
  {
    BlindListBootable(h.disk, h.remotes, h.blinds, h.nextBlind);
    BlindListBootable(t.disk, t.remotes, t.blinds, t.nextBlind);
    BlindListed(h, b);
    hide Inv;
  }

  /** While a blind is deleted the device can start again except between the removal of the blind's record
      and the replacing of the list. It then loses nothing but the blind and its remote, unless power went
      while a list was being replaced that names something else; those two are gone from the first write on. */
  lemma DeletingCutIff(h: House, b: u32, k: nat, gap: bool, now: int)
    requires Inv(h) && b in h.blinds && k <= 5 && (gap ==> k in {1, 2, 4})
    ensures b < 0x1_0000
    ensures var d, id := W.Cut(h.disk, DeleteWrites(h, b), k, gap), h.blinds[b].remoteId;
            && (Bootable(d) <==> k != 4 || gap)
            && (Bootable(d) ==>
                  && h.remotes.Keys - {id} <= h.remotes.Keys
                  && (Survive(h, Reload(d, now, h.issued), now, h.remotes.Keys - {id}, h.blinds.Keys - {b})
                      <==> !ListLost(h, k, gap, h.remotes.Keys - {id}, h.blinds.Keys - {b})))
  {
    hide Inv, DeleteBlind, Reload, Survive, ListLost, Bootable, RecordsKept, CutDisk, FiveWrites, W.Cut, Low;
    DeletingEffect(h, b);
    var t, id := DeleteBlind(h, b), h.blinds[b].remoteId;
    FiveCut(h.disk, t.disk, Low(id), b, false, k, gap);
    DeleteKeepsRecords(h, t, b, k, gap);
    DeleteCutBootsIff(h, t, b, k, gap);
    if k != 4 || gap {
      CutSurviveIff(h, t, Low(id), b, k, gap, now, h.remotes.Keys - {id}, h.blinds.Keys - {b});
    }
  }

  lemma DeletedIff(h: House, b: u32, k: nat, gap: bool, now: int)
    requires Inv(h) && b in h.blinds && k <= 5 && (gap ==> k in {1, 2, 4}) && (k != 4 || gap)
    ensures b < 0x1_0000
    ensures var d, id := W.Cut(h.disk, DeleteWrites(h, b), k, gap), h.blinds[b].remoteId;
            && Bootable(d)
            && (id in Reload(d, now, h.issued).remotes <==> k == 0)
            && (b in Reload(d, now, h.issued).blinds <==> k == 0)
  {
    hide Inv, DeleteBlind, Reload, Bootable, FiveWrites, W.Cut, Low, ReloadedRemotes;
    DeletingEffect(h, b);
    var t, id := DeleteBlind(h, b), h.blinds[b].remoteId;
    var d := CutDisk(h.disk, t.disk, Low(id), b, k, gap);
    FiveCut(h.disk, t.disk, Low(id), b, false, k, gap);
    DeleteCutBootsIff(h, t, b, k, gap);
    ReloadGives(d, now, h.issued);
    BlindListed(h, b);
    RecordThere(h, id);
    ListedIff(h, id);
    NotListed(t, id);
    BlindNotListed(t, b);
    NewRemoteBackIff(d, id);
  }

  ghost predicate DeleteMoment(h: House, b: u32, s: seq<Slot>, ps: seq<Payload>, x: seq<Slot>) {
    b in h.blinds && b < 0x1_0000 && W.Moment(s, DeleteWrites(h, b), ps, h.disk, x)
  }

  lemma AnyMomentOfDeleting(h: House, b: u32, now: int, s: seq<Slot>, ps: seq<Payload>, x: seq<Slot>)
    returns (d: Disk, k: nat, gap: bool)
    requires Inv(h) && DeleteMoment(h, b, s, ps, x)
    ensures k <= 5 && (gap ==> k in {1, 2, 4})
    ensures W.Holds(x, d) && d == W.Cut(h.disk, DeleteWrites(h, b), k, gap)
    ensures Bootable(d) <==> k != 4 || gap
    ensures var id := h.blinds[b].remoteId;
            Bootable(d) ==>
              && h.remotes.Keys - {id} <= h.remotes.Keys
              && (Survive(h, Reload(d, now, h.issued), now, h.remotes.Keys - {id}, h.blinds.Keys - {b})
                  <==> !ListLost(h, k, gap, h.remotes.Keys - {id}, h.blinds.Keys - {b}))
              && (id in Reload(d, now, h.issued).remotes <==> k == 0)
              && (b in Reload(d, now, h.issued).blinds <==> k == 0)
  {
    hide Inv, DeleteBlind, Reload, Survive, ListLost, Bootable, W.Cut, W.AllCarry, W.Passes, W.Holds;
    k, gap := W.SequenceCut(s, DeleteWrites(h, b), ps, h.disk, x);
    DeletingCutIff(h, b, k, gap, now);
    d := W.Cut(h.disk, DeleteWrites(h, b), k, gap);
    if k != 4 || gap {
      DeletedIff(h, b, k, gap, now);
    }
  }

  lemma BlindNotListed(h: House, b: u32)
    requires Inv(h) && b !in h.blinds
    ensures b !in h.disk.blindIds
  {
  }

  lemma NotListed(h: House, id: u32)
    requires Inv(h) && id !in h.remotes
    ensures id !in h.disk.externalIds
  {
    assert !IsExternal(h.remotes, id);
  }

  // ---------------------------------------------------------------- saving a record again

  /** While the record of a remote is replaced that remote is missing, and the blind whose primary it is
      with it; the device starts, and everything else is there. */
  lemma RemoteGap(h: House, id: u32, cfg: RemoteConfig, now: int)
    requires Inv(h) && id in h.remotes
    ensures var d := W.Missing(h.disk, W.PutRemote(Low(id), cfg));
            && Bootable(d)
            && var u := Reload(d, now, h.issued);
               && id !in u.remotes
               && (forall b :: b in h.blinds && h.blinds[b].remoteId == id ==> b !in u.blinds)
               && Survive(h, u, now, h.remotes.Keys - {id}, set b | b in h.blinds && h.blinds[b].remoteId != id)
  {
    var d := W.Missing(h.disk, W.PutRemote(Low(id), cfg));
    var blinds := set b | b in h.blinds && h.blinds[b].remoteId != id;
    BlindListBootable(h.disk, h.remotes, h.blinds, h.nextBlind);
    hide Inv, Reload, ReloadedRemotes, LoadedRemote, LoadedBlind, Low, ListsOf, Survive;
    assert RecordsKept(h, d, h.remotes.Keys - {id}, blinds) by { GapKeepsRecords(h, id); }
    EmptyLists(h);
    assert ListsOf(d, h.disk, h.disk) by { SameListsOf(d, h.disk); }
    SurviveIff(h, h, d, now, h.remotes.Keys - {id}, blinds);
    ReloadGives(d, now, h.issued);
    GapNotRead(h, d, id);
    forall b | b in h.blinds && h.blinds[b].remoteId == id
      ensures b !in Reload(d, now, h.issued).blinds
    {
      BlindListed(h, b);
    }
  }

  lemma SameListsOf(d: Disk, before: Disk)
    requires SameLists(before, d)
    ensures ListsOf(d, before, before)
  {
  }

  lemma GapKeepsRecords(h: House, id: u32)
    requires Inv(h) && id in h.remotes
    ensures RecordsKept(h, h.disk.(remotes := h.disk.remotes - {Low(id)}), h.remotes.Keys - {id},
                        set b | b in h.blinds && h.blinds[b].remoteId != id)
  {
    hide Inv, Low;
    forall a | a in h.remotes.Keys - {id}
      ensures Low(a) in h.disk.remotes && Low(a) != Low(id)
    {
      RecordThere(h, a);
      LowsDiffer(h, a, id);
    }
    forall b | b in h.blinds
      ensures b in h.disk.blinds && h.blinds[b].remoteId in h.remotes
    {
      BlindListed(h, b);
    }
  }

  lemma GapNotRead(h: House, d: Disk, id: u32)
    requires Low(id) !in d.remotes
    ensures id !in ReloadedRemotes(d)
  {
    var ids := InternalIdsOf(d.remoteIds);
    LoadRemotesGives(d, map[], ids, false);
    LoadRemotesGives(d, LoadRemotes(d, map[], ids, false), d.externalIds, true);
  }

  /** While the record of a blind is replaced the reload would look for it in vain. */
  lemma BlindGap(h: House, b: u32, cfg: BlindConfig)
    requires Inv(h) && b in h.blinds
    ensures b < 0x1_0000 && !Bootable(W.Missing(h.disk, W.PutBlind(b, cfg)))
  {
    BlindListed(h, b);
  }
}
