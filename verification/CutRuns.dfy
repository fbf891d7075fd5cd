/** Every operation as the writes it makes, the flash wherever they are cut, and every run in which power may
    be lost at any of those places. */
module CutRuns {
  import opened Basics
  import opened Records
  import opened House
  import opened HouseInvariant
  import opened HouseRestart
  import opened HouseRuns
  import opened FlashStates
  import opened WeakRuns
  import opened StartCuts
  import opened OpWrites
  import opened Flash
  import W = DiskWrites

  // ---------------------------------------------------------------- single writes

  lemma PutRemoteKeeps(d: Disk, low: u16, cfg: RemoteConfig)
    requires FlashOk(d) && forall id: u32 :: Listed(d, id) && Low(id) == low ==> RecordFits(cfg, id)
    ensures FlashOk(W.Applied(d, W.PutRemote(low, cfg)))
  {
    hide RecordFits, RecordSane, Low;
    var t := W.Applied(d, W.PutRemote(low, cfg));
    SameListed(d, t);
    forall a: u16, b: u16 | a in t.blindIds && b in t.blindIds && SamePrimary(t, a, b)
      ensures a == b
    {
      assert SamePrimary(d, a, b);
    }
  }

  lemma SameListed(d: Disk, t: Disk)
    requires t.remoteIds == d.remoteIds && t.externalIds == d.externalIds
    ensures forall id: u32 :: InternalListed(t, id) == InternalListed(d, id) && Listed(t, id) == Listed(d, id)
  {
  }

  /** A list of internal remotes, all of whose records are their own. */
  lemma PutInternalsKeeps(d: Disk, ids: seq<u16>)
    requires FlashOk(d)
    requires forall x: u16 :: x in ids ==> 0 < x && BASE_REMOTE_ID + x !in d.externalIds
    requires forall x: u16 :: x in ids && x in d.remotes ==> RecordFits(d.remotes[x], BASE_REMOTE_ID + x)
    ensures FlashOk(W.Applied(d, W.PutInternals(ids)))
  {
    hide RecordFits, RecordSane;
    var t := W.Applied(d, W.PutInternals(ids));
    forall id: u32 | InternalListed(t, id)
      ensures Low(id) in ids && Low(id) == id - BASE_REMOTE_ID
    {
    }
    forall a: u16, b: u16 | a in t.blindIds && b in t.blindIds && SamePrimary(t, a, b)
      ensures a == b
    {
      assert SamePrimary(d, a, b);
    }
  }

  lemma PutExternalsKeeps(d: Disk, ids: seq<u32>)
    requires FlashOk(d)
    requires forall id: u32 :: id in ids ==> 0 < id < NO_REMOTE && !InternalListed(d, id)
    requires forall id: u32 :: id in ids && Low(id) in d.remotes ==> RecordFits(d.remotes[Low(id)], id)
    requires forall b: u16 :: b in d.blindIds && b in d.blinds ==> d.blinds[b].remoteId !in ids
    ensures FlashOk(W.Applied(d, W.PutExternals(ids)))
  {
    hide RecordFits, RecordSane, Low;
    var t := W.Applied(d, W.PutExternals(ids));
    forall id: u32
      ensures InternalListed(t, id) == InternalListed(d, id)
    {
    }
    forall a: u16, b: u16 | a in t.blindIds && b in t.blindIds && SamePrimary(t, a, b)
      ensures a == b
    {
      assert SamePrimary(d, a, b);
    }
  }

  lemma PutBlindKeeps(d: Disk, b: u16, cfg: BlindConfig)
    requires FlashOk(d)
    requires b in d.blindIds ==> 0 < b && RecordSane(cfg) && cfg.remoteId !in d.externalIds
    requires b in d.blindIds ==>
               forall c: u16 :: c in d.blindIds && c != b && c in d.blinds ==> d.blinds[c].remoteId != cfg.remoteId
    ensures FlashOk(W.Applied(d, W.PutBlind(b, cfg)))
  {
    hide RecordFits, RecordSane, Low;
    var t := W.Applied(d, W.PutBlind(b, cfg));
    SameListed(d, t);
    forall x: u16, y: u16 | x in t.blindIds && y in t.blindIds && SamePrimary(t, x, y)
      ensures x == y
    {
      assert x != b && y != b ==> SamePrimary(d, x, y);
    }
  }

  lemma DropKeeps(d: Disk, w: W.Write)
    requires FlashOk(d) && W.Drops(w)
    ensures FlashOk(W.Applied(d, w))
  {
    hide RecordFits, RecordSane, Low, RemotesFlash, BlindsFlash;
    LessIsOk(d, W.Applied(d, w));
  }

  // ---------------------------------------------------------------- the flash during a change of the lists

  lemma ListedInternals(h: House, t: House, d: Disk)
    requires WeakInv(h) && Inv(t) && FlashOk(d) && d.externalIds == h.disk.externalIds && d.remotes == t.disk.remotes
    requires forall id: u32 :: IsInternal(t.remotes, id) ==> id !in h.disk.externalIds
    ensures FlashOk(W.Applied(d, W.PutInternals(t.disk.remoteIds)))
  {
    forall x: u16 | x in t.disk.remoteIds
      ensures 0 < x && BASE_REMOTE_ID + x !in d.externalIds
      ensures x in d.remotes ==> RecordFits(d.remotes[x], BASE_REMOTE_ID + x)
    {
      var id: u32 := BASE_REMOTE_ID + x;
      assert IsInternal(t.remotes, id) && Low(id) == x;
      assert RemoteOk(t.disk.remotes, t.nextRemote, id, t.remotes[id]);
    }
    hide WeakInv, Inv, FlashOk, RecordFits;
    PutInternalsKeeps(d, t.disk.remoteIds);
  }

  lemma ListedExternals(h: House, t: House, d: Disk)
    requires WeakInv(h) && Inv(t) && FlashOk(d) && d.remotes == t.disk.remotes && d.remoteIds == t.disk.remoteIds
    requires d.blindIds == h.disk.blindIds && d.blinds == h.disk.blinds
    requires forall id: u32 :: IsExternal(t.remotes, id) ==> !IsInternal(h.remotes, id)
    ensures FlashOk(W.Applied(d, W.PutExternals(t.disk.externalIds)))
  {
    forall id: u32 | id in t.disk.externalIds
      ensures 0 < id < NO_REMOTE && !InternalListed(d, id)
      ensures Low(id) in d.remotes ==> RecordFits(d.remotes[Low(id)], id)
    {
      assert IsExternal(t.remotes, id);
      assert RemoteOk(t.disk.remotes, t.nextRemote, id, t.remotes[id]);
    }
    forall b: u16 | b in d.blindIds && b in d.blinds
      ensures d.blinds[b].remoteId !in t.disk.externalIds
    {
      assert BlindOk(h.disk.blinds, h.remotes, h.nextBlind, b, h.blinds[b]);
    }
    hide WeakInv, Inv, FlashOk, RecordFits, Low;
    PutExternalsKeeps(d, t.disk.externalIds);
  }

  /** No other id on the stored lists has this low half. */
  predicate ListedFree(d: Disk, id: u32, external: bool) {
    forall a: u32 :: Listed(d, a) && Low(a) == Low(id) ==> a == id && InternalListed(d, a) == !external
  }

  lemma AdditionDone(d: Disk, id: u32, name: Name, external: bool, end: Disk, k: nat)
    requires k <= 3
    ensures var cfg := RemoteRecord(id, Remote(name, 1, [], external, false));
            var ws := AdditionWrites(id, name, external, end);
            W.Done(d, ws, k) ==
            d.(remotes := if k >= 1 then d.remotes[Low(id) := cfg] else d.remotes,
               remoteIds := if k >= 2 then end.remoteIds else d.remoteIds,
               externalIds := if k >= 3 then end.externalIds else d.externalIds)
  {
    hide RemoteRecord, Low, W.Done;
    var ws := AdditionWrites(id, name, external, end);
    W.DoneNone(d, ws);
    if k >= 1 { W.DoneStep(d, ws, 0); }
    if k >= 2 { W.DoneStep(d, ws, 1); }
    if k >= 3 { W.DoneStep(d, ws, 2); }
  }

  lemma RemovalDone(d: Disk, id: u32, end: Disk, k: nat)
    requires k <= 3
    ensures W.Done(d, RemovalWrites(id, end), k) ==
            d.(remotes := if k >= 1 then d.remotes - {Low(id)} else d.remotes,
               remoteIds := if k >= 2 then end.remoteIds else d.remoteIds,
               externalIds := if k >= 3 then end.externalIds else d.externalIds)
  {
    hide Low, W.Done;
    var ws := RemovalWrites(id, end);
    W.DoneNone(d, ws);
    if k >= 1 { W.DoneStep(d, ws, 0); }
    if k >= 2 { W.DoneStep(d, ws, 1); }
    if k >= 3 { W.DoneStep(d, ws, 2); }
  }

  /** Wherever the addition of a remote is cut. */
  lemma AdditionCuts(h: House, id: u32, name: Name, external: bool, k: nat)
    requires WeakInv(h) && id !in h.remotes && ListedFree(h.disk, id, external) && k <= 3
    requires Inv(AddRemote(h, id, name, external))
    ensures var t := AddRemote(h, id, name, external);
            && FlashOk(W.Done(h.disk, AdditionWrites(id, name, external, t.disk), k))
            && (k == 3 ==> W.Done(h.disk, AdditionWrites(id, name, external, t.disk), k) == t.disk)
  {
    hide WeakInv, Inv, AddRemote, Low, RemoteRecord, FlashOk, ListedFree, W.Done, AdditionWrites, SaveRemoteList;
    var t := AddRemote(h, id, name, external);
    WeakIsFlashOk(h);
    AdditionDone(h.disk, id, name, external, t.disk, k);
    AddedDisk(h, id, name, external);
    if k == 3 {
      InvIsWeak(t);
      WeakIsFlashOk(t);
    } else if k >= 1 {
      var cfg := RemoteRecord(id, Remote(name, 1, [], external, false));
      NewRecordFits(h.disk, id, name, external);
      PutRemoteKeeps(h.disk, Low(id), cfg);
      if k == 2 {
        NewInternals(h, id, name, external);
        ListedInternals(h, t, W.Applied(h.disk, W.PutRemote(Low(id), cfg)));
      }
    }
  }

  lemma NewRecordFits(d: Disk, id: u32, name: Name, external: bool)
    requires ListedFree(d, id, external)
    ensures forall a: u32 :: Listed(d, a) && Low(a) == Low(id) ==>
              RecordFits(RemoteRecord(id, Remote(name, 1, [], external, false)), a)
  {
  }

  lemma AddedDisk(h: House, id: u32, name: Name, external: bool)
    ensures var t, r := AddRemote(h, id, name, external), Remote(name, 1, [], external, false);
            && t.disk == h.disk.(remotes := h.disk.remotes[Low(id) := RemoteRecord(id, r)],
                                 remoteIds := t.disk.remoteIds, externalIds := t.disk.externalIds)
            && t.remotes == (if id in h.remotes then h.remotes else h.remotes[id := r])
  {
    hide Ascending, InternalIds, ExternalIds, Low, RemoteRecord;
  }

  lemma NewInternals(h: House, id: u32, name: Name, external: bool)
    requires WeakInv(h) && id !in h.remotes && ListedFree(h.disk, id, external)
    ensures var t := AddRemote(h, id, name, external);
            forall a: u32 :: IsInternal(t.remotes, a) ==> a !in h.disk.externalIds
  {
    AddedDisk(h, id, name, external);
    hide AddRemote, RemotesOk, BlindsOk, BlindListOk, Low, RemoteRecord;
  }

  /** Wherever the removal of a remote is cut, up to its last write; that one is the end of it for a remote
      on its own. */
  lemma RemovalCuts(h: House, id: u32, t: House, k: nat)
    requires WeakInv(h) && Inv(t) && k <= 3
    requires t.disk.remotes == h.disk.remotes - {Low(id)}
    requires forall a :: a in t.remotes ==> a in h.remotes && t.remotes[a].external == h.remotes[a].external
    ensures FlashOk(W.Done(h.disk, RemovalWrites(id, t.disk), k))
  {
    hide WeakInv, Inv, Low, FlashOk, W.Done, RemovalWrites;
    WeakIsFlashOk(h);
    RemovalDone(h.disk, id, t.disk, k);
    var d1 := W.Applied(h.disk, W.DropRemote(Low(id)));
    DropKeeps(h.disk, W.DropRemote(Low(id)));
    if k >= 2 {
      KeptInternals(h, t);
      ListedInternals(h, t, d1);
      var d2 := W.Applied(d1, W.PutInternals(t.disk.remoteIds));
      if k == 3 {
        ListedExternals(h, t, d2);
      }
    }
  }

  lemma KeptInternals(h: House, t: House)
    requires WeakInv(h)
    requires forall a :: a in t.remotes ==> a in h.remotes && t.remotes[a].external == h.remotes[a].external
    ensures forall a: u32 :: IsInternal(t.remotes, a) ==> a !in h.disk.externalIds
    ensures forall a: u32 :: IsExternal(t.remotes, a) ==> !IsInternal(h.remotes, a)
  {
    hide RemotesOk, BlindsOk, BlindListOk;
  }

  /** Wherever an operation that saves the lists is cut, given ids of its own. */
  ghost predicate NewIdsFree(h: House, op: Op) {
    SavesLists(h, op) ==>
      match op
      case Add(_) => ListedFree(h.disk, h.nextRemote, false)
      case NewBlindOp(_, _, _, _) => ListedFree(h.disk, h.nextRemote, false)
      case Import(id, _) => ListedFree(h.disk, id, true)
      case _ => true
  }

  lemma CreateCuts(h: House, name: Name, k: nat)
    requires WeakInv(h) && CanCreate(h) && ListedFree(h.disk, h.nextRemote, false) && k <= 3
    ensures var t := CreateRemote(h, name);
            && Inv(t)
            && FlashOk(W.Done(h.disk, AdditionWrites(h.nextRemote, name, false, t.disk), k))
            && (k == 3 ==> W.Done(h.disk, AdditionWrites(h.nextRemote, name, false, t.disk), k) == t.disk)
  {
    var s, bumped := SaveRemoteList(h), h.(nextRemote := h.nextRemote + 1);
    hide Inv, AddRemote, CreateRemote, FlashOk, ListedFree, W.Done, AdditionWrites, SaveRemoteList, CanCreate;
    ListsSaved(h);
    SameChecks(h, s);
    CreateAnyway(h, name);
    CreateRemoteInv(s, name);
    NextIsValid(s);
    BumpWeak(h);
    CreateIsAdd(h, name);
    AdditionCuts(bumped, h.nextRemote, name, false, k);
  }

  lemma BumpWeak(h: House)
    requires WeakInv(h) && CanCreate(h)
    ensures h.nextRemote < BASE_REMOTE_ID + 0x1_0000 && WeakInv(h.(nextRemote := h.nextRemote + 1))
  {
  }

  lemma CreateIsAdd(h: House, name: Name)
    requires h.nextRemote < BASE_REMOTE_ID + 0x1_0000
    ensures CreateRemote(h, name) == AddRemote(h.(nextRemote := h.nextRemote + 1), h.nextRemote, name, false)
  {
    hide AddRemote;
  }

  lemma AddCuts(h: House, op: Op, k: nat)
    requires WeakInv(h) && Enabled(h, op) && op.Add? && SavesLists(h, op) && NewIdsFree(h, op) && k <= |WritesOf(h, op)|
    ensures FlashOk(W.Done(h.disk, WritesOf(h, op), k))
    ensures k == |WritesOf(h, op)| ==> W.Done(h.disk, WritesOf(h, op), k) == EndDisk(h, op)
  {
    hide WeakInv, Inv, CreateRemote, FlashOk, ListedFree, W.Done, CanCreate;
    CreateCuts(h, op.name, k);
  }

  lemma ImportCuts(h: House, op: Op, k: nat)
    requires WeakInv(h) && Enabled(h, op) && op.Import? && SavesLists(h, op) && NewIdsFree(h, op)
             && k <= |WritesOf(h, op)|
    ensures FlashOk(W.Done(h.disk, WritesOf(h, op), k))
    ensures k == |WritesOf(h, op)| ==> W.Done(h.disk, WritesOf(h, op), k) == EndDisk(h, op)
  {
    SavingListsRestores(h, op);
    hide WeakInv, Inv, AddRemote, FlashOk, ListedFree, W.Done, LowFree;
    AdditionCuts(h, op.id, op.name, true, k);
  }

  lemma DeleteCuts(h: House, op: Op, k: nat)
    requires WeakInv(h) && Enabled(h, op) && op.Delete? && SavesLists(h, op) && k <= |WritesOf(h, op)|
    ensures FlashOk(W.Done(h.disk, WritesOf(h, op), k))
    ensures k == |WritesOf(h, op)| ==> W.Done(h.disk, WritesOf(h, op), k) == EndDisk(h, op)
  {
    SavingListsRestores(h, op);
    hide WeakInv, Inv, DeleteRemote, FlashOk, W.Done, IsAPrimaryRemote, Low;
    DeleteRemoteEffect(h, op.id);
    RemovedDisk(h, op.id);
    RemovalDone(h.disk, op.id, DeleteRemote(h, op.id).disk, k);
    RemovalCuts(h, op.id, DeleteRemote(h, op.id), k);
  }

  lemma RemovedDisk(h: House, id: u32)
    ensures var t := DeleteRemote(h, id);
            t.disk == h.disk.(remotes := h.disk.remotes - {Low(id)},
                              remoteIds := t.disk.remoteIds, externalIds := t.disk.externalIds)
  {
    hide Ascending, InternalIds, ExternalIds, Low;
  }

  /** The last two writes of an operation of five. */
  lemma LastTwo(d: Disk, three: seq<W.Write>, w4: W.Write, w5: W.Write, k: nat)
    requires |three| == 3 && k <= 5
    ensures var ws, d3 := three + [w4, w5], W.Done(d, three, 3);
            W.Done(d, ws, k) == (if k <= 3 then W.Done(d, three, k)
                                 else if k == 4 then W.Applied(d3, w4) else W.Applied(W.Applied(d3, w4), w5))
  {
    hide W.Applied;
    if k <= 3 {
      W.DonePrefix(d, three, [w4, w5], k);
    } else {
      W.DoneAppend(d, three, [w4, w5], k - 3);
      W.DoneNone(W.Done(d, three, 3), [w4, w5]);
      W.DoneStep(W.Done(d, three, 3), [w4, w5], 0);
      if k == 5 { W.DoneStep(W.Done(d, three, 3), [w4, w5], 1); }
    }
  }

  lemma RemoveBlindCuts(h: House, op: Op, k: nat)
    requires WeakInv(h) && Enabled(h, op) && op.RemoveBlind? && SavesLists(h, op) && k <= |WritesOf(h, op)|
    ensures FlashOk(W.Done(h.disk, WritesOf(h, op), k))
    ensures k == |WritesOf(h, op)| ==> W.Done(h.disk, WritesOf(h, op), k) == EndDisk(h, op)
  {
    SavingListsRestores(h, op);
    hide WeakInv, Inv, DeleteBlind, FlashOk, W.Done, BlindRemovalWrites;
    RemovalLength(h, op.blind, DeleteBlind(h, op.blind).disk);
    BlindRemovalCuts(h, op.blind, k);
  }

  lemma BlindRemovalCuts(h: House, b: u32, k: nat)
    requires WeakInv(h) && b in h.blinds && Inv(DeleteBlind(h, b)) && k <= 5
    ensures var t := DeleteBlind(h, b);
            && FlashOk(W.Done(h.disk, BlindRemovalWrites(h, b, t.disk), k))
            && (k == 5 ==> W.Done(h.disk, BlindRemovalWrites(h, b, t.disk), k) == t.disk)
  {
    hide WeakInv, Inv, DeleteBlind, FlashOk, W.Done, Low, RemovalWrites, SaveRemoteList, SaveBlindList;
    var t, r := DeleteBlind(h, b), h.blinds[b].remoteId;
    RemovalLength(h, b, t.disk);
    var three, d3 := RemovalWrites(r, t.disk), W.Done(h.disk, RemovalWrites(r, t.disk), 3);
    DeleteBlindEffect(h, b);
    RemovedBlindDisk(h, b);
    LastTwo(h.disk, three, W.DropBlind(Low(b)), W.PutBlindIds(t.disk.blindIds), k);
    RemovalDone(h.disk, r, t.disk, 3);
    RemovalCuts(h, r, t, if k <= 3 then k else 3);
    if k == 4 {
      DropKeeps(d3, W.DropBlind(Low(b)));
    } else if k == 5 {
      InvIsWeak(t);
      WeakIsFlashOk(t);
    }
  }

  lemma RemovalLength(h: House, b: u32, end: Disk)
    requires b in h.blinds
    ensures |RemovalWrites(h.blinds[b].remoteId, end)| == 3 && |BlindRemovalWrites(h, b, end)| == 5
  {
  }

  lemma RemovedBlindDisk(h: House, b: u32)
    requires b in h.blinds
    ensures var t := DeleteBlind(h, b);
            t.disk == Disk(h.disk.remotes - {Low(h.blinds[b].remoteId)}, h.disk.blinds - {Low(b)},
                           t.disk.remoteIds, t.disk.externalIds, t.disk.blindIds)
  {
    hide Ascending, InternalIds, ExternalIds, LowIds, Low;
  }

  /** The blind part of an addition, after its remote has been created. */
  lemma AttachedDisk(h: House, b: Blind)
    requires h.nextBlind < 0x1_0000 && Storable(b)
    ensures var t := AttachBlind(h, b);
            t.disk == h.disk.(blinds := h.disk.blinds[h.nextBlind := BlindRecord(b)], blindIds := t.disk.blindIds)
  {
    hide Ascending, LowIds, BlindRecord, Storable, Associated;
  }

  lemma NewBlindUnlisted(h: House)
    requires WeakInv(h) && h.nextBlind < 0x1_0000
    ensures h.nextBlind !in h.disk.blindIds
  {
    BlindIdsSmall(h.disk.blinds, h.remotes, h.blinds, h.nextBlind);
  }

  lemma NewBlindCuts(h: House, op: Op, k: nat)
    requires WeakInv(h) && Enabled(h, op) && op.NewBlindOp? && NewIdsFree(h, op) && k <= |WritesOf(h, op)|
    ensures FlashOk(W.Done(h.disk, WritesOf(h, op), k))
    ensures k == |WritesOf(h, op)| ==> W.Done(h.disk, WritesOf(h, op), k) == EndDisk(h, op)
  {
    hide WeakInv, Inv, CreateRemote, AttachBlind, FlashOk, ListedFree, W.Done, CanCreate, BlindAdditionWrites,
      Storable, NewBlind;
    SavingListsRestores(h, op);
    NewIsStorable(op.blindName, h.nextRemote, op.openTime, op.closeTime, op.now);
    var b := NewBlind(op.blindName, h.nextRemote, op.openTime, op.closeTime, op.now);
    AdditionLength(h, b, AddBlind(h, op.blindName, op.openTime, op.closeTime, op.now).disk);
    CreateKeepsBlindIds(h, op.blindName);
    BlindAdditionCuts(h, b, k);
  }

  lemma AdditionLength(h: House, b: Blind, end: Disk)
    requires h.nextBlind < 0x1_0000 && Storable(b)
    ensures |BlindAdditionWrites(h, b, end)| == 5
  {
  }

  lemma BlindAdditionCuts(h: House, b: Blind, k: nat)
    requires WeakInv(h) && CanCreate(h) && ListedFree(h.disk, h.nextRemote, false) && k <= 5
    requires h.nextBlind < 0x1_0000 && Storable(b) && Inv(AttachBlind(CreateRemote(h, b.name), b))
    requires CreateRemote(h, b.name).nextBlind == h.nextBlind
    ensures var t := AttachBlind(CreateRemote(h, b.name), b);
            && FlashOk(W.Done(h.disk, BlindAdditionWrites(h, b, t.disk), k))
            && (k == 5 ==> W.Done(h.disk, BlindAdditionWrites(h, b, t.disk), k) == t.disk)
  {
    hide WeakInv, Inv, CreateRemote, AttachBlind, FlashOk, ListedFree, W.Done, CanCreate, BlindRecord,
      AdditionWrites, Storable;
    NewBlindUnlisted(h);
    var created := CreateRemote(h, b.name);
    var t := AttachBlind(created, b);
    CreateKeepsBlindIds(h, b.name);
    AttachedDisk(created, b);
    var three := AdditionWrites(h.nextRemote, b.name, false, t.disk);
    AdditionSame(h.nextRemote, b.name, t.disk, created.disk);
    LastTwo(h.disk, three, W.PutBlind(h.nextBlind, BlindRecord(b)), W.PutBlindIds(t.disk.blindIds), k);
    CreateCuts(h, b.name, 3);
    if k <= 3 {
      CreateCuts(h, b.name, k);
    } else if k == 4 {
      PutBlindKeeps(created.disk, h.nextBlind, BlindRecord(b));
    } else {
      InvIsWeak(t);
      WeakIsFlashOk(t);
    }
  }

  lemma NewIsStorable(name: Name, remoteId: u32, openTime: int, closeTime: int, now: int)
    requires 0 < openTime < 0x8000_0000 && 0 < closeTime < 0x8000_0000
    ensures Storable(NewBlind(name, remoteId, openTime, closeTime, now))
    ensures NewBlind(name, remoteId, openTime, closeTime, now).name == name
  {
  }

  lemma CreateKeepsBlindIds(h: House, name: Name)
    ensures var t := CreateRemote(h, name);
            t.nextBlind == h.nextBlind && t.disk.blindIds == h.disk.blindIds && t.disk.blinds == h.disk.blinds
  {
    hide Ascending, InternalIds, ExternalIds, Low, RemoteRecord;
  }

  lemma AdditionSame(id: u32, name: Name, end: Disk, other: Disk)
    requires other.remoteIds == end.remoteIds && other.externalIds == end.externalIds
    ensures AdditionWrites(id, name, false, end) == AdditionWrites(id, name, false, other)
    ensures |AdditionWrites(id, name, false, end)| == 3
  {
  }

  // ---------------------------------------------------------------- the flash while records are saved

  /** The lists are as before, and so are the keys of the remotes' records and the primaries of the blinds';
      every record is that of its remote or blind. */
  ghost predicate Backed(h: House, d: Disk) {
    && SameLists(h.disk, d) && d.remotes.Keys == h.disk.remotes.Keys
    && (forall id :: id in h.remotes && Low(id) in d.remotes ==> RecordFits(d.remotes[Low(id)], id))
    && (forall b :: b in h.blinds && b in d.blinds ==>
          RecordSane(d.blinds[b]) && d.blinds[b].remoteId == h.blinds[b].remoteId)
  }

  lemma BackedIsFlashOk(h: House, d: Disk)
    requires WeakInv(h) && Backed(h, d)
    ensures FlashOk(d)
  {
    WeakRemotesFlash(h);
    WeakBlindsFlash(h);
    SameListed(h.disk, d);
    hide RecordFits, RecordSane;
    forall id: u32 | Listed(d, id) && Low(id) in d.remotes
      ensures RecordFits(d.remotes[Low(id)], id)
    {
      assert id in h.remotes;
    }
    forall b: u16 | b in d.blindIds
      ensures b in h.blinds && b > 0 && h.blinds[b].remoteId !in d.externalIds
    {
      assert BlindOk(h.disk.blinds, h.remotes, h.nextBlind, b, h.blinds[b]);
    }
    forall x: u16, y: u16 | x in d.blindIds && y in d.blindIds && SamePrimary(d, x, y)
      ensures x == y
    {
      assert h.blinds[x].remoteId == h.blinds[y].remoteId;
    }
  }

  lemma DiskIsBacked(h: House)
    requires WeakInv(h)
    ensures Backed(h, h.disk)
  {
    forall id | id in h.remotes
      ensures Low(id) in h.disk.remotes && RecordFits(h.disk.remotes[Low(id)], id)
    {
      assert RemoteOk(h.disk.remotes, h.nextRemote, id, h.remotes[id]);
    }
    forall b | b in h.blinds
      ensures b in h.disk.blinds && RecordSane(h.disk.blinds[b]) && h.disk.blinds[b].remoteId == h.blinds[b].remoteId
    {
      assert BlindOk(h.disk.blinds, h.remotes, h.nextBlind, b, h.blinds[b]);
    }
  }

  lemma RemoteWriteBacked(h: House, d: Disk, id: u32)
    requires WeakInv(h) && Backed(h, d) && id in h.remotes
    ensures Backed(h, W.Applied(d, W.PutRemote(Low(id), RemoteRecord(id, h.remotes[id]))))
  {
    assert RemoteOk(h.disk.remotes, h.nextRemote, id, h.remotes[id]);
    assert RecordFits(RemoteRecord(id, h.remotes[id]), id);
    assert forall a :: a in h.remotes && Low(a) == Low(id) ==> a == id;
    hide WeakInv, RecordFits, RecordSane, RemoteRecord, Low;
  }

  lemma BlindWriteBacked(h: House, d: Disk, b: u32)
    requires WeakInv(h) && Backed(h, d) && b in h.blinds && Storable(h.blinds[b])
    ensures Backed(h, W.Applied(d, W.PutBlind(Low(b), BlindRecord(h.blinds[b]))))
  {
    hide WeakInv, RecordFits, RecordSane, BlindRecord, Storable;
    WeakStorable(h);
    RecordOfBlind(h.blinds[b]);
    assert Low(b) == b;
  }

  lemma RecordOfBlind(b: Blind)
    requires Storable(b)
    ensures RecordSane(BlindRecord(b)) && BlindRecord(b).remoteId == b.remoteId
  {
  }

  /** Saving remotes leaves the flash backed after each write, and ends with what the save loop leaves. */
  lemma {:induction false} RemoteWritesDone(h: House, ids: seq<u32>, k: nat)
    requires WeakInv(h) && (forall id :: id in ids ==> id in h.remotes) && k <= |RemoteWrites(h, ids)|
    requires forall i, j :: 0 <= i < j < |ids| ==> ids[i] != ids[j]
    ensures Backed(h, W.Done(h.disk, RemoteWrites(h, ids), k))
    ensures k == |RemoteWrites(h, ids)| ==> W.Done(h.disk, RemoteWrites(h, ids), k) == SaveRemotes(h, ids).disk
    decreases |ids|
  {
    hide WeakInv, Backed, W.Done, RemoteRecord, Low;
    if ids == [] {
      DiskIsBacked(h);
      W.DoneNone(h.disk, []);
    } else {
      var n, id := |ids| - 1, ids[|ids| - 1];
      var a := RemoteWrites(h, ids[..n]);
      var w := W.PutRemote(Low(id), RemoteRecord(id, h.remotes[id]));
      var one: seq<W.Write> := if h.remotes[id].dirty then [w] else [];
      RemoteWritesDone(h, ids[..n], |a|);
      SavedBefore(h, ids[..n], id);
      if k <= |a| {
        RemoteWritesDone(h, ids[..n], k);
        W.DonePrefix(h.disk, a, one, k);
      } else {
        W.DonePrefix(h.disk, a, one, |a|);
        W.DoneStep(h.disk, a + one, |a|);
        RemoteWriteBacked(h, W.Done(h.disk, a, |a|), id);
      }
    }
  }

  lemma SavedBefore(h: House, ids: seq<u32>, id: u32)
    requires (forall a :: a in ids ==> a in h.remotes) && id in h.remotes && id !in ids
    ensures var before := SaveRemotes(h, ids);
            SaveRemote(before, id, false).disk ==
            if h.remotes[id].dirty then StoreRemote(before.disk, id, h.remotes[id]) else before.disk
  {
    SaveRemotesEffect(h, ids);
  }

  /** And so does saving blinds, from any flash that is backed. */
  lemma {:induction false} BlindWritesDone(h: House, g: House, ids: seq<u32>, force: bool, k: nat)
    requires WeakInv(h) && Backed(h, g.disk) && g.blinds == h.blinds && AllStorable(h.blinds)
    requires (forall b :: b in ids ==> b in h.blinds) && k <= |BlindWrites(h, ids, force)|
    requires forall i, j :: 0 <= i < j < |ids| ==> ids[i] != ids[j]
    ensures Backed(h, W.Done(g.disk, BlindWrites(h, ids, force), k))
    ensures k == |BlindWrites(h, ids, force)| ==>
              W.Done(g.disk, BlindWrites(h, ids, force), k) == SaveBlinds(g, ids, force).disk
    decreases |ids|
  {
    hide WeakInv, Backed, W.Done, BlindRecord, Low, AllStorable, Storable;
    if ids == [] {
      W.DoneNone(g.disk, []);
    } else {
      var n, b := |ids| - 1, ids[|ids| - 1];
      var a := BlindWrites(h, ids[..n], force);
      StorableAt(h, b);
      var w := W.PutBlind(Low(b), BlindRecord(h.blinds[b]));
      var one: seq<W.Write> := if h.blinds[b].dirty || force then [w] else [];
      BlindWritesDone(h, g, ids[..n], force, |a|);
      SavedBlindsKeep(g, ids[..n], force, b);
      if k <= |a| {
        BlindWritesDone(h, g, ids[..n], force, k);
        W.DonePrefix(g.disk, a, one, k);
      } else {
        W.DonePrefix(g.disk, a, one, |a|);
        W.DoneStep(g.disk, a + one, |a|);
        BlindWriteBacked(h, W.Done(g.disk, a, |a|), b);
      }
    }
  }

  // ---------------------------------------------------------------- any operation, cut anywhere

  lemma SavesDone(h: House, op: Op, k: nat)
    requires WeakInv(h) && Enabled(h, op) && (op.SaveRemotesOp? || op.SaveBlindsOp?) && k <= |WritesOf(h, op)|
    ensures FlashOk(W.Done(h.disk, WritesOf(h, op), k))
    ensures k == |WritesOf(h, op)| ==> W.Done(h.disk, WritesOf(h, op), k) == EndDisk(h, op)
  {
    hide WeakInv, Backed, FlashOk, W.Done, RemoteWrites, BlindWrites, SaveRemotes, SaveBlinds, AllStorable;
    if op.SaveRemotesOp? {
      RemoteWritesDone(h, Ascending(h.remotes.Keys), k);
    } else {
      DiskIsBacked(h);
      BlindWritesDone(h, h, Ascending(h.blinds.Keys), false, k);
    }
    BackedIsFlashOk(h, W.Done(h.disk, WritesOf(h, op), k));
  }

  lemma ShutdownDone(h: House, k: nat)
    requires WeakInv(h) && AllStorable(h.blinds) && k <= |AllRemoteWrites(h)| + |AllBlindWrites(h, true)|
    ensures var ws := AllRemoteWrites(h) + AllBlindWrites(h, true);
            && FlashOk(W.Done(h.disk, ws, k))
            && (k == |ws| ==> W.Done(h.disk, ws, k) == Shutdown(h).disk)
  {
    hide WeakInv, Backed, FlashOk, W.Done, RemoteWrites, BlindWrites, SaveRemotes, SaveBlinds, AllStorable;
    var ids := Ascending(h.remotes.Keys);
    var a, b, g := RemoteWrites(h, ids), AllBlindWrites(h, true), SaveRemotes(h, ids);
    SaveRemotesKeeps(h, ids);
    RemoteWritesDone(h, ids, |a|);
    if k <= |a| {
      RemoteWritesDone(h, ids, k);
      W.DonePrefix(h.disk, a, b, k);
    } else {
      W.DoneAppend(h.disk, a, b, k - |a|);
      BlindWritesDone(h, g, Ascending(h.blinds.Keys), true, k - |a|);
    }
    if k == |a| + |b| {
      W.DoneAppend(h.disk, a, b, |b|);
      BlindWritesDone(h, g, Ascending(h.blinds.Keys), true, |b|);
    }
    BackedIsFlashOk(h, W.Done(h.disk, a + b, k));
  }

  lemma RestartDone(h: House, op: Op, k: nat)
    requires WeakInv(h) && Enabled(h, op) && op.Restart? && k <= |WritesOf(h, op)|
    ensures FlashOk(W.Done(h.disk, WritesOf(h, op), k))
    ensures k == |WritesOf(h, op)| ==> W.Done(h.disk, WritesOf(h, op), k) == EndDisk(h, op)
  {
    hide WeakInv, FlashOk, W.Done, AllRemoteWrites, AllBlindWrites, Shutdown, Reload, AllStorable, Bootable;
    if op.clean {
      ShutdownDone(h, k);
    } else {
      WeakIsFlashOk(h);
      W.DoneNone(h.disk, []);
    }
  }

  lemma ListsDone(h: House, op: Op, k: nat)
    requires WeakInv(h) && Enabled(h, op) && SavesLists(h, op) && NewIdsFree(h, op) && k <= |WritesOf(h, op)|
    ensures FlashOk(W.Done(h.disk, WritesOf(h, op), k))
    ensures k == |WritesOf(h, op)| ==> W.Done(h.disk, WritesOf(h, op), k) == EndDisk(h, op)
  {
    hide WeakInv, FlashOk, W.Done, WritesOf, EndDisk, Enabled, NewIdsFree;
    if op.Add? {
      AddCuts(h, op, k);
    } else if op.Import? {
      ImportCuts(h, op, k);
    } else if op.Delete? {
      DeleteCuts(h, op, k);
    } else if op.NewBlindOp? {
      NewBlindCuts(h, op, k);
    } else {
      RemoveBlindCuts(h, op, k);
    }
  }

  /** After any number of its writes an operation has left a flash as it should be, and after all of them the
      one it is to leave. */
  lemma WritesDone(h: House, op: Op, k: nat)
    requires WeakInv(h) && Enabled(h, op) && NewIdsFree(h, op) && k <= |WritesOf(h, op)|
    ensures FlashOk(W.Done(h.disk, WritesOf(h, op), k))
    ensures k == |WritesOf(h, op)| ==> W.Done(h.disk, WritesOf(h, op), k) == EndDisk(h, op)
  {
    if SavesLists(h, op) {
      hide WeakInv, FlashOk, W.Done, WritesOf, EndDisk, Enabled, NewIdsFree, SavesLists;
      ListsDone(h, op, k);
    } else if op.SaveRemotesOp? || op.SaveBlindsOp? {
      hide WeakInv, FlashOk, W.Done, WritesOf, EndDisk, Enabled, NewIdsFree, SavesLists;
      SavesDone(h, op, k);
    } else if op.Restart? {
      hide WeakInv, FlashOk, W.Done, WritesOf, EndDisk, Enabled, NewIdsFree, SavesLists;
      RestartDone(h, op, k);
    } else {
      hide WeakInv, FlashOk, W.Done, Enabled, NewIdsFree, SavesLists, Step;
      WeakIsFlashOk(h);
      W.DoneNone(h.disk, []);
      WritesNothing(h, op);
    }
  }

  lemma WritesNothing(h: House, op: Op)
    requires WeakInv(h) && Enabled(h, op) && !SavesLists(h, op)
    requires !op.SaveRemotesOp? && !op.SaveBlindsOp? && !op.Restart?
    ensures Step(h, op).disk == h.disk && WritesOf(h, op) == []
  {
    hide WeakInv, Enabled, Step, InMemory, SavesLists;
    if MemoryOnly(op) {
      WeakStorable(h);
      InMemoryStep(h, op);
      InMemoryDisk(h, Step(h, op));
    } else {
      NothingDone(h, op);
    }
  }

  lemma InMemoryDisk(h: House, t: House)
    requires InMemory(h, t)
    ensures t.disk == h.disk
  {
  }

  /** The flash where an operation is cut: after k of its writes, or with the record of the next one missing. */
  ghost function CutDisk(h: House, op: Op, k: nat, gap: bool): Disk
    requires Enabled(h, op) && k <= |WritesOf(h, op)| && (gap ==> k < |WritesOf(h, op)|)
  {
    W.Cut(h.disk, WritesOf(h, op), k, gap)
  }

  lemma CutIsFlashOk(h: House, op: Op, k: nat, gap: bool)
    requires WeakInv(h) && Enabled(h, op) && NewIdsFree(h, op)
    requires k <= |WritesOf(h, op)| && (gap ==> k < |WritesOf(h, op)|)
    ensures FlashOk(CutDisk(h, op, k, gap))
  {
    hide WeakInv, FlashOk, W.Done, WritesOf, Enabled, NewIdsFree, W.Missing;
    WritesDone(h, op, k);
    if gap {
      MissingKeeps(W.Done(h.disk, WritesOf(h, op), k), WritesOf(h, op)[k]);
    }
  }

  /** On the device these are all there are: whatever program or erase is the last, the flash reads as one. */
  lemma AnyMomentIsCut(h: House, op: Op, s: seq<Slot>, ps: seq<Payload>, x: seq<Slot>) returns (k: nat, gap: bool)
    requires WeakInv(h) && Enabled(h, op) && NewIdsFree(h, op) && W.Moment(s, WritesOf(h, op), ps, h.disk, x)
    ensures k <= |WritesOf(h, op)| && (gap ==> k < |WritesOf(h, op)| && !W.Drops(WritesOf(h, op)[k]))
    ensures W.Holds(x, CutDisk(h, op, k, gap)) && FlashOk(CutDisk(h, op, k, gap))
  {
    hide WeakInv, FlashOk, W.Cut, W.Holds, WritesOf, Enabled, NewIdsFree;
    k, gap := W.SequenceCut(s, WritesOf(h, op), ps, h.disk, x);
    CutIsFlashOk(h, op, k, gap);
  }

  // ---------------------------------------------------------------- every run, power lost anywhere

  /** A whole operation, or one during which power is lost, after which the device starts again, perhaps with
      further losses of power while it does. */
  datatype Happening = Whole(op: Op) | Cut(op: Op, k: nat, gap: bool, starts: seq<StartCut>, now: int)

  /** A cut lies at one of the operation's writes; only a list or a record that is overwritten can be missing.
      The device comes up if every listed blind has its record. */
  ghost predicate Possible(h: House, e: Happening) {
    && Enabled(h, e.op)
    && (e.Cut? ==>
          && NewIdsFree(h, e.op) && e.k <= |WritesOf(h, e.op)|
          && (e.gap ==> e.k < |WritesOf(h, e.op)| && !W.Drops(WritesOf(h, e.op)[e.k]))
          && CanStart(CutDisk(h, e.op, e.k, e.gap), e.starts))
  }

  ghost function After(h: House, e: Happening): House
    requires Possible(h, e)
  {
    match e
    case Whole(op) => Step(h, op)
    case Cut(op, k, gap, starts, now) =>
      CanStartBoots(CutDisk(h, op, k, gap), starts);
      Reload(StartedFrom(CutDisk(h, op, k, gap), starts), now, h.issued)
  }

  lemma AfterWeakInv(h: House, e: Happening)
    requires WeakInv(h) && Possible(h, e)
    ensures WeakInv(After(h, e))
  {
    hide WeakInv, FlashOk, CutDisk, WritesOf, Enabled, NewIdsFree, Step, Reload, Bootable;
    if e.Whole? {
      StepWeakInv(h, e.op);
    } else {
      CutIsFlashOk(h, e.op, e.k, e.gap);
      StartedFromOk(CutDisk(h, e.op, e.k, e.gap), e.starts);
      ReloadWeakInv(StartedFrom(CutDisk(h, e.op, e.k, e.gap), e.starts), e.now, h.issued);
    }
  }

  ghost predicate CanHappen(h: House, es: seq<Happening>)
    decreases es
  {
    es != [] ==> Possible(h, es[0]) && CanHappen(After(h, es[0]), es[1..])
  }

  ghost function Happen(h: House, es: seq<Happening>): House
    requires CanHappen(h, es)
    decreases es
  {
    if es == [] then h else Happen(After(h, es[0]), es[1..])
  }

  /** Over every run, power lost between any two programs and erases included: a remote that is not dirty has
      its exact content on flash; every remote is on its list, and what else the lists name has no record;
      the blinds' list names exactly the blinds, and each has an internal primary remote of its own. */
  lemma {:induction false} RunWeakInv(h: House, es: seq<Happening>)
    requires WeakInv(h) && CanHappen(h, es)
    ensures WeakInv(Happen(h, es))
    decreases es
  {
    hide WeakInv, Possible, After;
    if es != [] {
      AfterWeakInv(h, es[0]);
      RunWeakInv(After(h, es[0]), es[1..]);
    }
  }

  /** The full invariant holds after a cut exactly if every remote on a list still has its record. */
  lemma CutInvIff(h: House, e: Happening)
    requires WeakInv(h) && e.Cut? && Possible(h, e)
    ensures Inv(After(h, e)) <==> NoneMissing(CutDisk(h, e.op, e.k, e.gap))
  {
    hide WeakInv, FlashOk, CutDisk, WritesOf, Enabled, NewIdsFree, Reload, Bootable, Inv, NoneMissing, StartedFrom,
      CanStart;
    var d := CutDisk(h, e.op, e.k, e.gap);
    CutIsFlashOk(h, e.op, e.k, e.gap);
    StartedFromOk(d, e.starts);
    ReloadInvIff(StartedFrom(d, e.starts), e.now, h.issued);
    SameMissing(d, StartedFrom(d, e.starts));
  }

  lemma SameMissing(d: Disk, t: Disk)
    requires t.remotes == d.remotes && t.remoteIds == d.remoteIds && t.externalIds == d.externalIds
    ensures NoneMissing(t) == NoneMissing(d)
  {
    SameListed(d, t);
    hide Low;
  }

  lemma InvListed(h: House)
    requires Inv(h)
    ensures WeakInv(h) && forall id: u32 :: Listed(h.disk, id) ==> id in h.remotes
  {
    hide Inv, WeakInv;
    InvIsWeak(h);
    InvIff(h);
  }

  lemma FreeOnLists(h: House, id: u32, external: bool)
    requires LowFree(h.remotes, id) && forall a: u32 :: Listed(h.disk, a) ==> a in h.remotes
    ensures ListedFree(h.disk, id, external)
  {
    hide Low, Listed;
  }

  /** With the full invariant ids are free on the lists as they are among the remotes. */
  lemma InvFreesIds(h: House, op: Op)
    requires Inv(h) && Enabled(h, op) && SavesLists(h, op)
    ensures NewIdsFree(h, op)
  {
    hide Inv, WeakInv, Low, IsAPrimaryRemote, ListedFree, LowFree, CanCreate;
    InvListed(h);
    if op.Add? || op.NewBlindOp? {
      IdsLeft(h);
      NextIsValid(h);
      FreeOnLists(h, h.nextRemote, false);
    } else if op.Import? {
      FreeOnLists(h, op.id, true);
    }
  }

  /** Why the new id must be free on the lists: the first write of an addition leaves every listed remote with
      a record of its own exactly if no other listed id has the same low half. */
  lemma FirstWriteIff(d: Disk, id: u32, name: Name, external: bool)
    requires FlashOk(d)
    ensures FlashOk(W.Done(d, AdditionWrites(id, name, external, d), 1))
            <==> forall a: u32 :: Listed(d, a) && Low(a) == Low(id) ==> a == id
  {
    var cfg := RemoteRecord(id, Remote(name, 1, [], external, false));
    AdditionDone(d, id, name, external, d, 1);
    var t := W.Applied(d, W.PutRemote(Low(id), cfg));
    SameListed(d, t);
    if forall a: u32 :: Listed(d, a) && Low(a) == Low(id) ==> a == id {
      PutRemoteKeeps(d, Low(id), cfg);
    } else {
      var a: u32 :| Listed(d, a) && Low(a) == Low(id) && a != id;
      assert t.remotes[Low(a)] == cfg && cfg.remoteId != a;
    }
    hide AdditionWrites, W.Done;
  }
}
