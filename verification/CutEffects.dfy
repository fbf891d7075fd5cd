/** What the cuts of adding and deleting a blind, and of saving a remote, do to the invariant and to the room
    on the flash: exactly when the full invariant holds again, and exactly when no record is left behind. */
module CutEffects {
  import opened Basics
  import opened Records
  import opened House
  import opened HouseInvariant
  import opened HouseRestart
  import opened HouseRuns
  import opened HouseSpace
  import opened LostCodes
  import opened FlashStates
  import opened CutRuns
  import opened OpWrites
  import P = PowerCuts
  import W = DiskWrites
  import S = SlotLog
  import D = DiskView
  import opened Flash

  // ---------------------------------------------------------------- the same writes

  lemma AddingWrites(h: House, op: Op)
    requires Inv(h) && Enabled(h, op) && op.NewBlindOp?
    ensures var t := Step(h, op);
            && Low(h.nextRemote) in t.disk.remotes && h.nextBlind in t.disk.blinds
            && WritesOf(h, op) == P.AddWrites(h, t)
  {
    hide Inv, CreateRemote, AttachBlind, RemoteRecord, BlindRecord, Low, CanCreate, Storable;
    var b := NewBlind(op.blindName, h.nextRemote, op.openTime, op.closeTime, op.now);
    NewIsStorable(op.blindName, h.nextRemote, op.openTime, op.closeTime, op.now);
    NextIsValid(h);
    IdsLeft(h);
    CreateRemoteEffect(h, op.blindName);
    CreateKeepsBlindIds(h, op.blindName);
    AttachedDisk(CreateRemote(h, op.blindName), b);
  }

  lemma AddingCut(h: House, op: Op, k: nat, gap: bool)
    requires Inv(h) && Enabled(h, op) && op.NewBlindOp? && k <= 5 && (gap ==> k < 5)
    ensures |WritesOf(h, op)| == 5
    ensures CutDisk(h, op, k, gap) == P.CutDisk(h.disk, Step(h, op).disk, Low(h.nextRemote), h.nextBlind, k, gap)
  {
    hide Inv, AddBlind, W.Cut, Low, WritesOf, P.CutDisk, CanCreate;
    AddingWrites(h, op);
    P.AddBlindEffect(h, op.blindName, op.openTime, op.closeTime, op.now);
    P.FiveCut(h.disk, Step(h, op).disk, Low(h.nextRemote), h.nextBlind, true, k, gap);
  }

  lemma DeletingCut(h: House, op: Op, k: nat, gap: bool)
    requires Inv(h) && Enabled(h, op) && op.RemoveBlind? && op.blind in h.blinds && k <= 5 && (gap ==> k < 5)
    ensures |WritesOf(h, op)| == 5 && op.blind < 0x1_0000
    ensures CutDisk(h, op, k, gap)
         == P.CutDisk(h.disk, DeleteBlind(h, op.blind).disk, Low(h.blinds[op.blind].remoteId), op.blind, k, gap)
  {
    hide Inv, DeleteBlind, W.Cut, Low, WritesOf, P.CutDisk;
    P.DeletingEffect(h, op.blind);
    DeletingWrites(h, op);
    P.FiveCut(h.disk, DeleteBlind(h, op.blind).disk, Low(h.blinds[op.blind].remoteId), op.blind, false, k, gap);
  }

  lemma DeletingWrites(h: House, op: Op)
    requires Enabled(h, op) && op.RemoveBlind? && op.blind in h.blinds && op.blind < 0x1_0000
    ensures WritesOf(h, op) == P.DeleteWrites(h, op.blind)
  {
    hide DeleteBlind;
    assert Low(op.blind) == op.blind;
  }

  // ---------------------------------------------------------------- the full invariant

  lemma AddingNoneMissing(h: House, t: House, k: nat, gap: bool)
    requires Inv(h) && CanCreate(h) && Inv(t) && k <= 5 && h.nextBlind < 0x1_0000
    requires Low(h.nextRemote) in t.disk.remotes
    requires t.disk.remotes == h.disk.remotes[Low(h.nextRemote) := t.disk.remotes[Low(h.nextRemote)]]
    ensures NoneMissing(P.CutDisk(h.disk, t.disk, Low(h.nextRemote), h.nextBlind, k, gap))
  {
    hide Inv, WeakInv, Low, CanCreate;
    NextIsValid(h);
    IdsLeft(h);
    InvListed(h);
    InvListed(t);
    var d := P.CutDisk(h.disk, t.disk, Low(h.nextRemote), h.nextBlind, k, gap);
    forall id: u32 | Listed(d, id)
      ensures Low(id) in d.remotes
    {
      if Listed(h.disk, id) {
        RecordThere(h, id);
      } else {
        assert Listed(t.disk, id);
        RecordThere(t, id);
      }
    }
  }

  /** Power lost while a blind is added: the device always comes up in the full invariant. */
  lemma AddingKeepsInv(h: House, e: Happening)
    requires Inv(h) && e.Cut? && e.op.NewBlindOp? && Possible(h, e)
    ensures Inv(After(h, e))
  {
    hide Inv, WeakInv, Possible, After, AddBlind, CutDisk, P.CutDisk, NoneMissing, Low, CanCreate;
    var op := e.op;
    PossibleSays(h, e);
    InvListed(h);
    AddingCut(h, op, 0, false);
    AddingCut(h, op, e.k, e.gap);
    P.AddBlindEffect(h, op.blindName, op.openTime, op.closeTime, op.now);
    AddingNoneMissing(h, Step(h, op), e.k, e.gap);
    CutInvIff(h, e);
  }

  lemma PossibleSays(h: House, e: Happening)
    requires Possible(h, e) && e.Cut?
    ensures Enabled(h, e.op) && e.k <= |WritesOf(h, e.op)|
    ensures e.gap ==> e.k < |WritesOf(h, e.op)| && !W.Drops(WritesOf(h, e.op)[e.k])
  {
  }

  lemma DeletingMissingIff(h: House, t: House, b: u32, k: nat, gap: bool)
    requires Inv(h) && Inv(t) && b in h.blinds && b < 0x1_0000 && k <= 5 && (gap ==> k in {1, 2, 4})
    requires t.remotes == h.remotes - {h.blinds[b].remoteId}
    requires t.disk.remotes == h.disk.remotes - {Low(h.blinds[b].remoteId)}
    ensures NoneMissing(P.CutDisk(h.disk, t.disk, Low(h.blinds[b].remoteId), b, k, gap)) <==> k != 1 || gap
  {
    hide Inv, WeakInv, Low;
    var r := h.blinds[b].remoteId;
    var d := P.CutDisk(h.disk, t.disk, Low(r), b, k, gap);
    P.BlindListed(h, b);
    P.ListedIff(h, r);
    InvListed(h);
    InvListed(t);
    if k == 1 && !gap {
      assert Listed(d, r) && Low(r) !in d.remotes;
    } else {
      forall id: u32 | Listed(d, id)
        ensures Low(id) in d.remotes
      {
        if Listed(t.disk, id) {
          RecordThere(t, id);
        } else {
          assert Listed(h.disk, id);
          RecordThere(h, id);
          LowsDiffer(h, id, r);
        }
      }
    }
  }

  /** Power lost while a blind is deleted: if the device comes up at all, the full invariant holds exactly unless
      it was between the first write and the second. */
  lemma DeletingInvIff(h: House, e: Happening)
    requires Inv(h) && e.Cut? && e.op.RemoveBlind? && e.op.blind in h.blinds && Possible(h, e)
    ensures Inv(After(h, e)) <==> e.k != 1 || e.gap
  {
    hide Inv, WeakInv, Possible, After, DeleteBlind, CutDisk, P.CutDisk, NoneMissing, Low;
    var op, b := e.op, e.op.blind;
    PossibleSays(h, e);
    InvListed(h);
    DeletingCut(h, op, 0, false);
    DeletingGaps(h, op, e.k, e.gap);
    DeletingCut(h, op, e.k, e.gap);
    P.DeletingEffect(h, b);
    DeletingMissingIff(h, DeleteBlind(h, b), b, e.k, e.gap);
    CutInvIff(h, e);
  }

  lemma DeletingGaps(h: House, op: Op, k: nat, gap: bool)
    requires Enabled(h, op) && op.RemoveBlind? && op.blind in h.blinds && op.blind < 0x1_0000
    requires gap ==> k < |WritesOf(h, op)| && !W.Drops(WritesOf(h, op)[k])
    ensures gap ==> k in {1, 2, 4}
  {
    hide DeleteBlind;
    DeletingWrites(h, op);
  }

  /** Power lost while the record of a remote is missing, in whichever operation saves it: the remote stays
      listed without being there, so the full invariant does not hold, but the weaker one does. */
  lemma RemoteGapBreaksInv(h: House, id: u32, cfg: RemoteConfig, now: int)
    requires WeakInv(h) && id in h.remotes
    ensures var d := W.Missing(h.disk, W.PutRemote(Low(id), cfg));
            Bootable(d) && WeakInv(Reload(d, now, h.issued)) && !Inv(Reload(d, now, h.issued))
  {
    var w := W.PutRemote(Low(id), cfg);
    var d := W.Missing(h.disk, w);
    WeakIsFlashOk(h);
    assert Listed(d, id);
    hide WeakInv, Inv, FlashOk, Reload;
    MissingKeeps(h.disk, w);
    ReloadWeakInv(d, now, h.issued);
    ReloadInvIff(d, now, h.issued);
  }

  // ---------------------------------------------------------------- records left behind

  /** Every record on flash is listed. */
  ghost predicate AllListed(d: Disk) {
    && (forall x :: x in d.remotes ==> exists id: u32 :: Listed(d, id) && Low(id) == x)
    && (forall b :: b in d.blinds ==> b in d.blindIds)
  }

  /** A start leaves no record without its remote or blind exactly if none was unlisted before it. */
  lemma TidyReloadIff(d: Disk, now: int, issued: seq<Issue>)
    requires FlashOk(d) && Bootable(d)
    ensures Tidy(Reload(d, now, issued)) <==> AllListed(d)
  {
    var u := Reload(d, now, issued);
    ReloadedBlinds(d, now, issued);
    ReloadedBlindRecords(d, now, issued);
    hide FlashOk, Bootable, Reload, ReloadedRemotes, LoadedBlind, Low;
    forall id: u32
      ensures id in u.remotes <==> Listed(d, id) && Low(id) in d.remotes
    {
      assert RemotesFlash(d) by { FlashSays(d); }
      LoadedIff(d, id);
    }
    if Tidy(u) {
      forall b | b in d.blinds
        ensures b in d.blindIds
      {
        assert b !in d.blindIds ==> b in u.disk.blinds;
      }
    }
  }

  lemma FlashSays(d: Disk)
    requires FlashOk(d)
    ensures RemotesFlash(d) && BlindsFlash(d)
  {
  }

  lemma ReloadedBlindRecords(d: Disk, now: int, issued: seq<Issue>)
    requires Bootable(d)
    ensures var u := Reload(d, now, issued);
            u.disk.blinds == d.blinds - Orphans(d, ReloadedRemotes(d))
  {
    hide LoadRemotes, LoadBlinds, NextId, LowIds, Ascending;
    assert d.blinds - {} == d.blinds;
  }

  /** The record of an internal or an external remote, once its list is missing. */
  lemma UnlistedRecord(h: House, d: Disk, id: u32)
    requires Inv(h) && id in h.remotes
    requires forall a: u32 :: Listed(d, a) ==> a in h.remotes && a != id
    ensures !exists a: u32 :: Listed(d, a) && Low(a) == Low(id)
  {
    forall a: u32 | Listed(d, a)
      ensures Low(a) != Low(id)
    {
      LowsDiffer(h, a, id);
    }
  }

  /** What is listed on a flash where an operation is cut. */
  lemma ListedWhere(h: House, d: Disk, before: Disk)
    requires Inv(h) && before == h.disk
    ensures forall a: u32 :: a in h.remotes && d.remoteIds == before.remoteIds && !h.remotes[a].external ==>
              Listed(d, a)
    ensures forall a: u32 :: a in h.remotes && d.externalIds == before.externalIds && h.remotes[a].external ==>
              Listed(d, a)
    ensures forall a: u32 :: d.remoteIds == before.remoteIds && InternalListed(d, a) ==>
              a in h.remotes && !h.remotes[a].external
    ensures forall a: u32 :: d.externalIds == before.externalIds && a in d.externalIds ==>
              a in h.remotes && h.remotes[a].external
  {
    InvListed(h);
    hide Inv, Low;
  }

  lemma AddingListedIff(h: House, t: House, k: nat, gap: bool)
    requires Inv(h) && Tidy(h) && CanCreate(h) && Inv(t) && Tidy(t) && k <= 5 && (gap ==> k < 5)
             && h.nextBlind < 0x1_0000
    requires t.remotes.Keys == h.remotes.Keys + {h.nextRemote} && !t.remotes[h.nextRemote].external
    requires forall id :: id in h.remotes ==> t.remotes[id] == h.remotes[id]
    requires Low(h.nextRemote) in t.disk.remotes && h.nextBlind in t.disk.blinds
    requires t.disk.remotes == h.disk.remotes[Low(h.nextRemote) := t.disk.remotes[Low(h.nextRemote)]]
    requires t.disk.blinds == h.disk.blinds[h.nextBlind := t.disk.blinds[h.nextBlind]]
    ensures AllListed(P.CutDisk(h.disk, t.disk, Low(h.nextRemote), h.nextBlind, k, gap))
            <==> k != 1 && k != 4 && !P.ListLost(h, k, gap, h.remotes.Keys, h.blinds.Keys)
  {
    hide Inv, WeakInv, Low, CanCreate, LowFree, Tidy;
    var d := P.CutDisk(h.disk, t.disk, Low(h.nextRemote), h.nextBlind, k, gap);
    NextIsValid(h);
    IdsLeft(h);
    AddingRecords(h, t, k, gap);
    ListedWhere(h, d, h.disk);
    ListedWhere(t, d, t.disk);
    BlindsListedBy(h);
    BlindsListedBy(t);
    if k == 1 {
      UnlistedRecord(t, d, h.nextRemote);
    } else if k == 4 {
      assert h.nextBlind in d.blinds && h.nextBlind !in d.blindIds;
    } else if k == 2 && gap && exists id :: id in h.remotes && h.remotes[id].external {
      var id :| id in h.remotes && h.remotes[id].external;
      RecordThere(h, id);
      UnlistedRecord(t, d, id);
      assert Low(id) in d.remotes by { RecordThere(t, id); }
    } else {
      TidyBlinds(h);
      TidyBlinds(t);
      forall x | x in d.remotes
        ensures exists id: u32 :: Listed(d, id) && Low(id) == x
      {
        var id :| (if k == 0 then id in h.remotes else id in t.remotes) && Low(id) == x;
        assert Listed(d, id);
      }
    }
  }

  lemma TidyBlinds(h: House)
    requires Tidy(h)
    ensures forall b :: b in h.disk.blinds ==> b in h.blinds
  {
  }

  /** Where the records of a tidy house are listed, before, during and after an addition. */
  lemma AddingRecords(h: House, t: House, k: nat, gap: bool)
    requires Inv(h) && Tidy(h) && Inv(t) && Tidy(t) && k <= 5 && h.nextBlind < 0x1_0000
    requires t.remotes.Keys == h.remotes.Keys + {h.nextRemote}
    ensures var d := P.CutDisk(h.disk, t.disk, Low(h.nextRemote), h.nextBlind, k, gap);
            forall x :: x in d.remotes ==>
              exists id :: (if k == 0 then id in h.remotes else id in t.remotes) && Low(id) == x
  {
    hide Inv, Low;
  }

  lemma BlindsListedBy(h: House)
    requires Inv(h)
    ensures forall b :: b in h.blinds ==> b in h.disk.blindIds && b in h.disk.blinds
    ensures forall b: u32 :: b in h.disk.blindIds ==> b in h.blinds
  {
    forall b | b in h.blinds
      ensures b in h.disk.blindIds && b in h.disk.blinds
    {
      P.BlindListed(h, b);
    }
  }

  /** Power lost while a blind is added leaves a record of nothing registered exactly if it was before a list
      names what has been written, or a list of others is missing. */
  lemma AddingTidyIff(h: House, e: Happening)
    requires Inv(h) && Tidy(h) && e.Cut? && e.op.NewBlindOp? && Possible(h, e) && e.starts == []
    ensures Tidy(After(h, e)) <==> e.k != 1 && e.k != 4 && !P.ListLost(h, e.k, e.gap, h.remotes.Keys, h.blinds.Keys)
  {
    hide Inv, WeakInv, Possible, AddBlind, CutDisk, P.CutDisk, Tidy, Low, CanCreate, Reload, AllListed, P.ListLost,
      FlashOk, Bootable, WritesOf, NewIdsFree, Step;
    var op := e.op;
    PossibleSays(h, e);
    AddingIsStep(h, op);
    AddingCut(h, op, 0, false);
    AddingCut(h, op, e.k, e.gap);
    P.AddBlindEffect(h, op.blindName, op.openTime, op.closeTime, op.now);
    StepTidy(h, op);
    AddingListedIff(h, Step(h, op), e.k, e.gap);
    AfterCut(h, e);
    TidyReloadIff(CutDisk(h, op, e.k, e.gap), e.now, h.issued);
  }

  lemma AddingIsStep(h: House, op: Op)
    requires Enabled(h, op) && op.NewBlindOp?
    ensures CanCreate(h) && h.nextBlind < 0x1_0000 && 0 < op.openTime < 0x8000_0000 && 0 < op.closeTime < 0x8000_0000
    ensures Step(h, op) == AddBlind(h, op.blindName, op.openTime, op.closeTime, op.now)
  {
  }

  lemma AfterCut(h: House, e: Happening)
    requires Inv(h) && e.Cut? && Possible(h, e) && e.starts == []
    ensures e.k <= |WritesOf(h, e.op)| && (e.gap ==> e.k < |WritesOf(h, e.op)|)
    ensures var d := CutDisk(h, e.op, e.k, e.gap);
            FlashOk(d) && Bootable(d) && After(h, e) == Reload(d, e.now, h.issued)
  {
    hide Inv, WeakInv, FlashOk, CutDisk, WritesOf, Enabled, NewIdsFree, Reload;
    InvIsWeak(h);
    CutIsFlashOk(h, e.op, e.k, e.gap);
  }

  lemma DeletingListedIff(h: House, t: House, b: u32, k: nat, gap: bool)
    requires Inv(h) && Tidy(h) && Inv(t) && Tidy(t) && b in h.blinds && b < 0x1_0000 && k <= 5
    requires (gap ==> k in {1, 2, 4}) && (k != 4 || gap)
    requires t.remotes == h.remotes - {h.blinds[b].remoteId} && t.blinds == h.blinds - {b}
    requires t.disk.remotes == h.disk.remotes - {Low(h.blinds[b].remoteId)} && t.disk.blinds == h.disk.blinds - {b}
    ensures AllListed(P.CutDisk(h.disk, t.disk, Low(h.blinds[b].remoteId), b, k, gap)) <==>
            !P.ListLost(h, k, gap, h.remotes.Keys - {h.blinds[b].remoteId}, h.blinds.Keys - {b})
  {
    hide Inv, WeakInv, Low, Tidy;
    var r := h.blinds[b].remoteId;
    var d := P.CutDisk(h.disk, t.disk, Low(r), b, k, gap);
    DeletingRecords(h, t, r);
    ListedWhere(h, d, h.disk);
    ListedWhere(t, d, t.disk);
    BlindsListedBy(h);
    BlindsListedBy(t);
    TidyBlinds(h);
    TidyBlinds(t);
    if gap && k == 1 && exists id :: id in t.remotes && !t.remotes[id].external {
      var id :| id in t.remotes && !t.remotes[id].external;
      RecordThere(t, id);
      UnlistedRecord(h, d, id);
      assert id in h.remotes.Keys - {r};
    } else if gap && k == 2 && exists id :: id in t.remotes && t.remotes[id].external {
      var id :| id in t.remotes && t.remotes[id].external;
      RecordThere(t, id);
      UnlistedRecord(h, d, id);
      assert id in h.remotes.Keys - {r};
    } else if gap && k == 4 && t.blinds != map[] {
      var c :| c in t.blinds;
      assert c in d.blinds && c !in d.blindIds && c in h.blinds.Keys - {b};
    } else {
      assert forall id :: id in h.remotes.Keys - {r} ==> id in t.remotes;
      assert forall c :: c in h.blinds.Keys - {b} ==> c in t.blinds;
      forall x | x in d.remotes
        ensures exists id: u32 :: Listed(d, id) && Low(id) == x
      {
        var id :| (if k == 0 then id in h.remotes else id in t.remotes) && Low(id) == x;
        assert Listed(d, id);
      }
    }
  }

  lemma DeletingRecords(h: House, t: House, r: u32)
    requires Tidy(h) && Tidy(t)
    ensures forall x :: x in h.disk.remotes ==> exists id :: id in h.remotes && Low(id) == x
    ensures forall x :: x in t.disk.remotes ==> exists id :: id in t.remotes && Low(id) == x
  {
    hide Low;
  }

  /** Power lost while a blind is deleted leaves a record of nothing registered exactly if a list that names
      something else is missing. */
  lemma DeletingTidyIff(h: House, e: Happening)
    requires Inv(h) && Tidy(h) && e.Cut? && e.op.RemoveBlind? && e.op.blind in h.blinds && Possible(h, e)
             && e.starts == []
    ensures var r := h.blinds[e.op.blind].remoteId;
            && h.remotes.Keys - {r} <= h.remotes.Keys
            && (Tidy(After(h, e))
                <==> !P.ListLost(h, e.k, e.gap, h.remotes.Keys - {r}, h.blinds.Keys - {e.op.blind}))
  {
    hide Inv, WeakInv, Possible, DeleteBlind, CutDisk, P.CutDisk, Tidy, Low, Reload, AllListed, P.ListLost,
      FlashOk, Bootable, WritesOf, NewIdsFree, Step;
    var op, b := e.op, e.op.blind;
    var t := DeleteBlind(h, b);
    PossibleSays(h, e);
    DeletingCut(h, op, 0, false);
    DeletingGaps(h, op, e.k, e.gap);
    DeletingCut(h, op, e.k, e.gap);
    P.DeletingEffect(h, b);
    assert Tidy(t) by {
      DeletingIsStep(h, op);
      StepTidy(h, op);
    }
    AfterCut(h, e);
    P.DeleteCutBootsIff(h, t, b, e.k, e.gap);
    DeletingListedIff(h, t, b, e.k, e.gap);
    TidyReloadIff(CutDisk(h, op, e.k, e.gap), e.now, h.issued);
  }

  lemma DeletingIsStep(h: House, op: Op)
    requires Enabled(h, op) && op.RemoveBlind?
    ensures Step(h, op) == DeleteBlind(h, op.blind)
  {
    hide DeleteBlind;
  }

  // ---------------------------------------------------------------- room for the writes

  /** The keys of what is stored and what is to be stored. */
  lemma KeysOfWrites(s: seq<Slot>, ws: seq<W.Write>, d: Disk, remotes: set<u16>, blinds: set<u16>)
    requires W.Holds(s, d) && D.KnownKeys(S.Contents(s))
    requires d.remotes.Keys <= remotes && d.blinds.Keys <= blinds
    requires forall w :: w in ws && w.PutRemote? ==> w.low in remotes
    requires forall w :: w in ws && w.PutBlind? ==> w.id in blinds
    ensures |S.Contents(s).Keys + W.PutKeys(ws)| <= 5 + |remotes| + |blinds|
  {
    hide W.Holds, S.Contents, D.KnownKeys, D.IsKnown, D.RemoteKey, D.BlindKey, W.KeyOf;
    var keys := S.Contents(s).Keys + W.PutKeys(ws);
    KnownHere(s, d);
    forall key | key in W.PutKeys(ws)
      ensures D.IsKnown(key)
    {
      var w :| w in ws && !W.Drops(w) && W.KeyOf(w) == key;
      WriteIsKnown(w);
    }
    forall x: u16
      ensures D.RemoteKey(x) in keys ==> x in remotes
      ensures D.BlindKey(x) in keys ==> x in blinds
    {
      StoredKeys(s, d, x);
      if D.RemoteKey(x) in W.PutKeys(ws) {
        PutOfRemote(ws, x);
      }
      if D.BlindKey(x) in W.PutKeys(ws) {
        PutOfBlind(ws, x);
      }
    }
    D.KnownCount(keys, remotes, blinds);
  }

  lemma KnownHere(s: seq<Slot>, d: Disk)
    requires W.Holds(s, d) && D.KnownKeys(S.Contents(s))
    ensures forall key :: key in S.Contents(s) ==> D.IsKnown(key)
  {
    hide S.Contents, D.IsKnown, W.Holds;
  }

  lemma StoredKeys(s: seq<Slot>, d: Disk, x: u16)
    requires W.Holds(s, d)
    ensures D.RemoteKey(x) in S.Contents(s) ==> x in d.remotes
    ensures D.BlindKey(x) in S.Contents(s) ==> x in d.blinds
  {
    hide S.Contents, S.Distinct, D.WellFormed, D.View, D.RemoteKey, D.BlindKey;
    ViewKeys(S.Contents(s), x);
  }

  lemma PutOfRemote(ws: seq<W.Write>, x: u16)
    requires D.RemoteKey(x) in W.PutKeys(ws)
    ensures exists w :: w in ws && w.PutRemote? && w.low == x
  {
    var w :| w in ws && !W.Drops(w) && W.KeyOf(w) == D.RemoteKey(x);
    assert w.PutRemote? && w.low == x;
  }

  lemma PutOfBlind(ws: seq<W.Write>, x: u16)
    requires D.BlindKey(x) in W.PutKeys(ws)
    ensures exists w :: w in ws && w.PutBlind? && w.id == x
  {
    var w :| w in ws && !W.Drops(w) && W.KeyOf(w) == D.BlindKey(x);
    assert w.PutBlind? && w.id == x;
  }

  lemma ViewKeys(m: D.Store, x: u16)
    requires D.WellFormed(m)
    ensures D.RemoteKey(x) in m ==> x in D.View(m).remotes
    ensures D.BlindKey(x) in m ==> x in D.View(m).blinds
  {
    hide D.WellFormed, D.View, D.RemoteKey, D.BlindKey;
    D.ViewAt(m, x);
  }

  lemma WriteIsKnown(w: W.Write)
    ensures D.IsKnown(W.KeyOf(w))
  {
  }

  /** As long as what is registered fits the flash before and after, there is a sector to spare all through an
      addition or a deletion, so that `PowerCuts` is about every such operation of the device. */
  lemma FittingIsSpare(s: seq<Slot>, h: House, op: Op)
    requires Inv(h) && Tidy(h) && Enabled(h, op) && (op.NewBlindOp? || (op.RemoveBlind? && op.blind in h.blinds))
    requires W.Holds(s, h.disk) && D.KnownKeys(S.Contents(s))
    requires FitsOn(S.Sectors(s), h) && FitsOn(S.Sectors(s), Step(h, op))
    ensures W.Spare(s, WritesOf(h, op))
  {
    hide Inv, Tidy, Step, W.Holds, D.KnownKeys, WritesOf, Enabled, S.Contents;
    StepTidy(h, op);
    TidyCount(h);
    TidyCount(Step(h, op));
    PutsAreThere(h, op);
    var big := if op.NewBlindOp? then Step(h, op).disk else h.disk;
    KeysOfWrites(s, WritesOf(h, op), h.disk, big.remotes.Keys, big.blinds.Keys);
    assert |big.remotes.Keys| == |big.remotes| && |big.blinds.Keys| == |big.blinds|;
  }

  lemma PutsAreThere(h: House, op: Op)
    requires Inv(h) && Enabled(h, op) && (op.NewBlindOp? || (op.RemoveBlind? && op.blind in h.blinds))
    ensures var big, ws := (if op.NewBlindOp? then Step(h, op).disk else h.disk), WritesOf(h, op);
            && h.disk.remotes.Keys <= big.remotes.Keys && h.disk.blinds.Keys <= big.blinds.Keys
            && (forall w :: w in ws && w.PutRemote? ==> w.low in big.remotes)
            && (forall w :: w in ws && w.PutBlind? ==> w.id in big.blinds)
  {
    hide Inv, AddBlind, DeleteBlind, Low, CanCreate, WritesOf;
    if op.NewBlindOp? {
      AddingWrites(h, op);
      AddingIsStep(h, op);
      P.AddBlindEffect(h, op.blindName, op.openTime, op.closeTime, op.now);
    } else {
      P.DeletingEffect(h, op.blind);
      DeletingWrites(h, op);
    }
  }
}
