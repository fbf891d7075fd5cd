/** Every run of the registry in which power may also be lost inside an operation: what all its states have
    in common, and when the full invariant is back. */
module WeakRuns {
  import opened Basics
  import opened Records
  import opened House
  import opened HouseInvariant
  import opened HouseRestart
  import opened HouseRuns
  import opened FlashStates
  import opened OpWrites
  import W = DiskWrites

  // ---------------------------------------------------------------- whole operations

  /** With its lists saved again the house satisfies the full invariant. */
  lemma ListsSaved(h: House)
    requires WeakInv(h)
    ensures Inv(SaveRemoteList(h)) && SaveRemoteList(h) == h.(disk := SaveRemoteList(h).disk)
  {
    hide RemotesOk, BlindsOk, BlindListOk, ListsCover, Ascending, InternalIds, ExternalIds;
    SavedInv(SaveRemoteList(h));
  }

  /** They do not care what the lists were. */
  lemma ListsDoNotMatter(h: House, id: u32, name: Name, external: bool)
    ensures AddRemote(SaveRemoteList(h), id, name, external) == AddRemote(h, id, name, external)
    ensures DeleteRemote(SaveRemoteList(h), id) == DeleteRemote(h, id)
  {
    hide Ascending, InternalIds, ExternalIds, Low, RemoteRecord;
  }

  lemma CreateAnyway(h: House, name: Name)
    ensures CreateRemote(SaveRemoteList(h), name) == CreateRemote(h, name)
  {
    hide AddRemote, Ascending, InternalIds, ExternalIds;
    ListsDoNotMatter(h.(nextRemote := (h.nextRemote + 1) % 0x1_0000_0000), h.nextRemote, name, false);
  }

  lemma RemoveAnyway(h: House, b: u32)
    requires b in h.blinds
    ensures DeleteBlind(SaveRemoteList(h), b) == DeleteBlind(h, b)
  {
    hide DeleteRemote, ForgetBlind, Ascending, InternalIds, ExternalIds;
    ListsDoNotMatter(TakeBlind(h, b), h.blinds[b].remoteId, [], false);
  }

  /** So after one of them the full invariant is back. */
  lemma SavingListsRestores(h: House, op: Op)
    requires WeakInv(h) && Enabled(h, op) && SavesLists(h, op)
    ensures Inv(Step(h, op))
  {
    hide WeakInv, Inv, CreateRemote, AddRemote, DeleteRemote, AddBlind, DeleteBlind, IsAPrimaryRemote, CanCreate,
      LowFree, SaveRemoteList;
    var s := SaveRemoteList(h);
    ListsSaved(h);
    match op
    case Add(name) => SameChecks(h, s); CreateAnyway(h, name); CreateRemoteInv(s, name);
    case Import(id, name) => ListsDoNotMatter(h, id, name, true); AddRemoteInv(s, id, name, true);
    case Delete(id) => SameChecks(h, s); ListsDoNotMatter(h, id, [], false); DeleteRemoteInv(s, id);
    case NewBlindOp(name, openTime, closeTime, now) =>
      SameChecks(h, s);
      AddBlindRestores(h, name, openTime, closeTime, now);
    case RemoveBlind(b) => RemoveAnyway(h, b); DeleteBlindInv(s, b);
  }

  lemma SameChecks(h: House, s: House)
    requires s == h.(disk := s.disk)
    ensures CanCreate(s) == CanCreate(h) && forall id :: IsAPrimaryRemote(s, id) == IsAPrimaryRemote(h, id)
  {
  }

  lemma AddBlindRestores(h: House, name: Name, openTime: int, closeTime: int, now: int)
    requires Inv(SaveRemoteList(h)) && CanCreate(h) && SaveRemoteList(h) == h.(disk := SaveRemoteList(h).disk)
    requires h.nextBlind < 0x1_0000 && 0 < openTime < 0x8000_0000 && 0 < closeTime < 0x8000_0000
    ensures Inv(AddBlind(h, name, openTime, closeTime, now))
  {
    hide Inv, CreateRemote, AttachBlind, CanCreate, SaveRemoteList;
    SameChecks(h, SaveRemoteList(h));
    CreateAnyway(h, name);
    AddBlindInv(SaveRemoteList(h), name, openTime, closeTime, now);
  }

  lemma WeakStorable(h: House)
    requires WeakInv(h)
    ensures AllStorable(h.blinds) && forall b :: b in h.blinds ==> b < 0x1_0000
  {
    BlindIdsSmall(h.disk.blinds, h.remotes, h.blinds, h.nextBlind);
  }

  lemma InMemoryWeak(h: House, t: House)
    requires WeakInv(h) && InMemory(h, t)
    ensures WeakInv(t)
  {
    var s := SaveRemoteList(h);
    ListsSaved(h);
    hide RemotesOk, ListsOk, BlindsOk, BlindListOk, SaveRemoteList, Storable, NoDuplicates;
    SavedDisk(h);
    var u := t.(disk := s.disk);
    InMemoryInv(s, u);
    InMemoryCovers(h, t);
    assert RemotesOk(t.disk.remotes, t.remotes, t.nextRemote);
    assert BlindsOk(t.disk.blinds, t.remotes, t.blinds, t.nextBlind);
  }

  lemma SavedDisk(h: House)
    ensures var d := SaveRemoteList(h).disk;
            d.remotes == h.disk.remotes && d.blinds == h.disk.blinds && d.blindIds == h.disk.blindIds
  {
    hide Ascending, InternalIds, ExternalIds;
  }

  lemma InMemoryCovers(h: House, t: House)
    requires ListsCover(h.disk, h.remotes, h.nextRemote) && InMemory(h, t)
    ensures ListsCover(t.disk, t.remotes, t.nextRemote)
  {
    hide Storable, NoDuplicates;
  }

  lemma SaveRemoteWeak(h: House, id: u32)
    requires WeakInv(h) && id in h.remotes
    ensures WeakInv(SaveRemote(h, id, false))
  {
    var t, r := SaveRemote(h, id, false), h.remotes[id].(dirty := false);
    if h.remotes[id].dirty {
      BlindIdsSmall(h.disk.blinds, h.remotes, h.blinds, h.nextBlind);
      assert RemoteOk(h.disk.remotes, h.nextRemote, id, h.remotes[id]);
      RemotesOkSave(h.disk.remotes, h.remotes, h.nextRemote, id);
      hide RemotesOk, BlindsOk, BlindListOk, RemoteRecord, RemoteOk, Low;
      SavedCovers(h.disk, t.disk, h.remotes, t.remotes, h.nextRemote);
      BlindsOkGrow(h.disk.blinds, h.remotes, t.remotes, h.blinds, h.nextBlind);
    }
  }

  /** The same keys everywhere, so the lists cover as much. */
  lemma SavedCovers(d: Disk, t: Disk, remotes: map<u32, Remote>, after: map<u32, Remote>, next: u32)
    requires ListsCover(d, remotes, next) && t.remotes.Keys == d.remotes.Keys
    requires t.remoteIds == d.remoteIds && t.externalIds == d.externalIds
    requires after.Keys == remotes.Keys && forall id :: id in remotes ==> after[id].external == remotes[id].external
    ensures ListsCover(t, after, next)
  {
    hide Low;
    forall id: u32
      ensures InternalListed(t, id) == InternalListed(d, id) && Listed(t, id) == Listed(d, id)
    {
    }
    hide InternalListed, Listed;
  }

  lemma {:induction false} SaveRemotesWeak(h: House, ids: seq<u32>)
    requires WeakInv(h) && forall id :: id in ids ==> id in h.remotes
    ensures WeakInv(SaveRemotes(h, ids))
    decreases |ids|
  {
    hide WeakInv, SaveRemote;
    if ids != [] {
      SaveRemotesWeak(h, ids[..|ids| - 1]);
      SaveRemoteWeak(SaveRemotes(h, ids[..|ids| - 1]), ids[|ids| - 1]);
    }
  }

  lemma SaveBlindWeak(h: House, id: u32, force: bool)
    requires WeakInv(h) && id in h.blinds && AllStorable(h.blinds)
    ensures WeakInv(SaveBlind(h, id, force))
  {
    hide RemotesOk, BlindsOk, BlindListOk, ListsCover, AllStorable, Storable, BlindRecord, SaveBlind;
    BlindIdsSmall(h.disk.blinds, h.remotes, h.blinds, h.nextBlind);
    StoredAt(h.blinds, id);
    SaveBlindShape(h, id, force);
    var t := SaveBlind(h, id, force);
    if t != h {
      BlindsOkSave(h.disk.blinds, h.remotes, h.blinds, h.nextBlind, id);
      BlindListKeys(h.disk.blindIds, h.blinds, t.blinds);
      SameListsCover(h.disk, t.disk, h.remotes, h.nextRemote);
    }
  }

  lemma {:induction false} SaveBlindsWeak(h: House, ids: seq<u32>, force: bool)
    requires WeakInv(h) && AllStorable(h.blinds) && forall b :: b in ids ==> b in h.blinds
    ensures WeakInv(SaveBlinds(h, ids, force))
    decreases |ids|
  {
    hide WeakInv, SaveBlind, AllStorable;
    if ids != [] {
      SaveBlindsWeak(h, ids[..|ids| - 1], force);
      SaveBlindWeak(SaveBlinds(h, ids[..|ids| - 1], force), ids[|ids| - 1], force);
    }
  }

  lemma ShutdownWeak(h: House)
    requires WeakInv(h) && AllStorable(h.blinds)
    ensures WeakInv(Shutdown(h)) && Shutdown(h).issued == h.issued
  {
    hide WeakInv, SaveRemotes, SaveBlinds, AllStorable, Ascending;
    var ids := Ascending(h.remotes.Keys);
    SaveRemotesWeak(h, ids);
    SaveRemotesKeeps(h, ids);
    var h1 := SaveRemotes(h, ids);
    SaveBlindsWeak(h1, Ascending(h1.blinds.Keys), true);
    SaveBlindsKeeps(h1, Ascending(h1.blinds.Keys), true);
  }

  /** Every whole operation, and every restart between two of them, keeps the weaker invariant. */
  lemma StepWeakInv(h: House, op: Op)
    requires WeakInv(h) && Enabled(h, op)
    ensures WeakInv(Step(h, op))
  {
    hide WeakInv, Inv, Step, Enabled, AllStorable, InMemory, SavesLists;
    WeakStorable(h);
    if op.Restart? {
      RestartWeak(h, op);
    } else if MemoryOnly(op) {
      InMemoryStep(h, op);
      InMemoryWeak(h, Step(h, op));
    } else if op.SaveRemotesOp? || op.SaveBlindsOp? {
      SaveWeak(h, op);
    } else if SavesLists(h, op) {
      SavingListsRestores(h, op);
      InvIsWeak(Step(h, op));
    } else {
      NothingDone(h, op);
    }
  }

  lemma NothingDone(h: House, op: Op)
    requires Enabled(h, op) && !SavesLists(h, op)
    requires op.Add? || op.Import? || op.Delete? || op.NewBlindOp? || op.RemoveBlind?
    ensures Step(h, op) == h
  {
    hide CreateRemote, AddRemote, DeleteRemote, IsAPrimaryRemote;
    if op.RemoveBlind? {
      NoSuchBlind(h, op.blind);
    }
  }

  lemma SaveWeak(h: House, op: Op)
    requires WeakInv(h) && Enabled(h, op) && (op.SaveRemotesOp? || op.SaveBlindsOp?)
    ensures WeakInv(Step(h, op))
  {
    hide WeakInv, AllStorable, SaveRemotes, SaveBlinds, Ascending;
    if op.SaveRemotesOp? {
      SaveRemotesWeak(h, Ascending(h.remotes.Keys));
    } else {
      SaveBlindsWeak(h, Ascending(h.blinds.Keys), false);
    }
  }

  lemma RestartWeak(h: House, op: Op)
    requires WeakInv(h) && op.Restart? && Enabled(h, op)
    ensures WeakInv(Step(h, op))
  {
    hide WeakInv, AllStorable, Shutdown, Reload, Bootable, FlashOk;
    if op.clean {
      ShutdownWeak(h);
      WeakIsFlashOk(Shutdown(h));
      ReloadWeakInv(Shutdown(h).disk, op.now, h.issued);
    } else {
      WeakIsFlashOk(h);
      ReloadWeakInv(h.disk, op.now, h.issued);
    }
  }
}
