/** Adding a remote whose low half is taken, or whose id cannot be read back: what a clean restart makes
    of it, and exactly when nothing is lost. */
module AddedRemotes {
  import opened Basics
  import opened Records
  import opened House
  import opened HouseInvariant
  import opened HouseRestart
  import opened HouseRuns

  // ---------------------------------------------------------------- what a clean restart reads

  /** Which record a save of all remotes leaves under a low half that two ids may share: that of the one
      that is dirty, or the old one. */
  lemma {:induction false} SavedRecord(h: House, ids: seq<u32>, id: u32)
    requires (forall a :: a in ids ==> a in h.remotes) && id in h.remotes
    requires forall a :: a in ids && Low(a) == Low(id) && a != id ==> !h.remotes[a].dirty
    ensures var t := SaveRemotes(h, ids);
            && t.remotes[id] == (if id in ids then h.remotes[id].(dirty := false) else h.remotes[id])
            && (if id in ids && h.remotes[id].dirty
                then Low(id) in t.disk.remotes && t.disk.remotes[Low(id)] == RemoteRecord(id, h.remotes[id])
                else SameAt(h.disk.remotes, t.disk.remotes, Low(id)))
    decreases |ids|
  {
    hide Low, RemoteRecord, SaveRemote;
    if ids != [] {
      var n := |ids| - 1;
      var before := SaveRemotes(h, ids[..n]);
      SavedRecord(h, ids[..n], id);
      SaveRemotesEffect(h, ids[..n]);
      assert ids == ids[..n] + [ids[n]];
      SavedOne(before, ids[n]);
      SameRecords(id, h.remotes[id]);
    }
  }

  ghost predicate SameAt(a: map<u16, RemoteConfig>, b: map<u16, RemoteConfig>, x: u16) {
    (x in a <==> x in b) && (x in a ==> b[x] == a[x])
  }

  lemma SavedOne(h: House, id: u32)
    requires id in h.remotes
    ensures var t := SaveRemote(h, id, false);
            && t.remotes == h.remotes[id := h.remotes[id].(dirty := false)]
            && t.disk.remotes == if h.remotes[id].dirty then h.disk.remotes[Low(id) := RemoteRecord(id, h.remotes[id])]
                                 else h.disk.remotes
  {
    assert !h.remotes[id].dirty ==> h.remotes == h.remotes[id := h.remotes[id].(dirty := false)];
  }

  lemma SameRecords(id: u32, r: Remote)
    ensures RemoteRecord(id, r) == RemoteRecord(id, r.(dirty := false))
  {
  }

  /** What a shutdown leaves on flash, whatever is there. */
  lemma ShutdownDisk(h: House)
    requires AllStorable(h.blinds) && forall b :: b in h.blinds ==> b < 0x1_0000
    ensures var s, saved := Shutdown(h), SaveRemotes(h, Ascending(h.remotes.Keys));
            && s.disk.remotes == saved.disk.remotes && SameLists(h.disk, s.disk)
            && forall b :: b in h.blinds ==> b in s.disk.blinds
  {
    hide Storable, SaveRemotes, SaveBlinds;
    var saved := SaveRemotes(h, Ascending(h.remotes.Keys));
    SaveRemotesKeeps(h, Ascending(h.remotes.Keys));
    SaveBlindsKeeps(saved, Ascending(saved.blinds.Keys), true);
    SaveBlindsEffect(saved, Ascending(saved.blinds.Keys));
  }

  ghost predicate InternalsInRange(remotes: map<u32, Remote>) {
    forall id: u32 :: IsInternal(remotes, id) ==> BASE_REMOTE_ID <= id < BASE_REMOTE_ID + 0x1_0000
  }

  /** From lists that are right, a remote comes back exactly if its record can be read. */
  lemma ListedComesBack(disk: Disk, remotes: map<u32, Remote>, id: u32)
    requires ListsOk(disk, remotes) && InternalsInRange(remotes)
    ensures id in ReloadedRemotes(disk) <==> id in remotes && ReadRemote(disk, id).Some?
    ensures id in ReloadedRemotes(disk) ==>
              ReloadedRemotes(disk)[id] == LoadedRemote(ReadRemote(disk, id).value, remotes[id].external)
  {
    hide ReadRemote, LoadedRemote;
    var ids := InternalIdsOf(disk.remoteIds);
    LoadRemotesGives(disk, map[], ids, false);
    LoadRemotesGives(disk, LoadRemotes(disk, map[], ids, false), disk.externalIds, true);
    InternalIdsMember(disk.remoteIds, id);
    assert id in ids <==> IsInternal(remotes, id);
    assert id in disk.externalIds <==> IsExternal(remotes, id);
  }

  // ---------------------------------------------------------------- adding

  /** Nothing stands in the way of a new remote: no other has its low half, unless that one is itself
      as good as new. One that already has this very id may also be waiting to be saved again. */
  predicate Harmless(h: House, id: u32, name: Name) {
    forall a :: a in h.remotes && Low(a) == Low(id) ==>
      || (a == id && h.remotes[a].dirty)
      || AsNew(h.remotes[a], name)
  }

  /** A clean restart is possible, and every remote comes back from it as it was. */
  ghost predicate AllComeBack(h: House, now: int) {
    && AllStorable(h.blinds) && Bootable(Shutdown(h).disk)
    && Reload(Shutdown(h).disk, now, h.issued).remotes == (map a | a in h.remotes :: Restarted(h.remotes[a]))
  }

  /** The state an addition leaves, as far as the restart is concerned. */
  lemma AddedState(h: House, id: u32, name: Name, external: bool)
    requires Inv(h) && (external || BASE_REMOTE_ID < id < BASE_REMOTE_ID + 0x1_0000)
    ensures var t := AddRemote(h, id, name, external);
            && t.blinds == h.blinds && t.disk.blindIds == h.disk.blindIds && t.issued == h.issued
            && t.remotes == (if id in h.remotes then h.remotes
               else h.remotes[id := Remote(name, 1, [], external, false)])
            && t.disk.remotes == h.disk.remotes[Low(id) := RemoteRecord(id, Remote(name, 1, [], external, false))]
            && InternalsInRange(t.remotes) && ListsOk(t.disk, t.remotes)
  {
    var t := AddRemote(h, id, name, external);
    AddedShape(h, id, name, external);
    hide AddRemote, SaveRemoteList, ListsOk, Low, RemoteRecord;
    assert InternalsInRange(t.remotes) by {
      InternalsStay(h, id, name, external);
    }
    SavedListsOk(t);
  }

  lemma InternalsStay(h: House, id: u32, name: Name, external: bool)
    requires Inv(h) && (external || BASE_REMOTE_ID < id < BASE_REMOTE_ID + 0x1_0000)
    ensures InternalsInRange(if id in h.remotes then h.remotes
            else h.remotes[id := Remote(name, 1, [], external, false)])
  {
    InternalShape(h.disk.remotes, h.remotes, h.nextRemote);
    hide Inv;
    forall a: u32 | IsInternal(h.remotes[id := Remote(name, 1, [], external, false)], a)
      ensures IsInternal(h.remotes, a) || (a == id && !external)
    {
    }
  }

  lemma AddedShape(h: House, id: u32, name: Name, external: bool)
    ensures var t := AddRemote(h, id, name, external);
            && t.blinds == h.blinds && t.disk.blindIds == h.disk.blindIds && t.issued == h.issued
            && t.remotes == (if id in h.remotes then h.remotes
               else h.remotes[id := Remote(name, 1, [], external, false)])
            && t.disk.remotes == h.disk.remotes[Low(id) := RemoteRecord(id, Remote(name, 1, [], external, false))]
            && t == SaveRemoteList(t)
  {
    hide Low, RemoteRecord, Ascending, InternalIds, ExternalIds;
  }

  function Fresh(name: Name, external: bool): Remote {
    Remote(name, 1, [], external, false)
  }

  /** The record that comes back for remote a once the remotes are saved: for each low half that of the
      remote which was there before, if it still had to be saved, and otherwise the new one's. */
  lemma SavedAfterAdding(h: House, id: u32, name: Name, external: bool, a: u32)
    requires Inv(h) && (external || BASE_REMOTE_ID < id < BASE_REMOTE_ID + 0x1_0000) && a in h.remotes
    ensures var t := AddRemote(h, id, name, external);
            && a in t.remotes && t.remotes[a] == h.remotes[a]
            && var records := SaveRemotes(t, Ascending(t.remotes.Keys)).disk.remotes;
               && Low(a) in records
               && records[Low(a)] == if Low(a) == Low(id) && !h.remotes[a].dirty
                  then RemoteRecord(id, Fresh(name, external))
                                     else RemoteRecord(a, h.remotes[a])
  {
    var t := AddRemote(h, id, name, external);
    AddedState(h, id, name, external);
    assert RemoteOk(h.disk.remotes, h.nextRemote, a, h.remotes[a]);
    forall b | b in t.remotes && Low(b) == Low(a) && b != a
      ensures !t.remotes[b].dirty
    {
      assert b == id;
    }
    hide Inv, AddRemote, SaveRemotes, Low, RemoteRecord, ListsOk, InternalsInRange;
    SavedRecord(t, Ascending(t.remotes.Keys), a);
  }

  lemma SavedNew(h: House, id: u32, name: Name, external: bool)
    requires Inv(h) && (external || BASE_REMOTE_ID < id < BASE_REMOTE_ID + 0x1_0000) && LowFree(h.remotes, id)
    ensures var t := AddRemote(h, id, name, external);
            && id in t.remotes && t.remotes[id] == Fresh(name, external)
            && var records := SaveRemotes(t, Ascending(t.remotes.Keys)).disk.remotes;
               Low(id) in records && records[Low(id)] == RemoteRecord(id, Fresh(name, external))
  {
    var t := AddRemote(h, id, name, external);
    AddedState(h, id, name, external);
    hide Inv, AddRemote, SaveRemotes, Low, RemoteRecord, ListsOk, InternalsInRange;
    SavedRecord(t, Ascending(t.remotes.Keys), id);
  }

  /** The remote an addition enters, and the one it shares its low half with, if any. */
  predicate AsNew(r: Remote, name: Name) {
    r.name == name && r.rollingCode == 1 && r.blinds == []
  }

  lemma RecordGivesBack(id: u32, r: Remote)
    ensures LoadedRemote(RemoteRecord(id, r), r.external) == Restarted(r)
  {
  }

  lemma RecordGivesOther(id: u32, name: Name, external: bool, r: Remote)
    ensures LoadedRemote(RemoteRecord(id, Fresh(name, external)), r.external) == Restarted(r) <==> AsNew(r, name)
  {
  }

  /** After the addition and a shutdown: the flash the restart reads. */
  lemma AddedRestart(h: House, id: u32, name: Name, external: bool, now: int)
    requires Inv(h) && (external || BASE_REMOTE_ID < id < BASE_REMOTE_ID + 0x1_0000)
    ensures var t := AddRemote(h, id, name, external);
            && AllStorable(t.blinds) && Bootable(Shutdown(t).disk)
            && var d := Shutdown(t).disk;
               && d.remotes == SaveRemotes(t, Ascending(t.remotes.Keys)).disk.remotes
               && ListsOk(d, t.remotes) && InternalsInRange(t.remotes)
               && Reload(d, now, t.issued).remotes == ReloadedRemotes(d)
  {
    var t := AddRemote(h, id, name, external);
    AddedState(h, id, name, external);
    hide RemotesOk, ListsOk, InternalsInRange, AddRemote, Shutdown, SaveRemotes, AllStorable;
    BlindIdsSmall(h.disk.blinds, h.remotes, h.blinds, h.nextBlind);
    ShutdownDisk(t);
    ListsOkDisk(t.disk, Shutdown(t).disk, t.remotes);
    ReloadsRemotes(Shutdown(t).disk, now, t.issued);
  }

  lemma ReloadsRemotes(disk: Disk, now: int, issued: seq<Issue>)
    requires Bootable(disk)
    ensures Reload(disk, now, issued).remotes == ReloadedRemotes(disk)
  {
    hide LoadBlinds, LoadRemotes, NextId;
  }

  /** A remote that was there before comes back as it was exactly if it does not share the new one's low
      half, or is saved once more by the shutdown, or is as good as new. */
  lemma OtherComesBackIff(h: House, id: u32, name: Name, external: bool, a: u32)
    requires Inv(h) && (external || BASE_REMOTE_ID < id < BASE_REMOTE_ID + 0x1_0000) && a in h.remotes
    ensures var t := AddRemote(h, id, name, external);
            && AllStorable(t.blinds)
            && var again := ReloadedRemotes(Shutdown(t).disk);
               && a in again && a in t.remotes
               && (again[a] == Restarted(t.remotes[a])
                   <==> Low(a) != Low(id) || h.remotes[a].dirty || AsNew(h.remotes[a], name))
  {
    var t := AddRemote(h, id, name, external);
    AddedRestart(h, id, name, external, 0);
    SavedAfterAdding(h, id, name, external, a);
    ReadableId(h, a);
    hide Inv, AddRemote, Shutdown, SaveRemotes, Low, RemoteRecord, ListsOk, InternalsInRange, LoadedRemote,
      Restarted, ReloadedRemotes, AllStorable, Bootable, AsNew, Reload;
    ListedComesBack(Shutdown(t).disk, t.remotes, a);
    RecordGivesBack(a, h.remotes[a]);
    RecordGivesOther(id, name, external, h.remotes[a]);
  }

  lemma ReadableId(h: House, a: u32)
    requires Inv(h) && a in h.remotes
    ensures 0 < a < NO_REMOTE
  {
    assert RemoteOk(h.disk.remotes, h.nextRemote, a, h.remotes[a]);
  }

  /** The new one comes back exactly if its id can be read back and no dirty remote shares its low half,
      unless that one is as good as new. */
  lemma NewComesBackIff(h: House, id: u32, name: Name, external: bool)
    requires Inv(h) && (external || BASE_REMOTE_ID < id < BASE_REMOTE_ID + 0x1_0000) && id !in h.remotes
    ensures var t := AddRemote(h, id, name, external);
            && AllStorable(t.blinds) && id in t.remotes
            && var again := ReloadedRemotes(Shutdown(t).disk);
               && (id in again <==> 0 < id < NO_REMOTE)
               && (id in again ==>
                     (again[id] == Restarted(t.remotes[id])
                      <==> forall a :: a in h.remotes && Low(a) == Low(id) && h.remotes[a].dirty ==>
                             AsNew(h.remotes[a], name)))
  {
    var t := AddRemote(h, id, name, external);
    AddedRestart(h, id, name, external, 0);
    AddedState(h, id, name, external);
    hide Inv, AddRemote, Shutdown, SaveRemotes, Low, RemoteRecord, ListsOk, InternalsInRange, LoadedRemote,
      Restarted, ReloadedRemotes, AllStorable, Bootable, AsNew;
    ListedComesBack(Shutdown(t).disk, t.remotes, id);
    RecordGivesBack(id, Fresh(name, external));
    if a :| a in h.remotes && Low(a) == Low(id) {
      SavedAfterAdding(h, id, name, external, a);
      TwinIsUnique(h, a);
      RecordGivesNew(a, h.remotes[a], name, external);
    } else {
      SavedNew(h, id, name, external);
    }
  }

  lemma TwinIsUnique(h: House, a: u32)
    requires Inv(h) && a in h.remotes
    ensures forall b :: b in h.remotes && Low(b) == Low(a) ==> b == a
  {
  }

  lemma RecordGivesNew(a: u32, r: Remote, name: Name, external: bool)
    ensures LoadedRemote(RemoteRecord(a, r), external) == Restarted(Fresh(name, external)) <==> AsNew(r, name)
  {
  }

  /** What comes back after an addition, remote by remote. */
  ghost predicate OthersBack(h: House, id: u32, name: Name, remotes: map<u32, Remote>, again: map<u32, Remote>) {
    forall a :: a in h.remotes ==>
      && a in again && a in remotes
      && (again[a] == Restarted(remotes[a]) <==> Low(a) != Low(id) || h.remotes[a].dirty || AsNew(h.remotes[a], name))
  }

  ghost predicate NewBack(h: House, id: u32, name: Name, remotes: map<u32, Remote>, again: map<u32, Remote>) {
    && id in remotes
    && (id in again <==> 0 < id < NO_REMOTE)
    && (id in again ==>
          (again[id] == Restarted(remotes[id])
           <==> forall a :: a in h.remotes && Low(a) == Low(id) && h.remotes[a].dirty ==> AsNew(h.remotes[a], name)))
  }

  lemma OthersComeBack(h: House, id: u32, name: Name, external: bool)
    requires Inv(h) && (external || BASE_REMOTE_ID < id < BASE_REMOTE_ID + 0x1_0000)
    ensures var t := AddRemote(h, id, name, external);
            AllStorable(t.blinds) && OthersBack(h, id, name, t.remotes, ReloadedRemotes(Shutdown(t).disk))
  {
    hide Inv, AddRemote, Shutdown, Low, Restarted, ReloadedRemotes, AllStorable, Bootable, Reload, AsNew,
      BASE_REMOTE_ID;
    AddedRestart(h, id, name, external, 0);
    forall a | a in h.remotes {
      OtherComesBackIff(h, id, name, external, a);
    }
  }

  ghost predicate EachBack(h: House, id: u32, name: Name, remotes: map<u32, Remote>, again: map<u32, Remote>) {
    && again.Keys <= remotes.Keys == h.remotes.Keys + {id}
    && OthersBack(h, id, name, remotes, again)
    && (id !in h.remotes ==> NewBack(h, id, name, remotes, again))
  }

  lemma EachComesBack(h: House, id: u32, name: Name, external: bool)
    requires Inv(h) && (external || BASE_REMOTE_ID < id < BASE_REMOTE_ID + 0x1_0000)
    ensures var t := AddRemote(h, id, name, external);
            AllStorable(t.blinds) && EachBack(h, id, name, t.remotes, ReloadedRemotes(Shutdown(t).disk))
  {
    hide Inv, AddRemote, Shutdown, ReloadedRemotes, AllStorable, OthersBack, NewBack;
    OnlyKnownComeBack(h, id, name, external);
    OthersComeBack(h, id, name, external);
    if id !in h.remotes {
      NewComesBack(h, id, name, external);
    }
  }

  lemma OnlyKnownComeBack(h: House, id: u32, name: Name, external: bool)
    requires Inv(h) && (external || BASE_REMOTE_ID < id < BASE_REMOTE_ID + 0x1_0000)
    ensures var t := AddRemote(h, id, name, external);
            && AllStorable(t.blinds)
            && ReloadedRemotes(Shutdown(t).disk).Keys <= t.remotes.Keys == h.remotes.Keys + {id}
  {
    hide Inv, AddRemote, Shutdown, SaveRemotes, ListsOk, InternalsInRange, ReloadedRemotes, AllStorable, Bootable,
      Reload, Low, RemoteRecord;
    var t := AddRemote(h, id, name, external);
    AddedRestart(h, id, name, external, 0);
    AddedState(h, id, name, external);
    NoOthersComeBack(Shutdown(t).disk, t.remotes);
  }

  lemma NewComesBack(h: House, id: u32, name: Name, external: bool)
    requires Inv(h) && (external || BASE_REMOTE_ID < id < BASE_REMOTE_ID + 0x1_0000) && id !in h.remotes
    ensures var t := AddRemote(h, id, name, external);
            AllStorable(t.blinds) && NewBack(h, id, name, t.remotes, ReloadedRemotes(Shutdown(t).disk))
  {
    hide Inv, AddRemote, Shutdown, Low, Restarted, ReloadedRemotes, AllStorable, Bootable, Reload, AsNew,
      BASE_REMOTE_ID;
    NewComesBackIff(h, id, name, external);
  }

  lemma AllBackIff(h: House, id: u32, name: Name, remotes: map<u32, Remote>, again: map<u32, Remote>)
    requires EachBack(h, id, name, remotes, again)
    requires id in h.remotes ==> forall a :: a in h.remotes && Low(a) == Low(id) ==> a == id
    ensures again == (map a | a in remotes :: Restarted(remotes[a]))
            <==> (id in h.remotes || 0 < id < NO_REMOTE) && Harmless(h, id, name)
  {
    hide Restarted, AsNew, Low;
    assert again == (map a | a in remotes :: Restarted(remotes[a]))
           <==> forall a :: a in remotes ==> a in again && again[a] == Restarted(remotes[a]);
  }

  /** Nothing is lost by an addition and a clean restart exactly if the new id can be read back and no
      other remote stands in the way. */
  lemma AddedComesBackIff(h: House, id: u32, name: Name, external: bool, now: int)
    requires Inv(h) && (external || BASE_REMOTE_ID < id < BASE_REMOTE_ID + 0x1_0000)
    ensures AllComeBack(AddRemote(h, id, name, external), now)
            <==> (id in h.remotes || 0 < id < NO_REMOTE) && Harmless(h, id, name)
  {
    hide Inv, AddRemote, Shutdown, SaveRemotes, ListsOk, InternalsInRange, ReloadedRemotes, AllStorable, Bootable,
      Reload, Harmless, EachBack, Restarted, Low;
    var t := AddRemote(h, id, name, external);
    AddedRestart(h, id, name, external, now);
    EachComesBack(h, id, name, external);
    if id in h.remotes {
      TwinIsUnique(h, id);
    }
    AllBackIff(h, id, name, t.remotes, ReloadedRemotes(Shutdown(t).disk));
  }

  /** An import, of an id not there yet. */
  lemma ImportComesBackIff(h: House, id: u32, name: Name, now: int)
    requires Inv(h) && id !in h.remotes
    ensures AllComeBack(ImportRemote(h, id, name), now) <==> 0 < id < NO_REMOTE && Harmless(h, id, name)
  {
    hide Inv, AddRemote, AllComeBack, Harmless;
    AddedComesBackIff(h, id, name, true, now);
  }

  /** A remote created here, while there are ids left: an imported one may stand in its way. */
  lemma CreateComesBackIff(h: House, name: Name, now: int)
    requires Inv(h) && h.nextRemote < BASE_REMOTE_ID + 0x1_0000
    ensures AllComeBack(CreateRemote(h, name), now) <==> Harmless(h, h.nextRemote, name)
  {
    hide Inv, AddRemote, AllComeBack, Harmless;
    var bumped := h.(nextRemote := h.nextRemote + 1);
    BumpInv(h);
    AboveBase(h);
    AddedComesBackIff(bumped, h.nextRemote, name, false, now);
    SameHarmless(h, bumped, h.nextRemote, name);
  }

  lemma SameHarmless(h: House, t: House, id: u32, name: Name)
    requires t.remotes == h.remotes
    ensures Harmless(t, id, name) == Harmless(h, id, name)
  {
  }

  lemma AboveBase(h: House)
    requires Inv(h)
    ensures h.nextRemote > BASE_REMOTE_ID
  {
  }

  /** Which is always so when no import has the next id's low half. */
  lemma CanCreateHarmless(h: House, name: Name)
    requires Inv(h) && CanCreate(h)
    ensures Harmless(h, h.nextRemote, name)
  {
    NextIsValid(h);
    hide Inv, Low;
  }

  /** Once the ids have run out, the next remote is lost. */
  lemma IdsRunOut(h: House, name: Name)
    requires h.nextRemote == BASE_REMOTE_ID + 0x1_0000 && h.nextRemote !in h.remotes
    ensures h.nextRemote in CreateRemote(h, name).remotes
    ensures h.nextRemote !in ReloadedRemotes(CreateRemote(h, name).disk)
  {
    var disk := CreateRemote(h, name).disk;
    var ids := InternalIdsOf(disk.remoteIds);
    LoadRemotesGives(disk, map[], ids, false);
    LoadRemotesGives(disk, LoadRemotes(disk, map[], ids, false), disk.externalIds, true);
    InternalIdsMember(disk.remoteIds, h.nextRemote);
  }

  lemma NoOthersComeBack(disk: Disk, remotes: map<u32, Remote>)
    requires ListsOk(disk, remotes) && InternalsInRange(remotes)
    ensures ReloadedRemotes(disk).Keys <= remotes.Keys
  {
    forall a | a in ReloadedRemotes(disk)
      ensures a in remotes
    {
      ListedComesBack(disk, remotes, a);
    }
  }

  // ---------------------------------------------------------------- what comes back instead

  /** An import with another remote's low half takes over its record, so after a loss of power the
      other one is a copy of the import. */
  lemma SharedLowHalf(h: House, id: u32, other: u32, name: Name)
    requires Inv(h) && id in h.remotes && other !in h.remotes && Low(other) == Low(id)
    ensures var disk := ImportRemote(h, other, name).disk;
            && id in ReloadedRemotes(disk)
            && ReloadedRemotes(disk)[id] == Remote(name, 1, [], h.remotes[id].external, false)
  {
    AddedState(h, other, name, true);
    ReadableId(h, id);
    var t := ImportRemote(h, other, name);
    hide Inv, AddRemote, ListsOk, InternalsInRange;
    ListedComesBack(t.disk, t.remotes, id);
  }

  /** A remote imported under the id 0 or 0xFFFFFFFF is saved and listed, but never comes back. */
  lemma UnreadableImport(h: House, id: u32, name: Name)
    requires id == 0 || id == NO_REMOTE
    ensures id !in ReloadedRemotes(ImportRemote(h, id, name).disk)
  {
    var disk := ImportRemote(h, id, name).disk;
    var ids := InternalIdsOf(disk.remoteIds);
    LoadRemotesGives(disk, map[], ids, false);
    LoadRemotesGives(disk, LoadRemotes(disk, map[], ids, false), disk.externalIds, true);
  }
}
