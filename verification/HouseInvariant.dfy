/** What the registry and the flash keep true of each other through every operation. */
module HouseInvariant {
  import opened Basics
  import opened Records
  import opened House
  import M = Motion

  // ---------------------------------------------------------------- the invariant

  /** A remote's id has the right shape, its record is on flash under its own low half, and unless it
      is marked dirty the record holds exactly what is in memory. It lists no blind twice. */
  ghost predicate RemoteOk(records: map<u16, RemoteConfig>, next: u32, id: u32, r: Remote) {
    && (if r.external then 0 < id < NO_REMOTE else BASE_REMOTE_ID < id < next)
    && Low(id) in records
    && records[Low(id)].remoteId == id && |records[Low(id)].blinds| <= MAX_BLINDS
    && NoDuplicates(r.blinds) && NoDuplicates(records[Low(id)].blinds)
    && (!r.dirty ==> records[Low(id)] == RemoteRecord(id, r))
  }

  /** No two remotes share a record. */
  ghost predicate LowDistinct(remotes: map<u32, Remote>) {
    forall a, b :: a in remotes && b in remotes && Low(a) == Low(b) ==> a == b
  }

  ghost predicate RemotesOk(records: map<u16, RemoteConfig>, remotes: map<u32, Remote>, next: u32) {
    && (forall id :: id in remotes ==> RemoteOk(records, next, id, remotes[id]))
    && LowDistinct(remotes)
    && BASE_REMOTE_ID < next <= BASE_REMOTE_ID + 0x1_0000
  }

  predicate IsInternal(remotes: map<u32, Remote>, id: u32) {
    id in remotes && !remotes[id].external
  }

  predicate IsExternal(remotes: map<u32, Remote>, id: u32) {
    id in remotes && remotes[id].external
  }

  /** The stored lists name exactly the remotes there are. */
  ghost predicate ListsOk(disk: Disk, remotes: map<u32, Remote>) {
    && (forall x: u16 :: x in disk.remoteIds <==> IsInternal(remotes, BASE_REMOTE_ID + x))
    && (forall id: u32 :: id in disk.externalIds <==> IsExternal(remotes, id))
  }

  predicate RecordSane(cfg: BlindConfig) {
    && 0 <= cfg.currentPosition <= 100 && 0 <= cfg.myPosition <= 100
    && cfg.openTime > 0 && cfg.closeTime > 0
  }

  /** A blind's primary remote exists and is one of ours, and its record names that remote. */
  ghost predicate BlindOk(records: map<u16, BlindConfig>, remotes: map<u32, Remote>, next: u32, id: u32, b: Blind) {
    && 0 < id < next
    && IsInternal(remotes, b.remoteId)
    && Storable(b)
    && id in records && records[id].remoteId == b.remoteId && RecordSane(records[id])
  }

  ghost predicate PrimariesDistinct(blinds: map<u32, Blind>) {
    forall a, b :: a in blinds && b in blinds && blinds[a].remoteId == blinds[b].remoteId ==> a == b
  }

  ghost predicate BlindsOk(records: map<u16, BlindConfig>, remotes: map<u32, Remote>, blinds: map<u32, Blind>,
                           next: u32) {
    && (forall b :: b in blinds ==> BlindOk(records, remotes, next, b, blinds[b]))
    && PrimariesDistinct(blinds)
    && 0 < next <= 0x1_0000
  }

  /** The stored list names exactly the blinds there are, each once. */
  ghost predicate BlindListOk(blindIds: seq<u16>, blinds: map<u32, Blind>) {
    NoDuplicates(blindIds) && forall x: u32 :: x in blindIds <==> x in blinds
  }

  ghost predicate Inv(h: House) {
    && RemotesOk(h.disk.remotes, h.remotes, h.nextRemote)
    && ListsOk(h.disk, h.remotes)
    && BlindsOk(h.disk.blinds, h.remotes, h.blinds, h.nextBlind)
    && BlindListOk(h.disk.blindIds, h.blinds)
  }

  // ---------------------------------------------------------------- changes in memory only

  ghost predicate RemotesInMemory(before: map<u32, Remote>, after: map<u32, Remote>) {
    && after.Keys == before.Keys
    && forall id :: id in before ==>
         && after[id].external == before[id].external
         && (after[id].dirty || after[id] == before[id])
         && (NoDuplicates(before[id].blinds) ==> NoDuplicates(after[id].blinds))
  }

  ghost predicate BlindsInMemory(before: map<u32, Blind>, after: map<u32, Blind>) {
    && after.Keys == before.Keys
    && forall b :: b in before ==> after[b].remoteId == before[b].remoteId && Storable(after[b])
  }

  /** Only memory changes, every changed remote is marked dirty, and no blind changes hands. */
  ghost predicate InMemory(h: House, t: House) {
    && t.disk == h.disk && t.nextRemote == h.nextRemote && t.nextBlind == h.nextBlind
    && RemotesInMemory(h.remotes, t.remotes)
    && BlindsInMemory(h.blinds, t.blinds)
  }

  lemma InMemoryInv(h: House, t: House)
    requires Inv(h) && InMemory(h, t)
    ensures Inv(t)
  {
    hide Storable, RecordSane, NoDuplicates;
    assert forall id: u32 ::
      IsInternal(t.remotes, id) == IsInternal(h.remotes, id) && IsExternal(t.remotes, id) == IsExternal(h.remotes, id);
    assert forall id :: id in t.remotes ==> RemoteOk(h.disk.remotes, h.nextRemote, id, h.remotes[id]);
    assert forall b :: b in t.blinds ==> BlindOk(h.disk.blinds, h.remotes, h.nextBlind, b, h.blinds[b]);
  }

  lemma InMemoryTrans(h: House, t: House, u: House)
    requires InMemory(h, t) && InMemory(t, u)
    ensures InMemory(h, u)
  {
    hide Storable;
  }

  lemma PressBlindStorable(b: Blind, button: int, longPress: bool, now: int)
    requires Storable(b)
    ensures Storable(PressBlind(b, button, longPress, now))
  {
    M.AlwaysSane(b.motion, button, longPress, 0, now);
  }

  lemma {:induction false} PressBlindsStorable(blinds: map<u32, Blind>, ids: seq<u16>, button: int, longPress: bool,
                                               now: int)
    requires forall b :: b in ids ==> b in blinds
    requires AllStorable(blinds)
    ensures AllStorable(PressBlinds(blinds, ids, button, longPress, now))
    decreases |ids|
  {
    if ids != [] {
      var n := |ids| - 1;
      PressBlindsStorable(blinds, ids[..n], button, longPress, now);
      var before := PressBlinds(blinds, ids[..n], button, longPress, now);
      assert ids[n] in before;
      PressBlindStorable(before[ids[n]], button, longPress, now);
    }
  }

  lemma PressInMemory(h: House, id: u32, buttons: int, repeat: u16, now: int, accepted: bool)
    requires BlindsExist(h, id) && AllStorable(h.blinds)
    ensures InMemory(h, Press(h, id, buttons, repeat, now, accepted))
  {
    if id in h.remotes {
      PressBlindsStorable(h.blinds, h.remotes[id].blinds, buttons, repeat > M.SHORT_PRESS, now);
    }
  }

  lemma HearInMemory(h: House, id: u32, rollingCode: u16, button: int, repeat: u16, now: int)
    requires BlindsExist(h, id) && AllStorable(h.blinds)
    ensures InMemory(h, HearRemote(h, id, rollingCode, button, repeat, now))
  {
    if id in h.remotes {
      PressBlindsStorable(h.blinds, h.remotes[id].blinds, button, repeat > 7, now);
    }
  }

  lemma SetMotionInMemory(h: House, id: u32, m: M.Motion)
    requires id in h.blinds && AllStorable(h.blinds) && M.Sane(m)
    requires m.openTime < 0x8000_0000 && m.closeTime < 0x8000_0000
    ensures InMemory(h, SetMotion(h, id, m))
  {
  }

  // ---------------------------------------------------------------- adding and removing remotes

  predicate LowFree(remotes: map<u32, Remote>, id: u32) {
    forall a :: a in remotes ==> Low(a) != Low(id)
  }

  /** The lists just saved are right, given that internal ids have the right shape. */
  lemma SavedListsOk(h: House)
    requires forall id: u32 :: IsInternal(h.remotes, id) ==> BASE_REMOTE_ID <= id < BASE_REMOTE_ID + 0x1_0000
    ensures ListsOk(SaveRemoteList(h).disk, h.remotes)
  {
    hide Ascending, InternalIds, ExternalIds, Low;
    var ids := Ascending(h.remotes.Keys);
    forall x: u16
      ensures x in InternalIds(h.remotes, ids) <==> IsInternal(h.remotes, BASE_REMOTE_ID + x)
    {
      InternalMember(h.remotes, ids, x);
    }
  }

  lemma InternalMember(remotes: map<u32, Remote>, ids: seq<u32>, x: u16)
    requires forall id :: id in ids <==> id in remotes
    requires forall id: u32 :: IsInternal(remotes, id) ==> BASE_REMOTE_ID <= id < BASE_REMOTE_ID + 0x1_0000
    ensures x in InternalIds(remotes, ids) <==> IsInternal(remotes, BASE_REMOTE_ID + x)
  {
    hide InternalIds;
    var id: u32 := BASE_REMOTE_ID + x;
    assert Low(id) == x;
    if x in InternalIds(remotes, ids) {
      var a :| a in ids && !remotes[a].external && Low(a) == x;
      assert IsInternal(remotes, a);
      assert a == id;
    }
  }

  lemma RemotesOkAdd(records: map<u16, RemoteConfig>, remotes: map<u32, Remote>, next: u32, id: u32, r: Remote)
    requires RemotesOk(records, remotes, next) && LowFree(remotes, id)
    requires if r.external then 0 < id < NO_REMOTE else BASE_REMOTE_ID < id < next
    requires NoDuplicates(r.blinds)
    ensures RemotesOk(records[Low(id) := RemoteRecord(id, r)], remotes[id := r], next)
  {
  }

  lemma RemotesOkRemove(records: map<u16, RemoteConfig>, remotes: map<u32, Remote>, next: u32, id: u32)
    requires RemotesOk(records, remotes, next) && id in remotes
    ensures RemotesOk(records - {Low(id)}, remotes - {id}, next)
  {
  }

  lemma InternalShape(records: map<u16, RemoteConfig>, remotes: map<u32, Remote>, next: u32)
    requires RemotesOk(records, remotes, next)
    ensures forall id: u32 :: IsInternal(remotes, id) ==> BASE_REMOTE_ID < id < next <= BASE_REMOTE_ID + 0x1_0000
  {
  }

  lemma BlindsOkGrow(records: map<u16, BlindConfig>, remotes: map<u32, Remote>, more: map<u32, Remote>,
                      blinds: map<u32, Blind>, next: u32)
    requires BlindsOk(records, remotes, blinds, next)
    requires forall b :: b in blinds ==> IsInternal(more, blinds[b].remoteId)
    ensures BlindsOk(records, more, blinds, next)
  {
    hide Storable, RecordSane;
    assert forall b :: b in blinds ==> BlindOk(records, remotes, next, b, blinds[b]);
  }

  /** What adding and deleting a remote touch. */
  lemma AddRemoteEffect(h: House, id: u32, name: Name, external: bool)
    requires id !in h.remotes
    ensures var t, r := AddRemote(h, id, name, external), Remote(name, 1, [], external, false);
            && t.remotes == h.remotes[id := r] && t.disk.remotes == h.disk.remotes[Low(id) := RemoteRecord(id, r)]
            && t.blinds == h.blinds && t.disk.blinds == h.disk.blinds && t.disk.blindIds == h.disk.blindIds
            && t.nextRemote == h.nextRemote && t.nextBlind == h.nextBlind && t.issued == h.issued
            && t == SaveRemoteList(t)
  {
  }

  lemma DeleteRemoteEffect(h: House, id: u32)
    ensures var t := DeleteRemote(h, id);
            && t.remotes == h.remotes - {id} && t.disk.remotes == h.disk.remotes - {Low(id)}
            && t.blinds == h.blinds && t.disk.blinds == h.disk.blinds && t.disk.blindIds == h.disk.blindIds
            && t.nextRemote == h.nextRemote && t.nextBlind == h.nextBlind && t.issued == h.issued
            && t == SaveRemoteList(t)
  {
  }

  /** A house whose lists have just been saved satisfies the invariant if its tables do. */
  lemma SavedInv(h: House)
    requires h == SaveRemoteList(h)
    requires RemotesOk(h.disk.remotes, h.remotes, h.nextRemote)
    requires BlindsOk(h.disk.blinds, h.remotes, h.blinds, h.nextBlind)
    requires BlindListOk(h.disk.blindIds, h.blinds)
    ensures Inv(h)
  {
    InternalShape(h.disk.remotes, h.remotes, h.nextRemote);
    hide RemotesOk, BlindsOk, ListsOk, BlindListOk, SaveRemoteList;
    SavedListsOk(h);
  }

  lemma AddRemoteInv(h: House, id: u32, name: Name, external: bool)
    requires Inv(h) && LowFree(h.remotes, id)
    requires if external then 0 < id < NO_REMOTE else BASE_REMOTE_ID < id < h.nextRemote
    ensures Inv(AddRemote(h, id, name, external))
  {
    assert id !in h.remotes;
    assert forall b :: b in h.blinds ==> BlindOk(h.disk.blinds, h.remotes, h.nextBlind, b, h.blinds[b]);
    var r := Remote(name, 1, [], external, false);
    hide RemotesOk, BlindsOk, ListsOk, BlindListOk, SaveRemoteList, AddRemote, Storable, RecordSane;
    RemotesOkAdd(h.disk.remotes, h.remotes, h.nextRemote, id, r);
    BlindsOkGrow(h.disk.blinds, h.remotes, h.remotes[id := r], h.blinds, h.nextBlind);
    AddRemoteEffect(h, id, name, external);
    SavedInv(AddRemote(h, id, name, external));
  }

  lemma DeleteRemoteInv(h: House, id: u32)
    requires Inv(h) && id in h.remotes && !IsAPrimaryRemote(h, id)
    ensures Inv(DeleteRemote(h, id))
  {
    assert forall b :: b in h.blinds ==> BlindOk(h.disk.blinds, h.remotes, h.nextBlind, b, h.blinds[b]);
    hide RemotesOk, BlindsOk, ListsOk, BlindListOk, SaveRemoteList, DeleteRemote, Storable, RecordSane;
    RemotesOkRemove(h.disk.remotes, h.remotes, h.nextRemote, id);
    BlindsOkGrow(h.disk.blinds, h.remotes, h.remotes - {id}, h.blinds, h.nextBlind);
    DeleteRemoteEffect(h, id);
    SavedInv(DeleteRemote(h, id));
  }

  /** Giving out the next id. */
  lemma BumpInv(h: House)
    requires Inv(h) && h.nextRemote < BASE_REMOTE_ID + 0x1_0000
    ensures Inv(h.(nextRemote := h.nextRemote + 1))
  {
  }

  /** There are ids left, and no imported remote happens to have the low half of the next one. */
  predicate CanCreate(h: House) {
    && h.nextRemote < BASE_REMOTE_ID + 0x1_0000
    && forall id :: id in h.remotes && h.remotes[id].external ==> Low(id) != Low(h.nextRemote)
  }

  lemma IdsLeft(h: House)
    requires CanCreate(h)
    ensures h.nextRemote < BASE_REMOTE_ID + 0x1_0000
  {
  }

  lemma CreateRemoteInv(h: House, name: Name)
    requires Inv(h) && CanCreate(h)
    ensures Inv(CreateRemote(h, name))
  {
    hide RemotesOk, BlindsOk, ListsOk, BlindListOk, AddRemote;
    BumpInv(h);
    NextIsValid(h);
    AddRemoteInv(h.(nextRemote := h.nextRemote + 1), h.nextRemote, name, false);
  }

  /** The next ids are new: among the remotes created here and the blinds always, among all remotes as
      long as no import is in the way. */
  lemma NextIsValid(h: House)
    requires Inv(h)
    ensures BASE_REMOTE_ID < h.nextRemote && !IsInternal(h.remotes, h.nextRemote)
    ensures 0 < h.nextBlind && h.nextBlind !in h.blinds
    ensures h.nextRemote < BASE_REMOTE_ID + 0x1_0000 ==> (LowFree(h.remotes, h.nextRemote) <==> CanCreate(h))
    ensures CanCreate(h) ==> h.nextRemote !in h.remotes
  {
    hide ListsOk, BlindListOk, RemoteRecord, LowDistinct;
    BlindIdsSmall(h.disk.blinds, h.remotes, h.blinds, h.nextBlind);
    forall id | id in h.remotes && !h.remotes[id].external
      ensures Low(id) != Low(h.nextRemote) || h.nextRemote == BASE_REMOTE_ID + 0x1_0000
      ensures BASE_REMOTE_ID < id < h.nextRemote
    {
      assert RemoteOk(h.disk.remotes, h.nextRemote, id, h.remotes[id]);
    }
  }

  // ---------------------------------------------------------------- adding and removing blinds

  lemma RemotesOkDirty(records: map<u16, RemoteConfig>, remotes: map<u32, Remote>, next: u32, id: u32, r: Remote)
    requires RemotesOk(records, remotes, next) && id in remotes && r.external == remotes[id].external && r.dirty
    requires NoDuplicates(r.blinds)
    ensures RemotesOk(records, remotes[id := r], next)
  {
  }

  lemma BlindsOkAdd(records: map<u16, BlindConfig>, remotes: map<u32, Remote>, blinds: map<u32, Blind>, next: u32,
                    b: Blind)
    requires BlindsOk(records, remotes, blinds, next) && next < 0x1_0000
    requires IsInternal(remotes, b.remoteId) && Storable(b)
    requires forall c :: c in blinds ==> blinds[c].remoteId != b.remoteId
    ensures BlindsOk(records[next := BlindRecord(b)], remotes, blinds[next := b], next + 1)
  {
  }

  lemma {:induction false} LowIdsAt(ids: seq<u32>, i: nat)
    requires i < |ids| && forall id :: id in ids ==> id < 0x1_0000
    ensures LowIds(ids)[i] == ids[i]
  {
    var n := |ids| - 1;
    assert ids[n] in ids;
    if i < n {
      assert forall id :: id in ids[..n] ==> id in ids;
      LowIdsAt(ids[..n], i);
    }
  }

  lemma LowIdsDistinct(ids: seq<u32>)
    requires forall i, j :: 0 <= i < j < |ids| ==> ids[i] < ids[j]
    requires forall id :: id in ids ==> id < 0x1_0000
    ensures NoDuplicates(LowIds(ids))
  {
    hide LowIds;
    forall i, j | 0 <= i < j < |ids|
      ensures LowIds(ids)[i] != LowIds(ids)[j]
    {
      LowIdsAt(ids, i);
      LowIdsAt(ids, j);
    }
  }

  lemma LowIdsMembers(ids: seq<u32>, x: u32)
    requires forall id :: id in ids ==> id < 0x1_0000
    ensures x in LowIds(ids) <==> x in ids
  {
  }

  lemma SavedBlindList(h: House)
    requires forall id :: id in h.blinds ==> id < 0x1_0000
    ensures BlindListOk(SaveBlindList(h).disk.blindIds, h.blinds)
    ensures SaveBlindList(h) == h.(disk := h.disk.(blindIds := SaveBlindList(h).disk.blindIds))
  {
    hide Ascending, LowIds, NoDuplicates;
    var ids := Ascending(h.blinds.Keys);
    LowIdsDistinct(ids);
    forall x: u32
      ensures x in LowIds(ids) <==> x in h.blinds
    {
      LowIdsMembers(ids, x);
    }
  }

  lemma BlindIdsSmall(records: map<u16, BlindConfig>, remotes: map<u32, Remote>, blinds: map<u32, Blind>, next: u32)
    requires BlindsOk(records, remotes, blinds, next)
    ensures forall id :: id in blinds ==> id < next <= 0x1_0000
    ensures AllStorable(blinds)
    ensures forall b :: b in blinds ==> IsInternal(remotes, blinds[b].remoteId)
  {
    assert forall b :: b in blinds ==> BlindOk(records, remotes, next, b, blinds[b]);
  }

  lemma AttachEffect(h: House, b: Blind)
    requires b.remoteId in h.remotes && h.nextBlind !in h.blinds
    requires h.nextBlind < 0x1_0000 && Storable(b)
    ensures var t := AttachBlind(h, b);
            && t.remotes == h.remotes[b.remoteId := Associated(h.remotes[b.remoteId], h.nextBlind)]
            && t.blinds == h.blinds[h.nextBlind := b]
            && t.nextRemote == h.nextRemote && t.nextBlind == h.nextBlind + 1 && t.issued == h.issued
            && t.disk.remotes == h.disk.remotes && t.disk.blinds == h.disk.blinds[h.nextBlind := BlindRecord(b)]
            && t.disk.remoteIds == h.disk.remoteIds && t.disk.externalIds == h.disk.externalIds
            && t.disk.blindIds == SaveBlindList(t).disk.blindIds
  {
    hide BlindRecord, LowIds, Ascending, Associated, Storable;
  }

  /** The new primary remote as it ends up: bound to its blind, and dirty. */
  lemma AttachTables(h: House, b: Blind)
    requires Inv(h) && IsInternal(h.remotes, b.remoteId) && h.nextBlind < 0x1_0000 && Storable(b)
    requires forall c :: c in h.blinds ==> h.blinds[c].remoteId != b.remoteId
    ensures var remotes := h.remotes[b.remoteId := Associated(h.remotes[b.remoteId], h.nextBlind)];
            && RemotesOk(h.disk.remotes, remotes, h.nextRemote)
            && ListsOk(h.disk, remotes)
            && BlindsOk(h.disk.blinds[h.nextBlind := BlindRecord(b)], remotes, h.blinds[h.nextBlind := b],
                        h.nextBlind + 1)
  {
    hide Storable, RecordSane, BlindRecord;
    var r := Associated(h.remotes[b.remoteId], h.nextBlind);
    assert RemoteOk(h.disk.remotes, h.nextRemote, b.remoteId, h.remotes[b.remoteId]);
    var remotes := h.remotes[b.remoteId := r];
    BlindIdsSmall(h.disk.blinds, h.remotes, h.blinds, h.nextBlind);
    RemotesOkDirty(h.disk.remotes, h.remotes, h.nextRemote, b.remoteId, r);
    ListsOkSame(h.disk, h.remotes, remotes);
    hide RemotesOk, BlindsOk, ListsOk, BlindListOk;
    BlindsOkGrow(h.disk.blinds, h.remotes, remotes, h.blinds, h.nextBlind);
    BlindsOkAdd(h.disk.blinds, remotes, h.blinds, h.nextBlind, b);
  }

  lemma ListsOkSame(disk: Disk, remotes: map<u32, Remote>, changed: map<u32, Remote>)
    requires ListsOk(disk, remotes) && changed.Keys == remotes.Keys
    requires forall id :: id in remotes ==> changed[id].external == remotes[id].external
    ensures ListsOk(disk, changed)
  {
    assert forall id: u32 ::
      IsInternal(changed, id) == IsInternal(remotes, id) && IsExternal(changed, id) == IsExternal(remotes, id);
  }

  lemma AttachInv(h: House, b: Blind)
    requires Inv(h) && IsInternal(h.remotes, b.remoteId) && h.nextBlind < 0x1_0000 && Storable(b)
    requires h.nextBlind !in h.blinds && forall c :: c in h.blinds ==> h.blinds[c].remoteId != b.remoteId
    ensures Inv(AttachBlind(h, b))
  {
    hide RemotesOk, BlindsOk, ListsOk, BlindListOk, AttachBlind, SaveBlindList, BlindRecord, Associated, Storable;
    var t := AttachBlind(h, b);
    AttachEffect(h, b);
    AttachTables(h, b);
    BlindIdsSmall(t.disk.blinds, t.remotes, t.blinds, t.nextBlind);
    SavedBlindList(t);
    ListsOkDisk(h.disk, t.disk, t.remotes);
  }

  lemma ListsOkDisk(disk: Disk, other: Disk, remotes: map<u32, Remote>)
    requires ListsOk(disk, remotes) && other.remoteIds == disk.remoteIds && other.externalIds == disk.externalIds
    ensures ListsOk(other, remotes)
  {
  }

  lemma CreateRemoteEffect(h: House, name: Name)
    requires h.nextRemote !in h.remotes && h.nextRemote < 0xFFFF_FFFF
    ensures var t := CreateRemote(h, name);
            && t.remotes == h.remotes[h.nextRemote := Remote(name, 1, [], false, false)]
            && t.nextRemote == h.nextRemote + 1
            && t.blinds == h.blinds && t.nextBlind == h.nextBlind && t.issued == h.issued
            && t.disk.blinds == h.disk.blinds && t.disk.blindIds == h.disk.blindIds
            && t.disk.remotes ==
               h.disk.remotes[Low(h.nextRemote) := RemoteRecord(h.nextRemote, Remote(name, 1, [], false, false))]
  {
    hide AddRemote;
    AddRemoteEffect(h.(nextRemote := h.nextRemote + 1), h.nextRemote, name, false);
  }

  lemma AddBlindInv(h: House, name: Name, openTime: int, closeTime: int, now: int)
    requires Inv(h) && CanCreate(h)
    requires h.nextBlind < 0x1_0000 && 0 < openTime < 0x8000_0000 && 0 < closeTime < 0x8000_0000
    ensures Inv(AddBlind(h, name, openTime, closeTime, now))
  {
    hide RemotesOk, BlindsOk, ListsOk, BlindListOk, AttachBlind, CreateRemote;
    NextIsValid(h);
    BlindIdsSmall(h.disk.blinds, h.remotes, h.blinds, h.nextBlind);
    CreateRemoteInv(h, name);
    CreateRemoteEffect(h, name);
    AttachInv(CreateRemote(h, name), NewBlind(name, h.nextRemote, openTime, closeTime, now));
  }

  lemma DeleteBlindEffect(h: House, id: u32)
    requires id in h.blinds
    ensures var t, remoteId := DeleteBlind(h, id), h.blinds[id].remoteId;
            && t.remotes == h.remotes - {remoteId} && t.blinds == h.blinds - {id}
            && t.nextRemote == h.nextRemote && t.nextBlind == h.nextBlind && t.issued == h.issued
            && t.disk.remotes == h.disk.remotes - {Low(remoteId)} && t.disk.blinds == h.disk.blinds - {Low(id)}
            && t.disk.remoteIds == SaveRemoteList(t).disk.remoteIds
            && t.disk.externalIds == SaveRemoteList(t).disk.externalIds
            && t.disk.blindIds == SaveBlindList(t).disk.blindIds
  {
    hide LowIds, Ascending, Low, InternalIds, ExternalIds;
  }

  lemma BlindsOkRemove(records: map<u16, BlindConfig>, remotes: map<u32, Remote>, blinds: map<u32, Blind>, next: u32,
                       id: u32)
    requires BlindsOk(records, remotes, blinds, next) && id in blinds
    ensures BlindsOk(records - {Low(id)}, remotes - {blinds[id].remoteId}, blinds - {id}, next)
  {
  }

  /** Deleting a blind takes its primary remote with it, which is no other blind's. */
  lemma DeleteBlindInv(h: House, id: u32)
    requires Inv(h) && id in h.blinds
    ensures Inv(DeleteBlind(h, id))
  {
    var t, remoteId := DeleteBlind(h, id), h.blinds[id].remoteId;
    BlindIdsSmall(h.disk.blinds, h.remotes, h.blinds, h.nextBlind);
    hide RemotesOk, BlindsOk, ListsOk, BlindListOk, DeleteBlind, SaveRemoteList, SaveBlindList, AllStorable;
    DeleteBlindEffect(h, id);
    RemotesOkRemove(h.disk.remotes, h.remotes, h.nextRemote, remoteId);
    BlindsOkRemove(h.disk.blinds, h.remotes, h.blinds, h.nextBlind, id);
    InternalShape(t.disk.remotes, t.remotes, t.nextRemote);
    SavedListsOk(t);
    ListsOkDisk(SaveRemoteList(t).disk, t.disk, t.remotes);
    SavedBlindList(t);
  }

  // ---------------------------------------------------------------- saving

  /** Saving a remote changes its record and its flag, and nothing else. */
  lemma SaveRemoteInv(h: House, id: u32)
    requires Inv(h) && id in h.remotes
    ensures Inv(SaveRemote(h, id, false))
  {
    var t, r := SaveRemote(h, id, false), h.remotes[id].(dirty := false);
    if h.remotes[id].dirty {
      BlindIdsSmall(h.disk.blinds, h.remotes, h.blinds, h.nextBlind);
      RemotesOkSave(h.disk.remotes, h.remotes, h.nextRemote, id);
      ListsOkSame(h.disk, h.remotes, t.remotes);
      ListsOkDisk(h.disk, t.disk, t.remotes);
      hide RemotesOk, BlindsOk, ListsOk, BlindListOk, RemoteRecord;
      BlindsOkGrow(h.disk.blinds, h.remotes, t.remotes, h.blinds, h.nextBlind);
    }
  }

  lemma RemotesOkSave(records: map<u16, RemoteConfig>, remotes: map<u32, Remote>, next: u32, id: u32)
    requires RemotesOk(records, remotes, next) && id in remotes
    ensures var r := remotes[id].(dirty := false);
            RemotesOk(records[Low(id) := RemoteRecord(id, remotes[id])], remotes[id := r], next)
  {
  }

  lemma {:induction false} SaveRemotesInv(h: House, ids: seq<u32>)
    requires Inv(h) && forall id :: id in ids ==> id in h.remotes
    ensures Inv(SaveRemotes(h, ids))
    decreases |ids|
  {
    hide Inv, SaveRemote;
    if ids != [] {
      SaveRemotesInv(h, ids[..|ids| - 1]);
      SaveRemoteInv(SaveRemotes(h, ids[..|ids| - 1]), ids[|ids| - 1]);
    }
  }

  lemma SaveBlindInv(h: House, id: u32, force: bool)
    requires Inv(h) && id in h.blinds && AllStorable(h.blinds)
    ensures Inv(SaveBlind(h, id, force))
  {
    hide RemotesOk, ListsOk, BlindsOk, BlindListOk, AllStorable, Storable, BlindRecord, SaveBlind;
    BlindIdsSmall(h.disk.blinds, h.remotes, h.blinds, h.nextBlind);
    StoredAt(h.blinds, id);
    SaveBlindShape(h, id, force);
    var t := SaveBlind(h, id, force);
    if t != h {
      BlindsOkSave(h.disk.blinds, h.remotes, h.blinds, h.nextBlind, id);
      ListsOkDisk(h.disk, t.disk, t.remotes);
      BlindListKeys(h.disk.blindIds, h.blinds, t.blinds);
    }
  }

  lemma StoredAt(blinds: map<u32, Blind>, id: u32)
    requires AllStorable(blinds) && id in blinds
    ensures Storable(blinds[id])
  {
  }

  lemma SaveBlindShape(h: House, id: u32, force: bool)
    requires AllStorable(h.blinds) && id in h.blinds && id < 0x1_0000
    ensures SaveBlind(h, id, force) == h ||
            SaveBlind(h, id, force) ==
            h.(disk := h.disk.(blinds := h.disk.blinds[id := BlindRecord(h.blinds[id])]),
               blinds := h.blinds[id := h.blinds[id].(dirty := false)])
  {
    hide BlindRecord, Storable;
    assert Low(id) == id;
  }

  lemma BlindListKeys(blindIds: seq<u16>, blinds: map<u32, Blind>, other: map<u32, Blind>)
    requires BlindListOk(blindIds, blinds) && other.Keys == blinds.Keys
    ensures BlindListOk(blindIds, other)
  {
  }

  lemma BlindsOkSave(records: map<u16, BlindConfig>, remotes: map<u32, Remote>, blinds: map<u32, Blind>, next: u32,
                     id: u32)
    requires BlindsOk(records, remotes, blinds, next) && id in blinds && id < 0x1_0000 && Storable(blinds[id])
    ensures BlindsOk(records[id := BlindRecord(blinds[id])], remotes, blinds[id := blinds[id].(dirty := false)], next)
  {
  }

  lemma {:induction false} SaveBlindsInv(h: House, ids: seq<u32>, force: bool)
    requires Inv(h) && AllStorable(h.blinds) && forall b :: b in ids ==> b in h.blinds
    ensures Inv(SaveBlinds(h, ids, force))
    decreases |ids|
  {
    hide Inv, SaveBlind, AllStorable;
    if ids != [] {
      SaveBlindsInv(h, ids[..|ids| - 1], force);
      SaveBlindInv(SaveBlinds(h, ids[..|ids| - 1], force), ids[|ids| - 1], force);
    }
  }

  // ---------------------------------------------------------------- what saving leaves alone

  ghost predicate SameLists(a: Disk, b: Disk) {
    a.remoteIds == b.remoteIds && a.externalIds == b.externalIds && a.blindIds == b.blindIds
  }

  lemma {:induction false} SaveRemotesKeeps(h: House, ids: seq<u32>)
    requires forall id :: id in ids ==> id in h.remotes
    ensures var t := SaveRemotes(h, ids);
            && t.blinds == h.blinds && t.disk.blinds == h.disk.blinds && SameLists(h.disk, t.disk)
            && t.issued == h.issued && t.nextRemote == h.nextRemote && t.nextBlind == h.nextBlind
    decreases |ids|
  {
    hide RemoteRecord;
    if ids != [] {
      SaveRemotesKeeps(h, ids[..|ids| - 1]);
    }
  }

  lemma {:induction false} SaveBlindsKeeps(h: House, ids: seq<u32>, force: bool)
    requires AllStorable(h.blinds) && forall b :: b in ids ==> b in h.blinds
    ensures var t := SaveBlinds(h, ids, force);
            && t.remotes == h.remotes && t.disk.remotes == h.disk.remotes && SameLists(h.disk, t.disk)
            && t.issued == h.issued && t.nextRemote == h.nextRemote && t.nextBlind == h.nextBlind
    decreases |ids|
  {
    hide BlindRecord, AllStorable;
    if ids != [] {
      SaveBlindsKeeps(h, ids[..|ids| - 1], force);
    }
  }

  lemma NoSuchBlind(h: House, b: u32)
    requires b !in h.blinds
    ensures DeleteBlind(h, b) == h
  {
  }
}
