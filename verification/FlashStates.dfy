/** What a loss of power at any moment leaves: a property of the flash alone that no write breaks, and the
    invariant of the registry that comes up from it. Lists may then name remotes that have no record. */
module FlashStates {
  import opened Basics
  import opened Records
  import opened House
  import opened HouseInvariant
  import opened HouseRestart
  import W = DiskWrites

  // ---------------------------------------------------------------- the flash

  predicate InternalListed(d: Disk, id: u32) {
    BASE_REMOTE_ID <= id < BASE_REMOTE_ID + 0x1_0000 && id - BASE_REMOTE_ID in d.remoteIds
  }

  predicate Listed(d: Disk, id: u32) {
    InternalListed(d, id) || id in d.externalIds
  }

  ghost predicate RecordFits(cfg: RemoteConfig, id: u32) {
    cfg.remoteId == id && |cfg.blinds| <= MAX_BLINDS && NoDuplicates(cfg.blinds)
  }

  /** The records of listed remotes are their own, and no id is on both lists. */
  ghost predicate RemotesFlash(d: Disk) {
    && (forall id: u32 :: Listed(d, id) && Low(id) in d.remotes ==> RecordFits(d.remotes[Low(id)], id))
    && (forall id: u32 :: InternalListed(d, id) ==> BASE_REMOTE_ID < id && id !in d.externalIds)
    && (forall id: u32 :: id in d.externalIds ==> 0 < id < NO_REMOTE)
  }

  /** The records of listed blinds are sane, and name internal remotes, each its own. */
  ghost predicate BlindsFlash(d: Disk) {
    && NoDuplicates(d.blindIds)
    && (forall b: u16 :: b in d.blindIds && b in d.blinds ==>
          0 < b && RecordSane(d.blinds[b]) && d.blinds[b].remoteId !in d.externalIds)
    && (forall a: u16, b: u16 :: a in d.blindIds && b in d.blindIds && SamePrimary(d, a, b) ==> a == b)
  }

  predicate SamePrimary(d: Disk, a: u16, b: u16) {
    a in d.blinds && b in d.blinds && d.blinds[a].remoteId == d.blinds[b].remoteId
  }

  ghost predicate FlashOk(d: Disk) {
    RemotesFlash(d) && BlindsFlash(d)
  }

  /** Whatever record or list is missing, the rest is as good as before. */
  lemma MissingKeeps(d: Disk, w: W.Write)
    requires FlashOk(d)
    ensures FlashOk(W.Missing(d, w))
  {
    hide RecordFits, RecordSane, Low;
    LessIsOk(d, W.Missing(d, w));
  }

  /** This flash has no list entry and no record that the other does not have. */
  ghost predicate LessFlash(d: Disk, t: Disk) {
    && (t.remoteIds == d.remoteIds || t.remoteIds == []) && (t.externalIds == d.externalIds || t.externalIds == [])
    && (t.blindIds == d.blindIds || t.blindIds == [])
    && (forall x :: x in t.remotes ==> x in d.remotes && t.remotes[x] == d.remotes[x])
    && (forall b :: b in t.blinds ==> b in d.blinds && t.blinds[b] == d.blinds[b])
  }

  lemma LessIsOk(d: Disk, t: Disk)
    requires FlashOk(d) && LessFlash(d, t)
    ensures FlashOk(t)
  {
    hide RecordFits, RecordSane, Low;
    forall id: u32
      ensures InternalListed(t, id) ==> InternalListed(d, id)
      ensures id in t.externalIds ==> id in d.externalIds
      ensures Listed(t, id) ==> Listed(d, id)
    {
    }
    assert RemotesFlash(t);
    forall a: u16, b: u16 | a in t.blindIds && b in t.blindIds && SamePrimary(t, a, b)
      ensures a == b
    {
      assert SamePrimary(d, a, b);
    }
  }

  /** Every listed remote has a record. */
  ghost predicate NoneMissing(d: Disk) {
    forall id: u32 :: Listed(d, id) ==> Low(id) in d.remotes
  }

  // ---------------------------------------------------------------- the invariant, with gaps in the lists

  /** The lists name every remote there is, each on the list of its kind; what else they name has no record. */
  ghost predicate ListsCover(disk: Disk, remotes: map<u32, Remote>, next: u32) {
    && (forall id :: id in remotes ==>
          if remotes[id].external then id in disk.externalIds && !InternalListed(disk, id)
          else InternalListed(disk, id) && id !in disk.externalIds)
    && (forall id: u32 :: Listed(disk, id) && id !in remotes ==> Low(id) !in disk.remotes)
    && (forall id: u32 :: InternalListed(disk, id) ==> BASE_REMOTE_ID < id < next && id !in disk.externalIds)
    && (forall id: u32 :: id in disk.externalIds ==> 0 < id < NO_REMOTE)
  }

  ghost predicate WeakInv(h: House) {
    && RemotesOk(h.disk.remotes, h.remotes, h.nextRemote)
    && ListsCover(h.disk, h.remotes, h.nextRemote)
    && BlindsOk(h.disk.blinds, h.remotes, h.blinds, h.nextBlind)
    && BlindListOk(h.disk.blindIds, h.blinds)
  }

  /** It is the invariant but for the remotes that are listed and not there. */
  lemma InvIff(h: House)
    requires WeakInv(h)
    ensures Inv(h) <==> forall id: u32 :: Listed(h.disk, id) ==> id in h.remotes
  {
    hide RemotesOk, BlindsOk, BlindListOk;
    if Inv(h) {
      forall id: u32 | Listed(h.disk, id)
        ensures id in h.remotes
      {
        if InternalListed(h.disk, id) {
          var x: u16 := id - BASE_REMOTE_ID;
          assert x in h.disk.remoteIds && BASE_REMOTE_ID + x == id;
        } else {
          assert IsExternal(h.remotes, id);
        }
      }
    }
    if forall id: u32 :: Listed(h.disk, id) ==> id in h.remotes {
      forall x: u16
        ensures x in h.disk.remoteIds <==> IsInternal(h.remotes, BASE_REMOTE_ID + x)
      {
        assert InternalListed(h.disk, BASE_REMOTE_ID + x) <==> x in h.disk.remoteIds;
      }
    }
  }

  lemma InvIsWeak(h: House)
    requires Inv(h)
    ensures WeakInv(h)
  {
    InternalShape(h.disk.remotes, h.remotes, h.nextRemote);
    forall id | id in h.remotes
      ensures h.remotes[id].external ==> 0 < id < NO_REMOTE
    {
      assert RemoteOk(h.disk.remotes, h.nextRemote, id, h.remotes[id]);
    }
    hide RemotesOk, BlindsOk, BlindListOk;
    forall id: u32
      ensures InternalListed(h.disk, id) <==> IsInternal(h.remotes, id)
      ensures id in h.disk.externalIds <==> IsExternal(h.remotes, id)
    {
    }
  }

  /** The flash under it is as it should be, and the device can start. */
  lemma WeakIsFlashOk(h: House)
    requires WeakInv(h)
    ensures FlashOk(h.disk) && Bootable(h.disk)
  {
    WeakRemotesFlash(h);
    BlindListBootable(h.disk, h.remotes, h.blinds, h.nextBlind);
    WeakBlindsFlash(h);
  }

  lemma WeakRemotesFlash(h: House)
    requires WeakInv(h)
    ensures RemotesFlash(h.disk)
  {
    forall id: u32 | Listed(h.disk, id) && Low(id) in h.disk.remotes
      ensures RecordFits(h.disk.remotes[Low(id)], id)
    {
      assert RemoteOk(h.disk.remotes, h.nextRemote, id, h.remotes[id]);
    }
  }

  lemma WeakBlindsFlash(h: House)
    requires WeakInv(h)
    ensures BlindsFlash(h.disk)
  {
    hide RemotesOk, RecordSane;
    forall b: u16 | b in h.disk.blindIds
      ensures b in h.disk.blinds && 0 < b && RecordSane(h.disk.blinds[b])
              && h.disk.blinds[b].remoteId !in h.disk.externalIds
      ensures b in h.blinds && h.disk.blinds[b].remoteId == h.blinds[b].remoteId
    {
      assert BlindOk(h.disk.blinds, h.remotes, h.nextBlind, b, h.blinds[b]);
    }
  }

  // ---------------------------------------------------------------- starting from it

  /** The remotes that come up: those listed that have a record. */
  lemma LoadedIff(d: Disk, id: u32)
    requires RemotesFlash(d)
    ensures id in ReloadedRemotes(d) <==> Listed(d, id) && Low(id) in d.remotes
    ensures id in ReloadedRemotes(d) ==>
              ReloadedRemotes(d)[id] == LoadedRemote(d.remotes[Low(id)], !InternalListed(d, id))
  {
    hide RecordFits, LoadedRemote;
    var ids := InternalIdsOf(d.remoteIds);
    LoadRemotesGives(d, map[], ids, false);
    LoadRemotesGives(d, LoadRemotes(d, map[], ids, false), d.externalIds, true);
    InternalIdsMember(d.remoteIds, id);
  }

  lemma NextAfterListed(d: Disk)
    requires RemotesFlash(d)
    ensures var n := NextId(BASE_REMOTE_ID + 1, InternalIdsOf(d.remoteIds));
            && BASE_REMOTE_ID < n <= BASE_REMOTE_ID + 0x1_0000
            && forall id: u32 :: InternalListed(d, id) ==> id < n
  {
    var ids := InternalIdsOf(d.remoteIds);
    NextIdBound(BASE_REMOTE_ID + 1, ids, BASE_REMOTE_ID + 0x1_0000);
    forall id: u32 | InternalListed(d, id)
      ensures id in ids
    {
      InternalIdsMember(d.remoteIds, id);
    }
  }

  /** Two remotes that come up never share a record: it is the one's or the other's. */
  lemma LoadedRemotesOk(d: Disk, next: u32)
    requires RemotesFlash(d) && BASE_REMOTE_ID < next <= BASE_REMOTE_ID + 0x1_0000
    requires forall id: u32 :: InternalListed(d, id) ==> id < next
    ensures RemotesOk(d.remotes, ReloadedRemotes(d), next)
  {
    hide ReloadedRemotes;
    var r := ReloadedRemotes(d);
    forall id | id in r
      ensures RemoteOk(d.remotes, next, id, r[id])
      ensures d.remotes[Low(id)].remoteId == id
    {
      LoadedIff(d, id);
    }
  }

  lemma LoadedListsCover(d: Disk, next: u32)
    requires RemotesFlash(d) && forall id: u32 :: InternalListed(d, id) ==> id < next
    ensures ListsCover(d, ReloadedRemotes(d), next)
  {
    hide ReloadedRemotes, Low, RecordFits;
    var r := ReloadedRemotes(d);
    forall id: u32
      ensures id in r <==> Listed(d, id) && Low(id) in d.remotes
      ensures id in r ==> r[id].external == !InternalListed(d, id)
    {
      LoadedIff(d, id);
    }
  }

  /** The blinds that come up, and the flash once those without a remote are cleared away. */
  lemma ReloadedBlinds(d: Disk, now: int, issued: seq<Issue>)
    requires FlashOk(d) && Bootable(d)
    ensures var u := Reload(d, now, issued);
            && u.remotes == ReloadedRemotes(d) && u.issued == issued
            && u.disk.remotes == d.remotes && u.disk.remoteIds == d.remoteIds && u.disk.externalIds == d.externalIds
            && (forall b: u32 :: b in u.blinds <==> b in d.blindIds && d.blinds[b].remoteId in u.remotes)
            && (forall b: u32 :: b in u.blinds ==>
                  u.blinds[b] == LoadedBlind(d.blinds[b], now) && b in u.disk.blinds && u.disk.blinds[b] == d.blinds[b])
            && u.nextRemote == NextId(BASE_REMOTE_ID + 1, InternalIdsOf(d.remoteIds)) % 0x1_0000_0000
            && u.nextBlind == NextId(1, WideIds(d.blindIds)) % 0x1_0000_0000
  {
    hide LoadRemotes, NextId, LoadedBlind, LoadBlinds, RemotesFlash, BlindsFlash, LowIds, Ascending;
    LoadBlindsGives(d, ReloadedRemotes(d), d.blindIds, now);
  }

  lemma ReloadedBlindList(d: Disk, now: int, issued: seq<Issue>)
    requires FlashOk(d) && Bootable(d)
    ensures var u := Reload(d, now, issued); BlindListOk(u.disk.blindIds, u.blinds)
  {
    var remotes, u := ReloadedRemotes(d), Reload(d, now, issued);
    LoadBlindsGives(d, remotes, d.blindIds, now);
    assert u.blinds == LoadBlinds(d, remotes, d.blindIds, now);
    hide LoadRemotes, LoadBlinds, NextId, LoadedBlind, RemotesFlash, RecordSane;
    if Orphans(d, remotes) == {} {
      assert forall b: u16 :: b in d.blindIds ==> b !in Orphans(d, remotes);
    } else {
      SavedBlindList(u);
      assert u.disk.blindIds == SaveBlindList(u).disk.blindIds;
    }
  }

  lemma NextBlindAfterListed(d: Disk)
    ensures var n := NextId(1, WideIds(d.blindIds));
            0 < n <= 0x1_0000 && forall b: u16 :: b in d.blindIds ==> b < n
  {
    NextIdBound(1, WideIds(d.blindIds), 0x1_0000);
    forall b: u16 | b in d.blindIds
      ensures b in WideIds(d.blindIds)
    {
      WideMember(d.blindIds, b);
    }
  }

  lemma ReloadedBlindsFit(d: Disk, now: int, issued: seq<Issue>)
    requires FlashOk(d) && Bootable(d)
    ensures var u := Reload(d, now, issued);
            BlindsOk(u.disk.blinds, u.remotes, u.blinds, u.nextBlind)
  {
    hide Reload, ReloadedRemotes, LoadedBlind, RecordFits, Storable, RecordSane, RemotesFlash, NextId, WideIds,
      Low;
    var u := Reload(d, now, issued);
    ReloadedBlinds(d, now, issued);
    NextBlindAfterListed(d);
    forall b | b in u.blinds
      ensures BlindOk(u.disk.blinds, u.remotes, u.nextBlind, b, u.blinds[b])
      ensures u.blinds[b].remoteId == d.blinds[b].remoteId
    {
      LoadedBlindStorable(d.blinds[b], now);
      LoadedIff(d, d.blinds[b].remoteId);
    }
    forall a, b | a in u.blinds && b in u.blinds && u.blinds[a].remoteId == u.blinds[b].remoteId
      ensures a == b
    {
      assert SamePrimary(d, a, b);
    }
  }

  /** From such a flash, if every listed blind has a record, the device comes up in the weaker invariant. */
  lemma ReloadWeakInv(d: Disk, now: int, issued: seq<Issue>)
    requires FlashOk(d) && Bootable(d)
    ensures WeakInv(Reload(d, now, issued)) && Reload(d, now, issued).issued == issued
  {
    hide Reload, ReloadedRemotes, LoadedBlind, RemotesFlash, BlindsFlash, RemotesOk, BlindsOk, BlindListOk,
      ListsCover, NextId, InternalIdsOf, WideIds, Bootable;
    var u := Reload(d, now, issued);
    ReloadedBlinds(d, now, issued);
    NextAfterListed(d);
    LoadedRemotesOk(d, u.nextRemote);
    LoadedListsCover(d, u.nextRemote);
    SameListsCover(d, u.disk, u.remotes, u.nextRemote);
    ReloadedBlindsFit(d, now, issued);
    ReloadedBlindList(d, now, issued);
  }

  lemma SameListsCover(d: Disk, t: Disk, remotes: map<u32, Remote>, next: u32)
    requires ListsCover(d, remotes, next)
    requires t.remotes == d.remotes && t.remoteIds == d.remoteIds && t.externalIds == d.externalIds
    ensures ListsCover(t, remotes, next)
  {
    forall id: u32
      ensures InternalListed(t, id) == InternalListed(d, id) && Listed(t, id) == Listed(d, id)
    {
    }
  }

  /** And in the full invariant exactly if no listed remote is without its record. */
  lemma ReloadInvIff(d: Disk, now: int, issued: seq<Issue>)
    requires FlashOk(d) && Bootable(d)
    ensures Inv(Reload(d, now, issued)) <==> NoneMissing(d)
  {
    hide Reload, ReloadedRemotes, RemotesFlash, BlindsFlash, Inv, WeakInv, Bootable, Low;
    var u := Reload(d, now, issued);
    ReloadedBlinds(d, now, issued);
    ReloadWeakInv(d, now, issued);
    InvIff(u);
    forall id: u32
      ensures Listed(u.disk, id) == Listed(d, id)
      ensures id in u.remotes <==> Listed(d, id) && Low(id) in d.remotes
    {
      LoadedIff(d, id);
    }
  }
}
