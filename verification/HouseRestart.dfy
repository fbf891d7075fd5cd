/** Restarting: what comes back from flash, after a clean shutdown or without one. */
module HouseRestart {
  import opened Basics
  import opened Records
  import opened House
  import opened HouseInvariant
  import M = Motion

  // ---------------------------------------------------------------- reloading remotes

  lemma {:induction false} LoadRemotesGives(disk: Disk, loaded: map<u32, Remote>, ids: seq<u32>, external: bool)
    ensures var r := LoadRemotes(disk, loaded, ids, external);
            && (forall id :: id in r <==> id in loaded || (id in ids && ReadRemote(disk, id).Some?))
            && (forall id :: id in r ==>
                  r[id] == if id in loaded then loaded[id] else LoadedRemote(ReadRemote(disk, id).value, external))
    decreases |ids|
  {
    hide ReadRemote, LoadedRemote;
    if ids != [] {
      var n := |ids| - 1;
      LoadRemotesGives(disk, loaded, ids[..n], external);
      assert ids == ids[..n] + [ids[n]];
    }
  }

  lemma InternalIdsMember(lows: seq<u16>, id: u32)
    ensures id in InternalIdsOf(lows) <==>
            BASE_REMOTE_ID <= id < BASE_REMOTE_ID + 0x1_0000 && id - BASE_REMOTE_ID in lows
  {
    var ids := InternalIdsOf(lows);
    if BASE_REMOTE_ID <= id < BASE_REMOTE_ID + 0x1_0000 && id - BASE_REMOTE_ID in lows {
      var i :| 0 <= i < |lows| && lows[i] == id - BASE_REMOTE_ID;
      assert ids[i] == id;
    }
  }

  /** From a coherent flash the same remotes come back, each as its record says. */
  lemma ReloadRemotes(disk: Disk, remotes: map<u32, Remote>, next: u32)
    requires RemotesOk(disk.remotes, remotes, next) && ListsOk(disk, remotes)
    ensures ReloadedRemotes(disk).Keys == remotes.Keys
    ensures forall id :: id in remotes ==>
              Low(id) in disk.remotes
              && ReloadedRemotes(disk)[id] == LoadedRemote(disk.remotes[Low(id)], remotes[id].external)
  {
    var internals := LoadRemotes(disk, map[], InternalIdsOf(disk.remoteIds), false);
    LoadRemotesGives(disk, map[], InternalIdsOf(disk.remoteIds), false);
    LoadRemotesGives(disk, internals, disk.externalIds, true);
    InternalShape(disk.remotes, remotes, next);
    forall id
      ensures id in InternalIdsOf(disk.remoteIds) <==> IsInternal(remotes, id)
      ensures id in remotes ==> ReadRemote(disk, id) == Some(disk.remotes[Low(id)])
    {
      InternalIdsMember(disk.remoteIds, id);
      if id in remotes {
        assert RemoteOk(disk.remotes, next, id, remotes[id]);
      }
    }
  }

  lemma {:induction false} NextIdBound(first: nat, ids: seq<u32>, bound: nat)
    requires first <= bound && forall id :: id in ids ==> id < bound
    ensures NextId(first, ids) <= bound
  {
    if ids != [] {
      var rest := ids[..|ids| - 1];
      assert ids == rest + [ids[|ids| - 1]];
      forall id | id in rest
        ensures id < bound
      {
        assert id in ids;
      }
      NextIdBound(first, rest, bound);
      assert ids[|ids| - 1] in ids;
    }
  }

  lemma ReloadedRemotesOk(disk: Disk, remotes: map<u32, Remote>, next: u32)
    requires RemotesOk(disk.remotes, remotes, next) && ListsOk(disk, remotes)
    ensures var n := NextId(BASE_REMOTE_ID + 1, InternalIdsOf(disk.remoteIds));
            n <= BASE_REMOTE_ID + 0x1_0000 && RemotesOk(disk.remotes, ReloadedRemotes(disk), n)
    ensures ListsOk(disk, ReloadedRemotes(disk))
  {
    ReloadRemotes(disk, remotes, next);
    var ids, again := InternalIdsOf(disk.remoteIds), ReloadedRemotes(disk);
    NextIdBound(BASE_REMOTE_ID + 1, ids, BASE_REMOTE_ID + 0x1_0000);
    var n: u32 := NextId(BASE_REMOTE_ID + 1, ids);
    ListsOkSame(disk, remotes, again);
    InternalShape(disk.remotes, remotes, next);
    forall id | id in again
      ensures RemoteOk(disk.remotes, n, id, again[id])
    {
      assert RemoteOk(disk.remotes, next, id, remotes[id]);
      InternalIdsMember(disk.remoteIds, id);
      if !remotes[id].external {
        assert IsInternal(remotes, id);
        assert id in ids;
      }
    }
  }

  // ---------------------------------------------------------------- reloading blinds

  lemma {:induction false} LoadBlindsGives(disk: Disk, remotes: map<u32, Remote>, ids: seq<u16>, now: int)
    requires forall b :: b in ids ==> b in disk.blinds
    ensures var r := LoadBlinds(disk, remotes, ids, now);
            && (forall b: u32 :: b in r <==> b in ids && disk.blinds[b].remoteId in remotes)
            && (forall b: u32 :: b in r ==> r[b] == LoadedBlind(disk.blinds[b], now))
    decreases |ids|
  {
    hide LoadedBlind;
    if ids != [] {
      var n := |ids| - 1;
      LoadBlindsGives(disk, remotes, ids[..n], now);
      assert ids == ids[..n] + [ids[n]];
    }
  }

  lemma LoadedBlindStorable(cfg: BlindConfig, now: int)
    requires RecordSane(cfg)
    ensures Storable(LoadedBlind(cfg, now)) && LoadedBlind(cfg, now).remoteId == cfg.remoteId
  {
  }

  lemma BlindListBootable(disk: Disk, remotes: map<u32, Remote>, blinds: map<u32, Blind>, next: u32)
    requires BlindsOk(disk.blinds, remotes, blinds, next) && BlindListOk(disk.blindIds, blinds)
    ensures Bootable(disk)
    ensures forall b :: b in disk.blindIds ==> disk.blinds[b].remoteId in remotes
  {
    assert forall b :: b in disk.blindIds ==> b in blinds;
    assert forall b :: b in blinds ==> BlindOk(disk.blinds, remotes, next, b, blinds[b]);
  }

  lemma WideMember(ids: seq<u16>, id: u32)
    ensures id in WideIds(ids) <==> id in ids
  {
    if id in ids {
      var i :| 0 <= i < |ids| && ids[i] == id;
      assert WideIds(ids)[i] == id;
    }
  }

  /** The same blinds come back, each as its record says. */
  lemma ReloadedBlindsOk(disk: Disk, remotes: map<u32, Remote>, blinds: map<u32, Blind>, next: u32,
                         again: map<u32, Remote>, now: int)
    requires BlindsOk(disk.blinds, remotes, blinds, next) && BlindListOk(disk.blindIds, blinds)
    requires again.Keys == remotes.Keys && forall id :: id in remotes ==> again[id].external == remotes[id].external
    ensures Bootable(disk) && Orphans(disk, again) == {}
    ensures var r, n := LoadBlinds(disk, again, disk.blindIds, now), NextId(1, WideIds(disk.blindIds));
            && r.Keys == blinds.Keys
            && (forall b :: b in blinds ==> b in disk.blinds && r[b] == LoadedBlind(disk.blinds[b], now))
            && n <= 0x1_0000 && BlindsOk(disk.blinds, again, r, n) && BlindListOk(disk.blindIds, r)
  {
    BlindListBootable(disk, remotes, blinds, next);
    LoadBlindsGives(disk, again, disk.blindIds, now);
    var ids, r := WideIds(disk.blindIds), LoadBlinds(disk, again, disk.blindIds, now);
    NextIdBound(1, ids, 0x1_0000);
    var n: u32 := NextId(1, ids);
    assert forall b: u32 :: b in r <==> b in blinds;
    hide Storable, RecordSane, LoadedBlind;
    forall b | b in r
      ensures BlindOk(disk.blinds, again, n, b, r[b])
      ensures r[b].remoteId == blinds[b].remoteId
    {
      assert BlindOk(disk.blinds, remotes, next, b, blinds[b]);
      LoadedBlindStorable(disk.blinds[b], now);
      WideMember(disk.blindIds, b);
    }
  }

  // ---------------------------------------------------------------- restarts

  /** When no listed blind has lost its remote the reload leaves the flash as it is. */
  lemma ReloadShape(disk: Disk, now: int, issued: seq<Issue>)
    requires Bootable(disk) && Orphans(disk, ReloadedRemotes(disk)) == {}
    requires NextId(BASE_REMOTE_ID + 1, InternalIdsOf(disk.remoteIds)) < 0x1_0000_0000
    requires NextId(1, WideIds(disk.blindIds)) < 0x1_0000_0000
    ensures Reload(disk, now, issued) ==
            House(disk, ReloadedRemotes(disk), NextId(BASE_REMOTE_ID + 1, InternalIdsOf(disk.remoteIds)),
                  LoadBlinds(disk, ReloadedRemotes(disk), disk.blindIds, now), NextId(1, WideIds(disk.blindIds)),
                  issued)
  {
    hide LoadRemotes, LoadBlinds, NextId;
    assert disk.(blinds := disk.blinds - {}) == disk;
  }

  /** With or without a clean shutdown, every blind and every remote that was registered is there
      again after a restart, and the invariant with them. */
  lemma ReloadInv(h: House, now: int)
    requires Inv(h)
    ensures Bootable(h.disk)
    ensures Inv(Reload(h.disk, now, h.issued))
    ensures Reload(h.disk, now, h.issued).remotes == ReloadedRemotes(h.disk)
    ensures Reload(h.disk, now, h.issued).issued == h.issued && Reload(h.disk, now, h.issued).disk == h.disk
    ensures Reload(h.disk, now, h.issued).blinds.Keys == h.blinds.Keys
    ensures forall b :: b in h.blinds ==>
              b in h.disk.blinds && Reload(h.disk, now, h.issued).blinds[b] == LoadedBlind(h.disk.blinds[b], now)
  {
    hide RemotesOk, ListsOk, BlindsOk, BlindListOk, LoadedBlind, LoadedRemote, Reload, ReloadedRemotes, LoadBlinds,
      NextId, InternalIdsOf, WideIds, Bootable;
    ReloadedRemotesOk(h.disk, h.remotes, h.nextRemote);
    ReloadRemotes(h.disk, h.remotes, h.nextRemote);
    ReloadExternal(h.disk, h.remotes);
    ReloadedBlindsOk(h.disk, h.remotes, h.blinds, h.nextBlind, ReloadedRemotes(h.disk), now);
    ReloadShape(h.disk, now, h.issued);
  }

  lemma ReloadExternal(disk: Disk, remotes: map<u32, Remote>)
    requires forall id :: id in remotes ==> Low(id) in disk.remotes
    requires ReloadedRemotes(disk).Keys == remotes.Keys
    requires forall id :: id in remotes ==>
               ReloadedRemotes(disk)[id] == LoadedRemote(disk.remotes[Low(id)], remotes[id].external)
    ensures forall id :: id in remotes ==> ReloadedRemotes(disk)[id].external == remotes[id].external
  {
  }

  lemma {:induction false} SaveRemotesEffect(h: House, ids: seq<u32>)
    requires forall id :: id in ids ==> id in h.remotes
    ensures var t := SaveRemotes(h, ids);
            && (forall id :: id in h.remotes ==>
                  t.remotes[id] == if id in ids then h.remotes[id].(dirty := false) else h.remotes[id])
            && t.issued == h.issued && t.nextRemote == h.nextRemote && t.nextBlind == h.nextBlind
    decreases |ids|
  {
    if ids != [] {
      SaveRemotesEffect(h, ids[..|ids| - 1]);
      assert ids == ids[..|ids| - 1] + [ids[|ids| - 1]];
    }
  }

  lemma SaveBlindEffect(h: House, id: u32)
    requires AllStorable(h.blinds) && id in h.blinds && id < 0x1_0000
    ensures var t := SaveBlind(h, id, true);
            && t.remotes == h.remotes && t.issued == h.issued
            && t.blinds == h.blinds[id := h.blinds[id].(dirty := false)]
            && t.disk.blinds == h.disk.blinds[id := BlindRecord(h.blinds[id])]
  {
    assert Low(id) == id;
  }

  /** The blinds differ at most in their dirty flags. */
  ghost predicate SameButDirty(before: map<u32, Blind>, after: map<u32, Blind>) {
    after.Keys == before.Keys && forall b :: b in before ==> after[b] == before[b].(dirty := after[b].dirty)
  }

  ghost predicate RecordsHold(records: map<u16, BlindConfig>, blinds: map<u32, Blind>, ids: seq<u32>)
    requires AllStorable(blinds)
  {
    forall b :: b in ids && b in blinds ==> b in records && records[b] == BlindRecord(blinds[b])
  }

  lemma {:induction false} SaveBlindsEffect(h: House, ids: seq<u32>)
    requires AllStorable(h.blinds) && (forall b :: b in ids ==> b in h.blinds && b < 0x1_0000)
    ensures var t := SaveBlinds(h, ids, true);
            && t.remotes == h.remotes && t.issued == h.issued
            && SameButDirty(h.blinds, t.blinds)
            && RecordsHold(t.disk.blinds, h.blinds, ids)
    decreases |ids|
  {
    hide BlindRecord, Storable, SaveBlind, SameButDirty, RecordsHold;
    if ids != [] {
      var n := |ids| - 1;
      assert ids[n] in ids && forall b :: b in ids[..n] ==> b in ids;
      assert ids == ids[..n] + [ids[n]];
      SaveBlindsEffect(h, ids[..n]);
      var before := SaveBlinds(h, ids[..n], true);
      SaveBlindEffect(before, ids[n]);
      OneMoreSaved(h.blinds, before.blinds, before.disk.blinds, ids, n);
    } else {
      NoneSaved(h.blinds, h.disk.blinds);
    }
  }

  lemma NoneSaved(blinds: map<u32, Blind>, records: map<u16, BlindConfig>)
    requires AllStorable(blinds)
    ensures SameButDirty(blinds, blinds) && RecordsHold(records, blinds, [])
  {
  }

  lemma OneMoreSaved(blinds: map<u32, Blind>, after: map<u32, Blind>, records: map<u16, BlindConfig>, ids: seq<u32>,
                     n: nat)
    requires AllStorable(blinds) && AllStorable(after) && n < |ids| && ids[n] in blinds && ids[n] < 0x1_0000
    requires SameButDirty(blinds, after) && RecordsHold(records, blinds, ids[..n])
    ensures SameButDirty(blinds, after[ids[n] := after[ids[n]].(dirty := false)])
    ensures RecordsHold(records[ids[n] := BlindRecord(after[ids[n]])], blinds, ids[..n] + [ids[n]])
  {
    SameRecord(blinds[ids[n]], after[ids[n]]);
    hide BlindRecord, Storable;
  }

  lemma SameRecord(a: Blind, b: Blind)
    requires Storable(a) && b == a.(dirty := b.dirty)
    ensures Storable(b) && BlindRecord(b) == BlindRecord(a)
  {
  }

  /** A remote and a blind as a clean restart brings them back. */
  function Restarted(r: Remote): Remote {
    r.(dirty := false, blinds := Clip(r.blinds))
  }

  function RestartedBlind(b: Blind, now: int): Blind {
    b.(dirty := false, motion := b.motion.(position := b.motion.target as real, direction := 0, lastTick := now))
  }

  /** What a shutdown leaves: nothing in memory but dirty flags has changed, no remote is dirty any
      more, and the record of every blind is up to date. */
  lemma ShutdownEffect(h: House)
    requires Inv(h) && AllStorable(h.blinds)
    ensures var t := Shutdown(h);
            && Inv(t) && t.issued == h.issued
            && t.remotes == (map id | id in h.remotes :: h.remotes[id].(dirty := false))
            && t.blinds.Keys == h.blinds.Keys
            && (forall b :: b in h.blinds ==> b in t.disk.blinds && t.disk.blinds[b] == BlindRecord(h.blinds[b]))
  {
    hide RemotesOk, ListsOk, BlindsOk, BlindListOk, Storable, BlindRecord, SaveRemotes, SaveBlinds, Ascending;
    var ids := Ascending(h.remotes.Keys);
    var h1 := SaveRemotes(h, ids);
    SaveRemotesInv(h, ids);
    SaveRemotesEffect(h, ids);
    assert h1.remotes == (map id | id in h.remotes :: h.remotes[id].(dirty := false));
    BlindIdsSmall(h1.disk.blinds, h1.remotes, h1.blinds, h1.nextBlind);
    var blindIds := Ascending(h1.blinds.Keys);
    SaveBlindsInv(h1, blindIds, true);
    SaveBlindsEffect(h1, blindIds);
  }

  /** Durability. After a clean shutdown and a restart the registry is the one before: the same
      remotes with the same origin, names, rolling codes and bindings (of which the record holds the
      first 32), and the same blinds with the same names, remotes, times, targets and favourites. */
  lemma CleanRestart(h: House, now: int)
    requires Inv(h) && AllStorable(h.blinds)
    ensures Inv(Shutdown(h)) && Bootable(Shutdown(h).disk)
    ensures var t := Reload(Shutdown(h).disk, now, h.issued);
            && Inv(t) && t.issued == h.issued
            && t.remotes == (map id | id in h.remotes :: Restarted(h.remotes[id]))
            && t.blinds == (map b | b in h.blinds :: RestartedBlind(h.blinds[b], now))
  {
    hide Inv, Shutdown, Reload, ReloadedRemotes, LoadedBlind, Storable, BlindRecord, RestartedBlind, Restarted,
      Bootable;
    var s := Shutdown(h);
    ShutdownEffect(h);
    ReloadInv(s, now);
    CleanRemotes(h, s);
    CleanBlinds(h.blinds, s.disk.blinds, now);
    var t := Reload(s.disk, now, h.issued);
    assert t.blinds.Keys == h.blinds.Keys;
    assert forall b :: b in h.blinds ==> t.blinds[b] == LoadedBlind(s.disk.blinds[b], now);
  }

  lemma CleanRemotes(h: House, s: House)
    requires Inv(s) && s.remotes == (map id | id in h.remotes :: h.remotes[id].(dirty := false))
    ensures ReloadedRemotes(s.disk) == (map id | id in h.remotes :: Restarted(h.remotes[id]))
  {
    ReloadRemotes(s.disk, s.remotes, s.nextRemote);
    SavedRemotes(s);
    hide Inv, ReloadedRemotes, LoadedRemote, Clip;
    assert forall id :: id in s.remotes ==>
        !s.remotes[id].dirty && Restarted(s.remotes[id]) == Restarted(h.remotes[id]);
  }

  lemma CleanBlinds(blinds: map<u32, Blind>, records: map<u16, BlindConfig>, now: int)
    requires AllStorable(blinds)
    requires forall b :: b in blinds ==> b in records && records[b] == BlindRecord(blinds[b])
    ensures forall b :: b in blinds ==> LoadedBlind(records[b], now) == RestartedBlind(blinds[b], now)
  {
  }

  lemma SavedRemotes(h: House)
    requires Inv(h)
    ensures forall id :: id in h.remotes && !h.remotes[id].dirty ==>
              Low(id) in h.disk.remotes
              && LoadedRemote(h.disk.remotes[Low(id)], h.remotes[id].external) == Restarted(h.remotes[id])
  {
    assert forall id :: id in h.remotes ==> RemoteOk(h.disk.remotes, h.nextRemote, id, h.remotes[id]);
  }
}
