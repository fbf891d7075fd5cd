/** Where the registry's guarantees end, shown for every state: long lists of bindings, deleted blinds that
    are still listed, and flash that is not coherent. */
module HouseLimits {
  import opened Basics
  import opened Records
  import opened House
  import opened HouseInvariant
  import opened HouseRestart

  // ---------------------------------------------------------------- remotes

  /** A clean restart brings a remote back unchanged exactly if it is bound to at most 32 blinds; of a longer list
      it keeps the first 32. */
  lemma BindingsSurviveIff(h: House, id: u32, now: int)
    requires Inv(h) && AllStorable(h.blinds) && id in h.remotes
    ensures Bootable(Shutdown(h).disk)
    ensures id in Reload(Shutdown(h).disk, now, h.issued).remotes
    ensures Reload(Shutdown(h).disk, now, h.issued).remotes[id] == h.remotes[id].(dirty := false)
            <==> |h.remotes[id].blinds| <= 32
    ensures |h.remotes[id].blinds| > 32 ==>
              Reload(Shutdown(h).disk, now, h.issued).remotes[id].blinds == h.remotes[id].blinds[..32]
  {
    hide Inv, Reload, Shutdown, Bootable, Storable, RestartedBlind;
    CleanRestart(h, now);
    assert Reload(Shutdown(h).disk, now, h.issued).remotes[id] == Restarted(h.remotes[id]);
  }

  // ---------------------------------------------------------------- blinds

  /** After deleting a blind every remote can still be pressed exactly if no remote but the blind's
      own was bound to it: the others keep it in their lists. */
  lemma PressableAfterDeleteIff(h: House, b: u32)
    requires Inv(h) && b in h.blinds && forall id :: id in h.remotes ==> BlindsExist(h, id)
    ensures var t := DeleteBlind(h, b);
            (forall id :: id in t.remotes ==> BlindsExist(t, id))
            <==> forall id :: id in h.remotes && id != h.blinds[b].remoteId ==> b !in h.remotes[id].blinds
  {
    DeleteBlindEffect(h, b);
    BlindIdsSmall(h.disk.blinds, h.remotes, h.blinds, h.nextBlind);
    hide Inv, DeleteBlind, AllStorable;
    var t := DeleteBlind(h, b);
    assert forall id :: id in t.remotes <==> id in h.remotes && id != h.blinds[b].remoteId;
    if forall id :: id in t.remotes ==> BlindsExist(t, id) {
      forall id | id in h.remotes && id != h.blinds[b].remoteId
        ensures b !in h.remotes[id].blinds
      {
        assert BlindsExist(t, id);
      }
    } else {
      var id :| id in t.remotes && !BlindsExist(t, id);
      assert BlindsExist(h, id);
      assert b in h.remotes[id].blinds;
    }
  }

  /** Whatever flash the reload starts from, provided every listed blind has a record, each blind it
      brings up has a primary remote, and the records of the others are gone. */
  lemma ReloadRepairs(disk: Disk, now: int)
    requires Bootable(disk)
    ensures var t := Reload(disk, now, []);
            && (forall b :: b in t.blinds ==> t.blinds[b].remoteId in t.remotes)
            && (forall b: u32 :: b in t.blinds <==> b in disk.blindIds && disk.blinds[b].remoteId in t.remotes)
            && (forall b :: b in disk.blindIds && b !in t.blinds ==> b !in t.disk.blinds)
            && ((exists b :: b in disk.blindIds && b !in t.blinds) ==> BlindListOk(t.disk.blindIds, t.blinds))
  {
    var remotes := ReloadedRemotes(disk);
    LoadBlindsGives(disk, remotes, disk.blindIds, now);
    var t := Reload(disk, now, []);
    assert t.blinds == LoadBlinds(disk, remotes, disk.blindIds, now) && t.remotes == remotes;
    hide LoadBlinds, LoadRemotes, NextId, LoadedBlind;
    forall b | b in t.blinds
      ensures t.blinds[b].remoteId == disk.blinds[b].remoteId && b < 0x1_0000
    {
      LoadedRemoteId(disk.blinds[b], now);
    }
    if exists b :: b in disk.blindIds && b !in t.blinds {
      var b :| b in disk.blindIds && b !in t.blinds;
      assert b in Orphans(disk, remotes);
      SavedBlindList(t);
      assert t.disk.blindIds == SaveBlindList(t).disk.blindIds;
    }
  }

  lemma LoadedRemoteId(cfg: BlindConfig, now: int)
    ensures LoadedBlind(cfg, now).remoteId == cfg.remoteId
  {
  }
}
