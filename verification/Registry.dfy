/** The tables of remotes and blinds as the program keeps them: objects updated in place, the record
    store behind them, and every operation proved to be the registry's function of the same name. */
module Registry {
  import opened Basics
  import opened Flash
  import opened Records
  import opened Devices
  import opened Tables
  import H = House
  import M = Motion
  import D = DeviceConfig
  import V = DiskView
  import W = DiskWrites
  import O = OpWrites

  lemma EntryMade(h0: seq<seq<Slot>>, h1: seq<seq<Slot>>, h2: seq<seq<Slot>>, d: H.Disk, e: H.Disk, f: H.Disk,
                  id: u16, b: H.Blind)
    requires H.Storable(b) && W.Made(h0, h1, d, e, [W.PutBlind(id, H.BlindRecord(b))])
    requires W.Made(h1, h2, e, f, [W.PutBlindIds(f.blindIds)])
    ensures W.Made(h0, h2, d, f, O.EntryWrites(id, b, f))
  {
    hide W.Made, H.Storable, H.BlindRecord;
    W.MadeMore(h0, h1, h2, d, e, f, [W.PutBlind(id, H.BlindRecord(b))], [W.PutBlindIds(f.blindIds)]);
    assert [W.PutBlind(id, H.BlindRecord(b))] + [W.PutBlindIds(f.blindIds)] == O.EntryWrites(id, b, f);
  }

  lemma NamedSo(name: Name, remoteId: u32, openTime: int, closeTime: int, now: int)
    ensures H.NewBlind(name, remoteId, openTime, closeTime, now).name == name
  {
  }

  /** The writes of a blind added, or removed, have been made. */
  ghost predicate BlindAddedSo(before: seq<seq<Slot>>, after: seq<seq<Slot>>, d: H.Disk, end: H.Disk, remoteId: u32,
                               id: u32, b: H.Blind) {
    && id < 0x1_0000 && H.Storable(b)
    && W.Made(before, after, d, end, O.AdditionWrites(remoteId, b.name, false, end) + O.EntryWrites(id, b, end))
  }

  ghost predicate BlindRemovedSo(before: seq<seq<Slot>>, after: seq<seq<Slot>>, d: H.Disk, end: H.Disk, remoteId: u32,
                                 id: u32) {
    W.Made(before, after, d, end, O.RemovalWrites(remoteId, end) + O.ExitWrites(id, end))
  }

  lemma AdditionMade(h0: seq<seq<Slot>>, h1: seq<seq<Slot>>, h2: seq<seq<Slot>>, d: H.Disk, e: H.Disk, f: H.Disk,
                     remoteId: u32, id: u16, b: H.Blind)
    requires H.Storable(b) && W.Made(h0, h1, d, e, O.AdditionWrites(remoteId, b.name, false, e))
    requires W.Made(h1, h2, e, f, O.EntryWrites(id, b, f))
    ensures BlindAddedSo(h0, h2, d, f, remoteId, id, b)
  {
    hide W.Wrote, W.Done, H.Storable, O.AdditionWrites, O.EntryWrites;
    O.AdditionParts(remoteId, id, b, e, f);
    hide W.Made;
    W.MadeMore(h0, h1, h2, d, e, f, O.AdditionWrites(remoteId, b.name, false, e), O.EntryWrites(id, b, f));
  }

  lemma RemovalMade(h0: seq<seq<Slot>>, h1: seq<seq<Slot>>, h2: seq<seq<Slot>>, d: H.Disk, e: H.Disk, f: H.Disk,
                    remoteId: u32, id: u32)
    requires W.Made(h0, h1, d, e, O.RemovalWrites(remoteId, e)) && W.Made(h1, h2, e, f, O.ExitWrites(id, f))
    ensures BlindRemovedSo(h0, h2, d, f, remoteId, id)
  {
    hide W.Wrote, W.Done, O.RemovalWrites, O.ExitWrites, H.Low;
    O.RemovalParts(remoteId, id, e, f);
    hide W.Made;
    W.MadeMore(h0, h1, h2, d, e, f, O.RemovalWrites(remoteId, e), O.ExitWrites(id, f));
  }

  lemma DropMade(before: seq<seq<Slot>>, after: seq<seq<Slot>>, d: H.Disk, e: H.Disk, id: u16)
    requires W.Wrote(before, after, d, [W.DropBlind(H.Low(id))]) && e == H.DropBlind(d, id)
    ensures W.Made(before, after, d, e, [W.DropBlind(id)])
  {
    hide W.Wrote, W.Made;
    W.MadeOne(before, after, d, e, W.DropBlind(id));
  }

  lemma NoneDropped(history: seq<seq<Slot>>, d: H.Disk, remotes: map<u32, H.Remote>)
    ensures W.Made(history, history, d, d, O.Drops(O.OrphanList(d, remotes, [])))
  {
    hide W.Made;
    W.MadeNone(history, d);
  }

  lemma LoadingMade(h0: seq<seq<Slot>>, h1: seq<seq<Slot>>, h2: seq<seq<Slot>>, d: H.Disk, e: H.Disk, f: H.Disk,
                    remotes: map<u32, H.Remote>, errors: bool)
    requires H.Bootable(d) && errors == (H.OrphansAmong(d, remotes, d.blindIds) != {})
    requires W.Made(h0, h1, d, e, O.Drops(O.OrphanList(d, remotes, d.blindIds)))
    requires if errors then W.Made(h1, h2, e, f, [W.PutBlindIds(f.blindIds)]) else h2 == h1 && f == e
    ensures W.Made(h0, h2, d, f, O.LoadingWrites(d, remotes, f))
  {
    hide W.Made;
    var os := O.OrphanList(d, remotes, d.blindIds);
    assert os == [] || os[0] in os;
    if errors {
      W.MadeMore(h0, h1, h2, d, e, f, O.Drops(os), [W.PutBlindIds(f.blindIds)]);
    }
  }

  class Blinds {
    const config: D.DeviceConfig
    var blinds: map<u32, Blind>
    var nextId: u32

    constructor (config: D.DeviceConfig)
      ensures this.config == config && blinds == map[] && nextId == 1
    {
      this.config, blinds, nextId := config, map[], 1;
    }

    /** The blinds' ids, in order. */
    method SaveBlindList(ghost home: SomfyRemotes)
      requires home.Valid() && home.blinds == this && |blinds| <= MAX_IDS16 && config.Room() > 0
      modifies config.storage, config.storage.flash
      ensures home.Valid() && config.Room() >= old(config.Room())
      ensures home.House() == H.SaveBlindList(old(home.House()))
      ensures W.Made(old(config.storage.history), config.storage.history, old(config.Disk()), config.Disk(),
                     [W.PutBlindIds(config.Disk().blindIds)])
    {
      hide D.DeviceConfig.Valid, D.DeviceConfig.Disk, D.DeviceConfig.Room, States, RemoteStates, Keyed, Linked,
        RemotesKeyed, H.Ascending, H.LowIds, W.Made, W.Wrote;
      var list := CollectIds();
      ghost var d, h0 := config.Disk(), config.storage.history;
      ghost var stored := config.SaveIdList(V.BLIND_IDS_KEY, list);
      W.MadeOne(h0, config.storage.history, d, config.Disk(), W.PutBlindIds(list));
    }

    method CollectIds() returns (list: seq<u16>)
      requires |blinds| <= MAX_IDS16
      ensures |list| <= MAX_IDS16 && list == H.LowIds(H.Ascending(blinds.Keys))
    {
      hide H.Ascending;
      var order := H.Ascending(blinds.Keys);
      AscendingLength(blinds.Keys);
      var ids: array<u16> := new u16[128];
      for i := 0 to |order|
        invariant ids[..i] == H.LowIds(order[..i])
      {
        assert order[..i + 1][..i] == order[..i];
        ghost var before := ids[..i];
        ids[i] := H.Low(order[i]);
        assert ids[..i] == before && ids[..i + 1] == before + [ids[i]];
      }
      assert order[..|order|] == order;
      list := ids[..|blinds|];
    }

    /** Every blind has a record, so that saving one takes no new space. */
    ghost predicate AllRecorded()
      requires config.Valid()
      reads this, config.storage, config.storage.flash
    {
      forall b :: b in blinds ==> H.Low(b) in config.Disk().blinds
    }

    method SaveOne(id: u32, force: bool, ghost home: SomfyRemotes)
      requires home.Valid() && home.blinds == this && id in blinds && AllRecorded() && config.Room() > 0
      requires H.AllStorable(States(blinds))
      modifies blinds.Values, config.storage, config.storage.flash
      ensures home.Valid() && AllRecorded() && config.Room() >= old(config.Room())
      ensures home.House() == H.SaveBlind(old(home.House()), id, force)
      ensures W.Made(old(config.storage.history), config.storage.history, old(config.Disk()), config.Disk(),
                     O.BlindWrite(old(home.House()), id, force))
    {
      hide D.DeviceConfig.Valid, D.DeviceConfig.Disk, D.DeviceConfig.Room, H.BlindRecord, H.Storable, States,
        RemoteStates, Keyed, Linked, RemotesKeyed, W.Made;
      SaveBlindIn(blinds, id, config, force);
    }

    /** Save whatever changed, or everything, blind after blind. */
    method SaveBlindState(force: bool, ghost home: SomfyRemotes)
      requires home.Valid() && home.blinds == this && AllRecorded() && config.Room() > 0
      requires H.AllStorable(States(blinds))
      modifies blinds.Values, config.storage, config.storage.flash
      ensures home.Valid() && AllRecorded() && config.Room() >= old(config.Room())
      ensures home.House() == H.SaveBlinds(old(home.House()), H.Ascending(old(home.House()).blinds.Keys), force)
      ensures W.Made(old(config.storage.history), config.storage.history, old(config.Disk()), config.Disk(),
                     O.AllBlindWrites(old(home.House()), force))
    {
      hide D.DeviceConfig.Valid, D.DeviceConfig.Disk, D.DeviceConfig.Room, H.SaveBlinds, AllRecorded, H.Ascending,
        H.AllStorable, States, RemoteStates, Keyed, Linked, RemotesKeyed, W.Made, O.BlindWrites;
      SaveInOrder(H.Ascending(blinds.Keys), force, home);
    }

    method SaveInOrder(order: seq<u32>, force: bool, ghost home: SomfyRemotes)
      requires home.Valid() && home.blinds == this && AllRecorded() && config.Room() > 0
      requires H.AllStorable(States(blinds)) && forall id :: id in order ==> id in blinds
      requires O.AllDifferent(order)
      modifies blinds.Values, config.storage, config.storage.flash
      ensures home.Valid() && AllRecorded() && config.Room() >= old(config.Room())
      ensures home.House() == H.SaveBlinds(old(home.House()), order, force)
      ensures W.Made(old(config.storage.history), config.storage.history, old(config.Disk()), config.Disk(),
                     O.BlindWrites(old(home.House()), order, force))
    {
      hide D.DeviceConfig.Valid, D.DeviceConfig.Disk, D.DeviceConfig.Room, H.SaveBlind, AllRecorded, H.AllStorable,
        States, RemoteStates, Keyed, Linked, RemotesKeyed, W.Made, O.BlindWrite, O.BlindWrites;
      ghost var d, h0 := config.Disk(), config.storage.history;
      ghost var h := home.House();
      home.NothingMade(h, h0);
      for i := 0 to |order|
        invariant home.Valid() && AllRecorded() && config.Room() >= old(config.Room())
        invariant home.House() == H.SaveBlinds(h, order[..i], force)
        invariant W.Made(h0, config.storage.history, d, config.Disk(), O.BlindWrites(h, order[..i], force))
      {
        assert order[..i + 1][..i] == order[..i];
        O.OneMoreBlind(h, order, i, force);
        ghost var e, h1 := config.Disk(), config.storage.history;
        SaveOne(order[i], force, home);
        W.MadeMore(h0, h1, config.storage.history, d, e, config.Disk(), O.BlindWrites(h, order[..i], force),
                   O.BlindWrite(H.SaveBlinds(h, order[..i], force), order[i], force));
      }
      assert order[..|order|] == order;
    }

    // -------------------------------------------------------------- adding and removing

    /** A new blind, saved at once: at 90% with its favourite at 50%. */
    method MakeBlind(id: u16, name: Name, openTime: int, closeTime: int, remote: SomfyRemote, now: int,
                     ghost home: SomfyRemotes) returns (blind: Blind)
      requires home.Valid() && home.blinds == this && config.Room() > 0
      requires 0 < openTime < 0x8000_0000 && 0 < closeTime < 0x8000_0000
      modifies config.storage, config.storage.flash
      ensures home.Valid() && config.Room() >= old(config.Room()) - 1
      ensures fresh(blind) && blind.blindId == id && blind.remote == remote
      ensures blind.State() == H.NewBlind(name, remote.remoteId, openTime, closeTime, now) && H.Storable(blind.State())
      ensures home.House() == old(home.House()).(disk := H.StoreBlind(old(home.House()).disk, id, blind.State()))
      ensures W.Made(old(config.storage.history), config.storage.history, old(config.Disk()), config.Disk(),
                     [W.PutBlind(id, H.BlindRecord(blind.State()))])
    {
      hide D.DeviceConfig.Valid, D.DeviceConfig.Disk, D.DeviceConfig.Room, H.StoreBlind, States, RemoteStates,
        Keyed, Linked, RemotesKeyed, W.Made, W.Wrote, H.BlindRecord;
      blind := new Blind(id, name, 90, 50, openTime, closeTime, remote, now);
      assert H.Storable(blind.State());
      ghost var d, h0 := config.Disk(), config.storage.history;
      ghost var stored := blind.SaveConfig(config, true);
      BlindMade(h0, config.storage.history, d, config.Disk(), id, blind.State(), true);
    }

    /** Put a blind into the table, unless there is one of this id already. */
    method PutBlind(id: u16, blind: Blind, ghost remotes: map<u32, SomfyRemote>)
      requires Keyed(blinds) && Linked(remotes, blinds) && blind.blindId == id
      requires blind.remote.remoteId in remotes && remotes[blind.remote.remoteId] == blind.remote
      modifies this`blinds
      ensures Keyed(blinds) && Linked(remotes, blinds)
      ensures blinds == if id in old(blinds) then old(blinds) else old(blinds)[id := blind]
      ensures States(blinds) == if id in old(blinds) then old(States(blinds))
              else old(States(blinds))[id := blind.State()]
      ensures |blinds| <= old(|blinds|) + 1
    {
      hide Keyed, Linked, States;
      if id !in blinds {
        BlindAdded(blinds, id, blind, remotes);
        BlindAddedStates(blinds, id, blind);
        blinds := blinds[id := blind];
      }
    }

    /** A blind under the next id, saved and in the table. */
    method EnterBlind(name: Name, openTime: int, closeTime: int, now: int, newRemote: SomfyRemote,
                      ghost home: SomfyRemotes)
      returns (newId: u16, newBlind: Blind)
      requires home.Valid() && home.blinds == this && home.config.Room() > 1
      requires newRemote.remoteId in home.remotes && home.remotes[newRemote.remoteId] == newRemote
      requires nextId < 0x1_0000 && 0 < openTime < 0x8000_0000 && 0 < closeTime < 0x8000_0000
      modifies this, config.storage, config.storage.flash
      ensures home.Valid() && newId == old(nextId) && config.Room() > 0 && |blinds| <= old(|blinds|) + 1
      ensures fresh(newBlind) && blinds == if newId in old(blinds) then old(blinds) else old(blinds)[newId := newBlind]
      ensures var b := H.NewBlind(name, newRemote.remoteId, openTime, closeTime, now);
              H.Storable(b) && home.House() == H.EnterBlind(old(home.House()), b)
      ensures W.Made(old(config.storage.history), config.storage.history, old(config.Disk()), config.Disk(),
                     [W.PutBlind(newId, H.BlindRecord(H.NewBlind(name, newRemote.remoteId, openTime, closeTime, now)))])
    {
      hide D.DeviceConfig.Valid, D.DeviceConfig.Disk, D.DeviceConfig.Room, States, RemoteStates, Keyed, Linked,
        RemotesKeyed, H.PlaceBlind, H.Storable, H.NewBlind, SomfyRemotes.House, W.Made, H.BlindRecord;
      home.HouseFields();
      newId := TakeId(home);
      newBlind := PlaceBlind(newId, name, openTime, closeTime, now, newRemote, home);
    }

    method TakeId(ghost home: SomfyRemotes) returns (newId: u16)
      requires home.Valid() && home.blinds == this && nextId < 0x1_0000
      modifies this`nextId
      ensures home.Valid() && newId == old(nextId)
      ensures home.House() == old(home.House()).(nextBlind := old(nextId) + 1)
    {
      hide D.DeviceConfig.Valid, D.DeviceConfig.Disk, Keyed, Linked, RemotesKeyed, States, RemoteStates;
      newId := nextId;
      nextId := nextId + 1;
    }

    method PlaceBlind(id: u16, name: Name, openTime: int, closeTime: int, now: int, newRemote: SomfyRemote,
                      ghost home: SomfyRemotes) returns (newBlind: Blind)
      requires home.Valid() && home.blinds == this && home.config.Room() > 1
      requires newRemote.remoteId in home.remotes && home.remotes[newRemote.remoteId] == newRemote
      requires 0 < openTime < 0x8000_0000 && 0 < closeTime < 0x8000_0000
      modifies this`blinds, config.storage, config.storage.flash
      ensures home.Valid() && config.Room() > 0 && |blinds| <= old(|blinds|) + 1
      ensures fresh(newBlind) && blinds == if id in old(blinds) then old(blinds) else old(blinds)[id := newBlind]
      ensures var b := H.NewBlind(name, newRemote.remoteId, openTime, closeTime, now);
              H.Storable(b) && home.House() == H.PlaceBlind(old(home.House()), id, b)
      ensures W.Made(old(config.storage.history), config.storage.history, old(config.Disk()), config.Disk(),
                     [W.PutBlind(id, H.BlindRecord(H.NewBlind(name, newRemote.remoteId, openTime, closeTime, now)))])
    {
      hide D.DeviceConfig.Valid, D.DeviceConfig.Disk, D.DeviceConfig.Room, States, RemoteStates, Keyed, Linked,
        RemotesKeyed, H.StoreBlind, H.Storable, H.NewBlind, SomfyRemotes.House, W.Made, H.BlindRecord;
      newBlind := MakeBlind(id, name, openTime, closeTime, newRemote, now, home);
      PutNew(id, newBlind, home);
    }

    method PutNew(id: u16, blind: Blind, ghost home: SomfyRemotes)
      requires home.Valid() && home.blinds == this && blind.blindId == id
      requires blind.remote.remoteId in home.remotes && home.remotes[blind.remote.remoteId] == blind.remote
      modifies this`blinds
      ensures home.Valid() && |blinds| <= old(|blinds|) + 1
      ensures blinds == if id in old(blinds) then old(blinds) else old(blinds)[id := blind]
      ensures var h := old(home.House());
              home.House() == h.(blinds := if id as u32 in h.blinds then h.blinds else h.blinds[id := blind.State()])
    {
      hide D.DeviceConfig.Valid, D.DeviceConfig.Disk, States, RemoteStates, Keyed, Linked, RemotesKeyed;
      PutBlind(id, blind, home.remotes);
    }

    /** Save and add a blind with this primary remote, bind the remote to it, and save the list. */
    method AttachBlind(name: Name, openTime: int, closeTime: int, now: int, newRemote: SomfyRemote, home: SomfyRemotes)
      returns (newBlind: Blind)
      requires home.Valid() && home.blinds == this && home.config.Room() > 1
      requires newRemote.remoteId in home.remotes && home.remotes[newRemote.remoteId] == newRemote
      requires nextId < 0x1_0000 && |blinds| < MAX_IDS16
      requires 0 < openTime < 0x8000_0000 && 0 < closeTime < 0x8000_0000
      modifies this, newRemote, config.storage, config.storage.flash
      ensures home.Valid() && fresh(newBlind)
      ensures blinds == if old(nextId) in old(blinds) then old(blinds) else old(blinds)[old(nextId) := newBlind]
      ensures var b := H.NewBlind(name, newRemote.remoteId, openTime, closeTime, now);
              H.Storable(b) && home.House() == H.AttachBlind(old(home.House()), b)
      ensures W.Made(old(config.storage.history), config.storage.history, old(config.Disk()), config.Disk(),
                     O.EntryWrites(old(nextId), H.NewBlind(name, newRemote.remoteId, openTime, closeTime, now),
                                   config.Disk()))
    {
      hide D.DeviceConfig.Valid, D.DeviceConfig.Disk, D.DeviceConfig.Room, States, RemoteStates, Keyed, Linked,
        RemotesKeyed, H.EnterBlind, H.Storable, H.Bind, H.SaveBlindList, SomfyRemotes.House, W.Made, H.BlindRecord;
      home.HouseFields();
      ghost var d, h0 := config.Disk(), config.storage.history;
      var newId;
      newId, newBlind := EnterBlind(name, openTime, closeTime, now, newRemote, home);
      ghost var e, h1 := config.Disk(), config.storage.history;
      home.Bind(newRemote.remoteId, newId);
      SaveBlindList(home);
      EntryMade(h0, h1, config.storage.history, d, e, config.Disk(), newId,
                H.NewBlind(name, newRemote.remoteId, openTime, closeTime, now));
    }

    /** The request for a new blind: a primary remote for it, then the blind itself. */
    method DoAddBlind(name: Name, openTime: int, closeTime: int, now: int, home: SomfyRemotes)
      returns (newRemote: SomfyRemote, newBlind: Blind)
      requires home.Valid() && home.blinds == this && home.RoomFor(false) && home.config.Room() > 2
      requires home.nextId !in home.remotes && nextId < 0x1_0000 && |blinds| < MAX_IDS16
      requires 0 < openTime < 0x8000_0000 && 0 < closeTime < 0x8000_0000
      modifies this, home`remotes, home`nextId, config.storage, config.storage.flash
      ensures home.Valid() && fresh(newRemote) && fresh(newBlind)
      ensures home.remotes == old(home.remotes)[old(home.nextId) := newRemote]
      ensures blinds == if old(nextId) in old(blinds) then old(blinds) else old(blinds)[old(nextId) := newBlind]
      ensures home.House() == H.AddBlind(old(home.House()), name, openTime, closeTime, now)
      ensures BlindAddedSo(old(config.storage.history), config.storage.history, old(config.Disk()), config.Disk(),
                           old(home.nextId), old(nextId), H.NewBlind(name, old(home.nextId), openTime, closeTime, now))
    {
      hide D.DeviceConfig.Valid, D.DeviceConfig.Disk, D.DeviceConfig.Room, States, RemoteStates, Keyed, Linked,
        RemotesKeyed, H.CreateRemote, H.AttachBlind, H.Storable, H.NewBlind, Fits, OfKind, SomfyRemotes.House,
        BlindAddedSo, W.Made, H.BlindRecord, O.AdditionWrites, O.BlindAdditionWrites;
      home.HouseFields();
      ghost var b := H.NewBlind(name, home.nextId, openTime, closeTime, now);
      NamedSo(name, home.nextId, openTime, closeTime, now);
      ghost var d, h0 := config.Disk(), config.storage.history;
      newRemote := home.CreateRemote(name);
      ghost var e, h1 := config.Disk(), config.storage.history;
      newBlind := AttachBlind(name, openTime, closeTime, now, newRemote, home);
      AdditionMade(h0, h1, config.storage.history, d, e, config.Disk(), old(home.nextId), old(nextId), b);
    }

    /** The request to change a blind; there may be none of this id. */
    method DoUpdateBlind(id: u16, name: Name, openTime: int, closeTime: int, home: SomfyRemotes) returns (ok: bool)
      requires home.Valid() && home.blinds == this
      modifies blinds.Values, home.remotes.Values
      ensures home.Valid() && ok == (id in old(blinds))
      ensures home.House() == H.UpdateBlind(old(home.House()), id, name, openTime, closeTime)
    {
      hide D.DeviceConfig.Valid, D.DeviceConfig.Disk, RemotesKeyed, Keyed, Linked, States, RemoteStates;
      ok := id in blinds;
      if ok {
        LinkedAt(home.remotes, blinds, id);
        UpdateIn(blinds, home.remotes, id, name, openTime, closeTime);
      }
    }

    /** No other blind has this one's primary remote. */
    ghost predicate OnlyPrimary(id: u32)
      reads this
    {
      id in blinds ==> forall b :: b in blinds && b != id ==> blinds[b].remote.remoteId != blinds[id].remote.remoteId
    }

    method TakeBlind(id: u32, ghost home: SomfyRemotes) returns (removed: Blind)
      requires home.Valid() && home.blinds == this && id in blinds && OnlyPrimary(id)
      modifies this`blinds
      ensures home.Valid() && removed == old(blinds[id]) && id < 0x1_0000 && |blinds| <= old(|blinds|)
      ensures blinds == old(blinds) - {id}
      ensures home.NotPrimary(removed.remote.remoteId)
      ensures removed.remote.remoteId == old(home.House()).blinds[id].remoteId
      ensures home.House() == H.TakeBlind(old(home.House()), id)
    {
      hide D.DeviceConfig.Valid, D.DeviceConfig.Disk, RemotesKeyed, Keyed, Linked, States, RemoteStates,
        OnlyPrimary, SomfyRemotes.NotPrimary;
      removed := ExtractBlind(id, home);
    }

    method ExtractBlind(id: u32, ghost home: SomfyRemotes) returns (removed: Blind)
      requires Keyed(blinds) && Linked(home.remotes, blinds) && home.blinds == this && id in blinds && OnlyPrimary(id)
      modifies this`blinds
      ensures Keyed(blinds) && Linked(home.remotes, blinds) && home.NotPrimary(removed.remote.remoteId)
      ensures removed == old(blinds[id]) && id < 0x1_0000 && |blinds| <= old(|blinds|)
      ensures blinds == old(blinds) - {id}
      ensures States(blinds) == old(States(blinds)) - {id}
      ensures removed.remote.remoteId == old(States(blinds))[id].remoteId
    {
      hide Keyed, Linked, States;
      removed := blinds[id];
      BlindRemoved(blinds, id, home.remotes);
      BlindRemovedStates(blinds, id);
      BlindState(blinds, id);
      blinds := blinds - {id};
    }

    /** Clear a blind's record, and save the list as it is now. */
    method ForgetBlind(id: u32, ghost home: SomfyRemotes)
      requires home.Valid() && home.blinds == this && id < 0x1_0000 && |blinds| <= MAX_IDS16 && config.Room() > 0
      modifies config.storage, config.storage.flash
      ensures home.Valid()
      ensures home.House() == H.ForgetBlind(old(home.House()), id)
      ensures W.Made(old(config.storage.history), config.storage.history, old(config.Disk()), config.Disk(),
                     O.ExitWrites(id, config.Disk()))
    {
      hide D.DeviceConfig.Valid, D.DeviceConfig.Disk, D.DeviceConfig.Room, States, RemoteStates, Keyed, Linked,
        RemotesKeyed, H.SaveBlindList, W.Made, W.Wrote;
      ghost var d, h0 := config.Disk(), config.storage.history;
      config.DeleteBlindConfig(id);
      ghost var e, h1 := config.Disk(), config.storage.history;
      W.MadeOne(h0, h1, d, e, W.DropBlind(H.Low(id)));
      SaveBlindList(home);
      W.MadeMore(h0, h1, config.storage.history, d, e, config.Disk(), [W.DropBlind(H.Low(id))],
                 [W.PutBlindIds(config.Disk().blindIds)]);
      assert [W.DropBlind(H.Low(id))] + [W.PutBlindIds(config.Disk().blindIds)]
        == [W.DropBlind(H.Low(id)), W.PutBlindIds(config.Disk().blindIds)];
    }

    /** Take a blind out of the table, and delete its primary remote. */
    method TakeWithRemote(id: u32, home: SomfyRemotes) returns (removed: Blind)
      requires home.Valid() && home.blinds == this && Fits(RemoteStates(home.remotes)) && home.config.Room() > 0
      requires id in blinds && OnlyPrimary(id)
      modifies this`blinds, home`remotes, config.storage, config.storage.flash
      ensures home.Valid() && removed == old(blinds[id]) && config.Room() > 0 && id < 0x1_0000
      ensures blinds == old(blinds) - {id} && |blinds| <= old(|blinds|)
      ensures home.remotes == old(home.remotes) - {removed.remote.remoteId}
      ensures id in old(home.House()).blinds
      ensures home.House() == H.DeleteRemote(H.TakeBlind(old(home.House()), id), old(home.House()).blinds[id].remoteId)
      ensures W.Made(old(config.storage.history), config.storage.history, old(config.Disk()), config.Disk(),
                     O.RemovalWrites(removed.remote.remoteId, config.Disk()))
    {
      hide D.DeviceConfig.Valid, D.DeviceConfig.Disk, D.DeviceConfig.Room, States, RemoteStates, Keyed, Linked,
        RemotesKeyed, H.TakeBlind, H.DeleteRemote, Fits, OfKind, OnlyPrimary, SomfyRemotes.NotPrimary,
        SomfyRemotes.House, W.Made, O.RemovalWrites;
      home.HouseFields();
      removed := TakeBlind(id, home);
      home.DeleteRemote(removed.remote.remoteId);
    }

    /** Delete a blind, and its primary remote with it. */
    method DeleteBlind(id: u32, home: SomfyRemotes) returns (removed: Blind)
      requires home.Valid() && home.blinds == this && Fits(RemoteStates(home.remotes)) && home.config.Room() > 0
      requires |blinds| <= MAX_IDS16 && id in blinds && OnlyPrimary(id)
      modifies this`blinds, home`remotes, config.storage, config.storage.flash
      ensures home.Valid() && removed == old(blinds[id]) && blinds == old(blinds) - {id}
      ensures home.remotes == old(home.remotes) - {removed.remote.remoteId}
      ensures home.House() == H.DeleteBlind(old(home.House()), id)
      ensures BlindRemovedSo(old(config.storage.history), config.storage.history, old(config.Disk()), config.Disk(),
                             removed.remote.remoteId, id)
    {
      hide D.DeviceConfig.Valid, D.DeviceConfig.Disk, D.DeviceConfig.Room, States, RemoteStates, Keyed, Linked,
        RemotesKeyed, H.TakeBlind, H.DeleteRemote, H.ForgetBlind, Fits, OfKind, OnlyPrimary, SomfyRemotes.House,
        BlindRemovedSo, W.Made, O.RemovalWrites, O.ExitWrites;
      ghost var d, h0 := config.Disk(), config.storage.history;
      removed := TakeWithRemote(id, home);
      ghost var e, h1 := config.Disk(), config.storage.history;
      ForgetBlind(id, home);
      RemovalMade(h0, h1, config.storage.history, d, e, config.Disk(), removed.remote.remoteId, id);
    }

    /** The request to delete a blind; there may be none of this id. */
    method DoDeleteBlind(id: u32, home: SomfyRemotes) returns (ok: bool)
      requires home.Valid() && home.blinds == this && Fits(RemoteStates(home.remotes)) && home.config.Room() > 0
      requires |blinds| <= MAX_IDS16 && OnlyPrimary(id)
      modifies this`blinds, home`remotes, config.storage, config.storage.flash
      ensures home.Valid() && ok == (id in old(blinds))
      ensures blinds == old(blinds) - {id} && home.remotes.Keys <= old(home.remotes).Keys
      ensures forall r :: r in home.remotes ==> home.remotes[r] == old(home.remotes)[r]
      ensures home.House() == H.DeleteBlind(old(home.House()), id)
      ensures if ok then
                BlindRemovedSo(old(config.storage.history), config.storage.history, old(config.Disk()), config.Disk(),
                               old(blinds[id]).remote.remoteId, id)
              else config.storage.history == old(config.storage.history)
    {
      hide D.DeviceConfig.Valid, D.DeviceConfig.Disk, D.DeviceConfig.Room, States, RemoteStates, Keyed, Linked,
        RemotesKeyed, H.TakeBlind, H.DeleteRemote, H.ForgetBlind, Fits, OfKind, OnlyPrimary, SomfyRemotes.House,
        BlindRemovedSo;
      home.HouseFields();
      ok := id in blinds;
      if ok {
        var removed := DeleteBlind(id, home);
      }
    }

    // -------------------------------------------------------------- reloading

    method PlaceLoaded(id: u16, cfg: BlindConfig, remote: SomfyRemote, now: int, ghost remotes: map<u32, SomfyRemote>)
      requires Keyed(blinds) && Linked(remotes, blinds) && cfg.remoteId == remote.remoteId
      requires remote.remoteId in remotes && remotes[remote.remoteId] == remote
      modifies this`blinds
      ensures Keyed(blinds) && Linked(remotes, blinds) && |blinds| <= old(|blinds|) + 1
      ensures forall b :: b in blinds ==> (b in old(blinds) && blinds[b] == old(blinds)[b]) || fresh(blinds[b])
      ensures States(blinds)
           == if id in old(blinds) then old(States(blinds)) else old(States(blinds))[id := H.LoadedBlind(cfg, now)]
    {
      hide Keyed, Linked, States;
      var blind := new Blind(id, cfg.name, cfg.currentPosition, cfg.myPosition, cfg.openTime, cfg.closeTime, remote,
                             now);
      PutBlind(id, blind, remotes);
    }

    /** Reload one listed blind; one whose remote is gone loses its record. */
    method InitializeBlind(id: u16, now: int, home: SomfyRemotes) returns (orphan: bool)
      requires home.Valid() && home.blinds == this && id in config.Disk().blinds
      modifies this`blinds, config.storage, config.storage.flash
      ensures home.Valid() && config.Room() >= old(config.Room()) && |blinds| <= old(|blinds|) + 1
      ensures forall b :: b in blinds ==> (b in old(blinds) && blinds[b] == old(blinds)[b]) || fresh(blinds[b])
      ensures orphan == (old(config.Disk()).blinds[id].remoteId !in home.remotes)
      ensures config.Disk() == if orphan then H.DropBlind(old(config.Disk()), id) else old(config.Disk())
      ensures States(blinds) ==
              H.LoadBlind(old(config.Disk()), RemoteStates(home.remotes), old(States(blinds)), id, now)
      ensures W.Made(old(config.storage.history), config.storage.history, old(config.Disk()), config.Disk(),
                     if orphan then [W.DropBlind(id)] else [])
    {
      hide D.DeviceConfig.Valid, D.DeviceConfig.Disk, D.DeviceConfig.Room, States, RemoteStates, Keyed, Linked,
        RemotesKeyed, H.LoadedBlind, H.LoadBlind, H.DropBlind, W.Made, W.Wrote;
      var found := config.ReadBlindConfig(id);
      var cfg := found.value;
      orphan := cfg.remoteId !in home.remotes;
      LoadBlindMeans(config.Disk(), RemoteStates(home.remotes), States(blinds), id, now);
      if orphan {
        ghost var d, h0 := config.Disk(), config.storage.history;
        config.DeleteBlindConfig(id);
        DropMade(h0, config.storage.history, d, config.Disk(), id);
      } else {
        W.MadeNone(config.storage.history, config.Disk());
        RemoteAt(home.remotes, cfg.remoteId);
        PlaceLoaded(id, cfg, home.remotes[cfg.remoteId], now, home.remotes);
      }
    }

    /** The next id follows the largest listed. */
    method InitializeNext(id: u16, now: int, home: SomfyRemotes) returns (orphan: bool)
      requires home.Valid() && home.blinds == this && id in config.Disk().blinds
      modifies this, config.storage, config.storage.flash
      ensures home.Valid() && config.Room() >= old(config.Room()) && |blinds| <= old(|blinds|) + 1
      ensures forall b :: b in blinds ==> (b in old(blinds) && blinds[b] == old(blinds)[b]) || fresh(blinds[b])
      ensures nextId == if id >= old(nextId) then id as u32 + 1 else old(nextId)
      ensures orphan == (old(config.Disk()).blinds[id].remoteId !in home.remotes)
      ensures config.Disk() == if orphan then H.DropBlind(old(config.Disk()), id) else old(config.Disk())
      ensures States(blinds) ==
              H.LoadBlind(old(config.Disk()), RemoteStates(home.remotes), old(States(blinds)), id, now)
      ensures W.Made(old(config.storage.history), config.storage.history, old(config.Disk()), config.Disk(),
                     if orphan then [W.DropBlind(id)] else [])
    {
      hide D.DeviceConfig.Valid, D.DeviceConfig.Disk, D.DeviceConfig.Room, States, RemoteStates, Keyed, Linked,
        RemotesKeyed, H.LoadBlind, H.DropBlind, W.Made;
      if id >= nextId {
        nextId := id as u32 + 1;
      }
      orphan := InitializeBlind(id, now, home);
    }

    method InitializeBlinds(blindIds: seq<u16>, now: int, home: SomfyRemotes) returns (errors: bool)
      requires home.Valid() && home.blinds == this && blinds == map[] && nextId == 1 && config.Room() > 0
      requires H.NoDuplicates(blindIds) && forall b :: b in blindIds ==> b in config.Disk().blinds
      modifies this, config.storage, config.storage.flash
      ensures home.Valid() && config.Room() > 0 && |blinds| <= |blindIds|
      ensures forall b :: b in blinds ==> fresh(blinds[b])
      ensures var disk, remotes := old(config.Disk()), old(RemoteStates(home.remotes));
              && config.Disk() == Kept(disk, remotes, blindIds)
              && States(blinds) == H.LoadBlinds(disk, remotes, blindIds, now)
              && errors == (H.OrphansAmong(disk, remotes, blindIds) != {})
      ensures nextId == H.NextId(1, H.WideIds(blindIds)) <= 0x1_0000
      ensures W.Made(old(config.storage.history), config.storage.history, old(config.Disk()), config.Disk(),
                     O.Drops(O.OrphanList(old(config.Disk()), old(RemoteStates(home.remotes)), blindIds)))
    {
      hide D.DeviceConfig.Valid, D.DeviceConfig.Disk, D.DeviceConfig.Room, States, RemoteStates, Keyed, Linked,
        RemotesKeyed, H.LoadBlinds, H.LoadBlind, H.OrphansAmong, H.NextId, H.WideIds, H.DropBlind, H.NoDuplicates,
        Kept, W.Made, O.OrphanList;
      ghost var disk, remotes := config.Disk(), RemoteStates(home.remotes);
      NoBlinds(disk, remotes, blinds, now);
      assert blindIds[..0] == [] && H.WideIds(blindIds)[..0] == [];
      errors := false;
      ghost var h0 := config.storage.history;
      NoneDropped(h0, disk, remotes);
      for a := 0 to |blindIds|
        invariant home.Valid() && config.Room() > 0 && |blinds| <= a && forall b :: b in blinds ==> fresh(blinds[b])
        invariant config.Disk() == Kept(disk, remotes, blindIds[..a])
        invariant States(blinds) == H.LoadBlinds(disk, remotes, blindIds[..a], now)
        invariant nextId == H.NextId(1, H.WideIds(blindIds)[..a]) <= 0x1_0000
        invariant errors == (H.OrphansAmong(disk, remotes, blindIds[..a]) != {})
        invariant W.Made(h0, config.storage.history, disk, config.Disk(),
                         O.Drops(O.OrphanList(disk, remotes, blindIds[..a])))
      {
        ghost var e, h1 := config.Disk(), config.storage.history;
        OneMoreBlind(disk, remotes, blindIds, a, now);
        var orphan := InitializeNext(blindIds[a], now, home);
        errors := errors || orphan;
        O.OneMoreOrphan(disk, remotes, blindIds, a);
        W.MadeMore(h0, h1, config.storage.history, disk, e, config.Disk(),
                   O.Drops(O.OrphanList(disk, remotes, blindIds[..a])),
                   if orphan then [W.DropBlind(blindIds[a])] else []);
      }
      assert blindIds[..|blindIds|] == blindIds && H.WideIds(blindIds)[..|blindIds|] == H.WideIds(blindIds);
    }

    /** Reload the listed blinds; if some had lost their remote, save the list again. */
    method Initialize(now: int, home: SomfyRemotes)
      requires home.Valid() && home.blinds == this && blinds == map[] && nextId == 1 && config.Room() > 0
      requires H.Bootable(config.Disk()) && H.NoDuplicates(config.Disk().blindIds)
      modifies this, config.storage, config.storage.flash
      ensures home.Valid() && forall b :: b in blinds ==> fresh(blinds[b])
      ensures home.House() == H.ReloadBlinds(old(home.House()), now)
      ensures W.Made(old(config.storage.history), config.storage.history, old(config.Disk()), config.Disk(),
                     O.LoadingWrites(old(config.Disk()), old(RemoteStates(home.remotes)), config.Disk()))
    {
      hide D.DeviceConfig.Valid, D.DeviceConfig.Disk, D.DeviceConfig.Room, States, RemoteStates, Keyed, Linked,
        RemotesKeyed, H.LoadBlinds, H.OrphansAmong, H.NextId, H.WideIds, H.SaveBlindList, H.NoDuplicates,
        H.ReloadBlinds, Kept, W.Made, O.OrphanList, O.Drops, O.LoadingWrites;
      ghost var d, h0, remotes := config.Disk(), config.storage.history, RemoteStates(home.remotes);
      var blindIds := config.GetIdList(V.BLIND_IDS_KEY);
      var errors := InitializeBlinds(blindIds, now, home);
      AllReloaded(old(home.House()), now);
      ghost var e, h1 := config.Disk(), config.storage.history;
      if errors {
        SaveBlindList(home);
      }
      LoadingMade(h0, h1, config.storage.history, d, e, config.Disk(), remotes, errors);
    }

    // -------------------------------------------------------------- moving a blind

    /** A blind's own command, passed on as a press of its primary remote where it makes one. */
    method Command(id: u32, command: H.BlindCommand, now: int, home: SomfyRemotes) returns (ghost accepted: bool)
      requires home.Valid() && home.blinds == this && id in blinds
               && H.BlindsExist(home.House(), blinds[id].remote.remoteId)
      modifies home.remotes.Values, home.queue, blinds.Values
      ensures home.Valid()
      ensures home.House() == H.CommandBlind(old(home.House()), id, command, now, accepted)
    {
      hide D.DeviceConfig.Valid, D.DeviceConfig.Disk, RemotesKeyed, Keyed, Linked, States, RemoteStates, H.Press,
        H.BlindsExist;
      BlindState(blinds, id);
      LinkedAt(home.remotes, blinds, id);
      accepted := false;
      var moving, remoteId := blinds[id].motionDirection != 0, blinds[id].remote.remoteId;
      match command {
        case GoUp => accepted := home.PressButtons(remoteId, M.UP, M.SHORT_PRESS, now);
        case GoDown => accepted := home.PressButtons(remoteId, M.DOWN, M.SHORT_PRESS, now);
        case Halt =>
          if moving {
            accepted := home.PressButtons(remoteId, M.MY, M.SHORT_PRESS, now);
          }
        case GoToMyPosition =>
          if !moving {
            accepted := home.PressButtons(remoteId, M.MY, M.SHORT_PRESS, now);
          }
        case SaveMyPosition =>
          if !moving {
            accepted := home.PressButtons(remoteId, M.MY, M.LONG_PRESS, now);
          }
      }
    }

    method SetTarget(id: u32, position: int, ghost home: SomfyRemotes)
      requires home.Valid() && home.blinds == this && id in blinds
      modifies blinds[id]
      ensures home.Valid()
      ensures home.House() ==
              H.SetMotion(old(home.House()), id, old(home.House()).blinds[id].motion.(target := position))
    {
      hide D.DeviceConfig.Valid, D.DeviceConfig.Disk, RemotesKeyed, Keyed, Linked, States, RemoteStates;
      SetTargetIn(blinds, id, position);
    }

    /** Press a button on a blind's primary remote, if that is wanted. */
    method PressIf(wanted: bool, id: u32, button: int, now: int, home: SomfyRemotes) returns (ghost accepted: bool)
      requires home.Valid() && home.blinds == this && id in blinds
               && H.BlindsExist(home.House(), blinds[id].remote.remoteId)
      modifies home.remotes.Values, home.queue, blinds.Values
      ensures home.Valid() && H.BlindsExist(home.House(), blinds[id].remote.remoteId)
      ensures home.House()
           == if wanted then H.Press(old(home.House()), blinds[id].remote.remoteId, button, M.SHORT_PRESS, now,
                                     accepted)
              else old(home.House())
      ensures id in home.House().blinds
      ensures home.House().blinds[id].motion.position == old(home.House()).blinds[id].motion.position
    {
      hide D.DeviceConfig.Valid, D.DeviceConfig.Disk, RemotesKeyed, Keyed, Linked, States, RemoteStates, H.Press,
        H.BlindsExist;
      LinkedAt(home.remotes, blinds, id);
      accepted := false;
      PressKeeps(home.House(), blinds[id].remote.remoteId, button, M.SHORT_PRESS, now);
      if wanted {
        accepted := home.PressButtons(blinds[id].remote.remoteId, button, M.SHORT_PRESS, now);
      }
    }

    /** Send a blind to a position. */
    method GoToPosition(id: u32, position: int, now: int, home: SomfyRemotes) returns (ghost accepted: bool)
      requires home.Valid() && home.blinds == this && id in blinds
               && H.BlindsExist(home.House(), blinds[id].remote.remoteId)
      requires M.Sane(blinds[id].Motion())
      modifies home.remotes.Values, home.queue, blinds.Values
      ensures home.Valid()
      ensures home.House() == H.GoTo(old(home.House()), id, position, now, accepted)
    {
      hide D.DeviceConfig.Valid, D.DeviceConfig.Disk, RemotesKeyed, Keyed, Linked, States, RemoteStates, H.Press,
        H.BlindsExist, H.SetMotion;
      BlindState(blinds, id);
      var p := if position > 100 then 100 else if position < 0 then 0 else position;
      var down := blinds[id].intermediatePosition > p as real || p == 0;
      accepted := PressIf(down, id, M.DOWN, now, home);
      BlindState(blinds, id);
      var up := blinds[id].intermediatePosition < p as real || p == 100;
      ghost var other := PressIf(up, id, M.UP, now, home);
      accepted := if up then other else accepted;
      SetTarget(id, p, home);
    }

    method Advance(id: u32, now: int, ghost home: SomfyRemotes) returns (arrived: bool)
      requires home.Valid() && home.blinds == this && id in blinds && M.Sane(blinds[id].Motion())
      requires blinds[id].motionDirection != 0
      modifies blinds[id]
      ensures home.Valid()
      ensures var h := old(home.House());
              && id in h.blinds && M.Sane(h.blinds[id].motion) && arrived == M.Arrives(h.blinds[id].motion, now)
              && home.House() == H.SetMotion(h, id, h.blinds[id].motion.(position :=
                                   if arrived then h.blinds[id].motion.target as real
                                     else M.Travelled(h.blinds[id].motion, now)))
    {
      hide D.DeviceConfig.Valid, D.DeviceConfig.Disk, RemotesKeyed, Keyed, Linked, States, RemoteStates, M.Arrives,
        M.Travelled;
      BlindState(blinds, id);
      arrived := AdvanceIn(blinds, id, now);
    }

    method Settle(id: u32, arrived: bool, now: int, ghost home: SomfyRemotes)
      requires home.Valid() && home.blinds == this && id in blinds
      modifies blinds[id]
      ensures home.Valid()
      ensures home.House() ==
              H.SetMotion(old(home.House()), id, Settled(old(home.House()).blinds[id].motion, arrived, now))
    {
      hide D.DeviceConfig.Valid, D.DeviceConfig.Disk, RemotesKeyed, Keyed, Linked, States, RemoteStates, Settled;
      SettleIn(blinds, id, arrived, now);
    }

    /** A timer tick: advance the estimate; on arrival stop the blind, by a My press where it is not at
        an end of its travel. */
    method UpdatePosition(id: u32, now: int, home: SomfyRemotes) returns (ghost accepted: bool)
      requires home.Valid() && home.blinds == this && id in blinds
               && H.BlindsExist(home.House(), blinds[id].remote.remoteId)
      requires M.Sane(blinds[id].Motion())
      modifies home.remotes.Values, home.queue, blinds.Values
      ensures home.Valid()
      ensures id in old(home.House()).blinds && M.Sane(old(home.House()).blinds[id].motion)
      ensures home.House() == H.TickBlind(old(home.House()), id, now, accepted)
    {
      hide D.DeviceConfig.Valid, D.DeviceConfig.Disk, RemotesKeyed, Keyed, Linked, States, RemoteStates, H.Press,
        M.Arrives, M.Travelled;
      BlindState(blinds, id);
      accepted := false;
      var arrived := false;
      ghost var h := home.House();
      if blinds[id].motionDirection != 0 {
        arrived := Advance(id, now, home);
        BlindState(blinds, id);
        var target := blinds[id].targetPosition;
        accepted := PressIf(arrived && target < 100 && target > 0, id, M.MY, now, home);
      }
      Settle(id, arrived, now, home);
      if h.blinds[id].motion.direction != 0 && !arrived {
        ghost var m := h.blinds[id].motion;
        SetMotionTwice(h, id, m.(position := M.Travelled(m, now)), M.Tick(m, now).0);
      }
    }

    /** Look through the blinds for one with this primary remote. */
    method IsAPrimaryRemote(remoteId: u32) returns (found: bool)
      ensures found <==> exists b :: b in blinds && blinds[b].remote.remoteId == remoteId
    {
      var order := H.Ascending(blinds.Keys);
      for i := 0 to |order|
        invariant forall j :: 0 <= j < i ==> blinds[order[j]].remote.remoteId != remoteId
      {
        if blinds[order[i]].remote.remoteId == remoteId {
          return true;
        }
      }
      forall b | b in blinds
        ensures blinds[b].remote.remoteId != remoteId
      {
        assert b in order;
      }
      found := false;
    }
  }

  class SomfyRemotes {
    const config: D.DeviceConfig
    const blinds: Blinds
    const queue: OutgoingQueue
    var remotes: map<u32, SomfyRemote>
    var nextId: u32

    ghost predicate Valid()
      reads this, config.storage, config.storage.flash, blinds
    {
      && config.Valid() && blinds.config == config
      && RemotesKeyed(remotes) && Keyed(blinds.blinds) && Linked(remotes, blinds.blinds)
    }

    /** What the objects hold. */
    ghost function House(): H.House
      requires config.Valid()
      reads this, remotes.Values, blinds, blinds.blinds.Values, queue, config.storage, config.storage.flash
    {
      H.House(config.Disk(), RemoteStates(remotes), nextId, States(blinds.blinds), blinds.nextId, queue.issued)
    }

    lemma HouseFields()
      requires config.Valid()
      ensures House().nextRemote == nextId && House().nextBlind == blinds.nextId && House().disk == config.Disk()
      ensures House().remotes.Keys == remotes.Keys && House().blinds.Keys == blinds.blinds.Keys
    {
      hide D.DeviceConfig.Valid, D.DeviceConfig.Disk;
    }

    /** Start from what is on flash: the remotes of both lists. */
    constructor (config: D.DeviceConfig, blinds: Blinds, queue: OutgoingQueue)
      requires config.Valid()
      ensures this.config == config && this.blinds == blinds && this.queue == queue
      ensures RemotesKeyed(remotes) && fresh(remotes.Values)
      ensures RemoteStates(remotes) == H.ReloadedRemotes(config.Disk())
      ensures nextId == H.NextId(H.BASE_REMOTE_ID + 1, H.InternalIdsOf(config.Disk().remoteIds))
    {
      this.config, this.blinds, this.queue, remotes, nextId := config, blinds, queue, map[], H.BASE_REMOTE_ID + 1;
      new;
      hide *;
      LoadLists();
    }

    method LoadLists()
      requires config.Valid() && remotes == map[] && nextId == H.BASE_REMOTE_ID + 1
      modifies this`remotes, this`nextId
      ensures RemotesKeyed(remotes) && fresh(remotes.Values)
      ensures RemoteStates(remotes) == H.ReloadedRemotes(config.Disk())
      ensures nextId == H.NextId(H.BASE_REMOTE_ID + 1, H.InternalIdsOf(config.Disk().remoteIds))
    {
      hide D.DeviceConfig.Valid, D.DeviceConfig.Disk, H.LoadRemotes, H.NextId, RemoteStates, RemotesKeyed;
      NothingLoaded(remotes);
      LoadInternals();
      LoadExternals();
    }

    /** The internal list holds the low halves of the ids; the next id follows the largest of them. */
    method LoadInternals()
      requires config.Valid() && RemotesKeyed(remotes) && nextId == H.BASE_REMOTE_ID + 1
      modifies this`remotes, this`nextId
      ensures RemotesKeyed(remotes) && fresh(remotes.Values - old(remotes.Values))
      ensures RemoteStates(remotes)
           == H.LoadRemotes(config.Disk(), old(RemoteStates(remotes)), H.InternalIdsOf(config.Disk().remoteIds), false)
      ensures nextId == H.NextId(H.BASE_REMOTE_ID + 1, H.InternalIdsOf(config.Disk().remoteIds))
    {
      hide D.DeviceConfig.Valid, D.DeviceConfig.Disk, H.LoadRemote, H.LoadRemotes, H.NextId, RemoteStates,
        RemotesKeyed;
      var lows := config.GetIdList(V.REMOTE_IDS_KEY);
      ghost var ids, was := H.InternalIdsOf(lows), RemoteStates(remotes);
      NoneYet(config.Disk(), was, ids, false, nextId);
      for a := 0 to |lows|
        invariant fresh(remotes.Values - old(remotes.Values)) && RemotesKeyed(remotes)
        invariant RemoteStates(remotes) == H.LoadRemotes(config.Disk(), was, ids[..a], false)
        invariant nextId == H.NextId(H.BASE_REMOTE_ID + 1, ids[..a]) <= 0x28_0000
      {
        var id := H.BASE_REMOTE_ID + lows[a];
        OneMore(config.Disk(), was, ids, false, H.BASE_REMOTE_ID + 1, a);
        if id >= nextId {
          nextId := id + 1;
        }
        LoadRemote(id, false);
      }
      assert ids[..|lows|] == ids;
    }

    method LoadExternals()
      requires config.Valid() && RemotesKeyed(remotes)
      modifies this`remotes
      ensures RemotesKeyed(remotes) && fresh(remotes.Values - old(remotes.Values))
      ensures RemoteStates(remotes) ==
              H.LoadRemotes(config.Disk(), old(RemoteStates(remotes)), config.Disk().externalIds, true)
    {
      hide D.DeviceConfig.Valid, D.DeviceConfig.Disk, H.LoadRemote, H.LoadRemotes, H.NextId, RemoteStates,
        RemotesKeyed;
      var ids := config.GetIdList32();
      ghost var was := RemoteStates(remotes);
      NoneYet(config.Disk(), was, ids, true, 0);
      for a := 0 to |ids|
        invariant fresh(remotes.Values - old(remotes.Values)) && RemotesKeyed(remotes)
        invariant RemoteStates(remotes) == H.LoadRemotes(config.Disk(), was, ids[..a], true)
      {
        OneMore(config.Disk(), was, ids, true, 0, a);
        LoadRemote(ids[a], true);
      }
      assert ids[..|ids|] == ids;
    }

    /** Reload one listed remote; one already there stays. */
    method LoadRemote(id: u32, external: bool)
      requires config.Valid() && RemotesKeyed(remotes)
      modifies this`remotes
      ensures RemotesKeyed(remotes) && fresh(remotes.Values - old(remotes.Values))
      ensures RemoteStates(remotes) == H.LoadRemote(config.Disk(), old(RemoteStates(remotes)), id, external)
    {
      hide D.DeviceConfig.Valid, D.DeviceConfig.Disk, H.ReadRemote;
      var cfg := config.ReadRemoteConfig(id);
      if cfg.Some? {
        var c := cfg.value;
        var remote := new SomfyRemote(c.name, id, c.rollingCode, c.blinds, external);
        assert RemoteStates(remotes) == old(RemoteStates(remotes));
        if id !in remotes {
          remotes := remotes[id := remote];
          assert RemoteStates(remotes) == old(RemoteStates(remotes))[id := remote.State()];
        }
      }
    }

    // -------------------------------------------------------------- saving

    /** The low halves of the internal remotes' ids, then the ids of the external remotes. */
    method SaveRemoteList()
      requires config.Valid() && Fits(RemoteStates(remotes)) && config.Room() > 0
      modifies config.storage, config.storage.flash
      ensures config.Valid() && config.Room() >= old(config.Room())
      ensures config.Disk() == H.StoreLists(old(config.Disk()), RemoteStates(remotes))
      ensures W.Made(old(config.storage.history), config.storage.history, old(config.Disk()), config.Disk(),
                     O.ListsWrites(config.Disk()))
    {
      hide D.DeviceConfig.Valid, D.DeviceConfig.Disk, D.DeviceConfig.Room, H.Ascending, H.InternalIds,
        H.ExternalIds, Fits, OfKind, W.Made;
      var order := H.Ascending(remotes.Keys);
      ghost var states := RemoteStates(remotes);
      assert forall id :: id in remotes ==> remotes[id].isExternal == states[id].external;
      hide RemoteStates;
      var internals := CollectInternals(remotes, order, states);
      var externals := CollectExternals(remotes, order, states);
      StoreIds(internals, externals);
      assert RemoteStates(remotes) == states;
    }

    method StoreIds(internals: seq<u16>, externals: seq<u32>)
      requires config.Valid() && |internals| <= MAX_IDS16 && |externals| <= MAX_IDS32 && config.Room() > 0
      modifies config.storage, config.storage.flash
      ensures config.Valid() && config.Room() >= old(config.Room())
      ensures config.Disk() == old(config.Disk()).(remoteIds := internals, externalIds := externals)
      ensures W.Made(old(config.storage.history), config.storage.history, old(config.Disk()), config.Disk(),
                     [W.PutInternals(internals), W.PutExternals(externals)])
    {
      hide D.DeviceConfig.Valid, D.DeviceConfig.Disk, D.DeviceConfig.Room, W.Made, W.Wrote;
      ghost var d, h0 := config.Disk(), config.storage.history;
      ghost var stored := config.SaveIdList(V.REMOTE_IDS_KEY, internals);
      ghost var e, h1 := config.Disk(), config.storage.history;
      W.MadeOne(h0, h1, d, e, W.PutInternals(internals));
      stored := config.SaveIdList32(externals);
      W.MadeOne(h1, config.storage.history, e, config.Disk(), W.PutExternals(externals));
      W.MadeMore(h0, h1, config.storage.history, d, e, config.Disk(), [W.PutInternals(internals)],
                 [W.PutExternals(externals)]);
      assert [W.PutInternals(internals)] + [W.PutExternals(externals)]
        == [W.PutInternals(internals), W.PutExternals(externals)];
    }

    /** Every remote has a record, so that saving one takes no new space. */
    ghost predicate AllRecorded()
      requires config.Valid()
      reads this, config.storage, config.storage.flash
    {
      forall r :: r in remotes ==> H.Low(r) in config.Disk().remotes
    }

    method SaveOne(id: u32)
      requires config.Valid() && RemotesKeyed(remotes) && id in remotes && AllRecorded() && config.Room() > 0
      modifies remotes.Values, config.storage, config.storage.flash
      ensures config.Valid() && AllRecorded() && config.Room() >= old(config.Room())
      ensures House() == H.SaveRemote(old(House()), id, false)
      ensures W.Made(old(config.storage.history), config.storage.history, old(config.Disk()), config.Disk(),
                     O.RemoteWrite(old(House()), id))
    {
      hide D.DeviceConfig.Valid, D.DeviceConfig.Disk, D.DeviceConfig.Room, H.RemoteRecord, RemoteStates,
        RemotesKeyed, W.Made;
      SaveRemoteIn(remotes, id, config);
    }

    /** Save whatever changed, remote after remote. */
    method SaveRemoteState()
      requires config.Valid() && RemotesKeyed(remotes) && AllRecorded() && config.Room() > 0
      modifies remotes.Values, config.storage, config.storage.flash
      ensures config.Valid() && AllRecorded() && config.Room() >= old(config.Room())
      ensures House() == H.SaveRemotes(old(House()), H.Ascending(old(House()).remotes.Keys))
      ensures W.Made(old(config.storage.history), config.storage.history, old(config.Disk()), config.Disk(),
                     O.AllRemoteWrites(old(House())))
    {
      hide D.DeviceConfig.Valid, D.DeviceConfig.Disk, D.DeviceConfig.Room, H.SaveRemotes, AllRecorded, H.Ascending,
        RemotesKeyed, RemoteStates, States, W.Made, O.RemoteWrites;
      SaveInOrder(H.Ascending(remotes.Keys));
    }

    method SaveInOrder(order: seq<u32>)
      requires config.Valid() && RemotesKeyed(remotes) && AllRecorded() && config.Room() > 0
      requires forall id :: id in order ==> id in remotes
      requires O.AllDifferent(order)
      modifies remotes.Values, config.storage, config.storage.flash
      ensures config.Valid() && AllRecorded() && config.Room() >= old(config.Room())
      ensures House() == H.SaveRemotes(old(House()), order)
      ensures W.Made(old(config.storage.history), config.storage.history, old(config.Disk()), config.Disk(),
                     O.RemoteWrites(old(House()), order))
    {
      hide D.DeviceConfig.Valid, D.DeviceConfig.Disk, D.DeviceConfig.Room, H.SaveRemote, AllRecorded, RemotesKeyed,
        RemoteStates, States, W.Made, O.RemoteWrite, O.RemoteWrites;
      ghost var d, h0 := config.Disk(), config.storage.history;
      ghost var h := House();
      NothingMade(h, h0);
      for i := 0 to |order|
        invariant config.Valid() && AllRecorded() && config.Room() >= old(config.Room())
        invariant House() == H.SaveRemotes(h, order[..i])
        invariant W.Made(h0, config.storage.history, d, config.Disk(), O.RemoteWrites(h, order[..i]))
      {
        assert order[..i + 1][..i] == order[..i];
        O.OneMoreRemote(h, order, i);
        ghost var e, h1 := config.Disk(), config.storage.history;
        SaveOne(order[i]);
        W.MadeMore(h0, h1, config.storage.history, d, e, config.Disk(), O.RemoteWrites(h, order[..i]),
                   O.RemoteWrite(H.SaveRemotes(h, order[..i]), order[i]));
      }
      assert order[..|order|] == order;
    }

    // -------------------------------------------------------------- adding and removing

    /** One more remote of this kind still fits the lists. */
    ghost predicate RoomFor(external: bool)
      reads this, remotes.Values
    {
      && Fits(RemoteStates(remotes))
      && |OfKind(RemoteStates(remotes), remotes.Keys, external)| < (if external then MAX_IDS32 else MAX_IDS16)
    }

    /** A new remote in the table, unless there is one of this id already. */
    method InsertRemote(id: u32, name: Name, external: bool) returns (remote: SomfyRemote)
      requires RemotesKeyed(remotes) && RoomFor(external)
      modifies this`remotes
      ensures RemotesKeyed(remotes) && Fits(RemoteStates(remotes))
      ensures fresh(remote) && remote.remoteId == id && remote.State() == H.Remote(name, 1, [], external, false)
      ensures remotes == if id in old(remotes) then old(remotes) else old(remotes)[id := remote]
      ensures RemoteStates(remotes)
           == if id in old(remotes) then old(RemoteStates(remotes))
             else old(RemoteStates(remotes))[id := remote.State()]
    {
      hide Fits, OfKind;
      remote := new SomfyRemote(name, id, 1, [], external);
      OneMoreFits(RemoteStates(remotes), id, remote.State());
      assert RemoteStates(remotes) == old(RemoteStates(remotes));
      if id !in remotes {
        remotes := remotes[id := remote];
        assert RemoteStates(remotes) == old(RemoteStates(remotes))[id := remote.State()];
      }
    }

    /** Save a new remote's record, then the lists. */
    method SaveNew(remote: SomfyRemote)
      requires config.Valid() && Fits(RemoteStates(remotes)) && !remote.isDirty && config.Room() > 1
      modifies remote`isDirty, config.storage, config.storage.flash
      ensures config.Valid() && config.Room() >= old(config.Room()) - 1 && remote.State() == old(remote.State())
      ensures var h := old(House());
              House() == h.(disk := H.StoreLists(H.StoreRemote(h.disk, remote.remoteId, remote.State()), h.remotes))
      ensures W.Made(old(config.storage.history), config.storage.history, old(config.Disk()), config.Disk(),
                     [W.PutRemote(H.Low(remote.remoteId), H.RemoteRecord(remote.remoteId, remote.State()))]
                     + O.ListsWrites(config.Disk()))
    {
      hide D.DeviceConfig.Valid, D.DeviceConfig.Disk, D.DeviceConfig.Room, H.StoreLists, H.StoreRemote, Fits,
        States, W.Made, W.Wrote, H.RemoteRecord, H.Low;
      ghost var d, h0 := config.Disk(), config.storage.history;
      ghost var stored := remote.SaveConfig(config, true);
      ghost var e, h1 := config.Disk(), config.storage.history;
      RemoteMade(h0, h1, d, e, remote.remoteId, remote.State(), true);
      assert RemoteStates(remotes) == old(RemoteStates(remotes));
      hide RemoteStates;
      SaveRemoteList();
      W.MadeMore(h0, h1, config.storage.history, d, e, config.Disk(),
                 [W.PutRemote(H.Low(remote.remoteId), H.RemoteRecord(remote.remoteId, remote.State()))],
                 O.ListsWrites(config.Disk()));
    }

    method EnterRemote(id: u32, name: Name, external: bool) returns (remote: SomfyRemote)
      requires config.Valid() && RemotesKeyed(remotes) && RoomFor(external)
      modifies this`remotes
      ensures config.Valid() && RemotesKeyed(remotes) && Fits(RemoteStates(remotes))
      ensures fresh(remote) && remote.remoteId == id && remote.State() == H.Remote(name, 1, [], external, false)
      ensures remotes == if id in old(remotes) then old(remotes) else old(remotes)[id := remote]
      ensures var h := old(House());
              House() == h.(remotes := if id in h.remotes then h.remotes
                                       else h.remotes[id := H.Remote(name, 1, [], external, false)])
    {
      hide D.DeviceConfig.Valid, D.DeviceConfig.Disk, Fits, OfKind, RemotesKeyed, RemoteStates, States;
      remote := InsertRemote(id, name, external);
    }

    /** Add a remote under an id, save its record and the lists. */
    method AddRemote(id: u32, name: Name, external: bool) returns (remote: SomfyRemote)
      requires config.Valid() && RemotesKeyed(remotes) && RoomFor(external) && config.Room() > 1
      modifies this`remotes, config.storage, config.storage.flash
      ensures config.Valid() && RemotesKeyed(remotes) && config.Room() >= old(config.Room()) - 1
      ensures fresh(remote) && remote.remoteId == id
      ensures remotes == if id in old(remotes) then old(remotes) else old(remotes)[id := remote]
      ensures House() == H.AddRemote(old(House()), id, name, external)
      ensures W.Made(old(config.storage.history), config.storage.history, old(config.Disk()), config.Disk(),
                     O.AdditionWrites(id, name, external, config.Disk()))
    {
      hide D.DeviceConfig.Valid, D.DeviceConfig.Disk, D.DeviceConfig.Room, H.StoreLists, H.StoreRemote, Fits,
        OfKind, RemotesKeyed, RemoteStates, SomfyRemotes.House, W.Made;
      remote := EnterRemote(id, name, external);
      SaveNew(remote);
      SavedLists(old(House()), id, remote.State());
      O.AdditionIs(id, name, external, config.Disk());
    }

    /** A new remote under the next id. */
    method CreateRemote(name: Name) returns (remote: SomfyRemote)
      requires Valid() && RoomFor(false) && config.Room() > 1
      modifies this`remotes, this`nextId, config.storage, config.storage.flash
      ensures Valid() && config.Room() >= old(config.Room()) - 1
      ensures fresh(remote) && remote.remoteId == old(nextId)
      ensures remotes == if old(nextId) in old(remotes) then old(remotes) else old(remotes)[old(nextId) := remote]
      ensures House() == H.CreateRemote(old(House()), name)
      ensures W.Made(old(config.storage.history), config.storage.history, old(config.Disk()), config.Disk(),
                     O.AdditionWrites(old(nextId), name, false, config.Disk()))
    {
      hide D.DeviceConfig.Valid, D.DeviceConfig.Disk, D.DeviceConfig.Room, H.AddRemote, Fits, OfKind, RemoteStates,
        RemotesKeyed, Keyed, Linked, W.Made, O.AdditionWrites;
      var id := nextId;
      nextId := (nextId + 1) % 0x1_0000_0000;
      remote := AddRemote(id, name, false);
      if id !in old(remotes) {
        LinkedMore(old(remotes), id, remote, blinds.blinds);
      }
    }

    /** The web interface's request for a new remote; a bad name is refused. */
    method DoAddRemote(name: seq<Byte>) returns (ok: bool)
      requires Valid() && (H.NameAllowed(name) ==> RoomFor(false) && config.Room() > 1)
      modifies this`remotes, this`nextId, config.storage, config.storage.flash
      ensures Valid()
      ensures forall r :: r in remotes ==> (r in old(remotes) && remotes[r] == old(remotes)[r]) || fresh(remotes[r])
      ensures ok == H.NameAllowed(name)
      ensures House() == if ok then H.CreateRemote(old(House()), name) else old(House())
      ensures W.Made(old(config.storage.history), config.storage.history, old(config.Disk()), config.Disk(),
                     if ok then O.AdditionWrites(old(nextId), name, false, config.Disk()) else [])
    {
      hide D.DeviceConfig.Valid, D.DeviceConfig.Disk, D.DeviceConfig.Room, H.AddRemote, Fits, OfKind, RemoteStates,
        W.Made, O.AdditionWrites;
      ok := |name| > 0 && |name| < NAME_SIZE && 0x22 !in name && IsText(name);
      if ok {
        var remote := CreateRemote(name);
      } else {
        W.MadeNone(config.storage.history, config.Disk());
      }
    }

    /** The request to follow a genuine remote; a bad name, or an id already there, is refused. */
    method DoImportRemote(name: seq<Byte>, id: u32) returns (ok: bool)
      requires Valid() && (H.NameAllowed(name) && id !in remotes ==> RoomFor(true) && config.Room() > 1)
      modifies this`remotes, config.storage, config.storage.flash
      ensures Valid()
      ensures forall r :: r in remotes ==> (r in old(remotes) && remotes[r] == old(remotes)[r]) || fresh(remotes[r])
      ensures ok == (H.NameAllowed(name) && id !in old(remotes))
      ensures House() == if H.NameAllowed(name) then H.ImportRemote(old(House()), id, name) else old(House())
      ensures W.Made(old(config.storage.history), config.storage.history, old(config.Disk()), config.Disk(),
                     if ok then O.AdditionWrites(id, name, true, config.Disk()) else [])
    {
      hide D.DeviceConfig.Valid, D.DeviceConfig.Disk, D.DeviceConfig.Room, H.AddRemote, Fits, OfKind, RemoteStates,
        RemotesKeyed, Keyed, Linked, W.Made, O.AdditionWrites;
      W.MadeNone(config.storage.history, config.Disk());
      if |name| == 0 || |name| >= NAME_SIZE || 0x22 in name || !IsText(name) {
        return false;
      }
      if id in remotes {
        return false;
      }
      var remote := AddRemote(id, name, true);
      LinkedMore(old(remotes), id, remote, blinds.blinds);
      ok := true;
    }

    /** No blind has this remote as its primary one. */
    ghost predicate NotPrimary(id: u32)
      reads blinds
    {
      forall b :: b in blinds.blinds ==> blinds.blinds[b].remote.remoteId != id
    }

    method DeleteRemote(id: u32)
      requires Valid() && NotPrimary(id) && Fits(RemoteStates(remotes)) && config.Room() > 0
      modifies this`remotes, config.storage, config.storage.flash
      ensures Valid() && remotes == old(remotes) - {id} && config.Room() >= old(config.Room())
      ensures House() == H.DeleteRemote(old(House()), id)
      ensures W.Made(old(config.storage.history), config.storage.history, old(config.Disk()), config.Disk(),
                     O.RemovalWrites(id, config.Disk()))
    {
      hide D.DeviceConfig.Valid, D.DeviceConfig.Disk, D.DeviceConfig.Room, H.StoreLists, H.DropRemote, Fits,
        OfKind, RemoteStates, States, RemotesKeyed, Keyed, Linked, W.Made, O.RemovalWrites;
      LinkedFewer(remotes, id, blinds.blinds);
      hide NotPrimary;
      RemoveRemote(id);
      ForgetRemote(id);
    }

    /** Clear a remote's record, and save the lists as they are now. */
    method ForgetRemote(id: u32)
      requires config.Valid() && Fits(RemoteStates(remotes)) && config.Room() > 0
      modifies config.storage, config.storage.flash
      ensures config.Valid() && config.Room() >= old(config.Room())
      ensures config.Disk() == H.StoreLists(H.DropRemote(old(config.Disk()), id), RemoteStates(remotes))
      ensures W.Made(old(config.storage.history), config.storage.history, old(config.Disk()), config.Disk(),
                     O.RemovalWrites(id, config.Disk()))
    {
      hide D.DeviceConfig.Valid, D.DeviceConfig.Disk, D.DeviceConfig.Room, H.StoreLists, Fits, RemoteStates,
        W.Made, W.Wrote;
      ghost var d, h0 := config.Disk(), config.storage.history;
      config.DeleteRemoteConfig(id);
      ghost var e, h1 := config.Disk(), config.storage.history;
      W.MadeOne(h0, h1, d, e, W.DropRemote(H.Low(id)));
      SaveRemoteList();
      W.MadeMore(h0, h1, config.storage.history, d, e, config.Disk(), [W.DropRemote(H.Low(id))],
                 O.ListsWrites(config.Disk()));
      O.RemovalIs(id, config.Disk());
    }

    method RemoveRemote(id: u32)
      requires Fits(RemoteStates(remotes))
      modifies this`remotes
      ensures remotes == old(remotes) - {id} && Fits(RemoteStates(remotes))
      ensures RemoteStates(remotes) == old(RemoteStates(remotes)) - {id}
    {
      hide Fits, OfKind;
      OneFewerFits(RemoteStates(remotes), id);
      remotes := remotes - {id};
      assert RemoteStates(remotes) == old(RemoteStates(remotes)) - {id};
    }

    /** The request to delete a remote; a blind's primary one goes with its blind only. */
    method DoDeleteRemote(id: u32) returns (ok: bool)
      requires Valid() && id in remotes && Fits(RemoteStates(remotes)) && config.Room() > 0
      modifies this`remotes, config.storage, config.storage.flash
      ensures Valid() && remotes == if ok then old(remotes) - {id} else old(remotes)
      ensures ok == !H.IsAPrimaryRemote(old(House()), id)
      ensures House() == if ok then H.DeleteRemote(old(House()), id) else old(House())
      ensures W.Made(old(config.storage.history), config.storage.history, old(config.Disk()), config.Disk(),
                     if ok then O.RemovalWrites(id, config.Disk()) else [])
    {
      hide D.DeviceConfig.Valid, D.DeviceConfig.Disk, D.DeviceConfig.Room, H.DeleteRemote, Fits, OfKind,
        RemoteStates, W.Made, O.RemovalWrites;
      var primary := blinds.IsAPrimaryRemote(id);
      PrimaryMeans(id);
      if primary {
        W.MadeNone(config.storage.history, config.Disk());
        return false;
      }
      DeleteRemote(id);
      ok := true;
    }

    lemma PrimaryMeans(id: u32)
      requires config.Valid()
      ensures H.IsAPrimaryRemote(House(), id) <==> !NotPrimary(id)
    {
    }

    lemma NothingMade(h: H.House, history: seq<seq<Slot>>)
      ensures W.Made(history, history, h.disk, h.disk, O.RemoteWrites(h, []))
      ensures H.AllStorable(h.blinds) ==>
                W.Made(history, history, h.disk, h.disk, O.BlindWrites(h, [], false))
                && W.Made(history, history, h.disk, h.disk, O.BlindWrites(h, [], true))
    {
      hide W.Made, H.AllStorable;
      W.MadeNone(history, h.disk);
    }

    // -------------------------------------------------------------- changing one remote

    /** The request to rename a remote. */
    method DoUpdateRemote(id: u32, name: seq<Byte>) returns (ok: bool)
      requires Valid()
      modifies remotes.Values
      ensures Valid() && ok == (id in remotes && H.NameAllowed(name))
      ensures House() == if H.NameAllowed(name) then H.SetName(old(House()), id, name) else old(House())
    {
      hide D.DeviceConfig.Valid, D.DeviceConfig.Disk, D.DeviceConfig.Room, Linked, Keyed;
      if id !in remotes {
        return false;
      }
      if |name| == 0 || |name| >= NAME_SIZE || 0x22 in name || !IsText(name) {
        return false;
      }
      remotes[id].SetName(name);
      assert RemoteStates(remotes) == old(RemoteStates(remotes))[id := remotes[id].State()];
      ok := true;
    }

    method Bind(id: u32, blindId: u16)
      requires Valid() && id in remotes
      modifies remotes[id]
      ensures Valid() && House() == H.Bind(old(House()), id, blindId)
    {
      hide D.DeviceConfig.Valid, D.DeviceConfig.Disk, RemoteStates, States, RemotesKeyed, Linked, Keyed;
      AssociateIn(remotes, id, blindId);
    }

    /** The requests to bind a blind to a remote, and to unbind it; the blind must exist. */
    method DoBindBlind(id: u32, blindId: u16) returns (ok: bool)
      requires Valid()
      modifies remotes.Values
      ensures Valid() && ok == (id in remotes && blindId in blinds.blinds)
      ensures House() == H.BindBlind(old(House()), id, blindId, true)
    {
      hide D.DeviceConfig.Valid, D.DeviceConfig.Disk, D.DeviceConfig.Room, Linked, Keyed;
      if id !in remotes || blindId !in blinds.blinds {
        return false;
      }
      remotes[id].AssociateBlind(blindId);
      assert RemoteStates(remotes) == old(RemoteStates(remotes))[id := remotes[id].State()];
      ok := true;
    }

    method DoUnbindBlind(id: u32, blindId: u16) returns (ok: bool)
      requires Valid()
      modifies remotes.Values
      ensures Valid() && ok == (id in remotes && blindId in blinds.blinds)
      ensures House() == H.BindBlind(old(House()), id, blindId, false)
    {
      hide D.DeviceConfig.Valid, D.DeviceConfig.Disk, D.DeviceConfig.Room, Linked, Keyed;
      if id !in remotes || blindId !in blinds.blinds {
        return false;
      }
      remotes[id].DisassociateBlind(blindId);
      assert RemoteStates(remotes) == old(RemoteStates(remotes))[id := remotes[id].State()];
      ok := true;
    }

    lemma ListedBlinds(id: u32)
      requires config.Valid() && id in remotes && H.BlindsExist(House(), id)
      ensures forall b :: b in remotes[id].associatedBlinds ==> b in blinds.blinds
    {
    }

    /** Press buttons on one of the remotes. */
    method PressButtons(id: u32, buttons: int, repeat: u16, now: int) returns (ghost accepted: bool)
      requires Valid() && id in remotes && H.BlindsExist(House(), id)
      modifies remotes[id], queue, blinds.blinds.Values
      ensures Valid()
      ensures House() == H.Press(old(House()), id, buttons, repeat, now, accepted)
    {
      hide D.DeviceConfig.Valid, D.DeviceConfig.Disk, D.DeviceConfig.Room, H.PressBlinds, States, RemoteStates,
        RemotesKeyed, Linked, Keyed;
      ListedBlinds(id);
      accepted := PressIn(remotes, id, queue, blinds.blinds, buttons, repeat, now);
    }

    /** The request to press buttons on a remote, briefly or for long. */
    method DoButtonPress(id: u32, buttons: int, longPress: bool, now: int) returns (ok: bool, ghost accepted: bool)
      requires Valid() && H.BlindsExist(House(), id)
      modifies remotes.Values, queue, blinds.blinds.Values
      ensures Valid() && ok == (id in remotes)
      ensures House() ==
              H.Press(old(House()), id, buttons, if longPress then M.LONG_PRESS else M.SHORT_PRESS, now, accepted)
    {
      hide D.DeviceConfig.Valid, D.DeviceConfig.Disk, D.DeviceConfig.Room, H.PressBlinds, States, RemoteStates;
      if id !in remotes {
        return false, false;
      }
      accepted := PressButtons(id, buttons, if longPress then M.LONG_PRESS else M.SHORT_PRESS, now);
      ok := true;
    }

    /** A command was heard on the radio; it counts if its remote is one of these. */
    method ExternalButtonPress(id: u32, code: u16, button: int, repeat: u16, now: int)
      requires Valid() && H.BlindsExist(House(), id)
      modifies remotes.Values, blinds.blinds.Values
      ensures Valid() && House() == H.HearRemote(old(House()), id, code, button, repeat, now)
    {
      hide D.DeviceConfig.Valid, D.DeviceConfig.Disk, D.DeviceConfig.Room, H.PressBlinds, States, RemoteStates,
        RemotesKeyed, Linked, Keyed;
      if id in remotes {
        ListedBlinds(id);
        HearIn(remotes, id, blinds.blinds, button, repeat, code, now);
      }
    }
  }
}
