/** The whole device on its objects: what it does with every event, when it starts and when it stops,
    and that each is the step of the registry whose runs are studied in `HouseRuns`. */
module Device {
  import opened Basics
  import opened Records
  import opened Devices
  import opened Registry
  import opened Tables
  import H = House
  import I = HouseInvariant
  import R = HouseRuns
  import opened HouseRestart
  import opened HouseSpace
  import opened Answers
  import M = Motion
  import D = DeviceConfig
  import W = DiskWrites
  import O = OpWrites
  import opened Flash

  /** Everything a device is made of. */
  ghost function Objects(home: SomfyRemotes): set<object>
    reads home, home.blinds
  {
    {home, home.blinds, home.queue, home.config.storage, home.config.storage.flash}
    + home.remotes.Values + home.blinds.blinds.Values
  }

  /** What outlives a restart: the queue to the radio and the flash. */
  ghost function Lasting(config: D.DeviceConfig, queue: OutgoingQueue): set<object> {
    {queue, config.storage, config.storage.flash}
  }

  /** Bring up the blinds and the remotes from what is on flash. */
  method Boot(config: D.DeviceConfig, queue: OutgoingQueue, now: int) returns (home: SomfyRemotes)
    requires config.Valid() && config.Room() > 0
    requires H.Bootable(config.Disk()) && H.NoDuplicates(config.Disk().blindIds)
    modifies config.storage, config.storage.flash
    ensures home.config == config && home.queue == queue && home.Valid()
    ensures fresh(Objects(home) - Lasting(config, queue))
    ensures home.House() == H.Reload(old(config.Disk()), now, old(queue.issued))
    ensures W.Made(old(config.storage.history), config.storage.history, old(config.Disk()), config.Disk(),
                   O.StartWrites(old(config.Disk())))
  {
    hide D.DeviceConfig.Valid, D.DeviceConfig.Disk, D.DeviceConfig.Room, H.ReloadBlinds, H.ReloadedRemotes,
      H.NextId, H.InternalIdsOf, H.Bootable, H.NoDuplicates, States, RemoteStates, Keyed, Linked, RemotesKeyed,
      W.Made, O.LoadingWrites, O.StartWrites;
    var blinds := new Blinds(config);
    home := new SomfyRemotes(config, blinds, queue);
    EmptyTable(blinds.blinds, home.remotes);
    ghost var d := config.Disk();
    blinds.Initialize(now, home);
    O.StartIsSame(d, now, queue.issued);
  }

  /** The first start, or one with the reset button held: format, store default settings, come up
      empty, in a state from which every run is covered by the invariant. */
  method FirstBoot(config: D.DeviceConfig, queue: OutgoingQueue, wifi: seq<Byte>, mqtt: seq<Byte>, now: int)
    returns (home: SomfyRemotes)
    requires config.storage.Valid() && config.storage.sectors > 5 && 1 <= |wifi| <= BLOCK_SIZE
             && 1 <= |mqtt| <= BLOCK_SIZE
    modifies config.storage, config.storage.flash
    ensures home.config == config && home.queue == queue && home.Valid()
    ensures fresh(Objects(home) - Lasting(config, queue))
    ensures home.House() == H.NewHouse().(issued := queue.issued)
    ensures I.Inv(home.House()) && Tidy(home.House()) && FitsOn(config.storage.sectors, home.House())
  {
    config.HardReset(wifi, mqtt);
    hide D.DeviceConfig.Valid, D.DeviceConfig.Disk, H.Reload;
    NothingStored(now, queue.issued);
    home := Boot(config, queue, now);
  }

  lemma NothingStored(now: int, issued: seq<H.Issue>)
    ensures var disk := H.NewHouse().disk;
            && H.Bootable(disk) && H.NoDuplicates(disk.blindIds)
            && H.Reload(disk, now, issued) == H.NewHouse().(issued := issued)
            && I.Inv(H.NewHouse().(issued := issued)) && Tidy(H.NewHouse().(issued := issued))
  {
  }

  // ---------------------------------------------------------------- what the invariant gives the objects

  lemma RemotesRecorded(home: SomfyRemotes)
    requires home.config.Valid() && I.RemotesOk(home.House().disk.remotes, home.House().remotes, home.nextId)
    ensures home.AllRecorded()
  {
  }

  lemma BlindsRecorded(home: SomfyRemotes)
    requires home.Valid() && I.BlindsOk(home.House().disk.blinds, home.House().remotes, home.House().blinds,
             home.blinds.nextId)
    ensures home.blinds.AllRecorded() && H.AllStorable(States(home.blinds.blinds))
  {
    hide D.DeviceConfig.Valid, D.DeviceConfig.Disk, H.Storable, I.RecordSane, I.PrimariesDistinct, Keyed, Linked,
      RemotesKeyed;
    var h := home.House();
    forall b | b in home.blinds.blinds
      ensures H.Low(b) in h.disk.blinds && H.Storable(h.blinds[b])
    {
      assert I.BlindOk(h.disk.blinds, h.remotes, h.nextBlind, b, h.blinds[b]);
    }
  }

  lemma PrimariesAreOwn(home: SomfyRemotes)
    requires home.config.Valid() && I.PrimariesDistinct(home.House().blinds)
    ensures forall id :: home.blinds.OnlyPrimary(id)
  {
  }

  /** Every remote and every blind has its record, so saving one takes no new space, and no two
      blinds share a primary remote. */
  lemma Recorded(home: SomfyRemotes)
    requires home.Valid() && I.Inv(home.House())
    ensures home.AllRecorded() && home.blinds.AllRecorded() && H.AllStorable(States(home.blinds.blinds))
    ensures forall id :: home.blinds.OnlyPrimary(id)
  {
    hide D.DeviceConfig.Valid, D.DeviceConfig.Disk, I.RemotesOk, I.PrimariesDistinct, H.AllStorable,
      SomfyRemotes.AllRecorded, Blinds.AllRecorded, Blinds.OnlyPrimary, Keyed, Linked, RemotesKeyed;
    RemotesRecorded(home);
    BlindsRecorded(home);
    PrimariesAreOwn(home);
  }

  lemma {:induction false} ElementsSize(ids: seq<u32>)
    ensures |Elements(ids)| <= |ids|
  {
    if ids != [] {
      var n := |ids| - 1;
      ElementsSize(ids[..n]);
      assert ids == ids[..n] + [ids[n]];
      assert Elements(ids) == Elements(ids[..n]) + {ids[n]};
    }
  }

  /** The stored lists are as long as the tables they name. */
  lemma ListsCount(disk: H.Disk, remotes: map<u32, H.Remote>, next: u32)
    requires I.RemotesOk(disk.remotes, remotes, next) && I.ListsOk(disk, remotes)
    ensures |OfKind(remotes, remotes.Keys, false)| <= |disk.remoteIds|
    ensures |OfKind(remotes, remotes.Keys, true)| <= |disk.externalIds|
  {
    hide H.RemoteRecord, I.LowDistinct;
    var internals := H.InternalIdsOf(disk.remoteIds);
    forall id | id in OfKind(remotes, remotes.Keys, false)
      ensures id in Elements(internals)
    {
      assert I.RemoteOk(disk.remotes, next, id, remotes[id]);
      var x: u16 := id - H.BASE_REMOTE_ID;
      assert I.IsInternal(remotes, H.BASE_REMOTE_ID + x);
      InternalIdsMember(disk.remoteIds, id);
    }
    forall id | id in OfKind(remotes, remotes.Keys, true)
      ensures id in Elements(disk.externalIds)
    {
      assert I.IsExternal(remotes, id);
    }
    CardinalityMonotone(OfKind(remotes, remotes.Keys, false), Elements(internals));
    CardinalityMonotone(OfKind(remotes, remotes.Keys, true), Elements(disk.externalIds));
    ElementsSize(internals);
    ElementsSize(disk.externalIds);
  }

  lemma BlindsCount(blindIds: seq<u16>, blinds: map<u32, H.Blind>)
    requires I.BlindListOk(blindIds, blinds)
    ensures |blinds| <= |blindIds|
  {
    var ids := H.WideIds(blindIds);
    forall id | id in blinds.Keys
      ensures id in Elements(ids)
    {
      WideMember(blindIds, id);
    }
    CardinalityMonotone(blinds.Keys, Elements(ids));
    ElementsSize(ids);
    assert |blinds.Keys| == |blinds|;
  }

  /** The end of the main loop, after the radio has finished: save what changed of the remotes, and all blinds. */
  method Shutdown(home: SomfyRemotes)
    requires home.Valid() && I.Inv(home.House()) && home.config.Room() > 0
    modifies home.remotes.Values, home.blinds.blinds.Values, home.config.storage, home.config.storage.flash
    ensures home.Valid() && home.config.Room() > 0 && H.AllStorable(old(home.House()).blinds)
    ensures home.House() == H.Shutdown(old(home.House()))
    ensures W.Made(old(home.config.storage.history), home.config.storage.history, old(home.config.Disk()),
                   home.config.Disk(),
                   O.AllRemoteWrites(old(home.House())) + O.AllBlindWrites(old(home.House()), true))
  {
    hide D.DeviceConfig.Valid, D.DeviceConfig.Disk, D.DeviceConfig.Room, H.SaveRemotes, H.SaveBlinds, H.Ascending,
      I.Inv, H.AllStorable, States, RemoteStates, Keyed, Linked, RemotesKeyed, SomfyRemotes.AllRecorded,
      Blinds.AllRecorded, W.Made, O.RemoteWrites, O.BlindWrites;
    Recorded(home);
    I.SaveRemotesInv(home.House(), H.Ascending(home.House().remotes.Keys));
    ghost var h, d, h0 := home.House(), home.config.Disk(), home.config.storage.history;
    home.SaveRemoteState();
    ghost var g, e, h1 := home.House(), home.config.Disk(), home.config.storage.history;
    Recorded(home);
    home.blinds.SaveBlindState(true, home);
    O.SameBlindWrites(h, g, H.Ascending(h.blinds.Keys), true);
    W.MadeMore(h0, h1, home.config.storage.history, d, e, home.config.Disk(), O.AllRemoteWrites(h),
               O.AllBlindWrites(h, true));
  }

  /** A restart, after a clean shutdown or a loss of power between operations: the objects that come
      up are those the registry says, and every flash on the way is at a cut of what it writes. */
  method Restart(home: SomfyRemotes, clean: bool, now: int) returns (again: SomfyRemotes)
    requires home.Valid() && I.Inv(home.House()) && home.config.Room() > 0
    modifies home.remotes.Values, home.blinds.blinds.Values, home.config.storage, home.config.storage.flash
    ensures again.Valid() && again.config == home.config && again.queue == home.queue
    ensures fresh(Objects(again) - Lasting(home.config, home.queue))
    ensures R.Enabled(old(home.House()), R.Restart(clean, now))
    ensures again.House() == R.Step(old(home.House()), R.Restart(clean, now)) && I.Inv(again.House())
    ensures W.Made(old(home.config.storage.history), home.config.storage.history, old(home.config.Disk()),
                   home.config.Disk(), O.EventWrites(old(home.House()), R.Restart(clean, now)))
  {
    hide D.DeviceConfig.Valid, D.DeviceConfig.Disk, D.DeviceConfig.Room, H.Reload, H.Shutdown, H.AllStorable,
      H.Bootable, H.NoDuplicates, I.Inv, States, RemoteStates, Keyed, Linked, RemotesKeyed, R.Step, R.Enabled,
      W.Made, O.WritesOf, O.StartWrites, O.EventWrites;
    ghost var h := home.House();
    Startable(h);
    RestartIs(h, clean, now, if clean then H.Shutdown(h).disk else h.disk);
    ghost var d, h0 := home.config.Disk(), home.config.storage.history;
    if clean {
      Shutdown(home);
    } else {
      W.MadeNone(h0, d);
    }
    ghost var e, h1 := home.config.Disk(), home.config.storage.history;
    again := Boot(home.config, home.queue, now);
    RestartMade(h, clean, now, h0, h1, home.config.storage.history, d, e, home.config.Disk());
    R.StepInv(h, R.Restart(clean, now));
  }

  lemma RestartMade(h: H.House, clean: bool, now: int, h0: seq<seq<Slot>>, h1: seq<seq<Slot>>, h2: seq<seq<Slot>>,
                    d: H.Disk, e: H.Disk, f: H.Disk)
    requires R.Enabled(h, R.Restart(clean, now)) && e == (if clean then H.Shutdown(h).disk else h.disk)
    requires W.Made(h0, h1, d, e, if clean then O.AllRemoteWrites(h) + O.AllBlindWrites(h, true) else [])
    requires W.Made(h1, h2, e, f, O.StartWrites(e))
    ensures W.Made(h0, h2, d, f, O.EventWrites(h, R.Restart(clean, now)))
  {
    hide W.Made, H.Shutdown, H.Bootable, H.AllStorable, O.AllRemoteWrites, O.AllBlindWrites, O.StartWrites;
    W.MadeMore(h0, h1, h2, d, e, f, O.WritesOf(h, R.Restart(clean, now)), O.StartWrites(e));
  }

  lemma RestartIs(h: H.House, clean: bool, now: int, disk: H.Disk)
    requires H.AllStorable(h.blinds) && disk == (if clean then H.Shutdown(h).disk else h.disk) && H.Bootable(disk)
    ensures R.Enabled(h, R.Restart(clean, now)) && R.Step(h, R.Restart(clean, now)) == H.Reload(disk, now, h.issued)
  {
    hide H.Reload, H.Shutdown, H.AllStorable, H.Bootable;
  }

  /** From any state that keeps the invariant the device can start again. */
  lemma Startable(h: H.House)
    requires I.Inv(h)
    ensures H.AllStorable(h.blinds) && H.Bootable(h.disk) && H.NoDuplicates(h.disk.blindIds)
    ensures H.Bootable(H.Shutdown(h).disk) && H.NoDuplicates(H.Shutdown(h).disk.blindIds)
  {
    hide I.RemotesOk, I.ListsOk, I.BlindsOk, H.Shutdown, H.Bootable, H.AllStorable, H.NoDuplicates;
    R.StorableBlinds(h);
    BlindListBootable(h.disk, h.remotes, h.blinds, h.nextBlind);
    ShutdownEffect(h);
    var t := H.Shutdown(h);
    BlindListBootable(t.disk, t.remotes, t.blinds, t.nextBlind);
  }

  // ---------------------------------------------------------------- everything that can happen

  /** Requests that change the table of remotes. */
  method PerformOnTable(home: SomfyRemotes, op: R.Op)
    requires home.Valid() && I.Inv(home.House()) && R.Enabled(home.House(), op)
    requires home.config.Room() > NewRecords(home.House(), op) && (op.Add? || op.Import? || op.Delete?)
    modifies home, home.config.storage, home.config.storage.flash
    ensures home.Valid() && home.House() == R.Step(old(home.House()), op)
    ensures forall r :: r in home.remotes ==>
              (r in old(home.remotes) && home.remotes[r] == old(home.remotes)[r]) || fresh(home.remotes[r])
    ensures W.Made(old(home.config.storage.history), home.config.storage.history, old(home.config.Disk()),
                   home.config.Disk(), O.WritesOf(old(home.House()), op))
  {
    hide D.DeviceConfig.Valid, D.DeviceConfig.Disk, D.DeviceConfig.Room, I.Inv, H.CreateRemote, H.ImportRemote,
      H.DeleteRemote, H.NameAllowed, H.IsAPrimaryRemote, States, RemoteStates, Keyed, Linked, RemotesKeyed, Fits,
      OfKind, W.Made, O.AdditionWrites, O.RemovalWrites;
    RoomForMore(home);
    match op {
      case Add(name) => var ok := home.DoAddRemote(name);
      case Import(id, name) => var ok := home.DoImportRemote(name, id);
      case Delete(id) => var ok := home.DoDeleteRemote(id);
      case _ =>
    }
  }

  /** Requests for one remote or one blind, and commands heard. */
  method PerformOnOne(home: SomfyRemotes, op: R.Op) returns (ghost accepted: bool)
    requires home.Valid() && I.Inv(home.House()) && R.Enabled(home.House(), op)
    requires op.Rename? || op.Bind? || op.Unbind? || op.PressRemote? || op.Hear? || op.ChangeBlind?
    modifies home.remotes.Values, home.blinds.blinds.Values, home.queue
    ensures home.Valid() && R.Enabled(old(home.House()), Answered(op, accepted))
    ensures home.House() == R.Step(old(home.House()), Answered(op, accepted))
  {
    hide D.DeviceConfig.Valid, D.DeviceConfig.Disk, I.Inv, H.SetName, H.BindBlind, H.Press, H.HearRemote,
      H.UpdateBlind, H.BlindsExist, H.NameAllowed, States, RemoteStates, Keyed, Linked, RemotesKeyed;
    accepted := false;
    match op {
      case Rename(id, name) => var ok := home.DoUpdateRemote(id, name);
      case Bind(id, blindId) => var ok := home.DoBindBlind(id, blindId);
      case Unbind(id, blindId) => var ok := home.DoUnbindBlind(id, blindId);
      case PressRemote(id, buttons, repeat, now, _) =>
        if id in home.remotes {
          accepted := home.PressButtons(id, buttons, repeat, now);
        } else {
          NoSuchRemote(home.House(), id, buttons, repeat, now);
        }
      case Hear(id, code, button, repeat, now) => home.ExternalButtonPress(id, code, button, repeat, now);
      case ChangeBlind(id, name, openTime, closeTime) =>
        var ok := home.blinds.DoUpdateBlind(id, name, openTime, closeTime, home);
      case _ =>
    }
  }

  /** Requests that change the table of blinds. */
  method PerformOnBlinds(home: SomfyRemotes, op: R.Op)
    requires home.Valid() && I.Inv(home.House()) && R.Enabled(home.House(), op)
    requires home.config.Room() > NewRecords(home.House(), op) && (op.NewBlindOp? || op.RemoveBlind?)
    modifies home, home.blinds, home.config.storage, home.config.storage.flash
    ensures home.Valid() && home.House() == R.Step(old(home.House()), op)
    ensures forall r :: r in home.remotes ==>
              (r in old(home.remotes) && home.remotes[r] == old(home.remotes)[r]) || fresh(home.remotes[r])
    ensures forall b :: b in home.blinds.blinds ==>
              || (b in old(home.blinds.blinds) && home.blinds.blinds[b] == old(home.blinds.blinds)[b])
              || fresh(home.blinds.blinds[b])
    ensures W.Made(old(home.config.storage.history), home.config.storage.history, old(home.config.Disk()),
                   home.config.Disk(), O.WritesOf(old(home.House()), op))
  {
    hide D.DeviceConfig.Valid, D.DeviceConfig.Disk, D.DeviceConfig.Room, I.Inv, H.AddBlind, H.DeleteBlind,
      H.BlindsExist, States, RemoteStates, Keyed, Linked, RemotesKeyed, Fits, OfKind, SomfyRemotes.AllRecorded,
      Blinds.AllRecorded, Blinds.OnlyPrimary, R.Step, R.Enabled, NewRecords, I.CanCreate, W.Made, O.WritesOf,
      BlindAddedSo, BlindRemovedSo;
    RoomForMore(home);
    Recorded(home);
    var blinds := home.blinds;
    ghost var h, h0 := home.House(), home.config.storage.history;
    match op {
      case NewBlindOp(name, openTime, closeTime, now) =>
        I.NextIsValid(home.House());
        NewBlindStep(home.House(), op);
        var newRemote, newBlind := blinds.DoAddBlind(name, openTime, closeTime, now, home);
        AddedMade(h, op, h0, home.config.storage.history, home.config.Disk());
      case RemoveBlind(id) =>
        RemoveBlindStep(home.House(), op);
        PrimaryOf(home, id);
        var ok := blinds.DoDeleteBlind(id, home);
        RemovedMade(h, op, h0, home.config.storage.history, home.config.Disk());
      case _ =>
    }
  }

  lemma PrimaryOf(home: SomfyRemotes, id: u32)
    requires home.config.Valid()
    ensures id in home.blinds.blinds <==> id in home.House().blinds
    ensures id in home.blinds.blinds ==> home.House().blinds[id].remoteId == home.blinds.blinds[id].remote.remoteId
  {
  }

  lemma AddedMade(h: H.House, op: R.Op, before: seq<seq<Slot>>, after: seq<seq<Slot>>, end: H.Disk)
    requires op.NewBlindOp? && R.Enabled(h, op) && end == R.Step(h, op).disk
    requires BlindAddedSo(before, after, h.disk, end, h.nextRemote, h.nextBlind,
                          H.NewBlind(op.blindName, h.nextRemote, op.openTime, op.closeTime, op.now))
    ensures W.Made(before, after, h.disk, end, O.WritesOf(h, op))
  {
    hide W.Made, I.CanCreate, H.AddBlind, O.EntryWrites, O.AdditionWrites, H.Storable;
  }

  /** Deleting a blind that is not there writes nothing. */
  lemma RemovedMade(h: H.House, op: R.Op, before: seq<seq<Slot>>, after: seq<seq<Slot>>, end: H.Disk)
    requires op.RemoveBlind? && R.Enabled(h, op) && end == R.Step(h, op).disk
    requires if op.blind in h.blinds
             then BlindRemovedSo(before, after, h.disk, end, h.blinds[op.blind].remoteId, op.blind) else after == before
    ensures W.Made(before, after, h.disk, end, O.WritesOf(h, op))
  {
    hide W.Made, H.DeleteBlind, O.ExitWrites, O.RemovalWrites;
    if op.blind !in h.blinds {
      I.NoSuchBlind(h, op.blind);
      W.MadeNone(before, h.disk);
    }
  }

  lemma NewBlindStep(h: H.House, op: R.Op)
    requires op.NewBlindOp? && R.Enabled(h, op)
    ensures I.CanCreate(h) && |h.disk.remoteIds| < MAX_IDS16 && |h.disk.blindIds| < MAX_IDS16 && h.nextBlind < 0x1_0000
    ensures 0 < op.openTime < 0x8000_0000 && 0 < op.closeTime < 0x8000_0000
    ensures R.Step(h, op) == H.AddBlind(h, op.blindName, op.openTime, op.closeTime, op.now) && NewRecords(h, op) == 2
  {
  }

  lemma RemoveBlindStep(h: H.House, op: R.Op)
    requires op.RemoveBlind? && R.Enabled(h, op)
    ensures R.Step(h, op) == H.DeleteBlind(h, op.blind) && NewRecords(h, op) == 0
  {
  }

  /** The timers that save remotes and blinds. */
  method PerformSave(home: SomfyRemotes, op: R.Op)
    requires home.Valid() && I.Inv(home.House()) && R.Enabled(home.House(), op) && home.config.Room() > 0
    requires op.SaveRemotesOp? || op.SaveBlindsOp?
    modifies home.remotes.Values, home.blinds.blinds.Values, home.config.storage, home.config.storage.flash
    ensures home.Valid() && home.House() == R.Step(old(home.House()), op)
    ensures W.Made(old(home.config.storage.history), home.config.storage.history, old(home.config.Disk()),
                   home.config.Disk(), O.WritesOf(old(home.House()), op))
  {
    hide D.DeviceConfig.Valid, D.DeviceConfig.Disk, D.DeviceConfig.Room, I.Inv, H.SaveRemotes, H.SaveBlinds,
      H.Ascending, H.AllStorable, States, RemoteStates, Keyed, Linked, RemotesKeyed, SomfyRemotes.AllRecorded,
      Blinds.AllRecorded, Blinds.OnlyPrimary, W.Made, O.WritesOf, O.AllRemoteWrites, O.AllBlindWrites;
    O.WritesSave(home.House(), op);
    Recorded(home);
    if op.SaveRemotesOp? {
      home.SaveRemoteState();
    } else {
      home.blinds.SaveBlindState(false, home);
    }
  }

  /** A blind's own commands, and the tick of its timer. */
  method MoveBlind(home: SomfyRemotes, op: R.Op) returns (ghost accepted: bool)
    requires home.Valid() && I.Inv(home.House()) && R.Enabled(home.House(), op)
    requires op.Command? || op.SetPosition? || op.TickOp?
    modifies home.remotes.Values, home.blinds.blinds.Values, home.queue
    ensures home.Valid() && R.Enabled(old(home.House()), Answered(op, accepted))
    ensures home.House() == R.Step(old(home.House()), Answered(op, accepted))
  {
    hide D.DeviceConfig.Valid, D.DeviceConfig.Disk, I.Inv, H.CommandBlind, H.GoTo, H.TickBlind, H.BlindsExist,
      H.Storable, M.Sane, States, RemoteStates, Keyed, Linked, RemotesKeyed;
    accepted := false;
    BlindFollows(home, op.blind);
    match op {
      case Command(id, command, now, _) => accepted := home.blinds.Command(id, command, now, home);
      case SetPosition(id, position, now, _) => accepted := home.blinds.GoToPosition(id, position, now, home);
      case TickOp(id, now, _) => accepted := home.blinds.UpdatePosition(id, now, home);
      case _ =>
    }
  }

  /** A blind and what the registry says of it. */
  lemma BlindFollows(home: SomfyRemotes, b: u32)
    requires home.Valid() && I.Inv(home.House()) && b in home.blinds.blinds
    ensures home.blinds.blinds[b].remote.remoteId == home.House().blinds[b].remoteId
    ensures M.Sane(home.blinds.blinds[b].Motion())
  {
    hide D.DeviceConfig.Valid, D.DeviceConfig.Disk, I.RemotesOk, I.ListsOk, I.BlindsOk, I.BlindListOk, Keyed,
      Linked, RemotesKeyed, RemoteStates, Blinds.OnlyPrimary, SomfyRemotes.AllRecorded, Blinds.AllRecorded;
    Recorded(home);
    assert H.Storable(States(home.blinds.blinds)[b]);
  }

  /** Events that write nothing. */
  method PerformInMemory(home: SomfyRemotes, op: R.Op) returns (ghost accepted: bool)
    requires home.Valid() && I.Inv(home.House()) && R.Enabled(home.House(), op) && R.MemoryOnly(op)
    modifies home.remotes.Values, home.blinds.blinds.Values, home.queue
    ensures home.Valid() && R.Enabled(old(home.House()), Answered(op, accepted))
    ensures home.House() == R.Step(old(home.House()), Answered(op, accepted))
  {
    hide D.DeviceConfig.Valid, D.DeviceConfig.Disk, I.Inv, R.Step, R.Enabled, Keyed, Linked, RemotesKeyed, States,
      RemoteStates, Answered;
    if op.Command? || op.SetPosition? || op.TickOp? {
      accepted := MoveBlind(home, op);
    } else {
      accepted := PerformOnOne(home, op);
    }
  }

  /** Events that do. */
  method PerformOnFlash(home: SomfyRemotes, op: R.Op)
    requires home.Valid() && I.Inv(home.House()) && R.Enabled(home.House(), op) && !op.Restart? && !R.MemoryOnly(op)
    requires home.config.Room() > NewRecords(home.House(), op)
    modifies Objects(home) - {home.queue}
    ensures home.Valid() && fresh(Objects(home) - old(Objects(home)))
    ensures home.House() == R.Step(old(home.House()), op)
    ensures W.Made(old(home.config.storage.history), home.config.storage.history, old(home.config.Disk()),
                   home.config.Disk(), O.WritesOf(old(home.House()), op))
  {
    hide D.DeviceConfig.Valid, D.DeviceConfig.Disk, D.DeviceConfig.Room, I.Inv, R.Step, R.Enabled, Keyed, Linked,
      RemotesKeyed, States, RemoteStates, W.Made, O.WritesOf;
    if op.Add? || op.Import? || op.Delete? {
      PerformOnTable(home, op);
    } else if op.NewBlindOp? || op.RemoveBlind? {
      PerformOnBlinds(home, op);
    } else {
      PerformSave(home, op);
    }
  }

  /** Pass an event on to the objects it is about. */
  method Dispatch(home: SomfyRemotes, op: R.Op) returns (ghost accepted: bool)
    requires home.Valid() && I.Inv(home.House()) && R.Enabled(home.House(), op) && !op.Restart?
    requires home.config.Room() > NewRecords(home.House(), op)
    modifies Objects(home)
    ensures home.Valid() && fresh(Objects(home) - old(Objects(home)))
    ensures R.Enabled(old(home.House()), Answered(op, accepted))
    ensures home.House() == R.Step(old(home.House()), Answered(op, accepted))
    ensures W.Made(old(home.config.storage.history), home.config.storage.history, old(home.config.Disk()),
                   home.config.Disk(), O.WritesOf(old(home.House()), op))
  {
    hide D.DeviceConfig.Valid, D.DeviceConfig.Disk, D.DeviceConfig.Room, I.Inv, R.Step, R.Enabled, Keyed, Linked,
      RemotesKeyed, States, RemoteStates, Answered, W.Made, O.WritesOf;
    if R.MemoryOnly(op) {
      O.WritesNone(home.House(), op);
      W.MadeNone(home.config.storage.history, home.config.Disk());
      accepted := PerformInMemory(home, op);
    } else {
      accepted := false;
      NeedsNoAnswer(op);
      PerformOnFlash(home, op);
    }
  }

  /** Any event but a restart: the objects take exactly the registry's step, and keep its invariant, and every
      flash on the way is at a cut of what the event writes. */
  method Perform(home: SomfyRemotes, op: R.Op) returns (ghost accepted: bool)
    requires home.Valid() && I.Inv(home.House()) && Tidy(home.House()) && R.Enabled(home.House(), op) && !op.Restart?
    requires FitsOn(home.config.storage.sectors, home.House())
    requires FitsOn(home.config.storage.sectors, R.Step(home.House(), op))
    modifies Objects(home)
    ensures home.Valid() && fresh(Objects(home) - old(Objects(home)))
    ensures R.Enabled(old(home.House()), Answered(op, accepted))
    ensures home.House() == R.Step(old(home.House()), Answered(op, accepted))
    ensures I.Inv(home.House()) && Tidy(home.House())
    ensures W.Made(old(home.config.storage.history), home.config.storage.history, old(home.config.Disk()),
                   home.config.Disk(), O.WritesOf(old(home.House()), op))
  {
    hide D.DeviceConfig.Valid, D.DeviceConfig.Disk, I.Inv, Tidy, FitsOn, R.Step, R.Enabled, Keyed, Linked,
      RemotesKeyed, States, RemoteStates, H.RoomLeft, Objects, W.Made, O.WritesOf;
    ghost var h := home.House();
    StepHasRoom(home.config.storage.sectors, h, op);
    accepted := Dispatch(home, op);
    R.StepInv(h, Answered(op, accepted));
    StepTidy(h, Answered(op, accepted));
  }

  lemma NeedsNoAnswer(op: R.Op)
    ensures op.PressRemote? || op.Command? || op.SetPosition? || op.TickOp?
            || forall answer :: Answered(op, answer) == op
  {
  }

  lemma NoSuchRemote(h: H.House, id: u32, buttons: int, repeat: u16, now: int)
    requires id !in h.remotes && H.BlindsExist(h, id)
    ensures forall accepted :: H.Press(h, id, buttons, repeat, now, accepted) == h
  {
  }

  /** What the lists hold now fits their records, and there may be room for one more. */
  lemma RoomForMore(home: SomfyRemotes)
    requires home.Valid() && I.Inv(home.House())
    ensures Fits(RemoteStates(home.remotes))
    ensures |home.House().disk.remoteIds| < MAX_IDS16 ==> home.RoomFor(false)
    ensures |home.House().disk.externalIds| < MAX_IDS32 ==> home.RoomFor(true)
    ensures |home.blinds.blinds| <= |home.House().disk.blindIds| <= MAX_IDS16
  {
    hide D.DeviceConfig.Valid, D.DeviceConfig.Disk, I.RemotesOk, I.ListsOk, I.BlindsOk, I.BlindListOk, OfKind,
      Keyed, Linked, RemotesKeyed;
    var h := home.House();
    home.config.ListsBounded();
    ListsCount(h.disk, h.remotes, h.nextRemote);
    BlindsCount(h.disk.blindIds, h.blinds);
  }
}
