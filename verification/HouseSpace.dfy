/** How much of the record store the registry takes: a record for each remote and each blind, and no
    more. */
module HouseSpace {
  import opened Basics
  import opened Records
  import opened House
  import opened HouseInvariant
  import opened HouseRestart
  import opened HouseRuns

  // ---------------------------------------------------------------- no record is left behind

  ghost predicate RemotesTidy(records: map<u16, RemoteConfig>, remotes: map<u32, Remote>) {
    forall x :: x in records ==> exists id :: id in remotes && Low(id) == x
  }

  ghost predicate BlindsTidy(records: map<u16, BlindConfig>, blinds: map<u32, Blind>) {
    forall x :: x in records ==> x as u32 in blinds
  }

  /** Every record on flash is that of a registered remote or blind. */
  ghost predicate Tidy(h: House) {
    RemotesTidy(h.disk.remotes, h.remotes) && BlindsTidy(h.disk.blinds, h.blinds)
  }

  lemma AddTidy(h: House, id: u32, name: Name, external: bool)
    requires Tidy(h) && id !in h.remotes
    ensures Tidy(AddRemote(h, id, name, external))
  {
    AddRemoteEffect(h, id, name, external);
    hide AddRemote, Low;
    var t := AddRemote(h, id, name, external);
    forall x | x in t.disk.remotes
      ensures exists r :: r in t.remotes && Low(r) == x
    {
      if x == Low(id) {
        assert id in t.remotes;
      } else {
        var r :| r in h.remotes && Low(r) == x;
        assert r in t.remotes;
      }
    }
  }

  lemma RemovedTidy(records: map<u16, RemoteConfig>, remotes: map<u32, Remote>, id: u32)
    requires RemotesTidy(records, remotes)
    ensures RemotesTidy(records - {Low(id)}, remotes - {id})
  {
    hide Low;
    forall x | x in records - {Low(id)}
      ensures exists r :: r in remotes - {id} && Low(r) == x
    {
      var r :| r in remotes && Low(r) == x;
      assert r in remotes - {id};
    }
  }

  lemma SameKeysTidy(records: map<u16, RemoteConfig>, remotes: map<u32, Remote>, more: map<u32, Remote>)
    requires RemotesTidy(records, remotes) && remotes.Keys <= more.Keys
    ensures RemotesTidy(records, more)
  {
    hide Low;
    forall x | x in records
      ensures exists r :: r in more && Low(r) == x
    {
      var r :| r in remotes && Low(r) == x;
      assert r in more;
    }
  }

  lemma {:induction false} SaveRemotesTidy(h: House, ids: seq<u32>)
    requires Tidy(h) && forall id :: id in ids ==> id in h.remotes
    ensures Tidy(SaveRemotes(h, ids)) && SaveRemotes(h, ids).disk.blinds == h.disk.blinds
    decreases |ids|
  {
    hide RemoteRecord, Low;
    if ids != [] {
      SaveRemotesTidy(h, ids[..|ids| - 1]);
      var before, id := SaveRemotes(h, ids[..|ids| - 1]), ids[|ids| - 1];
      SameKeysTidy(before.disk.remotes, before.remotes, SaveRemote(before, id, false).remotes);
      assert id in before.remotes;
    }
  }

  lemma {:induction false} SaveBlindsTidy(h: House, ids: seq<u32>, force: bool)
    requires Tidy(h) && AllStorable(h.blinds) && forall b :: b in ids ==> b in h.blinds && b < 0x1_0000
    ensures var t := SaveBlinds(h, ids, force);
            Tidy(t) && t.disk.remotes == h.disk.remotes && t.remotes == h.remotes
    decreases |ids|
  {
    hide BlindRecord, AllStorable, RemotesTidy;
    if ids != [] {
      SaveBlindsTidy(h, ids[..|ids| - 1], force);
      assert ids[|ids| - 1] in ids && Low(ids[|ids| - 1]) == ids[|ids| - 1];
    }
  }

  /** So it stays with every whole operation, and every restart between two of them. */
  lemma StepTidy(h: House, op: Op)
    requires Inv(h) && Tidy(h) && Enabled(h, op)
    ensures Tidy(Step(h, op))
  {
    hide Inv, Tidy, Step, Enabled, InMemory, AllStorable;
    StorableBlinds(h);
    if op.Restart? {
      RestartTidy(h, op.clean, op.now);
    } else if MemoryOnly(op) {
      InMemoryStep(h, op);
      InMemoryTidy(h, Step(h, op));
    } else if op.SaveRemotesOp? || op.SaveBlindsOp? {
      SaveTidy(h, op);
    } else {
      TableTidy(h, op);
    }
  }

  lemma InMemoryTidy(h: House, t: House)
    requires Tidy(h) && InMemory(h, t)
    ensures Tidy(t)
  {
    SameKeysTidy(h.disk.remotes, h.remotes, t.remotes);
  }

  lemma SaveTidy(h: House, op: Op)
    requires Inv(h) && Tidy(h) && Enabled(h, op) && (op.SaveRemotesOp? || op.SaveBlindsOp?)
    ensures Tidy(Step(h, op))
  {
    hide Inv, Tidy, SaveRemotes, SaveBlinds, AllStorable, Ascending;
    if op.SaveRemotesOp? {
      SaveRemotesTidy(h, Ascending(h.remotes.Keys));
    } else {
      BlindsSmall(h);
      SaveBlindsTidy(h, Ascending(h.blinds.Keys), false);
    }
  }

  lemma BlindsSmall(h: House)
    requires Inv(h)
    ensures AllStorable(h.blinds) && forall b :: b in h.blinds ==> b < 0x1_0000
  {
    BlindIdsSmall(h.disk.blinds, h.remotes, h.blinds, h.nextBlind);
  }

  lemma TableTidy(h: House, op: Op)
    requires Inv(h) && Tidy(h) && Enabled(h, op)
    requires op.Add? || op.Import? || op.Delete? || op.NewBlindOp? || op.RemoveBlind?
    ensures Tidy(Step(h, op))
  {
    hide Inv, Tidy, CreateRemote, ImportRemote, AddBlind, DeleteRemote, DeleteBlind, CanCreate, LowFree,
      IsAPrimaryRemote;
    match op
    case Add(name) => if NameAllowed(name) { NextIsNew(h); CreateTidy(h, name); }
    case Import(id, name) => if NameAllowed(name) { ImportTidy(h, id, name); }
    case Delete(id) => DeleteRemoteTidy(h, id);
    case NewBlindOp(name, openTime, closeTime, now) => AddBlindTidy(h, name, openTime, closeTime, now);
    case RemoveBlind(b) => if b in h.blinds { DeleteBlindTidy(h, b); } else { NoSuchBlind(h, b); }
  }

  lemma NextIsNew(h: House)
    requires Inv(h) && CanCreate(h)
    ensures h.nextRemote !in h.remotes
  {
    hide Inv, CanCreate;
    NextIsValid(h);
  }

  lemma ImportTidy(h: House, id: u32, name: Name)
    requires Tidy(h)
    ensures Tidy(ImportRemote(h, id, name))
  {
    hide AddRemote, Tidy;
    if id !in h.remotes {
      AddTidy(h, id, name, true);
    }
  }

  lemma CreateTidy(h: House, name: Name)
    requires Tidy(h) && h.nextRemote !in h.remotes
    ensures Tidy(CreateRemote(h, name))
  {
    AddTidy(h.(nextRemote := (h.nextRemote + 1) % 0x1_0000_0000), h.nextRemote, name, false);
    hide AddRemote, RemotesTidy;
  }

  lemma DeleteRemoteTidy(h: House, id: u32)
    requires Tidy(h)
    ensures Tidy(DeleteRemote(h, id))
  {
    DeleteRemoteEffect(h, id);
    RemovedTidy(h.disk.remotes, h.remotes, id);
    hide DeleteRemote, RemotesTidy;
  }

  lemma AddBlindTidy(h: House, name: Name, openTime: int, closeTime: int, now: int)
    requires Inv(h) && Tidy(h) && CanCreate(h)
    requires h.nextBlind < 0x1_0000 && 0 < openTime < 0x8000_0000 && 0 < closeTime < 0x8000_0000
    ensures Tidy(AddBlind(h, name, openTime, closeTime, now))
  {
    NextIsValid(h);
    CreateTidy(h, name);
    CreateRemoteEffect(h, name);
    hide Inv, CreateRemote, AttachBlind, BlindRecord, RemotesTidy;
    var created := CreateRemote(h, name);
    var t := AttachBlind(created, NewBlind(name, h.nextRemote, openTime, closeTime, now));
    AttachEffect(created, NewBlind(name, h.nextRemote, openTime, closeTime, now));
    SameKeysTidy(created.disk.remotes, created.remotes, t.remotes);
  }

  lemma DeleteBlindTidy(h: House, b: u32)
    requires Inv(h) && Tidy(h) && b in h.blinds
    ensures Tidy(DeleteBlind(h, b))
  {
    BlindIdsSmall(h.disk.blinds, h.remotes, h.blinds, h.nextBlind);
    hide Inv, RemotesTidy, BlindsTidy, DeleteBlind, AllStorable, Low;
    DeleteBlindEffect(h, b);
    RemovedTidy(h.disk.remotes, h.remotes, h.blinds[b].remoteId);
    RemovedBlindTidy(h.disk.blinds, h.blinds, b);
  }

  lemma RemovedBlindTidy(records: map<u16, BlindConfig>, blinds: map<u32, Blind>, b: u32)
    requires BlindsTidy(records, blinds) && b < 0x1_0000
    ensures BlindsTidy(records - {Low(b)}, blinds - {b})
  {
    assert Low(b) == b;
  }

  lemma RestartTidy(h: House, clean: bool, now: int)
    requires Inv(h) && Tidy(h) && Enabled(h, Restart(clean, now))
    ensures Tidy(Step(h, Restart(clean, now)))
  {
    hide Inv, Tidy, Reload, Shutdown, AllStorable, Bootable;
    StorableBlinds(h);
    if clean {
      ShutdownEffect(h);
      ShutdownTidy(h);
      ReloadTidy(Shutdown(h), now);
    } else {
      ReloadTidy(h, now);
    }
  }

  lemma ReloadTidy(h: House, now: int)
    requires Inv(h) && Tidy(h)
    ensures Bootable(h.disk) && Tidy(Reload(h.disk, now, h.issued))
  {
    ReloadInv(h, now);
    ReloadRemotes(h.disk, h.remotes, h.nextRemote);
    hide Inv, Reload, RemotesTidy, ReloadedRemotes, Bootable;
    SameKeysTidy(h.disk.remotes, h.remotes, ReloadedRemotes(h.disk));
  }

  lemma ShutdownTidy(h: House)
    requires Inv(h) && Tidy(h)
    ensures AllStorable(h.blinds) && Tidy(Shutdown(h))
  {
    hide Inv, Tidy, SaveRemotes, SaveBlinds, AllStorable, Ascending;
    BlindsSmall(h);
    SaveRemotesTidy(h, Ascending(h.remotes.Keys));
    var h1 := SaveRemotes(h, Ascending(h.remotes.Keys));
    SaveBlindsTidy(h1, Ascending(h1.blinds.Keys), true);
  }

  // ---------------------------------------------------------------- counting

  lemma {:induction false} LowsCount(ids: set<u32>, lows: set<u16>)
    requires forall x :: x in lows ==> exists id :: id in ids && Low(id) == x
    ensures |lows| <= |ids|
    decreases ids
  {
    hide Low;
    if ids == {} {
      assert lows == {};
    } else {
      var id :| id in ids;
      var rest := lows - {Low(id)};
      forall x | x in rest
        ensures exists r :: r in ids - {id} && Low(r) == x
      {
        var r :| r in ids && Low(r) == x;
        assert r in ids - {id};
      }
      LowsCount(ids - {id}, rest);
      assert lows <= rest + {Low(id)};
      CardinalityMonotone(lows, rest + {Low(id)});
    }
  }

  /** So there are no more records than remotes and blinds. */
  lemma TidyCount(h: House)
    requires Tidy(h)
    ensures |h.disk.remotes| <= |h.remotes| && |h.disk.blinds| <= |h.blinds|
  {
    LowsCount(h.remotes.Keys, h.disk.remotes.Keys);
    CardinalityMonotone(h.disk.blinds.Keys, h.blinds.Keys);
    assert |h.disk.remotes.Keys| == |h.disk.remotes| && |h.remotes.Keys| == |h.remotes|;
    assert |h.disk.blinds.Keys| == |h.disk.blinds| && |h.blinds.Keys| == |h.blinds|;
  }

  // ---------------------------------------------------------------- what a flash of a given size takes

  /** One sector each for the settings, the lists, and every remote and blind, and one to spare. */
  predicate FitsOn(sectors: nat, h: House) {
    5 + |h.remotes| + |h.blinds| < sectors
  }

  lemma FittingHasRoom(sectors: nat, h: House)
    requires Tidy(h) && FitsOn(sectors, h)
    ensures RoomLeft(sectors, h.disk) > 0
  {
    hide Tidy;
    TidyCount(h);
  }

  /** The records an operation may add before it is through. */
  ghost function NewRecords(h: House, op: Op): nat {
    match op
    case Add(name) => if NameAllowed(name) then 1 else 0
    case Import(id, name) => if NameAllowed(name) && id !in h.remotes then 1 else 0
    case NewBlindOp(_, _, _, _) => 2
    case _ => 0
  }

  /** So when the state after an operation still fits, there is room all through it. */
  lemma StepHasRoom(sectors: nat, h: House, op: Op)
    requires Inv(h) && Tidy(h) && Enabled(h, op) && FitsOn(sectors, h) && FitsOn(sectors, Step(h, op))
    ensures RoomLeft(sectors, h.disk) > NewRecords(h, op)
  {
    hide Tidy, Inv, Step, Enabled;
    TidyCount(h);
    if NewRecords(h, op) > 0 {
      AddedCount(h, op);
    }
  }

  lemma AddedCount(h: House, op: Op)
    requires Inv(h) && Enabled(h, op) && NewRecords(h, op) > 0
    ensures |Step(h, op).remotes| + |Step(h, op).blinds| == |h.remotes| + |h.blinds| + NewRecords(h, op)
  {
    hide Inv, CreateRemote, AddRemote, AddBlind, LowFree;
    NextIsValid(h);
    match op
    case Add(name) => CreateRemoteEffect(h, name);
    case Import(id, name) => AddRemoteEffect(h, id, name, true);
    case NewBlindOp(name, openTime, closeTime, now) => AddBlindCount(h, name, openTime, closeTime, now);
    case _ =>
  }

  lemma AddBlindCount(h: House, name: Name, openTime: int, closeTime: int, now: int)
    requires Inv(h) && CanCreate(h)
    requires h.nextBlind < 0x1_0000 && 0 < openTime < 0x8000_0000 && 0 < closeTime < 0x8000_0000
    ensures var t := AddBlind(h, name, openTime, closeTime, now);
            |t.remotes| == |h.remotes| + 1 && |t.blinds| == |h.blinds| + 1
  {
    hide Inv, CreateRemote, AttachBlind, BlindRecord;
    NextIsValid(h);
    CreateRemoteEffect(h, name);
    AttachEffect(CreateRemote(h, name), NewBlind(name, h.nextRemote, openTime, closeTime, now));
  }
}
