/** Tables of remotes and blinds: what they hold, how they change when one object does, and one step
    of each loop over them. */
module Tables {
  import opened Basics
  import opened Flash
  import opened Records
  import opened Devices
  import H = House
  import M = Motion
  import D = DeviceConfig
  import W = DiskWrites

  /** A table of remotes, keyed by their ids, and what it holds. */
  ghost predicate RemotesKeyed(remotes: map<u32, SomfyRemote>) {
    forall r :: r in remotes ==> remotes[r].remoteId == r
  }

  ghost function RemoteStates(remotes: map<u32, SomfyRemote>): (s: map<u32, H.Remote>)
    reads remotes.Values
    ensures s.Keys == remotes.Keys
  {
    map r | r in remotes :: remotes[r].State()
  }

  /** Every blind's primary remote is the one the table has under its id. */
  ghost predicate Linked(remotes: map<u32, SomfyRemote>, blinds: map<u32, Blind>) {
    forall b :: b in blinds ==>
      blinds[b].remote.remoteId in remotes && remotes[blinds[b].remote.remoteId] == blinds[b].remote
  }

  // ---------------------------------------------------------------- one remote of a table

  method AssociateIn(remotes: map<u32, SomfyRemote>, id: u32, blindId: u16)
    requires RemotesKeyed(remotes) && id in remotes
    modifies remotes[id]
    ensures RemoteStates(remotes) ==
            old(RemoteStates(remotes))[id := H.Associated(old(RemoteStates(remotes))[id], blindId)]
  {
    remotes[id].AssociateBlind(blindId);
  }

  lemma EmptyTable(blinds: map<u32, Blind>, remotes: map<u32, SomfyRemote>)
    requires blinds == map[]
    ensures Keyed(blinds) && Linked(remotes, blinds) && States(blinds) == map[]
  {
  }

  lemma BlindAdded(blinds: map<u32, Blind>, id: u16, blind: Blind, remotes: map<u32, SomfyRemote>)
    requires Keyed(blinds) && Linked(remotes, blinds) && blind.blindId == id && id !in blinds
    requires blind.remote.remoteId in remotes && remotes[blind.remote.remoteId] == blind.remote
    ensures Keyed(blinds[id := blind]) && Linked(remotes, blinds[id := blind])
  {
  }

  lemma BlindAddedStates(blinds: map<u32, Blind>, id: u16, blind: Blind)
    requires id !in blinds
    ensures States(blinds[id := blind]) == States(blinds)[id := blind.State()]
    ensures |blinds[id := blind]| == |blinds| + 1
  {
    assert blinds[id := blind].Keys == blinds.Keys + {id as u32};
    assert |blinds[id := blind].Keys| == |blinds[id := blind]| && |blinds.Keys| == |blinds|;
  }

  lemma BlindRemoved(blinds: map<u32, Blind>, id: u32, remotes: map<u32, SomfyRemote>)
    requires Keyed(blinds) && Linked(remotes, blinds) && id in blinds
    ensures Keyed(blinds - {id}) && Linked(remotes, blinds - {id}) && id < 0x1_0000
  {
    assert id == blinds[id].blindId;
  }

  lemma BlindState(blinds: map<u32, Blind>, id: u32)
    requires id in blinds
    ensures States(blinds)[id] == blinds[id].State()
  {
  }

  lemma BlindRemovedStates(blinds: map<u32, Blind>, id: u32)
    ensures States(blinds - {id}) == States(blinds) - {id}
    ensures |blinds - {id}| <= |blinds|
  {
    CardinalityMonotone((blinds - {id}).Keys, blinds.Keys);
    assert |(blinds - {id}).Keys| == |blinds - {id}| && |blinds.Keys| == |blinds|;
  }

  method SaveRemoteIn(remotes: map<u32, SomfyRemote>, id: u32, config: D.DeviceConfig)
    requires RemotesKeyed(remotes) && id in remotes && config.Valid() && config.Room() > 0
    modifies remotes[id], config.storage, config.storage.flash
    ensures config.Valid()
    ensures var r := old(RemoteStates(remotes))[id];
            && RemoteStates(remotes) == old(RemoteStates(remotes))[id := r.(dirty := false)]
            && config.Disk() == if r.dirty then H.StoreRemote(old(config.Disk()), id, r) else old(config.Disk())
    ensures config.Room() >= old(config.Room()) - (if H.Low(id) in old(config.Disk()).remotes then 0 else 1)
    ensures var r := old(RemoteStates(remotes))[id];
            W.Made(old(config.storage.history), config.storage.history, old(config.Disk()), config.Disk(),
                   if r.dirty then [W.PutRemote(H.Low(id), H.RemoteRecord(id, r))] else [])
  {
    hide D.DeviceConfig.Valid, D.DeviceConfig.Disk, D.DeviceConfig.Room, H.StoreRemote, W.Made, W.Wrote;
    ghost var d, h0, r := config.Disk(), config.storage.history, RemoteStates(remotes)[id];
    ghost var stored := remotes[id].SaveConfig(config, false);
    RemoteMade(h0, config.storage.history, d, config.Disk(), id, r, r.dirty);
  }

  lemma RemoteMade(before: seq<seq<Slot>>, after: seq<seq<Slot>>, d: H.Disk, e: H.Disk, id: u32, r: H.Remote,
                   saved: bool)
    requires e == if saved then H.StoreRemote(d, id, r) else d
    requires W.Wrote(before, after, d, if saved then [W.PutRemote(H.Low(id), H.RemoteRecord(id, r))] else [])
    ensures W.Made(before, after, d, e, if saved then [W.PutRemote(H.Low(id), H.RemoteRecord(id, r))] else [])
  {
    hide W.Wrote;
    if saved {
      hide W.Made;
      W.MadeOne(before, after, d, e, W.PutRemote(H.Low(id), H.RemoteRecord(id, r)));
    }
  }

  lemma BlindMade(before: seq<seq<Slot>>, after: seq<seq<Slot>>, d: H.Disk, e: H.Disk, id: u32, b: H.Blind,
                  saved: bool)
    requires H.Storable(b) && e == if saved then H.StoreBlind(d, id, b) else d
    requires W.Wrote(before, after, d, if saved then [W.PutBlind(H.Low(id), H.BlindRecord(b))] else [])
    ensures W.Made(before, after, d, e, if saved then [W.PutBlind(H.Low(id), H.BlindRecord(b))] else [])
  {
    hide W.Wrote, H.BlindRecord, H.Storable;
    if saved {
      hide W.Made;
      W.MadeOne(before, after, d, e, W.PutBlind(H.Low(id), H.BlindRecord(b)));
    }
  }

  method PressIn(remotes: map<u32, SomfyRemote>, id: u32, queue: OutgoingQueue, blinds: map<u32, Blind>, buttons: int,
                 repeat: u16, now: int) returns (ghost accepted: bool)
    requires RemotesKeyed(remotes) && Keyed(blinds) && id in remotes
    requires forall b :: b in remotes[id].associatedBlinds ==> b in blinds
    modifies remotes[id], queue, blinds.Values
    ensures var r := old(RemoteStates(remotes))[id];
            && RemoteStates(remotes)
            == old(RemoteStates(remotes))[id := r.(dirty := true, rollingCode := (r.rollingCode + 1) % 0x1_0000)]
            && queue.issued == old(queue.issued) + [H.Issue(id, r.rollingCode, buttons, repeat, accepted)]
            && (forall b :: b in r.blinds ==> b in blinds)
            && States(blinds) == H.PressBlinds(old(States(blinds)), r.blinds, buttons, repeat > M.SHORT_PRESS, now)
  {
    hide H.PressBlinds, States, Keyed;
    accepted := remotes[id].PressButtons(queue, blinds, buttons, repeat, now);
  }

  method HearIn(remotes: map<u32, SomfyRemote>, id: u32, blinds: map<u32, Blind>, button: int, repeat: u16,
                code: u16, now: int)
    requires RemotesKeyed(remotes) && Keyed(blinds) && id in remotes
    requires forall b :: b in remotes[id].associatedBlinds ==> b in blinds
    modifies remotes[id], blinds.Values
    ensures var r := old(RemoteStates(remotes))[id];
            && RemoteStates(remotes)
            == old(RemoteStates(remotes))[id := r.(dirty := true, rollingCode := (code + 1) % 0x1_0000)]
            && (forall b :: b in r.blinds ==> b in blinds)
            && States(blinds) == H.PressBlinds(old(States(blinds)), r.blinds, button, repeat > 7, now)
  {
    hide H.PressBlinds, States, Keyed;
    remotes[id].ExternalButtonPress(blinds, button, repeat, code, now);
  }

  method SaveBlindIn(blinds: map<u32, Blind>, id: u32, config: D.DeviceConfig, force: bool)
    requires Keyed(blinds) && id in blinds && config.Valid() && config.Room() > 0 && H.Storable(States(blinds)[id])
    modifies blinds[id], config.storage, config.storage.flash
    ensures config.Valid()
    ensures var b := old(States(blinds))[id];
            && States(blinds) == old(States(blinds))[id := b.(dirty := false)]
            && config.Disk() == if b.dirty || force then H.StoreBlind(old(config.Disk()), id, b) else old(config.Disk())
    ensures config.Room() >= old(config.Room()) - (if H.Low(id) in old(config.Disk()).blinds then 0 else 1)
    ensures var b := old(States(blinds))[id];
            W.Made(old(config.storage.history), config.storage.history, old(config.Disk()), config.Disk(),
                   if b.dirty || force then [W.PutBlind(H.Low(id), H.BlindRecord(b))] else [])
  {
    hide D.DeviceConfig.Valid, D.DeviceConfig.Disk, D.DeviceConfig.Room, H.StoreBlind, H.Storable, H.BlindRecord,
      W.Made, W.Wrote;
    ghost var d, h0, b := config.Disk(), config.storage.history, States(blinds)[id];
    ghost var stored := blinds[id].SaveConfig(config, force);
    BlindMade(h0, config.storage.history, d, config.Disk(), id, b, b.dirty || force);
  }

  method UpdateIn(blinds: map<u32, Blind>, remotes: map<u32, SomfyRemote>, id: u16, name: Name, openTime: int,
                  closeTime: int)
    requires Keyed(blinds) && RemotesKeyed(remotes) && Linked(remotes, blinds) && id in blinds
    modifies blinds[id], blinds[id].remote
    ensures var b := old(States(blinds))[id];
            && b.remoteId in remotes
            && States(blinds) == old(States(blinds))[id := b.(name := name, dirty := true,
                                                              motion := b.motion.(openTime := openTime,
                                                                                  closeTime := closeTime))]
            && RemoteStates(remotes) == old(RemoteStates(remotes))[b.remoteId :=
                                          old(RemoteStates(remotes))[b.remoteId].(name := name, dirty := true)]
  {
    blinds[id].UpdateConfig(name, openTime, closeTime);
  }

  method SetTargetIn(blinds: map<u32, Blind>, id: u32, position: int)
    requires Keyed(blinds) && id in blinds
    modifies blinds[id]
    ensures var b := old(States(blinds))[id];
            States(blinds) == old(States(blinds))[id := b.(motion := b.motion.(target := position))]
  {
    blinds[id].targetPosition := position;
  }

  /** Move one blind's estimate on, and see whether it has arrived. */
  method AdvanceIn(blinds: map<u32, Blind>, id: u32, now: int) returns (arrived: bool)
    requires Keyed(blinds) && id in blinds && M.Sane(blinds[id].Motion()) && blinds[id].motionDirection != 0
    modifies blinds[id]
    ensures var b := old(States(blinds))[id];
            && M.Sane(b.motion) && arrived == M.Arrives(b.motion, now)
            && States(blinds) == old(States(blinds))[id := b.(motion := b.motion.(position :=
                                   if arrived then b.motion.target as real else M.Travelled(b.motion, now)))]
  {
    hide M.Arrives, M.Travelled;
    arrived := blinds[id].Advance(now);
  }

  /** Stop it if it has, and note the time. */
  method SettleIn(blinds: map<u32, Blind>, id: u32, arrived: bool, now: int)
    requires Keyed(blinds) && id in blinds
    modifies blinds[id]
    ensures var b := old(States(blinds))[id];
            States(blinds) == old(States(blinds))[id := b.(motion := Settled(b.motion, arrived, now))]
  {
    hide Settled;
    blinds[id].Settle(arrived, now);
  }

  lemma RemoteAt(remotes: map<u32, SomfyRemote>, id: u32)
    requires RemotesKeyed(remotes) && id in remotes
    ensures remotes[id].remoteId == id
  {
  }

  lemma LinkedAt(remotes: map<u32, SomfyRemote>, blinds: map<u32, Blind>, id: u32)
    requires Linked(remotes, blinds) && id in blinds
    ensures blinds[id].remote in remotes.Values
    ensures blinds[id].remote.remoteId in remotes && remotes[blinds[id].remote.remoteId] in remotes.Values
  {
  }

  lemma LinkedMore(remotes: map<u32, SomfyRemote>, id: u32, remote: SomfyRemote, blinds: map<u32, Blind>)
    requires RemotesKeyed(remotes) && Linked(remotes, blinds) && id !in remotes && remote.remoteId == id
    ensures RemotesKeyed(remotes[id := remote]) && Linked(remotes[id := remote], blinds)
  {
  }

  lemma LinkedFewer(remotes: map<u32, SomfyRemote>, id: u32, blinds: map<u32, Blind>)
    requires RemotesKeyed(remotes) && Linked(remotes, blinds)
    requires forall b :: b in blinds ==> blinds[b].remote.remoteId != id
    ensures RemotesKeyed(remotes - {id}) && Linked(remotes - {id}, blinds)
  {
  }

  // ---------------------------------------------------------------- how long the id lists get

  /** The remotes of one kind, created here or imported, among some ids. */
  ghost function OfKind(remotes: map<u32, H.Remote>, ids: set<u32>, external: bool): set<u32> {
    set id | id in ids && id in remotes && remotes[id].external == external
  }

  ghost predicate Fits(remotes: map<u32, H.Remote>) {
    |OfKind(remotes, remotes.Keys, false)| <= MAX_IDS16 && |OfKind(remotes, remotes.Keys, true)| <= MAX_IDS32
  }

  ghost function Elements(ids: seq<u32>): set<u32> {
    set id | id in ids
  }

  lemma OneMoreOfKind(remotes: map<u32, H.Remote>, ids: seq<u32>, external: bool)
    requires ids != [] && ids[|ids| - 1] in remotes && ids[|ids| - 1] !in ids[..|ids| - 1]
    ensures var before := |OfKind(remotes, Elements(ids[..|ids| - 1]), external)|;
            |OfKind(remotes, Elements(ids), external)|
            == if remotes[ids[|ids| - 1]].external == external then before + 1 else before
  {
    var x := ids[|ids| - 1];
    var before, after := OfKind(remotes, Elements(ids[..|ids| - 1]), external),
      OfKind(remotes, Elements(ids), external);
    assert ids == ids[..|ids| - 1] + [x];
    assert after == if remotes[x].external == external then before + {x} else before;
  }

  /** A list of some of the remotes is as long as there are remotes of its kind among them. */
  lemma {:induction false} ListLength(remotes: map<u32, H.Remote>, ids: seq<u32>)
    requires forall i, j :: 0 <= i < j < |ids| ==> ids[i] < ids[j]
    requires forall id :: id in ids ==> id in remotes
    ensures |H.InternalIds(remotes, ids)| == |OfKind(remotes, Elements(ids), false)|
    ensures |H.ExternalIds(remotes, ids)| == |OfKind(remotes, Elements(ids), true)|
  {
    if ids != [] {
      ListLength(remotes, ids[..|ids| - 1]);
      hide OfKind, Elements;
      OneMoreOfKind(remotes, ids, false);
      OneMoreOfKind(remotes, ids, true);
    } else {
      assert OfKind(remotes, Elements(ids), false) == {} && OfKind(remotes, Elements(ids), true) == {};
    }
  }

  /** So no part of a list outgrows its record. */
  lemma ListsBounded(remotes: map<u32, H.Remote>, ids: seq<u32>, n: nat)
    requires ids == H.Ascending(remotes.Keys) && n <= |ids|
    ensures |H.InternalIds(remotes, ids[..n])| <= |OfKind(remotes, remotes.Keys, false)|
    ensures |H.ExternalIds(remotes, ids[..n])| <= |OfKind(remotes, remotes.Keys, true)|
  {
    ListLength(remotes, ids[..n]);
    CardinalityMonotone(OfKind(remotes, Elements(ids[..n]), false), OfKind(remotes, remotes.Keys, false));
    CardinalityMonotone(OfKind(remotes, Elements(ids[..n]), true), OfKind(remotes, remotes.Keys, true));
  }

  // ---------------------------------------------------------------- one more step of a loop

  lemma NothingLoaded(remotes: map<u32, SomfyRemote>)
    requires remotes == map[]
    ensures RemoteStates(remotes) == map[] && RemotesKeyed(remotes)
  {
  }

  lemma NoneYet(disk: H.Disk, loaded: map<u32, H.Remote>, ids: seq<u32>, external: bool, first: nat)
    ensures H.LoadRemotes(disk, loaded, ids[..0], external) == loaded && H.NextId(first, ids[..0]) == first
  {
  }

  lemma OneMore(disk: H.Disk, loaded: map<u32, H.Remote>, ids: seq<u32>, external: bool, first: nat, n: nat)
    requires n < |ids|
    ensures H.LoadRemotes(disk, loaded, ids[..n + 1], external)
         == H.LoadRemote(disk, H.LoadRemotes(disk, loaded, ids[..n], external), ids[n], external)
    ensures H.NextId(first, ids[..n + 1])
         == if ids[n] >= H.NextId(first, ids[..n]) then ids[n] + 1 else H.NextId(first, ids[..n])
  {
    hide H.LoadRemote;
    assert ids[..n + 1][..n] == ids[..n];
  }

  // ---------------------------------------------------------------- collecting the ids to save

  method CollectInternals(remotes: map<u32, SomfyRemote>, order: seq<u32>, ghost states: map<u32, H.Remote>)
    returns (list: seq<u16>)
    requires order == H.Ascending(states.Keys) && states.Keys == remotes.Keys && Fits(states)
    requires forall id :: id in remotes ==> remotes[id].isExternal == states[id].external
    ensures |list| <= MAX_IDS16 && list == H.InternalIds(states, order)
  {
    hide H.Ascending, H.InternalIds, H.ExternalIds, OfKind;
    var ids: array<u16> := new u16[128];
    var n := 0;
    NoIds(states, order);
    for i := 0 to |order|
      invariant 0 <= n <= MAX_IDS16 && ids[..n] == H.InternalIds(states, order[..i])
    {
      OneMoreId(states, order, i);
      ListsBounded(states, order, i + 1);
      if !remotes[order[i]].isExternal {
        ghost var before := ids[..n];
        ids[n] := H.Low(order[i]);
        assert ids[..n] == before && ids[..n + 1] == before + [ids[n]];
        n := n + 1;
      }
    }
    assert order[..|order|] == order;
    list := ids[..n];
  }

  method CollectExternals(remotes: map<u32, SomfyRemote>, order: seq<u32>, ghost states: map<u32, H.Remote>)
    returns (list: seq<u32>)
    requires order == H.Ascending(states.Keys) && states.Keys == remotes.Keys && Fits(states)
    requires forall id :: id in remotes ==> remotes[id].isExternal == states[id].external
    ensures |list| <= MAX_IDS32 && list == H.ExternalIds(states, order)
  {
    hide H.Ascending, H.InternalIds, H.ExternalIds, OfKind;
    var ids: array<u32> := new u32[64];
    var n := 0;
    NoIds(states, order);
    for i := 0 to |order|
      invariant 0 <= n <= MAX_IDS32 && ids[..n] == H.ExternalIds(states, order[..i])
    {
      OneMoreId(states, order, i);
      ListsBounded(states, order, i + 1);
      if remotes[order[i]].isExternal {
        ghost var before := ids[..n];
        ids[n] := order[i];
        assert ids[..n] == before && ids[..n + 1] == before + [ids[n]];
        n := n + 1;
      }
    }
    assert order[..|order|] == order;
    list := ids[..n];
  }

  // ---------------------------------------------------------------- more steps of loops

  lemma {:induction false} AscendingLength(ids: set<u32>)
    ensures |H.Ascending(ids)| == |ids|
    decreases ids
  {
    if ids != {} {
      AscendingLength(ids - {H.Smallest(ids)});
    }
  }

  lemma {:induction false} PressesKeepPositions(blinds: map<u32, H.Blind>, ids: seq<u16>, button: int,
                                                longPress: bool, now: int)
    requires forall b :: b in ids ==> b in blinds
    ensures var after := H.PressBlinds(blinds, ids, button, longPress, now);
            forall b :: b in blinds ==> after[b].motion.position == blinds[b].motion.position
  {
    if ids != [] {
      var before := H.PressBlinds(blinds, ids[..|ids| - 1], button, longPress, now);
      PressesKeepPositions(blinds, ids[..|ids| - 1], button, longPress, now);
      assert H.PressBlind(before[ids[|ids| - 1]], button, longPress, now).motion.position
        == before[ids[|ids| - 1]].motion.position;
      hide H.PressBlind;
    }
  }

  /** A press moves no blind by itself, and changes no list. */
  lemma PressKeeps(h: H.House, id: u32, button: int, repeat: u16, now: int)
    requires H.BlindsExist(h, id)
    ensures forall accepted :: H.BlindsExist(H.Press(h, id, button, repeat, now, accepted), id)
    ensures forall accepted, b :: b in h.blinds ==>
              var t := H.Press(h, id, button, repeat, now, accepted);
              b in t.blinds && t.blinds[b].motion.position == h.blinds[b].motion.position
  {
    if id in h.remotes {
      PressesKeepPositions(h.blinds, h.remotes[id].blinds, button, repeat > M.SHORT_PRESS, now);
    }
  }

  lemma SetMotionTwice(h: H.House, id: u32, m1: M.Motion, m2: M.Motion)
    requires id in h.blinds
    ensures H.SetMotion(H.SetMotion(h, id, m1), id, m2) == H.SetMotion(h, id, m2)
  {
    var b := h.blinds[id];
    assert h.blinds[id := b.(motion := m1)][id := b.(motion := m2)] == h.blinds[id := b.(motion := m2)];
  }

  /** The flash without the records of those blinds, among some, that have lost their remote. */
  ghost function Kept(disk: H.Disk, remotes: map<u32, H.Remote>, ids: seq<u16>): H.Disk
    requires forall b :: b in ids ==> b in disk.blinds
  {
    disk.(blinds := disk.blinds - H.OrphansAmong(disk, remotes, ids))
  }

  lemma LoadBlindMeans(disk: H.Disk, remotes: map<u32, H.Remote>, loaded: map<u32, H.Blind>, id: u16, now: int)
    requires id in disk.blinds
    ensures H.LoadBlind(disk, remotes, loaded, id, now)
         == if disk.blinds[id].remoteId !in remotes || id in loaded then loaded
            else loaded[id := H.LoadedBlind(disk.blinds[id], now)]
  {
  }

  lemma NoBlinds(disk: H.Disk, remotes: map<u32, H.Remote>, blinds: map<u32, Blind>, now: int)
    requires blinds == map[]
    ensures States(blinds) == H.LoadBlinds(disk, remotes, [], now) && |blinds| == 0
    ensures Kept(disk, remotes, []) == disk && H.OrphansAmong(disk, remotes, []) == {} && H.NextId(1, []) == 1
  {
    assert H.OrphansAmong(disk, remotes, []) == {};
    hide H.OrphansAmong;
    assert disk.blinds - {} == disk.blinds;
  }

  lemma OneMoreBlind(disk: H.Disk, remotes: map<u32, H.Remote>, ids: seq<u16>, n: nat, now: int)
    requires n < |ids| && H.NoDuplicates(ids) && forall b :: b in ids ==> b in disk.blinds
    ensures var kept, loaded := Kept(disk, remotes, ids[..n]), H.LoadBlinds(disk, remotes, ids[..n], now);
            && ids[n] in kept.blinds && kept.blinds[ids[n]] == disk.blinds[ids[n]]
            && H.LoadBlinds(disk, remotes, ids[..n + 1], now) == H.LoadBlind(kept, remotes, loaded, ids[n], now)
            && Kept(disk, remotes, ids[..n + 1])
            == if disk.blinds[ids[n]].remoteId in remotes then kept else H.DropBlind(kept, ids[n])
    ensures H.OrphansAmong(disk, remotes, ids[..n + 1]) != {}
       <==> H.OrphansAmong(disk, remotes, ids[..n]) != {} || disk.blinds[ids[n]].remoteId !in remotes
    ensures H.NextId(1, H.WideIds(ids)[..n + 1])
         == if ids[n] >= H.NextId(1, H.WideIds(ids)[..n]) then ids[n] + 1 else H.NextId(1, H.WideIds(ids)[..n])
  {
    var wide, orphans := H.WideIds(ids), H.OrphansAmong(disk, remotes, ids[..n]);
    assert ids[..n + 1] == ids[..n] + [ids[n]] && ids[..n + 1][..n] == ids[..n] && wide[..n + 1][..n] == wide[..n];
    assert ids[n] !in ids[..n];
    assert H.OrphansAmong(disk, remotes, ids[..n + 1])
        == if disk.blinds[ids[n]].remoteId in remotes then orphans else orphans + {ids[n]};
    assert disk.blinds - (orphans + {ids[n]}) == disk.blinds - orphans - {ids[n]};
  }

  lemma AllReloaded(h: H.House, now: int)
    requires H.Bootable(h.disk) && H.NextId(1, H.WideIds(h.disk.blindIds)) <= 0x1_0000
    ensures var t := h.(disk := Kept(h.disk, h.remotes, h.disk.blindIds),
                        blinds := H.LoadBlinds(h.disk, h.remotes, h.disk.blindIds, now),
                        nextBlind := H.NextId(1, H.WideIds(h.disk.blindIds)));
            H.ReloadBlinds(h, now) == if H.OrphansAmong(h.disk, h.remotes, h.disk.blindIds) == {} then t
              else H.SaveBlindList(t)
  {
    hide H.LoadBlinds, H.SaveBlindList, H.OrphansAmong;
  }

  lemma NoIds(remotes: map<u32, H.Remote>, ids: seq<u32>)
    requires forall id :: id in ids ==> id in remotes
    ensures H.InternalIds(remotes, ids[..0]) == [] && H.ExternalIds(remotes, ids[..0]) == []
  {
  }

  lemma OneMoreId(remotes: map<u32, H.Remote>, ids: seq<u32>, n: nat)
    requires n < |ids| && forall id :: id in ids ==> id in remotes
    ensures H.InternalIds(remotes, ids[..n + 1])
         == H.InternalIds(remotes, ids[..n]) + (if remotes[ids[n]].external then [] else [H.Low(ids[n])])
    ensures H.ExternalIds(remotes, ids[..n + 1])
         == H.ExternalIds(remotes, ids[..n]) + (if remotes[ids[n]].external then [ids[n]] else [])
  {
    assert ids[..n + 1][..n] == ids[..n];
  }

  lemma OneMoreFits(remotes: map<u32, H.Remote>, id: u32, r: H.Remote)
    requires Fits(remotes)
    requires |OfKind(remotes, remotes.Keys, r.external)| < (if r.external then MAX_IDS32 else MAX_IDS16)
    ensures id !in remotes ==> Fits(remotes[id := r])
  {
    var after := remotes[id := r];
    if id !in remotes {
      var same, grown := OfKind(remotes, remotes.Keys, !r.external), OfKind(remotes, remotes.Keys, r.external);
      assert OfKind(after, after.Keys, !r.external) == same;
      assert OfKind(after, after.Keys, r.external) == grown + {id};
    }
  }

  lemma OneFewerFits(remotes: map<u32, H.Remote>, id: u32)
    requires Fits(remotes)
    ensures Fits(remotes - {id})
  {
    var after := remotes - {id};
    CardinalityMonotone(OfKind(after, after.Keys, false), OfKind(remotes, remotes.Keys, false));
    CardinalityMonotone(OfKind(after, after.Keys, true), OfKind(remotes, remotes.Keys, true));
  }

  /** An addition, as one change of the table and one of the flash. */
  lemma SavedLists(h: H.House, id: u32, r: H.Remote)
    requires r == H.Remote(r.name, 1, [], r.external, false)
    ensures var remotes := if id in h.remotes then h.remotes else h.remotes[id := r];
            H.AddRemote(h, id, r.name, r.external) ==
            h.(remotes := remotes, disk := H.StoreLists(H.StoreRemote(h.disk, id, r), remotes))
  {
    hide H.StoreLists, H.StoreRemote;
  }
}
