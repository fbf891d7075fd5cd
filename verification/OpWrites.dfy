/** The writes each operation, and a start, makes to the flash, in order. */
module OpWrites {
  import opened Basics
  import opened Records
  import opened House
  import opened HouseRestart
  import opened HouseRuns
  import W = DiskWrites

  /** The requests that save the lists of remotes. */
  predicate SavesLists(h: House, op: Op) {
    || (op.Add? && NameAllowed(op.name)) || (op.Import? && NameAllowed(op.name) && op.id !in h.remotes)
    || (op.Delete? && !IsAPrimaryRemote(h, op.id)) || op.NewBlindOp? || (op.RemoveBlind? && op.blind in h.blinds)
  }

  /** Saving one remote, or one blind. */
  function RemoteWrite(h: House, id: u32): seq<W.Write>
    requires id in h.remotes
  {
    if h.remotes[id].dirty then [W.PutRemote(Low(id), RemoteRecord(id, h.remotes[id]))] else []
  }

  function BlindWrite(h: House, b: u32, force: bool): seq<W.Write>
    requires AllStorable(h.blinds) && b in h.blinds
  {
    if h.blinds[b].dirty || force then [W.PutBlind(Low(b), BlindRecord(h.blinds[b]))] else []
  }

  function RemoteWrites(h: House, ids: seq<u32>): seq<W.Write>
    requires forall id :: id in ids ==> id in h.remotes
  {
    if ids == [] then [] else RemoteWrites(h, ids[..|ids| - 1]) + RemoteWrite(h, ids[|ids| - 1])
  }

  function BlindWrites(h: House, ids: seq<u32>, force: bool): seq<W.Write>
    requires AllStorable(h.blinds) && forall b :: b in ids ==> b in h.blinds
  {
    if ids == [] then [] else BlindWrites(h, ids[..|ids| - 1], force) + BlindWrite(h, ids[|ids| - 1], force)
  }

  function ListsWrites(end: Disk): seq<W.Write> {
    [W.PutInternals(end.remoteIds), W.PutExternals(end.externalIds)]
  }

  /** A new remote's record, then the lists that name it. */
  function AdditionWrites(id: u32, name: Name, external: bool, end: Disk): seq<W.Write> {
    [W.PutRemote(Low(id), RemoteRecord(id, Remote(name, 1, [], external, false))),
     W.PutInternals(end.remoteIds), W.PutExternals(end.externalIds)]
  }

  function RemovalWrites(id: u32, end: Disk): seq<W.Write> {
    [W.DropRemote(Low(id)), W.PutInternals(end.remoteIds), W.PutExternals(end.externalIds)]
  }

  function EntryWrites(id: u16, b: Blind, end: Disk): seq<W.Write>
    requires Storable(b)
  {
    [W.PutBlind(id, BlindRecord(b)), W.PutBlindIds(end.blindIds)]
  }

  function ExitWrites(id: u32, end: Disk): seq<W.Write> {
    [W.DropBlind(Low(id)), W.PutBlindIds(end.blindIds)]
  }

  /** A new primary remote, then the blind and the list that names it. */
  function BlindAdditionWrites(h: House, b: Blind, end: Disk): seq<W.Write>
    requires h.nextBlind < 0x1_0000 && Storable(b)
  {
    AdditionWrites(h.nextRemote, b.name, false, end) + EntryWrites(h.nextBlind, b, end)
  }

  function BlindRemovalWrites(h: House, b: u32, end: Disk): seq<W.Write>
    requires b in h.blinds
  {
    RemovalWrites(h.blinds[b].remoteId, end) + ExitWrites(b, end)
  }

  ghost function AllRemoteWrites(h: House): seq<W.Write> {
    RemoteWrites(h, Ascending(h.remotes.Keys))
  }

  ghost function AllBlindWrites(h: House, force: bool): seq<W.Write>
    requires AllStorable(h.blinds)
  {
    BlindWrites(h, Ascending(h.blinds.Keys), force)
  }

  /** What an operation writes, in order. A write that would change nothing is skipped, which is one way for
      it to be cut. */
  ghost function WritesOf(h: House, op: Op): seq<W.Write>
    requires Enabled(h, op)
  {
    if SavesLists(h, op) then ListWrites(h, op)
    else if op.SaveRemotesOp? then AllRemoteWrites(h)
    else if op.SaveBlindsOp? then AllBlindWrites(h, false)
    else if op.Restart? && op.clean then AllRemoteWrites(h) + AllBlindWrites(h, true)
    else []
  }

  ghost function ListWrites(h: House, op: Op): seq<W.Write>
    requires Enabled(h, op) && SavesLists(h, op)
  {
    var end := Step(h, op).disk;
    match op
    case Add(name) => AdditionWrites(h.nextRemote, name, false, end)
    case Import(id, name) => AdditionWrites(id, name, true, end)
    case Delete(id) => RemovalWrites(id, end)
    case NewBlindOp(name, openTime, closeTime, now) =>
      BlindAdditionWrites(h, NewBlind(name, h.nextRemote, openTime, closeTime, now), end)
    case RemoveBlind(b) => BlindRemovalWrites(h, b, end)
    case _ => []
  }

  /** What an operation makes of the flash before the device is started again. */
  ghost function EndDisk(h: House, op: Op): Disk
    requires Enabled(h, op)
  {
    if op.Restart? then (if op.clean then Shutdown(h).disk else h.disk) else Step(h, op).disk
  }

  // ---------------------------------------------------------------- part after part

  predicate AllDifferent(ids: seq<u32>) {
    forall i, j :: 0 <= i < j < |ids| ==> ids[i] != ids[j]
  }

  /** Saving one remote more writes what it would have written to begin with. */
  lemma OneMoreRemote(h: House, ids: seq<u32>, n: nat)
    requires n < |ids| && AllDifferent(ids) && forall id :: id in ids ==> id in h.remotes
    ensures ids[n] in SaveRemotes(h, ids[..n]).remotes
    ensures RemoteWrites(h, ids[..n + 1]) == RemoteWrites(h, ids[..n]) + RemoteWrite(SaveRemotes(h, ids[..n]), ids[n])
  {
    hide RemoteRecord, SaveRemotes;
    SaveRemotesEffect(h, ids[..n]);
    assert ids[..n + 1][..n] == ids[..n];
    assert ids[n] !in ids[..n];
  }

  lemma {:induction false} SavedBlindsKeep(h: House, ids: seq<u32>, force: bool, b: u32)
    requires AllStorable(h.blinds) && (forall a :: a in ids ==> a in h.blinds) && b in h.blinds && b !in ids
    ensures SaveBlinds(h, ids, force).blinds[b] == h.blinds[b]
    decreases |ids|
  {
    hide BlindRecord, AllStorable;
    if ids != [] {
      SavedBlindsKeep(h, ids[..|ids| - 1], force, b);
      assert ids == ids[..|ids| - 1] + [ids[|ids| - 1]];
    }
  }

  lemma OneMoreBlind(h: House, ids: seq<u32>, n: nat, force: bool)
    requires n < |ids| && AllDifferent(ids) && AllStorable(h.blinds) && forall b :: b in ids ==> b in h.blinds
    ensures ids[n] in SaveBlinds(h, ids[..n], force).blinds
    ensures BlindWrites(h, ids[..n + 1], force)
         == BlindWrites(h, ids[..n], force) + BlindWrite(SaveBlinds(h, ids[..n], force), ids[n], force)
  {
    hide BlindRecord, SaveBlinds, AllStorable, Storable;
    assert ids[n] !in ids[..n] && ids[n] in ids;
    SavedBlindsKeep(h, ids[..n], force, ids[n]);
    assert ids[..n + 1][..n] == ids[..n];
  }

  /** Saving the remotes makes no difference to what the blinds will write. */
  lemma {:induction false} SameBlindWrites(h: House, t: House, ids: seq<u32>, force: bool)
    requires AllStorable(h.blinds) && t.blinds == h.blinds && forall b :: b in ids ==> b in h.blinds
    ensures BlindWrites(t, ids, force) == BlindWrites(h, ids, force)
    decreases |ids|
  {
    hide BlindRecord, AllStorable;
    if ids != [] {
      SameBlindWrites(h, t, ids[..|ids| - 1], force);
    }
  }

  lemma AdditionIs(id: u32, name: Name, external: bool, end: Disk)
    ensures [W.PutRemote(Low(id), RemoteRecord(id, Remote(name, 1, [], external, false)))] + ListsWrites(end)
         == AdditionWrites(id, name, external, end)
  {
    hide RemoteRecord, Low;
  }

  lemma RemovalIs(id: u32, end: Disk)
    ensures [W.DropRemote(Low(id))] + ListsWrites(end) == RemovalWrites(id, end)
  {
    hide Low;
  }

  /** The lists of remotes are not touched again once they are saved. */
  lemma AdditionParts(id: u32, blind: u16, b: Blind, e: Disk, f: Disk)
    requires Storable(b) && f == W.Done(e, EntryWrites(blind, b, f), |EntryWrites(blind, b, f)|)
    ensures AdditionWrites(id, b.name, false, e) == AdditionWrites(id, b.name, false, f)
  {
    hide BlindRecord, Storable, RemoteRecord, Low;
    TwoDone(e, W.PutBlind(blind, BlindRecord(b)), W.PutBlindIds(f.blindIds));
  }

  lemma RemovalParts(id: u32, b: u32, e: Disk, f: Disk)
    requires f == W.Done(e, ExitWrites(b, f), |ExitWrites(b, f)|)
    ensures RemovalWrites(id, e) == RemovalWrites(id, f)
  {
    hide Low;
    TwoDone(e, W.DropBlind(Low(b)), W.PutBlindIds(f.blindIds));
  }

  lemma TwoDone(d: Disk, v: W.Write, w: W.Write)
    ensures W.Done(d, [v, w], 2) == W.Applied(W.Applied(d, v), w)
  {
    hide W.Applied;
    W.DoneNone(d, [v, w]);
    W.DoneStep(d, [v, w], 0);
    W.DoneStep(d, [v, w], 1);
  }

  // ---------------------------------------------------------------- starting

  /** The listed blinds whose remote does not come up, in the order of the list. */
  function OrphanList(d: Disk, remotes: map<u32, Remote>, ids: seq<u16>): (r: seq<u16>)
    requires forall b :: b in ids ==> b in d.blinds
    ensures forall b :: b in r <==> b in OrphansAmong(d, remotes, ids)
  {
    if ids == [] then [] else
      var b := ids[|ids| - 1];
      OrphanList(d, remotes, ids[..|ids| - 1]) + (if d.blinds[b].remoteId in remotes then [] else [b])
  }

  function Drops(ids: seq<u16>): (ws: seq<W.Write>)
    ensures |ws| == |ids|
  {
    seq(|ids|, i requires 0 <= i < |ids| => W.DropBlind(ids[i]))
  }

  function StartOrphans(d: Disk): (os: seq<u16>)
    requires Bootable(d)
    ensures forall b :: b in os ==> b in d.blindIds
  {
    OrphanList(d, ReloadedRemotes(d), d.blindIds)
  }

  /** What a start writes: nothing, unless some blind is an orphan; then the records of those go, and the list
      is saved again. */
  function StartWrites(d: Disk): seq<W.Write>
    requires Bootable(d)
  {
    if StartOrphans(d) == [] then [] else
      Drops(StartOrphans(d)) + [W.PutBlindIds(Reload(d, 0, []).disk.blindIds)]
  }

  /** Loading blinds by a list, and saving the list again if some were orphans. */
  function LoadingWrites(d: Disk, remotes: map<u32, Remote>, end: Disk): seq<W.Write>
    requires Bootable(d)
  {
    var os := OrphanList(d, remotes, d.blindIds);
    if os == [] then [] else Drops(os) + [W.PutBlindIds(end.blindIds)]
  }

  lemma OneMoreOrphan(d: Disk, remotes: map<u32, Remote>, ids: seq<u16>, n: nat)
    requires n < |ids| && forall b :: b in ids ==> b in d.blinds
    ensures Drops(OrphanList(d, remotes, ids[..n + 1]))
         == Drops(OrphanList(d, remotes, ids[..n]))
            + (if d.blinds[ids[n]].remoteId in remotes then [] else [W.DropBlind(ids[n])])
  {
    assert ids[..n + 1][..n] == ids[..n];
  }

  lemma {:induction false} SameLoadedKeys(d: Disk, remotes: map<u32, Remote>, ids: seq<u16>, now: int, later: int)
    requires forall b :: b in ids ==> b in d.blinds
    ensures LoadBlinds(d, remotes, ids, now).Keys == LoadBlinds(d, remotes, ids, later).Keys
    decreases |ids|
  {
    if ids != [] {
      SameLoadedKeys(d, remotes, ids[..|ids| - 1], now, later);
    }
  }

  /** What a start leaves on flash depends on nothing but what was there. */
  lemma StartIsSame(d: Disk, now: int, issued: seq<Issue>)
    requires Bootable(d)
    ensures Reload(d, now, issued).disk == Reload(d, 0, []).disk
    ensures LoadingWrites(d, ReloadedRemotes(d), Reload(d, now, issued).disk) == StartWrites(d)
  {
    hide LoadBlinds, ReloadedRemotes, LowIds, Ascending, NextId;
    SameLoadedKeys(d, ReloadedRemotes(d), d.blindIds, now, 0);
  }

  /** All that is written from one event to the next, starting the device again included. */
  ghost function EventWrites(h: House, op: Op): seq<W.Write>
    requires Enabled(h, op)
  {
    WritesOf(h, op) + (if op.Restart? then StartWrites(EndDisk(h, op)) else [])
  }

  /** The events that write nothing, whatever they are answered. */
  lemma WritesNone(h: House, op: Op)
    requires Enabled(h, op) && MemoryOnly(op)
    ensures WritesOf(h, op) == []
  {
  }

  lemma WritesSave(h: House, op: Op)
    requires Enabled(h, op)
    ensures op.SaveRemotesOp? ==> WritesOf(h, op) == AllRemoteWrites(h)
    ensures op.SaveBlindsOp? ==> WritesOf(h, op) == AllBlindWrites(h, false)
  {
    hide AllRemoteWrites, AllBlindWrites;
  }

  /** Everything that a run writes. */
  ghost function RunWrites(h: House, ops: seq<Op>): seq<W.Write>
    requires CanRun(h, ops)
    decreases ops
  {
    if ops == [] then [] else EventWrites(h, ops[0]) + RunWrites(Step(h, ops[0]), ops[1..])
  }
}
