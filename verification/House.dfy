/** The registry of remotes and blinds: what is in memory, what is on flash, and what each
    operation of the web interface, the radio, the timers and a restart does to both. */
module House {
  import opened Basics
  import opened Records
  import M = Motion

  /** Ids of remotes created here carry this in their upper bits; its low 16 bits are clear. */
  const BASE_REMOTE_ID: u32 := 0x27_0000
  const NO_REMOTE: u32 := 0xFFFF_FFFF

  /** The typed content of the record store: remote records by the low half of their id. A list
      that was never stored reads as empty. */
  datatype Disk = Disk(remotes: map<u16, RemoteConfig>, blinds: map<u16, BlindConfig>,
                       remoteIds: seq<u16>, externalIds: seq<u32>, blindIds: seq<u16>)

  datatype Remote = Remote(name: Name, rollingCode: u16, blinds: seq<u16>, external: bool, dirty: bool)

  datatype Blind = Blind(name: Name, remoteId: u32, motion: M.Motion, dirty: bool)

  /** A command given to the outgoing queue, which takes it or, when full, does not. */
  datatype Issue = Issue(remoteId: u32, rollingCode: u16, buttons: int, repeat: u16, accepted: bool)

  datatype House = House(disk: Disk, remotes: map<u32, Remote>, nextRemote: u32,
                         blinds: map<u32, Blind>, nextBlind: u32, issued: seq<Issue>)

  function Low(id: u32): u16 {
    id % 0x1_0000
  }

  /** Sectors left once each record has one: those of the remotes and blinds, and the five of the
      settings and the lists. */
  function RoomLeft(sectors: nat, disk: Disk): int {
    sectors - 5 - |disk.remotes| - |disk.blinds|
  }

  // ---------------------------------------------------------------- saving

  function Clip(blinds: seq<u16>): (r: seq<u16>)
    ensures |r| <= MAX_BLINDS
  {
    if |blinds| > MAX_BLINDS then blinds[..MAX_BLINDS] else blinds
  }

  function RemoteRecord(id: u32, r: Remote): RemoteConfig {
    RemoteConfig(r.name, id, r.rollingCode, Clip(r.blinds))
  }

  function StoreRemote(disk: Disk, id: u32, r: Remote): Disk {
    disk.(remotes := disk.remotes[Low(id) := RemoteRecord(id, r)])
  }

  function DropRemote(disk: Disk, id: u32): Disk {
    disk.(remotes := disk.remotes - {Low(id)})
  }

  /** `SomfyRemote::SaveConfig`. A write that would change nothing is skipped, which shows only in
      the wear of the flash. */
  function SaveRemote(h: House, id: u32, force: bool): House
    requires id in h.remotes
  {
    var r := h.remotes[id];
    if !r.dirty && !force then h
    else h.(disk := StoreRemote(h.disk, id, r), remotes := h.remotes[id := r.(dirty := false)])
  }

  /** `SaveRemoteState`, over the remotes in the order of their ids. */
  function SaveRemotes(h: House, ids: seq<u32>): (r: House)
    requires forall id :: id in ids ==> id in h.remotes
    ensures r.remotes.Keys == h.remotes.Keys && r.blinds == h.blinds
    decreases |ids|
  {
    if ids == [] then h
    else
      var before := SaveRemotes(h, ids[..|ids| - 1]);
      SaveRemote(before, ids[|ids| - 1], false)
  }

  /** A set of ids in ascending order, the order a map is walked in. */
  function Ascending(ids: set<u32>): (s: seq<u32>)
    ensures forall id :: id in s <==> id in ids
    ensures forall i, j :: 0 <= i < j < |s| ==> s[i] < s[j]
    decreases |ids|
  {
    if ids == {} then [] else
      var m := Smallest(ids);
      [m] + Ascending(ids - {m})
  }

  predicate IsLeast(m: u32, ids: set<u32>) {
    m in ids && forall id :: id in ids ==> m <= id
  }

  function Smallest(ids: set<u32>): (m: u32)
    requires ids != {}
    ensures IsLeast(m, ids)
  {
    HasSmallest(ids);
    var m :| m in ids && IsLeast(m, ids);
    m
  }

  lemma HasSmallest(ids: set<u32>)
    requires ids != {}
    ensures exists m :: IsLeast(m, ids)
    decreases ids
  {
    var x :| x in ids;
    var rest := ids - {x};
    if rest == {} {
      assert ids == {x};
      assert IsLeast(x, ids);
    } else {
      HasSmallest(rest);
      var y :| IsLeast(y, rest);
      forall id | id in ids
        ensures (if x < y then x else y) <= id
      {
        assert id == x || id in rest;
      }
      assert IsLeast(if x < y then x else y, ids);
    }
  }

  function InternalIds(remotes: map<u32, Remote>, ids: seq<u32>): (r: seq<u16>)
    requires forall id :: id in ids ==> id in remotes
    ensures forall x :: x in r <==> exists id :: id in ids && !remotes[id].external && Low(id) == x
  {
    if ids == [] then [] else
      var id := ids[|ids| - 1];
      InternalIds(remotes, ids[..|ids| - 1]) + (if remotes[id].external then [] else [Low(id)])
  }

  function ExternalIds(remotes: map<u32, Remote>, ids: seq<u32>): (r: seq<u32>)
    requires forall id :: id in ids ==> id in remotes
    ensures forall x :: x in r <==> x in ids && remotes[x].external
  {
    if ids == [] then [] else
      var id := ids[|ids| - 1];
      ExternalIds(remotes, ids[..|ids| - 1]) + (if remotes[id].external then [id] else [])
  }

  /** Both lists, in the order of the remotes' ids. */
  function StoreLists(disk: Disk, remotes: map<u32, Remote>): Disk {
    disk.(remoteIds := InternalIds(remotes, Ascending(remotes.Keys)),
          externalIds := ExternalIds(remotes, Ascending(remotes.Keys)))
  }

  function SaveRemoteList(h: House): House {
    h.(disk := StoreLists(h.disk, h.remotes))
  }

  // ---------------------------------------------------------------- the remotes' operations

  /** A name the web interface lets through: not empty, short enough, without a double quote. */
  predicate NameAllowed(name: seq<Byte>) {
    IsText(name) && 0 < |name| < NAME_SIZE && 0x22 !in name
  }

  /** Add a remote with a given id: `map::insert` keeps an entry that is already there. */
  function AddRemote(h: House, id: u32, name: Name, external: bool): House {
    var r := Remote(name, 1, [], external, false);
    SaveRemoteList(h.(remotes := if id in h.remotes then h.remotes else h.remotes[id := r],
                      disk := StoreRemote(h.disk, id, r)))
  }

  function CreateRemote(h: House, name: Name): House {
    AddRemote(h.(nextRemote := (h.nextRemote + 1) % 0x1_0000_0000), h.nextRemote, name, false)
  }

  function ImportRemote(h: House, id: u32, name: Name): House {
    if id in h.remotes then h else AddRemote(h, id, name, true)
  }

  function DeleteRemote(h: House, id: u32): House {
    SaveRemoteList(h.(remotes := h.remotes - {id}, disk := DropRemote(h.disk, id)))
  }

  function SetName(h: House, id: u32, name: Name): House {
    if id in h.remotes then h.(remotes := h.remotes[id := h.remotes[id].(name := name, dirty := true)]) else h
  }

  function Associated(r: Remote, blindId: u16): Remote {
    r.(dirty := true, blinds := if blindId in r.blinds then r.blinds else r.blinds + [blindId])
  }

  function Disassociated(r: Remote, blindId: u16): Remote {
    r.(dirty := true, blinds := Without(r.blinds, blindId))
  }

  /** A list without the first occurrence of an element. */
  function Without(s: seq<u16>, x: u16): seq<u16> {
    if s == [] then [] else if s[0] == x then s[1..] else [s[0]] + Without(s[1..], x)
  }

  function Bind(h: House, id: u32, blindId: u16): House {
    if id in h.remotes then h.(remotes := h.remotes[id := Associated(h.remotes[id], blindId)]) else h
  }

  function Unbind(h: House, id: u32, blindId: u16): House {
    if id in h.remotes then h.(remotes := h.remotes[id := Disassociated(h.remotes[id], blindId)]) else h
  }

  /** The requests to bind a blind to a remote, and to unbind it; the blind must exist. */
  function BindBlind(h: House, id: u32, blindId: u16, bind: bool): House {
    if blindId !in h.blinds then h else if bind then Bind(h, id, blindId) else Unbind(h, id, blindId)
  }

  predicate NoDuplicates(s: seq<u16>) {
    forall i, j :: 0 <= i < j < |s| ==> s[i] != s[j]
  }

  function PressBlind(b: Blind, button: int, longPress: bool, now: int): Blind {
    var (m, registered) := M.ButtonsPressed(b.motion, button, longPress, now);
    b.(motion := m, dirty := b.dirty || registered)
  }

  /** Tell each listed blind in turn. */
  function PressBlinds(blinds: map<u32, Blind>, ids: seq<u16>, button: int, longPress: bool, now: int)
    : (r: map<u32, Blind>)
    requires forall b :: b in ids ==> b in blinds
    ensures r.Keys == blinds.Keys
    ensures forall b :: b in blinds ==> r[b].name == blinds[b].name && r[b].remoteId == blinds[b].remoteId
    decreases |ids|
  {
    if ids == [] then blinds else
      var before := PressBlinds(blinds, ids[..|ids| - 1], button, longPress, now);
      var b := ids[|ids| - 1];
      before[b := PressBlind(before[b], button, longPress, now)]
  }

  predicate BlindsExist(h: House, id: u32) {
    id in h.remotes ==> forall b :: b in h.remotes[id].blinds ==> b in h.blinds
  }

  /** `PressButtons`: issue the command under the next rolling code, and tell the bound blinds. */
  function Press(h: House, id: u32, buttons: int, repeat: u16, now: int, accepted: bool): House
    requires BlindsExist(h, id)
  {
    if id !in h.remotes then h else
      var r := h.remotes[id];
      h.(remotes := h.remotes[id := r.(dirty := true, rollingCode := (r.rollingCode + 1) % 0x1_0000)],
         issued := h.issued + [Issue(id, r.rollingCode, buttons, repeat, accepted)],
         blinds := PressBlinds(h.blinds, r.blinds, buttons, repeat > M.SHORT_PRESS, now))
  }

  /** `ExternalButtonPress`: a genuine remote was heard; follow its rolling code. */
  function HearRemote(h: House, id: u32, rollingCode: u16, button: int, repeat: u16, now: int): House
    requires BlindsExist(h, id)
  {
    if id !in h.remotes then h else
      var r := h.remotes[id];
      h.(remotes := h.remotes[id := r.(dirty := true, rollingCode := (rollingCode + 1) % 0x1_0000)],
         blinds := PressBlinds(h.blinds, r.blinds, button, repeat > 7, now))
  }

  // ---------------------------------------------------------------- the blinds' operations

  /** A blind's record; only the target position is kept. */
  function BlindRecord(b: Blind): BlindConfig
    requires Storable(b)
  {
    BlindConfig(b.name, b.motion.target, b.motion.favourite, b.motion.openTime, b.motion.closeTime, b.remoteId)
  }

  /** The numbers fit the record, and the times are positive. */
  predicate Storable(b: Blind) {
    M.Sane(b.motion) && b.motion.openTime < 0x8000_0000 && b.motion.closeTime < 0x8000_0000
  }

  predicate AllStorable(blinds: map<u32, Blind>) {
    forall id :: id in blinds ==> Storable(blinds[id])
  }

  function StoreBlind(disk: Disk, id: u32, b: Blind): Disk
    requires Storable(b)
  {
    disk.(blinds := disk.blinds[Low(id) := BlindRecord(b)])
  }

  function DropBlind(disk: Disk, id: u32): Disk {
    disk.(blinds := disk.blinds - {Low(id)})
  }

  function SaveBlind(h: House, id: u32, force: bool): (r: House)
    requires id in h.blinds && AllStorable(h.blinds)
    ensures r.blinds.Keys == h.blinds.Keys && AllStorable(r.blinds)
  {
    var b := h.blinds[id];
    if !b.dirty && !force then h
    else h.(disk := StoreBlind(h.disk, id, b), blinds := h.blinds[id := b.(dirty := false)])
  }

  function SaveBlinds(h: House, ids: seq<u32>, force: bool): (r: House)
    requires AllStorable(h.blinds) && forall b :: b in ids ==> b in h.blinds
    ensures r.blinds.Keys == h.blinds.Keys && AllStorable(r.blinds)
    decreases |ids|
  {
    if ids == [] then h else
      var before := SaveBlinds(h, ids[..|ids| - 1], force);
      SaveBlind(before, ids[|ids| - 1], force)
  }

  function LowIds(ids: seq<u32>): (r: seq<u16>)
    ensures |r| == |ids|
    ensures forall x :: x in r <==> exists id :: id in ids && Low(id) == x
  {
    if ids == [] then [] else LowIds(ids[..|ids| - 1]) + [Low(ids[|ids| - 1])]
  }

  function StoreBlindList(disk: Disk, ids: set<u32>): Disk {
    disk.(blindIds := LowIds(Ascending(ids)))
  }

  function SaveBlindList(h: House): House {
    h.(disk := StoreBlindList(h.disk, h.blinds.Keys))
  }

  /** A blind as it is added: at 90% with its favourite at 50%. */
  function NewBlind(name: Name, remoteId: u32, openTime: int, closeTime: int, now: int): Blind {
    Blind(name, remoteId, M.Motion(openTime, closeTime, 90, 50, 90.0, 0, now), false)
  }

  /** Save a blind and put it into the table; `map::insert` keeps one already there. */
  function PlaceBlind(h: House, id: u16, b: Blind): House
    requires Storable(b)
  {
    h.(disk := StoreBlind(h.disk, id, b), blinds := if id as u32 in h.blinds then h.blinds else h.blinds[id := b])
  }

  /** A blind under the next id. */
  function EnterBlind(h: House, b: Blind): House
    requires h.nextBlind < 0x1_0000 && Storable(b)
  {
    PlaceBlind(h.(nextBlind := h.nextBlind + 1), h.nextBlind, b)
  }

  /** Save and add a blind, bind its primary remote to it, and save the list. */
  function AttachBlind(h: House, b: Blind): House
    requires h.nextBlind < 0x1_0000 && Storable(b)
  {
    SaveBlindList(Bind(EnterBlind(h, b), b.remoteId, h.nextBlind))
  }

  /** `DoAddBlind`: a new primary remote, then the blind itself. */
  function AddBlind(h: House, name: Name, openTime: int, closeTime: int, now: int): House
    requires h.nextBlind < 0x1_0000 && 0 < openTime < 0x8000_0000 && 0 < closeTime < 0x8000_0000
  {
    AttachBlind(CreateRemote(h, name), NewBlind(name, h.nextRemote, openTime, closeTime, now))
  }

  /** `UpdateConfig`: rename a blind and its primary remote, and set its times. */
  function UpdateBlind(h: House, id: u32, name: Name, openTime: int, closeTime: int): House {
    if id !in h.blinds then h else
      var b := h.blinds[id];
      SetName(h.(blinds := h.blinds[id := b.(name := name, dirty := true,
                                             motion := b.motion.(openTime := openTime, closeTime := closeTime))]),
              b.remoteId, name)
  }

  function TakeBlind(h: House, id: u32): House {
    h.(blinds := h.blinds - {id})
  }

  function ForgetBlind(h: House, id: u32): House {
    SaveBlindList(h.(disk := DropBlind(h.disk, id)))
  }

  /** `DoDeleteBlind`: the blind goes together with its primary remote. */
  function DeleteBlind(h: House, id: u32): House {
    if id !in h.blinds then h
    else ForgetBlind(DeleteRemote(TakeBlind(h, id), h.blinds[id].remoteId), id)
  }

  predicate IsAPrimaryRemote(h: House, id: u32) {
    exists b :: b in h.blinds && h.blinds[b].remoteId == id
  }

  function SetMotion(h: House, id: u32, m: M.Motion): House
    requires id in h.blinds
  {
    h.(blinds := h.blinds[id := h.blinds[id].(motion := m)])
  }

  datatype BlindCommand = GoUp | GoDown | Halt | GoToMyPosition | SaveMyPosition

  /** The press a blind's own command makes, if any: the buttons and the repeat count. */
  function CommandPress(m: M.Motion, c: BlindCommand): Option<(int, u16)> {
    match c
    case GoUp => Some((M.UP, M.SHORT_PRESS))
    case GoDown => Some((M.DOWN, M.SHORT_PRESS))
    case Halt => if m.direction != 0 then Some((M.MY, M.SHORT_PRESS)) else None
    case GoToMyPosition => if m.direction == 0 then Some((M.MY, M.SHORT_PRESS)) else None
    case SaveMyPosition => if m.direction == 0 then Some((M.MY, M.LONG_PRESS)) else None
  }

  function CommandBlind(h: House, id: u32, c: BlindCommand, now: int, accepted: bool): House
    requires id in h.blinds && BlindsExist(h, h.blinds[id].remoteId)
  {
    match CommandPress(h.blinds[id].motion, c)
    case Some((buttons, repeat)) => Press(h, h.blinds[id].remoteId, buttons, repeat, now, accepted)
    case None => h
  }

  /** `GoToPosition`: press Down, Up or neither on the primary remote, then note the target. */
  function GoTo(h: House, id: u32, position: int, now: int, accepted: bool): House
    requires id in h.blinds && BlindsExist(h, h.blinds[id].remoteId)
  {
    var p := M.Clamp(position);
    var remoteId := h.blinds[id].remoteId;
    var h1 := if M.PressesDown(h.blinds[id].motion, p) then Press(h, remoteId, M.DOWN, M.SHORT_PRESS, now, accepted)
      else h;
    var h2 := if M.PressesUp(h1.blinds[id].motion, p) then Press(h1, remoteId, M.UP, M.SHORT_PRESS, now, accepted)
      else h1;
    SetMotion(h2, id, h2.blinds[id].motion.(target := p))
  }

  /** `UpdatePosition`: a timer tick, which may press My on arrival. */
  function TickBlind(h: House, id: u32, now: int, accepted: bool): House
    requires id in h.blinds && BlindsExist(h, h.blinds[id].remoteId) && M.Sane(h.blinds[id].motion)
  {
    var m := h.blinds[id].motion;
    if m.direction == 0 || !M.Arrives(m, now) then SetMotion(h, id, M.Tick(m, now).0)
    else
      var h1 := SetMotion(h, id, m.(position := m.target as real));
      var h2 := if 0 < m.target < 100 then Press(h1, h.blinds[id].remoteId, M.MY, M.SHORT_PRESS, now, accepted) else h1;
      SetMotion(h2, id, h2.blinds[id].motion.(direction := 0, lastTick := now))
  }

  // ---------------------------------------------------------------- restart

  function ReadRemote(disk: Disk, id: u32): Option<RemoteConfig> {
    if id == 0 || id == NO_REMOTE then None
    else if Low(id) in disk.remotes then Some(disk.remotes[Low(id)]) else None
  }

  function ReadBlind(disk: Disk, id: u16): Option<BlindConfig> {
    if id in disk.blinds then Some(disk.blinds[id]) else None
  }

  function LoadedRemote(cfg: RemoteConfig, external: bool): Remote {
    Remote(cfg.name, cfg.rollingCode, cfg.blinds, external, false)
  }

  /** Reload one listed remote, if it has a record and is not there already. */
  function LoadRemote(disk: Disk, loaded: map<u32, Remote>, id: u32, external: bool): map<u32, Remote> {
    match ReadRemote(disk, id)
    case Some(cfg) => if id in loaded then loaded else loaded[id := LoadedRemote(cfg, external)]
    case None => loaded
  }

  /** Reload listed remotes, one after the other. */
  function LoadRemotes(disk: Disk, loaded: map<u32, Remote>, ids: seq<u32>, external: bool): map<u32, Remote>
    decreases |ids|
  {
    if ids == [] then loaded
    else LoadRemote(disk, LoadRemotes(disk, loaded, ids[..|ids| - 1], external), ids[|ids| - 1], external)
  }

  /** The remotes of the internal list, then those of the external list. */
  function ReloadedRemotes(disk: Disk): map<u32, Remote> {
    LoadRemotes(disk, LoadRemotes(disk, map[], InternalIdsOf(disk.remoteIds), false), disk.externalIds, true)
  }

  function InternalIdsOf(lows: seq<u16>): (ids: seq<u32>)
    ensures |ids| == |lows|
  {
    seq(|lows|, i requires 0 <= i < |lows| => BASE_REMOTE_ID + lows[i])
  }

  /** One past the largest id, starting from a first id. */
  function NextId(first: nat, ids: seq<u32>): (n: nat)
    ensures first <= n && forall id :: id in ids ==> id < n
  {
    if ids == [] then first else
      var n := NextId(first, ids[..|ids| - 1]);
      var id := ids[|ids| - 1];
      assert ids == ids[..|ids| - 1] + [id];
      if id >= n then id + 1 else n
  }

  /** Every listed blind has a record; the reload reads it without looking. */
  predicate Bootable(disk: Disk) {
    forall b :: b in disk.blindIds ==> b in disk.blinds
  }

  function LoadedBlind(cfg: BlindConfig, now: int): Blind {
    var favourite := if cfg.myPosition > 100 || cfg.myPosition < 0 then 50 else cfg.myPosition as int;
    Blind(cfg.name, cfg.remoteId,
          M.Motion(cfg.openTime, cfg.closeTime, cfg.currentPosition, favourite, cfg.currentPosition as real, 0, now),
          false)
  }

  /** Reload one listed blind, if its remote is there. */
  function LoadBlind(disk: Disk, remotes: map<u32, Remote>, loaded: map<u32, Blind>, b: u16, now: int): map<u32, Blind>
    requires b in disk.blinds
  {
    if disk.blinds[b].remoteId in remotes && b !in loaded then loaded[b := LoadedBlind(disk.blinds[b], now)] else loaded
  }

  function LoadBlinds(disk: Disk, remotes: map<u32, Remote>, ids: seq<u16>, now: int): map<u32, Blind>
    requires forall b :: b in ids ==> b in disk.blinds
    decreases |ids|
  {
    if ids == [] then map[]
    else LoadBlind(disk, remotes, LoadBlinds(disk, remotes, ids[..|ids| - 1], now), ids[|ids| - 1], now)
  }

  /** Listed blinds whose remote is gone. */
  function OrphansAmong(disk: Disk, remotes: map<u32, Remote>, ids: seq<u16>): set<u16>
    requires forall b :: b in ids ==> b in disk.blinds
  {
    set b | b in ids && disk.blinds[b].remoteId !in remotes
  }

  function Orphans(disk: Disk, remotes: map<u32, Remote>): set<u16>
    requires Bootable(disk)
  {
    OrphansAmong(disk, remotes, disk.blindIds)
  }

  function WideIds(ids: seq<u16>): (wide: seq<u32>)
    ensures |wide| == |ids|
  {
    seq(|ids|, i requires 0 <= i < |ids| => ids[i] as u32)
  }

  /** `Initialize`, with the remotes reloaded and no blinds yet: a blind whose remote is gone is
      removed, and the list saved again if there was any. */
  function ReloadBlinds(h: House, now: int): House
    requires Bootable(h.disk)
  {
    var orphans := Orphans(h.disk, h.remotes);
    var t := h.(disk := h.disk.(blinds := h.disk.blinds - orphans),
                blinds := LoadBlinds(h.disk, h.remotes, h.disk.blindIds, now),
                nextBlind := NextId(1, WideIds(h.disk.blindIds)) % 0x1_0000_0000);
    if orphans == {} then t else SaveBlindList(t)
  }

  /** Start from what is on flash: the remotes of both lists, then the blinds. */
  function Reload(disk: Disk, now: int, issued: seq<Issue>): House
    requires Bootable(disk)
  {
    ReloadBlinds(House(disk, ReloadedRemotes(disk),
                       NextId(BASE_REMOTE_ID + 1, InternalIdsOf(disk.remoteIds)) % 0x1_0000_0000,
                       map[], 1, issued), now)
  }

  /** What the main loop does when it is asked to stop. */
  function Shutdown(h: House): House
    requires AllStorable(h.blinds)
  {
    var h1 := SaveRemotes(h, Ascending(h.remotes.Keys));
    SaveBlinds(h1, Ascending(h1.blinds.Keys), true)
  }

  /** A device just reset. */
  function NewHouse(): House {
    House(Disk(map[], map[], [], [], []), map[], BASE_REMOTE_ID + 1, map[], 1, [])
  }
}
