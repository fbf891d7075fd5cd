/** Write-back coherence of blinds: when a blind that is not marked for saving has its exact record on
    flash, which single request breaks that, and what comes back after a timed save and a power loss. */
module BlindRecords {
  import opened Basics
  import opened Records
  import opened House
  import opened HouseInvariant
  import opened HouseRestart
  import opened HouseRuns
  import M = Motion

  /** Unless it is marked dirty, a blind's record holds what is in memory of it. */
  ghost predicate Coherent(records: map<u16, BlindConfig>, blinds: map<u32, Blind>, b: u32) {
    && b in blinds && b < 0x1_0000 && Storable(blinds[b])
    && (!blinds[b].dirty ==> b in records && records[b] == BlindRecord(blinds[b]))
  }

  // ---------------------------------------------------------------- presses

  /** What presses make of a blind: it is marked if it changed at all, and surely if it is listed and sent up
      or down; its position stays. */
  ghost predicate PressedSo(before: Blind, after: Blind, listed: bool, moved: bool) {
    && Storable(after) && (after.dirty || after == before)
    && (!listed ==> after == before) && (listed && moved ==> after.dirty) && (before.dirty ==> after.dirty)
    && after.motion.position == before.motion.position
  }

  lemma PressedOnce(before: Blind, b: Blind, listed: bool, button: int, longPress: bool, now: int)
    requires PressedSo(before, b, listed, button == M.UP || button == M.DOWN)
    ensures PressedSo(before, PressBlind(b, button, longPress, now), true, button == M.UP || button == M.DOWN)
  {
    M.AlwaysSane(b.motion, button, longPress, 0, now);
  }

  lemma {:induction false} PressedBlinds(blinds: map<u32, Blind>, ids: seq<u16>, button: int, longPress: bool,
                                         now: int, b: u32)
    requires (forall x :: x in ids ==> x in blinds) && b in blinds && Storable(blinds[b])
    ensures PressedSo(blinds[b], PressBlinds(blinds, ids, button, longPress, now)[b], b in ids,
                      button == M.UP || button == M.DOWN)
    decreases |ids|
  {
    hide Storable, PressBlind, PressedSo;
    if ids == [] {
      NotPressed(blinds[b], button == M.UP || button == M.DOWN);
    } else {
      var n := |ids| - 1;
      PressedBlinds(blinds, ids[..n], button, longPress, now, b);
      assert ids == ids[..n] + [ids[n]];
      PressedOnce(blinds[b], PressBlinds(blinds, ids[..n], button, longPress, now)[b], b in ids[..n], button,
                  longPress, now);
    }
  }

  lemma NotPressed(b: Blind, moved: bool)
    requires Storable(b)
    ensures PressedSo(b, b, false, moved)
  {
  }

  /** A press marks what it changes, and leaves a blind that is not listed alone. */
  lemma PressedCoherent(records: map<u16, BlindConfig>, blinds: map<u32, Blind>, ids: seq<u16>,
                        button: int, longPress: bool, now: int, b: u32)
    requires (forall x :: x in ids ==> x in blinds) && Coherent(records, blinds, b)
    ensures var r := PressBlinds(blinds, ids, button, longPress, now);
            && Coherent(records, r, b)
            && (b !in ids ==> r[b] == blinds[b])
            && (b in ids && (button == M.UP || button == M.DOWN) ==> r[b].dirty)
            && (blinds[b].dirty ==> r[b].dirty)
            && r[b].motion.position == blinds[b].motion.position
  {
    hide Storable, BlindRecord, PressBlinds;
    PressedBlinds(blinds, ids, button, longPress, now, b);
  }

  lemma PressCoherent(h: House, id: u32, buttons: int, repeat: u16, now: int, accepted: bool, b: u32)
    requires BlindsExist(h, id) && Coherent(h.disk.blinds, h.blinds, b)
    ensures var t := Press(h, id, buttons, repeat, now, accepted);
            && t.disk == h.disk && t.remotes.Keys == h.remotes.Keys && t.blinds.Keys == h.blinds.Keys
            && (forall r :: r in h.remotes ==> t.remotes[r].blinds == h.remotes[r].blinds)
            && Coherent(h.disk.blinds, t.blinds, b)
            && (id !in h.remotes || b !in h.remotes[id].blinds ==> t.blinds[b] == h.blinds[b])
            && (id in h.remotes && b in h.remotes[id].blinds && (buttons == M.UP || buttons == M.DOWN) ==>
                  t.blinds[b].dirty)
            && (h.blinds[b].dirty ==> t.blinds[b].dirty)
            && t.blinds[b].motion.position == h.blinds[b].motion.position
               && t.blinds[b].remoteId == h.blinds[b].remoteId
  {
    if id in h.remotes {
      PressedCoherent(h.disk.blinds, h.blinds, h.remotes[id].blinds, buttons, repeat > M.SHORT_PRESS, now, b);
    }
    hide Coherent;
  }

  // ---------------------------------------------------------------- the request that may go unmarked

  /** What makes a new target reach the flash: the blind is to be saved anyway, or the target is not new,
      or getting there takes a press that the blind hears of, being bound to its own primary remote. */
  predicate TargetMarked(h: House, b: u32, position: int)
    requires b in h.blinds
  {
    var m, p, id := h.blinds[b].motion, M.Clamp(position), h.blinds[b].remoteId;
    || h.blinds[b].dirty
    || m.target == p
    || ((M.PressesDown(m, p) || M.PressesUp(m, p)) && id in h.remotes && b in h.remotes[id].blinds)
  }

  /** The presses of a request for a position, seen by blind c. */
  lemma GoToSteps(h: House, b: u32, position: int, now: int, accepted: bool, c: u32) returns (t: House)
    requires b in h.blinds && BlindsExist(h, h.blinds[b].remoteId) && Coherent(h.disk.blinds, h.blinds, c)
    ensures b in t.blinds && GoTo(h, b, position, now, accepted)
            == SetMotion(t, b, t.blinds[b].motion.(target := M.Clamp(position)))
    ensures t.disk == h.disk && Coherent(h.disk.blinds, t.blinds, c) && (h.blinds[c].dirty ==> t.blinds[c].dirty)
    ensures var m, p, id := h.blinds[b].motion, M.Clamp(position), h.blinds[b].remoteId;
            b == c ==>
              if (M.PressesDown(m, p) || M.PressesUp(m, p)) && id in h.remotes && b in h.remotes[id].blinds
              then t.blinds[b].dirty else t.blinds[b] == h.blinds[b]
  {
    var p, id := M.Clamp(position), h.blinds[b].remoteId;
    var h1 := h;
    if M.PressesDown(h.blinds[b].motion, p) {
      h1 := Press(h, id, M.DOWN, M.SHORT_PRESS, now, accepted);
      PressCoherent(h, id, M.DOWN, M.SHORT_PRESS, now, accepted, c);
    }
    t := h1;
    hide Press, Coherent;
    if M.PressesUp(h1.blinds[b].motion, p) {
      t := Press(h1, id, M.UP, M.SHORT_PRESS, now, accepted);
      PressCoherent(h1, id, M.UP, M.SHORT_PRESS, now, accepted, c);
    }
  }

  /** Sending a blind to a position keeps it coherent exactly if the new target is marked, and keeps every
      other blind coherent in any case. */
  lemma GoToCoherentIff(h: House, b: u32, position: int, now: int, accepted: bool, c: u32)
    requires b in h.blinds && BlindsExist(h, h.blinds[b].remoteId) && Coherent(h.disk.blinds, h.blinds, c)
    ensures var t := GoTo(h, b, position, now, accepted);
            && t.disk == h.disk
            && (Coherent(t.disk.blinds, t.blinds, c) <==> (b == c ==> TargetMarked(h, b, position)))
  {
    var t := GoToSteps(h, b, position, now, accepted, c);
    hide GoTo;
  }

  // ---------------------------------------------------------------- every other step

  /** Only the target, the favourite and the times are recorded of a motion. */
  lemma EstimateCoherent(h: House, id: u32, m: M.Motion, b: u32)
    requires id in h.blinds && Coherent(h.disk.blinds, h.blinds, b) && M.Sane(m)
    requires m == h.blinds[id].motion.(position := m.position, direction := m.direction, lastTick := m.lastTick)
    ensures Coherent(h.disk.blinds, SetMotion(h, id, m).blinds, b)
  {
  }

  lemma TickCoherent(h: House, id: u32, now: int, accepted: bool, b: u32)
    requires id in h.blinds && BlindsExist(h, h.blinds[id].remoteId) && Storable(h.blinds[id])
    requires Coherent(h.disk.blinds, h.blinds, b)
    ensures var t := TickBlind(h, id, now, accepted);
            t.disk == h.disk && Coherent(t.disk.blinds, t.blinds, b)
  {
    var m := h.blinds[id].motion;
    if m.direction == 0 || !M.Arrives(m, now) {
      M.AlwaysSane(m, M.MY, false, 0, now);
      hide Coherent, Storable;
      EstimateCoherent(h, id, M.Tick(m, now).0, b);
    } else {
      ArrivalCoherent(h, id, now, accepted, b);
      hide Coherent, Storable, Press;
    }
  }

  lemma ArrivalCoherent(h: House, id: u32, now: int, accepted: bool, b: u32)
    requires id in h.blinds && BlindsExist(h, h.blinds[id].remoteId) && Storable(h.blinds[id])
    requires Coherent(h.disk.blinds, h.blinds, b)
    ensures var m, remoteId := h.blinds[id].motion, h.blinds[id].remoteId;
            var h1 := SetMotion(h, id, m.(position := m.target as real));
            var h2 := if 0 < m.target < 100 then Press(h1, remoteId, M.MY, M.SHORT_PRESS, now, accepted) else h1;
            && h2.disk == h.disk && id in h2.blinds
            && var stopped := h2.blinds[id].motion.(direction := 0, lastTick := now);
               Coherent(h.disk.blinds, SetMotion(h2, id, stopped).blinds, b)
  {
    hide Coherent, Press, BlindsExist;
    var m, remoteId := h.blinds[id].motion, h.blinds[id].remoteId;
    var h1 := SetMotion(h, id, m.(position := m.target as real));
    EstimateCoherent(h, id, m.(position := m.target as real), b);
    var h2 := h1;
    assert BlindsExist(h1, remoteId) by { StillExist(h, h1, remoteId); }
    if 0 < m.target < 100 {
      h2 := Press(h1, remoteId, M.MY, M.SHORT_PRESS, now, accepted);
      PressCoherent(h1, remoteId, M.MY, M.SHORT_PRESS, now, accepted, b);
    }
    SaneAfterPress(h1, id, remoteId, now, accepted);
    EstimateCoherent(h2, id, h2.blinds[id].motion.(direction := 0, lastTick := now), b);
  }

  lemma StillExist(h: House, t: House, id: u32)
    requires BlindsExist(h, id) && t.remotes == h.remotes && t.blinds.Keys == h.blinds.Keys
    ensures BlindsExist(t, id)
  {
  }

  lemma SaneAfterPress(h: House, id: u32, remoteId: u32, now: int, accepted: bool)
    requires id in h.blinds && BlindsExist(h, remoteId) && Storable(h.blinds[id])
    ensures id in Press(h, remoteId, M.MY, M.SHORT_PRESS, now, accepted).blinds
    ensures M.Sane(Press(h, remoteId, M.MY, M.SHORT_PRESS, now, accepted).blinds[id].motion)
  {
    if remoteId in h.remotes {
      PressedBlinds(h.blinds, h.remotes[remoteId].blinds, M.MY, false, now, id);
    }
    hide PressBlinds;
  }

  /** What saving some blinds does to the record of b: it is written if b is among them and to be saved. */
  ghost predicate SavedSo(h: House, t: House, b: u32, saved: bool, force: bool)
    requires b in h.blinds && b < 0x1_0000 && Storable(h.blinds[b])
  {
    && b in t.blinds && t.blinds[b] == (if saved then h.blinds[b].(dirty := false) else h.blinds[b])
    && (if saved && (h.blinds[b].dirty || force) then b in t.disk.blinds && t.disk.blinds[b] == BlindRecord(h.blinds[b])
        else
          && (b in t.disk.blinds <==> b in h.disk.blinds)
          && (b in h.disk.blinds ==> t.disk.blinds[b] == h.disk.blinds[b]))
  }

  lemma SavedOneMore(h: House, before: House, b: u32, saved: bool, id: u32, force: bool)
    requires b in h.blinds && b < 0x1_0000 && Storable(h.blinds[b]) && SavedSo(h, before, b, saved, force)
    requires AllStorable(before.blinds) && id in before.blinds && id < 0x1_0000
    ensures SavedSo(h, SaveBlind(before, id, force), b, saved || id == b, force)
  {
    SaveBlindShape(before, id, force);
    StorableAt(before, id);
    if id == b {
      SameRecord(h.blinds[b], before.blinds[b]);
    }
    hide BlindRecord, Storable, AllStorable;
  }

  lemma {:induction false} SaveBlindsRecords(h: House, ids: seq<u32>, force: bool, b: u32)
    requires AllStorable(h.blinds) && (forall x :: x in ids ==> x in h.blinds && x < 0x1_0000) && b in h.blinds
             && b < 0x1_0000
    ensures SavedSo(h, SaveBlinds(h, ids, force), b, b in ids, force)
    decreases |ids|
  {
    hide BlindRecord, Storable, SavedSo, SaveBlind;
    StorableAt(h, b);
    if ids != [] {
      var n := |ids| - 1;
      assert ids[n] in ids && forall x :: x in ids[..n] ==> x in ids;
      assert ids == ids[..n] + [ids[n]];
      SaveBlindsRecords(h, ids[..n], force, b);
      SavedOneMore(h, SaveBlinds(h, ids[..n], force), b, b in ids[..n], ids[n], force);
    } else {
      NoneSavedSo(h, b, force);
    }
  }

  lemma NoneSavedSo(h: House, b: u32, force: bool)
    requires b in h.blinds && b < 0x1_0000 && Storable(h.blinds[b])
    ensures SavedSo(h, h, b, false, force)
  {
  }

  /** What a reload makes of a record, and what it makes again of that. */
  lemma LoadedCoherent(cfg: BlindConfig, now: int)
    requires RecordSane(cfg)
    ensures Storable(LoadedBlind(cfg, now)) && BlindRecord(LoadedBlind(cfg, now)) == cfg
  {
  }

  lemma ReloadCoherent(h: House, now: int, b: u32)
    requires Inv(h) && b in h.blinds
    ensures Bootable(h.disk)
    ensures var t := Reload(h.disk, now, h.issued); Coherent(t.disk.blinds, t.blinds, b)
  {
    ReloadInv(h, now);
    BlindIdsSmall(h.disk.blinds, h.remotes, h.blinds, h.nextBlind);
    assert BlindOk(h.disk.blinds, h.remotes, h.nextBlind, b, h.blinds[b]);
    hide Inv, Reload, AllStorable;
    LoadedCoherent(h.disk.blinds[b], now);
    hide LoadedBlind, BlindRecord;
  }

  lemma CoherentAt(records: map<u16, BlindConfig>, blinds: map<u32, Blind>, others: map<u16, BlindConfig>,
                   after: map<u32, Blind>, b: u32)
    requires Coherent(records, blinds, b) && b in after && after[b] == blinds[b]
    requires b in records ==> b in others && others[b] == records[b]
    ensures Coherent(others, after, b)
  {
  }

  lemma TableCoherent(h: House, op: Op, b: u32)
    requires Inv(h) && Enabled(h, op) && Coherent(h.disk.blinds, h.blinds, b) && b in Step(h, op).blinds
    requires op.Add? || op.Import? || op.Delete? || op.NewBlindOp? || op.RemoveBlind?
    ensures Coherent(Step(h, op).disk.blinds, Step(h, op).blinds, b)
  {
    hide Inv, CreateRemote, ImportRemote, AddBlind, DeleteRemote, DeleteBlind, CanCreate, LowFree,
      IsAPrimaryRemote, Coherent;
    match op
    case Add(name) => if NameAllowed(name) { CreateKeepsBlinds(h, name); }
    case Import(id, name) => if NameAllowed(name) { ImportKeepsBlinds(h, id, name); }
    case Delete(id) => DeleteKeepsBlinds(h, id);
    case NewBlindOp(name, openTime, closeTime, now) => AddBlindCoherent(h, name, openTime, closeTime, now, b);
    case RemoveBlind(c) => DeleteBlindCoherent(h, c, b);
  }

  lemma CreateKeepsBlinds(h: House, name: Name)
    requires Inv(h) && CanCreate(h)
    ensures CreateRemote(h, name).blinds == h.blinds && CreateRemote(h, name).disk.blinds == h.disk.blinds
  {
    hide Inv, CreateRemote, CanCreate;
    NextIsValid(h);
    IdsLeft(h);
    CreateRemoteEffect(h, name);
  }

  lemma ImportKeepsBlinds(h: House, id: u32, name: Name)
    ensures ImportRemote(h, id, name).blinds == h.blinds && ImportRemote(h, id, name).disk.blinds == h.disk.blinds
  {
    hide AddRemote;
    if id !in h.remotes {
      AddRemoteEffect(h, id, name, true);
    }
  }

  lemma DeleteKeepsBlinds(h: House, id: u32)
    ensures DeleteRemote(h, id).blinds == h.blinds && DeleteRemote(h, id).disk.blinds == h.disk.blinds
  {
    hide DeleteRemote;
    DeleteRemoteEffect(h, id);
  }

  lemma AddBlindCoherent(h: House, name: Name, openTime: int, closeTime: int, now: int, b: u32)
    requires Inv(h) && CanCreate(h) && Coherent(h.disk.blinds, h.blinds, b)
    requires h.nextBlind < 0x1_0000 && 0 < openTime < 0x8000_0000 && 0 < closeTime < 0x8000_0000
    ensures var t := AddBlind(h, name, openTime, closeTime, now); Coherent(t.disk.blinds, t.blinds, b)
  {
    NextIsValid(h);
    assert b != h.nextBlind;
    hide Inv, CreateRemote, AttachBlind, BlindRecord, Coherent;
    CreateRemoteEffect(h, name);
    AttachEffect(CreateRemote(h, name), NewBlind(name, h.nextRemote, openTime, closeTime, now));
    var t := AddBlind(h, name, openTime, closeTime, now);
    CoherentAlive(h.disk.blinds, h.blinds, b);
    CoherentAt(h.disk.blinds, h.blinds, t.disk.blinds, t.blinds, b);
  }

  lemma CoherentAlive(records: map<u16, BlindConfig>, blinds: map<u32, Blind>, b: u32)
    requires Coherent(records, blinds, b)
    ensures b in blinds
  {
  }

  lemma DeleteBlindCoherent(h: House, c: u32, b: u32)
    requires Inv(h) && Coherent(h.disk.blinds, h.blinds, b) && b in DeleteBlind(h, c).blinds
    ensures var t := DeleteBlind(h, c); Coherent(t.disk.blinds, t.blinds, b)
  {
    hide Inv, Coherent, DeleteBlind;
    if c in h.blinds {
      SmallBlind(h, c);
      DeletedBlindTables(h, c);
      RemovedCoherent(h.disk.blinds, h.blinds, c, b);
    } else {
      NoSuchBlind(h, c);
    }
  }

  lemma SmallBlind(h: House, c: u32)
    requires Inv(h) && c in h.blinds
    ensures c < 0x1_0000
  {
    hide RemotesOk, ListsOk, BlindListOk, BlindsOk;
    BlindIdsSmall(h.disk.blinds, h.remotes, h.blinds, h.nextBlind);
  }

  lemma RemovedCoherent(records: map<u16, BlindConfig>, blinds: map<u32, Blind>, c: u32, b: u32)
    requires Coherent(records, blinds, b) && c < 0x1_0000 && b != c
    ensures Coherent(records - {Low(c)}, blinds - {c}, b)
  {
    hide BlindRecord, Storable;
  }

  lemma DeletedBlindTables(h: House, c: u32)
    requires c in h.blinds
    ensures var t := DeleteBlind(h, c);
            t.blinds == h.blinds - {c} && t.disk.blinds == h.disk.blinds - {Low(c)}
  {
    hide DeleteBlind;
    DeleteBlindEffect(h, c);
  }

  lemma SaveCoherent(h: House, op: Op, b: u32)
    requires Inv(h) && Enabled(h, op) && Coherent(h.disk.blinds, h.blinds, b) && (op.SaveRemotesOp? || op.SaveBlindsOp?)
    ensures Coherent(Step(h, op).disk.blinds, Step(h, op).blinds, b)
  {
    hide Inv, SaveRemotes, SaveBlinds, Coherent, Ascending, AllStorable;
    if op.SaveRemotesOp? {
      SaveRemotesKeeps(h, Ascending(h.remotes.Keys));
    } else {
      SaveBlindsCoherent(h, b);
    }
  }

  lemma SaveBlindsCoherent(h: House, b: u32)
    requires Inv(h) && Coherent(h.disk.blinds, h.blinds, b)
    ensures AllStorable(h.blinds)
    ensures var t := SaveBlinds(h, Ascending(h.blinds.Keys), false); Coherent(t.disk.blinds, t.blinds, b)
  {
    BlindIdsSmall(h.disk.blinds, h.remotes, h.blinds, h.nextBlind);
    hide Inv, SaveBlinds, BlindRecord, AllStorable, Storable;
    SaveBlindsRecords(h, Ascending(h.blinds.Keys), false, b);
    SameRecord(h.blinds[b], SaveBlinds(h, Ascending(h.blinds.Keys), false).blinds[b]);
  }

  lemma MemoryCoherent(h: House, op: Op, b: u32)
    requires AllStorable(h.blinds) && Enabled(h, op) && Coherent(h.disk.blinds, h.blinds, b) && MemoryOnly(op)
             && !op.SetPosition?
    ensures Coherent(Step(h, op).disk.blinds, Step(h, op).blinds, b)
  {
    hide Press, TickBlind, AllStorable, BlindsExist, NameAllowed, Without;
    match op
    case PressRemote(id, buttons, repeat, now, accepted) => PressCoherent(h, id, buttons, repeat, now, accepted, b);
    case Hear(id, code, button, repeat, now) => HearCoherent(h, id, code, button, repeat, now, b);
    case ChangeBlind(c, name, openTime, closeTime) => ChangeCoherent(h, c, name, openTime, closeTime, b);
    case Command(c, command, now, accepted) =>
      var press := CommandPress(h.blinds[c].motion, command);
      if press.Some? {
        PressCoherent(h, h.blinds[c].remoteId, press.value.0, press.value.1, now, accepted, b);
      }
    case TickOp(c, now, accepted) => StorableAt(h, c); TickCoherent(h, c, now, accepted, b);
    case _ =>
  }

  lemma HearCoherent(h: House, id: u32, rollingCode: u16, button: int, repeat: u16, now: int, b: u32)
    requires BlindsExist(h, id) && Coherent(h.disk.blinds, h.blinds, b)
    ensures var t := HearRemote(h, id, rollingCode, button, repeat, now);
            t.disk == h.disk && Coherent(h.disk.blinds, t.blinds, b)
  {
    if id in h.remotes {
      PressedCoherent(h.disk.blinds, h.blinds, h.remotes[id].blinds, button, repeat > 7, now, b);
    }
    hide Coherent;
  }

  lemma ChangeCoherent(h: House, c: u32, name: Name, openTime: int, closeTime: int, b: u32)
    requires Coherent(h.disk.blinds, h.blinds, b) && 0 < openTime < 0x8000_0000 && 0 < closeTime < 0x8000_0000
    ensures var t := UpdateBlind(h, c, name, openTime, closeTime);
            t.disk == h.disk && Coherent(h.disk.blinds, t.blinds, b)
  {
    hide BlindRecord;
  }

  lemma RestartCoherent(h: House, op: Op, b: u32)
    requires Inv(h) && op.Restart? && Enabled(h, op) && b in Step(h, op).blinds
    ensures Coherent(Step(h, op).disk.blinds, Step(h, op).blinds, b)
  {
    hide Inv, Coherent, Bootable, Reload, Shutdown, AllStorable;
    if op.clean {
      ShutdownEffect(h);
      ReloadInv(Shutdown(h), op.now);
      ReloadCoherent(Shutdown(h), op.now, b);
    } else {
      ReloadInv(h, op.now);
      ReloadCoherent(h, op.now, b);
    }
  }

  lemma SetPositionStep(h: House, op: Op)
    requires op.SetPosition? && Enabled(h, op)
    ensures op.blind in h.blinds && BlindsExist(h, h.blinds[op.blind].remoteId)
    ensures Step(h, op) == GoTo(h, op.blind, op.position, op.now, op.accepted)
  {
  }

  /** Write-back coherence of blinds: every step keeps it, except that a new target may go unmarked. */
  lemma StepCoherent(h: House, op: Op, b: u32)
    requires Inv(h) && Enabled(h, op) && Coherent(h.disk.blinds, h.blinds, b) && b in Step(h, op).blinds
    ensures Coherent(Step(h, op).disk.blinds, Step(h, op).blinds, b)
            <==> (op.SetPosition? && op.blind == b ==> TargetMarked(h, b, op.position))
  {
    StorableBlinds(h);
    hide Inv, AllStorable, Coherent, Step, TargetMarked, Bootable;
    if op.SetPosition? {
      SetPositionStep(h, op);
      GoToCoherentIff(h, op.blind, op.position, op.now, op.accepted, b);
    } else if op.Restart? {
      RestartCoherent(h, op, b);
    } else if MemoryOnly(op) {
      MemoryCoherent(h, op, b);
    } else if op.SaveRemotesOp? || op.SaveBlindsOp? {
      SaveCoherent(h, op, b);
    } else {
      TableCoherent(h, op, b);
    }
  }

  // ---------------------------------------------------------------- runs, and what comes back

  /** No request of a run sets a target of b that goes unmarked. */
  ghost predicate AllMarked(h: House, ops: seq<Op>, b: u32)
    requires CanRun(h, ops)
    decreases ops
  {
    ops != [] ==>
      && (ops[0].SetPosition? && ops[0].blind == b ==> TargetMarked(h, b, ops[0].position))
      && b in Step(h, ops[0]).blinds
      && AllMarked(Step(h, ops[0]), ops[1..], b)
  }

  lemma {:induction false} RunCoherent(h: House, ops: seq<Op>, b: u32)
    requires Inv(h) && CanRun(h, ops) && AllMarked(h, ops, b) && Coherent(h.disk.blinds, h.blinds, b)
    ensures Coherent(Run(h, ops).disk.blinds, Run(h, ops).blinds, b)
    decreases ops
  {
    hide Inv, Enabled, Step, Coherent, TargetMarked;
    if ops != [] {
      StepInv(h, ops[0]);
      StepCoherent(h, ops[0], b);
      RunCoherent(Step(h, ops[0]), ops[1..], b);
    }
  }

  lemma LoadedSame(cfg: BlindConfig, b: Blind, now: int)
    requires RecordSane(cfg) && Storable(b)
    ensures LoadedBlind(cfg, now) == RestartedBlind(b, now) <==> cfg == BlindRecord(b)
  {
  }

  /** The timer saves the blinds, then the power is lost. A blind comes back as a clean restart would bring
      it exactly if it was coherent. */
  lemma SavedThenLostIff(h: House, b: u32, now: int)
    requires Inv(h) && b in h.blinds
    ensures AllStorable(h.blinds)
    ensures var s := SaveBlinds(h, Ascending(h.blinds.Keys), false);
            && Bootable(s.disk)
            && var t := Reload(s.disk, now, s.issued);
               && b in t.blinds
               && (t.blinds[b] == RestartedBlind(h.blinds[b], now) <==> Coherent(h.disk.blinds, h.blinds, b))
  {
    BlindIdsSmall(h.disk.blinds, h.remotes, h.blinds, h.nextBlind);
    var ids := Ascending(h.blinds.Keys);
    var s := SaveBlinds(h, ids, false);
    SaveBlindsInv(h, ids, false);
    SaveBlindsRecords(h, ids, false, b);
    assert BlindOk(s.disk.blinds, s.remotes, s.nextBlind, b, s.blinds[b]);
    assert BlindOk(h.disk.blinds, h.remotes, h.nextBlind, b, h.blinds[b]);
    ReloadInv(s, now);
    hide Inv, SaveBlinds, Reload, Bootable;
    LoadedSame(s.disk.blinds[b], h.blinds[b], now);
    hide LoadedBlind, RestartedBlind, BlindRecord, AllStorable, RecordSane;
  }

  /** The timer leaves a blind that is not marked as it is, and so it comes back from its record. */
  lemma UnmarkedComesBack(h: House, b: u32, now: int)
    requires Inv(h) && b in h.blinds && !h.blinds[b].dirty
    ensures AllStorable(h.blinds)
    ensures var s := SaveBlinds(h, Ascending(h.blinds.Keys), false);
            && Bootable(s.disk) && b in h.disk.blinds
            && var t := Reload(s.disk, now, s.issued);
               t.blinds.Keys == h.blinds.Keys && t.blinds[b] == LoadedBlind(h.disk.blinds[b], now)
  {
    BlindIdsSmall(h.disk.blinds, h.remotes, h.blinds, h.nextBlind);
    var ids := Ascending(h.blinds.Keys);
    var s := SaveBlinds(h, ids, false);
    SaveBlindsInv(h, ids, false);
    SaveBlindsRecords(h, ids, false, b);
    ReloadInv(s, now);
    assert BlindOk(h.disk.blinds, h.remotes, h.nextBlind, b, h.blinds[b]);
    hide Inv, SaveBlinds, Reload, Bootable, LoadedBlind, BlindRecord, AllStorable;
  }

  /** What an unmarked target changes: the target in memory, and nothing else of the blind. */
  lemma UnmarkedTarget(h: House, b: u32, position: int, now: int, accepted: bool)
    requires Coherent(h.disk.blinds, h.blinds, b) && BlindsExist(h, h.blinds[b].remoteId)
    requires !TargetMarked(h, b, position)
    ensures var t := GoTo(h, b, position, now, accepted);
            && t.disk == h.disk && b in t.blinds && !t.blinds[b].dirty
            && t.blinds[b].motion.target == M.Clamp(position) != h.blinds[b].motion.target
  {
    var before := GoToSteps(h, b, position, now, accepted, b);
    hide GoTo, BlindRecord, Storable;
  }

  lemma GoToKeeps(h: House, b: u32, position: int, now: int, accepted: bool)
    requires Inv(h) && b in h.blinds && BlindsExist(h, h.blinds[b].remoteId)
    ensures var t := GoTo(h, b, position, now, accepted);
            Inv(t) && t.blinds.Keys == h.blinds.Keys
  {
    StorableBlinds(h);
    GoToInMemory(h, b, position, now, accepted);
    hide Inv, GoTo, AllStorable;
    InMemoryInv(h, GoTo(h, b, position, now, accepted));
    hide InMemory;
    AfterInMemory(h, GoTo(h, b, position, now, accepted));
  }

  lemma RecordIsSane(h: House, b: u32)
    requires Inv(h) && b in h.blinds
    ensures b in h.disk.blinds && RecordSane(h.disk.blinds[b])
  {
    assert BlindOk(h.disk.blinds, h.remotes, h.nextBlind, b, h.blinds[b]);
  }

  /** So an unmarked target does not survive that: the blind comes back with the target it had before. */
  lemma UnmarkedTargetIsLost(h: House, b: u32, position: int, now: int, accepted: bool)
    requires Inv(h) && Coherent(h.disk.blinds, h.blinds, b) && BlindsExist(h, h.blinds[b].remoteId)
    requires !TargetMarked(h, b, position)
    ensures var t := GoTo(h, b, position, now, accepted);
            && Inv(t) && AllStorable(t.blinds)
            && t.blinds[b].motion.target == M.Clamp(position) != h.blinds[b].motion.target
            && var s := SaveBlinds(t, Ascending(t.blinds.Keys), false);
               && Bootable(s.disk)
               && Reload(s.disk, now, s.issued).blinds.Keys == h.blinds.Keys
               && Reload(s.disk, now, s.issued).blinds[b] == RestartedBlind(h.blinds[b], now)
  {
    UnmarkedTarget(h, b, position, now, accepted);
    GoToKeeps(h, b, position, now, accepted);
    RecordIsSane(h, b);
    UnmarkedComesBack(GoTo(h, b, position, now, accepted), b, now);
    LoadedSame(h.disk.blinds[b], h.blinds[b], now);
    hide Inv, GoTo, Reload, SaveBlinds, LoadedBlind, RestartedBlind, BlindRecord, Storable, AllStorable, Bootable,
      BlindsExist;
  }
}
