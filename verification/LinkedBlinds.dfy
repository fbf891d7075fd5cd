/** Blinds bound to their own remotes: when they are, what keeps them so, and that a blind among others then
    moves in every run as the estimate of `Motion` says. */
module LinkedBlinds {
  import opened Basics
  import opened Records
  import opened House
  import opened HouseInvariant
  import opened HouseRestart
  import opened HouseRuns
  import M = Motion

  // ---------------------------------------------------------------- one move, one tick

  /** A list without duplicates tells each blind on it once, and no other. */
  lemma {:induction false} PressBlindsOnce(blinds: map<u32, Blind>, ids: seq<u16>, button: int, longPress: bool,
                                           now: int, b: u32)
    requires (forall x :: x in ids ==> x in blinds) && b in blinds && NoDuplicates(ids)
    ensures PressBlinds(blinds, ids, button, longPress, now)[b] ==
            if b in ids then PressBlind(blinds[b], button, longPress, now) else blinds[b]
    decreases |ids|
  {
    hide PressBlind;
    if ids != [] {
      var n := |ids| - 1;
      PressBlindsOnce(blinds, ids[..n], button, longPress, now, b);
      assert ids == ids[..n] + [ids[n]];
      assert ids[n] !in ids[..n];
    }
  }

  /** A blind bound to its own primary remote. */
  predicate Linked(h: House, b: u32) {
    && b in h.blinds && h.blinds[b].remoteId in h.remotes
    && BlindsExist(h, h.blinds[b].remoteId)
    && NoDuplicates(h.remotes[h.blinds[b].remoteId].blinds)
    && b in h.remotes[h.blinds[b].remoteId].blinds
  }

  lemma PressLinked(h: House, b: u32, button: int, repeat: u16, now: int, accepted: bool)
    requires Linked(h, b) && repeat <= M.SHORT_PRESS
    ensures var t := Press(h, h.blinds[b].remoteId, button, repeat, now, accepted);
            && Linked(t, b) && t.blinds[b].remoteId == h.blinds[b].remoteId
            && t.blinds[b].motion == M.ButtonsPressed(h.blinds[b].motion, button, false, now).0
  {
    var r := h.remotes[h.blinds[b].remoteId];
    PressBlindsOnce(h.blinds, r.blinds, button, false, now, b);
    hide NoDuplicates;
  }

  /** For a linked blind, whatever other blinds its remote drives, moving to a position and ticking
      are exactly the `GoTo` and `Tick` that `Motion` analyses; a tick issues a press just when that
      says so. */
  lemma LinkedBlindFollowsEstimate(h: House, b: u32, position: int, now: int, accepted: bool)
    requires Linked(h, b) && M.Sane(h.blinds[b].motion)
    ensures Linked(GoTo(h, b, position, now, accepted), b)
    ensures GoTo(h, b, position, now, accepted).blinds[b].motion == M.GoTo(h.blinds[b].motion, position, now)
    ensures var t, tick := TickBlind(h, b, now, accepted), M.Tick(h.blinds[b].motion, now);
            && Linked(t, b) && t.blinds[b].motion == tick.0
            && |t.issued| == |h.issued| + (if tick.1 then 1 else 0)
            && (tick.1 ==>
                  t.issued[|h.issued|].buttons == M.MY && t.issued[|h.issued|].remoteId == h.blinds[b].remoteId)
  {
    GoToLinked(h, b, position, now, accepted);
    TickLinked(h, b, now, accepted);
    hide GoTo, TickBlind;
  }

  lemma GoToLinked(h: House, b: u32, position: int, now: int, accepted: bool)
    requires Linked(h, b)
    ensures Linked(GoTo(h, b, position, now, accepted), b)
    ensures GoTo(h, b, position, now, accepted).blinds[b].motion == M.GoTo(h.blinds[b].motion, position, now)
  {
    var p, remoteId := M.Clamp(position), h.blinds[b].remoteId;
    PressLinked(h, b, M.DOWN, M.SHORT_PRESS, now, accepted);
    var h1 := if M.PressesDown(h.blinds[b].motion, p) then Press(h, remoteId, M.DOWN, M.SHORT_PRESS, now, accepted)
      else h;
    PressLinked(h1, b, M.UP, M.SHORT_PRESS, now, accepted);
    hide Press, M.ButtonsPressed, NoDuplicates;
  }

  lemma TickLinked(h: House, b: u32, now: int, accepted: bool)
    requires Linked(h, b) && M.Sane(h.blinds[b].motion)
    ensures var t, tick := TickBlind(h, b, now, accepted), M.Tick(h.blinds[b].motion, now);
            && Linked(t, b) && t.blinds[b].motion == tick.0
            && |t.issued| == |h.issued| + (if tick.1 then 1 else 0)
            && (tick.1 ==>
                  t.issued[|h.issued|].buttons == M.MY && t.issued[|h.issued|].remoteId == h.blinds[b].remoteId)
  {
    var m := h.blinds[b].motion;
    if m.direction != 0 && M.Arrives(m, now) && 0 < m.target < 100 {
      var h1 := SetMotion(h, b, m.(position := m.target as real));
      assert Linked(h1, b);
      PressLinked(h1, b, M.MY, M.SHORT_PRESS, now, accepted);
      M.StopIsQuiet(m, now);
      PressIssues(h1, h1.blinds[b].remoteId, M.MY, M.SHORT_PRESS, now, accepted);
      hide Press, NoDuplicates;
    }
  }

  lemma PressIssues(h: House, id: u32, buttons: int, repeat: u16, now: int, accepted: bool)
    requires id in h.remotes && BlindsExist(h, id)
    ensures Press(h, id, buttons, repeat, now, accepted).issued
         == h.issued + [Issue(id, h.remotes[id].rollingCode, buttons, repeat, accepted)]
  {
  }

  // ---------------------------------------------------------------- what keeps the link

  /** The same blinds with the same remotes, and the same lists of blinds. */
  ghost predicate SameLinks(h: House, t: House) {
    && t.blinds.Keys == h.blinds.Keys && t.remotes.Keys == h.remotes.Keys
    && (forall b :: b in h.blinds ==> t.blinds[b].remoteId == h.blinds[b].remoteId)
    && (forall id :: id in h.remotes ==> t.remotes[id].blinds == h.remotes[id].blinds)
  }

  lemma SameLinksTrans(h: House, t: House, u: House)
    requires SameLinks(h, t) && SameLinks(t, u)
    ensures SameLinks(h, u)
  {
  }

  lemma SameLinked(h: House, t: House, b: u32)
    requires SameLinks(h, t)
    ensures Linked(t, b) == Linked(h, b)
    ensures forall id :: BlindsExist(t, id) == BlindsExist(h, id)
  {
    hide NoDuplicates;
  }

  lemma PressSameLinks(h: House, id: u32, buttons: int, repeat: u16, now: int, accepted: bool)
    requires BlindsExist(h, id)
    ensures SameLinks(h, Press(h, id, buttons, repeat, now, accepted))
  {
  }

  lemma MotionSameLinks(h: House, b: u32, m: M.Motion)
    requires b in h.blinds
    ensures SameLinks(h, SetMotion(h, b, m))
  {
  }

  lemma PressIfSameLinks(h: House, pressed: bool, id: u32, buttons: int, now: int, accepted: bool)
    requires BlindsExist(h, id)
    ensures var t := if pressed then Press(h, id, buttons, M.SHORT_PRESS, now, accepted) else h;
            SameLinks(h, t) && t.blinds.Keys == h.blinds.Keys && BlindsExist(t, id)
  {
    hide Press, BlindsExist;
    if pressed {
      PressSameLinks(h, id, buttons, M.SHORT_PRESS, now, accepted);
      SameLinked(h, Press(h, id, buttons, M.SHORT_PRESS, now, accepted), 0);
    }
  }

  lemma GoToSameLinks(h: House, b: u32, position: int, now: int, accepted: bool)
    requires b in h.blinds && BlindsExist(h, h.blinds[b].remoteId)
    ensures SameLinks(h, GoTo(h, b, position, now, accepted))
  {
    hide Press, M.PressesDown, M.PressesUp, BlindsExist, SameLinks;
    var p, r := M.Clamp(position), h.blinds[b].remoteId;
    var down := M.PressesDown(h.blinds[b].motion, p);
    var h1 := if down then Press(h, r, M.DOWN, M.SHORT_PRESS, now, accepted) else h;
    PressIfSameLinks(h, down, r, M.DOWN, now, accepted);
    var up := M.PressesUp(h1.blinds[b].motion, p);
    var h2 := if up then Press(h1, r, M.UP, M.SHORT_PRESS, now, accepted) else h1;
    PressIfSameLinks(h1, up, r, M.UP, now, accepted);
    SameLinksTrans(h, h1, h2);
    MotionSameLinks(h2, b, h2.blinds[b].motion.(target := p));
    SameLinksTrans(h, h2, GoTo(h, b, position, now, accepted));
  }

  lemma TickSameLinks(h: House, b: u32, now: int, accepted: bool)
    requires b in h.blinds && BlindsExist(h, h.blinds[b].remoteId) && M.Sane(h.blinds[b].motion)
    ensures SameLinks(h, TickBlind(h, b, now, accepted))
  {
    hide Press, M.Arrives, M.Tick, BlindsExist, SameLinks;
    var m, r := h.blinds[b].motion, h.blinds[b].remoteId;
    if m.direction == 0 || !M.Arrives(m, now) {
      MotionSameLinks(h, b, M.Tick(m, now).0);
    } else {
      var h1 := SetMotion(h, b, m.(position := m.target as real));
      MotionSameLinks(h, b, m.(position := m.target as real));
      SameLinked(h, h1, b);
      var stops := 0 < m.target < 100;
      var h2 := if stops then Press(h1, r, M.MY, M.SHORT_PRESS, now, accepted) else h1;
      PressIfSameLinks(h1, stops, r, M.MY, now, accepted);
      SameLinksTrans(h, h1, h2);
      MotionSameLinks(h2, b, h2.blinds[b].motion.(direction := 0, lastTick := now));
      SameLinksTrans(h, h2, TickBlind(h, b, now, accepted));
    }
  }

  /** What a press, a frame heard, a new name or new times, and a save leave alone. */
  lemma StepSameLinks(h: House, op: Op)
    requires AllStorable(h.blinds) && Enabled(h, op)
    requires (MemoryOnly(op) && !op.Bind? && !op.Unbind?) || op.SaveRemotesOp? || op.SaveBlindsOp?
    ensures SameLinks(h, Step(h, op))
  {
    hide Press, GoTo, TickBlind, BlindsExist, AllStorable, SaveRemotes, SaveBlinds, Ascending, PressBlinds,
      SetName, UpdateBlind, HearRemote, SameLinks;
    SameLinksSelf(h);
    match op
    case PressRemote(id, buttons, repeat, now, accepted) => PressSameLinks(h, id, buttons, repeat, now, accepted);
    case Command(b, c, now, accepted) =>
      var press := CommandPress(h.blinds[b].motion, c);
      if press.Some? {
        PressSameLinks(h, h.blinds[b].remoteId, press.value.0, press.value.1, now, accepted);
      }
    case SetPosition(b, position, now, accepted) => GoToSameLinks(h, b, position, now, accepted);
    case TickOp(b, now, accepted) => StorableAt(h, b); TickSameLinks(h, b, now, accepted);
    case Hear(id, code, button, repeat, now) => HearSameLinks(h, id, code, button, repeat, now);
    case Rename(id, name) => if NameAllowed(name) { RenameSameLinks(h, id, name); }
    case ChangeBlind(b, name, openTime, closeTime) => ChangeSameLinks(h, b, name, openTime, closeTime);
    case SaveRemotesOp => SaveSameLinks(h);
    case SaveBlindsOp => SaveBlindsSameLinks(h, Ascending(h.blinds.Keys));
    case _ =>
  }

  lemma SameLinksSelf(h: House)
    ensures SameLinks(h, h)
  {
  }

  lemma HearSameLinks(h: House, id: u32, code: u16, button: int, repeat: u16, now: int)
    requires BlindsExist(h, id)
    ensures SameLinks(h, HearRemote(h, id, code, button, repeat, now))
  {
  }

  lemma RenameSameLinks(h: House, id: u32, name: Name)
    ensures SameLinks(h, SetName(h, id, name))
  {
  }

  lemma ChangeSameLinks(h: House, b: u32, name: Name, openTime: int, closeTime: int)
    ensures SameLinks(h, UpdateBlind(h, b, name, openTime, closeTime))
  {
  }

  lemma SaveSameLinks(h: House)
    ensures SameLinks(h, SaveRemotes(h, Ascending(h.remotes.Keys)))
  {
    hide SaveRemotes, Ascending;
    SaveRemotesEffect(h, Ascending(h.remotes.Keys));
  }

  lemma {:induction false} SaveBlindsSameLinks(h: House, ids: seq<u32>)
    requires AllStorable(h.blinds) && forall b :: b in ids ==> b in h.blinds
    ensures SameLinks(h, SaveBlinds(h, ids, false))
    decreases |ids|
  {
    hide AllStorable, BlindRecord;
    if ids == [] {
      SameLinksSelf(h);
    } else {
      SaveBlindsSameLinks(h, ids[..|ids| - 1]);
    }
  }

  // ---------------------------------------------------------------- binding, adding, removing, restarting

  /** What a start makes of the list of blinds of a remote. */
  function ListAfter(h: House, id: u32, clean: bool): seq<u16>
    requires id in h.remotes && Low(id) in h.disk.remotes
  {
    if clean then Clip(h.remotes[id].blinds) else h.disk.remotes[Low(id)].blinds
  }

  /** What keeps a blind bound to its own remote: not being unbound from it, no other blind of that remote
      being deleted, and no start from a record without it or with blinds that are gone. */
  ghost predicate KeepsLink(h: House, op: Op, b: u32)
    requires Linked(h, b) && Low(h.blinds[b].remoteId) in h.disk.remotes
  {
    var r := h.blinds[b].remoteId;
    && (op.Unbind? ==> !(op.id == r && op.blindId == b))
    && (op.RemoveBlind? ==> op.blind !in h.remotes[r].blinds)
    && (op.Restart? ==>
          b in ListAfter(h, r, op.clean) && forall x :: x in ListAfter(h, r, op.clean) ==> x in h.blinds)
  }

  lemma BindLinked(h: House, op: Op, b: u32)
    requires Linked(h, b) && Enabled(h, op) && (op.Bind? || op.Unbind?)
    ensures Linked(Step(h, op), b) <==> !(op.Unbind? && op.id == h.blinds[b].remoteId && op.blindId == b)
  {
    hide Without;
    if op.Unbind? && op.id in h.remotes {
      WithoutKeeps(h.remotes[op.id].blinds, op.blindId);
      if b in h.remotes[op.id].blinds && b != op.blindId {
        WithoutOthers(h.remotes[op.id].blinds, op.blindId, b);
      }
    }
  }

  lemma {:induction false} WithoutOthers(s: seq<u16>, x: u16, y: u32)
    requires y in s && y != x
    ensures y in Without(s, x)
  {
    if s[0] != x && s[0] != y {
      WithoutOthers(s[1..], x, y);
    }
  }

  lemma TableLinked(h: House, op: Op, b: u32)
    requires Inv(h) && Enabled(h, op) && Linked(h, b) && b in Step(h, op).blinds
    requires op.Add? || op.Import? || op.Delete? || op.NewBlindOp? || op.RemoveBlind?
    ensures Linked(Step(h, op), b) <==> (op.RemoveBlind? ==> op.blind !in h.remotes[h.blinds[b].remoteId].blinds)
  {
    hide Inv, CreateRemote, ImportRemote, AddBlind, DeleteRemote, DeleteBlind, CanCreate, LowFree, Linked;
    match op
    case Add(name) => if NameAllowed(name) { CreateLinked(h, name, b); }
    case Import(id, name) => if NameAllowed(name) { ImportLinked(h, id, name, b); }
    case Delete(id) => if !IsAPrimaryRemote(h, id) { DeleteLinked(h, id, b); }
    case NewBlindOp(name, openTime, closeTime, now) => AddBlindLinked(h, name, openTime, closeTime, now, b);
    case RemoveBlind(c) => if c in h.blinds { RemoveLinked(h, c, b); } else { NoSuchBlind(h, c); NotListed(h, c, b); }
  }

  lemma NotListed(h: House, c: u32, b: u32)
    requires Linked(h, b) && c !in h.blinds
    ensures c !in h.remotes[h.blinds[b].remoteId].blinds
  {
  }

  /** More remotes and blinds, those there as they were. */
  lemma GrownLinked(h: House, t: House, b: u32)
    requires Linked(h, b) && b in t.blinds && t.blinds[b] == h.blinds[b] && h.blinds.Keys <= t.blinds.Keys
    requires var r := h.blinds[b].remoteId; r in t.remotes && t.remotes[r] == h.remotes[r]
    ensures Linked(t, b)
  {
    hide NoDuplicates;
  }

  lemma LinkedSays(h: House, b: u32)
    requires Linked(h, b)
    ensures b in h.blinds && h.blinds[b].remoteId in h.remotes
  {
  }

  lemma CreateLinked(h: House, name: Name, b: u32)
    requires Inv(h) && CanCreate(h) && Linked(h, b)
    ensures Linked(CreateRemote(h, name), b)
  {
    hide Inv, CreateRemote, CanCreate, Linked;
    NextIsValid(h);
    IdsLeft(h);
    LinkedSays(h, b);
    CreateRemoteEffect(h, name);
    GrownLinked(h, CreateRemote(h, name), b);
  }

  lemma ImportLinked(h: House, id: u32, name: Name, b: u32)
    requires Linked(h, b)
    ensures Linked(ImportRemote(h, id, name), b)
  {
    hide AddRemote, Linked;
    LinkedSays(h, b);
    if id !in h.remotes {
      AddRemoteEffect(h, id, name, true);
      GrownLinked(h, AddRemote(h, id, name, true), b);
    }
  }

  lemma DeleteLinked(h: House, id: u32, b: u32)
    requires Linked(h, b) && !IsAPrimaryRemote(h, id)
    ensures Linked(DeleteRemote(h, id), b)
  {
    hide DeleteRemote, Linked;
    LinkedSays(h, b);
    DeleteRemoteEffect(h, id);
    GrownLinked(h, DeleteRemote(h, id), b);
  }

  lemma AddBlindLinked(h: House, name: Name, openTime: int, closeTime: int, now: int, b: u32)
    requires Inv(h) && CanCreate(h) && Linked(h, b)
    requires h.nextBlind < 0x1_0000 && 0 < openTime < 0x8000_0000 && 0 < closeTime < 0x8000_0000
    ensures Linked(AddBlind(h, name, openTime, closeTime, now), b)
  {
    hide Inv, CreateRemote, AttachBlind, CanCreate, Linked;
    NextIsValid(h);
    IdsLeft(h);
    LinkedSays(h, b);
    CreateRemoteEffect(h, name);
    AttachEffect(CreateRemote(h, name), NewBlind(name, h.nextRemote, openTime, closeTime, now));
    GrownLinked(h, AddBlind(h, name, openTime, closeTime, now), b);
  }

  lemma RemoveLinked(h: House, c: u32, b: u32)
    requires Inv(h) && Linked(h, b) && c in h.blinds && b in DeleteBlind(h, c).blinds
    ensures Linked(DeleteBlind(h, c), b) <==> c !in h.remotes[h.blinds[b].remoteId].blinds
  {
    DeleteBlindEffect(h, c);
    assert h.blinds[c].remoteId != h.blinds[b].remoteId by { DifferentPrimaries(h, c, b); }
    hide Inv, DeleteBlind, NoDuplicates;
  }

  lemma DifferentPrimaries(h: House, c: u32, b: u32)
    requires Inv(h) && c in h.blinds && b in h.blinds && b != c
    ensures h.blinds[c].remoteId != h.blinds[b].remoteId
  {
  }

  lemma RestartLinked(h: House, op: Op, b: u32)
    requires Inv(h) && Enabled(h, op) && op.Restart? && Linked(h, b) && Low(h.blinds[b].remoteId) in h.disk.remotes
    ensures Linked(Step(h, op), b) <==> KeepsLink(h, op, b)
  {
    hide Inv, Shutdown, Reload, AllStorable, Bootable, NoDuplicates, ReloadedRemotes, Low, Clip;
    var r, t := h.blinds[b].remoteId, Step(h, op);
    if op.clean {
      CleanRestart(h, op.now);
    } else {
      LossLinks(h, op.now, b, r);
    }
    ListAfterOk(h, r, op.clean);
    assert t.blinds.Keys == h.blinds.Keys && t.blinds[b].remoteId == r;
    assert r in t.remotes && t.remotes[r].blinds == ListAfter(h, r, op.clean);
  }

  lemma LossLinks(h: House, now: int, b: u32, r: u32)
    requires Inv(h) && Linked(h, b) && r == h.blinds[b].remoteId && Low(r) in h.disk.remotes
    ensures Bootable(h.disk)
    ensures var t := Reload(h.disk, now, h.issued);
            && t.blinds.Keys == h.blinds.Keys && t.blinds[b].remoteId == r
            && r in t.remotes && t.remotes[r].blinds == h.disk.remotes[Low(r)].blinds
  {
    ReloadInv(h, now);
    ReloadRemotes(h.disk, h.remotes, h.nextRemote);
    assert BlindOk(h.disk.blinds, h.remotes, h.nextBlind, b, h.blinds[b]);
    hide Inv, Reload, ReloadedRemotes, Bootable, NoDuplicates, RecordSane, Storable;
  }

  lemma ListAfterOk(h: House, id: u32, clean: bool)
    requires Inv(h) && id in h.remotes && Low(id) in h.disk.remotes
    ensures NoDuplicates(ListAfter(h, id, clean))
  {
    assert RemoteOk(h.disk.remotes, h.nextRemote, id, h.remotes[id]);
  }

  lemma RecordOfRemote(h: House, id: u32)
    requires Inv(h) && id in h.remotes
    ensures Low(id) in h.disk.remotes
  {
    assert RemoteOk(h.disk.remotes, h.nextRemote, id, h.remotes[id]);
  }

  /** Every event keeps a blind bound to its own remote exactly if it is none of these three. */
  lemma StepLinkedIff(h: House, op: Op, b: u32)
    requires Inv(h) && Enabled(h, op) && Linked(h, b) && b in Step(h, op).blinds
    ensures Low(h.blinds[b].remoteId) in h.disk.remotes
    ensures Linked(Step(h, op), b) <==> KeepsLink(h, op, b)
  {
    StorableBlinds(h);
    LinkedSays(h, b);
    RecordOfRemote(h, h.blinds[b].remoteId);
    hide Inv, AllStorable, Linked, Step, Enabled, SameLinks, Low;
    if op.Restart? {
      RestartLinked(h, op, b);
    } else if op.Bind? || op.Unbind? {
      BindLinked(h, op, b);
    } else if MemoryOnly(op) || op.SaveRemotesOp? || op.SaveBlindsOp? {
      StepSameLinks(h, op);
      SameLinked(h, Step(h, op), b);
    } else {
      TableLinked(h, op, b);
    }
  }

  /** A blind is added bound to its remote. */
  lemma AddBlindLinks(h: House, name: Name, openTime: int, closeTime: int, now: int)
    requires Inv(h) && CanCreate(h)
    requires h.nextBlind < 0x1_0000 && 0 < openTime < 0x8000_0000 && 0 < closeTime < 0x8000_0000
    ensures var t := AddBlind(h, name, openTime, closeTime, now);
            && Linked(t, h.nextBlind) && t.blinds[h.nextBlind].remoteId == h.nextRemote
            && Low(h.nextRemote) in t.disk.remotes && t.disk.remotes[Low(h.nextRemote)].blinds == []
  {
    hide Inv, CreateRemote, AttachBlind, CanCreate, Low;
    NextIsValid(h);
    IdsLeft(h);
    CreateRemoteEffect(h, name);
    AttachEffect(CreateRemote(h, name), NewBlind(name, h.nextRemote, openTime, closeTime, now));
  }

  /** But until its remote is saved a loss of power unbinds it: the binding is made after the record is
      written. */
  lemma NewLinkIsLost(h: House, name: Name, openTime: int, closeTime: int, now: int, later: int)
    requires Inv(h) && CanCreate(h)
    requires h.nextBlind < 0x1_0000 && 0 < openTime < 0x8000_0000 && 0 < closeTime < 0x8000_0000
    ensures var t := AddBlind(h, name, openTime, closeTime, now);
            && Inv(t) && Enabled(t, Restart(false, later))
            && var u := Step(t, Restart(false, later));
               && h.nextBlind in u.blinds && h.nextRemote in u.remotes && !u.remotes[h.nextRemote].dirty
               && !Linked(u, h.nextBlind)
  {
    hide Inv, AddBlind, CanCreate, Linked, Low, Reload, Bootable, AllStorable, ReloadedRemotes;
    var t := AddBlind(h, name, openTime, closeTime, now);
    AddBlindInv(h, name, openTime, closeTime, now);
    AddBlindLinks(h, name, openTime, closeTime, now);
    StorableBlinds(t);
    ReloadInv(t, later);
    LinkedSays(t, h.nextBlind);
    LossLinks(t, later, h.nextBlind, h.nextRemote);
    NotDirtyAfter(t, h.nextRemote);
    StepLinkedIff(t, Restart(false, later), h.nextBlind);
  }

  lemma NotDirtyAfter(h: House, id: u32)
    requires Inv(h) && id in h.remotes
    ensures id in ReloadedRemotes(h.disk) && !ReloadedRemotes(h.disk)[id].dirty
  {
    ReloadRemotes(h.disk, h.remotes, h.nextRemote);
  }
}
