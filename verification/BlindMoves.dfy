/** A blind sent to a position while the rest of the registry goes on: in every run in which nothing else
    reaches it, it moves as `Motion` says, and its remote issues the presses of that move and no others. */
module BlindMoves {
  import opened Basics
  import opened Records
  import opened House
  import opened HouseInvariant
  import opened HouseRestart
  import opened HouseRuns
  import opened LinkedBlinds
  import M = Motion

  /** What a remote was made to press, in order. */
  function Buttons(issued: seq<Issue>, id: u32): seq<int> {
    if issued == [] then [] else
      var last := issued[|issued| - 1];
      Buttons(issued[..|issued| - 1], id) + (if last.remoteId == id then [last.buttons] else [])
  }

  lemma ButtonsAppend(issued: seq<Issue>, i: Issue, id: u32)
    ensures Buttons(issued + [i], id) == Buttons(issued, id) + (if i.remoteId == id then [i.buttons] else [])
  {
    assert (issued + [i])[..|issued|] == issued;
  }

  /** The remote whose press or frame an event tells blinds of, if there is one. */
  ghost function Teller(h: House, op: Op): Option<u32>
    requires Enabled(h, op)
  {
    match op
    case PressRemote(id, _, _, _, _) => Some(id)
    case Hear(id, _, _, _, _) => Some(id)
    case Command(c, command, _, _) =>
      if CommandPress(h.blinds[c].motion, command).Some? then Some(h.blinds[c].remoteId) else None
    case SetPosition(c, position, _, _) =>
      var m, p := h.blinds[c].motion, M.Clamp(position);
      if M.PressesDown(m, p) || M.PressesUp(m, p) then Some(h.blinds[c].remoteId) else None
    case TickOp(c, now, _) =>
      var m := h.blinds[c].motion;
      if m.direction != 0 && M.Arrives(m, now) && 0 < m.target < 100 then Some(h.blinds[c].remoteId) else None
    case _ => None
  }

  ghost predicate Tells(h: House, op: Op, b: u32)
    requires Enabled(h, op)
  {
    && Teller(h, op).Some? && Teller(h, op).value in h.remotes && b in h.remotes[Teller(h, op).value].blinds
  }

  /** An event that has nothing to do with the blind, save that its own timer may tick. */
  ghost predicate Elsewhere(h: House, op: Op, b: u32)
    requires Inv(h) && Enabled(h, op) && Linked(h, b)
  {
    RecordOfRemote(h, h.blinds[b].remoteId);
    && KeepsLink(h, op, b) && !op.Restart?
    && (op.ChangeBlind? ==> op.changed != b)
    && (op.SetPosition? ==> op.blind != b)
    && ((op.TickOp? && op.blind == b) || !Tells(h, op, b))
  }

  /** The blind is estimated as before, and its remote has issued nothing. */
  ghost predicate LeftAlone(h: House, t: House, b: u32, id: u32) {
    && b in h.blinds && b in t.blinds && h.blinds[b].remoteId == id && t.blinds[b].remoteId == id
    && t.blinds[b].motion == h.blinds[b].motion
    && Buttons(t.issued, id) == Buttons(h.issued, id)
  }

  lemma AloneTrans(h: House, t: House, u: House, b: u32, id: u32)
    requires LeftAlone(h, t, b, id) && LeftAlone(t, u, b, id)
    ensures LeftAlone(h, u, b, id)
  {
  }

  lemma AloneAt(h: House, t: House, b: u32, id: u32)
    requires b in h.blinds && b in t.blinds && h.blinds[b].remoteId == id && t.blinds[b].remoteId == id
    requires t.blinds[b].motion == h.blinds[b].motion && t.issued == h.issued
    ensures LeftAlone(h, t, b, id)
  {
  }

  // ---------------------------------------------------------------- events elsewhere

  lemma {:induction false} NotTold(blinds: map<u32, Blind>, ids: seq<u16>, button: int, longPress: bool, now: int,
                                   b: u32)
    requires (forall x :: x in ids ==> x in blinds) && b in blinds && b !in ids
    ensures PressBlinds(blinds, ids, button, longPress, now)[b] == blinds[b]
    decreases |ids|
  {
    hide PressBlind;
    if ids != [] {
      var n := |ids| - 1;
      assert ids == ids[..n] + [ids[n]];
      NotTold(blinds, ids[..n], button, longPress, now, b);
    }
  }

  /** The blind is listed by its own remote. */
  lemma ListedByOwn(h: House, b: u32)
    requires Linked(h, b)
    ensures b in h.blinds && h.blinds[b].remoteId in h.remotes && b in h.remotes[h.blinds[b].remoteId].blinds
  {
  }

  lemma PressAlone(h: House, pressed: u32, buttons: int, repeat: u16, now: int, accepted: bool, b: u32)
    requires BlindsExist(h, pressed) && Linked(h, b)
    requires pressed in h.remotes ==> b !in h.remotes[pressed].blinds
    ensures LeftAlone(h, Press(h, pressed, buttons, repeat, now, accepted), b, h.blinds[b].remoteId)
  {
    hide Linked, Buttons;
    ListedByOwn(h, b);
    if pressed in h.remotes {
      var r := h.remotes[pressed];
      NotTold(h.blinds, r.blinds, buttons, repeat > M.SHORT_PRESS, now, b);
      ButtonsAppend(h.issued, Issue(pressed, r.rollingCode, buttons, repeat, accepted), h.blinds[b].remoteId);
    }
  }

  lemma HearAlone(h: House, heard: u32, code: u16, button: int, repeat: u16, now: int, b: u32)
    requires BlindsExist(h, heard) && Linked(h, b)
    requires heard in h.remotes ==> b !in h.remotes[heard].blinds
    ensures LeftAlone(h, HearRemote(h, heard, code, button, repeat, now), b, h.blinds[b].remoteId)
  {
    hide Linked, Buttons;
    ListedByOwn(h, b);
    if heard in h.remotes {
      NotTold(h.blinds, h.remotes[heard].blinds, button, repeat > 7, now, b);
    }
  }

  lemma MotionAlone(h: House, c: u32, m: M.Motion, b: u32)
    requires c in h.blinds && c != b && Linked(h, b)
    ensures LeftAlone(h, SetMotion(h, c, m), b, h.blinds[b].remoteId)
  {
    hide Buttons;
  }

  /** A press, or none, of a remote that does not list the blind; the links stay. */
  lemma PressIfAlone(h: House, pressed: bool, id: u32, buttons: int, now: int, accepted: bool, b: u32)
    requires BlindsExist(h, id) && Linked(h, b) && (pressed && id in h.remotes ==> b !in h.remotes[id].blinds)
    ensures var t := if pressed then Press(h, id, buttons, M.SHORT_PRESS, now, accepted) else h;
            && LeftAlone(h, t, b, h.blinds[b].remoteId) && Linked(t, b) && BlindsExist(t, id)
            && t.blinds.Keys == h.blinds.Keys
            && (pressed && id in t.remotes ==> b !in t.remotes[id].blinds)
  {
    hide Press, BlindsExist, Linked, Buttons;
    ListedByOwn(h, b);
    AloneAt(h, h, b, h.blinds[b].remoteId);
    PressIfSameLinks(h, pressed, id, buttons, now, accepted);
    if pressed {
      PressAlone(h, id, buttons, M.SHORT_PRESS, now, accepted, b);
      SameLinked(h, Press(h, id, buttons, M.SHORT_PRESS, now, accepted), b);
    }
  }

  lemma GoToAlone(h: House, c: u32, position: int, now: int, accepted: bool, b: u32)
    requires c in h.blinds && c != b && BlindsExist(h, h.blinds[c].remoteId) && Linked(h, b)
    requires var m, p, r := h.blinds[c].motion, M.Clamp(position), h.blinds[c].remoteId;
             (M.PressesDown(m, p) || M.PressesUp(m, p)) && r in h.remotes ==> b !in h.remotes[r].blinds
    ensures LeftAlone(h, GoTo(h, c, position, now, accepted), b, h.blinds[b].remoteId)
  {
    hide Press, BlindsExist, Linked, LeftAlone, M.PressesDown, M.PressesUp;
    ListedByOwn(h, b);
    var p, r, id := M.Clamp(position), h.blinds[c].remoteId, h.blinds[b].remoteId;
    var down := M.PressesDown(h.blinds[c].motion, p);
    var h1 := if down then Press(h, r, M.DOWN, M.SHORT_PRESS, now, accepted) else h;
    PressIfAlone(h, down, r, M.DOWN, now, accepted, b);
    AloneRemote(h, h1, b, id);
    var up := M.PressesUp(h1.blinds[c].motion, p);
    var h2 := if up then Press(h1, r, M.UP, M.SHORT_PRESS, now, accepted) else h1;
    PressIfAlone(h1, up, r, M.UP, now, accepted, b);
    AloneRemote(h1, h2, b, id);
    AloneTrans(h, h1, h2, b, id);
    MotionAlone(h2, c, h2.blinds[c].motion.(target := p), b);
    AloneTrans(h, h2, GoTo(h, c, position, now, accepted), b, id);
  }

  lemma AloneRemote(h: House, t: House, b: u32, id: u32)
    requires LeftAlone(h, t, b, id)
    ensures b in t.blinds && t.blinds[b].remoteId == id
  {
  }

  lemma TickAlone(h: House, c: u32, now: int, accepted: bool, b: u32)
    requires c in h.blinds && c != b && BlindsExist(h, h.blinds[c].remoteId) && Linked(h, b)
    requires M.Sane(h.blinds[c].motion)
    requires var m, r := h.blinds[c].motion, h.blinds[c].remoteId;
             m.direction != 0 && M.Arrives(m, now) && 0 < m.target < 100 && r in h.remotes ==>
               b !in h.remotes[r].blinds
    ensures LeftAlone(h, TickBlind(h, c, now, accepted), b, h.blinds[b].remoteId)
  {
    hide Press, BlindsExist, Linked, LeftAlone, M.Arrives, M.Tick;
    ListedByOwn(h, b);
    var m, r, id := h.blinds[c].motion, h.blinds[c].remoteId, h.blinds[b].remoteId;
    if m.direction == 0 || !M.Arrives(m, now) {
      MotionAlone(h, c, M.Tick(m, now).0, b);
    } else {
      var h1 := SetMotion(h, c, m.(position := m.target as real));
      MotionAlone(h, c, m.(position := m.target as real), b);
      MotionSameLinks(h, c, m.(position := m.target as real));
      SameLinked(h, h1, b);
      AloneRemote(h, h1, b, id);
      var stops := 0 < m.target < 100;
      var h2 := if stops then Press(h1, r, M.MY, M.SHORT_PRESS, now, accepted) else h1;
      PressIfAlone(h1, stops, r, M.MY, now, accepted, b);
      AloneRemote(h1, h2, b, id);
      AloneTrans(h, h1, h2, b, id);
      MotionAlone(h2, c, h2.blinds[c].motion.(direction := 0, lastTick := now), b);
      AloneTrans(h, h2, TickBlind(h, c, now, accepted), b, id);
    }
  }

  lemma CommandAlone(h: House, op: Op, b: u32)
    requires Enabled(h, op) && op.Command? && Linked(h, b) && !Tells(h, op, b)
    ensures LeftAlone(h, Step(h, op), b, h.blinds[b].remoteId)
  {
    hide Press, BlindsExist, Linked, LeftAlone;
    ListedByOwn(h, b);
    AloneAt(h, h, b, h.blinds[b].remoteId);
    var press := CommandPress(h.blinds[op.blind].motion, op.command);
    if press.Some? {
      PressAlone(h, h.blinds[op.blind].remoteId, press.value.0, press.value.1, op.now, op.accepted, b);
    }
  }

  lemma TableAlone(h: House, op: Op, b: u32)
    requires Inv(h) && Enabled(h, op) && Linked(h, b) && (op.RemoveBlind? ==> op.blind != b)
    requires op.Add? || op.Import? || op.Delete? || op.NewBlindOp? || op.RemoveBlind?
    ensures LeftAlone(h, Step(h, op), b, h.blinds[b].remoteId)
  {
    hide Inv, CreateRemote, ImportRemote, AddBlind, DeleteRemote, DeleteBlind, CanCreate, LowFree,
      IsAPrimaryRemote, Linked, LeftAlone;
    ListedByOwn(h, b);
    var id := h.blinds[b].remoteId;
    AloneAt(h, h, b, id);
    match op
    case Add(name) => if NameAllowed(name) { CreateAlone(h, name, b); }
    case Import(x, name) => if NameAllowed(name) { ImportAlone(h, x, name, b); }
    case Delete(x) => DeleteRemoteEffect(h, x); AloneAt(h, DeleteRemote(h, x), b, id);
    case NewBlindOp(name, openTime, closeTime, now) => AddBlindAlone(h, name, openTime, closeTime, now, b);
    case RemoveBlind(c) => RemoveAlone(h, c, b);
  }

  lemma CreateAlone(h: House, name: Name, b: u32)
    requires Inv(h) && CanCreate(h) && Linked(h, b)
    ensures LeftAlone(h, CreateRemote(h, name), b, h.blinds[b].remoteId)
  {
    hide Inv, CreateRemote, CanCreate, LeftAlone, Linked;
    ListedByOwn(h, b);
    NextIsValid(h);
    IdsLeft(h);
    CreateRemoteEffect(h, name);
    AloneAt(h, CreateRemote(h, name), b, h.blinds[b].remoteId);
  }

  lemma ImportAlone(h: House, id: u32, name: Name, b: u32)
    requires Linked(h, b)
    ensures LeftAlone(h, ImportRemote(h, id, name), b, h.blinds[b].remoteId)
  {
    hide AddRemote, LeftAlone, Linked;
    ListedByOwn(h, b);
    if id !in h.remotes {
      AddRemoteEffect(h, id, name, true);
    }
    AloneAt(h, ImportRemote(h, id, name), b, h.blinds[b].remoteId);
  }

  lemma AddBlindAlone(h: House, name: Name, openTime: int, closeTime: int, now: int, b: u32)
    requires Inv(h) && CanCreate(h) && Linked(h, b)
    requires h.nextBlind < 0x1_0000 && 0 < openTime < 0x8000_0000 && 0 < closeTime < 0x8000_0000
    ensures LeftAlone(h, AddBlind(h, name, openTime, closeTime, now), b, h.blinds[b].remoteId)
  {
    hide Inv, CreateRemote, AttachBlind, CanCreate, LeftAlone, Linked;
    ListedByOwn(h, b);
    NextIsValid(h);
    IdsLeft(h);
    CreateRemoteEffect(h, name);
    AttachEffect(CreateRemote(h, name), NewBlind(name, h.nextRemote, openTime, closeTime, now));
    AloneAt(h, AddBlind(h, name, openTime, closeTime, now), b, h.blinds[b].remoteId);
  }

  lemma RemoveAlone(h: House, c: u32, b: u32)
    requires c != b && Linked(h, b)
    ensures LeftAlone(h, DeleteBlind(h, c), b, h.blinds[b].remoteId)
  {
    hide DeleteBlind, LeftAlone, Linked;
    ListedByOwn(h, b);
    if c in h.blinds {
      DeleteBlindEffect(h, c);
    } else {
      NoSuchBlind(h, c);
    }
    AloneAt(h, DeleteBlind(h, c), b, h.blinds[b].remoteId);
  }

  lemma {:induction false} SaveBlindsAlone(h: House, ids: seq<u32>, b: u32, id: u32)
    requires AllStorable(h.blinds) && (forall x :: x in ids ==> x in h.blinds)
    requires b in h.blinds && h.blinds[b].remoteId == id
    ensures LeftAlone(h, SaveBlinds(h, ids, false), b, id)
    decreases |ids|
  {
    hide BlindRecord, AllStorable, Buttons;
    if ids != [] {
      SaveBlindsAlone(h, ids[..|ids| - 1], b, id);
    }
  }

  lemma SaveAlone(h: House, op: Op, b: u32)
    requires Inv(h) && Enabled(h, op) && Linked(h, b) && (op.SaveRemotesOp? || op.SaveBlindsOp?)
    ensures LeftAlone(h, Step(h, op), b, h.blinds[b].remoteId)
  {
    hide Inv, AllStorable, SaveRemotes, SaveBlinds, Ascending, LeftAlone, Linked;
    ListedByOwn(h, b);
    if op.SaveRemotesOp? {
      SaveRemotesKeeps(h, Ascending(h.remotes.Keys));
      AloneAt(h, SaveRemotes(h, Ascending(h.remotes.Keys)), b, h.blinds[b].remoteId);
    } else {
      SaveBlindsAlone(h, Ascending(h.blinds.Keys), b, h.blinds[b].remoteId);
    }
  }

  lemma TouchAlone(h: House, op: Op, b: u32)
    requires Enabled(h, op) && Linked(h, b)
    requires op.Rename? || op.Bind? || op.Unbind? || (op.ChangeBlind? && op.changed != b)
    ensures LeftAlone(h, Step(h, op), b, h.blinds[b].remoteId)
  {
    hide Buttons, Without;
  }

  lemma MemoryAlone(h: House, op: Op, b: u32)
    requires Enabled(h, op) && Linked(h, b) && MemoryOnly(op) && !Tells(h, op, b)
    requires (op.ChangeBlind? ==> op.changed != b) && (op.SetPosition? || op.TickOp? ==> op.blind != b)
    ensures LeftAlone(h, Step(h, op), b, h.blinds[b].remoteId)
  {
    hide Press, GoTo, TickBlind, HearRemote, BlindsExist, Linked, LeftAlone, UpdateBlind, M.Arrives, M.PressesDown,
      M.PressesUp, CommandPress;
    match op
    case PressRemote(id, buttons, repeat, now, accepted) => PressAlone(h, id, buttons, repeat, now, accepted, b);
    case Hear(id, code, button, repeat, now) => HearAlone(h, id, code, button, repeat, now, b);
    case Command(_, _, _, _) => CommandAlone(h, op, b);
    case SetPosition(c, position, now, accepted) => GoToAlone(h, c, position, now, accepted, b);
    case TickOp(c, now, accepted) => TickAlone(h, c, now, accepted, b);
    case _ => TouchAlone(h, op, b);
  }

  // ---------------------------------------------------------------- one event

  /** The estimate of a bound blind has gone through some ticks, and its remote has issued their My presses
      and nothing else. */
  ghost predicate Ticked(h: House, t: House, b: u32, ticks: seq<int>) {
    && b in h.blinds && b in t.blinds && t.blinds[b].remoteId == h.blinds[b].remoteId
    && h.blinds[b].motion.openTime > 0 && h.blinds[b].motion.closeTime > 0
    && var m := M.RunTicks(h.blinds[b].motion, ticks);
       && t.blinds[b].motion == m.0
       && Buttons(t.issued, h.blinds[b].remoteId) == Buttons(h.issued, h.blinds[b].remoteId) + MyPresses(m.1)
  }

  lemma AloneTicked(h: House, t: House, b: u32, id: u32)
    requires LeftAlone(h, t, b, id) && M.Sane(h.blinds[b].motion)
    ensures Ticked(h, t, b, [])
  {
    hide Buttons;
    NoTicks(h.blinds[b].motion);
    assert Buttons(h.issued, id) + MyPresses(0) == Buttons(h.issued, id);
  }

  lemma TickedTrans(h: House, s: House, t: House, b: u32, first: seq<int>, ticks: seq<int>)
    requires Ticked(h, s, b, first) && Ticked(s, t, b, ticks)
    ensures Ticked(h, t, b, first + ticks)
  {
    hide Buttons, M.RunTicks;
    var m := h.blinds[b].motion;
    RunTicksAppend(m, first, ticks);
    PressesAdd(M.RunTicks(m, first).1, M.RunTicks(M.RunTicks(m, first).0, ticks).1);
  }

  lemma PressesAdd(n: nat, k: nat)
    ensures MyPresses(n) + MyPresses(k) == MyPresses(n + k)
  {
  }

  /** One event for a bound blind: its own timer ticks it as `Motion` says, with the press that goes with it;
      anything else leaves it alone. */
  lemma StepMoves(h: House, op: Op, b: u32)
    requires Inv(h) && Enabled(h, op) && Linked(h, b) && Elsewhere(h, op, b)
    ensures Inv(Step(h, op)) && Linked(Step(h, op), b) && Ticked(h, Step(h, op), b, TickTime(op, b))
  {
    hide Inv, AllStorable, Linked, Step, Enabled, LeftAlone, Ticked, Low, KeepsLink, Tells, Storable;
    SaneMotion(h, b);
    ListedByOwn(h, b);
    RecordOfRemote(h, h.blinds[b].remoteId);
    StepInv(h, op);
    if op.TickOp? && op.blind == b {
      OwnTick(h, op, b);
    } else {
      StepAlone(h, op, b);
      AloneRemote(h, Step(h, op), b, h.blinds[b].remoteId);
      AloneTicked(h, Step(h, op), b, h.blinds[b].remoteId);
      StepLinkedIff(h, op, b);
    }
  }

  lemma StepAlone(h: House, op: Op, b: u32)
    requires Inv(h) && Enabled(h, op) && Linked(h, b) && Elsewhere(h, op, b)
    requires !(op.TickOp? && op.blind == b)
    ensures LeftAlone(h, Step(h, op), b, h.blinds[b].remoteId)
  {
    ListedByOwn(h, b);
    assert op.RemoveBlind? ==> op.blind != b;
    hide Inv, Linked, Step, Enabled, LeftAlone, Low, KeepsLink, Tells;
    if MemoryOnly(op) {
      MemoryAlone(h, op, b);
    } else if op.SaveRemotesOp? || op.SaveBlindsOp? {
      SaveAlone(h, op, b);
    } else {
      TableAlone(h, op, b);
    }
  }

  lemma OwnTick(h: House, op: Op, b: u32)
    requires Enabled(h, op) && Linked(h, b) && op.TickOp? && op.blind == b && M.Sane(h.blinds[b].motion)
    ensures Linked(Step(h, op), b) && Ticked(h, Step(h, op), b, [op.now])
  {
    ListedByOwn(h, b);
    hide TickBlind, Linked, BlindsExist, M.Tick, Buttons, Storable;
    TickPresses(h, b, op.now, op.accepted);
    TickLinked(h, b, op.now, op.accepted);
    OneTick(h.blinds[b].motion, op.now);
  }

  lemma TickPresses(h: House, b: u32, now: int, accepted: bool)
    requires Linked(h, b) && M.Sane(h.blinds[b].motion)
    ensures var t, id := TickBlind(h, b, now, accepted), h.blinds[b].remoteId;
            && b in t.blinds && t.blinds[b].remoteId == id
            && Buttons(t.issued, id) ==
               Buttons(h.issued, id) + (if M.Tick(h.blinds[b].motion, now).1 then [M.MY] else [])
  {
    hide Buttons, NoDuplicates;
    var m, id := h.blinds[b].motion, h.blinds[b].remoteId;
    if m.direction != 0 && M.Arrives(m, now) && 0 < m.target < 100 {
      var h1 := SetMotion(h, b, m.(position := m.target as real));
      PressLinked(h1, b, M.MY, M.SHORT_PRESS, now, accepted);
      PressIssues(h1, id, M.MY, M.SHORT_PRESS, now, accepted);
      hide Press;
      ButtonsAppend(h.issued, Issue(id, h.remotes[id].rollingCode, M.MY, M.SHORT_PRESS, accepted), id);
    }
  }

  // ---------------------------------------------------------------- a run

  ghost predicate ElsewhereRun(h: House, ops: seq<Op>, b: u32)
    requires Inv(h) && CanRun(h, ops)
    decreases ops
  {
    ops != [] ==>
      && Linked(h, b) && Elsewhere(h, ops[0], b)
      && (StepInv(h, ops[0]); ElsewhereRun(Step(h, ops[0]), ops[1..], b))
  }

  /** When the blind's timer ticked. */
  function TicksOf(ops: seq<Op>, b: u32): seq<int> {
    if ops == [] then [] else TickTime(ops[0], b) + TicksOf(ops[1..], b)
  }

  function TickTime(op: Op, b: u32): seq<int> {
    if op.TickOp? && op.blind == b then [op.now] else []
  }

  function MyPresses(n: nat): seq<int> {
    seq(n, i => M.MY)
  }

  lemma {:induction false} RunTicksAppend(m: M.Motion, first: seq<int>, ticks: seq<int>)
    requires m.openTime > 0 && m.closeTime > 0
    ensures var before := M.RunTicks(m, first);
            && M.RunTicks(m, first + ticks).0 == M.RunTicks(before.0, ticks).0
            && M.RunTicks(m, first + ticks).1 == before.1 + M.RunTicks(before.0, ticks).1
    decreases |ticks|
  {
    hide M.Tick;
    if ticks == [] {
      assert first + ticks == first;
    } else {
      var n := |ticks| - 1;
      assert (first + ticks)[..|first| + n] == first + ticks[..n];
      RunTicksAppend(m, first, ticks[..n]);
    }
  }

  /** In a run that has nothing else to do with a bound blind, its estimate goes through its own ticks, and
      its remote issues their My presses and nothing else. */
  lemma {:induction false} RunMoves(h: House, ops: seq<Op>, b: u32)
    requires Inv(h) && CanRun(h, ops) && Linked(h, b) && ElsewhereRun(h, ops, b)
    ensures Inv(Run(h, ops)) && Linked(Run(h, ops), b) && Ticked(h, Run(h, ops), b, TicksOf(ops, b))
    decreases ops
  {
    hide Inv, Linked, Step, Enabled, Elsewhere, Ticked;
    if ops == [] {
      Unmoved(h, b);
    } else {
      var s := Step(h, ops[0]);
      StepMoves(h, ops[0], b);
      RunMoves(s, ops[1..], b);
      TickedTrans(h, s, Run(h, ops), b, TickTime(ops[0], b), TicksOf(ops[1..], b));
    }
  }

  lemma Unmoved(h: House, b: u32)
    requires Inv(h) && Linked(h, b)
    ensures Ticked(h, h, b, [])
  {
    hide Inv, AllStorable, Linked, Ticked;
    SaneMotion(h, b);
    AloneAt(h, h, b, h.blinds[b].remoteId);
    AloneTicked(h, h, b, h.blinds[b].remoteId);
  }

  lemma SaneMotion(h: House, b: u32)
    requires Inv(h) && Linked(h, b)
    ensures b in h.blinds && M.Sane(h.blinds[b].motion)
  {
    hide Inv, AllStorable;
    StorableBlinds(h);
    StorableAt(h, b);
  }

  lemma OneTick(m: M.Motion, now: int)
    requires m.openTime > 0 && m.closeTime > 0
    ensures M.RunTicks(m, [now]).0 == M.Tick(m, now).0
    ensures MyPresses(M.RunTicks(m, [now]).1) == if M.Tick(m, now).1 then [M.MY] else []
  {
    hide M.Tick;
    assert [now][..0] == [];
    assert MyPresses(0) == [];
    assert MyPresses(1) == [M.MY];
  }

  lemma NoTicks(m: M.Motion)
    requires m.openTime > 0 && m.closeTime > 0
    ensures M.RunTicks(m, []) == (m, 0)
  {
  }

  // ---------------------------------------------------------------- a move

  /** The press that sends a blind off to p: Down for a position below, and always for 0; Up for one above, and
      always for 100; none if it is where it should be, short of the ends. */
  function StartPress(m: M.Motion, p: int): seq<int> {
    if p == 0 || p as real < m.position then [M.DOWN] else if p == 100 || p as real > m.position then [M.UP] else []
  }

  lemma GoToPresses(h: House, b: u32, position: int, now: int, accepted: bool)
    requires Linked(h, b) && M.Sane(h.blinds[b].motion)
    ensures var t, id := GoTo(h, b, position, now, accepted), h.blinds[b].remoteId;
            && b in t.blinds && t.blinds[b].remoteId == id
            && Buttons(t.issued, id) == Buttons(h.issued, id) + StartPress(h.blinds[b].motion, M.Clamp(position))
  {
    hide Buttons, NoDuplicates;
    var p, id := M.Clamp(position), h.blinds[b].remoteId;
    var m := h.blinds[b].motion;
    PressLinked(h, b, M.DOWN, M.SHORT_PRESS, now, accepted);
    PressLinked(h, b, M.UP, M.SHORT_PRESS, now, accepted);
    PressIssues(h, id, M.DOWN, M.SHORT_PRESS, now, accepted);
    PressIssues(h, id, M.UP, M.SHORT_PRESS, now, accepted);
    hide Press;
    ButtonsAppend(h.issued, Issue(id, h.remotes[id].rollingCode, M.DOWN, M.SHORT_PRESS, accepted), id);
    ButtonsAppend(h.issued, Issue(id, h.remotes[id].rollingCode, M.UP, M.SHORT_PRESS, accepted), id);
  }

  /** A blind sent off to p at `start` by some presses has moved as the law says, up to the last of some ticks: it
      follows the straight line to its target; it counts as stopped from the first tick that finds it there;
      and its remote has issued those presses and, on arrival between the ends, one My press. */
  ghost predicate Moved(h: House, t: House, b: u32, first: seq<int>, p: int, start: int, ticks: seq<int>)
    requires b in h.blinds && M.Sane(h.blinds[b].motion)
  {
    var from, id := h.blinds[b].motion, h.blinds[b].remoteId;
    && b in t.blinds && t.blinds[b].remoteId == id
    && var m := t.blinds[b].motion;
       && m.target == p && m.position == M.Expected(from, p, start, M.LastTime(start, ticks))
       && (ticks != [] ==> (m.direction == 0 <==> m.position == p as real))
       && Buttons(t.issued, id) == Buttons(h.issued, id) + first +
          (if m.position == p as real != from.position && 0 < p < 100 then [M.MY] else [])
  }

  /** Sent off: still the same remote, which has issued some presses. */
  ghost predicate SentBy(h: House, s: House, b: u32, first: seq<int>) {
    && b in h.blinds && b in s.blinds && s.blinds[b].remoteId == h.blinds[b].remoteId
    && Buttons(s.issued, h.blinds[b].remoteId) == Buttons(h.issued, h.blinds[b].remoteId) + first
  }

  lemma TicksAreMove(h: House, s: House, t: House, b: u32, first: seq<int>, p: int, start: int, ticks: seq<int>)
    requires SentBy(h, s, b, first) && M.Sane(h.blinds[b].motion)
    requires Ticked(s, t, b, ticks) && M.TravelLaw(h.blinds[b].motion, s.blinds[b].motion, p, start, ticks)
    ensures Moved(h, t, b, first, p, start, ticks)
  {
    hide Buttons, M.RunTicks, M.Expected, M.LastTime;
    var from := h.blinds[b].motion;
    var (m, presses) := M.RunTicks(s.blinds[b].motion, ticks);
    assert t.blinds[b].motion == m;
    assert presses == (if m.position == p as real != from.position && 0 < p < 100 then 1 else 0);
    assert MyPresses(0) == [];
    assert MyPresses(1) == [M.MY];
  }

  /** A bound blind sent off to p; then anything may happen that has nothing else to do with it, its timer
      ticking in order: it moves as the law says and stays bound, and its remote issues the presses of
      this move and nothing else. */
  lemma TravelInRun(h: House, s: House, b: u32, first: seq<int>, p: int, start: int, ops: seq<Op>)
    requires Inv(s) && Linked(s, b) && CanRun(s, ops) && ElsewhereRun(s, ops, b)
    requires SentBy(h, s, b, first) && M.Sane(h.blinds[b].motion) && M.Sane(s.blinds[b].motion)
    requires M.TravelLaw(h.blinds[b].motion, s.blinds[b].motion, p, start, TicksOf(ops, b))
    ensures var t := Run(s, ops);
            Inv(t) && Linked(t, b) && Moved(h, t, b, first, p, start, TicksOf(ops, b))
  {
    hide Inv, Linked, M.TravelLaw, Ticked, SentBy, ElsewhereRun, Run, CanRun, Moved;
    RunMoves(s, ops, b);
    TicksAreMove(h, s, Run(s, ops), b, first, p, start, TicksOf(ops, b));
  }

  /** The move law in the registry, for a blind that is not just passing the position it is sent to. */
  lemma MoveInRun(h: House, b: u32, position: int, now: int, accepted: bool, ops: seq<Op>)
    requires Inv(h) && Linked(h, b) && Enabled(h, SetPosition(b, position, now, accepted))
    requires h.blinds[b].motion.lastTick <= now && !M.Passing(h.blinds[b].motion, position)
    requires var s := Step(h, SetPosition(b, position, now, accepted));
             Inv(s) && CanRun(s, ops) && ElsewhereRun(s, ops, b)
    requires M.InOrder(now, TicksOf(ops, b))
    ensures M.Sane(h.blinds[b].motion)
    ensures var t := Run(Step(h, SetPosition(b, position, now, accepted)), ops);
            var p := if position > 100 then 100 else if position < 0 then 0 else position;
            Inv(t) && Linked(t, b) && Moved(h, t, b, StartPress(h.blinds[b].motion, p), p, now, TicksOf(ops, b))
  {
    hide Inv, Linked, M.Sane, M.InOrder, M.TravelLaw, Buttons, ElsewhereRun, Run, CanRun, StartPress, GoTo, M.GoTo,
      M.Passing, Moved, M.Clamp;
    SaneMotion(h, b);
    M.GoToTarget(h.blinds[b].motion, position, now);
    var s := Step(h, SetPosition(b, position, now, accepted));
    M.MoveFollowsLine(h.blinds[b].motion, position, now, TicksOf(ops, b));
    GoToPresses(h, b, position, now, accepted);
    GoToLinked(h, b, position, now, accepted);
    SaneMotion(s, b);
    TravelInRun(h, s, b, StartPress(h.blinds[b].motion, M.Clamp(position)), M.Clamp(position), now, ops);
  }
}
