/** The rolling codes a remote gives out, over every run with clean restarts. */
module RollingCodes {
  import opened Basics
  import opened Records
  import opened House
  import opened HouseInvariant
  import opened HouseRestart
  import opened HouseRuns
  import M = Motion

  /** The codes issued for one remote, in order. */
  function Codes(issued: seq<Issue>, id: u32): seq<u16> {
    if issued == [] then [] else
      var last := issued[|issued| - 1];
      Codes(issued[..|issued| - 1], id) + (if last.remoteId == id then [last.rollingCode] else [])
  }

  /** The code i presses after a given one. */
  function Later(code: u16, i: nat): u16 {
    (code + i) % 0x1_0000
  }

  lemma LaterAdd(code: u16, n: nat, i: nat)
    ensures Later(Later(code, n), i) == Later(code, n + i)
  {
  }

  /** n codes in a row, modulo 65536. */
  function Successive(code: u16, n: nat): seq<u16> {
    seq(n, i requires 0 <= i => Later(code, i))
  }

  lemma SuccessiveAppend(code: u16, n: nat, m: nat)
    ensures Successive(code, n) + Successive(Later(code, n), m) == Successive(code, n + m)
  {
  }

  /** From h to t the remote has issued n codes, each the successor of the one before, starting with
      the code it held and ending just before the one it holds. */
  ghost predicate Advanced(h: House, t: House, id: u32, n: nat)
    requires id in h.remotes && id in t.remotes
  {
    && Codes(t.issued, id) == Codes(h.issued, id) + Successive(h.remotes[id].rollingCode, n)
    && t.remotes[id].rollingCode == Later(h.remotes[id].rollingCode, n)
  }

  ghost predicate Continues(h: House, t: House, id: u32) {
    id in h.remotes && id in t.remotes && exists n: nat :: Advanced(h, t, id, n)
  }

  lemma ContinuesTrans(h: House, t: House, u: House, id: u32)
    requires Continues(h, t, id) && Continues(t, u, id)
    ensures Continues(h, u, id)
  {
    var c := h.remotes[id].rollingCode;
    var n: nat :| Advanced(h, t, id, n);
    var m: nat :| Advanced(t, u, id, m);
    SuccessiveAppend(c, n, m);
    LaterAdd(c, n, m);
    hide Codes, Successive, Later;
    assert Codes(h.issued, id) + Successive(c, n) + Successive(Later(c, n), m)
        == Codes(h.issued, id) + (Successive(c, n) + Successive(Later(c, n), m));
    assert Advanced(h, u, id, n + m);
  }

  lemma SameCode(h: House, t: House, id: u32)
    requires id in h.remotes && id in t.remotes && t.issued == h.issued
    requires t.remotes[id].rollingCode == h.remotes[id].rollingCode
    ensures Continues(h, t, id)
  {
    hide Codes;
    assert Later(h.remotes[id].rollingCode, 0) == h.remotes[id].rollingCode;
    assert Codes(t.issued, id) == Codes(h.issued, id) + Successive(h.remotes[id].rollingCode, 0);
    assert Advanced(h, t, id, 0);
  }

  lemma PressContinues(h: House, id: u32, pressed: u32, buttons: int, repeat: u16, now: int, accepted: bool)
    requires id in h.remotes && BlindsExist(h, pressed)
    ensures Continues(h, Press(h, pressed, buttons, repeat, now, accepted), id)
  {
    var t := Press(h, pressed, buttons, repeat, now, accepted);
    if pressed in h.remotes {
      assert t.issued[..|h.issued|] == h.issued;
      var n := if pressed == id then 1 else 0;
      assert Codes(t.issued, id) == Codes(h.issued, id) + Successive(h.remotes[id].rollingCode, n);
      assert Advanced(h, t, id, n);
    } else {
      SameCode(h, t, id);
    }
  }

  /** A press changes no blind's identity, and no remote's existence or bindings. */
  lemma PressKeeps(h: House, pressed: u32, buttons: int, repeat: u16, now: int, accepted: bool)
    requires BlindsExist(h, pressed)
    ensures var t := Press(h, pressed, buttons, repeat, now, accepted);
            t.remotes.Keys == h.remotes.Keys && t.blinds.Keys == h.blinds.Keys
  {
  }

  lemma GoToContinues(h: House, id: u32, b: u32, position: int, now: int, accepted: bool)
    requires id in h.remotes && b in h.blinds && BlindsExist(h, h.blinds[b].remoteId)
    ensures Continues(h, GoTo(h, b, position, now, accepted), id)
  {
    var p, r := M.Clamp(position), h.blinds[b].remoteId;
    var h1 := if M.PressesDown(h.blinds[b].motion, p) then Press(h, r, M.DOWN, M.SHORT_PRESS, now, accepted) else h;
    PressContinues(h, id, r, M.DOWN, M.SHORT_PRESS, now, accepted);
    SameCode(h, h, id);
    var h2 := if M.PressesUp(h1.blinds[b].motion, p) then Press(h1, r, M.UP, M.SHORT_PRESS, now, accepted) else h1;
    PressContinues(h1, id, r, M.UP, M.SHORT_PRESS, now, accepted);
    SameCode(h1, h1, id);
    hide Press, Continues;
    ContinuesTrans(h, h1, h2, id);
    ContinuesAlive(h, h2, id);
    SameCode(h2, GoTo(h, b, position, now, accepted), id);
    ContinuesTrans(h, h2, GoTo(h, b, position, now, accepted), id);
  }

  lemma ContinuesAlive(h: House, t: House, id: u32)
    requires Continues(h, t, id)
    ensures id in h.remotes && id in t.remotes
  {
  }

  lemma TickContinues(h: House, id: u32, b: u32, now: int, accepted: bool)
    requires id in h.remotes && b in h.blinds && BlindsExist(h, h.blinds[b].remoteId) && Storable(h.blinds[b])
    ensures Continues(h, TickBlind(h, b, now, accepted), id)
  {
    var m, t := h.blinds[b].motion, TickBlind(h, b, now, accepted);
    if m.direction == 0 || !M.Arrives(m, now) || !(0 < m.target < 100) {
      SameCode(h, t, id);
    } else {
      var h1 := SetMotion(h, b, m.(position := m.target as real));
      var h2 := Press(h1, h.blinds[b].remoteId, M.MY, M.SHORT_PRESS, now, accepted);
      SameCode(h, h1, id);
      PressContinues(h1, id, h.blinds[b].remoteId, M.MY, M.SHORT_PRESS, now, accepted);
      hide Press, Continues;
      ContinuesTrans(h, h1, h2, id);
      ContinuesAlive(h, h2, id);
      SameCode(h2, t, id);
      ContinuesTrans(h, h2, t, id);
    }
  }

  /** What leaves a remote's codes alone: not hearing a frame under its id, not losing power, and not
      being deleted. */
  ghost predicate Undisturbed(h: House, op: Op, id: u32)
    requires Enabled(h, op)
  {
    && !(op.Hear? && op.id == id)
    && !(op.Restart? && !op.clean)
    && id in Step(h, op).remotes
  }

  predicate IsPress(op: Op) {
    op.PressRemote? || op.Command? || op.SetPosition? || op.TickOp?
  }

  lemma PressStepContinues(h: House, op: Op, id: u32)
    requires AllStorable(h.blinds) && Enabled(h, op) && id in h.remotes && IsPress(op)
    ensures Continues(h, Step(h, op), id)
  {
    hide Continues, Press, GoTo, TickBlind, CommandPress;
    match op
    case PressRemote(r, buttons, repeat, now, accepted) => PressContinues(h, id, r, buttons, repeat, now, accepted);
    case Command(b, c, now, accepted) =>
      var press := CommandPress(h.blinds[b].motion, c);
      if press.Some? {
        PressContinues(h, id, h.blinds[b].remoteId, press.value.0, press.value.1, now, accepted);
      } else {
        SameCode(h, h, id);
      }
    case SetPosition(b, position, now, accepted) => GoToContinues(h, id, b, position, now, accepted);
    case TickOp(b, now, accepted) => TickContinues(h, id, b, now, accepted);
  }

  lemma StepContinues(h: House, op: Op, id: u32)
    requires Inv(h) && Enabled(h, op) && id in h.remotes && Undisturbed(h, op, id)
    ensures Continues(h, Step(h, op), id)
  {
    hide Continues, Inv, Enabled, Step, AllStorable;
    StorableBlinds(h);
    if op.Restart? {
      CleanRestartContinues(h, op, id);
    } else if IsPress(op) {
      PressStepContinues(h, op, id);
    } else {
      QuietStep(h, op, id);
      SameCode(h, Step(h, op), id);
    }
  }

  lemma CleanRestartContinues(h: House, op: Op, id: u32)
    requires Inv(h) && op.Restart? && op.clean && Enabled(h, op) && id in h.remotes
    ensures Continues(h, Step(h, op), id)
  {
    hide Continues, Inv, Reload, Shutdown, AllStorable, Bootable;
    RestartContinues(h, op.now, id);
  }

  lemma RestartContinues(h: House, now: int, id: u32)
    requires Inv(h) && AllStorable(h.blinds) && id in h.remotes && Bootable(Shutdown(h).disk)
    ensures Continues(h, Reload(Shutdown(h).disk, now, h.issued), id)
  {
    hide Inv, Shutdown, Reload, Bootable, Continues, RestartedBlind, Storable;
    CleanRestart(h, now);
    var t := Reload(Shutdown(h).disk, now, h.issued);
    assert t.remotes[id] == Restarted(h.remotes[id]);
    SameCode(h, t, id);
  }

  lemma QuietStep(h: House, op: Op, id: u32)
    requires Inv(h) && Enabled(h, op) && id in h.remotes && Undisturbed(h, op, id) && !IsPress(op) && !op.Restart?
    ensures Step(h, op).issued == h.issued && Step(h, op).remotes[id].rollingCode == h.remotes[id].rollingCode
  {
    hide Inv, Step, Enabled, AllStorable;
    if MemoryOnly(op) {
      QuietTouch(h, op, id);
    } else if op.SaveRemotesOp? || op.SaveBlindsOp? {
      QuietSave(h, op, id);
    } else {
      QuietTable(h, op, id);
    }
  }

  lemma QuietSave(h: House, op: Op, id: u32)
    requires Inv(h) && Enabled(h, op) && id in h.remotes && (op.SaveRemotesOp? || op.SaveBlindsOp?)
    ensures Step(h, op).issued == h.issued && id in Step(h, op).remotes
    ensures Step(h, op).remotes[id].rollingCode == h.remotes[id].rollingCode
  {
    hide Inv, AllStorable, SaveRemotes, SaveBlinds, Ascending;
    if op.SaveRemotesOp? {
      SaveRemotesEffect(h, Ascending(h.remotes.Keys));
    } else {
      SaveBlindsKeeps(h, Ascending(h.blinds.Keys), false);
    }
  }

  lemma QuietTable(h: House, op: Op, id: u32)
    requires Inv(h) && Enabled(h, op) && id in h.remotes && id in Step(h, op).remotes
    requires op.Add? || op.Import? || op.Delete? || op.NewBlindOp? || op.RemoveBlind?
    ensures Step(h, op).issued == h.issued && Step(h, op).remotes[id].rollingCode == h.remotes[id].rollingCode
  {
    hide Inv, CreateRemote, ImportRemote, AddBlind, DeleteBlind, DeleteRemote, IsAPrimaryRemote, CanCreate,
      LowFree;
    match op
    case Add(name) => if NameAllowed(name) { QuietCreate(h, name, id); }
    case Import(r, name) => if NameAllowed(name) { QuietImport(h, r, name, id); }
    case Delete(r) => QuietDelete(h, r, id);
    case NewBlindOp(name, openTime, closeTime, now) => QuietAddBlind(h, name, openTime, closeTime, now, id);
    case RemoveBlind(b) => QuietRemove(h, b, id);
  }

  lemma QuietImport(h: House, r: u32, name: Name, id: u32)
    requires id in h.remotes
    ensures var t := ImportRemote(h, r, name); t.issued == h.issued && id in t.remotes && t.remotes[id] == h.remotes[id]
  {
    hide AddRemote;
    if r !in h.remotes {
      AddRemoteEffect(h, r, name, true);
    }
  }

  lemma QuietDelete(h: House, r: u32, id: u32)
    requires id in h.remotes
    ensures var t := DeleteRemote(h, r);
            t.issued == h.issued && (id in t.remotes ==> t.remotes[id] == h.remotes[id])
  {
    hide DeleteRemote;
    DeleteRemoteEffect(h, r);
  }

  lemma QuietRemove(h: House, b: u32, id: u32)
    requires id in h.remotes
    ensures var t := DeleteBlind(h, b);
            t.issued == h.issued && (id in t.remotes ==> t.remotes[id] == h.remotes[id])
  {
    hide DeleteBlind;
    if b in h.blinds {
      DeleteBlindEffect(h, b);
    } else {
      NoSuchBlind(h, b);
    }
  }

  /** The changes to one remote or blind in memory. */
  lemma QuietTouch(h: House, op: Op, id: u32)
    requires Enabled(h, op) && id in h.remotes && !(op.Hear? && op.id == id)
    requires op.Rename? || op.Bind? || op.Unbind? || op.ChangeBlind? || op.Hear?
    ensures Step(h, op).issued == h.issued && id in Step(h, op).remotes
    ensures Step(h, op).remotes[id].rollingCode == h.remotes[id].rollingCode
  {
    hide PressBlinds, NameAllowed, Without;
  }

  lemma QuietCreate(h: House, name: Name, id: u32)
    requires Inv(h) && CanCreate(h) && id in h.remotes
    ensures var t := CreateRemote(h, name); t.issued == h.issued && id in t.remotes && t.remotes[id] == h.remotes[id]
  {
    hide Inv, CreateRemote, CanCreate;
    NextIsValid(h);
    assert h.nextRemote < BASE_REMOTE_ID + 0x1_0000 by { IdsLeft(h); }
    CreateRemoteEffect(h, name);
  }

  lemma QuietAddBlind(h: House, name: Name, openTime: int, closeTime: int, now: int, id: u32)
    requires Inv(h) && CanCreate(h) && id in h.remotes
    requires h.nextBlind < 0x1_0000 && 0 < openTime < 0x8000_0000 && 0 < closeTime < 0x8000_0000
    ensures var t := AddBlind(h, name, openTime, closeTime, now);
            t.issued == h.issued && id in t.remotes && t.remotes[id] == h.remotes[id]
  {
    hide Inv, CreateRemote, AttachBlind, CanCreate;
    NextIsValid(h);
    IdsLeft(h);
    CreateRemoteEffect(h, name);
    AttachEffect(CreateRemote(h, name), NewBlind(name, h.nextRemote, openTime, closeTime, now));
  }

  ghost predicate UndisturbedRun(h: House, ops: seq<Op>, id: u32)
    requires CanRun(h, ops)
    decreases ops
  {
    ops != [] ==> Undisturbed(h, ops[0], id) && UndisturbedRun(Step(h, ops[0]), ops[1..], id)
  }

  /** Over every undisturbed run, with any number of clean restarts in it, the codes a remote issues
      are successive. */
  lemma {:induction false} RunContinues(h: House, ops: seq<Op>, id: u32)
    requires Inv(h) && CanRun(h, ops) && id in h.remotes && UndisturbedRun(h, ops, id)
    ensures Continues(h, Run(h, ops), id)
    decreases ops
  {
    hide Inv, Enabled, Step, Continues;
    if ops == [] {
      SameCode(h, h, id);
    } else {
      var t := Step(h, ops[0]);
      StepInv(h, ops[0]);
      StepContinues(h, ops[0], id);
      ContinuesAlive(h, t, id);
      RunContinues(t, ops[1..], id);
      ContinuesTrans(h, t, Run(t, ops[1..]), id);
    }
  }

  // ---------------------------------------------------------------- from its first moment on

  /** The requests that create a remote under the next id: that for a remote, and that for a blind, which
      gets a primary remote of its own. */
  ghost predicate Creates(h: House, op: Op) {
    Enabled(h, op) && (op.NewBlindOp? || (op.Add? && NameAllowed(op.name)))
  }

  lemma CreatesNext(h: House, op: Op)
    requires Inv(h) && Creates(h, op)
    ensures BASE_REMOTE_ID < h.nextRemote < BASE_REMOTE_ID + 0x1_0000 && h.nextRemote !in h.remotes
    ensures h.nextRemote in Step(h, op).remotes
  {
    hide Inv, CreateRemote, AddBlind, CanCreate;
    NextIsValid(h);
    IdsLeft(h);
    if op.Add? {
      CreateRemoteEffect(h, op.name);
    } else {
      AddBlindRemotes(h, op.blindName, op.openTime, op.closeTime, op.now);
    }
  }

  lemma AddBlindRemotes(h: House, name: Name, openTime: int, closeTime: int, now: int)
    requires Inv(h) && CanCreate(h)
    requires h.nextBlind < 0x1_0000 && 0 < openTime < 0x8000_0000 && 0 < closeTime < 0x8000_0000
    ensures var t := AddBlind(h, name, openTime, closeTime, now);
            && t.issued == h.issued && t.remotes.Keys == h.remotes.Keys + {h.nextRemote}
            && t.remotes[h.nextRemote].rollingCode == 1
  {
    hide Inv, CreateRemote, AttachBlind, CanCreate;
    NextIsValid(h);
    IdsLeft(h);
    CreateRemoteEffect(h, name);
    AttachEffect(CreateRemote(h, name), NewBlind(name, h.nextRemote, openTime, closeTime, now));
  }

  /** Whatever event enters a remote, the remote starts with code 1. */
  lemma EntersWithOne(h: House, op: Op, id: u32)
    requires Inv(h) && Enabled(h, op) && id !in h.remotes && id in Step(h, op).remotes
    ensures Step(h, op).issued == h.issued && Step(h, op).remotes[id].rollingCode == 1
  {
    hide Inv, Step, Enabled, InMemory;
    StorableBlinds(h);
    if op.Restart? {
      RestartKeys(h, op.clean, op.now);
    } else if MemoryOnly(op) {
      InMemoryStep(h, op);
      InMemoryKeys(h, Step(h, op));
    } else if op.SaveRemotesOp? || op.SaveBlindsOp? {
      SaveEntersNone(h, op);
    } else {
      TableEnters(h, op, id);
    }
  }

  lemma InMemoryKeys(h: House, t: House)
    requires InMemory(h, t)
    ensures t.remotes.Keys == h.remotes.Keys && t.nextRemote == h.nextRemote
  {
  }

  lemma SaveEntersNone(h: House, op: Op)
    requires Enabled(h, op) && (op.SaveRemotesOp? || op.SaveBlindsOp?)
    ensures Step(h, op).remotes.Keys == h.remotes.Keys
  {
    hide SaveRemotes, SaveBlinds, Ascending, AllStorable;
    if op.SaveBlindsOp? {
      SaveBlindsKeeps(h, Ascending(h.blinds.Keys), false);
    }
  }

  lemma TableEnters(h: House, op: Op, id: u32)
    requires Inv(h) && Enabled(h, op) && id !in h.remotes && id in Step(h, op).remotes
    requires op.Add? || op.Import? || op.Delete? || op.NewBlindOp? || op.RemoveBlind?
    ensures Step(h, op).issued == h.issued && Step(h, op).remotes[id].rollingCode == 1
  {
    hide Inv, CreateRemote, ImportRemote, AddBlind, DeleteBlind, DeleteRemote, IsAPrimaryRemote, CanCreate,
      LowFree;
    match op
    case Add(name) => if NameAllowed(name) { CreateShape(h, name); }
    case Import(r, name) => if NameAllowed(name) { ImportShape(h, r, name); }
    case Delete(r) => FewerRemotes(h, r);
    case NewBlindOp(name, openTime, closeTime, now) => AddBlindRemotes(h, name, openTime, closeTime, now);
    case RemoveBlind(b) => FewerWithBlind(h, b);
  }

  lemma CreateShape(h: House, name: Name)
    requires Inv(h) && CanCreate(h)
    ensures var t := CreateRemote(h, name);
            && t.issued == h.issued && t.remotes.Keys == h.remotes.Keys + {h.nextRemote}
            && t.remotes[h.nextRemote].rollingCode == 1
  {
    hide Inv, CreateRemote, CanCreate;
    NextIsValid(h);
    IdsLeft(h);
    CreateRemoteEffect(h, name);
  }

  lemma ImportShape(h: House, id: u32, name: Name)
    ensures var t := ImportRemote(h, id, name);
            && t.issued == h.issued && t.remotes.Keys == h.remotes.Keys + {id}
            && (id !in h.remotes ==> t.remotes[id].rollingCode == 1)
  {
    hide AddRemote;
    if id !in h.remotes {
      AddRemoteEffect(h, id, name, true);
    }
  }

  lemma FewerRemotes(h: House, id: u32)
    ensures DeleteRemote(h, id).remotes.Keys <= h.remotes.Keys
  {
    hide DeleteRemote;
    DeleteRemoteEffect(h, id);
  }

  lemma FewerWithBlind(h: House, b: u32)
    ensures DeleteBlind(h, b).remotes.Keys <= h.remotes.Keys
  {
    hide DeleteBlind;
    if b in h.blinds {
      DeleteBlindEffect(h, b);
    } else {
      NoSuchBlind(h, b);
    }
  }

  /** From the event that enters it on, be it a request for a remote, for a blind, or an import, a remote
      issues the codes 1, 2, 3, ... modulo 65536, so no code comes back within 65536 presses. */
  lemma CodesFromCreation(h: House, op: Op, id: u32, ops: seq<Op>) returns (n: nat)
    requires Inv(h) && Enabled(h, op) && id !in h.remotes && id in Step(h, op).remotes && Codes(h.issued, id) == []
    requires CanRun(Step(h, op), ops) && UndisturbedRun(Step(h, op), ops, id)
    ensures Codes(Run(Step(h, op), ops).issued, id) == Successive(1, n)
    ensures forall i, j :: 0 <= i < j < n && j - i < 0x1_0000 ==> Successive(1, n)[i] != Successive(1, n)[j]
  {
    hide Inv, Codes, Enabled, Step, Successive, Later;
    var t := Step(h, op);
    StepInv(h, op);
    EntersWithOne(h, op, id);
    RunContinues(t, ops, id);
    n :| Advanced(t, Run(t, ops), id, n);
    assert [] + Successive(1, n) == Successive(1, n);
    SuccessiveDistinct(1, n);
  }

  lemma SuccessiveDistinct(code: u16, n: nat)
    ensures forall i, j :: 0 <= i < j < n && j - i < 0x1_0000 ==> Successive(code, n)[i] != Successive(code, n)[j]
  {
  }
}
