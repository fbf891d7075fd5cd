/** The answers of the outgoing queue do not matter to the registry: a run goes the same way whatever they
    are, but for what it notes of them. */
module Answers {
  import opened Basics
  import opened Records
  import opened House
  import opened HouseInvariant
  import opened HouseRuns
  import opened HouseSpace
  import M = Motion

  /** The event with the outgoing queue's answer, if it asks the queue for anything. */
  function Answered(op: Op, accepted: bool): Op {
    match op
    case PressRemote(id, buttons, repeat, now, _) => PressRemote(id, buttons, repeat, now, accepted)
    case Command(blind, command, now, _) => Command(blind, command, now, accepted)
    case SetPosition(blind, position, now, _) => SetPosition(blind, position, now, accepted)
    case TickOp(blind, now, _) => TickOp(blind, now, accepted)
    case _ => op
  }

  /** The same but for the commands noted as issued. */
  ghost predicate Alike(h: House, g: House) {
    g == h.(issued := g.issued)
  }

  lemma {:induction false} SaveRemotesAlike(h: House, g: House, ids: seq<u32>)
    requires Alike(h, g) && forall id :: id in ids ==> id in h.remotes
    ensures Alike(SaveRemotes(h, ids), SaveRemotes(g, ids)) && SaveRemotes(g, ids).issued == g.issued
    decreases |ids|
  {
    hide RemoteRecord;
    if ids != [] {
      SaveRemotesAlike(h, g, ids[..|ids| - 1]);
    }
  }

  lemma {:induction false} SaveBlindsAlike(h: House, g: House, ids: seq<u32>, force: bool)
    requires Alike(h, g) && AllStorable(h.blinds) && forall b :: b in ids ==> b in h.blinds
    ensures Alike(SaveBlinds(h, ids, force), SaveBlinds(g, ids, force)) && SaveBlinds(g, ids, force).issued == g.issued
    decreases |ids|
  {
    hide BlindRecord, AllStorable;
    if ids != [] {
      SaveBlindsAlike(h, g, ids[..|ids| - 1], force);
    }
  }

  lemma ShutdownAlike(h: House, g: House)
    requires Alike(h, g) && AllStorable(h.blinds)
    ensures Shutdown(g).disk == Shutdown(h).disk
  {
    hide SaveRemotes, SaveBlinds, AllStorable;
    SaveRemotesAlike(h, g, Ascending(h.remotes.Keys));
    var h1, g1 := SaveRemotes(h, Ascending(h.remotes.Keys)), SaveRemotes(g, Ascending(g.remotes.Keys));
    SaveBlindsAlike(h1, g1, Ascending(h1.blinds.Keys), true);
  }

  lemma ReloadAlike(disk: Disk, now: int, issued: seq<Issue>, other: seq<Issue>)
    requires Bootable(disk)
    ensures Alike(Reload(disk, now, issued), Reload(disk, now, other))
  {
    hide LoadBlinds, LoadRemotes, NextId;
  }

  lemma PressAlike(h: House, g: House, id: u32, buttons: int, repeat: u16, now: int, accepted: bool, answer: bool)
    requires Alike(h, g) && BlindsExist(h, id)
    ensures Alike(Press(h, id, buttons, repeat, now, accepted), Press(g, id, buttons, repeat, now, answer))
  {
    hide PressBlinds;
  }

  lemma GoToAlike(h: House, g: House, b: u32, position: int, now: int, accepted: bool, answer: bool)
    requires Alike(h, g) && b in h.blinds && BlindsExist(h, h.blinds[b].remoteId)
    ensures Alike(GoTo(h, b, position, now, accepted), GoTo(g, b, position, now, answer))
  {
    var p, r := M.Clamp(position), h.blinds[b].remoteId;
    var h1 := if M.PressesDown(h.blinds[b].motion, p) then Press(h, r, M.DOWN, M.SHORT_PRESS, now, accepted) else h;
    var g1 := if M.PressesDown(g.blinds[b].motion, p) then Press(g, r, M.DOWN, M.SHORT_PRESS, now, answer) else g;
    PressAlike(h, g, r, M.DOWN, M.SHORT_PRESS, now, accepted, answer);
    PressAlike(h1, g1, r, M.UP, M.SHORT_PRESS, now, accepted, answer);
    hide Press, M.PressesDown, M.PressesUp;
  }

  lemma TickAlike(h: House, g: House, b: u32, now: int, accepted: bool, answer: bool)
    requires Alike(h, g) && b in h.blinds && BlindsExist(h, h.blinds[b].remoteId) && M.Sane(h.blinds[b].motion)
    ensures Alike(TickBlind(h, b, now, accepted), TickBlind(g, b, now, answer))
  {
    hide M.Arrives, M.Tick, Press;
    var m := h.blinds[b].motion;
    var at := m.(position := m.target as real);
    if m.direction != 0 && M.Arrives(m, now) {
      PressAlike(SetMotion(h, b, at), SetMotion(g, b, at), h.blinds[b].remoteId, M.MY, M.SHORT_PRESS, now, accepted,
                 answer);
    }
  }

  lemma EnabledAlike(h: House, g: House, op: Op, answer: bool)
    requires Alike(h, g)
    ensures Enabled(g, Answered(op, answer)) == Enabled(h, op)
  {
    hide Shutdown, AllStorable, Bootable, BlindsExist, NameAllowed;
    if op.Restart? && AllStorable(h.blinds) {
      ShutdownAlike(h, g);
    } else {
      BlindsAlike(h, g);
    }
  }

  lemma BlindsAlike(h: House, g: House)
    requires Alike(h, g)
    ensures forall id :: BlindsExist(g, id) == BlindsExist(h, id)
  {
  }

  lemma StepAlike(h: House, g: House, op: Op, answer: bool)
    requires Alike(h, g) && Enabled(h, op)
    ensures Enabled(g, Answered(op, answer)) && Alike(Step(h, op), Step(g, Answered(op, answer)))
  {
    EnabledAlike(h, g, op, answer);
    hide Alike, Enabled, Step;
    if op.Restart? {
      RestartAlike(h, g, op);
    } else if op.SaveRemotesOp? || op.SaveBlindsOp? {
      SaveAlike(h, g, op);
    } else if op.PressRemote? || op.Command? || op.SetPosition? || op.TickOp? {
      PressStepAlike(h, g, op, answer);
    } else if MemoryOnly(op) {
      MemoryAlike(h, g, op);
    } else {
      TableAlike(h, g, op);
    }
  }

  lemma RestartAlike(h: House, g: House, op: Op)
    requires Alike(h, g) && Enabled(h, op) && Enabled(g, op) && op.Restart?
    ensures Alike(Step(h, op), Step(g, op))
  {
    hide Reload, Shutdown, AllStorable, Bootable;
    ShutdownAlike(h, g);
    ReloadAlike(if op.clean then Shutdown(h).disk else h.disk, op.now, h.issued, g.issued);
  }

  lemma SaveAlike(h: House, g: House, op: Op)
    requires Alike(h, g) && Enabled(h, op) && Enabled(g, op) && (op.SaveRemotesOp? || op.SaveBlindsOp?)
    ensures Alike(Step(h, op), Step(g, op))
  {
    hide SaveRemotes, SaveBlinds, AllStorable;
    if op.SaveRemotesOp? {
      SaveRemotesAlike(h, g, Ascending(h.remotes.Keys));
    } else {
      SaveBlindsAlike(h, g, Ascending(h.blinds.Keys), false);
    }
  }

  lemma PressStepAlike(h: House, g: House, op: Op, answer: bool)
    requires Alike(h, g) && Enabled(h, op) && Enabled(g, Answered(op, answer))
    requires op.PressRemote? || op.Command? || op.SetPosition? || op.TickOp?
    ensures Alike(Step(h, op), Step(g, Answered(op, answer)))
  {
    hide Press, GoTo, TickBlind, BlindsExist;
    match op
    case PressRemote(id, buttons, repeat, now, accepted) =>
      PressAlike(h, g, id, buttons, repeat, now, accepted, answer);
    case Command(b, c, now, accepted) =>
      var press := CommandPress(h.blinds[b].motion, c);
      if press.Some? {
        PressAlike(h, g, h.blinds[b].remoteId, press.value.0, press.value.1, now, accepted, answer);
      }
    case SetPosition(b, position, now, accepted) => GoToAlike(h, g, b, position, now, accepted, answer);
    case TickOp(b, now, accepted) => TickAlike(h, g, b, now, accepted, answer);
  }

  lemma MemoryAlike(h: House, g: House, op: Op)
    requires Alike(h, g) && Enabled(h, op) && Enabled(g, op) && MemoryOnly(op)
    requires op.Rename? || op.Bind? || op.Unbind? || op.Hear? || op.ChangeBlind?
    ensures Alike(Step(h, op), Step(g, op))
  {
    hide PressBlinds, BlindsExist, NameAllowed, Without;
  }

  lemma TableAlike(h: House, g: House, op: Op)
    requires Alike(h, g) && Enabled(h, op) && Enabled(g, op)
    requires op.Add? || op.Import? || op.Delete? || op.NewBlindOp? || op.RemoveBlind?
    ensures Alike(Step(h, op), Step(g, op))
  {
    hide CanCreate, LowFree, CreateRemote, AddRemote, DeleteRemote, AddBlind, DeleteBlind, IsAPrimaryRemote;
    match op
    case Add(name) => if NameAllowed(name) { CreateAlike(h, g, name); }
    case Import(id, name) => if NameAllowed(name) { AddAlike(h, g, id, name, true); }
    case Delete(id) => DeleteAlike(h, g, id);
    case NewBlindOp(name, openTime, closeTime, now) => AddBlindAlike(h, g, name, openTime, closeTime, now);
    case RemoveBlind(b) => RemoveAlike(h, g, b);
  }

  lemma AddAlike(h: House, g: House, id: u32, name: Name, external: bool)
    requires Alike(h, g)
    ensures Alike(AddRemote(h, id, name, external), AddRemote(g, id, name, external))
  {
    hide Ascending, InternalIds, ExternalIds, Low, RemoteRecord;
  }

  lemma CreateAlike(h: House, g: House, name: Name)
    requires Alike(h, g)
    ensures Alike(CreateRemote(h, name), CreateRemote(g, name))
  {
    hide AddRemote;
    var next := (h.nextRemote + 1) % 0x1_0000_0000;
    AddAlike(h.(nextRemote := next), g.(nextRemote := next), h.nextRemote, name, false);
  }

  lemma DeleteAlike(h: House, g: House, id: u32)
    requires Alike(h, g)
    ensures Alike(DeleteRemote(h, id), DeleteRemote(g, id)) && IsAPrimaryRemote(h, id) == IsAPrimaryRemote(g, id)
  {
    hide Ascending, InternalIds, ExternalIds, Low;
  }

  lemma AddBlindAlike(h: House, g: House, name: Name, openTime: int, closeTime: int, now: int)
    requires Alike(h, g) && h.nextBlind < 0x1_0000 && 0 < openTime < 0x8000_0000 && 0 < closeTime < 0x8000_0000
    ensures Alike(AddBlind(h, name, openTime, closeTime, now), AddBlind(g, name, openTime, closeTime, now))
  {
    hide CreateRemote, AttachBlind;
    CreateAlike(h, g, name);
    CreateKeepsNextBlind(h, name);
    AttachAlike(CreateRemote(h, name), CreateRemote(g, name), NewBlind(name, h.nextRemote, openTime, closeTime, now));
  }

  lemma CreateKeepsNextBlind(h: House, name: Name)
    ensures CreateRemote(h, name).nextBlind == h.nextBlind
  {
    hide Ascending, InternalIds, ExternalIds, Low, RemoteRecord;
  }

  lemma AttachAlike(h: House, g: House, b: Blind)
    requires Alike(h, g) && h.nextBlind < 0x1_0000 && Storable(b)
    ensures Alike(AttachBlind(h, b), AttachBlind(g, b))
  {
    hide Ascending, LowIds, Low, BlindRecord, Storable, Associated;
  }

  lemma RemoveAlike(h: House, g: House, b: u32)
    requires Alike(h, g)
    ensures Alike(DeleteBlind(h, b), DeleteBlind(g, b))
  {
    hide DeleteRemote;
    if b in h.blinds {
      DeleteAlike(TakeBlind(h, b), TakeBlind(g, b), h.blinds[b].remoteId);
    }
    hide Ascending, LowIds, Low;
  }

  // ---------------------------------------------------------------- runs

  /** Everything fits the flash at every moment of a run. */
  ghost predicate FitsRun(sectors: nat, h: House, ops: seq<Op>)
    requires CanRun(h, ops)
    decreases ops
  {
    FitsOn(sectors, h) && (ops != [] ==> FitsRun(sectors, Step(h, ops[0]), ops[1..]))
  }

  lemma OwnAnswer(op: Op)
    ensures exists answer :: Answered(op, answer) == op
  {
    var answer := if op.PressRemote? || op.Command? || op.SetPosition? || op.TickOp? then op.accepted else false;
    assert Answered(op, answer) == op;
  }

  /** What can happen, and fits, from one state does from any that is alike. */
  lemma {:induction false} RunAlike(sectors: nat, h: House, g: House, ops: seq<Op>)
    requires Alike(h, g) && CanRun(h, ops) && FitsRun(sectors, h, ops)
    ensures CanRun(g, ops) && FitsRun(sectors, g, ops) && Alike(Run(h, ops), Run(g, ops))
    decreases ops
  {
    hide Step, Enabled;
    if ops != [] {
      OwnAnswer(ops[0]);
      var answer :| Answered(ops[0], answer) == ops[0];
      StepAlike(h, g, ops[0], answer);
      RunAlike(sectors, Step(h, ops[0]), Step(g, ops[0]), ops[1..]);
    }
  }

  /** The same events, whatever the answers. */
  predicate SameEvents(done: seq<Op>, ops: seq<Op>) {
    |done| == |ops| && forall i :: 0 <= i < |ops| ==> Answered(done[i], true) == Answered(ops[i], true)
  }
}
