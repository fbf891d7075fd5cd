/** Every run of the registry's operations, and what they all keep. */
module HouseRuns {
  import opened Basics
  import opened Records
  import opened House
  import opened HouseInvariant
  import opened HouseRestart
  import M = Motion

  /** Everything that can happen: the web interface's requests, a command heard on the radio, the
      timers, and a restart, clean or by loss of power. */
  datatype Op =
    | Add(name: seq<Byte>)
    | Import(id: u32, name: seq<Byte>)
    | Rename(id: u32, name: seq<Byte>)
    | Delete(id: u32)
    | Bind(id: u32, blindId: u16)
    | Unbind(id: u32, blindId: u16)
    | PressRemote(id: u32, buttons: int, repeat: u16, now: int, accepted: bool)
    | Hear(id: u32, rollingCode: u16, button: int, repeat: u16, now: int)
    | NewBlindOp(blindName: Name, openTime: int, closeTime: int, now: int)
    | ChangeBlind(changed: u16, blindName: Name, openTime: int, closeTime: int)
    | RemoveBlind(blind: u32)
    | Command(blind: u32, command: BlindCommand, now: int, accepted: bool)
    | SetPosition(blind: u32, position: int, now: int, accepted: bool)
    | TickOp(blind: u32, now: int, accepted: bool)
    | SaveRemotesOp
    | SaveBlindsOp
    | Restart(clean: bool, now: int)

  /** What the code takes for granted. Adding a remote needs a low half and list space of its own, an
      imported id must be one that can be read back, times are positive and fit an int, and every
      blind a pressed remote lists must exist. */
  ghost predicate Enabled(h: House, op: Op) {
    match op
    case Add(name) => NameAllowed(name) ==> CanCreate(h) && |h.disk.remoteIds| < MAX_IDS16
    case Import(id, name) =>
      NameAllowed(name) && id !in h.remotes ==>
        LowFree(h.remotes, id) && 0 < id < NO_REMOTE && |h.disk.externalIds| < MAX_IDS32
    case Delete(id) => id in h.remotes
    case PressRemote(id, _, _, _, _) => BlindsExist(h, id)
    case Hear(id, _, _, _, _) => BlindsExist(h, id)
    case NewBlindOp(_, openTime, closeTime, _) =>
      && CanCreate(h) && |h.disk.remoteIds| < MAX_IDS16 && |h.disk.blindIds| < MAX_IDS16
      && h.nextBlind < 0x1_0000 && 0 < openTime < 0x8000_0000 && 0 < closeTime < 0x8000_0000
    case ChangeBlind(_, _, openTime, closeTime) => 0 < openTime < 0x8000_0000 && 0 < closeTime < 0x8000_0000
    case Command(b, _, _, _) => b in h.blinds && BlindsExist(h, h.blinds[b].remoteId)
    case SetPosition(b, _, _, _) => b in h.blinds && BlindsExist(h, h.blinds[b].remoteId)
    case TickOp(b, _, _) => b in h.blinds && BlindsExist(h, h.blinds[b].remoteId) && Storable(h.blinds[b])
    case SaveBlindsOp => AllStorable(h.blinds)
    case Restart(clean, _) =>
      AllStorable(h.blinds) && Bootable(if clean then Shutdown(h).disk else h.disk)
    case _ => true
  }

  ghost function Step(h: House, op: Op): House
    requires Enabled(h, op)
  {
    match op
    case Add(name) => if NameAllowed(name) then CreateRemote(h, name) else h
    case Import(id, name) => if NameAllowed(name) then ImportRemote(h, id, name) else h
    case Rename(id, name) => if NameAllowed(name) then SetName(h, id, name) else h
    case Delete(id) => if IsAPrimaryRemote(h, id) then h else DeleteRemote(h, id)
    case Bind(id, b) => BindBlind(h, id, b, true)
    case Unbind(id, b) => BindBlind(h, id, b, false)
    case PressRemote(id, buttons, repeat, now, accepted) => Press(h, id, buttons, repeat, now, accepted)
    case Hear(id, code, button, repeat, now) => HearRemote(h, id, code, button, repeat, now)
    case NewBlindOp(name, openTime, closeTime, now) => AddBlind(h, name, openTime, closeTime, now)
    case ChangeBlind(b, name, openTime, closeTime) => UpdateBlind(h, b, name, openTime, closeTime)
    case RemoveBlind(b) => DeleteBlind(h, b)
    case Command(b, c, now, accepted) => CommandBlind(h, b, c, now, accepted)
    case SetPosition(b, position, now, accepted) => GoTo(h, b, position, now, accepted)
    case TickOp(b, now, accepted) => TickBlind(h, b, now, accepted)
    case SaveRemotesOp => SaveRemotes(h, Ascending(h.remotes.Keys))
    case SaveBlindsOp => SaveBlinds(h, Ascending(h.blinds.Keys), false)
    case Restart(clean, now) => Reload(if clean then Shutdown(h).disk else h.disk, now, h.issued)
  }

  ghost predicate CanRun(h: House, ops: seq<Op>)
    decreases ops
  {
    ops != [] ==> Enabled(h, ops[0]) && CanRun(Step(h, ops[0]), ops[1..])
  }

  ghost function Run(h: House, ops: seq<Op>): House
    requires CanRun(h, ops)
    decreases ops
  {
    if ops == [] then h else Run(Step(h, ops[0]), ops[1..])
  }

  lemma {:induction false} RunAppend(h: House, a: seq<Op>, b: seq<Op>)
    requires CanRun(h, a) && CanRun(Run(h, a), b)
    ensures CanRun(h, a + b) && Run(h, a + b) == Run(Run(h, a), b)
    decreases a
  {
    hide Enabled, Step;
    if a == [] {
      assert a + b == b;
    } else {
      RunAppend(Step(h, a[0]), a[1..], b);
      assert (a + b)[1..] == a[1..] + b;
    }
  }

  lemma {:induction false} RunSplit(h: House, a: seq<Op>, b: seq<Op>)
    requires CanRun(h, a + b)
    ensures CanRun(h, a) && CanRun(Run(h, a), b) && Run(h, a + b) == Run(Run(h, a), b)
    decreases a
  {
    hide Enabled, Step;
    if a == [] {
      assert a + b == b;
    } else {
      assert (a + b)[1..] == a[1..] + b;
      RunSplit(Step(h, a[0]), a[1..], b);
    }
  }

  lemma RunFirst(h: House, op: Op, rest: seq<Op>)
    requires CanRun(h, [op] + rest)
    ensures Enabled(h, op) && CanRun(Step(h, op), rest) && Run(h, [op] + rest) == Run(Step(h, op), rest)
  {
    assert ([op] + rest)[1..] == rest;
  }

  lemma RunCons(h: House, op: Op, rest: seq<Op>)
    requires Enabled(h, op) && CanRun(Step(h, op), rest)
    ensures CanRun(h, [op] + rest) && Run(h, [op] + rest) == Run(Step(h, op), rest)
  {
    assert ([op] + rest)[1..] == rest;
  }

  // ---------------------------------------------------------------- the invariant over runs

  lemma StorableBlinds(h: House)
    requires Inv(h)
    ensures AllStorable(h.blinds)
  {
    BlindIdsSmall(h.disk.blinds, h.remotes, h.blinds, h.nextBlind);
  }

  lemma GoToInMemory(h: House, b: u32, position: int, now: int, accepted: bool)
    requires b in h.blinds && BlindsExist(h, h.blinds[b].remoteId) && AllStorable(h.blinds)
    ensures InMemory(h, GoTo(h, b, position, now, accepted))
  {
    var p, remoteId := M.Clamp(position), h.blinds[b].remoteId;
    var h1 := if M.PressesDown(h.blinds[b].motion, p) then Press(h, remoteId, M.DOWN, M.SHORT_PRESS, now, accepted)
      else h;
    PressInMemory(h, remoteId, M.DOWN, M.SHORT_PRESS, now, accepted);
    Unchanged(h);
    hide Press, AllStorable;
    AfterInMemory(h, h1);
    var h2 := if M.PressesUp(h1.blinds[b].motion, p) then Press(h1, remoteId, M.UP, M.SHORT_PRESS, now, accepted)
      else h1;
    PressInMemory(h1, remoteId, M.UP, M.SHORT_PRESS, now, accepted);
    Unchanged(h1);
    AfterInMemory(h1, h2);
    InMemoryTrans(h, h1, h2);
    StorableAt(h2, b);
    SetMotionInMemory(h2, b, h2.blinds[b].motion.(target := p));
    InMemoryTrans(h, h2, GoTo(h, b, position, now, accepted));
  }

  lemma StorableAt(h: House, b: u32)
    requires AllStorable(h.blinds) && b in h.blinds
    ensures Storable(h.blinds[b])
  {
  }

  lemma Unchanged(h: House)
    requires AllStorable(h.blinds)
    ensures InMemory(h, h)
  {
  }

  lemma AfterInMemory(h: House, t: House)
    requires InMemory(h, t)
    ensures AllStorable(t.blinds) && t.blinds.Keys == h.blinds.Keys
  {
  }

  lemma TickInMemory(h: House, b: u32, now: int, accepted: bool)
    requires b in h.blinds && BlindsExist(h, h.blinds[b].remoteId) && AllStorable(h.blinds)
    ensures InMemory(h, TickBlind(h, b, now, accepted))
  {
    var m, remoteId := h.blinds[b].motion, h.blinds[b].remoteId;
    M.AlwaysSane(m, M.MY, false, 0, now);
    if m.direction == 0 || !M.Arrives(m, now) {
      SetMotionInMemory(h, b, M.Tick(m, now).0);
    } else {
      var h1 := SetMotion(h, b, m.(position := m.target as real));
      SetMotionInMemory(h, b, m.(position := m.target as real));
      AfterInMemory(h, h1);
      var h2 := if 0 < m.target < 100 then Press(h1, remoteId, M.MY, M.SHORT_PRESS, now, accepted) else h1;
      Unchanged(h1);
      PressInMemory(h1, remoteId, M.MY, M.SHORT_PRESS, now, accepted);
      hide Press, AllStorable, SetMotion;
      AfterInMemory(h1, h2);
      InMemoryTrans(h, h1, h2);
      StorableAt(h2, b);
      var last := h2.blinds[b].motion.(direction := 0, lastTick := now);
      SetMotionInMemory(h2, b, last);
      InMemoryTrans(h, h2, SetMotion(h2, b, last));
    }
  }

  lemma ChangeBlindInMemory(h: House, b: u32, name: Name, openTime: int, closeTime: int)
    requires AllStorable(h.blinds) && 0 < openTime < 0x8000_0000 && 0 < closeTime < 0x8000_0000
    ensures InMemory(h, UpdateBlind(h, b, name, openTime, closeTime))
  {
  }

  lemma TouchInMemory(h: House, op: Op)
    requires AllStorable(h.blinds) && Enabled(h, op) && (op.Rename? || op.Bind? || op.Unbind?)
    ensures InMemory(h, Step(h, op))
  {
    hide Storable;
    if op.Unbind? && op.id in h.remotes {
      WithoutKeeps(h.remotes[op.id].blinds, op.blindId);
    }
  }

  lemma {:induction false} WithoutKeeps(s: seq<u16>, x: u16)
    ensures forall y :: y in Without(s, x) ==> y in s
    ensures NoDuplicates(s) ==> NoDuplicates(Without(s, x))
    ensures NoDuplicates(s) ==> x !in Without(s, x)
  {
    if s != [] && s[0] != x {
      WithoutKeeps(s[1..], x);
      if NoDuplicates(s) {
        assert NoDuplicates(s[1..]);
        assert s[0] !in s[1..];
        var r := Without(s[1..], x);
        assert forall i :: 0 <= i < |r| ==> r[i] in s[1..];
      }
    } else if s != [] && NoDuplicates(s) {
      assert forall i :: 0 <= i < |s| - 1 ==> s[1..][i] == s[i + 1];
    }
  }

  lemma CommandInMemory(h: House, op: Op)
    requires AllStorable(h.blinds) && Enabled(h, op) && op.Command?
    ensures InMemory(h, Step(h, op))
  {
    var remoteId := h.blinds[op.blind].remoteId;
    Unchanged(h);
    var press := CommandPress(h.blinds[op.blind].motion, op.command);
    if press.Some? {
      PressInMemory(h, remoteId, press.value.0, press.value.1, op.now, op.accepted);
    }
    hide Press, InMemory;
  }

  lemma StepInv(h: House, op: Op)
    requires Inv(h) && Enabled(h, op)
    ensures Inv(Step(h, op))
  {
    hide Inv, AllStorable, Step, Enabled;
    StorableBlinds(h);
    if op.Restart? {
      RestartInv(h, op);
    } else if MemoryOnly(op) {
      InMemoryStep(h, op);
      InMemoryInv(h, Step(h, op));
    } else if op.SaveRemotesOp? || op.SaveBlindsOp? {
      SaveInv(h, op);
    } else {
      TableInv(h, op);
    }
  }

  lemma RestartInv(h: House, op: Op)
    requires Inv(h) && op.Restart? && Enabled(h, op)
    ensures Inv(Step(h, op))
  {
    hide Inv, AllStorable, Reload, Shutdown, Bootable, Restarted, RestartedBlind, LoadedBlind, ReloadedRemotes;
    if op.clean {
      CleanRestart(h, op.now);
    } else {
      ReloadInv(h, op.now);
    }
  }

  lemma SaveInv(h: House, op: Op)
    requires Inv(h) && (op.SaveRemotesOp? || op.SaveBlindsOp?) && Enabled(h, op)
    ensures Inv(Step(h, op))
  {
    hide Inv, AllStorable, SaveRemotes, SaveBlinds, Ascending;
    if op.SaveRemotesOp? {
      SaveRemotesInv(h, Ascending(h.remotes.Keys));
    } else {
      SaveBlindsInv(h, Ascending(h.blinds.Keys), false);
    }
  }

  lemma TableInv(h: House, op: Op)
    requires Inv(h) && Enabled(h, op)
    requires op.Add? || op.Import? || op.Delete? || op.NewBlindOp? || op.RemoveBlind?
    ensures Inv(Step(h, op))
  {
    hide Inv, CreateRemote, ImportRemote, DeleteRemote, AddBlind, DeleteBlind, IsAPrimaryRemote, CanCreate,
      LowFree;
    match op
    case Add(name) => if NameAllowed(name) { CreateRemoteInv(h, name); }
    case Import(id, name) => if NameAllowed(name) { ImportInv(h, id, name); }
    case Delete(id) => if !IsAPrimaryRemote(h, id) { DeleteRemoteInv(h, id); }
    case NewBlindOp(name, openTime, closeTime, now) => AddBlindInv(h, name, openTime, closeTime, now);
    case RemoveBlind(b) => RemoveBlindInv(h, b);
  }

  lemma ImportInv(h: House, id: u32, name: Name)
    requires Inv(h) && (id !in h.remotes ==> LowFree(h.remotes, id) && 0 < id < NO_REMOTE)
    ensures Inv(ImportRemote(h, id, name))
  {
    if id !in h.remotes {
      AddRemoteInv(h, id, name, true);
    }
  }

  lemma RemoveBlindInv(h: House, b: u32)
    requires Inv(h)
    ensures Inv(DeleteBlind(h, b))
  {
    if b in h.blinds {
      DeleteBlindInv(h, b);
    }
  }

  predicate MemoryOnly(op: Op) {
    op.Rename? || op.Bind? || op.Unbind? || op.PressRemote? || op.Hear? || op.ChangeBlind? || op.Command?
    || op.SetPosition? || op.TickOp?
  }

  lemma InMemoryStep(h: House, op: Op)
    requires AllStorable(h.blinds) && Enabled(h, op) && MemoryOnly(op)
    ensures InMemory(h, Step(h, op))
  {
    hide InMemory, AllStorable, Storable, Press, HearRemote, UpdateBlind, GoTo, TickBlind, BindBlind, SetName;
    match op
    case PressRemote(id, buttons, repeat, now, accepted) => PressInMemory(h, id, buttons, repeat, now, accepted);
    case Hear(id, code, button, repeat, now) => HearInMemory(h, id, code, button, repeat, now);
    case ChangeBlind(b, name, openTime, closeTime) => ChangeBlindInMemory(h, b, name, openTime, closeTime);
    case Command(_, _, _, _) => CommandInMemory(h, op);
    case SetPosition(b, position, now, accepted) => GoToInMemory(h, b, position, now, accepted);
    case TickOp(b, now, accepted) => TickInMemory(h, b, now, accepted);
    case _ => TouchInMemory(h, op);
  }

  /** Over every run of whole operations, with restarts and losses of power between them: a remote that is not
      dirty has its exact content on flash, the stored lists name exactly the registered remotes and blinds,
      every blind's primary remote exists and belongs to no other blind. Power lost inside an operation can
      leave a remote on a list that is not there; `CutRuns` has those runs. */
  lemma {:induction false} RunInv(h: House, ops: seq<Op>)
    requires Inv(h) && CanRun(h, ops)
    ensures Inv(Run(h, ops))
    decreases ops
  {
    hide Inv, Enabled, Step;
    if ops != [] {
      StepInv(h, ops[0]);
      RunInv(Step(h, ops[0]), ops[1..]);
    }
  }

  lemma RestartKeys(h: House, clean: bool, now: int)
    requires Inv(h) && Enabled(h, Restart(clean, now))
    ensures Step(h, Restart(clean, now)).remotes.Keys == h.remotes.Keys
    ensures Step(h, Restart(clean, now)).issued == h.issued
  {
    hide Inv, Shutdown, Reload, AllStorable, Bootable, ReloadedRemotes, Restarted, RestartedBlind;
    if clean {
      CleanRestart(h, now);
    } else {
      ReloadInv(h, now);
      ReloadRemotesKeys(h);
    }
  }

  lemma ReloadRemotesKeys(h: House)
    requires Inv(h)
    ensures ReloadedRemotes(h.disk).Keys == h.remotes.Keys
  {
    ReloadRemotes(h.disk, h.remotes, h.nextRemote);
  }

  lemma NewHouseInv(now: int)
    ensures Inv(NewHouse()) && Reload(NewHouse().disk, now, []) == NewHouse()
  {
    assert Orphans(NewHouse().disk, map[]) == {};
  }
}
