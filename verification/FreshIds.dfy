/** Which ids a restart gives out again: exactly when the next remote and the next blind get an id of their
    own, the run in which they do not, and the rolling codes of a new remote in every other run. */
module FreshIds {
  import opened Basics
  import opened Records
  import opened House
  import opened HouseInvariant
  import opened HouseRestart
  import opened HouseRuns
  import opened RollingCodes
  import M = Motion

  // ---------------------------------------------------------------- the next ids after a restart

  lemma {:induction false} NextIdIs(first: nat, ids: seq<u32>, n: nat)
    requires first <= n && forall id :: id in ids ==> id < n
    ensures NextId(first, ids) == n <==> n == first || n - 1 in ids
  {
    if ids != [] {
      var rest, last := ids[..|ids| - 1], ids[|ids| - 1];
      assert ids == rest + [last];
      assert forall id :: id in ids <==> id in rest || id == last;
      NextIdIs(first, rest, n);
      NextIdBound(first, rest, n);
      assert last in ids;
      assert n - 1 in ids <==> n - 1 in rest || n - 1 == last;
    }
  }

  /** What flash brings back is the next id there was exactly if the newest remote is still there. */
  lemma NextRemoteAfterReloadIff(h: House)
    requires Inv(h)
    ensures NextId(BASE_REMOTE_ID + 1, InternalIdsOf(h.disk.remoteIds)) == h.nextRemote
            <==> h.nextRemote == BASE_REMOTE_ID + 1 || IsInternal(h.remotes, h.nextRemote - 1)
  {
    InternalShape(h.disk.remotes, h.remotes, h.nextRemote);
    var ids := InternalIdsOf(h.disk.remoteIds);
    forall id
      ensures id in ids <==> IsInternal(h.remotes, id)
    {
      InternalIdsMember(h.disk.remoteIds, id);
    }
    hide RemotesOk, BlindsOk, BlindListOk;
    NextIdIs(BASE_REMOTE_ID + 1, ids, h.nextRemote);
  }

  lemma NextBlindAfterReloadIff(h: House)
    requires Inv(h)
    ensures NextId(1, WideIds(h.disk.blindIds)) == h.nextBlind <==> h.nextBlind == 1 || h.nextBlind - 1 in h.blinds
  {
    BlindIdsSmall(h.disk.blinds, h.remotes, h.blinds, h.nextBlind);
    var ids := WideIds(h.disk.blindIds);
    forall id
      ensures id in ids <==> id in h.blinds
    {
      WideMember(h.disk.blindIds, id);
    }
    hide RemotesOk, ListsOk;
    NextIdIs(1, ids, h.nextBlind);
  }

  predicate NewestRemoteThere(h: House) {
    h.nextRemote == BASE_REMOTE_ID + 1 || (h.nextRemote > 0 && IsInternal(h.remotes, h.nextRemote - 1))
  }

  predicate NewestBlindThere(h: House) {
    h.nextBlind == 1 || (h.nextBlind > 0 && h.nextBlind - 1 in h.blinds)
  }

  /** The same of a restart, with or without a clean shutdown. */
  lemma RestartKeepsNextIff(h: House, clean: bool, now: int)
    requires Inv(h) && Enabled(h, Restart(clean, now))
    ensures var t := Step(h, Restart(clean, now));
            && (t.nextRemote == h.nextRemote <==> NewestRemoteThere(h))
            && (t.nextBlind == h.nextBlind <==> NewestBlindThere(h))
            && t.nextRemote <= h.nextRemote && t.nextBlind <= h.nextBlind
  {
    if clean {
      ShutdownEffect(h);
      ShutdownNext(h);
      ReloadNextIff(Shutdown(h), now);
      hide Inv, Shutdown, Reload, AllStorable, Bootable;
    } else {
      ReloadNextIff(h, now);
    }
  }

  lemma ShutdownNext(h: House)
    requires Inv(h) && AllStorable(h.blinds)
    ensures Shutdown(h).nextRemote == h.nextRemote && Shutdown(h).nextBlind == h.nextBlind
    ensures NewestRemoteThere(Shutdown(h)) == NewestRemoteThere(h)
            && NewestBlindThere(Shutdown(h)) == NewestBlindThere(h)
  {
    hide Inv, AllStorable, SaveRemotes, SaveBlinds;
    ShutdownEffect(h);
    hide AllStorable;
    var ids := Ascending(h.remotes.Keys);
    SaveRemotesEffect(h, ids);
    SaveBlindsKeeps(SaveRemotes(h, ids), Ascending(SaveRemotes(h, ids).blinds.Keys), true);
  }

  lemma ReloadNext(disk: Disk, now: int, issued: seq<Issue>)
    requires Bootable(disk)
    ensures var t := Reload(disk, now, issued);
            && t.nextRemote == NextId(BASE_REMOTE_ID + 1, InternalIdsOf(disk.remoteIds)) % 0x1_0000_0000
            && t.nextBlind == NextId(1, WideIds(disk.blindIds)) % 0x1_0000_0000
  {
    hide LoadBlinds, LoadRemotes, NextId;
  }

  lemma ReloadNextIff(h: House, now: int)
    requires Inv(h)
    ensures Bootable(h.disk)
    ensures var t := Reload(h.disk, now, h.issued);
            && (t.nextRemote == h.nextRemote <==> NewestRemoteThere(h))
            && (t.nextBlind == h.nextBlind <==> NewestBlindThere(h))
            && t.nextRemote <= h.nextRemote && t.nextBlind <= h.nextBlind
  {
    hide Inv, Reload, Bootable, NextId, IsInternal, ReloadedRemotes, LoadedBlind;
    NextRemoteAfterReloadIff(h);
    NextBlindAfterReloadIff(h);
    NextIdsBounded(h);
    ReloadInv(h, now);
    ReloadNext(h.disk, now, h.issued);
  }

  lemma NextIdsBounded(h: House)
    requires Inv(h)
    ensures NextId(BASE_REMOTE_ID + 1, InternalIdsOf(h.disk.remoteIds)) <= h.nextRemote
    ensures NextId(1, WideIds(h.disk.blindIds)) <= h.nextBlind
    ensures 0 < h.nextRemote && 0 < h.nextBlind
  {
    InternalShape(h.disk.remotes, h.remotes, h.nextRemote);
    BlindIdsSmall(h.disk.blinds, h.remotes, h.blinds, h.nextBlind);
    forall id: u32
      ensures id in InternalIdsOf(h.disk.remoteIds) <==> IsInternal(h.remotes, id)
      ensures id in WideIds(h.disk.blindIds) <==> id in h.blinds
    {
      InternalIdsMember(h.disk.remoteIds, id);
      WideMember(h.disk.blindIds, id);
    }
    hide InternalIdsOf, WideIds;
    NextIdBound(BASE_REMOTE_ID + 1, InternalIdsOf(h.disk.remoteIds), h.nextRemote);
    NextIdBound(1, WideIds(h.disk.blindIds), h.nextBlind);
  }

  // ---------------------------------------------------------------- no code under an id still to come

  /** No remote has, and no command was ever issued under, an id still to be given out. */
  ghost predicate AheadIsFresh(h: House) {
    forall id: u32 :: h.nextRemote <= id < BASE_REMOTE_ID + 0x1_0000 ==>
      id !in h.remotes && Codes(h.issued, id) == []
  }

  /** The next id after a restart: one past the largest the list of internal remotes names. */
  function NextListed(h: House): nat {
    NextId(BASE_REMOTE_ID + 1, InternalIdsOf(h.disk.remoteIds))
  }

  /** What keeps it so: no restart that gives back an id in use or used before, and no import of an id still
      to come. */
  ghost predicate KeepsAhead(h: House, op: Op) {
    && (op.Restart? ==>
          forall id: u32 :: NextListed(h) <= id < h.nextRemote ==> id !in h.remotes && Codes(h.issued, id) == [])
    && (op.Import? && NameAllowed(op.name) ==> !(h.nextRemote <= op.id < BASE_REMOTE_ID + 0x1_0000))
  }

  lemma PressIssuesOwn(h: House, pressed: u32, buttons: int, repeat: u16, now: int, accepted: bool, id: u32)
    requires BlindsExist(h, pressed) && id !in h.remotes
    ensures var t := Press(h, pressed, buttons, repeat, now, accepted);
            t.remotes.Keys == h.remotes.Keys && Codes(t.issued, id) == Codes(h.issued, id)
  {
    if pressed in h.remotes {
      assert Press(h, pressed, buttons, repeat, now, accepted).issued[..|h.issued|] == h.issued;
    }
  }

  /** A command is issued only under a registered remote's id. */
  lemma PressStepIssuesOwn(h: House, op: Op, id: u32)
    requires AllStorable(h.blinds) && Enabled(h, op) && IsPress(op) && id !in h.remotes
    ensures Codes(Step(h, op).issued, id) == Codes(h.issued, id)
  {
    hide Press, Codes, AllStorable, M.Arrives, M.Tick, M.PressesDown, M.PressesUp;
    match op
    case PressRemote(r, buttons, repeat, now, accepted) => PressIssuesOwn(h, r, buttons, repeat, now, accepted, id);
    case Command(b, c, now, accepted) =>
      var press := CommandPress(h.blinds[b].motion, c);
      if press.Some? {
        PressIssuesOwn(h, h.blinds[b].remoteId, press.value.0, press.value.1, now, accepted, id);
      }
    case SetPosition(b, position, now, accepted) => GoToIssuesOwn(h, b, position, now, accepted, id);
    case TickOp(b, now, accepted) => TickIssuesOwn(h, b, now, accepted, id);
  }

  lemma GoToIssuesOwn(h: House, b: u32, position: int, now: int, accepted: bool, id: u32)
    requires b in h.blinds && BlindsExist(h, h.blinds[b].remoteId) && id !in h.remotes
    ensures Codes(GoTo(h, b, position, now, accepted).issued, id) == Codes(h.issued, id)
  {
    var p, r := M.Clamp(position), h.blinds[b].remoteId;
    var h1 := if M.PressesDown(h.blinds[b].motion, p) then Press(h, r, M.DOWN, M.SHORT_PRESS, now, accepted) else h;
    PressIssuesOwn(h, r, M.DOWN, M.SHORT_PRESS, now, accepted, id);
    PressIssuesOwn(h1, r, M.UP, M.SHORT_PRESS, now, accepted, id);
    hide Press, Codes, M.PressesDown, M.PressesUp;
  }

  lemma TickIssuesOwn(h: House, b: u32, now: int, accepted: bool, id: u32)
    requires b in h.blinds && BlindsExist(h, h.blinds[b].remoteId) && Storable(h.blinds[b]) && id !in h.remotes
    ensures Codes(TickBlind(h, b, now, accepted).issued, id) == Codes(h.issued, id)
  {
    var m := h.blinds[b].motion;
    if m.direction != 0 && M.Arrives(m, now) {
      var h1 := SetMotion(h, b, m.(position := m.target as real));
      PressIssuesOwn(h1, h.blinds[b].remoteId, M.MY, M.SHORT_PRESS, now, accepted, id);
    }
    hide Press, Codes, M.Arrives, M.Tick;
  }

  /** What a step other than a restart does to the ids: it keeps the next one or gives one out, and enters no
      other remote except an imported one. */
  lemma StepIds(h: House, op: Op)
    requires Inv(h) && Enabled(h, op) && !op.Restart?
    ensures var t := Step(h, op);
            && h.nextRemote <= t.nextRemote
            && forall id :: id in t.remotes ==>
                 id in h.remotes || (h.nextRemote <= id < t.nextRemote) || (op.Import? && id == op.id)
  {
    StorableBlinds(h);
    hide Inv, AllStorable, Step, InMemory, Shutdown, Reload;
    if MemoryOnly(op) {
      InMemoryStep(h, op);
      InMemoryKeys(h, Step(h, op));
    } else {
      TableIds(h, op);
    }
  }

  lemma ShutdownLists(h: House)
    requires AllStorable(h.blinds)
    ensures Shutdown(h).disk.remoteIds == h.disk.remoteIds
  {
    hide SaveRemotes, SaveBlinds, AllStorable, Ascending;
    SaveRemotesKeeps(h, Ascending(h.remotes.Keys));
    var h1 := SaveRemotes(h, Ascending(h.remotes.Keys));
    SaveBlindsKeeps(h1, Ascending(h1.blinds.Keys), true);
  }

  lemma RestartNext(h: House, op: Op)
    requires Inv(h) && op.Restart? && Enabled(h, op)
    ensures NextListed(h) <= h.nextRemote && Step(h, op).nextRemote == NextListed(h)
  {
    hide Inv, Shutdown, Reload, AllStorable, Bootable, NextId, InternalIdsOf;
    NextIdsBounded(h);
    if op.clean {
      ShutdownLists(h);
      ReloadNext(Shutdown(h).disk, op.now, h.issued);
    } else {
      ReloadNext(h.disk, op.now, h.issued);
    }
  }

  /** What a step does to the ids when it is neither a restart nor in memory only. */
  ghost predicate IdsMove(h: House, t: House, imported: set<u32>) {
    && h.nextRemote <= t.nextRemote && t.issued == h.issued
    && forall id :: id in t.remotes ==> id in h.remotes || (h.nextRemote <= id < t.nextRemote) || id in imported
  }

  lemma TableIds(h: House, op: Op)
    requires Inv(h) && Enabled(h, op) && !op.Restart? && !MemoryOnly(op)
    ensures IdsMove(h, Step(h, op), if op.Import? then {op.id} else {})
  {
    hide Inv, AllStorable, CreateRemote, ImportRemote, AddBlind, SaveRemotes, SaveBlinds, DeleteBlind,
      DeleteRemote, IsAPrimaryRemote, CanCreate, LowFree, Ascending, IdsMove;
    IdsStay(h);
    match op
    case Add(name) => if NameAllowed(name) { CreateIds(h, name); }
    case Import(r, name) => if NameAllowed(name) { ImportIds(h, r, name); } else { IdsStayOr(h, r); }
    case Delete(r) => DeleteIds(h, r);
    case NewBlindOp(name, openTime, closeTime, now) => AddBlindIds(h, name, openTime, closeTime, now);
    case RemoveBlind(b) => RemoveIds(h, b);
    case SaveRemotesOp => SaveRemotesIds(h);
    case SaveBlindsOp => SaveBlindsIds(h);
  }

  lemma IdsStay(h: House)
    ensures IdsMove(h, h, {})
  {
  }

  lemma IdsStayOr(h: House, id: u32)
    ensures IdsMove(h, h, {id})
  {
  }

  lemma CreateIds(h: House, name: Name)
    requires Inv(h) && CanCreate(h)
    ensures IdsMove(h, CreateRemote(h, name), {})
  {
    hide Inv, CreateRemote, CanCreate;
    NextIsValid(h);
    IdsLeft(h);
    CreateRemoteEffect(h, name);
  }

  lemma ImportIds(h: House, id: u32, name: Name)
    ensures IdsMove(h, ImportRemote(h, id, name), {id})
  {
    hide AddRemote;
    if id !in h.remotes {
      AddRemoteEffect(h, id, name, true);
    }
  }

  lemma DeleteIds(h: House, id: u32)
    ensures IdsMove(h, DeleteRemote(h, id), {})
  {
    hide DeleteRemote;
    DeleteRemoteEffect(h, id);
  }

  lemma RemoveIds(h: House, b: u32)
    ensures IdsMove(h, DeleteBlind(h, b), {})
  {
    hide DeleteBlind;
    if b in h.blinds {
      DeleteBlindEffect(h, b);
    } else {
      NoSuchBlind(h, b);
    }
  }

  lemma SaveRemotesIds(h: House)
    ensures IdsMove(h, SaveRemotes(h, Ascending(h.remotes.Keys)), {})
  {
    hide SaveRemotes, Ascending;
    SaveRemotesKeeps(h, Ascending(h.remotes.Keys));
  }

  lemma SaveBlindsIds(h: House)
    requires AllStorable(h.blinds)
    ensures IdsMove(h, SaveBlinds(h, Ascending(h.blinds.Keys), false), {})
  {
    hide SaveBlinds, Ascending;
    SaveBlindsKeeps(h, Ascending(h.blinds.Keys), false);
  }

  lemma AddBlindIds(h: House, name: Name, openTime: int, closeTime: int, now: int)
    requires Inv(h) && CanCreate(h)
    requires h.nextBlind < 0x1_0000 && 0 < openTime < 0x8000_0000 && 0 < closeTime < 0x8000_0000
    ensures IdsMove(h, AddBlind(h, name, openTime, closeTime, now), {})
  {
    hide Inv, CreateRemote, AttachBlind, CanCreate;
    NextIsValid(h);
    IdsLeft(h);
    CreateRemoteEffect(h, name);
    AttachEffect(CreateRemote(h, name), NewBlind(name, h.nextRemote, openTime, closeTime, now));
  }

  lemma StepIssuesOwn(h: House, op: Op, id: u32)
    requires Inv(h) && Enabled(h, op) && id !in h.remotes
    ensures Codes(Step(h, op).issued, id) == Codes(h.issued, id)
  {
    StorableBlinds(h);
    hide Inv, AllStorable, Step, Codes;
    if op.Restart? {
      RestartKeys(h, op.clean, op.now);
    } else if IsPress(op) {
      PressStepIssuesOwn(h, op, id);
    } else if MemoryOnly(op) {
      QuietMemory(h, op);
    } else {
      TableIds(h, op);
    }
  }

  lemma QuietMemory(h: House, op: Op)
    requires Enabled(h, op) && MemoryOnly(op) && !IsPress(op)
    ensures Step(h, op).issued == h.issued
  {
    hide PressBlinds, NameAllowed, Without;
  }

  /** Every event keeps it so exactly if it is none of these two. */
  lemma StepKeepsAheadIff(h: House, op: Op)
    requires Inv(h) && Enabled(h, op) && AheadIsFresh(h)
    ensures AheadIsFresh(Step(h, op)) <==> KeepsAhead(h, op)
  {
    hide Inv, Step, Codes, NextListed, Enabled;
    var t := Step(h, op);
    if op.Restart? {
      RestartNext(h, op);
      RestartKeys(h, op.clean, op.now);
      NextBound(h);
      GivenBackIff(h, t, NextListed(h));
    } else if op.Import? && NameAllowed(op.name) && h.nextRemote <= op.id < BASE_REMOTE_ID + 0x1_0000 {
      ImportEnters(h, op);
    } else {
      StepIds(h, op);
      if op.Import? && !NameAllowed(op.name) { Refused(h, op); }
      forall id: u32 | t.nextRemote <= id < BASE_REMOTE_ID + 0x1_0000
        ensures id !in t.remotes && Codes(t.issued, id) == []
      {
        StepIssuesOwn(h, op, id);
      }
    }
  }

  lemma GivenBackIff(h: House, t: House, next: nat)
    requires AheadIsFresh(h) && h.nextRemote <= BASE_REMOTE_ID + 0x1_0000 && next <= h.nextRemote
    requires t.nextRemote == next && t.remotes.Keys == h.remotes.Keys && t.issued == h.issued
    ensures AheadIsFresh(t) <==>
            forall id: u32 :: next <= id < h.nextRemote ==> id !in h.remotes && Codes(h.issued, id) == []
  {
    hide Codes;
    assert forall id: u32 :: id in t.remotes <==> id in h.remotes;
  }

  lemma NextBound(h: House)
    requires Inv(h)
    ensures h.nextRemote <= BASE_REMOTE_ID + 0x1_0000
  {
  }

  lemma Refused(h: House, op: Op)
    requires op.Import? && !NameAllowed(op.name) && Enabled(h, op)
    ensures Step(h, op) == h
  {
  }

  lemma ImportEnters(h: House, op: Op)
    requires op.Import? && NameAllowed(op.name) && Enabled(h, op)
    ensures op.id in Step(h, op).remotes && Step(h, op).nextRemote == h.nextRemote
  {
    hide AddRemote, LowFree;
    if op.id !in h.remotes {
      AddRemoteEffect(h, op.id, op.name, true);
    }
  }

  /** In particular a restart with the newest remote still there does. */
  lemma NewestKeepsAhead(h: House, clean: bool, now: int)
    requires Inv(h) && NewestRemoteThere(h)
    ensures KeepsAhead(h, Restart(clean, now))
  {
    hide Inv, Codes;
    NextRemoteAfterReloadIff(h);
  }

  ghost predicate KeepsAheadRun(h: House, ops: seq<Op>)
    requires CanRun(h, ops)
    decreases ops
  {
    ops != [] ==> KeepsAhead(h, ops[0]) && KeepsAheadRun(Step(h, ops[0]), ops[1..])
  }

  lemma {:induction false} RunKeepsAhead(h: House, ops: seq<Op>)
    requires Inv(h) && CanRun(h, ops) && AheadIsFresh(h) && KeepsAheadRun(h, ops)
    ensures Inv(Run(h, ops)) && AheadIsFresh(Run(h, ops))
    decreases ops
  {
    hide Inv, Enabled, Step, AheadIsFresh, KeepsAhead;
    if ops != [] {
      StepInv(h, ops[0]);
      StepKeepsAheadIff(h, ops[0]);
      RunKeepsAhead(Step(h, ops[0]), ops[1..]);
    }
  }

  /** In every run from reset in which no restart gives back an id used before and no id still to come is
      imported, each remote created, on its own or with a blind, issues the codes 1, 2, 3, ... modulo 65536
      for as long as it is undisturbed. */
  lemma CodesFromReset(before: seq<Op>, op: Op, ops: seq<Op>) returns (n: nat)
    requires CanRun(NewHouse(), before) && KeepsAheadRun(NewHouse(), before)
    requires Creates(Run(NewHouse(), before), op)
    requires var h := Run(NewHouse(), before);
             CanRun(Step(h, op), ops) && UndisturbedRun(Step(h, op), ops, h.nextRemote)
    ensures var h := Run(NewHouse(), before);
            Codes(Run(Step(h, op), ops).issued, h.nextRemote) == Successive(1, n)
  {
    hide Inv, Run, CanRun, UndisturbedRun, Codes, Successive, Step, Enabled;
    var h := Run(NewHouse(), before);
    assert Inv(NewHouse()) && AheadIsFresh(NewHouse()) by { NewIsFresh(); }
    RunKeepsAhead(NewHouse(), before);
    CreatesNext(h, op);
    n := CodesFromCreation(h, op, h.nextRemote, ops);
  }

  lemma NewIsFresh()
    ensures Inv(NewHouse()) && AheadIsFresh(NewHouse())
  {
    NewHouseInv(0);
  }

  // ---------------------------------------------------------------- the run that gives an id out again

  /** A reset device on which commands were issued before. */
  ghost function EmptyHouse(nextRemote: u32, issued: seq<Issue>): House {
    NewHouse().(nextRemote := nextRemote, issued := issued)
  }

  lemma EmptyRestart(nextRemote: u32, issued: seq<Issue>, now: int)
    requires BASE_REMOTE_ID < nextRemote <= BASE_REMOTE_ID + 0x1_0000
    ensures var h := EmptyHouse(nextRemote, issued);
            && Enabled(h, Restart(true, now))
            && Step(h, Restart(true, now)) == EmptyHouse(BASE_REMOTE_ID + 1, issued)
  {
    var h := EmptyHouse(nextRemote, issued);
    assert Ascending({}) == [];
    assert Shutdown(h) == h;
    assert Orphans(h.disk, map[]) == {};
  }

  /** Add a remote to the empty house and press it. */
  function OneRemote(name: Name, buttons: int, now: int): (ops: seq<Op>)
    ensures |ops| == 2
  {
    [Add(name), PressRemote(BASE_REMOTE_ID + 1, buttons, M.SHORT_PRESS, now, true)]
  }

  lemma AddAndPress(issued: seq<Issue>, name: Name, buttons: int, now: int)
    requires NameAllowed(name)
    ensures var h := EmptyHouse(BASE_REMOTE_ID + 1, issued);
            && CanRun(h, OneRemote(name, buttons, now))
            && var t := Run(h, OneRemote(name, buttons, now));
               && t.issued == issued + [Issue(BASE_REMOTE_ID + 1, 1, buttons, M.SHORT_PRESS, true)]
               && t.nextRemote == BASE_REMOTE_ID + 2 && t.nextBlind == 1 && t.remotes.Keys == {BASE_REMOTE_ID + 1}
               && t.blinds == map[] && t.disk.blinds == map[] && t.disk.blindIds == []
               && t.disk.remotes.Keys == {1}
  {
    var h := EmptyHouse(BASE_REMOTE_ID + 1, issued);
    var press := PressRemote(BASE_REMOTE_ID + 1, buttons, M.SHORT_PRESS, now, true);
    CreateRemoteEffect(h, name);
    AddRemoteEffect(h.(nextRemote := h.nextRemote + 1), h.nextRemote, name, false);
    hide CreateRemote, AddRemote, SaveRemoteList, RemoteRecord;
    var h1 := CreateRemote(h, name);
    assert Step(h, Add(name)) == h1;
    assert CanRun(Step(h1, press), []);
    RunCons(h1, press, []);
    RunCons(h, Add(name), [press]);
    assert OneRemote(name, buttons, now) == [Add(name)] + ([press] + []);
  }

  lemma DeleteLast(h: House)
    requires h.remotes.Keys == {BASE_REMOTE_ID + 1} && h.blinds == map[] && h.disk.blinds == map[]
             && h.disk.blindIds == []
    requires h.disk.remotes.Keys == {1} && h.nextBlind == 1
    ensures Enabled(h, Delete(BASE_REMOTE_ID + 1))
    ensures Step(h, Delete(BASE_REMOTE_ID + 1)) == EmptyHouse(h.nextRemote, h.issued)
  {
    var t := DeleteRemote(h, BASE_REMOTE_ID + 1);
    DeleteRemoteEffect(h, BASE_REMOTE_ID + 1);
    assert t.remotes == map[] && t.disk.remotes == map[];
    assert Ascending({}) == [];
    assert t.disk.remoteIds == [] && t.disk.externalIds == [];
  }

  /** The same with a remote imported under the first id. */
  lemma ImportAndPress(name: Name, buttons: int, now: int)
    requires NameAllowed(name)
    ensures var h, ops := NewHouse(), [Import(BASE_REMOTE_ID + 1, name)] + OneRemote(name, buttons, now)[1..];
            && CanRun(h, ops)
            && var t := Run(h, ops);
               && t.issued == [Issue(BASE_REMOTE_ID + 1, 1, buttons, M.SHORT_PRESS, true)]
               && t.nextRemote == BASE_REMOTE_ID + 1 && t.nextBlind == 1 && t.remotes.Keys == {BASE_REMOTE_ID + 1}
               && t.blinds == map[] && t.disk.blinds == map[] && t.disk.blindIds == []
               && t.disk.remotes.Keys == {1}
  {
    var h := NewHouse();
    var press := PressRemote(BASE_REMOTE_ID + 1, buttons, M.SHORT_PRESS, now, true);
    AddRemoteEffect(h, BASE_REMOTE_ID + 1, name, true);
    hide AddRemote, SaveRemoteList, RemoteRecord;
    var h1 := ImportRemote(h, BASE_REMOTE_ID + 1, name);
    assert Step(h, Import(BASE_REMOTE_ID + 1, name)) == h1;
    assert CanRun(Step(h1, press), []);
    RunCons(h1, press, []);
    RunCons(h, Import(BASE_REMOTE_ID + 1, name), [press]);
    assert OneRemote(name, buttons, now)[1..] == [press] + [];
  }

  /** Create a remote, press it, delete it, restart, create another, press it. */
  function Reusing(name: Name, buttons: int, now: int): seq<Op> {
    OneRemote(name, buttons, now) + ([Delete(BASE_REMOTE_ID + 1)]
                                  + ([Restart(true, now)] + OneRemote(name, buttons, now)))
  }

  lemma DeleteRestartAdd(h: House, name: Name, buttons: int, now: int)
    requires Enabled(h, Delete(BASE_REMOTE_ID + 1)) && BASE_REMOTE_ID < h.nextRemote <= BASE_REMOTE_ID + 0x1_0000
    requires Step(h, Delete(BASE_REMOTE_ID + 1)) == EmptyHouse(h.nextRemote, h.issued) && NameAllowed(name)
    ensures var ops := [Delete(BASE_REMOTE_ID + 1)] + ([Restart(true, now)] + OneRemote(name, buttons, now));
            && CanRun(h, ops)
            && Run(h, ops).issued == h.issued + [Issue(BASE_REMOTE_ID + 1, 1, buttons, M.SHORT_PRESS, true)]
  {
    hide Step, Enabled, OneRemote;
    EmptyRestart(h.nextRemote, h.issued, now);
    AddAndPress(h.issued, name, buttons, now);
    RunCons(EmptyHouse(h.nextRemote, h.issued), Restart(true, now), OneRemote(name, buttons, now));
    RunCons(h, Delete(BASE_REMOTE_ID + 1), [Restart(true, now)] + OneRemote(name, buttons, now));
  }

  /** Then the new remote has the old one's radio id, and issues its codes again. */
  lemma ReusedIdRepeatsCodes(name: Name, buttons: int, now: int)
    requires NameAllowed(name)
    ensures CanRun(NewHouse(), Reusing(name, buttons, now))
    ensures Codes(Run(NewHouse(), Reusing(name, buttons, now)).issued, BASE_REMOTE_ID + 1) == [1, 1]
  {
    hide Step, Enabled, OneRemote;
    var ops := OneRemote(name, buttons, now);
    AddAndPress([], name, buttons, now);
    var h := Run(NewHouse(), ops);
    DeleteLast(h);
    DeleteRestartAdd(h, name, buttons, now);
    RunAppend(NewHouse(), ops, [Delete(BASE_REMOTE_ID + 1)] + ([Restart(true, now)] + ops));
    TwoCodes(Issue(BASE_REMOTE_ID + 1, 1, buttons, M.SHORT_PRESS, true));
  }

  lemma TwoCodes(i: Issue)
    ensures Codes([i] + [i], i.remoteId) == [i.rollingCode, i.rollingCode]
  {
    assert [i][..0] == [];
    assert Codes([i], i.remoteId) == [i.rollingCode];
    assert ([i] + [i])[..1] == [i];
  }

  /** And without a restart, if the first remote was imported under the first id. */
  lemma ImportedIdRepeatsCodes(name: Name, buttons: int, now: int)
    requires NameAllowed(name)
    ensures var one := OneRemote(name, buttons, now);
            var ops := [Import(BASE_REMOTE_ID + 1, name)] + one[1..] + ([Delete(BASE_REMOTE_ID + 1)] + one);
            CanRun(NewHouse(), ops) && Codes(Run(NewHouse(), ops).issued, BASE_REMOTE_ID + 1) == [1, 1]
  {
    hide Step, Enabled, OneRemote;
    var one := OneRemote(name, buttons, now);
    ImportAndPress(name, buttons, now);
    var first := [Import(BASE_REMOTE_ID + 1, name)] + one[1..];
    var h := Run(NewHouse(), first);
    DeleteLast(h);
    AddAndPress(h.issued, name, buttons, now);
    RunCons(h, Delete(BASE_REMOTE_ID + 1), one);
    RunAppend(NewHouse(), first, [Delete(BASE_REMOTE_ID + 1)] + one);
    TwoCodes(Issue(BASE_REMOTE_ID + 1, 1, buttons, M.SHORT_PRESS, true));
  }
}
