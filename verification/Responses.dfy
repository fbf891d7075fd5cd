/** What the requests and the buttons do, in the registry's own terms: which press is made and which blinds it
    reaches, what each of them then does, and what a change to a blind leaves after a restart. */
module Responses {
  import opened Basics
  import opened Records
  import opened House
  import opened HouseInvariant
  import opened HouseRestart
  import opened HouseRuns
  import opened LinkedBlinds
  import opened BlindMoves
  import opened BlindRecords
  import opened LostCodes
  import M = Motion

  // ---------------------------------------------------------------- the blinds a press reaches

  /** The blind has done what the button says, and is marked if it took the press. */
  predicate BlindObeys(b: Blind, t: Blind, button: int, longPress: bool, now: int) {
    && t.name == b.name && t.remoteId == b.remoteId
    && (|| (M.Obeys(b.motion, t.motion, true, button, longPress, now) && t.dirty)
        || (M.Obeys(b.motion, t.motion, false, button, longPress, now) && t.dirty == b.dirty))
  }

  /** Each blind on the list has done so, and every other is as it was. */
  ghost predicate Told(h: House, t: House, id: u32, button: int, longPress: bool, now: int)
    requires id in h.remotes
  {
    && t.blinds.Keys == h.blinds.Keys
    && forall b :: b in h.blinds ==>
         if b in h.remotes[id].blinds then BlindObeys(h.blinds[b], t.blinds[b], button, longPress, now)
         else t.blinds[b] == h.blinds[b]
  }

  lemma OnePressed(b: Blind, button: int, longPress: bool, now: int)
    ensures BlindObeys(b, PressBlind(b, button, longPress, now), button, longPress, now)
  {
    hide M.Obeys, M.ButtonsPressed;
    M.PressObeys(b.motion, button, longPress, now);
  }

  lemma ListTold(h: House, t: House, id: u32, button: int, longPress: bool, now: int)
    requires id in h.remotes && BlindsExist(h, id) && NoDuplicates(h.remotes[id].blinds)
    requires t.blinds == PressBlinds(h.blinds, h.remotes[id].blinds, button, longPress, now)
    ensures Told(h, t, id, button, longPress, now)
  {
    hide BlindObeys, PressBlind, PressBlinds, NoDuplicates;
    var ids := h.remotes[id].blinds;
    forall b | b in h.blinds
      ensures if b in ids then BlindObeys(h.blinds[b], t.blinds[b], button, longPress, now)
              else t.blinds[b] == h.blinds[b]
    {
      PressBlindsOnce(h.blinds, ids, button, longPress, now, b);
      OnePressed(h.blinds[b], button, longPress, now);
    }
  }

  lemma ListDistinct(h: House, id: u32)
    requires Inv(h) && id in h.remotes
    ensures NoDuplicates(h.remotes[id].blinds)
  {
    assert RemoteOk(h.disk.remotes, h.nextRemote, id, h.remotes[id]);
  }

  /** A frame of a known remote heard: the remote follows its code; each blind on its list does what the button
      says, a repeat count above 7 being a long press; nothing is issued or written, and everything else
      stays. */
  lemma HeardDoes(h: House, id: u32, code: u16, button: int, repeat: u16, now: int)
    requires Inv(h) && Enabled(h, Hear(id, code, button, repeat, now)) && id in h.remotes
    ensures var t := Step(h, Hear(id, code, button, repeat, now));
            && Told(h, t, id, button, repeat > 7, now)
            && t.remotes == h.remotes[id := h.remotes[id].(dirty := true, rollingCode := (code + 1) % 0x1_0000)]
            && t.issued == h.issued && t.disk == h.disk
            && t.nextRemote == h.nextRemote && t.nextBlind == h.nextBlind
  {
    hide Inv, PressBlinds, NoDuplicates, Told;
    ListDistinct(h, id);
    ListTold(h, Step(h, Hear(id, code, button, repeat, now)), id, button, repeat > 7, now);
  }

  /** Of a remote that is not known nothing is heard, and it cannot be pressed. */
  lemma UnknownRemote(h: House, id: u32, code: u16, button: int, repeat: u16, now: int, accepted: bool)
    requires id !in h.remotes
    ensures Step(h, Hear(id, code, button, repeat, now)) == h
    ensures Step(h, PressRemote(id, button, repeat, now, accepted)) == h
  {
  }

  /** A press made here: one command is issued under the code the remote holds, which advances; each blind on its
      list does what the button says, a repeat count above 3 being a long press. */
  ghost predicate Presses(h: House, t: House, id: u32, button: int, repeat: u16, now: int, accepted: bool) {
    && id in h.remotes && Told(h, t, id, button, repeat > 3, now)
    && t.issued == h.issued + [Issue(id, h.remotes[id].rollingCode, button, repeat, accepted)]
    && t.remotes == h.remotes[id := h.remotes[id].(dirty := true,
                                                   rollingCode := (h.remotes[id].rollingCode + 1) % 0x1_0000)]
    && t.disk == h.disk && t.nextRemote == h.nextRemote && t.nextBlind == h.nextBlind
  }

  lemma PressDoes(h: House, id: u32, button: int, repeat: u16, now: int, accepted: bool)
    requires Inv(h) && BlindsExist(h, id) && id in h.remotes
    ensures Presses(h, Press(h, id, button, repeat, now, accepted), id, button, repeat, now, accepted)
  {
    hide Inv, PressBlinds, NoDuplicates, Told;
    ListDistinct(h, id);
    ListTold(h, Press(h, id, button, repeat, now, accepted), id, button, repeat > 3, now);
  }

  // ---------------------------------------------------------------- a blind's own commands

  lemma OwnRemote(h: House, b: u32)
    requires Inv(h) && b in h.blinds
    ensures h.blinds[b].remoteId in h.remotes
  {
    PrimaryThere(h, b);
  }

  /** What each command presses on the blind's own remote: open is Up and close is Down; stop is My, if the blind
      counts as moving; going to the favourite is My, and saving it a long My, if it does not. Otherwise the
      command does nothing at all. */
  lemma CommandDoes(h: House, b: u32, c: BlindCommand, now: int, accepted: bool)
    requires Inv(h) && Enabled(h, Command(b, c, now, accepted))
    ensures var t, r, moving := Step(h, Command(b, c, now, accepted)), h.blinds[b].remoteId,
                                h.blinds[b].motion.direction != 0;
            && (c.GoUp? ==> Presses(h, t, r, M.UP, 3, now, accepted))
            && (c.GoDown? ==> Presses(h, t, r, M.DOWN, 3, now, accepted))
            && (c.Halt? ==> if moving then Presses(h, t, r, M.MY, 3, now, accepted) else t == h)
            && (c.GoToMyPosition? ==> if moving then t == h else Presses(h, t, r, M.MY, 3, now, accepted))
            && (c.SaveMyPosition? ==> if moving then t == h else Presses(h, t, r, M.MY, 12, now, accepted))
  {
    hide Inv, Press, Presses, BlindsExist;
    OwnRemote(h, b);
    var r := h.blinds[b].remoteId;
    PressDoes(h, r, M.UP, 3, now, accepted);
    PressDoes(h, r, M.DOWN, 3, now, accepted);
    PressDoes(h, r, M.MY, 3, now, accepted);
    PressDoes(h, r, M.MY, 12, now, accepted);
  }

  /** What a bound blind does on its own commands. */
  predicate Commanded(m: M.Motion, t: M.Motion, c: BlindCommand, now: int) {
    && (c.GoUp? ==> t == m.(target := 100, direction := 1, lastTick := now))
    && (c.GoDown? ==> t == m.(target := 0, direction := -1, lastTick := now))
    && (c.Halt? ==>
          if m.direction == 0 then t == m
          else t == m.(target := t.target, direction := 0, lastTick := now)
               && -0.5 <= t.target as real - m.position <= 0.5)
    && (c.GoToMyPosition? ==>
          if m.direction != 0 then t == m
          else t == m.(target := m.favourite, direction := if m.position < m.favourite as real then 1 else -1,
                       lastTick := now))
    && (c.SaveMyPosition? ==>
          if m.direction != 0 || !(0 < m.target < 100) then t == m
          else t == m.(favourite := m.target, lastTick := now))
  }

  lemma CommandMoves(h: House, b: u32, c: BlindCommand, now: int, accepted: bool)
    requires Inv(h) && Linked(h, b) && Enabled(h, Command(b, c, now, accepted))
    ensures var t := Step(h, Command(b, c, now, accepted));
            && b in t.blinds && t.blinds[b].remoteId == h.blinds[b].remoteId
            && Commanded(h.blinds[b].motion, t.blinds[b].motion, c, now)
  {
    hide Inv, Step, Enabled, NoDuplicates;
    CommandDoes(h, b, c, now, accepted);
    ListedByOwn(h, b);
  }

  /** The presses a command makes its remote issue. */
  function CommandPresses(m: M.Motion, c: BlindCommand): seq<int> {
    match c
    case GoUp => [M.UP]
    case GoDown => [M.DOWN]
    case Halt => if m.direction != 0 then [M.MY] else []
    case GoToMyPosition => if m.direction == 0 then [M.MY] else []
    case SaveMyPosition => if m.direction == 0 then [M.MY] else []
  }

  lemma CommandSends(h: House, b: u32, c: BlindCommand, now: int, accepted: bool)
    requires Inv(h) && Linked(h, b) && Enabled(h, Command(b, c, now, accepted))
    ensures var s := Step(h, Command(b, c, now, accepted));
            Inv(s) && Linked(s, b) && SentBy(h, s, b, CommandPresses(h.blinds[b].motion, c))
  {
    var op := Command(b, c, now, accepted);
    hide Inv, Step, Enabled, Linked, Buttons, Told, NoDuplicates, SameLinks, AllStorable;
    StorableBlinds(h);
    ListedByOwn(h, b);
    StepInv(h, op);
    StepSameLinks(h, op);
    SameLinked(h, Step(h, op), b);
    CommandDoes(h, b, c, now, accepted);
    ListedByOwn(Step(h, op), b);
    CommandMoves(h, b, c, now, accepted);
    IssuedOne(h, Step(h, op), h.blinds[b].remoteId);
  }

  lemma IssuedOne(h: House, t: House, r: u32)
    ensures forall code: u16, button: int, repeat: u16, accepted: bool ::
              t.issued == h.issued + [Issue(r, code, button, repeat, accepted)] ==>
                Buttons(t.issued, r) == Buttons(h.issued, r) + [button]
  {
    hide Buttons;
    forall code: u16, button: int, repeat: u16, accepted: bool |
      t.issued == h.issued + [Issue(r, code, button, repeat, accepted)]
      ensures Buttons(t.issued, r) == Buttons(h.issued, r) + [button]
    {
      ButtonsAppend(h.issued, Issue(r, code, button, repeat, accepted), r);
    }
  }

  /** Where a command sends a blind. */
  function CommandTarget(m: M.Motion, c: BlindCommand): int {
    if c.GoUp? then 100 else if c.GoDown? then 0 else m.favourite
  }

  /** The law of travel in the registry for open, close, and going to the favourite when stopped, unless the blind is
      thought to be there, between the ends. */
  lemma CommandInRun(h: House, b: u32, c: BlindCommand, now: int, accepted: bool, ops: seq<Op>)
    requires Inv(h) && Linked(h, b) && Enabled(h, Command(b, c, now, accepted))
    requires var m := h.blinds[b].motion;
             && (c.GoUp? || c.GoDown? || (c.GoToMyPosition? && m.direction == 0))
             && (c.GoToMyPosition? ==> !(m.position == m.favourite as real && 0 < m.favourite < 100))
    requires var s := Step(h, Command(b, c, now, accepted)); Inv(s) && CanRun(s, ops) && ElsewhereRun(s, ops, b)
    requires M.InOrder(now, TicksOf(ops, b))
    ensures M.Sane(h.blinds[b].motion)
    ensures var t, m := Run(Step(h, Command(b, c, now, accepted)), ops), h.blinds[b].motion;
            && Inv(t) && Linked(t, b)
            && Moved(h, t, b, CommandPresses(m, c), CommandTarget(m, c), now, TicksOf(ops, b))
  {
    hide Inv, Linked, M.Sane, M.InOrder, M.TravelLaw, Buttons, ElsewhereRun, Run, CanRun, Moved, Step, Enabled,
      SentBy;
    SaneMotion(h, b);
    var s := Step(h, Command(b, c, now, accepted));
    CommandSends(h, b, c, now, accepted);
    CommandMoves(h, b, c, now, accepted);
    CommandTravels(h.blinds[b].motion, s.blinds[b].motion, c, now, TicksOf(ops, b));
    SaneMotion(s, b);
    TravelInRun(h, s, b, CommandPresses(h.blinds[b].motion, c), CommandTarget(h.blinds[b].motion, c), now, ops);
  }

  lemma CommandTravels(m: M.Motion, t: M.Motion, c: BlindCommand, now: int, ticks: seq<int>)
    requires M.Sane(m) && Commanded(m, t, c, now) && M.InOrder(now, ticks)
    requires c.GoUp? || c.GoDown? || (c.GoToMyPosition? && m.direction == 0)
    requires c.GoToMyPosition? ==> !(m.position == m.favourite as real && 0 < m.favourite < 100)
    ensures M.TravelLaw(m, t, CommandTarget(m, c), now, ticks)
  {
    hide M.TravelLaw, M.InOrder;
    match c
    case GoUp => M.UpTravels(m, false, now, ticks);
    case GoDown => M.DownTravels(m, false, now, ticks);
    case _ => M.FavouriteTravels(m, now, ticks);
  }

  /** Where a button sends a blind that is not stopped by it. */
  function ButtonTarget(m: M.Motion, button: int): int {
    if button == M.UP then 100 else if button == M.DOWN then 0 else m.favourite
  }

  /** Sent off by a button, as the law of travel has it. */
  predicate SendsOff(m: M.Motion, button: int, longPress: bool) {
    || button == M.UP || button == M.DOWN
    || (button == M.MY && m.direction == 0 && !longPress
        && !(m.position == m.favourite as real && 0 < m.favourite < 100))
  }

  /** And in the registry for a button of a genuine remote, or of any remote a blind is bound to besides its own:
      the blind travels, and its own remote issues nothing but the My press on arrival. */
  lemma HeardInRun(h: House, b: u32, id: u32, code: u16, button: int, repeat: u16, now: int, ops: seq<Op>)
    requires Inv(h) && Linked(h, b) && Enabled(h, Hear(id, code, button, repeat, now))
    requires id in h.remotes && b in h.remotes[id].blinds && SendsOff(h.blinds[b].motion, button, repeat > 7)
    requires var s := Step(h, Hear(id, code, button, repeat, now)); Inv(s) && CanRun(s, ops) && ElsewhereRun(s, ops, b)
    requires M.InOrder(now, TicksOf(ops, b))
    ensures M.Sane(h.blinds[b].motion)
    ensures var t, m := Run(Step(h, Hear(id, code, button, repeat, now)), ops), h.blinds[b].motion;
            && Inv(t) && Linked(t, b)
            && Moved(h, t, b, [], ButtonTarget(m, button), now, TicksOf(ops, b))
  {
    hide Inv, Linked, M.Sane, M.InOrder, M.TravelLaw, ElsewhereRun, Run, CanRun, Moved, Step, Enabled, SendsOff;
    SaneMotion(h, b);
    var op := Hear(id, code, button, repeat, now);
    var s := Step(h, op);
    HeardSends(h, b, op);
    SaneMotion(s, b);
    ButtonTravels(h.blinds[b].motion, s.blinds[b].motion, button, repeat > 7, now, TicksOf(ops, b));
    TravelInRun(h, s, b, [], ButtonTarget(h.blinds[b].motion, button), now, ops);
  }

  lemma HeardSends(h: House, b: u32, op: Op)
    requires Inv(h) && Linked(h, b) && op.Hear? && Enabled(h, op) && op.id in h.remotes
    requires b in h.remotes[op.id].blinds && SendsOff(h.blinds[b].motion, op.button, op.repeat > 7)
    ensures var s := Step(h, op);
            && Linked(s, b) && SentBy(h, s, b, [])
            && M.Obeys(h.blinds[b].motion, s.blinds[b].motion, true, op.button, op.repeat > 7, op.now)
  {
    hide Inv, Linked, Step, Enabled, SameLinks, AllStorable, Buttons;
    StorableBlinds(h);
    ListedByOwn(h, b);
    StepSameLinks(h, op);
    SameLinked(h, Step(h, op), b);
    HeardDoes(h, op.id, op.rollingCode, op.button, op.repeat, op.now);
    ListedByOwn(Step(h, op), b);
  }

  lemma ButtonTravels(m: M.Motion, t: M.Motion, button: int, longPress: bool, now: int, ticks: seq<int>)
    requires M.Sane(m) && M.Obeys(m, t, true, button, longPress, now) && SendsOff(m, button, longPress)
    requires M.InOrder(now, ticks)
    ensures M.TravelLaw(m, t, ButtonTarget(m, button), now, ticks)
  {
    hide M.TravelLaw, M.InOrder;
    if button == M.UP {
      M.UpTravels(m, longPress, now, ticks);
    } else if button == M.DOWN {
      M.DownTravels(m, longPress, now, ticks);
    } else {
      M.FavouriteTravels(m, now, ticks);
    }
  }

  // ---------------------------------------------------------------- a move and a tick, as issued

  /** The one short press a request for a position makes on the blind's own remote, under the code it holds: Down for
      a position below and always for 0, Up for one above and always for 100; otherwise none. */
  lemma PositionIssues(h: House, b: u32, position: int, now: int, accepted: bool)
    requires Inv(h) && Enabled(h, SetPosition(b, position, now, accepted))
    ensures h.blinds[b].remoteId in h.remotes
    ensures var t, r, m := Step(h, SetPosition(b, position, now, accepted)), h.blinds[b].remoteId, h.blinds[b].motion;
            var p := if position > 100 then 100 else if position < 0 then 0 else position;
            var code := h.remotes[r].rollingCode;
            t.issued == h.issued
                        + (if p == 0 || p as real < m.position then [Issue(r, code, M.DOWN, 3, accepted)]
                           else if p == 100 || p as real > m.position then [Issue(r, code, M.UP, 3, accepted)] else [])
  {
    OwnRemote(h, b);
    var m, r := h.blinds[b].motion, h.blinds[b].remoteId;
    M.GoToTarget(m, position, now);
    PressRests(h, r, M.DOWN, 3, now, accepted, b);
    PressIssues(h, r, M.DOWN, 3, now, accepted);
    PressIssues(h, r, M.UP, 3, now, accepted);
    StorableBlinds(h);
    StorableAt(h, b);
    hide Inv, Press, AllStorable;
  }

  /** A press moves no blind at once. */
  lemma PressRests(h: House, id: u32, button: int, repeat: u16, now: int, accepted: bool, b: u32)
    requires Inv(h) && BlindsExist(h, id) && b in h.blinds
    ensures var t := Press(h, id, button, repeat, now, accepted);
            && b in t.blinds && t.blinds[b].motion.position == h.blinds[b].motion.position
            && t.blinds[b].remoteId == h.blinds[b].remoteId && BlindsExist(t, id)
  {
    if id in h.remotes {
      PressDoes(h, id, button, repeat, now, accepted);
    }
    hide Inv;
  }

  /** A tick makes one short My press, of a moving blind that it finds at a target between the ends, and no other. */
  lemma TickIssues(h: House, b: u32, now: int, accepted: bool)
    requires Inv(h) && Enabled(h, TickOp(b, now, accepted))
    ensures h.blinds[b].remoteId in h.remotes
    ensures var t, r, m := Step(h, TickOp(b, now, accepted)), h.blinds[b].remoteId, h.blinds[b].motion;
            t.issued == h.issued
                        + (if m.direction != 0 && M.Arrives(m, now) && 0 < m.target < 100
                           then [Issue(r, h.remotes[r].rollingCode, M.MY, 3, accepted)] else [])
  {
    OwnRemote(h, b);
    var m, r := h.blinds[b].motion, h.blinds[b].remoteId;
    PressIssues(SetMotion(h, b, m.(position := m.target as real)), r, M.MY, 3, now, accepted);
    hide Inv, Press;
  }

  // ---------------------------------------------------------------- binding

  /** After binding, the blind is on the remote's list, once more only if it was not there; unbinding takes it off
      and leaves the others. Nothing else changes. */
  lemma BindDoes(h: House, id: u32, b: u16)
    requires Inv(h) && id in h.remotes && b in h.blinds
    ensures var t, list := Step(h, Bind(id, b)), h.remotes[id].blinds;
            t == h.(remotes := h.remotes[id := h.remotes[id].(dirty := true,
                                                              blinds := if b in list then list else list + [b])])
    ensures var t, list := Step(h, Unbind(id, b)), h.remotes[id].blinds;
            && id in t.remotes
            && (forall x :: x in t.remotes[id].blinds <==> x in list && x != b)
            && t == h.(remotes := h.remotes[id := h.remotes[id].(dirty := true, blinds := t.remotes[id].blinds)])
  {
    ListDistinct(h, id);
    hide Inv, NoDuplicates, Without;
    var list := h.remotes[id].blinds;
    WithoutKeeps(list, b);
    forall x | x in list && x != b
      ensures x in Without(list, b)
    {
      WithoutOthers(list, b, x);
    }
  }

  /** Without the remote, or without the blind, neither does anything. */
  lemma BindNothing(h: House, id: u32, b: u16)
    requires id !in h.remotes || b !in h.blinds
    ensures Step(h, Bind(id, b)) == h && Step(h, Unbind(id, b)) == h
  {
  }

  /** A blind bound to any remote follows its buttons. */
  lemma BoundObeys(h: House, id: u32, b: u16, button: int, repeat: u16, now: int, accepted: bool)
    requires Inv(h) && id in h.remotes && b in h.blinds && BlindsExist(h, id)
    ensures var s := Step(h, Bind(id, b));
            && Enabled(s, PressRemote(id, button, repeat, now, accepted))
            && var t := Step(s, PressRemote(id, button, repeat, now, accepted));
               b in t.blinds && BlindObeys(h.blinds[b], t.blinds[b], button, repeat > 3, now)
  {
    hide Inv, Press, BlindObeys, NoDuplicates;
    BindDoes(h, id, b);
    StepInv(h, Bind(id, b));
    var s := Step(h, Bind(id, b));
    PressDoes(s, id, button, repeat, now, accepted);
  }

  // ---------------------------------------------------------------- adding and naming remotes

  /** A remote is added under the next id with the name asked for, code 1, and no blinds, and the id advances; the
      name must have 1 to 47 characters, none of them a double quote or a NUL, or nothing happens. Other
      remotes, the blinds and what was issued stay. */
  lemma AddDoes(h: House, name: seq<Byte>)
    requires Inv(h) && Enabled(h, Add(name))
    ensures var t := Step(h, Add(name));
            if 0 < |name| < 48 && 0x22 !in name && 0 !in name then
              && t.remotes == h.remotes[h.nextRemote := Remote(name, 1, [], false, false)]
              && t.nextRemote == h.nextRemote + 1
              && t.blinds == h.blinds && t.nextBlind == h.nextBlind && t.issued == h.issued
            else t == h
  {
    hide Inv, CreateRemote, CanCreate;
    if NameAllowed(name) {
      NextIsValid(h);
      IdsLeft(h);
      CreateRemoteEffect(h, name);
    }
  }

  /** A genuine remote is added under its own id, unless there is one of this id. */
  lemma ImportDoes(h: House, id: u32, name: seq<Byte>)
    requires Enabled(h, Import(id, name))
    ensures var t := Step(h, Import(id, name));
            if 0 < |name| < 48 && 0x22 !in name && 0 !in name && id !in h.remotes then
              && t.remotes == h.remotes[id := Remote(name, 1, [], true, false)] && t.nextRemote == h.nextRemote
              && t.blinds == h.blinds && t.nextBlind == h.nextBlind && t.issued == h.issued
            else t == h
  {
    hide AddRemote;
    if NameAllowed(name) && id !in h.remotes {
      AddRemoteEffect(h, id, name, true);
    }
  }

  /** A remote is renamed if there is one and the name is allowed; nothing else of it changes, nor anything else. */
  lemma RenameDoes(h: House, id: u32, name: seq<Byte>)
    ensures var t := Step(h, Rename(id, name));
            if 0 < |name| < 48 && 0x22 !in name && 0 !in name && id in h.remotes then
              var r := h.remotes[id];
              t == h.(remotes := h.remotes[id := Remote(name, r.rollingCode, r.blinds, r.external, true)])
            else t == h
  {
  }

  // ---------------------------------------------------------------- changing and adding blinds

  /** A change to a blind: its name and both its times are those asked for, and its remote has the name; where it
      is, where it goes and every other remote and blind stay. */
  lemma ChangeDoes(h: House, b: u16, name: Name, openTime: int, closeTime: int)
    requires Inv(h) && b in h.blinds && Enabled(h, ChangeBlind(b, name, openTime, closeTime))
    ensures h.blinds[b].remoteId in h.remotes
    ensures var t, r, m := Step(h, ChangeBlind(b, name, openTime, closeTime)), h.blinds[b].remoteId, h.blinds[b].motion;
            && t.blinds == h.blinds[b as u32 := Blind(name, r, M.Motion(openTime, closeTime, m.target, m.favourite,
                                                                        m.position, m.direction, m.lastTick), true)]
            && t.remotes == h.remotes[r := Remote(name, h.remotes[r].rollingCode, h.remotes[r].blinds,
                                                  h.remotes[r].external, true)]
            && t.disk == h.disk && t.issued == h.issued
            && t.nextRemote == h.nextRemote && t.nextBlind == h.nextBlind
  {
    OwnRemote(h, b);
    hide Inv;
  }

  lemma ChangeNothing(h: House, b: u16, name: Name, openTime: int, closeTime: int)
    requires b !in h.blinds && Enabled(h, ChangeBlind(b, name, openTime, closeTime))
    ensures Step(h, ChangeBlind(b, name, openTime, closeTime)) == h
  {
  }

  /** The registry after its timers have saved everything that changed. */
  ghost function Saved(h: House): House
    requires Inv(h)
  {
    StorableBlinds(h);
    StepInv(h, SaveRemotesOp);
    StorableBlinds(Step(h, SaveRemotesOp));
    Step(Step(h, SaveRemotesOp), SaveBlindsOp)
  }

  /** The name and the times of a blind and its remote, as asked for, with the blind resting at its target. */
  predicate IsSo(u: House, b: u32, r: u32, name: Name, openTime: int, closeTime: int, target: int, favourite: int) {
    && b in u.blinds && u.blinds[b].name == name && u.blinds[b].remoteId == r
    && r in u.remotes && u.remotes[r].name == name
    && var m := u.blinds[b].motion;
       && m.openTime == openTime && m.closeTime == closeTime && m.target == target && m.favourite == favourite
       && m.position == target as real && m.direction == 0
  }

  lemma SavedComesBack(h: House, b: u32, now: int)
    requires Inv(h) && b in h.blinds && h.blinds[b].dirty
    ensures h.blinds[b].remoteId in h.remotes
    ensures var s, x, m := Saved(h), h.blinds[b], h.blinds[b].motion;
            && Inv(s) && Enabled(s, Restart(false, now))
            && var u := Step(s, Restart(false, now));
               && b in u.blinds && u.blinds[b].name == x.name && u.blinds[b].remoteId == x.remoteId
               && u.blinds[b].motion == M.Motion(m.openTime, m.closeTime, m.target, m.favourite, m.target as real, 0,
                  now)
               && x.remoteId in u.remotes && u.remotes[x.remoteId].name == h.remotes[x.remoteId].name
  {
    hide Inv, SaveRemotes, SaveBlinds, AllStorable, Reload, Bootable, Coherent, ReloadedRemotes, Ascending;
    OwnRemote(h, b);
    StorableBlinds(h);
    var g := Step(h, SaveRemotesOp);
    StepInv(h, SaveRemotesOp);
    SavedRemotesAreClean(h);
    RemotesSaved(h, b);
    StorableBlinds(g);
    var s := Step(g, SaveBlindsOp);
    StepInv(g, SaveBlindsOp);
    SaveBlindsKeeps(g, Ascending(g.blinds.Keys), false);
    SavedThenLostIff(g, b, now);
    LossGives(s, now, h.blinds[b].remoteId);
  }

  lemma RemotesSaved(h: House, b: u32)
    requires Inv(h) && b in h.blinds && h.blinds[b].dirty && h.blinds[b].remoteId in h.remotes
    ensures var g := Step(h, SaveRemotesOp);
            && b in g.blinds && g.blinds[b] == h.blinds[b] && Coherent(g.disk.blinds, g.blinds, b)
            && g.remotes.Keys == h.remotes.Keys
            && g.remotes[h.blinds[b].remoteId].name == h.remotes[h.blinds[b].remoteId].name
  {
    hide Inv, SaveRemotes, Ascending, Coherent;
    SaveRemotesKeeps(h, Ascending(h.remotes.Keys));
    SaveRemotesEffect(h, Ascending(h.remotes.Keys));
    MarkedCoherent(h, h.disk.blinds, b);
  }

  /** A blind marked for saving may be recorded as anything. */
  lemma MarkedCoherent(h: House, records: map<u16, BlindConfig>, b: u32)
    requires Inv(h) && b in h.blinds && h.blinds[b].dirty
    ensures Coherent(records, h.blinds, b)
  {
    hide RemotesOk, ListsOk, BlindListOk;
    BlindIdsSmall(h.disk.blinds, h.remotes, h.blinds, h.nextBlind);
    assert BlindOk(h.disk.blinds, h.remotes, h.nextBlind, b, h.blinds[b]);
  }

  /** A blind read from its record rests at the position that was its target; a favourite out of range is put at 50. */
  lemma LoadedRests(cfg: BlindConfig, now: int)
    ensures var b := LoadedBlind(cfg, now);
            && b == Blind(cfg.name, cfg.remoteId,
                          M.Motion(cfg.openTime, cfg.closeTime, cfg.currentPosition, b.motion.favourite,
                                   cfg.currentPosition as real, 0, now), false)
            && b.motion.favourite == if 0 <= cfg.myPosition <= 100 then cfg.myPosition else 50
  {
  }

  /** So it is after the timed saves and a loss of power. */
  lemma ChangeSurvives(h: House, b: u16, name: Name, openTime: int, closeTime: int, now: int)
    requires Inv(h) && b in h.blinds && Enabled(h, ChangeBlind(b, name, openTime, closeTime))
    ensures var t, r, m := Step(h, ChangeBlind(b, name, openTime, closeTime)), h.blinds[b].remoteId, h.blinds[b].motion;
            && Inv(t) && Enabled(Saved(t), Restart(false, now))
            && IsSo(Step(Saved(t), Restart(false, now)), b, r, name, openTime, closeTime, m.target, m.favourite)
  {
    hide Inv, Enabled, Step, Saved;
    ChangeDoes(h, b, name, openTime, closeTime);
    StepInv(h, ChangeBlind(b, name, openTime, closeTime));
    SavedComesBack(Step(h, ChangeBlind(b, name, openTime, closeTime)), b, now);
  }

  /** A blind as it is added: named and timed as asked for, under a new remote of that name, resting at 90 percent
      with its favourite at 50. */
  lemma NewBlindIs(h: House, name: Name, openTime: int, closeTime: int, now: int)
    requires Inv(h) && Enabled(h, NewBlindOp(name, openTime, closeTime, now))
    ensures var t := Step(h, NewBlindOp(name, openTime, closeTime, now));
            Inv(t) && IsSo(t, h.nextBlind, h.nextRemote, name, openTime, closeTime, 90, 50)
  {
    hide Inv, AddBlind, CanCreate;
    NewBlindRecorded(h, name, openTime, closeTime, now);
    StepInv(h, NewBlindOp(name, openTime, closeTime, now));
  }

  /** And so it is after any restart, clean or not, although nothing was saved after the addition. */
  lemma NewBlindComesBack(h: House, name: Name, openTime: int, closeTime: int, now: int, clean: bool, later: int)
    requires Inv(h) && Enabled(h, NewBlindOp(name, openTime, closeTime, now))
    ensures var t := Step(h, NewBlindOp(name, openTime, closeTime, now));
            && Inv(t) && Enabled(t, Restart(clean, later))
            && IsSo(Step(t, Restart(clean, later)), h.nextBlind, h.nextRemote, name, openTime, closeTime, 90, 50)
  {
    hide Inv, AddBlind, CanCreate, AllStorable, Bootable, Shutdown, Reload, Low;
    var t := AddBlind(h, name, openTime, closeTime, now);
    NewBlindRecorded(h, name, openTime, closeTime, now);
    StepInv(h, NewBlindOp(name, openTime, closeTime, now));
    StorableBlinds(t);
    if clean {
      CleanBlind(t, h.nextBlind, h.nextRemote, later);
    } else {
      LostBlind(t, h.nextBlind, h.nextRemote, later);
    }
  }

  lemma CleanBlind(t: House, b: u32, r: u32, later: int)
    requires Inv(t) && AllStorable(t.blinds) && b in t.blinds && r in t.remotes
    ensures Bootable(Shutdown(t).disk)
    ensures var u := Reload(Shutdown(t).disk, later, t.issued);
            && b in u.blinds && u.blinds[b] == RestartedBlind(t.blinds[b], later)
            && r in u.remotes && u.remotes[r].name == t.remotes[r].name
  {
    hide Inv, Shutdown, Reload, Bootable, AllStorable, RestartedBlind;
    CleanRestart(t, later);
  }

  lemma LostBlind(t: House, b: u32, r: u32, later: int)
    requires Inv(t) && b in t.blinds && r in t.remotes
    ensures Bootable(t.disk) && b in t.disk.blinds && Low(r) in t.disk.remotes
    ensures var u := Reload(t.disk, later, t.issued);
            && b in u.blinds && u.blinds[b] == LoadedBlind(t.disk.blinds[b], later)
            && r in u.remotes && u.remotes[r].name == t.disk.remotes[Low(r)].name
  {
    hide Inv, Reload, Bootable, AllStorable, LoadedBlind, Low;
    ReloadInv(t, later);
    LossGives(t, later, r);
  }

  lemma NewBlindRecorded(h: House, name: Name, openTime: int, closeTime: int, now: int)
    requires Inv(h) && CanCreate(h)
    requires h.nextBlind < 0x1_0000 && 0 < openTime < 0x8000_0000 && 0 < closeTime < 0x8000_0000
    ensures var t := AddBlind(h, name, openTime, closeTime, now);
            && h.nextBlind in t.blinds && h.nextRemote in t.remotes
            && t.blinds[h.nextBlind] == Blind(name, h.nextRemote,
               M.Motion(openTime, closeTime, 90, 50, 90.0, 0, now), false)
            && t.remotes[h.nextRemote].name == name
            && Low(h.nextRemote) in t.disk.remotes && t.disk.remotes[Low(h.nextRemote)].name == name
            && h.nextBlind in t.disk.blinds
            && t.disk.blinds[h.nextBlind] == BlindConfig(name, 90, 50, openTime, closeTime, h.nextRemote)
  {
    hide Inv, CreateRemote, AttachBlind, CanCreate, Low;
    NextIsValid(h);
    IdsLeft(h);
    CreateRemoteEffect(h, name);
    AttachEffect(CreateRemote(h, name), NewBlind(name, h.nextRemote, openTime, closeTime, now));
  }
}
