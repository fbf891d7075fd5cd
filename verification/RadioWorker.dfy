/** The outgoing queue between the main core and the radio core, as a state machine over the atomic
    steps of the main core, its callbacks, the radio core and the radio's receive interrupt. */
module RadioWorker {
  import opened Basics
  import opened Frames
  import opened ReceiveRing
  import opened CommandQueue

  const QUEUE_SIZE := 16

  datatype Outgoing = Outgoing(remoteId: bv32, rollingCode: bv16, button: bv32, repeat: u16) {
    /** What transmitting the command puts on air. */
    function Packets(): (p: seq<Packet>)
      ensures |p| == 2 + repeat
    {
      Transmission(Encode(remoteId, rollingCode, button), repeat)
    }
  }

  datatype Entry = Stop | Send(command: Outgoing) | Listen

  /** The radio core waits for an entry, is part-way through one, or has stopped for good. */
  datatype Worker = Waiting | Sending(command: Outgoing, packets: nat) | Receiving | Halted

  /** The main core has not asked for a shutdown, waits for room for the Stop marker, waits for the
      queue to empty, or has returned from `Shutdown`. */
  datatype Main = Running | Stopping | Draining | Returned

  /** `accepted` are the commands queued so far, `before` how many of them were when the Stop marker
      was queued, `sent` those fully transmitted, and `air` everything transmitted. */
  datatype State = State(queue: seq<Entry>, worker: Worker, main: Main,
                         accepted: seq<Outgoing>, before: nat, sent: seq<Outgoing>, air: seq<Packet>)

  const START := State([], Waiting, Running, [], 0, [], [])

  datatype Action =
    | QueueCommand(command: Outgoing)
    | QueueReceive
    | CallShutdown
    | AddStop
    | PollEmpty
    | Take
    | SendPacket
    | FinishReceive

  /** One atomic step; a step that is not possible changes nothing. */
  function Next(s: State, a: Action): State {
    match a
    case QueueCommand(c) =>
      if |s.queue| < QUEUE_SIZE then s.(queue := s.queue + [Send(c)], accepted := s.accepted + [c]) else s
    case QueueReceive =>
      if |s.queue| < QUEUE_SIZE then s.(queue := s.queue + [Listen]) else s
    case CallShutdown =>
      if s.main.Running? then s.(main := Stopping) else s
    case AddStop =>
      if s.main.Stopping? && |s.queue| < QUEUE_SIZE then
        s.(queue := s.queue + [Stop], main := Draining, before := |s.accepted|)
      else s
    case PollEmpty =>
      if s.main.Draining? && s.queue == [] then s.(main := Returned) else s
    case Take =>
      if s.worker.Waiting? && s.queue != [] then
        s.(queue := s.queue[1..],
           worker := match s.queue[0]
                     case Stop => Halted
                     case Send(c) => Sending(c, 0)
                     case Listen => Receiving)
      else s
    case SendPacket =>
      if s.worker.Sending? && s.worker.packets < |s.worker.command.Packets()| then
        var c, n := s.worker.command, s.worker.packets;
        var t := s.(air := s.air + [c.Packets()[n]]);
        if n + 1 == |c.Packets()| then t.(worker := Waiting, sent := s.sent + [c])
        else t.(worker := Sending(c, n + 1))
      else s
    case FinishReceive =>
      if s.worker.Receiving? then s.(worker := Waiting) else s
  }

  /** A command is accepted exactly if fewer than sixteen entries wait, and then goes last. */
  lemma AcceptedIff(s: State, c: Outgoing)
    ensures var t := Next(s, QueueCommand(c));
            if |s.queue| < 16 then t == s.(queue := s.queue + [Send(c)], accepted := s.accepted + [c]) else t == s
  {
  }

  function Run(s: State, actions: seq<Action>): State
    decreases actions
  {
    if actions == [] then s else Run(Next(s, actions[0]), actions[1..])
  }

  // ---------------------------------------------------------------- the invariant

  function Commands(q: seq<Entry>): seq<Outgoing> {
    if q == [] then []
    else (if q[0].Send? then [q[0].command] else []) + Commands(q[1..])
  }

  function OnAir(cs: seq<Outgoing>): seq<Packet> {
    if cs == [] then [] else OnAir(cs[..|cs| - 1]) + cs[|cs| - 1].Packets()
  }

  function Current(w: Worker): seq<Outgoing> {
    if w.Sending? then [w.command] else []
  }

  function Partial(w: Worker): seq<Packet> {
    if w.Sending? && w.packets <= |w.command.Packets()| then w.command.Packets()[..w.packets] else []
  }

  function Stops(q: seq<Entry>): nat {
    if q == [] then 0 else (if q[0].Stop? then 1 else 0) + Stops(q[1..])
  }

  /** The commands ahead of the first Stop marker. */
  function Ahead(q: seq<Entry>): seq<Outgoing> {
    if q == [] || q[0].Stop? then []
    else (if q[0].Send? then [q[0].command] else []) + Ahead(q[1..])
  }

  /** Nothing accepted is lost or reordered, and the air holds what was sent and nothing else. */
  ghost predicate InOrder(s: State) {
    && s.accepted == s.sent + Current(s.worker) + Commands(s.queue)
    && s.air == OnAir(s.sent) + Partial(s.worker)
    && (s.worker.Sending? ==> s.worker.packets < |s.worker.command.Packets()|)
  }

  /** There is one Stop marker: not yet queued, queued behind exactly the commands accepted before
      it, or taken by the radio core after it had sent exactly those. */
  ghost predicate StopInPlace(s: State) {
    if s.main.Running? || s.main.Stopping? then Stops(s.queue) == 0 && !s.worker.Halted?
    else if s.worker.Halted? then Stops(s.queue) == 0 && |s.sent| == s.before
    else
      && s.main.Draining? && Stops(s.queue) == 1
      && |s.sent| + |Current(s.worker)| + |Ahead(s.queue)| == s.before
  }

  ghost predicate Inv(s: State) {
    InOrder(s) && StopInPlace(s)
  }

  lemma {:induction false} QueueAppend(q: seq<Entry>, e: Entry)
    ensures Commands(q + [e]) == Commands(q) + (if e.Send? then [e.command] else [])
    ensures Stops(q + [e]) == Stops(q) + (if e.Stop? then 1 else 0)
    ensures Ahead(q + [e]) == if Stops(q) > 0 || !e.Send? then Ahead(q) else Ahead(q) + [e.command]
    ensures Stops(q) == 0 ==> Ahead(q) == Commands(q)
  {
    if q != [] {
      QueueAppend(q[1..], e);
      assert (q + [e])[1..] == q[1..] + [e];
    } else {
      assert (q + [e])[1..] == [];
    }
  }

  lemma SendPacketInv(s: State)
    requires Inv(s) && s.worker.Sending?
    ensures Inv(Next(s, SendPacket))
  {
    hide Outgoing.Packets;
    var c, n := s.worker.command, s.worker.packets;
    var p := c.Packets();
    assert p[..n] + [p[n]] == p[..n + 1];
    assert p[..|p|] == p;
    assert (s.sent + [c])[..|s.sent|] == s.sent;
    assert s.air + [p[n]] == OnAir(s.sent) + p[..n + 1];
  }

  lemma TakeInv(s: State)
    requires Inv(s)
    ensures Inv(Next(s, Take))
  {
    hide Outgoing.Packets, OnAir;
    if s.worker.Waiting? && s.queue != [] {
      assert s.queue == [s.queue[0]] + s.queue[1..];
    }
  }

  lemma EnqueueInv(s: State, a: Action)
    requires Inv(s) && (a.QueueCommand? || a.QueueReceive? || a.AddStop?)
    ensures Inv(Next(s, a))
  {
    hide Outgoing.Packets, OnAir, Partial, Commands, Stops, Ahead;
    QueueAppend(s.queue, if a.QueueCommand? then Send(a.command) else if a.QueueReceive? then Listen else Stop);
  }

  lemma NextInv(s: State, a: Action)
    requires Inv(s)
    ensures Inv(Next(s, a))
  {
    hide Outgoing.Packets, OnAir, Commands, Ahead;
    match a
    case QueueCommand(_) => EnqueueInv(s, a);
    case QueueReceive => EnqueueInv(s, a);
    case AddStop => EnqueueInv(s, a);
    case Take => TakeInv(s);
    case SendPacket => if s.worker.Sending? { SendPacketInv(s); }
    case FinishReceive =>
    case CallShutdown =>
    case PollEmpty =>
  }

  lemma {:induction false} RunInv(s: State, actions: seq<Action>)
    requires Inv(s)
    ensures Inv(Run(s, actions))
    decreases actions
  {
    hide Next, Inv;
    if actions != [] {
      NextInv(s, actions[0]);
      RunInv(Next(s, actions[0]), actions[1..]);
    }
  }

  // ---------------------------------------------------------------- results

  /** In every interleaving, when `Shutdown` has returned, the air holds the complete transmission
      of every command accepted before the Stop marker, in the order accepted, and nothing else. */
  lemma ShutdownDrains(actions: seq<Action>)
    requires Run(START, actions).main.Returned?
    ensures var s := Run(START, actions);
            s.before <= |s.accepted| && s.air == OnAir(s.accepted[..s.before])
  {
    RunInv(START, actions);
    var s := Run(START, actions);
    assert s.accepted[..s.before] == s.sent;
  }

  lemma {:induction false} OnAirAppend(a: seq<Outgoing>, b: seq<Outgoing>)
    ensures OnAir(a + b) == OnAir(a) + OnAir(b)
  {
    hide Outgoing.Packets;
    if b != [] {
      OnAirAppend(a, b[..|b| - 1]);
      assert (a + b)[..|a + b| - 1] == a + b[..|b| - 1];
    } else {
      assert a + b == a;
    }
  }

  /** At every moment the air holds a prefix of the transmissions of the accepted commands in order:
      nothing is reordered, repeated or skipped, and a frame is never cut short by another. */
  lemma AirInOrder(actions: seq<Action>)
    ensures var s := Run(START, actions); s.air <= OnAir(s.accepted)
  {
    assert Inv(START);
    hide Run, Outgoing.Packets, StopInPlace, Commands, Stops, Ahead;
    RunInv(START, actions);
    var s := Run(START, actions);
    var current, rest := Current(s.worker), Commands(s.queue);
    OnAirAppend(s.sent + current, rest);
    OnAirAppend(s.sent, current);
    if s.worker.Sending? {
      assert OnAir(current) == OnAir(current[..0]) + s.worker.command.Packets();
    }
  }

  // ---------------------------------------------------------------- frames on air

  /** The frames of a command on air, and the wake-up bursts. */
  function FramesOf(air: seq<Packet>, c: Command): nat {
    if air == [] then 0 else
      var p := air[|air| - 1];
      FramesOf(air[..|air| - 1], c) + (if p.Rts? && Decode(p.frame) == Some(c) then 1 else 0)
  }

  function Wakes(air: seq<Packet>): nat {
    if air == [] then 0 else Wakes(air[..|air| - 1]) + (if air[|air| - 1].Wake? then 1 else 0)
  }

  /** A command that receivers take for this one. */
  predicate IsHeardAs(o: Outgoing, c: Command) {
    KnownButton(LowButton(o.button)) && c == Taken(o.remoteId, o.rollingCode, o.button)
  }

  /** The frames that some commands call for: each one, and its repeats. */
  function FramesDue(cs: seq<Outgoing>, c: Command): nat {
    if cs == [] then 0 else
      var o := cs[|cs| - 1];
      FramesDue(cs[..|cs| - 1], c) + (if IsHeardAs(o, c) then 1 + o.repeat else 0)
  }

  lemma PacketsSend(o: Outgoing)
    ensures Sends(o.Packets(), o.remoteId, o.rollingCode, o.button, o.repeat)
  {
    hide Sends, Encode;
    TransmissionSends(o.remoteId, o.rollingCode, o.button, o.repeat);
  }

  lemma OnePacket(o: Outgoing, c: Command, n: nat)
    requires 0 < n <= |o.Packets()|
    ensures var p := o.Packets()[n - 1];
            if n == 1 then p.Wake? else p.Rts? && (Decode(p.frame) == Some(c) <==> IsHeardAs(o, c))
  {
    hide Outgoing.Packets, Decode, KnownButton, LowButton, Unchain, Taken;
    PacketsSend(o);
  }

  /** However much of a transmission is on air: its burst first, then frames of its command only. */
  lemma {:induction false} FramesOfPart(o: Outgoing, c: Command, n: nat)
    requires n <= |o.Packets()|
    ensures FramesOf(o.Packets()[..n], c) == if IsHeardAs(o, c) && n >= 1 then n - 1 else 0
    ensures Wakes(o.Packets()[..n]) == if n >= 1 then 1 else 0
  {
    hide Outgoing.Packets, Decode, IsHeardAs;
    if n > 0 {
      FramesOfPart(o, c, n - 1);
      OnePacket(o, c, n);
      assert o.Packets()[..n][..n - 1] == o.Packets()[..n - 1];
    }
  }

  lemma {:induction false} FramesAppend(a: seq<Packet>, b: seq<Packet>, c: Command)
    ensures FramesOf(a + b, c) == FramesOf(a, c) + FramesOf(b, c) && Wakes(a + b) == Wakes(a) + Wakes(b)
    decreases |b|
  {
    hide Decode;
    if b == [] {
      assert a + b == a;
    } else {
      FramesAppend(a, b[..|b| - 1], c);
      assert (a + b)[..|a + b| - 1] == a + b[..|b| - 1];
    }
  }

  lemma {:induction false} FramesOnAir(cs: seq<Outgoing>, c: Command)
    ensures FramesOf(OnAir(cs), c) == FramesDue(cs, c) && Wakes(OnAir(cs)) == |cs|
  {
    hide Outgoing.Packets, FramesOf, Wakes, IsHeardAs;
    if cs == [] {
      NoFrames(c);
    } else {
      var o := cs[|cs| - 1];
      FramesOnAir(cs[..|cs| - 1], c);
      FramesAppend(OnAir(cs[..|cs| - 1]), o.Packets(), c);
      FramesOfPart(o, c, |o.Packets()|);
      assert o.Packets()[..|o.Packets()|] == o.Packets();
    }
  }

  lemma NoFrames(c: Command)
    ensures FramesOf([], c) == 0 && Wakes([]) == 0
  {
  }

  /** When `Shutdown` has returned there is a burst on air for each command accepted before it, and, for each
      command receivers know, as many frames as those accepted call for: one each, and the repeats. */
  lemma ShutdownFrames(actions: seq<Action>, c: Command)
    requires Run(START, actions).main.Returned?
    ensures var s := Run(START, actions);
            && s.before <= |s.accepted| && Wakes(s.air) == s.before
            && FramesOf(s.air, c) == FramesDue(s.accepted[..s.before], c)
  {
    hide Run, OnAir, FramesOf, Wakes, FramesDue;
    ShutdownDrains(actions);
    var s := Run(START, actions);
    FramesOnAir(s.accepted[..s.before], c);
  }

  /** At every moment there are no more than that, and what is missing is still to be sent. */
  lemma FramesSoFar(actions: seq<Action>, c: Command)
    ensures var s := Run(START, actions);
            && FramesOf(s.air, c) <= FramesDue(s.accepted, c) && Wakes(s.air) <= |s.accepted|
            && (s.worker.Waiting? && s.queue == [] ==> FramesOf(s.air, c) == FramesDue(s.accepted, c))
  {
    hide Run, OnAir, FramesOf, Wakes, FramesDue, InOrder;
    var s := Run(START, actions);
    AirInOrder(actions);
    var rest := OnAir(s.accepted)[|s.air|..];
    assert OnAir(s.accepted) == s.air + rest;
    FramesOnAir(s.accepted, c);
    FramesAppend(s.air, rest, c);
    if s.worker.Waiting? && s.queue == [] {
      NothingLeft(actions);
    }
  }

  lemma NothingLeft(actions: seq<Action>)
    requires var s := Run(START, actions); s.worker.Waiting? && s.queue == []
    ensures Run(START, actions).air == OnAir(Run(START, actions).accepted)
  {
    assert Inv(START);
    hide Run, OnAir, StopInPlace;
    RunInv(START, actions);
    var s := Run(START, actions);
    assert s.sent + [] + [] == s.sent && OnAir(s.sent) + [] == OnAir(s.sent);
  }

  // ---------------------------------------------------------------- shutting down

  lemma {:induction false} HaltedStays(s: State, actions: seq<Action>)
    requires s.worker.Halted? && s.queue != [] && !s.main.Returned?
    ensures !Run(s, actions).main.Returned?
    decreases actions
  {
    if actions != [] {
      HaltedStays(Next(s, actions[0]), actions[1..]);
    }
  }

  /** Once the radio core has stopped, `Shutdown` can still return exactly if nothing was queued
      behind the Stop marker. */
  lemma ShutdownReturnsIff(s: State)
    requires s.worker.Halted? && s.main.Draining?
    ensures (exists actions :: Run(s, actions).main.Returned?) <==> s.queue == []
  {
    if s.queue == [] {
      assert Run(Next(s, PollEmpty), []).main.Returned?;
      assert Run(s, [PollEmpty]).main.Returned?;
    } else {
      forall actions
        ensures !Run(s, actions).main.Returned?
      {
        HaltedStays(s, actions);
      }
    }
  }

  /** That does happen: one late reception behind the Stop marker keeps `Shutdown` waiting for ever. */
  lemma LateReceiveHangs()
    ensures var s := Next(Next(Next(Next(START, CallShutdown), AddStop), QueueReceive), Take);
            s.worker.Halted? && s.main.Draining? && s.queue == [Listen]
  {
  }
}
