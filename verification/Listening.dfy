/** The receive queue and the registry together: what the main loop makes of the frames of other remotes. */
module Listening {
  import opened Basics
  import F = Frames
  import V = ReceiveRing
  import opened House
  import opened HouseInvariant
  import R = HouseRuns
  import opened RollingCodes
  import opened Words
  import P = Responses

  datatype Listener = Listener(house: House, ring: V.Ring)

  /** An event in the house, a frame received on the radio core, and the main loop looking for a command. */
  datatype Event = InHouse(op: R.Op) | OnAir(frame: F.Frame, now: int) | Poll(now: int)

  /** A command handed on, as the registry hears it. */
  function Hears(c: F.Command, repeat: u16, now: int): R.Op {
    R.Hear(Number32(c.remoteId), Number16(c.rollingCode), Number8(c.button), repeat, now)
  }

  function HearsEach(d: seq<V.Delivery>): seq<R.Op> {
    if d == [] then [] else [Hears(d[0].entry.command, d[0].entry.repeat, d[0].time)] + HearsEach(d[1..])
  }

  /** What an event is to the registry: a command is heard exactly when the queue hands it on. */
  function HouseOps(ring: V.Ring, e: Event): seq<R.Op> {
    match e
    case InHouse(op) => [op]
    case OnAir(_, _) => []
    case Poll(now) =>
      if V.Ready(ring.queue, now) then [Hears(ring.queue[0].command, ring.queue[0].repeat, now)] else []
  }

  /** What it is to the queue, which a restart empties. */
  function RingAfter(ring: V.Ring, e: Event): V.Ring {
    match e
    case InHouse(op) => if op.Restart? then V.EMPTY else ring
    case OnAir(frame, now) => V.Step(ring, V.Recv(frame, now))
    case Poll(now) => V.Step(ring, V.Read(now))
  }

  /** Nothing but the queue makes the registry hear a command. */
  ghost predicate Possible(l: Listener, e: Event) {
    (e.InHouse? ==> !e.op.Hear?) && R.CanRun(l.house, HouseOps(l.ring, e))
  }

  ghost function After(l: Listener, e: Event): Listener
    requires Possible(l, e)
  {
    Listener(R.Run(l.house, HouseOps(l.ring, e)), RingAfter(l.ring, e))
  }

  ghost predicate CanHappen(l: Listener, es: seq<Event>)
    decreases es
  {
    es != [] ==> Possible(l, es[0]) && CanHappen(After(l, es[0]), es[1..])
  }

  ghost function Happen(l: Listener, es: seq<Event>): Listener
    requires CanHappen(l, es)
    decreases es
  {
    if es == [] then l else Happen(After(l, es[0]), es[1..])
  }

  function AllOps(ring: V.Ring, es: seq<Event>): seq<R.Op>
    decreases es
  {
    if es == [] then [] else HouseOps(ring, es[0]) + AllOps(RingAfter(ring, es[0]), es[1..])
  }

  function RingEvent(e: Event): seq<V.Event> {
    match e
    case InHouse(_) => []
    case OnAir(frame, now) => [V.Recv(frame, now)]
    case Poll(now) => [V.Read(now)]
  }

  function RingEvents(es: seq<Event>): seq<V.Event> {
    if es == [] then [] else RingEvent(es[0]) + RingEvents(es[1..])
  }

  ghost predicate NoRestart(es: seq<Event>) {
    forall i :: 0 <= i < |es| ==> !(es[i].InHouse? && es[i].op.Restart?)
  }

  // ---------------------------------------------------------------- either side of a run

  /** Seen from the house, it is one of its runs. */
  lemma {:induction false} HappenIsRun(l: Listener, es: seq<Event>)
    requires CanHappen(l, es)
    ensures R.CanRun(l.house, AllOps(l.ring, es)) && Happen(l, es).house == R.Run(l.house, AllOps(l.ring, es))
    decreases es
  {
    hide R.CanRun, R.Run, HouseOps, RingAfter;
    if es == [] {
      NoOps(l.house);
    } else {
      HappenIsRun(After(l, es[0]), es[1..]);
      R.RunAppend(l.house, HouseOps(l.ring, es[0]), AllOps(RingAfter(l.ring, es[0]), es[1..]));
    }
  }

  lemma NoOps(h: House)
    ensures R.CanRun(h, []) && R.Run(h, []) == h
  {
  }

  /** Seen from the queue, it is one of its runs, as long as there is no restart. */
  lemma {:induction false} HappenIsRingRun(l: Listener, es: seq<Event>)
    requires CanHappen(l, es) && NoRestart(es)
    ensures Happen(l, es).ring == V.Run(l.ring, RingEvents(es))
    decreases es
  {
    hide V.Step, V.Run, Possible, HouseOps, R.Run, RingAfter, RingEvent;
    if es == [] {
      RunNothing(l.ring);
    } else {
      assert !(es[0].InHouse? && es[0].op.Restart?);
      OneRingStep(l.ring, es[0]);
      HappenIsRingRun(After(l, es[0]), es[1..]);
      V.RunSplit(l.ring, RingEvent(es[0]), RingEvents(es[1..]));
    }
  }

  lemma RunNothing(ring: V.Ring)
    ensures V.Run(ring, []) == ring
  {
  }

  lemma OneRingStep(ring: V.Ring, e: Event)
    requires !(e.InHouse? && e.op.Restart?)
    ensures RingAfter(ring, e) == V.Run(ring, RingEvent(e))
  {
    hide V.Step, V.Run;
    RunNothing(ring);
    match e
    case InHouse(_) =>
    case OnAir(frame, now) => V.RunOne(ring, V.Recv(frame, now));
    case Poll(now) => V.RunOne(ring, V.Read(now));
  }

  predicate IsHear(op: R.Op) {
    op.Hear?
  }

  function HeardOps(ops: seq<R.Op>): seq<R.Op> {
    if ops == [] then [] else (if IsHear(ops[0]) then [ops[0]] else []) + HeardOps(ops[1..])
  }

  lemma {:induction false} HeardAppend(a: seq<R.Op>, b: seq<R.Op>)
    ensures HeardOps(a + b) == HeardOps(a) + HeardOps(b)
    decreases a
  {
    if a == [] {
      assert a + b == b;
    } else {
      assert (a + b)[1..] == a[1..] + b;
      HeardAppend(a[1..], b);
    }
  }

  /** The registry hears exactly the commands handed on, each once, in order, with its repeat count. */
  lemma {:induction false} HearsDeliveries(l: Listener, es: seq<Event>)
    requires CanHappen(l, es) && NoRestart(es)
    ensures l.ring.delivered <= Happen(l, es).ring.delivered
    ensures HeardOps(AllOps(l.ring, es)) == HearsEach(Happen(l, es).ring.delivered[|l.ring.delivered|..])
    decreases es
  {
    hide V.Ready, Hears, R.Run, R.CanRun;
    if es != [] {
      var e, s, end := es[0], After(l, es[0]), Happen(l, es).ring.delivered;
      var n := |l.ring.delivered|;
      HearsDeliveries(s, es[1..]);
      OneHeard(l.ring, e);
      assert !(es[0].InHouse? && es[0].op.Restart?);
      HeardAppend(HouseOps(l.ring, e), AllOps(RingAfter(l.ring, e), es[1..]));
      if |s.ring.delivered| > n {
        assert end[n..][1..] == end[n + 1..];
        assert s.ring.delivered[n] == end[n];
      }
    }
  }

  /** An event hands on one command or none. */
  lemma OneHeard(ring: V.Ring, e: Event)
    requires e.InHouse? ==> !e.op.Hear? && !e.op.Restart?
    ensures var t := RingAfter(ring, e);
            if e.Poll? && V.Ready(ring.queue, e.now) then
              var d := V.Delivery(ring.queue[0], e.now);
              && t.delivered == ring.delivered + [d]
              && HeardOps(HouseOps(ring, e)) == [Hears(d.entry.command, d.entry.repeat, d.time)]
            else t.delivered == ring.delivered && HeardOps(HouseOps(ring, e)) == []
  {
    hide V.Insert, F.Decode;
    assert forall op: R.Op :: HeardOps([op]) == if IsHear(op) then [op] else [];
  }

  // ---------------------------------------------------------------- one delivery

  lemma {:induction false} HappenSplit(l: Listener, es: seq<Event>, k: nat)
    requires CanHappen(l, es) && k < |es|
    ensures CanHappen(l, es[..k]) && Possible(Happen(l, es[..k]), es[k])
    ensures CanHappen(l, es[..k + 1]) && Happen(l, es[..k + 1]) == After(Happen(l, es[..k]), es[k])
    decreases k
  {
    hide Possible, HouseOps, RingAfter, R.Run;
    if k == 0 {
      assert es[..0] == [];
      assert es[..1] == [es[0]];
      OneEvent(l, es[0]);
    } else {
      assert es[..k][1..] == es[1..][..k - 1];
      assert es[..k + 1][1..] == es[1..][..k];
      HappenSplit(After(l, es[0]), es[1..], k - 1);
    }
  }

  lemma OneEvent(l: Listener, e: Event)
    requires Possible(l, e)
    ensures CanHappen(l, [e]) && Happen(l, [e]) == After(l, e)
  {
    hide Possible, After;
    assert Happen(l, [e]) == Happen(After(l, e), []);
  }

  /** Every command handed on in a run was handed on by one look of the main loop. */
  lemma {:induction false} DeliveredBy(l: Listener, es: seq<Event>, i: nat) returns (k: nat)
    requires CanHappen(l, es) && NoRestart(es) && |l.ring.delivered| <= i < |Happen(l, es).ring.delivered|
    ensures k < |es| && es[k].Poll? && CanHappen(l, es[..k])
    ensures var before, d := Happen(l, es[..k]), Happen(l, es).ring.delivered[i];
            && V.Ready(before.ring.queue, es[k].now) && |before.ring.delivered| == i
            && before.ring.queue[0] == d.entry && d.time == es[k].now
    decreases es
  {
    hide V.Ready, Hears, R.Run, R.CanRun, V.Step, HearsEach, HeardOps;
    var s, n := After(l, es[0]), |l.ring.delivered|;
    assert !(es[0].InHouse? && es[0].op.Restart?);
    OneHeard(l.ring, es[0]);
    HearsDeliveries(s, es[1..]);
    if |s.ring.delivered| > i {
      k := 0;
      assert es[..0] == [];
      assert s.ring.delivered[i] == Happen(l, es).ring.delivered[i];
    } else {
      k := DeliveredBy(s, es[1..], i);
      k := k + 1;
      assert es[..k][1..] == es[1..][..k - 1];
    }
  }

  /** What handing on a command does to the registry: the remote it names, if it is a known one, follows its
      code. */
  lemma HandOn(l: Listener, now: int)
    requires Possible(l, Poll(now)) && l.ring.queue != [] && V.Ready(l.ring.queue, now)
    ensures var e, t := l.ring.queue[0], After(l, Poll(now));
            && R.Enabled(l.house, Hears(e.command, e.repeat, now))
            && t.house == R.Step(l.house, Hears(e.command, e.repeat, now))
            && t.house.remotes.Keys == l.house.remotes.Keys
            && (Number32(e.command.remoteId) in l.house.remotes ==>
                  var r := t.house.remotes[Number32(e.command.remoteId)];
                  r.dirty && r.rollingCode == (Number16(e.command.rollingCode) + 1) % 0x1_0000)
  {
    hide Number32, Number16, Number8, V.Ready, PressBlinds;
    var op := Hears(l.ring.queue[0].command, l.ring.queue[0].repeat, now);
    assert [op] + [] == [op];
    R.RunFirst(l.house, op, []);
    NoOps(R.Step(l.house, op));
  }

  // ---------------------------------------------------------------- a burst

  /** A burst of frames of one command, received as `BurstDelivery` of the receive queue wants it, whatever
      happens in the house meanwhile short of a restart, and looks of the main loop enough to hand it on. */
  ghost predicate BurstHeard(ring: V.Ring, es: seq<Event>, first: V.Event, burst: seq<V.Event>, rest: seq<V.Event>) {
    && NoRestart(es) && RingEvents(es) == [first] + burst + rest
    && V.Consistent(ring) && V.BurstAfter(ring, first, burst)
    && V.Closed(V.Run(ring, [first] + burst), rest, |V.History(ring)|)
    && (forall e :: e in ring.queue ==> e.lastMsgTime <= first.now)
    && V.Reads(rest, V.BurstEnd(burst, first.now) + V.QUIET_TIME)
       > |V.History(ring)| - |V.Run(ring, [first] + burst).delivered|
  }

  /** A burst is heard by the registry as one press: one look of the main loop, no sooner than a quiet time
      after the burst's last frame, hands it on with the count of the whole burst, and the remote it names, if
      known, then holds the code after the one heard. */
  lemma BurstIsOnePress(l: Listener, es: seq<Event>, first: V.Event, burst: seq<V.Event>, rest: seq<V.Event>)
    returns (k: nat)
    requires CanHappen(l, es) && BurstHeard(l.ring, es, first, burst, rest)
    ensures first.Recv? && F.Decode(first.frame).Some?
    ensures k < |es| && es[k].Poll? && es[k].now >= V.BurstEnd(burst, first.now) + V.QUIET_TIME
    ensures CanHappen(l, es[..k]) && CanHappen(l, es[..k + 1])
    ensures var h, t := Happen(l, es[..k]).house, Happen(l, es[..k + 1]).house;
            var c := F.Decode(first.frame).value;
            && V.Count(burst, c) <= 0xFFFF && R.Enabled(h, Hears(c, V.Count(burst, c), es[k].now))
            && t == R.Step(h, Hears(c, V.Count(burst, c), es[k].now))
            && t.remotes.Keys == h.remotes.Keys
            && (Number32(c.remoteId) in h.remotes ==>
                  t.remotes[Number32(c.remoteId)].rollingCode == (Number16(c.rollingCode) + 1) % 0x1_0000)
  {
    hide CanHappen, Happen, V.Run, V.Closed, V.Burst, V.Reads, V.BurstEnd, F.Decode, RingEvents, Possible, After,
      Hears, R.Enabled, R.Step, NoRestart, V.Consistent;
    var i := |V.History(l.ring)|;
    V.BurstDelivery(l.ring, first, burst, rest);
    HappenIsRingRun(l, es);
    k := DeliveredBy(l, es, i);
    HappenSplit(l, es, k);
    HandOn(Happen(l, es[..k]), es[k].now);
  }

  /** And the blinds on that remote's list do what the button heard says, once: as for a long press exactly if the
      burst had more than seven repeats. All other blinds stay. */
  lemma BurstMovesBlinds(l: Listener, es: seq<Event>, first: V.Event, burst: seq<V.Event>, rest: seq<V.Event>)
    returns (k: nat)
    requires Inv(l.house) && CanHappen(l, es) && BurstHeard(l.ring, es, first, burst, rest)
    ensures first.Recv? && F.Decode(first.frame).Some?
    ensures k < |es| && es[k].Poll? && es[k].now >= V.BurstEnd(burst, first.now) + V.QUIET_TIME
    ensures CanHappen(l, es[..k]) && CanHappen(l, es[..k + 1])
    ensures var h, t := Happen(l, es[..k]).house, Happen(l, es[..k + 1]).house;
            var c := F.Decode(first.frame).value;
            && Number32(c.remoteId) in h.remotes ==>
                 && P.Told(h, t, Number32(c.remoteId), Number8(c.button), V.Count(burst, c) > 7, es[k].now)
                 && Number32(c.remoteId) in t.remotes
                 && t.remotes[Number32(c.remoteId)].rollingCode == (Number16(c.rollingCode) + 1) % 0x1_0000
                 && t.disk == h.disk && t.issued == h.issued
  {
    hide Inv, CanHappen, Happen, V.Run, V.Closed, V.Burst, V.Reads, V.BurstEnd, F.Decode, BurstHeard, R.Enabled,
      R.Step, Number32, Number16, Number8, P.Told, R.Run, R.CanRun;
    k := BurstIsOnePress(l, es, first, burst, rest);
    HappenIsRun(l, es[..k]);
    R.RunInv(l.house, AllOps(l.ring, es[..k]));
    var h, c := Happen(l, es[..k]).house, F.Decode(first.frame).value;
    if Number32(c.remoteId) in h.remotes {
      P.HeardDoes(h, Number32(c.remoteId), Number16(c.rollingCode), Number8(c.button), V.Count(burst, c), es[k].now);
    }
  }

  /** From then on the remote's own codes go on after the one heard, in every run that leaves it alone. */
  lemma CodesAfterHearing(h: House, c: F.Command, repeat: u16, now: int, ops: seq<R.Op>) returns (n: nat)
    requires Inv(h) && Number32(c.remoteId) in h.remotes && R.Enabled(h, Hears(c, repeat, now))
    requires var t := R.Step(h, Hears(c, repeat, now));
             R.CanRun(t, ops) && UndisturbedRun(t, ops, Number32(c.remoteId))
    ensures var end := R.Run(R.Step(h, Hears(c, repeat, now)), ops);
            Codes(end.issued, Number32(c.remoteId))
            == Codes(h.issued, Number32(c.remoteId)) + Successive((Number16(c.rollingCode) + 1) % 0x1_0000, n)
  {
    hide Inv, Codes, Successive, UndisturbedRun, Number32, Number16, Number8, PressBlinds, BlindsExist, R.CanRun,
      R.Run;
    var t := R.Step(h, Hears(c, repeat, now));
    R.StepInv(h, Hears(c, repeat, now));
    RunContinues(t, ops, Number32(c.remoteId));
    n :| Advanced(t, R.Run(t, ops), Number32(c.remoteId), n);
  }
}
