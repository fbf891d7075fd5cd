/** The queue of commands heard from other remotes, as a sequence: what the shared ring buffer
    means, and what every run of receptions and reads guarantees. */
module ReceiveRing {
  import opened Basics
  import opened Frames

  const RING_SIZE := 8
  const CAPACITY := RING_SIZE - 1
  /** A command is handed on once nothing has been added to it for this long, in microseconds. */
  const QUIET_TIME := 250_000

  datatype Entry = Entry(command: Command, repeat: u16, lastMsgTime: int)
  datatype Delivery = Delivery(entry: Entry, time: int)

  function Last<T>(s: seq<T>): T
    requires s != []
  {
    s[|s| - 1]
  }

  // ---------------------------------------------------------------- the two operations

  /** A repeat of the newest command is counted on it; anything else is appended, or discarded
      when the ring is full. */
  function Insert(q: seq<Entry>, c: Command, now: int): (r: seq<Entry>)
    ensures |q| <= |r| <= |q| + 1
  {
    if q != [] && Last(q).command == c then
      q[|q| - 1 := Entry(c, (Last(q).repeat + 1) % 0x1_0000, now)]
    else if |q| == CAPACITY then q
    else q + [Entry(c, 0, now)]
  }

  predicate Ready(q: seq<Entry>, now: int) {
    q != [] && now - q[0].lastMsgTime >= QUIET_TIME
  }

  /** What becomes of a command heard: it is counted on the newest entry if that is the same; otherwise it is
      stored whenever fewer than seven entries wait; otherwise it is lost. */
  lemma InsertIs(q: seq<Entry>, c: Command, now: int)
    requires |q| <= 7
    ensures var r := Insert(q, c, now);
            if q != [] && Last(q).command == c then
              |r| == |q| && r[..|q| - 1] == q[..|q| - 1] && Last(r) == Entry(c, (Last(q).repeat + 1) % 0x1_0000, now)
            else if |q| < 7 then r == q + [Entry(c, 0, now)]
            else r == q
  {
  }

  // ---------------------------------------------------------------- runs

  datatype Event = Recv(frame: Frame, now: int) | Read(now: int)

  /** The queue, everything handed on so far with the time it was, and counts: frames accepted,
      frames discarded, and times a 16-bit repeat count wrapped. */
  datatype Ring = Ring(queue: seq<Entry>, delivered: seq<Delivery>, accepted: nat, discarded: nat, wraps: nat)

  const EMPTY := Ring([], [], 0, 0, 0)

  function Receive(r: Ring, c: Command, now: int): Ring {
    var repeated := r.queue != [] && Last(r.queue).command == c;
    Ring(Insert(r.queue, c, now), r.delivered, r.accepted + 1,
         r.discarded + (if !repeated && |r.queue| == CAPACITY then 1 else 0),
         r.wraps + (if repeated && Last(r.queue).repeat == 0xFFFF then 1 else 0))
  }

  function Step(r: Ring, e: Event): Ring {
    match e
    case Recv(frame, now) =>
      (match Decode(frame)
       case None => r
       case Some(c) => Receive(r, c, now))
    case Read(now) =>
      if Ready(r.queue, now) then
        r.(queue := r.queue[1..], delivered := r.delivered + [Delivery(r.queue[0], now)])
      else r
  }

  function Run(r: Ring, events: seq<Event>): Ring
    decreases events
  {
    if events == [] then r else Run(Step(r, events[0]), events[1..])
  }

  /** A read hands on the oldest entry exactly if that was last heard 250 milliseconds ago or more. */
  lemma ReadIs(r: Ring, now: int)
    ensures var t := Step(r, Read(now));
            if r.queue != [] && now >= r.queue[0].lastMsgTime + 250_000 then
              t == r.(queue := r.queue[1..], delivered := r.delivered + [Delivery(r.queue[0], now)])
            else t == r
  {
  }

  // ---------------------------------------------------------------- conservation

  /** Frames an entry stands for, over a whole queue. */
  function FrameCount(q: seq<Entry>): nat {
    if q == [] then 0 else FrameCount(q[..|q| - 1]) + Last(q).repeat + 1
  }

  function Entries(d: seq<Delivery>): (r: seq<Entry>)
    ensures |r| == |d|
  {
    seq(|d|, i requires 0 <= i < |d| => d[i].entry)
  }

  /** Every command ever stored, oldest first: those handed on, then those still queued. */
  function History(r: Ring): seq<Entry> {
    Entries(r.delivered) + r.queue
  }

  ghost predicate NeighboursDiffer(q: seq<Entry>) {
    forall i :: 0 <= i < |q| - 1 ==> q[i].command != q[i + 1].command
  }

  ghost predicate Quiet(d: seq<Delivery>) {
    forall i :: 0 <= i < |d| ==> d[i].time - d[i].entry.lastMsgTime >= QUIET_TIME
  }

  /** What holds after every run: the capacity, that neighbours differ, that nothing was handed on
      within the quiet time, and that no frame is lost: accepted frames are counted on an entry
      handed on or queued, or discarded, up to the 65536 that each wrap of a count loses. */
  ghost predicate Consistent(r: Ring) {
    && |r.queue| <= CAPACITY
    && NeighboursDiffer(r.queue)
    && Quiet(r.delivered)
    && r.accepted == FrameCount(History(r)) + r.discarded + 0x1_0000 * r.wraps
  }

  /** A read moves an entry from one side of the history to the other; a reception changes only
      the newest entry, or adds one. */
  lemma StepHistory(r: Ring, e: Event)
    ensures e.Read? ==> History(Step(r, e)) == History(r)
    ensures e.Recv? && Decode(e.frame).Some? ==>
              History(Step(r, e)) == Entries(r.delivered) + Insert(r.queue, Decode(e.frame).value, e.now)
  {
  }

  lemma FramesUpdateLast(d: seq<Entry>, q: seq<Entry>, e: Entry)
    requires q != []
    ensures FrameCount(d + q[|q| - 1 := e]) == FrameCount(d + q) - Last(q).repeat + e.repeat
  {
    assert (d + q)[..|d + q| - 1] == (d + q[|q| - 1 := e])[..|d + q| - 1];
  }

  lemma FramesAppend(d: seq<Entry>, q: seq<Entry>, e: Entry)
    ensures FrameCount(d + (q + [e])) == FrameCount(d + q) + e.repeat + 1
  {
    assert (d + (q + [e]))[..|d + q|] == d + q;
  }

  lemma StepConsistent(r: Ring, e: Event)
    requires Consistent(r)
    ensures Consistent(Step(r, e))
  {
    hide Decode;
    StepHistory(r, e);
    if e.Recv? && Decode(e.frame).Some? {
      var c := Decode(e.frame).value;
      if r.queue != [] && Last(r.queue).command == c {
        FramesUpdateLast(Entries(r.delivered), r.queue, Last(Insert(r.queue, c, e.now)));
      } else {
        FramesAppend(Entries(r.delivered), r.queue, Entry(c, 0, e.now));
      }
    }
  }

  lemma {:induction false} RunConsistent(r: Ring, events: seq<Event>)
    requires Consistent(r)
    ensures Consistent(Run(r, events))
    decreases events
  {
    hide Consistent, Step;
    if events != [] {
      StepConsistent(r, events[0]);
      RunConsistent(Step(r, events[0]), events[1..]);
    }
  }

  lemma EmptyConsistent()
    ensures Consistent(EMPTY)
  {
  }

  /** Fewer than 65536 accepted frames cannot wrap a count, so then the frames add up exactly. */
  lemma FramesAddUp(r: Ring, events: seq<Event>)
    requires r == EMPTY && Run(r, events).accepted <= 0xFFFF
    ensures var end := Run(r, events);
            end.accepted == FrameCount(History(end)) + end.discarded
  {
    hide Run, History, FrameCount, NeighboursDiffer, Quiet, EMPTY;
    EmptyConsistent();
    RunConsistent(r, events);
    NoWrap(Run(r, events));
  }

  lemma NoWrap(r: Ring)
    requires Consistent(r) && r.accepted <= 0xFFFF
    ensures r.wraps == 0
  {
    hide History, FrameCount, NeighboursDiffer, Quiet;
  }

  // ---------------------------------------------------------------- bursts

  /** The frames of c among some events. */
  function Count(events: seq<Event>, c: Command): nat {
    if events == [] then 0
    else (if events[0].Recv? && Decode(events[0].frame) == Some(c) then 1 else 0) + Count(events[1..], c)
  }

  /** Receptions of c with gaps under the quiet time, the last of them ending the run and the one
      before the run at time t; reads and undecodable noise may come in between. */
  predicate Burst(events: seq<Event>, c: Command, t: int) {
    events != [] ==>
      var e := events[0];
      && t <= e.now < t + QUIET_TIME
      && if e.Read? || Decode(e.frame).None? then |events| > 1 && Burst(events[1..], c, t)
         else Decode(e.frame) == Some(c) && Burst(events[1..], c, e.now)
  }

  /** When the last frame of a burst came in. */
  function BurstEnd(events: seq<Event>, t: int): int {
    if events == [] then t else Last(events).now
  }

  /** A burst whose first frame is the newest entry ends up counted on that entry, which is not
      handed on before the burst is over. */
  lemma {:induction false} BurstCoalesces(r: Ring, c: Command, events: seq<Event>)
    requires Consistent(r) && r.queue != [] && Last(r.queue).command == c
    requires Burst(events, c, Last(r.queue).lastMsgTime)
    ensures var h := History(r);
            var end := Run(r, events);
            && end.queue != []
            && History(end) == h[|h| - 1 := Entry(c, (Last(h).repeat + Count(events, c)) % 0x1_0000,
                                                  BurstEnd(events, Last(h).lastMsgTime))]
    decreases events
  {
    hide Decode, NeighboursDiffer, Quiet, FrameCount;
    var h, t := History(r), Last(r.queue).lastMsgTime;
    if events != [] {
      var e := events[0];
      var s := Step(r, e);
      StepConsistent(r, e);
      StepHistory(r, e);
      if e.Recv? && Decode(e.frame).Some? {
        assert History(s) == h[|h| - 1 := Last(s.queue)];
      } else {
        assert History(s) == h;
        assert s.queue != [];
      }
      BurstCoalesces(s, c, events[1..]);
      assert Last(events) == (if |events| == 1 then e else Last(events[1..]));
    } else {
      assert h == h[|h| - 1 := Last(h)];
    }
  }

  /** As long as entry i is the newest and still queued, its command is not heard again. */
  predicate Closed(r: Ring, events: seq<Event>, i: nat)
    decreases events
  {
    events != [] ==>
      var e := events[0];
      && !(r.queue != [] && i == |History(r)| - 1 && e.Recv? && Decode(e.frame) == Some(Last(r.queue).command))
      && Closed(Step(r, e), events[1..], i)
  }

  /** An entry is settled once another has been stored behind it or it has been handed on, or as long as
      its command is not heard again: whatever happens then, it keeps its place and its count. */
  lemma {:induction false} HistorySettles(r: Ring, events: seq<Event>, i: nat)
    requires i < |History(r)| && Closed(r, events, i)
    ensures i < |History(Run(r, events))| && History(Run(r, events))[..i + 1] == History(r)[..i + 1]
    ensures |r.delivered| <= |Run(r, events).delivered|
    decreases events
  {
    hide Decode;
    if events != [] {
      StepHistory(r, events[0]);
      HistorySettles(Step(r, events[0]), events[1..], i);
    }
  }

  /** The reads from a given time on. */
  function Reads(events: seq<Event>, t: int): nat {
    if events == [] then 0 else (if events[0].Read? && events[0].now >= t then 1 else 0) + Reads(events[1..], t)
  }

  /** A queued entry is handed on by the reads that come when it, and all before it, have been quiet for
      long enough: one read for each entry before it, and one for itself. */
  lemma {:induction false} ReadsDeliver(r: Ring, events: seq<Event>, i: nat, t: int)
    requires i < |History(r)| && Closed(r, events, i)
    requires forall k :: |r.delivered| <= k <= i ==> History(r)[k].lastMsgTime <= t
    requires Reads(events, t + QUIET_TIME) > i - |r.delivered|
    ensures i < |Run(r, events).delivered|
    decreases events
  {
    hide Decode;
    if i < |r.delivered| {
      HistorySettles(r, events, i);
    } else {
      var e := events[0];
      var s := Step(r, e);
      StepHistory(r, e);
      assert r.queue[0] == History(r)[|r.delivered|];
      ReadsDeliver(s, events[1..], i, t);
    }
  }

  lemma {:induction false} BurstEndLater(events: seq<Event>, c: Command, t: int)
    requires Burst(events, c, t)
    ensures t <= BurstEnd(events, t)
    decreases events
  {
    hide Decode;
    if events != [] {
      var e := events[0];
      if |events| > 1 {
        assert Last(events) == Last(events[1..]);
        BurstEndLater(events[1..], c, if e.Read? || Decode(e.frame).None? then t else e.now);
      }
    }
  }

  lemma {:induction false} RunSplit(r: Ring, a: seq<Event>, b: seq<Event>)
    ensures Run(r, a + b) == Run(Run(r, a), b)
    decreases a
  {
    hide Step;
    if a != [] {
      RunSplit(Step(r, a[0]), a[1..], b);
      assert (a + b)[1..] == a[1..] + b;
    } else {
      assert a + b == b;
    }
  }

  /** A frame stored as a new entry, and the burst that follows it. */
  ghost predicate BurstAfter(r: Ring, first: Event, burst: seq<Event>) {
    && first.Recv? && Decode(first.frame).Some? && |Step(r, first).queue| == |r.queue| + 1
    && Burst(burst, Decode(first.frame).value, first.now)
    && Count(burst, Decode(first.frame).value) <= 0xFFFF
  }

  /** The history at the end of the burst. */
  lemma BurstHistory(r: Ring, first: Event, burst: seq<Event>)
    requires Consistent(r) && BurstAfter(r, first, burst)
    ensures var c, during := Decode(first.frame).value, Run(r, [first] + burst);
            && Consistent(during) && |r.delivered| <= |during.delivered| <= |History(r)|
            && History(during) == History(r) + [Entry(c, Count(burst, c), BurstEnd(burst, first.now))]
  {
    hide Decode, Run, Burst, BurstEnd, NeighboursDiffer, FrameCount, Quiet;
    var s := Step(r, first);
    StepConsistent(r, first);
    StepHistory(r, first);
    BurstCoalesces(s, Decode(first.frame).value, burst);
    RunSplit(r, [first], burst);
    RunOne(r, first);
    RunConsistent(s, burst);
    DeliveredGrow(s, burst);
  }

  /** With time running forward, everything queued at the end of the burst was last heard by then. */
  lemma BurstTimes(r: Ring, first: Event, burst: seq<Event>, k: nat)
    requires Consistent(r) && BurstAfter(r, first, burst) && forall e :: e in r.queue ==> e.lastMsgTime <= first.now
    ensures var during := Run(r, [first] + burst);
            && |during.delivered| <= |History(r)| && |History(during)| == |History(r)| + 1
            && (|during.delivered| <= k <= |History(r)| ==>
                  History(during)[k].lastMsgTime <= BurstEnd(burst, first.now))
  {
    hide Consistent, Burst, BurstEnd, Run, Decode;
    BurstHistory(r, first, burst);
    BurstEndLater(burst, Decode(first.frame).value, first.now);
    var during := Run(r, [first] + burst);
    if |during.delivered| <= k < |History(r)| {
      assert History(during)[k] == History(r)[k] == r.queue[k - |r.delivered|];
    }
  }

  /** Burst delivery. A frame of c is stored as a new entry; more frames of c follow at gaps under the quiet
      time; then c is not heard again until another command is stored or this one is handed on. The entry
      keeps its place in the history and counts the whole burst. It is handed on no sooner than a full
      quiet time after the burst; and, time running forward, reads after that do hand it on, as soon as
      there are more of them than entries before it. */
  lemma BurstDelivery(r: Ring, first: Event, burst: seq<Event>, rest: seq<Event>)
    requires Consistent(r) && BurstAfter(r, first, burst) && Closed(Run(r, [first] + burst), rest, |History(r)|)
    ensures var c := Decode(first.frame).value;
            var i, quiet := |History(r)|, BurstEnd(burst, first.now) + QUIET_TIME;
            var during, end := Run(r, [first] + burst), Run(r, [first] + burst + rest);
            && |during.delivered| <= i < |History(end)|
            && History(end)[i] == Entry(c, Count(burst, c), BurstEnd(burst, first.now))
            && (i < |end.delivered| ==> end.delivered[i].time >= quiet)
            && ((forall e :: e in r.queue ==> e.lastMsgTime <= first.now) &&
                Reads(rest, quiet) > i - |during.delivered| ==>
                  i < |end.delivered|)
  {
    hide Decode, Run, Burst, BurstEnd, NeighboursDiffer, FrameCount, Closed;
    var i, t, during := |History(r)|, BurstEnd(burst, first.now), Run(r, [first] + burst);
    BurstHistory(r, first, burst);
    RunSplit(r, [first] + burst, rest);
    HistorySettles(during, rest, i);
    RunConsistent(during, rest);
    if (forall e :: e in r.queue ==> e.lastMsgTime <= first.now)
      && Reads(rest, t + QUIET_TIME) > i - |during.delivered| {
      forall k | |during.delivered| <= k <= i
        ensures History(during)[k].lastMsgTime <= t
      {
        BurstTimes(r, first, burst, k);
      }
      ReadsDeliver(during, rest, i, t);
    }
  }

  lemma {:induction false} DeliveredGrow(r: Ring, events: seq<Event>)
    ensures |r.delivered| <= |Run(r, events).delivered|
    decreases events
  {
    if events != [] {
      DeliveredGrow(Step(r, events[0]), events[1..]);
    }
  }

  lemma RunOne(r: Ring, e: Event)
    ensures Run(r, [e]) == Step(r, e)
  {
    assert Run(r, [e]) == Run(Step(r, e), []);
  }
}
