/** Where a blind is thought to be: the estimate kept between button presses and timer ticks. */
module Motion {
  import opened Basics

  const MY := 1
  const UP := 2
  const DOWN := 4
  const SHORT_PRESS: u16 := 3
  const LONG_PRESS: u16 := 12

  /** Times are in microseconds; positions run from 0 (closed) to 100 (open); the direction is 1 for
      up, -1 for down and 0 for stopped. */
  datatype Motion = Motion(openTime: int, closeTime: int, target: int, favourite: int,
                           position: real, direction: int, lastTick: int)

  /** Round half away from zero. */
  function Round(x: real): int {
    if x >= 0.0 then (x + 0.5).Floor else -((-x + 0.5).Floor)
  }

  lemma RoundWhole(n: int)
    ensures Round(n as real) == n
  {
  }

  /** A button on a linked remote. The flag tells whether the press registered: a long My press
      with the blind fully open or closed is ignored. */
  function ButtonsPressed(m: Motion, button: int, longPress: bool, now: int): (Motion, bool) {
    if button == UP then (m.(target := 100, direction := 1, lastTick := now), true)
    else if button == DOWN then (m.(target := 0, direction := -1, lastTick := now), true)
    else if button == MY then
      if m.direction != 0 then
        (m.(target := Round(m.position), direction := 0, lastTick := now), true)
      else if longPress then
        if 0 < m.target < 100 then (m.(favourite := m.target, lastTick := now), true) else (m, false)
      else
        (m.(target := m.favourite, direction := if m.favourite as real > m.position then 1 else -1, lastTick := now),
         true)
    else (m.(lastTick := now), true)
  }

  function Clamp(position: int): int {
    if position > 100 then 100 else if position < 0 then 0 else position
  }

  predicate PressesDown(m: Motion, p: int) {
    m.position > p as real || p == 0
  }

  predicate PressesUp(m: Motion, p: int) {
    m.position < p as real || p == 100
  }

  /** `GoToPosition` on a blind linked to its own remote, which it may press Down, Up, or neither. */
  function GoTo(m: Motion, position: int, now: int): Motion {
    var p := Clamp(position);
    var m1 := if PressesDown(m, p) then ButtonsPressed(m, DOWN, false, now).0 else m;
    var m2 := if PressesUp(m1, p) then ButtonsPressed(m1, UP, false, now).0 else m1;
    m2.(target := p)
  }

  /** Percent per second in the current direction. */
  function Rate(m: Motion): real
    requires m.openTime > 0 && m.closeTime > 0
  {
    if m.direction > 0 then 100.0 / m.openTime as real else -(100.0 / m.closeTime as real)
  }

  function Seconds(from: int, to: int): real {
    (to - from) as real / 1000000.0
  }

  function Distance(from: int, to: int, rate: real): real {
    Seconds(from, to) * rate
  }

  /** The estimate after the time since the last tick, before the target is looked at. */
  function Travelled(m: Motion, now: int): real
    requires m.openTime > 0 && m.closeTime > 0
  {
    var x := m.position + Distance(m.lastTick, now, Rate(m));
    if x > 100.0 then 100.0 else if x < 0.0 then 0.0 else x
  }

  predicate Arrives(m: Motion, now: int)
    requires m.openTime > 0 && m.closeTime > 0
  {
    || (m.direction > 0 && Travelled(m, now) >= m.target as real)
    || (m.direction < 0 && Travelled(m, now) <= m.target as real)
  }

  /** A timer tick: the new state, and whether it stopped the blind by pressing My. */
  function Tick(m: Motion, now: int): (Motion, bool)
    requires m.openTime > 0 && m.closeTime > 0
  {
    if m.direction == 0 then (m.(lastTick := now), false)
    else if Arrives(m, now) then
      (m.(position := m.target as real, direction := 0, lastTick := now), 0 < m.target < 100)
    else (m.(position := Travelled(m, now), lastTick := now), false)
  }

  /** The My press of an arriving blind comes back to it through its own remote while it still
      counts as moving, and changes nothing that the tick does not set anyway. */
  lemma StopIsQuiet(m: Motion, now: int)
    requires m.openTime > 0 && m.closeTime > 0 && Arrives(m, now)
    ensures ButtonsPressed(m.(position := m.target as real), MY, false, now).0 == Tick(m, now).0
  {
    RoundWhole(m.target);
  }

  predicate Sane(m: Motion) {
    && m.openTime > 0 && m.closeTime > 0
    && 0.0 <= m.position <= 100.0
    && 0 <= m.target <= 100
    && 0 <= m.favourite <= 100
    && -1 <= m.direction <= 1
  }

  /** Positions, targets and favourites stay within range whatever happens. */
  lemma AlwaysSane(m: Motion, button: int, longPress: bool, position: int, now: int)
    requires Sane(m)
    ensures Sane(ButtonsPressed(m, button, longPress, now).0)
    ensures Sane(GoTo(m, position, now))
    ensures Sane(Tick(m, now).0)
  {
    assert 0 <= Round(m.position) <= 100;
  }

  // ---------------------------------------------------------------- a whole move

  /** A blind left alone for some ticks: its state, and how often it pressed My. */
  function RunTicks(m: Motion, ticks: seq<int>): (r: (Motion, nat))
    requires m.openTime > 0 && m.closeTime > 0
    ensures r.0.openTime == m.openTime && r.0.closeTime == m.closeTime
  {
    if ticks == [] then (m, 0) else
      var (before, presses) := RunTicks(m, ticks[..|ticks| - 1]);
      var (after, stopped) := Tick(before, ticks[|ticks| - 1]);
      (after, presses + (if stopped then 1 else 0))
  }

  /** Percent per second, signed, of a move from the current position to p. */
  function Speed(m: Motion, p: int): real
    requires m.openTime > 0 && m.closeTime > 0
  {
    if p as real > m.position then 100.0 / m.openTime as real else -(100.0 / m.closeTime as real)
  }

  /** Where a move from the current position to p should be some time later: on the straight line
      at the blind's own speed, until it gets there. */
  function Expected(m: Motion, p: int, start: int, now: int): real
    requires m.openTime > 0 && m.closeTime > 0
  {
    var x := m.position + Distance(start, now, Speed(m, p));
    if p as real > m.position then (if x < p as real then x else p as real)
    else (if x > p as real then x else p as real)
  }

  predicate InOrder(start: int, ticks: seq<int>) {
    ticks == [] || (LastTime(start, ticks[..|ticks| - 1]) <= ticks[|ticks| - 1] && InOrder(start, ticks[..|ticks| - 1]))
  }

  function LastTime(start: int, ticks: seq<int>): int {
    if ticks == [] then start else ticks[|ticks| - 1]
  }

  /** A move from `from` to another position p, begun at `start`, seen at m.lastTick. */
  ghost predicate OnCourse(from: Motion, p: int, start: int, m: Motion, presses: nat)
    requires from.openTime > 0 && from.closeTime > 0
  {
    && start <= m.lastTick && m.openTime == from.openTime && m.closeTime == from.closeTime
    && m.target == p
    && m.position == Expected(from, p, start, m.lastTick)
    && if m.position == p as real then m.direction == 0 && presses == (if 0 < p < 100 then 1 else 0)
       else m.direction == (if p as real > from.position then 1 else -1) && presses == 0
  }

  lemma DistanceAdd(a: int, b: int, c: int, rate: real)
    ensures Distance(a, b, rate) + Distance(b, c, rate) == Distance(a, c, rate)
  {
    assert Seconds(a, b) + Seconds(b, c) == Seconds(a, c);
  }

  lemma DistanceForward(a: int, b: int, rate: real)
    requires a <= b
    ensures rate >= 0.0 ==> Distance(a, b, rate) >= 0.0
    ensures rate <= 0.0 ==> Distance(a, b, rate) <= 0.0
  {
    assert Seconds(a, b) >= 0.0;
  }

  lemma SpeedSign(m: Motion, p: int)
    requires m.openTime > 0 && m.closeTime > 0
    ensures p as real > m.position ==> Speed(m, p) >= 0.0
    ensures p as real <= m.position ==> Speed(m, p) <= 0.0
  {
  }

  lemma TickOnCourse(from: Motion, p: int, start: int, m: Motion, presses: nat, now: int)
    requires Sane(from) && 0 <= p <= 100 && from.position != p as real
    requires OnCourse(from, p, start, m, presses) && m.lastTick <= now
    ensures OnCourse(from, p, start, Tick(m, now).0, presses + (if Tick(m, now).1 then 1 else 0))
  {
    DistanceAdd(start, m.lastTick, now, Speed(from, p));
    DistanceForward(m.lastTick, now, Speed(from, p));
    SpeedSign(from, p);
    assert m.direction != 0 ==> Rate(m) == Speed(from, p);
    hide Distance, Speed, Rate;
  }

  /** The law of travel from one state to a target p, begun as `sent` at a time: the blind follows the straight
      line of `Expected`, whatever the spacing of the ticks; it counts as stopped from the first tick that
      finds it at the target, and presses My exactly once, then, when the target lies strictly between the
      ends and the blind had to move to get there. */
  predicate TravelLaw(from: Motion, sent: Motion, p: int, start: int, ticks: seq<int>)
    requires from.openTime > 0 && from.closeTime > 0 && sent.openTime > 0 && sent.closeTime > 0
  {
    var (m, presses) := RunTicks(sent, ticks);
    && m.target == p
    && m.position == Expected(from, p, start, LastTime(start, ticks))
    && (ticks != [] ==> (m.direction == 0 <==> m.position == p as real))
    && presses == (if m.position == p as real != from.position && 0 < p < 100 then 1 else 0)
  }

  /** A move to a requested position, with the target taken, is such a travel. */
  predicate MoveLaw(from: Motion, position: int, start: int, ticks: seq<int>)
    requires from.openTime > 0 && from.closeTime > 0
  {
    TravelLaw(from, GoTo(from, position, start), Clamp(position), start, ticks)
  }

  /** The blind is sent, while moving, to the very position it is passing, short of the ends. */
  predicate Passing(from: Motion, position: int) {
    from.direction != 0 && from.position == position as real && 0 < position < 100
  }

  lemma {:induction false} MoveFollowsLine(from: Motion, position: int, start: int, ticks: seq<int>)
    requires Sane(from) && from.lastTick <= start && InOrder(start, ticks) && !Passing(from, position)
    ensures MoveLaw(from, position, start, ticks)
    decreases |ticks|
  {
    hide RunTicks, GoTo, Distance;
    var p := Clamp(position);
    if from.position == p as real {
      MoveNowhere(from, position, start, ticks);
    } else {
      GoToSendsOff(from, position, start);
      TravelHolds(from, GoTo(from, position, start), p, start, ticks);
    }
  }

  lemma GoToSendsOff(from: Motion, position: int, start: int)
    requires Sane(from) && from.position != Clamp(position) as real
    ensures SentOff(from, GoTo(from, position, start), Clamp(position), start)
  {
  }

  /** The law holds for all ticks in order exactly if the blind is not sent to the position it is just
      passing: such a blind gets no press to start with, and its next tick stops it with a My press. */
  lemma MoveLawIff(from: Motion, position: int, start: int)
    requires Sane(from) && from.lastTick <= start
    ensures (forall ticks :: InOrder(start, ticks) ==> MoveLaw(from, position, start, ticks))
            <==> !Passing(from, position)
  {
    hide MoveLaw, GoTo;
    if Passing(from, position) {
      PassingTarget(from, position, start, start);
      assert [start][..0] == [];
      assert InOrder(start, [start]);
    } else {
      forall ticks | InOrder(start, ticks)
        ensures MoveLaw(from, position, start, ticks)
      {
        MoveFollowsLine(from, position, start, ticks);
      }
    }
  }

  /** A move to where the blind already is. */
  ghost predicate Parked(from: Motion, p: int, m: Motion) {
    && m.openTime == from.openTime && m.closeTime == from.closeTime
    && m.target == p && m.position == from.position
    && (m.direction == 0 || (m.direction == 1 && p == 100) || (m.direction == -1 && p == 0))
  }

  lemma TickParked(from: Motion, p: int, m: Motion, now: int)
    requires Sane(from) && Parked(from, p, m) && from.position == p as real && m.lastTick <= now
    ensures Parked(from, p, Tick(m, now).0) && Tick(m, now).0.direction == 0 && !Tick(m, now).1
  {
  }

  lemma {:induction false} MoveNowhere(from: Motion, position: int, start: int, ticks: seq<int>)
    requires Sane(from) && InOrder(start, ticks) && from.position == Clamp(position) as real
    requires from.lastTick <= start && !Passing(from, position)
    ensures var (m, presses) := RunTicks(GoTo(from, position, start), ticks);
            && Parked(from, Clamp(position), m) && presses == 0
            && (ticks != [] ==> m.direction == 0)
            && m.lastTick <= LastTime(start, ticks)
    ensures from.position == Expected(from, Clamp(position), start, LastTime(start, ticks))
    decreases |ticks|
  {
    InOrderFrom(start, ticks);
    DistanceForward(start, LastTime(start, ticks), Speed(from, Clamp(position)));
    SpeedSign(from, Clamp(position));
    if ticks != [] {
      hide Distance, Speed, GoTo;
      var n := |ticks| - 1;
      MoveNowhere(from, position, start, ticks[..n]);
      TickParked(from, Clamp(position), RunTicks(GoTo(from, position, start), ticks[..n]).0, ticks[n]);
    }
  }

  lemma {:induction false} InOrderFrom(start: int, ticks: seq<int>)
    requires InOrder(start, ticks)
    ensures start <= LastTime(start, ticks)
  {
    if ticks != [] {
      InOrderFrom(start, ticks[..|ticks| - 1]);
    }
  }

  /** Sent off towards another position, at a time: the target, the direction and the time are noted. */
  predicate SentOff(from: Motion, sent: Motion, p: int, start: int) {
    && sent.openTime == from.openTime && sent.closeTime == from.closeTime && sent.position == from.position
    && sent.target == p && sent.lastTick == start
    && sent.direction == (if p as real > from.position then 1 else -1)
  }

  lemma {:induction false} TravelOnCourse(from: Motion, sent: Motion, p: int, start: int, ticks: seq<int>)
    requires Sane(from) && InOrder(start, ticks) && 0 <= p <= 100 && from.position != p as real
    requires SentOff(from, sent, p, start)
    ensures var (m, presses) := RunTicks(sent, ticks);
            OnCourse(from, p, start, m, presses) && m.lastTick == LastTime(start, ticks)
    decreases |ticks|
  {
    if ticks != [] {
      var n := |ticks| - 1;
      TravelOnCourse(from, sent, p, start, ticks[..n]);
      var (m, presses) := RunTicks(sent, ticks[..n]);
      TickOnCourse(from, p, start, m, presses, ticks[n]);
    } else {
      assert Distance(start, start, Speed(from, p)) == 0.0;
    }
  }

  lemma TravelHolds(from: Motion, sent: Motion, p: int, start: int, ticks: seq<int>)
    requires Sane(from) && InOrder(start, ticks) && 0 <= p <= 100 && from.position != p as real
    requires SentOff(from, sent, p, start)
    ensures TravelLaw(from, sent, p, start, ticks)
  {
    hide RunTicks, Expected;
    TravelOnCourse(from, sent, p, start, ticks);
  }

  /** Where a request sends a blind: to the position asked for, or to the nearer end. */
  lemma GoToTarget(m: Motion, position: int, now: int)
    ensures var t := GoTo(m, position, now);
            && (0 <= position <= 100 ==> t.target == position)
            && (position < 0 ==> t.target == 0) && (position > 100 ==> t.target == 100)
            && t.target == Clamp(position)
  {
  }

  /** What goes wrong otherwise: no press to start with, yet one at the first tick. */
  lemma PassingTarget(from: Motion, position: int, start: int, tick: int)
    requires Sane(from) && Passing(from, position) && from.lastTick <= start <= tick
    ensures var (m, presses) := RunTicks(GoTo(from, position, start), [tick]);
            !PressesDown(from, position) && !PressesUp(from, position) && presses == 1 && m.position == position as real
    ensures !MoveLaw(from, position, start, [tick])
  {
  }

  /** The line never overshoots, never turns back, and is at the target exactly when enough time
      has passed. */
  lemma ExpectedIsMonotone(m: Motion, p: int, start: int, early: int, late: int)
    requires Sane(m) && start <= early <= late
    ensures var a, b := Expected(m, p, start, early), Expected(m, p, start, late);
            && (p as real >= m.position ==> m.position <= a <= b <= p as real)
            && (p as real <= m.position ==> p as real <= b <= a <= m.position)
    ensures p as real > m.position ==>
              (Expected(m, p, start, late) == p as real
               <==> Seconds(start, late) * (100.0 / m.openTime as real) >= p as real - m.position)
    ensures p as real < m.position ==>
              (Expected(m, p, start, late) == p as real
               <==> Seconds(start, late) * (100.0 / m.closeTime as real) >= m.position - p as real)
  {
  }

  /** How long a move takes, in the clock's microseconds and the blind's own seconds for a full travel: at its target
      exactly from the moment on that the part to be travelled, out of 100, takes of that time. */
  lemma ArrivalTime(m: Motion, p: int, start: int, now: int)
    requires Sane(m) && start <= now
    ensures p as real > m.position ==>
              (Expected(m, p, start, now) == p as real
               <==> (now - start) as real * 100.0 >= (p as real - m.position) * (m.openTime as real * 1000000.0))
    ensures p as real < m.position ==>
              (Expected(m, p, start, now) == p as real
               <==> (now - start) as real * 100.0 >= (m.position - p as real) * (m.closeTime as real * 1000000.0))
  {
    ExpectedIsMonotone(m, p, start, now, now);
    hide Expected;
    Crossed(now - start, m.openTime as real, p as real - m.position);
    Crossed(now - start, m.closeTime as real, m.position - p as real);
  }

  lemma Crossed(us: int, full: real, part: real)
    requires full > 0.0
    ensures us as real / 1000000.0 * (100.0 / full) >= part <==> us as real * 100.0 >= part * (full * 1000000.0)
  {
    var left := us as real / 1000000.0 * (100.0 / full);
    assert left * (full * 1000000.0) == us as real * 100.0 by {
      assert 100.0 / full * full == 100.0;
    }
    Scaled(left, part, full * 1000000.0);
  }

  lemma Scaled(a: real, b: real, k: real)
    requires k > 0.0
    ensures a >= b <==> a * k >= b * k
  {
  }

  // ---------------------------------------------------------------- the buttons

  /** What a button does to a blind, whatever the times: Up and Down send it to the ends; My stops a moving blind
      where it is, its target being the nearest whole position; a short My sends a stopped one to its
      favourite; a long one makes its target the favourite, unless that is an end, when nothing happens.
      Other buttons only count as a sign of life. The flag says whether the press was taken. */
  predicate Obeys(m: Motion, t: Motion, taken: bool, button: int, longPress: bool, now: int) {
    && (button == UP ==> taken && t == m.(target := 100, direction := 1, lastTick := now))
    && (button == DOWN ==> taken && t == m.(target := 0, direction := -1, lastTick := now))
    && (button == MY && m.direction != 0 ==>
          && taken && t == m.(target := t.target, direction := 0, lastTick := now)
          && -0.5 <= t.target as real - m.position <= 0.5)
    && (button == MY && m.direction == 0 && !longPress ==>
          && taken && t == m.(target := m.favourite, direction := t.direction, lastTick := now)
          && t.direction == (if m.position < m.favourite as real then 1 else -1))
    && (button == MY && m.direction == 0 && longPress ==>
          if 0 < m.target < 100 then taken && t == m.(favourite := m.target, lastTick := now) else !taken && t == m)
    && (button !in {MY, UP, DOWN} ==> taken && t == m.(lastTick := now))
  }

  lemma PressObeys(m: Motion, button: int, longPress: bool, now: int)
    ensures var (t, taken) := ButtonsPressed(m, button, longPress, now);
            Obeys(m, t, taken, button, longPress, now)
  {
  }

  /** Up: the blind travels to 100, from wherever it is thought to be. */
  lemma UpTravels(from: Motion, longPress: bool, start: int, ticks: seq<int>)
    requires Sane(from) && InOrder(start, ticks)
    ensures TravelLaw(from, ButtonsPressed(from, UP, longPress, start).0, 100, start, ticks)
  {
    hide RunTicks, Expected;
    var sent := ButtonsPressed(from, UP, longPress, start).0;
    if from.position == 100.0 {
      StaysThere(from, sent, 100, start, ticks);
    } else {
      TravelHolds(from, sent, 100, start, ticks);
    }
  }

  /** Down: likewise to 0. */
  lemma DownTravels(from: Motion, longPress: bool, start: int, ticks: seq<int>)
    requires Sane(from) && InOrder(start, ticks)
    ensures TravelLaw(from, ButtonsPressed(from, DOWN, longPress, start).0, 0, start, ticks)
  {
    hide RunTicks, Expected;
    var sent := ButtonsPressed(from, DOWN, longPress, start).0;
    if from.position == 0.0 {
      StaysThere(from, sent, 0, start, ticks);
    } else {
      TravelHolds(from, sent, 0, start, ticks);
    }
  }

  /** At an end already: the first tick finds it there. */
  lemma {:induction false} StaysThere(from: Motion, sent: Motion, p: int, start: int, ticks: seq<int>)
    requires Sane(from) && InOrder(start, ticks) && from.position == p as real && (p == 0 || p == 100)
    requires sent == from.(target := p, direction := if p == 100 then 1 else -1, lastTick := start)
    ensures TravelLaw(from, sent, p, start, ticks)
    ensures var m := RunTicks(sent, ticks).0;
            Parked(from, p, m) && (ticks != [] ==> m.direction == 0) && m.lastTick == LastTime(start, ticks)
    decreases |ticks|
  {
    InOrderFrom(start, ticks);
    DistanceForward(start, LastTime(start, ticks), Speed(from, p));
    SpeedSign(from, p);
    if ticks != [] {
      hide Distance, Speed;
      var n := |ticks| - 1;
      StaysThere(from, sent, p, start, ticks[..n]);
      TickParked(from, p, RunTicks(sent, ticks[..n]).0, ticks[n]);
    }
  }

  /** A short My press sends a stopped blind to its favourite by the law of travel, whatever the ticks, exactly
      unless it is thought to be there already, between the ends: it then counts as moving, and the next
      tick presses My for nothing. */
  lemma FavouriteLawIff(from: Motion, start: int)
    requires Sane(from) && from.direction == 0
    ensures (forall ticks :: InOrder(start, ticks) ==>
               TravelLaw(from, ButtonsPressed(from, MY, false, start).0, from.favourite, start, ticks))
            <==> !(from.position == from.favourite as real && 0 < from.favourite < 100)
  {
    hide TravelLaw;
    var p, sent := from.favourite, ButtonsPressed(from, MY, false, start).0;
    if from.position == p as real && 0 < p < 100 {
      FavouriteReached(from, start);
      assert [start][..0] == [];
      assert InOrder(start, [start]);
    } else {
      forall ticks | InOrder(start, ticks)
        ensures TravelLaw(from, sent, p, start, ticks)
      {
        FavouriteTravels(from, start, ticks);
      }
    }
  }

  lemma FavouriteTravels(from: Motion, start: int, ticks: seq<int>)
    requires Sane(from) && from.direction == 0 && InOrder(start, ticks)
    requires !(from.position == from.favourite as real && 0 < from.favourite < 100)
    ensures TravelLaw(from, ButtonsPressed(from, MY, false, start).0, from.favourite, start, ticks)
  {
    hide RunTicks, Expected, TravelLaw;
    var p, sent := from.favourite, ButtonsPressed(from, MY, false, start).0;
    if from.position != p as real {
      TravelHolds(from, sent, p, start, ticks);
    } else if p == 0 {
      StaysThere(from, sent, p, start, ticks);
    } else {
      FavouriteAtTop(from, sent, start, ticks);
    }
  }

  /** Sent to 100 when there already, a blind counts as moving down until the next tick, which finds it there. */
  lemma {:induction false} FavouriteAtTop(from: Motion, sent: Motion, start: int, ticks: seq<int>)
    requires Sane(from) && InOrder(start, ticks) && from.position == 100.0
    requires sent == from.(target := 100, direction := -1, lastTick := start)
    ensures TravelLaw(from, sent, 100, start, ticks)
    ensures var (m, presses) := RunTicks(sent, ticks);
            && m.openTime == from.openTime && m.closeTime == from.closeTime && m.position == 100.0 && m.target == 100
            && m.direction == (if ticks == [] then -1 else 0) && m.lastTick == LastTime(start, ticks)
    decreases |ticks|
  {
    InOrderFrom(start, ticks);
    DistanceForward(start, LastTime(start, ticks), Speed(from, 100));
    SpeedSign(from, 100);
    if ticks != [] {
      var n := |ticks| - 1;
      FavouriteAtTop(from, sent, start, ticks[..n]);
      var m := RunTicks(sent, ticks[..n]).0;
      DistanceForward(m.lastTick, ticks[n], Rate(m));
      hide Distance, Speed;
    }
  }

  lemma FavouriteReached(from: Motion, start: int)
    requires Sane(from) && from.direction == 0 && from.position == from.favourite as real && 0 < from.favourite < 100
    ensures var sent := ButtonsPressed(from, MY, false, start).0;
            && RunTicks(sent, [start]).1 == 1 && RunTicks(sent, [start]).0.position == from.position
            && !TravelLaw(from, sent, from.favourite, start, [start])
  {
    assert [start][..0] == [];
  }

  /** My on a moving blind stops it: no tick moves it any more, none presses, and its target is where it is, to
      the nearest whole position. */
  lemma {:induction false} MyStops(from: Motion, longPress: bool, start: int, ticks: seq<int>)
    requires Sane(from) && from.direction != 0
    ensures var (m, presses) := RunTicks(ButtonsPressed(from, MY, longPress, start).0, ticks);
            && m.direction == 0 && m.position == from.position && presses == 0
            && -0.5 < m.target as real - from.position <= 0.5
    decreases |ticks|
  {
    if ticks != [] {
      MyStops(from, longPress, start, ticks[..|ticks| - 1]);
    }
  }
}
