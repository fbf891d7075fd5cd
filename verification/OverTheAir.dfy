/** From one device to another: what the transmission of a command is to a device that hears it. */
module OverTheAir {
  import opened Basics
  import opened Words
  import F = Frames
  import Q = CommandQueue
  import V = ReceiveRing
  import WR = RadioWorker
  import A = AirCodes
  import L = Listening
  import H = House
  import R = HouseRuns
  import M = Motion
  import P = Responses
  import I = HouseInvariant

  // ---------------------------------------------------------------- the frame

  /** The bytes of a frame before encryption, as numbers: the key, the button above the checksum, the rolling
      code and the id, the higher bytes first. */
  lemma FrameLayout(remoteId: bv32, rollingCode: bv16, button: bv32)
    ensures var d := F.Unchain(F.Encode(remoteId, rollingCode, button));
            && d[0] == 0x50 && d[1] >> 4 == F.LowButton(button)
            && 0x100 * Number8(d[2]) + Number8(d[3]) == Number16(rollingCode)
            && 0x1_0000 * Number8(d[4]) + 0x100 * Number8(d[5]) + Number8(d[6]) == Number32(remoteId & 0xFF_FFFF)
  {
    var p := F.Plain(F.FIXED_KEY, remoteId, rollingCode, button);
    PlainBytes(remoteId, rollingCode);
    F.NibbleBytes(button, F.Checksum(p));
    hide F.Chain, F.Unchain, F.Checksum, F.Merge, F.Low, F.LowButton, F.IdByte, F.RollHigh, F.RollLow,
      F.ButtonByte, Number8;
    F.UnchainChain(p[1 := F.Merge(p[1], F.Low(F.Checksum(p)))]);
  }

  lemma PlainBytes(remoteId: bv32, rollingCode: bv16)
    ensures 0x100 * Number8(F.RollHigh(rollingCode)) + Number8(F.RollLow(rollingCode)) == Number16(rollingCode)
    ensures 0x1_0000 * Number8(F.IdByte(remoteId, 2)) + 0x100 * Number8(F.IdByte(remoteId, 1))
            + Number8(F.IdByte(remoteId, 0)) == Number32(remoteId & 0xFF_FFFF)
  {
    MaskedBytes(remoteId);
    hide Number8;
    ZeroByte();
  }

  lemma MaskedBytes(remoteId: bv32)
    ensures var w := remoteId & 0xFF_FFFF;
            && (w & 0xFF) as bv8 == F.IdByte(remoteId, 0) && ((w >> 8) & 0xFF) as bv8 == F.IdByte(remoteId, 1)
            && ((w >> 16) & 0xFF) as bv8 == F.IdByte(remoteId, 2) && (w >> 24) as bv8 == 0
  {
  }

  // ---------------------------------------------------------------- the transmission as a burst

  /** What a receiver gets of some packets: a reception for each frame, at the times given. A wake-up burst is no
      frame. */
  function Hearing(p: seq<Q.Packet>, times: seq<int>): seq<V.Event>
    requires |times| == |p|
  {
    if p == [] then [] else
      (if p[0].Rts? then [V.Recv(p[0].frame, times[0])] else []) + Hearing(p[1..], times[1..])
  }

  /** Each time within the quiet time of the one before. */
  predicate Close(times: seq<int>, t: int) {
    times != [] ==> t <= times[0] < t + V.QUIET_TIME && Close(times[1..], times[0])
  }

  /** Frames of one command only. */
  predicate AllSay(p: seq<Q.Packet>, c: F.Command) {
    forall k :: 0 <= k < |p| ==> p[k].Rts? && F.Decode(p[k].frame) == Some(c)
  }

  /** Frames of one command that come close together are a burst, and all of them count. */
  lemma {:induction false} FramesAreBurst(p: seq<Q.Packet>, times: seq<int>, c: F.Command, t: int)
    requires |times| == |p| && AllSay(p, c) && Close(times, t)
    ensures var es := Hearing(p, times);
            && V.Burst(es, c, t) && V.Count(es, c) == |p| == |es|
            && V.BurstEnd(es, t) == if times == [] then t else times[|times| - 1]
    decreases |p|
  {
    hide F.Decode;
    if p != [] {
      FramesAreBurst(p[1..], times[1..], c, times[0]);
      var es := Hearing(p, times);
      assert es[1..] == Hearing(p[1..], times[1..]);
      if |p| > 1 {
        assert es[|es| - 1] == es[1..][|es| - 2];
      }
    }
  }

  /** A transmission heard frame by frame, each within the quiet time of the one before, by a queue that has room
      and does not hold the command already as its newest: it becomes one entry, which counts the repeats,
      and it is queued behind everything stored before. */
  lemma TransmissionIsOneEntry(r: V.Ring, p: seq<Q.Packet>, remoteId: bv32, code: bv16, button: bv32, repeat: u16,
                               times: seq<int>)
    requires V.Consistent(r) && Q.Sends(p, remoteId, code, button, repeat) && F.KnownButton(F.LowButton(button))
    requires |times| == |p| && Close(times[2..], times[1])
    requires |r.queue| < 7 && (r.queue == [] || V.Last(r.queue).command != Q.Taken(remoteId, code, button))
    ensures var c, t := Q.Taken(remoteId, code, button), V.Run(r, Hearing(p, times));
            && V.Consistent(t) && t.queue != []
            && V.History(t) == V.History(r) + [V.Entry(c, repeat, times[|times| - 1])]
  {
    hide F.Decode, F.Unchain, F.KnownButton, Q.Taken, V.Consistent, V.Run, V.History;
    var c := Q.Taken(remoteId, code, button);
    var first, rest := V.Recv(p[1].frame, times[1]), Hearing(p[2..], times[2..]);
    assert AllSay(p[2..], c);
    FramesAreBurst(p[2..], times[2..], c, times[1]);
    HearingParts(p, times);
    V.InsertIs(r.queue, c, times[1]);
    V.BurstHistory(r, first, rest);
    StillQueued(r, first, rest);
  }

  lemma HearingParts(p: seq<Q.Packet>, times: seq<int>)
    requires |times| == |p| >= 2 && p[0].Wake? && p[1].Rts?
    ensures Hearing(p, times) == [V.Recv(p[1].frame, times[1])] + Hearing(p[2..], times[2..])
  {
    assert p[1..][1..] == p[2..] && times[1..][1..] == times[2..];
    assert Hearing(p, times) == Hearing(p[1..], times[1..]);
  }

  lemma StillQueued(r: V.Ring, first: V.Event, burst: seq<V.Event>)
    requires V.Consistent(r) && V.BurstAfter(r, first, burst)
    ensures V.Run(r, [first] + burst).queue != []
  {
    hide F.Decode, V.Burst, V.Count;
    V.BurstHistory(r, first, burst);
  }

  // ---------------------------------------------------------------- a command of another device

  /** A command issued by one device, heard by another: the same button, rolling code and repeat count, under the
      low 24 bits of the id. */
  lemma IssuedIsHeard(i: H.Issue, now: int)
    requires i.buttons in {M.MY, M.UP, M.DOWN}
    ensures var o := A.Outgoing(i);
            && F.KnownButton(F.LowButton(o.button)) && o.repeat == i.repeat
            && L.Hears(Q.Taken(o.remoteId, o.rollingCode, o.button), o.repeat, now)
               == R.Hear(i.remoteId % 0x100_0000, i.rollingCode, i.buttons, i.repeat, now)
  {
    hide Bits32, Bits16, Bits8, Number32, Number16, Number8, SentId, F.LowButton, F.KnownButton, L.Hears, Q.Taken;
    HearsNumbers(Bits32(i.remoteId), Bits16(i.rollingCode), Bits32(i.buttons), i.repeat, now);
    IdOnAir(i.remoteId);
    Same16(i.rollingCode);
    ButtonOnAir(i.buttons);
  }

  /** The 24 bits of an id that are sent, as a number. */
  function SentId(remoteId: bv32): u32 {
    Number32(remoteId & 0xFF_FFFF)
  }

  lemma IdOnAir(id: u32)
    ensures SentId(Bits32(id)) == id % 0x100_0000
  {
    hide Bits32, Number32;
    Low24(id);
  }

  lemma HearsNumbers(remoteId: bv32, code: bv16, button: bv32, repeat: u16, now: int)
    ensures L.Hears(Q.Taken(remoteId, code, button), repeat, now)
         == R.Hear(SentId(remoteId), Number16(code), Number8(F.LowButton(button)), repeat, now)
  {
    hide Number32, Number16, Number8, F.LowButton;
  }

  /** From one house to another. A command issued there goes on air as its transmission; here its first frame is
      stored, the others follow each within the quiet time, and the main loop looks in afterwards. Then, if the
      remote is a known one, its code is the one after that issued, and the blinds on its list have done what
      the button says, once, as for a long press exactly if it was repeated more than seven times. */
  lemma PressHeardElsewhere(i: H.Issue, times: seq<int>, l: L.Listener, es: seq<L.Event>, rest: seq<V.Event>)
    returns (k: nat)
    requires i.buttons in {M.MY, M.UP, M.DOWN} && |times| == 2 + i.repeat && Close(times[2..], times[1])
    requires var p := A.Outgoing(i).Packets();
             && p[1].Rts? && I.Inv(l.house) && L.CanHappen(l, es)
             && L.BurstHeard(l.ring, es, V.Recv(p[1].frame, times[1]), Hearing(p[2..], times[2..]), rest)
    ensures k < |es| && es[k].Poll? && L.CanHappen(l, es[..k]) && L.CanHappen(l, es[..k + 1])
    ensures es[k].now >= times[1 + i.repeat] + V.QUIET_TIME
    ensures var h, t, id := L.Happen(l, es[..k]).house, L.Happen(l, es[..k + 1]).house, i.remoteId % 0x100_0000;
            id in h.remotes ==>
              && P.Told(h, t, id, i.buttons, i.repeat > 7, es[k].now)
              && id in t.remotes && t.remotes[id].rollingCode == (i.rollingCode + 1) % 0x1_0000
  {
    hide I.Inv, L.CanHappen, L.Happen, L.BurstHeard, F.Decode, F.Unchain, F.KnownButton, F.LowButton, Bits32,
      Bits16, Bits8, Number32, Number16, Number8, P.Told, Close, Hearing, V.Burst, Q.Taken;
    var o := A.Outgoing(i);
    var p := o.Packets();
    var c := Q.Taken(o.remoteId, o.rollingCode, o.button);
    IssuedIsHeard(i, 0);
    WR.PacketsSend(o);
    assert AllSay(p[2..], c);
    FramesAreBurst(p[2..], times[2..], c, times[1]);
    LastTime(times);
    k := L.BurstMovesBlinds(l, es, V.Recv(p[1].frame, times[1]), Hearing(p[2..], times[2..]), rest);
  }

  lemma LastTime(times: seq<int>)
    requires |times| >= 2
    ensures times[|times| - 1] == if times[2..] == [] then times[1] else times[2..][|times[2..]| - 1]
  {
  }

  lemma ButtonOnAir(button: int)
    requires button in {M.MY, M.UP, M.DOWN}
    ensures var b := F.LowButton(Bits32(button)); F.KnownButton(b) && Number8(b) == button
  {
    hide Bits32, Bits8, Number8;
    LowNibble(button);
    SmallNumbers();
  }

  lemma SmallNumbers()
    ensures Bits8(1) == 1 && Bits8(2) == 2 && Bits8(4) == 4
  {
  }
}
