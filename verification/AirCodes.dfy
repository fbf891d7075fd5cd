/** The registry and the radio core together: which rolling codes a receiver hears, over every interleaving
    of what happens in the house with the steps of the radio core, and across restarts. */
module AirCodes {
  import opened Basics
  import opened Records
  import F = Frames
  import opened House
  import opened HouseInvariant
  import R = HouseRuns
  import opened RollingCodes
  import opened FreshIds
  import Q = CommandQueue
  import W = RadioWorker
  import M = Motion
  import opened Words

  // ---------------------------------------------------------------- what a receiver hears

  type Code = bv16

  /** The rolling code of a frame, if a receiver takes it and it carries these 24 bits of a remote's id. */
  function FrameCode(f: F.Frame, id: bv32): seq<Code> {
    match F.Decode(f)
    case Some(c) => if c.remoteId == id then [c.rollingCode] else []
    case None => []
  }

  /** What the last packet adds: a frame counts if it follows a wake-up burst, and repeats do not. */
  function LastCode(air: seq<Q.Packet>, id: bv32): seq<Code> {
    var n := |air| - 1;
    if n >= 1 && air[n].Rts? && air[n - 1].Wake? then FrameCode(air[n].frame, id) else []
  }

  /** The codes heard for an id. */
  function Heard(air: seq<Q.Packet>, id: bv32): seq<Code> {
    if air == [] then [] else Heard(air[..|air| - 1], id) + LastCode(air, id)
  }

  /** The same of commands sent in full. */
  function SentCodes(cs: seq<W.Outgoing>, id: bv32): seq<Code> {
    if cs == [] then [] else
      var c := cs[|cs| - 1];
      SentCodes(cs[..|cs| - 1], id) + FrameCode(F.Encode(c.remoteId, c.rollingCode, c.button), id)
  }

  lemma LastOfLater(a: seq<Q.Packet>, b: seq<Q.Packet>, id: bv32)
    requires b != [] && b[0].Wake?
    ensures LastCode(a + b, id) == LastCode(b, id)
  {
    hide FrameCode;
    assert (a + b)[|a + b| - 1] == b[|b| - 1];
    if |b| > 1 {
      assert (a + b)[|a + b| - 2] == b[|b| - 2];
    }
  }

  lemma HeardLast(air: seq<Q.Packet>, before: seq<Q.Packet>, id: bv32)
    requires air != [] && before == air[..|air| - 1]
    ensures Heard(air, id) == Heard(before, id) + LastCode(air, id)
  {
  }

  lemma HeardNothing(id: bv32)
    ensures Heard([], id) == []
  {
  }

  /** Nothing is heard twice at a seam where the later part starts with a wake-up burst. */
  lemma {:induction false} HeardAppend(a: seq<Q.Packet>, b: seq<Q.Packet>, id: bv32)
    requires b != [] ==> b[0].Wake?
    ensures Heard(a + b, id) == Heard(a, id) + Heard(b, id)
    decreases |b|
  {
    hide LastCode, Heard;
    if b == [] {
      assert a + b == a;
      HeardNothing(id);
    } else {
      var before := b[..|b| - 1];
      HeardAppend(a, before, id);
      assert (a + b)[..|a + b| - 1] == a + before;
      HeardLast(a + b, a + before, id);
      HeardLast(b, before, id);
      LastOfLater(a, b, id);
    }
  }

  lemma LastOfTransmission(f: F.Frame, repeat: nat, id: bv32, n: nat)
    requires 0 < n <= 2 + repeat
    ensures LastCode(Q.Transmission(f, repeat)[..n], id) == if n == 2 then FrameCode(f, id) else []
  {
    hide FrameCode;
  }

  /** Of a transmission only its first frame counts, however much of it has been sent. */
  lemma {:induction false} HeardTransmission(f: F.Frame, repeat: nat, id: bv32, n: nat)
    requires n <= 2 + repeat
    ensures Heard(Q.Transmission(f, repeat)[..n], id) == if n >= 2 then FrameCode(f, id) else []
  {
    hide FrameCode, LastCode, Q.Transmission;
    var t := Q.Transmission(f, repeat);
    if n > 0 {
      TransmissionLength(f, repeat);
      HeardTransmission(f, repeat, id, n - 1);
      LastOfTransmission(f, repeat, id, n);
      assert t[..n][..n - 1] == t[..n - 1];
    }
  }

  lemma TransmissionLength(f: F.Frame, repeat: nat)
    ensures |Q.Transmission(f, repeat)| == 2 + repeat
  {
  }

  lemma PacketsOf(c: W.Outgoing, id: bv32, n: nat)
    requires n <= |c.Packets()|
    ensures var p := c.Packets()[..n];
            && (p != [] ==> p[0].Wake?)
            && Heard(p, id) == if n >= 2 then FrameCode(F.Encode(c.remoteId, c.rollingCode, c.button), id) else []
  {
    hide F.Encode, Heard, FrameCode;
    HeardTransmission(F.Encode(c.remoteId, c.rollingCode, c.button), c.repeat, id, n);
  }

  lemma {:induction false} HeardOnAir(cs: seq<W.Outgoing>, id: bv32)
    ensures Heard(W.OnAir(cs), id) == SentCodes(cs, id)
    ensures W.OnAir(cs) != [] ==> W.OnAir(cs)[0].Wake?
  {
    hide FrameCode, W.Outgoing.Packets, F.Encode;
    if cs != [] {
      var c := cs[|cs| - 1];
      HeardOnAir(cs[..|cs| - 1], id);
      PacketsOf(c, id, |c.Packets()|);
      assert c.Packets()[..|c.Packets()|] == c.Packets();
      HeardAppend(W.OnAir(cs[..|cs| - 1]), c.Packets(), id);
    }
  }

  lemma {:induction false} SentAppend(a: seq<W.Outgoing>, b: seq<W.Outgoing>, id: bv32)
    ensures SentCodes(a + b, id) == SentCodes(a, id) + SentCodes(b, id)
    decreases |b|
  {
    hide FrameCode, F.Encode;
    if b == [] {
      assert a + b == a;
    } else {
      SentAppend(a, b[..|b| - 1], id);
      assert (a + b)[..|a + b| - 1] == a + b[..|b| - 1];
    }
  }

  /** At every moment what is heard is a first part of the codes of the commands accepted. */
  lemma HeardSoFar(s: W.State, id: bv32)
    requires W.InOrder(s)
    ensures Heard(s.air, id) <= SentCodes(s.accepted, id)
    ensures s.air != [] ==> s.air[0].Wake?
  {
    hide FrameCode, W.Outgoing.Packets, F.Encode, W.OnAir, W.Commands, SentCodes, Heard;
    HeardOnAir(s.sent, id);
    SentAppend(s.sent + W.Current(s.worker), W.Commands(s.queue), id);
    SentAppend(s.sent, W.Current(s.worker), id);
    if s.worker.Sending? {
      var c := s.worker.command;
      PacketsOf(c, id, s.worker.packets);
      HeardAppend(W.OnAir(s.sent), W.Partial(s.worker), id);
      OneSent(c, id);
    } else {
      assert s.air == W.OnAir(s.sent);
    }
  }

  lemma OneSent(c: W.Outgoing, id: bv32)
    ensures SentCodes([c], id) == FrameCode(F.Encode(c.remoteId, c.rollingCode, c.button), id)
  {
    hide FrameCode, F.Encode;
    assert [c][..0] == [];
  }

  // ---------------------------------------------------------------- the two together

  /** The registry, the radio core's state since it was last started, what was on air before that, and how
      many commands had been issued by then. */
  datatype Device = Device(house: House, radio: W.State, earlier: seq<Q.Packet>, base: nat) {
    function Air(): seq<Q.Packet> {
      earlier + radio.air
    }
  }

  /** What happens: an event in the house, or a step of the radio core, of the receiver or of `Shutdown`. */
  datatype Event = InHouse(op: R.Op) | OnRadio(action: W.Action)

  function Outgoing(i: Issue): W.Outgoing {
    W.Outgoing(Bits32(i.remoteId), Bits16(i.rollingCode), Bits32(i.buttons), i.repeat)
  }

  /** Commands given to the queue one after the other. */
  function Queued(s: W.State, issues: seq<Issue>): W.State
    decreases issues
  {
    if issues == [] then s else Queued(W.Next(s, W.QueueCommand(Outgoing(issues[0]))), issues[1..])
  }

  /** Each was accepted just if the queue had room when it came. */
  predicate Answered(s: W.State, issues: seq<Issue>)
    decreases issues
  {
    issues != [] ==>
      && (issues[0].accepted <==> |s.queue| < W.QUEUE_SIZE)
      && Answered(W.Next(s, W.QueueCommand(Outgoing(issues[0]))), issues[1..])
  }

  function Added(before: seq<Issue>, after: seq<Issue>): seq<Issue> {
    if before <= after then after[|before|..] else []
  }

  /** The queue answers for itself, a clean restart waits for `Shutdown` to return, and nothing but a command
      of the house is queued to be sent. */
  ghost predicate Possible(d: Device, e: Event) {
    match e
    case InHouse(op) =>
      && R.Enabled(d.house, op)
      && (if op.Restart? then op.clean ==> d.radio.main.Returned?
          else Answered(d.radio, Added(d.house.issued, R.Step(d.house, op).issued)))
    case OnRadio(a) => !a.QueueCommand?
  }

  /** Any restart starts the radio core afresh. */
  ghost function After(d: Device, e: Event): Device
    requires Possible(d, e)
  {
    match e
    case InHouse(op) =>
      var t := R.Step(d.house, op);
      if op.Restart? then Device(t, W.START, d.Air(), |t.issued|)
      else d.(house := t, radio := Queued(d.radio, Added(d.house.issued, t.issued)))
    case OnRadio(a) => d.(radio := W.Next(d.radio, a))
  }

  ghost predicate CanHappen(d: Device, es: seq<Event>)
    decreases es
  {
    es != [] ==> Possible(d, es[0]) && CanHappen(After(d, es[0]), es[1..])
  }

  ghost function Happen(d: Device, es: seq<Event>): Device
    requires CanHappen(d, es)
    decreases es
  {
    if es == [] then d else Happen(After(d, es[0]), es[1..])
  }

  /** A device just reset. */
  function Reset(): Device {
    Device(NewHouse(), W.START, [], 0)
  }

  /** The commands the queue took, as they go to the radio core. */
  function Taken(issues: seq<Issue>): seq<W.Outgoing> {
    if issues == [] then [] else
      var i := issues[|issues| - 1];
      Taken(issues[..|issues| - 1]) + (if i.accepted then [Outgoing(i)] else [])
  }

  lemma {:induction false} TakenAppend(a: seq<Issue>, b: seq<Issue>)
    ensures Taken(a + b) == Taken(a) + Taken(b)
    decreases |b|
  {
    hide Outgoing;
    if b == [] {
      assert a + b == a;
    } else {
      TakenAppend(a, b[..|b| - 1]);
      assert (a + b)[..|a + b| - 1] == a + b[..|b| - 1];
    }
  }

  lemma TakenFirst(issues: seq<Issue>)
    requires issues != []
    ensures Taken(issues) == (if issues[0].accepted then [Outgoing(issues[0])] else []) + Taken(issues[1..])
  {
    hide Outgoing;
    assert [issues[0]][..0] == [];
    assert Taken([issues[0]]) == if issues[0].accepted then [Outgoing(issues[0])] else [];
    assert issues == [issues[0]] + issues[1..];
    TakenAppend([issues[0]], issues[1..]);
  }

  lemma {:induction false} QueuedTakes(s: W.State, issues: seq<Issue>)
    requires W.Inv(s) && Answered(s, issues)
    ensures W.Inv(Queued(s, issues)) && Queued(s, issues).accepted == s.accepted + Taken(issues)
    ensures Queued(s, issues).air == s.air && Queued(s, issues).before == s.before
    decreases issues
  {
    hide W.Inv, Outgoing, Taken;
    if issues == [] {
      NoneTaken();
      assert s.accepted + [] == s.accepted;
    } else {
      var c := Outgoing(issues[0]);
      var t, first := W.Next(s, W.QueueCommand(c)), if issues[0].accepted then [c] else [];
      W.NextInv(s, W.QueueCommand(c));
      QueuedTakes(t, issues[1..]);
      TakenFirst(issues);
      assert t.accepted == s.accepted + first;
      assert s.accepted + first + Taken(issues[1..]) == s.accepted + (first + Taken(issues[1..]));
    }
  }

  lemma NoneTaken()
    ensures Taken([]) == []
  {
  }

  /** The invariant of the two together: the queue holds, and the radio core has sent, exactly what the
      house was told had been taken since the last restart. */
  ghost predicate InStep(d: Device) {
    && Inv(d.house) && W.Inv(d.radio)
    && d.base <= |d.house.issued| && d.radio.accepted == Taken(d.house.issued[d.base..])
  }

  lemma IssuedGrows(h: House, op: R.Op)
    requires Inv(h) && R.Enabled(h, op)
    ensures h.issued <= R.Step(h, op).issued
    ensures op.Restart? ==> R.Step(h, op).issued == h.issued
  {
    R.StorableBlinds(h);
    hide Inv, AllStorable, R.Step;
    if op.Restart? {
      R.RestartKeys(h, op.clean, op.now);
    } else if IsPress(op) {
      PressStepGrows(h, op);
    } else if R.MemoryOnly(op) {
      QuietMemory(h, op);
    } else {
      TableIds(h, op);
    }
  }

  lemma PressStepGrows(h: House, op: R.Op)
    requires AllStorable(h.blinds) && R.Enabled(h, op) && IsPress(op)
    ensures h.issued <= R.Step(h, op).issued
  {
    hide PressBlinds, AllStorable, M.Arrives, M.Tick, M.PressesDown, M.PressesUp;
  }

  lemma SliceGrows(before: seq<Issue>, after: seq<Issue>, base: nat)
    requires before <= after && base <= |before|
    ensures after[base..] == before[base..] + Added(before, after)
  {
  }

  lemma AfterInStep(d: Device, e: Event)
    requires InStep(d) && Possible(d, e)
    ensures InStep(After(d, e))
  {
    hide Inv, W.Inv, R.Step, R.Enabled, Taken, Queued, Answered, Added, W.Next;
    match e
    case InHouse(op) =>
      var h, t := d.house, R.Step(d.house, op);
      R.StepInv(h, op);
      IssuedGrows(h, op);
      if op.Restart? {
        StartInv();
        assert t.issued[|t.issued|..] == [];
      } else {
        QueuedTakes(d.radio, Added(h.issued, t.issued));
        TakenAppend(h.issued[d.base..], Added(h.issued, t.issued));
        SliceGrows(h.issued, t.issued, d.base);
      }
    case OnRadio(a) =>
      W.NextInv(d.radio, a);
      NothingAccepted(d.radio, a);
  }

  lemma StartInv()
    ensures W.Inv(W.START) && Taken([]) == []
  {
  }

  lemma NothingAccepted(s: W.State, a: W.Action)
    requires !a.QueueCommand?
    ensures W.Next(s, a).accepted == s.accepted
  {
  }

  lemma {:induction false} HappenInStep(d: Device, es: seq<Event>)
    requires InStep(d) && CanHappen(d, es)
    ensures InStep(Happen(d, es))
    decreases es
  {
    hide InStep, Possible, After;
    if es != [] {
      AfterInStep(d, es[0]);
      HappenInStep(After(d, es[0]), es[1..]);
    }
  }

  // ---------------------------------------------------------------- subsequences

  /** What is left of b when some of its elements are left out. */
  predicate IsSubsequence(a: seq<Code>, b: seq<Code>)
    decreases |b|
  {
    || a == []
    || (b != [] && a[|a| - 1] == b[|b| - 1] && IsSubsequence(a[..|a| - 1], b[..|b| - 1]))
    || (b != [] && IsSubsequence(a, b[..|b| - 1]))
  }

  lemma {:induction false} SubsequenceTrans(a: seq<Code>, b: seq<Code>, c: seq<Code>)
    requires IsSubsequence(a, b) && IsSubsequence(b, c)
    ensures IsSubsequence(a, c)
    decreases |b| + |c|
  {
    if a != [] {
      var a1, b1, c1 := a[..|a| - 1], b[..|b| - 1], c[..|c| - 1];
      if IsSubsequence(b, c1) {
        SubsequenceTrans(a, b, c1);
      } else if IsSubsequence(a, b1) {
        SubsequenceTrans(a, b1, c1);
      } else {
        SubsequenceTrans(a1, b1, c1);
      }
    }
  }

  lemma {:induction false} SubsequenceAppend(a: seq<Code>, b: seq<Code>, c: seq<Code>, d: seq<Code>)
    requires IsSubsequence(a, b) && IsSubsequence(c, d)
    ensures IsSubsequence(a + c, b + d)
    decreases |d|
  {
    if d == [] {
      assert c == [] && a + c == a && b + d == b;
    } else {
      var d1 := d[..|d| - 1];
      assert (b + d)[..|b + d| - 1] == b + d1;
      if c == [] || IsSubsequence(c, d1) {
        SubsequenceAppend(a, b, c, d1);
      } else {
        SubsequenceAppend(a, b, c[..|c| - 1], d1);
        assert (a + c)[..|a + c| - 1] == a + c[..|c| - 1];
      }
    }
  }

  lemma {:induction false} PrefixIsSubsequence(a: seq<Code>, b: seq<Code>)
    requires a <= b
    ensures IsSubsequence(a, b)
    decreases |b|
  {
    if a != [] {
      if |a| == |b| {
        PrefixIsSubsequence(a[..|a| - 1], b[..|b| - 1]);
      } else {
        PrefixIsSubsequence(a, b[..|b| - 1]);
      }
    }
  }

  // ---------------------------------------------------------------- the air follows the house

  ghost predicate AirFollows(d: Device, id: bv32) {
    && d.base <= |d.house.issued|
    && IsSubsequence(Heard(d.earlier, id), SentCodes(Taken(d.house.issued[..d.base]), id))
  }

  lemma HeardInAll(d: Device, id: bv32)
    requires InStep(d)
    ensures Heard(d.Air(), id) == Heard(d.earlier, id) + Heard(d.radio.air, id)
    ensures Heard(d.radio.air, id) <= SentCodes(d.radio.accepted, id)
    ensures SentCodes(Taken(d.house.issued), id) == SentCodes(Taken(d.house.issued[..d.base]), id)
            + SentCodes(d.radio.accepted, id)
  {
    hide Inv, Heard, SentCodes, Taken, W.StopInPlace;
    HeardSoFar(d.radio, id);
    HeardAppend(d.earlier, d.radio.air, id);
    var issued := d.house.issued;
    assert issued == issued[..d.base] + issued[d.base..];
    TakenAppend(issued[..d.base], issued[d.base..]);
    SentAppend(Taken(issued[..d.base]), Taken(issued[d.base..]), id);
  }

  lemma AirIsSubsequence(d: Device, id: bv32)
    requires InStep(d) && AirFollows(d, id)
    ensures IsSubsequence(Heard(d.Air(), id), SentCodes(Taken(d.house.issued), id))
  {
    hide InStep, Heard, SentCodes, Taken, IsSubsequence;
    HeardInAll(d, id);
    PrefixIsSubsequence(Heard(d.radio.air, id), SentCodes(d.radio.accepted, id));
    SubsequenceAppend(Heard(d.earlier, id), SentCodes(Taken(d.house.issued[..d.base]), id),
                      Heard(d.radio.air, id), SentCodes(d.radio.accepted, id));
  }

  lemma AfterFollows(d: Device, e: Event, id: bv32)
    requires InStep(d) && AirFollows(d, id) && Possible(d, e)
    ensures AirFollows(After(d, e), id)
  {
    hide Inv, W.Inv, R.Step, R.Enabled, Taken, Queued, Answered, IsSubsequence, Heard, SentCodes;
    match e
    case InHouse(op) =>
      IssuedGrows(d.house, op);
      var t := R.Step(d.house, op);
      if op.Restart? {
        AirIsSubsequence(d, id);
        assert t.issued[..|t.issued|] == t.issued;
      } else {
        assert t.issued[..d.base] == d.house.issued[..d.base];
      }
    case OnRadio(a) =>
  }

  lemma {:induction false} HappenFollows(d: Device, es: seq<Event>, id: bv32)
    requires InStep(d) && AirFollows(d, id) && CanHappen(d, es)
    ensures InStep(Happen(d, es)) && AirFollows(Happen(d, es), id)
    decreases es
  {
    hide InStep, AirFollows, Possible, After;
    if es != [] {
      AfterInStep(d, es[0]);
      AfterFollows(d, es[0], id);
      HappenFollows(After(d, es[0]), es[1..], id);
    }
  }

  // ---------------------------------------------------------------- the codes of one remote

  /** The part of a remote's id that is sent. */
  function AirId(id: u32): bv32 {
    Bits32(id) & 0xFF_FFFF
  }

  /** No command was issued under another id with the same 24 bits. */
  ghost predicate OwnId(issued: seq<Issue>, id: u32) {
    forall i :: 0 <= i < |issued| && AirId(issued[i].remoteId) == AirId(id) ==> issued[i].remoteId == id
  }

  function CodeBits(codes: seq<u16>): seq<Code> {
    seq(|codes|, i requires 0 <= i < |codes| => Bits16(codes[i]))
  }

  lemma EncodedCode(remoteId: bv32, code: bv16, button: bv32, id: bv32)
    ensures var r := FrameCode(F.Encode(remoteId, code, button), id);
            r == [] || (remoteId & 0xFF_FFFF == id && r == [code])
  {
    hide F.EncodeKey, F.Decode, F.KnownButton, F.LowButton;
    F.DecodeEncode(F.FIXED_KEY, remoteId, code, button);
  }

  lemma CodeOfOne(i: Issue, id: u32)
    ensures var code := FrameCode(F.Encode(Bits32(i.remoteId), Bits16(i.rollingCode), Bits32(i.buttons)), AirId(id));
            code == [] || (AirId(i.remoteId) == AirId(id) && code == [Bits16(i.rollingCode)])
  {
    hide Bits16, Bits32, F.Encode, FrameCode;
    EncodedCode(Bits32(i.remoteId), Bits16(i.rollingCode), Bits32(i.buttons), AirId(id));
  }

  lemma {:induction false} TakenAreIssued(issued: seq<Issue>, id: u32)
    requires OwnId(issued, id)
    ensures IsSubsequence(SentCodes(Taken(issued), AirId(id)), CodeBits(Codes(issued, id)))
  {
    hide FrameCode, F.Encode, AirId, Bits16, Bits32, IsSubsequence;
    if issued == [] {
      NothingIsSubsequence(CodeBits(Codes(issued, id)));
    } else {
      var before, i := issued[..|issued| - 1], issued[|issued| - 1];
      assert OwnId(before, id);
      TakenAreIssued(before, id);
      CodeOfOne(i, id);
      var code := FrameCode(F.Encode(Bits32(i.remoteId), Bits16(i.rollingCode), Bits32(i.buttons)), AirId(id));
      var sent: seq<Code> := if i.accepted then code else [];
      var codes: seq<u16> := if i.remoteId == id then [i.rollingCode] else [];
      OneSent(Outgoing(i), AirId(id));
      SentAppend(Taken(before), if i.accepted then [Outgoing(i)] else [], AirId(id));
      assert SentCodes(Taken(issued), AirId(id)) == SentCodes(Taken(before), AirId(id)) + sent;
      assert CodeBits(Codes(before, id) + codes) == CodeBits(Codes(before, id)) + CodeBits(codes);
      OneIsSubsequence(sent, CodeBits(codes));
      SubsequenceAppend(SentCodes(Taken(before), AirId(id)), CodeBits(Codes(before, id)), sent, CodeBits(codes));
    }
  }

  lemma NothingIsSubsequence(b: seq<Code>)
    ensures IsSubsequence([], b)
  {
  }

  lemma OneIsSubsequence(a: seq<Code>, b: seq<Code>)
    requires a == [] || a == b
    ensures IsSubsequence(a, b)
  {
    PrefixIsSubsequence(a, b);
  }

  /** From reset on, in every interleaving and across every restart, the codes heard from a remote are the
      codes it issued, in that order, some of them left out: none is heard twice, none out of turn, and none
      that was not issued. */
  lemma AirFollowsCodes(es: seq<Event>, id: u32)
    requires CanHappen(Reset(), es) && OwnId(Happen(Reset(), es).house.issued, id)
    ensures var d := Happen(Reset(), es);
            IsSubsequence(Heard(d.Air(), AirId(id)), CodeBits(Codes(d.house.issued, id)))
  {
    ResetInStep(AirId(id));
    hide InStep, AirFollows, CanHappen, Happen, Heard, Taken, SentCodes, IsSubsequence, Codes, CodeBits, AirId,
      OwnId;
    HappenFollows(Reset(), es, AirId(id));
    var d := Happen(Reset(), es);
    AirIsSubsequence(d, AirId(id));
    TakenAreIssued(d.house.issued, id);
    SubsequenceTrans(Heard(d.Air(), AirId(id)), SentCodes(Taken(d.house.issued), AirId(id)),
                     CodeBits(Codes(d.house.issued, id)));
  }

  lemma ResetInStep(id: bv32)
    ensures InStep(Reset()) && AirFollows(Reset(), id)
  {
    R.NewHouseInv(0);
  }

  // ---------------------------------------------------------------- runs of the house

  function HouseOps(es: seq<Event>): seq<R.Op> {
    if es == [] then [] else (if es[0].InHouse? then [es[0].op] else []) + HouseOps(es[1..])
  }

  /** Seen from the house, it is one of its runs. */
  lemma {:induction false} HappenIsRun(d: Device, es: seq<Event>)
    requires CanHappen(d, es)
    ensures R.CanRun(d.house, HouseOps(es)) && Happen(d, es).house == R.Run(d.house, HouseOps(es))
    decreases es
  {
    hide R.Enabled, R.Step, Queued, Answered, W.Next;
    if es != [] {
      HappenIsRun(After(d, es[0]), es[1..]);
      if es[0].InHouse? {
        R.RunCons(d.house, es[0].op, HouseOps(es[1..]));
      } else {
        assert [] + HouseOps(es[1..]) == HouseOps(es[1..]);
      }
    }
  }

  /** What a receiver hears of a remote created here, on its own or with a blind: in every run from reset, in
      every interleaving with the radio core, and across any number of clean restarts, codes from 1, 2, 3, ...
      in that order, those missing whose command the full queue refused or is still waiting to send. */
  lemma CodesOnAir(es: seq<Event>, before: seq<R.Op>, op: R.Op, after: seq<R.Op>) returns (n: nat)
    requires CanHappen(Reset(), es) && HouseOps(es) == before + ([op] + after)
    requires R.CanRun(NewHouse(), before) && KeepsAheadRun(NewHouse(), before)
    requires var h := R.Run(NewHouse(), before);
             && Creates(h, op) && R.CanRun(R.Step(h, op), after)
             && UndisturbedRun(R.Step(h, op), after, h.nextRemote)
             && OwnId(Happen(Reset(), es).house.issued, h.nextRemote)
    ensures var id, d := R.Run(NewHouse(), before).nextRemote, Happen(Reset(), es);
            && Codes(d.house.issued, id) == Successive(1, n)
            && IsSubsequence(Heard(d.Air(), AirId(id)), CodeBits(Successive(1, n)))
  {
    hide CanHappen, Happen, R.CanRun, R.Run, R.Enabled, R.Step, KeepsAheadRun, UndisturbedRun, Creates, Heard,
      IsSubsequence, Codes, Successive, CodeBits, AirId, OwnId;
    var h := R.Run(NewHouse(), before);
    HappenIsRun(Reset(), es);
    R.RunSplit(NewHouse(), before, [op] + after);
    R.RunFirst(h, op, after);
    n := CodesFromReset(before, op, after);
    AirFollowsCodes(es, h.nextRemote);
  }

  // ---------------------------------------------------------------- nothing accepted is lost

  /** A restart that waits for the queue to drain, with no command queued behind the Stop marker. */
  ghost predicate Drained(d: Device) {
    d.radio.main.Returned? && d.radio.before == |d.radio.accepted|
  }

  ghost predicate DrainedRun(d: Device, es: seq<Event>)
    requires CanHappen(d, es)
    decreases es
  {
    es != [] ==>
      && (es[0].InHouse? && es[0].op.Restart? ==> Drained(d))
      && DrainedRun(After(d, es[0]), es[1..])
  }

  ghost predicate AllHeard(d: Device, id: bv32) {
    d.base <= |d.house.issued| && Heard(d.earlier, id) == SentCodes(Taken(d.house.issued[..d.base]), id)
  }

  lemma DrainedIsHeard(d: Device, id: bv32)
    requires InStep(d) && AllHeard(d, id) && Drained(d)
    ensures Heard(d.Air(), id) == SentCodes(Taken(d.house.issued), id)
  {
    HeardInAll(d, id);
    DrainedAir(d.radio);
    HeardOnAir(d.radio.accepted, id);
    hide InStep, Heard, SentCodes, Taken;
  }

  lemma DrainedAir(s: W.State)
    requires W.Inv(s) && s.main.Returned? && s.before == |s.accepted|
    ensures s.air == W.OnAir(s.accepted)
  {
    hide W.Outgoing.Packets, W.OnAir;
    assert s.accepted[..s.before] == s.sent;
  }

  lemma AfterAllHeard(d: Device, e: Event, id: bv32)
    requires InStep(d) && AllHeard(d, id) && Possible(d, e)
    requires e.InHouse? && e.op.Restart? ==> Drained(d)
    ensures AllHeard(After(d, e), id)
  {
    hide Inv, W.Inv, R.Step, R.Enabled, Taken, Queued, Answered, Heard, SentCodes;
    match e
    case InHouse(op) =>
      IssuedGrows(d.house, op);
      var t := R.Step(d.house, op);
      if op.Restart? {
        DrainedIsHeard(d, id);
        assert t.issued[..|t.issued|] == t.issued;
      } else {
        assert t.issued[..d.base] == d.house.issued[..d.base];
      }
    case OnRadio(a) =>
  }

  /** When every restart lets the queue drain, and it has drained once more, every command the queue ever took
      has been heard, if receivers of this kind take its button at all. */
  lemma {:induction false} EveryAcceptedIsHeard(d: Device, es: seq<Event>, id: bv32)
    requires InStep(d) && AllHeard(d, id) && CanHappen(d, es) && DrainedRun(d, es) && Drained(Happen(d, es))
    ensures var t := Happen(d, es);
            Heard(t.Air(), id) == SentCodes(Taken(t.house.issued), id)
    decreases es
  {
    hide InStep, AllHeard, Possible, After, Heard, SentCodes, Taken, Drained;
    if es == [] {
      DrainedIsHeard(d, id);
    } else {
      AfterInStep(d, es[0]);
      AfterAllHeard(d, es[0], id);
      EveryAcceptedIsHeard(After(d, es[0]), es[1..], id);
    }
  }
}
