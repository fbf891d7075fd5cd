/** The radio command queue's own code: building and decoding frames in place, and the ring buffer
    that hands received commands from the radio core to the main core. */
module CommandQueue {
  import opened Basics
  import opened Frames
  import opened ReceiveRing

  /** What goes on air: the wake-up burst that precedes a command, or a frame. */
  datatype Packet = Wake | Rts(frame: Frame)

  /** One command on air: the wake-up burst, the frame, and its repeats. */
  function Transmission(frame: Frame, repeat: nat): seq<Packet> {
    [Wake] + seq(1 + repeat, _ => Rts(frame))
  }

  /** What a receiver takes a command for: the low 24 bits of the id, the rolling code and the button. */
  function Taken(remoteId: bv32, rollingCode: bv16, button: bv32): Command {
    Command(remoteId & 0xFF_FFFF, rollingCode, LowButton(button))
  }

  /** A frame that carries this command under the fixed key: receivers take it if its button is one they know, and
      otherwise ignore it. */
  predicate Says(f: Frame, remoteId: bv32, rollingCode: bv16, button: bv32) {
    && Unchain(f)[0] == FIXED_KEY
    && Decode(f) == if KnownButton(LowButton(button))
                    then Some(Taken(remoteId, rollingCode, button)) else None
  }

  /** One wake-up burst, and after it the frame once and then `repeat` times more; nothing else. */
  predicate Sends(p: seq<Packet>, remoteId: bv32, rollingCode: bv16, button: bv32, repeat: nat) {
    && |p| == 2 + repeat && p[0].Wake?
    && forall k :: 1 <= k < 2 + repeat ==> p[k].Rts? && Says(p[k].frame, remoteId, rollingCode, button)
  }

  lemma TransmissionSends(remoteId: bv32, rollingCode: bv16, button: bv32, repeat: nat)
    ensures Sends(Transmission(Encode(remoteId, rollingCode, button), repeat), remoteId, rollingCode, button, repeat)
  {
    hide Decode, Unchain, EncodeKey, KnownButton, LowButton;
    DecodeEncode(FIXED_KEY, remoteId, rollingCode, button);
  }

  // ---------------------------------------------------------------- the loops over frame bytes

  /** XOR of all bytes and their high nibbles. */
  method ComputeChecksum(bytes: array<bv8>) returns (checksum: bv8)
    requires bytes.Length >= FRAME_SIZE
    ensures checksum == Checksum(bytes[..FRAME_SIZE])
  {
    hide Xor, Fold;
    checksum := 0;
    var a := 0;
    while a < FRAME_SIZE
      invariant 0 <= a <= FRAME_SIZE
      invariant checksum == Checksum(bytes[..a])
    {
      checksum := Xor(checksum, Fold(bytes[a]));
      assert bytes[..a + 1][..a] == bytes[..a];
      a := a + 1;
    }
  }

  /** Front to back: each byte is XORed with the already encrypted one before it. */
  method Encrypt(payload: array<bv8>)
    requires payload.Length >= FRAME_SIZE
    modifies payload
    ensures payload[..FRAME_SIZE] == Chain(old(payload[..FRAME_SIZE]))
    ensures forall i :: FRAME_SIZE <= i < payload.Length ==> payload[i] == old(payload[i])
  {
    hide Xor;
    ghost var before, plain := payload[..], payload[..FRAME_SIZE];
    var a := 1;
    while a < FRAME_SIZE
      invariant 1 <= a <= FRAME_SIZE
      invariant payload[..a] == Chain(plain[..a])
      invariant forall i :: a <= i < payload.Length ==> payload[i] == before[i]
    {
      ghost var r := Chain(plain[..a]);
      assert plain[..a + 1][..a] == plain[..a];
      assert Chain(plain[..a + 1]) == r + [Xor(plain[a], r[a - 1])];
      assert payload[a - 1] == payload[..a][a - 1] == r[a - 1];
      payload[a] := Xor(payload[a], payload[a - 1]);
      assert payload[..a] == r;
      assert payload[..a + 1] == payload[..a] + [payload[a]];
      a := a + 1;
    }
    assert plain[..FRAME_SIZE] == plain;
  }

  /** Back to front: each byte is XORed with the still encrypted one before it. */
  method Decrypt(msg: array<bv8>)
    requires msg.Length == FRAME_SIZE
    modifies msg
    ensures msg[..] == Unchain(old(msg[..]))
  {
    hide Unchain, Xor;
    ghost var f := msg[..];
    var a := FRAME_SIZE - 1;
    while a > 0
      invariant 0 <= a < FRAME_SIZE
      invariant forall i :: 0 <= i <= a ==> msg[i] == f[i]
      invariant forall i :: a < i < FRAME_SIZE ==> msg[i] == Xor(f[i], f[i - 1])
    {
      msg[a] := Xor(msg[a], msg[a - 1]);
      a := a - 1;
    }
    forall i | 0 <= i < FRAME_SIZE
      ensures msg[i] == Unchain(f)[i]
    {
      UnchainAt(f, i);
    }
  }

  // ---------------------------------------------------------------- the ring buffer

  /** The entries of a ring buffer, oldest first. */
  function Unroll(buffer: seq<Entry>, read: nat, count: nat): (q: seq<Entry>)
    requires |buffer| == RING_SIZE
    ensures |q| == count
  {
    seq(count, k requires 0 <= k => buffer[(read + k) % RING_SIZE])
  }

  /** Where the newest entry is, or the next one goes when there is none. */
  function WriteIndex(read: nat, count: nat): nat {
    if count == 0 then read % RING_SIZE else (read + count - 1) % RING_SIZE
  }

  lemma UnrollPop(buffer: seq<Entry>, read: nat, count: nat)
    requires |buffer| == RING_SIZE && count > 0
    ensures Unroll(buffer, (read + 1) % RING_SIZE, count - 1) == Unroll(buffer, read, count)[1..]
    ensures Unroll(buffer, read, count)[0] == buffer[read % RING_SIZE]
  {
    var popped, q := Unroll(buffer, (read + 1) % RING_SIZE, count - 1), Unroll(buffer, read, count);
    forall k | 0 <= k < count - 1
      ensures popped[k] == q[k + 1]
    {
      NextIndex(read, k);
    }
  }

  lemma NextIndex(read: nat, k: nat)
    ensures ((read + 1) % RING_SIZE + k) % RING_SIZE == (read + (k + 1)) % RING_SIZE
  {
  }

  lemma PopIndex(read: nat, count: nat)
    requires read < RING_SIZE && 0 < count
    ensures WriteIndex((read + 1) % RING_SIZE, count - 1) ==
            if count == 1 then (read + 1) % RING_SIZE else WriteIndex(read, count)
  {
    if count > 1 {
      NextIndex(read, count - 2);
    }
  }

  lemma UnrollPush(buffer: seq<Entry>, read: nat, count: nat, e: Entry)
    requires |buffer| == RING_SIZE && count <= CAPACITY
    ensures Unroll(buffer[WriteIndex(read, count + 1) := e], read, count + 1) == Unroll(buffer, read, count) + [e]
  {
  }

  lemma NextWrite(read: nat, count: nat)
    requires read < RING_SIZE
    ensures WriteIndex(read, count) < RING_SIZE
    ensures WriteIndex(read, count + 1) == if count == 0 then WriteIndex(read, 0)
            else (WriteIndex(read, count) + 1) % RING_SIZE
  {
  }

  lemma UnrollSetLast(buffer: seq<Entry>, read: nat, count: nat, e: Entry)
    requires |buffer| == RING_SIZE && 0 < count <= RING_SIZE
    ensures Unroll(buffer[WriteIndex(read, count) := e], read, count) == Unroll(buffer, read, count)[count - 1 := e]
    ensures Last(Unroll(buffer, read, count)) == buffer[WriteIndex(read, count)]
  {
  }

  // ---------------------------------------------------------------- the queue

  class RadioCommandQueue {
    var recvWrite: nat
    var recvRead: nat
    var recvCount: nat
    const receivedCommands: array<Entry>

    /** The queue with its history, and everything transmitted so far. */
    ghost var ring: Ring
    ghost var air: seq<Packet>

    ghost predicate Valid()
      reads this, receivedCommands
    {
      && receivedCommands.Length == RING_SIZE
      && recvRead < RING_SIZE && recvCount <= CAPACITY
      && recvWrite == WriteIndex(recvRead, recvCount)
      && ring.queue == Unroll(receivedCommands[..], recvRead, recvCount)
    }

    constructor ()
      ensures Valid() && fresh(receivedCommands) && ring == EMPTY && air == []
    {
      recvWrite, recvRead, recvCount := 0, 0, 0;
      receivedCommands := new Entry[RING_SIZE](_ => Entry(Command(0, 0, 0), 0, 0));
      ring := EMPTY;
      air := [];
    }

    /** Transmit a command: the frame of `Encode`, once and then `repeat` times more. */
    method ExecuteCommand(remoteId: bv32, rollingCode: bv16, button: bv32, repeat: u16)
      modifies this`air
      ensures air == old(air) + Transmission(Encode(remoteId, rollingCode, button), repeat)
      ensures old(air) <= air && Sends(air[|old(air)|..], remoteId, rollingCode, button, repeat)
    {
      hide Encode, Sends;
      TransmissionSends(remoteId, rollingCode, button, repeat);
      air := air + [Wake];
      var payload := BuildPayload(remoteId, rollingCode, button);
      ghost var frame := Encode(remoteId, rollingCode, button);
      air := air + [Rts(payload[..FRAME_SIZE])];
      var a := 0;
      while a < repeat
        invariant 0 <= a <= repeat
        invariant air == old(air) + Transmission(frame, a)
        invariant payload[..FRAME_SIZE] == frame
      {
        air := air + [Rts(payload[..FRAME_SIZE])];
        a := a + 1;
      }
      assert air[|old(air)|..] == Transmission(frame, repeat);
    }

    /** The payload handed to the radio: fields, checksum, XOR chain, and zeros after the frame. */
    method BuildPayload(remoteId: bv32, rollingCode: bv16, button: bv32) returns (payload: array<bv8>)
      ensures fresh(payload) && payload.Length == 16
      ensures payload[..FRAME_SIZE] == Encode(remoteId, rollingCode, button)
      ensures forall i :: FRAME_SIZE <= i < 16 ==> payload[i] == 0
    {
      hide Chain, Checksum, ButtonByte, IdByte, RollHigh, RollLow, Merge, Low;
      payload := new bv8[16](_ => 0);
      payload[0], payload[1] := FIXED_KEY, ButtonByte(button);
      payload[2], payload[3] := RollHigh(rollingCode), RollLow(rollingCode);
      payload[4], payload[5], payload[6] := IdByte(remoteId, 2), IdByte(remoteId, 1), IdByte(remoteId, 0);
      ghost var p := Plain(FIXED_KEY, remoteId, rollingCode, button);
      assert payload[..FRAME_SIZE] == p;
      var checksum := ComputeChecksum(payload);
      payload[1] := Merge(payload[1], Low(checksum));
      assert payload[..FRAME_SIZE] == p[1 := Merge(p[1], Low(Checksum(p)))];
      Encrypt(payload);
    }

    /** Decode a frame off the air and put it in the ring, counting repeats of the newest entry. */
    method ReceiveCommand(msg: array<bv8>, now: int)
      requires Valid() && msg.Length == FRAME_SIZE
      modifies this, receivedCommands, msg
      ensures Valid() && ring == Step(old(ring), Recv(old(msg[..]), now)) && air == old(air)
    {
      hide Unroll, Decode, Receive, WriteIndex;
      var command := DecodeInPlace(msg);
      if command.Some? {
        Store(command.value, now);
      }
    }

    /** The locked part of a reception. */
    method Store(command: Command, now: int)
      requires Valid()
      modifies this, receivedCommands
      ensures Valid() && ring == Receive(old(ring), command, now) && air == old(air)
    {
      hide Unroll, WriteIndex;
      ghost var buffer := receivedCommands[..];
      ring := Receive(ring, command, now);
      NextWrite(recvRead, recvCount);
      var save := true;
      if recvCount != 0 {
        var newest := receivedCommands[recvWrite];
        UnrollSetLast(buffer, recvRead, recvCount, Entry(command, (newest.repeat + 1) % 0x1_0000, now));
        if newest.command == command {
          receivedCommands[recvWrite] := Entry(command, (newest.repeat + 1) % 0x1_0000, now);
          save := false;
        } else {
          if recvCount == RING_SIZE - 1 {
            return;
          }
          recvWrite := (recvWrite + 1) % RING_SIZE;
        }
      }
      if save {
        UnrollPush(buffer, recvRead, recvCount, Entry(command, 0, now));
        receivedCommands[recvWrite] := Entry(command, 0, now);
        recvCount := recvCount + 1;
      }
    }

    /** Hand on the oldest command if it has been quiet for long enough. */
    method ReadCommand(now: int) returns (command: Option<Entry>)
      requires Valid()
      modifies this
      ensures Valid() && ring == Step(old(ring), Read(now)) && air == old(air)
      ensures command == if Ready(old(ring.queue), now) then Some(old(ring.queue)[0]) else None
    {
      if recvCount == 0 {
        return None;
      }
      hide Unroll, WriteIndex;
      UnrollPop(receivedCommands[..], recvRead, recvCount);
      PopIndex(recvRead, recvCount);
      if now - receivedCommands[recvRead].lastMsgTime < QUIET_TIME {
        return None;
      }
      command := Some(receivedCommands[recvRead]);
      recvCount := recvCount - 1;
      recvRead := (recvRead + 1) % RING_SIZE;
      if recvCount == 0 {
        recvWrite := recvRead;
      }
      ring := Step(ring, Read(now));
    }
  }

  /** Undo the chain, and test checksum and button; the frame's bytes are used up. */
  method DecodeInPlace(msg: array<bv8>) returns (command: Option<Command>)
    requires msg.Length == FRAME_SIZE
    modifies msg
    ensures command == Decode(old(msg[..]))
  {
    hide Unchain, Checksum, High, Low;
    ghost var f := msg[..];
    Decrypt(msg);
    var checksum := Low(msg[1]);
    ghost var d := msg[..];
    msg[1] := High(msg[1]);
    assert msg[..] == d[1 := High(d[1])];
    var rcvChecksum := ComputeChecksum(msg);
    assert msg[..FRAME_SIZE] == msg[..];
    HighNibble(d[1]);
    var button := msg[1] >> 4;
    if Low(rcvChecksum) != checksum || (button != UP && button != DOWN && button != MY) {
      return None;
    }
    command := Some(Command(JoinId(msg[4], msg[5], msg[6]), JoinRoll(msg[2], msg[3]), button));
    assert Decode(f) == command;
  }

  lemma HighNibble(b: bv8)
    ensures High(b) >> 4 == b >> 4
  {
  }
}
