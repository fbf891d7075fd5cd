/** Remotes and blinds as the objects they are: fields updated in place, each proved to change as the
    registry's functions say. Collaborators an object holds a pointer to are passed as arguments. */
module Devices {
  import opened Basics
  import opened Records
  import H = House
  import M = Motion
  import D = DeviceConfig
  import W = DiskWrites

  /** The main core's end of the outgoing queue. Whether there is room depends on how far the radio
      core has got, so the answer may be either. */
  class OutgoingQueue {
    ghost var issued: seq<H.Issue>

    constructor ()
      ensures issued == []
    {
      issued := [];
    }

    method QueueCommand(remoteId: u32, rollingCode: u16, buttons: int, repeat: u16) returns (accepted: bool)
      modifies this
      ensures issued == old(issued) + [H.Issue(remoteId, rollingCode, buttons, repeat, accepted)]
    {
      accepted := *;
      issued := issued + [H.Issue(remoteId, rollingCode, buttons, repeat, accepted)];
    }
  }

  // ---------------------------------------------------------------- a blind on its own

  class Blind {
    const blindId: u16
    const remote: SomfyRemote
    var isDirty: bool
    var name: Name
    var openTime: int
    var closeTime: int
    var lastTick: int
    var motionDirection: int
    var intermediatePosition: real
    var targetPosition: int
    var favouritePosition: int

    ghost function Motion(): M.Motion
      reads this
    {
      M.Motion(openTime, closeTime, targetPosition, favouritePosition, intermediatePosition, motionDirection, lastTick)
    }

    ghost function State(): H.Blind
      reads this
    {
      H.Blind(name, remote.remoteId, Motion(), isDirty)
    }

    constructor (blindId: u16, name: Name, currentPosition: int, favouritePosition: int, openTime: int, closeTime: int,
                 remote: SomfyRemote, now: int)
      ensures this.blindId == blindId && this.remote == remote
      ensures State() == H.Blind(name, remote.remoteId,
                                 M.Motion(openTime, closeTime, currentPosition,
                                          if favouritePosition > 100 || favouritePosition < 0 then 50
                                            else favouritePosition,
                                          currentPosition as real, 0, now), false)
    {
      this.blindId, this.remote, this.name, isDirty := blindId, remote, name, false;
      targetPosition, intermediatePosition := currentPosition, currentPosition as real;
      this.openTime, this.closeTime, motionDirection, lastTick := openTime, closeTime, 0, now;
      this.favouritePosition := if favouritePosition > 100 || favouritePosition < 0 then 50 else favouritePosition;
    }

    /** New name and times; the primary remote is renamed with the blind. */
    method UpdateConfig(name: Name, openTime: int, closeTime: int)
      modifies this, remote
      ensures State() == old(State()).(name := name, dirty := true,
                                       motion := old(Motion()).(openTime := openTime, closeTime := closeTime))
      ensures remote.State() == old(remote.State()).(name := name, dirty := true)
    {
      this.name, this.openTime, this.closeTime, isDirty := name, openTime, closeTime, true;
      remote.SetName(name);
    }

    /** A button on a remote bound to this blind was pressed. */
    method ButtonsPressed(button: int, longPress: bool, now: int)
      modifies this
      ensures State() == H.PressBlind(old(State()), button, longPress, now)
    {
      if button == M.UP {
        targetPosition := 100;
        motionDirection := 1;
      }
      if button == M.DOWN {
        targetPosition := 0;
        motionDirection := -1;
      }
      if button == M.MY {
        if motionDirection != 0 {
          targetPosition := M.Round(intermediatePosition);
          motionDirection := 0;
        } else if longPress {
          if targetPosition > 0 && targetPosition < 100 {
            favouritePosition := targetPosition;
          } else {
            return;
          }
        } else {
          targetPosition := favouritePosition;
          motionDirection := if targetPosition as real > intermediatePosition then 1 else -1;
        }
      }
      lastTick := now;
      isDirty := true;
    }

    /** The part of a tick before a stop: advance the estimate, and see whether it has arrived. */
    method Advance(now: int) returns (arrived: bool)
      requires motionDirection != 0 && openTime > 0 && closeTime > 0
      modifies this
      ensures arrived == M.Arrives(old(Motion()), now)
      ensures State() == old(State()).(motion :=
                old(Motion()).(position := if arrived then old(targetPosition) as real
                               else M.Travelled(old(Motion()), now)))
    {
      var elapsed := M.Seconds(lastTick, now);
      var pctPerSecond := if motionDirection > 0 then 100.0 / openTime as real else -(100.0 / closeTime as real);
      var travelled := elapsed * pctPerSecond;
      intermediatePosition := intermediatePosition + travelled;
      if intermediatePosition > 100.0 {
        intermediatePosition := 100.0;
      } else if intermediatePosition < 0.0 {
        intermediatePosition := 0.0;
      }
      arrived := (motionDirection > 0 && intermediatePosition >= targetPosition as real)
              || (motionDirection < 0 && intermediatePosition <= targetPosition as real);
      if arrived {
        intermediatePosition := targetPosition as real;
      }
    }

    /** The rest of a tick: stop the blind if it has arrived, and note the time. */
    method Settle(arrived: bool, now: int)
      modifies this
      ensures State() == old(State()).(motion := Settled(old(Motion()), arrived, now))
    {
      if arrived {
        motionDirection := 0;
      }
      lastTick := now;
    }

    /** What goes on flash: the target as the position. */
    method Record() returns (cfg: BlindConfig)
      requires H.Storable(State())
      ensures cfg == H.BlindRecord(State())
    {
      cfg := BlindConfig(name, targetPosition, favouritePosition, openTime, closeTime, remote.remoteId);
    }

    /** Save the blind's record if anything changed, or in any case; when the store is full it is lost, and
        the blind no longer marked. */
    method SaveConfig(config: D.DeviceConfig, force: bool) returns (ghost stored: bool)
      requires config.Valid() && H.Storable(State())
      modifies this`isDirty, config.storage, config.storage.flash
      ensures config.Valid() && (old(config.Room()) > 0 ==> stored)
      ensures State() == old(State()).(dirty := false)
      ensures config.Disk() == if (old(isDirty) || force) && stored
              then H.StoreBlind(old(config.Disk()), blindId, old(State()))
                               else old(config.Disk())
      ensures config.Room() >= old(config.Room()) - (if blindId in old(config.Disk()).blinds then 0 else 1)
      ensures W.Wrote(old(config.storage.history), config.storage.history, old(config.Disk()),
                      if old(isDirty) || force then [W.PutBlind(blindId, H.BlindRecord(old(State())))] else [])
    {
      hide D.DeviceConfig.Valid, D.DeviceConfig.Disk, D.DeviceConfig.Room, H.Storable, H.BlindRecord, W.Wrote;
      if !isDirty && !force {
        W.WroteNothing(config.storage.history, config.Disk(), []);
        return true;
      }
      var cfg := Record();
      stored := config.SaveBlindConfig(blindId, cfg);
      isDirty := false;
    }
  }

  function Settled(m: M.Motion, arrived: bool, now: int): M.Motion {
    m.(direction := if arrived then 0 else m.direction, lastTick := now)
  }

  /** A table of blinds, keyed by their ids, and what it holds. */
  ghost predicate Keyed(blinds: map<u32, Blind>) {
    forall b :: b in blinds ==> blinds[b].blindId == b
  }

  ghost function States(blinds: map<u32, Blind>): (s: map<u32, H.Blind>)
    reads blinds.Values
    ensures s.Keys == blinds.Keys
  {
    map b | b in blinds :: blinds[b].State()
  }

  lemma NonePressed(blinds: map<u32, H.Blind>, button: int, longPress: bool, now: int)
    ensures H.PressBlinds(blinds, [], button, longPress, now) == blinds
  {
  }

  lemma PressedOneMore(blinds: map<u32, H.Blind>, ids: seq<u16>, i: nat, button: int, longPress: bool, now: int)
    requires i < |ids| && forall b :: b in ids ==> b in blinds
    ensures var before := H.PressBlinds(blinds, ids[..i], button, longPress, now);
            var after := before[ids[i] := H.PressBlind(before[ids[i]], button, longPress, now)];
            H.PressBlinds(blinds, ids[..i + 1], button, longPress, now) == after
  {
    hide H.PressBlind;
    assert ids[..i + 1][..i] == ids[..i];
  }

  /** Tell one blind of the table; the others do not change. */
  method TellBlind(blinds: map<u32, Blind>, blindId: u16, button: int, longPress: bool, now: int)
    requires Keyed(blinds) && blindId in blinds
    modifies blinds[blindId]
    ensures var before := old(States(blinds));
            States(blinds) == before[blindId := H.PressBlind(before[blindId], button, longPress, now)]
  {
    hide H.PressBlind;
    blinds[blindId].ButtonsPressed(button, longPress, now);
  }

  // ---------------------------------------------------------------- a remote on its own

  lemma WithoutNone(s: seq<u16>, x: u16)
    ensures H.Without(s, x) == s[..0] + H.Without(s[0..], x)
  {
    assert s[0..] == s;
  }

  lemma WithoutLater(s: seq<u16>, i: nat, x: u16)
    requires i < |s| && s[i] != x
    ensures s[..i] + H.Without(s[i..], x) == s[..i + 1] + H.Without(s[i + 1..], x)
  {
    assert s[i..][1..] == s[i + 1..];
    assert s[..i] + [s[i]] == s[..i + 1];
  }

  lemma WithoutHere(s: seq<u16>, i: nat, x: u16)
    requires i <= |s| && (i < |s| ==> s[i] == x)
    ensures s[..i] + H.Without(s[i..], x) == if i == |s| then s else s[..i] + s[i + 1..]
  {
    if i < |s| {
      assert s[i..][1..] == s[i + 1..];
    } else {
      assert s[..i] == s && s[i..] == [];
    }
  }

  class SomfyRemote {
    const remoteId: u32
    const isExternal: bool
    var remoteName: Name
    var rollingCode: u16
    var isDirty: bool
    var associatedBlinds: seq<u16>

    ghost function State(): H.Remote
      reads this
    {
      H.Remote(remoteName, rollingCode, associatedBlinds, isExternal, isDirty)
    }

    constructor (name: Name, remoteId: u32, rollingCode: u16, associatedBlinds: seq<u16>, isExternal: bool)
      ensures this.remoteId == remoteId
      ensures State() == H.Remote(name, rollingCode, associatedBlinds, isExternal, false)
    {
      this.remoteId, this.isExternal, this.remoteName, this.rollingCode := remoteId, isExternal, name, rollingCode;
      this.associatedBlinds, isDirty := associatedBlinds, false;
    }

    method SetName(name: Name)
      modifies this
      ensures State() == old(State()).(name := name, dirty := true)
    {
      isDirty := true;
      remoteName := name;
    }

    method AssociateBlind(blindId: u16)
      modifies this
      ensures State() == H.Associated(old(State()), blindId)
    {
      isDirty := true;
      if blindId in associatedBlinds {
        return;
      }
      associatedBlinds := associatedBlinds + [blindId];
    }

    /** Find the blind in the list, and erase that entry. */
    method DisassociateBlind(blindId: u16)
      modifies this
      ensures State() == H.Disassociated(old(State()), blindId)
    {
      hide H.Without;
      isDirty := true;
      var pos := 0;
      WithoutNone(associatedBlinds, blindId);
      while pos < |associatedBlinds| && associatedBlinds[pos] != blindId
        invariant 0 <= pos <= |associatedBlinds|
        invariant associatedBlinds == old(associatedBlinds) && State() == old(State()).(dirty := true)
        invariant H.Without(associatedBlinds, blindId)
               == associatedBlinds[..pos] + H.Without(associatedBlinds[pos..], blindId)
      {
        WithoutLater(associatedBlinds, pos, blindId);
        pos := pos + 1;
      }
      WithoutHere(associatedBlinds, pos, blindId);
      if pos == |associatedBlinds| {
        return;
      }
      associatedBlinds := associatedBlinds[..pos] + associatedBlinds[pos + 1..];
    }

    /** What goes on flash; only so many blinds fit. */
    method Record() returns (cfg: RemoteConfig)
      ensures cfg == H.RemoteRecord(remoteId, State())
    {
      var count := |associatedBlinds|;
      if count > MAX_BLINDS {
        count := MAX_BLINDS;
      }
      cfg := RemoteConfig(remoteName, remoteId, rollingCode, associatedBlinds[..count]);
    }

    /** Save the remote's record if anything changed, or in any case; when the store is full it is lost, and
        the remote no longer marked. */
    method SaveConfig(config: D.DeviceConfig, force: bool) returns (ghost stored: bool)
      requires config.Valid()
      modifies this`isDirty, config.storage, config.storage.flash
      ensures config.Valid() && (old(config.Room()) > 0 ==> stored)
      ensures State() == old(State()).(dirty := false)
      ensures config.Disk() == if (old(isDirty) || force) && stored
                               then H.StoreRemote(old(config.Disk()), remoteId, old(State()))
                               else old(config.Disk())
      ensures config.Room() >= old(config.Room()) - (if H.Low(remoteId) in old(config.Disk()).remotes then 0 else 1)
      ensures W.Wrote(old(config.storage.history), config.storage.history, old(config.Disk()),
                      if old(isDirty) || force
                      then [W.PutRemote(H.Low(remoteId), H.RemoteRecord(remoteId, old(State())))] else [])
    {
      hide D.DeviceConfig.Valid, D.DeviceConfig.Disk, D.DeviceConfig.Room, W.Wrote;
      if !isDirty && !force {
        W.WroteNothing(config.storage.history, config.Disk(), []);
        return true;
      }
      var cfg := Record();
      stored := config.SaveRemoteConfig(remoteId, cfg);
      isDirty := false;
    }

    /** Tell each bound blind in turn. */
    method TellBlinds(blinds: map<u32, Blind>, button: int, longPress: bool, now: int)
      requires Keyed(blinds) && forall b :: b in associatedBlinds ==> b in blinds
      modifies blinds.Values
      ensures States(blinds) == H.PressBlinds(old(States(blinds)), associatedBlinds, button, longPress, now)
    {
      hide H.PressBlind, H.PressBlinds, Keyed, States;
      var i := 0;
      assert H.PressBlinds(old(States(blinds)), associatedBlinds[..i], button, longPress, now)
        == old(States(blinds)) by {
        NonePressed(old(States(blinds)), button, longPress, now);
      }
      while i < |associatedBlinds|
        invariant 0 <= i <= |associatedBlinds| && forall b :: b in associatedBlinds ==> b in old(States(blinds))
        invariant States(blinds) == H.PressBlinds(old(States(blinds)), associatedBlinds[..i], button, longPress, now)
      {
        PressedOneMore(old(States(blinds)), associatedBlinds, i, button, longPress, now);
        TellBlind(blinds, associatedBlinds[i], button, longPress, now);
        i := i + 1;
      }
      assert associatedBlinds[..i] == associatedBlinds;
    }

    /** Press buttons on this remote: queue the command under the next rolling code, tell the blinds. */
    method PressButtons(queue: OutgoingQueue, blinds: map<u32, Blind>, buttons: int, repeat: u16, now: int)
      returns (ghost accepted: bool)
      requires Keyed(blinds) && forall b :: b in associatedBlinds ==> b in blinds
      modifies this, queue, blinds.Values
      ensures State() == old(State()).(dirty := true, rollingCode := (old(rollingCode) + 1) % 0x1_0000)
      ensures queue.issued == old(queue.issued) + [H.Issue(remoteId, old(rollingCode), buttons, repeat, accepted)]
      ensures States(blinds) == H.PressBlinds(old(States(blinds)), associatedBlinds, buttons, repeat > M.SHORT_PRESS,
              now)
    {
      hide H.PressBlinds, States, Keyed;
      isDirty := true;
      var code := rollingCode;
      rollingCode := (rollingCode + 1) % 0x1_0000;
      var taken := queue.QueueCommand(remoteId, code, buttons, repeat);
      accepted := taken;
      TellBlinds(blinds, buttons, repeat > M.SHORT_PRESS, now);
    }

    /** The genuine remote of this id was heard: follow its rolling code, tell the blinds. */
    method ExternalButtonPress(blinds: map<u32, Blind>, buttons: int, repeat: u16, code: u16, now: int)
      requires Keyed(blinds) && forall b :: b in associatedBlinds ==> b in blinds
      modifies this, blinds.Values
      ensures State() == old(State()).(dirty := true, rollingCode := (code + 1) % 0x1_0000)
      ensures States(blinds) == H.PressBlinds(old(States(blinds)), associatedBlinds, buttons, repeat > 7, now)
    {
      hide H.PressBlinds, States, Keyed;
      isDirty := true;
      rollingCode := (code + 1) % 0x1_0000;
      TellBlinds(blinds, buttons, repeat > 7, now);
    }
  }
}
