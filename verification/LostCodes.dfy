/** Rolling codes across a loss of power: the remote goes back to what was last saved of it, and issues the
    codes given out since then once more. */
module LostCodes {
  import opened Basics
  import opened Records
  import opened House
  import opened HouseInvariant
  import opened HouseRestart
  import opened HouseRuns
  import opened RollingCodes

  /** A step that neither saves the remotes nor restarts, and leaves this remote there and its code to its
      own presses. */
  ghost predicate Unsaved(h: House, op: Op, id: u32)
    requires Enabled(h, op)
  {
    && !op.SaveRemotesOp? && !op.Restart?
    && !(op.Hear? && op.id == id)
    && id in Step(h, op).remotes
  }

  ghost predicate UnsavedRun(h: House, ops: seq<Op>, id: u32)
    requires CanRun(h, ops)
    decreases ops
  {
    ops != [] ==> Unsaved(h, ops[0], id) && UnsavedRun(Step(h, ops[0]), ops[1..], id)
  }

  lemma {:induction false} UnsavedIsUndisturbed(h: House, ops: seq<Op>, id: u32)
    requires CanRun(h, ops) && UnsavedRun(h, ops, id)
    ensures UndisturbedRun(h, ops, id)
    decreases ops
  {
    hide Step, Enabled;
    if ops != [] {
      UnsavedIsUndisturbed(Step(h, ops[0]), ops[1..], id);
    }
  }

  // ---------------------------------------------------------------- the record stays as it was

  /** The remote is still there, and its record has not changed. */
  ghost predicate RecordKept(h: House, t: House, id: u32) {
    && id in h.remotes && id in t.remotes && t.remotes[id].external == h.remotes[id].external
    && Low(id) in h.disk.remotes && Low(id) in t.disk.remotes && t.disk.remotes[Low(id)] == h.disk.remotes[Low(id)]
  }

  lemma RecordThere(h: House, id: u32)
    requires Inv(h) && id in h.remotes
    ensures Low(id) in h.disk.remotes
  {
    assert RemoteOk(h.disk.remotes, h.nextRemote, id, h.remotes[id]);
  }

  lemma StepKeepsRecord(h: House, op: Op, id: u32)
    requires Inv(h) && Enabled(h, op) && id in h.remotes && Unsaved(h, op, id)
    ensures RecordKept(h, Step(h, op), id)
  {
    StorableBlinds(h);
    RecordThere(h, id);
    hide Inv, AllStorable, Step, InMemory, Low;
    if MemoryOnly(op) {
      InMemoryStep(h, op);
      InMemoryKeepsRecord(h, Step(h, op), id);
    } else {
      TableKeepsRecord(h, op, id);
    }
  }

  lemma InMemoryKeepsRecord(h: House, t: House, id: u32)
    requires InMemory(h, t) && id in h.remotes && Low(id) in h.disk.remotes
    ensures RecordKept(h, t, id)
  {
  }

  lemma TableKeepsRecord(h: House, op: Op, id: u32)
    requires Inv(h) && AllStorable(h.blinds) && Enabled(h, op) && id in h.remotes && Low(id) in h.disk.remotes
    requires Unsaved(h, op, id) && !MemoryOnly(op)
    ensures RecordKept(h, Step(h, op), id)
  {
    hide Inv, AllStorable, CreateRemote, ImportRemote, AddBlind, SaveBlinds, DeleteBlind, DeleteRemote,
      IsAPrimaryRemote, Low, RecordKept, CanCreate;
    match op
    case Add(name) => if NameAllowed(name) { CreateKeepsRecord(h, name, id); } else { Kept(h, id); }
    case Import(r, name) => if NameAllowed(name) { ImportKeepsRecord(h, r, name, id); } else { Kept(h, id); }
    case Delete(r) => DeleteKeepsRecord(h, r, id); Kept(h, id);
    case NewBlindOp(name, openTime, closeTime, now) => AddBlindKeepsRecord(h, name, openTime, closeTime, now, id);
    case RemoveBlind(b) => RemoveKeepsRecord(h, b, id);
    case SaveBlindsOp =>
      SaveBlindsKeeps(h, Ascending(h.blinds.Keys), false);
      KeptBoth(h, SaveBlinds(h, Ascending(h.blinds.Keys), false), id);
    case _ =>
  }

  lemma Kept(h: House, id: u32)
    requires id in h.remotes && Low(id) in h.disk.remotes
    ensures RecordKept(h, h, id)
  {
  }

  lemma KeptBoth(h: House, t: House, id: u32)
    requires id in h.remotes && Low(id) in h.disk.remotes
    requires t.remotes == h.remotes && t.disk.remotes == h.disk.remotes
    ensures RecordKept(h, t, id)
  {
  }

  lemma ImportKeepsRecord(h: House, r: u32, name: Name, id: u32)
    requires id in h.remotes && Low(id) in h.disk.remotes && (r !in h.remotes ==> LowFree(h.remotes, r))
    ensures RecordKept(h, ImportRemote(h, r, name), id)
  {
    hide AddRemote, Low;
    if r !in h.remotes {
      AddKeepsRecord(h, r, name, true, id);
    }
  }

  lemma AddKeepsRecord(h: House, r: u32, name: Name, external: bool, id: u32)
    requires id in h.remotes && Low(id) in h.disk.remotes && r !in h.remotes && LowFree(h.remotes, r)
    ensures RecordKept(h, AddRemote(h, r, name, external), id)
    ensures AddRemote(h, r, name, external).remotes[id] == h.remotes[id]
  {
    hide AddRemote, Low, RemoteRecord, SaveRemoteList;
    AddRemoteEffect(h, r, name, external);
    assert Low(id) != Low(r);
  }

  lemma DeleteKeepsRecord(h: House, r: u32, id: u32)
    requires Inv(h) && r in h.remotes && id in h.remotes && Low(id) in h.disk.remotes
    ensures id in DeleteRemote(h, r).remotes ==> RecordKept(h, DeleteRemote(h, r), id)
  {
    hide Inv, DeleteRemote, Low;
    DeleteRemoteEffect(h, r);
    LowsDiffer(h, r, id);
  }

  lemma RemoveKeepsRecord(h: House, b: u32, id: u32)
    requires Inv(h) && id in h.remotes && Low(id) in h.disk.remotes && id in DeleteBlind(h, b).remotes
    ensures RecordKept(h, DeleteBlind(h, b), id)
  {
    hide Inv, DeleteBlind, Low;
    if b in h.blinds {
      DeleteBlindEffect(h, b);
      PrimaryThere(h, b);
      LowsDiffer(h, h.blinds[b].remoteId, id);
    } else {
      NoSuchBlind(h, b);
    }
  }

  lemma LowsDiffer(h: House, a: u32, b: u32)
    requires Inv(h) && a in h.remotes && b in h.remotes
    ensures a != b ==> Low(a) != Low(b)
  {
  }

  lemma PrimaryThere(h: House, b: u32)
    requires Inv(h) && b in h.blinds
    ensures h.blinds[b].remoteId in h.remotes
  {
    BlindIdsSmall(h.disk.blinds, h.remotes, h.blinds, h.nextBlind);
  }

  lemma CreateKeepsRecord(h: House, name: Name, id: u32)
    requires Inv(h) && CanCreate(h) && id in h.remotes && Low(id) in h.disk.remotes
    ensures RecordKept(h, CreateRemote(h, name), id)
    ensures CreateRemote(h, name).remotes[id] == h.remotes[id]
  {
    hide Inv, AddRemote, Low, CanCreate, LowFree;
    IdsLeft(h);
    NextIsValid(h);
    AddKeepsRecord(h.(nextRemote := h.nextRemote + 1), h.nextRemote, name, false, id);
  }

  lemma AddBlindKeepsRecord(h: House, name: Name, openTime: int, closeTime: int, now: int, id: u32)
    requires Inv(h) && CanCreate(h) && id in h.remotes && Low(id) in h.disk.remotes
    requires h.nextBlind < 0x1_0000 && 0 < openTime < 0x8000_0000 && 0 < closeTime < 0x8000_0000
    ensures RecordKept(h, AddBlind(h, name, openTime, closeTime, now), id)
  {
    NextIsValid(h);
    hide Inv, CreateRemote, AttachBlind, Low;
    CreateKeepsRecord(h, name, id);
    CreateRemoteEffect(h, name);
    AttachEffect(CreateRemote(h, name), NewBlind(name, h.nextRemote, openTime, closeTime, now));
  }

  lemma {:induction false} RunKeepsRecord(h: House, ops: seq<Op>, id: u32)
    requires Inv(h) && CanRun(h, ops) && id in h.remotes && UnsavedRun(h, ops, id)
    ensures Inv(Run(h, ops)) && RecordKept(h, Run(h, ops), id)
    decreases ops
  {
    hide Inv, Step, Enabled;
    if ops == [] {
      RecordThere(h, id);
    } else {
      StepInv(h, ops[0]);
      StepKeepsRecord(h, ops[0], id);
      RunKeepsRecord(Step(h, ops[0]), ops[1..], id);
    }
  }

  // ---------------------------------------------------------------- losing power

  /** After a loss of power a remote is what its record says; one that is not dirty is as it was. */
  lemma LossGives(h: House, now: int, id: u32)
    requires Inv(h) && id in h.remotes
    ensures AllStorable(h.blinds) && Enabled(h, Restart(false, now)) && Low(id) in h.disk.remotes
    ensures var u := Step(h, Restart(false, now));
            && Inv(u) && u.issued == h.issued && id in u.remotes
            && u.remotes[id] == LoadedRemote(h.disk.remotes[Low(id)], h.remotes[id].external)
            && (!h.remotes[id].dirty ==> u.remotes[id] == Restarted(h.remotes[id]))
  {
    hide Inv, Reload, ReloadedRemotes, LoadedRemote, Restarted, Bootable, AllStorable, RemotesOk, ListsOk;
    StorableBlinds(h);
    ReloadInv(h, now);
    ReloadedAsRecorded(h, id);
    SavedRemotes(h);
  }

  lemma ReloadedAsRecorded(h: House, id: u32)
    requires Inv(h) && id in h.remotes
    ensures Low(id) in h.disk.remotes && id in ReloadedRemotes(h.disk)
    ensures ReloadedRemotes(h.disk)[id] == LoadedRemote(h.disk.remotes[Low(id)], h.remotes[id].external)
  {
    ReloadRemotes(h.disk, h.remotes, h.nextRemote);
  }

  /** A remote that is not dirty goes on with its codes. */
  lemma CleanRemoteContinues(h: House, now: int, id: u32)
    requires Inv(h) && id in h.remotes && !h.remotes[id].dirty
    ensures Enabled(h, Restart(false, now)) && Continues(h, Step(h, Restart(false, now)), id)
  {
    hide Inv, Step, Enabled, Continues;
    LossGives(h, now, id);
    SameCode(h, Step(h, Restart(false, now)), id);
  }

  /** A remote that was saved, and then pressed n times without being saved again: after the loss of power
      it holds what was saved, and its codes go on as if nothing had happened exactly if n is a multiple
      of 65536. */
  lemma LossAfterPresses(h: House, ops: seq<Op>, now: int, id: u32) returns (n: nat)
    requires Inv(h) && CanRun(h, ops) && id in h.remotes && !h.remotes[id].dirty && UnsavedRun(h, ops, id)
    ensures var t, c := Run(h, ops), h.remotes[id].rollingCode;
            && id in t.remotes && Enabled(t, Restart(false, now))
            && Codes(t.issued, id) == Codes(h.issued, id) + Successive(c, n)
            && var u := Step(t, Restart(false, now));
               && Inv(u) && u.issued == t.issued && id in u.remotes && u.remotes[id] == Restarted(h.remotes[id])
               && (Continues(t, u, id) <==> n % 0x1_0000 == 0)
  {
    hide Inv, Step, Enabled, Codes, Successive, Later, Restarted, LoadedRemote;
    var t := Run(h, ops);
    RunKeepsRecord(h, ops, id);
    UnsavedIsUndisturbed(h, ops, id);
    RunContinues(h, ops, id);
    n :| Advanced(h, t, id, n);
    LossGives(t, now, id);
    SavedRemotes(h);
    var u := Step(t, Restart(false, now));
    RestartedCode(h.remotes[id]);
    SetBackIff(t, u, id, h.remotes[id].rollingCode, n);
  }

  lemma RestartedCode(r: Remote)
    ensures Restarted(r).rollingCode == r.rollingCode
  {
  }

  lemma SetBackIff(t: House, u: House, id: u32, c: u16, n: nat)
    requires id in t.remotes && id in u.remotes && u.issued == t.issued
    requires t.remotes[id].rollingCode == Later(c, n) && u.remotes[id].rollingCode == c
    ensures Continues(t, u, id) <==> n % 0x1_0000 == 0
  {
    LaterIsSame(c, n);
    if Continues(t, u, id) {
      var m: nat :| Advanced(t, u, id, m);
      assert |Codes(t.issued, id)| == |Codes(t.issued, id)| + m;
      LaterIsSame(Later(c, n), 0);
    } else if n % 0x1_0000 == 0 {
      SameCode(t, u, id);
    }
  }

  lemma LaterIsSame(c: u16, n: nat)
    ensures Later(c, n) == c <==> n % 0x1_0000 == 0
  {
  }

  /** What it issues afterwards starts with the codes given out before the loss. */
  lemma LossRepeatsCodes(h: House, ops: seq<Op>, now: int, id: u32, after: seq<Op>) returns (n: nat, m: nat)
    requires Inv(h) && CanRun(h, ops) && id in h.remotes && !h.remotes[id].dirty && UnsavedRun(h, ops, id)
    requires Enabled(Run(h, ops), Restart(false, now)) && CanRun(Step(Run(h, ops), Restart(false, now)), after)
    requires UndisturbedRun(Step(Run(h, ops), Restart(false, now)), after, id)
    ensures var c, u := h.remotes[id].rollingCode, Step(Run(h, ops), Restart(false, now));
            && Codes(Run(h, ops).issued, id) == Codes(h.issued, id) + Successive(c, n)
            && Codes(Run(u, after).issued, id) == Codes(h.issued, id) + Successive(c, n) + Successive(c, m)
            && forall i :: 0 <= i < n && i < m ==> Successive(c, m)[i] == Successive(c, n)[i]
  {
    hide Inv, Step, Enabled, Run, CanRun, Codes, UnsavedRun, UndisturbedRun, Restarted;
    n := LossAfterPresses(h, ops, now, id);
    var u := Step(Run(h, ops), Restart(false, now));
    RestartedCode(h.remotes[id]);
    RunContinues(u, after, id);
    m :| Advanced(u, Run(u, after), id, m);
  }

  /** So the codes that may come again are at most those since the remotes were last saved. */
  lemma SavedRemotesAreClean(h: House)
    requires Inv(h)
    ensures var s := Step(h, SaveRemotesOp);
            && Inv(s) && s.issued == h.issued && s.remotes.Keys == h.remotes.Keys
            && forall id :: id in s.remotes ==>
                 !s.remotes[id].dirty && s.remotes[id].rollingCode == h.remotes[id].rollingCode
  {
    SaveRemotesInv(h, Ascending(h.remotes.Keys));
    SaveRemotesEffect(h, Ascending(h.remotes.Keys));
    hide Inv, SaveRemotes;
  }
}
