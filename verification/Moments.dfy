/** The flash at every moment of a whole life of the device, as its history shows it: always one of the cuts of
    the operation under way. */
module Moments {
  import opened Basics
  import opened Flash
  import opened House
  import opened HouseInvariant
  import opened HouseRestart
  import opened HouseRuns
  import opened FlashStates
  import opened OpWrites
  import opened CutRuns
  import W = DiskWrites

  lemma NoOrphans(h: House)
    requires Inv(h)
    ensures Bootable(h.disk) && StartWrites(h.disk) == []
  {
    ReloadRemotes(h.disk, h.remotes, h.nextRemote);
    ReloadExternal(h.disk, h.remotes);
    ReloadedBlindsOk(h.disk, h.remotes, h.blinds, h.nextBlind, ReloadedRemotes(h.disk), 0);
    hide Inv, ReloadedRemotes, Bootable, OrphanList;
    HasMember(StartOrphans(h.disk));
  }

  lemma HasMember(ids: seq<u16>)
    ensures ids == [] || exists b: u16 :: b in ids
  {
    if ids != [] {
      assert ids[0] in ids;
    }
  }

  /** With the invariant a start writes nothing, and an event leaves what the next one finds. */
  lemma EventDone(h: House, op: Op)
    requires Inv(h) && Enabled(h, op)
    ensures EventWrites(h, op) == WritesOf(h, op)
    ensures W.Done(h.disk, WritesOf(h, op), |WritesOf(h, op)|) == Step(h, op).disk
  {
    hide Inv, WeakInv, Enabled, WritesOf, NewIdsFree, W.Done, FlashOk, StartWrites, SavesLists;
    IdsFree(h, op);
    WritesDone(h, op, |WritesOf(h, op)|);
    if op.Restart? {
      RestartLeaves(h, op);
    }
  }

  lemma IdsFree(h: House, op: Op)
    requires Inv(h) && Enabled(h, op)
    ensures WeakInv(h) && NewIdsFree(h, op)
  {
    hide Inv, WeakInv, Enabled;
    InvIsWeak(h);
    if SavesLists(h, op) {
      InvFreesIds(h, op);
    }
  }

  lemma RestartLeaves(h: House, op: Op)
    requires Inv(h) && Enabled(h, op) && op.Restart?
    ensures Bootable(EndDisk(h, op)) && StartWrites(EndDisk(h, op)) == [] && Step(h, op).disk == EndDisk(h, op)
  {
    hide Inv, Shutdown, Reload, AllStorable, Bootable, StartWrites;
    if op.clean {
      ShutdownEffect(h);
      NoOrphans(Shutdown(h));
      ReloadInv(Shutdown(h), op.now);
      ShutdownIssued(h);
    } else {
      NoOrphans(h);
      ReloadInv(h, op.now);
    }
  }

  lemma ShutdownIssued(h: House)
    requires Inv(h) && AllStorable(h.blinds)
    ensures Shutdown(h).issued == h.issued
  {
    hide Inv, Shutdown, AllStorable, BlindRecord;
    ShutdownEffect(h);
  }

  lemma CutOfSum(s: seq<Slot>, d: Disk, a: seq<W.Write>, b: seq<W.Write>)
    requires W.AtCut(s, d, a + b)
    ensures W.AtCut(s, d, a) || W.AtCut(s, W.Done(d, a, |a|), b)
  {
    hide W.Holds, W.Done, W.Missing;
    var k: nat, gap: bool :| W.IsCut(a + b, k, gap) && W.Holds(s, W.Cut(d, a + b, k, gap));
    if k < |a| || (k == |a| && !gap) {
      W.DonePrefix(d, a, b, k);
      assert gap ==> (a + b)[k] == a[k];
      assert W.IsCut(a, k, gap) && W.Cut(d, a, k, gap) == W.Cut(d, a + b, k, gap);
    } else {
      W.DoneAppend(d, a, b, k - |a|);
      assert gap ==> (a + b)[k] == b[k - |a|];
      assert W.IsCut(b, k - |a|, gap) && W.Cut(W.Done(d, a, |a|), b, k - |a|, gap) == W.Cut(d, a + b, k, gap);
    }
  }

  /** A flash seen during a run of events: the one under way, and where it is cut. What is on flash is as it
      should be, so that if power is lost now the run goes on as `CutRuns` has it. */
  lemma {:induction false} MomentOfRun(h: House, ops: seq<Op>, s: seq<Slot>) returns (n: nat, k: nat, gap: bool)
    requires Inv(h) && CanRun(h, ops) && ops != [] && W.AtCut(s, h.disk, RunWrites(h, ops))
    ensures n < |ops| && CanRun(h, ops[..n]) && Inv(Run(h, ops[..n])) && Enabled(Run(h, ops[..n]), ops[n])
    ensures var t := Run(h, ops[..n]);
            && W.IsCut(WritesOf(t, ops[n]), k, gap) && NewIdsFree(t, ops[n])
            && W.Holds(s, CutDisk(t, ops[n], k, gap)) && FlashOk(CutDisk(t, ops[n], k, gap))
    decreases ops
  {
    hide Inv, WeakInv, Enabled, Step, WritesOf, EventWrites, NewIdsFree, FlashOk, W.Done, W.Holds, W.Missing;
    var op, t := ops[0], Step(h, ops[0]);
    var first, later := WritesOf(h, op), RunWrites(t, ops[1..]);
    EventDone(h, op);
    IdsFree(h, op);
    StepInv(h, op);
    CutOfSum(s, h.disk, first, later);
    if W.AtCut(s, h.disk, first) {
      n := 0;
      k, gap :| W.IsCut(first, k, gap) && W.Holds(s, W.Cut(h.disk, first, k, gap));
      assert ops[..0] == [];
      CutIsFlashOk(h, op, k, gap);
    } else if ops[1..] == [] {
      DoneIsCut(s, h.disk, first);
    } else {
      n, k, gap := MomentOfRun(t, ops[1..], s);
      n := n + 1;
      assert ops[..n][1..] == ops[1..][..n - 1];
    }
  }

  /** The end of the first writes is one of their cuts. */
  lemma DoneIsCut(s: seq<Slot>, d: Disk, ws: seq<W.Write>)
    requires W.AtCut(s, W.Done(d, ws, |ws|), [])
    ensures W.AtCut(s, d, ws)
  {
    hide W.Holds, W.Done;
    W.CutSuffix(s, d, ws, []);
    assert ws + [] == ws;
  }

  /** So wherever in the history of a run power is lost, what comes up, if it comes up, is what `CutRuns` has
      after the events before and a cut of the one under way. */
  lemma PowerLostInRun(h: House, ops: seq<Op>, before: seq<seq<Slot>>, after: seq<seq<Slot>>, end: Disk, i: nat,
                       now: int)
    returns (n: nat, k: nat, gap: bool)
    requires Inv(h) && CanRun(h, ops) && ops != [] && W.Made(before, after, h.disk, end, RunWrites(h, ops))
    requires |before| <= i < |after|
    ensures n < |ops| && CanRun(h, ops[..n]) && Inv(Run(h, ops[..n])) && Enabled(Run(h, ops[..n]), ops[n])
    ensures var t := Run(h, ops[..n]);
            && W.IsCut(WritesOf(t, ops[n]), k, gap) && W.Holds(after[i], CutDisk(t, ops[n], k, gap))
            && (Bootable(CutDisk(t, ops[n], k, gap)) ==> Possible(t, Cut(ops[n], k, gap, [], now)))
  {
    hide Inv, Enabled, Run, CanRun, WritesOf, RunWrites, NewIdsFree, FlashOk, W.AtCut, W.Done, W.Holds, CutDisk,
      Bootable;
    n, k, gap := MomentOfRun(h, ops, after[i]);
  }
}
