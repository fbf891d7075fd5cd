/** Whole lives of the device on its objects: any events and restarts, one after the other, from its first
    start on, and that each is a run of the registry. */
module DeviceRuns {
  import opened Basics
  import opened Flash
  import opened Devices
  import opened Registry
  import opened Tables
  import H = House
  import I = HouseInvariant
  import R = HouseRuns
  import opened HouseSpace
  import opened Answers
  import opened Device
  import D = DeviceConfig
  import W = DiskWrites
  import O = OpWrites

  /** One event, or a restart, after which the device may be made of other objects. */
  method Happen(home: SomfyRemotes, op: R.Op) returns (next: SomfyRemotes, ghost done: R.Op)
    requires home.Valid() && I.Inv(home.House()) && Tidy(home.House()) && R.Enabled(home.House(), op)
    requires FitsOn(home.config.storage.sectors, home.House())
    requires FitsOn(home.config.storage.sectors, R.Step(home.House(), op))
    modifies Objects(home)
    ensures next.Valid() && next.config == home.config && fresh(Objects(next) - old(Objects(home)))
    ensures I.Inv(next.House()) && Tidy(next.House())
    ensures exists answer :: done == Answered(op, answer)
    ensures R.Enabled(old(home.House()), done) && next.House() == R.Step(old(home.House()), done)
    ensures W.Made(old(home.config.storage.history), home.config.storage.history, old(home.config.Disk()),
                   home.config.Disk(), O.EventWrites(old(home.House()), done))
  {
    hide D.DeviceConfig.Valid, D.DeviceConfig.Disk, I.Inv, Tidy, FitsOn, R.Step, R.Enabled, Keyed, Linked,
      RemotesKeyed, States, RemoteStates, H.RoomLeft, W.Made, O.EventWrites, O.WritesOf, Answered;
    ghost var h := home.House();
    if op.Restart? {
      FittingHasRoom(home.config.storage.sectors, h);
      StepTidy(h, op);
      next := Restart(home, op.clean, op.now);
      done := op;
      SameAnswer(op);
    } else {
      ghost var answer := Perform(home, op);
      next, done := home, Answered(op, answer);
      AnsweredWrites(h, op, answer);
    }
  }

  lemma SameAnswer(op: R.Op)
    requires op.Restart?
    ensures Answered(op, false) == op
  {
  }

  /** What is written does not depend on the answer. */
  lemma AnsweredWrites(h: H.House, op: R.Op, answer: bool)
    requires R.Enabled(h, op) && R.Enabled(h, Answered(op, answer)) && !op.Restart?
    ensures O.EventWrites(h, Answered(op, answer)) == O.WritesOf(h, op)
  {
    hide R.Enabled, O.WritesOf;
    if R.MemoryOnly(op) {
      O.WritesNone(h, op);
      O.WritesNone(h, Answered(op, answer));
    } else {
      NeedsNoAnswer(op);
    }
  }

  lemma NoEvents(h: H.House)
    ensures R.CanRun(h, []) && R.Run(h, []) == h
  {
  }

  /** The first event of a run, and what is left of it. */
  lemma RunStarts(sectors: nat, h: H.House, ops: seq<R.Op>)
    requires ops != [] && R.CanRun(h, ops) && FitsRun(sectors, h, ops)
    ensures R.Enabled(h, ops[0]) && FitsOn(sectors, h) && FitsOn(sectors, R.Step(h, ops[0]))
    ensures R.CanRun(R.Step(h, ops[0]), ops[1..]) && FitsRun(sectors, R.Step(h, ops[0]), ops[1..])
  {
    hide R.Enabled, R.Step;
  }

  /** The rest of a run can happen after its first event, whatever was answered to that. */
  lemma RunGoesOn(sectors: nat, h: H.House, ops: seq<R.Op>, done: R.Op)
    requires ops != [] && R.CanRun(h, ops) && FitsRun(sectors, h, ops)
    requires exists answer :: done == Answered(ops[0], answer)
    ensures R.Enabled(h, done)
    ensures R.CanRun(R.Step(h, done), ops[1..]) && FitsRun(sectors, R.Step(h, done), ops[1..])
  {
    hide R.Enabled, R.Step, Answered, FitsOn;
    var answer :| done == Answered(ops[0], answer);
    StepAlike(h, h, ops[0], answer);
    RunAlike(sectors, R.Step(h, ops[0]), R.Step(h, done), ops[1..]);
  }

  lemma SameEventsCons(op: R.Op, done: R.Op, more: seq<R.Op>, ops: seq<R.Op>)
    requires ops != [] && op == ops[0] && SameEvents(more, ops[1..]) && exists answer :: done == Answered(op, answer)
    ensures SameEvents([done] + more, ops)
  {
    var answer :| done == Answered(op, answer);
    AnsweredTwice(op, answer);
    hide Answered;
    assert forall i :: 1 <= i < |ops| ==> ([done] + more)[i] == more[i - 1] && ops[i] == ops[1..][i - 1];
  }

  lemma AnsweredTwice(op: R.Op, answer: bool)
    ensures Answered(Answered(op, answer), true) == Answered(op, true)
  {
  }

  /** Any run of the registry, on the device: with room on the flash for what is registered at each moment, the
      objects can always go on, and hold what the registry says after the same events; and every flash on the
      way is at a cut of what they write. */
  method RunEvents(home: SomfyRemotes, ops: seq<R.Op>) returns (last: SomfyRemotes, ghost done: seq<R.Op>)
    requires home.Valid() && I.Inv(home.House()) && Tidy(home.House())
    requires R.CanRun(home.House(), ops) && FitsRun(home.config.storage.sectors, home.House(), ops)
    modifies Objects(home)
    ensures last.Valid() && last.config == home.config && fresh(Objects(last) - old(Objects(home)))
    ensures I.Inv(last.House()) && Tidy(last.House())
    ensures SameEvents(done, ops)
    ensures R.CanRun(old(home.House()), done) && last.House() == R.Run(old(home.House()), done)
    ensures W.Made(old(home.config.storage.history), home.config.storage.history, old(home.config.Disk()),
                   home.config.Disk(), O.RunWrites(old(home.House()), done))
    decreases |ops|
  {
    hide SomfyRemotes.House, D.DeviceConfig.Valid, I.Inv, Tidy, FitsOn, R.Step, R.Enabled, R.CanRun, R.Run,
      FitsRun, SameEvents, Answered, Objects, W.Made, O.EventWrites, O.RunWrites, D.DeviceConfig.Disk;
    ghost var d, h0 := home.config.Disk(), home.config.storage.history;
    ghost var h, sectors := home.House(), home.config.storage.sectors;
    if ops == [] {
      NoEvents(h);
      NothingDone();
      W.MadeNone(h0, d);
      NothingWritten(h);
      last, done := home, [];
    } else {
      RunStarts(sectors, h, ops);
      var next;
      ghost var first, more;
      next, first := Happen(home, ops[0]);
      ghost var g, e, h1 := next.House(), home.config.Disk(), home.config.storage.history;
      RunGoesOn(sectors, h, ops, first);
      last, more := RunEvents(next, ops[1..]);
      done := [first] + more;
      SameEventsCons(ops[0], first, more, ops);
      R.RunCons(h, first, more);
      RunWritesCons(h, first, more);
      W.MadeMore(h0, h1, home.config.storage.history, d, e, home.config.Disk(), O.EventWrites(h, first),
                 O.RunWrites(g, more));
    }
  }

  lemma NothingWritten(h: H.House)
    ensures R.CanRun(h, []) && O.RunWrites(h, []) == []
  {
  }

  lemma RunWritesCons(h: H.House, op: R.Op, more: seq<R.Op>)
    requires R.Enabled(h, op) && R.CanRun(R.Step(h, op), more)
    ensures R.CanRun(h, [op] + more)
    ensures O.RunWrites(h, [op] + more) == O.EventWrites(h, op) + O.RunWrites(R.Step(h, op), more)
  {
    hide R.Enabled, R.Step, O.EventWrites;
    R.RunCons(h, op, more);
    assert ([op] + more)[1..] == more;
  }

  lemma NothingDone()
    ensures SameEvents([], [])
  {
  }

  /** From the first start on. */
  method Live(config: D.DeviceConfig, queue: OutgoingQueue, wifi: seq<Byte>, mqtt: seq<Byte>, now: int, ops: seq<R.Op>)
    returns (last: SomfyRemotes, ghost done: seq<R.Op>, ghost started: seq<seq<Slot>>)
    requires config.storage.Valid() && config.storage.sectors > 5 && 1 <= |wifi| <= BLOCK_SIZE
             && 1 <= |mqtt| <= BLOCK_SIZE
    requires queue.issued == [] && R.CanRun(H.NewHouse(), ops) && FitsRun(config.storage.sectors, H.NewHouse(), ops)
    modifies config.storage, config.storage.flash, queue
    ensures last.Valid() && I.Inv(last.House()) && SameEvents(done, ops)
    ensures R.CanRun(H.NewHouse(), done) && last.House() == R.Run(H.NewHouse(), done)
    ensures last.config == config
    ensures W.Made(started, config.storage.history, H.NewHouse().disk, config.Disk(), O.RunWrites(H.NewHouse(), done))
  {
    hide D.DeviceConfig.Valid, I.Inv, Tidy, FitsOn, R.CanRun, R.Run, FitsRun, SameEvents, W.Made, O.RunWrites,
      D.DeviceConfig.Disk;
    var home := FirstBoot(config, queue, wifi, mqtt, now);
    started := config.storage.history;
    home.HouseFields();
    last, done := RunEvents(home, ops);
  }
}
