/** Starting the device: the writes by which it clears away blinds that have lost their remote, and the flash
    wherever power is lost during them. */
module StartCuts {
  import opened Basics
  import opened Records
  import opened House
  import opened HouseInvariant
  import opened HouseRestart
  import opened FlashStates
  import opened OpWrites
  import W = DiskWrites

  function Members(ids: seq<u16>): set<u16> {
    set b | b in ids
  }

  lemma {:induction false} DropsDone(d: Disk, ids: seq<u16>, k: nat)
    requires k <= |ids|
    ensures W.Done(d, Drops(ids), k) == d.(blinds := d.blinds - Members(ids[..k]))
    decreases k
  {
    hide W.Done;
    if k == 0 {
      W.DoneNone(d, Drops(ids));
      assert d.blinds - Members(ids[..0]) == d.blinds;
    } else {
      DropsDone(d, ids, k - 1);
      W.DoneStep(d, Drops(ids), k - 1);
      assert ids[..k] == ids[..k - 1] + [ids[k - 1]];
      assert d.blinds - Members(ids[..k - 1]) - {ids[k - 1]} == d.blinds - Members(ids[..k]);
    }
  }

  lemma StartDone(d: Disk, k: nat)
    requires Bootable(d) && k <= |StartWrites(d)|
    ensures var os, ws := StartOrphans(d), StartWrites(d);
            && (k <= |os| ==> W.Done(d, ws, k) == d.(blinds := d.blinds - Members(os[..k])))
            && (k == |ws| ==> W.Done(d, ws, k) == Reload(d, 0, []).disk)
  {
    hide W.Done, LoadRemotes, LoadBlinds, NextId, Reload, ReloadedRemotes;
    var os, ws := StartOrphans(d), StartWrites(d);
    ReloadedDisk(d);
    if os == [] {
      W.DoneNone(d, ws);
      assert d.blinds - Members(os[..0]) == d.blinds;
    } else {
      var last := [W.PutBlindIds(Reload(d, 0, []).disk.blindIds)];
      if k <= |os| {
        W.DonePrefix(d, Drops(os), last, k);
        DropsDone(d, os, k);
      } else {
        W.DonePrefix(d, Drops(os), last, |os|);
        DropsDone(d, os, |os|);
        W.DoneStep(d, ws, |os|);
        assert os[..|os|] == os;
      }
    }
  }

  lemma ReloadedDisk(d: Disk)
    requires Bootable(d)
    ensures var os, u := StartOrphans(d), Reload(d, 0, []);
            && u.disk == d.(blinds := d.blinds - Members(os), blindIds := u.disk.blindIds)
            && (os == [] ==> u.disk == d)
  {
    hide LoadRemotes, LoadBlinds, NextId, LowIds, Ascending;
    var os := StartOrphans(d);
    assert Members(os) == Orphans(d, ReloadedRemotes(d));
    assert os == [] ==> Orphans(d, ReloadedRemotes(d)) == {};
    assert d.blinds - {} == d.blinds;
  }

  /** Wherever a start is cut the flash is as it should be, and what it says of the remotes is unchanged. */
  lemma StartCutOk(d: Disk, k: nat, gap: bool)
    requires FlashOk(d) && Bootable(d) && k <= |StartWrites(d)| && (gap ==> k < |StartWrites(d)|)
    ensures var t := W.Cut(d, StartWrites(d), k, gap);
            && FlashOk(t) && t.remotes == d.remotes && t.remoteIds == d.remoteIds && t.externalIds == d.externalIds
  {
    hide FlashOk, W.Done, Reload, Bootable;
    var ws := StartWrites(d);
    StartDone(d, k);
    ReloadedDisk(d);
    var t := W.Done(d, ws, k);
    if k <= |StartOrphans(d)| {
      FewerBlindsOk(d, t);
    } else {
      ReloadWeakInv(d, 0, []);
      WeakIsFlashOk(Reload(d, 0, []));
    }
    if gap {
      MissingKeeps(t, ws[k]);
      OnlyBlindWrites(d, k);
    }
  }

  lemma FewerBlindsOk(d: Disk, t: Disk)
    requires FlashOk(d) && t == d.(blinds := t.blinds)
    requires forall b :: b in t.blinds ==> b in d.blinds && t.blinds[b] == d.blinds[b]
    ensures FlashOk(t)
  {
    hide FlashOk;
    LessIsOk(d, t);
  }

  lemma OnlyBlindWrites(d: Disk, k: nat)
    requires Bootable(d) && k < |StartWrites(d)|
    ensures StartWrites(d)[k].DropBlind? || StartWrites(d)[k].PutBlindIds?
  {
    hide Reload, ReloadedRemotes;
  }

  /** A start that is cut can be made good by the next one exactly if it had not begun to clear anything away,
      or was done with it, or the list is missing altogether. */
  lemma StartCutBootsIff(d: Disk, k: nat, gap: bool)
    requires Bootable(d) && k <= |StartWrites(d)|
    requires gap ==> k < |StartWrites(d)| && !W.Drops(StartWrites(d)[k])
    requires FlashOk(d)
    ensures Bootable(W.Cut(d, StartWrites(d), k, gap)) <==> k == 0 || k == |StartWrites(d)| || gap
  {
    hide FlashOk, W.Done, Reload, ReloadedRemotes;
    var os, ws := StartOrphans(d), StartWrites(d);
    StartDone(d, k);
    ReloadedDisk(d);
    if gap {
      OnlyBlindWrites(d, k);
    } else if k == |ws| {
      ReloadWeakInv(d, 0, []);
      WeakIsFlashOk(Reload(d, 0, []));
    } else if k > 0 {
      assert os[0] in os[..k] && os[0] in d.blindIds;
    } else {
      assert os[..0] == [];
    }
  }

  // ---------------------------------------------------------------- one start after another

  /** Where a start is cut. */
  datatype StartCut = StartCut(k: nat, gap: bool)

  ghost predicate CanStart(d: Disk, cuts: seq<StartCut>)
    decreases cuts
  {
    && Bootable(d)
    && (cuts != [] ==>
          var c, ws := cuts[0], StartWrites(d);
          && c.k <= |ws| && (c.gap ==> c.k < |ws| && !W.Drops(ws[c.k]))
          && CanStart(W.Cut(d, ws, c.k, c.gap), cuts[1..]))
  }

  /** The flash after starts that were cut, from which the last one begins. */
  ghost function StartedFrom(d: Disk, cuts: seq<StartCut>): Disk
    requires CanStart(d, cuts)
    decreases cuts
  {
    if cuts == [] then d else StartedFrom(W.Cut(d, StartWrites(d), cuts[0].k, cuts[0].gap), cuts[1..])
  }

  lemma {:induction false} CanStartBoots(d: Disk, cuts: seq<StartCut>)
    requires CanStart(d, cuts)
    ensures Bootable(StartedFrom(d, cuts))
    decreases cuts
  {
    hide Bootable, StartWrites, W.Cut;
    if cuts != [] {
      CanStartBoots(W.Cut(d, StartWrites(d), cuts[0].k, cuts[0].gap), cuts[1..]);
    }
  }

  lemma {:induction false} StartedFromOk(d: Disk, cuts: seq<StartCut>)
    requires FlashOk(d) && CanStart(d, cuts)
    ensures var t := StartedFrom(d, cuts);
            && FlashOk(t) && Bootable(t)
            && t.remotes == d.remotes && t.remoteIds == d.remoteIds && t.externalIds == d.externalIds
    decreases cuts
  {
    hide FlashOk, Bootable, StartWrites, W.Cut;
    if cuts != [] {
      StartCutOk(d, cuts[0].k, cuts[0].gap);
      StartedFromOk(W.Cut(d, StartWrites(d), cuts[0].k, cuts[0].gap), cuts[1..]);
    }
  }
}
