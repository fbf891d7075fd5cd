/** What a loss of power leaves of the registry's flash: the writes of an operation taken apart into the
    programs and erases that make them up, and read back through the store. */
module DiskWrites {
  import opened Basics
  import opened Flash
  import opened Records
  import H = House
  import D = DiskView
  import S = SlotLog
  import R = StoreRuns

  /** One record written or cleared. */
  datatype Write =
    | PutRemote(low: u16, remote: RemoteConfig)
    | DropRemote(low: u16)
    | PutInternals(internals: seq<u16>)
    | PutExternals(externals: seq<u32>)
    | PutBlind(id: u16, blind: BlindConfig)
    | DropBlind(id: u16)
    | PutBlindIds(blindIds: seq<u16>)

  /** The disk after a write. */
  function Applied(d: H.Disk, w: Write): H.Disk {
    match w
    case PutRemote(low, cfg) => d.(remotes := d.remotes[low := cfg])
    case DropRemote(low) => d.(remotes := d.remotes - {low})
    case PutInternals(ids) => d.(remoteIds := ids)
    case PutExternals(ids) => d.(externalIds := ids)
    case PutBlind(id, cfg) => d.(blinds := d.blinds[id := cfg])
    case DropBlind(id) => d.(blinds := d.blinds - {id})
    case PutBlindIds(ids) => d.(blindIds := ids)
  }

  /** The disk while the record is not there: its old copy deleted, its new one not yet written. */
  function Missing(d: H.Disk, w: Write): H.Disk {
    match w
    case PutRemote(low, _) => d.(remotes := d.remotes - {low})
    case DropRemote(low) => d.(remotes := d.remotes - {low})
    case PutInternals(_) => d.(remoteIds := [])
    case PutExternals(_) => d.(externalIds := [])
    case PutBlind(id, _) => d.(blinds := d.blinds - {id})
    case DropBlind(id) => d.(blinds := d.blinds - {id})
    case PutBlindIds(_) => d.(blindIds := [])
  }

  function KeyOf(w: Write): RecordId {
    match w
    case PutRemote(low, _) => D.RemoteKey(low)
    case DropRemote(low) => D.RemoteKey(low)
    case PutInternals(_) => D.REMOTE_IDS_KEY
    case PutExternals(_) => D.EXTERNAL_IDS_KEY
    case PutBlind(id, _) => D.BlindKey(id)
    case DropBlind(id) => D.BlindKey(id)
    case PutBlindIds(_) => D.BLIND_IDS_KEY
  }

  predicate Drops(w: Write) {
    w.DropRemote? || w.DropBlind?
  }

  /** The payload says what the write is to say. */
  ghost predicate Carries(w: Write, p: Payload) {
    match w
    case PutRemote(_, cfg) => RemoteWellFormed(p) && DecodeRemote(p) == cfg
    case PutInternals(ids) => Ids16WellFormed(p) && DecodeIds16(p) == ids
    case PutExternals(ids) => Ids32WellFormed(p) && DecodeIds32(p) == ids
    case PutBlind(_, cfg) => BlindWellFormed(p) && DecodeBlind(p) == cfg
    case PutBlindIds(ids) => Ids16WellFormed(p) && DecodeIds16(p) == ids
    case _ => true
  }

  function Stored(m: D.Store, w: Write, p: Payload): D.Store {
    if Drops(w) then m - {KeyOf(w)} else m[KeyOf(w) := p]
  }

  /** Writing a record is writing its part of the disk. */
  lemma StoredView(m: D.Store, w: Write, p: Payload)
    requires D.WellFormed(m) && Carries(w, p)
    ensures D.WellFormed(Stored(m, w, p)) && D.View(Stored(m, w, p)) == Applied(D.View(m), w)
  {
    hide D.WellFormed, D.View, D.RemoteKey, D.BlindKey, DecodeRemote, DecodeBlind, DecodeIds16, DecodeIds32,
      RemoteWellFormed, BlindWellFormed, Ids16WellFormed, Ids32WellFormed;
    match w
    case PutRemote(low, _) => D.PutRemote(m, low, p);
    case DropRemote(low) => D.RemoveRemote(m, low);
    case PutInternals(_) => D.PutList16(m, D.REMOTE_IDS_KEY, p);
    case PutExternals(_) => D.PutList32(m, p);
    case PutBlind(id, _) => D.PutBlind(m, id, p);
    case DropBlind(id) => D.RemoveBlind(m, id);
    case PutBlindIds(_) => D.PutList16(m, D.BLIND_IDS_KEY, p);
  }

  /** Without the record the disk reads as while it is missing. */
  lemma RemovedView(m: D.Store, w: Write)
    requires D.WellFormed(m)
    ensures D.WellFormed(m - {KeyOf(w)}) && D.View(m - {KeyOf(w)}) == Missing(D.View(m), w)
  {
    hide D.WellFormed, D.View, D.RemoteKey, D.BlindKey;
    match w
    case PutRemote(low, _) => D.RemoveRemote(m, low);
    case DropRemote(low) => D.RemoveRemote(m, low);
    case PutBlind(id, _) => D.RemoveBlind(m, id);
    case DropBlind(id) => D.RemoveBlind(m, id);
    case _ => RemovedList(m, KeyOf(w));
  }

  lemma RemovedList(m: D.Store, key: RecordId)
    requires D.WellFormed(m) && key in {D.REMOTE_IDS_KEY, D.EXTERNAL_IDS_KEY, D.BLIND_IDS_KEY}
    ensures D.WellFormed(m - {key})
    ensures D.View(m - {key}) == if key == D.REMOTE_IDS_KEY then D.View(m).(remoteIds := [])
                                 else if key == D.EXTERNAL_IDS_KEY then D.View(m).(externalIds := [])
                                 else D.View(m).(blindIds := [])
  {
    hide DecodeIds16, DecodeIds32, Ids16WellFormed, Ids32WellFormed, D.RemotesOf, D.BlindsOf, D.RemotesWellFormed,
      D.BlindsWellFormed, D.SameRemotes, D.SameBlinds;
    ListKeyApart(m, key);
    D.SameRemotesOf(m, m - {key});
    D.SameBlindsOf(m, m - {key});
  }

  lemma ListKeyApart(m: D.Store, key: RecordId)
    requires key in {D.REMOTE_IDS_KEY, D.EXTERNAL_IDS_KEY, D.BLIND_IDS_KEY}
    ensures D.SameRemotes(m, m - {key}) && D.SameBlinds(m, m - {key})
  {
  }

  // ---------------------------------------------------------------- one write, cut

  /** The states the flash passes through. */
  ghost function Trace(s: seq<Slot>, w: Write, p: Payload): seq<seq<Slot>>
    requires S.Sectored(s)
  {
    if Drops(w) then [S.Kill(s, KeyOf(w))] else S.SaveTrace(s, KeyOf(w), p)
  }

  ghost function Written(s: seq<Slot>, w: Write, p: Payload): seq<Slot>
    requires S.Sectored(s)
  {
    if Drops(w) then S.Kill(s, KeyOf(w)) else S.Save(s, KeyOf(w), p)
  }

  /** The flash holds this disk. */
  ghost predicate Holds(s: seq<Slot>, d: H.Disk) {
    S.Sectored(s) && S.Distinct(s) && D.WellFormed(S.Contents(s)) && D.View(S.Contents(s)) == d
  }

  lemma WrittenHolds(s: seq<Slot>, w: Write, p: Payload, d: H.Disk)
    requires Holds(s, d) && Carries(w, p) && S.HasRoom(s)
    ensures Holds(Written(s, w, p), Applied(d, w)) && S.Sectors(Written(s, w, p)) == S.Sectors(s)
    ensures S.Contents(Written(s, w, p)) == Stored(S.Contents(s), w, p)
  {
    hide D.WellFormed, D.View, Carries, S.Contents, S.Distinct, S.HasRoom, S.Save, S.Kill, KeyOf, Applied;
    StoredView(S.Contents(s), w, p);
    if Drops(w) {
      S.KillContents(s, KeyOf(w));
    } else {
      S.SaveRefinesMap(s, KeyOf(w), p);
    }
  }

  /** Wherever a write is cut, the disk is the one before, the one with the record missing, or the one after. */
  lemma CutHolds(s: seq<Slot>, w: Write, p: Payload, d: H.Disk, t: seq<Slot>)
    requires Holds(s, d) && Carries(w, p) && t in Trace(s, w, p) && S.Sectored(t)
    ensures if Drops(w) then Holds(t, Applied(d, w))
            else Holds(t, d) || Holds(t, Missing(d, w)) || Holds(t, Applied(d, w))
  {
    hide D.WellFormed, D.View, Carries, S.Contents, S.Distinct, S.SaveTrace, S.Kill, KeyOf, Applied, Missing;
    StoredView(S.Contents(s), w, p);
    RemovedView(S.Contents(s), w);
    if Drops(w) {
      S.KillContents(s, KeyOf(w));
    } else {
      var k :| 0 <= k < |S.SaveTrace(s, KeyOf(w), p)| && S.SaveTrace(s, KeyOf(w), p)[k] == t;
      R.PowerCut(s, KeyOf(w), p, k);
    }
  }

  /** The state in between is passed through whenever there was a record to overwrite. */
  lemma GapHolds(s: seq<Slot>, w: Write, p: Payload, d: H.Disk) returns (t: seq<Slot>)
    requires Holds(s, d) && Carries(w, p) && S.HasRoom(s) && !Drops(w) && KeyOf(w) in S.Contents(s)
    ensures t in Trace(s, w, p) && Holds(t, Missing(d, w))
  {
    hide D.WellFormed, D.View, Carries, S.Contents, S.Distinct, S.SaveTrace, S.Kill, S.HasRoom, KeyOf, Missing;
    RemovedView(S.Contents(s), w);
    var k := R.OverwriteGap(s, KeyOf(w), p);
    t := S.SaveTrace(s, KeyOf(w), p)[k];
    R.SaveTraceSectored(s, KeyOf(w), p, k);
  }

  // ---------------------------------------------------------------- several writes, cut

  /** The disk after the first k writes. */
  function Done(d: H.Disk, ws: seq<Write>, k: nat): H.Disk
    requires k <= |ws|
    decreases k
  {
    if k == 0 then d else Done(Applied(d, ws[0]), ws[1..], k - 1)
  }

  /** The disk after the first k writes, or, in the gap, that with the record of the next one missing. */
  function Cut(d: H.Disk, ws: seq<Write>, k: nat, gap: bool): H.Disk
    requires k <= |ws| && (gap ==> k < |ws|)
  {
    if gap then Missing(Done(d, ws, k), ws[k]) else Done(d, ws, k)
  }

  lemma DoneNone(d: H.Disk, ws: seq<Write>)
    ensures Done(d, ws, 0) == d
  {
  }

  lemma {:induction false} DoneStep(d: H.Disk, ws: seq<Write>, k: nat)
    requires k < |ws|
    ensures Done(d, ws, k + 1) == Applied(Done(d, ws, k), ws[k])
    decreases k
  {
    hide Applied;
    if k > 0 {
      DoneStep(Applied(d, ws[0]), ws[1..], k - 1);
    }
  }

  lemma {:induction false} DonePrefix(d: H.Disk, a: seq<Write>, b: seq<Write>, k: nat)
    requires k <= |a|
    ensures Done(d, a + b, k) == Done(d, a, k)
    decreases k
  {
    hide Applied;
    if k > 0 {
      DonePrefix(Applied(d, a[0]), a[1..], b, k - 1);
      assert (a + b)[1..] == a[1..] + b;
    }
  }

  lemma {:induction false} DoneAppend(d: H.Disk, a: seq<Write>, b: seq<Write>, k: nat)
    requires k <= |b|
    ensures Done(d, a + b, |a| + k) == Done(Done(d, a, |a|), b, k)
    decreases a
  {
    hide Applied;
    if a == [] {
      assert a + b == b;
    } else {
      DoneAppend(Applied(d, a[0]), a[1..], b, k);
      assert (a + b)[1..] == a[1..] + b;
    }
  }

  /** The flash passes through t while the writes are made. */
  ghost predicate Passes(s: seq<Slot>, ws: seq<Write>, ps: seq<Payload>, t: seq<Slot>)
    requires S.Sectored(s) && |ps| == |ws|
    decreases |ws|
  {
    || t == s
    || (ws != [] && (t in Trace(s, ws[0], ps[0]) || Passes(Written(s, ws[0], ps[0]), ws[1..], ps[1..], t)))
  }

  ghost predicate AllCarry(ws: seq<Write>, ps: seq<Payload>) {
    |ps| == |ws| && forall i :: 0 <= i < |ws| ==> Carries(ws[i], ps[i])
  }

  function PutKeys(ws: seq<Write>): set<RecordId> {
    set w | w in ws && !Drops(w) :: KeyOf(w)
  }

  /** The records stored and those to be stored leave a sector to spare. */
  ghost predicate Spare(s: seq<Slot>, ws: seq<Write>) {
    |S.Contents(s).Keys + PutKeys(ws)| < S.Sectors(s)
  }

  /** The flash passes through t while the writes are made one after the other to a flash that holds d. */
  ghost predicate Moment(s: seq<Slot>, ws: seq<Write>, ps: seq<Payload>, d: H.Disk, t: seq<Slot>) {
    Holds(s, d) && AllCarry(ws, ps) && Spare(s, ws) && Passes(s, ws, ps, t)
  }

  /** Wherever power is lost during several writes, with a sector to spare, the disk is the one after some of
      them, or that with the next one's record missing. */
  lemma {:induction false} SequenceCut(s: seq<Slot>, ws: seq<Write>, ps: seq<Payload>, d: H.Disk, t: seq<Slot>)
    returns (k: nat, gap: bool)
    requires Moment(s, ws, ps, d, t)
    ensures k <= |ws| && (gap ==> k < |ws| && !Drops(ws[k]))
    ensures Holds(t, Cut(d, ws, k, gap))
    decreases |ws|
  {
    hide D.WellFormed, D.View, S.Distinct, Carries, Trace, Written, S.Contents, Applied, Missing, Spare;
    if t == s {
      k, gap := 0, false;
    } else if t in Trace(s, ws[0], ps[0]) {
      TraceSectored(s, ws[0], ps[0], t, d);
      CutHolds(s, ws[0], ps[0], d, t);
      k, gap := if Holds(t, Applied(d, ws[0])) then 1 else 0, !Holds(t, d) && !Holds(t, Applied(d, ws[0]));
    } else {
      RoomLeft(s, ws, d);
      WrittenHolds(s, ws[0], ps[0], d);
      SpareLater(s, ws, ps[0], d);
      k, gap := SequenceCut(Written(s, ws[0], ps[0]), ws[1..], ps[1..], Applied(d, ws[0]), t);
      k := k + 1;
    }
  }

  lemma RoomLeft(s: seq<Slot>, ws: seq<Write>, d: H.Disk)
    requires Holds(s, d) && Spare(s, ws)
    ensures S.HasRoom(s)
  {
    hide S.Contents, S.HasRoom, D.WellFormed, D.View, PutKeys;
    CardinalityMonotone(S.Contents(s).Keys, S.Contents(s).Keys + PutKeys(ws));
    assert |S.Contents(s)| == |S.Contents(s).Keys|;
    S.RoomBelowCapacity(s);
  }

  lemma SpareLater(s: seq<Slot>, ws: seq<Write>, p: Payload, d: H.Disk)
    requires Holds(s, d) && ws != [] && Spare(s, ws) && S.Sectors(Written(s, ws[0], p)) == S.Sectors(s)
    requires S.Contents(Written(s, ws[0], p)) == Stored(S.Contents(s), ws[0], p)
    ensures Spare(Written(s, ws[0], p), ws[1..])
  {
    hide S.Contents, D.WellFormed, D.View, Written, KeyOf;
    assert ws[0] in ws && forall w :: w in ws[1..] ==> w in ws;
    CardinalityMonotone(S.Contents(Written(s, ws[0], p)).Keys + PutKeys(ws[1..]), S.Contents(s).Keys + PutKeys(ws));
  }

  lemma TraceSectored(s: seq<Slot>, w: Write, p: Payload, t: seq<Slot>, d: H.Disk)
    requires Holds(s, d) && t in Trace(s, w, p)
    ensures S.Sectored(t)
  {
    hide S.SaveTrace, S.Kill;
    if !Drops(w) {
      var k :| 0 <= k < |S.SaveTrace(s, KeyOf(w), p)| && S.SaveTrace(s, KeyOf(w), p)[k] == t;
      R.SaveTraceSectored(s, KeyOf(w), p, k);
    }
  }

  /** And each record overwritten is missing for a while. */
  lemma {:induction false} SequenceGap(s: seq<Slot>, ws: seq<Write>, ps: seq<Payload>, d: H.Disk, k: nat)
    returns (t: seq<Slot>)
    requires Holds(s, d) && AllCarry(ws, ps) && Spare(s, ws)
    requires k < |ws| && !Drops(ws[k]) && KeyOf(ws[k]) in S.Contents(s)
    requires forall i :: 0 <= i < k ==> KeyOf(ws[i]) != KeyOf(ws[k])
    ensures Passes(s, ws, ps, t) && Holds(t, Cut(d, ws, k, true))
    decreases k
  {
    hide D.WellFormed, D.View, S.Distinct, Carries, Trace, Written, S.Contents, Applied, Missing, KeyOf, Spare;
    RoomLeft(s, ws, d);
    if k == 0 {
      t := GapHolds(s, ws[0], ps[0], d);
    } else {
      WrittenHolds(s, ws[0], ps[0], d);
      WrittenKeeps(s, ws[0], ps[0], d, KeyOf(ws[k]));
      SpareLater(s, ws, ps[0], d);
      t := SequenceGap(Written(s, ws[0], ps[0]), ws[1..], ps[1..], Applied(d, ws[0]), k - 1);
    }
  }

  lemma WrittenKeeps(s: seq<Slot>, w: Write, p: Payload, d: H.Disk, key: RecordId)
    requires Holds(s, d) && S.HasRoom(s) && key in S.Contents(s) && key != KeyOf(w)
    ensures key in S.Contents(Written(s, w, p))
  {
    hide D.WellFormed, D.View, S.Contents, S.Save, S.Kill, S.HasRoom, KeyOf;
    if Drops(w) {
      S.KillContents(s, KeyOf(w));
    } else {
      S.SaveRefinesMap(s, KeyOf(w), p);
    }
  }

  // ---------------------------------------------------------------- what a history shows

  predicate IsCut(ws: seq<Write>, k: nat, gap: bool) {
    k <= |ws| && (gap ==> k < |ws| && !Drops(ws[k]))
  }

  /** The flash holds what a cut of the writes leaves. */
  ghost predicate AtCut(s: seq<Slot>, d: H.Disk, ws: seq<Write>) {
    exists k: nat, gap: bool :: IsCut(ws, k, gap) && Holds(s, Cut(d, ws, k, gap))
  }

  /** The history has gone on, and every flash in its new part is at a cut of the writes. */
  ghost predicate Wrote(before: seq<seq<Slot>>, after: seq<seq<Slot>>, d: H.Disk, ws: seq<Write>) {
    before <= after && forall i :: |before| <= i < |after| ==> AtCut(after[i], d, ws)
  }

  lemma WroteNothing(history: seq<seq<Slot>>, d: H.Disk, ws: seq<Write>)
    ensures Wrote(history, history, d, ws)
  {
  }

  /** One write, or what came of it. */
  lemma WroteOne(s: seq<Slot>, w: Write, p: Payload, d: H.Disk, before: seq<seq<Slot>>, after: seq<seq<Slot>>)
    requires S.Sectored(s) && Holds(s, d) && Carries(w, p)
    requires after == before || after == before + Trace(s, w, p)
    ensures Wrote(before, after, d, [w])
  {
    hide Holds, Carries, Trace, Applied, Missing;
    forall i | |before| <= i < |after|
      ensures AtCut(after[i], d, [w])
    {
      var t := after[i];
      assert t in Trace(s, w, p);
      TraceSectored(s, w, p, t, d);
      CutHolds(s, w, p, d, t);
      OneCut(d, w);
      assert IsCut([w], 0, false) && IsCut([w], 1, false) && (!Drops(w) ==> IsCut([w], 0, true));
    }
  }

  lemma OneCut(d: H.Disk, w: Write)
    ensures Cut(d, [w], 0, false) == d && Cut(d, [w], 1, false) == Applied(d, w) == Done(d, [w], 1)
    ensures Cut(d, [w], 0, true) == Missing(d, w)
  {
    hide Applied, Missing;
    DoneNone(d, [w]);
    DoneStep(d, [w], 0);
  }

  /** Writes made one part after the other. */
  lemma WroteMore(h0: seq<seq<Slot>>, h1: seq<seq<Slot>>, h2: seq<seq<Slot>>, d: H.Disk, a: seq<Write>, b: seq<Write>)
    requires Wrote(h0, h1, d, a) && Wrote(h1, h2, Done(d, a, |a|), b)
    ensures Wrote(h0, h2, d, a + b)
  {
    hide Holds, Cut, Done, AtCut;
    forall i | |h0| <= i < |h2|
      ensures AtCut(h2[i], d, a + b)
    {
      if i < |h1| {
        assert h2[i] == h1[i];
        CutPrefix(h2[i], d, a, b);
      } else {
        CutSuffix(h2[i], d, a, b);
      }
    }
  }

  lemma CutPrefix(s: seq<Slot>, d: H.Disk, a: seq<Write>, b: seq<Write>)
    requires AtCut(s, d, a)
    ensures AtCut(s, d, a + b)
  {
    hide Holds, Done, Missing;
    var k: nat, gap: bool :| IsCut(a, k, gap) && Holds(s, Cut(d, a, k, gap));
    DonePrefix(d, a, b, k);
    assert gap ==> (a + b)[k] == a[k];
    assert IsCut(a + b, k, gap) && Cut(d, a + b, k, gap) == Cut(d, a, k, gap);
  }

  lemma CutSuffix(s: seq<Slot>, d: H.Disk, a: seq<Write>, b: seq<Write>)
    requires AtCut(s, Done(d, a, |a|), b)
    ensures AtCut(s, d, a + b)
  {
    hide Holds, Done, Missing;
    var k: nat, gap: bool :| IsCut(b, k, gap) && Holds(s, Cut(Done(d, a, |a|), b, k, gap));
    DoneAppend(d, a, b, k);
    assert gap ==> (a + b)[|a| + k] == b[k];
    assert IsCut(a + b, |a| + k, gap) && Cut(d, a + b, |a| + k, gap) == Cut(Done(d, a, |a|), b, k, gap);
  }

  /** All the writes have been made, and every flash on the way is at a cut of them. */
  ghost predicate Made(before: seq<seq<Slot>>, after: seq<seq<Slot>>, d: H.Disk, e: H.Disk, ws: seq<Write>) {
    Wrote(before, after, d, ws) && e == Done(d, ws, |ws|)
  }

  lemma MadeNone(history: seq<seq<Slot>>, d: H.Disk)
    ensures Made(history, history, d, d, [])
  {
    WroteNothing(history, d, []);
    DoneNone(d, []);
  }

  lemma MadeOne(before: seq<seq<Slot>>, after: seq<seq<Slot>>, d: H.Disk, e: H.Disk, w: Write)
    requires Wrote(before, after, d, [w]) && e == Applied(d, w)
    ensures Made(before, after, d, e, [w])
  {
    hide Applied, Wrote, Done;
    OneCut(d, w);
  }

  lemma MadeMore(h0: seq<seq<Slot>>, h1: seq<seq<Slot>>, h2: seq<seq<Slot>>, d: H.Disk, e: H.Disk, f: H.Disk,
                 a: seq<Write>, b: seq<Write>)
    requires Made(h0, h1, d, e, a) && Made(h1, h2, e, f, b)
    ensures Made(h0, h2, d, f, a + b)
  {
    hide Wrote, Done;
    WroteMore(h0, h1, h2, d, a, b);
    DoneAppend(d, a, b, |b|);
  }
}
