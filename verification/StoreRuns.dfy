/** What holds of the block store over every run from a formatted device: it is a map, it loses
    nothing below capacity, power cuts hurt only the record being saved, and wear is accounted for. */
module StoreRuns {
  import opened Basics
  import opened Flash
  import opened SlotLog

  // ---------------------------------------------------------------- pages in place

  lemma {:induction false} EraseTraceSameLive(s: seq<Slot>, k: nat)
    requires Sectored(s) && k <= Sectors(s)
    ensures forall t :: t in EraseTrace(s, k) ==> SameLive(s, t)
    decreases Sectors(s) - k
  {
    if k < Sectors(s) {
      if SectorDead(s, k) {
        var r := EraseSector(s, k);
        assert SameLive(s, r) by {
          assert forall p :: 0 <= p < |s| && p / SECTOR_PAGES == k ==> s[p].Dead?;
        }
        EraseTraceSameLive(r, k + 1);
        forall t | t in EraseTrace(s, k)
          ensures SameLive(s, t)
        {
          assert t == r || t in EraseTrace(r, k + 1);
        }
      } else {
        EraseTraceSameLive(s, k + 1);
      }
    }
  }

  /** No operation of a save moves or alters the page of another record, so a pointer handed out
      for a record stays good until that record itself is saved or cleared. */
  lemma SaveKeepsPages(s: seq<Slot>, id: RecordId, payload: Payload, t: seq<Slot>, p: nat)
    requires Sectored(s) && t in SaveTrace(s, id, payload)
    requires p < |s| && s[p].Live? && s[p].id != id
    ensures |t| == |s| && t[p] == s[p]
  {
    ReclaimedSameLive(s);
    if t in EraseTrace(s) {
      EraseTraceSameLive(s, 0);
    } else {
      assert t == Kill(Reclaimed(s), id) || t == Save(s, id, payload);
    }
  }

  // ---------------------------------------------------------------- power cuts

  /** Cut the power after any physical operation of a save: the map is the old one, the old one
      without the record being saved, or the new one. */
  lemma PowerCut(s: seq<Slot>, id: RecordId, payload: Payload, k: nat)
    requires Sectored(s) && Distinct(s) && k < |SaveTrace(s, id, payload)|
    ensures Distinct(SaveTrace(s, id, payload)[k])
    ensures Contents(SaveTrace(s, id, payload)[k]) in
            {Contents(s), Contents(s) - {id}, Contents(s)[id := payload]}
  {
    var trace := SaveTrace(s, id, payload);
    var t := trace[k];
    EraseTraceSameLive(s, 0);
    ReclaimedSameLive(s);
    var r := Reclaimed(s);
    SameLiveContents(s, r);
    if t in EraseTrace(s) {
      SameLiveContents(s, t);
    } else if t == Save(s, id, payload) {
      SaveRefinesMap(s, id, payload);
    } else {
      assert t == Kill(r, id);
      KillContents(r, id);
    }
  }

  lemma SaveTraceSectored(s: seq<Slot>, id: RecordId, payload: Payload, k: nat)
    requires Sectored(s) && k < |SaveTrace(s, id, payload)|
    ensures Sectored(SaveTrace(s, id, payload)[k])
  {
    var t := SaveTrace(s, id, payload)[k];
    EraseTraceSameLive(s, 0);
    if t !in EraseTrace(s) {
      assert t == Kill(Reclaimed(s), id) || t == Save(s, id, payload);
    }
  }

  /** The last physical operation leaves the saved state. */
  lemma SaveTraceEnds(s: seq<Slot>, id: RecordId, payload: Payload)
    requires Sectored(s)
    ensures After(s, SaveTrace(s, id, payload)) == Save(s, id, payload)
  {
    if First(s, BLOCK_FREE) == |s| {
      EraseTraceEnds(s, 0);
    }
  }

  /** Overwriting does pass through a state in which the record is missing: the old copy is
      zeroed before the new one is written. */
  lemma OverwriteGap(s: seq<Slot>, id: RecordId, payload: Payload) returns (k: nat)
    requires Sectored(s) && Distinct(s) && HasRoom(s) && id in Contents(s)
    ensures k < |SaveTrace(s, id, payload)| && Distinct(SaveTrace(s, id, payload)[k])
    ensures Contents(SaveTrace(s, id, payload)[k]) == Contents(s) - {id}
  {
    var trace := SaveTrace(s, id, payload);
    var r := Reclaimed(s);
    ReclaimedHasFree(s);
    ReclaimedSameLive(s);
    SameLiveContents(s, r);
    KillContents(r, id);
    k := |trace| - 2;
    assert trace[k] == Kill(r, id);
  }

  // ---------------------------------------------------------------- runs

  /** A save, a save whose power is cut after physical operation number k, or a clear. */
  datatype Op =
    | SaveOp(id: RecordId, payload: Payload)
    | CutOp(id: RecordId, payload: Payload, k: nat)
    | ClearOp(id: RecordId)

  /** A device with its counts, since it was formatted, of records programmed and sectors erased. */
  datatype Device = Device(slots: seq<Slot>, programs: nat, erases: nat)

  function Formatted(sectors: nat): Device {
    Device(seq(sectors * SECTOR_PAGES, _ => Free), 0, 0)
  }

  /** The first n physical operations of a save. */
  ghost function SaveOps(d: Device, id: RecordId, payload: Payload, n: nat): Device
    requires Sectored(d.slots) && n <= |SaveTrace(d.slots, id, payload)|
  {
    var s := d.slots;
    var erases := if First(s, BLOCK_FREE) < |s| then 0 else |EraseTrace(s)|;
    var trace := SaveTrace(s, id, payload);
    Device(After(s, trace[..n]),
           d.programs + (if n == |trace| > erases then 1 else 0),
           d.erases + (if n < erases then n else erases))
  }

  ghost function Step(d: Device, op: Op): Device
    requires Sectored(d.slots)
  {
    match op
    case SaveOp(id, payload) =>
      SaveOps(d, id, payload, |SaveTrace(d.slots, id, payload)|)
    case CutOp(id, payload, k) =>
      SaveOps(d, id, payload, if k < |SaveTrace(d.slots, id, payload)| then k else |SaveTrace(d.slots, id, payload)|)
    case ClearOp(id) =>
      d.(slots := Kill(d.slots, id))
  }

  lemma SaveOpsSize(d: Device, id: RecordId, payload: Payload, n: nat)
    requires Sectored(d.slots) && n <= |SaveTrace(d.slots, id, payload)|
    ensures |SaveOps(d, id, payload, n).slots| == |d.slots|
  {
    var s, trace := d.slots, SaveTrace(d.slots, id, payload);
    if n > 0 {
      assert trace[..n][n - 1] == trace[n - 1];
      if trace[n - 1] in EraseTrace(s) {
        EraseTraceSameLive(s, 0);
      } else {
        assert trace[n - 1] == Kill(Reclaimed(s), id) || trace[n - 1] == Save(s, id, payload);
      }
    }
  }

  ghost function Run(sectors: nat, ops: seq<Op>): (d: Device)
    ensures |d.slots| == sectors * SECTOR_PAGES
  {
    if ops == [] then Formatted(sectors) else
      var before := Run(sectors, ops[..|ops| - 1]);
      StepSize(before, ops[|ops| - 1]);
      Step(before, ops[|ops| - 1])
  }

  lemma StepSize(d: Device, op: Op)
    requires Sectored(d.slots)
    ensures |Step(d, op).slots| == |d.slots|
  {
    if op.SaveOp? || op.CutOp? {
      forall n | 0 <= n <= |SaveTrace(d.slots, op.id, op.payload)|
        ensures |SaveOps(d, op.id, op.payload, n).slots| == |d.slots|
      {
        SaveOpsSize(d, op.id, op.payload, n);
      }
    }
  }

  /** The reference: a map with no capacity and no pages, on which a cut save counts as done. */
  function MapStep(m: map<RecordId, Payload>, op: Op): map<RecordId, Payload> {
    match op
    case SaveOp(id, payload) => m[id := payload]
    case CutOp(id, payload, _) => m[id := payload]
    case ClearOp(id) => m - {id}
  }

  function MapRun(ops: seq<Op>): map<RecordId, Payload> {
    if ops == [] then map[] else MapStep(MapRun(ops[..|ops| - 1]), ops[|ops| - 1])
  }

  /** The ids whose most recent operation was cut short. */
  function Torn(ops: seq<Op>): set<RecordId> {
    if ops == [] then {} else
      var op := ops[|ops| - 1];
      if op.CutOp? then Torn(ops[..|ops| - 1]) + {op.id} else Torn(ops[..|ops| - 1]) - {op.id}
  }

  ghost predicate BelowCapacity(sectors: nat, ops: seq<Op>) {
    forall k :: 0 <= k < |ops| ==> |MapRun(ops[..k])| < sectors
  }

  /** Same records, except that a torn id may be missing or hold another value. */
  ghost predicate Agrees(c: map<RecordId, Payload>, m: map<RecordId, Payload>, torn: set<RecordId>) {
    && c.Keys <= m.Keys
    && forall id :: id in m && id !in torn ==> id in c && c[id] == m[id]
  }

  /** One operation changes at most the key it names, and no id is ever on two pages. */
  lemma StepContents(d: Device, op: Op)
    requires Sectored(d.slots) && Distinct(d.slots)
    ensures Distinct(Step(d, op).slots)
    ensures op.SaveOp? && HasRoom(d.slots) ==> Contents(Step(d, op).slots) == Contents(d.slots)[op.id := op.payload]
    ensures op.CutOp? ==> Contents(Step(d, op).slots) in
                          {Contents(d.slots), Contents(d.slots) - {op.id}, Contents(d.slots)[op.id := op.payload]}
    ensures op.ClearOp? ==> Contents(Step(d, op).slots) == Contents(d.slots) - {op.id}
  {
    hide SaveTrace, Contents, Distinct, HasRoom;
    match op
    case SaveOp(id, payload) =>
      SaveTraceEnds(d.slots, id, payload);
      SaveRefinesMap(d.slots, id, payload);
      var trace := SaveTrace(d.slots, id, payload);
      assert trace[..|trace|] == trace;
    case CutOp(id, payload, k) =>
      var trace := SaveTrace(d.slots, id, payload);
      var n := if k < |trace| then k else |trace|;
      if n > 0 {
        PowerCut(d.slots, id, payload, n - 1);
        assert After(d.slots, trace[..n]) == trace[n - 1];
      }
    case ClearOp(id) =>
      KillContents(d.slots, id);
  }

  lemma {:induction false} RunDistinct(sectors: nat, ops: seq<Op>)
    ensures Distinct(Run(sectors, ops).slots)
  {
    hide Step;
    if ops != [] {
      RunDistinct(sectors, ops[..|ops| - 1]);
      StepContents(Run(sectors, ops[..|ops| - 1]), ops[|ops| - 1]);
    }
  }

  lemma StepAgrees(d: Device, op: Op, m: map<RecordId, Payload>, torn: set<RecordId>)
    requires Sectored(d.slots) && Distinct(d.slots)
    requires Agrees(Contents(d.slots), m, torn) && |m| < Sectors(d.slots)
    ensures Agrees(Contents(Step(d, op).slots), MapStep(m, op), if op.CutOp? then torn + {op.id} else torn - {op.id})
  {
    hide Step, Contents, Distinct, HasRoom;
    CardinalityMonotone(Contents(d.slots).Keys, m.Keys);
    assert |Contents(d.slots)| == |Contents(d.slots).Keys| && |m| == |m.Keys|;
    RoomBelowCapacity(d.slots);
    StepContents(d, op);
  }

  lemma FormattedIsEmpty(sectors: nat)
    ensures Contents(Formatted(sectors).slots) == map[]
  {
    assert LiveIds(Formatted(sectors).slots) == {};
  }

  lemma BelowCapacityBefore(sectors: nat, ops: seq<Op>)
    requires ops != [] && BelowCapacity(sectors, ops)
    ensures BelowCapacity(sectors, ops[..|ops| - 1]) && |MapRun(ops[..|ops| - 1])| < sectors
  {
    var before := ops[..|ops| - 1];
    assert forall k :: 0 <= k < |before| ==> before[..k] == ops[..k];
  }

  /** As long as fewer records than sectors are stored when an operation starts, the device agrees
      with the map after every run, power cuts included: every uncut save succeeds, nothing is lost,
      and only an id whose own last save was cut can differ. */
  lemma {:induction false} RunAgrees(sectors: nat, ops: seq<Op>)
    requires BelowCapacity(sectors, ops)
    ensures Agrees(Contents(Run(sectors, ops).slots), MapRun(ops), Torn(ops))
  {
    hide Contents, LiveIds, Step, Formatted, MapStep;
    if ops == [] {
      FormattedIsEmpty(sectors);
    } else {
      var before := ops[..|ops| - 1];
      BelowCapacityBefore(sectors, ops);
      RunAgrees(sectors, before);
      RunDistinct(sectors, before);
      StepAgrees(Run(sectors, before), ops[|ops| - 1], MapRun(before), Torn(before));
    }
  }

  /** With no power cut the device is the map. */
  lemma RunIsMap(sectors: nat, ops: seq<Op>)
    requires BelowCapacity(sectors, ops) && forall op :: op in ops ==> !op.CutOp?
    ensures Contents(Run(sectors, ops).slots) == MapRun(ops)
  {
    hide Contents, Run, MapRun;
    RunAgrees(sectors, ops);
    NothingTorn(ops);
  }

  lemma {:induction false} NothingTorn(ops: seq<Op>)
    requires forall op :: op in ops ==> !op.CutOp?
    ensures Torn(ops) == {}
  {
    if ops != [] {
      NothingTorn(ops[..|ops| - 1]);
    }
  }

  lemma StepKeepsPage(d: Device, op: Op, p: nat)
    requires Sectored(d.slots) && p < |d.slots| && d.slots[p].Live? && d.slots[p].id != op.id
    ensures p < |Step(d, op).slots| && Step(d, op).slots[p] == d.slots[p]
  {
    hide SaveTrace;
    StepSize(d, op);
    if op.SaveOp? || op.CutOp? {
      var trace := SaveTrace(d.slots, op.id, op.payload);
      var n := if op.CutOp? && op.k < |trace| then op.k else |trace|;
      if n > 0 {
        assert After(d.slots, trace[..n]) == trace[n - 1] && trace[n - 1] in trace;
        SaveKeepsPages(d.slots, op.id, op.payload, trace[n - 1], p);
      }
    }
  }

  /** A record's page is left alone by every run that does not name its id, however much of it fills
      and reclaims the flash around it, so a pointer to the record's bytes stays good. */
  lemma {:induction false} RunKeepsPage(sectors: nat, before: seq<Op>, after: seq<Op>, p: nat)
    requires p < sectors * SECTOR_PAGES && Run(sectors, before).slots[p].Live?
    requires forall op :: op in after ==> op.id != Run(sectors, before).slots[p].id
    ensures Run(sectors, before + after).slots[p] == Run(sectors, before).slots[p]
    decreases |after|
  {
    hide Step;
    if after == [] {
      assert before + after == before;
    } else {
      var n := |after| - 1;
      RunKeepsPage(sectors, before, after[..n], p);
      assert before + after == before + after[..n] + [after[n]];
      RunAppend(sectors, before + after[..n], after[n]);
      StepKeepsPage(Run(sectors, before + after[..n]), after[n], p);
    }
  }

  // ---------------------------------------------------------------- wear

  /** Pages programmed since their sector was last erased: live or dead. */
  function Used(s: seq<Slot>): nat {
    if s == [] then 0 else Used(s[..|s| - 1]) + (if s[|s| - 1].Free? then 0 else 1)
  }

  lemma {:induction false} UsedUpdate(s: seq<Slot>, p: nat, t: Slot)
    requires p < |s|
    ensures Used(s[p := t]) == Used(s) + (if t.Free? then 0 else 1) - (if s[p].Free? then 0 else 1)
  {
    var n := |s| - 1;
    if p < n {
      UsedUpdate(s[..n], p, t);
      assert s[p := t][..n] == s[..n][p := t];
    } else {
      assert s[p := t][..n] == s[..n];
    }
  }

  lemma {:induction false} UsedErase(s: seq<Slot>, k: nat, n: nat)
    requires Sectored(s) && k < Sectors(s) && SectorDead(s, k) && n <= |s|
    ensures Used(s[..n]) == Used(EraseSector(s, k)[..n]) +
            if n <= k * SECTOR_PAGES then 0
            else if n >= (k + 1) * SECTOR_PAGES then SECTOR_PAGES
            else n - k * SECTOR_PAGES
  {
    if n > 0 {
      UsedErase(s, k, n - 1);
      var t := EraseSector(s, k);
      assert s[..n][..n - 1] == s[..n - 1] && t[..n][..n - 1] == t[..n - 1];
      assert (n - 1) / SECTOR_PAGES == k <==> k * SECTOR_PAGES <= n - 1 < (k + 1) * SECTOR_PAGES;
    }
  }

  lemma UsedEraseSector(s: seq<Slot>, k: nat)
    requires Sectored(s) && k < Sectors(s) && SectorDead(s, k)
    ensures Used(EraseSector(s, k)) + SECTOR_PAGES == Used(s)
  {
    UsedErase(s, k, |s|);
    assert s[..|s|] == s && EraseSector(s, k)[..|s|] == EraseSector(s, k);
  }

  lemma {:induction false} UsedEraseTrace(s: seq<Slot>, k: nat, n: nat)
    requires Sectored(s) && k <= Sectors(s) && n <= |EraseTrace(s, k)|
    ensures Used(After(s, EraseTrace(s, k)[..n])) + SECTOR_PAGES * n == Used(s)
    decreases Sectors(s) - k
  {
    hide EraseSector, SectorDead, Used;
    if k < Sectors(s) && n > 0 {
      if SectorDead(s, k) {
        var t := EraseSector(s, k);
        UsedEraseSector(s, k);
        UsedEraseTrace(t, k + 1, n - 1);
        assert EraseTrace(s, k)[..n] == [t] + EraseTrace(t, k + 1)[..n - 1];
        AfterCons(s, t, EraseTrace(t, k + 1)[..n - 1]);
      } else {
        UsedEraseTrace(s, k + 1, n);
      }
    }
  }

  lemma UsedReclaimed(s: seq<Slot>)
    requires Sectored(s)
    ensures Used(Reclaimed(s)) + SECTOR_PAGES *
            (if First(s, BLOCK_FREE) < |s| then 0 else |EraseTrace(s)|) == Used(s)
  {
    hide Used;
    if First(s, BLOCK_FREE) == |s| {
      UsedEraseTrace(s, 0, |EraseTrace(s)|);
      assert EraseTrace(s)[..|EraseTrace(s)|] == EraseTrace(s);
      EraseTraceEnds(s, 0);
    }
  }

  lemma UsedKill(s: seq<Slot>, id: RecordId)
    ensures Used(Kill(s, id)) == Used(s)
  {
    if First(s, id) < |s| {
      UsedUpdate(s, First(s, id), Dead);
    }
  }

  lemma UsedSave(s: seq<Slot>, id: RecordId, payload: Payload)
    requires Sectored(s)
    ensures Used(Save(s, id, payload)) ==
            Used(Reclaimed(s)) + (if First(Reclaimed(s), BLOCK_FREE) < |s| then 1 else 0)
  {
    hide Used;
    var r := Reclaimed(s);
    var free := First(r, BLOCK_FREE);
    if free < |r| {
      UsedKill(r, id);
      KillKeepsFree(r, free, id);
      UsedUpdate(Kill(r, id), free, Live(id, payload));
    }
  }

  ghost predicate WearLaw(d: Device) {
    d.programs == Used(d.slots) + SECTOR_PAGES * d.erases
  }

  lemma SaveOpsWear(d: Device, id: RecordId, payload: Payload, n: nat)
    requires Sectored(d.slots) && WearLaw(d) && n <= |SaveTrace(d.slots, id, payload)|
    ensures WearLaw(SaveOps(d, id, payload, n))
  {
    hide Used, Save, Kill, Reclaimed, First;
    var s := d.slots;
    var trace := SaveTrace(s, id, payload);
    var erases := if First(s, BLOCK_FREE) < |s| then [] else EraseTrace(s);
    if n <= |erases| {
      assert trace[..n] == erases[..n];
      if First(s, BLOCK_FREE) == |s| {
        UsedEraseTrace(s, 0, n);
      }
    } else {
      UsedReclaimed(s);
      UsedKill(Reclaimed(s), id);
      UsedSave(s, id, payload);
      assert After(s, trace[..n]) == trace[n - 1];
    }
  }

  lemma StepWear(d: Device, op: Op)
    requires Sectored(d.slots) && WearLaw(d)
    ensures WearLaw(Step(d, op))
    ensures Step(d, op).programs <= d.programs + (if op.ClearOp? then 0 else 1)
  {
    hide Used, SaveTrace, Kill;
    match op
    case SaveOp(id, payload) =>
      SaveOpsWear(d, id, payload, |SaveTrace(d.slots, id, payload)|);
    case CutOp(id, payload, k) =>
      var length := |SaveTrace(d.slots, id, payload)|;
      SaveOpsWear(d, id, payload, if k < length then k else length);
    case ClearOp(id) =>
      UsedKill(d.slots, id);
  }

  lemma {:induction false} UsedFree(s: seq<Slot>)
    requires forall p :: 0 <= p < |s| ==> s[p].Free?
    ensures Used(s) == 0
  {
    if s != [] {
      UsedFree(s[..|s| - 1]);
    }
  }

  function Saves(ops: seq<Op>): nat {
    if ops == [] then 0 else Saves(ops[..|ops| - 1]) + (if ops[|ops| - 1].ClearOp? then 0 else 1)
  }

  /** Wear is conserved over every run: each record programmed is either still on a page, live or
      dead, or was on one of the sixteen pages of an erased sector. Erases are therefore at most
      one for every sixteen saves. */
  lemma {:induction false} RunWear(sectors: nat, ops: seq<Op>)
    ensures WearLaw(Run(sectors, ops))
    ensures SECTOR_PAGES * Run(sectors, ops).erases <= Run(sectors, ops).programs <= Saves(ops)
  {
    hide Step, Used, Formatted;
    if ops == [] {
      FormattedWear(sectors);
    } else {
      RunWear(sectors, ops[..|ops| - 1]);
      StepWear(Run(sectors, ops[..|ops| - 1]), ops[|ops| - 1]);
    }
  }

  lemma FormattedWear(sectors: nat)
    ensures WearLaw(Formatted(sectors)) && Formatted(sectors).programs == Formatted(sectors).erases == 0
  {
    UsedFree(Formatted(sectors).slots);
  }

  // ---------------------------------------------------------------- the capacity bound is tight

  function Zeros(): Payload {
    seq(BLOCK_SIZE, _ => 0)
  }

  /** The first m pages used up: the last page of each sector holds a record, the others are dead. */
  function Packed(sectors: nat, m: nat): seq<Slot>
    requires sectors < BLOCK_FREE - 2
  {
    seq(sectors * SECTOR_PAGES, p requires 0 <= p < sectors * SECTOR_PAGES =>
      if p >= m then Free
      else if p % SECTOR_PAGES == SECTOR_PAGES - 1 then Live(p / SECTOR_PAGES + 1, Zeros())
      else Dead)
  }

  /** Operations that use up page m, and the first m pages. */
  function PackPage(sectors: nat, m: nat): seq<Op>
    requires sectors < BLOCK_FREE - 2 && m < sectors * SECTOR_PAGES
  {
    if m % SECTOR_PAGES == SECTOR_PAGES - 1 then [SaveOp(m / SECTOR_PAGES + 1, Zeros())]
    else [SaveOp(sectors + 1, Zeros()), ClearOp(sectors + 1)]
  }

  function Packing(sectors: nat, m: nat): seq<Op>
    requires sectors < BLOCK_FREE - 2 && m <= sectors * SECTOR_PAGES
  {
    if m == 0 then [] else Packing(sectors, m - 1) + PackPage(sectors, m - 1)
  }

  lemma RunAppend(sectors: nat, ops: seq<Op>, op: Op)
    ensures Run(sectors, ops + [op]) == Step(Run(sectors, ops), op)
  {
    assert (ops + [op])[..|ops|] == ops;
  }

  lemma PackOne(sectors: nat, m: nat, id: RecordId)
    requires sectors < BLOCK_FREE - 2 && m < sectors * SECTOR_PAGES
    requires id == sectors + 1 || id == m / SECTOR_PAGES + 1
    ensures Save(Packed(sectors, m), id, Zeros()) == Packed(sectors, m)[m := Live(id, Zeros())]
    ensures id == sectors + 1 ==>
            Kill(Packed(sectors, m)[m := Live(id, Zeros())], id) == Packed(sectors, m)[m := Dead]
  {
    var s := Packed(sectors, m);
    assert s[m].Free?;
    assert First(s, BLOCK_FREE) == m;
    assert forall p :: 0 <= p < |s| ==> s[p].Header() != id;
    assert First(s, id) == |s|;
  }

  lemma PackOneRun(sectors: nat, m: nat, d: Device, id: RecordId)
    requires sectors < BLOCK_FREE - 2 && m < sectors * SECTOR_PAGES
    requires id == sectors + 1 || id == m / SECTOR_PAGES + 1
    requires d.slots == Packed(sectors, m)
    ensures Step(d, SaveOp(id, Zeros())).slots == Packed(sectors, m)[m := Live(id, Zeros())]
    ensures id == sectors + 1 ==> Step(Step(d, SaveOp(id, Zeros())), ClearOp(id)).slots == Packed(sectors, m)[m := Dead]
  {
    PackOne(sectors, m, id);
    var op := SaveOp(id, Zeros());
    SaveTraceEnds(d.slots, id, Zeros());
    assert SaveTrace(d.slots, id, Zeros())[..|SaveTrace(d.slots, id, Zeros())|] == SaveTrace(d.slots, id, Zeros());
  }

  lemma PackPageRun(sectors: nat, m: nat, before: seq<Op>)
    requires sectors < BLOCK_FREE - 2 && m < sectors * SECTOR_PAGES
    requires Run(sectors, before).slots == Packed(sectors, m)
    ensures Run(sectors, before + PackPage(sectors, m)).slots == Packed(sectors, m + 1)
  {
    hide Run, Step;
    var d, next := Run(sectors, before), PackPage(sectors, m);
    RunAppend(sectors, before, next[0]);
    if m % SECTOR_PAGES == SECTOR_PAGES - 1 {
      PackOneRun(sectors, m, d, m / SECTOR_PAGES + 1);
      assert Packed(sectors, m)[m := Live(m / SECTOR_PAGES + 1, Zeros())] == Packed(sectors, m + 1);
    } else {
      RunAppend(sectors, before + [next[0]], next[1]);
      assert before + [next[0]] + [next[1]] == before + next;
      PackOneRun(sectors, m, d, sectors + 1);
      assert Packed(sectors, m)[m := Dead] == Packed(sectors, m + 1);
    }
  }

  lemma {:induction false} PackingPacks(sectors: nat, m: nat)
    requires sectors < BLOCK_FREE - 2 && m <= sectors * SECTOR_PAGES
    ensures Run(sectors, Packing(sectors, m)).slots == Packed(sectors, m)
  {
    hide PackPage, Step;
    if m == 0 {
      assert Packed(sectors, 0) == Formatted(sectors).slots;
    } else {
      PackingPacks(sectors, m - 1);
      PackPageRun(sectors, m - 1, Packing(sectors, m - 1));
    }
  }

  lemma {:induction false} PackedIds(sectors: nat, n: nat)
    requires sectors < BLOCK_FREE - 2 && n <= sectors
    ensures |LiveIds(Packed(sectors, sectors * SECTOR_PAGES)[..n * SECTOR_PAGES])| == n
  {
    var s := Packed(sectors, sectors * SECTOR_PAGES);
    if n > 0 {
      PackedIds(sectors, n - 1);
      var before, upto := s[..(n - 1) * SECTOR_PAGES], s[..n * SECTOR_PAGES];
      assert forall p :: 0 <= p < |before| ==> before[p] == upto[p];
      assert upto[n * SECTOR_PAGES - 1] == Live(n, Zeros());
      assert forall p :: (n - 1) * SECTOR_PAGES <= p < |upto| - 1 ==> upto[p].Dead?;
      assert LiveIds(upto) == LiveIds(before) + {n};
    }
  }

  lemma PackedCount(sectors: nat)
    requires sectors < BLOCK_FREE - 2
    ensures |Contents(Packed(sectors, sectors * SECTOR_PAGES))| == sectors
  {
    var s := Packed(sectors, sectors * SECTOR_PAGES);
    PackedIds(sectors, sectors);
    assert s[..sectors * SECTOR_PAGES] == s;
    assert |Contents(s)| == |Contents(s).Keys|;
  }

  lemma PackedIsFull(sectors: nat)
    requires sectors < BLOCK_FREE - 2
    ensures !HasRoom(Packed(sectors, sectors * SECTOR_PAGES))
  {
    var s := Packed(sectors, sectors * SECTOR_PAGES);
    forall k | 0 <= k < Sectors(s)
      ensures !SectorDead(s, k)
    {
      assert s[k * SECTOR_PAGES + SECTOR_PAGES - 1].Live?;
    }
  }

  lemma WholeSectors(sectors: nat, ops: seq<Op>)
    ensures Sectored(Run(sectors, ops).slots)
  {
    hide Run;
  }

  /** No record whatever can be saved. */
  ghost predicate RefusesAll(s: seq<Slot>) {
    Sectored(s) && forall id, payload :: Save(s, id, payload) == s
  }

  /** The bound of `RunAgrees` is exact: on a device of any size some run stores one record per
      sector, after which a save of any record whatever is refused. */
  lemma CapacityIsTight(sectors: nat) returns (ops: seq<Op>)
    requires 0 < sectors < BLOCK_FREE - 2
    ensures |Contents(Run(sectors, ops).slots)| == sectors
    ensures RefusesAll(Run(sectors, ops).slots)
  {
    hide Packed, Run, Contents, Save, HasRoom, Distinct, LiveIds;
    ops := Packing(sectors, sectors * SECTOR_PAGES);
    WholeSectors(sectors, ops);
    hide Sectored;
    PackingPacks(sectors, sectors * SECTOR_PAGES);
    PackedCount(sectors);
    PackedIsFull(sectors);
    RunDistinct(sectors, ops);
    var s := Run(sectors, ops).slots;
    forall id, payload
      ensures Save(s, id, payload) == s
    {
      SaveRefinesMap(s, id, payload);
    }
  }
}
