/** The records of the block store, each under its fixed key, read as the `Disk` the registry works with. */
module DiskView {
  import opened Basics
  import opened Flash
  import opened Records
  import opened House

  const WIFI_KEY: RecordId := 0x1984_1984
  const MQTT_KEY: RecordId := 0x1984_1985
  const BLIND_IDS_KEY: RecordId := 0x1984_1986
  const REMOTE_IDS_KEY: RecordId := 0x1984_1987
  const EXTERNAL_IDS_KEY: RecordId := 0x1984_1990

  /** The keys' upper halves have clear low halves, so combining them with an id by OR is adding it. */
  function BlindKey(id: u16): RecordId {
    0x1985_0000 + id
  }

  function RemoteKey(low: u16): RecordId {
    0x1986_0000 + low
  }

  type Store = map<RecordId, Payload>

  // ---------------------------------------------------------------- reading the store as a disk

  /** Every record decodes under the type its key gives it. */
  ghost predicate RemotesWellFormed(m: Store) {
    forall k: u16 :: RemoteKey(k) in m ==> RemoteWellFormed(m[RemoteKey(k)])
  }

  ghost predicate BlindsWellFormed(m: Store) {
    forall k: u16 :: BlindKey(k) in m ==> BlindWellFormed(m[BlindKey(k)])
  }

  ghost predicate ListsWellFormed(m: Store) {
    && (BLIND_IDS_KEY in m ==> Ids16WellFormed(m[BLIND_IDS_KEY]))
    && (REMOTE_IDS_KEY in m ==> Ids16WellFormed(m[REMOTE_IDS_KEY]))
    && (EXTERNAL_IDS_KEY in m ==> Ids32WellFormed(m[EXTERNAL_IDS_KEY]))
  }

  ghost predicate WellFormed(m: Store) {
    RemotesWellFormed(m) && BlindsWellFormed(m) && ListsWellFormed(m)
  }

  ghost function RemotesOf(m: Store): map<u16, RemoteConfig>
    requires RemotesWellFormed(m)
  {
    map k: u16 | 0 <= k < 0x1_0000 && RemoteKey(k) in m :: DecodeRemote(m[RemoteKey(k)])
  }

  ghost function BlindsOf(m: Store): map<u16, BlindConfig>
    requires BlindsWellFormed(m)
  {
    map k: u16 | 0 <= k < 0x1_0000 && BlindKey(k) in m :: DecodeBlind(m[BlindKey(k)])
  }

  function List16(m: Store, key: RecordId): seq<u16>
    requires key in m ==> Ids16WellFormed(m[key])
  {
    if key in m then DecodeIds16(m[key]) else []
  }

  function List32(m: Store, key: RecordId): seq<u32>
    requires key in m ==> Ids32WellFormed(m[key])
  {
    if key in m then DecodeIds32(m[key]) else []
  }

  ghost function View(m: Store): Disk
    requires WellFormed(m)
  {
    Disk(RemotesOf(m), BlindsOf(m), List16(m, REMOTE_IDS_KEY), List32(m, EXTERNAL_IDS_KEY), List16(m, BLIND_IDS_KEY))
  }

  // ---------------------------------------------------------------- one record, one field

  /** The stores agree on the remotes' keys, on the blinds' keys, on the lists' keys. */
  ghost predicate SameRemotes(m: Store, t: Store) {
    forall k: u16 {:trigger RemoteKey(k)} :: 
      (RemoteKey(k) in m <==> RemoteKey(k) in t) && (RemoteKey(k) in m ==> t[RemoteKey(k)] == m[RemoteKey(k)])
  }

  ghost predicate SameBlinds(m: Store, t: Store) {
    forall k: u16 {:trigger BlindKey(k)} :: 
      (BlindKey(k) in m <==> BlindKey(k) in t) && (BlindKey(k) in m ==> t[BlindKey(k)] == m[BlindKey(k)])
  }

  ghost predicate SameLists(m: Store, t: Store) {
    forall key :: key in {REMOTE_IDS_KEY, EXTERNAL_IDS_KEY, BLIND_IDS_KEY} ==>
      (key in m <==> key in t) && (key in m ==> t[key] == m[key])
  }

  lemma SameRemotesOf(m: Store, t: Store)
    requires SameRemotes(m, t) && RemotesWellFormed(m)
    ensures RemotesWellFormed(t) && RemotesOf(t) == RemotesOf(m)
  {
    hide DecodeRemote, RemoteWellFormed, RemoteKey;
  }

  lemma SameBlindsOf(m: Store, t: Store)
    requires SameBlinds(m, t) && BlindsWellFormed(m)
    ensures BlindsWellFormed(t) && BlindsOf(t) == BlindsOf(m)
  {
    hide DecodeBlind, BlindWellFormed, BlindKey;
  }

  lemma SameListsOf(m: Store, t: Store)
    requires SameLists(m, t) && ListsWellFormed(m)
    ensures ListsWellFormed(t)
    ensures List16(t, REMOTE_IDS_KEY) == List16(m, REMOTE_IDS_KEY)
    ensures List32(t, EXTERNAL_IDS_KEY) == List32(m, EXTERNAL_IDS_KEY)
    ensures List16(t, BLIND_IDS_KEY) == List16(m, BLIND_IDS_KEY)
  {
    hide DecodeIds16, DecodeIds32, Ids16WellFormed, Ids32WellFormed;
  }

  /** Writing or removing one remote's record. */
  lemma RemoteKeyApart(m: Store, k: u16, p: Payload)
    ensures SameBlinds(m, m[RemoteKey(k) := p]) && SameLists(m, m[RemoteKey(k) := p])
  {
  }

  lemma RemoteKeyRemoved(m: Store, k: u16)
    ensures SameBlinds(m, m - {RemoteKey(k)}) && SameLists(m, m - {RemoteKey(k)})
  {
  }

  lemma PutRemotesOf(m: Store, k: u16, p: Payload)
    requires RemotesWellFormed(m) && RemoteWellFormed(p)
    ensures var t := m[RemoteKey(k) := p];
            RemotesWellFormed(t) && RemotesOf(t) == RemotesOf(m)[k := DecodeRemote(p)]
  {
    hide DecodeRemote, RemoteWellFormed;
    var t := m[RemoteKey(k) := p];
    assert forall j: u16 :: j != k ==> RemoteKey(j) != RemoteKey(k);
    hide RemoteKey;
    assert RemotesWellFormed(t);
    var a, b := RemotesOf(t), RemotesOf(m)[k := DecodeRemote(p)];
    assert forall j: u16 :: j in a <==> j in b;
    assert forall j: u16 :: j in a ==> a[j] == b[j];
  }

  lemma DropRemotesOf(m: Store, k: u16)
    requires RemotesWellFormed(m)
    ensures var t := m - {RemoteKey(k)};
            RemotesWellFormed(t) && RemotesOf(t) == RemotesOf(m) - {k}
  {
    hide DecodeRemote, RemoteWellFormed;
    var t := m - {RemoteKey(k)};
    assert forall j: u16 :: j != k ==> RemoteKey(j) != RemoteKey(k);
    hide RemoteKey;
    assert RemotesWellFormed(t);
    var a, b := RemotesOf(t), RemotesOf(m) - {k};
    assert forall j: u16 :: j in a <==> j in b;
    assert forall j: u16 :: j in a ==> a[j] == b[j];
  }

  lemma PutRemote(m: Store, k: u16, p: Payload)
    requires WellFormed(m) && RemoteWellFormed(p)
    ensures WellFormed(m[RemoteKey(k) := p])
    ensures View(m[RemoteKey(k) := p]) == View(m).(remotes := View(m).remotes[k := DecodeRemote(p)])
  {
    hide RemoteKey, DecodeRemote, RemoteWellFormed, RemotesOf, BlindsOf, RemotesWellFormed, BlindsWellFormed,
      SameBlinds, SameLists, ListsWellFormed, List16, List32;
    RemoteKeyApart(m, k, p);
    PutRemotesOf(m, k, p);
    SameBlindsOf(m, m[RemoteKey(k) := p]);
    SameListsOf(m, m[RemoteKey(k) := p]);
  }

  lemma RemoveRemote(m: Store, k: u16)
    requires WellFormed(m)
    ensures WellFormed(m - {RemoteKey(k)})
    ensures View(m - {RemoteKey(k)}) == View(m).(remotes := View(m).remotes - {k})
  {
    hide RemoteKey, DecodeRemote, RemoteWellFormed, RemotesOf, BlindsOf, RemotesWellFormed, BlindsWellFormed,
      SameBlinds, SameLists, ListsWellFormed, List16, List32;
    RemoteKeyRemoved(m, k);
    DropRemotesOf(m, k);
    SameBlindsOf(m, m - {RemoteKey(k)});
    SameListsOf(m, m - {RemoteKey(k)});
  }

  /** Writing or removing one blind's record. */
  lemma BlindKeyApart(m: Store, k: u16, p: Payload)
    ensures SameRemotes(m, m[BlindKey(k) := p]) && SameLists(m, m[BlindKey(k) := p])
  {
  }

  lemma BlindKeyRemoved(m: Store, k: u16)
    ensures SameRemotes(m, m - {BlindKey(k)}) && SameLists(m, m - {BlindKey(k)})
  {
  }

  lemma PutBlindsOf(m: Store, k: u16, p: Payload)
    requires BlindsWellFormed(m) && BlindWellFormed(p)
    ensures var t := m[BlindKey(k) := p];
            BlindsWellFormed(t) && BlindsOf(t) == BlindsOf(m)[k := DecodeBlind(p)]
  {
    hide DecodeBlind, BlindWellFormed;
    var t := m[BlindKey(k) := p];
    assert forall j: u16 :: j != k ==> BlindKey(j) != BlindKey(k);
    hide BlindKey;
    assert BlindsWellFormed(t);
    var a, b := BlindsOf(t), BlindsOf(m)[k := DecodeBlind(p)];
    assert forall j: u16 :: j in a <==> j in b;
    assert forall j: u16 :: j in a ==> a[j] == b[j];
  }

  lemma DropBlindsOf(m: Store, k: u16)
    requires BlindsWellFormed(m)
    ensures var t := m - {BlindKey(k)};
            BlindsWellFormed(t) && BlindsOf(t) == BlindsOf(m) - {k}
  {
    hide DecodeBlind, BlindWellFormed;
    var t := m - {BlindKey(k)};
    assert forall j: u16 :: j != k ==> BlindKey(j) != BlindKey(k);
    hide BlindKey;
    assert BlindsWellFormed(t);
    var a, b := BlindsOf(t), BlindsOf(m) - {k};
    assert forall j: u16 :: j in a <==> j in b;
    assert forall j: u16 :: j in a ==> a[j] == b[j];
  }

  lemma PutBlind(m: Store, k: u16, p: Payload)
    requires WellFormed(m) && BlindWellFormed(p)
    ensures WellFormed(m[BlindKey(k) := p])
    ensures View(m[BlindKey(k) := p]) == View(m).(blinds := View(m).blinds[k := DecodeBlind(p)])
  {
    hide BlindKey, DecodeBlind, BlindWellFormed, RemotesOf, BlindsOf, RemotesWellFormed, BlindsWellFormed,
      SameRemotes, SameLists, ListsWellFormed, List16, List32;
    BlindKeyApart(m, k, p);
    PutBlindsOf(m, k, p);
    SameRemotesOf(m, m[BlindKey(k) := p]);
    SameListsOf(m, m[BlindKey(k) := p]);
  }

  lemma RemoveBlind(m: Store, k: u16)
    requires WellFormed(m)
    ensures WellFormed(m - {BlindKey(k)})
    ensures View(m - {BlindKey(k)}) == DropBlind(View(m), k)
  {
    hide BlindKey, DecodeBlind, BlindWellFormed, RemotesOf, BlindsOf, RemotesWellFormed, BlindsWellFormed,
      SameRemotes, SameLists, ListsWellFormed, List16, List32;
    BlindKeyRemoved(m, k);
    DropBlindsOf(m, k);
    SameRemotesOf(m, m - {BlindKey(k)});
    SameListsOf(m, m - {BlindKey(k)});
  }

  lemma ListKeysApart(m: Store, key: RecordId, p: Payload)
    requires key in {REMOTE_IDS_KEY, EXTERNAL_IDS_KEY, BLIND_IDS_KEY}
    ensures SameRemotes(m, m[key := p]) && SameBlinds(m, m[key := p])
  {
  }

  lemma PutList16(m: Store, key: RecordId, p: Payload)
    requires WellFormed(m) && Ids16WellFormed(p) && (key == REMOTE_IDS_KEY || key == BLIND_IDS_KEY)
    ensures WellFormed(m[key := p])
    ensures View(m[key := p]) == if key == REMOTE_IDS_KEY then View(m).(remoteIds := DecodeIds16(p))
                                 else View(m).(blindIds := DecodeIds16(p))
  {
    hide DecodeIds16, DecodeIds32, Ids16WellFormed, Ids32WellFormed, RemotesOf, BlindsOf, RemotesWellFormed,
      BlindsWellFormed, SameRemotes, SameBlinds;
    ListKeysApart(m, key, p);
    SameRemotesOf(m, m[key := p]);
    SameBlindsOf(m, m[key := p]);
  }

  lemma PutList32(m: Store, p: Payload)
    requires WellFormed(m) && Ids32WellFormed(p)
    ensures WellFormed(m[EXTERNAL_IDS_KEY := p])
    ensures View(m[EXTERNAL_IDS_KEY := p]) == View(m).(externalIds := DecodeIds32(p))
  {
    hide DecodeIds16, DecodeIds32, Ids16WellFormed, Ids32WellFormed, RemotesOf, BlindsOf, RemotesWellFormed,
      BlindsWellFormed, SameRemotes, SameBlinds;
    ListKeysApart(m, EXTERNAL_IDS_KEY, p);
    SameRemotesOf(m, m[EXTERNAL_IDS_KEY := p]);
    SameBlindsOf(m, m[EXTERNAL_IDS_KEY := p]);
  }

  // ---------------------------------------------------------------- the class

  /** What reading a key tells about the disk. */
  lemma ViewAt(m: Store, k: u16)
    requires WellFormed(m)
    ensures RemoteKey(k) in m <==> k in View(m).remotes
    ensures k in View(m).remotes ==>
              RemoteWellFormed(m[RemoteKey(k)]) && View(m).remotes[k] == DecodeRemote(m[RemoteKey(k)])
    ensures BlindKey(k) in m <==> k in View(m).blinds
    ensures k in View(m).blinds ==> BlindWellFormed(m[BlindKey(k)]) && View(m).blinds[k] == DecodeBlind(m[BlindKey(k)])
  {
    hide DecodeRemote, DecodeBlind, RemoteWellFormed, BlindWellFormed, RemoteKey, BlindKey;
  }

  // ---------------------------------------------------------------- how many records there are

  /** The keys this layer uses: the settings, the lists, and those of remotes and blinds. */
  predicate IsKnown(key: RecordId) {
    || key in {WIFI_KEY, MQTT_KEY, BLIND_IDS_KEY, REMOTE_IDS_KEY, EXTERNAL_IDS_KEY}
    || BlindKey(0) <= key <= BlindKey(0xFFFF) || RemoteKey(0) <= key <= RemoteKey(0xFFFF)
  }

  ghost predicate KnownKeys(m: Store) {
    forall key :: key in m ==> IsKnown(key)
  }

  lemma KnownPut(m: Store, key: RecordId, p: Payload)
    requires KnownKeys(m) && IsKnown(key)
    ensures KnownKeys(m[key := p])
  {
    hide IsKnown;
  }

  lemma KnownDrop(m: Store, key: RecordId)
    requires KnownKeys(m)
    ensures KnownKeys(m - {key})
  {
    hide IsKnown;
  }

  lemma {:induction false} KeysCount(keys: set<RecordId>, lows: set<u16>, base: u32)
    requires forall k :: k in keys ==> k >= base && k - base in lows
    ensures |keys| <= |lows|
    decreases keys
  {
    if keys != {} {
      var k :| k in keys;
      KeysCount(keys - {k}, lows - {k - base}, base);
    }
  }

  /** The keys of the remotes start at this base, and those of the blinds at theirs. */
  function Within(keys: set<RecordId>, base: u32): set<RecordId> {
    set key | key in keys && base <= key <= base + 0xFFFF
  }

  lemma WithinCount(keys: set<RecordId>, ids: set<u16>, base: u32)
    requires forall key :: key in keys && base <= key <= base + 0xFFFF ==> key - base in ids
    ensures |Within(keys, base)| <= |ids|
  {
    KeysCount(Within(keys, base), ids, base);
  }

  lemma UnionCount(keys: set<RecordId>, a: set<RecordId>, b: set<RecordId>, c: set<RecordId>)
    requires keys <= a + b + c
    ensures |keys| <= |a| + |b| + |c|
  {
    CardinalityMonotone(keys, a + b + c);
  }

  /** The known keys among which are those of these remotes and these blinds only. */
  lemma KnownCount(keys: set<RecordId>, remotes: set<u16>, blinds: set<u16>)
    requires forall key :: key in keys ==> IsKnown(key)
    requires forall x: u16 :: RemoteKey(x) in keys ==> x in remotes
    requires forall x: u16 :: BlindKey(x) in keys ==> x in blinds
    ensures |keys| <= 5 + |remotes| + |blinds|
  {
    AreTheirs(keys, remotes, blinds);
    WithinCount(keys, remotes, RemoteKey(0));
    WithinCount(keys, blinds, BlindKey(0));
    var settings := InThree(keys);
    hide Within, IsKnown, RemoteKey, BlindKey;
    UnionCount(keys, settings, Within(keys, RemoteKey(0)), Within(keys, BlindKey(0)));
  }

  lemma AreTheirs(keys: set<RecordId>, remotes: set<u16>, blinds: set<u16>)
    requires forall x: u16 :: RemoteKey(x) in keys ==> x in remotes
    requires forall x: u16 :: BlindKey(x) in keys ==> x in blinds
    ensures forall key :: key in keys && RemoteKey(0) <= key <= RemoteKey(0) + 0xFFFF ==> key - RemoteKey(0) in remotes
    ensures forall key :: key in keys && BlindKey(0) <= key <= BlindKey(0) + 0xFFFF ==> key - BlindKey(0) in blinds
  {
    forall key | key in keys && RemoteKey(0) <= key <= RemoteKey(0) + 0xFFFF
      ensures key - RemoteKey(0) in remotes
    {
      assert RemoteKey(key - RemoteKey(0)) == key;
    }
    forall key | key in keys && BlindKey(0) <= key <= BlindKey(0) + 0xFFFF
      ensures key - BlindKey(0) in blinds
    {
      assert BlindKey(key - BlindKey(0)) == key;
    }
  }

  lemma InThree(keys: set<RecordId>) returns (settings: set<RecordId>)
    requires forall key :: key in keys ==> IsKnown(key)
    ensures |settings| <= 5 && keys <= settings + Within(keys, RemoteKey(0)) + Within(keys, BlindKey(0))
  {
    settings := {WIFI_KEY, MQTT_KEY, BLIND_IDS_KEY, REMOTE_IDS_KEY, EXTERNAL_IDS_KEY};
  }

  /** Besides the settings and the lists there is a record for each remote and each blind the disk shows. */
  lemma RecordsCount(m: Store)
    requires RemotesWellFormed(m) && BlindsWellFormed(m) && KnownKeys(m)
    ensures |m| <= 5 + |RemotesOf(m)| + |BlindsOf(m)|
  {
    hide RemoteWellFormed, BlindWellFormed, DecodeRemote, DecodeBlind, IsKnown, RemoteKey, BlindKey;
    KnownCount(m.Keys, RemotesOf(m).Keys, BlindsOf(m).Keys);
    assert |m.Keys| == |m| && |RemotesOf(m).Keys| == |RemotesOf(m)| && |BlindsOf(m).Keys| == |BlindsOf(m)|;
  }

  lemma OneMoreRecord<T>(records: map<u16, T>, k: u16, cfg: T)
    ensures |records[k := cfg]| == |records| + (if k in records then 0 else 1)
    ensures k in records && records[k] == cfg ==> records[k := cfg] == records
  {
  }

  lemma FewerRecords<T>(records: map<u16, T>, k: u16)
    ensures |records - {k}| <= |records|
  {
    CardinalityMonotone((records - {k}).Keys, records.Keys);
    assert |(records - {k}).Keys| == |records - {k}| && |records.Keys| == |records|;
  }

  lemma RemoteEncoded(cfg: RemoteConfig, memory: RemoteBytes)
    requires |cfg.blinds| <= MAX_BLINDS && |memory| <= BLOCK_SIZE
    ensures var b := EncodeRemote(cfg, memory);
            && RemoteWellFormed(b) && DecodeRemote(b) == cfg
            && RemoteWellFormed(Pad(b)) && DecodeRemote(Pad(b)) == cfg
  {
    var b := EncodeRemote(cfg, memory);
    RemoteRoundTrip(cfg, memory, []);
    RemoteRoundTrip(cfg, memory, seq(BLOCK_SIZE - |b|, _ => 0));
    assert b + [] == b;
    hide EncodeRemote, DecodeRemote, RemoteWellFormed;
  }

  lemma BlindEncoded(cfg: BlindConfig, memory: BlindBytes)
    requires |memory| <= BLOCK_SIZE
    ensures var b := EncodeBlind(cfg, memory);
            && BlindWellFormed(b) && DecodeBlind(b) == cfg
            && BlindWellFormed(Pad(b)) && DecodeBlind(Pad(b)) == cfg
  {
    var b := EncodeBlind(cfg, memory);
    BlindRoundTrip(cfg, memory, []);
    BlindRoundTrip(cfg, memory, seq(BLOCK_SIZE - |b|, _ => 0));
    assert b + [] == b;
    hide EncodeBlind, DecodeBlind, BlindWellFormed;
  }

  lemma NoRecords(m: Store)
    requires forall k: u16 :: RemoteKey(k) !in m
    requires forall k: u16 :: BlindKey(k) !in m
    ensures RemotesWellFormed(m) && RemotesOf(m) == map[] && BlindsWellFormed(m) && BlindsOf(m) == map[]
  {
    hide RemoteKey, BlindKey, DecodeRemote, DecodeBlind;
  }

  /** A store holding settings only reads as an empty disk. */
  lemma SettingsOnly(wifi: Payload, mqtt: Payload)
    ensures var m: Store := map[WIFI_KEY := wifi, MQTT_KEY := mqtt];
            WellFormed(m) && KnownKeys(m) && View(m) == NewHouse().disk
  {
    hide DecodeRemote, DecodeBlind, DecodeIds16, DecodeIds32, RemotesOf, BlindsOf, RemotesWellFormed,
      BlindsWellFormed;
    var m: Store := map[WIFI_KEY := wifi, MQTT_KEY := mqtt];
    assert forall k: u16 :: RemoteKey(k) !in m;
    assert forall k: u16 :: BlindKey(k) !in m;
    NoRecords(m);
  }
}
