/** The typed layer over the block store: records under fixed keys, and writes skipped when they would change
    nothing. */
module DeviceConfig {
  import opened Basics
  import opened Flash
  import opened Records
  import opened House
  import opened DiskView
  import B = BlockStorage
  import S = SlotLog
  import W = DiskWrites

  class DeviceConfig {
    const storage: B.BlockStorage

    ghost predicate Valid()
      reads storage, storage.flash
    {
      storage.Valid() && WellFormed(storage.Records()) && KnownKeys(storage.Records())
    }

    /** The flash as the registry sees it. */
    ghost function Disk(): Disk
      requires Valid()
      reads storage, storage.flash
    {
      View(storage.Records())
    }

    lemma ListsBounded()
      requires Valid()
      ensures |Disk().remoteIds| <= MAX_IDS16 && |Disk().externalIds| <= MAX_IDS32 && |Disk().blindIds| <= MAX_IDS16
    {
      hide RemotesOf, BlindsOf, DecodeIds16, DecodeIds32;
    }

    /** Sectors left when the settings and the lists have one each, and every remote and blind on the disk:
        while this is positive, a save is sure to find a page. */
    ghost function Room(): int
      requires Valid()
      reads storage, storage.flash
    {
      RoomLeft(storage.sectors, Disk())
    }

    lemma RoomToSave()
      requires Valid()
      ensures Room() > 0 ==> |storage.Records()| < storage.sectors
    {
      hide RemotesOf, BlindsOf, S.Contents;
      RecordsCount(storage.Records());
    }

    constructor (storage: B.BlockStorage)
      requires storage.Valid() && WellFormed(storage.Records()) && KnownKeys(storage.Records())
      ensures this.storage == storage && Valid()
    {
      this.storage := storage;
    }

    /** The bytes of a stored record. */
    method Read(key: RecordId) returns (r: Option<Payload>)
      requires Valid()
      ensures r == if key in storage.Records() then Some(storage.Records()[key]) else None
    {
      var offset := storage.GetBlock(key);
      match offset {
        case None => r := None;
        case Some(o) => r := Some(storage.flash[o..o + BLOCK_SIZE]);
      }
    }

    /** Store a record, if there is a page for it; otherwise it is lost without notice. */
    method Write(key: RecordId, data: seq<Byte>) returns (ghost stored: bool)
      requires storage.Valid() && 1 <= |data| <= BLOCK_SIZE
      modifies storage, storage.flash
      ensures storage.Valid() && stored == old(S.HasRoom(storage.slots))
      ensures storage.Records() == if stored then old(storage.Records())[key := Pad(data)] else old(storage.Records())
      ensures |old(storage.Records())| < storage.sectors ==> stored
      ensures storage.history == old(storage.history) + S.SaveTrace(old(storage.slots), key, Pad(data))
    {
      hide Pad, S.HasRoom, S.Save, S.SaveTrace, S.Contents;
      stored := S.HasRoom(storage.slots);
      if |storage.Records()| < storage.sectors {
        S.RoomBelowCapacity(storage.slots);
      }
      storage.SaveBlock(key, data);
    }

    lemma Held()
      requires Valid()
      ensures S.Sectored(storage.slots) && W.Holds(storage.slots, Disk())
    {
      hide WellFormed, View, KnownKeys, S.Contents, S.Distinct;
    }

    /** Store one of the registry's records: the disk as it then reads, and every flash on the way. */
    method Put(key: RecordId, data: seq<Byte>, ghost w: W.Write) returns (ghost stored: bool)
      requires Valid() && 1 <= |data| <= BLOCK_SIZE
      requires key == W.KeyOf(w) && !W.Drops(w) && W.Carries(w, Pad(data))
      modifies storage, storage.flash
      ensures Valid() && (old(Room()) > 0 ==> stored)
      ensures Disk() == if stored then W.Applied(old(Disk()), w) else old(Disk())
      ensures W.Wrote(old(storage.history), storage.history, old(Disk()), [w])
    {
      hide WellFormed, View, Pad, KnownKeys, IsKnown, S.HasRoom, S.Contents, S.SaveTrace, W.Carries, W.Applied,
        W.KeyOf, W.Holds, W.Wrote, RoomLeft;
      Held();
      RoomToSave();
      W.StoredView(storage.Records(), w, Pad(data));
      KnownWrite(w);
      KnownPut(storage.Records(), key, Pad(data));
      stored := Write(key, data);
      W.WroteOne(old(storage.slots), w, Pad(data), old(Disk()), old(storage.history), storage.history);
    }

    /** Remove one of the registry's records. */
    method Clear(key: RecordId, ghost w: W.Write)
      requires Valid() && key == W.KeyOf(w) && W.Drops(w)
      modifies storage, storage.flash
      ensures Valid() && Disk() == W.Applied(old(Disk()), w)
      ensures W.Wrote(old(storage.history), storage.history, old(Disk()), [w])
    {
      hide WellFormed, View, Pad, KnownKeys, S.Kill, S.Contents, W.Applied, W.KeyOf, W.Holds, W.Wrote;
      Held();
      W.StoredView(storage.Records(), w, Pad([]));
      KnownDrop(storage.Records(), key);
      storage.ClearBlock(key);
      W.WroteOne(old(storage.slots), w, Pad([]), old(Disk()), old(storage.history), storage.history);
    }

    /** A remote's record; the two impossible ids have none. */
    method GetRemoteConfig(remoteId: u32) returns (r: Option<Payload>)
      requires Valid()
      ensures r.Some? ==> RemoteWellFormed(r.value)
      ensures ReadRemote(Disk(), remoteId) == if r.Some? then Some(DecodeRemote(r.value)) else None
    {
      hide WellFormed, View, DecodeRemote, RemoteWellFormed, RemoteKey;
      if remoteId == NO_REMOTE || remoteId == 0 {
        return None;
      }
      ViewAt(storage.Records(), Low(remoteId));
      r := Read(RemoteKey(Low(remoteId)));
    }

    /** Write a remote's record, unless the one on flash already says the same. */
    method SaveRemoteConfig(remoteId: u32, cfg: RemoteConfig) returns (ghost stored: bool)
      requires Valid() && |cfg.blinds| <= MAX_BLINDS
      modifies storage, storage.flash
      ensures Valid() && (old(Room()) > 0 ==> stored)
      ensures Disk() == if stored then old(Disk()).(remotes := old(Disk()).remotes[Low(remoteId) := cfg])
              else old(Disk())
      ensures Room() >= old(Room()) - (if Low(remoteId) in old(Disk()).remotes then 0 else 1)
      ensures W.Wrote(old(storage.history), storage.history, old(Disk()), [W.PutRemote(Low(remoteId), cfg)])
      ensures old(ReadRemote(Disk(), remoteId)) == Some(cfg) ==> storage.flash[..] == old(storage.flash[..])
    {
      hide Valid, Disk, DecodeRemote, RemoteWellFormed, EncodeRemote, RemoteEqual, Pad, RemoteKey, W.Wrote;
      var memory := new Byte[REMOTE_SIZE];
      var config := EncodeRemote(cfg, memory[..]);
      RemoteEncoded(cfg, memory[..]);
      var k := Low(remoteId);
      OneMoreRecord(Disk().remotes, k, cfg);
      var existingCfg := GetRemoteConfig(remoteId);
      if existingCfg.Some? {
        RemoteEqualIsEquality(config, existingCfg.value);
      }
      if existingCfg.Some? && RemoteEqual(config, existingCfg.value) {
        W.WroteNothing(storage.history, Disk(), [W.PutRemote(k, cfg)]);
        return true;
      }
      stored := Put(RemoteKey(k), config, W.PutRemote(k, cfg));
    }

    method DeleteRemoteConfig(remoteId: u32)
      requires Valid()
      modifies storage, storage.flash
      ensures Valid() && Disk() == DropRemote(old(Disk()), remoteId) && Room() >= old(Room())
      ensures W.Wrote(old(storage.history), storage.history, old(Disk()), [W.DropRemote(Low(remoteId))])
    {
      hide Valid, Disk, RemoteKey, W.Wrote;
      FewerRecords(Disk().remotes, Low(remoteId));
      Clear(RemoteKey(Low(remoteId)), W.DropRemote(Low(remoteId)));
    }

    method GetBlindConfig(blindId: u16) returns (r: Option<Payload>)
      requires Valid()
      ensures r.Some? <==> blindId in Disk().blinds
      ensures r.Some? ==> BlindWellFormed(r.value) && Disk().blinds[blindId] == DecodeBlind(r.value)
    {
      hide WellFormed, View, DecodeBlind, BlindWellFormed, BlindKey;
      ViewAt(storage.Records(), blindId);
      r := Read(BlindKey(blindId));
    }

    /** The records as their readers see them. */
    method ReadRemoteConfig(remoteId: u32) returns (cfg: Option<RemoteConfig>)
      requires Valid()
      ensures cfg == ReadRemote(Disk(), remoteId)
    {
      hide Valid, Disk, ReadRemote, DecodeRemote, RemoteWellFormed;
      var block := GetRemoteConfig(remoteId);
      match block {
        case None => cfg := None;
        case Some(b) => cfg := Some(DecodeRemote(b));
      }
    }

    method ReadBlindConfig(blindId: u16) returns (cfg: Option<BlindConfig>)
      requires Valid()
      ensures cfg == ReadBlind(Disk(), blindId)
    {
      hide Valid, Disk, DecodeBlind, BlindWellFormed;
      var block := GetBlindConfig(blindId);
      match block {
        case None => cfg := None;
        case Some(b) => cfg := Some(DecodeBlind(b));
      }
    }

    /** Write a blind's record, unless the one on flash already says the same. */
    method SaveBlindConfig(blindId: u16, cfg: BlindConfig) returns (ghost stored: bool)
      requires Valid()
      modifies storage, storage.flash
      ensures Valid() && (old(Room()) > 0 ==> stored)
      ensures Disk() == if stored then old(Disk()).(blinds := old(Disk()).blinds[blindId := cfg]) else old(Disk())
      ensures Room() >= old(Room()) - (if blindId in old(Disk()).blinds then 0 else 1)
      ensures W.Wrote(old(storage.history), storage.history, old(Disk()), [W.PutBlind(blindId, cfg)])
      ensures old(ReadBlind(Disk(), blindId)) == Some(cfg) ==> storage.flash[..] == old(storage.flash[..])
    {
      hide Valid, Disk, DecodeBlind, BlindWellFormed, EncodeBlind, BlindEqual, Pad, BlindKey, W.Wrote;
      var memory := new Byte[BLIND_SIZE];
      var config := EncodeBlind(cfg, memory[..]);
      BlindEncoded(cfg, memory[..]);
      OneMoreRecord(Disk().blinds, blindId, cfg);
      var existingCfg := GetBlindConfig(blindId);
      if existingCfg.Some? {
        BlindEqualIsEquality(config, existingCfg.value);
      }
      if existingCfg.Some? && BlindEqual(config, existingCfg.value) {
        W.WroteNothing(storage.history, Disk(), [W.PutBlind(blindId, cfg)]);
        return true;
      }
      stored := Put(BlindKey(blindId), config, W.PutBlind(blindId, cfg));
    }

    method DeleteBlindConfig(blindId: u16)
      requires Valid()
      modifies storage, storage.flash
      ensures Valid() && Disk() == DropBlind(old(Disk()), blindId) && Room() >= old(Room())
      ensures W.Wrote(old(storage.history), storage.history, old(Disk()), [W.DropBlind(blindId)])
    {
      hide Valid, Disk, BlindKey, W.Wrote;
      FewerRecords(Disk().blinds, blindId);
      Clear(BlindKey(blindId), W.DropBlind(blindId));
    }

    /** A list is the number of its ids followed by the ids. */
    method SaveIdList(header: RecordId, ids: seq<u16>) returns (ghost stored: bool)
      requires Valid() && |ids| <= MAX_IDS16
      requires header == REMOTE_IDS_KEY || header == BLIND_IDS_KEY
      modifies storage, storage.flash
      ensures Valid() && (old(Room()) > 0 ==> stored)
      ensures Disk() == if !stored then old(Disk())
                        else if header == REMOTE_IDS_KEY then old(Disk()).(remoteIds := ids)
                        else old(Disk()).(blindIds := ids)
      ensures Room() == old(Room())
      ensures W.Wrote(old(storage.history), storage.history, old(Disk()), [ListWrite(header, ids)])
    {
      hide Valid, Disk, DecodeIds16, Ids16WellFormed, EncodeIds16, Pad, W.Wrote;
      var buf := EncodeIds16(ids);
      Ids16RoundTrip(ids);
      stored := Put(header, buf, ListWrite(header, ids));
    }

    method SaveIdList32(ids: seq<u32>) returns (ghost stored: bool)
      requires Valid() && |ids| <= MAX_IDS32
      modifies storage, storage.flash
      ensures Valid() && (old(Room()) > 0 ==> stored)
      ensures Disk() == if stored then old(Disk()).(externalIds := ids) else old(Disk())
      ensures Room() == old(Room())
      ensures W.Wrote(old(storage.history), storage.history, old(Disk()), [W.PutExternals(ids)])
    {
      hide Valid, Disk, DecodeIds32, Ids32WellFormed, EncodeIds32, Pad, W.Wrote;
      var buf := EncodeIds32(ids);
      Ids32RoundTrip(ids);
      stored := Put(EXTERNAL_IDS_KEY, buf, W.PutExternals(ids));
    }

    method GetIdList(header: RecordId) returns (ids: seq<u16>)
      requires Valid() && (header == REMOTE_IDS_KEY || header == BLIND_IDS_KEY)
      ensures ids == (if header == REMOTE_IDS_KEY then Disk().remoteIds else Disk().blindIds) && |ids| <= MAX_IDS16
    {
      hide DecodeIds16, Ids16WellFormed, RemotesOf, BlindsOf;
      var block := Read(header);
      match block {
        case None => ids := [];
        case Some(b) => ids := DecodeIds16(b);
      }
    }

    method GetIdList32() returns (ids: seq<u32>)
      requires Valid()
      ensures ids == Disk().externalIds
    {
      hide DecodeIds32, Ids32WellFormed, RemotesOf, BlindsOf;
      var block := Read(EXTERNAL_IDS_KEY);
      match block {
        case None => ids := [];
        case Some(b) => ids := DecodeIds32(b);
      }
    }

    /** Format the flash and store empty WiFi and MQTT settings: no remotes, no blinds, no lists. */
    method HardReset(wifi: seq<Byte>, mqtt: seq<Byte>)
      requires storage.Valid() && storage.sectors >= 2 && 1 <= |wifi| <= BLOCK_SIZE && 1 <= |mqtt| <= BLOCK_SIZE
      modifies storage, storage.flash
      ensures Valid() && Disk() == NewHouse().disk && Room() == storage.sectors - 5
    {
      hide Pad;
      storage.Format();
      ghost var first := Write(WIFI_KEY, wifi);
      ghost var second := Write(MQTT_KEY, mqtt);
      SettingsOnly(Pad(wifi), Pad(mqtt));
    }
  }

  /** One of the two lists of short ids, by the key it is under. */
  function ListWrite(header: RecordId, ids: seq<u16>): W.Write {
    if header == REMOTE_IDS_KEY then W.PutInternals(ids) else W.PutBlindIds(ids)
  }

  lemma KnownWrite(w: W.Write)
    ensures IsKnown(W.KeyOf(w))
  {
  }
}
