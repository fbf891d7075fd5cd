# Pico-Somfy: a verified model of the firmware's core

Firmware for a Raspberry Pi Pico W that stands in for Somfy RTS remote controls: it sends and hears
the remotes' radio frames, keeps the remotes and blinds it knows in flash memory, and estimates where
each blind is. This project models the parts with hard state or arithmetic and proves what they
guarantee. `dafny verify dfyconfig.toml` checks all of it.

* **Record store** (`Flash`, `SlotLog`, `StoreRuns`, `BlockStorage`). NOR flash as a byte array that
  programming can only AND and erasing sets to 0xFF. The class works on those bytes in place; its
  pages are read as slots, its slots as a map. Results hold for any number of sectors, over every run
  from a formatted device, with power cuts after any physical operation.
* **Radio** (`Frames`, `ReceiveRing`, `CommandQueue`, `RadioWorker`). The frame codec for all frames,
  the shared receive ring as class and as history, and the outgoing queue with its shutdown as a state
  machine over the atomic steps of both cores.
* **Registry** (`Records`, `DiskView`, `DeviceConfig`, `Motion`, `House`, `HouseInvariant`, `HouseRestart`,
  `HouseRuns`, `HouseSpace`, `HouseLimits`, `BlindRecords`). `House` is the state of memory and flash
  together, with one function for each operation; the other modules prove what every run of whole operations
  keeps, what a restart brings back, how much of the flash is used, and where the guarantees end.
* **Blinds and their remotes** (`LinkedBlinds`, `BlindMoves`, `Responses`). What every request and every button
  does to the blinds it reaches; what keeps a blind bound to its own remote; and that a bound blind sent to a
  position, or sent off by a button or command, moves as `Motion` says in every run that does not reach it
  otherwise.
* **Ids and rolling codes** (`RollingCodes`, `LostCodes`, `FreshIds`, `AddedRemotes`). Which codes every run
  gives out, which come again after a loss of power, which ids a restart gives out again, and when an added
  remote costs another its record. Each has the exact condition under which the code meets it.
* **Power cuts in the registry** (`DiskWrites`, `OpWrites`, `PowerCuts`, `FlashStates`, `WeakRuns`, `StartCuts`,
  `CutRuns`, `CutEffects`, `Moments`). Every operation, and every start, as the writes it makes, cut at the
  granularity of single programs and erases. After such a cut a stored list may name a remote that has no
  record; `CutRuns.RunWeakInv` is the invariant of all runs in which power is lost anywhere, with the exact
  condition under which a cut keeps the full one. `PowerCuts` has what is lost while a blind is added or
  deleted. `Moments` ties these cuts to the history of the flash under the objects.
* **House and radio together** (`AirCodes`, `Listening`, `OverTheAir`, `Words`). The registry and the radio core
  as one machine with the real queue between them, down to the codes a receiver decodes off the air; with the
  receive queue, from the frames heard to the code the registry then holds and what its blinds do; and both
  joined, from a press in one house to the blinds of another (`OverTheAir.PressHeardElsewhere`).
* **The registry's objects** (`Devices`, `Tables`, `Registry`, `Device`, `Answers`, `DeviceRuns`). The classes
  of the source with their fields, loops and tables of objects, on top of the byte-level store. Each method
  is proved to change the abstraction `House()` by exactly the function of the same name. `Device.Perform`
  and `Device.Restart` make each event one step of `HouseRuns.Step`, and `DeviceRuns.RunEvents` chains them:
  any run of the registry, restarts included, can be performed on the objects and leaves them holding what
  the registry says. What is proved of its runs therefore holds of the objects on the flash bytes. Each method
  that writes also states (`DiskWrites.Made`) that every flash in the store's history on the way is at a cut of
  the writes of the operation.
* **DHCP leases** (`Leases`, `DhcpServer`). Eight leases whose expiry is cut to 16 bits and compared
  with a clock that wraps, over unbounded time. Section 2.2 of RFC 2131 asks that an address is not
  given to two clients at once.

Times and positions: the clock is a parameter of every operation that reads it, in microseconds (in
milliseconds for DHCP). Positions are real numbers where the source uses `float`.

What the code takes for granted is stated as preconditions, and collected for the registry in
`HouseRuns.Enabled`: ids with distinct low halves, id lists that fit a record, positive times, and that
every blind a pressed remote lists exists. `HouseLimits` and `AddedRemotes` show what happens without them.

Saving needs room in the store, because a failed save goes unnoticed by its callers. The registry takes one
record for each remote and each blind, and five others (`HouseSpace.StepTidy`, `DiskView.RecordsCount`),
and while records are fewer than sectors every save succeeds; `StoreRuns.CapacityIsTight` shows that bound to
be exact. So `HouseSpace.FitsOn` asks for fewer remotes and blinds than sectors less five, which with the
shipped 32 sectors (firmware/picoSomfy.cpp:50) is room for 13 blinds with their remotes.

Where the code does not do what one would want of it, the model does as the code does, and the property has
its exact condition: a power cut while a list of ids is replaced (`PowerCuts`), a listed remote without a
record after one (`CutRuns.CutInvIff`), rolling codes after a loss of power (`LostCodes`), a blind's own
presses after its remote was not saved (`LinkedBlinds.StepLinkedIff`), ids after the newest remote was deleted
(`FreshIds`), imported ids that collide (`AddedRemotes`), a target that is not marked for saving
(`BlindRecords`), a blind sent to where it is just passing (`Motion.MoveLawIff`), a blind sent to its
favourite when it is there (`Motion.FavouriteLawIff`), and a reception queued during a shutdown
(`RadioWorker.ShutdownReturnsIff`).

Two places where the code differs from what one would expect, both modelled as the code has them: a
DISCOVER in which an earlier lease is free stops looking for expired ones but goes on looking for the
client's own; and a tick's My press on arrival is told to the blind itself, where it has no further
effect (`Motion.StopIsQuiet`).

## Model

| member | source | states |
|---|---|---|
| Flash.ProgramRecord | firmware/blockStorage.cpp:114 | programming is an AND with the old content; a record still lands unchanged on a free page |
| Flash.ProgramZeros | firmware/blockStorage.cpp:202-211 | programming zeros kills a page whatever it held |
| Flash.PageBytesInjective | firmware/blockStorage.cpp:98-114 | a page image determines whether it is free, deleted, or which record it holds |
| Flash.Padded | firmware/blockStorage.cpp:96-111 | a record fills its 252 bytes with its data and then zeros |
| SlotLog.First | firmware/blockStorage.cpp:34-50 | the search returns the first page with the header, and fails only when there is none |
| SlotLog.EraseTraceEnds | firmware/blockStorage.cpp:213-243 | the reclaiming pass erases exactly the sectors all of whose headers were zero when it began |
| SlotLog.EraseDeadSameLive | firmware/blockStorage.cpp:213-243 | reclaiming moves, alters and loses no stored record, and creates none |
| SlotLog.ReclaimedHasFree | firmware/blockStorage.cpp:56-69 | a page is free after reclaiming if and only if one was free before or some sector held deleted records only |
| SlotLog.KillContents | firmware/blockStorage.cpp:128-140 | clearing removes exactly its own key, and no id ends up on two pages |
| SlotLog.SaveRefinesMap | firmware/blockStorage.cpp:53-126 | a save is an update of exactly one key of the map if there is room; otherwise the flash is left as it was |
| SlotLog.NoRoomLive | firmware/blockStorage.cpp:53-69 | pigeonhole: on a full device every sector holds a record of its own |
| SlotLog.RoomBelowCapacity | firmware/blockStorage.cpp:53-69 | with fewer records than sectors a save always finds a page |
| StoreRuns.SaveKeepsPages | firmware/blockStorage.cpp:24-32 | during a save of one id the page of every other id stays where and as it is, so a pointer from GetBlock stays good |
| StoreRuns.SaveTraceEnds | firmware/blockStorage.cpp:53-126 | the sequence of physical operations of a save ends in the saved state |
| StoreRuns.PowerCut | firmware/blockStorage.cpp:53-126 | after any prefix of a save's physical operations the map is the old one, the old one without the id, or the new one, and no id is on two pages |
| StoreRuns.OverwriteGap | firmware/blockStorage.cpp:73-114 | every overwrite does pass through a state in which the record is missing |
| StoreRuns.StepContents | firmware/blockStorage.cpp:53-140 | each operation, cut short or not, changes at most the key it names |
| StoreRuns.RunKeepsPage | firmware/blockStorage.cpp:24-32 | a pointer from GetBlock keeps its bytes over every run, power cuts and reclaims included, that does not name its own id |
| StoreRuns.RunDistinct | firmware/blockStorage.cpp:53-140 | no id is on two pages after any run from a formatted device, power cuts included |
| StoreRuns.RunAgrees | firmware/blockStorage.cpp:53-140 | below capacity, after every run with power cuts, the device holds what the map holds, except ids whose own last save was cut |
| StoreRuns.RunIsMap | firmware/blockStorage.cpp:53-140 | with no power cut the device is the map |
| StoreRuns.RunWear | firmware/blockStorage.cpp:53-140 | conservation over every run: records programmed = used pages + 16 x sectors erased, so at most one erase per 16 saves |
| StoreRuns.CapacityIsTight | firmware/blockStorage.cpp:53-69 | the bound is exact: on a device of any size some run stores one record per sector and after it every save is refused |
| BlockStorage.BlockStorage.FindBlock | firmware/blockStorage.cpp:34-50 | the loop over page headers finds the first page with the header |
| BlockStorage.BlockStorage.GetBlock | firmware/blockStorage.cpp:24-32 | the record's bytes, zero-padded, if and only if the id is stored |
| BlockStorage.BlockStorage.FlashRangeProgram | firmware/blockStorage.cpp:114 | ANDing 256 cells in place changes one page to the intended record and no other page |
| BlockStorage.BlockStorage.DeletePage | firmware/blockStorage.cpp:202-211 | the page becomes deleted |
| BlockStorage.BlockStorage.ClearBlock | firmware/blockStorage.cpp:128-140 | exactly the one key is removed from the stored map |
| BlockStorage.BlockStorage.FlashSectorErase | firmware/blockStorage.cpp:255-258 | the sector's pages become free, all others stay |
| BlockStorage.BlockStorage.FormatSectors | firmware/blockStorage.cpp:246-259 | a run of dead sectors is erased one after the other |
| BlockStorage.BlockStorage.FormatEmptySectors | firmware/blockStorage.cpp:213-243 | merging runs of dead sectors, the trailing one included, amounts to erasing each dead sector once in order, and the stored map is unchanged |
| BlockStorage.BlockStorage.FindFreeBlock | firmware/blockStorage.cpp:55-69 | reclaims only when no page is free, and finds a page if there is one then |
| BlockStorage.BlockStorage.ReplaceBlock | firmware/blockStorage.cpp:73-114 | zeroes the old copy, then programs the new one |
| BlockStorage.BlockStorage.SaveBlock | firmware/blockStorage.cpp:53-126 | the stored map gets the new value when there is room, for certain when there are fewer records than sectors, and is otherwise unchanged; the physical operations are those whose prefixes are analysed |
| BlockStorage.BlockStorage.BuildPage | firmware/blockStorage.cpp:96-111 | the page image is the id, the data, and zeros |
| BlockStorage.BlockStorage.Format | firmware/blockStorage.cpp:142-154 | every page is free and the map is empty |
| Frames.UnchainChain | firmware/commandQueue.cpp:224-226 | decrypting undoes encrypting, for chains of any length |
| Frames.ChainUnchain | firmware/commandQueue.cpp:260-262 | encrypting undoes decrypting, for chains of any length |
| Frames.Telescope | firmware/commandQueue.cpp:260-262 | the XOR of the decrypted bytes of a chain of any length is its last byte on air |
| Frames.ChecksumOfXor | firmware/commandQueue.cpp:219-221 | the nibble checksum is a function of the XOR of all bytes |
| Frames.ChecksumUpdate | firmware/commandQueue.cpp:264-270 | how the checksum changes with one byte |
| Frames.AcceptedLanguage | firmware/commandQueue.cpp:260-280 | the checksum test passes iff the nibbles of the last on-air byte are equal; a frame is accepted iff in addition its button is My, Up or Down |
| Frames.DecodeEncode | firmware/commandQueue.cpp:207-226 | decoding an encoded frame gives back button, rolling code and 24-bit id, for any key byte |
| Frames.EncodeDecode | firmware/commandQueue.cpp:260-283 | every accepted frame is the encoding, under its own key byte, of what it decodes to |
| Frames.CodecBijection | firmware/commandQueue.cpp:207-283 | a frame encodes a command iff it decodes to it and its key byte is 0x50 |
| CommandQueue.ComputeChecksum | firmware/commandQueue.cpp:219-221 | the loop computes the checksum of the first seven bytes |
| CommandQueue.Encrypt | firmware/commandQueue.cpp:224-226 | the forward in-place loop is the XOR chain |
| CommandQueue.Decrypt | firmware/commandQueue.cpp:260-262 | the backward in-place loop is its inverse |
| CommandQueue.RadioCommandQueue.BuildPayload | firmware/commandQueue.cpp:207-226 | the seven bytes are the encoding of the command, and the rest of the sixteen are zeros |
| CommandQueue.RadioCommandQueue.ExecuteCommand | firmware/commandQueue.cpp:193-251 | what it adds on air is one wake-up burst, then 1 + repeat packets each with a frame under the key 0x50 that receivers take for exactly this command, if its button is My, Up or Down |
| CommandQueue.TransmissionSends | firmware/commandQueue.cpp:193-251 | a transmission in those terms, for any repeat count |
| CommandQueue.RadioCommandQueue.ReceiveCommand | firmware/commandQueue.cpp:253-321 | decoding in place and storing is one reception step of the ring |
| CommandQueue.RadioCommandQueue.Store | firmware/commandQueue.cpp:286-320 | the locked section counts a repeat, appends, or discards when seven entries wait |
| CommandQueue.RadioCommandQueue.ReadCommand | firmware/commandQueue.cpp:65-89 | hands on the oldest entry exactly when it has been quiet for 250 ms |
| ReceiveRing.StepConsistent | firmware/commandQueue.cpp:65-89 | every step keeps capacity, distinct neighbours, the quiet time, and the frame count |
| ReceiveRing.RunConsistent | firmware/commandQueue.cpp:286-320 | so does every run of receptions and reads |
| ReceiveRing.StepHistory | firmware/commandQueue.cpp:65-89 | a read moves an entry from queued to delivered and changes nothing else |
| ReceiveRing.InsertIs | firmware/commandQueue.cpp:286-320 | a frame is counted on the newest entry if that has its command, else stored whenever fewer than seven entries wait, else lost |
| ReceiveRing.ReadIs | firmware/commandQueue.cpp:65-89 | a read hands on the oldest entry iff it was last heard 250 ms ago or more, and otherwise changes nothing |
| ReceiveRing.FramesAddUp | firmware/commandQueue.cpp:286-320 | accepted frames = sum of (repeat + 1) over delivered and queued entries + discarded frames |
| ReceiveRing.BurstCoalesces | firmware/commandQueue.cpp:291-301 | repeats at gaps under the quiet time end up counted on one entry, not handed on before the burst is over |
| ReceiveRing.HistorySettles | firmware/commandQueue.cpp:286-320 | an entry keeps its place and count once another is stored behind it or it is handed on, and as long as its command is not heard again |
| ReceiveRing.ReadsDeliver | firmware/commandQueue.cpp:65-89 | reads that come when an entry and all before it are quiet do hand it on, one read for each entry ahead |
| ReceiveRing.BurstDelivery | firmware/commandQueue.cpp:65-89 | a burst whose first frame was stored becomes one entry counting it all; it is handed on no sooner than 250 ms after its last frame, and is handed on by the reads after that within its place in the queue |
| RadioWorker.NextInv | firmware/commandQueue.cpp:160-190 | every atomic step of either core keeps the accepted commands in order and the Stop marker in place |
| RadioWorker.RunInv | firmware/commandQueue.cpp:52-190 | so does every interleaving |
| RadioWorker.AcceptedIff | firmware/commandQueue.cpp:52-63 | a command is accepted iff fewer than sixteen entries wait, and then goes last |
| RadioWorker.FramesOnAir | firmware/commandQueue.cpp:228-251 | the transmissions of some commands hold one burst for each and, for every command receivers know, 1 + repeat frames for each that is taken for it |
| RadioWorker.ShutdownDrains | firmware/commandQueue.cpp:91-104 | when Shutdown has returned, every command accepted before the Stop marker has been transmitted in full, in order, and nothing else has |
| RadioWorker.AirInOrder | firmware/commandQueue.cpp:160-190 | at every moment the air holds a prefix of the transmissions of the accepted commands, in order |
| RadioWorker.ShutdownFrames | firmware/commandQueue.cpp:91-104 | when Shutdown has returned, the air holds a burst for each command accepted before the marker and exactly the frames they call for, repeats included |
| RadioWorker.FramesSoFar | firmware/commandQueue.cpp:160-190 | at every moment no more bursts or frames are on air than the accepted commands call for, and all of them once nothing is queued or being sent |
| RadioWorker.ShutdownReturnsIff | firmware/commandQueue.cpp:99-103 | once the worker has stopped, Shutdown can still return iff nothing is queued behind the marker |
| RadioWorker.LateReceiveHangs | firmware/commandQueue.cpp:91-114 | a reception queued behind the marker does keep it waiting |
| Leases.StampIsEnd | firmware/dhcpserver/dhcpserver.c:272 | the truncated expiry, widened again, is the lease's last millisecond modulo 2^32 |
| Leases.ExpiredExactly | firmware/dhcpserver/dhcpserver.c:230-231 | for every grant and test time: the test passes up to the end of the lease, fails for the next 2^31 ms and alternates after that; the end is 24 h to 24 h + 65.5 s after the grant |
| Leases.ScanMeets | firmware/dhcpserver/dhcpserver.c:216-242 | the scan clears expired leases only, prefers the client's own lease, and finds none iff none is available |
| Leases.ScanFirst | firmware/dhcpserver/dhcpserver.c:216-242 | a client without a lease is offered the first available one |
| Leases.GrantedIff | firmware/dhcpserver/dhcpserver.c:247-279 | byte by byte: granted iff an address was asked for whose first three bytes are the server's and whose last is 16 to 23, with that lease the client's or nobody's; the address granted is the one asked for, one lease is written anew, and otherwise the table stays |
| Leases.AckedIsRequested | firmware/dhcpserver/dhcpserver.c:247-279 | every acknowledgement of a run gives a client the address it asked for |
| Leases.OfferIsGranted | firmware/dhcpserver/dhcpserver.c:216-279 | a client asking for what it was offered gets it; it is ignored iff every address is held by another |
| Leases.HeldIsExclusive | firmware/dhcpserver/dhcpserver.c:247-279 | while a lease runs, only its holder is acknowledged for its address |
| Leases.LeaseExclusive | firmware/dhcpserver/dhcpserver.c:216-279 | over every run and unbounded time: an address acknowledged to a non-zero MAC goes to no other for the full lease time |
| Leases.AddressExclusive | firmware/dhcpserver/dhcpserver.c:216-279 | in addresses: none is given to two clients within 24 hours, and each is the one asked for |
| DhcpServer.DhcpServer.ProcessDiscover | firmware/dhcpserver/dhcpserver.c:216-245 | the loop, with its in-place clearing and early exit, is the scan |
| DhcpServer.DhcpServer.ProcessRequest | firmware/dhcpserver/dhcpserver.c:247-279 | grants exactly the address requested, iff it is in the server's network and range and free or the client's, and stamps the expiry; otherwise the table stays |
| Motion.StopIsQuiet | firmware/blind.cpp:201-205 | the My press of an arriving blind, told back to it, changes nothing the tick does not |
| Motion.AlwaysSane | firmware/blind.cpp:73-216 | position, target and favourite stay within 0..100 |
| Motion.PressObeys | firmware/blind.cpp:110-147 | what each button does, short or long, moving or stopped: target, direction, favourite, whether it counts |
| Motion.UpTravels | firmware/blind.cpp:112-116 | after Up, ticks of any spacing find the blind on the straight line to 100, and nothing is pressed |
| Motion.DownTravels | firmware/blind.cpp:117-121 | after Down likewise to 0 |
| Motion.FavouriteLawIff | firmware/blind.cpp:135-141 | after a short My press of a stopped blind the law of travel to the favourite, with the My press on arrival, holds for all ticks iff the blind is not thought to be there already, between the ends |
| Motion.MyStops | firmware/blind.cpp:122-128 | after My on a moving blind no tick moves it or presses anything, and its target is the nearest whole position, halves upward |
| Motion.GoToTarget | firmware/blind.cpp:73-85 | the target of a request is the position asked for, or the nearer end |
| Motion.MoveFollowsLine | firmware/blind.cpp:73-216 | a move with ticks of any spacing is on the straight line given by the elapsed time alone, stops at the first tick that finds it at the target, and presses My once iff it moved and 0 < target < 100; the one case left out is a moving blind sent to an inner position it is just passing |
| Motion.MoveLawIff | firmware/blind.cpp:73-216 | that law holds for all sequences of ticks iff the blind is not moving through the requested inner position at that very moment |
| Motion.PassingTarget | firmware/blind.cpp:73-85 | the case it leaves out: no press until the next tick stops the blind, and the law fails |
| Motion.ExpectedIsMonotone | firmware/blind.cpp:186-206 | that line never turns back or overshoots, and is at the target iff enough time has passed |
| Motion.ArrivalTime | firmware/blind.cpp:184-201 | in microseconds: a blind is at its target iff the time since it was sent is at least the part to travel, out of 100, of its opening or closing time in seconds |
| Records.TextRoundTrip | firmware/remote.cpp:57 | a C string copied into its field is read back |
| Records.RemoteRoundTrip | firmware/remote.cpp:56-68 | a remote's structure decodes to what was put in, whatever bytes were in memory or follow in the block |
| Records.RemoteLayout | firmware/remote.cpp:56-68 | the offset of every field of a remote's structure, low bytes first |
| Records.RemoteEqualIsEquality | firmware/deviceConfig.cpp:205-212 | operator== is equality of the decoded records |
| Records.BlindRoundTrip | firmware/blind.cpp:164-175 | likewise for a blind, negative numbers included |
| Records.BlindLayout | firmware/blind.cpp:164-175 | likewise for a blind |
| Records.BlindEqualIsEquality | firmware/deviceConfig.cpp:214-222 | operator== is equality of the decoded records |
| Records.Ids16RoundTrip | firmware/deviceConfig.cpp:145-191 | a list of up to 124 short ids is read back |
| Records.Ids32RoundTrip | firmware/deviceConfig.cpp:163-203 | a list of up to 62 long ids is read back |
| DiskView.RemoveRemote | firmware/deviceConfig.cpp:110-113 | removing one remote's key removes that remote from the decoded flash and changes nothing else |
| DiskView.PutRemote | firmware/deviceConfig.cpp:98-108 | the keys of remotes, blinds and lists never meet: writing one record changes one entry of the decoded flash |
| DiskView.PutBlind | firmware/deviceConfig.cpp:74-84 | likewise for a blind's record |
| DiskView.PutList16 | firmware/deviceConfig.cpp:49-62 | likewise for the lists of short ids |
| DiskView.PutList32 | firmware/deviceConfig.cpp:64-67 | likewise for the list of long ids |
| DiskView.RecordsCount | firmware/deviceConfig.cpp:14-20 | the store never holds more than five records besides those of the remotes and blinds that the decoded flash shows |
| DeviceConfig.DeviceConfig.Write | firmware/deviceConfig.cpp:83-107 | the record is stored iff the store has room, for certain while there are fewer records than sectors; otherwise it is lost and nothing changes |
| DeviceConfig.DeviceConfig.Put | firmware/deviceConfig.cpp:83-107 | the decoded flash changes by that write, unless the store was full; every flash on the way reads as before, as after, or with the record missing |
| DeviceConfig.DeviceConfig.SaveRemoteConfig | firmware/deviceConfig.cpp:98-108 | the decoded flash has the new record, unless the store was full, when nothing changes; if the record already said the same, no cell of the flash changes |
| DeviceConfig.DeviceConfig.SaveBlindConfig | firmware/deviceConfig.cpp:74-84 | likewise for a blind |
| DeviceConfig.DeviceConfig.SaveIdList | firmware/deviceConfig.cpp:145-161 | the stored list is the given one, unless the store was full; nothing else changes |
| DeviceConfig.DeviceConfig.SaveIdList32 | firmware/deviceConfig.cpp:163-179 | the stored list is the given one, unless the store was full; nothing else changes |
| DeviceConfig.DeviceConfig.HardReset | firmware/deviceConfig.cpp:125-143 | no remotes, no blinds, no lists, and all sectors but five for remotes and blinds |
| DeviceConfig.DeviceConfig.GetRemoteConfig | firmware/deviceConfig.cpp:91-96 | the record under the low half of the id; none for the ids 0 and 0xFFFFFFFF |
| DeviceConfig.DeviceConfig.DeleteRemoteConfig | firmware/deviceConfig.cpp:110-113 | exactly that record is gone |
| DeviceConfig.DeviceConfig.GetBlindConfig | firmware/deviceConfig.cpp:69-72 | the record under the id, if there is one |
| DeviceConfig.DeviceConfig.DeleteBlindConfig | firmware/deviceConfig.cpp:86-89 | exactly that record is gone |
| DeviceConfig.DeviceConfig.GetIdList | firmware/deviceConfig.cpp:181-191 | the stored list, or none |
| DeviceConfig.DeviceConfig.GetIdList32 | firmware/deviceConfig.cpp:193-203 | the stored list, or none |
| HouseInvariant.InMemoryInv | firmware/remote.cpp:72-114 | a change in memory that marks what it changes as dirty keeps flash and memory coherent |
| HouseInvariant.CreateRemoteInv | firmware/remotes.cpp:91-101 | creating a remote keeps coherence, the lists, and the primary relation |
| HouseInvariant.AddRemoteInv | firmware/remotes.cpp:211-244 | so does importing one |
| HouseInvariant.DeleteRemoteInv | firmware/remotes.cpp:103-108 | so does deleting one that is no blind's primary remote |
| HouseInvariant.AddBlindInv | firmware/blinds.cpp:126-138 | so does adding a blind |
| HouseInvariant.DeleteBlindInv | firmware/blinds.cpp:191-203 | so does deleting one: its primary remote is no other blind's |
| HouseInvariant.SaveRemotesInv | firmware/remotes.cpp:125-131 | so does saving the remotes, skipping clean ones |
| HouseInvariant.SaveBlindsInv | firmware/blinds.cpp:84-90 | so does saving the blinds |
| HouseInvariant.SavedListsOk | firmware/remotes.cpp:150-173 | the saved lists name exactly the internal and the external remotes |
| HouseInvariant.SavedBlindList | firmware/blinds.cpp:92-102 | the saved list names exactly the blinds, each once |
| HouseInvariant.NextIsValid | firmware/remotes.cpp:94 | from the invariant alone: the next blind id is new, the next remote id is no internal remote's, and it is new with its low half if no imported remote has that |
| HouseRestart.ReloadRemotes | firmware/remotes.cpp:26-67 | from a coherent flash exactly the registered remotes come back, each as its record says |
| HouseRestart.ReloadedBlindsOk | firmware/blinds.cpp:28-60 | and exactly the registered blinds, with their primary remotes |
| HouseRestart.ReloadInv | firmware/blinds.cpp:24-60 | a reload at any moment between operations keeps the invariant |
| HouseRestart.ShutdownEffect | firmware/picoSomfy.cpp:363-365 | after a shutdown no remote is dirty and every blind's record is current |
| HouseRestart.CleanRestart | firmware/picoSomfy.cpp:359-365 | durability: a clean shutdown and restart rebuild the same remotes and blinds: ids, origin, names, rolling codes, bindings, times, targets, favourites |
| HouseRuns.StepInv | firmware/remotes.cpp:91-315 | every request, radio event, timer and restart between operations keeps the invariant |
| HouseRuns.RunInv | firmware/remotes.cpp:91-315 | after every run of whole operations, with restarts and losses of power between them, a remote that is not dirty has its exact content on flash, the lists equal the key sets, and each blind has a primary remote of its own; for power lost inside operations see CutRuns.RunWeakInv |
| HouseRuns.NewHouseInv | firmware/deviceConfig.cpp:125-143 | a device just reset satisfies the invariant and reloads to itself |
| RollingCodes.StepContinues | firmware/remote.cpp:72-83 | every step issues the next codes in order |
| RollingCodes.RunContinues | firmware/remote.cpp:72-83 | so does every run, across any number of clean restarts |
| RollingCodes.CodesFromCreation | firmware/remote.cpp:72-83 | from the event that enters it on, a request for a remote, for a blind, or an import, a remote issues 1, 2, 3, ... modulo 65536, none twice within 65536 presses, provided no code was issued under its id before |
| HouseLimits.BindingsSurviveIff | firmware/remote.cpp:60-63 | a clean restart brings a remote back unchanged iff it lists at most 32 blinds, and of a longer list keeps the first 32 |
| HouseLimits.PressableAfterDeleteIff | firmware/blinds.cpp:191-203 | after deleting a blind every remote can be pressed iff no other remote listed it |
| HouseLimits.ReloadRepairs | firmware/blinds.cpp:33-60 | from any flash on which listed blinds have records, the reload leaves exactly the blinds whose remote exists, and repairs the list |
| LinkedBlinds.LinkedBlindFollowsEstimate | firmware/blind.cpp:73-216 | for a blind bound to its own remote, moving and ticking through the registry are the estimator's move and tick |
| LinkedBlinds.AddBlindLinks | firmware/blinds.cpp:126-138 | a blind is added bound to its own remote |
| LinkedBlinds.StepLinkedIff | firmware/remote.cpp:97-114 | every event keeps it bound iff it does not unbind it, does not delete another blind on that remote's list, and does not start from a list without it (lost before it was saved, or past the 32 a record holds) or with blinds that are gone |
| LinkedBlinds.NewLinkIsLost | firmware/blinds.cpp:134 | power lost after adding a blind and before its remote is saved: the blind comes back not bound to its remote, which is not marked for saving |
| BlindMoves.StepMoves | firmware/blind.cpp:179-216 | each event that has nothing else to do with a bound blind leaves its estimate and its remote's presses alone, except its own tick, which is the estimator's with the My press that goes with it |
| BlindMoves.RunMoves | firmware/blind.cpp:179-216 | so over every run of such events the estimate goes through exactly its own ticks |
| BlindMoves.MoveInRun | firmware/blind.cpp:73-216 | the move law in the registry: sent to a position, and then ticked in order among any events that do not reach it, a bound blind is on the straight line, stops at the target, and its remote issues the press that sends it off, one My press on arrival between the ends, and nothing else |
| Responses.HeardDoes | firmware/remote.cpp:85-95 | a frame heard of a known remote: each listed blind does once what the button says, long iff the count is above 7; the code is the one heard plus one; all else stays |
| Responses.PressDoes | firmware/remote.cpp:72-83 | a press made here: one command under the code held, which advances; each listed blind does once what the button says, long iff the repeat count is above 3; all else stays |
| Responses.UnknownRemote | firmware/remotes.cpp:133-148 | an unknown remote is neither heard nor pressed |
| Responses.CommandDoes | firmware/blind.cpp:87-155 | for every command the press it makes on the blind's own remote: open Up, close Down, stop My iff moving, favourite My iff stopped, save a long My iff stopped; else nothing happens |
| Responses.CommandMoves | firmware/blind.cpp:87-155 | and what a bound blind then does: target, direction and favourite for each command |
| Responses.PositionIssues | firmware/blind.cpp:73-85 | a request for a position issues one short press under the code held: Down for below and always for 0, Up for above and always for 100, else none |
| Responses.TickIssues | firmware/blind.cpp:201-207 | a tick issues one short My press of a moving blind found at a target between the ends, and nothing else |
| Responses.CommandInRun | firmware/blind.cpp:87-147 | opened, closed or sent to its favourite, and then ticked among any events that do not reach it, a bound blind travels by the law, and its remote issues that press, one My press on arrival between the ends, and nothing else |
| Responses.HeardInRun | firmware/remote.cpp:85-95 | the same for a button of another remote the blind is bound to, its own remote issuing at most the My press on arrival |
| Responses.BindDoes | firmware/remote.cpp:97-114 | binding puts the blind on the list, at the end and once; unbinding takes it off and leaves the others |
| Responses.BindNothing | firmware/remotes.cpp:277-299 | without the remote or the blind neither does anything |
| Responses.BoundObeys | firmware/remote.cpp:72-104 | a blind just bound to any remote follows its next press |
| Responses.AddDoes | firmware/remotes.cpp:195-209 | a remote is added with the name asked for, code 1 and no blinds under the next id, iff the name has 1 to 47 characters and no double quote or NUL |
| Responses.ImportDoes | firmware/remotes.cpp:211-244 | likewise under its own id, iff there is none of this id |
| Responses.RenameDoes | firmware/remotes.cpp:246-263 | a remote gets exactly the name asked for, iff it exists and the name is such |
| Responses.ChangeDoes | firmware/blinds.cpp:141-177 | a changed blind has the name and both times asked for and its remote the name; position, target, favourite, direction and everything else stay |
| Responses.ChangeNothing | firmware/blinds.cpp:141-177 | a blind that does not exist is not changed, nor anything else |
| Responses.ChangeSurvives | firmware/blind.cpp:157-177 | and they are those asked for after the timed saves and a loss of power, the blind resting at its target |
| Responses.NewBlindIs | firmware/blinds.cpp:126-138 | a new blind has the name and times asked for, rests at 90 with its favourite at 50, under a new remote of its name |
| Responses.NewBlindComesBack | firmware/blinds.cpp:126-138 | and so it comes back after any restart, clean or not |
| Responses.LoadedRests | firmware/blind.cpp:22-52 | a blind read from its record rests at the position that was its target; a favourite out of range is put at 50 |
| AddedRemotes.AddedComesBackIff | firmware/remotes.cpp:91-101 | after adding a remote under any id every remote comes back from a clean restart as it was iff the id can be read back and no remote with its low half stands in the way: none but one as good as new, or this very id still to be saved |
| AddedRemotes.ImportComesBackIff | firmware/remotes.cpp:211-244 | the same for an import: 0 < id < 0xFFFFFFFF and no remote with its low half, unless that is as good as new |
| AddedRemotes.CreateComesBackIff | firmware/remotes.cpp:91-101 | the same for a remote created here, which an imported one may collide with |
| AddedRemotes.CanCreateHarmless | firmware/remotes.cpp:91-101 | nothing stands in the way when no imported remote has the next low half |
| AddedRemotes.IdsRunOut | firmware/remotes.cpp:94 | after 65535 ids the next remote is saved, listed and lost at the restart |
| AddedRemotes.SharedLowHalf | firmware/deviceConfig.cpp:107 | an import that shares its low half takes over the other remote's record: after a loss of power that one is a copy of the import |
| AddedRemotes.UnreadableImport | firmware/deviceConfig.cpp:91-96 | a remote imported as 0 or 0xFFFFFFFF never comes back |
| FreshIds.RestartKeepsNextIff | firmware/remotes.cpp:31-36 | a restart, clean or not, goes on with the same next remote id iff the newest remote is still there, and with the same next blind id iff the newest blind is |
| FreshIds.StepKeepsAheadIff | firmware/remotes.cpp:91-101 | no remote has, and no code was issued under, an id still to come: every event keeps that iff it is neither an import of such an id nor a restart that gives back an id under which a code was issued |
| FreshIds.NewestKeepsAhead | firmware/remotes.cpp:31-36 | a restart with the newest remote still there gives none back |
| FreshIds.CodesFromReset | firmware/remote.cpp:72-83 | so in every other run from reset each remote created, on its own or with a blind, issues 1, 2, 3, ... modulo 65536 |
| FreshIds.ReusedIdRepeatsCodes | firmware/remotes.cpp:31-36 | the run that fails: create, press, delete, restart, create, press issues code 1 twice under one id |
| FreshIds.ImportedIdRepeatsCodes | firmware/remotes.cpp:211-244 | and without a restart: import the id to come, press, delete, create, press |
| LostCodes.RunKeepsRecord | firmware/remote.cpp:51-70 | a remote's record stays as it is over every run that neither saves the remotes nor restarts |
| LostCodes.CleanRemoteContinues | firmware/remotes.cpp:26-67 | losing power, a remote that is not dirty goes on with its codes |
| LostCodes.LossAfterPresses | firmware/remote.cpp:72-83 | n presses after it was last saved, a loss of power sets a remote back to what was saved; its codes go on in order iff n is a multiple of 65536 |
| LostCodes.LossRepeatsCodes | firmware/remote.cpp:72-83 | what it issues afterwards starts with exactly the codes issued since it was saved |
| LostCodes.SavedRemotesAreClean | firmware/remotes.cpp:125-131 | after the timed save every remote is clean, so only codes issued since then can come again |
| BlindRecords.GoToCoherentIff | firmware/blind.cpp:73-85 | sending a blind to a position keeps it coherent (unless dirty its record is exact) iff it is dirty anyway, or the target is not new, or the move makes a press that the blind hears of |
| BlindRecords.StepCoherent | firmware/blind.cpp:73-147 | every other event keeps every blind coherent, restarts included |
| BlindRecords.RunCoherent | firmware/blind.cpp:73-147 | so does every run without an unmarked target |
| BlindRecords.SavedThenLostIff | firmware/blinds.cpp:84-90 | after the timed save and a loss of power a blind comes back as from a clean restart iff it was coherent |
| BlindRecords.UnmarkedTargetIsLost | firmware/blind.cpp:84 | an unmarked target is forgotten by that: the blind comes back with the one before |
| DiskWrites.CutHolds | firmware/blockStorage.cpp:73-114 | wherever one write is cut the registry's flash reads as before, as after, or with that record missing |
| DiskWrites.SequenceCut | firmware/blockStorage.cpp:73-114 | wherever several writes are cut, with a sector to spare beyond the records stored and those that are new, it reads as after some of them, or with the next record missing |
| DiskWrites.SequenceGap | firmware/blockStorage.cpp:73-114 | each record overwritten is missing for a while |
| DiskWrites.MadeMore | firmware/blockStorage.cpp:53-140 | a history that shows cuts of some writes and then cuts of others shows cuts of all of them, and ends where they end |
| PowerCuts.AddingCutIff | firmware/blinds.cpp:127-136 | wherever the five writes of adding a blind are cut the device can start, and everything that was registered comes back as recorded iff it is not inside the replacing of a list that names something |
| PowerCuts.AddedIff | firmware/blinds.cpp:127-136 | the new remote is there from the second write on, the new blind after the last |
| PowerCuts.DeletingCutIff | firmware/blinds.cpp:191-203 | wherever the five writes of a deletion are cut the device can start, except between the removal of the blind's record and the replacing of the list, and loses nothing else iff it is not inside the replacing of a list that names something else |
| PowerCuts.DeletedIff | firmware/blinds.cpp:191-203 | the blind and its remote are gone from the first write on |
| PowerCuts.AnyMomentOfAdding | firmware/blockStorage.cpp:53-126 | at every moment between two programs or erases the flash reads as after k of the five writes, or with the next record missing, and with that k and gap all of the above holds |
| PowerCuts.AnyMomentOfDeleting | firmware/blockStorage.cpp:53-140 | likewise while a blind is deleted |
| PowerCuts.MissingListLoses | firmware/remotes.cpp:26-67 | what goes with a missing list: with that of the internal remotes all of them and every blind, with the other two all that they name |
| PowerCuts.RemoteGap | firmware/remote.cpp:51-70 | power lost while a remote is saved again costs that remote and its blind, and nothing else |
| PowerCuts.BlindGap | firmware/blinds.cpp:37-38 | power lost while a blind is saved again leaves a listed blind without a record, which the next start reads without looking |
| FlashStates.MissingKeeps | firmware/blockStorage.cpp:73-114 | whichever record or list is missing, the listed records that are there are still their remotes' and blinds' own |
| FlashStates.ReloadWeakInv | firmware/remotes.cpp:26-67 | from such a flash, if each listed blind has a record, the device comes up in the weaker invariant: lists may also name remotes that have no record |
| FlashStates.ReloadInvIff | firmware/remotes.cpp:26-67 | and in the full invariant iff every listed remote has a record |
| WeakRuns.StepWeakInv | firmware/remotes.cpp:91-315 | every whole operation and every restart keeps the weaker invariant |
| WeakRuns.SavingListsRestores | firmware/remotes.cpp:150-173 | every operation that saves the lists brings the full invariant back |
| StartCuts.StartCutOk | firmware/blinds.cpp:33-60 | wherever a start is cut while it clears orphans away, the flash is as good as before |
| StartCuts.StartCutBootsIff | firmware/blinds.cpp:33-60 | and the device can start from it iff no record was removed yet, or the list is missing or saved again |
| CutRuns.WritesDone | firmware/remotes.cpp:91-173 | the writes of each operation, in order: after any number of them the flash is as it should be, after all of them it is what the operation leaves |
| CutRuns.AnyMomentIsCut | firmware/blockStorage.cpp:53-140 | whatever program or erase is the last one, the flash reads as a cut of the operation at a write, or in the gap of one |
| CutRuns.RunWeakInv | firmware/picoSomfy.cpp:283-365 | over every run in which power may be lost between any two programs or erases, of an operation or of a start, the weaker invariant holds |
| CutRuns.CutInvIff | firmware/blockStorage.cpp:73-114 | after a cut the full invariant holds iff every listed remote still has its record |
| CutRuns.InvFreesIds | firmware/remotes.cpp:91-101 | a new id is free on the stored lists whenever the full invariant holds |
| CutRuns.FirstWriteIff | firmware/remotes.cpp:91-101 | the record of a new remote leaves each listed remote its own record iff no other listed id has the same low half |
| CutEffects.AddingKeepsInv | firmware/blinds.cpp:127-136 | power lost anywhere while a blind is added: the full invariant holds |
| CutEffects.DeletingInvIff | firmware/blinds.cpp:191-203 | power lost while a blind is deleted: if the device comes up, the full invariant holds iff it was not right after the first write |
| CutEffects.RemoteGapBreaksInv | firmware/remote.cpp:51-70 | power lost in the gap of a registered remote's record: the full invariant never holds, the weaker one does |
| CutEffects.TidyReloadIff | firmware/remotes.cpp:26-67 | a start leaves no record of anything not registered iff every record was listed before it |
| CutEffects.AddingTidyIff | firmware/blinds.cpp:127-136 | a cut addition leaves such a record iff it was before a list names what has been written, or a list of others is missing |
| CutEffects.DeletingTidyIff | firmware/blinds.cpp:191-203 | a cut deletion leaves one iff a list that names something else is missing |
| CutEffects.FittingIsSpare | firmware/blockStorage.cpp:53-69 | if what is registered fits the flash before and after, there is a sector to spare all through an addition or a deletion |
| OpWrites.StartIsSame | firmware/blinds.cpp:24-60 | what a start writes depends on nothing but the flash it starts from |
| Moments.EventDone | firmware/remotes.cpp:91-173 | with the full invariant a start writes nothing, and the writes of an event end in what the next one finds |
| Moments.MomentOfRun | firmware/picoSomfy.cpp:283-365 | each flash at a cut of what a run writes is at a cut of one of its events, and is as it should be |
| Moments.PowerLostInRun | firmware/picoSomfy.cpp:283-365 | wherever in the history of a run on the objects power is lost, what comes up is a run of CutRuns: the whole events before, then a cut of the one under way |
| AirCodes.HeardSoFar | firmware/commandQueue.cpp:160-190 | at every moment the codes a receiver hears are a first part of those of the accepted commands, one for each |
| AirCodes.HappenInStep | firmware/commandQueue.cpp:52-63 | in every interleaving of house and radio core the commands accepted are those the house was told were, a press being accepted iff fewer than 16 entries wait |
| AirCodes.AirFollowsCodes | firmware/commandQueue.cpp:52-190 | from reset on, in every interleaving and across every restart, the codes heard under a remote's 24-bit id are a subsequence of the codes it issued |
| AirCodes.HappenIsRun | firmware/picoSomfy.cpp:307-365 | seen from the house, that is one of its runs |
| AirCodes.CodesOnAir | firmware/remote.cpp:72-83 | what is heard of a remote created here, on its own or with a blind, is, over clean restarts, a subsequence of 1, 2, 3, ... modulo 65536, although the full queue drops some |
| AirCodes.EveryAcceptedIsHeard | firmware/commandQueue.cpp:91-104 | when every restart lets the queue drain, each accepted command is heard exactly once, if its button is one receivers take |
| Listening.HappenIsRun | firmware/picoSomfy.cpp:328-334 | receive queue and registry as one machine: seen from the house it is one of its runs |
| Listening.HearsDeliveries | firmware/picoSomfy.cpp:328-334 | the registry hears exactly the commands the queue hands on, each once, in order, with its repeat count |
| Listening.BurstIsOnePress | firmware/remote.cpp:85-95 | a burst of frames is heard as one press, no sooner than 250 ms after its last frame, with the count of all of them; the remote it names, if known, then holds the code after the one heard |
| Listening.BurstMovesBlinds | firmware/remote.cpp:85-95 | and the blinds on that remote's list do once what the decoded button says, long iff the burst has more than seven repeats; nothing is issued or written |
| Listening.CodesAfterHearing | firmware/remote.cpp:85-95 | from then on the codes issued here for that remote go on after the one heard |
| OverTheAir.FrameLayout | firmware/commandQueue.cpp:207-226 | the bytes of a frame before encryption, as numbers: key 0x50, button, rolling code and 24-bit id, high bytes first |
| OverTheAir.TransmissionIsOneEntry | firmware/commandQueue.cpp:286-320 | a transmission heard frame by frame within the quiet time, by a queue with room, becomes one entry that counts its repeats |
| OverTheAir.IssuedIsHeard | firmware/commandQueue.cpp:193-283 | a command issued by one device is heard by another with the same button, code and repeat count under the low 24 bits of the id |
| OverTheAir.PressHeardElsewhere | firmware/remote.cpp:72-95 | from house to house: a press in one, transmitted, received, queued and handed on in another, makes the blinds bound there do what the button says, once, and its remote hold the next code |
| HouseSpace.StepTidy | firmware/remotes.cpp:91-108 | every record on flash is that of a registered remote or blind, through every whole operation and every restart between two of them; for power lost inside one see CutEffects.AddingTidyIff |
| HouseSpace.TidyCount | firmware/blinds.cpp:191-203 | so there are no more records than remotes and blinds |
| HouseSpace.StepHasRoom | firmware/remotes.cpp:91-101 | if what is registered fits the flash before and after an operation, every write in it finds room |
| Answers.StepAlike | firmware/commandQueue.cpp:52-63 | whatever the queue answers, every event does the same to the registry |
| Answers.RunAlike | firmware/commandQueue.cpp:52-63 | so does every run |
| Devices.Blind.ButtonsPressed | firmware/blind.cpp:110-147 | the new target, direction, favourite, tick and dirty flag for every button |
| Devices.Blind.Advance | firmware/blind.cpp:184-201 | the estimate after the elapsed time, clamped, and whether it has reached the target |
| Devices.Blind.UpdateConfig | firmware/blind.cpp:58-66 | name and times change, and the primary remote's name with them |
| Devices.Blind.SaveConfig | firmware/blind.cpp:157-177 | if dirty or forced the flash holds the blind's record, unless the store is full, when it is lost; the flag is cleared either way |
| Devices.SomfyRemote.SetName | firmware/remote.h:47-52 | the name changes and the remote is dirty |
| Devices.SomfyRemote.AssociateBlind | firmware/remote.cpp:97-104 | the blind is on the list once, at the end if it was not there |
| Devices.SomfyRemote.DisassociateBlind | firmware/remote.cpp:106-114 | the first occurrence is erased, the rest keeps its order |
| Devices.SomfyRemote.SaveConfig | firmware/remote.cpp:51-70 | if dirty or forced the flash holds the remote's record, unless the store is full, when it is lost; the flag is cleared either way |
| Devices.SomfyRemote.PressButtons | firmware/remote.cpp:72-83 | the command is queued under the old code, the code advances, each listed blind is told in order |
| Devices.SomfyRemote.ExternalButtonPress | firmware/remote.cpp:85-95 | the code follows the one heard, each listed blind is told in order |
| Devices.OutgoingQueue.QueueCommand | firmware/commandQueue.cpp:52-63 | the command is on record with the queue's answer |
| Tables.ListsBounded | firmware/remotes.cpp:150-173 | no part of an id list outgrows the number of remotes of its kind |
| Tables.CollectInternals | firmware/remotes.cpp:152-161 | the loop fills the array with the low halves of the internal ids, in order |
| Tables.CollectExternals | firmware/remotes.cpp:163-172 | the loop fills the array with the external ids, in order |
| Registry.SomfyRemotes.constructor | firmware/remotes.cpp:26-67 | the table is what the flash lists say, and the next id follows the largest listed |
| Registry.SomfyRemotes.LoadInternals | firmware/remotes.cpp:26-48 | the loop over the internal list, the next id included |
| Registry.SomfyRemotes.LoadExternals | firmware/remotes.cpp:50-67 | the loop over the external list |
| Registry.SomfyRemotes.SaveRemoteList | firmware/remotes.cpp:150-173 | both lists on flash are those of the table |
| Registry.SomfyRemotes.SaveRemoteState | firmware/remotes.cpp:125-131 | the loop saves every dirty remote, and takes no new space |
| Registry.SomfyRemotes.CreateRemote | firmware/remotes.cpp:91-101 | table, record, lists and next id are those of the registry's creation |
| Registry.SomfyRemotes.DoAddRemote | firmware/remotes.cpp:195-209 | a bad name is refused, otherwise a remote is created |
| Registry.SomfyRemotes.DoImportRemote | firmware/remotes.cpp:211-244 | a bad name or an id already there is refused, otherwise the remote is added as external |
| Registry.SomfyRemotes.DeleteRemote | firmware/remotes.cpp:103-108 | the remote, its record and its list entry are gone |
| Registry.SomfyRemotes.DoDeleteRemote | firmware/remotes.cpp:265-274 | refused iff it is a blind's primary remote |
| Registry.SomfyRemotes.DoUpdateRemote | firmware/remotes.cpp:246-263 | renamed iff it exists and the name is allowed |
| Registry.SomfyRemotes.DoBindBlind | firmware/remotes.cpp:277-299 | bound iff remote and blind exist |
| Registry.SomfyRemotes.DoUnbindBlind | firmware/remotes.cpp:277-299 | unbound iff remote and blind exist |
| Registry.SomfyRemotes.PressButtons | firmware/remote.cpp:72-83 | the whole registry changes as by one press |
| Registry.SomfyRemotes.DoButtonPress | firmware/remotes.cpp:301-318 | a press, short or long, of an existing remote |
| Registry.SomfyRemotes.ExternalButtonPress | firmware/remotes.cpp:133-148 | follows the code heard if the remote is known, and otherwise changes nothing |
| Registry.Blinds.SaveBlindList | firmware/blinds.cpp:92-102 | the list on flash is that of the table |
| Registry.Blinds.SaveBlindState | firmware/blinds.cpp:84-90 | the loop saves every dirty blind, or all, and takes no new space |
| Registry.Blinds.DoAddBlind | firmware/blinds.cpp:104-139 | primary remote, blind, record, binding, lists and next ids are those of the registry's addition; every flash on the way is at a cut of its five writes |
| Registry.Blinds.DoUpdateBlind | firmware/blinds.cpp:141-177 | changed iff it exists |
| Registry.Blinds.DoDeleteBlind | firmware/blinds.cpp:181-204 | the blind, its primary remote, both records and list entries are gone; every flash on the way is at a cut of the five writes |
| Registry.Blinds.Command | firmware/blinds.cpp:206-239 | each command presses its button on the primary remote, or none |
| Registry.Blinds.GoToPosition | firmware/blind.cpp:73-85 | Down, Up or no press, then the target |
| Registry.Blinds.UpdatePosition | firmware/blind.cpp:179-216 | one tick: the estimate advances; on arrival a My press where due, then the blind counts as stopped |
| Registry.Blinds.Initialize | firmware/blinds.cpp:24-60 | the loop reloads every listed blind whose remote is there, drops the records of the others, and repairs the list |
| Registry.Blinds.IsAPrimaryRemote | firmware/blinds.cpp:285-293 | found iff some blind has it as primary remote |
| Device.Boot | firmware/picoSomfy.cpp:283-285 | the objects built from any bootable flash are the reloaded registry, and all of them new; every flash on the way is at a cut of the writes of a start |
| Device.FirstBoot | firmware/picoSomfy.cpp:250-254 | after a reset the objects are an empty registry that satisfies the invariant and fits the flash |
| Device.Shutdown | firmware/picoSomfy.cpp:363-365 | the two save loops are the registry's shutdown |
| Device.Restart | firmware/picoSomfy.cpp:283-365 | a restart, clean or by loss of power between operations, is the registry's restart step, keeps the invariant, builds all objects anew, and passes only through cuts of what it writes |
| Device.Perform | firmware/picoSomfy.cpp:307-355 | refinement: whatever happens to the objects is exactly one step of the registry, and every flash on the way is at a cut of the writes of that step; it needs only that what is registered fits the flash before and after |
| DeviceRuns.RunEvents | firmware/picoSomfy.cpp:283-365 | every run of the registry, restarts included, can be performed on the objects and ends in what the registry says, as long as remotes and blinds are fewer than the sectors less five; the history of the flash shows cuts of what the run writes, and nothing else |
| DeviceRuns.Live | firmware/picoSomfy.cpp:250-365 | the same from the first start on: whatever is proved of runs from reset holds of the objects |
| Device.RoomForMore | firmware/remotes.cpp:150-173 | in every state that keeps the invariant the id lists fit their records |
| Device.Recorded | firmware/remote.cpp:51-70 | in every state that keeps the invariant everything registered has a record, so saving takes no new space |

## Left out

- Blocks of more than one page: the shipped block size of 252 bytes makes every block one page
  (firmware/picoSomfy.cpp:51), so the multi-page loop of a save runs once. Records are 1 to 252 bytes.
- A save of zero bytes, which would delete the old copy and write nothing; no caller makes one.
- The base address of the storage area: offsets are relative to it, and unbounded integers. Rounding
  of the storage size and `PrintStorageStats` are not modelled.
- Failures of `flash_safe_execute`, and pages or sectors half written: each program and each erase of a
  sector is atomic, and power is lost between them only. `Format` is modelled sector by sector.
- SPI, radio registers, LED levels and transmission timing. A transmission is appended to a trace: the
  wake-up burst, then frames of seven bytes (the nine zero bytes after them are not sent in the fixed
  packet format).
- RadioWorker: does not model that `Shutdown` returns in the end; the source does not guarantee it, as
  `RadioWorker.LateReceiveHangs` shows. Blocking calls are steps that wait until they are possible.
- Devices.OutgoingQueue.QueueCommand: does not tell when the queue is full, because that depends on how far
  the radio core has got; either answer is allowed. `AirCodes` puts the real queue in its place.
- The signed shift in the DHCP expiry test (firmware/dhcpserver/dhcpserver.c:230) is taken to give the
  expected 32-bit value. Parsing of options, other message types and the rest of the reply are left out.
- WiFi, MQTT, HTTP and its parameter parsing, discovery publishing, status pages and `BufferOutput`:
  requests arrive as already parsed values. The WiFi and MQTT records are stored at a reset only.
- The list of detected remotes (firmware/remotes.cpp:138-141), which only serves a status page.
- Registry.Blinds: does not keep pointers to the other objects; the table of remotes is passed to the
  methods that use it, and the objects a remote points to are passed to its methods.
- A remote deleted while a timer or a network callback still holds it: the source keeps the object alive
  until then.
- Rounding of `float` arithmetic in the position estimate, and the rounding of a requested position that
  arrives as text.
- StoreRuns.RunWear: counts from the last format, and erases made by reclaiming; the format's own erases
  are not counted.
- AirCodes.CodesOnAir: speaks of the codes as 16-bit words, and of receivers that see the low 24 bits of an id;
  no other remote may have the same ones.
- Registry.SomfyRemotes.SaveRemoteList: asks for lists that fit a record (124 and 62 ids) and for room in the
  store; beyond that the source writes past its buffers, or loses a list without notice.
- Registry.SomfyRemotes.SaveRemoteState: asks for room in the store; on a full one the source clears the flag
  of a remote whose record is lost (`Devices.SomfyRemote.SaveConfig` has that case for the single remote).
- Registry.SomfyRemotes.CreateRemote: asks for room in the store and in the lists, as above.
- Registry.SomfyRemotes.DoAddRemote: the same, for an allowed name.
- Registry.SomfyRemotes.DoImportRemote: the same, for an allowed name and a new id.
- Registry.SomfyRemotes.DeleteRemote: asks for room in the store, which the lists need to be saved again.
- Registry.SomfyRemotes.DoDeleteRemote: the same.
- Registry.Blinds.SaveBlindList: asks for at most 124 blinds and for room in the store, as the remotes' lists do.
- Registry.Blinds.SaveBlindState: asks for room in the store (`Devices.Blind.SaveConfig` has the full store).
- Registry.Blinds.DoAddBlind: asks for room in the store and in the lists, and for a name of at most 47
  characters; the source copies a longer one unchecked.
- Registry.Blinds.DoUpdateBlind: asks for a name of at most 47 characters, as above.
- Registry.Blinds.DoDeleteBlind: asks for room in the store.
- Registry.Blinds.Initialize: asks for room in the store, and for a list that names no blind twice, as every
  list the program saves does.
- Devices.Blind.UpdateConfig: asks for a name of at most 47 characters.
- DeviceConfig.DeviceConfig.SaveIdList: asks for at most 124 ids; the source writes a longer list past its buffer.
- DeviceConfig.DeviceConfig.SaveIdList32: asks for at most 62 ids, likewise.
- Device.Boot: asks for what `Registry.Blinds.Initialize` asks for, which every state that keeps the invariant has.
- Device.Shutdown: asks for room in the store, which every state that fits the flash has.
- Device.Restart: loses power between operations only; inside them it is `Moments.PowerLostInRun` and `CutRuns`.
- Device.Perform: asks that remotes and blinds are fewer than the sectors less five before and after the event;
  beyond that many saves still find a page, depending on which records are live in which sectors.
- DeviceRuns.RunEvents: asks the same of every state the run passes through.
- DeviceRuns.Live: likewise, and says nothing of the flash during the first format.
- Devices.Blind.SaveConfig: asks for positive times; the source saves others too, with which the position
  estimate divides by zero or runs backwards.
- HouseRuns.RunInv: is about whole operations; `CutRuns.RunWeakInv` has the runs with cuts inside them.
- HouseSpace.StepTidy: is about whole operations; `CutEffects.AddingTidyIff` and `CutEffects.DeletingTidyIff` have
  the cut ones for blinds.
- CutEffects.AddingTidyIff: takes a device that starts again without a further loss of power while it does.
- CutEffects.DeletingTidyIff: the same.
- CutRuns: a cut after which a listed blind has no record ends the run, because the next start reads that record
  without looking (`PowerCuts.BlindGap`).
- BlindMoves.MoveInRun: does not follow a blind across a restart, after which it counts as stopped where it was
  heading.
- Listening: a command is heard at the time the queue hands it on; a restart empties the queue.
- The service control, LED pulses, WiFi scanner, DNS server and timer wrappers. Timers are events that
  can happen at any time.
- The web interface, the case and the circuit board.
