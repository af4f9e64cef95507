# Verified models of the ThingsBoard IoT Gateway

The gateway collects readings from field devices and forwards them to a platform that may
be out of reach for a while. This project models the parts of it that carry state, loops
and arithmetic, and proves what they guarantee. `dafny verify dfyconfig.toml` checks it.

## What is modelled

**Uplink.** A reading is validated, its telemetry brought to timestamped form
(`TelemetryNormaliser`), split into records below a size limit (`PackSplitter`) and stored
(`StorageFeed`, as `StoredTexts`); malformed parts raise on the way, or later when the pack
is grouped (`TextGrouping`). The sizes that decide are the lengths of JSON texts, which are
written out (`JsonTexts`, `JsonLists`); `StoredSizes` says which readings are split and how
long what is stored can be. `ReadingLosses` compares what is stored with what was handed
over, value by value (`Writes`, `SplitterCuts`). The send loop reads a pack of stored
events, groups it by device, publishes the buckets, waits for confirmations and only then
clears the pack (`Delivery`, the class `SendLoop`; `TurnEffects` says of any one turn what it
publishes and whether it clears). The platform is a last-writer-wins store,
seen place by place: the value left at (device, attribute key) or at (device, timestamp, key)
after the messages that arrived. The environment of a turn (connectivity at every check,
outcome of every call, a stop, the size of the pack) is a value the theorems quantify over.
The main results:

- when every value handed over is in the storage, as an exact condition
  (`ReadingLosses.NothingIsMissingExactly`);
- with quality of service 1, no raising call, no stop and no flip of the connection, a turn
  that clears a pack published every record of it, and every message of that attempt was
  confirmed (`AckSafety`), from any state and whatever earlier turns did; which turns
  guarantee that after every run is settled by an exact condition
  (`AckExactness.AckIsSafeExactly`, which rests on `SendOutcomes`);
- after every acknowledgement the platform equals the acknowledged events applied once, in
  storage order (`DeliveryRuns`, and `CarefulRuns` for hypotheses on the environment alone);
  this needs that regrouping by device is faithful, whose exact condition is
  `RegroupingLimits.RegroupingIsFaithfulExactly`. `DeliveryRenames` carries it through
  renames, between packs or with a pack in hand, and `RenamesInHand` says exactly when one
  that comes while a pack is in hand does harm;
- progress: which packs a turn clears on which all goes well, that two such turns settle
  every pack whatever went wrong before, and when a storage can be cleared at all, or
  drained, each as an exact condition (`AckProgress`);
- end to end, a drained storage leaves on the platform what the readings handed over by the
  connectors say, in order, and the readings can be drained if and only if none of them
  blocks the storage and some has data; two turns on which all goes well do it, whatever
  went wrong before (`Uplink`); the gateway and each device then have exactly what their own
  readings leave there (`Ownership`);
- dropping any hypothesis loses data: `AckLimits` has, from a fresh store with one record, a
  turn for each that clears the record and leaves a value off the platform.

**Registry.** Five maps and a file (`Registry`, the class `DeviceRegistry`) under additions,
removals, renames, deletions, changes of connector, saves, reloads and restarts.
`RegistryRuns` compares the rename map in every run with a map of the names the platform
really uses. `RegistryFiles` says after which runs the file knows all renames, and
`RegistryRoundTrips` with which connector each device comes back from it. Some promises
hold only under a condition, which is proved exact: translating a name twice equals
translating it once, a restart keeps the renames (`RegistryRestarts`), a deletion removes
every trace.

**Requests to devices.** `RpcQueue` models the rotating queue: no request is lost or
answered twice, none is dispatched late, one whose device is connected is dispatched by the
pass that comes to it in time, and a dispatched request reaches the right device in every run
exactly if no device was renamed to the local name of a renamed device.

**Modbus.** `WideRangeReads` and `WideRangeDecoding`: a range is cut into requests, the
answers are joined, cut into objects and labelled. `ConnectionLimiter`: when exactly a
connection attempt is made, and the rate bound of attempts over runs without success.

**Codecs and batches.** `CanCodec` and `CanFrames` (integers, flags, hexadecimal text and
frames), `TopicFilter`
and `TopicMatching` (topic filters as regular expressions, compared with section 4.7.1 of
MQTT 3.1.1), `LogBatcher`, `ObjectIteration` (BACnet), and `ReconnectSupervisor`, a step
system of the two threads that drive the platform connection; `ReconnectGuards` says what a
thread has seen before it acts, and that it goes on.

`Options`, `Sequences`, `PyDict` (insertion-ordered dictionaries), `Platform` (the
last-writer-wins store and the stored events) and `DeliverySafety` (values by place) serve
the others.

## Where the code differs from its intent

These are theorems. Each names an exact condition, or a concrete turn where the exact
condition stands beside it.

- Telemetry items without a timestamp are dropped when any item of the reading has one
  (`NormalisingLosesExactlyMixed`).
- A raising publish call, a stop during the drain, a connection that is down only when the
  confirmations would be awaited, or a quality of service other than 1 let the loop clear a
  pack that did not arrive (`AckLimits`, `AckIsSafeExactly`).
- A notification reconnects disconnected devices, because the reload does not read the
  file's disconnected mark (`ReloadReconnectsExactly`); a renamed device that reconnects is
  left in none of the device maps, and its rename is not saved (`ReconnectingLosesTheRename`).
- A pack without any data, when nothing is left over from before, or with an event at which
  the grouping raises, is never cleared and blocks the storage, however well all turns go
  (`StorageMovesExactly`,
  `DatalessPackIsNeverCleared`, `HaltingPackIsNeverCleared`); each retry of the latter adds
  the same entries to the buffer once more (`HaltedPackPilesUp`).
- A reading with a listed attribute that is no object, or with null in place of telemetry
  values, blocks the storage in that way (`BlocksExactly`). If it is long enough to be split
  it raises instead, as does one whose attributes are one object (`HarmsExactly`). Of a
  reading that raises only what lies before the splitter's last cut is kept (`KeptExactly`),
  and those behind it are lost (`NothingIsMissingExactly`).
- What was stored for a device under a new name goes to that name after a further rename,
  not to the device (`StoredBeforeRenameExactly`), and what was sent of a pack before a rename
  stays where it was sent (`RenameInHandExactly`).
- A rename is lost from the file when a renamed device reconnects, or when a device is
  renamed that the gateway does not have at the moment (`FileStaysCurrentExactly`).
- Names are translated once when a reading is stored and again when it is sent, and back
  each time a request is queued again (`UplinkTwiceIsOnceExactly`, `DispatchIsRightExactly`).
- An object that decodes to nothing does not use up its address, so later labels shift
  (`LabelsAlignExactly`); a register limit below one never ends the cutting loop
  (`CuttingEndsExactly`).
- The attempt that reaches the attempt limit is reported as failed even if it connected
  (`CallSucceedsExactly`, `LastAttemptIsDenied`).
- A CAN value that does not say whether it is telemetry, or a first one without a key, makes
  the handler of its failure raise, and the whole frame is lost (`ConversionRaisesExactly`).
- A list of properties of a BACnet object counts as one, all its properties in a set count as
  one of the set, and a wish for all of them that is a text is put into a set by the first
  request for it: slices overrun the device's budget (`UnderratedExactly`,
  `BoundedExactly`, `LaterReadingsBoundedExactly`).
- One log message over the payload limit stops the log sender for good (`PassEndsExactly`);
  a request budget below the largest count never ends the BACnet iteration
  (`IterationEndsExactly`).
- `connect` clears the stop flag, so a stop that comes between the supervisor's check and
  that point is forgotten (`StopIsForgottenExactly`).

## Model

| member | source | states |
|---|---|---|
| TelemetryNormaliser.ConvertTelemetryToTs | thingsboard_gateway/gateway/tb_gateway_service.py:1380-1397 | the loop computes the normalised telemetry, whose meaning the next row gives |
| TelemetryNormaliser.NormalisingLosesExactlyMixed | thingsboard_gateway/gateway/tb_gateway_service.py:1380-1397 | every value is kept under its timestamp, or under the clock's, at all clock values, if and only if timed items are not mixed with a valued untimed one |
| PackSplitter.AdoptEntry | thingsboard_gateway/gateway/tb_gateway_service.py:1338-1357 | one telemetry item is taken over value by value, `ts_to_index` staying a bijection onto the entries of the record being filled |
| PackSplitter.SplitReading | thingsboard_gateway/gateway/tb_gateway_service.py:1314-1365 | the splitting loops emit exactly the specified records, and applying them in order equals applying the unsplit reading at every place |
| PackSplitter.SplittingKeepsMeaning | thingsboard_gateway/gateway/tb_gateway_service.py:1314-1365 | last-writer-wins meaning of the records in order equals that of the whole reading |
| PackSplitter.RecordsAreCutAtTheLimit | thingsboard_gateway/gateway/tb_gateway_service.py:1315-1365 | every record but the remainder reached the limit; it was below it before its last contribution if and only if an empty record is below the limit |
| PackSplitter.TrackedSizeMissesOnlyCommas | thingsboard_gateway/gateway/tb_gateway_service.py:1315-1355 | no timestamp occurs twice in a record, and its size, which `JsonTexts.RecordTextSize` shows to be the length of its JSON text, exceeds the tracked size by at most the commas between its timestamps |
| PackSplitter.RecordCountBound | thingsboard_gateway/gateway/tb_gateway_service.py:1314-1365 | the number of records is bounded by the bytes of the reading over the room in a record |
| JsonTexts.RecordTextSize | thingsboard_gateway/gateway/tb_gateway_service.py:1317-1322 | the size of a record, empty or filled, is the length of its compact JSON text, written out with numerals, members and commas |
| JsonTexts.ChargedIsText | thingsboard_gateway/gateway/tb_gateway_service.py:1325-1350 | what the splitter adds to the tracked size is the length of the JSON text of what it takes over: an object of attributes, a value under its timestamp, or a value alone if the record has the timestamp |
| JsonTexts.NumeralOf | thingsboard_gateway/tb_utility/tb_utility.py:357-358 | numbers are written as decimal numerals without leading zeros, as long as the size says |
| StoredSizes.ReadingTextSize | thingsboard_gateway/tb_utility/tb_utility.py:357-358 | the text that is measured is as long as all values of the reading with their keys and timestamps, and what is around them, null values included |
| StoredSizes.SizeDecidesExactly | thingsboard_gateway/gateway/tb_gateway_service.py:1315-1367 | a reading that is taken is stored whole if that is below the limit, and otherwise in pieces with one object of attributes and no timestamp twice |
| StoredSizes.PiecesKeepTheLimit | thingsboard_gateway/gateway/tb_gateway_service.py:1318-1355 | the text of a piece is longer than the limit by what came last into it and the commas between its timestamps at most, if an empty record is below the limit |
| StoredSizes.RecordsHaveData | thingsboard_gateway/gateway/tb_gateway_service.py:1324-1365 | no record without a value is stored, unless an object of attributes has none |
| StoredSizes.RaisesExactly | thingsboard_gateway/gateway/tb_gateway_service.py:1276-1353 | storing raises if and only if the validation does, or the reading passes and has an unreadable item, or is not below the limit and has a null for values, a listed attribute that is no object, or attributes given as one object |
| StoredSizes.SplitterTakesExactly | thingsboard_gateway/gateway/tb_gateway_service.py:1325-1343 | the splitter takes the listed attributes before the first that is no object and, if there is none, the telemetry items before the first without values |
| StorageFeed.Validate | thingsboard_gateway/tb_utility/tb_utility.py:85-110 | the loop over the telemetry items gives the verdict whose meaning the rows below state: passed, refused or raised |
| StorageFeed.ScanRaisesExactly | thingsboard_gateway/tb_utility/tb_utility.py:92-96 | the validation raises if and only if an item without readable values comes before every item that counts |
| StorageFeed.ValidationExactly | thingsboard_gateway/tb_utility/tb_utility.py:85-110 | the gateway's own readings pass; of the others, those that do not raise pass if and only if they have a name, and an attribute or an item that shows telemetry; what does not pass is not stored |
| StorageFeed.Feed.StoreReading | thingsboard_gateway/gateway/tb_gateway_service.py:1276-1367 | one reading appends exactly its record or pieces, or nothing if it is refused; or it raises, with what was cut off before |
| StorageFeed.Feed.StoreReadings | thingsboard_gateway/gateway/tb_gateway_service.py:1274-1367 | a batch appends the records of its readings in order, up to the first that raises |
| StorageFeed.Feed.StoreTasks | thingsboard_gateway/gateway/tb_gateway_service.py:1181-1222 | the tasks taken from the queue append theirs in order, up to the first reading that raises in any of them |
| ReadingLosses.NothingIsMissingExactly | thingsboard_gateway/gateway/tb_gateway_service.py:1181-1367 | every value of the readings in the tasks taken from the queue is in the storage if and only if each reading that has any comes before the first that raises, passes the validation, has readable items, and, if the splitter raises at it, has no other value behind the last cut |
| ReadingLosses.StoredByReading | thingsboard_gateway/gateway/tb_gateway_service.py:1181-1199 | what the tasks add to the storage are the texts of each reading, in order |
| ReadingLosses.WritesAreRead | thingsboard_gateway/gateway/tb_gateway_service.py:1380-1397 | the values that are to be stored are all the values of the reading, or, if mixed, those with a timestamp and the attributes |
| ReadingLosses.KeptExactly | thingsboard_gateway/gateway/tb_gateway_service.py:1276-1367 | of one reading is kept: nothing if it is refused or raises before it is split, the values up to the last cut if it raises while it is split, all of them otherwise |
| ReadingLosses.StoppedKeepsAllExactly | thingsboard_gateway/gateway/tb_gateway_service.py:1314-1365 | a reading at which the splitter raises and that writes no place twice is stored in full if and only if the last cut comes behind its last value |
| SplitterCuts.StoredBeforeLastCut | thingsboard_gateway/gateway/tb_gateway_service.py:1318-1355 | the records cut off so far write exactly the values that came before the last cut |
| StorageFeed.HolesExactly | thingsboard_gateway/gateway/tb_gateway_service.py:1484-1515 | grouping the reading raises at some part if and only if an item has null for its values or a listed attribute is no object |
| StorageFeed.BlocksExactly | thingsboard_gateway/gateway/tb_gateway_service.py:1314-1367 | a reading puts an event into the storage at which the grouping will raise if and only if it passes validation with readable items, has a hole, and is too short to be split |
| StorageFeed.HarmsExactly | thingsboard_gateway/gateway/tb_gateway_service.py:1274-1400 | of the readings that pass validation exactly the malformed ones, and long ones whose attributes are one object, raise or block the storage |
| StorageFeed.StoredReadingMeaning | thingsboard_gateway/gateway/tb_gateway_service.py:1274-1367 | what is stored for an accepted reading that neither raises nor blocks writes exactly the reading's values, or, if mixed, those with a timestamp and the attributes |
| StorageFeed.StoredUnderOneName | thingsboard_gateway/gateway/tb_gateway_service.py:1288-1309 | all records of a reading carry its translated name, or the gateway's own |
| StorageFeed.RefusedReadingIsEmpty | thingsboard_gateway/tb_utility/tb_utility.py:85-101 | a refused reading with a name holds no value |
| Delivery.SendLoop.GroupPack | thingsboard_gateway/gateway/tb_gateway_service.py:1468-1516 | the pack is merged into the buffer event by event, skipping unparseable events and stopping at one without a name, or in the midst of one with a faulty part |
| TextGrouping.GroupText | thingsboard_gateway/gateway/tb_gateway_service.py:1475-1515 | the loops over the telemetry and the attributes of a stored text, raising at a part that is not as it should be, merge exactly the record of the event the text is taken for |
| Delivery.SendLoop.SendDevice | thingsboard_gateway/gateway/tb_gateway_service.py:1611-1631 | attributes, then telemetry of one device are published, and its bucket is emptied unless a call raised; `TurnEffects.BufferIsSentExactly` says so without the body |
| Delivery.SendLoop.SendData | thingsboard_gateway/gateway/tb_gateway_service.py:1609-1633 | the whole buffer is published in order until a call raises; what arrives is what the outcomes say |
| Delivery.SendLoop.HandlePublishedEvents | thingsboard_gateway/gateway/tb_gateway_service.py:1564-1606 | the drained handles are a prefix of those published; success needs one handle at least, and all confirmed if they are awaited |
| Delivery.SendLoop.AwaitConfirmations | thingsboard_gateway/gateway/tb_gateway_service.py:1541-1554 | the pack is cleared and the buffer dropped only after success and while connected |
| Delivery.SendLoop.RunTurn | thingsboard_gateway/gateway/tb_gateway_service.py:1446-1561 | one turn of the loop is the step function the run theorems are about |
| TurnEffects.BufferIsSentExactly | thingsboard_gateway/gateway/tb_gateway_service.py:1609-1633 | the messages of a buffer are published in order, attributes before telemetry for each device, each with the outcome of its call, up to the first call that raises; the buckets whose messages are all handed over are emptied, the others stay |
| TurnEffects.TurnClearsExactly | thingsboard_gateway/gateway/tb_gateway_service.py:1446-1606 | a turn clears its events if and only if every test found the client connected and not being configured, the grouping raised at no event, and handles were drained, all confirmed if awaited |
| TurnEffects.TurnPublishesExactly | thingsboard_gateway/gateway/tb_gateway_service.py:1446-1606 | what reaches the platform in a turn, which handles stay, and what is left in the buffer |
| TurnEffects.OtherTurnsExactly | thingsboard_gateway/gateway/tb_gateway_service.py:1446-1519 | a turn that does not read changes nothing; one that stops in the grouping or before sending leaves what was grouped |
| DeliveryRuns.EventsAreConservedFrom | thingsboard_gateway/storage/event_storage.py:28-36 | in every run, from any state, the acknowledged events followed by the pending ones are those there before followed by the stored ones, in order |
| AckSafety.AcknowledgedEventsWereConfirmed | thingsboard_gateway/gateway/tb_gateway_service.py:1446-1633 | from any state, a turn that clears a pack carried every record of it in the attempt, all of whose messages were confirmed |
| AckSafety.PeacefulAckIsSound | thingsboard_gateway/gateway/tb_gateway_service.py:1564-1633 | quality of service 1, no raising call, no stop and no flip of the connection suffice for that |
| AckExactness.AckIsSafeExactly | thingsboard_gateway/gateway/tb_gateway_service.py:1446-1633 | a turn is safe after every run if and only if it cannot clear what it publishes or it awaits its handles, sees no stop, and its first failing call does not raise |
| DeliveryRuns.SoundAckIsConfirmed | thingsboard_gateway/gateway/tb_gateway_service.py:1541-1606 | an acknowledging turn that awaited all its handles had them all confirmed |
| Regrouping.RefilledBufferMeaning | thingsboard_gateway/gateway/tb_gateway_service.py:1468-1516 | refilling a half-sent buffer from the same contiguous pack is worth the pack applied once |
| RegroupingLimits.RegroupingIsFaithfulExactly | thingsboard_gateway/gateway/tb_gateway_service.py:1468-1516 | sending by device equals sending by event for all contents if and only if no stored name comes back after another name of the same platform device |
| DeliveryRuns.SoundAckDelivers | thingsboard_gateway/gateway/tb_gateway_service.py:1446-1633 | a sound acknowledging turn leaves the platform as the pack applied once on the acknowledged events, despite partial sends and repeats before |
| DeliveryRuns.PlatformEqualsAcknowledgedHistory | thingsboard_gateway/gateway/tb_gateway_service.py:1446-1633 | in every sound run the platform equals the acknowledged history whenever no pack is in hand |
| CarefulRuns.CarefulRunDelivers | thingsboard_gateway/gateway/tb_gateway_service.py:1446-1633 | the same for every run whose turns meet the condition of `AckIsSafeExactly` and whose stored names do not come back after another name of the same device, whatever else the environment does |
| Uplink.ReadingsReachThePlatform | thingsboard_gateway/gateway/tb_gateway_service.py:1274-1633 | in such a run, once the events stored for some readings are acknowledged, every place on the platform has the value the readings leave there in order |
| Uplink.DrainedStorageDelivered | thingsboard_gateway/gateway/tb_gateway_service.py:1274-1633 | the same whenever the storage is drained |
| Uplink.ReadingsReachThePlatformAcrossRenames | thingsboard_gateway/gateway/tb_gateway_service.py:1274-1633 | with renames in between, every place has the value that the readings leave, those acknowledged under each rename map going by that map |
| Uplink.ReadingsCanBeDrainedExactly | thingsboard_gateway/gateway/tb_gateway_service.py:1274-1633 | from a storage that holds the readings some turns clear all of it if and only if it is empty, or no reading blocks it and some has data |
| Uplink.ReadingsGetDelivered | thingsboard_gateway/gateway/tb_gateway_service.py:1274-1633 | after any careful run, if nothing stored blocks and some has data, two more turns on which all goes well, at most, bring all the readings to the platform |
| Uplink.ReadingGoesToItsDevice | thingsboard_gateway/gateway/tb_gateway_service.py:1612-1613 | if no rename target is a renamed local name, a reading goes to the device the platform has for its name, though the name is translated twice |
| Ownership.TargetsExactly | thingsboard_gateway/gateway/tb_gateway_service.py:1612-1631 | data goes out on the gateway's own topics if and only if it is stored under one of the gateway's two names, and otherwise for the device the name is translated to |
| Ownership.ReadingGoesToItsOwner | thingsboard_gateway/gateway/tb_gateway_service.py:1288-1308 | storing and sending together bring the gateway's own readings, and those of devices called as it is, to the gateway, and all others to the device their name is translated to |
| Ownership.OwnersHaveTheirReadings | thingsboard_gateway/gateway/tb_gateway_service.py:1274-1633 | in a careful run, once the readings are acknowledged, the platform has for the gateway, and for each device, what the values kept of their own readings leave there, in order, and nothing of others |
| Ownership.DrainedOwnersHaveTheirReadings | thingsboard_gateway/gateway/tb_gateway_service.py:1274-1633 | the same whenever the storage is drained |
| DeliveryRenames.StoredBeforeRenameExactly | thingsboard_gateway/gateway/tb_gateway_service.py:1288-1289 | a reading stored before one more rename of its device goes to the right name after it if and only if the device was not renamed when the reading was stored |
| DeliveryRenames.PlatformFollowsRenames | thingsboard_gateway/gateway/tb_gateway_service.py:1609-1633 | with renames in between that leave nothing of a pack in hand behind, and sound acknowledgements, the platform equals the acknowledged events applied in order, each under the rename map of its time, but for places that the pack in hand writes |
| DeliveryRenames.CarefulEpochsDeliver | thingsboard_gateway/gateway/tb_gateway_service.py:1609-1633 | the same with hypotheses on the turns, the stored names and the renames alone, exact whenever no pack is in hand |
| RenamesInHand.RenameInHand | thingsboard_gateway/gateway/tb_gateway_service.py:1609-1633 | whatever was sent of a pack before, under any maps, the acknowledging turn leaves the pack, under the new names, on top of it |
| RenamesInHand.RenameInHandExactly | thingsboard_gateway/gateway/tb_gateway_service.py:1609-1633 | after any number of failed attempts, under old maps and the new one, that is as if the pack had been sent under the new names alone, if and only if it writes under them wherever it wrote under an old map |
| RenamesInHand.RenameInHandIsHarmlessExactly | thingsboard_gateway/gateway/tb_gateway_service.py:1609-1633 | for packs with given names and any contents, if and only if no old map gives one of the names another target |
| AckLimits.RaisingCallLosesData | thingsboard_gateway/gateway/tb_gateway_service.py:1609-1633 | a turn with a raising publish call that clears the pack and loses a value |
| AckLimits.StopWhileDrainingLosesData | thingsboard_gateway/gateway/tb_gateway_service.py:1567-1582 | the same for a stop while the handles are drained |
| AckLimits.ConnectionFlipLosesData | thingsboard_gateway/gateway/tb_gateway_service.py:1578-1592 | the same for a connection that is down only at the moment of awaiting |
| AckLimits.OtherQosLosesData | thingsboard_gateway/gateway/tb_gateway_service.py:1580-1592 | the same for every quality of service other than 1 |
| AckProgress.GoodTurnClearsExactly | thingsboard_gateway/gateway/tb_gateway_service.py:1446-1606 | a turn on which all goes well clears the pack in hand if and only if the grouping raises at none of its events, no earlier handle failed, and pack, buffer or earlier handles have anything |
| AckProgress.FreshGoodTurnClearsExactly | thingsboard_gateway/gateway/tb_gateway_service.py:1446-1606 | without earlier handles it does if and only if the grouping does not stop and fills some bucket |
| AckProgress.SecondGoodTurnClearsExactly | thingsboard_gateway/gateway/tb_gateway_service.py:1446-1606 | after a good turn that did not clear, whatever went before, the next one does if and only if the grouping raises at no event of the pack and some event has data |
| AckProgress.StorageMovesExactly | thingsboard_gateway/gateway/tb_gateway_service.py:1446-1606 | from any state, some turns clear something if and only if some pack that can be returned groups without raising and has data, or anything is left over from before |
| AckProgress.DrainsExactly | thingsboard_gateway/gateway/tb_gateway_service.py:1446-1606 | from any state, some turns clear the whole storage if and only if it is empty, or the grouping raises at none of its events and some has data or anything is left over from before |
| AckProgress.TwoGoodTurnsDrain | thingsboard_gateway/gateway/tb_gateway_service.py:1446-1606 | from any state in which the grouping raises at no event and some has data, two turns on which all goes well, at most, clear the whole storage |
| AckProgress.DatalessPackIsNeverCleared | thingsboard_gateway/gateway/tb_gateway_service.py:1564-1574 | events without telemetry entries and attributes are never cleared, however many turns follow |
| AckProgress.HaltingPackIsNeverCleared | thingsboard_gateway/gateway/tb_gateway_service.py:1468-1516 | a pack with an event at which the grouping raises is never cleared in any run, whatever is stored behind it |
| AckProgress.HaltedPackPilesUp | thingsboard_gateway/gateway/tb_gateway_service.py:1468-1560 | each retry of such a pack merges the same telemetry entries into the buffer once more and publishes nothing |
| Registry.DeviceRegistry.SavePersistentDevices | thingsboard_gateway/gateway/tb_gateway_service.py:2159-2204 | the file becomes the snapshot of both maps, or the save raises and leaves it; `RegistryRoundTrips.FileTells` says what a snapshot holds |
| Registry.DeviceRegistry.Add | thingsboard_gateway/gateway/tb_gateway_service.py:1918-1967 | the whole new registry and the result for every branch of adding a device |
| Registry.DeviceRegistry.Del | thingsboard_gateway/gateway/tb_gateway_service.py:2026-2039 | the whole new registry after a disconnect, and whether the save raised |
| Registry.DeviceRegistry.Update | thingsboard_gateway/gateway/tb_gateway_service.py:1998-2007 | the whole new registry after a change of connector, and whether the save raised |
| Registry.DeviceRegistry.ReAddConnected | thingsboard_gateway/gateway/tb_gateway_service.py:2146-2149 | adding all connected devices again, in any order, takes the renamed ones from the disconnected map |
| Registry.DeviceRegistry.LoadPersistentDevices | thingsboard_gateway/gateway/tb_gateway_service.py:2094-2157 | the reload is the specified fold over the file's entries in any listing order |
| Registry.DeviceRegistry.Start | thingsboard_gateway/gateway/tb_gateway_service.py:180-261 | the registry of a started gateway: the file loaded without connectors, then with those that exist |
| Registry.DeviceRegistry.ProcessRenamed | thingsboard_gateway/gateway/tb_gateway_service.py:755-776 | the whole new registry after a rename notification, rename-back included |
| Registry.DeviceRegistry.ProcessDeleted | thingsboard_gateway/gateway/tb_gateway_service.py:717-738 | the whole new registry after a delete notification |
| RegistryRuns.MapsStayNested | thingsboard_gateway/gateway/tb_gateway_service.py:717-776 | in every run the added devices are among the saved ones, and those among the connected ones |
| RegistryRuns.RegistryFollowsThePlatform | thingsboard_gateway/gateway/tb_gateway_service.py:717-776 | in every run with a disciplined platform, changes of connector and restarts from a current file included, the rename map gives exactly the platform's names, injectively and without fixed points |
| RegistryRuns.DevicesInUseAreNamedRight | thingsboard_gateway/gateway/tb_gateway_service.py:1288-1289 | every connected device is sent under its true name, no two under one, and the name leads back to it |
| RegistryRuns.DownlinkInvertsUplink | thingsboard_gateway/tb_utility/tb_utility.py:191-195 | the lookup by value undoes the forward translation for every known device |
| PyDict.KeyByValueIsFirst | thingsboard_gateway/tb_utility/tb_utility.py:191-195 | the search by value yields the first key that holds it |
| RegistryRuns.RenamingBackRestores | thingsboard_gateway/gateway/tb_gateway_service.py:759-768 | a rename and its reversal leave the rename map as it was |
| RegistryRuns.RenameChainsCompose | thingsboard_gateway/gateway/tb_gateway_service.py:759-768 | two renames in a row equal the direct one |
| RegistryRuns.UplinkTwiceIsOnceExactly | thingsboard_gateway/gateway/tb_gateway_service.py:1612-1613 | translating twice equals once for all names if and only if no rename target is a renamed local name |
| RegistryRuns.DownlinkTwiceIsOnceExactly | thingsboard_gateway/gateway/tb_gateway_service.py:1689-1692 | the same for the translation back |
| RegistryRuns.UplinkTwiceMisdelivers | thingsboard_gateway/gateway/tb_gateway_service.py:1612-1613 | otherwise the reading goes to the platform name of another device |
| RegistryRuns.NameTakeoverMisdelivers | thingsboard_gateway/gateway/tb_gateway_service.py:755-776 | two ordinary renames lead there from any state with two devices |
| RegistryRuns.SaveThenRestartRecovers | thingsboard_gateway/gateway/tb_gateway_service.py:2094-2204 | a restart from the file recovers the renames of disconnected devices and of connected ones with a connector, no others |
| RegistryRuns.SaveAndLoadKeepsRenames | thingsboard_gateway/gateway/tb_gateway_service.py:770-771 | the save and reload inside the handlers leave the rename map as it is |
| RegistryRuns.DeletedDeviceIsGone | thingsboard_gateway/gateway/tb_gateway_service.py:717-738 | after any delete notification that saved, the device is in no map and not in the file, if and only if its name is a rename target or not renamed itself |
| RegistryRuns.DeletionIsComplete | thingsboard_gateway/gateway/tb_gateway_service.py:717-738 | in disciplined runs a deleted device is always gone from all maps, and from the file unless that could not be written |
| RegistryRuns.RestartFollowsExactly | thingsboard_gateway/gateway/tb_gateway_service.py:2094-2157 | a gateway restarted from any file has the platform's names right if and only if the file has exactly the renames |
| RegistryFiles.FileStaysCurrentExactly | thingsboard_gateway/gateway/tb_gateway_service.py:2159-2204 | after every operation of a run the file has exactly the renames, if and only if no operation adds a renamed device that is not connected or renames one that the gateway does not have |
| RegistryFiles.RememberingRunIsGood | thingsboard_gateway/gateway/tb_gateway_service.py:2094-2204 | in such a run the registry can always be saved, every restart finds a current file, and the registry follows the platform |
| RegistryRestarts.SavedRestartFollowsExactly | thingsboard_gateway/gateway/tb_gateway_service.py:2094-2204 | restarted from the file saved before, it does if and only if every renamed device was disconnected or connected through a connector |
| RegistryRestarts.DisconnectingRaisesExactly | thingsboard_gateway/gateway/tb_gateway_service.py:2026-2039 | a disconnect raises if and only if the device is renamed and no description of it is left |
| RegistryRestarts.ReconnectingLosesTheRename | thingsboard_gateway/gateway/tb_gateway_service.py:1925-1931 | a renamed device that disconnects and connects is in no device map, its rename is forgotten at a restart, and the next disconnect raises |
| RegistryRestarts.ReloadReconnectsExactly | thingsboard_gateway/gateway/tb_gateway_service.py:2123-2150 | a notification reconnects a device that was not connected if and only if it was disconnected and a connector with its id or name exists |
| RegistryRoundTrips.FileTells | thingsboard_gateway/gateway/tb_gateway_service.py:2159-2190 | the file holds of a saved device its connector's name and id, its type, its new name and whether it is disconnected |
| RegistryRoundTrips.RestartFindsTheConnector | thingsboard_gateway/gateway/tb_gateway_service.py:2094-2204 | from the file a device comes back, connected and saved, with its type and the connector of its id, or, if there is none, of its name; without either it does not |
| RegistryRoundTrips.RestartBringsNoOther | thingsboard_gateway/gateway/tb_gateway_service.py:2094-2204 | no other device comes back |
| RegistryRoundTrips.StartFindsTheConnector | thingsboard_gateway/gateway/tb_gateway_service.py:180-261 | so it is with both loads of a start, the connectors of the second replacing those of the first |
| RegistryRoundTrips.ReloadFindsTheConnector | thingsboard_gateway/gateway/tb_gateway_service.py:770-771 | the save and reload of a notification gives every saved device its connector anew, and leaves connected ones as they are that have none |
| RegistryRoundTrips.RestartKeepsDisconnected | thingsboard_gateway/gateway/tb_gateway_service.py:2094-2157 | after a restart exactly those renamed devices count as disconnected that have no connector or were loaded offline, each with its record |
| RegistryRoundTrips.AddedDeviceComesBack | thingsboard_gateway/gateway/tb_gateway_service.py:1938-1962 | an added device is connected with its details, what the call returns, and it comes back with its connector, announced or not |
| RegistryRoundTrips.ChangedConnectorComesBack | thingsboard_gateway/gateway/tb_gateway_service.py:1998-2007 | a changed connector is the device's own afterwards and after a restart, the other connected devices staying as they are |
| RegistryRoundTrips.DisconnectedDeviceComesBackExactly | thingsboard_gateway/gateway/tb_gateway_service.py:2026-2039 | a device that disconnected comes back at a restart if and only if it was renamed and its connector exists |
| RegistryRoundTrips.OthersStay | thingsboard_gateway/gateway/tb_gateway_service.py:1918-2039 | adding, disconnecting, changing and forgetting a device leave every other device as it is |
| RegistryRoundTrips.KnownDeviceIsLeftAlone | thingsboard_gateway/gateway/tb_gateway_service.py:1933-1938 | nothing happens to a device that is connected or is the new name of a renamed one, nor to any while the platform is not connected |
| RegistryRoundTrips.ReAddedIsSavedExactly | thingsboard_gateway/gateway/tb_gateway_service.py:2146-2149 | adding all connected devices again writes the file if and only if the platform is connected and a renamed device among them |
| RegistryRoundTrips.RenamingToItselfChangesNothing | thingsboard_gateway/gateway/tb_gateway_service.py:759-768 | a notification that gives a device the name it has leaves every lookup as it is |
| RpcQueue.RpcService.ProcessNext | thingsboard_gateway/gateway/tb_gateway_service.py:1679-1707 | one pass answers, dispatches, drops or requeues the first request |
| RpcQueue.RequestsAreConserved | thingsboard_gateway/gateway/tb_gateway_service.py:1679-1707 | in every run each request waits or is finished exactly as often as it was received |
| RpcQueue.DeadlinesAreKept | thingsboard_gateway/gateway/tb_gateway_service.py:1683-1687 | in every run a request is answered as timed out if and only if it waited longer than its timeout, and none is dispatched later than that |
| RpcQueue.PassDecidesExactly | thingsboard_gateway/gateway/tb_gateway_service.py:1679-1707 | what a pass does with the first request, by its waiting time, the connected devices and their connectors |
| RpcQueue.TimelyRequestIsDispatched | thingsboard_gateway/gateway/tb_gateway_service.py:1679-1707 | a waiting request is passed to its device's connector by the pass that comes to it, after as many passes as requests wait before it and whatever arrives meanwhile, if that is in time and the device connected through a connector |
| RpcQueue.LateRequestsAreAnswered | thingsboard_gateway/gateway/tb_gateway_service.py:1679-1707 | late requests are all answered, in order, within one rotation |
| RpcQueue.DispatchIsRightExactly | thingsboard_gateway/gateway/tb_gateway_service.py:1688-1705 | under a fixed rename map every dispatch of every run reaches the right device if and only if no rename target is a renamed local name |
| RpcQueue.RepliesReachTheAsker | thingsboard_gateway/gateway/tb_gateway_service.py:1811-1812 | under that condition timeout and error replies leave under the name the request came with |
| WideRangeReads.ParseWideRangeRequest | thingsboard_gateway/connectors/modbus/utils.py:29-58 | the requests tile the range without gap or overlap, all but the last full; it fails exactly on an empty or unreadable range |
| WideRangeReads.CuttingEndsExactly | thingsboard_gateway/connectors/modbus/utils.py:42-46 | the cutting loop ends if and only if the limit is at least one register |
| WideRangeReads.ReadSlaveData | thingsboard_gateway/connectors/modbus/modbus_connector.py:281-328 | the nested loops store, per tag, the answers before the first late one |
| WideRangeReads.TagsCollect | thingsboard_gateway/connectors/modbus/modbus_connector.py:295-298 | a tag collects the answers of all values configured under it, in order |
| WideRangeReads.OwnTagOwnAnswers | thingsboard_gateway/connectors/modbus/modbus_connector.py:287-308 | a value with a tag of its own gets exactly the answers to its requests before the first late one, and these ask for its own registers without gap or overlap |
| WideRangeDecoding.ProcessWideRangeResponse | thingsboard_gateway/connectors/modbus/bytes_modbus_uplink_converter.py:88-155 | filtering, joining, cutting and labelling compute the specified datapoints |
| WideRangeDecoding.WideRangeReadIsExact | thingsboard_gateway/connectors/modbus/bytes_modbus_uplink_converter.py:88-155 | with all requests answered and all objects decoded, there is one datapoint per object, in order, with its address and the registers of exactly that address |
| WideRangeDecoding.DatapointsAreFromTheirLabels | thingsboard_gateway/connectors/modbus/bytes_modbus_uplink_converter.py:88-155 | if only answers and objects at the end fail, every datapoint was decoded from the registers at its label |
| WideRangeDecoding.RegistersAlignExactly | thingsboard_gateway/connectors/modbus/bytes_modbus_uplink_converter.py:95-115 | every joined register stands where its address says if and only if no refused answer precedes a usable one |
| WideRangeDecoding.RegistersComeFromSources | thingsboard_gateway/connectors/modbus/bytes_modbus_uplink_converter.py:108-115 | each joined register is the device's register at the address it was requested from |
| WideRangeDecoding.LabelsAlignExactly | thingsboard_gateway/connectors/modbus/bytes_modbus_uplink_converter.py:140-155 | every label is the place of its object if and only if objects without a value come last |
| WideRangeDecoding.ConversionFailsExactly | thingsboard_gateway/connectors/modbus/bytes_modbus_uplink_converter.py:88-155 | the conversion fails if and only if objects have no registers or decoding some object of the joined registers raises |
| ConnectionLimiter.Configure | thingsboard_gateway/connectors/modbus/slave.py:101-106 | a configured value below its minimum becomes the minimum, any other is kept |
| ConnectionLimiter.Slave.Connect | thingsboard_gateway/connectors/modbus/slave.py:194-231 | the loop computes the specified state, number of attempts and result |
| ConnectionLimiter.AttemptIsMadeExactly | thingsboard_gateway/connectors/modbus/slave.py:194-207 | without a connection an attempt is made if and only if the slave runs, the count is not used up or the pause is over, and the last attempt is at least the distance ago or there was none |
| ConnectionLimiter.AttemptCounts | thingsboard_gateway/connectors/modbus/slave.py:206-231 | what an attempt leaves of count and time and what it reports, by how it goes |
| ConnectionLimiter.NoAttemptCounts | thingsboard_gateway/connectors/modbus/slave.py:194-231 | what a call without an attempt leaves and reports |
| ConnectionLimiter.OneAttemptPerCall | thingsboard_gateway/connectors/modbus/slave.py:202-222 | at a positive time a call makes at most one attempt |
| ConnectionLimiter.AllAttemptsAtZero | thingsboard_gateway/connectors/modbus/slave.py:202-205 | at time zero a fresh slave makes all its attempts in one call |
| ConnectionLimiter.CallSucceedsExactly | thingsboard_gateway/connectors/modbus/slave.py:194-231 | a call at a positive time succeeds if and only if the connection is there, or an attempt connects that is far enough from the last and is not the last allowed, or comes after the pause |
| ConnectionLimiter.LastAttemptIsDenied | thingsboard_gateway/connectors/modbus/slave.py:217-231 | the last allowed attempt reports failure though it connects; the next call reports success |
| ConnectionLimiter.AttemptsAreSpaced | thingsboard_gateway/connectors/modbus/slave.py:194-231 | in every run without success attempts keep their distance, and after the last of a round the longer pause |
| ConnectionLimiter.AttemptRateIsBounded | thingsboard_gateway/connectors/modbus/slave.py:194-231 | k rounds of attempts and one more take at least k times the pause and the distances within a round; the count stays within its limit |
| CanCodec.ConvertDown | thingsboard_gateway/connectors/can/bytes_can_downlink_converter.py:27-73 | the frame is the bytes before, the value's and the bytes after, or nothing on any failure |
| CanCodec.ConvertUp | thingsboard_gateway/connectors/can/bytes_can_uplink_converter.py:45-97 | attributes and telemetry list the values that could be converted, in order of configuration, unless the conversion raises |
| CanCodec.ConversionRaisesExactly | thingsboard_gateway/connectors/can/bytes_can_uplink_converter.py:45-95 | the conversion raises, losing the frame, if and only if the first value has no key or some value does not say whether it is telemetry |
| CanCodec.BadValueChangesNothingExactly | thingsboard_gateway/connectors/can/bytes_can_uplink_converter.py:91-95 | a value that cannot be converted changes nothing for the others if and only if it says whether it is telemetry and, if it comes first, has a key |
| CanCodec.IntegerRoundTripExactly | thingsboard_gateway/connectors/can/bytes_can_uplink_converter.py:50-58 | decoding the frame at the value's place gives the integer back if and only if the signedness agrees or both ranges hold it |
| CanCodec.IntegerSurvivesExactly | thingsboard_gateway/connectors/can/bytes_can_downlink_converter.py:39-73 | an integer is sent and read back as itself if and only if the settings take it, the bytes behind it parse, and the signedness agrees or both ranges hold it |
| CanCodec.ReencodingIsFaithfulExactly | thingsboard_gateway/connectors/can/bytes_can_downlink_converter.py:56-61 | bytes decoded and encoded again are the same, exactly unless a large unsigned number meets a signed setting |
| CanCodec.HexRoundTrip | thingsboard_gateway/connectors/can/bytes_can_uplink_converter.py:65-68 | hexadecimal output parses to the bytes it came from |
| CanCodec.HexFormIsCanonicalExactly | thingsboard_gateway/connectors/can/bytes_can_downlink_converter.py:29-37 | parsed text is the output form of its bytes if and only if it is lower-case digits only |
| CanCodec.RawFrameRoundTrip | thingsboard_gateway/connectors/can/bytes_can_downlink_converter.py:29-30 | a raw frame configured as hexadecimal data is sent unchanged; an empty one counts as not configured |
| CanFrames.ByteOrderExactly | thingsboard_gateway/connectors/can/bytes_can_uplink_converter.py:55-58 | little-endian bytes begin with the lowest digit to the base 256, big-endian ones end with it |
| CanFrames.SignExactly | thingsboard_gateway/connectors/can/bytes_can_uplink_converter.py:55-58 | read as signed, bytes stand for a negative number if and only if their highest bit is set, and for which |
| CanFrames.PartExactly | thingsboard_gateway/connectors/can/bytes_can_uplink_converter.py:50-67 | a value inside the frame has the bytes from its start on, as many as its length says or all that follow |
| CanFrames.PartFromTheEnd | thingsboard_gateway/connectors/can/bytes_can_uplink_converter.py:50-67 | so it is with a start counted from the end, but bytes that reach the end are not read |
| CanFrames.ReadsItsPart | thingsboard_gateway/connectors/can/bytes_can_uplink_converter.py:55-68 | a raw value is hexadecimal text for these bytes, a number what they stand for |
| CanFrames.FlagReadExactly | thingsboard_gateway/connectors/can/bytes_can_uplink_converter.py:53-54 | any byte but zero is a set flag, and outside the frame there is no value |
| CanFrames.FlagRoundTrip | thingsboard_gateway/connectors/can/bytes_can_downlink_converter.py:49-52 | a flag is sent as one byte between those before and after, and is read back from there, counted from either end |
| CanFrames.HexDataIsSent | thingsboard_gateway/connectors/can/bytes_can_downlink_converter.py:32-48 | hexadecimal data of the request is sent as it is whatever its value, and nothing without either |
| CanFrames.ByteText | thingsboard_gateway/connectors/can/bytes_can_uplink_converter.py:65-68 | a byte is written as its higher, then its lower hexadecimal digit |
| CanFrames.DigitsReadExactly | thingsboard_gateway/connectors/can/bytes_can_downlink_converter.py:29-37 | hexadecimal digits of either case are read, and nothing else |
| CanFrames.PairText | thingsboard_gateway/connectors/can/bytes_can_downlink_converter.py:29-37 | two digits are read as a byte, blanks between bytes are passed over |
| CanFrames.ValuesLandExactly | thingsboard_gateway/connectors/can/bytes_can_uplink_converter.py:45-90 | telemetry are exactly the values read that are configured as such, attributes those that are configured not to be |
| CanFrames.ValuesComeInOrder | thingsboard_gateway/connectors/can/bytes_can_uplink_converter.py:45-90 | they come in the order of configuration |
| TopicFilter.TranslationIsPerCharacter | thingsboard_gateway/tb_utility/tb_utility.py:113-114 | escaping and the two replacements work character by character, without interference |
| TopicFilter.RegexRoundTripExactly | thingsboard_gateway/tb_utility/tb_utility.py:112-118 | translating to a regular expression and back gives the topic if and only if no character but the wildcards is escaped |
| TopicMatching.RegexMatchesExactly | thingsboard_gateway/connectors/mqtt/mqtt_connector.py:628 | for well-formed filters the expression matches a topic exactly if it matches level by level, wildcards taking no empty text |
| TopicMatching.RegexComparedWithFilter | thingsboard_gateway/connectors/mqtt/mqtt_connector.py:830-832 | what the expression matches the filter matches; the converse under non-empty levels, one level for # at least, and no line break |
| LogBatcher.SendLogs | thingsboard_gateway/tb_utility/tb_handler.py:83-122 | one pass takes at most twenty messages and sends exactly the specified batches |
| LogBatcher.TwentyAreTaken | thingsboard_gateway/tb_utility/tb_handler.py:83-93 | a pass takes twenty messages, or all if they are fewer |
| LogBatcher.PassEndsExactly | thingsboard_gateway/tb_utility/tb_handler.py:93-106 | the inner loop ends if and only if none of the messages it takes is over the limit |
| LogBatcher.BatchesAreTheMessages | thingsboard_gateway/tb_utility/tb_handler.py:108-118 | the batches concatenate to the messages taken, in order |
| LogBatcher.BatchesKeepTheLimit | thingsboard_gateway/tb_utility/tb_handler.py:108-118 | a batch's JSON length is at most the limit plus two, and at most the limit plus one if it has several messages |
| LogBatcher.BatchesAreGreedy | thingsboard_gateway/tb_utility/tb_handler.py:108-113 | a batch is closed only for a message that has no room in it |
| LogBatcher.EmptyBatchIsSentExactly | thingsboard_gateway/tb_utility/tb_handler.py:108-113 | an empty batch is sent if and only if the first message leaves no room for the brackets |
| ObjectIteration.ObjectIterator.constructor | thingsboard_gateway/connectors/bacnet/application.py:396-429 | the limit is the budget over the largest property count, found by the loop, for texts, sets and lists of properties |
| ObjectIteration.MaxCountExactly | thingsboard_gateway/connectors/bacnet/application.py:417-429 | the count is the largest of an object, or six if some object asks for all properties as a text |
| ObjectIteration.LimitIsLargest | thingsboard_gateway/connectors/bacnet/application.py:417-429 | the limit is the largest number of objects of that count that the budget covers |
| ObjectIteration.ObjectIterator.GetNext | thingsboard_gateway/connectors/bacnet/application.py:404-415 | the next slice, the new index, whether it was the last, and the single properties that the request puts into sets |
| ObjectIteration.ReadAll | thingsboard_gateway/connectors/bacnet/bacnet_connector.py:578-583 | every item is requested once, in order, in the fewest calls, and left as the request rewrites it |
| ObjectIteration.IterationEndsExactly | thingsboard_gateway/connectors/bacnet/application.py:404-429 | the iteration ends if and only if the budget covers the largest count |
| ObjectIteration.BudgetIsKeptExactly | thingsboard_gateway/connectors/bacnet/application.py:417-429 | all slices keep to every sufficient budget if and only if the limit accounts for every object |
| ObjectIteration.UnderratedExactly | thingsboard_gateway/connectors/bacnet/application.py:257-263 | the limit counts less for an object than it costs if and only if it asks for all properties or has a list of several |
| ObjectIteration.BoundedExactly | thingsboard_gateway/connectors/bacnet/application.py:420-427 | it does if and only if, with an object that asks for all properties as a text, no other costs more, and, without one, every underrated object costs no more than the largest set |
| ObjectIteration.LaterReadingsBoundedExactly | thingsboard_gateway/connectors/bacnet/application.py:257-258 | after a first reading it does if and only if every object that asks for all properties in any form, or for a list of them, costs no more than the largest set configured |
| ReconnectSupervisor.OneRetryLoopAtATime | thingsboard_gateway/gateway/tb_client.py:449-512 | in every interleaving at most one thread holds the lock, `connecting` tells whether one is trying, and the supervisor is inside only after an accepted connection |
| ReconnectSupervisor.ConnectReturnsOnlyIf | thingsboard_gateway/gateway/tb_client.py:469-512 | the loop is left only with a live network loop after the client was seen connected, when stopped, or at startup after the timeout |
| ReconnectSupervisor.StopIsForgottenExactly | thingsboard_gateway/gateway/tb_client.py:449-557 | a stop can be undone without a new call if and only if a thread still has to clear the flag |
| ReconnectGuards.SendsOnlyIf | thingsboard_gateway/gateway/tb_client.py:469-494 | a thread that sends a connect message has, in this order, found the client not connected or its network loop dead, not stopped, not paused, and again not stopped |
| ReconnectGuards.SupervisesOnlyIf | thingsboard_gateway/gateway/tb_client.py:531-551 | the supervisor calls `connect` only after it found a first connection accepted and the client, in this order, not stopped, not paused, not connecting, and without a live network loop |
| ReconnectGuards.ConnectReturnsSoon | thingsboard_gateway/gateway/tb_client.py:469-512 | a thread in the loop leaves it within seven steps of its own once the client stays connected with a live network loop |
| ReconnectGuards.ConnectIsSentSoon | thingsboard_gateway/gateway/tb_client.py:469-494 | it sends a connect message within six if the client stays neither connected with a live loop nor stopped nor paused |
| ReconnectGuards.SupervisorStepsIn | thingsboard_gateway/gateway/tb_client.py:531-551 | the supervisor calls `connect` in its next round if all it tests is as it should be |
| ReconnectGuards.SupervisorGoesOn | thingsboard_gateway/gateway/tb_client.py:541-555 | until the client is stopped, the supervisor goes from round to round, or to `connect` |
| ReconnectGuards.SupervisorEndsOnlyIf | thingsboard_gateway/gateway/tb_client.py:541-555 | the supervisor ends only when it finds the client stopped between rounds or the stop event set |
| ReconnectGuards.StopTakesEffect | thingsboard_gateway/gateway/tb_client.py:469-555 | a stop ends the supervisor at its next test or wait, and takes a thread that tests for it out of the retry loop |

## Left out

- Delivery.SendLoop.RunTurn: the pause while a reply to a request is being sent; the gateway's name is constant; a message arrives when it is published or never, a confirmed one has arrived, and later arrivals (reordering) are not modelled.
- DeliveryRuns.PlatformEqualsAcknowledgedHistory: assumes packs in which regrouping by device is faithful; the exact condition is proved separately. The rename map is constant, which `DeliveryRenames` lifts.
- Uplink.ReadingsReachThePlatform: one rename map for sending, lifted in `ReadingsReachThePlatformAcrossRenames`; readings may be stored under others.
- Delivery.SendLoop.GroupPack: the metadata that the latency debug mode adds to telemetry items.
- StorageFeed.Feed.StoreReading: adding an unknown device on the way, the device type, and the retries of a failing `put`; a put that fails five times loses the record. Values that are neither objects nor null, listed attributes that a dictionary takes over though they are no objects (an empty text, a list of pairs), an attribute with an empty name in attributes given as one object, and readings of the gateway itself without the two members are not modelled.
- StorageFeed.Feed.StoreReadings: the same for a batch.
- PackSplitter.SplitReading: keys and values enter as their JSON texts, whose encoding is the library's.
- StoredSizes.ReadingTextSize: a character of a text stands for a byte of what is measured; the text that is stored escapes what is not ASCII and may be longer. Attributes come before telemetry in the text, the members around them are given as text.
- Ownership.OwnersHaveTheirReadings: one rename map for sending, as in `Uplink.ReadingsReachThePlatform`.
- TelemetryNormaliser.ConvertTelemetryToTs: the clock is read once per reading; items that repeat the key `ts` inside their values are not modelled.
- Registry.DeviceRegistry.SavePersistentDevices: a write that fails midway leaves the file empty.
- Registry.DeviceRegistry.Update: properties other than the connector, sending the connector's name, and that a reload makes the connected and the saved maps share a record, so that the saved one changes too.
- Registry.DeviceRegistry.Start: whatever connects between the two loads.
- RegistryFiles.FileStaysCurrentExactly: devices are added with their connector.
- Registry.DeviceRegistry.Add: the synchronisation of shared attributes and its queue.
- Registry.DeviceRegistry.LoadPersistentDevices: the list and string forms of entries from older versions.
- RegistryRuns.RegistryFollowsThePlatform: the handling of renames is enabled; when it is disabled the notification changes nothing.
- RpcQueue.RpcService.ProcessNext: a connector's handler does not raise; a raising handler ends the thread.
- RpcQueue.DeadlinesAreKept: the default that stands in for a missing timeout.
- RpcQueue.DispatchIsRightExactly: the rename map is constant while a request waits.
- RpcQueue.RequestsAreConserved: the field `addressed` is bookkeeping of the model, the service does not keep it.
- WideRangeReads.ParseWideRangeRequest: the two numbers of an address arrive parsed; Python's reading of integers is not modelled. The limit must allow a register where the loop is reached, which `CuttingEndsExactly` shows necessary.
- WideRangeDecoding.ProcessWideRangeResponse: decoding one object is an unknown function; coils are not modelled, and labels are addresses, not the texts of the tag template. An exception in decoding costs this value; one of a kind the converter does not catch would cost the whole conversion.
- ConnectionLimiter.Slave.Connect: times are exact numbers; the connection state changes only through attempts during a call.
- CanCodec.ConvertDown: expressions are given as their value; text and floating-point values as the bytes the library yields.
- CanCodec.ConvertUp: expressions on converted values; texts and floating-point numbers are the library's. A setting other than the key and the kind of item that is missing is part of the unknown type.
- TopicMatching.RegexComparedWithFilter: topics that begin with `$`, which section 4.7.2 of MQTT 3.1.1 treats apart.
- LogBatcher.SendLogs: the client stays connected and sending does not raise; the limit on messages is a precondition, shown necessary by `PassEndsExactly`.
- ObjectIteration.ObjectIterator.constructor: property ids that are neither text nor set nor list.
- ObjectIteration.ReadAll: a stop of the connector; reading errors, after which the slice is skipped.
- ReconnectSupervisor.StopIsForgottenExactly: a loop guard and the supervisor's condition are read field by field, each read being one step, while `stop` is a single step.
- ReconnectSupervisor.ConnectReturnsOnlyIf: exceptions that the retry loop does not catch.
- The path for `ConvertedData`, the report strategies and the concrete storages.
- The table of request timeouts kept by the watchdog loop, and the idle-device check.
- The remote configurator, module loading, updates, the remote shell, certificates, provisioning, statistics, and every protocol's own input and output.
