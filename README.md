# BLE Unity plugin: a verified model of its core logic

This project models the sequential logic of an Android Bluetooth Low Energy
plugin for Unity. The plugin lets a game act as a GATT server, a GATT client
and a scanner. Five classes are modelled:

- `BluetoothServer`: a GATT server. It splits each outgoing message into
  packets of 20 characters, with the text `END_OF_MSG` appended. Incoming
  writes are reassembled in one buffer until that marker appears.
- `BluetoothClient`: a GATT client. It keeps a single link, subscribes to the
  characteristic once services are discovered, and forwards notified values
  to the host. The exact text `DisconnectClient` makes it disconnect.
- `BLEScanner`: a filtered scan. Results go into an address-keyed device map
  and an append-only list of discovered devices.
- `BLEPluginManagerNew`: one singleton holding all three roles. The host picks
  the UUIDs. Messages go both ways unchunked.
- `BLEPluginManager`: the legacy singleton. It forwards client messages as
  `address|text` and accumulates them in `msgFromClient`. Its service discovery
  never disconnects.

Each Java class is a Dafny `class` with the same fields; nullable platform
objects become flags or `Option`s. A ghost `log` records every call into the
Bluetooth stack and every message to the Unity host, in order, as `Action`
values (`Notify`, `Disconnect`, `SendResponse`, `Unity(target, payload)`, ...).
So each method's contract states which calls it makes, in which order, and
that nothing else happens. Each callback is treated as one atomic step.

The pure parts are specified by functions with their own proved properties:

- `Framing` (`framing.dfy`): the packet codec `Chunks`, the sentinel removal
  `RemoveAll`, and the reassembly step `Feed`/`FeedAll`. Its lemmas prove that
  the packets concatenate back to the message and that their count is
  ceil((n + 10) / 20). They also prove that the buffer never keeps a complete
  message, and the round trip: feeding the packets of a message without the
  marker delivers that message exactly once, on the last packet. Three
  concrete lemmas show the codec's limits:
  - a payload holding the marker is cut short;
  - text after the marker joins the delivered message;
  - writes from two centrals merge in the one shared buffer.
- `Platform` (`platform.dfy`): `FanOut`, the notification order of a chunked
  send (packet by packet, each packet to every central in list order).
- `Directory` (`directory.dfy`): the map upsert, `List.remove` of the first
  entry with an address, and the details text.
- `Gatt` (`gatt.dfy`): the service-discovery decision for both variants.

Notable behaviour of the code:

- There is one receive buffer shared by all centrals, not one per peer. It is
  not cleared when a central disconnects or when the server stops.
- Text that follows the marker in the same buffer is not kept for the next
  message. Every marker is removed and the rest, trailing text included, is
  delivered as one message.
- There is no write queue, retry, or in-flight tracking. The client sends one
  unchunked write and the server notifies without waiting.
- Connecting while a link exists is not refused. The new link replaces the old
  one, which is not closed.
- The standalone client does not reassemble. It forwards each packet to the
  host as it is, the marker included. `Client.DisconnectCommandNeverFramed`
  proves that a chunked message can never be mistaken for the disconnect
  command.
- The standalone client's `sendDataToServer` never appends `END_OF_MSG`, so
  the standalone server only accumulates that client's writes and never
  delivers them. `Framing.FeedAllQuiet` states this: writes whose
  concatenation holds no marker deliver nothing and stay buffered.

## Model

| member | source | states |
|---|---|---|
| Platform.NotifyEach | app/src/main/java/com/onlykk/bleunityplugin/BluetoothServer.java:229-231 | one notification per connected central, position i going to central i, none when the list is empty |
| Platform.FanOutLength | app/src/main/java/com/onlykk/bleunityplugin/BluetoothServer.java:223-234 | the whole send makes |packets| * |centrals| notifications |
| Platform.FanOut | app/src/main/java/com/onlykk/bleunityplugin/BluetoothServer.java:223-234 | the notifications of a chunked send: every one is a notification to a connected central carrying one of the packets; FanOutLength and FanOutAt fix their number and order |
| Platform.FanOutSnoc | app/src/main/java/com/onlykk/bleunityplugin/BluetoothServer.java:223-234 | proof step for the send loop (an unfolding of FanOut): one more packet appends one round of notifications after the earlier ones |
| Platform.FanOutAt | app/src/main/java/com/onlykk/bleunityplugin/BluetoothServer.java:223-234 | notification k * |centrals| + i is packet k to central i: packet by packet, each packet to every central in list order before the next |
| Framing.Chunks | app/src/main/java/com/onlykk/bleunityplugin/BluetoothServer.java:219-234 | every packet is non-empty and at most 20 characters; every packet but the last is exactly 20; a non-empty message gives at least one packet |
| Framing.ConcatAppend | app/src/main/java/com/onlykk/bleunityplugin/BluetoothServer.java:168 | Concat, the receive buffer's joining of writes: joining two runs of packets is joining each and appending |
| Framing.ConcatEmpty | app/src/main/java/com/onlykk/bleunityplugin/BluetoothServer.java:168 | Concat: the joined text is empty exactly when every packet is |
| Framing.ChunksConcat | app/src/main/java/com/onlykk/bleunityplugin/BluetoothServer.java:213-233 | the packets concatenated in order give back exactly the string they were cut from |
| Framing.ChunksCountBounds | app/src/main/java/com/onlykk/bleunityplugin/BluetoothServer.java:219-234 | 20 times the packet count is at least the length and less than the length plus 20 |
| Framing.PacketCount | app/src/main/java/com/onlykk/bleunityplugin/BluetoothServer.java:219-234 | a message is sent in ceil((|data| + 10) / 20) packets |
| Framing.ChunkAt | app/src/main/java/com/onlykk/bleunityplugin/BluetoothServer.java:223-225 | packet k is the substring from 20k to min(20(k+1), length), as the loop cuts it |
| Framing.ChunksStep | app/src/main/java/com/onlykk/bleunityplugin/BluetoothServer.java:223-233 | cutting one packet at offset o leaves the packets of the rest from min(o + 20, length) |
| Framing.ChunksAdvance | app/src/main/java/com/onlykk/bleunityplugin/BluetoothServer.java:223-233 | one loop turn extends the packets sent so far by the packet cut at the current offset |
| Framing.ChunksPrefix | app/src/main/java/com/onlykk/bleunityplugin/BluetoothServer.java:223-233 | the packets before packet k spell a proper prefix of the message |
| Framing.OccursContains | app/src/main/java/com/onlykk/bleunityplugin/BluetoothServer.java:173 | Contains, the model of String.contains: an occurrence of the pattern at any index makes it hold |
| Framing.ContainsOccurs | app/src/main/java/com/onlykk/bleunityplugin/BluetoothServer.java:173 | Contains, the model of String.contains: it holds only through an occurrence at some index (with OccursContains, an iff) |
| Framing.ContainsSelf | app/src/main/java/com/onlykk/bleunityplugin/BLEPluginManager.java:362 | every string contains itself, so the address guard of connectToDevice always passes |
| Framing.ContainsExtend | app/src/main/java/com/onlykk/bleunityplugin/BluetoothServer.java:170-173 | once the buffer holds the marker, appending more text keeps it there |
| Framing.RemoveAll | app/src/main/java/com/onlykk/bleunityplugin/BluetoothServer.java:175 | removing every occurrence of the marker never lengthens the text |
| Framing.RemoveAllAbsent | app/src/main/java/com/onlykk/bleunityplugin/BluetoothServer.java:175 | text without the marker is left unchanged by the removal |
| Framing.RemoveAllSplit | app/src/main/java/com/onlykk/bleunityplugin/BluetoothServer.java:175 | when the text before the first marker holds no marker, the removal keeps that text and continues after the marker |
| Framing.Feed | app/src/main/java/com/onlykk/bleunityplugin/BluetoothServer.java:167-183 | after a write the buffer never holds the marker; a message is delivered iff buffer + chunk holds the marker, then the buffer is empty; otherwise the chunk is appended |
| Framing.FeedAll | app/src/main/java/com/onlykk/bleunityplugin/BluetoothServer.java:167-183 | after any non-empty run of writes the buffer holds no marker |
| Framing.FeedAllAppend | app/src/main/java/com/onlykk/bleunityplugin/BluetoothServer.java:167-183 | feeding two runs of writes one after the other is feeding their concatenation; deliveries are concatenated |
| Framing.FeedAllQuiet | app/src/main/java/com/onlykk/bleunityplugin/BluetoothServer.java:167-183 | writes whose concatenation holds no marker deliver nothing and leave exactly that concatenation buffered |
| Framing.EndMarkerHeadUnique | app/src/main/java/com/onlykk/bleunityplugin/BluetoothServer.java:33 | the first character of END_OF_MSG occurs nowhere else in it, so the marker cannot overlap itself |
| Framing.NoEarlyOccurrence | app/src/main/java/com/onlykk/bleunityplugin/BluetoothServer.java:173 | for text without the marker, the appended marker occurs nowhere before its own position |
| Framing.ProperPrefixQuiet | app/src/main/java/com/onlykk/bleunityplugin/BluetoothServer.java:173 | no proper prefix of text + marker holds the marker when the text does not |
| Framing.QuietUntilLast | app/src/main/java/com/onlykk/bleunityplugin/BluetoothServer.java:213-233 | feeding the packets of a marker-free message, every packet but the last only buffers |
| Framing.FeedAllSnoc | app/src/main/java/com/onlykk/bleunityplugin/BluetoothServer.java:167-183 | proof step for the round trip (an unfolding of FeedAll): one more write is one more Feed on the buffer left by the earlier writes |
| Framing.FeedAtMarker | app/src/main/java/com/onlykk/bleunityplugin/BluetoothServer.java:170-182 | the write that brings the first marker into the buffer delivers the text before it plus the text after it with every marker removed, and empties the buffer |
| Framing.CompletingWrite | app/src/main/java/com/onlykk/bleunityplugin/BluetoothServer.java:167-183 | after writes that only buffered, the write that completes text + marker delivers exactly the text and empties the buffer |
| Framing.RoundTripLast | app/src/main/java/com/onlykk/bleunityplugin/BluetoothServer.java:213-233 | feeding all packets of a marker-free message from an empty buffer delivers exactly that message and leaves the buffer empty |
| Framing.RoundTrip | app/src/main/java/com/onlykk/bleunityplugin/BluetoothServer.java:213-233 | feeding the packets of a marker-free message delivers nothing before the last packet and exactly that message on it |
| Framing.FeedAllJoin | app/src/main/java/com/onlykk/bleunityplugin/BluetoothServer.java:167-183 | two runs of writes that each start and end with an empty buffer deliver their messages one run after the other |
| Framing.Frames | app/src/main/java/com/onlykk/bleunityplugin/BluetoothServer.java:204-234 | the packets of several messages sent one after the other: at least one packet per message; StreamRoundTrip is its inverse |
| Framing.StreamRoundTrip | app/src/main/java/com/onlykk/bleunityplugin/BluetoothServer.java:167-233 | a stream of marker-free messages, each sent as its packets, is delivered as the same messages in the same order |
| Framing.TrailingTextJoinsMessage | app/src/main/java/com/onlykk/bleunityplugin/BluetoothServer.java:173-182 | text after the marker in the same write is not kept in the buffer but joins the delivered message |
| Framing.EmbeddedMarkerMisframes | app/src/main/java/com/onlykk/bleunityplugin/BluetoothServer.java:173-179 | HIEND_OF_MSG is delivered as HIEND_OF_M, the first packet with its marker removed, and SG, the rest of the appended marker, stays in the buffer |
| Framing.InterleavedWritersMerge | app/src/main/java/com/onlykk/bleunityplugin/BluetoothServer.java:160-168 | writes from different centrals share one buffer and are delivered as one merged message |
| Directory.Upsert | app/src/main/java/com/onlykk/bleunityplugin/BLEScanner.java:90 | the key set gains exactly the address, which now maps to the latest device; other keys keep their devices; a repeated address adds no key |
| Directory.IndexOfAddress | app/src/main/java/com/onlykk/bleunityplugin/BluetoothServer.java:143 | -1 iff no entry has the address; otherwise the first entry with it |
| Directory.RemoveFirst | app/src/main/java/com/onlykk/bleunityplugin/BluetoothServer.java:143 | unchanged when the address is absent; otherwise exactly the first entry with the address is dropped: earlier entries stay in place and later ones move up by one, in order |
| Directory.DetailLineSplits | app/src/main/java/com/onlykk/bleunityplugin/BLEScanner.java:123 | a details line name + " - " + address splits back at its last '-' into the name text (null for a device without a name) and the address, for an address without '-', even when the name contains " - " |
| Directory.FormatDetails | app/src/main/java/com/onlykk/bleunityplugin/BLEScanner.java:120-126 | same length as the list; line i is name_i + " - " + address_i, a null name printed as null |
| Gatt.ServicesDiscovered | app/src/main/java/com/onlykk/bleunityplugin/BluetoothClient.java:151-176 | failure: nothing; success with service, characteristic or descriptor missing: exactly one disconnect; all present: notification on and descriptor write, no disconnect |
| Gatt.LegacyServicesDiscovered | app/src/main/java/com/onlykk/bleunityplugin/BLEPluginManager.java:395-410 | never disconnects; writes the descriptor iff success and all three are present; turns notification on iff service and characteristic are there |
| Gatt.VariantsAgree | app/src/main/java/com/onlykk/bleunityplugin/BLEPluginManager.java:395-410 | the two service-discovery variants act alike exactly when discovery failed or the peer offers everything |
| Gatt.Teardown | app/src/main/java/com/onlykk/bleunityplugin/BluetoothClient.java:52-59 | no call without a link; with one, only disconnect and close of that peer, the first call the disconnect and the last the close |
| Server.BluetoothServer.constructor | app/src/main/java/com/onlykk/bleunityplugin/BluetoothServer.java:44-47 | no server, empty buffer and list; advertiser as the adapter gives it |
| Server.BluetoothServer.StartServer | app/src/main/java/com/onlykk/bleunityplugin/BluetoothServer.java:52-55 | advertising starts, then the server opens with a value-less characteristic; needs the advertiser |
| Server.BluetoothServer.StartAdvertising | app/src/main/java/com/onlykk/bleunityplugin/BluetoothServer.java:77-91 | one advertising start for the service UUID |
| Server.BluetoothServer.SetupGattServer | app/src/main/java/com/onlykk/bleunityplugin/BluetoothServer.java:114-126 | a server is open with a fresh characteristic that has no value |
| Server.BluetoothServer.StopServer | app/src/main/java/com/onlykk/bleunityplugin/BluetoothServer.java:62-69 | server closed and advertiser dropped (each only if present), list empty; the receive buffer is untouched |
| Server.BluetoothServer.StopGattServer | app/src/main/java/com/onlykk/bleunityplugin/BluetoothServer.java:246-260 | closes an open server; on no server it is a no-op |
| Server.BluetoothServer.StopAdvertising | app/src/main/java/com/onlykk/bleunityplugin/BluetoothServer.java:267-272 | stops advertising once and drops the advertiser |
| Server.BluetoothServer.ResetServer | app/src/main/java/com/onlykk/bleunityplugin/BluetoothServer.java:300-303 | the connected list is empty |
| Server.BluetoothServer.OnConnectionStateChange | app/src/main/java/com/onlykk/bleunityplugin/BluetoothServer.java:135-147 | connect appends the central; disconnect removes its first entry; other states change nothing; the host is told of each |
| Server.BluetoothServer.OnCharacteristicReadRequest | app/src/main/java/com/onlykk/bleunityplugin/BluetoothServer.java:152-158 | a read of the configured characteristic is answered with the stored value; other reads get nothing |
| Server.BluetoothServer.OnCharacteristicWriteRequest | app/src/main/java/com/onlykk/bleunityplugin/BluetoothServer.java:163-190 | keeps the buffer free of the marker; buffer and delivery follow Feed; the echo with the same offset and value is sent iff a response is needed; other characteristics change nothing |
| Server.BluetoothServer.SendDataToClient | app/src/main/java/com/onlykk/bleunityplugin/BluetoothServer.java:204-237 | no server or empty data: nothing; otherwise the packets of data + marker are notified as FanOut and the stored value is the last packet |
| Server.BluetoothServer.SendPackets | app/src/main/java/com/onlykk/bleunityplugin/BluetoothServer.java:219-234 | the loop sends exactly the packets of its string, in order, to every central, leaving the last packet stored |
| Server.BluetoothServer.NotifyAll | app/src/main/java/com/onlykk/bleunityplugin/BluetoothServer.java:229-231 | one notification per connected central, in list order |
| Client.BluetoothClient.constructor | app/src/main/java/com/onlykk/bleunityplugin/BluetoothClient.java:43-45 | no link, empty device map |
| Client.BluetoothClient.StopClient | app/src/main/java/com/onlykk/bleunityplugin/BluetoothClient.java:51-65 | no link afterwards; with a link: exactly disconnect then close of that peer are added to the call log, map emptied, device cleared; without one nothing changes, so a second call is a no-op |
| Client.BluetoothClient.SendDataToServer | app/src/main/java/com/onlykk/bleunityplugin/BluetoothClient.java:74-82 | no link or empty data: nothing; otherwise exactly one write of the whole text |
| Client.BluetoothClient.ConnectToDevice | app/src/main/java/com/onlykk/bleunityplugin/BluetoothClient.java:105-114 | a link and the connected device are set iff the address is a key of the device map; otherwise nothing changes |
| Client.BluetoothClient.OnConnectionStateChange | app/src/main/java/com/onlykk/bleunityplugin/BluetoothClient.java:122-147 | exactly one of connected, disconnected, other; only connected starts service discovery |
| Client.BluetoothClient.OnServicesDiscovered | app/src/main/java/com/onlykk/bleunityplugin/BluetoothClient.java:151-176 | the platform calls are those of ServicesDiscovered |
| Client.BluetoothClient.OnCharacteristicChanged | app/src/main/java/com/onlykk/bleunityplugin/BluetoothClient.java:179-193 | DisconnectClient stops the client then reports the peer disconnected; any other text is forwarded unchanged; other characteristics are ignored |
| Client.DisconnectCommandNeverFramed | app/src/main/java/com/onlykk/bleunityplugin/BluetoothClient.java:182 | no packet cut by the standalone server equals DisconnectClient, so a chunked message never makes the client disconnect |
| Scanner.BleScanner.constructor | app/src/main/java/com/onlykk/bleunityplugin/BLEScanner.java:32-34 | not scanning, empty list and map |
| Scanner.BleScanner.StartScan | app/src/main/java/com/onlykk/bleunityplugin/BLEScanner.java:39-44 | with a scanner: list cleared, scanning, scan started and reported; the map survives; without one nothing changes |
| Scanner.BleScanner.ScanLeDevice | app/src/main/java/com/onlykk/bleunityplugin/BLEScanner.java:50-64 | scanning flag set, scan for the service started, host told |
| Scanner.BleScanner.StopScan | app/src/main/java/com/onlykk/bleunityplugin/BLEScanner.java:70-75 | acts only when scanning with a scanner and then clears the flag, so a repeat is a no-op |
| Scanner.BleScanner.OnScanResult | app/src/main/java/com/onlykk/bleunityplugin/BLEScanner.java:83-96 | map upserted by address, one entry appended to the list, host told |
| Scanner.BleScanner.OnScanFailed | app/src/main/java/com/onlykk/bleunityplugin/BLEScanner.java:104-110 | only reports the code: map, list and flag unchanged |
| Scanner.BleScanner.GetDiscoveredDeviceDetails | app/src/main/java/com/onlykk/bleunityplugin/BLEScanner.java:120-126 | one name - address line per discovered device, same order |
| ManagerNew.BlePluginManagerNew.constructor | app/src/main/java/com/onlykk/bleunityplugin/BLEPluginManagerNew.java:94-111 | with an adapter the host's UUIDs are taken and scanner and advertiser fetched; without one the defaults stay and neither exists |
| ManagerNew.BlePluginManagerNew.StartScan | app/src/main/java/com/onlykk/bleunityplugin/BLEPluginManagerNew.java:199-204 | with a scanner: only the list is cleared and a scan starts; without one nothing changes |
| ManagerNew.BlePluginManagerNew.ScanLeDevice | app/src/main/java/com/onlykk/bleunityplugin/BLEPluginManagerNew.java:211-228 | starts the filtered scan or stops it; the flag follows the argument |
| ManagerNew.BlePluginManagerNew.StopScan | app/src/main/java/com/onlykk/bleunityplugin/BLEPluginManagerNew.java:234-237 | flag cleared and the scan stopped, unconditionally |
| ManagerNew.BlePluginManagerNew.OnScanResult | app/src/main/java/com/onlykk/bleunityplugin/BLEPluginManagerNew.java:245-258 | map upserted by address, one entry appended, host told |
| ManagerNew.BlePluginManagerNew.OnScanFailed | app/src/main/java/com/onlykk/bleunityplugin/BLEPluginManagerNew.java:267-272 | only reports the code |
| ManagerNew.BlePluginManagerNew.GetDiscoveredDeviceDetails | app/src/main/java/com/onlykk/bleunityplugin/BLEPluginManagerNew.java:399-405 | one name - address line per discovered device, same order |
| ManagerNew.BlePluginManagerNew.StartServer | app/src/main/java/com/onlykk/bleunityplugin/BLEPluginManagerNew.java:294-297 | the server opens before advertising starts |
| ManagerNew.BlePluginManagerNew.SetupGattServer | app/src/main/java/com/onlykk/bleunityplugin/BLEPluginManagerNew.java:452-464 | a server is open with a value-less characteristic on the configured UUIDs |
| ManagerNew.BlePluginManagerNew.StartAdvertising | app/src/main/java/com/onlykk/bleunityplugin/BLEPluginManagerNew.java:415-429 | one advertising start for the configured service |
| ManagerNew.BlePluginManagerNew.StopServer | app/src/main/java/com/onlykk/bleunityplugin/BLEPluginManagerNew.java:303-312 | advertiser dropped and server closed (each only if present), device map and connected list empty |
| ManagerNew.BlePluginManagerNew.StopGattServer | app/src/main/java/com/onlykk/bleunityplugin/BLEPluginManagerNew.java:318-332 | closes an open server; no-op otherwise |
| ManagerNew.BlePluginManagerNew.StopAdvertising | app/src/main/java/com/onlykk/bleunityplugin/BLEPluginManagerNew.java:387-392 | stops advertising once and drops the advertiser |
| ManagerNew.BlePluginManagerNew.OnServerConnectionStateChange | app/src/main/java/com/onlykk/bleunityplugin/BLEPluginManagerNew.java:471-483 | connect appends, disconnect removes the first entry, other states change nothing |
| ManagerNew.BlePluginManagerNew.OnCharacteristicReadRequest | app/src/main/java/com/onlykk/bleunityplugin/BLEPluginManagerNew.java:488-493 | a read of the configured characteristic is answered with the stored value |
| ManagerNew.BlePluginManagerNew.OnCharacteristicWriteRequest | app/src/main/java/com/onlykk/bleunityplugin/BLEPluginManagerNew.java:497-510 | the value is stored, echoed iff a response is needed, and forwarded unchanged with no reassembly |
| ManagerNew.BlePluginManagerNew.SendDataToClient | app/src/main/java/com/onlykk/bleunityplugin/BLEPluginManagerNew.java:520-536 | no server or empty data: nothing; otherwise the whole text stored once and notified to each central exactly once, in order |
| ManagerNew.BlePluginManagerNew.SendDataToServer | app/src/main/java/com/onlykk/bleunityplugin/BLEPluginManagerNew.java:543-551 | no link or empty data: nothing; otherwise one write of the whole text |
| ManagerNew.BlePluginManagerNew.ConnectToDevice | app/src/main/java/com/onlykk/bleunityplugin/BLEPluginManagerNew.java:580-589 | link and device change iff the address is a key of the device map |
| ManagerNew.BlePluginManagerNew.StopClient | app/src/main/java/com/onlykk/bleunityplugin/BLEPluginManagerNew.java:338-352 | no-op without a link; otherwise exactly disconnect then close of the linked peer are logged, link and device cleared, device map and the server's connected list emptied |
| ManagerNew.BlePluginManagerNew.OnClientConnectionStateChange | app/src/main/java/com/onlykk/bleunityplugin/BLEPluginManagerNew.java:598-623 | exactly one of connected, disconnected, other; only connected starts service discovery |
| ManagerNew.BlePluginManagerNew.OnServicesDiscovered | app/src/main/java/com/onlykk/bleunityplugin/BLEPluginManagerNew.java:627-652 | the platform calls are those of ServicesDiscovered |
| ManagerNew.BlePluginManagerNew.OnCharacteristicChanged | app/src/main/java/com/onlykk/bleunityplugin/BLEPluginManagerNew.java:655-669 | DisconnectClient stops the client (also emptying the connected list) then reports; other text forwarded; other characteristics ignored |
| ManagerLegacy.ClientMessage | app/src/main/java/com/onlykk/bleunityplugin/BLEPluginManager.java:290 | the forwarded text: the address, then one '|', then the client's text; ClientMessageSplits is its inverse |
| ManagerLegacy.FirstIndex | app/src/main/java/com/onlykk/bleunityplugin/BLEPluginManager.java:290 | the first position of a character, or the length when absent |
| ManagerLegacy.ClientMessageSplits | app/src/main/java/com/onlykk/bleunityplugin/BLEPluginManager.java:290 | for an address without '|', the forwarded address|text splits at its first '|' into exactly the address and the text |
| ManagerLegacy.BlePluginManager.constructor | app/src/main/java/com/onlykk/bleunityplugin/BLEPluginManager.java:84-97 | scanner and advertiser only with an adapter; msgFromClient starts as Client EPT : |
| ManagerLegacy.BlePluginManager.StartScan | app/src/main/java/com/onlykk/bleunityplugin/BLEPluginManager.java:132-134 | scan started with no clearing of the list or the map |
| ManagerLegacy.BlePluginManager.ScanLeDevice | app/src/main/java/com/onlykk/bleunityplugin/BLEPluginManager.java:299-316 | starts the filtered scan or stops it; the flag follows the argument |
| ManagerLegacy.BlePluginManager.StopScan | app/src/main/java/com/onlykk/bleunityplugin/BLEPluginManager.java:319-322 | flag cleared and the scan stopped, unconditionally |
| ManagerLegacy.BlePluginManager.OnScanResult | app/src/main/java/com/onlykk/bleunityplugin/BLEPluginManager.java:329-343 | map upserted by address, one entry appended, host sent the name - address text |
| ManagerLegacy.BlePluginManager.OnScanFailed | app/src/main/java/com/onlykk/bleunityplugin/BLEPluginManager.java:352-357 | only reports the code |
| ManagerLegacy.BlePluginManager.GetDiscoveredDeviceDetails | app/src/main/java/com/onlykk/bleunityplugin/BLEPluginManager.java:166-172 | one name - address line per discovered device, same order |
| ManagerLegacy.BlePluginManager.StartServer | app/src/main/java/com/onlykk/bleunityplugin/BLEPluginManager.java:136-139 | the server opens before advertising starts |
| ManagerLegacy.BlePluginManager.SetupGattServer | app/src/main/java/com/onlykk/bleunityplugin/BLEPluginManager.java:238-250 | a server is open with a value-less characteristic |
| ManagerLegacy.BlePluginManager.StartAdvertising | app/src/main/java/com/onlykk/bleunityplugin/BLEPluginManager.java:203-217 | one advertising start for the service |
| ManagerLegacy.BlePluginManager.StopServer | app/src/main/java/com/onlykk/bleunityplugin/BLEPluginManager.java:141-144 | advertiser dropped and server closed; connectedDevices is not cleared |
| ManagerLegacy.BlePluginManager.StopGattServer | app/src/main/java/com/onlykk/bleunityplugin/BLEPluginManager.java:147-156 | closes an open server; no-op otherwise |
| ManagerLegacy.BlePluginManager.StopAdvertising | app/src/main/java/com/onlykk/bleunityplugin/BLEPluginManager.java:159-164 | stops advertising once and drops the advertiser |
| ManagerLegacy.BlePluginManager.OnServerConnectionStateChange | app/src/main/java/com/onlykk/bleunityplugin/BLEPluginManager.java:254-269 | connect appends, disconnect removes the first entry, the host gets the address |
| ManagerLegacy.BlePluginManager.OnCharacteristicReadRequest | app/src/main/java/com/onlykk/bleunityplugin/BLEPluginManager.java:273-278 | a read of the configured characteristic is answered with the stored value |
| ManagerLegacy.BlePluginManager.OnCharacteristicWriteRequest | app/src/main/java/com/onlykk/bleunityplugin/BLEPluginManager.java:282-295 | value stored and echoed iff a response is needed; msgFromClient only grows, by exactly the text; the host gets address|text |
| ManagerLegacy.BlePluginManager.SendDataToClient | app/src/main/java/com/onlykk/bleunityplugin/BLEPluginManager.java:175-189 | no server or empty data: nothing; otherwise the whole text stored once and notified to each central once |
| ManagerLegacy.BlePluginManager.SendDataToServer | app/src/main/java/com/onlykk/bleunityplugin/BLEPluginManager.java:192-200 | no link or empty data: nothing; otherwise one write of the whole text |
| ManagerLegacy.BlePluginManager.ConnectToDevice | app/src/main/java/com/onlykk/bleunityplugin/BLEPluginManager.java:361-369 | the guard always holds and its else branch is unreachable; a link opens iff the address is known, otherwise the null device throws and nothing changes |
| ManagerLegacy.BlePluginManager.OnClientConnectionStateChange | app/src/main/java/com/onlykk/bleunityplugin/BLEPluginManager.java:374-391 | connected starts service discovery and reports the address; disconnected reports it; other states do nothing |
| ManagerLegacy.BlePluginManager.OnServicesDiscovered | app/src/main/java/com/onlykk/bleunityplugin/BLEPluginManager.java:395-410 | the platform calls are those of LegacyServicesDiscovered |
| ManagerLegacy.BlePluginManager.OnCharacteristicChanged | app/src/main/java/com/onlykk/bleunityplugin/BLEPluginManager.java:413-420 | every change of the configured characteristic is forwarded; there is no control text |

## Left out

- Android platform objects are not modelled: advertising and scan settings and filters, the advertising callbacks, `onBatchScanResults` (empty) and `onMtuChanged` (it only logs). Each of them appears only as an `Action` in the log.
- `Utils.getDeviceJson` and the manager's private copy are not modelled. They wrap `org.json`, and the JSON text is represented by the abstract payload `DeviceItem(device)`.
- UTF-8 encoding is not modelled, and byte sizes are not claimed. Text is `seq<char>`, a sequence of Unicode scalar values, while Java's `String.length` and `substring` count UTF-16 units.
- Framing.Chunks: the chunk boundaries, and with them `RoundTrip` and `StreamRoundTrip`, are modelled for text inside the Basic Multilingual Plane only. For other text, Java cuts its 20-unit packets elsewhere and can split a surrogate pair across two packets, which `getBytes` then encodes as '?', so the Java round trip can fail there.
- Concurrency is not modelled. Callbacks can arrive on platform threads, and the model runs each one as a single sequential step.
- `BluetoothStateReceiver`, `disconnectAllClients` and `hasRequiredServiceAndCharacteristic` are not modelled: the first is an intent switch with no logic, and the other two are never called.
- Adapter and host utilities are not modelled: `enableBluetoothAdapter`, `enable`/`disableBluetoothStateReceiver`, `getBluetoothDeviceName`, `isBluetoothSupported`, `isBluetoothEnabled`, `checkPluginLoad`, and the legacy getters and test callbacks. They only query the adapter or talk to the host.
- The singleton `getInstance` is folded into each manager's constructor, together with `initBLEPlugin`.
- Logging is not modelled, and neither is the unused `uniqueDeviceAddresses` set.
- `getService(...).getCharacteristic(...)` in the send paths is assumed to find the plugin's own service. A null there would throw.
- The characteristic's current value is taken to be the notified `value` argument; the Java code reads `characteristic.getValue()`.
- Client.BluetoothClient.ConnectToDevice: nothing in this class ever inserts into `deviceMap`, so the method can only succeed on a map that the class never builds.
- Server.BluetoothServer.StartServer: requires the advertiser. After `stopServer` the advertiser is null, and a restart throws before the server opens. The throw is not modelled.
- Server.BluetoothServer.StartAdvertising: requires the advertiser. The method is public, and after `stopServer` the advertiser is null, so a direct call throws. The throw is not modelled.
- ManagerNew.BlePluginManagerNew.StartServer: requires the advertiser. Without it the server opens and then advertising throws; the half-started state is not modelled.
- ManagerLegacy.BlePluginManager.StartServer: requires the advertiser, for the same reason as the merged manager.
- ManagerNew.BlePluginManagerNew.StopScan: requires a scanner, because the Java code does not check for one and would throw. The same holds for `ScanLeDevice`.
- ManagerLegacy.BlePluginManager.StartScan: requires a scanner, because the Java code does not check for one and would throw. The same holds for `ScanLeDevice` and `StopScan`.
- Client.BluetoothClient.OnConnectionStateChange: requires a link in the connected case, because the callback calls `discoverServices` on the field. The same holds for both managers' `OnClientConnectionStateChange`.
- Server.BluetoothServer.OnCharacteristicWriteRequest: requires an open server when a response is needed, because the response goes through the server field. The same holds for the read handlers and for both managers' write handlers.
- ManagerLegacy.BlePluginManager.ConnectToDevice: an unknown address makes `connectGatt` throw on the null device. The model returns `linked == false` with nothing changed, instead of an exception.
