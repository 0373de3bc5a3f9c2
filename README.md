# SoftMine-PE network core and player visibility, in Dafny

A model of three parts of the SoftMine-PE Minecraft: Pocket Edition server.
Each part comes with proofs about it.

- **The network manager** (`Network`):
  - a 256-slot packet registry; a registration overwrites its slot, and a lookup hands out a clone or null;
  - the upload and download byte counters;
  - the maps of registered interfaces and of advanced interfaces, kept in step;
  - pushing the server name to every interface;
  - `processInterfaces`, which shuts down and unregisters every interface whose `process` throws;
  - `processBatch`, which splits the decompressed payload of a batch packet into `[4-byte length][entry]` records and hands every registered packet to the player.
- **The AddEntityPacket encoder**:
  - after `reset`, it appends the entity id (long) and the type (int);
  - then eight floats, the metadata bytes and a 16-bit link count;
  - then 17 bytes per link.
- **Player visibility**:
  - the hidden-players map, keyed by raw unique id, and `canSee`/`hidePlayer`;
  - the conditions `spawnTo` checks before showing a player to another one;
  - the allow-flight, auto-jump and remove-format settings;
  - the initial values of the player's fields.

Files:

- `wire.dfy`: fixed-width big-endian integers and PHP's `substr`.
- `php.dfy`: PHP's `(bool)` cast and nullable values.
- `protocol.dfy`: the packet objects, the AddEntityPacket layout and a reference reader for it.
- `batch.dfy`: `Run`, the meaning of the batch loop as a function of the remaining bytes, with its lemmas.
- `network.dfy`: the `Network` class.
- `player.dfy`: the `Player` class.

Objects the source updates in place are classes; the methods that change them state their new state in terms of the old one.

- `Network.ProcessBatch` is a `while` loop over the offset. It is proved to produce exactly the dispatches and the stop reason that `Run` gives for the payload.
- `AddEntityPacket.Encode` is proved to leave the reset bytes followed by `Body` of the packet's fields. A separate reader, `ParseBody`, is proved to recover every field from `Body`.

A decode error does not skip just the one sub-packet, as a description of the protocol might suggest. The `try` encloses the whole loop (`Network.php:213-242`), so any exception ends the batch. The model follows the code (`DecodeError`, `HandlerError`).

## Model

| member | source | states |
|---|---|---|
| Wire.WriteBE | src/softmine/network/protocol/AddEntityPacket.php:34-50 | a field of width n is exactly n bytes |
| Wire.ReadWriteBE | src/softmine/network/protocol/AddEntityPacket.php:34-50 | reading back a big-endian field gives the value modulo 256^n, so a value too wide for its field wraps around |
| Wire.ReadSignedWriteBE | src/softmine/network/protocol/AddEntityPacket.php:34-35 | a long or int that fits its signed width reads back unchanged |
| Wire.ReadUnsignedWriteBE | src/softmine/network/protocol/AddEntityPacket.php:36-46 | a float bit pattern, a count or a byte that fits its width reads back unchanged |
| Wire.ReadInt | src/softmine/network/Network.php:215 | a length header is a signed 32-bit value, between -2^31 and 2^31 - 1 |
| Wire.ReadIntSigned | src/softmine/network/Network.php:215 | the length header is the two's-complement big-endian value of its four bytes |
| Wire.Substr | src/softmine/network/Network.php:215-218 | substr yields at most `length` bytes: exactly the slice when it lies inside the string, otherwise whatever remains from start |
| Protocol.DataPacket.constructor | src/softmine/network/Network.php:202 | `new $class` makes a packet of that class with an empty stream at offset 0 |
| Protocol.DataPacket.Clone | src/softmine/network/Network.php:252-254 | a clone has the prototype's class, buffer and offset |
| Protocol.DataPacket.SetBuffer | src/softmine/network/Network.php:226 | setBuffer replaces the buffer and the read offset |
| Protocol.LinkBytes | src/softmine/network/protocol/AddEntityPacket.php:48-50 | a link is 17 bytes: long, long, byte |
| Protocol.LinksBytes | src/softmine/network/protocol/AddEntityPacket.php:47-51 | the links take 17 bytes each |
| Protocol.LinksBytesPrefix | src/softmine/network/protocol/AddEntityPacket.php:47-51 | each pass of the foreach appends exactly that link's bytes, in iteration order |
| Protocol.HeadBytes | src/softmine/network/protocol/AddEntityPacket.php:34-43 | eid, type and the eight floats take 44 bytes |
| Protocol.Body | src/softmine/network/protocol/AddEntityPacket.php:33-51 | what encode appends after reset; its length is 8 + 4 + 8*4 + metadata length + 2 + 17 * link count |
| Protocol.NoLinksBody | src/softmine/network/protocol/AddEntityPacket.php:26-47 | with no links the encoding ends with the count 0 and nothing after it |
| Protocol.CountField | src/softmine/network/protocol/AddEntityPacket.php:46 | the short after the metadata is the number of links, modulo 65536 |
| Protocol.ParseLinks | src/softmine/network/protocol/AddEntityPacket.php:47-51 | the reference reader yields one link per 17 bytes |
| Protocol.FloatRoundTrip | src/softmine/network/protocol/AddEntityPacket.php:36-43 | the four bytes putFloat writes read back as the same 32-bit pattern |
| Protocol.ParseHead | src/softmine/network/protocol/AddEntityPacket.php:34-43 | reading the 44 fixed bytes keeps the given metadata and links |
| Protocol.ParseBody | src/softmine/network/protocol/AddEntityPacket.php:34-51 | a successful read accounts for every byte: 44 + metadata + 2 + 17 per link |
| Protocol.LinkRoundTrip | src/softmine/network/protocol/AddEntityPacket.php:48-50 | a link in range reads back from its 17 bytes unchanged |
| Protocol.LinksRoundTrip | src/softmine/network/protocol/AddEntityPacket.php:47-51 | the links read back in the order they were written |
| Protocol.HeadRoundTrip | src/softmine/network/protocol/AddEntityPacket.php:34-43 | eid, type and the eight floats read back in their fixed order |
| Protocol.BodyRoundTrip | src/softmine/network/protocol/AddEntityPacket.php:32-52 | every field of an in-range packet reads back from the encoding: the layout is fixed and nothing is lost |
| Protocol.AddEntityPacket.constructor | src/softmine/network/protocol/AddEntityPacket.php:15-26 | a new packet has empty links and an empty stream |
| Protocol.AddEntityPacket.Reset | src/softmine/network/protocol/AddEntityPacket.php:33 | reset leaves the reset bytes at offset 0 |
| Protocol.AddEntityPacket.Put | src/softmine/network/protocol/AddEntityPacket.php:45 | put appends the bytes as given |
| Protocol.AddEntityPacket.PutLong | src/softmine/network/protocol/AddEntityPacket.php:34 | putLong appends 8 big-endian bytes |
| Protocol.AddEntityPacket.PutInt | src/softmine/network/protocol/AddEntityPacket.php:35 | putInt appends 4 big-endian bytes |
| Protocol.AddEntityPacket.PutFloat | src/softmine/network/protocol/AddEntityPacket.php:36-43 | putFloat appends the 4-byte pattern |
| Protocol.AddEntityPacket.PutShort | src/softmine/network/protocol/AddEntityPacket.php:46 | putShort appends 2 big-endian bytes |
| Protocol.AddEntityPacket.PutByte | src/softmine/network/protocol/AddEntityPacket.php:50 | putByte appends 1 byte |
| Protocol.AddEntityPacket.Decode | src/softmine/network/protocol/AddEntityPacket.php:28-30 | decode changes nothing |
| Protocol.AddEntityPacket.Encode | src/softmine/network/protocol/AddEntityPacket.php:32-52 | encode leaves the reset bytes followed by Body of the current fields, whatever the buffer held before, so encoding twice gives the same buffer; only buffer and offset change |
| Protocol.AddEntityPacket.PutHead | src/softmine/network/protocol/AddEntityPacket.php:34-43 | the ten fixed fields are appended in source order |
| Protocol.AddEntityPacket.PutLinks | src/softmine/network/protocol/AddEntityPacket.php:47-51 | the foreach appends every link in order |
| Protocol.AddEntityPacket.PutLink | src/softmine/network/protocol/AddEntityPacket.php:48-50 | one link is appended as long, long, byte |
| Batch.Next | src/softmine/network/Network.php:216-219 | the next entry starts after the header and the entry, never past the end |
| Batch.Run | src/softmine/network/Network.php:213-243 | the batch loop as a function of the remaining bytes; every dispatched packet used at least six of them |
| Batch.RunAccepted | src/softmine/network/Network.php:221-229 | every dispatched packet came from a registered slot, is not a batch, has at least two bytes, was read from offset 2 of its entry and decoded without an exception |
| Batch.Entry | src/softmine/network/Network.php:215-219 | a framed entry is its 4-byte length followed by its bytes |
| Batch.EntryStep | src/softmine/network/Network.php:215-219 | the loop reads back a framed entry's length, its bytes and the rest exactly |
| Batch.EntryHeaders | src/softmine/network/Network.php:215 | framing an entry in front keeps every header non-negative |
| Batch.FrameHeaders | src/softmine/network/Network.php:214-219 | a framed payload has only non-negative headers |
| Batch.UnknownSkipped | src/softmine/network/Network.php:221 | an entry whose id has no registered packet is skipped and the loop goes on |
| Batch.HandledContinues | src/softmine/network/Network.php:221-234 | a registered, non-batch entry handled with a positive offset is dispatched and the loop goes on |
| Batch.EntryStops | src/softmine/network/Network.php:221-242 | a nested batch, a decode error, a handler error or an offset <= 0 ends the batch; nothing after that entry is dispatched |
| Batch.ShortEntryStops | src/softmine/network/Network.php:221 | an entry shorter than two bytes ends the batch |
| Batch.Dispatches | src/softmine/network/Network.php:221-229 | at most one dispatch per entry |
| Batch.PassStep | src/softmine/network/Network.php:214-234 | one passing entry in front contributes its dispatch, if any, and the loop goes on |
| Batch.PrefixKept | src/softmine/network/Network.php:214-242 | the packets dispatched before a stopping entry stay dispatched, in order |
| Batch.FrameRoundTrip | src/softmine/network/Network.php:214-235 | splitting a framed payload dispatches the registered entries in framing order and runs to the end |
| Net.SourceInterface.constructor | src/softmine/network/Network.php:158-165 | a new interface has no name, no network and is not shut down |
| Net.SourceInterface.SetName | src/softmine/network/Network.php:164 | the interface records the name it was told |
| Net.SourceInterface.SetNetwork | src/softmine/network/Network.php:162 | the interface records the network it was attached to |
| Net.SourceInterface.EmergencyShutdown | src/softmine/network/Network.php:148 | the interface records that it was shut down |
| Net.Surviving | src/softmine/network/Network.php:138-153 | an interface stays exactly when its process does not throw, under the same key |
| Net.KeptAll | src/softmine/network/Network.php:139 | once the loop has visited every key, what it kept is what survives |
| Net.Without | src/softmine/network/Network.php:171-172 | unset removes the key and keeps every other one |
| Net.AfterRegistrations | src/softmine/network/Network.php:283-335 | the registered ids after the registrations are the ids registered before plus every id the table names |
| Net.NeverRegistered | src/softmine/network/Network.php:283-335 | an id no registration names keeps what it had |
| Net.LastRegistrationWins | src/softmine/network/Network.php:201-203 | the last registration of an id decides its slot |
| Net.Network.constructor | src/softmine/network/Network.php:84-111 | a new network has zero counters, no interfaces and the registry the registrations leave |
| Net.Network.RegisterPackets | src/softmine/network/Network.php:283-335 | the registry after registerPackets is the table's registrations applied in order |
| Net.Network.RegisterPacket | src/softmine/network/Network.php:201-203 | the slot holds a new instance of the class; every other slot is unchanged |
| Net.Network.GetPacket | src/softmine/network/Network.php:250-257 | null exactly for an empty slot, else a fresh clone of the prototype |
| Net.Network.AddStatistics | src/softmine/network/Network.php:113-116 | upload grows by exactly the upload, download by exactly the download |
| Net.Network.GetUpload | src/softmine/network/Network.php:118-120 | returns the current upload count |
| Net.Network.GetDownload | src/softmine/network/Network.php:122-124 | returns the current download count |
| Net.Network.ResetStatistics | src/softmine/network/Network.php:126-129 | both counters become 0 |
| Net.Network.RegisterInterface | src/softmine/network/Network.php:158-165 | the interface is stored under its hash, and in the advanced map when advanced; it is told the current name; the maps stay consistent |
| Net.Network.UnregisterInterface | src/softmine/network/Network.php:170-173 | the hash leaves both maps, and every other entry stays |
| Net.Network.SetName | src/softmine/network/Network.php:180-185 | afterwards every registered interface has the new name |
| Net.Network.UpdateName | src/softmine/network/Network.php:191-195 | afterwards every registered interface has the current name |
| Net.Network.ProcessInterfaces | src/softmine/network/Network.php:138-153 | an interface whose process throws is shut down and removed from both maps; the others stay registered and keep the shut-down flag they had |
| Net.Network.ProcessOne | src/softmine/network/Network.php:140-151 | one pass drops the interface from both maps exactly when it throws |
| Net.Network.ProcessBatch | src/softmine/network/Network.php:209-243 | the packets handed to the player and the reason the loop ended are exactly Run's |
| Net.Network.ProcessEntry | src/softmine/network/Network.php:215-233 | one pass either ends the batch as Run does, or sets the offset to offset + 4 + the header's value and continues as Run does |
| Net.Remaining | src/softmine/network/Network.php:214 | the bytes from the offset on |
| Net.CursorStep | src/softmine/network/Network.php:215-219 | reading at an offset of the payload is reading at the start of the remaining bytes |
| Net.EntryAt | src/softmine/network/Network.php:215-233 | what Run does with the entry at the offset, case by case, as the loop computes it |
| Net.NegativeHeaderRewinds | src/softmine/network/Network.php:214-219 | a header of -4 at offset 0 brings the offset back to 0, so the loop as written reads the same bytes again |
| Players.Hiding | src/softmine/Player.php:359-363 | hiding another player stores it under its raw id and touches no other id |
| Players.HidingSelf | src/softmine/Player.php:360-362 | hiding oneself leaves the map as it was |
| Players.HidingTwice | src/softmine/Player.php:363 | hiding twice, or hiding another object with the same raw id, leaves one entry for that id |
| Players.Player.constructor | src/softmine/Player.php:153-235 | the declared initial values: not spawned or logged in, two windows and two messages counted, no hidden players, auto-jump on, flight off |
| Php.ToBool | src/softmine/Player.php:299-302 | the `(bool)` cast is false exactly for null, false, 0, "" and "0" |
| Players.Player.GetAllowFlight | src/softmine/Player.php:304-306 | returns the stored flight flag |
| Players.Player.SetAllowFlight | src/softmine/Player.php:299-306 | getAllowFlight then returns the value cast to bool, and the settings are sent |
| Players.Player.SetAutoJump | src/softmine/Player.php:308-315 | hasAutoJump then returns the value as given, with no cast, and the settings are sent |
| Players.Player.HasAutoJump | src/softmine/Player.php:313-315 | returns the stored auto-jump value as it was given |
| Players.Player.GetRemoveFormat | src/softmine/Player.php:336-338 | returns the stored remove-format flag |
| Players.Player.SetRemoveFormat | src/softmine/Player.php:336-345 | getRemoveFormat then returns the value cast to bool; with no argument, true |
| Players.Player.CanSee | src/softmine/Player.php:352-354 | a player is seen exactly when no hidden entry has its raw unique id; with nothing hidden, every player is seen |
| Players.Player.CanSeeById | src/softmine/Player.php:352-354 | canSee depends only on the raw unique id asked about |
| Players.Player.HidePlayer | src/softmine/Player.php:359-365 | hiding oneself changes nothing; otherwise this player no longer sees the other one, which is despawned from it, while whether the other one sees this player is unchanged |
| Players.Player.MaySpawnTo | src/softmine/Player.php:321 | the spawn gate holds exactly when both are spawned and alive, on the same level, this player's raw id is not hidden by the viewer, and this player is not a spectator |
| Players.Player.SpawnTo | src/softmine/Player.php:320-324 | the spawn happens exactly when both players are spawned and alive, on the same level, the viewer sees this player and this player is not a spectator |

## Left out

- zlib decompression and its 64 MiB cap (`Network.php:210`) are not modelled. `ProcessBatch` takes the decompressed bytes as its input.
- Logging, the translated error messages and the debug dump in the `catch` are I/O.
- `process`, `emergencyShutdown`, `setName` and `setNetwork` of an interface do not run here. The model records the call, or whether `process` throws, as the `failing` set.
- `sendPacket`, `blockAddress`, `getInterfaces`, `getName` and `getServer` only forward to interfaces or return a field, so they are not modelled.
- The 49 calls in `registerPackets` use `ProtocolInfo` constants that are not part of this model. `Net.Network.RegisterPackets` takes the (id, class) pairs as a table. A packet class is represented by its `NETWORK_ID`.
- Net.Network.ProcessBatch requires every length header to be non-negative (`HeadersNonNegative`). As written, a negative header moves the offset backwards and the loop can run forever; see Findings. What `substr` returns for a negative length is not modelled.
- A header shorter than four bytes, and an entry shorter than two bytes read at `$buf{1}`, stop the batch as `Truncated`. The model takes the server's error handler to turn these read errors into exceptions, which the `catch` around the loop absorbs.
- `Binary::readInt`, `Binary::writeMetadata` and the `put*` primitives of `DataPacket` are not part of this model:
  - they are written as fixed-width big-endian appends;
  - floats are their 32-bit patterns, with no IEEE-754 arithmetic;
  - metadata is the bytes its writer produces;
  - what `reset` leaves in the buffer is a constant of the packet.
- Protocol.AddEntityPacket.Encode assumes that eid, type and the links fit their fields for the round trip (`InRange`). Outside that range the bytes wrap, as `ReadWriteBE` states.
- AddEntityPacket is modelled as its own class rather than as a subclass of DataPacket.
- Net.Network.ProcessEntry computes `$offset += 4` and `$offset += $pkLen` as one step.
- Net.Network.AddStatistics uses unbounded integers. In PHP, `+=` past PHP_INT_MAX turns the counter into a float, and float arguments are accepted; neither is modelled.
- Protocol.AddEntityPacket.constructor takes eid, type, the position, the speeds, yaw, pitch and metadata as parameters. `new AddEntityPacket` leaves them null until they are assigned.
- Net.Network.SetName takes a string. The `(string)` cast of other values is not modelled.
- `decode` and `handleDataPacket` of a dispatched packet are the `outcome` parameter of `ProcessBatch`. That parameter gives whether decoding throws, whether handling throws, or else the packet's offset afterwards.
- Net.Network.ProcessBatch: `outcome` is a function of the packet class, the entry's bytes and the read offset only. Player state changed by earlier entries of the same batch is not modelled, so two byte-identical entries in one batch meet the same fate.
- Players.Player.SpawnTo records the entity-level `parent::spawnTo` as a call. What that call sends is not modelled.
- `despawnFrom` is likewise only recorded as a call.
- `isAlive()`, `getLevel()` and `isSpectator()` are defined outside `Player.php`. The model holds them as the fields `alive`, `level` (an identity handle) and `spectator`.
- `getRawUniqueId()` is held as a constant string per player.
- Php.ToBool covers the scalar values null, bool, int and string. The cast of floats, arrays and objects is not modelled.
- The rest of `Player.php` is not modelled:
  - the login and spawn state machine, chunk loading, inventories and windows, and the ban and whitelist calls;
  - everything after `hidePlayer`, where the file ends.
  - `gamemode` is declared without a default; the model holds it as null until one is set.

## Findings

| source | as written | input that shows it | evidently intended | confidence | as-written member | corrected member |
|---|---|---|---|---|---|---|
| src/softmine/network/Network.php:214-219 | the offset moves by `4 + $pkLen` even when the header `$pkLen` is negative | decompressed payload `FF FF FF FC 00 ii 00 00 00 00` with `ii` an unregistered id: the header reads -4, the offset goes 0 → 4 → 0, and the loop reads the same entry again forever | the offset only moves forward, so the loop ends | not executed | Net.NegativeHeaderRewinds | Net.Network.ProcessBatch |

The corrected loop is `Net.Network.ProcessBatch`: it runs on payloads whose every header is non-negative (`Batch.HeadersNonNegative`), which is the case for every payload built by framing entries (`Batch.FrameHeaders`). On those payloads the offset strictly grows, the loop is proved to end, and its result is exactly `Batch.Run`'s.
