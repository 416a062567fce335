# ACpiano session and protocol layer in Dafny

ACpiano is a multiplayer piano played in the browser. Pages connect to a
WebSocket server and join named rooms, where each player gets a seat. The
players press and release keys, move their cursors and chat. The server
relays all of this to the other members of the room. It also checks
everything it receives: rate limits, a note quota, clock windows and room
capacity.

This project models that layer: the server's rooms, seats, ownership, rate
limiting, note quota, chat buffer and opcode dispatch. It also models the
client code that builds and parses the same binary frames. The handlers
run on one event loop, but several of them await the database partway
through, and other events can be handled during such a wait. The model
treats each handler as one sequential state change, as if every database
call completed at once; "## Left out" lists the waits this hides. A `send`
appends a frame to the recipient's outbox.

| module | file | models |
|---|---|---|
| `Wrappers` | wrappers.dfy | `Option` and a sequence-regrouping helper |
| `Codec` | codec.dfy | the little-endian 16/32/64-bit codecs of `byte.js` and the client's `utils.js`, with their round trips |
| `Text` | text.dfy | JavaScript string operations: lower-casing, trimming, splitting, number formatting |
| `Protocol` | protocol.dfy | opcodes, limits and the frame datatype (binary, text or JSON payloads) |
| `State` | state.dfy | the session (the server's `ws` object) and room records, and outboxes |
| `RoomUtil` | room_util.dfy | room-name sanitising and validation, and free seat allocation |
| `Security` | security.dfy | the sliding-window rate limiter, its escalation, and the address shuffle of `hashIP` |
| `Clients` | clients.dfy | the player record and the note quota with its refill and throttled notice |
| `Network` | network.dfy | broadcast to the room but the sender, the system-message frame, `safeClose` |
| `Connections` | connections.dfy | the per-address concurrent-connection counter |
| `Leet` | leet.dfy | `leetPattern`, the chat filter's pattern builder |
| `Piano` | piano.dfy | the press, release and batch handlers |
| `Rooms` | rooms.dfy | room creation, the joiner's frames, room lists and the settings bytes |
| `Cursors` | cursors.dfy | cursor queues and the periodic flush frame |
| `Chat` | chat.dfy | the chat history buffer, message ids, admin commands and the message checks |
| `PianoServer` | server.dfy | the `Server` class: connection, join, leave, ownership handover, chat, settings and `handleMessage` |
| `ClientInput` | client_input.dfy | transposition, the event queue and the frames a page sends |
| `ClientPiano` | client_piano.dfy | the 88-key table, key-code labels and blip expiry |
| `ClientSocket` | client_socket.dfy | the page's `Client` class: the player list and its id cache, and the decoders of `receive` |
| `ClientWorker` | client_worker.dfy | the scheduler worker: ping window, lookahead and timers |
| `Wire` | wire.dfy | end to end: what a page sends, what the server relays, and what other pages decode |

The `Wire` lemmas tie the two ends together:
- A single note arrives at every other page as it was played.
- A batch decodes to its notes in order.
- A cursor flush decodes to exactly the queued samples.
- A saved settings dialog leaves every page showing the room's new settings.

## Behaviour as coded

The model follows the code, including where it departs from the protocol's
documented intent:
- The duplicate-join and room-full checks of JOIN_ROOM look the name up
  with the "/hidden:" prefix still on. `joinRoom` strips it later, so the
  prefix passes both checks on an existing room (`PianoServer.HiddenPrefixBypass`).
  Joining "/hidden:" alone seats the player in a room named "" (`PianoServer.HiddenEmptyName`).
- The rate-limit notice reads an opcode that the constants do not define,
  so its one byte is 0 (`Protocol.RATE_LIMIT_WARNING_BYTE`, `Security.Violation`).
- `handleClose` decrements the per-address counter even for connections
  that were turned away before being counted (`Connections.UncountedCloseFreesSlot`).
- History loaded from the store replaces a persistent room's chat instead
  of merging with it (`PianoServer.Server.HydrateChat`).
- The batch handler charges quota for a press before checking its
  timestamp, and does not refund it when it aborts (`Piano.ChargedBeforeClock`).
- The chat path reads `rooms[ws.roomName]` without checking that the name
  is set. A socket that never joined reads the room named "undefined", and
  one seated in the room "" reads that room (`PianoServer.Server.PostMessage`,
  `PianoServer.Server.ListCmd`, `PianoServer.Server.PurgeCmd`, `PianoServer.Server.DelCmd`).
  The other handlers first require a non-empty room name (`State.Session.HasRoom`).
- Lengths are JavaScript's: room names, chat messages and player names are
  limited in UTF-16 code units, so a character above U+FFFF counts twice
  (`RoomUtil.ValidateCountsUnits`).
- The violation counter starts at 2 on the first refusal, and the third
  refusal closes the socket (`Security.Escalation`).
- `rooms` and `cursorUpdateIntervals` are plain objects, so a room name
  that `Object.prototype` already has reads as present. A room named
  "toString" never starts its cursor flush (`PianoServer.Started`,
  `PianoServer.StartedNeverInherited`). Two more consequences follow from
  reading the code and are not modelled (see "## Left out"): a room named
  "__proto__" is never stored under its key, and once a room named
  "hasOwnProperty" exists, every later `roomExists` call throws.

## Model

| member | source | states |
|---|---|---|
| Codec.Sub | server/src/services/pianoManager.js:105 | a `subarray` window of an in-range [a, b) has b - a bytes, and byte i of the window is byte a + i of the array; ends past the array are clamped |
| Codec.Drop | server/src/handlers/websocketHandlers.js:28-29 | the frame without its first k bytes (k = 1 for the payload after the opcode): the frame's length minus k bytes when k is within the frame, none past it, and byte i is byte k + i of the frame |
| Codec.ToInt32 | server/src/utils/byte.js:9-16 | the 32-bit signed reading of an integer lies in [-2^31, 2^31) |
| Codec.ShortToBytes | server/src/utils/byte.js:5-7 | `shortToBytes` yields exactly two bytes (the same code is client/src/utils.js:125-127) |
| Codec.BytesToShort | server/src/utils/byte.js:1-3 | `bytesToShort` yields an unsigned 16-bit value |
| Codec.IntToBytes | server/src/utils/byte.js:18-25 | `intToBytes` yields exactly four bytes (the same code is client/src/utils.js:103-110) |
| Codec.BytesToInt | server/src/utils/byte.js:9-16 | `bytesToInt` yields a signed 32-bit value, because `<< 24` and the bitwise or work on int32 |
| Codec.LongToBytes | server/src/utils/byte.js:27-38 | `longToBytes` yields exactly eight bytes |
| Codec.BytesToLong | client/src/utils.js:142-153 | `bytesToLong` has a value exactly when eight bytes are present (`BigInt(undefined)` throws) |
| Codec.ValueOfLittleEndian | server/src/utils/byte.js:27-38 | k little-endian bytes of n have k entries and read back as n mod 256^k |
| Codec.LittleEndianOfValue | server/src/utils/byte.js:9-16 | re-encoding the value of a byte string gives the same bytes |
| Codec.LittleEndianByte | server/src/utils/byte.js:18-25 | byte k of the encoding is `(n >> 8k) & 0xff` |
| Codec.LittleEndianMod | server/src/utils/byte.js:18-25 | encoding to k bytes ignores everything above 256^k, as the masks do |
| Codec.ShortToBytesIsLittleEndian | server/src/utils/byte.js:5-7 | `shortToBytes` is the two-byte little-endian encoding |
| Codec.IntToBytesIsLittleEndian | server/src/utils/byte.js:18-25 | `intToBytes` is the four-byte little-endian encoding of the value mod 2^32, negatives included |
| Codec.LongToBytesIsLittleEndian | server/src/utils/byte.js:27-38 | `longToBytes` is the eight-byte little-endian encoding |
| Codec.ShortRoundTrip | server/src/utils/byte.js:1-7 | decoding an encoded short gives it back mod 2^16, and exactly for 0..65535 |
| Codec.ShortBytesRoundTrip | server/src/utils/byte.js:1-7 | encoding a decoded short gives back its first two bytes |
| Codec.BytesToIntIsSigned | server/src/utils/byte.js:9-16 | `bytesToInt` is the two's-complement reading of the little-endian value |
| Codec.IntRoundTrip | server/src/utils/byte.js:9-25 | decoding an encoded int gives its int32 wrap-around: n itself below 2^31, n - 2^32 from 2^31 to 2^32 |
| Codec.IntBytesRoundTrip | server/src/utils/byte.js:9-25 | encoding a decoded int gives back the same four bytes |
| Codec.LongRoundTrip | client/src/utils.js:129-153 | `bytesToLong(longToBytes(n)) == n` for every unsigned 64-bit n |
| Codec.LongBytesRoundTrip | client/src/utils.js:129-153 | any eight bytes decode, and re-encode to themselves |
| Text.LowerAll | client/src/utils.js:43 | lower-casing keeps the length and maps every character on its own |
| Text.TrimStart | server/src/utils/room.js:16 | the result is the input with its leading white space cut off: a suffix of it, everything cut is white space, and it does not start with white space |
| Text.TrimEnd | server/src/utils/room.js:16 | the result is the input with its trailing white space cut off: a prefix of it, everything cut is white space, and it does not end with white space |
| Text.Trim | server/src/utils/room.js:16 | `trim()` yields a piece `s[i..j]` of the input with only white space outside it and none at either end of the result |
| Text.TrimIdempotent | server/src/utils/room.js:16 | trimming twice is trimming once |
| Text.TrimUnpadded | server/src/utils/room.js:16 | a string with no white space at either end is its own trim |
| Text.Utf16Length | server/src/utils/room.js:19-20 | `length` counts UTF-16 code units: one per character below U+10000 and two above, so between n and 2n for n characters |
| Text.Utf16LengthAppend | server/src/utils/room.js:19-20 | the code units of a concatenation are those of its parts added up |
| Text.Utf16LengthBmp | server/src/utils/room.js:19-20 | the code-unit count equals the character count exactly when every character is below U+10000 |
| Text.SplitOn | server/src/utils/security.js:7 | `split` always yields at least one piece, and no piece holds a separator or a character foreign to the input |
| Text.Reverse | server/src/utils/security.js:7 | `reverse()` puts element i at position n-1-i |
| Text.NatToStringDigits | client/src/piano.js:29-33 | the decimal text of a number is all digits, with two or more from 10 upwards |
| Text.NatToStringInjective | client/src/piano.js:29-33 | different numbers have different decimal texts |
| Text.IntToStringInjective | client/src/piano.js:29-33 | the decimal text of an integer starts with '-' or a digit, and different integers have different texts |
| Protocol.SystemMsg | server/src/utils/network.js:31-39 | `sendSystemMsg` frames a SEND_CHAT whose sender byte is the system seat 255 and whose JSON is a pair: null, then the message as a string |
| State.Fresh | server/src/index.js:16-24 | a new socket is open, has sent nothing, has no player, and its room name is unset (not the empty name) |
| State.FindCursor | server/src/services/roomManager.js:314 | a cursor is found exactly when some entry has the uuid |
| State.PutCursor | server/src/services/roomManager.js:314-329 | after a put the uuid maps to the new cursor and every other uuid is unchanged |
| State.RemoveCursor | server/src/services/roomManager.js:243-245 | after `delete room.cursors[uuid]` the uuid has no cursor and every other uuid is unchanged |
| RoomUtil.Sanitize | server/src/utils/room.js:8-13 | the sanitized name holds no control or bidirectional-override character and is no longer |
| RoomUtil.SanitizeConcat | server/src/utils/room.js:8-13 | sanitizing works character by character: it distributes over concatenation |
| RoomUtil.SanitizeClean | server/src/utils/room.js:8-13 | a clean name passes through unchanged |
| RoomUtil.SanitizeKeeps | server/src/utils/room.js:8-13 | a character survives iff it was present and is not one of the stripped ones |
| RoomUtil.SanitizeIdempotent | server/src/utils/room.js:8-13 | sanitizing twice is sanitizing once |
| RoomUtil.ValidatedName | server/src/utils/room.js:15-24 | `validateRoomName` yields the sanitized, trimmed input when that is 1..60 UTF-16 code units long and the default room otherwise; either way a clean, trimmed name of 1..60 code units |
| RoomUtil.ValidateKeeps | server/src/utils/room.js:15-24 | a clean, trimmed name of 1..60 UTF-16 code units is kept as it is |
| RoomUtil.ValidateIdempotent | server/src/utils/room.js:15-24 | validating twice is validating once |
| RoomUtil.ValidateCountsUnits | server/src/utils/room.js:19-20 | the limit is on code units: 31 piano emoji (U+1F3B9) are 31 characters but 62 units, and fall back to the default room |
| RoomUtil.LobbyClean | server/src/config/constants.js:10 | the default room name is clean |
| RoomUtil.LobbyTrimmed | server/src/config/constants.js:10 | the default room name is trimmed |
| RoomUtil.LobbyLength | server/src/config/constants.js:10 | the default room name is 5 code units long |
| RoomUtil.CleanTrim | server/src/utils/room.js:16 | trimming a name keeps it clean |
| RoomUtil.CleanSuffix | server/src/services/roomManager.js:48-50 | cutting a prefix off a clean name keeps it clean |
| RoomUtil.CountFromDrops | server/src/utils/room.js:26-32 | the number of taken seats at or above k never grows with k, and drops past a taken seat (the loop's termination measure) |
| RoomUtil.GetFreeClientId | server/src/utils/room.js:26-32 | `getFreeClientId` returns the least non-negative seat id no member holds |
| RoomUtil.SeatIds | server/src/utils/room.js:28 | one seat id per member, in order, `undefined` for a member without a seat |
| Security.SplitPlain | server/src/utils/security.js:7 | splitting text that starts with a separator-free piece puts that piece at the head of the first part |
| Security.SplitJoin | server/src/utils/security.js:7 | splitting undoes joining when no piece holds a separator |
| Security.ShuffleDotted | server/src/utils/security.js:6-13 | the address `a.b.c.d` is hashed as the text `d_x_c_x_b_x_a` |
| Security.RateKeyInjective | server/src/utils/security.js:16 | two actions of one address never share a rate window |
| Security.Prune | server/src/utils/security.js:23 | the pruned window keeps exactly the times after `now - ms` |
| Security.WindowAfter | server/src/utils/security.js:15-38 | an allowed call leaves the pruned window plus `now`, at most `reqs` entries; a refused one leaves the pruned window, already `reqs` or more |
| Security.Violation | server/src/utils/security.js:25-34 | a refused call sends RATE_LIMIT_WARNING and counts a warning, starting from 1 when unset; nothing else of the player changes |
| Security.Escalation | server/src/utils/security.js:25-34 | from no warnings, k refusals in a row leave k+1 warnings and k notices, and the socket starts closing from the third refusal |
| Security.PruneTwice | server/src/utils/security.js:23 | pruning at t0 then at a later t is pruning at t |
| Security.PruneAppend | server/src/utils/security.js:23 | pruning distributes over concatenation |
| Security.PruneShrinks | server/src/utils/security.js:23 | the window only shrinks as time passes |
| Security.ReplayIsWindow | server/src/utils/security.js:15-38 | after any sorted run of calls, the limiter's window is exactly the admitted calls still inside it |
| Security.SlidingWindowBound | server/src/utils/security.js:15-38 | no sliding window of `ms` milliseconds ever holds more than `reqs` admitted calls |
| Clients.NewClient | server/src/utils/client.js:6-15 | a first-time player gets a full quota, no admin right, the hashed uuid and a name starting "Player"; the suffix `roll` is 0..999 (`Clients.Roll`) |
| Clients.WrapClient | server/src/utils/client.js:17-25 | a stored player keeps its uuid, name, admin flag and colour, and gets a full quota |
| Clients.QuotaChecked | server/src/utils/client.js:31-49 | `noteQuotaCheck` refills the quota and changes nothing else; when a note may be played nothing is sent |
| Clients.RefillBounds | server/src/utils/client.js:32-36 | the refill never lowers a quota within the cap, never lifts it past the cap, and happens only more than 30 ms after a note |
| Clients.NoticeThrottled | server/src/utils/client.js:38-47 | a refused note sends the notice iff none was sent in the last 5000 ms, and records the time when it does |
| Clients.NoticeAtMostOncePer5s | server/src/utils/client.js:38-47 | two refused notes less than 5000 ms apart send at most one notice |
| Network.SendTo | server/src/utils/network.js:12 | sending to one socket of the table keeps the set of sockets |
| Network.SendAll | server/src/services/roomManager.js:81-96 | several frames to one socket arrive in order; every other socket is unchanged |
| Network.SendAllNone | server/src/services/roomManager.js:81-96 | sending nothing changes nothing |
| Network.SendAllAppend | server/src/services/roomManager.js:81-96 | sending fs then f is sending fs + [f] |
| Network.SendAllTwice | server/src/services/roomManager.js:81-96 | two batches to one socket are one batch of both |
| Network.Deliver | server/src/utils/network.js:5-13 | sending one frame to each id of a list |
| Network.Copies | server/src/utils/network.js:5-13 | n copies of a frame are n frames |
| Network.DeliverOutbox | server/src/utils/network.js:5-13 | each socket receives one copy per occurrence in the list, and nothing else of it changes |
| Network.DeliverAppend | server/src/utils/network.js:5-13 | delivering to a list and one more id is delivering to the list and then sending to that id |
| Network.DeliverSkips | server/src/utils/network.js:5-13 | a socket not in the list receives nothing |
| Network.DeliverOutboxesOnly | server/src/utils/network.js:5-13 | delivering changes outboxes only |
| Network.DeliverEach | server/src/services/roomManager.js:294-300 | sending each id of a list its own frame |
| Network.DeliverEachAppend | server/src/services/roomManager.js:294-300 | delivering to one more id is one more send |
| Network.DeliverEachOutbox | server/src/services/roomManager.js:294-300 | each socket receives its own frame once per occurrence, and nothing else changes |
| Network.DeliverEachOutboxesOnly | server/src/services/roomManager.js:294-300 | per-socket delivery changes outboxes only |
| Network.Others | server/src/utils/network.js:9-12 | the recipients are exactly the room's members other than the sender |
| Network.OthersAppend | server/src/utils/network.js:9-12 | one more member is one more recipient unless it is the sender |
| Network.OthersCount | server/src/utils/network.js:9-12 | the sender is never a recipient; every other member is as often as it is listed |
| Network.BroadcastReach | server/src/utils/network.js:5-13 | `broadcastToRoom` gives exactly the other members one copy each and the sender and strangers none; nothing is sent for a vanished sender without bypass or a socket in no room |
| Network.SafeClose | server/src/utils/network.js:15-29 | an open socket starts closing; one already closing or closed is left alone |
| Connections.Admit | server/src/services/clientManager.js:60-63 | counting a connection adds one for its address and changes no other address |
| Connections.Release | server/src/services/clientManager.js:117-126 | `handleClose` takes one off the address, drops it at zero and keeps every entry positive |
| Connections.OverLimitIff | server/src/services/clientManager.js:60-71 | a connection is turned away iff five are already counted for its address |
| Connections.AdmitThenRelease | server/src/services/clientManager.js:60-126 | counting a connection and then its close restores the table |
| Connections.AdmitPositive | server/src/services/clientManager.js:60-63 | admitting keeps every count positive |
| Connections.UncountedCloseFreesSlot | server/src/services/clientManager.js:19-71 | the close of a connection turned away before it was counted (bad origin, rate limit) still takes one off its address: with five open, it lets a sixth in |
| Leet.CharClass | client/src/utils.js:46-94 | a mapped letter becomes a bracketed class containing it; any other character stands for itself |
| Leet.LeetPattern | client/src/utils.js:30-101 | the loop builds exactly the groups of the text joined by `[\s\W]*` |
| Leet.GroupsStep | client/src/utils.js:35-98 | an escape pair becomes one verbatim group and advances two; any other character becomes one `(class)+` group |
| Leet.PlainTextGroups | client/src/utils.js:35-98 | without escapes, character k becomes group k |
| Leet.GroupCount | client/src/utils.js:35-98 | there are between n/2 and n groups, exactly n iff no escape pair occurs |
| Leet.CaseInsensitive | client/src/utils.js:43 | lower-casing the text first changes no group |
| Piano.PressFrame | server/src/services/pianoManager.js:24-33 | the relayed press is eight bytes: PRESS_NOTE, the sender's seat, note, velocity, timestamp |
| Piano.Charge | server/src/services/pianoManager.js:34-37 | charging a note keeps the player, room, seat and outbox |
| Piano.Press | server/src/services/pianoManager.js:7-38 | a press is relayed iff note <= 88, velocity <= 127, the clock skew is within [-2000, 5000] ms and the quota check passes; it then costs 1, or 5 for the same note again, and records note and time; a press failing the range checks changes nothing, and one failing only the quota check gets just the refill and the throttled notice (`QuotaChecked`) |
| Piano.ReleaseFlag | server/src/services/pianoManager.js:46 | the release flag is 1 exactly when the byte is 1, else 0 |
| Piano.ReleaseFrame | server/src/services/pianoManager.js:54-63 | the relayed release is eight bytes: RELEASE_NOTE, the sender's seat, note, flag, timestamp |
| Piano.Release | server/src/services/pianoManager.js:40-64 | a release is relayed iff note <= 88 and the clock skew is within [-2000, 5000] ms; it costs no quota |
| Piano.BatchScan | server/src/services/pianoManager.js:71-109 | the batch parser keeps the player, room and seat whatever it reads |
| Piano.ScanBatch | server/src/services/pianoManager.js:71-109 | the parse loop returns the verdict and the charged socket that the recursive reading of the batch defines |
| Piano.AcceptedBatchValid | server/src/services/pianoManager.js:74-109 | a batch is relayed only if every sub-frame is a press or release in range, with a well-formed flag and timestamp in the clock window |
| Piano.ReleasesAreFree | server/src/services/pianoManager.js:93-103 | a batch of releases leaves the socket exactly as it was |
| Piano.RepeatPress | server/src/services/pianoManager.js:78-92 | m presses are 7m bytes |
| Piano.RepeatCost | server/src/services/pianoManager.js:85-90 | m repeats of the note just played, starting with counter c, cost m(m + 2c) quota in total: the penalty grows with each repeat |
| Piano.ChargedBeforeClock | server/src/services/pianoManager.js:85-108 | a press whose timestamp is out of the window is refused only after its quota was charged |
| Rooms.NewRoom | server/src/services/roomManager.js:15-32 | a new room has no members, the chat filter on, chat and piano enabled, no chat, no cursors and no pending handover |
| Rooms.StripHidden | server/src/services/roomManager.js:48-51 | a leading "/hidden:" is removed and marks the room hidden; any other name is kept |
| Rooms.PlayerFrames | server/src/services/roomManager.js:81-96 | the joiner is sent at most one PLAYER_JOINED per member |
| Rooms.PlayerFramesListed | server/src/services/roomManager.js:81-96 | the joiner is listed exactly the members with a player that are not vanished: each of them has its PLAYER_JOINED frame in the list, and every frame in the list is such a member's |
| Rooms.SettingsBytes | server/src/services/roomManager.js:113-119 | the four settings bytes carry setting ids 1..4 in their upper bits |
| Rooms.ApplySettings | server/src/services/roomManager.js:345-373 | the settings loop produces the room that applying the bytes one by one defines |
| Rooms.SettingsAppend | server/src/services/roomManager.js:345-373 | one more byte is one more setting applied |
| Rooms.LastWriteWins | server/src/services/roomManager.js:345-373 | for each setting the last byte naming it wins, unknown ids change nothing, and the rest of the room is kept |
| Rooms.SettingsRoundTrip | server/src/services/roomManager.js:113-119 | applying a room's settings bytes to any room copies exactly its four settings |
| Rooms.VisibleCount | server/src/services/roomManager.js:280 | the listed player count never exceeds the members; it is every member when none is vanished and zero when all are |
| Rooms.ListedNames | server/src/services/roomManager.js:272-275 | a room is listed iff it exists and is not hidden, or the requester with a player is in it |
| Rooms.RoomListJson | server/src/services/roomManager.js:277-284 | one entry per listed room |
| Rooms.RoomListEntries | server/src/services/roomManager.js:277-284 | entry i has six fields, index i and the room's name; a hidden room appears only to a requester in it, marked as its own |
| Rooms.RoomListFrameOutboxes | server/src/services/roomManager.js:294-300 | the list a socket is sent does not depend on what was sent before, so the broadcast order does not matter |
| Rooms.VisibleCountOutboxes | server/src/services/roomManager.js:280 | sending frames does not change the visible counts |
| Rooms.ListedNamesSame | server/src/services/roomManager.js:272-275 | the listed rooms depend only on the requester's player and room |
| Rooms.HistoryJson | server/src/services/chatManager.js:219-255 | one history entry per stored message, each built from the message and the store |
| Rooms.ShownNameUnvanished | server/src/services/chatManager.js:239-243 | a vanished admin's messages show the name without its "#"; other names are shown as stored |
| Cursors.Record | server/src/services/roomManager.js:314-338 | recording a move sets the position and appends one sample with that position to the queue |
| Cursors.UpdateCursor | server/src/services/roomManager.js:302-339 | a bad payload changes nothing; otherwise the mover's cursor is the recorded one and every other cursor is unchanged |
| Cursors.RecordTiming | server/src/services/roomManager.js:314-338 | a sample on an empty queue is stamped 0 and restarts the clock; one behind others carries the time since the queue's start; a new cursor takes the mover's seat with last position 0, an existing one keeps its seat and last position |
| Cursors.EventBytes | server/src/services/roomManager.js:157-161 | one event is six bytes |
| Cursors.EventsBytes | server/src/services/roomManager.js:156-164 | n events are 6n bytes |
| Cursors.FlushPayloadStep | server/src/services/roomManager.js:142-167 | the payload is each cursor's group in table order |
| Cursors.Drain | server/src/services/roomManager.js:162-166 | a flushed cursor keeps its position and seat, its last position is the last queued sample and its queue is empty |
| Cursors.Drained | server/src/services/roomManager.js:142-167 | the flush drains each cursor on its own |
| Cursors.EncodeGroup | server/src/services/roomManager.js:153-164 | the inner loop writes the cursor's group and ends at its last sample |
| Cursors.FlushCursors | server/src/services/roomManager.js:142-171 | the flush loop produces exactly the flush payload and the drained table |
| Cursors.DrainedSnoc | server/src/services/roomManager.js:152-167 | draining one more cursor extends the drained table by it |
| Cursors.FlushOne | server/src/services/roomManager.js:143-167 | one cursor contributes its group when its queue is non-empty, and is drained |
| Cursors.FlushEmptyIffIdle | server/src/services/roomManager.js:149 | a tick sends nothing exactly when every queue is empty |
| Cursors.FlushDrainsAll | server/src/services/roomManager.js:142-167 | after a flush every queue is empty, the next tick sends nothing, and no cursor changed owner |
| Cursors.Pinned | server/src/services/roomManager.js:99-108 | each cursor is replaced by one sample at its current position |
| Cursors.SnapshotIsFlush | server/src/services/roomManager.js:99-110 | the snapshot a joiner receives is exactly the flush payload of the table with each cursor pinned at its position, so the client decodes it like any update |
| Chat.KeepLast | server/src/services/chatManager.js:85 | `slice(-n)` keeps the last n entries in order, or all when fewer |
| Chat.HistoryAppend | server/src/services/chatManager.js:69-85 | the history stays within 55 entries with the new message last; at 55 the oldest is dropped |
| Chat.Purged | server/src/services/chatManager.js:137 | `/purge` keeps exactly the messages of other authors |
| Chat.ByAuthor | server/src/services/chatManager.js:123-136 | one delete notice per message of the author |
| Chat.PurgeCount | server/src/services/chatManager.js:121-139 | the reported count is exactly the number of messages removed |
| Chat.WithoutId | server/src/services/chatManager.js:154 | `/del` keeps exactly the messages with another id |
| Chat.WithoutAbsentId | server/src/services/chatManager.js:154 | deleting an id no message has changes nothing |
| Chat.PicksCard | server/src/services/chatManager.js:17-23 | n draws of distinct candidates give n distinct ids |
| Chat.PicksFresh | server/src/services/chatManager.js:17-23 | a later draw is none of the earlier ones |
| Chat.SubsetCard | server/src/services/chatManager.js:17-23 | a subset of the used ids is no larger (the loop's termination argument) |
| Chat.GenMessageId | server/src/services/chatManager.js:17-23 | `genMessageId` returns a non-empty id no stored message has |
| Chat.StripMsgPrefix | server/src/services/chatManager.js:143-145 | a leading "msg_" is removed; any other id is kept |
| Chat.ColorArg | server/src/services/chatManager.js:195 | the colour always starts with "#", and one that had it is kept |
| Chat.NoCommandFor | server/src/services/chatManager.js:90-96 | a message is not a command iff the sender is no admin or its lower-cased first word is none of the six commands |
| Chat.CommandCaseInsensitive | server/src/services/chatManager.js:91-92 | the command word is matched without regard to ASCII case |
| Chat.FirstWord | server/src/services/chatManager.js:91 | the first word of "w rest" is w |
| Chat.ToggleVanish | server/src/services/chatManager.js:167-181 | `/vanish` drops a leading "#" or adds one |
| Chat.VanishRoundTrip | server/src/services/chatManager.js:167-181 | vanishing and returning restores the name |
| Chat.Decide | server/src/services/chatManager.js:25-57 | each verdict holds exactly in its case: invalid iff nothing survives sanitizing or the message is over 200 UTF-16 code units; a command iff valid and an admin's command word (and then the parsed command); for a valid plain message, dropped iff the sender is vanished, the phrase refused or claimed iff it matches and was used or unused, too fast iff within 500 ms of the last one, and accepted otherwise |
| Chat.PhraseOnce | server/src/services/chatManager.js:35-50 | non-admins never reach a command, and a used phrase is never claimed again |
| Chat.GapEnforced | server/src/services/chatManager.js:52-55 | a message within 500 ms of the last accepted one is never accepted |
| PianoServer.NewPlayer | server/src/services/clientManager.js:73-84 | a connecting player is the stored one (uuid, name, colour, admin iff the stored flag is 1) or, when none is stored, a new one with the address's hashed uuid and no admin right; either way with a full quota |
| PianoServer.Unlisted | server/src/services/roomManager.js:265 | after `delete rooms[n]` the key order holds every other name and not n |
| PianoServer.UnlistedDistinct | server/src/services/roomManager.js:265 | deleting a key keeps the key order free of repeats |
| PianoServer.OrderUnlisted | server/src/services/roomManager.js:259-266 | deleting a room and its key keeps the key order matching the room table |
| PianoServer.OrderAppended | server/src/services/roomManager.js:18-32 | creating a room appends its key at the end of the key order, which keeps matching the table |
| PianoServer.SessionsOkKept | server/src/services/roomManager.js:59 | the room members and owners stay sockets with a player while no socket loses its player |
| PianoServer.SessionsOkUpdate | server/src/services/clientManager.js:113 | changing one socket keeps that invariant when a socket with a player keeps one |
| PianoServer.SessionsOkRoom | server/src/services/roomManager.js:18-32 | replacing one room keeps it when its members and owner are sockets with a player |
| PianoServer.SendAllKeeps | server/src/services/roomManager.js:90-95 | sending keeps the invariant and the set of sockets |
| PianoServer.OutboxesKeepClients | server/src/utils/network.js:5-13 | sending never takes a socket's player away |
| PianoServer.PongFrame | server/src/handlers/websocketHandlers.js:175-179 | the pong is five bytes: PONG and the uptime in milliseconds as a little-endian int32 |
| PianoServer.Departed | server/src/services/roomManager.js:243-247 | a leaving member is out of the member list and the cursor table; every other member, cursor and field of the room is kept |
| PianoServer.Disarmed | server/src/services/roomManager.js:209-213 | clearing a room's pending handover drops exactly that timer |
| PianoServer.Vacated | server/src/services/roomManager.js:259-266 | a room left empty and not persistent is deleted; every other room is kept as it is |
| PianoServer.Stopped | server/src/services/roomManager.js:250-257 | a room left empty stops its cursor flush; every other flush keeps running |
| PianoServer.MemberIsAlreadyHere | server/src/handlers/websocketHandlers.js:46-50 | a player that is already a member of the room it asks for is always told it is already there, full room or not |
| PianoServer.HiddenPrefixBypass | server/src/handlers/websocketHandlers.js:44-59 | "/hidden:" + n passes validation unchanged and is never judged full (no room has that name), yet it joins room n, however full n is |
| PianoServer.OutboxesOnlyTrans | server/src/services/roomManager.js:64-130 | changing outboxes only, twice, changes outboxes only |
| PianoServer.GreetedOutboxes | server/src/services/roomManager.js:64-130 | announcing and welcoming a joiner only adds frames to outboxes |
| PianoServer.Notices | server/src/services/chatManager.js:112-116 | one system message per line |
| PianoServer.Ids | server/src/services/chatManager.js:123-136 | one id per history entry |
| PianoServer.IdsSnoc | server/src/services/chatManager.js:123-136 | the ids of a longer run end with the new entry's id |
| PianoServer.PurgedIdsStep | server/src/services/chatManager.js:123-136 | looking at one more entry adds its id to the purged ids exactly when its author is the target |
| PianoServer.DeleteOpsAppend | server/src/services/chatManager.js:132-134 | one more purged id is one more store delete, last |
| PianoServer.ByAuthorSnoc | server/src/services/chatManager.js:123-136 | one author's messages grow by the next entry exactly when it is theirs |
| PianoServer.Notified | server/src/services/chatManager.js:126-131 | the delete notices keep the set of sockets |
| PianoServer.NotifiedOutboxes | server/src/services/chatManager.js:126-131 | the delete notices change outboxes only |
| PianoServer.NotifiedAdmin | server/src/services/chatManager.js:126-131 | the admin, not among the room's others, gets exactly one notice per purged id, in history order |
| PianoServer.Frames | server/src/services/chatManager.js:126-129 | one delete notice per id |
| PianoServer.DeleteOps | server/src/services/chatManager.js:132-134 | one store delete per id |
| PianoServer.MemberLinesComplete | server/src/services/chatManager.js:103-105 | /list names every member once, in member order, as "username - uuid" |
| PianoServer.VanishToggles | server/src/services/chatManager.js:167-181 | /vanish drops the "#" of a vanished admin and adds it otherwise, which makes the admin vanished, and doing it again restores the name |
| PianoServer.ActionsDistinct | server/src/handlers/websocketHandlers.js:31-181 | each opcode has its own rate window, distinct from the others and from the connection window |
| PianoServer.HiddenEmptyName | server/src/handlers/websocketHandlers.js:44 | "/hidden:" alone is a valid name, and the join strips it to the empty room name |
| PianoServer.Server.constructor | server/src/index.js:44-46 | the server starts with the persistent lobby, no owner, and nothing else |
| PianoServer.Server.BroadcastToRoom | server/src/utils/network.js:5-13 | the frame goes once to each other member of the sender's room, in member order, only outboxes change and the sender is untouched |
| PianoServer.Server.Multicast | server/src/services/roomManager.js:169-171 | the frame goes once to each socket of the list, in order, and only outboxes change |
| PianoServer.Server.SendRoomList | server/src/services/roomManager.js:271-292 | `sendRoomList` sends the socket the list as it sees it; the list it would see next is the same |
| PianoServer.Server.BroadcastRoomList | server/src/services/roomManager.js:294-300 | every member of every room, rooms in key order, gets its own view of the list; only outboxes change |
| PianoServer.Server.SendListTo | server/src/services/roomManager.js:296-298 | one room's members each get the list, extending the sends done so far |
| PianoServer.Server.RateLimit | server/src/utils/security.js:15-38 | the call is allowed iff the window of `ip_action` has room; the window becomes the pruned one plus `now` when allowed; a refusal records a violation; no socket loses its player |
| PianoServer.Server.Connect | server/src/services/clientManager.js:16-94 | a new socket is added; with a bad origin it is closed and nothing is counted; past the rate limit the count is unchanged; the socket gets a player iff the origin is allowed, the rate limit passes and fewer than five are counted |
| PianoServer.Server.Screen | server/src/services/clientManager.js:19-94 | the same three checks in order for an existing fresh socket, and the player it gets is the stored or new one |
| PianoServer.Server.AddSocket | server/src/index.js:16-31 | a new socket gets the next id, is fresh, and the others are kept |
| PianoServer.Server.SetIp | server/src/services/clientManager.js:45 | the socket's address is recorded and nothing else changes |
| PianoServer.Server.ConnectionLimit | server/src/services/clientManager.js:47-58 | the connection is allowed iff the address's connection window has room; allowed, no socket changes |
| PianoServer.Server.CloseSocket | server/src/utils/network.js:15-29 | `safeClose` on one socket |
| PianoServer.Server.Admission | server/src/services/clientManager.js:60-93 | the connection is counted; past five the socket is closed and nothing is stored; otherwise it gets its player, a new player is saved, and it is sent the room list |
| PianoServer.Server.AdmitCount | server/src/services/clientManager.js:60-63 | the address's count goes up by one |
| PianoServer.Server.GivePlayer | server/src/services/clientManager.js:73-84 | the socket gets the player and nothing else changes |
| PianoServer.Server.PressNote | server/src/services/pianoManager.js:7-38 | outside a room, with the piano disabled or vanished nothing changes; otherwise the socket is charged as `Press` says and the relay, if any, goes to the other members |
| PianoServer.Server.ReleaseNote | server/src/services/pianoManager.js:40-64 | a release that passes the gating and `Release` goes to the other members; otherwise nothing changes |
| PianoServer.Server.BatchNotes | server/src/services/pianoManager.js:66-115 | outside the gating nothing changes; otherwise the socket is charged as the batch parser says, and an accepted batch goes to the others as `[BATCH_NOTES, seat] ++ payload` |
| PianoServer.Server.SetCursor | server/src/handlers/websocketHandlers.js:67-81 | a player in a room who is not vanished updates its room's cursor table as `updateCursorPosition` says; otherwise nothing changes |
| PianoServer.Server.Ping | server/src/handlers/websocketHandlers.js:163-181 | a player in a room is sent the pong; otherwise nothing changes |
| PianoServer.Server.SetName | server/src/services/clientManager.js:96-115 | a bad name (empty, over 60 UTF-16 code units, or no ASCII letter or digit) or a socket outside a room changes nothing; otherwise SET_NAME goes to the others and back to the sender, the player takes the name and the store gets it |
| PianoServer.Server.SetSettings | server/src/services/roomManager.js:341-379 | only the room's owner changes settings; the room then holds the settings applied, the frame goes to the others (vanished or not) and back, and everyone gets the room list |
| PianoServer.Server.ChangeSettings | server/src/services/roomManager.js:345-373 | the stored room becomes the settings applied |
| PianoServer.Server.EchoSettings | server/src/services/roomManager.js:375-376 | the settings frame goes to the others regardless of vanish, then to the sender |
| PianoServer.Server.Announce | server/src/utils/network.js:5-13 | `broadcastToRoom`, keeping the server's invariant |
| PianoServer.Server.RefreshLists | server/src/services/roomManager.js:294-300 | `broadcastRoomList`, keeping the server's invariant |
| PianoServer.Server.LeaveRoom | server/src/services/roomManager.js:188-269 | a socket in no room changes nothing; one whose room no longer lists it only tidies the room and refreshes lists; the rest as `LeaveMember` |
| PianoServer.Server.LeaveMember | server/src/services/roomManager.js:193-268 | the others hear PLAYER_LEFT; an owner leaving re-arms the 5-second handover; the member loses its seat and cursor; an empty room stops its flush and is deleted unless persistent |
| PianoServer.Server.Vacate | server/src/services/roomManager.js:250-268 | the room is tidied, then everyone gets the room list |
| PianoServer.Server.LeaveSeat | server/src/services/roomManager.js:193-248 | the others are told, then the member departs |
| PianoServer.Server.Depart | server/src/services/roomManager.js:199-247 | an owner re-arms the handover timer; the member leaves the member list and the cursor table |
| PianoServer.Server.Rearm | server/src/services/roomManager.js:209-240 | a pending handover is cleared and a new one for this player is armed |
| PianoServer.Server.Unseat | server/src/services/roomManager.js:243-247 | the member loses its seat and its cursor |
| PianoServer.Server.Tidy | server/src/services/roomManager.js:250-266 | an empty room stops its flush and, unless persistent, is deleted |
| PianoServer.Server.DeleteRoom | server/src/services/roomManager.js:265 | the room and its key are gone |
| PianoServer.Server.SendOne | server/src/utils/network.js:31-39 | one frame to one socket |
| PianoServer.Server.Tell | server/src/services/roomManager.js:227-231 | the frame to each socket of the list |
| PianoServer.Server.JoinRoom | server/src/services/roomManager.js:45-186 | the joiner enters the room without its "/hidden:" prefix (created, and hidden, when missing), takes the least free seat id, is announced and welcomed, everyone gets the list, the flush starts as `Started` states (not under a name `Object.prototype` already has), a vanished joiner's notice is queued, and an owner coming back cancels its pending handover |
| PianoServer.Server.Arrive | server/src/services/roomManager.js:45-62 | the room is created when missing, the joiner is appended to the members and takes the least free seat |
| PianoServer.Server.Settle | server/src/services/roomManager.js:64-185 | the joiner is greeted, the flush starts as `Started` states, the handover is cancelled when the owner came back, and a vanished joiner's notice is queued for its 500 ms timer |
| PianoServer.Server.Arm | server/src/services/roomManager.js:123-138 | the vanish notice of a vanished joiner is queued, and the room's flush is started unless its name is inherited |
| PianoServer.Started | server/src/services/roomManager.js:133-134 | `cursorUpdateIntervals` (line 13) is a plain object, so `!cursorUpdateIntervals[n]` is false for an inherited name such as "toString": the flush starts exactly when the name is not inherited (or already runs), and no other name's flush changes |
| PianoServer.StartedNeverInherited | server/src/services/roomManager.js:133-134 | a table without inherited names keeps none after a start, so a room named "toString" never has a flush |
| PianoServer.Server.Introduce | server/src/services/roomManager.js:64-130 | PLAYER_JOINED to the others, the welcome to the joiner, then the room list to everyone |
| PianoServer.Server.OpenRoom | server/src/services/roomManager.js:45-55 | the "/hidden:" prefix is cut off, and a missing room is created and keyed last |
| PianoServer.Server.TakeSeat | server/src/services/roomManager.js:57-62 | the socket's room is set and it takes the least seat id no member holds |
| PianoServer.Server.CreateRoom | server/src/services/roomManager.js:15-43 | a new room owned by the joiner, not persistent, keyed last |
| PianoServer.Server.Seat | server/src/services/roomManager.js:59 | the socket is appended to the members |
| PianoServer.Server.Greet | server/src/services/roomManager.js:77-121 | the joiner is sent its uuid, the players, the cursors and the settings, in that order |
| PianoServer.Server.Trailer | server/src/services/roomManager.js:98-121 | the cursor snapshot when there are cursors, then the settings |
| PianoServer.Server.FireNotice | server/src/services/roomManager.js:123-128 | the oldest pending vanished-mode timer fires: its socket, if still known, is sent "You are in vanished mode. Others won't see you." and the timer leaves the queue; with none pending nothing changes |
| PianoServer.Server.SendPlayers | server/src/services/roomManager.js:81-96 | the joiner is sent PLAYER_JOINED for each member that is not vanished, in member order |
| PianoServer.Server.CancelHandover | server/src/services/roomManager.js:175-185 | the owner's return clears the room's pending handover |
| PianoServer.Server.FireHandover | server/src/services/roomManager.js:215-240 | an unknown timer changes nothing; the timer is consumed; when the room exists, is not empty and the old owner did not come back, the first member becomes owner, every member hears OWNERSHIP_TRANSFER with its seat, and it is told |
| PianoServer.Server.FlushTick | server/src/services/roomManager.js:133-172 | a gone or empty room stops its flush; with queued moves every member gets one CURSOR_UPDATE with the flush payload and the queues are drained; otherwise nothing changes |
| PianoServer.Server.HydrateChat | server/src/services/roomManager.js:34-41 | the stored history of a persistent room replaces its chat when it arrives |
| PianoServer.Server.SetChat | server/src/services/roomManager.js:40 | the room's chat is replaced |
| PianoServer.Server.SendChatHistory | server/src/services/chatManager.js:219-256 | as `HistorySent`: a socket in a room that exists is sent the room's history and nothing else changes; otherwise nothing changes |
| PianoServer.Server.Say | server/src/services/chatManager.js:112-116 | several system messages to one socket, in order |
| PianoServer.Server.HandleChat | server/src/services/chatManager.js:25-88 | an invalid message gets "Invalid message."; an admin's command runs as `RunCommand` states; a vanished sender's is dropped; a used phrase and a too-fast message get their notices; the phrase is claimed at most once; an accepted message is posted as `PostMessage` states under the returned id, which is "" in every other case |
| PianoServer.Server.ClaimAdmin | server/src/services/chatManager.js:45-49 | the phrase is marked used, the player becomes an admin, in the store too, and is told |
| PianoServer.Server.PostMessage | server/src/services/chatManager.js:57-87 | the room is read under the socket's room key ("undefined" when it never joined); unless it is missing or has chat disabled, the message gets an id no message of the room has, goes to the others and back to the sender, joins the history trimmed to 55, is stored with the unset or set room name, and restarts the sender's gap |
| PianoServer.Server.SendStamped | server/src/services/chatManager.js:67-87 | the sender's own copy, and the time of its last message |
| PianoServer.Server.RunCommand | server/src/services/chatManager.js:96-216 | /list, /purge, /del and /vanish have the effects `ListCmd`, `PurgeCmd`, `DelCmd` and `VanishCmd` state; missing arguments print the usage; /setcolor and /setname write the store and confirm; `/del` with no argument at all throws before doing anything, so nothing changes |
| PianoServer.Server.RunRoomCommand | server/src/services/chatManager.js:97-186 | /list, /purge, /del and /vanish, each as `CommandRan` states |
| PianoServer.Server.RunStoreCommand | server/src/services/chatManager.js:187-216 | /setcolor, /setname and an unknown command, each as `CommandRan` states |
| PianoServer.Server.Record | server/src/services/chatManager.js:197-213 | the store gets the update and the admin is told |
| PianoServer.Server.ListCmd | server/src/services/chatManager.js:97-107 | /list reads the admin's room under its room key ("undefined" when it never joined) and, when that room exists, sends the head count, then one line per member |
| PianoServer.Server.SendMemberLines | server/src/services/chatManager.js:103-105 | one line per member that has a player |
| PianoServer.Server.PurgeCmd | server/src/services/chatManager.js:108-141 | in the room under the admin's room key ("undefined" when it never joined; nothing happens when it is missing), every message of the author gets a delete notice to the admin and the others (vanished or not), is deleted from the store in a persistent room, and leaves the history; the admin is told the count |
| PianoServer.Server.PurgeAnnounce | server/src/services/chatManager.js:123-136 | the notices and store deletes of /purge, in history order |
| PianoServer.Server.PurgeNotices | server/src/services/chatManager.js:123-136 | the loop over the history announces exactly the author's messages |
| PianoServer.Server.PurgeStep | server/src/services/chatManager.js:124-135 | one message of the author is announced and, in a persistent room, deleted from the store; any other is skipped |
| PianoServer.Server.NotifyDelete | server/src/services/chatManager.js:126-131 | the delete notice to the admin, then to the rest of the room |
| PianoServer.Server.DelCmd | server/src/services/chatManager.js:142-166 | in the room under the admin's room key ("undefined" when it never joined; nothing happens when it is missing), the message leaves the history and the store, the notice goes to the admin and the others (vanished or not), then the admin is told |
| PianoServer.Server.VanishCmd | server/src/services/chatManager.js:167-186 | the name gains or loses its "#"; vanishing tells the others the player left; the admin is told, the store gets the name, and the socket is closed |
| PianoServer.Server.Rename | server/src/services/chatManager.js:171-174 | the player takes the name and nothing else changes |
| PianoServer.Server.Throttle | server/src/utils/security.js:15-38 | `rateLimit`, keeping the server's invariant |
| PianoServer.Server.JoinRequest | server/src/handlers/websocketHandlers.js:32-66 | as `JoinHandled`: no player: nothing; already in the room: told and closed; full (ten or more, judged by the name as sent) and not vanished: told; in these three cases no room, timer or flush changes. Otherwise the whole server goes through `leaveRoom`, `joinRoom` and `sendChatHistory` in turn, each as `LeaveRoom`, `JoinRoom` and `SendChatHistory` state (`Relocated`), and the socket ends in the stripped room with its history last |
| PianoServer.Server.AcceptJoin | server/src/handlers/websocketHandlers.js:61-64 | an accepted request relocates the socket as `Relocated` states |
| PianoServer.Server.RefuseJoin | server/src/handlers/websocketHandlers.js:32-58 | a refused request only sends its notice (and closes on a duplicate join), or changes nothing without a player |
| PianoServer.Server.SendAndClose | server/src/handlers/websocketHandlers.js:47-48 | a last frame, then `safeClose` |
| PianoServer.Server.Proceed | server/src/handlers/websocketHandlers.js:61-64 | `Relocated`: the state passes through `RoomLeft`, `RoomJoined` and `HistorySent`, and the socket, with the same player, ends in the new room with its history last |
| PianoServer.Server.Switch | server/src/handlers/websocketHandlers.js:61-62 | `RoomLeft` then `RoomJoined` on the whole server, through the returned intermediate state and seat; the socket is a member of the new room with the same player |
| PianoServer.Server.Leave | server/src/services/roomManager.js:188-269 | the whole server changes as `RoomLeft` states, and of the leaving socket only its outbox |
| PianoServer.Server.Enter | server/src/services/roomManager.js:45-62 | the whole server changes as `RoomJoined` states under the returned seat; the socket is a member of the room and the room is its room |
| PianoServer.LeftForGood | server/src/services/roomManager.js:193-247 | after `leaveRoom`, a socket that had a room is no member of it, if the room still exists |
| PianoServer.JoinedMember | server/src/services/roomManager.js:53-62 | after `joinRoom`, the joiner is a member of the room it asked for, the room is its room, it holds its seat, and nothing else of its record but its outbox changed |
| PianoServer.StayPut | server/src/services/roomManager.js:189 | a socket without a room leaves nothing: `leaveRoom` returns at once |
| PianoServer.StepsRelocate | server/src/handlers/websocketHandlers.js:61-64 | the arrival, reached through the three steps, is the relocation `JoinRequest` promises |
| PianoServer.Server.Close | server/src/index.js:33-36 | `leaveRoom` first, on the whole server as `RoomLeft` states (PLAYER_LEFT to the others, the owner handover armed, seat and cursor gone, an empty room's flush stopped and the room deleted unless persistent, lists refreshed), through the returned state; then only the socket is marked closed and its address's count goes down |
| PianoServer.Server.HandleMessage | server/src/handlers/websocketHandlers.js:27-186 | an empty message or unknown opcode changes nothing; a known opcode is charged against its own window, and a refused one only records the violation; one that passes has exactly its handler's effect, as `Dispatched` states (JOIN_ROOM as `JoinRequest`, SEND_CHAT as `HandleChat` and SET_NAME as `SetName` on the decoded, trimmed payload, the others on the raw payload), and leaves alone the state that handler does not touch |
| PianoServer.Server.Dispatch | server/src/handlers/websocketHandlers.js:31-182 | `Dispatched`, the `switch` on the opcode: JOIN_ROOM has `JoinRequest`'s effect and touches neither the store nor the admin-phrase flag; every other opcode has that of its own handler (`PlayerHandled`), with PING's for the last case, and leaves the room order, flushes, timers and notices alone |
| PianoServer.Server.DispatchJoin | server/src/handlers/websocketHandlers.js:32-66 | the JOIN_ROOM case: `Dispatched` with `JoinRequest`'s effect |
| PianoServer.Server.DispatchRest | server/src/handlers/websocketHandlers.js:67-182 | the other cases: `Dispatched` with the handler's effect, and the join-only state left alone |
| PianoServer.Server.DispatchPlayer | server/src/handlers/websocketHandlers.js:67-182 | `PlayerHandled`: every opcode but JOIN_ROOM has its handler's effect; only SEND_CHAT touches the admin-phrase flag and only SEND_CHAT and SET_NAME the store |
| PianoServer.Server.DispatchOther | server/src/handlers/websocketHandlers.js:67-182 | the opcodes but JOIN_ROOM and SEND_CHAT have their handler's effect; only SET_NAME writes the store and only SET_CURSOR_POS and UPDATE_ROOM_SETTINGS change rooms |
| ClientInput.JsRem | client/src/input.js:70 | JavaScript's remainder by a positive divisor lies strictly between -n and n |
| ClientInput.WrapIndex | client/src/input.js:69-70 | `((x % n) + n) % n` with JavaScript's truncating remainder equals the mathematical residue of x modulo n |
| ClientInput.WrapNote | client/src/input.js:67-70 | the transposed name index lies in 0..11 and is congruent to the shifted index modulo 12 |
| ClientInput.FindNote | client/src/input.js:75 | a key found by note text is one of the keys and carries that note text |
| ClientInput.FindNoteAt | client/src/input.js:75 | `find` returns the first key with the note text |
| ClientInput.FindNoteNone | client/src/input.js:75 | `find` returns nothing when no key has the note text |
| ClientInput.TransposeLooksUp | client/src/input.js:63-76 | transposing a key with a note name looks up the key whose text is the shifted name plus the floored octave shift |
| ClientInput.TransposeUnknownName | client/src/input.js:64-65 | a key whose name is not a note name has no transposition |
| ClientInput.StandardLayout | client/src/piano.js:54-65 | the 88 keys addPianoKeys builds run chromatically from A of octave -1 to C of octave 7 (note texts "a-1" to "c7"): key v has note name `NOTES[(v + 9) % 12]` in octave `(v + 9) / 12 - 1` |
| ClientInput.SameNoteText | client/src/piano.js:31 | two note names with equal note texts have equal name indices and octaves |
| ClientInput.NoteAtPosition | client/src/piano.js:54-65 | on such a keyboard key v has a given name and octave exactly when it sits at position `12 * (octave + 1) + name - 9` |
| ClientInput.FindInLayout | client/src/input.js:75 | looking a note up on such a keyboard finds the key at that position, or nothing when the position is off the keyboard |
| ClientInput.LayoutKey | client/src/input.js:64 | the name index and octave of key u give back its position u |
| ClientInput.TransposeTarget | client/src/input.js:64-73 | transposing key u by t semitones names the note text at position u + t |
| ClientInput.TransposeInLayout | client/src/input.js:63-76 | on a keyboard laid out that way, transposing key u by t gives key u + t, or nothing when u + t falls off the 88 keys |
| ClientInput.TransposeStandard | client/src/input.js:63-76 | the same on the keyboard the client builds |
| ClientInput.PressBytesParsed | client/src/input.js:140-143 | the press frame is 7 bytes; the server's note handler reads back the key, the velocity and the 32-bit timestamp |
| ClientInput.ReleaseBytesParsed | client/src/input.js:153-156 | the release frame is 7 bytes; the server reads back the key, the timestamp and a flag that is 1 exactly when all playings are released |
| ClientInput.CursorPacketParsed | client/src/input.js:311-315 | the server reads back both cursor coordinates and accepts it exactly when both are within 100% |
| ClientInput.SwitchBytes | client/src/input.js:473-476 | one byte per switch, each `(name << 1) or checked` |
| ClientInput.DialogBytes | client/src/input.js:450-455 | the dialog's four switch bytes are the four settings bytes the server sends for the room it shows |
| ClientInput.SettingsFrameApplied | client/src/input.js:466-478 | the server applies a saved dialog by setting exactly the four flags the dialog shows and nothing else |
| ClientInput.Outgoing | client/src/input.js:92-110 | an event queue goes out as at most one frame, and as none exactly when it is empty |
| ClientInput.FlattenFrames | client/src/input.js:104-106 | seven-byte frames batched end to end: frame k occupies bytes 7k..7k+6 |
| ClientInput.Input.constructor | client/src/input.js:32-38 | a fresh input has no transposition, an empty queue, no timer and nothing sent |
| ClientInput.Input.Send | client/src/socket.js:209-214 | a frame is appended to what was sent exactly when the socket is open |
| ClientInput.Input.Arrow | client/src/input.js:188-207 | an arrow key shifts the transposition by 1 or 12 and clamps it to [-36, 36]; other keys leave it unchanged |
| ClientInput.Input.SendEventQueue | client/src/input.js:88-113 | the timer is cleared and the queue emptied; what is sent is nothing, its single frame, or BATCH_NOTES followed by all frames in order |
| ClientInput.Input.QueueEvent | client/src/input.js:115-133 | the frame joins the queue; the queue is sent at once when 200 ms have passed since its first frame, otherwise the timer is armed; the first frame of a queue always waits |
| ClientInput.Input.Press | client/src/input.js:135-146 | the press frame of the transposed key is queued; nothing changes when there is no such key |
| ClientInput.Input.Release | client/src/input.js:148-157 | the release frame of the transposed key is queued; nothing changes when there is no such key |
| ClientInput.Input.SaveSettings | client/src/input.js:466-479 | a confirmed dialog sends the settings frame through an open socket; a cancelled one sends nothing |
| ClientSocket.Joining | client/src/socket.js:236-247 | a parsed PLAYER_JOINED payload adds one player with its uuid and id, marked as this page's exactly when the uuid is ours; an unparsed one adds none |
| ClientSocket.FirstWithId | client/src/socket.js:73 | a found player is in the list with that id; none is found only when no player has the id |
| ClientSocket.FirstWithUuid | client/src/socket.js:188 | a found player is in the list with that uuid; none is found only when no player has the uuid |
| ClientSocket.WithoutUuid | client/src/socket.js:192 | the filtered list keeps only players of the list whose uuid is not the given one |
| ClientSocket.LookupIsFirst | client/src/socket.js:71-77 | with a cache that agrees with the list, `getPlayerById` returns the first player with the id |
| ClientSocket.FirstWithIdSnoc | client/src/socket.js:100 | appending a player keeps the first player of every id that already had one, and makes it the first for its own id otherwise |
| ClientSocket.FirstWithIdFiltered | client/src/socket.js:192 | filtering a uuid out keeps the first player of every id whose first player has another uuid |
| ClientSocket.WithoutUuidMembers | client/src/socket.js:192 | the filter keeps exactly the players with another uuid |
| ClientSocket.FirstWithUuidOnly | client/src/socket.js:188 | with unique uuids, the player `find` returns for a uuid is the only one with it |
| ClientSocket.WithoutUuidUnique | client/src/socket.js:192 | filtering keeps uuids unique |
| ClientSocket.RemoveKeepsCache | client/src/socket.js:187-192 | with unique uuids, deleting the first matching player's id from the cache and filtering the list keeps the cache in agreement with the list |
| ClientSocket.WithoutUuidNone | client/src/socket.js:188-189 | filtering out a uuid nobody has keeps the list |
| ClientSocket.ElsWithout | client/src/socket.js:198-200 | removing the cursor elements of a uuid leaves no more elements than before |
| ClientSocket.ElsWithoutAppend | client/src/socket.js:198-200 | removing elements distributes over concatenation |
| ClientSocket.WithoutUuidSnoc | client/src/socket.js:192 | filtering a list with one more player filters that player separately |
| ClientSocket.ElsFollowPlayers | client/src/socket.js:187-203 | removing a uuid's cursor elements leaves exactly the cursor elements of the remaining players |
| ClientSocket.ElsOfWithout | client/src/socket.js:159-181 | removing a uuid from one player's cursor elements gives the elements of that player if it is kept, else none |
| ClientSocket.AllElsAppend | client/src/socket.js:159-181 | the cursor elements of a list with one more player are followed by that player's element |
| ClientSocket.HasCursorAppend | client/src/socket.js:263 | an element with a seat's id exists in two lists of elements iff it exists in one of them |
| ClientSocket.HasCursorOfPlayers | client/src/socket.js:159-166 | `cursor_<id>` exists exactly when some other (not this page's) player has the id |
| ClientSocket.SubShift | client/src/socket.js:218 | reading a slice of the payload at an offset reads the message at the shifted offset |
| ClientSocket.DropDrop | client/src/socket.js:218 | dropping i bytes and then k is dropping i + k |
| ClientSocket.Moves | client/src/socket.js:272-288 | a group with n cursor events yields n moves |
| ClientSocket.CursorFrameUnfold | client/src/socket.js:257-289 | a CURSOR_UPDATE group from a known seat with a count yields its moves when the seat has a cursor element, none otherwise, and the frame continues 2 + 6n bytes on |
| ClientSocket.GroupStep | client/src/socket.js:257-289 | a group's moves followed by the rest of the frame are the frame from that group on |
| ClientSocket.BatchFromStep | client/src/socket.js:341-378 | one BATCH_NOTES sub-frame: a press or release at offset i yields its event and continues at i + 7; any other opcode yields nothing and continues at i + 2 |
| ClientSocket.Posts | client/src/socket.js:349-373 | one scheduler message per event |
| ClientSocket.PostOne | client/src/socket.js:349-373 | posting one event and then the rest is posting them all, in order |
| ClientSocket.SetOneAgrees | client/src/socket.js:519-549 | one settings byte changes the page's view of the room as the server changes the room |
| ClientSocket.SettingsAgree | client/src/socket.js:516-550 | the page decodes any ROOM_SETTINGS payload to the same four flags the server applied to the room |
| ClientSocket.ReadMoves | client/src/socket.js:270-288 | the inner loop reads the group's events at offsets start + 6j into timers in order |
| ClientSocket.GroupMoves | client/src/socket.js:258-288 | one group's timers followed by the rest of the frame are the whole frame from that group |
| ClientSocket.Client.constructor | client/src/socket.js:22-38 | a fresh page has no players, an empty cache, no uuid, the default room settings, no pings and nothing sent |
| ClientSocket.Client.GetPlayerById | client/src/socket.js:71-77 | the result is the cached player else the first with the id, which is then cached; every lookup gives the same answer afterwards and an agreeing cache keeps agreeing |
| ClientSocket.Client.AddPlayer | client/src/socket.js:99-185 | the player is appended, becomes `myPlayer` when it is this page's, gets its cursor element, and an agreeing cache keeps agreeing |
| ClientSocket.Client.RemovePlayer | client/src/socket.js:187-203 | an unknown uuid changes nothing; otherwise every player and cursor element with the uuid goes and the first such player's id leaves the cache |
| ClientSocket.Client.Joined | client/src/socket.js:221-235 | JOIN_ROOM empties the player list, the cache and the cursor elements and records the payload as this page's uuid |
| ClientSocket.Client.PlayerJoined | client/src/socket.js:236-248 | PLAYER_JOINED appends the parsed player, marked as this page's exactly when its uuid is ours |
| ClientSocket.Client.CursorUpdate | client/src/socket.js:254-292 | CURSOR_UPDATE sets exactly the timers the frame specifies, group by group, stopping at an unknown seat; lookups are unchanged |
| ClientSocket.Client.CursorGroup | client/src/socket.js:257-289 | one group: an unknown seat or a missing count ends the frame; otherwise its timers are set and the next group follows its events |
| ClientSocket.Client.NoteEvent | client/src/socket.js:293-334 | PRESS_NOTE or RELEASE_NOTE posts the decoded event to the scheduler exactly when the seat is a known player |
| ClientSocket.Client.BatchNotes | client/src/socket.js:335-380 | BATCH_NOTES from a known seat posts every sub-frame's event in order; from an unknown seat nothing |
| ClientSocket.Client.PostBatch | client/src/socket.js:341-378 | the sub-frame loop posts exactly the events of the payload from byte 1 on |
| ClientSocket.Client.RoomSettings | client/src/socket.js:516-550 | ROOM_SETTINGS applies each byte in order: setting `b >> 1` takes `b & 1`, unknown settings change nothing |
| ClientSocket.Client.Pong | client/src/socket.js:574-589 | the offset is the server time minus the midpoint of the round trip; the round trip joins the ping window, which keeps the latest ten; both go to the scheduler |
| ClientSocket.Client.Ping | client/src/socket.js:614-617 | the ping time is recorded and `[PING, nonce]` goes out through an open socket |
| ClientSocket.Client.Receive | client/src/socket.js:216-600 | the first byte picks the handler; each piece of state changes only under the opcodes that write it, and an empty message or an unknown opcode changes nothing; with unique uuids the cache stays in agreement |
| ClientSocket.Client.Roster | client/src/socket.js:221-253 | JOIN_ROOM, PLAYER_JOINED and PLAYER_LEFT change the player list as their handlers do, and PLAYER_LEFT keeps the cache in agreement |
| ClientSocket.Client.Relay | client/src/socket.js:254-600 | the other opcodes leave the player list alone and change only what their handlers write |
| ClientWorker.Latest | client/src/worker.js:15-16 | the window holds at most n samples: all of them when there are fewer, else the last n |
| ClientWorker.LatestSnoc | client/src/worker.js:15-16 | pushing a sample and shifting once when over n gives the latest-n window of the longer history |
| ClientWorker.Ceil | client/src/worker.js:27 | `Math.ceil`: the least integer not below x |
| ClientWorker.AveragePing | client/src/worker.js:25-28 | the average ping is 0 for an empty window, else the least integer not below the mean |
| ClientWorker.AveragePingBound | client/src/worker.js:25-28 | a window of samples all at most h averages to at most h |
| ClientWorker.SumBound | client/src/worker.js:27 | n samples all at most h sum to at most n * h |
| ClientWorker.LargestBelow | client/src/worker.js:30-39 | the result is 0 or one of the steps strictly below the average |
| ClientWorker.LargestBelowIsMax | client/src/worker.js:30-39 | on an increasing ladder no step below the average exceeds it |
| ClientWorker.StepsIncrease | client/src/worker.js:30-33 | on an increasing ladder every earlier step is smaller |
| ClientWorker.Telescope | client/src/worker.js:34-39 | on an increasing ladder the loop's gains add up to the largest step below the average ping |
| ClientWorker.PingStepsIncrease | client/src/worker.js:30-33 | the eighteen ping steps strictly increase |
| ClientWorker.ComputeLookahead | client/src/worker.js:24-39 | the lookahead is the base plus the largest ping step below the average ping |
| ClientWorker.ClimbLadder | client/src/worker.js:34-39 | the loop adds each step's rise over the previous one whenever the average is above the step |
| ClientWorker.Delay | client/src/worker.js:43-49 | an event's delay is never negative, and is either 0 or `ts - now + lookahead` |
| ClientWorker.Schedule | client/src/worker.js:41-51 | one timer per drained event, in buffer order, each with that event's delay |
| ClientWorker.Worker.constructor | client/src/worker.js:3-5 | a fresh scheduler has an empty buffer, no offset, no pings and no timers |
| ClientWorker.Worker.OnMessage | client/src/worker.js:7-18 | an event joins the buffer; an offset replaces the offset; a ping joins the window, which keeps the latest ten; other messages change nothing |
| ClientWorker.Worker.ProcessNotes | client/src/worker.js:20-52 | a tick drains the whole buffer and sets one timer per event, in order, at the server-adjusted time with the lookahead of the window; no delay is negative |
| ClientWorker.Worker.SetTimers | client/src/worker.js:41-51 | the loop appends exactly the schedule of the drained events |
| ClientPiano.IndexOf | client/src/piano.js:35 | `indexOf` is -1 exactly when the name is absent, and otherwise the first position holding it |
| ClientPiano.ContainsChar | client/src/piano.js:34 | `includes` of a one-character string holds exactly when the character occurs |
| ClientPiano.Octaves | client/src/piano.js:59 | n octaves of the twelve names give 12n (name, octave) pairs |
| ClientPiano.KeyRun | client/src/piano.js:62-64 | one key per layout entry |
| ClientPiano.KeyRunAt | client/src/piano.js:62-64 | key u is the key `addPianoKey` makes from entry u, with u as uid |
| ClientPiano.KeyRunSnoc | client/src/piano.js:62-64 | one more layout entry adds its key at the end |
| ClientPiano.LayoutAt | client/src/piano.js:55-61 | the layout has 88 entries and entry u is name `(u + 9) mod 12` of octave `(u + 9) div 12 - 1` |
| ClientPiano.NoteTags | client/src/piano.js:35 | the twelve note names are told apart by their length and first letter |
| ClientPiano.NoteSharp | client/src/piano.js:34 | exactly the names at positions 1, 3, 6, 8 and 10 contain "s" |
| ClientPiano.IndexOfDistinct | client/src/piano.js:35 | in a list whose entries are told apart, `indexOf` finds each entry at its own position |
| ClientPiano.NoteLetters | client/src/piano.js:31 | every note name consists of lower-case letters |
| ClientPiano.NoteTextInjective | client/src/piano.js:31 | two keys named from the note names have the same note text only when name and octave agree |
| ClientPiano.JoinAt | client/src/piano.js:31 | in equal concatenations the character after the shorter left part is the first of its right part |
| ClientPiano.NotesIndex | client/src/piano.js:34-35 | every note name is found at its own position, and the black keys are the names containing "s" |
| ClientPiano.StandardKeys | client/src/piano.js:29-65 | the table has 88 keys; key u has uid u, runs chromatically from A of octave -1 to C of octave 7, has no blips, and is black exactly on the sharps |
| ClientPiano.LetterAndDigitLabels | client/src/piano.js:92-98 | a letter key is labelled with the lower-case letter, a digit key with the digit |
| ClientPiano.SymbolLabels | client/src/piano.js:100-115 | each listed symbol code gets its one-character label; any other code that is not a letter or digit code gets none |
| ClientPiano.Live | client/src/piano.js:280 | the kept blips are exactly those at most 1000 ms old, never more than before |
| ClientPiano.LiveLater | client/src/piano.js:280 | filtering again later keeps exactly what a single later filter keeps; the filter is idempotent |
| ClientPiano.Keyboard.constructor | client/src/piano.js:11 | a fresh keyboard has no keys |
| ClientPiano.Keyboard.AddPianoKey | client/src/piano.js:29-43 | the new key goes to the end of the table, with its note text, name, octave, black flag and uid |
| ClientPiano.Keyboard.AddPianoKeys | client/src/piano.js:54-65 | the table gains one key per layout entry, its position as uid |
| ClientPiano.Keyboard.AddLayout | client/src/piano.js:62-64 | the loop appends exactly the keys of the layout |
| ClientPiano.Keyboard.DrawBlips | client/src/piano.js:267-281 | every key of the drawn colour keeps only its live blips; the other keys and the table's length are untouched |
| Wire.Frames | client/src/input.js:141-143 | one queued frame per note played, in playing order |
| Wire.HeardAll | client/src/socket.js:349-373 | one scheduler event per note played |
| Wire.ToInt32Fixed | client/src/utils.js:112-119 | a value already in the signed 32-bit range survives the 32-bit conversion unchanged |
| Wire.PressRelayed | server/src/services/pianoManager.js:24-33 | a press relayed by the server decodes on a listening page to the press as played, from the sender's seat |
| Wire.ReleaseRelayed | server/src/services/pianoManager.js:54-63 | a release relayed by the server decodes on a listening page to the release as played, from the sender's seat |
| Wire.SingleNoteRelayed | server/src/services/pianoManager.js:7-64 | a single note travels intact: the server accepts it exactly by the range and clock checks on the key, velocity and timestamp the page wrote, and the relayed frame decodes to the note as played |
| Wire.BatchHead | client/src/socket.js:341-378 | one queued note at the head of a batch payload is read back as its event |
| Wire.BatchFrames | client/src/socket.js:341-378 | the queued frames of several notes, followed by anything, are read back as their events in order |
| Wire.BatchRelayed | server/src/services/pianoManager.js:111-114 | two or more queued notes leave as one BATCH_NOTES frame, and the server's relay after the sender's seat decodes to the notes in playing order; one note leaves as its own frame |
| Wire.EventMoves | client/src/socket.js:272-288 | one timer per queued cursor sample |
| Wire.EventsBytesAt | server/src/services/roomManager.js:155-162 | sample j of a group's payload occupies bytes 6j..6j+5 |
| Wire.SubAfter | client/src/socket.js:273-279 | reading a window of b at offset x inside a + b reads the same bytes |
| Wire.MoveAtAfter | client/src/socket.js:273-280 | a cursor event of b is read the same at the shifted offset inside a + b |
| Wire.MovesAfter | client/src/socket.js:272-288 | a group's events of b are read the same at the shifted offset inside a + b |
| Wire.WindowIn | client/src/socket.js:273-280 | a window of w at offset x of q is read back part by part |
| Wire.EventAt | server/src/services/roomManager.js:150-164 | sample j's six bytes sit at its event offset in the group, whatever follows the group |
| Wire.MoveRead | client/src/socket.js:273-287 | sample j of a cursor's group reads back as that sample's delay and position for the cursor's seat |
| Wire.GroupMovesRead | client/src/socket.js:272-288 | the timers of a group's first n samples are those samples |
| Wire.GroupMovesAt | client/src/socket.js:272-288 | a decodable cursor's samples are read back at their place after any preceding bytes |
| Wire.GroupHeadAt | server/src/services/roomManager.js:150-153 | a cursor's group opens with its seat and its sample count, and the next group starts right after its samples |
| Wire.GroupReadAt | client/src/socket.js:257-289 | one decodable cursor's group reads as its samples' timers, then whatever follows the group |
| Wire.FlushDecodedAt | server/src/services/roomManager.js:142-171 | after any preceding bytes, a flush payload reads back as the flushed timers |
| Wire.FlushDecoded | server/src/services/roomManager.js:142-171 | when every cursor with samples has a known seat and a cursor element, a page reading the CURSOR_UPDATE flush sets one timer per queued sample, cursor by cursor in table order |
| Wire.JoinerSettings | server/src/services/roomManager.js:113-121 | the four settings bytes a joiner receives make its view the room's, whatever it showed before |
| Wire.DialogReachesPages | server/src/services/roomManager.js:341-379 | a saved settings dialog reaches every page: a page that showed the room's settings then shows the four switches as the owner left them, which are the room's new settings |

## Left out

- The database (SQLite behind promises): its writes are appended to the server's `store` log, and loaded chat history arrives through `PianoServer.Server.HydrateChat`. Failures and completion order are not modelled.
- Interleaving at the database waits: every handler is modelled as running to completion, but the source awaits the database (server/src/db/index.js:27-45) in the middle of several handlers, and other messages, closes and timers can run during the wait. What the atomic model hides:
  - `handleChatMessage` awaits `saveMessageToDb` after pushing the message and before trimming the history to 55 and setting `lastMessageSent` (server/src/services/chatManager.js:68-86). A second message from the same socket that arrives during the write is judged against the old `lastMessageSent` and so can pass the 500 ms gap, and the history can briefly hold more than 55 entries. `Chat.GapEnforced`, `Chat.HistoryAppend` and `PianoServer.Server.PostMessage` hold for handlers that run one at a time.
  - JOIN_ROOM awaits `sendChatHistory` (server/src/handlers/websocketHandlers.js:64), which itself awaits a store read per message (server/src/services/chatManager.js:223-226). Frames from other handlers can reach the joiner after its welcome and before its history, so the "history last" of `PianoServer.Server.Proceed` and `PianoServer.Relocated` holds only when nothing else runs in between.
  - `handleConnection` awaits the store before it sets the address and applies the connection rate limit (server/src/services/clientManager.js:43), and again before it sends the room list to a new player (server/src/services/clientManager.js:75). A message or a close during the first wait finds no address and no player.
  - The admin-phrase claim, /del, /vanish, /setcolor and /setname await their store writes (server/src/services/chatManager.js:47, 155, 183, 197, 211). The model applies the notices that follow the write at once.
- sha256 and the salts in `hashIP`: the hash is an opaque function of the shuffled address. Only the shuffle is modelled.
- JSON and UTF-8 encoding and decoding: JSON payloads are kept as values inside the frame, and UTF-8 decoding is a function parameter of the server and the page.
- Randomness: the message-id bytes, the colour, the default username and the ping nonce are parameters.
- Timers: the ownership handover, the cursor flush, the client's event-queue timer and the worker's interval are methods called with the current time. The 500 ms vanished-mode notice is queued in `notices` when the vanished player joins and sent by `PianoServer.Server.FireNotice`. Real concurrency and the timer delays are not modelled: any message handled before a timer fires is simply handled before `FireNotice` is called.
- Floating point: cursor coordinates are integer hundredths of a percent. The server's divide-multiply-floor, which can turn 29 into 28, is not modelled. Velocity scaling, `performance.now()` fractions and all pixel, mouse and canvas maths are left out.
- The test room with eight fake users that the server builds at start-up (server/src/index.js:49-96), and the test-cookie address override in `handleConnection` (server/src/services/clientManager.js:30-39).
- The order `Object.keys` gives integer-like room names: the room list follows creation order for every name.
- The client's SET_NAME username write and the OWNERSHIP_TRANSFER crown write: the page's players are values, and those handlers write through a shared object. They are modelled only as the id-cache lookups they make.
- ClientSocket.Client.Relay: SEND_CHAT always looks the sender up, while the page parses the JSON text first (client/src/socket.js:383-384), so malformed JSON throws before the lookup. The JSON text is not modelled. The model may then cache a player the page would not have cached yet; the cache agrees with the player list either way (`ClientSocket.CacheAgrees`), so later lookups give the same player, and a failed lookup caches nothing in both (client/src/socket.js:70-75).
- ClientSocket.Client.Receive: a page that receives two players with the same uuid is not followed further. The cache agreement it ensures is promised only while uuids are unique.
- Audio, DOM and UI: Web Audio, dialogs, MIDI, the player list's rendering, the room-list DOM, chat rendering, profanity masking and homoglyph normalisation, `truncateTextWidth`, key bindings, and the client's reconnect back-off.
- The client constants module is not part of this model. NOTES is the chromatic scale from C that the key layout implies, and `LOOKAHEAD_MS` is a parameter of the worker.
- `safeClose`'s delayed terminate: a closed socket is marked closing at once.
- PianoServer.Server.JoinRoom, PianoServer.Server.OpenRoom, PianoServer.Server.CreateRoom, PianoServer.Server.Settle, PianoServer.Server.LeaveRoom: the room table is a map, so two inherited names behave like any other name here. In the source, `rooms["__proto__"] = {...}` sets the prototype and stores no key, so every join of "__proto__" re-creates the room and drops its earlier members, and `leaveRoom` returns at roomManager.js:189 because `roomExists` finds no own key. A room named "hasOwnProperty" shadows the method `roomExists` calls, so every later `roomExists` throws, and with it every later join and leave. Only the cursor-flush consequence of inherited names (`PianoServer.Started`) is modelled.
- Text.LowerAll: lower-cases ASCII letters only, while `toLowerCase` follows Unicode. For the command words the result is the same: the only non-ASCII character that lowers to an ASCII letter is the Kelvin sign, which lowers to "k", and no command contains a "k". Characters that lower to two (such as U+0130) are not modelled. In `leetPattern` a non-ASCII capital such as "É" keeps its case in its group where the source lowers it to "é"; the pattern is compiled with the `i` flag (client/src/chat.js:255), so what it matches is the same.
- Leet.LeetPattern: the pattern is built per character, while `text.split("")` splits into UTF-16 code units; a character above U+FFFF is one piece here and two surrogate pieces there.
