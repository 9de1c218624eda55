# Wire protocol of the two-player platform game, in Dafny

This project models the binary protocol a Java game server and its C
clients (a player client, a spectator client and an older console client)
use to talk to each other. It also models the small records and the
integer collision code those messages drive.

- **Frames.** Every message is a 16-byte big-endian header followed by its
  payload: version 1, type, reserved, client id, game id and payload
  length (`Frame`). The C side reads and writes it with `proto.h` and
  `proto.c` (`Bytes`, `CProto`). The Java side writes it with `Proto`
  (`JavaProto`) over a `DataOutputStream` and reads it back in
  `AnswerProcessor.processFrame` (`JavaIo`, `AnswerProcessor`).
- **TLV records.** A record is a type byte, a 16-bit big-endian length and a value.
  The C cursor `tlv_next` (`CTlv`) and the Java `TLVParser` (`JavaTlv`)
  read them, `Proto.writeTLV` and `entities_tlv_build` (`EntitiesTlv`)
  write them. Both clients' `on_state_bundle` walks them (`StateBundle`).
- **Server messages.** `Messenger`, the spawn factories and the payloads
  the C handlers decode from them (`Messenger`, `SpawnFactories`,
  `Handlers`, `ClientInterop`, `Interop`). This includes the
  `INIT_STATIC` map the client stores in `g_static` (`StaticMap`).
- **Client set-up.** The dispatcher table (`Dispatch`) and the spectator's
  start-up handshake (`SpectatorClient`). The player client's proposals
  and their decoding by the server (`PlayerClient`). The console client's
  header and matrix parser (`LegacyClient`).
- **State records.** The server's `player` and `Rect` (`ServerPlayer`,
  `Rects`). The client's `Player` death flags (`GamePlayer`) and its
  crocodiles and fruits (`Actors`).
- **Collision.** The client's integer AABB collision: platform resolution,
  grounding and vine contact (`Collision`).

**How the code is modelled**
- Code that works on values is written as functions.
- Code that changes state in place is written as classes and methods:
  - the Java streams, the C socket and the TLV cursors;
  - the dispatcher table;
  - the static-map store;
  - the player, crocodile and fruit records.
- Each such method is specified by a function of the old state.
- Java `int`, `short` and `byte` arithmetic and the C fixed-width casts
  are modelled explicitly (`Wrap32`, `Wrap16`, `Low8`, `AsI16`, ...).
- C integer division truncates toward zero (`CDiv`).
- A C `NULL` pointer becomes a `null` reference, or `None` for an absent
  array.

**Behaviour of the code worth stating** (the model follows the code):
- `processFrame` reads the version byte and never checks it
  (`AnswerProcessor.VersionIgnored`).
- A negative payload length is not a fault there: nothing is skipped, and
  the next frame is read straight after the header.
- The older console client uses its own type codes (`MATRIX_STATE` 1,
  `CLIENT_ACK` 2). Its `cp_read_header` accepts any version. Only its
  header and matrix parsing are modelled.
- The spectator's `CP_TYPE_*` names for the codes from 0x30 up are not
  defined in any of the client's C headers; they are given the server's
  `MsgType` values.

## Model

| member | source | states |
|---|---|---|
| Bytes.Be16Enc16 | clientC/UtilsC/proto.h:12-14 | `be16` reads back every 16-bit value `wr_be16` stores |
| Bytes.Enc16Be16 | clientC/UtilsC/proto.h:12-14 | every two bytes are what `wr_be16` stores for the value `be16` reads from them |
| Bytes.Be32Enc32 | clientC/UtilsC/proto.h:13-15 | `be32` reads back every 32-bit value `wr_be32` stores |
| Bytes.Enc32Be32 | clientC/UtilsC/proto.h:13-15 | every four bytes are what `wr_be32` stores for the value `be32` reads from them |
| Bytes.Enc16IsBeBytes | clientC/UtilsC/proto.h:14 | `wr_be16` stores exactly the two low-order bytes of the value, most significant first, against an independent positional definition |
| Bytes.Enc32IsBeBytes | clientC/UtilsC/proto.h:15 | `wr_be32` stores exactly the four low-order bytes, most significant first, against the same positional definition |
| Bytes.Be16IsBeValue | clientC/UtilsC/proto.h:12 | `be16` is the weighted byte sum over exactly the first two bytes |
| Bytes.Be32IsBeValue | clientC/UtilsC/proto.h:13 | `be32` is the weighted byte sum over exactly the first four bytes |
| Bytes.BeValueBeBytes | clientC/UtilsC/proto.h:12-15 | writing the `n` low-order bytes of a value and reading them back gives the value modulo 256^n |
| Bytes.ShiftBytes16IsEnc16 | serverJava/Messages/factories/CrocodileFactory.java:26-27 | Java's `(byte)(x >> 8), (byte)x` are the big-endian bytes of the low 16 bits of `x`, for any `int` |
| Bytes.ShiftBytes16Decodes | serverJava/MessageManagement/Messenger.java:122-125 | a coordinate that fits in 16 signed bits is read back unchanged as an `int16_t` |
| Bytes.CDivTruncates | clientC/UI/Game/Logic/collision.c:60-64 | C's `/` on `int` truncates toward zero: the remainder is smaller than the divisor and has the sign of the dividend |
| Frame.Encode | clientC/UtilsC/proto.c:19-24 | a header is laid out in exactly 16 bytes |
| Frame.DecodeEncode | clientC/UtilsC/proto.c:7-17 | reading back the 16 bytes of any header gives every field back (`cp_read_header` after `cp_write_header`) |
| Frame.EncodeDecode | clientC/UtilsC/proto.c:7-17 | any 16 bytes are the layout of the header they decode to, so no header bytes are lost |
| Frame.DecodePrefix | clientC/UtilsC/proto.c:7-17 | a header decodes from its 16 bytes alone, whatever follows them |
| CProto.WrBe16 | clientC/UtilsC/proto.h:14 | `wr_be16` stores the value big-endian in its two bytes and touches nothing else |
| CProto.WrBe32 | clientC/UtilsC/proto.h:15 | `wr_be32` stores the value big-endian in its four bytes and touches nothing else |
| CProto.ReadHeader | clientC/UtilsC/proto.c:7-17 | on a short read it fails and leaves the header as it was; otherwise it consumes exactly 16 bytes, fills every field from them, and succeeds exactly when the version is 1 |
| CProto.WriteHeader | clientC/UtilsC/proto.c:19-24 | writes exactly the header's 16 bytes, and succeeds exactly when the write does |
| CProto.SendFrame | clientC/UtilsC/proto.c:26-32 | writes a version-1 header carrying the payload length, then the payload (nothing more for an empty payload); succeeds exactly when the writes do |
| CProto.SentFrameReadsBack | clientC/UtilsC/proto.c:7-32 | what `cp_send_frame` writes is read back by `cp_read_header` as version 1 with the same type, ids and length, and the payload follows |
| CTlv.Step | clientC/UtilsC/tlv.h:12-21 | a record is returned exactly when 3 bytes and its declared length are available; it is then the type byte, the big-endian length and the value offset |
| CTlv.StepRecordBytes | clientC/UtilsC/tlv.h:12-21 | a record of type `t` and value `v` followed by anything parses back to `t`, `|v|` and `v`, empty values included |
| CTlv.TlvBuf.Init | clientC/UtilsC/tlv.h:8-10 | `tlv_init` makes the cursor cover exactly the given bytes |
| CTlv.TlvBuf.Next | clientC/UtilsC/tlv.h:12-21 | succeeds exactly when `Step` finds a record, then steps past it; on failure the cursor does not move, and the type and length outputs are written only when 3 bytes were there |
| JavaProto.Header | serverJava/MessageManagement/Proto.java:45-52 | `writeHeader` writes version 1, reserved 0, and the type, destination, game id and length as their two's-complement bits |
| JavaProto.WriteHeader | serverJava/MessageManagement/Proto.java:45-52 | appends exactly the 16 bytes of `Header(...)` |
| JavaProto.U16Bytes | serverJava/MessageManagement/Proto.java:61-63 | `writeU16` writes two bytes reading back as the value's low 16 bits |
| JavaProto.U16BytesPeriodic | serverJava/MessageManagement/Proto.java:61-63 | values that differ by a multiple of 65536 are written identically |
| JavaProto.WriteU16 | serverJava/MessageManagement/Proto.java:61-63 | appends exactly `U16Bytes(v)` |
| JavaProto.RectBytes | serverJava/MessageManagement/Proto.java:72-77 | a rectangle is eight bytes, x, y, w and h each reading back as its low 16 bits |
| JavaProto.WriteRect | serverJava/MessageManagement/Proto.java:72-77 | appends exactly `RectBytes(r)` |
| JavaProto.TlvBytes | serverJava/MessageManagement/Proto.java:87-91 | a record is the type's low byte, the value length's low 16 bits and the value |
| JavaProto.TlvBytesIsRecord | serverJava/MessageManagement/Proto.java:87-91 | for a value under 65536 bytes, `writeTLV` writes exactly the record the C `tlv_next` reads |
| JavaProto.WriteTlv | serverJava/MessageManagement/Proto.java:87-91 | appends exactly `TlvBytes(t, value)` |
| JavaProto.BbU32 | serverJava/MessageManagement/Proto.java:99-101 | four bytes, high first, that read back as `v` (unsigned as its bit pattern, signed as `v` itself) |
| JavaProto.BbI16 | serverJava/MessageManagement/Proto.java:109-111 | two bytes, high first, that read back as `v` |
| JavaIo.DataOutput.WriteByte | serverJava/MessageManagement/Proto.java:46-47 | `writeByte` appends the value's low 8 bits |
| JavaIo.DataOutput.WriteShort | serverJava/MessageManagement/Proto.java:48 | `writeShort` appends the low 16 bits, high byte first |
| JavaIo.DataOutput.WriteInt | serverJava/MessageManagement/Proto.java:49-51 | `writeInt` appends the 32 bits, high byte first |
| JavaIo.DataOutput.Write | serverJava/MessageManagement/Proto.java:90 | `write(byte[])` appends the bytes |
| JavaIo.DataInput.ReadFully | serverJava/MessageManagement/AnswerProcessor.java:74-75 | reads exactly `n` bytes, or throws at end of stream |
| JavaIo.DataInput.SkipNBytes | serverJava/MessageManagement/AnswerProcessor.java:42 | skips nothing for `n <= 0`, otherwise exactly `n` bytes, or throws at end of stream |
| JavaIo.DataInput.ReadByte | serverJava/MessageManagement/AnswerProcessor.java:32-33 | reads one signed byte, or throws at end of stream |
| JavaIo.DataInput.ReadUnsignedShort | serverJava/MessageManagement/AnswerProcessor.java:34 | reads two bytes as an unsigned big-endian value |
| JavaIo.DataInput.ReadShort | serverJava/MessageManagement/AnswerProcessor.java:47-50 | reads two bytes as a signed big-endian value |
| JavaIo.DataInput.ReadInt | serverJava/MessageManagement/AnswerProcessor.java:35-37 | reads four bytes as a signed big-endian value |
| Net.Socket.ReadN | clientC/clientPlayer/net.h:18-19 | `net_read_n` returns `n` and the next `n` bytes when the peer sends them; otherwise it returns 0 at close, with the stream used up |
| Net.Socket.WriteN | clientC/clientPlayer/netPOSIX.c:72-88 | `net_write_n` appends all of the buffer and returns its length, or returns -1 and writes nothing; an empty buffer writes nothing and returns 0 |
| Rects.Rect.Left | serverJava/Utils/Rect.java:5 | the left edge is `x` |
| Rects.Rect.Top | serverJava/Utils/Rect.java:7 | the top edge is `y` |
| Rects.Rect.Right | serverJava/Utils/Rect.java:6 | the right edge is `x + w` in Java `int` arithmetic: exact when it fits, otherwise wrapped by 2^32 |
| Rects.Rect.Bottom | serverJava/Utils/Rect.java:8 | the bottom edge is `y + h` in Java `int` arithmetic: exact when it fits, otherwise wrapped by 2^32 |
| Rects.EdgesOrdered | serverJava/Utils/Rect.java:4-8 | for a non-negative size that does not overflow, left <= right and top <= bottom, and the edges are `w` and `h` apart |
| Rects.RightWrapsIffOverflow | serverJava/Utils/Rect.java:6 | with a non-negative width, `right()` comes out below `left()` exactly when `x + w` overflows an `int` |
| ServerPlayer.New | serverJava/Classes/Player/player.java:21-36 | a new player is at the given position, at rest, with 3 lives, alive and score 0 |
| ServerPlayer.Apply | serverJava/Classes/Player/player.java:41-94 | no mutator moves the player; `setLives` and `setScore` assign their argument; `increaseLives` adds one with `int` wrap-around; lives change only under the lives mutators and the score only under the score mutators; `isDead` is never cleared, and only `decreaseLives` sets it, exactly when lives reach 0 or below |
| ServerPlayer.DecreaseLivesTakesOne | serverJava/Classes/Player/player.java:41-46 | without wrap-around, one life is taken, and a player with at most one life is dead afterwards |
| ServerPlayer.IncreaseScoreAdds | serverJava/Classes/Player/player.java:53-55 | when the sum fits an `int`, the points are added exactly |
| ServerPlayer.IncreaseLivesAddsOne | serverJava/Classes/Player/player.java:57-62 | `increaseLives` adds exactly one life while the sum fits an `int` |
| ServerPlayer.MutatorsKeepDeathAndPosition | serverJava/Classes/Player/player.java:41-94 | no sequence of mutators revives a dead player or moves one |
| ServerPlayer.ThreeLivesThenDead | serverJava/Classes/Player/player.java:21-46 | a new player is dead after three `decreaseLives` and still alive after two |
| ServerPlayer.Player.constructor | serverJava/Classes/Player/player.java:33-36 | the object's state is `New(x, y)` |
| ServerPlayer.Player.DecreaseLives | serverJava/Classes/Player/player.java:41-46 | the new state is `Apply` of `DecreaseLives` to the old one |
| ServerPlayer.Player.IncreaseScore | serverJava/Classes/Player/player.java:53-55 | the new state is `Apply` of `IncreaseScore(points)` to the old one |
| ServerPlayer.Player.IncreaseLives | serverJava/Classes/Player/player.java:60-62 | the new state is `Apply` of `IncreaseLives` to the old one: one more life, with `int` wrap-around |
| ServerPlayer.Player.GetLives | serverJava/Classes/Player/player.java:67-69 | the current lives |
| ServerPlayer.Player.GetScore | serverJava/Classes/Player/player.java:74-76 | the current score |
| ServerPlayer.Player.SetLives | serverJava/Classes/Player/player.java:83-85 | the new state is `Apply` of `SetLives(lives)`: lives replaced, death flag untouched |
| ServerPlayer.Player.SetScore | serverJava/Classes/Player/player.java:92-94 | the new state is `Apply` of `SetScore(score)`: the score is the argument |
| SpawnFactories.SpawnPayloadLayout | serverJava/Messages/factories/CrocodileFactory.java:24-27 | the spawn payload is five bytes: the variant's bits, then the low 16 bits of x and of y, high byte first |
| SpawnFactories.CrocSpawn | serverJava/Messages/factories/CrocodileFactory.java:23-33 | type `CROC_SPAWN`, five bytes: the variant, then x and y as their low 16 bits, high byte first |
| SpawnFactories.FruitSpawn | serverJava/Messages/factories/FruitFactory.java:24-34 | type `FRUIT_SPAWN`, the same five-byte layout |
| Messenger.Session.constructor | serverJava/MessageManagement/Messenger.java:82-86 | a session is its client id and its stream |
| Messenger.FrameBytes | serverJava/MessageManagement/Messenger.java:86-87 | a frame is a 16-byte header followed by exactly the payload |
| Messenger.RectsBytesLength | serverJava/MessageManagement/Messenger.java:64-67 | each rectangle of a list takes 8 bytes |
| Messenger.LegacyLengthAccounting | serverJava/MessageManagement/Messenger.java:50-67 | the payload is 8 + 4*2 + 8 per rectangle of the four lists, and the declared `payloadLen`, computed with wrapping `int` arithmetic, equals that size whenever it fits an `int` |
| Messenger.WriteRects | serverJava/MessageManagement/Messenger.java:64-67 | the `for (Rect r: list) Proto.writeRect` loop appends every rectangle's 8 bytes, in order |
| Messenger.WriteArray | serverJava/MessageManagement/Messenger.java:64-67 | appends the list's size as `writeU16`, then its rectangles |
| Messenger.WriteLegacyPayload | serverJava/MessageManagement/Messenger.java:63-67 | appends the player rectangle and the four counted lists, in order |
| Messenger.SendInitStaticLegacy | serverJava/MessageManagement/Messenger.java:50-70 | appends an `INIT_STATIC` header declaring the wrapped `payloadLen`, then the player and the four lists, with no water list |
| Messenger.WithWaterLengthAccounting | serverJava/MessageManagement/Messenger.java:50-67 | the corrected declared length is exactly the size of the corrected payload |
| Messenger.SendInitStaticWithWater | serverJava/MessageManagement/Messenger.java:50-70 | the corrected send: appends a header whose length counts the water list, then the legacy payload and the water list |
| Messenger.SendSpawnCroc | serverJava/MessageManagement/Messenger.java:82-89 | appends a `CROC_SPAWN` frame addressed to the session's client carrying the factory's five bytes |
| Messenger.SendSpawnFruit | serverJava/MessageManagement/Messenger.java:101-108 | appends a `FRUIT_SPAWN` frame carrying the factory's five bytes |
| Messenger.RemoveFruitPayload | serverJava/MessageManagement/Messenger.java:121-125 | four bytes that read back as the low 16 bits of x, then of y |
| Messenger.SendRemoveFruit | serverJava/MessageManagement/Messenger.java:121-128 | appends a `REMOVE_FRUIT` frame with those four bytes |
| Messenger.SendLivesUpdate | serverJava/MessageManagement/Messenger.java:149-154 | appends a `LIVES_UPDATE` frame whose one payload byte is the lives' bits |
| Messenger.SendScoreUpdate | serverJava/MessageManagement/Messenger.java:165-170 | appends a `SCORE_UPDATE` frame whose four bytes are the score, high first |
| Messenger.SpectatorStatePayload | serverJava/MessageManagement/Messenger.java:212-222 | nine bytes that read back as x, y, vx and vy as signed 16-bit values and the flags as a signed byte |
| Messenger.SendSpectatorState | serverJava/MessageManagement/Messenger.java:212-227 | appends a `SPECTATOR_STATE` frame declaring 9 bytes, then those bytes |
| Messenger.RoleByte | serverJava/MessageManagement/Messenger.java:260-265 | 1 exactly for a player, 2 exactly for a spectator, 0 exactly when there is no role |
| Messenger.AckPayload | serverJava/MessageManagement/Messenger.java:260-279 | three bytes: the role byte, then for each slot its spectator count's low byte when active and 255 when not |
| Messenger.SendClientAckWithSlots | serverJava/MessageManagement/Messenger.java:257-281 | appends a `CLIENT_ACK` frame declaring 3 bytes, then the acknowledgement bytes |
| Messenger.SendClientAck | serverJava/MessageManagement/Messenger.java:237-239 | appends a `CLIENT_ACK` carrying the role byte and 255 for both slots |
| Messenger.SendNotice | serverJava/MessageManagement/Messenger.java:137-140 | appends a header declaring no payload, and nothing else |
| Messenger.SendRespawnDeath | serverJava/MessageManagement/Messenger.java:137-140 | appends an empty `PLAYER_RESPAWN` frame |
| Messenger.SendGameOver | serverJava/MessageManagement/Messenger.java:178-181 | appends an empty `PLAYER_GAME_OVER` frame |
| Messenger.SendRespawnWin | serverJava/MessageManagement/Messenger.java:189-192 | appends an empty `RESPAWN_VICTORY` frame |
| Messenger.SendCrocSpeedIncrease | serverJava/MessageManagement/Messenger.java:289-292 | appends an empty `CROC_SPEED_INCREASE` frame |
| Messenger.SendGameRestart | serverJava/MessageManagement/Messenger.java:300-303 | appends an empty `GAME_RESTART` frame |
| JavaTlv.RecordAt | serverJava/MessageManagement/TLVParser.java:35-50 | a record is found exactly when at least `minLeft` bytes remain and its 3-byte head plus declared length fit; it is then the signed type byte, the big-endian length and that many value bytes, and the cursor lands after them |
| JavaTlv.NextAt | serverJava/MessageManagement/TLVParser.java:35-37 | `next()` as written: with fewer than 4 bytes left it returns no record |
| JavaTlv.NextAtDiffersOnlyOnTrailingEmpty | serverJava/MessageManagement/TLVParser.java:29-42 | the `remaining() < 4` guard and the documented "full record" guard disagree exactly on a zero-length record in the last 3 bytes |
| JavaTlv.TrailingEmptyRecordRejected | serverJava/MessageManagement/TLVParser.java:36 | as written, a zero-length record that ends the buffer is not returned, although the C `tlv_next` accepts it |
| JavaTlv.FixedAgreesWithC | clientC/UtilsC/tlv.h:12-21 | with the corrected guard, the Java parser returns a record exactly when `tlv_next` does, with the same type bits, length and value |
| JavaTlv.FixedReadsWrittenRecord | serverJava/MessageManagement/Proto.java:87-91 | with the corrected guard, every record `writeTLV` writes (empty values included) parses back to its type, length and value, and the cursor lands after it |
| JavaTlv.ReadsWrittenRecord | serverJava/MessageManagement/TLVParser.java:35-50 | as written, every record `writeTLV` writes with a non-empty value parses back whole |
| JavaTlv.TlvParser.Remaining | serverJava/MessageManagement/TLVParser.java:25-27 | `remaining()` is the number of unread bytes and is never negative |
| JavaTlv.TlvParser.Next | serverJava/MessageManagement/TLVParser.java:35-50 | returns the record `NextAt` finds and moves the cursor past it; otherwise returns null and leaves the cursor |
| AnswerProcessor.HeaderReadsBack | serverJava/MessageManagement/AnswerProcessor.java:32-37 | the six header reads give back every field `Proto.writeHeader` wrote, with version 1 and reserved 0 |
| AnswerProcessor.LoggedOnlyEntities | serverJava/MessageManagement/AnswerProcessor.java:79-95 | only `TLV_ENTITIES_CORR` records are logged, and at most one per 3 payload bytes |
| AnswerProcessor.LoggedWrittenRecord | serverJava/MessageManagement/AnswerProcessor.java:79-95 | a record written by `writeTLV` with a non-empty value is logged exactly when its type is `TLV_ENTITIES_CORR`, and logging continues with what follows |
| AnswerProcessor.TrailingEmptyEntitiesNotLogged | serverJava/MessageManagement/AnswerProcessor.java:79-83 | an empty `ENTITIES_CORR` record at the end of a bundle is never logged |
| AnswerProcessor.ProposalFrame | serverJava/MessageManagement/AnswerProcessor.java:39-69 | the `PLAYER_PROPOSED` branch returns normally exactly when `max(len, 0)` payload bytes are present, and leaves the cursor after them; it broadcasts exactly when `len >= 13`, with the header's `fromId` and the proposal's x, y, vx, vy and flags |
| AnswerProcessor.BundleFrame | serverJava/MessageManagement/AnswerProcessor.java:71-97 | the `STATE_BUNDLE` branch reads nothing for `len <= 0`; otherwise it reads exactly the `len` payload bytes, and fails when they are missing |
| AnswerProcessor.SkipFrame | serverJava/MessageManagement/AnswerProcessor.java:99-102 | any other type skips `max(len, 0)` bytes, and fails when they are missing |
| AnswerProcessor.Process | serverJava/MessageManagement/AnswerProcessor.java:30-103 | `processFrame` returns normally exactly when the header and `max(len, 0)` payload bytes are present, and leaves the cursor right after them; it broadcasts only for `PLAYER_PROPOSED` with `len >= 13`, and hands on a bundle only for `STATE_BUNDLE` with `len > 0` |
| AnswerProcessor.Mirror | serverJava/MessageManagement/AnswerProcessor.java:58-64 | the server player takes the broadcast position and velocity; lives, score and death are unchanged; without a broadcast nothing changes |
| AnswerProcessor.VersionIgnored | serverJava/MessageManagement/AnswerProcessor.java:32 | the version byte is read but never checked: any other version is handled identically |
| AnswerProcessor.ProcessWrittenFrame | serverJava/MessageManagement/AnswerProcessor.java:30-103 | a frame the server itself writes is consumed by exactly one call, which ends at the next frame's header |
| AnswerProcessor.ProcessStream | serverJava/MessageManagement/AnswerProcessor.java:30-103 | a stream of written frames is processed frame by frame, and the headers read are the headers written, in order |
| AnswerProcessor.ReadHeader | serverJava/MessageManagement/AnswerProcessor.java:32-37 | the 16 header bytes are read into `HeaderAt`; when fewer remain the read throws with the stream used up |
| AnswerProcessor.ReadProposal | serverJava/MessageManagement/AnswerProcessor.java:46-51 | the 13 proposal bytes are read into `ProposalAt`; when fewer remain the read throws |
| AnswerProcessor.LogEntities | serverJava/MessageManagement/AnswerProcessor.java:77-95 | the parser loop logs exactly `Logged(buf)` |
| AnswerProcessor.LogNext | serverJava/MessageManagement/AnswerProcessor.java:79-94 | one turn of the loop either stops where nothing more is logged, or advances the cursor and logs this record's part of `Logged` |
| AnswerProcessor.LoggedStep | serverJava/MessageManagement/AnswerProcessor.java:79-94 | `Logged` at a cursor is the record `next()` returns there, if it is an entity list, followed by `Logged` after it |
| AnswerProcessor.HandleProposal | serverJava/MessageManagement/AnswerProcessor.java:39-69 | agrees with `ProposalFrame` on the outcome, the cursor and the broadcast, and mirrors the broadcast into `server.p1` when that player exists |
| AnswerProcessor.HandleBundle | serverJava/MessageManagement/AnswerProcessor.java:71-97 | agrees with `BundleFrame`, and logs `Logged` of the payload that was read |
| AnswerProcessor.SkipPayload | serverJava/MessageManagement/AnswerProcessor.java:99-102 | agrees with `SkipFrame` |
| AnswerProcessor.ProcessFrame | serverJava/MessageManagement/AnswerProcessor.java:30-103 | agrees with `Process` on the outcome, the cursor, the broadcast and the entity records logged, and mirrors a broadcast into `server.p1` |
| JavaTlv.TlvParser.constructor | serverJava/MessageManagement/TLVParser.java:17-20 | the parser starts at position 0 of the buffer it is given |
| StaticMap.RectsAt | clientC/UI/Game/static_map.c:26-28 | reading `n` rectangles back to back yields exactly `n` of them |
| StaticMap.ParseRectArray | clientC/UI/Game/static_map.c:16-30 | a successful `read_rect_array` never runs past the end of the payload |
| StaticMap.RectsBytesLayout | clientC/UI/Game/static_map.c:26-28 | a list of rectangles takes 8 bytes each, rectangle `i` at offset `8 * i` |
| StaticMap.RectAtBytes | clientC/UI/Game/static_map.c:9-14 | `read_rect` reads back every rectangle written as four big-endian `uint16_t` |
| StaticMap.RectBytesOfRectAt | clientC/UI/Game/static_map.c:9-14 | any 8 bytes are the layout of the rectangle `read_rect` makes of them |
| StaticMap.RectsAtBytes | clientC/UI/Game/static_map.c:26-28 | rectangles written back to back are read back in order |
| StaticMap.RectsBytesOfRectsAt | clientC/UI/Game/static_map.c:26-28 | the rectangles read from `8 * n` bytes are the layout of those bytes |
| StaticMap.ParseArrayBytes | clientC/UI/Game/static_map.c:16-30 | a count and its rectangles, followed by anything, parse back to the list (`NULL` for an empty one) and stop right after them |
| StaticMap.ParsedIsArrayBytes | clientC/UI/Game/static_map.c:16-30 | conversely, a successful parse spans exactly the count and the rectangles it returned |
| StaticMap.ParsedArrayMatchesCount | clientC/UI/Game/static_map.c:16-30 | a parsed array is absent exactly when its count is 0 and otherwise holds as many rectangles as the count |
| StaticMap.InitStaticAcceptsLayout | clientC/UI/Game/static_map.c:46-69 | a payload laid out as player, platforms, vines, enemies, fruits and water is accepted and leaves platforms, vines and water in the store |
| StaticMap.InitStaticAcceptsOnlyLayouts | clientC/UI/Game/static_map.c:46-69 | conversely, every accepted payload is exactly such a layout with nothing after it, and the store holds its three kept lists |
| StaticMap.AcceptedLayout | clientC/UI/Game/static_map.c:46-69 | the layout an accepted payload is the bytes of |
| StaticMap.InitStaticKeepsCounts | clientC/UI/Game/static_map.c:37-69 | whatever the payload, accepted or not, every array left in the store holds exactly as many rectangles as its count |
| StaticMap.Cursor.constructor | clientC/UI/Game/static_map.c:46 | the cursor starts at the payload's first byte with its whole length left |
| StaticMap.Cursor.ReadRect | clientC/UI/Game/static_map.c:9-14 | fails and moves nothing with fewer than 8 bytes left; otherwise reads the rectangle there and advances 8 |
| StaticMap.Cursor.ReadRectArray | clientC/UI/Game/static_map.c:16-30 | with no count, fails untouched; with too few rectangles, fails having stored the count and consumed its 2 bytes; otherwise returns the count and the rectangles and stops after them |
| StaticMap.StaticStore.constructor | clientC/UI/Game/static_map.c:33 | the store starts zeroed, arrays absent |
| StaticMap.StaticStore.Free | clientC/UI/Game/static_map.c:37-41 | all three arrays are dropped and their counts zeroed |
| StaticMap.StaticStore.RecvInitStaticPayload | clientC/UI/Game/static_map.c:46-69 | succeeds and stores exactly what `InitStatic` describes: the store is cleared first, a failure keeps what was stored before it, and success needs every byte consumed |
| GamePlayer.Init | clientC/UI/Game/Logic/player.c:7-18 | position and size from the arguments, at rest, not grounded, jumping or on a vine, alive; the pending death event and the vine locks are kept |
| GamePlayer.MarkDead | clientC/UI/Game/Logic/player.c:38-52 | a dead player is unchanged; a live one becomes dead with a pending death event, at rest and off any vine, nothing else changed |
| GamePlayer.ConsumeDeath | clientC/UI/Game/Logic/player.c:59-64 | reports exactly whether a death event was pending, and leaves none pending, nothing else changed |
| GamePlayer.MarkDeadIdempotent | clientC/UI/Game/Logic/player.c:38-52 | marking a player dead twice is marking it once |
| GamePlayer.DeathReportedOnce | clientC/UI/Game/Logic/player.c:38-64 | killing a live player is reported by the next poll and by no later one, even if it is killed again |
| GamePlayer.InitKeepsPendingDeath | clientC/UI/Game/Logic/player.c:7-18 | a death still pending at re-initialisation is reported afterwards, for a player that is alive again |
| GamePlayer.InitIdempotent | clientC/UI/Game/Logic/player.c:7-18 | re-initialising with the same arguments changes nothing further |
| GamePlayer.Player.constructor | clientC/UI/Game/Logic/player.c:7 | the storage holds the given record |
| GamePlayer.PlayerInit | clientC/UI/Game/Logic/player.c:7-18 | a `NULL` player is left alone; otherwise the record becomes `Init` of the old one |
| GamePlayer.PlayerMarkDead | clientC/UI/Game/Logic/player.c:38-52 | the record becomes `MarkDead` of the old one, and afterwards `player_is_dead` holds exactly for a non-null player |
| GamePlayer.PlayerJustDied | clientC/UI/Game/Logic/player.c:59-64 | false for `NULL`; otherwise the answer and the new record are `ConsumeDeath` of the old one |
| Actors.Init | clientC/UI/Game/Logic/crocodile.c:3-11 | an initialised crocodile or fruit is inactive, of the default variant, at the origin, with the default size |
| Actors.Spawn | clientC/UI/Game/Logic/crocodile.c:13-19 | a spawned record is active, with the given variant and position, its size kept |
| Actors.SpawnForgetsPrior | clientC/UI/Game/Logic/crocodile.c:13-19 | the result of a spawn depends only on its arguments and the record's size |
| Actors.Crocodile.constructor | clientC/UI/Game/Logic/crocodile.c:3 | the struct holds the given fields |
| Actors.Fruit.constructor | clientC/UI/Game/Logic/fruit.c:3 | the struct holds the given fields |
| Actors.CrocodileInit | clientC/UI/Game/Logic/crocodile.c:3-11 | `NULL` is left alone; otherwise the crocodile becomes `Init` with the red variant |
| Actors.CrocodileSpawn | clientC/UI/Game/Logic/crocodile.c:13-19 | `NULL` is left alone; otherwise the crocodile becomes `Spawn` of the old one |
| Actors.CrocodileUpdate | clientC/UI/Game/Logic/crocodile.c:21-25 | the crocodile is unchanged |
| Actors.FruitInit | clientC/UI/Game/Logic/fruit.c:3-11 | `NULL` is left alone; otherwise the fruit becomes `Init` with the banana variant |
| Actors.FruitSpawn | clientC/UI/Game/Logic/fruit.c:13-19 | `NULL` is left alone; otherwise the fruit becomes `Spawn` of the old one |
| EntitiesTlv.DecodeEntityBytes | clientC/UtilsC/entities_tlv.c:44-56 | an entity's six bytes, kind, sprite id, then x and y as big-endian 16-bit, read back to the same entity |
| EntitiesTlv.EntitiesBytesLayout | clientC/UtilsC/entities_tlv.c:41-57 | the entities take six bytes each, entity `i` at offset `6 * i` |
| EntitiesTlv.EncodingIsRecord | clientC/UtilsC/entities_tlv.c:18-38 | the record is a TLV of type `TLV_ENTITIES_CORR` whose value is the count byte and the entities, `1 + 6n` bytes |
| EntitiesTlv.EntityInEncoding | clientC/UtilsC/entities_tlv.c:35-57 | entity `i` reads back from offset `4 + 6 * i` of the record |
| EntitiesTlv.EncodingParses | clientC/UtilsC/entities_tlv.c:11-60 | the C TLV cursor reads the record back as one record of type 0x12 with the count first and every entity at its place, whatever follows it |
| EntitiesTlv.Build | clientC/UtilsC/entities_tlv.c:11-60 | returns 0 and writes nothing for a null pointer or a record that does not fit; otherwise writes exactly the record and returns its size, bytes after it untouched |
| EntitiesTlv.PutHead | clientC/UtilsC/entities_tlv.c:28-38 | writes the type, the big-endian value length and the count in the first four bytes and nothing else |
| EntitiesTlv.PutEntities | clientC/UtilsC/entities_tlv.c:41-57 | writes the six-byte groups of the first `count` entities from offset 4 and nothing else |
| EntitiesTlv.PutEntity | clientC/UtilsC/entities_tlv.c:42-56 | writes one entity's six bytes at `off` and nothing else |
| Collision.RectsOverlap | clientC/UI/Game/Logic/collision.c:5-18 | two rectangles overlap exactly when each starts before the other ends, on both axes (touching edges do not overlap) |
| Collision.OverlapIffSharedPixel | clientC/UI/Game/Logic/collision.c:5-18 | for rectangles of positive size, overlapping is the same as sharing at least one pixel |
| Collision.OverlapSymmetric | clientC/UI/Game/Logic/collision.c:5-18 | the overlap test does not depend on the order of its two rectangles |
| Collision.MakeRect | clientC/UI/Game/Logic/collision.c:26-47 | an `IntRect` has the given left, top and size, and right and bottom are left and top plus the size |
| Collision.VineProbe | clientC/UI/Game/Logic/collision.c:51-74 | the probe spans the player's columns with height `max(h/2, 4)` (C division); for `h >= 4` it lies inside the player, centred to within one pixel (the extra pixel below); for `h < 4` it reaches below the player |
| Collision.VerticalSnap | clientC/UI/Game/Logic/collision.c:77-120 | a snap happens only for an overlapping, moving player: falling from above the platform it puts the feet on the platform's top, rising from below it puts the head at the platform's bottom |
| Collision.HorizontalSnap | clientC/UI/Game/Logic/collision.c:123-163 | a snap happens only for an overlapping, moving player: moving right from the left it puts the player against the left side, moving left from the right against the right side |
| Collision.VerticalHit | clientC/UI/Game/Logic/collision.c:77-120 | returns whether a snap happened; on a snap `y` takes the snapped value narrowed to `int16_t` and `vy` becomes 0; otherwise the player is unchanged |
| Collision.HorizontalHit | clientC/UI/Game/Logic/collision.c:123-163 | returns whether a snap happened; on a snap `x` takes the snapped value narrowed to `int16_t` and `vx` becomes 0; otherwise the player is unchanged |
| Collision.LandingStandsOnPlatform | clientC/UI/Game/Logic/collision.c:97-105 | after a landing whose new `y` fits an `int16_t`, the player stands on the platform and no longer overlaps it |
| Collision.BumpClearsPlatform | clientC/UI/Game/Logic/collision.c:108-116 | after a bump from below whose new `y` fits, the player's top is the platform's bottom, `vy` is 0 and they no longer overlap |
| Collision.SideHitClearsPlatform | clientC/UI/Game/Logic/collision.c:143-160 | after a side hit whose new `x` fits, `vx` is 0 and the player no longer overlaps the wall |
| Collision.FirstHit | clientC/UI/Game/Logic/collision.c:182-195 | there is no hit exactly when no platform gives a snap; otherwise it is the snap of the first platform, in array order, that gives one |
| Collision.FirstHitAt | clientC/UI/Game/Logic/collision.c:182-195 | when every platform before `i` gives no snap, the first hit is platform `i`'s |
| Collision.Platforms | clientC/UI/Game/Logic/collision.c:170-173 | the platforms looked at are the stored array, of `nPlat` rectangles, or none without a map or an array |
| Collision.VerticalPhaseTouchesOnlyY | clientC/UI/Game/Logic/collision.c:177-185 | the vertical phase changes only `y` and `vy`, and any change leaves `vy` 0 |
| Collision.HorizontalPhaseTouchesOnlyX | clientC/UI/Game/Logic/collision.c:187-196 | the horizontal phase changes only `x` and `vx`, and any change leaves `vx` 0 |
| Collision.NoPlatformsNoChange | clientC/UI/Game/Logic/collision.c:170-173 | without a map or with no platforms, resolution changes nothing |
| Collision.ResolvePlayerPlatformCollisions | clientC/UI/Game/Logic/collision.c:166-197 | a null player is untouched; otherwise the player snaps against the first platform, in array order, that gives a snap in the phase, and is otherwise unchanged |
| Collision.ResolveVertical | clientC/UI/Game/Logic/collision.c:177-185 | the loop stops at the first platform that snaps; the player is snapped vertically by the first hit |
| Collision.ResolveHorizontal | clientC/UI/Game/Logic/collision.c:187-196 | the loop stops at the first platform that snaps; the player is snapped horizontally by the first hit |
| Collision.UpdatePlayerGrounded | clientC/UI/Game/Logic/collision.c:200-234 | only `grounded` changes: with a map, it is set exactly when the player is on the world floor or stands on some platform; without a map it is cleared |
| Collision.LandingGrounds | clientC/UI/Game/Logic/collision.c:177-234 | a fall that lands on a platform in the vertical phase (new `y` in range) makes the next grounded update report the player grounded |
| Collision.LandingOn | clientC/UI/Game/Logic/collision.c:97-105 | one platform's landing snap leaves the player standing on that platform |
| Collision.PlayerTouchingVine | clientC/UI/Game/Logic/collision.c:239-259 | true exactly when there is a player, a map and a vine array, and the vine probe overlaps one of the `nVines` vines |
| StateBundle.WalkStep | clientC/clientSpectator/clientSpectator.c:159-163 | the walk stops exactly when `tlv_next` finds no complete record at the cursor; otherwise it visits that record and goes on after it |
| StateBundle.StepAtSuffix | clientC/UtilsC/tlv.h:12-21 | `tlv_next` at an offset of the payload finds what it finds at the start of the remaining bytes |
| StateBundle.RecordsOfItemsBytes | clientC/clientSpectator/clientSpectator.c:159-163 | records written one after another are visited in order, each with its type and value, and the walk goes on with whatever follows |
| StateBundle.RecordsOfItemsBytesCons | clientC/clientSpectator/clientSpectator.c:159-163 | a run of records is visited as its first record, then the rest |
| StateBundle.RecordsOfRecordBytes | clientC/clientSpectator/clientSpectator.c:159-163 | a single written record, empty value included, is visited, then the walk goes on after it |
| StateBundle.IncompleteEndsWalk | clientC/clientSpectator/clientSpectator.c:163 | an incomplete record ends the walk: nothing after it is visited |
| StateBundle.FoldCons | clientC/clientSpectator/clientSpectator.c:159-178 | the calls for a run are the first record's call, if any, then those of the rest under the tick it leaves |
| StateBundle.FoldAppend | clientC/clientSpectator/clientSpectator.c:159-178 | the calls for two runs are those of the first, then those of the second under the tick the first leaves |
| StateBundle.OtherRecordsIgnored | clientC/clientSpectator/clientSpectator.c:165-177 | records of any other type, the entity list among them, make no call and leave the tick alone |
| StateBundle.ShortRecordIgnored | clientC/clientSpectator/clientSpectator.c:165-170 | a header shorter than 4 bytes or a correction shorter than 7 makes no call and leaves the tick alone |
| StateBundle.BodyBytes | clientC/clientSpectator/clientSpectator.c:170-174 | a correction value is 7 bytes |
| StateBundle.CorrItems | clientC/clientSpectator/clientSpectator.c:170 | one `PLAYER_CORR` record per correction, in order |
| StateBundle.Stamped | clientC/clientSpectator/clientSpectator.c:176 | one call per correction |
| StateBundle.BodyRoundTrip | clientC/clientSpectator/clientSpectator.c:171-174 | the grounded byte and the three signed 16-bit fields read back as written |
| StateBundle.CorrectionsApplied | clientC/clientSpectator/clientSpectator.c:170-176 | correction records are applied in order, each with the tick in force, and leave the tick unchanged |
| StateBundle.GroupApplied | clientC/clientSpectator/clientSpectator.c:165-176 | after a state header, the corrections that follow carry its tick, whatever the tick before |
| StateBundle.BundleRoundTrip | clientC/clientSpectator/clientSpectator.c:154-179 | a payload of a header then corrections makes exactly one call per correction, in order, with the header's tick |
| StateBundle.LatestHeaderWins | clientC/clientSpectator/clientSpectator.c:157-176 | with two header-led groups, each group's corrections carry their own header's tick |
| StateBundle.OnStateBundle | clientC/clientSpectator/clientSpectator.c:154-179 | the loop makes exactly the calls `Corrections(payload)` describes |
| StateBundle.Turn | clientC/clientSpectator/clientSpectator.c:159-178 | one turn either stops where no record is left, or consumes a record, emits its call and keeps the rest of the walk's calls the same |
| StateBundle.VisitRecord | clientC/clientSpectator/clientSpectator.c:165-177 | the tick and the call for one record are those `Visit` gives |
| Dispatch.Dispatcher.constructor | clientC/clientSpectator/clientSpectator.c:15 | the static table starts with every entry null |
| Dispatch.Dispatcher.Clear | clientC/clientSpectator/clientSpectator.c:208 | every entry becomes null |
| Dispatch.Dispatcher.Register | clientC/clientSpectator/clientSpectator.c:86-89 | installs the handler for its type and changes no other entry |
| Dispatch.SpectatorTableCovers | clientC/clientSpectator/clientSpectator.c:209-221 | exactly the thirteen registered types have a handler in the spectator's table |
| Dispatch.SetUpSpectator | clientC/clientSpectator/clientSpectator.c:208-221 | after the set-up the table is exactly the spectator's thirteen registrations, every other type null |
| Dispatch.RegisterStateHandlers | clientC/clientSpectator/clientSpectator.c:209-214 | the first six registrations install their handlers and change nothing else |
| Dispatch.RegisterEventHandlers | clientC/clientSpectator/clientSpectator.c:215-221 | the last seven registrations install their handlers and change nothing else |
| Dispatch.SetUpPlayer | clientC/clientPlayer/clientPlayer.c:77-79 | after the set-up only `INIT_STATIC` and `STATE_BUNDLE` have handlers |
| Handlers.SpectatorState | clientC/clientSpectator/clientSpectator.c:18-33 | no call exactly when fewer than 9 bytes arrived; otherwise the remote state with the ninth byte as flags |
| Handlers.SpawnOf | clientC/clientSpectator/clientSpectator.c:36-51 | nothing for fewer than 4 bytes; 4 bytes are x and y with variant 0; 5 or more carry the variant first, then x and y |
| Handlers.RemoveFruit | clientC/clientSpectator/clientSpectator.c:70-78 | no call exactly when fewer than 4 bytes arrived |
| Handlers.LivesUpdate | clientC/clientSpectator/clientSpectator.c:137-141 | no call exactly for an empty payload |
| Handlers.ScoreUpdate | clientC/clientSpectator/clientSpectator.c:143-151 | no call exactly when fewer than 4 bytes arrived |
| Handlers.Run | clientC/clientSpectator/clientSpectator.c:18-179 | a handler makes the call `HandlerEffect` names; only `on_init_static` changes the static map, to what the payload parse leaves |
| Handlers.Handle | clientC/clientSpectator/clientSpectator.c:91-96 | a type with no handler does nothing; otherwise its handler runs, and only the `INIT_STATIC` handler changes the store |
| Handlers.EmptyPayload | clientC/clientPlayer/clientPlayer.c:111-113 | an empty payload, as the receive loop passes for a frame without one, reaches only handlers that ignore their payload; the map load fails and the bundle makes no call |
| SpectatorClient.SendSpectateRequest | clientC/clientSpectator/clientSpectator.c:99-104 | returns 1 exactly when the frame is written, and then the stream holds a `SPECTATE_REQUEST` with the slot as payload |
| SpectatorClient.ReadAck | clientC/clientSpectator/clientSpectator.c:226-254 | succeeds exactly when a version-1 `CLIENT_ACK` with a non-empty payload has fully arrived and its first byte is 2; the cursor is then past it |
| SpectatorClient.ReadInitStatic | clientC/clientSpectator/clientSpectator.c:256-271 | succeeds exactly when a version-1 `INIT_STATIC` with its whole non-empty payload follows; the store then holds what that payload leaves, and is untouched otherwise |
| SpectatorClient.Admit | clientC/clientSpectator/clientSpectator.c:223-278 | the start-up passes exactly when the acknowledgement grants the spectator role, the map frame arrives and the request is written; only then is the request sent |
| SpectatorClient.StartUp | clientC/clientSpectator/clientSpectator.c:182-278 | the three outcomes: the role byte not written (nothing else done), a failed check (store freed, only the role byte sent), or spectating with the map loaded and the role byte and the request sent; the table holds the thirteen handlers whenever the role was sent |
| SpectatorClient.ServerAckAccepted | clientC/clientSpectator/clientSpectator.c:226-254 | the server's `CLIENT_ACK` is accepted exactly when it grants the spectator role, whatever its slot bytes; the next frame starts after its 3 bytes |
| SpectatorClient.SpectateRequestReadsBack | clientC/clientSpectator/clientSpectator.c:99-104 | the request reads back as a version-1 `SPECTATE_REQUEST` carrying the slot |
| PlayerClient.ProposalBytes | clientC/clientPlayer/clientPlayer.c:59-65 | the payload is 13 bytes |
| PlayerClient.ProposalFrame | clientC/clientPlayer/clientPlayer.c:66 | the frame is the header and the 13 bytes |
| PlayerClient.ShiftedBytes | clientC/clientPlayer/clientPlayer.c:60-65 | the bytes the C shifts produce are the tick, then x, y, vx and vy, big-endian, then the flags |
| PlayerClient.FillProposal | clientC/clientPlayer/clientPlayer.c:59-65 | the buffer holds exactly the 13-byte payload |
| PlayerClient.SendPlayerProposed | clientC/clientPlayer/clientPlayer.c:57-67 | returns 1 exactly when the frame is written, and then the stream holds the proposal frame |
| PlayerClient.StreamStep | clientC/clientPlayer/clientPlayer.c:119 | one more proposal appends one more frame |
| PlayerClient.StreamLength | clientC/clientPlayer/clientPlayer.c:119 | every proposal frame is 29 bytes |
| PlayerClient.SendProposals | clientC/clientPlayer/clientPlayer.c:105-122 | the tick goes up by one per proposal, wrapping at 2^32; the stream receives one frame per proposal, or stays as it was once writing fails |
| PlayerClient.ProposeTurn | clientC/clientPlayer/clientPlayer.c:117-119 | one turn sends proposal `i` with tick `tick0 + i` and moves the tick on by one |
| PlayerClient.NextTick | clientC/clientPlayer/clientPlayer.c:119 | `tick++` on a `uint32_t` gives the next tick in the wrapping sequence |
| PlayerClient.ProposalReadsBack | serverJava/MessageManagement/AnswerProcessor.java:46-51 | the server reads back the tick and the proposed state from the 13 bytes, as signed Java values |
| PlayerClient.PayloadReadsBack | serverJava/MessageManagement/AnswerProcessor.java:46-51 | the payload on its own decodes to the proposal |
| PlayerClient.ProposalAtWindow | serverJava/MessageManagement/AnswerProcessor.java:46-51 | the server's decode looks at the 13 bytes alone |
| PlayerClient.ServerMirrorsProposal | serverJava/MessageManagement/AnswerProcessor.java:39-69 | a proposal frame the client sends is processed by the server as one complete `PLAYER_PROPOSED` frame, and the proposed state is mirrored with the client's id |
| PlayerClient.StreamTicks | clientC/clientPlayer/clientPlayer.c:105-119 | in a run of proposals, frame `i` sits at `29 * i` and the server reads tick `tick0 + i` (mod 2^32) and proposal `i` from it |
| PlayerClient.LastFrameReads | serverJava/MessageManagement/AnswerProcessor.java:46-51 | a frame appended after others is read at its own offset |
| PlayerClient.WindowInFront | serverJava/MessageManagement/AnswerProcessor.java:46-51 | a proposal already in the stream reads the same once more bytes follow |
| LegacyClient.ReadHeader | client-C/client-Player/clientPlayer.c:80-92 | fails untouched on a short read; otherwise reads the six fields from their offsets, whatever the version |
| LegacyClient.Need | client-C/client-Player/clientPlayer.c:99 | the needed length is `4 + rows * cols`, which never wraps a `uint32_t` |
| LegacyClient.MulBound | client-C/client-Player/clientPlayer.c:99 | the product of two `uint16_t` values is at most 65535^2 |
| LegacyClient.RecvMatrixPayload | client-C/client-Player/clientPlayer.c:94-110 | accepts exactly a payload of at least 4 bytes whose length is `4 + rows * cols`; then returns the dimensions and the cells, otherwise leaves the outputs alone |
| LegacyClient.CopyCells | client-C/client-Player/clientPlayer.c:102-104 | the copied cells are the `rows * cols` bytes after the dimensions |
| LegacyClient.MatrixPayload | client-C/client-Player/clientPlayer.c:94-104 | a matrix payload is the 4 dimension bytes and the cells |
| LegacyClient.MatrixRoundTrip | client-C/client-Player/clientPlayer.c:94-110 | a written matrix reads back with its dimensions and cells, and is accepted exactly when it carries `rows * cols` cells |
| LegacyClient.CellAt | client-C/client-Player/clientPlayer.c:112-120 | every cell `cp_print_matrix` reads of an accepted payload lies inside the copied cells |
| ClientInterop.ServerFrameReadsBack | clientC/UtilsC/proto.c:7-17 | a frame the server writes reaches the C reader as a version-1 header with the same type and length, payload after it |
| ClientInterop.SpawnDecoded | clientC/clientSpectator/clientSpectator.c:36-68 | the factories' spawn payload is decoded by both spawn handlers to the variant and the low 16 bits of x and y, which are x and y when they fit an `int16_t` |
| ClientInterop.RemoveFruitDecoded | clientC/clientSpectator/clientSpectator.c:70-78 | `sendRemoveFruit`'s payload removes the fruit at the same cell, as 16-bit values |
| ClientInterop.SpectatorStateDecoded | clientC/clientSpectator/clientSpectator.c:18-33 | `sendSpectatorState`'s payload is applied with the same position, velocity and flag bits |
| ClientInterop.HudDecoded | clientC/clientSpectator/clientSpectator.c:137-151 | the lives byte and the score reach the HUD as their bit patterns, and the score's pattern is the score |
| Interop.ToCps | serverJava/MessageManagement/Messenger.java:64-67 | each Java rectangle becomes one client rectangle |
| Interop.RectBytesAgree | serverJava/MessageManagement/Proto.java:72-77 | `writeRect` writes the bytes the client's `read_rect` reads as the low 16 bits of each field |
| Interop.RectsBytesAgree | serverJava/MessageManagement/Messenger.java:64-67 | a list of rectangles is written as the client's rectangles |
| Interop.ArrayBytesAgree | serverJava/MessageManagement/Messenger.java:64-67 | a counted list shorter than 65536 is written as the count and rectangles the client's `read_rect_array` reads |
| Interop.LegacyInitStaticRejected | serverJava/MessageManagement/Messenger.java:50-70 | the client rejects every `INIT_STATIC` payload the server writes, for lack of the water list, keeping only platforms and vines |
| Interop.FourArraysThenEnd | clientC/UI/Game/static_map.c:46-69 | a payload that ends after four lists is rejected when the parser looks for the fifth count |
| Interop.WithWaterIsLayout | clientC/UI/Game/static_map.c:43-45 | the corrected send writes exactly the layout the client expects |
| Interop.WithWaterInitStaticAccepted | clientC/UI/Game/static_map.c:46-69 | the client accepts the corrected payload and keeps platforms, vines and water |

## Left out

- Sockets and streams are byte sequences: what the peer sends before it closes, and what was written. Partial writes, socket errors other than end of stream, `flush`, and timing are not modelled.
- `net_init`, `net_connect`, `net_close`, `net_cleanup` and `net_peek` are left out. `net_read_n`/`net_write_n` (clientC/clientPlayer/netPOSIX.c) are modelled by their contract in `net.h`, plus the empty write that `net_write_n` answers with 0; partial reads and writes are not modelled.
- Allocation failure is not modelled. Every `malloc` is taken to succeed: in `read_rect_array`, in the spectator's start-up and in `cp_recv_matrix_payload`.
- AnswerProcessor.HandleBundle: the server's `new byte[len]` (serverJava/MessageManagement/AnswerProcessor.java:74) is taken to succeed for every positive declared `len`; an `OutOfMemoryError` for a length near 2^31 is not modelled.
- StaticMap.Cursor.ReadRectArray: the failure path when `malloc` returns `NULL` is not modelled.
- LegacyClient.RecvMatrixPayload: the failure path when `malloc` returns `NULL` is not modelled.
- The game hooks (`game_apply_remote_state`, `game_spawn_croc`, `game_apply_correction`, `crocodile_increase_speed`, ...) are outside this model. Each handler's call is returned as an `Effect` value naming the hook and its arguments.
- The receive loops of `run_spectator_client` and of the player client's `main` are not modelled: `net_peek`, window, drawing and input.
  - The player's handshake (its reading of `CLIENT_ACK` and `INIT_STATIC`) is left out too.
  - From those loops, the model keeps the dispatch of one frame (`Handlers.Handle`) and the sending of the proposals (`PlayerClient.SendProposals`).
- `processFrame`'s writes to `server.p1` and its call to `broadcastPlayerStateToSpectators` are returned as values: the mirrored fields and the broadcast arguments. `GameServer` and the session registry are not part of this model.
- The `System.out` logging of entity records is returned as the list of logged records. The hex text is not modelled.
- `Messenger` takes the server's lists (`server.player`, `server.platforms`, ...) as parameters. A `Session` is its client id and its stream.
- `crocodile_update`'s `float dt` parameter is not modelled; the function has an empty body.
- `cp_print_matrix`'s output is not modelled. Only the bounds of the cells it reads are proved (`LegacyClient.CellAt`).
- The console client's `main`, `cp_read_n`, `cp_write_n` and `cp_connect_tcp` are left out. Its two reads are modelled on `Net.Socket.ReadN`.
- Actors.FruitInit/Actors.FruitSpawn: fruit.h disagrees with fruit.c (no `variant` field, a three-argument `fruit_spawn`, no `FRUIT_VARIANT_BANANA`); the model follows fruit.c, with BANANA = 1 from FruitVariant.java.
- Collision.Grounded/Collision.UpdatePlayerGrounded: `worldTop + worldHeight - h` is computed on unbounded integers; the C sum of two `int` parameters is taken not to overflow, as signed overflow is undefined in C.
- Collision.UpdatePlayerGrounded: requires a non-null player. The C function writes through the pointer in the very branch that finds it null.
- The value-semantics equality of the Java `Rect` record is Dafny's datatype equality and gets no lemma of its own.

## Findings

| source | as written | input that shows it | evidently intended | confidence | as-written member | corrected member |
|---|---|---|---|---|---|---|
| serverJava/MessageManagement/Messenger.java:50-67 | `sendInitStaticLegacy` writes the player rectangle and four counted lists (platforms, vines, crocodiles, fruits). `cp_recv_init_static_payload` (clientC/UI/Game/static_map.c:46-69) reads a fifth, water, list after them. | Any server state, e.g. all four lists empty: the 16-byte payload ends where the client looks for the water count, so the client returns false. It keeps only the platforms and vines read so far. | Write the water list, as a count and its rectangles, after the fruits, and count it in `payloadLen` | not executed | Interop.LegacyInitStaticRejected | Interop.WithWaterInitStaticAccepted |
| serverJava/MessageManagement/TLVParser.java:36 | `next()` returns null whenever fewer than 4 bytes remain. | The 3 bytes `Proto.writeTLV` writes for an empty value, `[t, 0, 0]`: the record is complete and the C `tlv_next` accepts it, but `next()` returns null. | Return null only when fewer than the 3 header bytes remain, as the method's own description of a full record says | not executed | JavaTlv.TrailingEmptyRecordRejected | JavaTlv.FixedReadsWrittenRecord |

- For the first finding, the corrected send is `Messenger.SendInitStaticWithWater`. `Interop.WithWaterIsLayout` proves that it writes exactly the client's layout.
- For the second finding, `JavaTlv.NextAtDiffersOnlyOnTrailingEmpty` proves that the two guards disagree on that one kind of input only. `JavaTlv.FixedAgreesWithC` proves that the corrected guard accepts exactly the records `tlv_next` accepts.
- `AnswerProcessor` keeps the guard as written, because it models `processFrame` as it runs today. `AnswerProcessor.TrailingEmptyEntitiesNotLogged` shows the consequence: a trailing empty entity record is never logged.
