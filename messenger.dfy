/** The server's outbound frames (serverJava/MessageManagement/Messenger.java).
    Every send writes one header with `Proto.writeHeader` and then its
    payload to the session's stream. A `Session` is its client id and its
    stream. */
module Messenger {
  import opened Bytes
  import Frame
  import opened Wrappers
  import opened Rects
  import opened JavaIo
  import opened JavaProto
  import opened MsgType
  import opened SpawnFactories

  class Session {
    const clientId: i32
    const out: DataOutput

    constructor (clientId: i32, out: DataOutput)
      ensures this.clientId == clientId && this.out == out
    {
      this.clientId := clientId;
      this.out := out;
    }
  }

  /** A header declaring `|payload|` bytes with game id 0, then the payload. */
  function FrameBytes(msgType: i8, dest: i32, payload: seq<byte>): (b: seq<byte>)
    requires |payload| <= I32_MAX
    ensures |b| == Frame.HEADER_SIZE + |payload| && b[Frame.HEADER_SIZE..] == payload
  {
    Frame.Encode(Header(msgType, dest, 0, |payload|)) + payload
  }

  // ---------------------------------------------------------------------
  // INIT_STATIC

  /** The rectangles of a list, each as `writeRect`. */
  function RectsBytes(rs: seq<Rect>): seq<byte>
  {
    if rs == [] then [] else RectsBytes(rs[..|rs| - 1]) + RectBytes(rs[|rs| - 1])
  }

  /** Eight bytes per rectangle. */
  lemma {:induction false} RectsBytesLength(rs: seq<Rect>)
    ensures |RectsBytes(rs)| == 8 * |rs|
  {
    if rs != [] {
      RectsBytesLength(rs[..|rs| - 1]);
    }
  }

  /** A list as `INIT_STATIC` carries it: `writeU16` of its size, then its
      rectangles. */
  function ArrayBytes(rs: seq<Rect>): seq<byte>
  {
    U16Bytes(|rs|) + RectsBytes(rs)
  }

  /** The payload `sendInitStaticLegacy` writes: the player rectangle, then
      platforms, vines, crocodiles and fruits. There is no water list. */
  function LegacyPayload(player: Rect, platforms: seq<Rect>, vines: seq<Rect>,
                         crocodiles: seq<Rect>, fruits: seq<Rect>): seq<byte>
  {
    RectBytes(player) + ArrayBytes(platforms) + ArrayBytes(vines) + ArrayBytes(crocodiles) + ArrayBytes(fruits)
  }

  /** The `payloadLen` it declares, computed in Java `int` arithmetic. Each
      `+` and `*` wraps, which gives the low 32 bits of the exact sum. */
  function LegacyDeclaredLen(nP: nat, nV: nat, nE: nat, nF: nat): i32
  {
    Wrap32(8 + 2 + nP * 8 + 2 + nV * 8 + 2 + nE * 8 + 2 + nF * 8)
  }

  /** The declared length is the size of the payload that follows whenever
      that size is an `int`. */
  lemma {:induction false} LegacyLengthAccounting(player: Rect, platforms: seq<Rect>, vines: seq<Rect>,
                                                  crocodiles: seq<Rect>, fruits: seq<Rect>)
    ensures var p := LegacyPayload(player, platforms, vines, crocodiles, fruits);
      |p| == 8 + 4 * 2 + 8 * (|platforms| + |vines| + |crocodiles| + |fruits|) &&
      (|p| <= I32_MAX ==> LegacyDeclaredLen(|platforms|, |vines|, |crocodiles|, |fruits|) == |p|)
  {
    RectsBytesLength(platforms);
    RectsBytesLength(vines);
    RectsBytesLength(crocodiles);
    RectsBytesLength(fruits);
    var p := LegacyPayload(player, platforms, vines, crocodiles, fruits);
    if |p| <= I32_MAX {
      AsI32Low32(|p|);
    }
  }

  /** The loop `for (Rect r: list) Proto.writeRect(out, r)`. */
  method WriteRects(out: DataOutput, rs: seq<Rect>)
    modifies out
    ensures out.written == old(out.written) + RectsBytes(rs)
  {
    var i := 0;
    while i < |rs|
      invariant 0 <= i <= |rs|
      invariant out.written == old(out.written) + RectsBytes(rs[..i])
    {
      WriteRect(out, rs[i]);
      assert rs[..i + 1][..i] == rs[..i];
      i := i + 1;
    }
    assert rs[..i] == rs;
  }

  /** `writeU16` of a list's size, then its rectangles. */
  method WriteArray(out: DataOutput, rs: seq<Rect>)
    requires |rs| <= I32_MAX
    modifies out
    ensures out.written == old(out.written) + ArrayBytes(rs)
  {
    WriteU16(out, |rs|);
    WriteRects(out, rs);
  }

  /** The rectangles `sendInitStaticLegacy` writes after its header. */
  method WriteLegacyPayload(out: DataOutput, player: Rect, platforms: seq<Rect>,
                            vines: seq<Rect>, crocodiles: seq<Rect>, fruits: seq<Rect>)
    requires |platforms| <= I32_MAX && |vines| <= I32_MAX && |crocodiles| <= I32_MAX && |fruits| <= I32_MAX
    modifies out
    ensures out.written == old(out.written) + LegacyPayload(player, platforms, vines, crocodiles, fruits)
  {
    ghost var o := out.written;
    WriteRect(out, player);
    WriteArray(out, platforms);
    WriteArray(out, vines);
    WriteArray(out, crocodiles);
    WriteArray(out, fruits);
    AppendFive(o, RectBytes(player), ArrayBytes(platforms), ArrayBytes(vines), ArrayBytes(crocodiles), ArrayBytes(fruits));
  }

  /** Appending two pieces one by one appends their concatenation. */
  lemma AppendTwo(o: seq<byte>, a: seq<byte>, b: seq<byte>)
    ensures o + a + b == o + (a + b)
  {
  }

  /** Appending five pieces one by one appends their concatenation. */
  lemma AppendFive(o: seq<byte>, a: seq<byte>, b: seq<byte>, c: seq<byte>, d: seq<byte>, e: seq<byte>)
    ensures o + a + b + c + d + e == o + (a + b + c + d + e)
  {
    assert o + a + b == o + (a + b);
    assert o + (a + b) + c == o + (a + b + c);
    assert o + (a + b + c) + d == o + (a + b + c + d);
  }

  /** `sendInitStaticLegacy`. */
  method SendInitStaticLegacy(destClientId: i32, out: DataOutput, player: Rect, platforms: seq<Rect>,
                              vines: seq<Rect>, crocodiles: seq<Rect>, fruits: seq<Rect>)
    requires |platforms| <= I32_MAX && |vines| <= I32_MAX && |crocodiles| <= I32_MAX && |fruits| <= I32_MAX
    modifies out
    ensures out.written == old(out.written) +
      Frame.Encode(Header(INIT_STATIC, destClientId, 0, LegacyDeclaredLen(|platforms|, |vines|, |crocodiles|, |fruits|))) +
      LegacyPayload(player, platforms, vines, crocodiles, fruits)
  {
    var payloadLen := LegacyDeclaredLen(|platforms|, |vines|, |crocodiles|, |fruits|);
    WriteHeader(out, INIT_STATIC, destClientId, 0, payloadLen);
    WriteLegacyPayload(out, player, platforms, vines, crocodiles, fruits);
  }

  /** The payload with the water list the C clients read after the fruits. */
  function WithWaterPayload(player: Rect, platforms: seq<Rect>, vines: seq<Rect>,
                            crocodiles: seq<Rect>, fruits: seq<Rect>, waters: seq<Rect>): seq<byte>
  {
    LegacyPayload(player, platforms, vines, crocodiles, fruits) + ArrayBytes(waters)
  }

  /** The length the corrected send declares: one more count and the
      water rectangles. */
  function WithWaterLen(nP: nat, nV: nat, nE: nat, nF: nat, nW: nat): nat
  {
    8 + 2 + nP * 8 + 2 + nV * 8 + 2 + nE * 8 + 2 + nF * 8 + 2 + nW * 8
  }

  /** The corrected length is the size of the corrected payload. */
  lemma {:induction false} WithWaterLengthAccounting(player: Rect, platforms: seq<Rect>, vines: seq<Rect>,
                                                     crocodiles: seq<Rect>, fruits: seq<Rect>, waters: seq<Rect>)
    ensures |WithWaterPayload(player, platforms, vines, crocodiles, fruits, waters)| ==
      WithWaterLen(|platforms|, |vines|, |crocodiles|, |fruits|, |waters|)
  {
    LegacyLengthAccounting(player, platforms, vines, crocodiles, fruits);
    RectsBytesLength(waters);
  }

  /** `sendInitStaticLegacy` with the water list written after the fruits
      and counted in `payloadLen`. */
  method SendInitStaticWithWater(destClientId: i32, out: DataOutput, player: Rect, platforms: seq<Rect>,
                                 vines: seq<Rect>, crocodiles: seq<Rect>, fruits: seq<Rect>, waters: seq<Rect>)
    requires WithWaterLen(|platforms|, |vines|, |crocodiles|, |fruits|, |waters|) <= I32_MAX
    modifies out
    ensures out.written == old(out.written) +
      Frame.Encode(Header(INIT_STATIC, destClientId, 0, WithWaterLen(|platforms|, |vines|, |crocodiles|, |fruits|, |waters|))) +
      WithWaterPayload(player, platforms, vines, crocodiles, fruits, waters)
  {
    var payloadLen := WithWaterLen(|platforms|, |vines|, |crocodiles|, |fruits|, |waters|);
    WriteHeader(out, INIT_STATIC, destClientId, 0, payloadLen);
    ghost var h := out.written;
    WriteLegacyPayload(out, player, platforms, vines, crocodiles, fruits);
    WriteArray(out, waters);
    AppendTwo(h, LegacyPayload(player, platforms, vines, crocodiles, fruits), ArrayBytes(waters));
  }

  // ---------------------------------------------------------------------
  // Spawns and removal

  /** `sendSpawnCroc`: the crocodile factory's message. */
  method SendSpawnCroc(session: Session, variant: i8, x: i32, y: i32)
    modifies session.out
    ensures session.out.written == old(session.out.written) +
      FrameBytes(CROC_SPAWN, session.clientId, CrocSpawn(variant, x, y).payload)
  {
    var message := CrocSpawn(variant, x, y);
    var pl := message.payload;
    WriteHeader(session.out, message.msgType, session.clientId, 0, |pl|);
    if |pl| > 0 {
      session.out.Write(pl);
    }
  }

  /** `sendSpawnFruit`: the fruit factory's message. */
  method SendSpawnFruit(session: Session, variant: i8, x: i32, y: i32)
    modifies session.out
    ensures session.out.written == old(session.out.written) +
      FrameBytes(FRUIT_SPAWN, session.clientId, FruitSpawn(variant, x, y).payload)
  {
    var message := FruitSpawn(variant, x, y);
    var pl := message.payload;
    WriteHeader(session.out, message.msgType, session.clientId, 0, |pl|);
    if |pl| > 0 {
      session.out.Write(pl);
    }
  }

  /** The `REMOVE_FRUIT` payload: the low 16 bits of x, then of y, high
      byte first. */
  function RemoveFruitPayload(x: i32, y: i32): (p: seq<byte>)
    ensures |p| == 4 && Be16(p) == Low16(x) && Be16(p[2..]) == Low16(y)
  {
    ShiftBytes16IsEnc16(x);
    ShiftBytes16IsEnc16(y);
    Be16Enc16(Low16(x));
    Be16Enc16(Low16(y));
    var p := ShiftBytes16(x) + ShiftBytes16(y);
    assert p[2..] == ShiftBytes16(y);
    p
  }

  /** `sendRemoveFruit`. */
  method SendRemoveFruit(session: Session, x: i32, y: i32)
    modifies session.out
    ensures session.out.written == old(session.out.written) +
      FrameBytes(REMOVE_FRUIT, session.clientId, RemoveFruitPayload(x, y))
  {
    var pl := [Low8(x / 0x100), Low8(x), Low8(y / 0x100), Low8(y)];
    assert pl == RemoveFruitPayload(x, y);
    WriteHeader(session.out, REMOVE_FRUIT, session.clientId, 0, |pl|);
    session.out.Write(pl);
  }

  // ---------------------------------------------------------------------
  // HUD updates and spectator snapshots

  /** `sendLivesUpdate`: one byte. */
  method SendLivesUpdate(s: Session, lives: i8)
    modifies s.out
    ensures s.out.written == old(s.out.written) + FrameBytes(LIVES_UPDATE, s.clientId, [Low8(lives)])
  {
    WriteHeader(s.out, LIVES_UPDATE, s.clientId, 0, 1);
    s.out.WriteByte(lives);
  }

  /** `sendScoreUpdate`: four bytes, high first. */
  method SendScoreUpdate(s: Session, score: i32)
    modifies s.out
    ensures s.out.written == old(s.out.written) + FrameBytes(SCORE_UPDATE, s.clientId, BbU32(score))
  {
    WriteHeader(s.out, SCORE_UPDATE, s.clientId, 0, 4);
    s.out.WriteInt(score);
  }

  /** The nine-byte `SPECTATOR_STATE` payload: x, y, vx, vy as 16-bit
      patterns, high byte first, then the flags byte. */
  function SpectatorStatePayload(x: i16, y: i16, vx: i16, vy: i16, flags: i8): (p: seq<byte>)
    ensures |p| == 9
    ensures AsI16(Be16(p)) == x && AsI16(Be16(p[2..])) == y
    ensures AsI16(Be16(p[4..])) == vx && AsI16(Be16(p[6..])) == vy && AsI8(p[8]) == flags
  {
    AsI8Low8(flags);
    var p := BbI16(x) + BbI16(y) + BbI16(vx) + BbI16(vy) + [Low8(flags)];
    assert p[2..][..2] == BbI16(y) && p[4..][..2] == BbI16(vx) && p[6..][..2] == BbI16(vy);
    p
  }

  /** `sendSpectatorState`: the payload is built in a buffer first, then
      framed with its own length. */
  method SendSpectatorState(s: Session, x: i16, y: i16, vx: i16, vy: i16, flags: i8)
    modifies s.out
    ensures s.out.written == old(s.out.written) +
      FrameBytes(SPECTATOR_STATE, s.clientId, SpectatorStatePayload(x, y, vx, vy, flags))
  {
    var baos := new DataOutput();
    baos.WriteShort(x);
    baos.WriteShort(y);
    baos.WriteShort(vx);
    baos.WriteShort(vy);
    baos.WriteByte(flags);
    var payload := baos.written;
    assert payload == [] + BbI16(x) + BbI16(y) + BbI16(vx) + BbI16(vy) + [Low8(flags)];
    WriteHeader(s.out, SPECTATOR_STATE, s.clientId, 0, |payload|);
    s.out.Write(payload);
  }

  // ---------------------------------------------------------------------
  // CLIENT_ACK

  datatype ClientRole = PLAYER | SPECTATOR

  /** The role byte: 1 for a player, 2 for a spectator, 0 for no role
      (a `null` role). */
  function RoleByte(role: Option<ClientRole>): (b: byte)
    ensures b == 1 <==> role == Some(PLAYER)
    ensures b == 2 <==> role == Some(SPECTATOR)
    ensures b == 0 <==> role.None?
  {
    match role
    case Some(PLAYER) => 1
    case Some(SPECTATOR) => 2
    case None => 0
  }

  /** The three `CLIENT_ACK` bytes: the role, then for each player slot its
      spectator count when the slot is active and 255 when it is not. */
  function AckPayload(role: Option<ClientRole>, player1SpecCount: i32, player2SpecCount: i32,
                      player1Active: bool, player2Active: bool): (p: seq<byte>)
    ensures |p| == 3 && p[0] == RoleByte(role)
    ensures p[1] == if player1Active then Low8(player1SpecCount) else 255
    ensures p[2] == if player2Active then Low8(player2SpecCount) else 255
  {
    [RoleByte(role),
     Low8(if player1Active then player1SpecCount else 255),
     Low8(if player2Active then player2SpecCount else 255)]
  }

  /** `sendClientAck` with slot information. */
  method SendClientAckWithSlots(s: Session, role: Option<ClientRole>, player1SpecCount: i32, player2SpecCount: i32,
                                player1Active: bool, player2Active: bool)
    modifies s.out
    ensures s.out.written == old(s.out.written) +
      FrameBytes(CLIENT_ACK, s.clientId, AckPayload(role, player1SpecCount, player2SpecCount, player1Active, player2Active))
  {
    var roleByte := 0;
    if role == Some(PLAYER) {
      roleByte := 1;
    } else if role == Some(SPECTATOR) {
      roleByte := 2;
    }
    var payloadLen := 3;
    WriteHeader(s.out, CLIENT_ACK, s.clientId, 0, payloadLen);
    s.out.WriteByte(roleByte);
    s.out.WriteByte(if player1Active then player1SpecCount else 255);
    s.out.WriteByte(if player2Active then player2SpecCount else 255);
  }

  /** `sendClientAck(s, role)`: both slots reported inactive, so bytes 1
      and 2 are 255. */
  method SendClientAck(s: Session, role: Option<ClientRole>)
    modifies s.out
    ensures s.out.written == old(s.out.written) + FrameBytes(CLIENT_ACK, s.clientId, [RoleByte(role), 255, 255])
  {
    SendClientAckWithSlots(s, role, 0, 0, false, false);
  }

  // ---------------------------------------------------------------------
  // Notices without payload

  /** A header declaring no payload, and nothing after it. */
  method SendNotice(session: Session, msgType: i8)
    modifies session.out
    ensures session.out.written == old(session.out.written) + FrameBytes(msgType, session.clientId, [])
  {
    WriteHeader(session.out, msgType, session.clientId, 0, 0);
  }

  /** `sendRespawnDeath`. */
  method SendRespawnDeath(session: Session)
    modifies session.out
    ensures session.out.written == old(session.out.written) + FrameBytes(PLAYER_RESPAWN, session.clientId, [])
  {
    SendNotice(session, PLAYER_RESPAWN);
  }

  /** `sendGameOver`. */
  method SendGameOver(session: Session)
    modifies session.out
    ensures session.out.written == old(session.out.written) + FrameBytes(PLAYER_GAME_OVER, session.clientId, [])
  {
    SendNotice(session, PLAYER_GAME_OVER);
  }

  /** `sendRespawnWin`. */
  method SendRespawnWin(session: Session)
    modifies session.out
    ensures session.out.written == old(session.out.written) + FrameBytes(RESPAWN_VICTORY, session.clientId, [])
  {
    SendNotice(session, RESPAWN_VICTORY);
  }

  /** `sendCrocSpeedIncrease`. */
  method SendCrocSpeedIncrease(session: Session)
    modifies session.out
    ensures session.out.written == old(session.out.written) + FrameBytes(CROC_SPEED_INCREASE, session.clientId, [])
  {
    SendNotice(session, CROC_SPEED_INCREASE);
  }

  /** `sendGameRestart`. */
  method SendGameRestart(session: Session)
    modifies session.out
    ensures session.out.written == old(session.out.written) + FrameBytes(GAME_RESTART, session.clientId, [])
  {
    SendNotice(session, GAME_RESTART);
  }
}
