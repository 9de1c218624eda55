/** What the C spectator's handlers make of the payloads the Java server
    writes: each server encoder is decoded back to the values it was given
    (as 16-bit, 8-bit or 32-bit patterns where the server narrows them). */
module ClientInterop {
  import opened Bytes
  import opened Wrappers
  import Frame
  import CProto
  import MsgType
  import JavaProto
  import Messenger
  import SpawnFactories
  import Dispatch
  import Handlers

  /** A frame the server writes reaches the C reader as a version-1 header
      with the same type and the payload's length, payload after it. */
  lemma {:induction false} ServerFrameReadsBack(msgType: i8, dest: i32, payload: seq<byte>, rest: seq<byte>)
    requires 0 <= msgType && |payload| <= I32_MAX
    ensures var rx := Messenger.FrameBytes(msgType, dest, payload) + rest;
      var h := Frame.Decode(rx);
      h.version == CProto.CP_VERSION && h.msgType == msgType && h.payloadLen == |payload| &&
      rx[Frame.HEADER_SIZE..Frame.HEADER_SIZE + |payload|] == payload
  {
    var hd := JavaProto.Header(msgType, dest, 0, |payload|);
    var rx := Messenger.FrameBytes(msgType, dest, payload) + rest;
    assert rx == Frame.Encode(hd) + (payload + rest);
    Frame.DecodeEncode(hd);
    Frame.DecodePrefix(Frame.Encode(hd), payload + rest);
    AsI32Low32(|payload|);
  }

  /** The factories' spawn payload is the five-byte layout: the spectator
      reads back the variant's bits and the low 16 bits of x and y, which
      are x and y themselves when they fit in an `int16`. */
  lemma {:induction false} SpawnDecoded(variant: i8, x: i32, y: i32)
    ensures var p := SpawnFactories.SpawnPayload(variant, x, y);
      Handlers.SpawnOf(p) == Some(Handlers.Spawn(Low8(variant), Wrap16(x), Wrap16(y))) &&
      Handlers.HandlerEffect(Dispatch.OnSpawnCroc, p) == Handlers.SpawnCroc(Low8(variant), Wrap16(x), Wrap16(y)) &&
      Handlers.HandlerEffect(Dispatch.OnSpawnFruit, p) == Handlers.SpawnFruit(Low8(variant), Wrap16(x), Wrap16(y))
    ensures -0x8000 <= x < 0x8000 && -0x8000 <= y < 0x8000 ==> Wrap16(x) == x && Wrap16(y) == y
  {
    SpawnFactories.SpawnPayloadLayout(variant, x, y);
    if -0x8000 <= x < 0x8000 && -0x8000 <= y < 0x8000 {
      AsI16Low16(x);
      AsI16Low16(y);
    }
  }

  /** `sendRemoveFruit`'s payload names the same cell, as 16-bit values. */
  lemma {:induction false} RemoveFruitDecoded(x: i32, y: i32)
    ensures Handlers.HandlerEffect(Dispatch.OnRemoveFruit, Messenger.RemoveFruitPayload(x, y)) ==
      Handlers.RemoveFruitAt(Wrap16(x), Wrap16(y))
  {
    var p := Messenger.RemoveFruitPayload(x, y);
    assert Handlers.I16At(p, 0) == AsI16(Be16(p)) by { assert p[0..] == p; }
  }

  /** `sendSpectatorState`'s payload is applied with the same position,
      velocity and flag bits. */
  lemma {:induction false} SpectatorStateDecoded(x: i16, y: i16, vx: i16, vy: i16, flags: i8)
    ensures Handlers.HandlerEffect(Dispatch.OnSpectatorState, Messenger.SpectatorStatePayload(x, y, vx, vy, flags)) ==
      Handlers.ApplyRemoteState(x, y, vx, vy, Low8(flags))
  {
    var p := Messenger.SpectatorStatePayload(x, y, vx, vy, flags);
    assert p[0..] == p;
    assert Low8(AsI8(p[8])) == p[8];
  }

  /** The lives byte and the score's four bytes reach the HUD: lives as its
      8-bit pattern, the score as its 32-bit pattern. */
  lemma {:induction false} HudDecoded(lives: i8, score: i32)
    ensures Handlers.HandlerEffect(Dispatch.OnLivesUpdate, [Low8(lives)]) == Handlers.SetUiLives(Low8(lives))
    ensures Handlers.HandlerEffect(Dispatch.OnScoreUpdate, JavaProto.BbU32(score)) == Handlers.SetUiScore(Low32(score))
    ensures AsI32(Low32(score)) == score
  {
    AsI32Low32(score);
  }
}
