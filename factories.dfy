/** The server's spawn-message factories
    (serverJava/Messages/factories/CrocodileFactory.java and FruitFactory.java):
    each builds one fresh five-byte payload — the variant, then x and y as
    `(byte)(v >> 8), (byte)v` — tagged with its message type. */
module SpawnFactories {
  import opened Bytes
  import opened MsgType

  /** An `OutboundMessage`: a type code and a payload. */
  datatype OutboundMessage = OutboundMessage(msgType: byte, payload: seq<byte>)

  /** The five bytes both factories build. */
  function SpawnPayload(variant: i8, x: i32, y: i32): seq<byte>
  {
    [Low8(variant)] + ShiftBytes16(x) + ShiftBytes16(y)
  }

  /** The payload's layout: five bytes, the variant's pattern first, then
      the low 16 bits of x and of y, high byte first. */
  lemma {:induction false} SpawnPayloadLayout(variant: i8, x: i32, y: i32)
    ensures var p := SpawnPayload(variant, x, y);
      |p| == 5 && p[0] == Low8(variant) && AsI8(p[0]) == variant &&
      Be16(p[1..]) == Low16(x) && Be16(p[3..]) == Low16(y)
  {
    var p := SpawnPayload(variant, x, y);
    ShiftBytes16IsEnc16(x);
    ShiftBytes16IsEnc16(y);
    assert p[1..][..2] == Enc16(Low16(x));
    assert p[3..][..2] == Enc16(Low16(y));
    Be16Enc16(Low16(x));
    Be16Enc16(Low16(y));
    AsI8Low8(variant);
  }

  /** `CrocodileFactory.spawn`: a `CROC_SPAWN` message. */
  function CrocSpawn(variant: i8, x: i32, y: i32): (m: OutboundMessage)
    ensures m.msgType == CROC_SPAWN && |m.payload| == 5
    ensures AsI8(m.payload[0]) == variant
    ensures Be16(m.payload[1..]) == Low16(x) && Be16(m.payload[3..]) == Low16(y)
  {
    SpawnPayloadLayout(variant, x, y);
    OutboundMessage(CROC_SPAWN, SpawnPayload(variant, x, y))
  }

  /** `FruitFactory.spawn`: a `FRUIT_SPAWN` message. */
  function FruitSpawn(variant: i8, x: i32, y: i32): (m: OutboundMessage)
    ensures m.msgType == FRUIT_SPAWN && |m.payload| == 5
    ensures AsI8(m.payload[0]) == variant
    ensures Be16(m.payload[1..]) == Low16(x) && Be16(m.payload[3..]) == Low16(y)
  {
    SpawnPayloadLayout(variant, x, y);
    OutboundMessage(FRUIT_SPAWN, SpawnPayload(variant, x, y))
  }
}
