/** The server's frame and TLV writers (serverJava/MessageManagement/Proto.java).
    Java `byte`, `short` and `int` arguments are `i8`, `i16` and `i32`; what
    lands on the wire are the low bits of each, high byte first. */
module JavaProto {
  import opened Bytes
  import Frame
  import CTlv
  import opened Rects
  import opened JavaIo

  /** The version byte every header carries. */
  const VERSION: i8 := 1

  /** The header `writeHeader` describes: version 1, reserved 0, and the
      bit patterns of the type, destination, game id and payload length. */
  function Header(msgType: i8, destClientId: i32, gameId: i32, payloadLen: i32): (h: Frame.Header)
    ensures h.version == 1 && h.reserved == 0
    ensures AsI8(h.msgType) == msgType && AsI32(h.clientId) == destClientId
    ensures AsI32(h.gameId) == gameId && AsI32(h.payloadLen) == payloadLen
  {
    AsI8Low8(msgType);
    AsI32Low32(destClientId);
    AsI32Low32(gameId);
    AsI32Low32(payloadLen);
    Frame.Header(Low8(VERSION), Low8(msgType), 0, Low32(destClientId), Low32(gameId), Low32(payloadLen))
  }

  /** `writeHeader`: exactly the 16 bytes of `Header(...)`. */
  method WriteHeader(out: DataOutput, msgType: i8, destClientId: i32, gameId: i32, payloadLen: i32)
    modifies out
    ensures out.written == old(out.written) + Frame.Encode(Header(msgType, destClientId, gameId, payloadLen))
  {
    out.WriteByte(VERSION);
    out.WriteByte(msgType);
    out.WriteShort(0);
    out.WriteInt(destClientId);
    out.WriteInt(gameId);
    out.WriteInt(payloadLen);
    ghost var h := Header(msgType, destClientId, gameId, payloadLen);
    assert out.written == old(out.written) + ([h.version, h.msgType] + Enc16(h.reserved) +
      Enc32(h.clientId) + Enc32(h.gameId) + Enc32(h.payloadLen));
  }

  /** The two bytes `writeU16` appends for `v`. */
  function U16Bytes(v: int): (r: seq<byte>)
    ensures |r| == 2 && Be16(r) == Low16(v)
  {
    Be16Enc16(Low16(v));
    Enc16(Low16(v))
  }

  /** Values that differ by a multiple of 65536 are written identically. */
  lemma {:induction false} U16BytesPeriodic(v: int, k: int)
    ensures U16Bytes(v + 0x1_0000 * k) == U16Bytes(v)
  {
    Low16Periodic(v, k);
  }

  /** `writeU16`. */
  method WriteU16(out: DataOutput, v: i32)
    modifies out
    ensures out.written == old(out.written) + U16Bytes(v)
  {
    out.WriteShort(Bytes.Low16(v));
    assert Low16(Low16(v)) == Low16(v);
  }

  /** The eight bytes `writeRect` appends: x, y, w, h, each as `writeU16`. */
  function RectBytes(r: Rect): (b: seq<byte>)
    ensures |b| == 8
    ensures Be16(b) == Low16(r.x) && Be16(b[2..]) == Low16(r.y)
    ensures Be16(b[4..]) == Low16(r.w) && Be16(b[6..]) == Low16(r.h)
  {
    var b := U16Bytes(r.x) + U16Bytes(r.y) + U16Bytes(r.w) + U16Bytes(r.h);
    assert b[2..][..2] == U16Bytes(r.y);
    assert b[4..][..2] == U16Bytes(r.w);
    assert b[6..][..2] == U16Bytes(r.h);
    b
  }

  /** `writeRect`. */
  method WriteRect(out: DataOutput, r: Rect)
    modifies out
    ensures out.written == old(out.written) + RectBytes(r)
  {
    WriteU16(out, r.x);
    WriteU16(out, r.y);
    WriteU16(out, r.w);
    WriteU16(out, r.h);
    assert out.written == old(out.written) + (U16Bytes(r.x) + U16Bytes(r.y) + U16Bytes(r.w) + U16Bytes(r.h));
  }

  /** The record `writeTLV` appends: the low byte of the type, the low 16
      bits of the value's length, then the value. */
  function TlvBytes(t: int, value: seq<byte>): (b: seq<byte>)
    ensures |b| == 3 + |value|
    ensures b[0] == Low8(t) && Be16(b[1..]) == Low16(|value|) && b[3..] == value
  {
    var b := [Low8(t)] + U16Bytes(|value|) + value;
    assert b[1..][..2] == U16Bytes(|value|);
    b
  }

  /** A value shorter than 65536 bytes is written as the record the C
      clients' `tlv_next` reads. */
  lemma {:induction false} TlvBytesIsRecord(t: int, value: seq<byte>)
    requires |value| < 0x1_0000
    ensures TlvBytes(t, value) == CTlv.RecordBytes(Low8(t), value)
  {
    assert Low16(|value|) == |value|;
  }

  /** `writeTLV`. */
  method WriteTlv(out: DataOutput, t: i32, value: seq<byte>)
    modifies out
    ensures out.written == old(out.written) + TlvBytes(t, value)
  {
    out.WriteByte(Low8(t));
    out.WriteShort(Low16(|value|));
    out.Write(value);
    assert Low8(Low8(t)) == Low8(t) && Low16(Low16(|value|)) == Low16(|value|);
    assert out.written == old(out.written) + ([Low8(t)] + U16Bytes(|value|) + value);
  }

  /** `bbU32`: four bytes, high first, that read back as `v`. */
  function BbU32(v: i32): (r: seq<byte>)
    ensures |r| == 4 && Be32(r) == Low32(v) && AsI32(Be32(r)) == v
  {
    Be32Enc32(Low32(v));
    AsI32Low32(v);
    Enc32(Low32(v))
  }

  /** `bbI16`: two bytes, high first, that read back as `v`. */
  function BbI16(v: i16): (r: seq<byte>)
    ensures |r| == 2 && Be16(r) == Low16(v) && AsI16(Be16(r)) == v
  {
    Be16Enc16(Low16(v));
    AsI16Low16(v);
    Enc16(Low16(v))
  }
}
