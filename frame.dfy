/** The 16-byte frame header shared by every message in both directions:
    version (1 byte), type (1 byte), reserved (2 bytes), client id (4 bytes),
    game id (4 bytes) and payload length (4 bytes), multi-byte fields
    big-endian, followed by `payloadLen` bytes of payload. */
module Frame {
  import opened Bytes

  const HEADER_SIZE: nat := 16

  datatype Header = Header(version: byte, msgType: byte, reserved: u16,
                           clientId: u32, gameId: u32, payloadLen: u32)

  /** The header's 16 bytes on the wire. */
  function Encode(h: Header): (raw: seq<byte>)
    ensures |raw| == HEADER_SIZE
  {
    [h.version, h.msgType] + Enc16(h.reserved) + Enc32(h.clientId) + Enc32(h.gameId) + Enc32(h.payloadLen)
  }

  /** The header the first 16 bytes of `raw` describe. */
  function Decode(raw: seq<byte>): Header
    requires |raw| >= HEADER_SIZE
  {
    Header(raw[0], raw[1], Be16(raw[2..]), Be32(raw[4..]), Be32(raw[8..]), Be32(raw[12..]))
  }

  /** Every header survives encoding and decoding. */
  lemma {:induction false} DecodeEncode(h: Header)
    ensures Decode(Encode(h)) == h
  {
    var raw := Encode(h);
    assert raw[2..][..2] == Enc16(h.reserved);
    assert raw[4..][..4] == Enc32(h.clientId);
    assert raw[8..][..4] == Enc32(h.gameId);
    assert raw[12..][..4] == Enc32(h.payloadLen);
    Be16Enc16(h.reserved);
    Be32Enc32(h.clientId);
    Be32Enc32(h.gameId);
    Be32Enc32(h.payloadLen);
  }

  /** Every 16 bytes are the encoding of the header they decode to. */
  lemma {:induction false} EncodeDecode(raw: seq<byte>)
    requires |raw| == HEADER_SIZE
    ensures Encode(Decode(raw)) == raw
  {
    Enc16Be16(raw[2..]);
    Enc32Be32(raw[4..]);
    Enc32Be32(raw[8..]);
    Enc32Be32(raw[12..]);
    assert raw == raw[..2] + raw[2..][..2] + raw[4..][..4] + raw[8..][..4] + raw[12..][..4];
  }

  /** Decoding looks only at the first 16 bytes: whatever follows the
      header does not change it. */
  lemma {:induction false} DecodePrefix(raw: seq<byte>, rest: seq<byte>)
    requires |raw| == HEADER_SIZE
    ensures Decode(raw + rest) == Decode(raw)
  {
    var w := raw + rest;
    assert w[2..][..2] == raw[2..][..2];
    assert w[4..][..4] == raw[4..][..4];
    assert w[8..][..4] == raw[8..][..4];
    assert w[12..][..4] == raw[12..][..4];
  }
}
