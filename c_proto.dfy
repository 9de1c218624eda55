/** The C clients' framing layer (clientC/UtilsC/proto.h and proto.c):
    big-endian stores into a byte buffer and the header read / write /
    send-frame operations over a socket. */
module CProto {
  import opened Bytes
  import Frame
  import Net

  const CP_VERSION: byte := 1

  /** `wr_be16`: stores `v` big-endian at `p[off]`, `p[off + 1]` and nowhere else. */
  method WrBe16(p: array<byte>, off: nat, v: u16)
    requires off + 2 <= p.Length
    modifies p
    ensures p[off..off + 2] == Enc16(v)
    ensures Be16(p[off..]) == v
    ensures forall i :: 0 <= i < p.Length && !(off <= i < off + 2) ==> p[i] == old(p[i])
  {
    p[off] := v / 0x100;
    p[off + 1] := v % 0x100;
    Be16Enc16(v);
  }

  /** `wr_be32`: stores `v` big-endian at `p[off..off + 4]` and nowhere else. */
  method WrBe32(p: array<byte>, off: nat, v: u32)
    requires off + 4 <= p.Length
    modifies p
    ensures p[off..off + 4] == Enc32(v)
    ensures Be32(p[off..]) == v
    ensures forall i :: 0 <= i < p.Length && !(off <= i < off + 4) ==> p[i] == old(p[i])
  {
    p[off] := v / 0x100_0000;
    p[off + 1] := (v / 0x1_0000) % 0x100;
    p[off + 2] := (v / 0x100) % 0x100;
    p[off + 3] := v % 0x100;
    Be32Enc32(v);
  }

  /** `cp_read_header`: reads 16 bytes; on a short read the header is left as
      it was and the call fails; otherwise every field is filled in and the
      call succeeds exactly when the version is 1. */
  method ReadHeader(s: Net.Socket, h0: Frame.Header) returns (ok: bool, h: Frame.Header)
    requires s.Valid()
    modifies s`rxPos
    ensures s.Valid()
    ensures old(s.rxPos) + 16 > |s.rx| ==> !ok && h == h0 && s.rxPos == |s.rx|
    ensures old(s.rxPos) + 16 <= |s.rx| ==>
      s.rxPos == old(s.rxPos) + 16 &&
      h == Frame.Decode(s.rx[old(s.rxPos)..]) &&
      Frame.Encode(h) == s.rx[old(s.rxPos)..old(s.rxPos) + 16] &&
      (ok <==> h.version == CP_VERSION)
  {
    var r, raw := s.ReadN(16);
    if r != 16 {
      return false, h0;
    }
    h := Frame.Decode(raw);
    assert raw[2..] == s.rx[old(s.rxPos)..][2..16];
    assert raw[4..] == s.rx[old(s.rxPos)..][4..16];
    assert raw[8..] == s.rx[old(s.rxPos)..][8..16];
    assert raw[12..] == s.rx[old(s.rxPos)..][12..16];
    Frame.EncodeDecode(raw);
    ok := h.version == CP_VERSION;
  }

  /** `cp_write_header`: lays the header out in a 16-byte buffer and writes it;
      succeeds exactly when the write does. */
  method WriteHeader(s: Net.Socket, h: Frame.Header) returns (ok: bool)
    modifies s`tx
    ensures ok == s.txOk
    ensures s.tx == old(s.tx) + (if s.txOk then Frame.Encode(h) else [])
  {
    var raw := new byte[16];
    raw[0] := h.version;
    raw[1] := h.msgType;
    WrBe16(raw, 2, h.reserved);
    WrBe32(raw, 4, h.clientId);
    WrBe32(raw, 8, h.gameId);
    WrBe32(raw, 12, h.payloadLen);
    assert raw[..] == Frame.Encode(h) by {
      assert raw[..] == raw[..2] + raw[2..4] + raw[4..8] + raw[8..12] + raw[12..16];
    }
    var r := s.WriteN(raw[..]);
    ok := r == 16;
  }

  /** The header `cp_send_frame` puts in front of a payload. */
  function FrameHeader(msgType: byte, clientId: u32, gameId: u32, len: u32): Frame.Header
  {
    Frame.Header(CP_VERSION, msgType, 0, clientId, gameId, len)
  }

  /** `cp_send_frame`: a version-1 header carrying `|payload|` as its length,
      then the payload (nothing more when it is empty). */
  method SendFrame(s: Net.Socket, msgType: byte, clientId: u32, gameId: u32, payload: seq<byte>)
      returns (ok: bool)
    requires |payload| < 0x1_0000_0000
    modifies s`tx
    ensures ok == s.txOk
    ensures s.txOk ==> s.tx == old(s.tx) + Frame.Encode(FrameHeader(msgType, clientId, gameId, |payload|)) + payload
    ensures !s.txOk ==> s.tx == old(s.tx)
  {
    var len: u32 := |payload|;
    var h := FrameHeader(msgType, clientId, gameId, len);
    ok := WriteHeader(s, h);
    if !ok {
      return;
    }
    if len == 0 {
      return true;
    }
    var r := s.WriteN(payload);
    ok := r == len;
  }

  /** What `cp_send_frame` puts on the wire is read back by `cp_read_header`
      as the same type, client id, game id and length, with version 1, and
      the payload follows it. */
  lemma {:induction false} SentFrameReadsBack(msgType: byte, clientId: u32, gameId: u32, payload: seq<byte>)
    requires |payload| < 0x1_0000_0000
    ensures var wire := Frame.Encode(FrameHeader(msgType, clientId, gameId, |payload|)) + payload;
      var h := Frame.Decode(wire);
      h.version == CP_VERSION && h.msgType == msgType && h.clientId == clientId &&
      h.gameId == gameId && h.payloadLen == |payload| &&
      wire[Frame.HEADER_SIZE..] == payload
  {
    var hd := FrameHeader(msgType, clientId, gameId, |payload|);
    var wire := Frame.Encode(hd) + payload;
    Frame.DecodeEncode(hd);
    Frame.DecodePrefix(Frame.Encode(hd), payload);
  }
}
