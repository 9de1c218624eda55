/** The server's inbound frame processor
    (serverJava/MessageManagement/AnswerProcessor.java, `processFrame`).
    One call reads one header and then, by type: a player proposal, which
    is mirrored into the server's player record and handed to the spectator
    broadcast; a state bundle, whose entity-correction records are logged;
    or anything else, whose payload is skipped. A read past the end of the
    stream ends the call with an exception, modelled as `ok == false`. */
module AnswerProcessor {
  import opened Bytes
  import opened Wrappers
  import Frame
  import opened MsgType
  import opened JavaIo
  import JavaProto
  import opened JavaTlv
  import ServerPlayer

  /** The header fields as `processFrame` reads them: signed version and
      type, unsigned reserved, signed ids and length. */
  datatype WireHeader = WireHeader(version: i8, msgType: i8, reserved: u16, fromId: i32, gameId: i32, len: i32)

  function HeaderAt(data: seq<byte>, pos: nat): WireHeader
    requires pos + Frame.HEADER_SIZE <= |data|
  {
    var h := Frame.Decode(data[pos..]);
    WireHeader(AsI8(h.version), AsI8(h.msgType), h.reserved, AsI32(h.clientId), AsI32(h.gameId), AsI32(h.payloadLen))
  }

  /** A header written by `Proto.writeHeader` reads back field for field. */
  lemma {:induction false} HeaderReadsBack(msgType: i8, dest: i32, gameId: i32, len: i32, rest: seq<byte>)
    ensures HeaderAt(Frame.Encode(JavaProto.Header(msgType, dest, gameId, len)) + rest, 0) ==
      WireHeader(1, msgType, 0, dest, gameId, len)
  {
    var h := JavaProto.Header(msgType, dest, gameId, len);
    var data := Frame.Encode(h) + rest;
    assert data[0..][..Frame.HEADER_SIZE] == Frame.Encode(h);
    Frame.DecodeEncode(h);
    Frame.DecodePrefix(Frame.Encode(h), rest);
  }

  /** The 13-byte proposal as the server reads it: tick, x, y, vx, vy,
      flags. */
  datatype Proposal = Proposal(tick: i32, x: i16, y: i16, vx: i16, vy: i16, flags: i8)

  function ProposalAt(data: seq<byte>, pos: nat): Proposal
    requires pos + 13 <= |data|
  {
    Proposal(AsI32(Be32(data[pos..])), AsI16(Be16(data[pos + 4..])), AsI16(Be16(data[pos + 6..])),
             AsI16(Be16(data[pos + 8..])), AsI16(Be16(data[pos + 10..])), AsI8(data[pos + 12]))
  }

  /** What `broadcastPlayerStateToSpectators` is called with. */
  datatype Broadcast = Broadcast(fromId: i32, x: i16, y: i16, vx: i16, vy: i16, flags: i8)

  /** The `ENTITIES_CORR` records a bundle payload logs: the records the
      parser returns, in order, until it returns none or the payload is
      used up, keeping those of type `TLV_ENTITIES_CORR`. */
  function Logged(buf: seq<byte>): seq<Tlv>
    decreases |buf|
  {
    if |buf| == 0 then []
    else match NextAt(buf, 0)
      case None => []
      case Some((t, next)) => (if t.tlvType == TLV_ENTITIES_CORR as int then [t] else []) + Logged(buf[next..])
  }

  /** Only `ENTITIES_CORR` records are logged, each one a record the parser
      returned from the payload. */
  lemma {:induction false} LoggedOnlyEntities(buf: seq<byte>)
    ensures forall i :: 0 <= i < |Logged(buf)| ==> Logged(buf)[i].tlvType == TLV_ENTITIES_CORR as int
    ensures |Logged(buf)| <= |buf| / 3
    decreases |buf|
  {
    if |buf| > 0 && NextAt(buf, 0).Some? {
      LoggedOnlyEntities(buf[NextAt(buf, 0).value.1..]);
    }
  }

  /** A record `writeTLV` produces with a non-empty value is returned whole
      by the parser, so it is logged exactly when its type byte is
      `TLV_ENTITIES_CORR`, and logging carries on after it. */
  lemma {:induction false} LoggedWrittenRecord(t: int, value: seq<byte>, rest: seq<byte>)
    requires 1 <= |value| < 0x1_0000
    ensures Logged(JavaProto.TlvBytes(t, value) + rest) ==
      (if AsI8(Low8(t)) == TLV_ENTITIES_CORR as int then [Tlv(AsI8(Low8(t)), |value|, value)] else []) + Logged(rest)
  {
    var b := JavaProto.TlvBytes(t, value) + rest;
    ReadsWrittenRecord(t, value, rest);
    assert b[3 + |value|..] == rest;
  }

  /** An empty `ENTITIES_CORR` record at the end of a bundle is never
      logged, because the parser does not return it. */
  lemma {:induction false} TrailingEmptyEntitiesNotLogged()
    ensures Logged(JavaProto.TlvBytes(TLV_ENTITIES_CORR as int, [])) == []
  {
    TrailingEmptyRecordRejected(TLV_ENTITIES_CORR as int);
  }

  /** One call's outcome: whether it returned normally, where the stream
      cursor is, the header once read, the broadcast made and the bundle
      payload read, whose records are then logged. */
  datatype FrameResult = FrameResult(ok: bool, next: nat, header: Option<WireHeader>,
                                     broadcast: Option<Broadcast>, bundle: Option<seq<byte>>)

  function Max0(v: int): nat { if v > 0 then v else 0 }

  /** A call that fails once the header is read. */
  function Fail(data: seq<byte>, h: WireHeader): FrameResult
  {
    FrameResult(false, |data|, Some(h), None, None)
  }

  /** The `PLAYER_PROPOSED` branch, after the header at `p - 16`: a short
      payload is skipped; a full one is read, its excess skipped, and it is
      broadcast under the header's `fromId`. */
  function ProposalFrame(data: seq<byte>, p: nat, h: WireHeader): (r: FrameResult)
    requires p <= |data|
    ensures r.header == Some(h) && r.bundle.None?
    ensures r.ok <==> p + Max0(h.len) <= |data|
    ensures r.next == if r.ok then p + Max0(h.len) else |data|
    ensures r.broadcast.Some? <==> r.ok && h.len >= 13
    ensures r.broadcast.Some? ==> var prop := ProposalAt(data, p);
      r.broadcast.value == Broadcast(h.fromId, prop.x, prop.y, prop.vx, prop.vy, prop.flags)
  {
    if h.len < 13 then
      if h.len > 0 && p + h.len > |data| then Fail(data, h)
      else FrameResult(true, p + Max0(h.len), Some(h), None, None)
    else if p + 13 > |data| then Fail(data, h)
    else
      var prop := ProposalAt(data, p);
      var extra := h.len - 13;
      if extra > 0 && p + 13 + extra > |data| then Fail(data, h)
      else FrameResult(true, p + 13 + Max0(extra), Some(h),
                       Some(Broadcast(h.fromId, prop.x, prop.y, prop.vx, prop.vy, prop.flags)), None)
  }

  /** The `STATE_BUNDLE` branch: nothing for a non-positive length,
      otherwise the whole payload is read. */
  function BundleFrame(data: seq<byte>, p: nat, h: WireHeader): (r: FrameResult)
    requires p <= |data|
    ensures r.header == Some(h) && r.broadcast.None?
    ensures r.ok <==> p + Max0(h.len) <= |data|
    ensures r.next == if r.ok then p + Max0(h.len) else |data|
    ensures r.bundle.Some? <==> r.ok && h.len > 0
    ensures r.bundle.Some? ==> r.bundle.value == data[p..p + h.len]
  {
    if h.len <= 0 then FrameResult(true, p, Some(h), None, None)
    else if p + h.len > |data| then Fail(data, h)
    else FrameResult(true, p + h.len, Some(h), None, Some(data[p..p + h.len]))
  }

  /** Any other type: the payload is skipped. */
  function SkipFrame(data: seq<byte>, p: nat, h: WireHeader): (r: FrameResult)
    requires p <= |data|
    ensures r.header == Some(h) && r.broadcast.None? && r.bundle.None?
    ensures r.ok <==> p + Max0(h.len) <= |data|
    ensures r.next == if r.ok then p + Max0(h.len) else |data|
  {
    if h.len > 0 && p + h.len > |data| then Fail(data, h)
    else FrameResult(true, p + Max0(h.len), Some(h), None, None)
  }

  /** `processFrame` on the stream `data` with the cursor at `pos`. The
      call returns normally exactly when the header and `max(len, 0)`
      payload bytes are there, and then leaves the cursor just after them;
      otherwise it throws with the stream used up. */
  function Process(data: seq<byte>, pos: nat): (r: FrameResult)
    requires pos <= |data|
    ensures r.header.Some? <==> pos + Frame.HEADER_SIZE <= |data|
    ensures r.header.Some? ==> r.header.value == HeaderAt(data, pos)
    ensures r.ok <==> r.header.Some? && pos + Frame.HEADER_SIZE + Max0(r.header.value.len) <= |data|
    ensures r.next == if r.ok then pos + Frame.HEADER_SIZE + Max0(r.header.value.len) else |data|
    ensures r.broadcast.Some? <==>
      r.ok && r.header.value.msgType == PLAYER_PROPOSED as int && r.header.value.len >= 13
    ensures r.broadcast.Some? ==> var p := ProposalAt(data, pos + Frame.HEADER_SIZE);
      r.broadcast.value == Broadcast(r.header.value.fromId, p.x, p.y, p.vx, p.vy, p.flags)
    ensures r.bundle.Some? <==>
      r.ok && r.header.value.msgType == STATE_BUNDLE as int && r.header.value.len > 0
    ensures r.bundle.Some? ==>
      r.bundle.value == data[pos + Frame.HEADER_SIZE..pos + Frame.HEADER_SIZE + r.header.value.len]
  {
    if |data| - pos < Frame.HEADER_SIZE then FrameResult(false, |data|, None, None, None)
    else
      var h := HeaderAt(data, pos);
      var p := pos + Frame.HEADER_SIZE;
      if h.msgType == PLAYER_PROPOSED as int then ProposalFrame(data, p, h)
      else if h.msgType == STATE_BUNDLE as int then BundleFrame(data, p, h)
      else SkipFrame(data, p, h)
  }

  /** The server's player after a call: position and velocity taken from
      the broadcast proposal, everything else as it was. */
  function Mirror(s: ServerPlayer.Stats, b: Option<Broadcast>): (r: ServerPlayer.Stats)
    ensures b.None? ==> r == s
    ensures b.Some? ==> r.x == b.value.x && r.y == b.value.y && r.vx == b.value.vx && r.vy == b.value.vy
    ensures r.lives == s.lives && r.isDead == s.isDead && r.score == s.score
  {
    if b.Some? then s.(x := b.value.x, y := b.value.y, vx := b.value.vx, vy := b.value.vy) else s
  }

  // ---------------------------------------------------------------------
  // Properties of `processFrame` over whole streams

  /** The version byte is read but not checked: a frame with any other
      version is handled the same way. */
  lemma {:induction false} VersionIgnored(data: seq<byte>, pos: nat, v: byte)
    requires pos + Frame.HEADER_SIZE <= |data|
    ensures var r, r' := Process(data, pos), Process(data[pos := v], pos);
      r'.ok == r.ok && r'.next == r.next && r'.broadcast == r.broadcast && r'.bundle == r.bundle &&
      r'.header == Some(r.header.value.(version := AsI8(v)))
  {
    var data' := data[pos := v];
    assert data'[pos..][1..] == data[pos..][1..];
    assert data'[pos + 1..] == data[pos + 1..];
    assert data'[pos + Frame.HEADER_SIZE..] == data[pos + Frame.HEADER_SIZE..];
    assert forall i :: pos + 2 <= i <= |data| ==> data'[i..] == data[i..];
  }

  /** A frame as the server's own `writeHeader` lays it out. */
  datatype OutFrame = OutFrame(msgType: i8, dest: i32, gameId: i32, payload: seq<byte>)

  predicate Fits(f: OutFrame) { |f.payload| <= I32_MAX }

  function FrameOf(f: OutFrame): seq<byte>
    requires Fits(f)
  {
    Frame.Encode(JavaProto.Header(f.msgType, f.dest, f.gameId, |f.payload|)) + f.payload
  }

  /** A written frame is processed as one call: its header reads back, and
      the cursor ends exactly after its payload, at the next header. */
  lemma {:induction false} ProcessWrittenFrame(pre: seq<byte>, f: OutFrame, rest: seq<byte>)
    requires Fits(f)
    ensures var data := pre + FrameOf(f) + rest; var r := Process(data, |pre|);
      r.ok && r.next == |pre| + |FrameOf(f)| &&
      r.header == Some(WireHeader(1, f.msgType, 0, f.dest, f.gameId, |f.payload|))
  {
    var data := pre + FrameOf(f) + rest;
    var hdr := Frame.Encode(JavaProto.Header(f.msgType, f.dest, f.gameId, |f.payload|));
    assert data[|pre|..] == hdr + (f.payload + rest);
    HeaderReadsBack(f.msgType, f.dest, f.gameId, |f.payload|, f.payload + rest);
    assert data[|pre|..][0..] == data[|pre|..];
    assert Frame.Decode(data[|pre|..]) == Frame.Decode(data[|pre|..][0..]);
  }

  /** The frames of a stream one after another. */
  function Stream(fs: seq<OutFrame>): seq<byte>
    requires forall i :: 0 <= i < |fs| ==> Fits(fs[i])
  {
    if fs == [] then [] else FrameOf(fs[0]) + Stream(fs[1..])
  }

  /** The headers of `n` calls in a row that return normally, up to the
      first call that throws. */
  function HeadersRead(data: seq<byte>, pos: nat, n: nat): seq<WireHeader>
    requires pos <= |data|
    decreases n
  {
    if n == 0 then []
    else
      var r := Process(data, pos);
      if r.ok then [r.header.value] + HeadersRead(data, r.next, n - 1) else []
  }

  /** The headers the server writes for a list of frames. */
  function HeadersSent(fs: seq<OutFrame>): seq<WireHeader>
    requires forall i :: 0 <= i < |fs| ==> Fits(fs[i])
  {
    if fs == [] then []
    else
      assert Fits(fs[0]);
      [WireHeader(1, fs[0].msgType, 0, fs[0].dest, fs[0].gameId, |fs[0].payload|)] + HeadersSent(fs[1..])
  }

  /** A stream of written frames is processed frame by frame: every call
      returns normally, each starting on the header of the next frame, and
      the headers read are the headers written. */
  lemma {:induction false} ProcessStream(pre: seq<byte>, fs: seq<OutFrame>, rest: seq<byte>)
    requires forall i :: 0 <= i < |fs| ==> Fits(fs[i])
    ensures HeadersRead(pre + Stream(fs) + rest, |pre|, |fs|) == HeadersSent(fs)
    decreases |fs|
  {
    if fs != [] {
      var data := pre + Stream(fs) + rest;
      var tail := Stream(fs[1..]);
      assert data == pre + FrameOf(fs[0]) + (tail + rest);
      ProcessWrittenFrame(pre, fs[0], tail + rest);
      var pre' := pre + FrameOf(fs[0]);
      assert data == pre' + tail + rest;
      ProcessStream(pre', fs[1..], rest);
      var r := Process(data, |pre|);
      assert HeadersRead(data, |pre|, |fs|) == [r.header.value] + HeadersRead(data, |pre'|, |fs| - 1);
    }
  }

  // ---------------------------------------------------------------------
  // The imperative processor

  /** The 16 header reads. */
  method ReadHeader(input: DataInput) returns (ok: bool, h: WireHeader)
    requires input.Valid()
    modifies input`pos
    ensures input.Valid()
    ensures ok <==> old(input.pos) + Frame.HEADER_SIZE <= |input.data|
    ensures ok ==> h == HeaderAt(input.data, old(input.pos)) && input.pos == old(input.pos) + Frame.HEADER_SIZE
    ensures !ok ==> input.pos == |input.data|
  {
    h := WireHeader(0, 0, 0, 0, 0, 0);
    ghost var p := input.pos;
    var version, msgType, res, fromId, gameId, len;
    ok, version := input.ReadByte();
    if !ok { return; }
    ok, msgType := input.ReadByte();
    if !ok { return; }
    ok, res := input.ReadUnsignedShort();
    if !ok { return; }
    ok, fromId := input.ReadInt();
    if !ok { return; }
    ok, gameId := input.ReadInt();
    if !ok { return; }
    ok, len := input.ReadInt();
    if !ok { return; }
    h := WireHeader(version, msgType, res, fromId, gameId, len);
    assert input.data[p..][2..] == input.data[p + 2..];
    assert input.data[p..][4..] == input.data[p + 4..];
    assert input.data[p..][8..] == input.data[p + 8..];
    assert input.data[p..][12..] == input.data[p + 12..];
  }

  /** The six proposal reads. */
  method ReadProposal(input: DataInput) returns (ok: bool, prop: Proposal)
    requires input.Valid()
    modifies input`pos
    ensures input.Valid()
    ensures ok <==> old(input.pos) + 13 <= |input.data|
    ensures ok ==> prop == ProposalAt(input.data, old(input.pos)) && input.pos == old(input.pos) + 13
    ensures !ok ==> input.pos == |input.data|
  {
    prop := Proposal(0, 0, 0, 0, 0, 0);
    var tick, x, y, vx, vy, flags;
    ok, tick := input.ReadInt();
    if !ok { return; }
    ok, x := input.ReadShort();
    if !ok { return; }
    ok, y := input.ReadShort();
    if !ok { return; }
    ok, vx := input.ReadShort();
    if !ok { return; }
    ok, vy := input.ReadShort();
    if !ok { return; }
    ok, flags := input.ReadByte();
    if !ok { return; }
    prop := Proposal(tick, x, y, vx, vy, flags);
  }

  /** The parser loop over a bundle payload. */
  method LogEntities(buf: seq<byte>) returns (logged: seq<Tlv>)
    ensures logged == Logged(buf)
  {
    var tlv := new TlvParser(buf);
    logged := [];
    while tlv.Remaining() > 0
      invariant tlv.Valid() && tlv.buf == buf
      invariant logged + Logged(buf[tlv.pos..]) == Logged(buf)
      decreases |buf| - tlv.pos
    {
      var stop, entry := LogNext(tlv);
      if stop {
        break;
      }
      logged := logged + entry;
    }
  }

  /** One turn of the loop: the next record, logged when it is an
      `ENTITIES_CORR` one, or `stop` when the parser returns none. */
  method LogNext(tlv: TlvParser) returns (stop: bool, entry: seq<Tlv>)
    requires tlv.Valid() && tlv.pos < |tlv.buf|
    modifies tlv`pos
    ensures tlv.Valid() && old(tlv.pos) <= tlv.pos
    ensures stop ==> Logged(tlv.buf[old(tlv.pos)..]) == []
    ensures !stop ==> old(tlv.pos) < tlv.pos
    ensures !stop ==> Logged(tlv.buf[old(tlv.pos)..]) == entry + Logged(tlv.buf[tlv.pos..])
  {
    LoggedStep(tlv.buf, tlv.pos);
    var t := tlv.Next();
    stop, entry := t.None?, [];
    if t.Some? && t.value.tlvType == TLV_ENTITIES_CORR as int {
      entry := [t.value];
    }
  }

  /** One step of `Logged` from the cursor `pos`, in terms of the record the
      parser finds there. */
  lemma LoggedStep(buf: seq<byte>, pos: nat)
    requires pos < |buf|
    ensures NextAt(buf, pos).None? ==> Logged(buf[pos..]) == []
    ensures NextAt(buf, pos).Some? ==> var (t, next) := NextAt(buf, pos).value;
      Logged(buf[pos..]) == (if t.tlvType == TLV_ENTITIES_CORR as int then [t] else []) + Logged(buf[next..])
  {
    if |buf| - pos >= 4 {
      assert buf[pos..][1..] == buf[pos + 1..];
      var len := Be16(buf[pos + 1..]);
      if 3 + len <= |buf| - pos {
        assert buf[pos..][3..3 + len] == buf[pos + 3..pos + 3 + len];
        assert buf[pos..][3 + len..] == buf[pos + 3 + len..];
      }
    }
  }

  /** The `PLAYER_PROPOSED` branch once the header is read. */
  method HandleProposal(input: DataInput, h: WireHeader, p1: ServerPlayer.Player?) returns (ok: bool, broadcast: Option<Broadcast>)
    requires input.Valid()
    modifies input`pos, p1
    ensures input.Valid()
    ensures var r := ProposalFrame(input.data, old(input.pos), h);
      ok == r.ok && input.pos == r.next && broadcast == r.broadcast
    ensures p1 != null ==> p1.State() == Mirror(old(p1.State()), broadcast)
  {
    broadcast := None;
    if h.len < 13 {
      ok := true;
      if h.len > 0 {
        ok := input.SkipNBytes(h.len);
      }
      return;
    }
    var prop;
    ok, prop := ReadProposal(input);
    if !ok { return; }
    var extra := h.len - 13;
    if extra > 0 {
      ok := input.SkipNBytes(extra);
      if !ok { return; }
    }
    if p1 != null {
      p1.x := prop.x;
      p1.y := prop.y;
      p1.vx := prop.vx;
      p1.vy := prop.vy;
    }
    broadcast := Some(Broadcast(h.fromId, prop.x, prop.y, prop.vx, prop.vy, prop.flags));
  }

  /** The `STATE_BUNDLE` branch once the header is read. */
  method HandleBundle(input: DataInput, h: WireHeader) returns (ok: bool, logged: seq<Tlv>)
    requires input.Valid()
    modifies input`pos
    ensures input.Valid()
    ensures var r := BundleFrame(input.data, old(input.pos), h);
      ok == r.ok && input.pos == r.next && logged == (if r.bundle.Some? then Logged(r.bundle.value) else [])
  {
    ghost var r := BundleFrame(input.data, input.pos, h);
    logged := [];
    if h.len <= 0 {
      return true, [];
    }
    var buf;
    ok, buf := input.ReadFully(h.len);
    if !ok { return; }
    assert r.bundle == Some(buf);
    logged := LogEntities(buf);
  }

  /** Any other type once the header is read. */
  method SkipPayload(input: DataInput, h: WireHeader) returns (ok: bool)
    requires input.Valid()
    modifies input`pos
    ensures input.Valid()
    ensures var r := SkipFrame(input.data, old(input.pos), h);
      ok == r.ok && input.pos == r.next
  {
    ok := true;
    if h.len > 0 {
      ok := input.SkipNBytes(h.len);
    }
  }

  /** `processFrame(in, sess)`, with `server.p1` passed as `p1`. The
      session is not used. */
  method ProcessFrame(input: DataInput, p1: ServerPlayer.Player?) returns (ok: bool, broadcast: Option<Broadcast>, logged: seq<Tlv>)
    requires input.Valid()
    modifies input`pos, p1
    ensures input.Valid()
    ensures var r := Process(input.data, old(input.pos));
      ok == r.ok && input.pos == r.next && broadcast == r.broadcast &&
      logged == (if r.bundle.Some? then Logged(r.bundle.value) else [])
    ensures p1 != null ==> p1.State() == Mirror(old(p1.State()), broadcast)
  {
    broadcast, logged := None, [];
    var h;
    ok, h := ReadHeader(input);
    if !ok { return; }
    if h.msgType == PLAYER_PROPOSED as int {
      ok, broadcast := HandleProposal(input, h, p1);
    } else if h.msgType == STATE_BUNDLE as int {
      ok, logged := HandleBundle(input, h);
    } else {
      ok := SkipPayload(input, h);
    }
  }
}
