/** The player client's outbound side (clientC/clientPlayer/clientPlayer.c):
    `send_player_proposed` lays out a 13-byte `PLAYER_PROPOSED` payload and
    sends it with `cp_send_frame`; the main loop sends one proposal per turn
    with a tick that starts at 0 and increases by one per proposal. Its
    handlers are the shared ones in `Handlers`, under `Dispatch.PlayerTable`. */
module PlayerClient {
  import opened Bytes
  import Frame
  import Net
  import CProto
  import MsgType
  import AnswerProcessor
  import opened Wrappers

  /** `ProposedState`: what the game loop proposes each turn. */
  datatype Proposed = Proposed(x: i16, y: i16, vx: i16, vy: i16, flags: byte)

  /** The payload: the tick, then x, y, vx and vy, all big-endian, then the
      flags. */
  function ProposalBytes(tick: u32, st: Proposed): (p: seq<byte>)
    ensures |p| == 13
  {
    var t, x, y, vx, vy := Enc32(tick), Enc16(Low16(st.x)), Enc16(Low16(st.y)), Enc16(Low16(st.vx)), Enc16(Low16(st.vy));
    [t[0], t[1], t[2], t[3], x[0], x[1], y[0], y[1], vx[0], vx[1], vy[0], vy[1], st.flags]
  }

  /** The whole frame: a version-1 header of type `CP_TYPE_PLAYER_PROP`
      (0x20) with game id 0, then the payload. */
  function ProposalFrame(clientId: u32, tick: u32, st: Proposed): (f: seq<byte>)
    ensures |f| == Frame.HEADER_SIZE + 13
  {
    Frame.Encode(CProto.FrameHeader(MsgType.PLAYER_PROPOSED, clientId, 0, 13)) + ProposalBytes(tick, st)
  }

  /** The bytes the C shifts produce (`tick >> 24`, ..., `x >> 8`, `x`, ...,
      each narrowed to `uint8_t`) are the payload's. */
  lemma {:induction false} ShiftedBytes(tick: u32, st: Proposed)
    ensures ProposalBytes(tick, st) ==
      [Low8(tick / 0x100_0000), Low8(tick / 0x1_0000), Low8(tick / 0x100), Low8(tick),
       Low8(st.x / 0x100), Low8(st.x), Low8(st.y / 0x100), Low8(st.y),
       Low8(st.vx / 0x100), Low8(st.vx), Low8(st.vy / 0x100), Low8(st.vy), st.flags]
  {
    assert tick / 0x100_0000 < 0x100;
    ShiftBytes16IsEnc16(st.x);
    ShiftBytes16IsEnc16(st.y);
    ShiftBytes16IsEnc16(st.vx);
    ShiftBytes16IsEnc16(st.vy);
  }

  /** `send_player_proposed`: fills the 13-byte buffer and sends it; 1 when
      the frame is written, else 0. */
  method SendPlayerProposed(s: Net.Socket, clientId: u32, tick: u32, st: Proposed) returns (r: int)
    modifies s`tx
    ensures r == if s.txOk then 1 else 0
    ensures s.tx == old(s.tx) + if s.txOk then ProposalFrame(clientId, tick, st) else []
  {
    var buf := FillProposal(tick, st);
    var ok := CProto.SendFrame(s, MsgType.PLAYER_PROPOSED, clientId, 0, buf[..]);
    r := if ok then 1 else 0;
  }

  /** The buffer `send_player_proposed` fills field by field with shifts. */
  method FillProposal(tick: u32, st: Proposed) returns (buf: array<byte>)
    ensures fresh(buf) && buf[..] == ProposalBytes(tick, st)
  {
    buf := new byte[13];
    buf[0] := Low8(tick / 0x100_0000);
    buf[1] := Low8(tick / 0x1_0000);
    buf[2] := Low8(tick / 0x100);
    buf[3] := Low8(tick);
    buf[4] := Low8(st.x / 0x100);
    buf[5] := Low8(st.x);
    buf[6] := Low8(st.y / 0x100);
    buf[7] := Low8(st.y);
    buf[8] := Low8(st.vx / 0x100);
    buf[9] := Low8(st.vx);
    buf[10] := Low8(st.vy / 0x100);
    buf[11] := Low8(st.vy);
    buf[12] := st.flags;
    ShiftedBytes(tick, st);
  }

  // ---------------------------------------------------------------------
  // One proposal per turn

  /** The tick of the i-th proposal after `tick0`: `uint32_t` arithmetic. */
  function TickAt(tick0: u32, i: nat): u32
  {
    (tick0 + i) % 0x1_0000_0000
  }

  /** The frames of a run of proposals starting at tick `tick0`: the i-th
      carries tick `tick0 + i`, wrapping at 2^32 like the C `uint32_t`. */
  function ProposalStream(clientId: u32, tick0: u32, props: seq<Proposed>): seq<byte>
  {
    if props == [] then []
    else
      var n := |props| - 1;
      ProposalStream(clientId, tick0, props[..n]) + ProposalFrame(clientId, TickAt(tick0, n), props[n])
  }

  /** One more proposal appends one more frame. */
  lemma StreamStep(clientId: u32, tick0: u32, props: seq<Proposed>, i: nat)
    requires i < |props|
    ensures ProposalStream(clientId, tick0, props[..i + 1]) ==
      ProposalStream(clientId, tick0, props[..i]) + ProposalFrame(clientId, TickAt(tick0, i), props[i])
  {
    assert props[..i + 1][..i] == props[..i];
  }

  /** Every frame is 29 bytes. */
  lemma {:induction false} StreamLength(clientId: u32, tick0: u32, props: seq<Proposed>)
    ensures |ProposalStream(clientId, tick0, props)| == (Frame.HEADER_SIZE + 13) * |props|
  {
    if props != [] {
      StreamLength(clientId, tick0, props[..|props| - 1]);
    }
  }

  /** The sending half of the player's main loop: one proposal per turn,
      `tick++` after each. */
  method SendProposals(s: Net.Socket, clientId: u32, tick0: u32, props: seq<Proposed>) returns (tick: u32)
    modifies s`tx
    ensures tick == TickAt(tick0, |props|)
    ensures s.txOk ==> s.tx == old(s.tx) + ProposalStream(clientId, tick0, props)
    ensures !s.txOk ==> s.tx == old(s.tx)
  {
    tick := tick0;
    for i := 0 to |props|
      invariant tick == TickAt(tick0, i)
      invariant s.txOk ==> s.tx == old(s.tx) + ProposalStream(clientId, tick0, props[..i])
      invariant !s.txOk ==> s.tx == old(s.tx)
    {
      tick := ProposeTurn(s, clientId, tick0, props, i, tick, old(s.tx));
    }
    assert props[..|props|] == props;
  }

  /** One turn of the loop: the i-th proposal goes out with tick
      `tick0 + i`, and the tick moves on by one. */
  method ProposeTurn(s: Net.Socket, clientId: u32, tick0: u32, props: seq<Proposed>, i: nat, tick: u32,
                     ghost base: seq<byte>) returns (next: u32)
    requires i < |props| && tick == TickAt(tick0, i)
    requires s.txOk ==> s.tx == base + ProposalStream(clientId, tick0, props[..i])
    requires !s.txOk ==> s.tx == base
    modifies s`tx
    ensures next == TickAt(tick0, i + 1)
    ensures s.txOk ==> s.tx == base + ProposalStream(clientId, tick0, props[..i + 1])
    ensures !s.txOk ==> s.tx == base
  {
    var _ := SendPlayerProposed(s, clientId, tick, props[i]);
    if s.txOk {
      StreamStep(clientId, tick0, props, i);
      ghost var front := ProposalStream(clientId, tick0, props[..i]);
      assert s.tx == base + front + ProposalFrame(clientId, tick, props[i]);
    }
    next := NextTick(tick0, i, tick);
  }

  /** `tick++` on a `uint32_t` that has been incremented `i` times from `tick0`. */
  function NextTick(tick0: u32, i: nat, tick: u32): (next: u32)
    requires tick == TickAt(tick0, i)
    ensures next == TickAt(tick0, i + 1)
  {
    var q := (tick0 + i) / 0x1_0000_0000;
    assert tick0 + i + 1 == 0x1_0000_0000 * q + (tick + 1);
    if tick + 1 < 0x1_0000_0000 then
      ModOfMultiplePlus(q, tick + 1, 0x1_0000_0000);
      tick + 1
    else
      ModOfMultiplePlus(q + 1, 0, 0x1_0000_0000);
      0
  }

  // ---------------------------------------------------------------------
  // Against the server's decoder

  /** The server's `processFrame` reads back the tick, position, velocity
      and flags the client wrote, each as the signed Java value of the same
      bits. */
  lemma {:induction false} ProposalReadsBack(tick: u32, st: Proposed, data: seq<byte>, pos: nat)
    requires pos + 13 <= |data| && data[pos..pos + 13] == ProposalBytes(tick, st)
    ensures AnswerProcessor.ProposalAt(data, pos) ==
      AnswerProcessor.Proposal(AsI32(tick), st.x, st.y, st.vx, st.vy, AsI8(st.flags))
  {
    ProposalAtWindow(data, pos);
    PayloadReadsBack(tick, st);
  }

  /** The payload on its own decodes to the proposal. */
  lemma PayloadReadsBack(tick: u32, st: Proposed)
    ensures AnswerProcessor.ProposalAt(ProposalBytes(tick, st), 0) ==
      AnswerProcessor.Proposal(AsI32(tick), st.x, st.y, st.vx, st.vy, AsI8(st.flags))
  {
    var p := ProposalBytes(tick, st);
    assert Be32(p[0..]) == Be32(Enc32(tick));
    assert Be16(p[4..]) == Be16(Enc16(Low16(st.x)));
    assert Be16(p[6..]) == Be16(Enc16(Low16(st.y)));
    assert Be16(p[8..]) == Be16(Enc16(Low16(st.vx)));
    assert Be16(p[10..]) == Be16(Enc16(Low16(st.vy)));
    Be32Enc32(tick);
    Be16Enc16(Low16(st.x));
    Be16Enc16(Low16(st.y));
    Be16Enc16(Low16(st.vx));
    Be16Enc16(Low16(st.vy));
    AsI16Low16(st.x);
    AsI16Low16(st.y);
    AsI16Low16(st.vx);
    AsI16Low16(st.vy);
  }

  /** The server's proposal decode only looks at its 13 bytes. */
  lemma ProposalAtWindow(data: seq<byte>, pos: nat)
    requires pos + 13 <= |data|
    ensures AnswerProcessor.ProposalAt(data, pos) == AnswerProcessor.ProposalAt(data[pos..pos + 13], 0)
  {
    var w := data[pos..pos + 13];
    assert Be32(data[pos..]) == Be32(w[0..]);
    assert Be16(data[pos + 4..]) == Be16(w[4..]);
    assert Be16(data[pos + 6..]) == Be16(w[6..]);
    assert Be16(data[pos + 8..]) == Be16(w[8..]);
    assert Be16(data[pos + 10..]) == Be16(w[10..]);
  }

  /** A proposal frame the client sends is processed by the server as one
      complete `PLAYER_PROPOSED` frame from the client's id, and the
      spectators are sent the proposed position, velocity and flags. */
  lemma {:induction false} ServerMirrorsProposal(clientId: u32, tick: u32, st: Proposed, rest: seq<byte>)
    ensures var data := ProposalFrame(clientId, tick, st) + rest;
      var r := AnswerProcessor.Process(data, 0);
      r.ok && r.next == Frame.HEADER_SIZE + 13 && r.bundle.None? &&
      r.broadcast == Some(AnswerProcessor.Broadcast(AsI32(clientId), st.x, st.y, st.vx, st.vy, AsI8(st.flags)))
  {
    var hd := CProto.FrameHeader(MsgType.PLAYER_PROPOSED, clientId, 0, 13);
    var payload := ProposalBytes(tick, st);
    var data := ProposalFrame(clientId, tick, st) + rest;
    assert data == Frame.Encode(hd) + (payload + rest);
    Frame.DecodeEncode(hd);
    Frame.DecodePrefix(Frame.Encode(hd), payload + rest);
    assert data[0..] == data;
    assert data[Frame.HEADER_SIZE..Frame.HEADER_SIZE + 13] == payload;
    ProposalReadsBack(tick, st, data, Frame.HEADER_SIZE);
  }

  /** In a run of proposals, the i-th frame sits at `29 * i` and the server
      reads tick `tick0 + i` (mod 2^32) and the i-th proposed state from it:
      the tick goes up by exactly one per proposal sent. */
  lemma {:induction false} StreamTicks(clientId: u32, tick0: u32, props: seq<Proposed>, i: nat)
    requires i < |props|
    ensures var b := ProposalStream(clientId, tick0, props);
      (Frame.HEADER_SIZE + 13) * (i + 1) <= |b| &&
      AnswerProcessor.ProposalAt(b, (Frame.HEADER_SIZE + 13) * i + Frame.HEADER_SIZE) ==
      AnswerProcessor.Proposal(AsI32(TickAt(tick0, i)), props[i].x, props[i].y,
                               props[i].vx, props[i].vy, AsI8(props[i].flags))
  {
    var n := |props| - 1;
    var front := ProposalStream(clientId, tick0, props[..n]);
    var f := ProposalFrame(clientId, TickAt(tick0, n), props[n]);
    var b := ProposalStream(clientId, tick0, props);
    var pos := (Frame.HEADER_SIZE + 13) * i + Frame.HEADER_SIZE;
    StreamLength(clientId, tick0, props[..n]);
    assert b == front + f;
    if i == n {
      LastFrameReads(front, TickAt(tick0, n), clientId, props[n]);
    } else {
      StreamTicks(clientId, tick0, props[..n], i);
      assert props[..n][i] == props[i];
      assert pos + 13 <= |front| by { MulMono(Frame.HEADER_SIZE + 13, i + 1, n); }
      WindowInFront(front, f, pos);
    }
  }

  /** The payload of a frame appended after `front` is read at `|front| + 16`. */
  lemma LastFrameReads(front: seq<byte>, tick: u32, clientId: u32, st: Proposed)
    ensures AnswerProcessor.ProposalAt(front + ProposalFrame(clientId, tick, st), |front| + Frame.HEADER_SIZE) ==
      AnswerProcessor.Proposal(AsI32(tick), st.x, st.y, st.vx, st.vy, AsI8(st.flags))
  {
    var b := front + ProposalFrame(clientId, tick, st);
    var pos := |front| + Frame.HEADER_SIZE;
    assert b[pos..pos + 13] == ProposalBytes(tick, st);
    ProposalReadsBack(tick, st, b, pos);
  }

  /** A proposal inside `front` reads the same once more bytes follow. */
  lemma WindowInFront(front: seq<byte>, back: seq<byte>, pos: nat)
    requires pos + 13 <= |front|
    ensures AnswerProcessor.ProposalAt(front + back, pos) == AnswerProcessor.ProposalAt(front, pos)
  {
    assert (front + back)[pos..pos + 13] == front[pos..pos + 13];
    ProposalAtWindow(front + back, pos);
    ProposalAtWindow(front, pos);
  }
}
