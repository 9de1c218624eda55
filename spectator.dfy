/** The spectator client's start-up (`run_spectator_client` in
    clientC/clientSpectator/clientSpectator.c) up to its receive loop: it
    asks for the spectator role, installs its thirteen handlers, accepts the
    server's `CLIENT_ACK` only when it grants that role, loads the
    `INIT_STATIC` map through its handler and asks to watch a player slot.
    Every failure after the role request jumps to `done`, which frees the
    static map. */
module SpectatorClient {
  import opened Bytes
  import Frame
  import Net
  import CProto
  import StaticMap
  import Dispatch
  import Handlers
  import MsgType
  import Messenger
  import JavaProto
  import opened Wrappers

  /** The role byte the spectator asks for and expects back. */
  const SPECTATOR_ROLE: byte := 2

  /** How the start-up ends: the role request could not be written (return
      1 without reaching `done`), a check failed (`done`), or the client
      enters its receive loop. */
  datatype Outcome = RoleNotSent | Closed | Spectating

  // ---------------------------------------------------------------------
  // What the server must send for the start-up to succeed

  /** The stream opens with a version-1 `CLIENT_ACK` whose non-empty payload
      has arrived and starts with the spectator role. */
  predicate AckAccepted(rx: seq<byte>)
  {
    |rx| >= Frame.HEADER_SIZE &&
    var h := Frame.Decode(rx);
    h.version == CProto.CP_VERSION && h.msgType == MsgType.CLIENT_ACK && h.payloadLen > 0 &&
    Frame.HEADER_SIZE + h.payloadLen <= |rx| && rx[Frame.HEADER_SIZE] == SPECTATOR_ROLE
  }

  /** Where the frame after the acknowledgement starts. */
  function AckEnd(rx: seq<byte>): nat
    requires |rx| >= Frame.HEADER_SIZE
  {
    Frame.HEADER_SIZE + Frame.Decode(rx).payloadLen
  }

  /** At `at` the stream holds a version-1 `INIT_STATIC` header and its
      whole, non-empty payload. */
  predicate InitArrives(rx: seq<byte>, at: nat)
  {
    at + Frame.HEADER_SIZE <= |rx| &&
    var h := Frame.Decode(rx[at..]);
    h.version == CProto.CP_VERSION && h.msgType == MsgType.INIT_STATIC && h.payloadLen > 0 &&
    at + Frame.HEADER_SIZE + h.payloadLen <= |rx|
  }

  /** That payload. */
  function InitPayload(rx: seq<byte>, at: nat): seq<byte>
    requires InitArrives(rx, at)
  {
    rx[at + Frame.HEADER_SIZE..at + Frame.HEADER_SIZE + Frame.Decode(rx[at..]).payloadLen]
  }

  /** Both frames the start-up waits for. */
  predicate Admitted(rx: seq<byte>)
  {
    AckAccepted(rx) && InitArrives(rx, AckEnd(rx))
  }

  /** The `SPECTATE_REQUEST` frame: client and game id 0, the slot as payload. */
  function SpectateRequestBytes(slot: byte): seq<byte>
  {
    Frame.Encode(CProto.FrameHeader(MsgType.SPECTATE_REQUEST, 0, 0, 1)) + [slot]
  }

  // ---------------------------------------------------------------------
  // The start-up

  /** `send_spectate_request`: 1 when the frame is written, else 0. */
  method SendSpectateRequest(s: Net.Socket, slot: byte) returns (r: int)
    modifies s`tx
    ensures r == if s.txOk then 1 else 0
    ensures s.tx == old(s.tx) + if s.txOk then SpectateRequestBytes(slot) else []
  {
    var ok := CProto.SendFrame(s, MsgType.SPECTATE_REQUEST, 0, 0, [slot]);
    r := if ok then 1 else 0;
  }

  /** Step 2 of `run_spectator_client`: the acknowledgement and its role byte. */
  method ReadAck(s: Net.Socket) returns (ok: bool)
    requires s.Valid() && s.rxPos == 0
    modifies s`rxPos
    ensures s.Valid()
    ensures ok <==> AckAccepted(s.rx)
    ensures ok ==> s.rxPos == AckEnd(s.rx)
  {
    var okH, h := CProto.ReadHeader(s, Frame.Header(0, 0, 0, 0, 0, 0));
    if !okH || h.msgType != MsgType.CLIENT_ACK {
      return false;
    }
    assert s.rx[0..] == s.rx;
    var roleByte: byte := 0;
    if h.payloadLen > 0 {
      var r, tmp := s.ReadN(h.payloadLen);
      if r <= 0 {
        return false;
      }
      roleByte := tmp[0];
    } else {
      return false;
    }
    if roleByte != SPECTATOR_ROLE {
      return false;
    }
    ok := true;
  }

  /** Step 3: the `INIT_STATIC` frame, handed to whatever handler `d` has
      for it. */
  method ReadInitStatic(s: Net.Socket, d: Dispatch.Dispatcher, store: StaticMap.StaticStore) returns (ok: bool)
    requires s.Valid() && d.Valid()
    requires d.Lookup(MsgType.INIT_STATIC) == Some(Dispatch.OnInitStatic)
    modifies s`rxPos, store
    ensures s.Valid()
    ensures ok <==> InitArrives(s.rx, old(s.rxPos))
    ensures ok ==> store.Snapshot() == StaticMap.InitStatic(InitPayload(s.rx, old(s.rxPos))).stored
    ensures !ok ==> store.Snapshot() == old(store.Snapshot())
  {
    ghost var at := s.rxPos;
    var okH, h := CProto.ReadHeader(s, Frame.Header(0, 0, 0, 0, 0, 0));
    if !okH || h.msgType != MsgType.INIT_STATIC {
      return false;
    }
    var r, payload := s.ReadN(h.payloadLen);
    if r <= 0 {
      return false;
    }
    assert InitArrives(s.rx, at) && payload == InitPayload(s.rx, at);
    var e := Handlers.Handle(d, h.msgType, payload, store);
    ok := true;
  }

  /** Steps 2 to 3.5, once the role is requested and the handlers are
      installed: `ok` is false exactly where the C jumps to `done`. */
  method Admit(s: Net.Socket, d: Dispatch.Dispatcher, store: StaticMap.StaticStore, desiredSlot: byte)
      returns (ok: bool)
    requires s.Valid() && s.rxPos == 0 && d.Valid()
    requires d.Lookup(MsgType.INIT_STATIC) == Some(Dispatch.OnInitStatic)
    modifies s`rxPos, s`tx, store
    ensures ok <==> s.txOk && Admitted(s.rx)
    ensures ok ==> s.tx == old(s.tx) + SpectateRequestBytes(desiredSlot)
    ensures ok ==> store.Snapshot() == StaticMap.InitStatic(InitPayload(s.rx, AckEnd(s.rx))).stored
    ensures !ok && s.txOk ==> s.tx == old(s.tx)
  {
    ok := ReadAck(s);
    if !ok {
      return;
    }
    ok := ReadInitStatic(s, d, store);
    if !ok {
      return;
    }
    var r := SendSpectateRequest(s, desiredSlot);
    ok := r == 1;
  }

  /** `run_spectator_client` up to its receive loop, on a fresh connection. */
  method StartUp(s: Net.Socket, d: Dispatch.Dispatcher, store: StaticMap.StaticStore, desiredSlot: byte)
      returns (outcome: Outcome)
    requires s.Valid() && s.rxPos == 0 && s.tx == [] && d.Valid()
    modifies s`rxPos, s`tx, d.table, store
    ensures outcome == RoleNotSent <==> !s.txOk
    ensures outcome == Spectating <==> s.txOk && Admitted(s.rx)
    ensures outcome == RoleNotSent ==> s.tx == [] && store.Snapshot() == old(store.Snapshot())
    ensures outcome == Closed ==> s.tx == [SPECTATOR_ROLE] && store.Snapshot() == StaticMap.EMPTY
    ensures outcome == Spectating ==> s.tx == [SPECTATOR_ROLE] + SpectateRequestBytes(desiredSlot)
    ensures outcome == Spectating ==>
      store.Snapshot() == StaticMap.InitStatic(InitPayload(s.rx, AckEnd(s.rx))).stored
    ensures outcome != RoleNotSent ==> forall t | 0 <= t < 256 :: d.table[t] == Dispatch.SpectatorTable(t)
  {
    var w := s.WriteN([SPECTATOR_ROLE]);
    if w <= 0 {
      return RoleNotSent;
    }
    Dispatch.SetUpSpectator(d);
    var ok := Admit(s, d, store, desiredSlot);
    if !ok {
      store.Free();
      return Closed;
    }
    outcome := Spectating;
  }

  // ---------------------------------------------------------------------
  // Against the server's frames

  /** The acknowledgement the server writes (`sendClientAck`) is accepted
      exactly when it grants the spectator role, whatever its slot bytes and
      whatever follows it; the next frame then starts after its three
      payload bytes. */
  lemma {:induction false} ServerAckAccepted(dest: i32, role: Option<Messenger.ClientRole>,
                                             player1SpecCount: i32, player2SpecCount: i32,
                                             player1Active: bool, player2Active: bool, rest: seq<byte>)
    ensures var ack := Messenger.AckPayload(role, player1SpecCount, player2SpecCount, player1Active, player2Active);
      var rx := Messenger.FrameBytes(MsgType.CLIENT_ACK, dest, ack) + rest;
      (AckAccepted(rx) <==> role == Some(Messenger.SPECTATOR)) && AckEnd(rx) == Frame.HEADER_SIZE + 3
  {
    var ack := Messenger.AckPayload(role, player1SpecCount, player2SpecCount, player1Active, player2Active);
    var hd := JavaProto.Header(MsgType.CLIENT_ACK, dest, 0, 3);
    var rx := Messenger.FrameBytes(MsgType.CLIENT_ACK, dest, ack) + rest;
    assert rx == Frame.Encode(hd) + (ack + rest);
    Frame.DecodeEncode(hd);
    Frame.DecodePrefix(Frame.Encode(hd), ack + rest);
    assert rx[Frame.HEADER_SIZE] == ack[0];
  }

  /** The slot request reaches the server as a version-1 `SPECTATE_REQUEST`
      with a one-byte payload holding the slot. */
  lemma {:induction false} SpectateRequestReadsBack(slot: byte)
    ensures var h := Frame.Decode(SpectateRequestBytes(slot));
      h.version == CProto.CP_VERSION && h.msgType == MsgType.SPECTATE_REQUEST &&
      h.payloadLen == 1 && SpectateRequestBytes(slot)[Frame.HEADER_SIZE..] == [slot]
  {
    CProto.SentFrameReadsBack(MsgType.SPECTATE_REQUEST, 0, 0, [slot]);
  }
}
