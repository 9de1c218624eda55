/** The older console client (client-C/client-Player/clientPlayer.c): its
    own `cp_read_header`, which leaves the version check to its callers,
    and `cp_recv_matrix_payload`, which validates a rows x cols matrix
    payload and copies its cells out. Its `be16`/`be32` are `Bytes.Be16`
    and `Bytes.Be32`. */
module LegacyClient {
  import opened Bytes
  import Frame
  import Net

  /** `cp_read_header`: 16 bytes or failure; every field is filled in from
      offsets 0, 1, 2, 4, 8 and 12, and any version is accepted. */
  method ReadHeader(s: Net.Socket, h0: Frame.Header) returns (ok: bool, h: Frame.Header)
    requires s.Valid()
    modifies s`rxPos
    ensures s.Valid()
    ensures ok <==> old(s.rxPos) + Frame.HEADER_SIZE <= |s.rx|
    ensures ok ==> h == Frame.Decode(s.rx[old(s.rxPos)..]) && s.rxPos == old(s.rxPos) + Frame.HEADER_SIZE
    ensures !ok ==> h == h0 && s.rxPos == |s.rx|
  {
    var r, raw := s.ReadN(Frame.HEADER_SIZE);
    if r <= 0 {
      return false, h0;
    }
    h := Frame.Header(raw[0], raw[1], Be16(raw[2..]), Be32(raw[4..]), Be32(raw[8..]), Be32(raw[12..]));
    assert raw[2..] == s.rx[old(s.rxPos)..][2..16];
    assert raw[4..] == s.rx[old(s.rxPos)..][4..16];
    assert raw[8..] == s.rx[old(s.rxPos)..][8..16];
    assert raw[12..] == s.rx[old(s.rxPos)..][12..16];
    ok := true;
  }

  // ---------------------------------------------------------------------
  // MATRIX_STATE payloads

  /** The number of bytes a matrix payload must have: `4u + rows * cols`,
      computed in `uint32_t`. */
  function Need(rows: u16, cols: u16): (n: u32)
    ensures n == 4 + rows * cols
  {
    MulBound(rows, cols);
    4 + rows as int * cols as int
  }

  /** Two `uint16_t` values multiply to less than 2^32 - 4, so `need` does
      not wrap. */
  lemma MulBound(a: u16, b: u16)
    ensures a * b <= 0xFFFF * 0xFFFF
  {
    if a > 0 {
      MulMono(a, b, 0xFFFF);
      MulMono(0xFFFF, a, 0xFFFF);
    }
  }

  /** `cp_recv_matrix_payload`: a payload shorter than 4 bytes, or whose
      length is not `4 + rows * cols`, fails and leaves the out-parameters
      as they were; otherwise the cells are copied out, row-major. */
  method RecvMatrixPayload(payload: seq<byte>, rows0: u16, cols0: u16, data0: seq<byte>)
      returns (ok: bool, rows: u16, cols: u16, data: seq<byte>)
    requires |payload| < 0x1_0000_0000
    ensures ok <==> |payload| >= 4 && |payload| == Need(Be16(payload), Be16(payload[2..]))
    ensures ok ==> rows == Be16(payload) && cols == Be16(payload[2..]) && data == payload[4..]
    ensures !ok ==> rows == rows0 && cols == cols0 && data == data0
  {
    rows, cols, data := rows0, cols0, data0;
    if |payload| < 4 {
      return false, rows, cols, data;
    }
    var r := Be16(payload);
    var c := Be16(payload[2..]);
    var need := Need(r, c);
    if need != |payload| {
      return false, rows, cols, data;
    }
    var cells := CopyCells(payload, r as int * c as int);
    ok, rows, cols, data := true, r, c, cells[..];
  }

  /** The `malloc` and `memcpy` of the cells: `n` bytes from offset 4. */
  method CopyCells(payload: seq<byte>, n: nat) returns (cells: array<byte>)
    requires 4 + n <= |payload|
    ensures fresh(cells) && cells[..] == payload[4..4 + n]
  {
    cells := new byte[n];
    for i := 0 to n
      invariant cells[..i] == payload[4..4 + i]
    {
      cells[i] := payload[4 + i];
    }
  }

  /** The layout a matrix sender writes: rows and columns, big-endian, then
      the cells row by row. */
  function MatrixPayload(rows: u16, cols: u16, cells: seq<byte>): (p: seq<byte>)
    ensures |p| == 4 + |cells|
  {
    Enc16(rows) + Enc16(cols) + cells
  }

  /** A payload is accepted exactly when it carries `rows * cols` cells,
      and then they come back unchanged with their dimensions. */
  lemma {:induction false} MatrixRoundTrip(rows: u16, cols: u16, cells: seq<byte>)
    requires |cells| < 0x1_0000_0000 - 4
    ensures var p := MatrixPayload(rows, cols, cells);
      Be16(p) == rows && Be16(p[2..]) == cols && p[4..] == cells &&
      (|p| == Need(rows, cols) <==> |cells| == rows * cols)
  {
    var p := MatrixPayload(rows, cols, cells);
    assert p[..2] == Enc16(rows) && p[2..][..2] == Enc16(cols);
    Be16Enc16(rows);
    Be16Enc16(cols);
    assert Be16(p) == Be16(p[..2]) && Be16(p[2..]) == Be16(p[2..][..2]);
  }

  /** Every cell `cp_print_matrix` reads of an accepted payload, at
      `r * cols + c` for `r < rows` and `c < cols`, lies inside the copied
      cells. */
  lemma {:induction false} CellAt(payload: seq<byte>, r: nat, c: nat)
    requires |payload| >= 4 && |payload| == Need(Be16(payload), Be16(payload[2..]))
    requires r < Be16(payload) && c < Be16(payload[2..])
    ensures r * Be16(payload[2..]) + c < |payload| - 4
  {
    var rows, cols := Be16(payload), Be16(payload[2..]);
    MulMono(cols, r + 1, rows);
    assert r * cols as int + c < (r + 1) * cols as int <= cols as int * rows as int;
  }
}
