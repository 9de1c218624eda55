/** The server's TLV iterator (serverJava/MessageManagement/TLVParser.java):
    a forward-only cursor `pos` over a buffer it never changes, returning one
    record — type, length, a copy of the value — per call, or nothing when
    the record at the cursor is not complete. */
module JavaTlv {
  import opened Bytes
  import opened Wrappers
  import CTlv
  import JavaProto

  /** A record as `next()` returns it; `tlvType` is the signed Java byte. */
  datatype Tlv = Tlv(tlvType: i8, length: nat, value: seq<byte>)

  /** The record at `pos` of `buf` and the offset after it, provided the
      `minLeft` bytes the guard asks for are there and the value fits. */
  function RecordAt(buf: seq<byte>, pos: nat, minLeft: nat): (r: Option<(Tlv, nat)>)
    requires pos <= |buf| && minLeft >= 3
    ensures r.Some? <==> |buf| - pos >= minLeft && 3 + Be16(buf[pos + 1..]) <= |buf| - pos
    ensures r.Some? ==> var len := Be16(buf[pos + 1..]);
      r.value == (Tlv(AsI8(buf[pos]), len, buf[pos + 3..pos + 3 + len]), pos + 3 + len)
  {
    if |buf| - pos < minLeft then None
    else
      var len := Be16(buf[pos + 1..]);
      if |buf| - pos < 3 + len then None
      else Some((Tlv(AsI8(buf[pos]), len, buf[pos + 3..pos + 3 + len]), pos + 3 + len))
  }

  /** `next()` as written: it gives up when fewer than 4 bytes remain. */
  function NextAt(buf: seq<byte>, pos: nat): (r: Option<(Tlv, nat)>)
    requires pos <= |buf|
    ensures |buf| - pos < 4 ==> r.None?
  {
    RecordAt(buf, pos, 4)
  }

  /** `next()` with the guard its own contract calls for: a record is
      complete once its 3 header bytes and its value are there. */
  function NextAtFixed(buf: seq<byte>, pos: nat): Option<(Tlv, nat)>
    requires pos <= |buf|
  {
    RecordAt(buf, pos, 3)
  }

  /** The two guards disagree on exactly one kind of input: a zero-length
      record that is the last three bytes of the buffer. */
  lemma {:induction false} NextAtDiffersOnlyOnTrailingEmpty(buf: seq<byte>, pos: nat)
    requires pos <= |buf|
    ensures NextAt(buf, pos) != NextAtFixed(buf, pos) <==>
      |buf| - pos == 3 && Be16(buf[pos + 1..]) == 0
  {
    if |buf| - pos == 3 && Be16(buf[pos + 1..]) == 0 {
      assert NextAtFixed(buf, pos).Some?;
    }
  }

  /** As written, a zero-length record at the end of the buffer is never
      returned, although the C clients' `tlv_next` accepts it. */
  lemma {:induction false} TrailingEmptyRecordRejected(t: int)
    ensures var b := JavaProto.TlvBytes(t, []);
      NextAt(b, 0).None? && CTlv.Step(b, 0, |b|).Some?
  {
    var b := JavaProto.TlvBytes(t, []);
    assert |b| == 3;
  }

  /** The corrected guard accepts exactly the records `tlv_next` accepts,
      with the same type, length and value position. */
  lemma {:induction false} FixedAgreesWithC(buf: seq<byte>, pos: nat)
    requires pos <= |buf|
    ensures NextAtFixed(buf, pos).Some? <==> CTlv.Step(buf, pos, |buf| - pos).Some?
    ensures NextAtFixed(buf, pos).Some? ==>
      var (t, next) := NextAtFixed(buf, pos).value;
      var c := CTlv.Step(buf, pos, |buf| - pos).value;
      t.tlvType == AsI8(c.tlvType) && t.length == c.len &&
      t.value == buf[c.valueAt..c.valueAt + c.len] && next == c.valueAt + c.len
  {
  }

  /** With the corrected guard every record `writeTLV` produces parses back,
      the empty one included, and the cursor lands just after it. */
  lemma {:induction false} FixedReadsWrittenRecord(t: int, value: seq<byte>, rest: seq<byte>)
    requires |value| < 0x1_0000
    ensures NextAtFixed(JavaProto.TlvBytes(t, value) + rest, 0) ==
      Some((Tlv(AsI8(Low8(t)), |value|, value), 3 + |value|))
  {
    var b := JavaProto.TlvBytes(t, value) + rest;
    assert b[1..][..2] == JavaProto.TlvBytes(t, value)[1..][..2];
    assert b[3..3 + |value|] == value;
  }

  /** As written, a record with a non-empty value parses back. */
  lemma {:induction false} ReadsWrittenRecord(t: int, value: seq<byte>, rest: seq<byte>)
    requires 1 <= |value| < 0x1_0000
    ensures NextAt(JavaProto.TlvBytes(t, value) + rest, 0) ==
      Some((Tlv(AsI8(Low8(t)), |value|, value), 3 + |value|))
  {
    FixedReadsWrittenRecord(t, value, rest);
    NextAtDiffersOnlyOnTrailingEmpty(JavaProto.TlvBytes(t, value) + rest, 0);
  }

  class TlvParser {
    /** The source buffer; `next()` only copies out of it. */
    const buf: seq<byte>
    var pos: nat

    ghost predicate Valid()
      reads this
    {
      pos <= |buf|
    }

    constructor (buf: seq<byte>)
      ensures Valid() && this.buf == buf && pos == 0
    {
      this.buf := buf;
      pos := 0;
    }

    /** `remaining()`. */
    function Remaining(): (n: int)
      reads this
      requires Valid()
      ensures 0 <= n == |buf| - pos
    {
      |buf| - pos
    }

    /** `next()`: the record at the cursor, stepping past it, or `null`
        with the cursor where it was. */
    method Next() returns (t: Option<Tlv>)
      requires Valid()
      modifies this`pos
      ensures Valid()
      ensures NextAt(buf, old(pos)).None? ==> t.None? && pos == old(pos)
      ensures NextAt(buf, old(pos)).Some? ==>
        t == Some(NextAt(buf, old(pos)).value.0) && pos == NextAt(buf, old(pos)).value.1
    {
      if Remaining() < 4 {
        return None;
      }
      var tlvType := AsI8(buf[pos]);
      var len := buf[pos + 1] as int * 0x100 + buf[pos + 2];
      var valueStart := pos + 3;
      if Remaining() < 3 + len {
        return None;
      }
      var value := buf[valueStart..valueStart + len];
      pos := pos + 3 + len;
      t := Some(Tlv(tlvType, len, value));
    }
  }
}
