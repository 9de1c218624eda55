/** The C clients' TLV cursor (clientC/UtilsC/tlv.h; clientC/clientPlayer/clientPlayer.c
    carries an identical private copy). A record is a type byte, a
    big-endian 16-bit length `L` and `L` value bytes. The cursor is a
    pointer `p` into memory `mem` and a count `len` of bytes left. */
module CTlv {
  import opened Bytes
  import opened Wrappers

  /** One record: its type, its length and the offset in `mem` where its value starts. */
  datatype Record = Record(tlvType: byte, len: u16, valueAt: nat)

  /** The record `tlv_next` returns at `p` with `len` bytes left, if any. */
  function Step(mem: seq<byte>, p: nat, len: nat): (r: Option<Record>)
    requires p + len <= |mem|
    ensures r.Some? <==> len >= 3 && 3 + Be16(mem[p + 1..]) <= len
    ensures r.Some? ==> r.value == Record(mem[p], Be16(mem[p + 1..]), p + 3)
  {
    if len < 3 then None
    else
      var L := Be16(mem[p + 1..]);
      if len < 3 + L then None else Some(Record(mem[p], L, p + 3))
  }

  /** The bytes of one record with type `t` and value `v`. */
  function RecordBytes(t: byte, v: seq<byte>): seq<byte>
    requires |v| < 0x1_0000
  {
    [t] + Enc16(|v|) + v
  }

  /** A record followed by anything parses back to its type, length and
      value, and the cursor lands just after it — empty values included. */
  lemma {:induction false} StepRecordBytes(t: byte, v: seq<byte>, rest: seq<byte>)
    requires |v| < 0x1_0000
    ensures var mem := RecordBytes(t, v) + rest;
      Step(mem, 0, |mem|) == Some(Record(t, |v|, 3)) &&
      mem[3..3 + |v|] == v
  {
    var mem := RecordBytes(t, v) + rest;
    assert mem[1..][..2] == Enc16(|v|);
    Be16Enc16(|v|);
  }

  class TlvBuf {
    const mem: seq<byte>
    var p: nat
    var len: nat

    ghost predicate Valid()
      reads this
    {
      p + len <= |mem|
    }

    /** `tlv_init`: the cursor covers `mem[p..p + len]`. */
    constructor Init(mem: seq<byte>, p: nat, len: nat)
      requires p + len <= |mem|
      ensures Valid() && this.mem == mem && this.p == p && this.len == len
    {
      this.mem := mem;
      this.p := p;
      this.len := len;
    }

    /** `tlv_next`: returns the record at the cursor and steps past it. When
        fewer than 3 bytes are left nothing is written; when the header fits
        but the value does not, the type and length out-parameters are
        still written and the cursor does not move. */
    method Next(type0: byte, L0: u16, V0: nat) returns (ok: bool, tlvType: byte, L: u16, V: nat)
      requires Valid()
      modifies this`p, this`len
      ensures Valid()
      ensures ok <==> old(Step(mem, p, len)).Some?
      ensures ok ==> var r := old(Step(mem, p, len)).value;
        tlvType == r.tlvType && L == r.len && V == r.valueAt &&
        p == old(p) + 3 + L && len == old(len) - 3 - L
      ensures !ok ==> p == old(p) && len == old(len) && V == V0
      ensures !ok && old(len) < 3 ==> tlvType == type0 && L == L0
      ensures !ok && old(len) >= 3 ==> tlvType == mem[p] && L == Be16(mem[p + 1..])
    {
      tlvType, L, V := type0, L0, V0;
      if len < 3 {
        return false, tlvType, L, V;
      }
      tlvType := mem[p];
      L := mem[p + 1] as int * 0x100 + mem[p + 2];
      if len < 3 + L {
        return false, tlvType, L, V;
      }
      V := p + 3;
      p := p + 3 + L;
      len := len - (3 + L);
      ok := true;
    }
  }
}
