/** The entity-correction record (clientC/UtilsC/entities_tlv.c): a TLV of
    type 0x12 whose value is a count byte followed by six bytes per entity
    (kind, sprite id, x and y as big-endian 16-bit patterns of `int16`). */
module EntitiesTlv {
  import opened Bytes
  import opened Wrappers
  import CProto
  import CTlv
  import opened MsgType

  const ENTITY_KIND_PLAYER: byte := 0
  const ENTITY_KIND_CROC: byte := 1
  const ENTITY_KIND_FRUIT: byte := 2

  datatype EntitySnapshot = EntitySnapshot(kind: byte, spriteId: byte, x: i16, y: i16)

  /** The six bytes of one entity. */
  function EntityBytes(e: EntitySnapshot): seq<byte>
  {
    [e.kind, e.spriteId] + Enc16(Low16(e.x)) + Enc16(Low16(e.y))
  }

  /** The entities' bytes, one after another. */
  function EntitiesBytes(es: seq<EntitySnapshot>): seq<byte>
  {
    if es == [] then [] else EntitiesBytes(es[..|es| - 1]) + EntityBytes(es[|es| - 1])
  }

  /** The whole record `entities_tlv_build` produces for `es`. */
  function Encoding(es: seq<EntitySnapshot>): seq<byte>
    requires |es| < 0x100
  {
    [TLV_ENTITIES_CORR] + Enc16(1 + 6 * |es|) + [|es|] + EntitiesBytes(es)
  }

  /** Reads one entity back from six bytes; a reference inverse of `EntityBytes`. */
  function DecodeEntity(b: seq<byte>): EntitySnapshot
    requires |b| >= 6
  {
    EntitySnapshot(b[0], b[1], AsI16(Be16(b[2..])), AsI16(Be16(b[4..])))
  }

  lemma {:induction false} DecodeEntityBytes(e: EntitySnapshot, rest: seq<byte>)
    ensures DecodeEntity(EntityBytes(e) + rest) == e
  {
    var b := EntityBytes(e) + rest;
    assert b[2..][..2] == Enc16(Low16(e.x));
    assert b[4..][..2] == Enc16(Low16(e.y));
    Be16Enc16(Low16(e.x));
    Be16Enc16(Low16(e.y));
    AsI16Low16(e.x);
    AsI16Low16(e.y);
  }

  /** Entity `i` occupies bytes `6 * i .. 6 * i + 6`. */
  lemma {:induction false} EntitiesBytesLayout(es: seq<EntitySnapshot>)
    ensures |EntitiesBytes(es)| == 6 * |es|
    ensures forall i :: 0 <= i < |es| ==> EntitiesBytes(es)[6 * i..6 * i + 6] == EntityBytes(es[i])
  {
    if es != [] {
      var init := es[..|es| - 1];
      EntitiesBytesLayout(init);
      forall i | 0 <= i < |es|
        ensures EntitiesBytes(es)[6 * i..6 * i + 6] == EntityBytes(es[i])
      {
        if i < |init| {
          assert es[i] == init[i];
          assert EntitiesBytes(es)[6 * i..6 * i + 6] == EntitiesBytes(init)[6 * i..6 * i + 6];
        }
      }
    }
  }

  /** The record parses with the C TLV cursor as one record of type 0x12 and
      length `1 + 6n`, whose count byte is `n` and whose `i`-th six-byte group
      decodes to entity `i`. */
  lemma {:induction false} EncodingParses(es: seq<EntitySnapshot>, rest: seq<byte>)
    requires |es| < 0x100
    ensures var mem := Encoding(es) + rest;
      CTlv.Step(mem, 0, |mem|) == Some(CTlv.Record(TLV_ENTITIES_CORR, 1 + 6 * |es|, 3)) &&
      mem[3] == |es| &&
      forall i :: 0 <= i < |es| ==> DecodeEntity(mem[4 + 6 * i..]) == es[i]
  {
    EncodingIsRecord(es);
    CTlv.StepRecordBytes(TLV_ENTITIES_CORR, [|es|] + EntitiesBytes(es), rest);
    forall i | 0 <= i < |es|
      ensures DecodeEntity((Encoding(es) + rest)[4 + 6 * i..]) == es[i]
    {
      EntityInEncoding(es, rest, i);
    }
  }

  /** The record is a TLV record of type 0x12 whose value is the count
      byte, then the entities. */
  lemma {:induction false} EncodingIsRecord(es: seq<EntitySnapshot>)
    requires |es| < 0x100
    ensures |[|es|] + EntitiesBytes(es)| == 1 + 6 * |es|
    ensures Encoding(es) == CTlv.RecordBytes(TLV_ENTITIES_CORR, [|es|] + EntitiesBytes(es))
  {
    EntitiesBytesLayout(es);
  }

  /** Entity `i`'s six bytes sit at offset `4 + 6i` of the record. */
  lemma {:induction false} EntityInEncoding(es: seq<EntitySnapshot>, rest: seq<byte>, i: nat)
    requires |es| < 0x100 && i < |es|
    ensures 4 + 6 * i + 6 <= |Encoding(es) + rest|
    ensures DecodeEntity((Encoding(es) + rest)[4 + 6 * i..]) == es[i]
  {
    EntitiesBytesLayout(es);
    var mem := Encoding(es) + rest;
    assert mem[4..] == EntitiesBytes(es) + rest;
    assert mem[4 + 6 * i..] == EntityBytes(es[i]) + mem[4 + 6 * i + 6..] by {
      assert mem[4 + 6 * i..4 + 6 * i + 6] == EntitiesBytes(es)[6 * i..6 * i + 6];
    }
    DecodeEntityBytes(es[i], mem[4 + 6 * i + 6..]);
  }

  /** `entities_tlv_build`: writes the record for the first `entityCount`
      entities to `dst` and returns its size; returns 0 and writes nothing
      when either pointer is null or the record does not fit in `dstCapacity`. */
  method Build(dst: array?<byte>, dstCapacity: nat, entities: array?<EntitySnapshot>, entityCount: byte)
      returns (n: nat)
    requires dst != null ==> dstCapacity <= dst.Length
    requires entities != null ==> entityCount <= entities.Length
    modifies dst
    ensures dst == null || entities == null ==> n == 0
    ensures dst != null && entities == null ==> dst[..] == old(dst[..])
    ensures dst != null && entities != null ==>
      var enc := Encoding(entities[..entityCount]);
      if dstCapacity < |enc| then n == 0 && dst[..] == old(dst[..])
      else n == |enc| && dst[..n] == enc && dst[n..] == old(dst[n..])
  {
    if dst == null || entities == null {
      return 0;
    }
    var valueLen: u16 := 1 + entityCount * 6;
    var totalLen := 3 + valueLen;
    ghost var es := entities[..entityCount];
    assert |Encoding(es)| == totalLen by { EntitiesBytesLayout(es); }
    if dstCapacity < totalLen {
      return 0;
    }
    PutHead(dst, valueLen, entityCount);
    var p := 4;
    PutEntities(dst, entities, entityCount);
    p := p + 6 * entityCount;
    assert dst[..p] == dst[..4] + dst[4..p];
    n := totalLen;
  }

  /** The first four bytes `entities_tlv_build` writes: the type, the value
      length and the count byte. */
  method PutHead(dst: array<byte>, valueLen: u16, count: byte)
    requires 4 <= dst.Length
    modifies dst
    ensures dst[..4] == [TLV_ENTITIES_CORR] + Enc16(valueLen) + [count]
    ensures forall j :: 4 <= j < dst.Length ==> dst[j] == old(dst[j])
  {
    dst[0] := TLV_ENTITIES_CORR;
    CProto.WrBe16(dst, 1, valueLen);
    dst[3] := count;
    assert dst[..4] == [dst[0]] + dst[1..3] + [dst[3]];
  }

  /** The loop of `entities_tlv_build`: the six-byte groups of the first
      `count` entities, from offset 4 on. */
  method PutEntities(dst: array<byte>, entities: array<EntitySnapshot>, count: nat)
    requires count <= entities.Length && 4 + 6 * count <= dst.Length
    modifies dst
    ensures dst[4..4 + 6 * count] == EntitiesBytes(entities[..count])
    ensures forall j :: 0 <= j < dst.Length && !(4 <= j < 4 + 6 * count) ==> dst[j] == old(dst[j])
  {
    var p := 4;
    var i := 0;
    while i < count
      invariant 0 <= i <= count
      invariant p == 4 + 6 * i
      invariant dst[4..p] == EntitiesBytes(entities[..i])
      invariant forall j :: 0 <= j < dst.Length && !(4 <= j < p) ==> dst[j] == old(dst[j])
    {
      ghost var before := dst[4..p];
      PutEntity(dst, p, entities[i]);
      p := p + 6;
      assert dst[4..p] == before + EntityBytes(entities[i]) by {
        assert dst[4..p] == dst[4..p - 6] + dst[p - 6..p];
      }
      assert entities[..i + 1][..i] == entities[..i];
      i := i + 1;
    }
  }

  /** One pass of the loop in `entities_tlv_build`: the entity's six bytes at `off`. */
  method PutEntity(dst: array<byte>, off: nat, e: EntitySnapshot)
    requires off + 6 <= dst.Length
    modifies dst
    ensures dst[off..off + 6] == EntityBytes(e)
    ensures forall j :: 0 <= j < dst.Length && !(off <= j < off + 6) ==> dst[j] == old(dst[j])
  {
    dst[off] := e.kind;
    dst[off + 1] := e.spriteId;
    CProto.WrBe16(dst, off + 2, Low16(e.x));
    CProto.WrBe16(dst, off + 4, Low16(e.y));
    assert dst[off..off + 6] == [dst[off], dst[off + 1]] + dst[off + 2..off + 4] + dst[off + 4..off + 6];
  }
}
