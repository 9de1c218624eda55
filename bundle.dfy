/** `on_state_bundle`, which both C clients carry in identical form
    (clientC/clientSpectator/clientSpectator.c and
    clientC/clientPlayer/clientPlayer.c): it walks the TLV records of a
    `STATE_BUNDLE` payload, remembers the tick of the latest state header
    and hands every player correction to `game_apply_correction` together
    with that tick. The hook is modelled by the list of calls it receives. */
module StateBundle {
  import opened Bytes
  import opened Wrappers
  import CTlv
  import MsgType

  /** The fields of one `PLAYER_CORR` value. */
  datatype CorrBody = CorrBody(grounded: byte, platformId: i16, yCorr: i16, vyCorr: i16)

  /** One `game_apply_correction` call. */
  datatype Correction = Correction(tick: u32, body: CorrBody)

  /** The fields read from the first 7 bytes of a correction value. */
  function BodyAt(v: seq<byte>): CorrBody
    requires |v| >= 7
  {
    CorrBody(v[0], AsI16(Be16(v[1..])), AsI16(Be16(v[3..])), AsI16(Be16(v[5..])))
  }

  /** A record's value: at most 65535 bytes, as its 16-bit length allows. */
  type Value = v: seq<byte> | |v| < 0x1_0000

  /** A record as the walk sees it: its type and its value bytes. */
  datatype Item = Item(tlvType: byte, value: Value)

  /** The records `while (len) tlv_next(...)` visits in `buf`: it stops at
      the end or at the first incomplete record. */
  function Records(buf: seq<byte>): seq<Item>
    decreases |buf|
  {
    match CTlv.Step(buf, 0, |buf|)
    case None => []
    case Some(r) => [Item(r.tlvType, buf[3..3 + r.len])] + Records(buf[3 + r.len..])
  }

  /** The tick and the correction, if any, after one record. */
  function Visit(it: Item, tick: u32): (Option<Correction>, u32)
  {
    if it.tlvType == MsgType.TLV_STATE_HEADER && |it.value| >= 4 then (None, Be32(it.value))
    else if it.tlvType == MsgType.TLV_PLAYER_CORR && |it.value| >= 7 then (Some(Correction(tick, BodyAt(it.value))), tick)
    else (None, tick)
  }

  /** The calls made for the records `items`, `tick` being the tick in force. */
  function Fold(items: seq<Item>, tick: u32): seq<Correction>
  {
    if items == [] then []
    else
      var (c, tick') := Visit(items[0], tick);
      (if c.Some? then [c.value] else []) + Fold(items[1..], tick')
  }

  /** The calls `on_state_bundle` makes for `payload`. */
  function Corrections(payload: seq<byte>): seq<Correction>
  {
    Fold(Records(payload), 0)
  }

  // ---------------------------------------------------------------------
  // The walk over encoded records

  /** The bytes of a run of records. */
  function ItemsBytes(items: seq<Item>): seq<byte>
  {
    if items == [] then [] else CTlv.RecordBytes(items[0].tlvType, items[0].value) + ItemsBytes(items[1..])
  }

  /** `tlv_next` at offset `p` of `mem` finds what it finds at the start
      of `mem[p..]`, shifted by `p`. */
  lemma {:induction false} StepAtSuffix(mem: seq<byte>, p: nat)
    requires p <= |mem|
    ensures var s, r := CTlv.Step(mem[p..], 0, |mem| - p), CTlv.Step(mem, p, |mem| - p);
      s.Some? == r.Some? && (s.Some? ==> s.value == CTlv.Record(r.value.tlvType, r.value.len, 3))
  {
    if |mem| - p >= 3 {
      assert mem[p..][1..][..2] == mem[p + 1..][..2];
    }
  }

  /** One turn of the walk, seen from the whole payload and a cursor `p`. */
  lemma {:induction false} WalkStep(mem: seq<byte>, p: nat)
    requires p <= |mem|
    ensures CTlv.Step(mem, p, |mem| - p).None? ==> Records(mem[p..]) == []
    ensures CTlv.Step(mem, p, |mem| - p).Some? ==>
      var r := CTlv.Step(mem, p, |mem| - p).value;
      Records(mem[p..]) == [Item(r.tlvType, mem[p + 3..p + 3 + r.len])] + Records(mem[p + 3 + r.len..])
  {
    StepAtSuffix(mem, p);
    if CTlv.Step(mem, p, |mem| - p).Some? {
      var L := CTlv.Step(mem, p, |mem| - p).value.len;
      assert mem[p..][3..3 + L] == mem[p + 3..p + 3 + L];
      assert mem[p..][3 + L..] == mem[p + 3 + L..];
    }
  }

  /** Records written one after the other are visited in order, with their
      types and values, and the walk then carries on over what follows. */
  lemma {:induction false} RecordsOfItemsBytes(items: seq<Item>, rest: seq<byte>)
    ensures Records(ItemsBytes(items) + rest) == items + Records(rest)
    decreases |items|
  {
    if items != [] {
      RecordsOfItemsBytesCons(items, rest);
      RecordsOfItemsBytes(items[1..], rest);
      ConsAppend(items, Records(rest));
    } else {
      assert ItemsBytes(items) + rest == rest;
    }
  }

  /** The walk over a non-empty run visits its first record, then walks the
      rest of the run. */
  lemma {:induction false} RecordsOfItemsBytesCons(items: seq<Item>, rest: seq<byte>)
    requires items != []
    ensures Records(ItemsBytes(items) + rest) == [items[0]] + Records(ItemsBytes(items[1..]) + rest)
  {
    var tail := ItemsBytes(items[1..]) + rest;
    assert ItemsBytes(items) + rest == CTlv.RecordBytes(items[0].tlvType, items[0].value) + tail;
    RecordsOfRecordBytes(items[0], tail);
  }

  /** A single encoded record is visited, then the walk goes on after it. */
  lemma {:induction false} RecordsOfRecordBytes(it: Item, tail: seq<byte>)
    ensures Records(CTlv.RecordBytes(it.tlvType, it.value) + tail) == [it] + Records(tail)
  {
    var mem := CTlv.RecordBytes(it.tlvType, it.value) + tail;
    CTlv.StepRecordBytes(it.tlvType, it.value, tail);
    assert mem[3 + |it.value|..] == tail;
  }

  /** A walk that meets an incomplete record visits nothing more. */
  lemma {:induction false} IncompleteEndsWalk(items: seq<Item>, tail: seq<byte>)
    requires CTlv.Step(tail, 0, |tail|).None?
    ensures Records(ItemsBytes(items) + tail) == items
  {
    RecordsOfItemsBytes(items, tail);
    assert items + [] == items;
  }

  /** One record, then the rest. */
  lemma FoldCons(it: Item, rest: seq<Item>, tick: u32)
    ensures var (c, tick') := Visit(it, tick);
      Fold([it] + rest, tick) == (if c.Some? then [c.value] else []) + Fold(rest, tick')
  {
    assert ([it] + rest)[1..] == rest;
  }

  /** The calls for two runs of records are those for the first run, then
      those for the second with the tick the first left in force. */
  lemma {:induction false} FoldAppend(xs: seq<Item>, ys: seq<Item>, tick: u32)
    ensures Fold(xs + ys, tick) == Fold(xs, tick) + Fold(ys, Tick(xs, tick))
    decreases |xs|
  {
    if xs != [] {
      assert (xs + ys)[1..] == xs[1..] + ys;
      FoldAppend(xs[1..], ys, Visit(xs[0], tick).1);
    } else {
      assert xs + ys == ys;
    }
  }

  /** The tick in force after the records `items`. */
  function Tick(items: seq<Item>, tick: u32): u32
  {
    if items == [] then tick else Tick(items[1..], Visit(items[0], tick).1)
  }

  /** Records of any other type — the entity list among them — change
      neither the calls made nor the tick. */
  lemma {:induction false} OtherRecordsIgnored(items: seq<Item>, tick: u32)
    requires forall i | 0 <= i < |items| ::
      items[i].tlvType != MsgType.TLV_STATE_HEADER && items[i].tlvType != MsgType.TLV_PLAYER_CORR
    ensures Fold(items, tick) == [] && Tick(items, tick) == tick
    decreases |items|
  {
    if items != [] {
      OtherRecordsIgnored(items[1..], tick);
    }
  }

  /** A header or a correction too short to carry its fields is ignored. */
  lemma {:induction false} ShortRecordIgnored(it: Item, tick: u32)
    requires it.tlvType == MsgType.TLV_STATE_HEADER ==> |it.value| < 4
    requires it.tlvType == MsgType.TLV_PLAYER_CORR ==> |it.value| < 7
    ensures Fold([it], tick) == [] && Tick([it], tick) == tick
  {
    assert [it][1..] == [];
  }

  // ---------------------------------------------------------------------
  // The records a server puts in a bundle

  /** A state header carrying `tick`. */
  function HeaderItem(tick: u32): Item
  {
    Item(MsgType.TLV_STATE_HEADER, Enc32(tick))
  }

  /** The 7-byte value of a correction. */
  function BodyBytes(c: CorrBody): (v: seq<byte>)
    ensures |v| == 7
  {
    [c.grounded] + Enc16(Low16(c.platformId)) + Enc16(Low16(c.yCorr)) + Enc16(Low16(c.vyCorr))
  }

  function CorrItems(cs: seq<CorrBody>): (items: seq<Item>)
    ensures |items| == |cs|
    ensures forall i | 0 <= i < |items| :: items[i] == Item(MsgType.TLV_PLAYER_CORR, BodyBytes(cs[i]))
  {
    seq(|cs|, i requires 0 <= i < |cs| => Item(MsgType.TLV_PLAYER_CORR, BodyBytes(cs[i])))
  }

  /** `cs`, each stamped with `tick`. */
  function Stamped(tick: u32, cs: seq<CorrBody>): (r: seq<Correction>)
    ensures |r| == |cs|
  {
    seq(|cs|, i requires 0 <= i < |cs| => Correction(tick, cs[i]))
  }

  /** A correction value reads back as the fields it was written from. */
  lemma {:induction false} BodyRoundTrip(c: CorrBody)
    ensures BodyAt(BodyBytes(c)) == c
  {
    var v := BodyBytes(c);
    assert v[1..][..2] == Enc16(Low16(c.platformId));
    assert v[3..][..2] == Enc16(Low16(c.yCorr));
    assert v[5..][..2] == Enc16(Low16(c.vyCorr));
    Be16Enc16(Low16(c.platformId));
    Be16Enc16(Low16(c.yCorr));
    Be16Enc16(Low16(c.vyCorr));
    AsI16Low16(c.platformId);
    AsI16Low16(c.yCorr);
    AsI16Low16(c.vyCorr);
  }

  /** Correction records are applied in order with the tick in force, and
      leave that tick in force. */
  lemma {:induction false} CorrectionsApplied(cs: seq<CorrBody>, tick: u32)
    ensures Fold(CorrItems(cs), tick) == Stamped(tick, cs)
    ensures Tick(CorrItems(cs), tick) == tick
    decreases |cs|
  {
    if cs != [] {
      BodyRoundTrip(cs[0]);
      assert CorrItems(cs)[1..] == CorrItems(cs[1..]);
      CorrectionsApplied(cs[1..], tick);
      assert Stamped(tick, cs) == [Correction(tick, cs[0])] + Stamped(tick, cs[1..]);
    }
  }

  /** A header then corrections: the corrections are applied with the
      header's tick, whatever tick was in force before, and that tick stays
      in force. */
  lemma {:induction false} GroupApplied(tick: u32, cs: seq<CorrBody>, before: u32)
    ensures Fold([HeaderItem(tick)] + CorrItems(cs), before) == Stamped(tick, cs)
    ensures Tick([HeaderItem(tick)] + CorrItems(cs), before) == tick
  {
    Be32Enc32(tick);
    assert ([HeaderItem(tick)] + CorrItems(cs))[1..] == CorrItems(cs);
    CorrectionsApplied(cs, tick);
  }

  function Group(tick: u32, cs: seq<CorrBody>): (items: seq<Item>)
  {
    [HeaderItem(tick)] + CorrItems(cs)
  }

  /** A bundle of a header then corrections, as bytes: every correction is
      applied with the header's tick and nothing else is applied. */
  lemma {:induction false} BundleRoundTrip(tick: u32, cs: seq<CorrBody>)
    ensures Corrections(ItemsBytes(Group(tick, cs))) == Stamped(tick, cs)
  {
    RecordsOfItemsBytes(Group(tick, cs), []);
    assert ItemsBytes(Group(tick, cs)) + [] == ItemsBytes(Group(tick, cs));
    assert Records([]) == [];
    assert Group(tick, cs) + [] == Group(tick, cs);
    GroupApplied(tick, cs, 0);
  }

  /** Two header-led groups in one bundle: each group's corrections carry
      the tick of its own, latest, header. */
  lemma {:induction false} LatestHeaderWins(t1: u32, cs1: seq<CorrBody>, t2: u32, cs2: seq<CorrBody>)
    ensures Fold(Group(t1, cs1) + Group(t2, cs2), 0) == Stamped(t1, cs1) + Stamped(t2, cs2)
  {
    FoldAppend(Group(t1, cs1), Group(t2, cs2), 0);
    GroupApplied(t1, cs1, 0);
    GroupApplied(t2, cs2, t1);
  }

  // ---------------------------------------------------------------------
  // The handler

  /** `on_state_bundle(payload, |payload|)`: returns the corrections it
      applies, in order. */
  method OnStateBundle(payload: seq<byte>) returns (applied: seq<Correction>)
    ensures applied == Corrections(payload)
  {
    var b := new CTlv.TlvBuf.Init(payload, 0, |payload|);
    var tick: u32 := 0;
    applied := [];
    while b.len != 0
      invariant b.Valid() && b.mem == payload && b.p + b.len == |payload|
      invariant applied + Fold(Records(payload[b.p..]), tick) == Corrections(payload)
      decreases b.len
    {
      var stop, emitted;
      stop, tick, emitted := Turn(b, tick);
      if stop {
        return;
      }
      AppendAssoc(applied, emitted, Fold(Records(payload[b.p..]), tick));
      applied := applied + emitted;
    }
  }

  /** One turn of the loop: `tlv_next`, then the record's effect. `stop`
      is the `break` on an incomplete record. */
  method Turn(b: CTlv.TlvBuf, tick: u32) returns (stop: bool, tick': u32, emitted: seq<Correction>)
    requires b.Valid() && b.p + b.len == |b.mem|
    modifies b`p, b`len
    ensures b.Valid() && b.p + b.len == |b.mem|
    ensures stop ==> Records(b.mem[old(b.p)..]) == []
    ensures !stop ==> b.len < old(b.len)
    ensures !stop ==> Fold(Records(b.mem[old(b.p)..]), tick) == emitted + Fold(Records(b.mem[b.p..]), tick')
  {
    ghost var p0 := b.p;
    WalkStep(b.mem, p0);
    var ok: bool, t: byte, L: u16, V: nat;
    ok, t, L, V := b.Next(0, 0, 0);
    if !ok {
      return true, tick, [];
    }
    ghost var r := CTlv.Step(b.mem, p0, |b.mem| - p0).value;
    assert t == r.tlvType && L == r.len && V == p0 + 3 && b.p == p0 + 3 + L;
    ghost var it := Item(t, b.mem[V..V + L]);
    ghost var rest := Records(b.mem[b.p..]);
    assert Records(b.mem[p0..]) == [it] + rest;
    FoldCons(it, rest, tick);
    var step: Option<Correction>;
    tick', step := VisitRecord(b.mem, t, L, V, tick);
    stop := false;
    emitted := if step.Some? then [step.value] else [];
  }

  /** A non-empty sequence followed by another is its head, then the rest. */
  lemma ConsAppend<T>(xs: seq<T>, ys: seq<T>)
    requires xs != []
    ensures xs + ys == [xs[0]] + (xs[1..] + ys)
  {
    assert xs == [xs[0]] + xs[1..];
  }

  /** The body of the loop for one complete record at `V` of length `L`:
      the new tick and the correction applied, if any. */
  method VisitRecord(payload: seq<byte>, t: byte, L: u16, V: nat, tick: u32) returns (tick': u32, step: Option<Correction>)
    requires V + L <= |payload|
    ensures (step, tick') == Visit(Item(t, payload[V..V + L]), tick)
  {
    tick', step := tick, None;
    ghost var v := payload[V..V + L];
    if t == MsgType.TLV_STATE_HEADER && L >= 4 {
      tick' := payload[V] as int * 0x100_0000 + payload[V + 1] as int * 0x1_0000 + payload[V + 2] as int * 0x100 + payload[V + 3];
    } else if t == MsgType.TLV_PLAYER_CORR && L >= 7 {
      var grounded := payload[V];
      var platId := AsI16(payload[V + 1] as int * 0x100 + payload[V + 2]);
      var yCorr := AsI16(payload[V + 3] as int * 0x100 + payload[V + 4]);
      var vyCorr := AsI16(payload[V + 5] as int * 0x100 + payload[V + 6]);
      assert v[1..][0] == payload[V + 1] && v[1..][1] == payload[V + 2];
      assert v[3..][0] == payload[V + 3] && v[3..][1] == payload[V + 4];
      assert v[5..][0] == payload[V + 5] && v[5..][1] == payload[V + 6];
      step := Some(Correction(tick, CorrBody(grounded, platId, yCorr, vyCorr)));
    }
  }
}
