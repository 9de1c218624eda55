/** What the C clients make of the frames the Java server writes. */
module Interop {
  import opened Bytes
  import opened Wrappers
  import opened Rects
  import JavaProto
  import Messenger
  import StaticMap

  // ---------------------------------------------------------------------
  // INIT_STATIC: the server's rectangle lists against `cp_recv_init_static_payload`

  /** A Java rectangle as the client reads it back: the low 16 bits of each
      field. */
  function ToCp(r: Rect): StaticMap.CpRect
  {
    StaticMap.CpRect(Low16(r.x), Low16(r.y), Low16(r.w), Low16(r.h))
  }

  function ToCps(rs: seq<Rect>): (cs: seq<StaticMap.CpRect>)
    ensures |cs| == |rs|
  {
    seq(|rs|, i requires 0 <= i < |rs| => ToCp(rs[i]))
  }

  /** `writeRect` writes the bytes of the client's rectangle `ToCp(r)`. */
  lemma {:induction false} RectBytesAgree(r: Rect)
    ensures JavaProto.RectBytes(r) == StaticMap.RectBytes(ToCp(r))
  {
    assert JavaProto.U16Bytes(r.x) == Enc16(Low16(r.x));
  }

  /** A list of rectangles is written as the client's rectangles. */
  lemma {:induction false} RectsBytesAgree(rs: seq<Rect>)
    ensures Messenger.RectsBytes(rs) == StaticMap.RectsBytes(ToCps(rs))
  {
    if rs != [] {
      var init := rs[..|rs| - 1];
      RectsBytesAgree(init);
      RectBytesAgree(rs[|rs| - 1]);
      assert ToCps(rs)[..|rs| - 1] == ToCps(init);
    }
  }

  /** A list shorter than 65536 is written as the count and the rectangles
      the client reads. */
  lemma {:induction false} ArrayBytesAgree(rs: seq<Rect>)
    requires |rs| < 0x1_0000
    ensures Messenger.ArrayBytes(rs) == StaticMap.ArrayBytes(ToCps(rs))
  {
    RectsBytesAgree(rs);
    assert Low16(|rs|) == |rs|;
  }

  /** The snapshot a client keeps after the four-list payload: the platforms
      and vines, and no water. */
  function LegacyKept(platforms: seq<Rect>, vines: seq<Rect>): StaticMap.StaticSnapshot
    requires |platforms| < 0x1_0000 && |vines| < 0x1_0000
  {
    StaticMap.StaticSnapshot(|platforms|, |vines|, 0,
      StaticMap.Stored(ToCps(platforms)), StaticMap.Stored(ToCps(vines)), None)
  }

  /** As written, `sendInitStaticLegacy` stops after the fruit list, while
      the client reads a fifth, water, list: the client finds no water count
      and rejects every payload the server sends, keeping only the
      platforms and vines it read on the way. */
  lemma {:induction false} LegacyInitStaticRejected(player: Rect, platforms: seq<Rect>, vines: seq<Rect>,
                                                    crocodiles: seq<Rect>, fruits: seq<Rect>)
    requires |platforms| < 0x1_0000 && |vines| < 0x1_0000 && |crocodiles| < 0x1_0000 && |fruits| < 0x1_0000
    ensures StaticMap.InitStatic(Messenger.LegacyPayload(player, platforms, vines, crocodiles, fruits)) ==
      StaticMap.InitOutcome(false, LegacyKept(platforms, vines))
  {
    var mem := Messenger.LegacyPayload(player, platforms, vines, crocodiles, fruits);
    var p, v, e, f := ToCps(platforms), ToCps(vines), ToCps(crocodiles), ToCps(fruits);
    ArrayBytesAgree(platforms);
    ArrayBytesAgree(vines);
    ArrayBytesAgree(crocodiles);
    ArrayBytesAgree(fruits);
    var rb := JavaProto.RectBytes(player);
    var ap, av, ae, af := StaticMap.ArrayBytes(p), StaticMap.ArrayBytes(v), StaticMap.ArrayBytes(e), StaticMap.ArrayBytes(f);
    assert mem == rb + ap + av + ae + af;
    DropFirst(rb, ap, av, ae, af);
    FourArraysThenEnd(mem, p, v, e, f);
  }

  lemma DropFirst(a: seq<byte>, b: seq<byte>, c: seq<byte>, d: seq<byte>, e: seq<byte>)
    ensures (a + b + c + d + e)[|a|..] == b + (c + (d + (e + [])))
  {
    assert e + [] == e;
    assert (a + b + c + d + e)[|a|..] == b + c + d + e;
    assert b + c + d + e == b + (c + (d + e));
  }

  /** A payload whose player rectangle is followed by exactly four lists is
      rejected once the parser looks for the fifth count. */
  lemma {:induction false} FourArraysThenEnd(mem: seq<byte>, p: seq<StaticMap.CpRect>, v: seq<StaticMap.CpRect>,
                                             e: seq<StaticMap.CpRect>, f: seq<StaticMap.CpRect>)
    requires |p| < 0x1_0000 && |v| < 0x1_0000 && |e| < 0x1_0000 && |f| < 0x1_0000
    requires 8 <= |mem|
    requires mem[8..] == StaticMap.ArrayBytes(p) + (StaticMap.ArrayBytes(v) + (StaticMap.ArrayBytes(e) + (StaticMap.ArrayBytes(f) + [])))
    ensures StaticMap.InitStatic(mem) == StaticMap.InitOutcome(false,
      StaticMap.StaticSnapshot(|p|, |v|, 0, StaticMap.Stored(p), StaticMap.Stored(v), None))
  {
    var o2, o3 := StaticMap.TwoArraysParse(mem, 8, p, v, StaticMap.ArrayBytes(e) + (StaticMap.ArrayBytes(f) + []));
    var o4, o5 := StaticMap.TwoArraysParse(mem, o3, e, f, []);
    assert o5 == |mem|;
  }

  /** The corrected send, with the water list after the fruits, writes the
      layout the client expects... */
  lemma {:induction false} WithWaterIsLayout(player: Rect, platforms: seq<Rect>, vines: seq<Rect>,
                                             crocodiles: seq<Rect>, fruits: seq<Rect>, waters: seq<Rect>)
    requires |platforms| < 0x1_0000 && |vines| < 0x1_0000 && |crocodiles| < 0x1_0000
    requires |fruits| < 0x1_0000 && |waters| < 0x1_0000
    ensures var g := StaticMap.InitLayout(ToCp(player), ToCps(platforms), ToCps(vines),
                                          ToCps(crocodiles), ToCps(fruits), ToCps(waters));
      StaticMap.LayoutFits(g) &&
      Messenger.WithWaterPayload(player, platforms, vines, crocodiles, fruits, waters) == StaticMap.LayoutBytes(g)
  {
    RectBytesAgree(player);
    ArrayBytesAgree(platforms);
    ArrayBytesAgree(vines);
    ArrayBytesAgree(crocodiles);
    ArrayBytesAgree(fruits);
    ArrayBytesAgree(waters);
    var rb := StaticMap.RectBytes(ToCp(player));
    var ap, av := StaticMap.ArrayBytes(ToCps(platforms)), StaticMap.ArrayBytes(ToCps(vines));
    var ae, af := StaticMap.ArrayBytes(ToCps(crocodiles)), StaticMap.ArrayBytes(ToCps(fruits));
    var aw := StaticMap.ArrayBytes(ToCps(waters));
    assert Messenger.WithWaterPayload(player, platforms, vines, crocodiles, fruits, waters) ==
      rb + ap + av + ae + af + aw;
    SixPieces(rb, ap, av, ae, af, aw);
  }

  lemma SixPieces(a: seq<byte>, b: seq<byte>, c: seq<byte>, d: seq<byte>, e: seq<byte>, f: seq<byte>)
    ensures a + b + c + d + e + f == a + (b + (c + (d + (e + f))))
  {
    AppendAssoc(a + b + c + d, e, f);
    AppendAssoc(a + b + c, d, e + f);
    AppendAssoc(a + b, c, d + (e + f));
    AppendAssoc(a, b, c + (d + (e + f)));
  }

  /** ... so the client accepts it and keeps the platforms, vines and water. */
  lemma {:induction false} WithWaterInitStaticAccepted(player: Rect, platforms: seq<Rect>, vines: seq<Rect>,
                                                       crocodiles: seq<Rect>, fruits: seq<Rect>, waters: seq<Rect>)
    requires |platforms| < 0x1_0000 && |vines| < 0x1_0000 && |crocodiles| < 0x1_0000
    requires |fruits| < 0x1_0000 && |waters| < 0x1_0000
    ensures StaticMap.InitStatic(Messenger.WithWaterPayload(player, platforms, vines, crocodiles, fruits, waters)) ==
      StaticMap.InitOutcome(true, StaticMap.StaticSnapshot(|platforms|, |vines|, |waters|,
        StaticMap.Stored(ToCps(platforms)), StaticMap.Stored(ToCps(vines)), StaticMap.Stored(ToCps(waters))))
  {
    var g := StaticMap.InitLayout(ToCp(player), ToCps(platforms), ToCps(vines),
                                  ToCps(crocodiles), ToCps(fruits), ToCps(waters));
    WithWaterIsLayout(player, platforms, vines, crocodiles, fruits, waters);
    StaticMap.InitStaticAcceptsLayout(g);
  }
}
