/** The client's copy of the static level geometry (clientC/UI/Game/static_map.c):
    the INIT_STATIC payload parser and the global store it fills.

    The payload is the player rectangle followed by five rectangle arrays
    (platforms, vines, enemies, fruits, water), each a big-endian 16-bit
    count and then eight bytes per rectangle (x, y, w, h, each big-endian
    16-bit). Platforms, vines and water are kept; the player rectangle,
    enemies and fruits are read and dropped. A C `NULL` array is `None`. */
module StaticMap {
  import opened Bytes
  import opened Wrappers

  datatype CpRect = CpRect(x: u16, y: u16, w: u16, h: u16)

  /** The contents of `g_static`. */
  datatype StaticSnapshot = StaticSnapshot(nPlat: u16, nVines: u16, nWater: u16,
                                           plat: Option<seq<CpRect>>,
                                           vines: Option<seq<CpRect>>,
                                           water: Option<seq<CpRect>>)

  const EMPTY: StaticSnapshot := StaticSnapshot(0, 0, 0, None, None, None)

  /** Every array that is present holds exactly as many rectangles as its count says. */
  predicate ArraysMatchCounts(st: StaticSnapshot)
  {
    (st.plat.Some? ==> |st.plat.value| == st.nPlat) &&
    (st.vines.Some? ==> |st.vines.value| == st.nVines) &&
    (st.water.Some? ==> |st.water.value| == st.nWater)
  }

  // ---------------------------------------------------------------------
  // What the parser reads, as functions of the payload

  /** The rectangle whose eight bytes start at `off`. */
  function RectAt(mem: seq<byte>, off: nat): CpRect
    requires off + 8 <= |mem|
  {
    CpRect(Be16(mem[off..]), Be16(mem[off + 2..]), Be16(mem[off + 4..]), Be16(mem[off + 6..]))
  }

  /** The `n` rectangles stored back to back from `off`. */
  function RectsAt(mem: seq<byte>, off: nat, n: nat): (rs: seq<CpRect>)
    requires off + 8 * n <= |mem|
    ensures |rs| == n
  {
    seq(n, i requires 0 <= i < n => RectAt(mem, off + 8 * i))
  }

  /** How `read_rect_array` ends when the cursor is at `off`: no room for the
      count; a count `n` but no room for its rectangles; or the count, the
      array (absent when the count is 0) and the offset just after it. */
  datatype ArrayParse = CountMissing | RectsMissing(n: u16) | Parsed(n: u16, rects: Option<seq<CpRect>>, next: nat)

  function ParseRectArray(mem: seq<byte>, off: nat): (r: ArrayParse)
    requires off <= |mem|
    ensures r.Parsed? ==> r.next <= |mem|
  {
    if |mem| - off < 2 then CountMissing
    else
      var n := Be16(mem[off..]);
      if n == 0 then Parsed(0, None, off + 2)
      else if |mem| - (off + 2) < 8 * n then RectsMissing(n)
      else Parsed(n, Some(RectsAt(mem, off + 2, n)), off + 2 + 8 * n)
  }

  /** The result of `cp_recv_init_static_payload` and what it leaves in `g_static`. */
  datatype InitOutcome = InitOutcome(ok: bool, stored: StaticSnapshot)

  /** Stores the count (and, once parsed, the array) of one kept field. */
  function KeepPlat(st: StaticSnapshot, r: ArrayParse): StaticSnapshot
  {
    match r
    case CountMissing => st
    case RectsMissing(n) => st.(nPlat := n)
    case Parsed(n, rs, _) => st.(nPlat := n, plat := rs)
  }

  function KeepVines(st: StaticSnapshot, r: ArrayParse): StaticSnapshot
  {
    match r
    case CountMissing => st
    case RectsMissing(n) => st.(nVines := n)
    case Parsed(n, rs, _) => st.(nVines := n, vines := rs)
  }

  function KeepWater(st: StaticSnapshot, r: ArrayParse): StaticSnapshot
  {
    match r
    case CountMissing => st
    case RectsMissing(n) => st.(nWater := n)
    case Parsed(n, rs, _) => st.(nWater := n, water := rs)
  }

  /** The outcome of parsing a whole INIT_STATIC payload: the store is cleared
      first, each kept array lands in it as soon as it is read, parsing stops
      at the first array that does not fit, and success also needs every
      byte to have been consumed. */
  function InitStatic(payload: seq<byte>): InitOutcome
  {
    if |payload| < 8 then InitOutcome(false, EMPTY)
    else
      var rP := ParseRectArray(payload, 8);
      var s1 := KeepPlat(EMPTY, rP);
      if !rP.Parsed? then InitOutcome(false, s1)
      else
        var rV := ParseRectArray(payload, rP.next);
        var s2 := KeepVines(s1, rV);
        if !rV.Parsed? then InitOutcome(false, s2)
        else
          var rE := ParseRectArray(payload, rV.next);
          if !rE.Parsed? then InitOutcome(false, s2)
          else
            var rF := ParseRectArray(payload, rE.next);
            if !rF.Parsed? then InitOutcome(false, s2)
            else
              var rW := ParseRectArray(payload, rF.next);
              var s3 := KeepWater(s2, rW);
              if !rW.Parsed? then InitOutcome(false, s3)
              else InitOutcome(rW.next == |payload|, s3)
  }

  // ---------------------------------------------------------------------
  // The layout the parser expects, and the proofs that it reads it back

  /** The payload layout the client expects. */
  datatype InitLayout = InitLayout(player: CpRect, plat: seq<CpRect>, vines: seq<CpRect>,
                                   enemies: seq<CpRect>, fruits: seq<CpRect>, water: seq<CpRect>)

  predicate LayoutFits(g: InitLayout)
  {
    |g.plat| < 0x1_0000 && |g.vines| < 0x1_0000 && |g.enemies| < 0x1_0000 &&
    |g.fruits| < 0x1_0000 && |g.water| < 0x1_0000
  }

  function RectBytes(r: CpRect): seq<byte>
  {
    Enc16(r.x) + Enc16(r.y) + Enc16(r.w) + Enc16(r.h)
  }

  function RectsBytes(rs: seq<CpRect>): seq<byte>
  {
    if rs == [] then [] else RectsBytes(rs[..|rs| - 1]) + RectBytes(rs[|rs| - 1])
  }

  /** A count followed by the rectangles. */
  function ArrayBytes(rs: seq<CpRect>): seq<byte>
    requires |rs| < 0x1_0000
  {
    Enc16(|rs|) + RectsBytes(rs)
  }

  function LayoutBytes(g: InitLayout): seq<byte>
    requires LayoutFits(g)
  {
    RectBytes(g.player) + (ArrayBytes(g.plat) + (ArrayBytes(g.vines) +
    (ArrayBytes(g.enemies) + (ArrayBytes(g.fruits) + ArrayBytes(g.water)))))
  }

  /** An array as `g_static` holds it: `NULL` when empty. */
  function Stored(rs: seq<CpRect>): Option<seq<CpRect>>
  {
    if rs == [] then None else Some(rs)
  }

  /** What a well-formed payload leaves in the store. */
  function Kept(g: InitLayout): StaticSnapshot
    requires LayoutFits(g)
  {
    StaticSnapshot(|g.plat|, |g.vines|, |g.water|, Stored(g.plat), Stored(g.vines), Stored(g.water))
  }

  lemma {:induction false} RectsBytesLayout(rs: seq<CpRect>)
    ensures |RectsBytes(rs)| == 8 * |rs|
    ensures forall i :: 0 <= i < |rs| ==> RectsBytes(rs)[8 * i..8 * i + 8] == RectBytes(rs[i])
  {
    if rs != [] {
      var init := rs[..|rs| - 1];
      RectsBytesLayout(init);
      forall i | 0 <= i < |rs|
        ensures RectsBytes(rs)[8 * i..8 * i + 8] == RectBytes(rs[i])
      {
        if i < |init| {
          assert rs[i] == init[i];
          assert RectsBytes(rs)[8 * i..8 * i + 8] == RectsBytes(init)[8 * i..8 * i + 8];
        }
      }
    }
  }

  lemma {:induction false} RectAtBytes(r: CpRect, mem: seq<byte>, off: nat)
    requires off + 8 <= |mem| && mem[off..off + 8] == RectBytes(r)
    ensures RectAt(mem, off) == r
  {
    var w := mem[off..off + 8];
    assert w[..2] == Enc16(r.x) && w[2..4] == Enc16(r.y) && w[4..6] == Enc16(r.w) && w[6..8] == Enc16(r.h);
    Be16Of(mem[off..], Enc16(r.x));
    Be16Of(mem[off + 2..], Enc16(r.y));
    Be16Of(mem[off + 4..], Enc16(r.w));
    Be16Of(mem[off + 6..], Enc16(r.h));
    Be16Enc16(r.x);
    Be16Enc16(r.y);
    Be16Enc16(r.w);
    Be16Enc16(r.h);
  }

  /** `be16` reads only the first two bytes. */
  lemma Be16Of(p: seq<byte>, q: seq<byte>)
    requires |p| >= 2 && |q| >= 2 && p[0] == q[0] && p[1] == q[1]
    ensures Be16(p) == Be16(q)
  {
  }

  /** Rectangles written back to back are read back in order. */
  lemma {:induction false} RectsAtBytes(rs: seq<CpRect>, mem: seq<byte>, off: nat)
    requires off + 8 * |rs| <= |mem|
    requires mem[off..off + 8 * |rs|] == RectsBytes(rs)
    ensures RectsAt(mem, off, |rs|) == rs
  {
    RectsBytesLayout(rs);
    forall i | 0 <= i < |rs|
      ensures RectsAt(mem, off, |rs|)[i] == rs[i]
    {
      RectInRectsBytes(rs, mem, off, i);
    }
  }

  lemma {:induction false} RectInRectsBytes(rs: seq<CpRect>, mem: seq<byte>, off: nat, i: nat)
    requires i < |rs| && off + 8 * |rs| <= |mem|
    requires mem[off..off + 8 * |rs|] == RectsBytes(rs)
    requires RectsBytes(rs)[8 * i..8 * i + 8] == RectBytes(rs[i])
    ensures off + 8 * i + 8 <= |mem| && RectAt(mem, off + 8 * i) == rs[i]
  {
    assert 8 * i + 8 <= 8 * |rs| by { MulMono(8, i + 1, |rs|); }
    SubSlice(mem, off, off + 8 * |rs|, 8 * i, 8 * i + 8);
    RectAtBytes(rs[i], mem, off + 8 * i);
  }

  /** A count and its rectangles, wherever they sit in the payload, parse to
      that count and array (no array when the count is 0), and parsing
      continues right after them. */
  lemma {:induction false} ParseArrayBytes(rs: seq<CpRect>, rest: seq<byte>, mem: seq<byte>, off: nat)
    requires |rs| < 0x1_0000
    requires off <= |mem| && mem[off..] == ArrayBytes(rs) + rest
    ensures off + 2 + 8 * |rs| <= |mem| && mem[off + 2 + 8 * |rs|..] == rest
    ensures ParseRectArray(mem, off) == Parsed(|rs|, Stored(rs), off + 2 + 8 * |rs|)
  {
    RectsBytesLayout(rs);
    assert mem[off + 2 + 8 * |rs|..] == mem[off..][|ArrayBytes(rs)|..];
    var w := mem[off..];
    assert w[..2] == Enc16(|rs|);
    Be16Enc16(|rs|);
    if rs != [] {
      assert mem[off + 2..off + 2 + 8 * |rs|] == w[2..2 + 8 * |rs|] == RectsBytes(rs);
      RectsAtBytes(rs, mem, off + 2);
    }
  }

  /** A payload laid out as the client expects is accepted, and the store
      then holds exactly its platforms, vines and water. */
  lemma {:induction false} InitStaticAcceptsLayout(g: InitLayout)
    requires LayoutFits(g)
    ensures InitStatic(LayoutBytes(g)) == InitOutcome(true, Kept(g))
  {
    var mem := LayoutBytes(g);
    assert mem[8..] == ArrayBytes(g.plat) + (ArrayBytes(g.vines) + (ArrayBytes(g.enemies) +
      (ArrayBytes(g.fruits) + ArrayBytes(g.water))));
    var o2, o3, o4, o5 := ArraysParse(mem, g.plat, g.vines, g.enemies, g.fruits, g.water);
  }

  /** The five arrays after the player rectangle parse one after another, the
      last one ending the payload. */
  lemma {:induction false} ArraysParse(mem: seq<byte>, plat: seq<CpRect>, vines: seq<CpRect>,
                                       enemies: seq<CpRect>, fruits: seq<CpRect>, water: seq<CpRect>)
      returns (o2: nat, o3: nat, o4: nat, o5: nat)
    requires |plat| < 0x1_0000 && |vines| < 0x1_0000 && |enemies| < 0x1_0000
    requires |fruits| < 0x1_0000 && |water| < 0x1_0000
    requires 8 <= |mem|
    requires mem[8..] == ArrayBytes(plat) + (ArrayBytes(vines) + (ArrayBytes(enemies) +
      (ArrayBytes(fruits) + ArrayBytes(water))))
    ensures o2 <= o3 <= o4 <= o5 <= |mem|
    ensures ParseRectArray(mem, 8) == Parsed(|plat|, Stored(plat), o2)
    ensures ParseRectArray(mem, o2) == Parsed(|vines|, Stored(vines), o3)
    ensures ParseRectArray(mem, o3) == Parsed(|enemies|, Stored(enemies), o4)
    ensures ParseRectArray(mem, o4) == Parsed(|fruits|, Stored(fruits), o5)
    ensures ParseRectArray(mem, o5) == Parsed(|water|, Stored(water), |mem|)
  {
    var t3 := ArrayBytes(enemies) + (ArrayBytes(fruits) + ArrayBytes(water));
    o2, o3 := TwoArraysParse(mem, 8, plat, vines, t3);
    o4, o5 := TwoArraysParse(mem, o3, enemies, fruits, ArrayBytes(water));
    LastArrayParse(mem, o5, water);
  }

  lemma {:induction false} LastArrayParse(mem: seq<byte>, off: nat, rs: seq<CpRect>)
    requires |rs| < 0x1_0000
    requires off <= |mem| && mem[off..] == ArrayBytes(rs)
    ensures ParseRectArray(mem, off) == Parsed(|rs|, Stored(rs), |mem|)
  {
    assert mem[off..] == ArrayBytes(rs) + [];
    ParseArrayBytes(rs, [], mem, off);
    ArrayBytesLength(rs);
  }

  lemma {:induction false} TwoArraysParse(mem: seq<byte>, off: nat, a: seq<CpRect>, b: seq<CpRect>, rest: seq<byte>)
      returns (mid: nat, next: nat)
    requires |a| < 0x1_0000 && |b| < 0x1_0000
    requires off <= |mem| && mem[off..] == ArrayBytes(a) + (ArrayBytes(b) + rest)
    ensures off <= mid <= next <= |mem| && mem[next..] == rest
    ensures ParseRectArray(mem, off) == Parsed(|a|, Stored(a), mid)
    ensures ParseRectArray(mem, mid) == Parsed(|b|, Stored(b), next)
  {
    ParseArrayBytes(a, ArrayBytes(b) + rest, mem, off);
    mid := off + 2 + 8 * |a|;
    ParseArrayBytes(b, rest, mem, mid);
    next := mid + 2 + 8 * |b|;
  }

  lemma ArrayBytesLength(rs: seq<CpRect>)
    requires |rs| < 0x1_0000
    ensures |ArrayBytes(rs)| == 2 + 8 * |rs|
  {
    RectsBytesLayout(rs);
  }

  lemma SubSlice(s: seq<byte>, a: nat, b: nat, c: nat, d: nat)
    requires a <= b <= |s| && c <= d <= b - a
    ensures s[a..b][c..d] == s[a + c..a + d]
  {
    forall k | 0 <= k < d - c
      ensures s[a..b][c..d][k] == s[a + c..a + d][k]
    {
    }
  }

  lemma SliceOfConcat(a: seq<byte>, b: seq<byte>, c: seq<byte>)
    ensures (a + b + c)[|a|..|a| + |b|] == b
    ensures a + b + c == a + (b + c)
  {
  }

  /** Conversely, only such payloads are accepted: an accepted payload is
      exactly the bytes of one layout, and the store holds that layout's
      platforms, vines and water. */
  lemma {:induction false} InitStaticAcceptsOnlyLayouts(payload: seq<byte>)
    requires InitStatic(payload).ok
    ensures exists g :: LayoutFits(g) && LayoutBytes(g) == payload && InitStatic(payload).stored == Kept(g)
  {
    var g := AcceptedLayout(payload);
    InitStaticAcceptsLayout(g);
  }

  /** The layout an accepted payload is the bytes of. */
  lemma {:induction false} AcceptedLayout(payload: seq<byte>) returns (g: InitLayout)
    requires InitStatic(payload).ok
    ensures LayoutFits(g) && LayoutBytes(g) == payload
  {
    var o2, o3, o4, o5 := AcceptedOffsets(payload);
    var plat := ArrayBetween(payload, 8, o2);
    var vines := ArrayBetween(payload, o2, o3);
    var enemies := ArrayBetween(payload, o3, o4);
    var fruits := ArrayBetween(payload, o4, o5);
    var water := ArrayBetween(payload, o5, |payload|);
    RectBytesOfRectAt(payload, 0);
    g := InitLayout(RectAt(payload, 0), plat, vines, enemies, fruits, water);
    Reassemble(payload, 8, o2, o3, o4, o5);
    assert LayoutBytes(g) == RectBytes(g.player) + (ArrayBytes(plat) + (ArrayBytes(vines) +
        (ArrayBytes(enemies) + (ArrayBytes(fruits) + ArrayBytes(water)))));
  }

  /** The array a successful parse at `off` that ends at `next` returned,
      and the bytes between them are that array's. */
  lemma {:induction false} ArrayBetween(mem: seq<byte>, off: nat, next: nat) returns (rs: seq<CpRect>)
    requires off <= |mem| && ParseRectArray(mem, off).Parsed? && ParseRectArray(mem, off).next == next
    ensures rs == RectsOf(ParseRectArray(mem, off)) && |rs| < 0x1_0000
    ensures off <= next <= |mem| && mem[off..next] == ArrayBytes(rs)
  {
    ParsedIsArrayBytes(mem, off);
    rs := RectsOf(ParseRectArray(mem, off));
  }

  /** Where the five arrays of an accepted payload start. */
  lemma {:induction false} AcceptedOffsets(payload: seq<byte>) returns (o2: nat, o3: nat, o4: nat, o5: nat)
    requires InitStatic(payload).ok
    ensures 8 <= o2 <= o3 <= o4 <= o5 <= |payload|
    ensures ParseRectArray(payload, 8).Parsed? && ParseRectArray(payload, 8).next == o2
    ensures ParseRectArray(payload, o2).Parsed? && ParseRectArray(payload, o2).next == o3
    ensures ParseRectArray(payload, o3).Parsed? && ParseRectArray(payload, o3).next == o4
    ensures ParseRectArray(payload, o4).Parsed? && ParseRectArray(payload, o4).next == o5
    ensures ParseRectArray(payload, o5).Parsed? && ParseRectArray(payload, o5).next == |payload|
  {
    o2 := ParseRectArray(payload, 8).next;
    o3 := ParseRectArray(payload, o2).next;
    o4 := ParseRectArray(payload, o3).next;
    o5 := ParseRectArray(payload, o4).next;
    ParseAdvances(payload, 8);
    ParseAdvances(payload, o2);
    ParseAdvances(payload, o3);
    ParseAdvances(payload, o4);
  }

  lemma ParseAdvances(mem: seq<byte>, off: nat)
    requires off <= |mem|
    ensures ParseRectArray(mem, off).Parsed? ==> off < ParseRectArray(mem, off).next
  {
  }

  lemma Reassemble(s: seq<byte>, a: nat, b: nat, c: nat, d: nat, e: nat)
    requires a <= b <= c <= d <= e <= |s|
    ensures s == s[..a] + (s[a..b] + (s[b..c] + (s[c..d] + (s[d..e] + s[e..|s|]))))
  {
  }

  /** The array a parse returned, empty when there was none. */
  function RectsOf(r: ArrayParse): seq<CpRect>
  {
    if r.Parsed? && r.rects.Some? then r.rects.value else []
  }

  /** A parsed array spans exactly the bytes of its count and rectangles. */
  lemma {:induction false} ParsedIsArrayBytes(mem: seq<byte>, off: nat)
    requires off <= |mem| && ParseRectArray(mem, off).Parsed?
    ensures var r := ParseRectArray(mem, off);
      |RectsOf(r)| == r.n && off <= r.next && mem[off..r.next] == ArrayBytes(RectsOf(r))
  {
    var r := ParseRectArray(mem, off);
    Enc16Be16(mem[off..]);
    if r.n > 0 {
      RectsBytesOfRectsAt(mem, off + 2, r.n);
      assert mem[off..r.next] == mem[off..][..2] + mem[off + 2..off + 2 + 8 * r.n];
    } else {
      assert mem[off..r.next] == mem[off..][..2];
    }
  }

  lemma {:induction false} RectsBytesOfRectsAt(mem: seq<byte>, off: nat, n: nat)
    requires off + 8 * n <= |mem|
    ensures RectsBytes(RectsAt(mem, off, n)) == mem[off..off + 8 * n]
  {
    if n > 0 {
      var rs := RectsAt(mem, off, n);
      var mid := off + 8 * (n - 1);
      calc {
        RectsBytes(rs);
        RectsBytes(rs[..n - 1]) + RectBytes(rs[n - 1]);
        { RectsAtInit(mem, off, n); }
        RectsBytes(RectsAt(mem, off, n - 1)) + RectBytes(RectAt(mem, mid));
        { RectsBytesOfRectsAt(mem, off, n - 1); RectBytesOfRectAt(mem, mid); }
        mem[off..mid] + mem[mid..mid + 8];
        { SliceSplit(mem, off, mid, off + 8 * n); }
        mem[off..off + 8 * n];
      }
    }
  }

  lemma RectsAtInit(mem: seq<byte>, off: nat, n: nat)
    requires 0 < n && off + 8 * n <= |mem|
    ensures RectsAt(mem, off, n)[..n - 1] == RectsAt(mem, off, n - 1)
    ensures RectsAt(mem, off, n)[n - 1] == RectAt(mem, off + 8 * (n - 1))
  {
  }

  lemma SliceSplit(s: seq<byte>, a: nat, b: nat, c: nat)
    requires a <= b <= c <= |s|
    ensures s[a..c] == s[a..b] + s[b..c]
  {
  }

  lemma {:induction false} RectBytesOfRectAt(mem: seq<byte>, off: nat)
    requires off + 8 <= |mem|
    ensures RectBytes(RectAt(mem, off)) == mem[off..off + 8]
  {
    Enc16Be16(mem[off..]);
    Enc16Be16(mem[off + 2..]);
    Enc16Be16(mem[off + 4..]);
    Enc16Be16(mem[off + 6..]);
    assert mem[off..off + 8] == mem[off..][..2] + mem[off + 2..][..2] + mem[off + 4..][..2] + mem[off + 6..][..2];
  }

  /** Whatever the payload, an array left in the store holds exactly its
      count of rectangles, so walking `nPlat` entries of a present `plat`
      stays in bounds. */
  lemma {:induction false} InitStaticKeepsCounts(payload: seq<byte>)
    ensures ArraysMatchCounts(InitStatic(payload).stored)
  {
    if |payload| >= 8 {
      ParsedArrayMatchesCount(payload, 8);
      var rP := ParseRectArray(payload, 8);
      if rP.Parsed? {
        ParsedArrayMatchesCount(payload, rP.next);
        var rV := ParseRectArray(payload, rP.next);
        if rV.Parsed? {
          var rE := ParseRectArray(payload, rV.next);
          if rE.Parsed? {
            var rF := ParseRectArray(payload, rE.next);
            if rF.Parsed? {
              ParsedArrayMatchesCount(payload, rF.next);
            }
          }
        }
      }
    }
  }

  lemma ParsedArrayMatchesCount(mem: seq<byte>, off: nat)
    requires off <= |mem|
    ensures var r := ParseRectArray(mem, off);
      r.Parsed? && r.rects.Some? ==> |r.rects.value| == r.n && r.n > 0
  {
  }

  // ---------------------------------------------------------------------
  // The imperative parser

  /** The pair (`*p`, `*len`) the readers advance: a position in the payload
      and the number of bytes after it. */
  class Cursor {
    const mem: seq<byte>
    var p: nat
    var len: nat

    ghost predicate Valid()
      reads this
    {
      p + len == |mem|
    }

    constructor (mem: seq<byte>)
      ensures Valid() && this.mem == mem && p == 0 && len == |mem|
    {
      this.mem := mem;
      p := 0;
      len := |mem|;
    }

    /** `read_rect`: eight bytes as one rectangle; fails, touching nothing,
        when fewer than eight are left. */
    method ReadRect(r0: CpRect) returns (ok: bool, r: CpRect)
      requires Valid()
      modifies this`p, this`len
      ensures Valid()
      ensures ok <==> old(len) >= 8
      ensures ok ==> r == RectAt(mem, old(p)) && p == old(p) + 8
      ensures !ok ==> r == r0 && p == old(p)
    {
      if len < 8 {
        return false, r0;
      }
      r := CpRect(Be16(mem[p..]), Be16(mem[p + 2..]), Be16(mem[p + 4..]), Be16(mem[p + 6..]));
      p := p + 8;
      len := len - 8;
      ok := true;
    }

    /** `read_rect_array`: the count, then that many rectangles. The count
        out-parameter is written as soon as it is read, even when the
        rectangles then turn out not to fit; the array out-parameter only
        on success. */
    method ReadRectArray(n0: u16, out0: Option<seq<CpRect>>) returns (ok: bool, n: u16, out: Option<seq<CpRect>>)
      requires Valid()
      modifies this`p, this`len
      ensures Valid()
      ensures var r := ParseRectArray(mem, old(p));
        (r.CountMissing? ==> !ok && n == n0 && out == out0 && p == old(p)) &&
        (r.RectsMissing? ==> !ok && n == r.n && out == out0 && p == old(p) + 2) &&
        (r.Parsed? ==> ok && n == r.n && out == r.rects && p == r.next)
    {
      n, out := n0, out0;
      if len < 2 {
        return false, n, out;
      }
      n := Be16(mem[p..]);
      p := p + 2;
      len := len - 2;
      if n == 0 {
        return true, n, None;
      }
      var need := n * 8;
      if len < need {
        return false, n, out;
      }
      var arr := new CpRect[n];
      var i := 0;
      ghost var start := p;
      while i < n
        invariant 0 <= i <= n && Valid()
        invariant p == start + 8 * i && start + 8 * n <= |mem|
        invariant arr[..i] == RectsAt(mem, start, i)
        modifies arr, this`p, this`len
      {
        var okRect, r := ReadRect(arr[i]);
        assert okRect;
        arr[i] := r;
        i := i + 1;
      }
      assert arr[..] == arr[..i];
      return true, n, Some(arr[..]);
    }
  }

  /** `g_static`. */
  class StaticStore {
    var nPlat: u16
    var nVines: u16
    var nWater: u16
    var plat: Option<seq<CpRect>>
    var vines: Option<seq<CpRect>>
    var water: Option<seq<CpRect>>

    /** `cp_get_static`. */
    function Snapshot(): StaticSnapshot
      reads this
    {
      StaticSnapshot(nPlat, nVines, nWater, plat, vines, water)
    }

    /** The zero-initialised store. */
    constructor ()
      ensures Snapshot() == EMPTY
    {
      nPlat, nVines, nWater := 0, 0, 0;
      plat, vines, water := None, None, None;
    }

    /** `cp_free_static`: drops all three arrays and zeroes their counts. */
    method Free()
      modifies this
      ensures Snapshot() == EMPTY
    {
      plat := None;
      nPlat := 0;
      vines := None;
      nVines := 0;
      water := None;
      nWater := 0;
    }

    /** `cp_recv_init_static_payload`. */
    method RecvInitStaticPayload(payload: seq<byte>) returns (ok: bool)
      modifies this
      ensures ok == InitStatic(payload).ok
      ensures Snapshot() == InitStatic(payload).stored
    {
      Free();
      var c := new Cursor(payload);
      var okRect, _ := c.ReadRect(CpRect(0, 0, 0, 0));
      if !okRect { return false; }
      ghost var rP := ParseRectArray(payload, 8);
      ok, nPlat, plat := c.ReadRectArray(nPlat, plat);
      assert Snapshot() == KeepPlat(EMPTY, rP);
      if !ok { return false; }
      ghost var s1 := Snapshot();
      ghost var rV := ParseRectArray(payload, rP.next);
      ok, nVines, vines := c.ReadRectArray(nVines, vines);
      assert Snapshot() == KeepVines(s1, rV);
      if !ok { return false; }
      ghost var s2 := Snapshot();
      ghost var rE := ParseRectArray(payload, rV.next);
      var nE: u16, eTmp: Option<seq<CpRect>>;
      ok, nE, eTmp := c.ReadRectArray(0, None);
      if !ok { return false; }
      ghost var rF := ParseRectArray(payload, rE.next);
      var nF: u16, fTmp: Option<seq<CpRect>>;
      ok, nF, fTmp := c.ReadRectArray(0, None);
      if !ok { return false; }
      ghost var rW := ParseRectArray(payload, rF.next);
      ok, nWater, water := c.ReadRectArray(nWater, water);
      assert Snapshot() == KeepWater(s2, rW);
      if !ok { return false; }
      return c.len == 0;
    }
  }
}
