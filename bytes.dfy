/** Fixed-width integers and the big-endian byte layouts that both the Java
    server and the C clients put on the wire.

    Both languages narrow an integer to its low bits when they store it in a
    smaller type (`(byte)v`, `(uint16_t)v`, `writeShort(v)`); Dafny's `%` is
    Euclidean, so `v % 0x1_0000` is exactly those low 16 bits for every `v`,
    negative ones included. Reading a pattern back as a signed value is
    `AsI16`/`AsI32`/`AsI8`. */
module Bytes {

  type byte = x: int | 0 <= x < 0x100
  type u16 = x: int | 0 <= x < 0x1_0000
  type u32 = x: int | 0 <= x < 0x1_0000_0000
  type i8 = x: int | -0x80 <= x < 0x80
  type i16 = x: int | -0x8000 <= x < 0x8000
  type i32 = x: int | -0x8000_0000 <= x < 0x8000_0000

  const I32_MIN: i32 := -0x8000_0000
  const I32_MAX: i32 := 0x7FFF_FFFF

  // ---------------------------------------------------------------------
  // Narrowing and reinterpretation

  /** The low 8, 16 and 32 bits of a two's-complement integer. */
  function Low8(v: int): byte { v % 0x100 }
  function Low16(v: int): u16 { v % 0x1_0000 }
  function Low32(v: int): u32 { v % 0x1_0000_0000 }

  /** A bit pattern read back as a signed (two's-complement) value. */
  function AsI8(b: byte): i8 { if b < 0x80 then b else b - 0x100 }
  function AsI16(u: u16): i16 { if u < 0x8000 then u else u - 0x1_0000 }
  function AsI32(u: u32): i32 { if u < 0x8000_0000 then u else u - 0x1_0000_0000 }

  /** Java `int` arithmetic and C conversions to `int16_t`: keep the low bits, read them as signed. */
  function Wrap16(v: int): i16 { AsI16(Low16(v)) }
  function Wrap32(v: int): i32 { AsI32(Low32(v)) }

  /** C integer division: the quotient is truncated toward zero (Dafny's `/`
      is Euclidean, which differs for a negative dividend). */
  function CDiv(a: int, d: int): int
    requires d > 0
  {
    if a >= 0 then a / d else -((-a) / d)
  }

  /** The C quotient leaves a remainder smaller than the divisor and with the
      sign of the dividend. */
  lemma CDivTruncates(a: int, d: int)
    requires d > 0
    ensures var rem := a - CDiv(a, d) * d;
      -d < rem < d && (a >= 0 ==> rem >= 0) && (a < 0 ==> rem <= 0)
  {
    if a < 0 {
      var q := (-a) / d;
      assert -a == q * d + (-a) % d;
      assert a - CDiv(a, d) * d == -((-a) % d);
    }
  }

  lemma AsI8Low8(v: i8)
    ensures AsI8(Low8(v)) == v
  {
  }

  lemma AsI16Low16(v: i16)
    ensures AsI16(Low16(v)) == v
  {
  }

  lemma AsI32Low32(v: i32)
    ensures AsI32(Low32(v)) == v
  {
  }

  lemma Low16AsI16(u: u16)
    ensures Low16(AsI16(u)) == u
  {
  }

  /** Values that differ by a multiple of 65536 have the same low 16 bits. */
  lemma {:induction false} Low16Periodic(v: int, k: int)
    ensures Low16(v + 0x1_0000 * k) == Low16(v)
  {
    var q := v / 0x1_0000;
    var r := v % 0x1_0000;
    assert v + 0x1_0000 * k == 0x1_0000 * (q + k) + r;
    ModOfMultiplePlus(q + k, r, 0x1_0000);
  }

  /** `d * q + r` with `0 <= r < d` leaves remainder `r`. */
  lemma ModOfMultiplePlus(q: int, r: int, d: int)
    requires 0 <= r < d
    ensures (d * q + r) % d == r && (d * q + r) / d == q
  {
    var v := d * q + r;
    var q', r' := v / d, v % d;
    assert d * q' + r' == d * q + r;
    if q' > q {
      assert d * q' >= d * (q + 1) by { MulMono(d, q + 1, q'); }
    } else if q' < q {
      assert d * q >= d * (q' + 1) by { MulMono(d, q' + 1, q); }
    }
  }

  lemma MulMono(d: int, a: int, b: int)
    requires 0 < d && a <= b
    ensures d * a <= d * b
  {
  }

  // ---------------------------------------------------------------------
  // Big-endian decode (be16 / be32) and encode (the bytes wr_be16 / wr_be32 store)

  /** The unsigned big-endian value of the first two bytes. */
  function Be16(p: seq<byte>): u16
    requires |p| >= 2
  {
    p[0] as int * 0x100 + p[1]
  }

  /** The unsigned big-endian value of the first four bytes. */
  function Be32(p: seq<byte>): u32
    requires |p| >= 4
  {
    p[0] as int * 0x100_0000 + p[1] as int * 0x1_0000 + p[2] as int * 0x100 + p[3]
  }

  /** Two bytes, most significant first. */
  function Enc16(v: u16): (r: seq<byte>)
    ensures |r| == 2
  {
    [v / 0x100, v % 0x100]
  }

  /** Four bytes, most significant first. */
  function Enc32(v: u32): (r: seq<byte>)
    ensures |r| == 4
  {
    [v / 0x100_0000, (v / 0x1_0000) % 0x100, (v / 0x100) % 0x100, v % 0x100]
  }

  /** The two bytes `(byte)(x >> 8), (byte)x` that Java and C store for a 16-bit field. */
  function ShiftBytes16(x: int): seq<byte>
  {
    [Low8(x / 0x100), Low8(x)]
  }

  lemma Be16Enc16(v: u16)
    ensures Be16(Enc16(v)) == v
  {
  }

  lemma Enc16Be16(p: seq<byte>)
    requires |p| >= 2
    ensures Enc16(Be16(p)) == p[..2]
  {
    ModOfMultiplePlus(p[0], p[1], 0x100);
  }

  lemma {:induction false} Be32Enc32(v: u32)
    ensures Be32(Enc32(v)) == v
  {
    var b0, b1, b2, b3 := v / 0x100_0000, (v / 0x1_0000) % 0x100, (v / 0x100) % 0x100, v % 0x100;
    var q1, q2 := v / 0x100, v / 0x1_0000;
    assert v == q1 * 0x100 + b3;
    assert q1 == q2 * 0x100 + b2 by { DivDiv(v, 0x100, 0x100); }
    assert q2 == b0 * 0x100 + b1 by { DivDiv(v, 0x100, 0x1_0000); }
  }

  lemma DivDiv(v: nat, a: nat, b: nat)
    requires 0 < a && 0 < b
    ensures v / (a * b) == (v / a) / b
  {
    var q := (v / a) / b;
    var r := (v / a) % b;
    assert v / a == q * b + r;
    assert v == (q * b + r) * a + v % a;
    assert v == (a * b) * q + (r * a + v % a);
    assert r * a + v % a < a * b by {
      assert r * a <= (b - 1) * a by { MulMono(a, r, b - 1); }
    }
    ModOfMultiplePlus(q, r * a + v % a, a * b);
  }

  lemma {:induction false} Enc32Be32(p: seq<byte>)
    requires |p| >= 4
    ensures Enc32(Be32(p)) == p[..4]
  {
    var v := Be32(p);
    var t: int := p[0] as int * 0x1_0000 + p[1] as int * 0x100 + p[2];
    assert v == 0x100 * t + p[3];
    ModOfMultiplePlus(t, p[3], 0x100);
    var u: int := p[0] as int * 0x100 + p[1];
    assert t == 0x100 * u + p[2];
    ModOfMultiplePlus(u, p[2], 0x100);
    ModOfMultiplePlus(p[0], p[1], 0x100);
    DivDiv(v, 0x100, 0x100);
    DivDiv(v, 0x100, 0x1_0000);
    assert v / 0x1_0000 == u;
    assert v / 0x100_0000 == p[0];
  }

  /** The bytes Java's `(byte)(x >> 8), (byte)x` produce are the big-endian
      encoding of the low 16 bits of `x`. */
  lemma {:induction false} ShiftBytes16IsEnc16(x: int)
    ensures ShiftBytes16(x) == Enc16(Low16(x))
  {
    var q := x / 0x100;
    var r := x % 0x100;
    assert x == 0x100 * q + r;
    var a := q % 0x100;
    var b := q / 0x100;
    assert q == 0x100 * b + a;
    assert x == 0x1_0000 * b + (0x100 * a + r);
    ModOfMultiplePlus(b, 0x100 * a + r, 0x1_0000);
    assert Low16(x) == 0x100 * a + r;
    ModOfMultiplePlus(a, r, 0x100);
  }

  /** The decoded 16-bit field of `ShiftBytes16(x)` is `x` itself when `x` fits in an `int16`. */
  lemma ShiftBytes16Decodes(x: i16)
    ensures AsI16(Be16(ShiftBytes16(x))) == x
  {
    ShiftBytes16IsEnc16(x);
    Be16Enc16(Low16(x));
    AsI16Low16(x);
  }

  // ---------------------------------------------------------------------
  // An independent reference: big-endian value of any number of bytes

  function Pow256(n: nat): (r: nat)
    ensures r >= 1
  {
    if n == 0 then 1 else 0x100 * Pow256(n - 1)
  }

  /** Sum of `s[i] * 256^(|s|-1-i)`. */
  function BeValue(s: seq<byte>): nat
  {
    if s == [] then 0 else BeValue(s[..|s| - 1]) * 0x100 + s[|s| - 1]
  }

  /** The `n` low-order bytes of `v`, most significant first. */
  function BeBytes(v: nat, n: nat): seq<byte>
  {
    if n == 0 then [] else BeBytes(v / 0x100, n - 1) + [v % 0x100]
  }

  /** Encoding `n` bytes and reading them back yields the value modulo `256^n`. */
  lemma {:induction false} BeValueBeBytes(v: nat, n: nat)
    ensures |BeBytes(v, n)| == n
    ensures BeValue(BeBytes(v, n)) == v % Pow256(n)
  {
    if n > 0 {
      BeValueBeBytes(v / 0x100, n - 1);
      var s := BeBytes(v, n);
      assert s[..|s| - 1] == BeBytes(v / 0x100, n - 1);
      DivModStep(v, Pow256(n - 1));
    }
  }

  /** Splitting off the last byte: `v mod 256m` from `v / 256 mod m` and `v mod 256`. */
  lemma DivModStep(v: nat, m: nat)
    requires m >= 1
    ensures v % (0x100 * m) == ((v / 0x100) % m) * 0x100 + v % 0x100
  {
    var q := v / 0x100;
    SplitMod(v, q, v % 0x100, m, q / m, q % m);
  }

  lemma SplitMod(v: int, q: int, r: int, m: int, a: int, b: int)
    requires m >= 1 && 0 <= r < 0x100 && 0 <= b < m
    requires v == 0x100 * q + r && q == m * a + b
    ensures v % (0x100 * m) == b * 0x100 + r
  {
    assert v == (0x100 * m) * a + (b * 0x100 + r);
    assert b * 0x100 + r < 0x100 * m by { MulMono(0x100, b, m - 1); }
    ModOfMultiplePlus(a, b * 0x100 + r, 0x100 * m);
  }

  /** `be16` and `be32` are the weighted byte sums over exactly 2 and 4 bytes. */
  lemma Be16IsBeValue(p: seq<byte>)
    requires |p| >= 2
    ensures Be16(p) == BeValue(p[..2])
  {
    BeValueStep(p, 1);
    BeValueStep(p, 2);
  }

  lemma Be32IsBeValue(p: seq<byte>)
    requires |p| >= 4
    ensures Be32(p) == BeValue(p[..4])
  {
    BeValueStep(p, 1);
    BeValueStep(p, 2);
    BeValueStep(p, 3);
    BeValueStep(p, 4);
  }

  lemma BeValueStep(p: seq<byte>, k: nat)
    requires 1 <= k <= |p|
    ensures BeValue(p[..k]) == BeValue(p[..k - 1]) * 0x100 + p[k - 1]
  {
    assert p[..k][..k - 1] == p[..k - 1];
  }

  /** The writers store exactly the two / four low-order bytes, most significant first. */
  lemma Enc16IsBeBytes(v: u16)
    ensures Enc16(v) == BeBytes(v, 2)
  {
    assert BeBytes(v, 2) == BeBytes(v / 0x100, 1) + [v % 0x100];
    assert BeBytes(v / 0x100, 1) == BeBytes(v / 0x100 / 0x100, 0) + [(v / 0x100) % 0x100];
  }

  lemma {:induction false} Enc32IsBeBytes(v: u32)
    ensures Enc32(v) == BeBytes(v, 4)
  {
    DivDiv(v, 0x100, 0x100);
    DivDiv(v, 0x1_0000, 0x100);
    var q1, q2, q3 := v / 0x100, v / 0x1_0000, v / 0x100_0000;
    assert q1 / 0x100 == q2 && q2 / 0x100 == q3;
    assert BeBytes(q3, 1) == BeBytes(q3 / 0x100, 0) + [q3 % 0x100];
    assert q3 % 0x100 == q3;
    assert BeBytes(q2, 2) == BeBytes(q3, 1) + [q2 % 0x100];
    assert BeBytes(q1, 3) == BeBytes(q2, 2) + [q1 % 0x100];
    assert BeBytes(v, 4) == BeBytes(q1, 3) + [v % 0x100];
  }

  /** Concatenation is associative. */
  lemma AppendAssoc<T>(a: seq<T>, b: seq<T>, c: seq<T>)
    ensures a + (b + c) == a + b + c
  {
  }
}
