/** The version 7 UUIDs of the id generator, laid out byte by byte as section 5.7
    of RFC 9562 prescribes, and the order that their bytes and text keep. */
module Uuid {

  type Byte = x: int | 0 <= x < 256

  type Word32 = x: int | 0 <= x < 0x1_0000_0000

  /** The number a byte sequence spells, most significant byte first. */
  ghost function Value(bs: seq<Byte>): nat {
    if bs == [] then 0 else Value(bs[..|bs| - 1]) * 256 + bs[|bs| - 1]
  }

  ghost function Pow256(n: nat): nat {
    if n == 0 then 1 else 256 * Pow256(n - 1)
  }

  lemma {:induction false} ValueAppend(xs: seq<Byte>, ys: seq<Byte>)
    ensures Value(xs + ys) == Value(xs) * Pow256(|ys|) + Value(ys)
  {
    if ys == [] {
      assert xs + ys == xs;
    } else {
      var n := |ys| - 1;
      ValueAppend(xs, ys[..n]);
      assert (xs + ys)[..|xs + ys| - 1] == xs + ys[..n];
      assert Value(xs) * Pow256(n) * 256 == Value(xs) * Pow256(|ys|);
    }
  }

  lemma Value2(a: Byte, b: Byte)
    ensures Value([a, b]) == a * 0x100 + b
  {
    assert [a, b][..1] == [a];
    assert Value([a]) == a by { assert [a][..0] == []; }
  }

  lemma Value4(a: Byte, b: Byte, c: Byte, d: Byte)
    ensures Value([a, b, c, d]) == a * 0x100_0000 + b * 0x1_0000 + c * 0x100 + d
  {
    Value2(a, b);
    assert [a, b, c][..2] == [a, b];
    assert [a, b, c, d][..3] == [a, b, c];
  }

  /** `w >> 8 * n`. */
  function Shr(w: int, n: nat): int
    decreases n
  {
    if n == 0 then w else Shr(w / 256, n - 1)
  }

  /** `(w >> 8 * n) & 0xFF`. */
  function ByteOf(w: int, n: nat): Byte {
    Shr(w, n) % 256
  }

  /** `(b & 0x0F) | 0x70`. */
  function SetVersion(b: Byte): Byte {
    b % 16 + 0x70
  }

  /** `(b & 0x3F) | 0x80`. */
  function SetVariant(b: Byte): Byte {
    b % 64 + 0x80
  }

  lemma VersionBits(b: bv8)
    ensures (b & 0x0F) | 0x70 == b % 16 + 0x70
  {
  }

  lemma VariantBits(b: bv8)
    ensures (b & 0x3F) | 0x80 == b % 64 + 0x80
  {
  }

  lemma VersionMask(b: bv8)
    ensures ((b & 0x0F) | 0x70) as int == SetVersion(b as int)
  {
    VersionBits(b);
  }

  lemma VariantMask(b: bv8)
    ensures ((b & 0x3F) | 0x80) as int == SetVariant(b as int)
  {
    VariantBits(b);
  }

  /** The arithmetic is the code's masks, on every byte. */
  lemma MasksAreArithmetic(b: bv8)
    ensures ((b & 0x0F) | 0x70) as int == SetVersion(b as int)
    ensures ((b & 0x3F) | 0x80) as int == SetVariant(b as int)
  {
    VersionMask(b);
    VariantMask(b);
  }

  /** The low n bytes of w, most significant first. */
  ghost function BigEndian(w: int, n: nat): (bs: seq<Byte>)
    ensures |bs| == n
    decreases n
  {
    if n == 0 then [] else BigEndian(w / 256, n - 1) + [w % 256]
  }

  lemma {:induction false} BigEndianAt(w: int, n: nat, i: nat)
    requires i < n
    ensures BigEndian(w, n)[i] == ByteOf(w, n - 1 - i)
    decreases n
  {
    if i < n - 1 {
      BigEndianAt(w / 256, n - 1, i);
    }
  }

  lemma ModUnique(x: int, m: nat, k: int, y: nat)
    requires m > 0 && x == m * k + y && y < m
    ensures x % m == y && x / m == k
  {
    var d := k - x / m;
    assert m * d == x % m - y;
    MulSign(m, d);
  }

  lemma MulSign(m: nat, d: int)
    ensures d > 0 ==> m * d >= m
    ensures d < 0 ==> m * d + m <= 0
  {
  }

  lemma ModStep(w: int, p: nat)
    requires p > 0
    ensures w / 256 % p * 256 + w % 256 == w % (256 * p)
  {
    var q := w / 256;
    var k, y := q / p, q % p;
    assert q == p * k + y;
    assert 256 * (p * k) == (256 * p) * k;
    ModUnique(w, 256 * p, k, y * 256 + w % 256);
  }

  lemma {:induction false} BigEndianValue(w: int, n: nat)
    ensures Pow256(n) > 0 && Value(BigEndian(w, n)) == w % Pow256(n)
    decreases n
  {
    if n > 0 {
      BigEndianValue(w / 256, n - 1);
      assert BigEndian(w, n)[..n - 1] == BigEndian(w / 256, n - 1);
      ModStep(w, Pow256(n - 1));
    }
  }

  lemma Powers()
    ensures Pow256(2) == 0x1_0000 && Pow256(4) == 0x1_0000_0000 && Pow256(6) == 0x1_0000_0000_0000
  {
    assert Pow256(1) == 256;
    assert Pow256(2) == 0x1_0000;
    assert Pow256(3) == 0x100_0000;
    assert Pow256(4) == 0x1_0000_0000;
    assert Pow256(5) == 0x100_0000_0000;
  }

  lemma {:induction false} ValueBound(bs: seq<Byte>)
    ensures Value(bs) < Pow256(|bs|)
  {
    if bs != [] {
      ValueBound(bs[..|bs| - 1]);
    }
  }

  /*------------------------------ Layout ------------------------------*/

  const TIMESTAMPS := 0x1_0000_0000_0000

  /** The 12 and the 62 random bits that survive. */
  ghost function RandA(rand1: Word32): nat {
    rand1 / 0x1_0000 % 0x1000
  }

  ghost function RandB(rand1: Word32, rand2: Word32, rand3: Word32): nat {
    rand1 % 0x4000 * 0x1_0000_0000_0000 + rand2 * 0x1_0000 + rand3 / 0x1_0000
  }

  /** unix_ts_ms (48 bits), version 7 (4), rand_a (12), variant 2 (2), rand_b (62). */
  ghost function Rfc9562(timestamp: nat, randA: nat, randB: nat): nat {
    timestamp * 0x1_0000_0000_0000_0000_0000 + 7 * 0x1000_0000_0000_0000_0000
      + randA * 0x1_0000_0000_0000_0000 + 2 * 0x4000_0000_0000_0000 + randB
  }

  lemma Fields(a: Byte, b: Byte, c: Byte, d: Byte)
    ensures var r := a * 0x100_0000 + b * 0x1_0000 + c * 0x100 + d;
      && r < 0x1_0000_0000
      && RandA(r) == a % 16 * 0x100 + b
      && r % 0x4000 == c % 64 * 0x100 + d
  {
    var r := a * 0x100_0000 + b * 0x1_0000 + c * 0x100 + d;
    assert r / 0x1_0000 == a * 0x100 + b;
    ModUnique(a * 0x100 + b, 0x1000, a / 16, a % 16 * 0x100 + b);
    ModUnique(r, 0x4000, a * 0x400 + b * 4 + c / 64, c % 64 * 0x100 + d);
  }

  lemma WordBytes(r: Word32, bs: seq<Byte>)
    requires bs == BigEndian(r, 4)
    ensures r == bs[0] as int * 0x100_0000 + bs[1] as int * 0x1_0000 + bs[2] as int * 0x100 + bs[3] as int
  {
    BigEndianValue(r, 4);
    Powers();
    assert bs == [bs[0], bs[1], bs[2], bs[3]];
    Value4(bs[0], bs[1], bs[2], bs[3]);
  }

  /** Masking bytes 0 and 2 of a word keeps its fields and sets theirs. */
  lemma MaskedWord(r: Word32, bs: seq<Byte>)
    requires bs == BigEndian(r, 4)
    ensures Value([SetVersion(bs[0]), bs[1], SetVariant(bs[2]), bs[3]])
         == 7 * 0x1000_0000 + RandA(r) * 0x1_0000 + 2 * 0x4000 + r % 0x4000
  {
    WordBytes(r, bs);
    Fields(bs[0], bs[1], bs[2], bs[3]);
    Value4(SetVersion(bs[0]), bs[1], SetVariant(bs[2]), bs[3]);
  }

  /** The bytes of the UUID, field by field. */
  ghost function Layout(timestamp: int, rand1: Word32, rand2: Word32, rand3: Word32): seq<Byte> {
    BigEndian(timestamp, 6) + Masked(BigEndian(rand1, 4)) + BigEndian(rand2, 4) + BigEndian(Shr(rand3, 2), 2)
  }

  ghost function Masked(bs: seq<Byte>): seq<Byte>
    requires |bs| == 4
  {
    [SetVersion(bs[0]), bs[1], SetVariant(bs[2]), bs[3]]
  }

  lemma Shift4(xs: seq<Byte>, ys: seq<Byte>)
    requires |ys| == 4
    ensures Value(xs + ys) == Value(xs) * 0x1_0000_0000 + Value(ys)
  {
    ValueAppend(xs, ys);
    Powers();
  }

  lemma Shift2(xs: seq<Byte>, ys: seq<Byte>)
    requires |ys| == 2
    ensures Value(xs + ys) == Value(xs) * 0x1_0000 + Value(ys)
  {
    ValueAppend(xs, ys);
    Powers();
  }

  lemma ClockBytes(timestamp: int)
    ensures Value(BigEndian(timestamp, 6)) == timestamp % TIMESTAMPS
  {
    BigEndianValue(timestamp, 6);
    Powers();
  }

  lemma WholeWord(w: Word32)
    ensures Value(BigEndian(w, 4)) == w
  {
    BigEndianValue(w, 4);
    Powers();
  }

  lemma UpperHalf(w: Word32)
    ensures Value(BigEndian(Shr(w, 2), 2)) == w / 0x1_0000
  {
    BigEndianValue(Shr(w, 2), 2);
    Powers();
    assert Shr(w, 2) == Shr(w / 256, 1) == w / 256 / 256;
  }

  /** They are the fields of the RFC: the low 48 bits of the clock, the version, the
      variant, and 74 of the 96 random bits. */
  lemma LayoutIsRfc9562(timestamp: int, rand1: Word32, rand2: Word32, rand3: Word32)
    ensures |Layout(timestamp, rand1, rand2, rand3)| == 16
    ensures Value(Layout(timestamp, rand1, rand2, rand3)) ==
            Rfc9562(timestamp % TIMESTAMPS, RandA(rand1), RandB(rand1, rand2, rand3))
  {
    var x, y := BigEndian(timestamp, 6), Masked(BigEndian(rand1, 4));
    var z, w := BigEndian(rand2, 4), BigEndian(Shr(rand3, 2), 2);
    ClockBytes(timestamp);
    MaskedWord(rand1, BigEndian(rand1, 4));
    WholeWord(rand2);
    UpperHalf(rand3);
    Shift2(x + y + z, w);
    Shift4(x + y, z);
    Shift4(x, y);
  }

  lemma SixBytes(w: int)
    ensures BigEndian(w, 6) == [ByteOf(w, 5), ByteOf(w, 4), ByteOf(w, 3), ByteOf(w, 2), ByteOf(w, 1), ByteOf(w, 0)]
  {
    BigEndianAt(w, 6, 0);
    BigEndianAt(w, 6, 1);
    BigEndianAt(w, 6, 2);
    BigEndianAt(w, 6, 3);
    BigEndianAt(w, 6, 4);
    BigEndianAt(w, 6, 5);
  }

  lemma FourBytes(w: int)
    ensures BigEndian(w, 4) == [ByteOf(w, 3), ByteOf(w, 2), ByteOf(w, 1), ByteOf(w, 0)]
  {
    BigEndianAt(w, 4, 0);
    BigEndianAt(w, 4, 1);
    BigEndianAt(w, 4, 2);
    BigEndianAt(w, 4, 3);
  }

  lemma UpperBytes(w: int)
    ensures BigEndian(Shr(w, 2), 2) == [ByteOf(w, 3), ByteOf(w, 2)]
  {
    BigEndianAt(Shr(w, 2), 2, 0);
    BigEndianAt(Shr(w, 2), 2, 1);
    assert Shr(w, 2) == Shr(w / 256, 1) == w / 256 / 256;
    assert Shr(w, 3) == Shr(w / 256, 2) == Shr(w / 256 / 256, 1);
  }

  ghost predicate Filled(bs: seq<Byte>, timestamp: int, rand1: Word32, rand2: Word32, rand3: Word32) {
    && |bs| == 16
    && bs[0] == ByteOf(timestamp, 5) && bs[1] == ByteOf(timestamp, 4) && bs[2] == ByteOf(timestamp, 3)
    && bs[3] == ByteOf(timestamp, 2) && bs[4] == ByteOf(timestamp, 1) && bs[5] == ByteOf(timestamp, 0)
    && bs[6] == ByteOf(rand1, 3) && bs[7] == ByteOf(rand1, 2) && bs[8] == ByteOf(rand1, 1) && bs[9] == ByteOf(rand1, 0)
    && bs[10] == ByteOf(rand2, 3) && bs[11] == ByteOf(rand2, 2)
    && bs[12] == ByteOf(rand2, 1) && bs[13] == ByteOf(rand2, 0)
    && bs[14] == ByteOf(rand3, 3) && bs[15] == ByteOf(rand3, 2)
  }

  ghost predicate Assigned(bs: seq<Byte>, timestamp: int, rand1: Word32, rand2: Word32, rand3: Word32) {
    && |bs| == 16 && bs[6] == SetVersion(ByteOf(rand1, 3)) && bs[8] == SetVariant(ByteOf(rand1, 1))
    && Filled(bs[6 := ByteOf(rand1, 3)][8 := ByteOf(rand1, 1)], timestamp, rand1, rand2, rand3)
  }

  lemma ClockSlice(bs: seq<Byte>, timestamp: int, rand1: Word32, rand2: Word32, rand3: Word32)
    requires Assigned(bs, timestamp, rand1, rand2, rand3)
    ensures bs[..6] == BigEndian(timestamp, 6)
  {
    SixBytes(timestamp);
  }

  lemma MaskedSlice(bs: seq<Byte>, timestamp: int, rand1: Word32, rand2: Word32, rand3: Word32)
    requires Assigned(bs, timestamp, rand1, rand2, rand3)
    ensures bs[6..10] == Masked(BigEndian(rand1, 4))
  {
    FourBytes(rand1);
  }

  lemma WordSlice(bs: seq<Byte>, timestamp: int, rand1: Word32, rand2: Word32, rand3: Word32)
    requires Assigned(bs, timestamp, rand1, rand2, rand3)
    ensures bs[10..14] == BigEndian(rand2, 4)
  {
    FourBytes(rand2);
  }

  lemma UpperSlice(bs: seq<Byte>, timestamp: int, rand1: Word32, rand2: Word32, rand3: Word32)
    requires Assigned(bs, timestamp, rand1, rand2, rand3)
    ensures bs[14..] == BigEndian(Shr(rand3, 2), 2)
  {
    UpperBytes(rand3);
  }

  lemma Slices(bs: seq<Byte>)
    requires |bs| == 16
    ensures bs == bs[..6] + bs[6..10] + bs[10..14] + bs[14..]
  {
  }

  lemma AssignedIsLayout(bs: seq<Byte>, timestamp: int, rand1: Word32, rand2: Word32, rand3: Word32)
    requires Assigned(bs, timestamp, rand1, rand2, rand3)
    ensures bs == Layout(timestamp, rand1, rand2, rand3)
  {
    ClockSlice(bs, timestamp, rand1, rand2, rand3);
    MaskedSlice(bs, timestamp, rand1, rand2, rand3);
    WordSlice(bs, timestamp, rand1, rand2, rand3);
    UpperSlice(bs, timestamp, rand1, rand2, rand3);
    Slices(bs);
  }

  /** The buffer before version and variant are set: the clock, then random bytes. */
  method Fill(timestamp: int, rand1: Word32, rand2: Word32, rand3: Word32) returns (buffer: array<Byte>)
    ensures fresh(buffer) && buffer.Length == 16
    ensures Filled(buffer[..], timestamp, rand1, rand2, rand3)
  {
    buffer := new Byte[16];
    buffer[0] := ByteOf(timestamp, 5);
    buffer[1] := ByteOf(timestamp, 4);
    buffer[2] := ByteOf(timestamp, 3);
    buffer[3] := ByteOf(timestamp, 2);
    buffer[4] := ByteOf(timestamp, 1);
    buffer[5] := ByteOf(timestamp, 0);

    buffer[6] := ByteOf(rand1, 3);
    buffer[7] := ByteOf(rand1, 2);
    buffer[8] := ByteOf(rand1, 1);
    buffer[9] := ByteOf(rand1, 0);

    buffer[10] := ByteOf(rand2, 3);
    buffer[11] := ByteOf(rand2, 2);
    buffer[12] := ByteOf(rand2, 1);
    buffer[13] := ByteOf(rand2, 0);

    buffer[14] := ByteOf(rand3, 3);
    buffer[15] := ByteOf(rand3, 2);
  }

  lemma MaskingAssigns(filled: seq<Byte>, bs: seq<Byte>, timestamp: int, rand1: Word32, rand2: Word32, rand3: Word32)
    requires Filled(filled, timestamp, rand1, rand2, rand3)
    requires bs == filled[6 := SetVersion(filled[6])][8 := SetVariant(filled[8])]
    ensures Assigned(bs, timestamp, rand1, rand2, rand3)
    ensures bs[6] / 16 == 7 && bs[8] / 64 == 2
  {
    assert bs[6 := filled[6]][8 := filled[8]] == filled;
  }

  /** GenerateUUID from the clock and three random words, in place: shifts and masks
      are division and remainder by powers of two. Version and variant hold
      whatever the clock says. */
  method GenerateUUID(timestamp: int, rand1: Word32, rand2: Word32, rand3: Word32) returns (buffer: array<Byte>)
    ensures fresh(buffer) && buffer.Length == 16
    ensures buffer[..] == Layout(timestamp, rand1, rand2, rand3)
    ensures Value(buffer[..]) == Rfc9562(timestamp % TIMESTAMPS, RandA(rand1), RandB(rand1, rand2, rand3))
    ensures buffer[6] / 16 == 7 && buffer[8] / 64 == 2
  {
    buffer := Fill(timestamp, rand1, rand2, rand3);
    ghost var filled := buffer[..];

    buffer[6] := SetVersion(buffer[6]);
    buffer[8] := SetVariant(buffer[8]);

    MaskingAssigns(filled, buffer[..], timestamp, rand1, rand2, rand3);
    AssignedIsLayout(buffer[..], timestamp, rand1, rand2, rand3);
    LayoutIsRfc9562(timestamp, rand1, rand2, rand3);
  }

  /** The layout loses nothing of its fields: from the number one reads back the
      timestamp, the version, the variant and the random bits. */
  lemma LayoutDecodes(ts: nat, a: nat, b: nat)
    requires ts < TIMESTAMPS && a < 0x1000 && b < 0x4000_0000_0000_0000
    ensures var v := Rfc9562(ts, a, b);
      && v / 0x1_0000_0000_0000_0000_0000 == ts
      && v / 0x1000_0000_0000_0000_0000 % 16 == 7
      && v / 0x1_0000_0000_0000_0000 % 0x1000 == a
      && v / 0x4000_0000_0000_0000 % 4 == 2
      && v % 0x4000_0000_0000_0000 == b
  {
    var v := Rfc9562(ts, a, b);
    var r62, r64 := b, 2 * 0x4000_0000_0000_0000 + b;
    var r76 := a * 0x1_0000_0000_0000_0000 + r64;
    ModUnique(v, 0x1_0000_0000_0000_0000_0000, ts, 7 * 0x1000_0000_0000_0000_0000 + r76);
    ModUnique(v, 0x1000_0000_0000_0000_0000, ts * 16 + 7, r76);
    ModUnique(ts * 16 + 7, 16, ts, 7);
    var above64 := ts * 0x1_0000 + 7 * 0x1000 + a;
    ModUnique(v, 0x1_0000_0000_0000_0000, above64, r64);
    ModUnique(above64, 0x1000, ts * 16 + 7, a);
    ModUnique(v, 0x4000_0000_0000_0000, above64 * 4 + 2, r62);
    ModUnique(above64 * 4 + 2, 4, above64, 2);
  }

  lemma RandBounds(rand1: Word32, rand2: Word32, rand3: Word32)
    ensures RandA(rand1) < 0x1000 && RandB(rand1, rand2, rand3) < 0x4000_0000_0000_0000
  {
  }

  /** Two UUIDs are equal exactly when their clocks agree in the low 48 bits and
      they drew the same 74 bits. */
  lemma EqualExactlyOnSameFields(ts1: int, a1: Word32, b1: Word32, c1: Word32,
                                 ts2: int, a2: Word32, b2: Word32, c2: Word32)
    ensures Layout(ts1, a1, b1, c1) == Layout(ts2, a2, b2, c2) <==>
      ts1 % TIMESTAMPS == ts2 % TIMESTAMPS && RandA(a1) == RandA(a2) && RandB(a1, b1, c1) == RandB(a2, b2, c2)
  {
    LayoutIsRfc9562(ts1, a1, b1, c1);
    LayoutIsRfc9562(ts2, a2, b2, c2);
    RandBounds(a1, b1, c1);
    RandBounds(a2, b2, c2);
    LayoutDecodes(ts1 % TIMESTAMPS, RandA(a1), RandB(a1, b1, c1));
    LayoutDecodes(ts2 % TIMESTAMPS, RandA(a2), RandB(a2, b2, c2));
    if Value(Layout(ts1, a1, b1, c1)) == Value(Layout(ts2, a2, b2, c2)) {
      ValueInjective(Layout(ts1, a1, b1, c1), Layout(ts2, a2, b2, c2));
    }
  }

  lemma {:induction false} ValueInjective(x: seq<Byte>, y: seq<Byte>)
    requires |x| == |y| && Value(x) == Value(y)
    ensures x == y
  {
    if x != [] {
      var n := |x| - 1;
      assert x[n] == y[n] && Value(x[..n]) == Value(y[..n]);
      ValueInjective(x[..n], y[..n]);
      assert x == x[..n] + [x[n]] && y == y[..n] + [y[n]];
    }
  }

  /*------------------------------ Order ------------------------------*/

  /** Lexicographic order. */
  ghost predicate Before(x: seq<int>, y: seq<int>) {
    y != [] && (x == [] || x[0] < y[0] || (x[0] == y[0] && Before(x[1..], y[1..])))
  }

  lemma {:induction false} ValueFromFront(x: seq<Byte>)
    requires x != []
    ensures Value(x) == x[0] as int * Pow256(|x| - 1) + Value(x[1..])
  {
    assert x == [x[0]] + x[1..];
    ValueAppend([x[0]], x[1..]);
    assert Value([x[0]]) == x[0] by { assert [x[0]][..0] == []; }
  }

  lemma HeadDecides(a: nat, b: nat, p: nat, v: nat, w: nat)
    requires a < b && v < p
    ensures a * p + v < b * p + w
  {
    var d := b - a;
    assert b * p == a * p + d * p;
    MulSign(p, d);
  }

  /** Bytes of equal length are in lexicographic order exactly when their values are in order. */
  lemma {:induction false} OrderIsValueOrder(x: seq<Byte>, y: seq<Byte>)
    requires |x| == |y|
    ensures Before(x, y) <==> Value(x) < Value(y)
  {
    if x != [] {
      ValueFromFront(x);
      ValueFromFront(y);
      ValueBound(x[1..]);
      ValueBound(y[1..]);
      var p := Pow256(|x| - 1);
      if x[0] < y[0] {
        HeadDecides(x[0], y[0], p, Value(x[1..]), Value(y[1..]));
      } else if y[0] < x[0] {
        HeadDecides(y[0], x[0], p, Value(y[1..]), Value(x[1..]));
      } else {
        OrderIsValueOrder(x[1..], y[1..]);
      }
    }
  }

  function HexCode(n: int): int
    requires 0 <= n < 16
  {
    if n < 10 then '0' as int + n else 'a' as int + n - 10
  }

  /** The text of section 4, as character codes: two lower-case hexadecimal digits
      a byte, and a hyphen before bytes 4, 6, 8 and 10. `at` numbers the first byte. */
  function Text(bs: seq<Byte>, at: nat): seq<int> {
    if bs == [] then []
    else
      (if at == 4 || at == 6 || at == 8 || at == 10 then ['-' as int] else [])
      + [HexCode(bs[0] / 16), HexCode(bs[0] % 16)] + Text(bs[1..], at + 1)
  }

  lemma BeforePrefix(p: seq<int>, x: seq<int>, y: seq<int>)
    ensures Before(p + x, p + y) <==> Before(x, y)
  {
    if p == [] {
      assert p + x == x && p + y == y;
    } else {
      BeforePrefix(p[1..], x, y);
      assert (p + x)[1..] == p[1..] + x && (p + y)[1..] == p[1..] + y;
    }
  }

  lemma DigitsKeepOrder(a: Byte, b: Byte, tx: seq<int>, ty: seq<int>)
    requires a != b
    ensures Before([HexCode(a / 16), HexCode(a % 16)] + tx, [HexCode(b / 16), HexCode(b % 16)] + ty) <==> a < b
  {
    var x, y := [HexCode(a / 16), HexCode(a % 16)] + tx, [HexCode(b / 16), HexCode(b % 16)] + ty;
    assert x[1..] == [HexCode(a % 16)] + tx && y[1..] == [HexCode(b % 16)] + ty;
    assert a as int == a / 16 * 16 + a % 16 && b as int == b / 16 * 16 + b % 16;
  }

  /** The text keeps the order of the bytes. */
  lemma {:induction false} TextKeepsOrder(x: seq<Byte>, y: seq<Byte>, at: nat)
    requires |x| == |y|
    ensures Before(Text(x, at), Text(y, at)) <==> Before(x, y)
  {
    if x != [] {
      var hyphen := if at == 4 || at == 6 || at == 8 || at == 10 then ['-' as int] else [];
      var dx, dy := [HexCode(x[0] / 16), HexCode(x[0] % 16)], [HexCode(y[0] / 16), HexCode(y[0] % 16)];
      var tx, ty := Text(x[1..], at + 1), Text(y[1..], at + 1);
      TextKeepsOrder(x[1..], y[1..], at + 1);
      assert Text(x, at) == hyphen + (dx + tx) && Text(y, at) == hyphen + (dy + ty);
      BeforePrefix(hyphen, dx + tx, dy + ty);
      if x[0] == y[0] {
        BeforePrefix(dx, tx, ty);
      } else {
        DigitsKeepOrder(x[0], y[0], tx, ty);
      }
    }
  }

  /** Where byte j's digits stand: one hyphen before each of bytes 4, 6, 8 and 10. */
  function Place(j: int): int {
    2 * j + (if j < 4 then 0 else if j < 6 then 1 else if j < 8 then 2 else if j < 10 then 3 else 4)
  }

  /** The same, past the end of what a text from byte `at` has before it. */
  function End(at: int): int {
    if at <= 0 then 0 else Place(at - 1) + 2
  }

  predicate Hyphenated(at: nat) {
    at == 4 || at == 6 || at == 8 || at == 10
  }

  lemma EndStep(at: nat)
    ensures End(at + 1) == End(at) + if Hyphenated(at) then 3 else 2
    ensures Place(at) == End(at + 1) - 2
  {
  }

  /** The digits of byte j of a text from byte `at`, ending where the next byte begins. */
  ghost predicate DigitsEndAt(t: seq<int>, e: int, b: Byte, hyphenated: bool) {
    && 2 <= e <= |t| && t[e - 2] == HexCode(b / 16) && t[e - 1] == HexCode(b % 16)
    && (hyphenated ==> e >= 3 && t[e - 3] == '-' as int)
  }

  lemma HeadDigits(bs: seq<Byte>, at: nat) returns (head: seq<int>)
    requires bs != []
    ensures Text(bs, at) == head + Text(bs[1..], at + 1) && |head| == End(at + 1) - End(at)
    ensures DigitsEndAt(head, |head|, bs[0], Hyphenated(at))
  {
    EndStep(at);
    head := (if Hyphenated(at) then ['-' as int] else []) + [HexCode(bs[0] / 16), HexCode(bs[0] % 16)];
  }

  lemma DigitsShift(head: seq<int>, t: seq<int>, e: int, b: Byte, hyphenated: bool)
    ensures DigitsEndAt(head, e, b, hyphenated) ==> DigitsEndAt(head + t, e, b, hyphenated)
    ensures DigitsEndAt(t, e, b, hyphenated) ==> DigitsEndAt(head + t, |head| + e, b, hyphenated)
  {
  }

  lemma {:induction false} TextLength(bs: seq<Byte>, at: nat)
    ensures |Text(bs, at)| == End(at + |bs|) - End(at)
    decreases |bs|
  {
    if bs != [] {
      var head := HeadDigits(bs, at);
      TextLength(bs[1..], at + 1);
    }
  }

  lemma {:induction false} TextPlaces(bs: seq<Byte>, at: nat, j: nat)
    requires j < |bs|
    ensures DigitsEndAt(Text(bs, at), End(at + j + 1) - End(at), bs[j], Hyphenated(at + j))
    decreases |bs|
  {
    var head := HeadDigits(bs, at);
    var rest := Text(bs[1..], at + 1);
    if j == 0 {
      DigitsShift(head, rest, |head|, bs[0], Hyphenated(at));
    } else {
      TextPlaces(bs[1..], at + 1, j - 1);
      DigitsShift(head, rest, End(at + j + 1) - End(at + 1), bs[j], Hyphenated(at + j));
    }
  }

  function HexValue(c: int): int {
    if c <= '9' as int then c - '0' as int else c - 'a' as int + 10
  }

  predicate IsHex(c: int) {
    '0' as int <= c <= '9' as int || 'a' as int <= c <= 'f' as int
  }

  lemma HexReads(n: int)
    requires 0 <= n < 16
    ensures IsHex(HexCode(n)) && HexValue(HexCode(n)) == n
  {
  }

  lemma ByteReads(bs: seq<Byte>, j: nat)
    requires |bs| == 16 && j < 16
    ensures var t := Text(bs, 0);
      && |t| == 36 && 0 <= Place(j) < 35
      && IsHex(t[Place(j)]) && IsHex(t[Place(j) + 1])
      && bs[j] == HexValue(t[Place(j)]) * 16 + HexValue(t[Place(j) + 1])
      && (Hyphenated(j) ==> Place(j) > 0 && t[Place(j) - 1] == '-' as int)
  {
    TextLength(bs, 0);
    TextPlaces(bs, 0, j);
    HexReads(bs[j] / 16);
    HexReads(bs[j] % 16);
  }

  /** The text form of section 4: 36 characters, hyphens at 8, 13, 18 and 23, lower-case
      hexadecimal digits elsewhere; and it reads back to the sixteen bytes. */
  lemma TextReadsBack(bs: seq<Byte>)
    requires |bs| == 16
    ensures var t := Text(bs, 0);
      && |t| == 36
      && t[8] == t[13] == t[18] == t[23] == '-' as int
      && (forall i :: 0 <= i < 36 && i != 8 && i != 13 && i != 18 && i != 23 ==> IsHex(t[i]))
      && (forall j :: 0 <= j < 16 ==>
            0 <= Place(j) < 35 && bs[j] == HexValue(t[Place(j)]) * 16 + HexValue(t[Place(j) + 1]))
  {
    ByteReads(bs, 4);
    ByteReads(bs, 6);
    ByteReads(bs, 8);
    ByteReads(bs, 10);
    forall i | 0 <= i < 36 && i != 8 && i != 13 && i != 18 && i != 23
      ensures IsHex(Text(bs, 0)[i])
    {
      var before := if i < 8 then 0 else if i < 13 then 1 else if i < 18 then 2 else if i < 23 then 3 else 4;
      var j := (i - before) / 2;
      ByteReads(bs, j);
      assert i == Place(j) || i == Place(j) + 1;
    }
    forall j | 0 <= j < 16
      ensures 0 <= Place(j) < 35
      ensures bs[j] == HexValue(Text(bs, 0)[Place(j)]) * 16 + HexValue(Text(bs, 0)[Place(j) + 1])
    {
      ByteReads(bs, j);
    }
  }

  lemma LaterIsGreater(ts1: nat, a1: nat, b1: nat, ts2: nat, a2: nat, b2: nat)
    requires ts1 < ts2 && a1 < 0x1000 && b1 < 0x4000_0000_0000_0000
    ensures Rfc9562(ts1, a1, b1) < Rfc9562(ts2, a2, b2)
  {
  }

  lemma ValuesInClockOrder(t1: nat, ts1: int, a1: Word32, b1: Word32, c1: Word32,
                           t2: nat, ts2: int, a2: Word32, b2: Word32, c2: Word32)
    requires t1 == ts1 % TIMESTAMPS && t2 == ts2 % TIMESTAMPS && t1 < t2
    ensures |Layout(ts1, a1, b1, c1)| == |Layout(ts2, a2, b2, c2)| == 16
    ensures Value(Layout(ts1, a1, b1, c1)) < Value(Layout(ts2, a2, b2, c2))
  {
    LayoutIsRfc9562(ts1, a1, b1, c1);
    LayoutIsRfc9562(ts2, a2, b2, c2);
    RandBounds(a1, b1, c1);
    LaterIsGreater(t1, RandA(a1), RandB(a1, b1, c1), t2, RandA(a2), RandB(a2, b2, c2));
  }

  /** Ids sort, as bytes and as text, by the low 48 bits of the clocks they were
      generated at. */
  lemma SortsByClock(ts1: int, a1: Word32, b1: Word32, c1: Word32, ts2: int, a2: Word32, b2: Word32, c2: Word32)
    requires ts1 % TIMESTAMPS < ts2 % TIMESTAMPS
    ensures Before(Layout(ts1, a1, b1, c1), Layout(ts2, a2, b2, c2))
    ensures Before(Text(Layout(ts1, a1, b1, c1), 0), Text(Layout(ts2, a2, b2, c2), 0))
  {
    var x, y := Layout(ts1, a1, b1, c1), Layout(ts2, a2, b2, c2);
    ValuesInClockOrder(ts1 % TIMESTAMPS, ts1, a1, b1, c1, ts2 % TIMESTAMPS, ts2, a2, b2, c2);
    OrderIsValueOrder(x, y);
    TextKeepsOrder(x, y, 0);
  }

  lemma LowClock(ts: nat)
    ensures ts < TIMESTAMPS ==> ts % TIMESTAMPS == ts
    ensures TIMESTAMPS <= ts < 2 * TIMESTAMPS ==> ts % TIMESTAMPS == ts - TIMESTAMPS
  {
  }

  /** So an id of a later millisecond sorts after, as long as the clock fits in 48
      bits; when it has just wrapped round, the later id sorts before. */
  lemma LaterSortsAfter(ts1: nat, a1: Word32, b1: Word32, c1: Word32, ts2: nat, a2: Word32, b2: Word32, c2: Word32)
    requires ts1 < ts2 && ts1 < TIMESTAMPS
    ensures var x, y := Layout(ts1, a1, b1, c1), Layout(ts2, a2, b2, c2);
      && (ts2 < TIMESTAMPS ==> Before(x, y) && Before(Text(x, 0), Text(y, 0)))
      && (TIMESTAMPS <= ts2 < TIMESTAMPS + ts1 ==> Before(y, x) && Before(Text(y, 0), Text(x, 0)))
  {
    LowClock(ts1);
    LowClock(ts2);
    if ts2 < TIMESTAMPS {
      SortsByClock(ts1, a1, b1, c1, ts2, a2, b2, c2);
    } else if ts2 < TIMESTAMPS + ts1 {
      SortsByClock(ts2, a2, b2, c2, ts1, a1, b1, c1);
    }
  }

  /** Each id generated at the second clock value comes, as bytes and as text, after
      each one generated at the first, whatever random bits they drew. */
  ghost predicate AlwaysAfter(ts1: int, ts2: int) {
    forall a1, b1, c1, a2, b2, c2 ::
      && Before(Layout(ts1, a1, b1, c1), Layout(ts2, a2, b2, c2))
      && TextBefore(Layout(ts1, a1, b1, c1), Layout(ts2, a2, b2, c2))
  }

  ghost predicate TextBefore(x: seq<Byte>, y: seq<Byte>) {
    Before(Text(x, 0), Text(y, 0))
  }

  /** That is so if and only if the first clock is behind in the low 48 bits: for any
      two clock values, however far apart. */
  lemma SortsAfterExactlyByLowClock(ts1: int, ts2: int)
    ensures AlwaysAfter(ts1, ts2) <==> ts1 % TIMESTAMPS < ts2 % TIMESTAMPS
  {
    if ts1 % TIMESTAMPS < ts2 % TIMESTAMPS {
      forall a1, b1, c1, a2, b2, c2
        ensures Before(Layout(ts1, a1, b1, c1), Layout(ts2, a2, b2, c2))
        ensures TextBefore(Layout(ts1, a1, b1, c1), Layout(ts2, a2, b2, c2))
      {
        SortsByClock(ts1, a1, b1, c1, ts2, a2, b2, c2);
      }
    } else {
      var x, y := Layout(ts1, 0, 0, 0), Layout(ts2, 0, 0, 0);
      LayoutIsRfc9562(ts1, 0, 0, 0);
      LayoutIsRfc9562(ts2, 0, 0, 0);
      assert Value(y) <= Value(x);
      OrderIsValueOrder(x, y);
      assert !Before(x, y);
    }
  }
}
