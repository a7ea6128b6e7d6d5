/** UUIDv7 generation (agent/Sources/VGCore/UUIDv7.swift), read back by the layout of section 5.7 of
    RFC 9562: 48-bit time, version 7, 12 random bits, variant 10, 62 random bits. Shifts and masks
    are written as divisions and remainders. */
module UuidV7 {
  import opened Basics
  import opened TextOrder

  const POW12 := 0x1000
  const POW48 := 0x1_0000_0000_0000
  const POW62 := 0x4000_0000_0000_0000
  const VERSION_FIELD := 0x7000
  const VARIANT_FIELD := 0x8000_0000_0000_0000

  function Pow256(k: nat): nat { if k == 0 then 1 else 256 * Pow256(k - 1) }

  /** The k low bytes of n, most significant first. */
  function BytesOf(n: nat, k: nat): (b: seq<byte>)
    ensures |b| == k
  {
    if k == 0 then [] else BytesOf(n / 256, k - 1) + [n % 256]
  }

  function HexDigit(n: int): char
    requires 0 <= n < 16
  {
    if n < 10 then ('0' as int + n) as char else ('a' as int + n - 10) as char
  }

  function Hex(b: seq<byte>): (s: string)
    ensures |s| == 2 * |b|
  {
    if b == [] then "" else Hex(b[..|b| - 1]) + [HexDigit(b[|b| - 1] / 16), HexDigit(b[|b| - 1] % 16)]
  }

  function Format(b: seq<byte>): string
    requires |b| == 16
  {
    Hex(b[0..4]) + "-" + Hex(b[4..6]) + "-" + Hex(b[6..8]) + "-" + Hex(b[8..10]) + "-" + Hex(b[10..16])
  }

  /** The three fields the generator keeps of its arguments. */
  function Millis(millis: int): nat { millis % POW48 }
  function RandA(a: int): nat { a % POW12 }
  function RandB(b: int): nat { b % POW62 }

  function Layout(millis: int, a: int, b: int): (r: seq<byte>)
    ensures |r| == 16
  {
    BytesOf(Millis(millis), 6) + BytesOf(VERSION_FIELD + RandA(a), 2) + BytesOf(VARIANT_FIELD + RandB(b), 8)
  }

  function Uuid(millis: int, a: int, b: int): string { Format(Layout(millis, a, b)) }

  lemma SixBytes(n: nat)
    ensures BytesOf(n, 6) == [n / 0x100_0000_0000 % 256, n / 0x1_0000_0000 % 256, n / 0x100_0000 % 256,
                              n / 0x1_0000 % 256, n / 0x100 % 256, n % 256]
  {
    TwoBytes(n / 0x1_0000_0000);
    assert n / 256 / 256 == n / 0x1_0000;
    assert n / 0x1_0000 / 256 == n / 0x100_0000 && n / 0x100_0000 / 256 == n / 0x1_0000_0000;
    assert n / 0x1_0000_0000 / 256 == n / 0x100_0000_0000;
    assert BytesOf(n, 4 + 2) == BytesOf(n / 0x1_0000, 4) + [n / 256 % 256, n % 256];
    assert BytesOf(n / 0x1_0000, 4) == BytesOf(n / 0x1_0000_0000, 2) + [n / 0x100_0000 % 256, n / 0x1_0000 % 256];
  }

  lemma TwoBytes(n: nat)
    ensures BytesOf(n, 2) == [n / 256 % 256, n % 256]
  {
    assert BytesOf(n / 256, 1) == BytesOf(n / 256 / 256, 0) + [n / 256 % 256];
  }

  lemma EightBytes(n: nat)
    ensures BytesOf(n, 8) == [n / 0x100_0000_0000_0000 % 256, n / 0x1_0000_0000_0000 % 256,
                              n / 0x100_0000_0000 % 256, n / 0x1_0000_0000 % 256, n / 0x100_0000 % 256,
                              n / 0x1_0000 % 256, n / 0x100 % 256, n % 256]
  {
    var m := n / 0x1_0000;
    SixBytes(m);
    assert n / 256 / 256 == m;
    assert BytesOf(n, 6 + 2) == BytesOf(m, 6) + [n / 256 % 256, n % 256];
    assert m / 0x100 == n / 0x100_0000 && m / 0x1_0000 == n / 0x1_0000_0000;
    assert m / 0x100_0000 == n / 0x100_0000_0000 && m / 0x1_0000_0000 == n / 0x1_0000_0000_0000;
    assert m / 0x100_0000_0000 == n / 0x100_0000_0000_0000;
  }

  function TimeBytes(ms: nat): seq<byte> {
    [ms / 0x100_0000_0000 % 256, ms / 0x1_0000_0000 % 256, ms / 0x100_0000 % 256,
     ms / 0x1_0000 % 256, ms / 0x100 % 256, ms % 256]
  }

  function VersionBytes(a: nat): seq<byte> { [0x70 + a / 0x100 % 16, a % 256] }

  function VariantBytes(b: nat): seq<byte> {
    [0x80 + b / 0x100_0000_0000_0000 % 64, b / 0x1_0000_0000_0000 % 256,
     b / 0x100_0000_0000 % 256, b / 0x1_0000_0000 % 256, b / 0x100_0000 % 256,
     b / 0x1_0000 % 256, b / 0x100 % 256, b % 256]
  }

  method FillTime(bytes: array<byte>, ms: nat)
    requires bytes.Length == 16
    modifies bytes
    ensures bytes[..6] == TimeBytes(ms) && bytes[6..] == old(bytes[6..])
  {
    bytes[0] := ms / 0x100_0000_0000 % 256;
    bytes[1] := ms / 0x1_0000_0000 % 256;
    bytes[2] := ms / 0x100_0000 % 256;
    bytes[3] := ms / 0x1_0000 % 256;
    bytes[4] := ms / 0x100 % 256;
    bytes[5] := ms % 256;
  }

  method FillVersion(bytes: array<byte>, a: nat)
    requires bytes.Length == 16
    modifies bytes
    ensures bytes[..6] == old(bytes[..6]) && bytes[6..8] == VersionBytes(a) && bytes[8..] == old(bytes[8..])
  {
    bytes[6] := 0x70 + a / 0x100 % 16;
    bytes[7] := a % 256;
  }

  method FillVariant(bytes: array<byte>, b: nat)
    requires bytes.Length == 16
    modifies bytes
    ensures bytes[..8] == old(bytes[..8]) && bytes[8..] == VariantBytes(b)
  {
    bytes[8] := 0x80 + b / 0x100_0000_0000_0000 % 64;
    bytes[9] := b / 0x1_0000_0000_0000 % 256;
    bytes[10] := b / 0x100_0000_0000 % 256;
    bytes[11] := b / 0x1_0000_0000 % 256;
    bytes[12] := b / 0x100_0000 % 256;
    bytes[13] := b / 0x1_0000 % 256;
    bytes[14] := b / 0x100 % 256;
    bytes[15] := b % 256;
  }

  /** generate: the 16 bytes filled in place, then formatted. */
  method Generate(millis: int, randomA: int, randomB: int) returns (s: string)
    requires -0x8000_0000_0000_0000 <= millis < 0x8000_0000_0000_0000
    requires 0 <= randomA < 0x1_0000 && 0 <= randomB < 0x1_0000_0000_0000_0000
    ensures s == Uuid(millis, randomA, randomB)
  {
    var bytes := new byte[16](_ => 0);
    FillTime(bytes, Millis(millis));
    FillVersion(bytes, RandA(randomA));
    ghost var front := bytes[..8];
    assert front[..6] == bytes[..6] && front[6..8] == bytes[6..8];
    FillVariant(bytes, RandB(randomB));
    assert bytes[..] == front[..6] + front[6..8] + bytes[8..];
    BytesFilled(millis, randomA, randomB);
    return Format(bytes[..]);
  }

  lemma BytesFilled(millis: int, randomA: int, randomB: int)
    ensures TimeBytes(Millis(millis)) + VersionBytes(RandA(randomA)) + VariantBytes(RandB(randomB)) ==
            Layout(millis, randomA, randomB)
  {
    SixBytes(Millis(millis));
    VersionFilled(RandA(randomA));
    VariantFilled(RandB(randomB));
  }

  lemma VersionFilled(a: nat)
    requires a < POW12
    ensures BytesOf(VERSION_FIELD + a, 2) == VersionBytes(a)
  {
    TwoBytes(VERSION_FIELD + a);
    assert (VERSION_FIELD + a) / 256 == 0x70 + a / 256;
  }

  lemma Shifted(q: nat, p: nat, b: nat)
    requires p > 0
    ensures (q * p + b) / p == q + b / p
  {
    var x, y := b / p, b % p;
    var n := q * p + b;
    assert n == (q + x) * p + y by { assert (q + x) * p == q * p + x * p; }
    var u, v := n / p, n % p;
    assert p * (u - (q + x)) == y - v by { assert n == u * p + v; }
    FarMultiple(p, u - (q + x));
  }

  lemma FarMultiple(d: int, k: int)
    requires d > 0
    ensures k >= 1 ==> d * k >= d
    ensures k <= -1 ==> d * k <= -d
  {
  }

  lemma LowByte(b: nat, q: nat, p: nat)
    requires p > 0 && VARIANT_FIELD == q * 256 * p
    ensures (VARIANT_FIELD + b) / p % 256 == b / p % 256
  {
    Shifted(q * 256, p, b);
    assert (q * 256 + b / p) % 256 == b / p % 256;
  }

  lemma TopByte(b: nat)
    requires b < POW62
    ensures (VARIANT_FIELD + b) / 0x100_0000_0000_0000 % 256 == 0x80 + b / 0x100_0000_0000_0000 % 64
  {
    Shifted(0x80, 0x100_0000_0000_0000, b);
  }

  lemma VariantFilled(b: nat)
    requires b < POW62
    ensures BytesOf(VARIANT_FIELD + b, 8) == VariantBytes(b)
  {
    EightBytes(VARIANT_FIELD + b);
    TopByte(b);
    LowByte(b, 0x80, 0x1_0000_0000_0000);
    LowByte(b, 0x8000, 0x100_0000_0000);
    LowByte(b, 0x80_0000, 0x1_0000_0000);
    LowByte(b, 0x8000_0000, 0x100_0000);
    LowByte(b, 0x80_0000_0000, 0x1_0000);
    LowByte(b, 0x8000_0000_0000, 0x100);
    LowByte(b, 0x80_0000_0000_0000, 1);
  }

  // ---------------------------------------------------------------- reading back

  function Nibble(c: char): nat {
    if '0' <= c <= '9' then c as int - '0' as int
    else if 'a' <= c <= 'f' then c as int - 'a' as int + 10
    else 0
  }

  function HexValue(s: string): nat {
    if s == "" then 0 else HexValue(s[..|s| - 1]) * 16 + Nibble(s[|s| - 1])
  }

  lemma {:induction false} HexReadsBack(n: nat, k: nat)
    requires n < Pow256(k)
    ensures HexValue(Hex(BytesOf(n, k))) == n
    decreases k
  {
    if k == 0 {
    } else {
      HexReadsBack(n / 256, k - 1);
      var b, last := BytesOf(n / 256, k - 1), n % 256;
      var whole := BytesOf(n, k);
      assert whole[..k - 1] == b && whole[k - 1] == last;
      ReadTwoDigits(Hex(b), last);
    }
  }

  lemma ReadTwoDigits(s: string, x: byte)
    ensures HexValue(s + [HexDigit(x / 16), HexDigit(x % 16)]) == HexValue(s) * 256 + x
  {
    var t := s + [HexDigit(x / 16), HexDigit(x % 16)];
    assert t[..|t| - 1] == s + [HexDigit(x / 16)];
    assert t[..|t| - 1][..|s|] == s;
  }

  datatype Parts = Parts(millis: nat, version: nat, randA: nat, variant: nat, randB: nat)

  /** Section 5.7 of RFC 9562, applied to the textual form of section 4. */
  function Read(s: string): Option<Parts> {
    if |s| != 36 || s[8] != '-' || s[13] != '-' || s[18] != '-' || s[23] != '-' then None else
    var time, mid, low := HexValue(s[0..8] + s[9..13]), HexValue(s[14..18]), HexValue(s[19..23] + s[24..36]);
    Some(Parts(time, mid / POW12, mid % POW12, low / POW62, low % POW62))
  }

  function Pair(x: byte): string { [HexDigit(x / 16), HexDigit(x % 16)] }

  lemma HexSnoc(a: seq<byte>, x: byte)
    ensures Hex(a + [x]) == Hex(a) + Pair(x)
  {
    assert (a + [x])[..|a|] == a;
  }

  lemma {:induction false} HexConcat(a: seq<byte>, b: seq<byte>)
    ensures Hex(a + b) == Hex(a) + Hex(b)
    decreases |b|
  {
    if b == [] {
      assert a + b == a;
    } else {
      var n := |b| - 1;
      assert a + b == (a + b[..n]) + [b[n]] && b == b[..n] + [b[n]];
      HexConcat(a, b[..n]);
      HexSnoc(a + b[..n], b[n]);
      HexSnoc(b[..n], b[n]);
    }
  }

  lemma FormatPieces(b: seq<byte>)
    requires |b| == 16
    ensures var s := Format(b);
      && |s| == 36 && s[8] == '-' && s[13] == '-' && s[18] == '-' && s[23] == '-'
      && s[0..8] + s[9..13] == Hex(b[0..6]) && s[14..18] == Hex(b[6..8]) && s[19..23] + s[24..36] == Hex(b[8..16])
  {
    var s := Format(b);
    assert s[0..8] == Hex(b[0..4]) && s[9..13] == Hex(b[4..6]) && s[14..18] == Hex(b[6..8]);
    assert s[19..23] == Hex(b[8..10]) && s[24..36] == Hex(b[10..16]);
    HexConcat(b[0..4], b[4..6]);
    HexConcat(b[8..10], b[10..16]);
    assert b[0..4] + b[4..6] == b[0..6] && b[8..10] + b[10..16] == b[8..16];
  }

  lemma Powers()
    ensures Pow256(2) == 0x1_0000 && Pow256(6) == POW48 && Pow256(8) == 0x1_0000_0000_0000_0000
  {
    assert Pow256(3) == 0x100_0000;
    assert Pow256(5) == 0x100_0000_0000;
  }

  lemma LayoutPieces(millis: int, a: int, b: int)
    ensures var l := Layout(millis, a, b);
      && l[0..6] == BytesOf(Millis(millis), 6)
      && l[6..8] == BytesOf(VERSION_FIELD + RandA(a), 2)
      && l[8..16] == BytesOf(VARIANT_FIELD + RandB(b), 8)
  {
  }

  lemma FieldsReadBack(ms: nat, a: nat, b: nat)
    requires ms < POW48 && a < POW12 && b < POW62
    ensures HexValue(Hex(BytesOf(ms, 6))) == ms
    ensures HexValue(Hex(BytesOf(VERSION_FIELD + a, 2))) == VERSION_FIELD + a
    ensures HexValue(Hex(BytesOf(VARIANT_FIELD + b, 8))) == VARIANT_FIELD + b
  {
    Powers();
    HexReadsBack(ms, 6);
    HexReadsBack(VERSION_FIELD + a, 2);
    HexReadsBack(VARIANT_FIELD + b, 8);
  }

  lemma FieldsApart(a: nat, b: nat)
    requires a < POW12 && b < POW62
    ensures (VERSION_FIELD + a) / POW12 == 7 && (VERSION_FIELD + a) % POW12 == a
    ensures (VARIANT_FIELD + b) / POW62 == 2 && (VARIANT_FIELD + b) % POW62 == b
  {
  }

  lemma ReadIs(s: string, time: string, mid: string, low: string)
    requires |s| == 36 && s[8] == '-' && s[13] == '-' && s[18] == '-' && s[23] == '-'
    requires s[0..8] + s[9..13] == time && s[14..18] == mid && s[19..23] + s[24..36] == low
    ensures Read(s) == Some(Parts(HexValue(time), HexValue(mid) / POW12, HexValue(mid) % POW12,
                                  HexValue(low) / POW62, HexValue(low) % POW62))
  {
  }

  lemma PiecesReadBack(l: seq<byte>, ms: nat, a: nat, b: nat)
    requires |l| == 16 && ms < POW48 && a < POW12 && b < POW62
    requires l[0..6] == BytesOf(ms, 6)
    requires l[6..8] == BytesOf(VERSION_FIELD + a, 2) && l[8..16] == BytesOf(VARIANT_FIELD + b, 8)
    ensures Read(Format(l)) == Some(Parts(ms, 7, a, 2, b))
  {
    FormatPieces(l);
    ReadIs(Format(l), Hex(l[0..6]), Hex(l[6..8]), Hex(l[8..16]));
    FieldsReadBack(ms, a, b);
    FieldsApart(a, b);
  }

  /** Every generated id reads back as the low 48, 12 and 62 bits of its arguments, with version 7 and
      variant binary 10; so as the arguments themselves when they are that narrow. */
  lemma UuidReadsBack(millis: int, a: int, b: int)
    ensures Read(Uuid(millis, a, b)) ==
      Some(Parts(millis % 281474976710656, 7, a % 4096, 2, b % 4611686018427387904))
    ensures 0 <= millis < 281474976710656 && 0 <= a < 4096 && 0 <= b < 4611686018427387904 ==>
      Read(Uuid(millis, a, b)) == Some(Parts(millis, 7, a, 2, b))
  {
    LayoutPieces(millis, a, b);
    PiecesReadBack(Layout(millis, a, b), Millis(millis), RandA(a), RandB(b));
  }

  /** Two ids are equal if and only if they agree in those bits of all three arguments. */
  lemma UuidEqualIff(millis: int, a: int, b: int, millis': int, a': int, b': int)
    ensures Uuid(millis, a, b) == Uuid(millis', a', b') <==>
      && millis % 281474976710656 == millis' % 281474976710656
      && a % 4096 == a' % 4096
      && b % 4611686018427387904 == b' % 4611686018427387904
  {
    UuidReadsBack(millis, a, b);
    UuidReadsBack(millis', a', b');
  }

  // ---------------------------------------------------------------- order

  lemma {:induction false} BytesOrder(m: nat, n: nat, k: nat)
    requires m < Pow256(k) && n < Pow256(k)
    ensures LexLess(BytesOf(m, k), BytesOf(n, k)) <==> m < n
    ensures BytesOf(m, k) == BytesOf(n, k) <==> m == n
    decreases k
  {
    if k == 0 {
    } else {
      BytesOrder(m / 256, n / 256, k - 1);
      var x, y := BytesOf(m / 256, k - 1), BytesOf(n / 256, k - 1);
      LexConcat(x, [m % 256], y, [n % 256]);
      OneLess(m % 256, n % 256);
      assert BytesOf(m, k)[..k - 1] == x && BytesOf(n, k)[..k - 1] == y;
      assert BytesOf(m, k)[k - 1] == m % 256 && BytesOf(n, k)[k - 1] == n % 256;
    }
  }

  lemma TwoLess(x0: int, x1: int, y0: int, y1: int)
    ensures LexLess([x0, x1], [y0, y1]) <==> x0 < y0 || (x0 == y0 && x1 < y1)
  {
    assert [x0, x1][1..] == [x1] && [y0, y1][1..] == [y1];
    OneLess(x1, y1);
  }

  lemma DigitOrder(x: byte, y: byte)
    ensures (TextLess(Pair(x), Pair(y)) <==> x < y) && (Pair(x) == Pair(y) <==> x == y)
  {
    var p, q := Pair(x), Pair(y);
    assert Codes(p) == [HexDigit(x / 16) as int, HexDigit(x % 16) as int];
    assert Codes(q) == [HexDigit(y / 16) as int, HexDigit(y % 16) as int];
    TwoLess(Codes(p)[0], Codes(p)[1], Codes(q)[0], Codes(q)[1]);
    assert p[0] == q[0] <==> x / 16 == y / 16;
    assert p[1] == q[1] <==> x % 16 == y % 16;
  }

  lemma {:induction false} HexOrder(a: seq<byte>, b: seq<byte>)
    requires |a| == |b|
    ensures TextLess(Hex(a), Hex(b)) <==> LexLess(a, b)
    ensures Hex(a) == Hex(b) <==> a == b
    decreases |a|
  {
    if a == [] {
    } else {
      var n := |a| - 1;
      HexOrder(a[..n], b[..n]);
      assert a == a[..n] + [a[n]] && b == b[..n] + [b[n]];
      HexSnoc(a[..n], a[n]);
      HexSnoc(b[..n], b[n]);
      NextByteOrder(a[..n], Hex(a[..n]), a[n], b[..n], Hex(b[..n]), b[n]);
    }
  }

  /** One more byte, and its two digits, keep the orders in step. */
  lemma NextByteOrder(a: seq<byte>, ta: string, x: byte, b: seq<byte>, tb: string, y: byte)
    requires |a| == |b| && |ta| == |tb|
    requires (TextLess(ta, tb) <==> LexLess(a, b)) && (ta == tb <==> a == b)
    ensures TextLess(ta + Pair(x), tb + Pair(y)) <==> LexLess(a + [x], b + [y])
    ensures ta + Pair(x) == tb + Pair(y) <==> a + [x] == b + [y]
  {
    LexConcat(a, [x], b, [y]);
    OneLess(x, y);
    DigitOrder(x, y);
    ConcatOrder(ta, Pair(x), tb, Pair(y));
    if a + [x] == b + [y] {
      assert (a + [x])[..|a|] == a && (b + [y])[..|b|] == b;
      assert (a + [x])[|a|] == x && (b + [y])[|b|] == y;
    }
  }

  /** A dash at the same place in both texts does not matter. */
  lemma DashOrder(a: string, x: string, b: string, y: string)
    requires |a| == |b|
    ensures TextLess(a + "-" + x, b + "-" + y) <==> TextLess(a + x, b + y)
  {
    ConcatOrder(a, x, b, y);
    ConcatOrder(a, "-" + x, b, "-" + y);
    ConcatOrder("-", x, "-", y);
    LexIrreflexive(Codes("-"));
    assert a + "-" + x == a + ("-" + x) && b + "-" + y == b + ("-" + y);
  }

  lemma FormatOrder(a: seq<byte>, b: seq<byte>)
    requires |a| == 16 && |b| == 16
    ensures TextLess(Format(a), Format(b)) <==> LexLess(a, b)
  {
    var a1, a2, a3, a4, a5 := Hex(a[0..4]), Hex(a[4..6]), Hex(a[6..8]), Hex(a[8..10]), Hex(a[10..16]);
    var b1, b2, b3, b4, b5 := Hex(b[0..4]), Hex(b[4..6]), Hex(b[6..8]), Hex(b[8..10]), Hex(b[10..16]);
    FiveGroups(a1, a2, a3, a4, a5, b1, b2, b3, b4, b5);
    WholeHex(a);
    WholeHex(b);
    HexOrder(a, b);
  }

  lemma FiveGroups(a1: string, a2: string, a3: string, a4: string, a5: string,
                   b1: string, b2: string, b3: string, b4: string, b5: string)
    requires |a1| == |b1| && |a2| == |b2| && |a3| == |b3| && |a4| == |b4|
    ensures TextLess(a1 + "-" + a2 + "-" + a3 + "-" + a4 + "-" + a5, b1 + "-" + b2 + "-" + b3 + "-" + b4 + "-" + b5)
            <==> TextLess(a1 + a2 + a3 + a4 + a5, b1 + b2 + b3 + b4 + b5)
  {
    DashOrder(a1 + "-" + a2 + "-" + a3 + "-" + a4, a5, b1 + "-" + b2 + "-" + b3 + "-" + b4, b5);
    MoveTail(a1 + "-" + a2 + "-" + a3, a4, a5);
    MoveTail(b1 + "-" + b2 + "-" + b3, b4, b5);
    DashOrder(a1 + "-" + a2 + "-" + a3, a4 + a5, b1 + "-" + b2 + "-" + b3, b4 + b5);
    MoveTail(a1 + "-" + a2, a3, a4 + a5);
    MoveTail(b1 + "-" + b2, b3, b4 + b5);
    DashOrder(a1 + "-" + a2, a3 + (a4 + a5), b1 + "-" + b2, b3 + (b4 + b5));
    MoveTail(a1, a2, a3 + (a4 + a5));
    MoveTail(b1, b2, b3 + (b4 + b5));
    DashOrder(a1, a2 + (a3 + (a4 + a5)), b1, b2 + (b3 + (b4 + b5)));
    assert a1 + (a2 + (a3 + (a4 + a5))) == a1 + a2 + a3 + a4 + a5;
    assert b1 + (b2 + (b3 + (b4 + b5))) == b1 + b2 + b3 + b4 + b5;
  }

  lemma MoveTail(a: string, x: string, y: string)
    ensures a + "-" + x + y == a + "-" + (x + y)
    ensures a + "-" + (x + y) == (a + "-") + (x + y)
  {
  }

  lemma WholeHex(a: seq<byte>)
    requires |a| == 16
    ensures Hex(a) == Hex(a[0..4]) + Hex(a[4..6]) + Hex(a[6..8]) + Hex(a[8..10]) + Hex(a[10..16])
  {
    HexConcat(a[0..4], a[4..6]);
    HexConcat(a[0..6], a[6..8]);
    HexConcat(a[0..8], a[8..10]);
    HexConcat(a[0..10], a[10..16]);
    assert a[0..4] + a[4..6] == a[0..6] && a[0..6] + a[6..8] == a[0..8];
    assert a[0..8] + a[8..10] == a[0..10] && a[0..10] + a[10..16] == a;
  }

  lemma FieldOrderIff(millis: int, a: int, b: int, millis': int, a': int, b': int)
    ensures TextLess(Uuid(millis, a, b), Uuid(millis', a', b')) <==>
      || Millis(millis) < Millis(millis')
      || (Millis(millis) == Millis(millis') && RandA(a) < RandA(a'))
      || (Millis(millis) == Millis(millis') && RandA(a) == RandA(a') && RandB(b) < RandB(b'))
  {
    FormatOrder(Layout(millis, a, b), Layout(millis', a', b'));
    Powers();
    var t, v, r := BytesOf(Millis(millis), 6), BytesOf(VERSION_FIELD + RandA(a), 2),
        BytesOf(VARIANT_FIELD + RandB(b), 8);
    var t', v', r' := BytesOf(Millis(millis'), 6), BytesOf(VERSION_FIELD + RandA(a'), 2),
        BytesOf(VARIANT_FIELD + RandB(b'), 8);
    BytesOrder(Millis(millis), Millis(millis'), 6);
    BytesOrder(VERSION_FIELD + RandA(a), VERSION_FIELD + RandA(a'), 2);
    BytesOrder(VARIANT_FIELD + RandB(b), VARIANT_FIELD + RandB(b'), 8);
    ThreeFields(t, v, r, t', v', r');
  }

  /** Ids sort as text exactly as the kept bits of (time, rand_a, rand_b) sort as numbers; so an earlier
      millisecond always gives a smaller id. */
  lemma UuidOrderIff(millis: int, a: int, b: int, millis': int, a': int, b': int)
    ensures var m, m' := millis % 281474976710656, millis' % 281474976710656;
      var x, x' := a % 4096, a' % 4096;
      var y, y' := b % 4611686018427387904, b' % 4611686018427387904;
      TextLess(Uuid(millis, a, b), Uuid(millis', a', b')) <==>
        m < m' || (m == m' && x < x') || (m == m' && x == x' && y < y')
  {
    FieldOrderIff(millis, a, b, millis', a', b');
  }

  lemma ThreeFields(x: seq<int>, y: seq<int>, z: seq<int>, x': seq<int>, y': seq<int>, z': seq<int>)
    requires |x| == |x'| && |y| == |y'|
    ensures LexLess(x + y + z, x' + y' + z') <==>
      LexLess(x, x') || (x == x' && LexLess(y, y')) || (x == x' && y == y' && LexLess(z, z'))
  {
    LexConcat(x + y, z, x' + y', z');
    LexConcat(x, y, x', y');
    if x + y == x' + y' {
      assert (x + y)[..|x|] == x && (x' + y')[..|x|] == x';
      assert (x + y)[|x|..] == y && (x' + y')[|x|..] == y';
    }
  }
}
