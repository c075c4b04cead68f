/** Base64 (section 4 of RFC 4648): the encoder, and a decoder whose accumulator wraps at 32 bits. */
module Base64 {
  type Byte = x: int | 0 <= x < 256
  type Digit = x: int | 0 <= x < 64

  const PAD := '='
  const WORD := 0x1_0000_0000

  // ---- The alphabet ----

  function EncodeDigit(d: Digit): char {
    if d < 26 then 'A' + d as char
    else if d < 52 then 'a' + (d - 26) as char
    else if d < 62 then '0' + (d - 52) as char
    else if d == 62 then '+'
    else '/'
  }

  /** The decoding table: -1 for every character outside the alphabet. */
  function DecodeDigit(c: char): (v: int)
    ensures -1 <= v < 64
    ensures v >= 0 ==> EncodeDigit(v) == c
  {
    if 'A' <= c <= 'Z' then c as int - 'A' as int
    else if 'a' <= c <= 'z' then c as int - 'a' as int + 26
    else if '0' <= c <= '9' then c as int - '0' as int + 52
    else if c == '+' then 62
    else if c == '/' then 63
    else -1
  }

  lemma DigitRoundTrip(d: Digit)
    ensures DecodeDigit(EncodeDigit(d)) == d && EncodeDigit(d) != PAD && EncodeDigit(d) != '$'
  {}

  function Spell(ds: seq<Digit>): (s: string)
    ensures |s| == |ds|
  {
    if ds == [] then "" else [EncodeDigit(ds[0])] + Spell(ds[1..])
  }

  lemma {:induction false} SpellConcat(a: seq<Digit>, b: seq<Digit>)
    ensures Spell(a + b) == Spell(a) + Spell(b)
  {
    if a == [] {
      assert a + b == b;
    } else {
      assert (a + b)[1..] == a[1..] + b;
      SpellConcat(a[1..], b);
    }
  }

  /** The digits a text carries: padding ends it, other characters outside the alphabet are skipped. */
  function Read(s: string): seq<Digit> {
    if s == "" || s[0] == PAD then []
    else if DecodeDigit(s[0]) < 0 then Read(s[1..])
    else [DecodeDigit(s[0])] + Read(s[1..])
  }

  lemma {:induction false} ReadSpelled(ds: seq<Digit>, pad: string)
    requires pad == "" || pad[0] == PAD
    ensures Read(Spell(ds) + pad) == ds
  {
    hide DecodeDigit, EncodeDigit;
    if ds == [] {
      assert Spell(ds) + pad == pad;
    } else {
      DigitRoundTrip(ds[0]);
      assert Spell(ds) + pad == [EncodeDigit(ds[0])] + (Spell(ds[1..]) + pad);
      ReadSpelled(ds[1..], pad);
      assert [ds[0]] + ds[1..] == ds;
    }
  }

  // ---- Bytes as digits ----

  /** The 24 bits of three bytes, six at a time. */
  function Digits(a: Byte, b: Byte, c: Byte): (ds: seq<Digit>)
    ensures |ds| == 4
  {
    [a / 4, a % 4 * 16 + b / 16, b % 16 * 4 + c / 64, c % 64]
  }

  /** The digits of the first k groups of three bytes. */
  function GroupDigits(data: seq<Byte>, k: nat): (ds: seq<Digit>)
    requires 3 * k <= |data|
    ensures |ds| == 4 * k
    decreases k
  {
    if k == 0 then [] else GroupDigits(data, k - 1) + Digits(data[3 * k - 3], data[3 * k - 2], data[3 * k - 1])
  }

  /** The digits of one or two bytes left over: zero bits complete the last. */
  function TailDigits(rest: seq<Byte>): seq<Digit> {
    if |rest| == 1 then Digits(rest[0], 0, 0)[..2]
    else if |rest| == 2 then Digits(rest[0], rest[1], 0)[..3]
    else []
  }

  function DigitsOf(data: seq<Byte>): seq<Digit> {
    GroupDigits(data, |data| / 3) + TailDigits(data[3 * (|data| / 3)..])
  }

  function Padding(rest: nat): (pad: string)
    ensures pad == "" || pad[0] == PAD
  {
    if rest == 1 then [PAD, PAD] else if rest == 2 then [PAD] else ""
  }

  function Encoded(data: seq<Byte>): string {
    Spell(DigitsOf(data)) + Padding(|data| - 3 * (|data| / 3))
  }

  // ---- The encoder ----

  function Pow2(bits: nat): (p: nat)
    ensures p >= 1
  {
    if bits == 0 then 1 else 2 * Pow2(bits - 1)
  }

  lemma Powers()
    ensures Pow2(0) == 1 && Pow2(2) == 4 && Pow2(4) == 16 && Pow2(6) == 64
    ensures Pow2(12) == 0x1000 && Pow2(18) == 0x4_0000
  {
    assert Pow2(9) == 512 && Pow2(15) == 0x8000;
  }

  function Packed(a: Byte, b: Byte, c: Byte): nat {
    a * 0x1_0000 + b * 0x100 + c
  }

  /** `(n >> shift) & 63`. */
  function DigitAt(n: nat, shift: nat): Digit {
    n / Pow2(shift) % 64
  }

  lemma ShiftBy18(a: Byte, b: Byte, c: Byte)
    ensures DigitAt(Packed(a, b, c), 18) == a / 4
  {
    Powers();
    TopSix(Packed(a, b, c), a / 4, a % 4 * 0x1_0000 + b * 0x100 + c);
  }

  lemma TopSix(n: nat, q: Digit, r: nat)
    requires n == q * 0x4_0000 + r && r < 0x4_0000
    ensures n / 0x4_0000 % 64 == q
  {}

  lemma ShiftBy12(a: Byte, b: Byte, c: Byte)
    ensures DigitAt(Packed(a, b, c), 12) == a % 4 * 16 + b / 16
  {
    Powers();
    MiddleSix(Packed(a, b, c), a / 4, a % 4 * 16 + b / 16, b % 16 * 0x100 + c);
  }

  lemma MiddleSix(n: nat, q: nat, d: Digit, r: nat)
    requires n == (q * 64 + d) * 0x1000 + r && r < 0x1000
    ensures n / 0x1000 % 64 == d
  {
    assert n / 0x1000 == q * 64 + d;
  }

  lemma ShiftBy6(a: Byte, b: Byte, c: Byte)
    ensures DigitAt(Packed(a, b, c), 6) == b % 16 * 4 + c / 64
  {
    Powers();
    LowerSix(Packed(a, b, c), a * 16 + b / 16, b % 16 * 4 + c / 64, c % 64);
  }

  lemma LowerSix(n: nat, q: nat, d: Digit, r: Digit)
    requires n == (q * 64 + d) * 64 + r
    ensures n / 64 % 64 == d && n % 64 == r
  {
    assert n / 64 == q * 64 + d;
  }

  lemma ShiftBy0(a: Byte, b: Byte, c: Byte)
    ensures DigitAt(Packed(a, b, c), 0) == c % 64
  {
    Powers();
    LowerSix(Packed(a, b, c), a * 16 + b / 16, b % 16 * 4 + c / 64, c % 64);
  }

  /** The first characters of three bytes packed in one integer. */
  method EncodeGroup(a: Byte, b: Byte, c: Byte, count: nat) returns (out: string)
    requires count <= 4
    ensures out == Spell(Digits(a, b, c)[..count])
  {
    var n := Packed(a, b, c);
    ShiftBy18(a, b, c);
    ShiftBy12(a, b, c);
    ShiftBy6(a, b, c);
    ShiftBy0(a, b, c);
    var ds := [DigitAt(n, 18), DigitAt(n, 12), DigitAt(n, 6), DigitAt(n, 0)];
    out := "";
    for i := 0 to count
      invariant out == Spell(ds[..i])
    {
      assert ds[..i + 1] == ds[..i] + [ds[i]];
      SpellConcat(ds[..i], [ds[i]]);
      assert Spell([ds[i]]) == [EncodeDigit(ds[i])];
      out := out + [EncodeDigit(ds[i])];
    }
  }

  /** `base64_encode`. */
  method Encode(data: seq<Byte>) returns (out: string)
    ensures out == Encoded(data)
  {
    out := "";
    var i := 0;
    ghost var k := 0;
    while i + 3 <= |data|
      invariant i == 3 * k <= |data| && out == Spell(GroupDigits(data, k))
    {
      var quad := EncodeGroup(data[i], data[i + 1], data[i + 2], 4);
      OneMoreGroup(data, k);
      out := out + quad;
      i, k := i + 3, k + 1;
    }
    var tail := EncodeTail(data[i..]);
    Complete(data, k);
    out := out + tail;
  }

  lemma Complete(data: seq<Byte>, k: nat)
    requires 3 * k <= |data| < 3 * k + 3
    ensures var rest := data[3 * k..];
            Encoded(data) == Spell(GroupDigits(data, k)) + (Spell(TailDigits(rest)) + Padding(|rest|))
  {
    assert k == |data| / 3;
    SpellConcat(GroupDigits(data, k), TailDigits(data[3 * k..]));
  }

  lemma OneMoreGroup(data: seq<Byte>, k: nat)
    requires 3 * k + 3 <= |data|
    ensures Spell(GroupDigits(data, k + 1)) ==
            Spell(GroupDigits(data, k)) + Spell(Digits(data[3 * k], data[3 * k + 1], data[3 * k + 2])[..4])
  {
    var ds := Digits(data[3 * k], data[3 * k + 1], data[3 * k + 2]);
    assert ds[..4] == ds;
    SpellConcat(GroupDigits(data, k), ds);
  }

  method EncodeTail(rest: seq<Byte>) returns (out: string)
    requires |rest| < 3
    ensures out == Spell(TailDigits(rest)) + Padding(|rest|)
  {
    out := "";
    if |rest| == 1 {
      var quad := EncodeGroup(rest[0], 0, 0, 2);
      out := quad + [PAD, PAD];
    } else if |rest| == 2 {
      var quad := EncodeGroup(rest[0], rest[1], 0, 3);
      out := quad + [PAD];
    }
  }

  // ---- The decoder ----

  /** The bits waiting between two digits. */
  predicate Pending(acc: int, bits: nat) {
    (bits == 0 && acc == 0) || (bits == 2 && 0 <= acc < 4) || (bits == 4 && 0 <= acc < 16) || (bits == 6 && 0 <= acc < 64)
  }

  /** The bytes of some digits, after the bits waiting; bits left over at the end are dropped. */
  function BytesFrom(acc: int, bits: nat, ds: seq<Digit>): seq<Byte>
    requires Pending(acc, bits)
    decreases ds
  {
    if ds == [] then []
    else
      var v := ds[0];
      if bits == 0 then BytesFrom(v, 6, ds[1..])
      else if bits == 2 then [acc * 64 + v] + BytesFrom(0, 0, ds[1..])
      else if bits == 4 then [acc * 16 + v / 4] + BytesFrom(v % 4, 2, ds[1..])
      else [acc * 4 + v / 16] + BytesFrom(v % 16, 4, ds[1..])
  }

  function Decoded(s: string): seq<Byte> {
    BytesFrom(0, 0, Read(s))
  }

  /** What is left of x in 32 bits, as a signed integer. */
  function Wrap32(x: int): (r: int)
    ensures -0x8000_0000 <= r < 0x8000_0000 && (x - r) % WORD == 0
  {
    var low := x % WORD;
    if low < 0x8000_0000 then low else low - WORD
  }

  /** `(buf << 6) | v`: the shift leaves six zero bits, so the disjunction adds. */
  function ShiftIn(buf: int, v: Digit): (r: int)
    ensures r % 64 == v
  {
    Wrap32(buf * 64) + v
  }

  /** The accumulator has the waiting bits in its low bits, whatever it holds above them. */
  predicate LowBits(buf: int, acc: int, bits: nat) {
    Pending(acc, bits) && buf % Pow2(bits) == acc
  }

  /** `(buf >> bits) & 0xFF`. */
  function ByteAt(buf: int, bits: nat): Byte {
    buf / Pow2(bits) % 256
  }

  /** The lost high bits never reach a byte: shifting in and taking out agree with the waiting bits. */
  lemma ShiftKeepsLowBits(buf: int, acc: int, bits: nat, v: Digit)
    requires LowBits(buf, acc, bits)
    ensures var w := ShiftIn(buf, v);
            if bits == 0 then LowBits(w, v, 6)
            else if bits == 2 then LowBits(w, 0, 0) && ByteAt(w, 0) == acc * 64 + v
            else if bits == 4 then LowBits(w, v % 4, 2) && ByteAt(w, 2) == acc * 16 + v / 4
            else LowBits(w, v % 16, 4) && ByteAt(w, 4) == acc * 4 + v / 16
  {
    Powers();
    var w, q := ShiftIn(buf, v), buf / Pow2(bits);
    var k := (buf * 64 + v - w) / WORD;
    assert w == buf * 64 + v - k * WORD;
    if bits == 2 {
      LowEight(w, q - k * 0x100_0000, acc, v);
    } else if bits == 4 {
      LowTen(w, q - k * 0x40_0000, acc, v);
    } else if bits == 6 {
      LowTwelve(w, q - k * 0x10_0000, acc, v);
    }
  }

  lemma LowEight(w: int, m: int, acc: int, v: Digit)
    requires 0 <= acc < 4 && w == m * 0x100 + acc * 64 + v
    ensures w % 0x100 == acc * 64 + v
  {}

  lemma LowTen(w: int, m: int, acc: int, v: Digit)
    requires 0 <= acc < 16 && w == m * 0x400 + acc * 64 + v
    ensures w / 4 % 0x100 == acc * 16 + v / 4 && w % 4 == v % 4
  {
    assert w / 4 == m * 0x100 + (acc * 16 + v / 4);
  }

  lemma LowTwelve(w: int, m: int, acc: int, v: Digit)
    requires 0 <= acc < 64 && w == m * 0x1000 + acc * 64 + v
    ensures w / 16 % 0x100 == acc * 4 + v / 16 && w % 16 == v % 16
  {
    assert w / 16 == m * 0x100 + (acc * 4 + v / 16);
  }

  /** One digit into the accumulator; a byte comes out when eight bits are waiting. */
  method AddDigit(buf0: int, bits0: nat, v: Digit, ghost acc0: int, ghost ds: seq<Digit>)
    returns (buf: int, bits: nat, piece: seq<Byte>, ghost acc: int)
    requires LowBits(buf0, acc0, bits0)
    ensures LowBits(buf, acc, bits)
    ensures BytesFrom(acc0, bits0, [v] + ds) == piece + BytesFrom(acc, bits, ds)
  {
    ShiftKeepsLowBits(buf0, acc0, bits0, v);
    assert ([v] + ds)[1..] == ds;
    acc := if bits0 == 0 then v else if bits0 == 2 then 0 else if bits0 == 4 then v % 4 else v % 16;
    buf, bits, piece := ShiftIn(buf0, v), bits0 + 6, [];
    if bits >= 8 {
      bits := bits - 8;
      piece := [ByteAt(buf, bits)];
    }
  }

  /** `base64_decode`. */
  method Decode(data: string) returns (out: seq<Byte>)
    ensures out == Decoded(data)
  {
    out := [];
    var buf, bits, i := 0, 0, 0;
    ghost var acc := 0;
    while i < |data|
      invariant i <= |data| && LowBits(buf, acc, bits)
      invariant Decoded(data) == out + BytesFrom(acc, bits, Read(data[i..]))
    {
      var c := data[i];
      assert data[i..] == [c] + data[i + 1..];
      if c == PAD { break; }
      var v := DecodeDigit(c);
      i := i + 1;
      if v < 0 { continue; }
      var piece;
      buf, bits, piece, acc := AddDigit(buf, bits, v, acc, Read(data[i..]));
      out := out + piece;
    }
  }

  // ---- Round trip ----

  function Byte0(d0: int, d1: int): int {
    d0 * 4 + d1 / 16
  }

  function Byte1(d1: int, d2: int): int {
    d1 % 16 * 16 + d2 / 4
  }

  function Byte2(d2: int, d3: int): int {
    d2 % 4 * 64 + d3
  }

  /** Four digits are three bytes. */
  lemma QuadBytes(d: seq<Digit>, ds: seq<Digit>)
    requires |d| == 4
    ensures BytesFrom(0, 0, d + ds) == [Byte0(d[0], d[1]), Byte1(d[1], d[2]), Byte2(d[2], d[3])] + BytesFrom(0, 0, ds)
  {
    hide BytesFrom, Byte0, Byte1, Byte2;
    var t3 := [d[3]] + ds;
    var t2 := [d[2]] + t3;
    var t1 := [d[1]] + t2;
    assert d + ds == [d[0]] + t1;
    OneByte(d[0], d[1], d[2], d[3], t1, t2, t3, ds);
  }

  /** The four digits one at a time. */
  lemma OneByte(d0: Digit, d1: Digit, d2: Digit, d3: Digit, t1: seq<Digit>, t2: seq<Digit>, t3: seq<Digit>, ds: seq<Digit>)
    requires t1 == [d1] + t2 && t2 == [d2] + t3 && t3 == [d3] + ds
    ensures BytesFrom(0, 0, [d0] + t1) == [Byte0(d0, d1), Byte1(d1, d2), Byte2(d2, d3)] + BytesFrom(0, 0, ds)
  {
    assert ([d0] + t1)[1..] == t1 && t1[1..] == t2 && t2[1..] == t3 && t3[1..] == ds;
    var tail := BytesFrom(0, 0, ds);
    assert BytesFrom(d2 % 4, 2, t3) == [Byte2(d2, d3)] + tail;
    assert BytesFrom(d1 % 16, 4, t2) == [Byte1(d1, d2)] + BytesFrom(d2 % 4, 2, t3);
    assert BytesFrom(d0, 6, t1) == [Byte0(d0, d1)] + BytesFrom(d1 % 16, 4, t2);
  }

  /** Two digits are one byte, three are two: the last two or four bits are dropped. */
  lemma ShortBytes(d: seq<Digit>)
    ensures |d| == 2 ==> BytesFrom(0, 0, d) == [Byte0(d[0], d[1])]
    ensures |d| == 3 ==> BytesFrom(0, 0, d) == [Byte0(d[0], d[1]), Byte1(d[1], d[2])]
  {
    hide BytesFrom, Byte0, Byte1;
    if |d| == 2 {
      assert d == [d[0]] + [d[1]];
      TwoDigits(d[0], d[1]);
    } else if |d| == 3 {
      assert d == [d[0]] + ([d[1]] + [d[2]]);
      ThreeDigits(d[0], d[1], d[2]);
    }
  }

  lemma TwoDigits(d0: Digit, d1: Digit)
    ensures BytesFrom(0, 0, [d0] + [d1]) == [Byte0(d0, d1)]
  {
    assert ([d0] + [d1])[1..] == [d1];
    assert BytesFrom(d0, 6, [d1]) == [Byte0(d0, d1)];
  }

  lemma ThreeDigits(d0: Digit, d1: Digit, d2: Digit)
    ensures BytesFrom(0, 0, [d0] + ([d1] + [d2])) == [Byte0(d0, d1), Byte1(d1, d2)]
  {
    var t1 := [d1] + [d2];
    assert ([d0] + t1)[1..] == t1 && t1[1..] == [d2];
    assert BytesFrom(d1 % 16, 4, [d2]) == [Byte1(d1, d2)];
    assert BytesFrom(d0, 6, t1) == [Byte0(d0, d1)] + BytesFrom(d1 % 16, 4, [d2]);
  }

  lemma BytesOfDigits(a: Byte, b: Byte, c: Byte)
    ensures var d := Digits(a, b, c);
            Byte0(d[0], d[1]) == a && Byte1(d[1], d[2]) == b && Byte2(d[2], d[3]) == c
  {
    assert (a % 4 * 16 + b / 16) / 16 == a % 4 && (a % 4 * 16 + b / 16) % 16 == b / 16;
    assert (b % 16 * 4 + c / 64) / 4 == b % 16 && (b % 16 * 4 + c / 64) % 4 == c / 64;
  }

  lemma GroupBytes(a: Byte, b: Byte, c: Byte, ds: seq<Digit>)
    ensures BytesFrom(0, 0, Digits(a, b, c) + ds) == [a, b, c] + BytesFrom(0, 0, ds)
  {
    QuadBytes(Digits(a, b, c), ds);
    BytesOfDigits(a, b, c);
  }

  lemma {:induction false} GroupsBytes(data: seq<Byte>, k: nat, ds: seq<Digit>)
    requires 3 * k <= |data|
    ensures BytesFrom(0, 0, GroupDigits(data, k) + ds) == data[..3 * k] + BytesFrom(0, 0, ds)
    decreases k
  {
    hide BytesFrom, Digits;
    if k == 0 {
      assert GroupDigits(data, k) + ds == ds;
    } else {
      var a, b, c := data[3 * k - 3], data[3 * k - 2], data[3 * k - 1];
      assert GroupDigits(data, k) + ds == GroupDigits(data, k - 1) + (Digits(a, b, c) + ds);
      GroupsBytes(data, k - 1, Digits(a, b, c) + ds);
      GroupBytes(a, b, c, ds);
      assert data[..3 * k] == data[..3 * k - 3] + [a, b, c];
    }
  }

  lemma TailBytes(rest: seq<Byte>)
    requires |rest| < 3
    ensures BytesFrom(0, 0, TailDigits(rest)) == rest
  {
    if |rest| > 0 {
      var b := if |rest| == 2 then rest[1] else 0;
      BytesOfDigits(rest[0], b, 0);
      ShortBytes(TailDigits(rest));
    }
  }

  /** Decoding undoes encoding, for byte strings of any length. */
  lemma DecodeEncode(data: seq<Byte>)
    ensures Decoded(Encoded(data)) == data
  {
    var k := |data| / 3;
    ReadSpelled(DigitsOf(data), Padding(|data| - 3 * k));
    GroupsBytes(data, k, TailDigits(data[3 * k..]));
    TailBytes(data[3 * k..]);
    assert data[..3 * k] + data[3 * k..] == data;
  }

  /** A character outside the alphabet that is not padding, inserted anywhere in any text, changes nothing. */
  lemma {:induction false} NoiseIsSkipped(a: string, c: char, b: string)
    requires DecodeDigit(c) < 0 && c != PAD
    ensures Read(a + [c] + b) == Read(a + b) && Decoded(a + [c] + b) == Decoded(a + b)
  {
    if a == "" {
      assert a + [c] + b == [c] + b && a + b == b;
    } else {
      assert (a + [c] + b)[1..] == a[1..] + [c] + b && (a + b)[1..] == a[1..] + b;
      NoiseIsSkipped(a[1..], c, b);
    }
  }

  // ---- The encoding as a change of radix ----

  /** The first n bytes as one number, most significant first. */
  function Number(data: seq<Byte>, n: nat): nat
    requires n <= |data|
  {
    if n == 0 then 0 else Number(data, n - 1) * 256 + data[n - 1]
  }

  /** The first n digits as one number, most significant first. */
  function DigitNumber(ds: seq<Digit>, n: nat): nat
    requires n <= |ds|
  {
    if n == 0 then 0 else DigitNumber(ds, n - 1) * 64 + ds[n - 1]
  }

  lemma {:induction false} SamePrefix(ds: seq<Digit>, es: seq<Digit>, n: nat)
    requires n <= |ds| && n <= |es| && ds[..n] == es[..n]
    ensures DigitNumber(ds, n) == DigitNumber(es, n)
  {
    if n > 0 {
      assert ds[n - 1] == ds[..n][n - 1] && es[n - 1] == es[..n][n - 1];
      assert ds[..n - 1] == ds[..n][..n - 1] && es[..n - 1] == es[..n][..n - 1];
      SamePrefix(ds, es, n - 1);
    }
  }

  /** Digits in radix 64. */
  function Radix64(m: int, d0: int, d1: int): int {
    (m * 64 + d0) * 64 + d1
  }

  lemma DigitsNumber(m: int, a: Byte, b: Byte, c: Byte)
    ensures var d := Digits(a, b, c);
            && Radix64(Radix64(m, d[0], d[1]), d[2], d[3]) == ((m * 256 + a) * 256 + b) * 256 + c
            && (b == 0 ==> Radix64(m, d[0], d[1]) == (m * 256 + a) * 16)
            && (c == 0 ==> Radix64(m, d[0], d[1]) * 64 + d[2] == ((m * 256 + a) * 256 + b) * 4)
  {}

  lemma FourMore(ds: seq<Digit>, n: nat)
    requires n + 4 <= |ds|
    ensures DigitNumber(ds, n + 4) == Radix64(Radix64(DigitNumber(ds, n), ds[n], ds[n + 1]), ds[n + 2], ds[n + 3])
  {
    assert DigitNumber(ds, n + 2) == Radix64(DigitNumber(ds, n), ds[n], ds[n + 1]);
  }

  lemma ThreeMore(data: seq<Byte>, n: nat)
    requires n + 3 <= |data|
    ensures Number(data, n + 3) == ((Number(data, n) * 256 + data[n]) * 256 + data[n + 1]) * 256 + data[n + 2]
  {
    assert Number(data, n + 2) == (Number(data, n) * 256 + data[n]) * 256 + data[n + 1];
  }

  lemma {:induction false} GroupsNumber(data: seq<Byte>, k: nat)
    requires 3 * k <= |data|
    ensures DigitNumber(GroupDigits(data, k), 4 * k) == Number(data, 3 * k)
    decreases k
  {
    hide Number, DigitNumber, Digits;
    if k == 0 {
      NoGroups(data);
    } else {
      var i, n := 3 * k - 3, 4 * k - 4;
      var head, d := GroupDigits(data, k - 1), Digits(data[i], data[i + 1], data[i + 2]);
      var ds := head + d;
      GroupsNumber(data, k - 1);
      assert ds[..n] == head[..n] && ds[n] == d[0] && ds[n + 1] == d[1] && ds[n + 2] == d[2] && ds[n + 3] == d[3];
      SamePrefix(ds, head, n);
      FourMore(ds, n);
      ThreeMore(data, i);
      DigitsNumber(Number(data, i), data[i], data[i + 1], data[i + 2]);
    }
  }

  lemma NoGroups(data: seq<Byte>)
    ensures DigitNumber(GroupDigits(data, 0), 0) == Number(data, 0)
  {}

  /** A number followed by the zero bits that complete its last digit. */
  function Filled(m: nat, rest: nat): nat {
    if rest == 1 then m * 16 else if rest == 2 then m * 4 else m
  }

  /**
   The digits are the same number in radix 64, after four zero bits for one byte left over and two for
   two; the padding completes a multiple of four characters.
   */
  lemma EncodingIsRadix64(data: seq<Byte>)
    ensures |Encoded(data)| == 4 * ((|data| + 2) / 3)
    ensures DigitNumber(DigitsOf(data), |DigitsOf(data)|) == Filled(Number(data, |data|), |data| - 3 * (|data| / 3))
  {
    var k := |data| / 3;
    var n, head, ds := 4 * k, GroupDigits(data, k), DigitsOf(data);
    GroupsNumber(data, k);
    assert ds[..n] == head[..n];
    SamePrefix(ds, head, n);
    TailNumber(head, data[3 * k..], Number(data, 3 * k));
    NumberTail(data, 3 * k);
    EncodedLength(data, k);
  }

  /** A number followed by at most two more bytes. */
  function Extended(m: nat, rest: seq<Byte>): nat {
    if |rest| == 1 then m * 256 + rest[0]
    else if |rest| == 2 then (m * 256 + rest[0]) * 256 + rest[1]
    else m
  }

  lemma NumberTail(data: seq<Byte>, n: nat)
    requires n <= |data| < n + 3
    ensures Number(data, |data|) == Extended(Number(data, n), data[n..])
  {
    if |data| == n + 2 {
      assert Number(data, n + 1) == Number(data, n) * 256 + data[n];
    }
  }

  lemma EncodedLength(data: seq<Byte>, k: nat)
    requires 3 * k <= |data| < 3 * k + 3
    ensures k == |data| / 3 && |Encoded(data)| == 4 * ((|data| + 2) / 3)
  {
    assert |data| - 3 * k == 0 ==> (|data| + 2) / 3 == k;
    assert |data| - 3 * k > 0 ==> (|data| + 2) / 3 == k + 1;
  }

  lemma TailNumber(head: seq<Digit>, rest: seq<Byte>, m: nat)
    requires |rest| < 3 && DigitNumber(head + TailDigits(rest), |head|) == m
    ensures var ds := head + TailDigits(rest);
            DigitNumber(ds, |ds|) == Filled(Extended(m, rest), |rest|)
  {
    if |rest| > 0 {
      DigitsNumber(m, rest[0], if |rest| == 2 then rest[1] else 0, 0);
      Appended(head, TailDigits(rest));
    }
  }

  /** The number of some digits followed by two or three. */
  lemma Appended(head: seq<Digit>, tail: seq<Digit>)
    ensures |tail| == 2 ==>
              DigitNumber(head + tail, |head| + 2) == Radix64(DigitNumber(head + tail, |head|), tail[0], tail[1])
    ensures |tail| == 3 ==>
              DigitNumber(head + tail, |head| + 3) ==
              Radix64(DigitNumber(head + tail, |head|), tail[0], tail[1]) * 64 + tail[2]
  {
    if |tail| == 3 {
      assert DigitNumber(head + tail, |head| + 2) == Radix64(DigitNumber(head + tail, |head|), tail[0], tail[1]);
    }
  }

  // ---- The alphabet, the padding and decoding, in numbers ----

  /** Which character stands for a digit, by their codes: capitals, small letters, ciphers, plus and slash. */
  lemma AlphabetIs(d: Digit)
    ensures EncodeDigit(d) as int == if d < 26 then 65 + d else if d < 52 then 71 + d else if d < 62 then d - 4
                                     else if d == 62 then 43 else 47
  {}

  /** Every other character is skipped by the decoder, but an equals sign ends the text. */
  lemma ReadsOne(c: char, d: Digit, rest: string)
    ensures Read("=" + rest) == [] && Read("") == []
    ensures Read([EncodeDigit(d)] + rest) == [d] + Read(rest)
    ensures c != '=' && (forall e: Digit :: EncodeDigit(e) != c) ==> Read([c] + rest) == Read(rest)
  {
    DigitRoundTrip(d);
    assert ([EncodeDigit(d)] + rest)[1..] == rest && ([c] + rest)[1..] == rest;
  }

  /** An encoding is the digits, one character each, then as many equals signs as complete four: at most two. */
  lemma EncodedSpells(data: seq<Byte>)
    ensures var ds, pad := DigitsOf(data), if |data| % 3 == 1 then "==" else if |data| % 3 == 2 then "=" else "";
            Encoded(data) == Spell(ds) + pad && |Spell(ds)| == |ds|
    ensures forall i :: 0 <= i < |DigitsOf(data)| ==> Encoded(data)[i] == EncodeDigit(DigitsOf(data)[i])
  {
    SpellAt(DigitsOf(data));
  }

  lemma {:induction false} SpellAt(ds: seq<Digit>)
    ensures forall i :: 0 <= i < |ds| ==> Spell(ds)[i] == EncodeDigit(ds[i])
  {
    if ds != [] {
      SpellAt(ds[1..]);
      forall i | 0 <= i < |ds| ensures Spell(ds)[i] == EncodeDigit(ds[i]) {
        assert i > 0 ==> ds[i] == ds[1..][i - 1];
      }
    }
  }

  /** More bytes behind a number. */
  function BytesBehind(m: nat, data: seq<Byte>): nat
    decreases data
  {
    if data == [] then m else BytesBehind(m * 256 + data[0], data[1..])
  }

  /** More digits behind a number. */
  function DigitsBehind(m: nat, ds: seq<Digit>): nat
    decreases ds
  {
    if ds == [] then m else DigitsBehind(m * 64 + ds[0], ds[1..])
  }

  /** The value of the bits that do not complete a byte. */
  function Spare(bits: nat): (p: nat)
    ensures p >= 1
  {
    if bits % 8 == 2 then 4 else if bits % 8 == 4 then 16 else if bits % 8 == 6 then 64 else 1
  }

  /** A number with the waiting bits behind it. */
  function WithWaiting(m: nat, acc: int, bits: nat): nat
    requires Pending(acc, bits)
  {
    if bits == 2 then m * 4 + acc else if bits == 4 then m * 16 + acc else if bits == 6 then m * 64 + acc else m
  }

  /** What is left of a number without its spare bits. */
  function Whole(t: nat, bits: nat): nat {
    t / Spare(bits)
  }

  function Eighths(bits: nat): nat {
    bits / 8
  }

  lemma {:induction false} BytesAreDigits(m: nat, acc: int, bits: nat, ds: seq<Digit>)
    requires Pending(acc, bits)
    ensures BytesBehind(m, BytesFrom(acc, bits, ds)) == Whole(DigitsBehind(WithWaiting(m, acc, bits), ds), bits + 6 * |ds|)
    ensures |BytesFrom(acc, bits, ds)| == Eighths(bits + 6 * |ds|)
    decreases ds
  {
    hide BytesBehind, DigitsBehind, Whole, Eighths;
    if ds == [] {
      Dropped(m, acc, bits);
    } else {
      var v, rest := ds[0], ds[1..];
      OneDigit(WithWaiting(m, acc, bits), ds);
      assert 6 * |ds| == 6 * |rest| + 6;
      if bits == 0 {
        BytesAreDigits(m, v, 6, rest);
      } else {
        BytesOnce(m, acc, bits, ds);
        WholeTurns(DigitsBehind(WithWaiting(m, acc, bits), ds), bits + 6 * |ds| - 8);
        if bits == 2 {
          BytesAreDigits(m * 256 + (acc * 64 + v), 0, 0, rest);
        } else if bits == 4 {
          BytesAreDigits(m * 256 + (acc * 16 + v / 4), v % 4, 2, rest);
        } else {
          BytesAreDigits(m * 256 + (acc * 4 + v / 16), v % 16, 4, rest);
        }
      }
    }
  }

  lemma Dropped(m: nat, acc: int, bits: nat)
    requires Pending(acc, bits)
    ensures BytesFrom(acc, bits, []) == [] && BytesBehind(m, []) == m && Eighths(bits) == 0
    ensures Whole(DigitsBehind(WithWaiting(m, acc, bits), []), bits) == m
  {}

  lemma WholeTurns(t: nat, bits: nat)
    ensures Whole(t, bits + 8) == Whole(t, bits) && Eighths(bits + 8) == Eighths(bits) + 1
  {
    assert (bits + 8) % 8 == bits % 8;
  }

  lemma OneDigit(t: nat, ds: seq<Digit>)
    requires ds != []
    ensures DigitsBehind(t, ds) == DigitsBehind(t * 64 + ds[0], ds[1..])
  {}

  /** A digit that completes a byte. */
  lemma BytesOnce(m: nat, acc: int, bits: nat, ds: seq<Digit>)
    requires Pending(acc, bits) && bits > 0 && ds != []
    ensures var v, out := ds[0], BytesFrom(acc, bits, ds);
            && (bits == 2 ==>
                  && |out| == 1 + |BytesFrom(0, 0, ds[1..])|
                  && BytesBehind(m, out) == BytesBehind(m * 256 + (acc * 64 + v), BytesFrom(0, 0, ds[1..])))
            && (bits == 4 ==>
                  && |out| == 1 + |BytesFrom(v % 4, 2, ds[1..])|
                  && BytesBehind(m, out) == BytesBehind(m * 256 + (acc * 16 + v / 4), BytesFrom(v % 4, 2, ds[1..])))
            && (bits == 6 ==>
                  && |out| == 1 + |BytesFrom(v % 16, 4, ds[1..])|
                  && BytesBehind(m, out) == BytesBehind(m * 256 + (acc * 4 + v / 16), BytesFrom(v % 16, 4, ds[1..])))
  {
    hide BytesBehind;
    var v := ds[0];
    if bits == 2 {
      OneOut(m, acc * 64 + v, BytesFrom(0, 0, ds[1..]));
    } else if bits == 4 {
      OneOut(m, acc * 16 + v / 4, BytesFrom(v % 4, 2, ds[1..]));
    } else {
      OneOut(m, acc * 4 + v / 16, BytesFrom(v % 16, 4, ds[1..]));
    }
  }

  lemma OneOut(m: nat, b: Byte, rest: seq<Byte>)
    ensures BytesBehind(m, [b] + rest) == BytesBehind(m * 256 + b, rest)
  {
    assert ([b] + rest)[1..] == rest;
  }

  /** A text decodes to the number its digits spell, without the last two, four or six bits that make no byte. */
  lemma DecodingIsRadix64(text: string)
    ensures var ds := Read(text);
            && |Decoded(text)| == 6 * |ds| / 8
            && BytesBehind(0, Decoded(text)) ==
               DigitsBehind(0, ds) /
               if |ds| % 4 == 0 then 1 else if |ds| % 4 == 1 then 64 else if |ds| % 4 == 2 then 16 else 4
  {
    hide BytesBehind, DigitsBehind, Spare;
    BytesAreDigits(0, 0, 0, Read(text));
    SpareOf(|Read(text)|);
  }

  lemma SpareOf(n: nat)
    ensures Spare(6 * n) == if n % 4 == 0 then 1 else if n % 4 == 1 then 64 else if n % 4 == 2 then 16 else 4
  {
    var q, r := n / 4, n % 4;
    assert 6 * n == 8 * (3 * q) + 6 * r;
    assert 6 * n % 8 == 6 * r % 8;
  }
}
