/** Stored passwords: pbkdf2$iterations$salt$hash, with the key derivation a parameter. */
module Password {
  import opened Options
  import opened Text
  import opened Base64

  /** PBKDF2-HMAC-SHA256: any function of the password, the salt and the iteration count. */
  type Derivation = (string, seq<Byte>, int) -> seq<Byte>

  const SEP := '$'
  const SCHEME := "pbkdf2"
  const INT_MAX := 0x7FFF_FFFF
  const INT_MIN := -0x8000_0000
  const SALT_LENGTH := 16
  const DEFAULT_ITERATIONS := 100000

  // ---- Decimal numbers ----

  function DecimalDigit(d: int): (c: char)
    requires 0 <= d < 10
    ensures IsDigit(c) && c as int - '0' as int == d
  {
    '0' + d as char
  }

  predicate IsDigit(c: char) {
    '0' <= c <= '9'
  }

  /** `std::to_string` of a count. */
  function Decimal(n: nat): (s: string)
    ensures s != "" && forall i :: 0 <= i < |s| ==> IsDigit(s[i])
  {
    if n < 10 then [DecimalDigit(n)] else Decimal(n / 10) + [DecimalDigit(n % 10)]
  }

  /** The number the leading digits spell. */
  function ReadDigits(s: string, n: nat): nat {
    if s == "" || !IsDigit(s[0]) then n else ReadDigits(s[1..], n * 10 + (s[0] as int - '0' as int))
  }

  function SkipSpace(s: string): string {
    if s != "" && IsSpace(s[0]) then SkipSpace(s[1..]) else s
  }

  predicate IsSpace(c: char) {
    c == ' ' || '\t' <= c <= '\r'
  }

  /** `std::stoi`: blanks, a sign and digits, whatever follows; nothing when there are no digits or too large a number. */
  function Stoi(s: string): Option<int> {
    var t := SkipSpace(s);
    var signed := t != "" && (t[0] == '-' || t[0] == '+');
    var u := if signed then t[1..] else t;
    if u == "" || !IsDigit(u[0]) then None
    else
      var magnitude: int := ReadDigits(u, 0);
      var n := if signed && t[0] == '-' then -magnitude else magnitude;
      if INT_MIN <= n <= INT_MAX then Some(n) else None
  }

  lemma {:induction false} ReadDecimal(n: nat, rest: string)
    ensures ReadDigits(Decimal(n) + rest, 0) == ReadDigits(rest, n)
  {
    if n < 10 {
      assert (Decimal(n) + rest)[1..] == rest;
    } else {
      var tail := [DecimalDigit(n % 10)] + rest;
      assert Decimal(n) + rest == Decimal(n / 10) + tail;
      ReadDecimal(n / 10, tail);
      assert tail[1..] == rest;
    }
  }

  // ---- What a number may look like ----

  /** The white space that may come before it: tab to carriage return, and space. */
  predicate AllSpace(s: string) {
    forall i :: 0 <= i < |s| ==> 9 <= s[i] as int <= 13 || s[i] as int == 32
  }

  predicate AllDigits(s: string) {
    forall i :: 0 <= i < |s| ==> 48 <= s[i] as int <= 57
  }

  /** The value of decimal digits. */
  function Value(s: string): nat
    requires AllDigits(s)
  {
    if s == "" then 0 else 10 * Value(s[..|s| - 1]) + (s[|s| - 1] as int - 48)
  }

  /** White space, at most one sign, and all the digits there are, at least one. */
  predicate Numeral(s: string, space: string, sign: string, digits: string, rest: string) {
    && s == space + sign + digits + rest && AllSpace(space) && sign in {"", "+", "-"}
    && digits != "" && AllDigits(digits) && (rest == "" || rest[0] as int < 48 || 57 < rest[0] as int)
  }

  /** Such a text reads as the number it spells, if that fits 32 bits. */
  lemma StoiReads(s: string, space: string, sign: string, digits: string, rest: string)
    requires Numeral(s, space, sign, digits, rest)
    ensures var v: int := Value(digits);
            var n := if sign == "-" then -v else v;
            Stoi(s) == if -2147483648 <= n <= 2147483647 then Some(n) else None
  {
    hide AllSpace, ReadDigits, Value, SkipSpace;
    var t := sign + digits + rest;
    assert s == space + t && (t[0] == digits[0] || t[0] == sign[0]);
    SpaceSkipped(space, t);
    assert t[|sign|..] == digits + rest && IsDigit(t[|sign|]);
    DigitsRead(digits, rest);
  }

  /** And no other text reads as a number. */
  lemma StoiNeeds(s: string) returns (space: string, sign: string, digits: string, rest: string)
    requires Stoi(s).Some?
    ensures Numeral(s, space, sign, digits, rest)
  {
    space := SpaceBefore(s);
    var t := SkipSpace(s);
    sign := if t[0] == '-' then "-" else if t[0] == '+' then "+" else "";
    digits, rest := DigitsBefore(t[|sign|..]);
    assert s == space + sign + digits + rest;
  }

  lemma {:induction false} SpaceSkipped(space: string, t: string)
    requires AllSpace(space) && t != "" && !(9 <= t[0] as int <= 13 || t[0] as int == 32)
    ensures SkipSpace(space + t) == t
  {
    if space == "" {
      assert space + t == t;
    } else {
      assert (space + t)[1..] == space[1..] + t;
      SpaceSkipped(space[1..], t);
    }
  }

  lemma {:induction false} SpaceBefore(s: string) returns (space: string)
    ensures AllSpace(space) && s == space + SkipSpace(s)
  {
    space := "";
    if s != "" && IsSpace(s[0]) {
      var more := SpaceBefore(s[1..]);
      space := [s[0]] + more;
      assert s == [s[0]] + s[1..];
    }
  }

  lemma {:induction false} DigitsBefore(s: string) returns (digits: string, rest: string)
    ensures s == digits + rest && AllDigits(digits) && (rest == "" || rest[0] as int < 48 || 57 < rest[0] as int)
    ensures s != "" && IsDigit(s[0]) ==> digits != ""
  {
    digits, rest := "", s;
    if s != "" && IsDigit(s[0]) {
      digits, rest := DigitsBefore(s[1..]);
      digits := [s[0]] + digits;
      assert s == [s[0]] + s[1..];
    }
  }

  lemma {:induction false} DigitsRead(digits: string, rest: string)
    requires AllDigits(digits) && (rest == "" || rest[0] as int < 48 || 57 < rest[0] as int)
    ensures ReadDigits(digits + rest, 0) == Value(digits)
    decreases |digits|
  {
    DigitsReadOn(digits, "", rest);
    assert "" + digits == digits;
  }

  lemma {:induction false} DigitsReadOn(digits: string, read: string, rest: string)
    requires AllDigits(read + digits) && AllDigits(read) && (rest == "" || rest[0] as int < 48 || 57 < rest[0] as int)
    ensures ReadDigits(digits + rest, Value(read)) == Value(read + digits)
    decreases |digits|
  {
    if digits == "" {
      assert read + digits == read && digits + rest == rest;
    } else {
      var read' := read + digits[..1];
      assert (read + digits)[|read|] == digits[0];
      assert read + digits == read' + digits[1..] && read'[..|read'| - 1] == read;
      assert (digits + rest)[1..] == digits[1..] + rest;
      DigitsReadOn(digits[1..], read', rest);
    }
  }

  lemma StoiDecimal(n: nat)
    requires n <= INT_MAX
    ensures Stoi(Decimal(n)) == Some(n)
  {
    ReadDecimal(n, "");
    assert Decimal(n) + "" == Decimal(n);
    assert IsDigit(Decimal(n)[0]);
  }

  // ---- Comparison ----

  function BitOr(a: nat, b: nat): nat
    decreases a + b
  {
    if a == 0 && b == 0 then 0 else BitOr(a / 2, b / 2) * 2 + if a % 2 == 1 || b % 2 == 1 then 1 else 0
  }

  function BitXor(a: nat, b: nat): nat
    decreases a + b
  {
    if a == 0 && b == 0 then 0 else BitXor(a / 2, b / 2) * 2 + if a % 2 != b % 2 then 1 else 0
  }

  lemma {:induction false} OrZero(a: nat, b: nat)
    ensures BitOr(a, b) == 0 <==> a == 0 && b == 0
    decreases a + b
  {
    if a != 0 || b != 0 { OrZero(a / 2, b / 2); }
  }

  lemma {:induction false} XorZero(a: nat, b: nat)
    ensures BitXor(a, b) == 0 <==> a == b
    decreases a + b
  {
    if a != 0 || b != 0 { XorZero(a / 2, b / 2); }
  }

  /** The k-th binary digit. */
  predicate Bit(n: nat, k: nat) {
    if k == 0 then n % 2 == 1 else Bit(n / 2, k - 1)
  }

  /** These are the operations on the single binary digits. */
  lemma {:induction false} BitsApart(a: nat, b: nat, k: nat)
    ensures Bit(BitOr(a, b), k) <==> Bit(a, k) || Bit(b, k)
    ensures Bit(BitXor(a, b), k) <==> Bit(a, k) != Bit(b, k)
    decreases k
  {
    hide BitOr, BitXor;
    OrHalves(a, b);
    XorHalves(a, b);
    if k > 0 { BitsApart(a / 2, b / 2, k - 1); }
  }

  lemma OrHalves(a: nat, b: nat)
    ensures BitOr(a, b) / 2 == BitOr(a / 2, b / 2) && (BitOr(a, b) % 2 == 1 <==> a % 2 == 1 || b % 2 == 1)
  {}

  lemma XorHalves(a: nat, b: nat)
    ensures BitXor(a, b) / 2 == BitXor(a / 2, b / 2) && (BitXor(a, b) % 2 == 1 <==> a % 2 != b % 2)
  {}

  /** Differences are gathered without stopping at the first; the answer is equality. */
  method ConstantTimeEqual(a: seq<Byte>, b: seq<Byte>) returns (equal: bool)
    ensures equal <==> a == b
  {
    if |a| != |b| { return false; }
    var diff := 0;
    for i := 0 to |a|
      invariant diff >= 0 && (diff == 0 <==> a[..i] == b[..i])
    {
      XorZero(a[i], b[i]);
      OrZero(diff, BitXor(a[i], b[i]));
      assert a[..i + 1] == a[..i] + [a[i]] && b[..i + 1] == b[..i] + [b[i]];
      diff := BitOr(diff, BitXor(a[i], b[i]));
    }
    assert a[..|a|] == a && b[..|b|] == b;
    equal := diff == 0;
  }

  // ---- Splitting ----

  /** `split`. */
  method SplitOn(s: string, sep: char) returns (out: seq<string>)
    ensures out == Split(s, sep)
  {
    out := [];
    var pos := 0;
    while true
      invariant 0 <= pos <= |s| && out + Split(s[pos..], sep) == Split(s, sep)
      decreases |s| - pos
    {
      var next := Find(s, sep, pos);
      FirstPart(s, sep, pos, next);
      if next < 0 {
        out := out + [s[pos..]];
        return;
      }
      ghost var later := Split(s[next + 1..], sep);
      assert out + ([s[pos..next]] + later) == out + [s[pos..next]] + later;
      out := out + [s[pos..next]];
      pos := next + 1;
    }
  }

  lemma FirstPart(s: string, sep: char, pos: nat, next: int)
    requires pos <= |s| && next < |s|
    requires if next < 0 then Free(s[pos..], sep) else pos <= next && s[next] == sep && Free(s[pos..next], sep)
    ensures Split(s[pos..], sep) == if next < 0 then [s[pos..]] else [s[pos..next]] + Split(s[next + 1..], sep)
  {
    var rest := s[pos..];
    if next < 0 {
      SplitFree(rest, sep);
    } else {
      assert rest[..next - pos] == s[pos..next] && rest[next - pos + 1..] == s[next + 1..];
      SplitAt(rest, next - pos, sep);
    }
  }

  // ---- Hashing and verifying ----

  function Iterations(n: int): (r: int)
    ensures r > 0 && (n <= INT_MAX ==> r <= INT_MAX)
  {
    if n <= 0 then DEFAULT_ITERATIONS else n
  }

  function Fields(derive: Derivation, password: string, n: int, salt: seq<Byte>): seq<string> {
    [SCHEME, Decimal(Iterations(n)), Encoded(salt), Encoded(derive(password, salt, Iterations(n)))]
  }

  function Hashed(derive: Derivation, password: string, n: int, salt: seq<Byte>): string {
    Join(Fields(derive, password, n, salt), SEP)
  }

  /** `hash_password`; the draws are the random bytes of the salt. */
  method HashPassword(derive: Derivation, password: string, n: int, draws: seq<Byte>) returns (stored: string)
    requires |draws| >= SALT_LENGTH == 16
    ensures stored == Hashed(derive, password, n, draws[..16])
  {
    var iterations := if n <= 0 then DEFAULT_ITERATIONS else n;
    var salt: seq<Byte> := [];
    for i := 0 to SALT_LENGTH
      invariant salt == draws[..i]
    {
      salt := salt + [draws[i]];
    }
    var hash := derive(password, salt, iterations);
    var saltText := Encode(salt);
    var hashText := Encode(hash);
    stored := SCHEME + [SEP] + Decimal(iterations) + [SEP] + saltText + [SEP] + hashText;
    JoinFour(SCHEME, Decimal(iterations), saltText, hashText);
  }

  lemma JoinFour(a: string, b: string, c: string, d: string)
    ensures Join([a, b, c, d], SEP) == a + [SEP] + b + [SEP] + c + [SEP] + d
  {
    assert [a, b, c, d][1..] == [b, c, d] && [b, c, d][1..] == [c, d] && [c, d][1..] == [d];
    assert Join([c, d], SEP) == c + [SEP] + d;
    assert Join([b, c, d], SEP) == b + [SEP] + (c + [SEP] + d);
  }

  /** The text stored: the scheme, 100000 iterations unless a positive count is asked for, the salt and the bytes derived. */
  lemma HashedText(derive: Derivation, password: string, n: int, salt: seq<Byte>)
    ensures var iterations := if n <= 0 then 100000 else n;
            Hashed(derive, password, n, salt) ==
            "pbkdf2" + "$" + Decimal(iterations) + "$" + Encoded(salt) + "$" + Encoded(derive(password, salt, iterations))
  {
    hide Decimal, Encoded, Join;
    var fields := Fields(derive, password, n, salt);
    JoinFour(fields[0], fields[1], fields[2], fields[3]);
  }

  /** A stored password as its iteration count, salt and expected hash; `None` when it is malformed. */
  function Parsed(stored: string): Option<(int, seq<Byte>, seq<Byte>)> {
    var parts := Split(stored, SEP);
    if |parts| != 4 || parts[0] != SCHEME then None
    else match Stoi(parts[1])
      case None => None
      case Some(n) =>
        if n <= 0 || Decoded(parts[2]) == [] || Decoded(parts[3]) == [] then None
        else Some((n, Decoded(parts[2]), Decoded(parts[3])))
  }

  predicate Verifies(derive: Derivation, password: string, stored: string) {
    match Parsed(stored)
    case None => false
    case Some(p) => derive(password, p.1, p.0) == p.2
  }

  /** `verify_password`: malformed text is refused, never an error. */
  method VerifyPassword(derive: Derivation, password: string, stored: string) returns (ok: bool)
    ensures ok == Verifies(derive, password, stored)
  {
    var parts := SplitOn(stored, SEP);
    if |parts| != 4 || parts[0] != SCHEME { return false; }
    var parsed := Stoi(parts[1]);
    if parsed == None { return false; }
    var iterations := parsed.value;
    if iterations <= 0 { return false; }
    var salt := Decode(parts[2]);
    var expected := Decode(parts[3]);
    if salt == [] || expected == [] { return false; }
    ok := ConstantTimeEqual(derive(password, salt, iterations), expected);
  }

  /**
   What is accepted: four fields between dollar signs, of which the second reads as a positive number, the
   third and fourth decode to some bytes, and the fourth to those derived from the password.
   */
  lemma VerifiesIff(derive: Derivation, password: string, count: string, saltText: string, hashText: string)
    requires Free(count, '$') && Free(saltText, '$') && Free(hashText, '$')
    ensures Verifies(derive, password, "pbkdf2$" + count + "$" + saltText + "$" + hashText) <==>
            && Stoi(count).Some? && Stoi(count).value > 0 && Decoded(saltText) != [] && Decoded(hashText) != []
            && derive(password, Decoded(saltText), Stoi(count).value) == Decoded(hashText)
  {
    var fields := ["pbkdf2", count, saltText, hashText];
    FourJoined(fields);
    assert "pbkdf2" + "$" == "pbkdf2$" && Free("pbkdf2", '$');
    SplitJoin(fields, '$');
  }

  lemma FourJoined(fields: seq<string>)
    requires |fields| == 4
    ensures Join(fields, '$') == fields[0] + "$" + fields[1] + "$" + fields[2] + "$" + fields[3]
  {
    assert fields == [fields[0], fields[1], fields[2], fields[3]];
    JoinFour(fields[0], fields[1], fields[2], fields[3]);
  }

  /** No text of another shape is accepted. */
  lemma VerifiesNeeds(derive: Derivation, password: string, stored: string)
      returns (count: string, saltText: string, hashText: string)
    requires Verifies(derive, password, stored)
    ensures stored == "pbkdf2$" + count + "$" + saltText + "$" + hashText
    ensures Free(count, '$') && Free(saltText, '$') && Free(hashText, '$')
  {
    hide Stoi, Decoded;
    var parts := Split(stored, '$');
    JoinSplit(stored, '$');
    FourJoined(parts);
    count, saltText, hashText := parts[1], parts[2], parts[3];
    assert "pbkdf2" + "$" == "pbkdf2$";
  }

  // ---- The format ----

  lemma {:induction false} SpelledFree(ds: seq<Digit>)
    ensures Free(Spell(ds), SEP)
  {
    if ds != [] {
      DigitRoundTrip(ds[0]);
      SpelledFree(ds[1..]);
    }
  }

  /** No field contains the separator. */
  lemma EncodedFree(data: seq<Byte>)
    ensures Free(Encoded(data), SEP)
  {
    SpelledFree(DigitsOf(data));
  }

  /** Parsing a hashed password gives back its iteration count, its salt and its hash. */
  lemma ParseHashed(derive: Derivation, password: string, n: int, salt: seq<Byte>)
    requires n <= INT_MAX && salt != [] && derive(password, salt, Iterations(n)) != []
    ensures Parsed(Hashed(derive, password, n, salt)) ==
            Some((Iterations(n), salt, derive(password, salt, Iterations(n))))
  {
    var fields := Fields(derive, password, n, salt);
    assert Free(SCHEME, SEP);
    assert Free(fields[1], SEP);
    EncodedFree(salt);
    EncodedFree(derive(password, salt, Iterations(n)));
    SplitJoin(fields, SEP);
    StoiDecimal(Iterations(n));
    DecodeEncode(salt);
    DecodeEncode(derive(password, salt, Iterations(n)));
  }

  /**
   A password verifies against a hash of another exactly when the two derive the same bytes under the
   hash's salt and iteration count; so the password itself always does.
   */
  lemma VerifiesHashed(derive: Derivation, p: string, q: string, n: int, salt: seq<Byte>)
    requires n <= INT_MAX && |salt| == SALT_LENGTH && derive(p, salt, Iterations(n)) != []
    ensures Verifies(derive, q, Hashed(derive, p, n, salt)) <==>
            derive(q, salt, Iterations(n)) == derive(p, salt, Iterations(n))
    ensures Verifies(derive, p, Hashed(derive, p, n, salt))
  {
    ParseHashed(derive, p, n, salt);
  }
}
