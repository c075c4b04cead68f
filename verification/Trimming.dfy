/** Cutting blanks off both ends of a string. */
module Trimming {
  predicate IsBlank(c: char) {
    c == ' ' || c == '\t'
  }

  function TrimLeft(s: string): string {
    if s != "" && IsBlank(s[0]) then TrimLeft(s[1..]) else s
  }

  function TrimRight(s: string): string {
    if s != "" && IsBlank(s[|s| - 1]) then TrimRight(s[..|s| - 1]) else s
  }

  function Trim(s: string): string {
    TrimRight(TrimLeft(s))
  }

  predicate Blank(s: string) {
    forall i :: 0 <= i < |s| ==> IsBlank(s[i])
  }

  /** Neither end is blank. */
  predicate Trimmed(s: string) {
    s == "" || (!IsBlank(s[0]) && !IsBlank(s[|s| - 1]))
  }

  lemma {:induction false} TrimLeftDrops(s: string) returns (k: nat)
    ensures k <= |s| && TrimLeft(s) == s[k..] && Blank(s[..k])
    ensures TrimLeft(s) != "" ==> !IsBlank(TrimLeft(s)[0])
  {
    k := 0;
    if s != "" && IsBlank(s[0]) {
      k := TrimLeftDrops(s[1..]);
      assert s[1..][k..] == s[k + 1..] && s[..k + 1] == [s[0]] + s[1..][..k];
      k := k + 1;
    }
  }

  lemma {:induction false} TrimRightDrops(s: string) returns (k: nat)
    ensures k <= |s| && TrimRight(s) == s[..k] && Blank(s[k..])
    ensures TrimRight(s) != "" ==> !IsBlank(TrimRight(s)[k - 1])
  {
    k := |s|;
    if s != "" && IsBlank(s[|s| - 1]) {
      var t := s[..|s| - 1];
      k := TrimRightDrops(t);
      assert t[..k] == s[..k] && s[k..] == t[k..] + [s[|s| - 1]];
    }
  }

  /** Trimming cuts a blank prefix and a blank suffix, and nothing blank is left at either end. */
  lemma TrimCutsBlanks(s: string) returns (from: nat, to: nat)
    ensures from <= to <= |s| && Trim(s) == s[from..to] && Trimmed(Trim(s))
    ensures Blank(s[..from]) && Blank(s[to..])
  {
    from := TrimLeftDrops(s);
    var t := TrimLeft(s);
    var k := TrimRightDrops(t);
    to := from + k;
    assert s[from..][..k] == s[from..to] && s[from..][k..] == s[to..];
  }

  /** Spaces and tabs, character codes 32 and 9. */
  predicate SpacesTabs(s: string) {
    forall i :: 0 <= i < |s| ==> s[i] as int in {32, 9}
  }

  predicate PlainEnds(s: string) {
    s == "" || (s[0] as int !in {32, 9} && s[|s| - 1] as int !in {32, 9})
  }

  /** Trimming takes off spaces and tabs, and stops at anything else. */
  lemma TrimIs(left: string, inner: string, right: string)
    requires SpacesTabs(left) && SpacesTabs(right) && PlainEnds(inner)
    ensures Trim(left + inner + right) == inner
  {
    if inner == "" {
      assert left + inner + right == (left + right) + "";
      LeftTaken(left + right, "");
    } else {
      assert left + inner + right == left + (inner + right);
      LeftTaken(left, inner + right);
      RightTaken(inner, right);
    }
  }

  lemma {:induction false} LeftTaken(left: string, rest: string)
    requires SpacesTabs(left) && (rest == "" || rest[0] as int !in {32, 9})
    ensures TrimLeft(left + rest) == rest
  {
    if left == "" {
      assert left + rest == rest;
    } else {
      assert (left + rest)[1..] == left[1..] + rest;
      LeftTaken(left[1..], rest);
    }
  }

  lemma {:induction false} RightTaken(rest: string, right: string)
    requires SpacesTabs(right) && (rest == "" || rest[|rest| - 1] as int !in {32, 9})
    ensures TrimRight(rest + right) == rest
  {
    if right == "" {
      assert rest + right == rest;
    } else {
      var n := |right| - 1;
      assert (rest + right)[..|rest| + n] == rest + right[..n];
      RightTaken(rest, right[..n]);
    }
  }
}
