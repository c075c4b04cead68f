/** Splitting and joining strings on a separator, shared by the codecs and the dotted-path update. */
module Text {
  predicate Free(s: string, sep: char) {
    forall i :: 0 <= i < |s| ==> s[i] != sep
  }

  /** The first `sep` at or after `start`, or -1. */
  method Find(s: string, sep: char, start: nat) returns (at: int)
    requires start <= |s|
    ensures at < 0 ==> Free(s[start..], sep)
    ensures at >= 0 ==> start <= at < |s| && s[at] == sep && Free(s[start..at], sep)
  {
    var i := start;
    while i < |s|
      invariant start <= i <= |s|
      invariant Free(s[start..i], sep)
    {
      if s[i] == sep { return i; }
      assert s[start..i + 1] == s[start..i] + [s[i]];
      i := i + 1;
    }
    assert s[start..i] == s[start..];
    at := -1;
  }

  /** The parts between separators; a string with n separators has n + 1 parts. */
  function Split(s: string, sep: char): (parts: seq<string>)
    ensures |parts| >= 1
    ensures forall i :: 0 <= i < |parts| ==> Free(parts[i], sep)
  {
    if s == "" then [""]
    else
      var rest := Split(s[1..], sep);
      if s[0] == sep then [""] + rest else [[s[0]] + rest[0]] + rest[1..]
  }

  function Join(parts: seq<string>, sep: char): string {
    if parts == [] then ""
    else if |parts| == 1 then parts[0]
    else parts[0] + [sep] + Join(parts[1..], sep)
  }

  lemma {:induction false} SplitFree(s: string, sep: char)
    requires Free(s, sep)
    ensures Split(s, sep) == [s]
  {
    if s != "" {
      assert s[0] != sep;
      SplitFree(s[1..], sep);
      assert [s[0]] + s[1..] == s;
    }
  }

  /** The first separator ends the first part. */
  lemma {:induction false} SplitAt(s: string, at: int, sep: char)
    requires 0 <= at < |s| && s[at] == sep && Free(s[..at], sep)
    ensures Split(s, sep) == [s[..at]] + Split(s[at + 1..], sep)
  {
    if at > 0 {
      assert s[..at][0] == s[0];
      assert s[1..][..at - 1] == s[..at][1..];
      SplitAt(s[1..], at - 1, sep);
      assert s[1..][at..] == s[at + 1..];
      assert [s[0]] + s[1..][..at - 1] == s[..at];
    }
  }

  /** Splitting undoes joining, for any parts without the separator. */
  lemma {:induction false} SplitJoin(parts: seq<string>, sep: char)
    requires |parts| >= 1 && forall i :: 0 <= i < |parts| ==> Free(parts[i], sep)
    ensures Split(Join(parts, sep), sep) == parts
  {
    if |parts| == 1 {
      SplitFree(parts[0], sep);
    } else {
      var rest := Join(parts[1..], sep);
      var s := parts[0] + [sep] + rest;
      SplitJoin(parts[1..], sep);
      assert s[..|parts[0]|] == parts[0] && s[|parts[0]| + 1..] == rest;
      SplitAt(s, |parts[0]|, sep);
    }
  }

  /** Joining undoes splitting, for any string. */
  lemma {:induction false} JoinSplit(s: string, sep: char)
    ensures Join(Split(s, sep), sep) == s
  {
    if s != "" {
      JoinSplit(s[1..], sep);
      var rest := Split(s[1..], sep);
      if s[0] == sep {
        assert ([""] + rest)[1..] == rest;
        assert "" + [sep] + s[1..] == s;
      } else if |rest| == 1 {
        assert [s[0]] + s[1..] == s;
      } else {
        var parts := [[s[0]] + rest[0]] + rest[1..];
        assert parts[1..] == rest[1..];
        assert Join(parts, sep) == [s[0]] + (rest[0] + [sep] + Join(rest[1..], sep));
        assert [s[0]] + s[1..] == s;
      }
    }
  }
}
