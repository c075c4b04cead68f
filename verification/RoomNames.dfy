/** Trimming and upper-casing of room names: names are compared only in this form. */
module RoomNames {
  import opened Trimming

  function ToUpper(c: char): (u: char)
    ensures IsBlank(u) <==> IsBlank(c)
  {
    if 'a' <= c <= 'z' then c - 'a' + 'A' else c
  }

  function Upper(s: string): (u: string)
    ensures |u| == |s| && forall i :: 0 <= i < |s| ==> u[i] == ToUpper(s[i])
  {
    seq(|s|, i requires 0 <= i < |s| => ToUpper(s[i]))
  }

  function UpperTrim(s: string): string {
    Upper(Trim(s))
  }

  /** Upper-trimming twice is upper-trimming once; upper-trimming a trimmed name only upper-cases it. */
  lemma UpperTrimIdempotent(s: string)
    ensures UpperTrim(UpperTrim(s)) == UpperTrim(s) == UpperTrim(Trim(s))
  {
    var _, _ := TrimCutsBlanks(s);
    var t := Trim(s);
    assert forall i :: 0 <= i < |t| ==> ToUpper(ToUpper(t[i])) == ToUpper(t[i]);
    assert Upper(Upper(t)) == Upper(t);
  }

  /** Two characters are the same, or one letter and its capital. */
  predicate SameLetter(c: char, d: char) {
    || c == d
    || (97 <= c as int <= 122 && d as int == c as int - 32)
    || (97 <= d as int <= 122 && c as int == d as int - 32)
  }

  /** Upper-trimming makes two names equal exactly when, once trimmed, they are spelled with the same letters. */
  lemma UpperTrimMeets(s: string, t: string)
    ensures UpperTrim(s) == UpperTrim(t) <==>
            |Trim(s)| == |Trim(t)| && forall i :: 0 <= i < |Trim(s)| ==> SameLetter(Trim(s)[i], Trim(t)[i])
  {
    var a, b := Trim(s), Trim(t);
    if |a| == |b| {
      assert forall i :: 0 <= i < |a| ==> (ToUpper(a[i]) == ToUpper(b[i]) <==> SameLetter(a[i], b[i]));
      if Upper(a) == Upper(b) {
        assert forall i :: 0 <= i < |a| ==> Upper(a)[i] == Upper(b)[i];
      }
    }
  }
}
