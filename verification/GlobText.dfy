/** The language of a path glob told from its text: what each way to begin a pattern asks of the text matched. */
module GlobText {
  import opened Options
  import opened Glob

  /** The texts that the pattern matches. */
  ghost predicate Means(pattern: string, text: string) {
    InLanguage(Tokens(pattern), text)
  }

  lemma MeansByToken(pattern: string, text: string)
    ensures if pattern == "" then Means(pattern, text) <==> text == ""
            else
              var t, rest := NextToken(pattern).0, pattern[NextToken(pattern).1..];
              if t.Star? then
                Means(pattern, text) <==> exists k :: 0 <= k <= |text| && '/' !in text[..k] && Means(rest, text[k..])
              else Means(pattern, text) <==> text != "" && Takes(t, text[0]) && Means(rest, text[1..])
  {
    MatchesIsLanguage(Tokens(pattern), text);
    if pattern != "" {
      var t, rest := NextToken(pattern).0, pattern[NextToken(pattern).1..];
      TokensCons(pattern);
      if t.Star? {
        forall k | 0 <= k <= |text| ensures Matches(Tokens(rest), text[k..]) <==> Means(rest, text[k..]) {
          MatchesIsLanguage(Tokens(rest), text[k..]);
        }
      } else if text != "" {
        MatchesIsLanguage(Tokens(rest), text[1..]);
      }
    }
  }

  /** Nothing is left to match; a star takes any run without a slash. */
  lemma StarMeans(rest: string, text: string)
    ensures Means("", text) <==> text == ""
    ensures Means("*" + rest, text) <==> exists k :: 0 <= k <= |text| && '/' !in text[..k] && Means(rest, text[k..])
  {
    MeansByToken("", text);
    MeansByToken("*" + rest, text);
    assert ("*" + rest)[1..] == rest;
  }

  /** A question mark takes one character that is no slash. */
  lemma MarkMeans(rest: string, text: string)
    ensures Means("?" + rest, text) <==> text != "" && text[0] != '/' && Means(rest, text[1..])
  {
    MeansByToken("?" + rest, text);
    assert ("?" + rest)[1..] == rest;
  }

  /** A character after a backslash, or one that is not special, takes itself; so does a backslash at the end. */
  lemma CharMeans(c: char, rest: string, text: string)
    ensures Means("\\" + [c] + rest, text) <==> text != "" && text[0] == c && Means(rest, text[1..])
    ensures c !in {'*', '?', '[', '\\'} ==>
              (Means([c] + rest, text) <==> text != "" && text[0] == c && Means(rest, text[1..]))
    ensures Means("\\", text) <==> text == "\\"
  {
    MeansByToken("\\" + [c] + rest, text);
    assert ("\\" + [c] + rest)[2..] == rest;
    MeansByToken([c] + rest, text);
    assert ([c] + rest)[1..] == rest;
    MeansByToken("\\", text);
    if text != "" { MeansByToken("", text[1..]); }
  }

  // ---- Classes ----

  /** A character or a range as it is written: its low end after a backslash or not, and its high end, if any. */
  datatype Element = Element(escaped: bool, lo: char, hi: Option<char>)

  function Spelling(e: Element): string {
    (if e.escaped then "\\" else "") + [e.lo] + if e.hi.Some? then "-" + [e.hi.value] else ""
  }

  function Spelled(es: seq<Element>): string {
    if es == [] then "" else Spelling(es[0]) + Spelled(es[1..])
  }

  /**
   What may be written between the brackets: a closing bracket only first or escaped, a backslash only escaped,
   no range up to a closing bracket, and no bare hyphen behind a single character but at the end.
   */
  predicate WellSpelled(es: seq<Element>, first: bool) {
    if es == [] then !first
    else
      && (!es[0].escaped ==> es[0].lo != '\\' && (es[0].lo == ']' ==> first))
      && es[0].hi != Some(']')
      && (es[0].hi == None && |es| > 1 && !es[1].escaped && es[1].lo == '-' ==> |es| == 2 && es[1].hi == None)
      && WellSpelled(es[1..], false)
  }

  /** Ranges compare their ends as signed bytes. */
  function Byte(c: char): int {
    if c as int <= 127 then c as int else c as int - 256
  }

  predicate Covers(e: Element, c: char) {
    match e.hi
    case None => c == e.lo
    case Some(hi) => Byte(e.lo) <= Byte(c) && Byte(c) <= Byte(hi)
  }

  predicate Covered(es: seq<Element>, c: char) {
    exists i :: 0 <= i < |es| && Covers(es[i], c)
  }

  function ItemOf(e: Element): Item {
    match e.hi
    case None => Single(e.lo)
    case Some(hi) => Range(e.lo, hi)
  }

  function ItemsOf(es: seq<Element>): (items: seq<Item>)
    ensures |items| == |es| && forall i :: 0 <= i < |es| ==> items[i] == ItemOf(es[i])
  {
    if es == [] then [] else [ItemOf(es[0])] + ItemsOf(es[1..])
  }

  lemma HeadSpelled(es: seq<Element>, first: bool, rest: string)
    requires es != [] && WellSpelled(es, first)
    ensures var s := Spelled(es) + "]" + rest;
            && s != "" && (s[0] == ']' ==> first) && HeadItem(s) == (ItemOf(es[0]), |Spelling(es[0])|)
            && s[|Spelling(es[0])|..] == Spelled(es[1..]) + "]" + rest
  {
    var s, n, tail := Spelled(es) + "]" + rest, |Spelling(es[0])|, Spelled(es[1..]) + "]" + rest;
    assert s == Spelling(es[0]) + tail;
    assert s[n..] == tail;
    if es[0].hi == None { TailHyphen(es[1..], rest); }
  }

  /** What follows a single character begins like no range. */
  lemma TailHyphen(es: seq<Element>, rest: string)
    requires WellSpelled(es, false)
    requires es != [] && !es[0].escaped && es[0].lo == '-' ==> |es| == 1 && es[0].hi == None
    ensures var tail := Spelled(es) + "]" + rest;
            tail != "" && (tail[0] == '-' ==> |tail| > 1 && tail[1] == ']')
  {
    if es != [] {
      assert Spelled(es) == Spelling(es[0]) + Spelled(es[1..]);
      if |es| == 1 { assert Spelled(es[1..]) == ""; }
    }
  }

  lemma {:induction false} ItemsSpelled(es: seq<Element>, first: bool, rest: string)
    requires WellSpelled(es, first)
    ensures ParseItems(Spelled(es) + "]" + rest, first) == Some((ItemsOf(es), |Spelled(es)| + 1))
  {
    hide HeadItem, Spelling;
    if es == [] {
      assert Spelled(es) + "]" + rest == "]" + rest;
    } else {
      HeadSpelled(es, first, rest);
      ItemsSpelled(es[1..], false, rest);
    }
  }

  /** And whatever is read as the inside of a class is spelled so. */
  lemma {:induction false} ItemsAreSpelled(s: string, first: bool) returns (es: seq<Element>, rest: string)
    requires ParseItems(s, first).Some?
    ensures WellSpelled(es, first) && s == Spelled(es) + "]" + rest
    decreases |s|
  {
    hide HeadItem, Spelling;
    if s[0] == ']' && !first {
      es, rest := [], s[1..];
      assert s == "]" + rest;
    } else {
      var n := HeadItem(s).1;
      var e := ElementRead(s);
      var tail: seq<Element>;
      tail, rest := ItemsAreSpelled(s[n..], false);
      es := [e] + tail;
      assert es[1..] == tail && s == s[..n] + s[n..];
      Unhyphened(s, e, tail, rest);
    }
  }

  lemma ElementRead(s: string) returns (e: Element)
    requires s != ""
    ensures s[..HeadItem(s).1] == Spelling(e) && HeadItem(s).0 == ItemOf(e) && e.hi != Some(']')
    ensures !e.escaped ==> e.lo == s[0] && (s[0] == '\\' ==> |s| == 1)
  {
    var k := if s[0] == '\\' && |s| > 1 then 1 else 0;
    e := Element(k == 1, s[k], if HeadItem(s).0.Range? then Some(s[k + 2]) else None);
  }

  lemma Unhyphened(s: string, e: Element, tail: seq<Element>, rest: string)
    requires s != "" && HeadItem(s).0 == ItemOf(e) && WellSpelled(tail, false)
    requires s[HeadItem(s).1..] == Spelled(tail) + "]" + rest
    ensures e.hi == None && tail != [] && !tail[0].escaped && tail[0].lo == '-' ==> |tail| == 1 && tail[0].hi == None
  {
    hide WellSpelled;
    var n := HeadItem(s).1;
    if tail != [] { SecondChar(tail, rest); }
    if e.hi == None && tail != [] && s[n..][0] == '-' {
      assert s[n] == '-' && s[n + 1] == s[n..][1];
    }
  }

  /** Behind a bare hyphen comes no closing bracket, unless it is the last thing spelled. */
  lemma SecondChar(es: seq<Element>, rest: string)
    requires es != [] && WellSpelled(es, false)
    ensures var s := Spelled(es) + "]" + rest;
            !es[0].escaped ==> s[0] == es[0].lo && |s| > 1 && (s[1] == ']' ==> |es| == 1 && es[0].hi == None)
  {
    hide Spelled, WellSpelled;
    var s, tail := Spelled(es) + "]" + rest, Spelled(es[1..]) + "]" + rest;
    Chopped(es, rest);
    if !es[0].escaped {
      match es[0].hi
      case Some(hi) => assert s == [es[0].lo, '-', hi] + tail;
      case None =>
        assert s == [es[0].lo] + tail;
        if |es| > 1 { TailStarts(es); }
    }
  }

  lemma Chopped(es: seq<Element>, rest: string)
    requires es != []
    ensures Spelled(es) + "]" + rest == Spelling(es[0]) + (Spelled(es[1..]) + "]" + rest)
  {
    hide Spelling;
  }

  lemma TailStarts(es: seq<Element>)
    requires |es| > 1 && WellSpelled(es, false)
    ensures Spelled(es[1..]) != "" && Spelled(es[1..])[0] != ']'
  {
    hide Spelled;
    StartsWith(es[1..], false);
  }

  lemma StartsWith(es: seq<Element>, first: bool)
    requires es != [] && WellSpelled(es, first)
    ensures Spelled(es) != "" && Spelled(es)[0] == if es[0].escaped then '\\' else es[0].lo
    ensures Spelled(es)[0] == ']' ==> first
  {
    hide Spelled;
    SpelledFirst(es);
  }

  lemma SpelledFirst(es: seq<Element>)
    requires es != []
    ensures Spelled(es) != "" && Spelled(es)[0] == if es[0].escaped then '\\' else es[0].lo
  {
    assert Spelled(es) == Spelling(es[0]) + Spelled(es[1..]);
  }

  /** A pattern that begins with a closed class: what stands between its brackets, behind a sign of negation or none. */
  predicate ClassText(pattern: string, sign: string, es: seq<Element>, rest: string) {
    && sign in {"", "!", "^"} && WellSpelled(es, true)
    && (sign == "" ==> es[0].escaped || es[0].lo !in {'!', '^'})
    && pattern == "[" + sign + Spelled(es) + "]" + rest
  }

  lemma InsideRead(pattern: string, sign: string, es: seq<Element>, rest: string)
    requires ClassText(pattern, sign, es, rest)
    ensures Negates(pattern[1..]) <==> sign != ""
    ensures pattern[1 + |sign|..] == Spelled(es) + "]" + rest && pattern[|sign| + |Spelled(es)| + 2..] == rest
  {
    hide Spelled, WellSpelled;
    var inside := Spelled(es) + "]" + rest;
    SignFree(inside, es, rest);
    StartsWith(es, true);
    assert pattern == "[" + sign + inside && pattern[1..] == sign + inside;
    assert pattern[1 + |sign|..] == inside && inside[|Spelled(es)| + 1..] == rest;
  }

  lemma ClassRead(pattern: string, sign: string, es: seq<Element>, rest: string)
    requires ClassText(pattern, sign, es, rest)
    ensures NextToken(pattern) == (Class(sign != "", ItemsOf(es)), |sign| + |Spelled(es)| + 2)
  {
    hide WellSpelled, Spelled, Negates, ParseItems, ItemsOf;
    InsideRead(pattern, sign, es, rest);
    ItemsSpelled(es, true, rest);
    assert pattern[0] == '[';
  }

  /** A closed class takes one character, a slash included: one it covers, or with a sign one it does not. */
  lemma ClassMeans(pattern: string, sign: string, es: seq<Element>, rest: string, text: string)
    requires ClassText(pattern, sign, es, rest)
    ensures Means(pattern, text) <==>
            text != "" && (Covered(es, text[0]) <==> sign == "") && Means(rest, text[1..])
  {
    hide WellSpelled, Means, NextToken;
    ClassRead(pattern, sign, es, rest);
    InsideRead(pattern, sign, es, rest);
    MeansByToken(pattern, text);
    if text != "" {
      var c := text[0];
      assert forall i :: 0 <= i < |es| ==> (Covers(es[i], c) <==> Within(ItemsOf(es)[i], c));
      assert Covered(es, c) <==> InSome(ItemsOf(es), c);
    }
  }

  /** A bracket that no class closes takes itself. */
  lemma OpenMeans(rest: string, text: string)
    requires forall sign, es, after :: !ClassText("[" + rest, sign, es, after)
    ensures Means("[" + rest, text) <==> text != "" && text[0] == '[' && Means(rest, text[1..])
  {
    hide Means, ClassText;
    var pattern := "[" + rest;
    assert pattern[1..] == rest;
    if ParseClass(pattern).Some? { var _, _, _ := ClosedIsText(rest); }
    MeansByToken(pattern, text);
    assert NextToken(pattern) == (Literal('['), 1) && (text != "" ==> (Takes(Literal('['), text[0]) <==> text[0] == '['));
  }

  lemma ClosedIsText(rest: string) returns (sign: string, es: seq<Element>, after: string)
    requires ParseClass("[" + rest).Some?
    ensures ClassText("[" + rest, sign, es, after)
  {
    hide WellSpelled, Spelled, HeadItem;
    var pattern := "[" + rest;
    assert pattern[1..] == rest;
    sign := if Negates(rest) then [rest[0]] else "";
    es, after := ItemsAreSpelled(pattern[1 + |sign|..], true);
    assert pattern == "[" + sign + pattern[1 + |sign|..];
    SignFree(rest, es, after);
  }

  lemma SignFree(s: string, es: seq<Element>, after: string)
    requires WellSpelled(es, true)
    ensures es != []
    ensures !Negates(s) && s == Spelled(es) + "]" + after ==> es[0].escaped || es[0].lo !in {'!', '^'}
  {
    assert Spelled(es) == Spelling(es[0]) + Spelled(es[1..]);
  }
}
