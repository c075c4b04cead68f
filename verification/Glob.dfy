/** Path globs: what a pattern means, and the backtracking matcher that decides it. */
module Glob {
  import opened Options
  import opened Text

  datatype Item = Single(c: char) | Range(lo: char, hi: char)

  datatype Token = Star | One | Literal(c: char) | Class(negated: bool, items: seq<Item>)

  const SLASH := '/'

  // ---- What one token accepts ----

  /** A byte as a signed character: ranges compare in this order. */
  function Signed(c: char): int {
    if c as int < 128 then c as int else c as int - 256
  }

  predicate Within(item: Item, c: char) {
    match item
    case Single(x) => c == x
    case Range(lo, hi) => Signed(lo) <= Signed(c) <= Signed(hi)
  }

  predicate InSome(items: seq<Item>, c: char) {
    exists i :: 0 <= i < |items| && Within(items[i], c)
  }

  /** The one character a token stands for; a class may stand for '/'. */
  predicate Takes(t: Token, c: char)
    requires !t.Star?
  {
    match t
    case One => c != SLASH
    case Literal(x) => c == x
    case Class(negated, items) => InSome(items, c) != negated
  }

  /** The run of text a token stands for. */
  predicate Accepts(t: Token, s: string) {
    if t.Star? then Free(s, SLASH) else |s| == 1 && Takes(t, s[0])
  }

  function Concat(pieces: seq<string>): string {
    if pieces == [] then "" else pieces[0] + Concat(pieces[1..])
  }

  predicate Fits(tokens: seq<Token>, pieces: seq<string>) {
    |pieces| == |tokens| && forall i :: 0 <= i < |tokens| ==> Accepts(tokens[i], pieces[i])
  }

  /** The language of a pattern: the texts that fall into one accepted piece for each token. */
  ghost predicate InLanguage(tokens: seq<Token>, text: string) {
    exists pieces: seq<string> :: Fits(tokens, pieces) && Concat(pieces) == text
  }

  // ---- The tokens of a pattern ----

  /** One item of a class and its length: a range, an escaped character or a character. */
  function HeadItem(s: string): (r: (Item, nat))
    requires s != ""
    ensures 1 <= r.1 <= |s|
  {
    var k := if s[0] == '\\' && |s| > 1 then 1 else 0;
    if k + 2 < |s| && s[k + 1] == '-' && s[k + 2] != ']' then (Range(s[k], s[k + 2]), k + 3) else (Single(s[k]), k + 1)
  }

  /** The items up to the closing bracket, and the length of both; a bracket that comes first is an item. */
  function ParseItems(s: string, first: bool): (r: Option<(seq<Item>, nat)>)
    ensures r.Some? ==> 1 <= r.value.1 <= |s|
    decreases |s|
  {
    if s == "" then None
    else if s[0] == ']' && !first then Some(([], 1))
    else Prepend([HeadItem(s).0], HeadItem(s).1, ParseItems(s[HeadItem(s).1..], false))
  }

  function Prepend(items: seq<Item>, n: nat, parsed: Option<(seq<Item>, nat)>): Option<(seq<Item>, nat)> {
    match parsed
    case None => None
    case Some(p) => Some((items + p.0, n + p.1))
  }

  predicate Negates(s: string) {
    s != "" && (s[0] == '^' || s[0] == '!')
  }

  /** A class and its length, from its opening bracket; `None` when it is not closed. */
  function ParseClass(s: string): (r: Option<(Token, nat)>)
    requires s != ""
    ensures r.Some? ==> 1 <= r.value.1 <= |s| && r.value.0.Class?
  {
    var n := if Negates(s[1..]) then 2 else 1;
    match ParseItems(s[n..], true)
    case None => None
    case Some(parsed) => Some((Class(n == 2, parsed.0), n + parsed.1))
  }

  /** The first token of a pattern and its length. An unclosed bracket and a final backslash are literals. */
  function NextToken(s: string): (r: (Token, nat))
    requires s != ""
    ensures 1 <= r.1 <= |s|
  {
    if s[0] == '*' then (Star, 1)
    else if s[0] == '?' then (One, 1)
    else if s[0] == '[' && ParseClass(s).Some? then ParseClass(s).value
    else if s[0] == '\\' && |s| > 1 then (Literal(s[1]), 2)
    else (Literal(s[0]), 1)
  }

  function Tokens(pattern: string): seq<Token>
    decreases |pattern|
  {
    if pattern == "" then [] else [NextToken(pattern).0] + Tokens(pattern[NextToken(pattern).1..])
  }

  // ---- The language, one token at a time ----

  predicate Matches(tokens: seq<Token>, text: string)
    decreases tokens
  {
    if tokens == [] then text == ""
    else if tokens[0].Star? then
      exists k :: 0 <= k <= |text| && Free(text[..k], SLASH) && Matches(tokens[1..], text[k..])
    else text != "" && Takes(tokens[0], text[0]) && Matches(tokens[1..], text[1..])
  }

  lemma {:induction false} MatchesIsLanguage(tokens: seq<Token>, text: string)
    ensures Matches(tokens, text) <==> InLanguage(tokens, text)
    decreases tokens
  {
    if Matches(tokens, text) { var _ := Pieces(tokens, text); }
    forall pieces: seq<string> | Fits(tokens, pieces) && Concat(pieces) == text ensures Matches(tokens, text) {
      PiecesMatch(tokens, pieces);
    }
  }

  lemma {:induction false} Pieces(tokens: seq<Token>, text: string) returns (pieces: seq<string>)
    requires Matches(tokens, text)
    ensures Fits(tokens, pieces) && Concat(pieces) == text
    decreases tokens
  {
    if tokens == [] {
      pieces := [];
    } else {
      var k := Cut(tokens, text);
      var rest := Pieces(tokens[1..], text[k..]);
      pieces := [text[..k]] + rest;
      assert text[..k] + text[k..] == text;
    }
  }

  lemma {:induction false} PiecesMatch(tokens: seq<Token>, pieces: seq<string>)
    requires Fits(tokens, pieces)
    ensures Matches(tokens, Concat(pieces))
    decreases tokens
  {
    if tokens != [] {
      PiecesMatch(tokens[1..], pieces[1..]);
      var text, k := Concat(pieces), |pieces[0]|;
      assert text[..k] == pieces[0] && text[k..] == Concat(pieces[1..]);
    }
  }

  // ---- Laws of the language ----

  predicate ClassFree(tokens: seq<Token>) {
    forall i :: 0 <= i < |tokens| ==> !tokens[i].Class?
  }

  function Slashes(s: string): nat {
    if s == "" then 0 else Slashes(s[1..]) + if s[0] == SLASH then 1 else 0
  }

  /** The tokens that stand for one character and may stand for a slash. */
  function SlashTokens(tokens: seq<Token>): nat {
    if tokens == [] then 0
    else SlashTokens(tokens[1..]) + if !tokens[0].Star? && Takes(tokens[0], SLASH) then 1 else 0
  }

  predicate IsByte(c: char) {
    c as int < 256
  }

  /** Text is a string of bytes. */
  predicate Bytes(s: string) {
    forall i :: 0 <= i < |s| ==> IsByte(s[i])
  }

  /** A byte that is not a slash. */
  predicate Other(c: char) {
    IsByte(c) && c != SLASH
  }

  /** A class that takes a slash, and some other byte too. */
  ghost predicate Mixed(t: Token) {
    t.Class? && Takes(t, SLASH) && exists c: char :: Other(c) && Takes(t, c)
  }

  /** No class of the pattern is mixed, as far as this text goes. */
  ghost predicate Steady(tokens: seq<Token>, text: string) {
    forall i :: 0 <= i < |tokens| && tokens[i].Class? ==> !Mixed(tokens[i]) && Bytes(text)
  }

  lemma {:induction false} SlashesConcat(a: string, c: string)
    ensures Slashes(a + c) == Slashes(a) + Slashes(c)
  {
    if a == "" {
      assert a + c == c;
    } else {
      assert (a + c)[1..] == a[1..] + c;
      SlashesConcat(a[1..], c);
    }
  }

  lemma {:induction false} NoSlashes(s: string)
    requires Free(s, SLASH)
    ensures Slashes(s) == 0
  {
    if s != "" { NoSlashes(s[1..]); }
  }

  lemma {:induction false} MatchedSlashes(tokens: seq<Token>, text: string)
    requires Steady(tokens, text) && Matches(tokens, text)
    ensures Slashes(text) == SlashTokens(tokens)
    decreases tokens
  {
    hide Mixed, Free;
    if tokens != [] {
      var k := Cut(tokens, text);
      MatchedSlashes(tokens[1..], text[k..]);
      PieceSlashes(tokens[0], text[..k]);
      SlashesConcat(text[..k], text[k..]);
      assert text[..k] + text[k..] == text;
    }
  }

  /** Where the piece of the first token ends. */
  lemma Cut(tokens: seq<Token>, text: string) returns (k: nat)
    requires tokens != [] && Matches(tokens, text)
    ensures k <= |text| && Accepts(tokens[0], text[..k]) && Matches(tokens[1..], text[k..])
  {
    if tokens[0].Star? {
      k :| 0 <= k <= |text| && Free(text[..k], SLASH) && Matches(tokens[1..], text[k..]);
    } else {
      k := 1;
    }
  }

  lemma PieceSlashes(t: Token, piece: string)
    requires Accepts(t, piece) && (t.Class? ==> !Mixed(t) && Bytes(piece))
    ensures Slashes(piece) == if !t.Star? && Takes(t, SLASH) then 1 else 0
  {
    if t.Star? {
      NoSlashes(piece);
    } else {
      assert piece[1..] == "";
      assert Takes(t, piece[0]);
    }
  }

  lemma {:induction false} PatternSlashes(pattern: string)
    requires ClassFree(Tokens(pattern))
    ensures Slashes(pattern) == SlashTokens(Tokens(pattern))
    decreases |pattern|
  {
    if pattern != "" {
      var t, n := NextToken(pattern).0, NextToken(pattern).1;
      var tokens, head, rest := Tokens(pattern), pattern[..n], pattern[n..];
      assert tokens[0] == t && tokens[1..] == Tokens(rest);
      forall i | 0 <= i < |tokens[1..]| ensures !tokens[1..][i].Class? {
        assert tokens[1..][i] == tokens[i + 1];
      }
      PatternSlashes(rest);
      assert head + rest == pattern;
      SlashesConcat(head, rest);
      if n == 2 {
        assert head[1..][1..] == "";
      } else {
        assert head[1..] == "";
      }
    }
  }

  /** What a pattern without classes matches has as many slashes as the pattern itself. */
  lemma SlashesAgree(pattern: string, text: string)
    requires ClassFree(Tokens(pattern)) && InLanguage(Tokens(pattern), text)
    ensures Slashes(text) == Slashes(pattern)
  {
    MatchesIsLanguage(Tokens(pattern), text);
    MatchedSlashes(Tokens(pattern), text);
    PatternSlashes(pattern);
  }

  // ---- When the slash count is fixed ----

  /** All texts of the language have as many slashes as each other. */
  ghost predicate SlashesFixed(tokens: seq<Token>) {
    forall s: string, t: string ::
      Bytes(s) && Bytes(t) && InLanguage(tokens, s) && InLanguage(tokens, t) ==> Slashes(s) == Slashes(t)
  }

  /** A token no byte fits, such as a class of one range written backwards. */
  ghost predicate Barren(t: Token) {
    !t.Star? && forall c: char :: IsByte(c) ==> !Takes(t, c)
  }

  /** Nothing matches a pattern if and only if one of its tokens fits no byte. */
  lemma NothingMatchesIff(tokens: seq<Token>)
    ensures (forall s: string :: Bytes(s) ==> !InLanguage(tokens, s)) <==>
            exists i :: 0 <= i < |tokens| && Barren(tokens[i])
  {
    if i :| 0 <= i < |tokens| && Barren(tokens[i]) {
      forall s: string | Bytes(s) ensures !InLanguage(tokens, s) {
        if InLanguage(tokens, s) { MatchFits(tokens, i, s); }
      }
    } else {
      var pieces := SomeMatch(tokens);
      BytesConcat(pieces);
      assert Bytes(Concat(pieces)) && InLanguage(tokens, Concat(pieces));
    }
  }

  lemma MatchFits(tokens: seq<Token>, i: nat, s: string)
    requires i < |tokens| && Bytes(s) && InLanguage(tokens, s)
    ensures !Barren(tokens[i])
  {
    var pieces: seq<string> :| Fits(tokens, pieces) && Concat(pieces) == s;
    BytesConcat(pieces);
    assert Bytes(pieces[i]) && Accepts(tokens[i], pieces[i]);
  }

  lemma {:induction false} SomeMatch(tokens: seq<Token>) returns (pieces: seq<string>)
    requires forall i :: 0 <= i < |tokens| ==> !Barren(tokens[i])
    ensures Fits(tokens, pieces) && forall i :: 0 <= i < |pieces| ==> Bytes(pieces[i])
  {
    if tokens == [] {
      pieces := [];
    } else {
      var rest := SomeMatch(tokens[1..]);
      assert !Barren(tokens[0]);
      var piece: string := "";
      if !tokens[0].Star? {
        var c: char :| IsByte(c) && Takes(tokens[0], c);
        piece := [c];
      }
      pieces := [piece] + rest;
      assert Accepts(tokens[0], piece);
    }
  }

  lemma {:induction false} BytesConcat(pieces: seq<string>)
    ensures Bytes(Concat(pieces)) <==> forall i :: 0 <= i < |pieces| ==> Bytes(pieces[i])
  {
    if pieces != [] {
      var rest := Concat(pieces[1..]);
      BytesConcat(pieces[1..]);
      assert forall i :: 0 <= i < |pieces[0]| ==> (pieces[0] + rest)[i] == pieces[0][i];
      assert forall i :: 0 <= i < |rest| ==> (pieces[0] + rest)[|pieces[0]| + i] == rest[i];
      assert forall i :: 1 <= i < |pieces| ==> pieces[1..][i - 1] == pieces[i];
    }
  }

  lemma {:induction false} PieceReplaced(pieces: seq<string>, i: nat, p: string)
    requires i < |pieces|
    ensures Slashes(Concat(pieces[i := p])) + Slashes(pieces[i]) == Slashes(Concat(pieces)) + Slashes(p)
  {
    var rest := pieces[1..];
    SlashesConcat(pieces[0], Concat(rest));
    if i == 0 {
      assert pieces[0 := p][1..] == rest;
      SlashesConcat(p, Concat(rest));
    } else {
      assert pieces[i := p][1..] == rest[i - 1 := p];
      PieceReplaced(rest, i - 1, p);
      SlashesConcat(pieces[0], Concat(rest[i - 1 := p]));
    }
  }

  /** Another character for the i-th token makes another text of the language. */
  lemma OtherText(tokens: seq<Token>, pieces: seq<string>, i: nat, c: char)
    requires Fits(tokens, pieces) && i < |tokens| && tokens[i].Class? && Takes(tokens[i], c)
    requires IsByte(c) && Bytes(Concat(pieces))
    ensures var s := Concat(pieces[i := [c]]);
            && Bytes(s) && InLanguage(tokens, s)
            && Slashes(s) + Slashes(pieces[i]) == Slashes(Concat(pieces)) + if c == SLASH then 1 else 0
  {
    BytesConcat(pieces);
    BytesConcat(pieces[i := [c]]);
    PieceReplaced(pieces, i, [c]);
    assert [c][1..] == "";
    assert Fits(tokens, pieces[i := [c]]);
  }

  /** A mixed class makes two texts of one. */
  lemma MixedVaries(tokens: seq<Token>, i: nat, text: string)
    requires i < |tokens| && Mixed(tokens[i]) && Bytes(text) && InLanguage(tokens, text)
    ensures !SlashesFixed(tokens)
  {
    var pieces: seq<string> :| Fits(tokens, pieces) && Concat(pieces) == text;
    var c: char :| Other(c) && Takes(tokens[i], c);
    OtherText(tokens, pieces, i, SLASH);
    OtherText(tokens, pieces, i, c);
  }

  /**
   The slash count of a match is fixed if and only if some token fits no byte, so that nothing matches at
   all, or every class takes nothing but slashes or no slash.
   */
  lemma SlashesFixedIff(tokens: seq<Token>)
    ensures SlashesFixed(tokens) <==>
            || (exists i :: 0 <= i < |tokens| && Barren(tokens[i]))
            || (forall i :: 0 <= i < |tokens| ==> !Mixed(tokens[i]))
  {
    hide Barren;
    NothingMatchesIff(tokens);
    if forall i :: 0 <= i < |tokens| ==> !Mixed(tokens[i]) {
      forall s: string | Bytes(s) && InLanguage(tokens, s) ensures Slashes(s) == SlashTokens(tokens) {
        MatchesIsLanguage(tokens, s);
        MatchedSlashes(tokens, s);
      }
    } else if s: string :| Bytes(s) && InLanguage(tokens, s) {
      var i :| 0 <= i < |tokens| && Mixed(tokens[i]);
      MixedVaries(tokens, i, s);
    }
  }

  /** This pattern matches both "/" and "b". */
  lemma NegatedClassVaries(pattern: string)
    requires pattern == "[!a]"
    ensures InLanguage(Tokens(pattern), [SLASH]) && InLanguage(Tokens(pattern), ['b']) && !SlashesFixed(Tokens(pattern))
  {
    OneItemClass(pattern, true);
    AllButVary(Tokens(pattern), 'a', 'b');
  }

  /** So does any class of all but one character, other than the slash. */
  lemma AllButVary(tokens: seq<Token>, a: char, b: char)
    requires tokens == [Class(true, [Single(a)])] && a != SLASH && Other(b) && b != a
    ensures InLanguage(tokens, [SLASH]) && InLanguage(tokens, [b]) && !SlashesFixed(tokens)
  {
    SingleToken(tokens[0], SLASH);
    SingleToken(tokens[0], b);
    assert Takes(tokens[0], SLASH) && Takes(tokens[0], b);
    MixedVaries(tokens, 0, [b]);
  }

  /** This pattern has a class, and yet a fixed slash count. */
  lemma PlainClassFixed(pattern: string)
    requires pattern == "[a]"
    ensures !ClassFree(Tokens(pattern)) && SlashesFixed(Tokens(pattern))
  {
    OneItemClass(pattern, false);
    JustOneFixed(Tokens(pattern), 'a');
  }

  lemma JustOneFixed(tokens: seq<Token>, a: char)
    requires tokens == [Class(false, [Single(a)])] && a != SLASH
    ensures !ClassFree(tokens) && SlashesFixed(tokens)
  {
    assert tokens[0].Class? && !Takes(tokens[0], SLASH);
    SlashesFixedIff(tokens);
  }

  lemma OneItemClass(pattern: string, negated: bool)
    requires pattern == if negated then "[!a]" else "[a]"
    ensures Tokens(pattern) == [Class(negated, [Single('a')])]
  {
    var n := if negated then 2 else 1;
    var items := pattern[n..];
    assert items == "a]" && Negates(pattern[1..]) == negated;
    assert HeadItem(items) == (Single('a'), 1) && items[1..] == "]";
    assert ParseItems(items[1..], false) == Some(([], 1));
    assert [Single('a')] + [] == [Single('a')];
    assert ParseItems(items, true) == Some(([Single('a')], 2));
    TokensCons(pattern);
    assert pattern[|pattern|..] == "";
  }

  lemma SingleToken(t: Token, c: char)
    requires !t.Star? && Takes(t, c)
    ensures InLanguage([t], [c])
  {
    var pieces := [[c]];
    assert pieces[1..] == [] && Concat([]) == "" && [c] + "" == [c];
    assert Concat(pieces) == [c] && Fits([t], pieces);
  }

  /** Two star tokens in a row are one, anywhere among the tokens. */
  lemma {:induction false} StarsCollapse(before: seq<Token>, after: seq<Token>, text: string)
    ensures Matches(before + [Star, Star] + after, text) <==> Matches(before + [Star] + after, text)
    decreases before
  {
    var two, one := before + [Star, Star] + after, before + [Star] + after;
    if before == [] {
      assert two == [Star] + one && one == [Star] + after;
      LeadingStars(after, text);
    } else {
      assert two[1..] == before[1..] + [Star, Star] + after && one[1..] == before[1..] + [Star] + after;
      forall k | 0 <= k <= |text| ensures Matches(two[1..], text[k..]) <==> Matches(one[1..], text[k..]) {
        StarsCollapse(before[1..], after, text[k..]);
      }
      SameBehind(two, one, text);
    }
  }

  lemma LeadingStars(after: seq<Token>, text: string)
    ensures Matches([Star] + ([Star] + after), text) <==> Matches([Star] + after, text)
  {
    var one := [Star] + after;
    var two := [Star] + one;
    assert two[1..] == one && one[1..] == after;
    if Matches(two, text) {
      var k := Cut(two, text);
      var j := Cut(one, text[k..]);
      assert text[..k + j] == text[..k] + text[k..][..j] && text[k + j..] == text[k..][j..];
    }
    if Matches(one, text) {
      assert text[0..] == text;
      assert Free(text[..0], SLASH) && Matches(two[1..], text[0..]);
    }
  }

  lemma SameBehind(l: seq<Token>, m: seq<Token>, text: string)
    requires l != [] && m != [] && l[0] == m[0]
    requires forall k :: 0 <= k <= |text| ==> (Matches(l[1..], text[k..]) <==> Matches(m[1..], text[k..]))
    ensures Matches(l, text) <==> Matches(m, text)
  {
    if Matches(l, text) { var _ := Cut(l, text); }
    if Matches(m, text) { var _ := Cut(m, text); }
  }

  // ---- Two stars in the text of a pattern ----

  /** The pattern without its i-th character. */
  function Removed(pattern: string, i: nat): string
    requires i < |pattern|
  {
    pattern[..i] + pattern[i + 1..]
  }

  /** A token begins at position i, or the pattern ends there. */
  predicate Boundary(pattern: string, i: nat)
    decreases |pattern|
  {
    i == 0 || (pattern != "" && NextToken(pattern).1 <= i && Boundary(pattern[NextToken(pattern).1..], i - NextToken(pattern).1))
  }

  /** The tokens before a boundary. */
  function Before(pattern: string, i: nat): seq<Token>
    requires Boundary(pattern, i)
    decreases |pattern|
  {
    if i == 0 then []
    else [NextToken(pattern).0] + Before(pattern[NextToken(pattern).1..], i - NextToken(pattern).1)
  }

  /** No bracket before position i that nothing closes is closed when that position's character goes. */
  predicate StillOpen(pattern: string, i: nat)
    requires Boundary(pattern, i) && i < |pattern|
    decreases |pattern|
  {
    i == 0 ||
    var n := NextToken(pattern).1;
    && (pattern[0] == '[' && ParseClass(pattern) == None ==> ParseClass(Removed(pattern, i)) == None)
    && StillOpen(pattern[n..], i - n)
  }

  lemma TokensCons(pattern: string)
    requires pattern != ""
    ensures Tokens(pattern) == [NextToken(pattern).0] + Tokens(pattern[NextToken(pattern).1..])
  {}

  lemma BeforeCons(pattern: string, i: nat)
    requires Boundary(pattern, i) && 0 < i <= |pattern|
    ensures NextToken(pattern).1 <= i && Boundary(pattern[NextToken(pattern).1..], i - NextToken(pattern).1)
    ensures Before(pattern, i) == [NextToken(pattern).0] + Before(pattern[NextToken(pattern).1..], i - NextToken(pattern).1)
  {}

  /** Lists with a head each, one of them continued. */
  lemma HeadsAndTails(l: seq<Token>, b: seq<Token>, t: Token, ts: seq<Token>, h: Token, hs: seq<Token>, after: seq<Token>)
    requires l == [t] + ts && b == [h] + hs
    ensures l == b + after <==> t == h && ts == hs + after
  {
    assert l[0] == t && (b + after)[0] == h;
    assert l[1..] == ts && (b + after)[1..] == hs + after;
    if t == h && ts == hs + after { assert l == b + after; }
  }

  lemma {:induction false} SplitTokens(pattern: string, i: nat)
    requires Boundary(pattern, i) && i <= |pattern|
    ensures Tokens(pattern) == Before(pattern, i) + Tokens(pattern[i..])
    decreases |pattern|
  {
    if i == 0 {
      assert pattern[0..] == pattern;
    } else {
      var t, n, rest, k := Ahead(pattern, i);
      SplitTokens(rest, k);
      HeadsAndTails(Tokens(pattern), Before(pattern, i), t, Tokens(rest), t, Before(rest, k), Tokens(pattern[i..]));
    }
  }

  /** The first token, its length, the pattern behind it and the boundary there. */
  lemma Ahead(pattern: string, i: nat) returns (t: Token, n: nat, rest: string, k: nat)
    requires Boundary(pattern, i) && 0 < i <= |pattern|
    ensures (t, n) == NextToken(pattern) && 1 <= n <= i && rest == pattern[n..] && k == i - n
    ensures |rest| < |pattern| && k <= |rest| && rest[k..] == pattern[i..] && Boundary(rest, k)
    ensures i < |pattern| ==> rest[k + 1..] == pattern[i + 1..]
    ensures Tokens(pattern) == [t] + Tokens(rest) && Before(pattern, i) == [t] + Before(rest, k)
  {
    t, n := NextToken(pattern).0, NextToken(pattern).1;
    rest, k := pattern[n..], i - n;
    BeforeCons(pattern, i);
    TokensCons(pattern);
  }

  /** The items of a closed class depend on nothing behind its bracket. */
  lemma {:induction false} ItemsPrefix(s: string, t: string, first: bool)
    requires var p := ParseItems(s, first); p.Some? && p.value.1 <= |t| && t[..p.value.1] == s[..p.value.1]
    ensures ParseItems(t, first) == ParseItems(s, first)
    decreases |s|
  {
    var n := ParseItems(s, first).value.1;
    PrefixesAgree(s, t, n, 0);
    if !(s[0] == ']' && !first) {
      SameHead(s, t, first);
      var m := HeadItem(s).1;
      assert ParseItems(s, first) == Prepend([HeadItem(s).0], m, ParseItems(s[m..], false));
      PrefixesAgree(s, t, n, m);
      ItemsPrefix(s[m..], t[m..], false);
      assert ParseItems(t, first) == Prepend([HeadItem(t).0], m, ParseItems(t[m..], false));
    }
  }

  lemma PrefixesAgree(s: string, t: string, n: nat, m: nat)
    requires m <= n <= |s| && n <= |t| && t[..n] == s[..n]
    ensures s[m..][..n - m] == t[m..][..n - m]
    ensures forall j :: 0 <= j < n ==> s[j] == t[j]
  {
    assert s[m..][..n - m] == s[..n][m..] && t[m..][..n - m] == t[..n][m..];
    forall j | 0 <= j < n ensures s[j] == t[j] { assert s[..n][j] == t[..n][j]; }
  }

  lemma ClosedGoesOn(s: string)
    requires s != "" && s[0] != ']' && ParseItems(s, false).Some?
    ensures |s| > 1
  {
    assert ParseItems(s[HeadItem(s).1..], false).Some?;
  }

  lemma SameHead(s: string, t: string, first: bool)
    requires s != "" && !(s[0] == ']' && !first)
    requires var p := ParseItems(s, first); p.Some? && p.value.1 <= |t| && t[..p.value.1] == s[..p.value.1]
    ensures HeadItem(t) == HeadItem(s)
  {
    var n, m := ParseItems(s, first).value.1, HeadItem(s).1;
    var rest := s[m..];
    assert ParseItems(rest, false).Some? && n > m;
    PrefixesAgree(s, t, n, 0);
    if HeadItem(s).0.Single? && s[m] == '-' {
      ClosedGoesOn(rest);
      if s[m + 1] == ']' {
        assert HeadItem(rest) == (Single('-'), 1) && rest[1..][0] == ']';
        assert n == m + 2;
      }
    }
  }

  lemma SameToken(s: string, t: string)
    requires s != "" && NextToken(s).1 <= |t| && t[..NextToken(s).1] == s[..NextToken(s).1]
    requires s[0] == '[' ==> ParseClass(s).Some?
    requires s == "\\" ==> t == s
    ensures NextToken(t) == NextToken(s)
  {
    var n := NextToken(s).1;
    PrefixesAgree(s, t, n, 0);
    if s[0] == '[' {
      var k := if Negates(s[1..]) then 2 else 1;
      assert n == k + ParseItems(s[k..], true).value.1;
      assert Negates(t[1..]) == Negates(s[1..]);
      PrefixesAgree(s, t, n, k);
      ItemsPrefix(s[k..], t[k..], true);
    }
  }

  /** Taking a one-character token out of the text takes it out of the tokens, exactly when no bracket closes. */
  lemma {:induction false} TokenRemoved(pattern: string, i: nat)
    requires Boundary(pattern, i) && i < |pattern|
    ensures Tokens(Removed(pattern, i)) == Before(pattern, i) + Tokens(pattern[i + 1..]) <==> StillOpen(pattern, i)
    decreases |pattern|
  {
    if i == 0 {
      FirstRemoved(pattern);
    } else {
      var t, n, rest, k := Ahead(pattern, i);
      TokenRemoved(rest, k);
      RemovedBehind(pattern, i, t, n, rest, k);
    }
  }

  lemma FirstRemoved(pattern: string)
    requires pattern != ""
    ensures Boundary(pattern, 0) && StillOpen(pattern, 0) && Before(pattern, 0) == []
    ensures Tokens(Removed(pattern, 0)) == [] + Tokens(pattern[1..])
  {
    assert Removed(pattern, 0) == pattern[1..];
  }

  /** What taking the character out does behind the first token is what it does to the whole, unless a bracket closes. */
  lemma RemovedBehind(pattern: string, i: nat, t: Token, n: nat, rest: string, k: nat)
    requires Boundary(pattern, i) && 0 < i < |pattern| && (t, n) == NextToken(pattern) && n <= i
    requires rest == pattern[n..] && k == i - n && Boundary(rest, k) && Before(pattern, i) == [t] + Before(rest, k)
    requires Tokens(Removed(rest, k)) == Before(rest, k) + Tokens(rest[k + 1..]) <==> StillOpen(rest, k)
    ensures Tokens(Removed(pattern, i)) == Before(pattern, i) + Tokens(pattern[i + 1..]) <==> StillOpen(pattern, i)
  {
    hide NextToken, Boundary, Tokens, StillOpen;
    var before, after := Before(rest, k), Tokens(rest[k + 1..]);
    var t', rest', closes := FirstToken(pattern, i, t, n, rest);
    HeadsAndTails(Tokens(Removed(pattern, i)), [t] + before, t', Tokens(rest'), t, before, after);
  }

  /** The first token changes exactly when it is a bracket that now closes. */
  lemma FirstToken(pattern: string, i: nat, t: Token, n: nat, rest: string)
    returns (t': Token, rest': string, closes: bool)
    requires Boundary(pattern, i) && 0 < i < |pattern| && (t, n) == NextToken(pattern) && n <= i && rest == pattern[n..]
    requires Boundary(rest, i - n)
    ensures Tokens(Removed(pattern, i)) == [t'] + Tokens(rest')
    ensures rest[i - n + 1..] == pattern[i + 1..]
    ensures if closes then t' != t else t' == t && rest' == Removed(rest, i - n)
    ensures StillOpen(pattern, i) <==> !closes && StillOpen(rest, i - n)
  {
    var less := Removed(pattern, i);
    closes := pattern[0] == '[' && ParseClass(pattern) == None && ParseClass(less).Some?;
    RemovedTail(pattern, i, n);
    if !(pattern[0] == '[' && ParseClass(pattern) == None) {
      SameToken(pattern, less);
    }
    t', rest' := NextToken(less).0, less[NextToken(less).1..];
    TokensCons(less);
  }

  lemma RemovedTail(pattern: string, i: nat, n: nat)
    requires 1 <= n <= i < |pattern|
    ensures var less := Removed(pattern, i);
            && less != "" && less[0] == pattern[0] && less[..n] == pattern[..n]
            && less[n..] == Removed(pattern[n..], i - n) && pattern[n..][i - n + 1..] == pattern[i + 1..]
  {}

  /** In the text of a pattern, one of two stars side by side may go, unless that closes a bracket before them. */
  lemma StarsCollapseInText(pattern: string, i: nat, text: string)
    requires Boundary(pattern, i) && i + 1 < |pattern| && pattern[i] == pattern[i + 1] == '*' && StillOpen(pattern, i)
    ensures InLanguage(Tokens(pattern), text) <==> InLanguage(Tokens(Removed(pattern, i)), text)
  {
    var before, after := TwoStars(pattern, i);
    StarsCollapse(before, after, text);
    MatchesIsLanguage(Tokens(pattern), text);
    MatchesIsLanguage(Tokens(Removed(pattern, i)), text);
  }

  lemma TwoStars(pattern: string, i: nat) returns (before: seq<Token>, after: seq<Token>)
    requires Boundary(pattern, i) && i + 1 < |pattern| && pattern[i] == pattern[i + 1] == '*' && StillOpen(pattern, i)
    ensures Tokens(pattern) == before + [Star, Star] + after && Tokens(Removed(pattern, i)) == before + [Star] + after
  {
    before, after := Before(pattern, i), Tokens(pattern[i + 2..]);
    SplitTokens(pattern, i);
    TokenRemoved(pattern, i);
    StarTokens(pattern, i);
    StarTokens(pattern, i + 1);
    StarsAppend(before, after);
  }

  lemma StarsAppend(before: seq<Token>, after: seq<Token>)
    ensures before + ([Star] + ([Star] + after)) == before + [Star, Star] + after
    ensures before + ([Star] + after) == before + [Star] + after
  {}

  predicate Special(c: char) {
    c == '*' || c == '?' || c == '[' || c == '\\'
  }

  /** The items of the class behind its bracket, as long as it is open and once it is closed. */
  lemma OpenItems(s: string)
    requires s == "x-**--\\]"
    ensures ParseItems(s, true) == None
  {
    var r := s[3..];
    var q := r[3..];
    assert HeadItem(s).1 == 3 && HeadItem(r).1 == 3 && HeadItem(q).1 == 2;
    assert q[2..] == "";
    assert ParseItems(q, false) == None;
    assert ParseItems(r, false) == None;
  }

  lemma ClosedItems(s: string)
    requires s == "x-*--\\]"
    ensures var p := ParseItems(s, true); p.Some? && p.value.1 == |s|
  {
    var r := s[3..];
    var q := r[3..];
    assert HeadItem(s).1 == 3 && HeadItem(r).1 == 3;
    assert q == "]";
    assert ParseItems(q, false) == Some(([], 1));
    assert ParseItems(r, false).value.1 == 4;
  }

  lemma ClosedTokens(pattern: string)
    requires pattern == "[x-*--\\]"
    ensures ParseClass(pattern).Some? && |Tokens(pattern)| == 1 && Tokens(pattern)[0].Class?
  {
    var items := pattern[1..];
    assert items == "x-*--\\]" && !Negates(items);
    ClosedItems(items);
    TokensCons(pattern);
    assert pattern[|pattern|..] == "";
  }

  /** A first character that stands for itself. */
  lemma OwnToken(s: string)
    requires s != "" && (!Special(s[0]) || (s[0] == '[' && ParseClass(s) == None))
    ensures NextToken(s) == (Literal(s[0]), 1) && Tokens(s) == [Literal(s[0])] + Tokens(s[1..])
    ensures forall i :: 0 < i && Boundary(s[1..], i - 1) ==> Boundary(s, i)
  {}

  lemma OpenTail(s: string)
    requires s == "**--\\]"
    ensures Tokens(s) == [Star, Star] + [Literal('-'), Literal('-'), Literal(']')]
  {
    var end := s[4..];
    assert end == "\\]" && end[2..] == "" && NextToken(end) == (Literal(']'), 2);
    TokensCons(end);
    assert s[3..][1..] == end && s[2..][1..] == s[3..];
    hide Tokens, NextToken, Boundary;
    OwnToken(s[3..]);
    OwnToken(s[2..]);
    StarTokens(s, 1);
    StarTokens(s, 0);
    assert s[0..] == s;
  }

  lemma OpenTokens(pattern: string)
    requires pattern == "[x-**--\\]"
    ensures ParseClass(pattern) == None && Boundary(pattern, 3)
    ensures Tokens(pattern) ==
            [Literal('['), Literal('x'), Literal('-')] + ([Star, Star] + [Literal('-'), Literal('-'), Literal(']')])
  {
    hide Tokens, NextToken, ParseItems;
    var items := pattern[1..];
    assert items == "x-**--\\]" && !Negates(items);
    OpenItems(items);
    assert items[1..][1..] == "**--\\]";
    OpenTail(items[1..][1..]);
    assert Boundary(items[1..][1..], 0);
    OwnToken(items[1..]);
    OwnToken(items);
    OwnToken(pattern);
  }

  lemma OpenMatches(tokens: seq<Token>, text: string)
    requires text == "[x---]"
    requires tokens ==
             [Literal('['), Literal('x'), Literal('-')] + ([Star, Star] + [Literal('-'), Literal('-'), Literal(']')])
    ensures Matches(tokens, text)
  {
    var pieces := ["[", "x", "-", "", "", "-", "-", "]"];
    assert Fits(tokens, pieces);
    assert Concat(pieces) == text by {
      assert pieces[1..][1..][1..][1..][1..] == ["-", "-", "]"];
      assert Concat(["-", "-", "]"]) == "--]";
    }
    MatchesIsLanguage(tokens, text);
  }

  /** Here nothing closes the bracket, until one of the two stars goes: then all of it is one class. */
  lemma BracketCloses(pattern: string, text: string)
    requires pattern == "[x-**--\\]" && text == "[x---]"
    ensures Boundary(pattern, 3) && pattern[3] == pattern[4] == '*' && !StillOpen(pattern, 3)
    ensures InLanguage(Tokens(pattern), text) && !InLanguage(Tokens(Removed(pattern, 3)), text)
  {
    OpenTokens(pattern);
    ClosedTokens(Removed(pattern, 3));
    MatchesIsLanguage(Tokens(pattern), text);
    MatchesIsLanguage(Tokens(Removed(pattern, 3)), text);
    OpenMatches(Tokens(pattern), text);
    TokenRemoved(pattern, 3);
  }

  predicate Plain(pattern: string) {
    forall i :: 0 <= i < |pattern| ==> !Special(pattern[i])
  }

  /** A pattern without special characters matches itself and nothing else. */
  lemma {:induction false} PlainMatchesItself(pattern: string, text: string)
    requires Plain(pattern)
    ensures Matches(Tokens(pattern), text) <==> text == pattern
  {
    if pattern != "" {
      PlainToken(pattern);
      var rest := Tokens(pattern[1..]);
      assert ([Literal(pattern[0])] + rest)[1..] == rest;
      if text != "" {
        PlainMatchesItself(pattern[1..], text[1..]);
        assert text == [text[0]] + text[1..] && pattern == [pattern[0]] + pattern[1..];
      }
    }
  }

  lemma PlainToken(pattern: string)
    requires pattern != "" && Plain(pattern)
    ensures Tokens(pattern) == [Literal(pattern[0])] + Tokens(pattern[1..])
  {
    assert !Special(pattern[0]);
  }

  // ---- The matcher ----

  /** `match_class`, at an opening bracket: the position after the class, whether it takes c, whether it is closed. */
  method MatchClass(pat: string, start: nat, c: char) returns (pi: nat, matched: bool, valid: bool)
    requires start < |pat| && pat[start] == '['
    ensures valid == ParseClass(pat[start..]).Some?
    ensures valid ==>
              var parsed := ParseClass(pat[start..]).value;
              pi == start + parsed.1 && matched == Takes(parsed.0, c)
  {
    pi := start + 1;
    assert pat[start..][1..] == pat[start + 1..];
    var negated := false;
    if pi < |pat| && (pat[pi] == '^' || pat[pi] == '!') {
      negated := true;
      pi := pi + 1;
    }
    assert pat[start..][pi - start..] == pat[pi..];
    pi, matched, valid := MatchItems(pat, pi, c);
    if valid && negated { matched := !matched; }
  }

  /** The loop over the items, and the closing bracket. */
  method MatchItems(pat: string, start: nat, c: char) returns (pi: nat, matched: bool, valid: bool)
    requires start <= |pat|
    ensures ScanResult(pat, start, c, pi, matched, valid)
  {
    pi, matched := start, false;
    var first := true;
    ghost var seen: seq<Item> := [];
    Nothing(ParseItems(pat[start..], true));
    while pi < |pat| && (pat[pi] != ']' || first)
      invariant start <= pi <= |pat| && Scanned(pat, start, pi, first, seen, c, matched)
      decreases |pat| - pi
    {
      OneMoreItem(pat, start, pi, first, seen, c, matched);
      seen := seen + [HeadItem(pat[pi..]).0];
      first := false;
      var hit;
      pi, hit := MatchItem(pat, pi, c);
      if hit { matched := true; }
    }
    AtEnd(pat, start, pi, first, seen, c, matched);
    valid := pi < |pat| && pat[pi] == ']';
    if valid { pi := pi + 1; }
  }

  /** What is known of a class after it: whether it is closed, and if so where it ends and what it says of c. */
  predicate ScanResult(pat: string, start: nat, c: char, pi: nat, matched: bool, valid: bool)
    requires start <= |pat|
  {
    var parsed := ParseItems(pat[start..], true);
    && valid == parsed.Some?
    && (valid ==> pi == start + parsed.value.1 && matched == InSome(parsed.value.0, c))
  }

  /** The items seen so far, before the position reached. */
  predicate Scanned(pat: string, start: nat, pi: nat, first: bool, seen: seq<Item>, c: char, matched: bool)
    requires start <= pi <= |pat|
  {
    && ParseItems(pat[start..], true) == Prepend(seen, pi - start, ParseItems(pat[pi..], first))
    && matched == InSome(seen, c)
  }

  lemma AtEnd(pat: string, start: nat, pi: nat, first: bool, seen: seq<Item>, c: char, matched: bool)
    requires start <= pi <= |pat| && Scanned(pat, start, pi, first, seen, c, matched)
    requires !(pi < |pat| && (pat[pi] != ']' || first))
    ensures ScanResult(pat, start, c, pi + 1, matched, pi < |pat|)
    ensures pi == |pat| ==> ScanResult(pat, start, c, pi, matched, false)
  {
    Closed(seen, pi - start);
  }

  lemma OneMoreItem(pat: string, start: nat, pi: nat, first: bool, seen: seq<Item>, c: char, matched: bool)
    requires start <= pi < |pat| && (pat[pi] != ']' || first) && Scanned(pat, start, pi, first, seen, c, matched)
    ensures var next := HeadItem(pat[pi..]);
            Scanned(pat, start, pi + next.1, false, seen + [next.0], c, matched || Within(next.0, c))
  {
    var next := HeadItem(pat[pi..]);
    assert pat[pi..][next.1..] == pat[pi + next.1..];
    assert ParseItems(pat[pi..], first) == Prepend([next.0], next.1, ParseItems(pat[pi + next.1..], false));
    hide ParseItems, HeadItem, InSome, Prepend;
    PrependTwice(seen, pi - start, next.0, next.1, ParseItems(pat[pi + next.1..], false));
    SeenOne(seen, next.0, c);
  }

  /** One item: a range whose end is not the closing bracket, or a single character. */
  method MatchItem(pat: string, start: nat, c: char) returns (pi: nat, hit: bool)
    requires start < |pat|
    ensures pi == start + HeadItem(pat[start..]).1 && hit == Within(HeadItem(pat[start..]).0, c)
  {
    pi := start;
    var lo := pat[pi];
    if lo == '\\' && pi + 1 < |pat| {
      pi := pi + 1;
      lo := pat[pi];
    }
    if pi + 2 < |pat| && pat[pi + 1] == '-' && pat[pi + 2] != ']' {
      var hi := pat[pi + 2];
      hit := Signed(c) >= Signed(lo) && Signed(c) <= Signed(hi);
      pi := pi + 3;
    } else {
      hit := c == lo;
      pi := pi + 1;
    }
  }

  lemma Nothing(parsed: Option<(seq<Item>, nat)>)
    ensures Prepend([], 0, parsed) == parsed
  {
    if parsed.Some? { assert [] + parsed.value.0 == parsed.value.0; }
  }

  lemma Closed(seen: seq<Item>, n: nat)
    ensures Prepend(seen, n, Some(([], 1))) == Some((seen, n + 1))
  {
    assert seen + [] == seen;
  }

  lemma PrependTwice(seen: seq<Item>, m: nat, item: Item, n: nat, parsed: Option<(seq<Item>, nat)>)
    ensures Prepend(seen, m, Prepend([item], n, parsed)) == Prepend(seen + [item], m + n, parsed)
  {
    if parsed.Some? {
      assert seen + ([item] + parsed.value.0) == seen + [item] + parsed.value.0;
    }
  }

  lemma SeenOne(seen: seq<Item>, item: Item, c: char)
    ensures InSome(seen + [item], c) <==> InSome(seen, c) || Within(item, c)
  {
    var all := seen + [item];
    if InSome(seen, c) {
      var i :| 0 <= i < |seen| && Within(seen[i], c);
      assert Within(all[i], c);
    }
    if Within(item, c) { assert Within(all[|seen|], c); }
  }

  /** What is left to decide from here on. */
  predicate Rest(pat: string, pi: nat, text: string, ti: nat)
    requires pi <= |pat| && ti <= |text|
  {
    Matches(Tokens(pat[pi..]), text[ti..])
  }

  /** One token that is not a star takes one character. */
  lemma Advance(pat: string, pi: nat, text: string, ti: nat)
    requires pi < |pat| && ti <= |text| && pat[pi] != '*'
    ensures var next := NextToken(pat[pi..]);
            && !next.0.Star?
            && (Rest(pat, pi, text, ti) <==>
                ti < |text| && Takes(next.0, text[ti]) && Rest(pat, pi + next.1, text, ti + 1))
  {
    var s, tokens := pat[pi..], Tokens(pat[pi..]);
    var next := NextToken(s);
    assert s[next.1..] == pat[pi + next.1..];
    assert tokens[1..] == Tokens(pat[pi + next.1..]);
    if ti < |text| { assert text[ti..][1..] == text[ti + 1..]; }
  }

  lemma AdvanceOne(pat: string, pi: nat, text: string, ti: nat)
    requires pi < |pat| && ti <= |text| && pat[pi] == '?'
    ensures Rest(pat, pi, text, ti) <==> ti < |text| && text[ti] != SLASH && Rest(pat, pi + 1, text, ti + 1)
  {
    Advance(pat, pi, text, ti);
  }

  /** A literal, escaped or not. */
  lemma AdvanceLiteral(pat: string, pi: nat, text: string, ti: nat)
    requires pi < |pat| && ti <= |text| && pat[pi] !in "*?["
    ensures var n := if pat[pi] == '\\' && pi + 1 < |pat| then 1 else 0;
            Rest(pat, pi, text, ti) <==> ti < |text| && text[ti] == pat[pi + n] && Rest(pat, pi + n + 1, text, ti + 1)
  {
    Advance(pat, pi, text, ti);
  }

  lemma AdvanceClass(pat: string, pi: nat, text: string, ti: nat)
    requires pi < |pat| && ti <= |text| && pat[pi] == '['
    ensures var parsed := ParseClass(pat[pi..]);
            Rest(pat, pi, text, ti) <==>
              && ti < |text|
              && if parsed.Some? then Takes(parsed.value.0, text[ti]) && Rest(pat, pi + parsed.value.1, text, ti + 1)
                 else text[ti] == '[' && Rest(pat, pi + 1, text, ti + 1)
  {
    hide Rest, Matches, Tokens, ParseClass;
    Advance(pat, pi, text, ti);
  }

  /** One round of the loop on anything but a star: whether the character is taken, and the next position. */
  method TakeOne(pat: string, start: nat, text: string, ti: nat) returns (took: bool, pi: nat)
    requires start < |pat| && ti <= |text| && pat[start] != '*'
    ensures !took ==> !Rest(pat, start, text, ti)
    ensures took ==> start < pi <= |pat| && ti < |text| && (Rest(pat, start, text, ti) <==> Rest(pat, pi, text, ti + 1))
  {
    pi := start;
    var p := pat[pi];
    if p == '?' {
      AdvanceOne(pat, pi, text, ti);
      if ti >= |text| || text[ti] == '/' { return false, pi; }
      pi := pi + 1;
    } else if p == '[' {
      AdvanceClass(pat, pi, text, ti);
      if ti >= |text| { return false, pi; }
      var next, m, valid := MatchClass(pat, pi, text[ti]);
      if !valid {
        if text[ti] != '[' { return false, pi; }
        return true, pi + 1;
      }
      if !m { return false, pi; }
      pi := next;
    } else {
      AdvanceLiteral(pat, pi, text, ti);
      if p == '\\' && pi + 1 < |pat| { pi := pi + 1; }
      if ti >= |text| || text[ti] != pat[pi] { return false, pi; }
      pi := pi + 1;
    }
    took := true;
  }

  /** `glob_here`. */
  method GlobHere(pat: string, start: nat, text: string, from: nat) returns (matched: bool)
    requires start <= |pat| && from <= |text|
    ensures matched <==> Rest(pat, start, text, from)
    decreases |pat| - start, 1
  {
    var pi, ti := start, from;
    while pi < |pat|
      invariant start <= pi <= |pat| && from <= ti <= |text|
      invariant Rest(pat, pi, text, ti) <==> Rest(pat, start, text, from)
      decreases |pat| - pi
    {
      var p := pat[pi];
      if p == '*' {
        matched := TryStar(pat, pi, text, ti);
        return;
      }
      var took;
      took, pi := TakeOne(pat, pi, text, ti);
      if !took { return false; }
      ti := ti + 1;
    }
    assert Tokens(pat[pi..]) == [];
    matched := ti == |text|;
  }

  /** A star: the rest is tried at every position up to the next slash. */
  method TryStar(pat: string, pi: nat, text: string, ti: nat) returns (matched: bool)
    requires pi < |pat| && pat[pi] == '*' && ti <= |text|
    ensures matched <==> Rest(pat, pi, text, ti)
    decreases |pat| - pi, 0
  {
    var k := ti;
    while true
      invariant ti <= k <= |text| && Free(text[ti..k], SLASH)
      invariant NoneBefore(pat, pi + 1, text, ti, k)
      decreases |text| - k
    {
      var rest := GlobHere(pat, pi + 1, text, k);
      if rest {
        StarAt(pat, pi, text, ti, k);
        return true;
      }
      if k >= |text| || text[k] == '/' { break; }
      assert text[ti..k + 1] == text[ti..k] + [text[k]];
      k := k + 1;
    }
    StarNowhere(pat, pi, text, ti, k);
    matched := false;
  }

  /** The rest of the pattern matches from none of these positions. */
  predicate NoneBefore(pat: string, pi: nat, text: string, ti: nat, k: nat)
    requires pi <= |pat| && ti <= k <= |text| + 1
  {
    forall j :: ti <= j < k ==> !Rest(pat, pi, text, j)
  }

  lemma StarTokens(pat: string, pi: nat)
    requires pi < |pat| && pat[pi] == '*'
    ensures Tokens(pat[pi..]) == [Star] + Tokens(pat[pi + 1..])
  {
    assert pat[pi..][1..] == pat[pi + 1..];
  }

  lemma StarAt(pat: string, pi: nat, text: string, ti: nat, k: nat)
    requires pi < |pat| && pat[pi] == '*' && ti <= k <= |text|
    requires Free(text[ti..k], SLASH) && Rest(pat, pi + 1, text, k)
    ensures Rest(pat, pi, text, ti)
  {
    StarTokens(pat, pi);
    var t := text[ti..];
    assert t[..k - ti] == text[ti..k] && t[k - ti..] == text[k..];
  }

  lemma BeyondSlash(text: string, ti: nat, k: nat, j: nat)
    requires ti <= k < ti + j <= |text| && text[k] == SLASH
    ensures !Free(text[ti..][..j], SLASH)
  {
    assert text[ti..][..j][k - ti] == SLASH;
  }

  /** Beyond a slash, or the end of the text, there is no position to try. */
  lemma StarNowhere(pat: string, pi: nat, text: string, ti: nat, k: nat)
    requires pi < |pat| && pat[pi] == '*' && ti <= k <= |text| && (k < |text| ==> text[k] == SLASH)
    requires NoneBefore(pat, pi + 1, text, ti, k + 1)
    ensures !Rest(pat, pi, text, ti)
  {
    StarTokens(pat, pi);
    var t := text[ti..];
    forall j | 0 <= j <= |t| && Free(t[..j], SLASH) ensures !Matches(Tokens(pat[pi + 1..]), t[j..]) {
      assert t[j..] == text[ti + j..];
      if k < |text| && k < ti + j { BeyondSlash(text, ti, k, j); }
      assert !Rest(pat, pi + 1, text, ti + j);
    }
  }

  /** `glob_match` decides exactly the language of the pattern. */
  method GlobMatch(pattern: string, text: string) returns (matched: bool)
    ensures matched <==> InLanguage(Tokens(pattern), text)
  {
    matched := GlobHere(pattern, 0, text, 0);
    assert pattern[0..] == pattern && text[0..] == text;
    MatchesIsLanguage(Tokens(pattern), text);
  }
}
