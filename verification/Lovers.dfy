/**
 One account's lovership list, as the relationship handlers read and edit it.

 An entry is either a bare dating offer or a bond with its stage (0 dating, 1 engaged, 2 wed) and
 the offers pending on it. Offers live in memory only: `Strip` is what reaches the database.
 */
module Lovers {
  import opened Options

  datatype Lover =
    | DatingOffer(suitor: int)
    | Bond(member: int, name: string, start: int, stage: int, engagement: Option<int>, wedding: Option<int>)

  const MAX_LOVERS := 5

  function Fresh(member: int, name: string, start: int, stage: int): Lover {
    Bond(member, name, start, stage, None, None)
  }

  /** The key `lover_index` compares: the bonded member, or else who offered to date. */
  function Key(l: Lover): int {
    match l
    case DatingOffer(suitor) => suitor
    case Bond(member, _, _, _, _, _) => member
  }

  predicate Distinct(ls: seq<Lover>) {
    forall i, j :: 0 <= i < j < |ls| ==> Key(ls[i]) != Key(ls[j])
  }

  /** The first entry with that key, or -1. */
  function IndexOf(ls: seq<Lover>, member: int): (r: int)
    ensures -1 <= r < |ls|
    ensures r >= 0 ==> Key(ls[r]) == member
    ensures r < 0 ==> forall i :: 0 <= i < |ls| ==> Key(ls[i]) != member
  {
    if ls == [] then -1
    else if Key(ls[0]) == member then 0
    else
      var rest := IndexOf(ls[1..], member);
      if rest < 0 then -1 else rest + 1
  }

  /** The first bond with that member, or -1; offers are passed over. */
  function BondIndex(ls: seq<Lover>, member: int): (r: int)
    ensures -1 <= r < |ls|
    ensures r >= 0 ==> ls[r].Bond? && ls[r].member == member
    ensures r < 0 ==> forall i :: 0 <= i < |ls| ==> !(ls[i].Bond? && ls[i].member == member)
  {
    if ls == [] then -1
    else if ls[0].Bond? && ls[0].member == member then 0
    else
      var rest := BondIndex(ls[1..], member);
      if rest < 0 then -1 else rest + 1
  }

  /** The bond this list records for a member. */
  function BondWith(ls: seq<Lover>, member: int): (r: Option<Lover>)
    ensures r.Some? ==> r.value.Bond? && r.value.member == member && r.value in ls
  {
    var i := BondIndex(ls, member);
    if i < 0 then None else Some(ls[i])
  }

  /** The stage this list records for a member, if any. */
  function StageWith(ls: seq<Lover>, member: int): Option<int> {
    match BondWith(ls, member)
    case None => None
    case Some(b) => Some(b.stage)
  }

  function Cleared(l: Lover): Lover
    requires l.Bond?
  {
    l.(engagement := None, wedding := None)
  }

  /** Every offer removed: dating offers go, and bonds lose what is pending on them. */
  function Strip(ls: seq<Lover>): (r: seq<Lover>)
    ensures |r| <= |ls|
  {
    if ls == [] then []
    else if ls[0].Bond? then [Cleared(ls[0])] + Strip(ls[1..])
    else Strip(ls[1..])
  }

  function Without(ls: seq<Lover>, i: int): seq<Lover>
    requires 0 <= i < |ls|
  {
    ls[..i] + ls[i + 1..]
  }

  /** The list with the bond for `member` gone, when there is one. */
  function Dropped(ls: seq<Lover>, member: int): seq<Lover> {
    var i := BondIndex(ls, member);
    if i < 0 then ls else Without(ls, i)
  }

  // ---- Facts about single lists ----

  lemma BondUnique(ls: seq<Lover>, i: int)
    requires Distinct(ls) && 0 <= i < |ls| && ls[i].Bond?
    ensures BondIndex(ls, ls[i].member) == i
    ensures IndexOf(ls, ls[i].member) == i
  {}

  /** With distinct keys, an entry in the list is what the lookups find for its key. */
  lemma LookupByKey(ls: seq<Lover>, member: int)
    requires Distinct(ls)
    ensures var i := IndexOf(ls, member);
            BondWith(ls, member) == if i >= 0 && ls[i].Bond? then Some(ls[i]) else None
  {
    var i, b := IndexOf(ls, member), BondIndex(ls, member);
    if b >= 0 {
      BondUnique(ls, b);
    }
  }

  lemma {:induction false} StripKeeps(ls: seq<Lover>, l: Lover)
    ensures l in Strip(ls) <==> exists i :: 0 <= i < |ls| && ls[i].Bond? && l == Cleared(ls[i])
  {
    if ls != [] {
      StripKeeps(ls[1..], l);
      assert forall i :: 0 < i < |ls| ==> ls[i] == ls[1..][i - 1];
      if exists i :: 0 <= i < |ls| && ls[i].Bond? && l == Cleared(ls[i]) {
        var i :| 0 <= i < |ls| && ls[i].Bond? && l == Cleared(ls[i]);
        if i > 0 {
          assert ls[1..][i - 1] == ls[i];
        }
      }
    }
  }

  lemma StripFirst(l: Lover, rest: seq<Lover>)
    ensures Strip([l] + rest) == (if l.Bond? then [Cleared(l)] else []) + Strip(rest)
  {
    assert ([l] + rest)[1..] == rest;
  }

  /** What stays keeps its order: each half of a list is stripped on its own. */
  lemma {:induction false} StripConcat(a: seq<Lover>, c: seq<Lover>)
    ensures Strip(a + c) == Strip(a) + Strip(c)
  {
    if a == [] {
      assert a + c == c;
    } else {
      assert a + c == [a[0]] + (a[1..] + c);
      assert a == [a[0]] + a[1..];
      StripFirst(a[0], a[1..]);
      StripFirst(a[0], a[1..] + c);
      StripConcat(a[1..], c);
    }
  }

  lemma {:induction false} StripDistinct(ls: seq<Lover>)
    requires Distinct(ls)
    ensures Distinct(Strip(ls))
  {
    if ls != [] {
      StripDistinct(ls[1..]);
      var rest := Strip(ls[1..]);
      forall j | 0 <= j < |rest| ensures Key(rest[j]) != Key(ls[0]) {
        StripKeeps(ls[1..], rest[j]);
        var i :| 0 <= i < |ls[1..]| && ls[1..][i].Bond? && rest[j] == Cleared(ls[1..][i]);
        assert ls[1..][i] == ls[i + 1];
      }
    }
  }

  lemma {:induction false} StripBond(ls: seq<Lover>, member: int)
    ensures BondWith(Strip(ls), member) ==
            match BondWith(ls, member) { case None => None case Some(b) => Some(Cleared(b)) }
  {
    if ls != [] {
      StripBond(ls[1..], member);
      if ls[0].Bond? {
        assert Strip(ls)[1..] == Strip(ls[1..]);
      }
    }
  }

  lemma {:induction false} StripTwice(ls: seq<Lover>)
    ensures Strip(Strip(ls)) == Strip(ls)
  {
    if ls != [] {
      StripTwice(ls[1..]);
      if ls[0].Bond? {
        assert Strip(ls)[1..] == Strip(ls[1..]);
      }
    }
  }

  /** Stripping does not see an offer put on an existing bond. */
  lemma {:induction false} StripSetOffer(ls: seq<Lover>, i: int, l: Lover)
    requires 0 <= i < |ls| && ls[i].Bond? && l.Bond? && Cleared(l) == Cleared(ls[i])
    ensures Strip(ls[i := l]) == Strip(ls)
  {
    if i == 0 {
      assert ls[0 := l][1..] == ls[1..];
    } else {
      StripSetOffer(ls[1..], i - 1, l);
      assert ls[i := l][1..] == ls[1..][i - 1 := l];
    }
  }

  /** Replacing the entry of one key by a bond changes that member's bond and no other. */
  lemma SetBond(ls: seq<Lover>, i: int, l: Lover, member: int)
    requires Distinct(ls) && 0 <= i < |ls| && l.Bond? && Key(l) == Key(ls[i])
    ensures Distinct(ls[i := l])
    ensures BondWith(ls[i := l], member) == if member == l.member then Some(l) else BondWith(ls, member)
  {
    var after := ls[i := l];
    LookupByKey(ls, member);
    LookupByKey(after, member);
    var x, y := IndexOf(ls, member), IndexOf(after, member);
    if x >= 0 {
      assert Key(after[x]) == member;
    }
    if y >= 0 {
      assert Key(ls[y]) == member;
    }
    assert x == y;
  }

  lemma AppendBond(ls: seq<Lover>, l: Lover, member: int)
    requires Distinct(ls) && IndexOf(ls, Key(l)) < 0
    ensures Distinct(ls + [l])
    ensures l.Bond? ==>
              BondWith(ls + [l], member) == if member == l.member then Some(l) else BondWith(ls, member)
    ensures l.DatingOffer? ==> BondWith(ls + [l], member) == BondWith(ls, member)
  {
    var after := ls + [l];
    LookupByKey(ls, member);
    LookupByKey(after, member);
    var x, y := IndexOf(ls, member), IndexOf(after, member);
    if x >= 0 {
      assert Key(after[x]) == member;
      assert x == y;
    } else if y >= 0 {
      assert y == |ls|;
    }
    if l.Bond? && member == l.member {
      assert Key(after[|ls|]) == member;
    }
  }

  /** Dropping a member's bond leaves every other bond, and no bond with that member. */
  lemma DropBond(ls: seq<Lover>, gone: int, member: int)
    requires Distinct(ls)
    ensures Distinct(Dropped(ls, gone)) && |Dropped(ls, gone)| <= |ls|
    ensures BondWith(Dropped(ls, gone), member) == if member == gone then None else BondWith(ls, member)
    ensures forall l :: l in Dropped(ls, gone) ==> l in ls
  {
    var i := BondIndex(ls, gone);
    if i >= 0 {
      var after := Dropped(ls, gone);
      var x, y := BondIndex(ls, member), BondIndex(after, member);
      if x >= 0 && x != i {
        assert after[if x < i then x else x - 1] == ls[x];
        BondUnique(after, if x < i then x else x - 1);
      }
      if y >= 0 {
        BondUnique(ls, if y < i then y else y + 1);
      }
    }
  }

  lemma {:induction false} StripDropped(ls: seq<Lover>, gone: int)
    ensures Strip(Dropped(ls, gone)) == Dropped(Strip(ls), gone)
  {
    if ls != [] {
      var l, rest := ls[0], ls[1..];
      assert ls == [l] + rest;
      StripDropped(rest, gone);
      StripFirst(l, rest);
      if l.Bond? && l.member == gone {
        assert Dropped(ls, gone) == rest;
        assert Strip(ls)[1..] == Strip(rest) && Dropped(Strip(ls), gone) == Strip(ls)[1..];
      } else {
        DroppedCons(l, rest, gone);
        StripFirst(l, Dropped(rest, gone));
        if l.Bond? { DroppedCons(Cleared(l), Strip(rest), gone); }
      }
    }
  }

  lemma DroppedCons(l: Lover, rest: seq<Lover>, gone: int)
    requires !(l.Bond? && l.member == gone)
    ensures Dropped([l] + rest, gone) == [l] + Dropped(rest, gone)
  {
    hide BondIndex, Without;
    BondBehind(l, rest, gone);
    var i := BondIndex(rest, gone);
    if i >= 0 { WithoutCons(l, rest, i); }
  }

  lemma BondBehind(l: Lover, rest: seq<Lover>, member: int)
    requires !(l.Bond? && l.member == member)
    ensures BondIndex([l] + rest, member) == var i := BondIndex(rest, member); if i < 0 then -1 else i + 1
  {
    assert ([l] + rest)[1..] == rest;
  }

  lemma WithoutCons(l: Lover, rest: seq<Lover>, i: int)
    requires 0 <= i < |rest|
    ensures Without([l] + rest, i + 1) == [l] + Without(rest, i)
  {
    var ls := [l] + rest;
    assert ls[..i + 1] == [l] + rest[..i] && ls[i + 2..] == rest[i + 1..];
  }
}
