/**
 What each relationship call does, told in its own terms: which entry or collar a call looks at, the numbers
 and times it compares, and what it leaves in memory and in the database. Runs that go all the way are at the end.
 */
module RelationshipCalls {
  import opened Options
  import opened Lovers
  import opened Relationships

  // ---- What a write leaves ----

  /** The database after the ownership of `m` has been stored under its account's name, if that is text. */
  predicate OwnershipStored(w: World, w': World, m: int, owner: string, o: Ownership) {
    && w'.disk.Keys == w.disk.Keys
    && (forall k :: k in w.disk && (k != m || k in w.unkeyed) ==> w'.disk[k] == w.disk[k])
    && (m in w.disk && m !in w.unkeyed ==> w'.disk[m] == Ties(owner, o, w.disk[m].lovers))
  }

  /** Memory with the ownership of `m` replaced. */
  predicate OwnershipRecalled(w: World, w': World, m: int, owner: string, o: Ownership) {
    && w'.online.Keys == w.online.Keys && w'.unkeyed == w.unkeyed
    && (forall k :: k in w.online && k != m ==> w'.online[k] == w.online[k])
    && (m in w.online ==> w'.online[m] == Ties(owner, o, w.online[m].lovers))
  }

  predicate OwnershipWritten(w: World, w': World, m: int, owner: string, o: Ownership) {
    OwnershipRecalled(w, w', m, owner, o) && OwnershipStored(w, w', m, owner, o)
  }

  // ---- Ownership ----

  /** A submissive is freed from a trial at any time, and from a full collar after the delay, up to difficulty 2. */
  lemma BreakFrees(w: World, my: int, target: int, notes: Option<string>, maxLen: nat, s: Scene, now: int)
    requires my in w.online && (s.inRoom && s.targetInRoom ==> target in w.online)
    ensures var o, w' := w.online[my].ownership, OwnershipStep(w, my, target, "Break", notes, maxLen, s, now);
            if o.Collar? && (o.stage == 0 || (o.start + s.delay <= now && (s.level == None || s.level.value <= 2)))
            then OwnershipWritten(w, w', my, "", Free)
            else w' == w
  {}

  /** The target is to be offered something: not blocked, not owned by name, not the caller's own owner. */
  predicate Approachable(w: World, my: int, target: int, s: Scene)
    requires my in w.online && target in w.online
  {
    && !s.blocked && w.online[target].owner == ""
    && !(w.online[my].ownership.Collar? && w.online[my].ownership.member == target)
  }

  /** When a proposal offers a trial, when it offers to end one, and that it does nothing else. */
  lemma ProposeOffers(w: World, my: int, target: int, notes: Option<string>, maxLen: nat, s: Scene, now: int)
    requires my in w.online && target in w.online && s.inRoom && s.targetInRoom
    ensures var o, w' := w.online[target].ownership, OwnershipStep(w, my, target, "Propose", notes, maxLen, s, now);
            var o' := if target in w'.online then w'.online[target].ownership else Free;
            && w'.disk == w.disk && OwnershipRecalled(w, w', target, w.online[target].owner, o')
            && (o' == TrialOffer(my) <==>
                o == TrialOffer(my) || (Approachable(w, my, target, s) && !o.Collar? && my != target))
            && (o'.Collar? && o'.endOffer == Some(my) <==>
                o.Collar? && (|| o.endOffer == Some(my)
                              || (&& Approachable(w, my, target, s) && o.member == my && o.stage == 0
                                  && o.endOffer == None && o.start + s.delay <= now)))
            && (o' == o || o' == TrialOffer(my) || (o.Collar? && o' == o.(endOffer := Some(my))))
  {}

  /** When an acceptance puts a collar on: a trial that was offered, or a full one when its end was. */
  lemma AcceptCollars(w: World, my: int, target: int, notes: Option<string>, maxLen: nat, s: Scene, now: int)
    requires my in w.online && target in w.online && s.inRoom && s.targetInRoom
    ensures var o, w' := w.online[my].ownership, OwnershipStep(w, my, target, "Accept", notes, maxLen, s, now);
            if s.blocked || s.targetName == None then w' == w
            else if o == TrialOffer(target) then
              OwnershipWritten(w, w', my, "", Collar(target, s.targetName.value, now, 0, None, None))
            else if o.Collar? && o.member == target && o.stage == 0 && o.endOffer == Some(target) then
              OwnershipWritten(w, w', my, s.targetName.value, Collar(target, s.targetName.value, now, 1, None, None))
            else w' == w
  {}

  /** An owner releases whom they own, in the room by what memory says, and elsewhere by what is stored. */
  lemma ReleaseFrees(w: World, my: int, target: int, notes: Option<string>, maxLen: nat, s: Scene, now: int)
    requires my in w.online && (s.inRoom && s.targetInRoom ==> target in w.online)
    ensures var w' := OwnershipStep(w, my, target, "Release", notes, maxLen, s, now);
            if !s.inRoom then w' == w
            else if s.targetInRoom then
              var o := w.online[target].ownership;
              if o.Collar? && o.member == my then OwnershipWritten(w, w', target, "", Free) else w' == w
            else if target in w.disk && w.disk[target].ownership.Collar? && w.disk[target].ownership.member == my then
              && OwnershipRecalled(w, w', target, "", Free)
              && w'.disk == w.disk[target := Ties("", Free, w.disk[target].lovers)]
            else w' == w
  {}

  /**
   An owner writes notes on a full collar: the first `maxLen` bytes, or none for an empty text. They are
   stored unless the byte at which they are cut continues a UTF-8 character.
   */
  lemma NotesWritten(w: World, my: int, target: int, notes: Option<string>, maxLen: nat, s: Scene, now: int)
    requires my in w.online && target in w.online && s.inRoom && s.targetInRoom
    ensures var t, w' := w.online[target], OwnershipStep(w, my, target, "UpdateNotes", notes, maxLen, s, now);
            var o := t.ownership;
            if o.Collar? && o.member == my && o.stage == 1 then
              var text := if notes == None || notes.value == "" then None
                          else if |notes.value| <= maxLen then notes else Some(notes.value[..maxLen]);
              var cut := notes.Some? && |notes.value| > maxLen && 128 <= notes.value[maxLen] as int < 192;
              && OwnershipRecalled(w, w', target, t.owner, o.(notes := text))
              && (if cut then w'.disk == w.disk else OwnershipStored(w, w', target, t.owner, o.(notes := text)))
            else w' == w
  {}

  /** Every other word, and every word but Break and Release where the target is not in the room, does nothing. */
  lemma OtherWordsOnOwnership(w: World, my: int, target: int, action: string, notes: Option<string>, maxLen: nat,
                              s: Scene, now: int)
    requires my in w.online && (s.inRoom && s.targetInRoom ==> target in w.online)
    requires action != "Break" && action != "Release"
    requires action !in {"UpdateNotes", "Propose", "Accept"} || !s.inRoom || !s.targetInRoom
    ensures OwnershipStep(w, my, target, action, notes, maxLen, s, now) == w
  {}

  // ---- Lovership ----

  /** An entry for this member: a dating offer it made, or the bond with it. */
  predicate For(l: Lover, m: int) {
    l == DatingOffer(m) || (l.Bond? && l.member == m)
  }

  predicate HasEntry(ls: seq<Lover>, m: int) {
    exists i :: 0 <= i < |ls| && For(ls[i], m)
  }

  predicate FirstEntry(ls: seq<Lover>, i: nat, m: int) {
    i < |ls| && For(ls[i], m) && forall k :: 0 <= k < i ==> !For(ls[k], m)
  }

  lemma EntryFound(ls: seq<Lover>, m: int)
    ensures IndexOf(ls, m) >= 0 <==> HasEntry(ls, m)
    ensures forall i: nat :: FirstEntry(ls, i, m) <==> i == IndexOf(ls, m)
  {
    FirstFound(ls, m);
    if IndexOf(ls, m) >= 0 { assert For(ls[IndexOf(ls, m)], m); }
    if i :| 0 <= i < |ls| && For(ls[i], m) { assert Key(ls[i]) == m; }
    forall i: nat | FirstEntry(ls, i, m) ensures i == IndexOf(ls, m) {
      assert Key(ls[i]) == m;
    }
  }

  lemma {:induction false} FirstFound(ls: seq<Lover>, m: int)
    ensures forall k :: 0 <= k < IndexOf(ls, m) ==> !For(ls[k], m)
  {
    if ls != [] {
      FirstFound(ls[1..], m);
      assert forall k :: 1 <= k < |ls| ==> ls[k] == ls[1..][k - 1];
    }
  }

  /** Memory with one list replaced, and nothing else. */
  predicate OnlyList(w: World, w': World, m: int, ls: seq<Lover>)
    requires m in w.online
  {
    && w'.disk == w.disk && w'.unkeyed == w.unkeyed
    && w'.online == w.online[m := Ties(w.online[m].owner, w.online[m].ownership, ls)]
  }

  /** The caller may still offer: fewer than five entries, or one for the target. */
  predicate MayOffer(mine: seq<Lover>, target: int) {
    |mine| < 5 || HasEntry(mine, target)
  }

  /** What becomes of the entry for the caller: a due bond gets the offer of the next stage, unless it has it. */
  predicate OfferPut(mine: seq<Lover>, l: Lover, l': Lover, my: int, target: int, delay: int, now: int) {
    var due := MayOffer(mine, target) && l.Bond? && l.start + delay <= now;
    l' == if due && l.stage == 0 && l.engagement == None then l.(engagement := Some(my))
          else if due && l.stage == 1 && l.wedding == None then l.(wedding := Some(my))
          else l
  }

  /**
   A list after a proposal by `my` to its owner `target`: it gains a dating offer if it has fewer than five
   entries and none for the caller, and the caller may still offer; the entry there is may get the next offer.
   */
  ghost predicate ProposalMade(mine: seq<Lover>, theirs: seq<Lover>, theirs': seq<Lover>, my: int, target: int,
                               delay: int, now: int) {
    && (theirs' == theirs + [DatingOffer(my)] <==> MayOffer(mine, target) && |theirs| < 5 && !HasEntry(theirs, my))
    && (!HasEntry(theirs, my) ==> theirs' == theirs || theirs' == theirs + [DatingOffer(my)])
    && (forall i: nat :: FirstEntry(theirs, i, my) ==>
          |theirs'| == |theirs| && theirs' == theirs[i := theirs'[i]]
          && OfferPut(mine, theirs[i], theirs'[i], my, target, delay, now))
  }

  /** A proposal changes the target's list in memory in that way, and nothing else. */
  lemma ProposeAdds(w: World, my: int, target: int, named: bool, s: Scene, now: int, later: int)
    requires my in w.online && target in w.online && s.inRoom && s.targetInRoom && !s.blocked && my != target
    ensures var mine, theirs := w.online[my].lovers, w.online[target].lovers;
            exists theirs' ::
              && OnlyList(w, LovershipStep(w, my, target, "Propose", named, s, now, later), target, theirs')
              && ProposalMade(mine, theirs, theirs', my, target, s.delay, now)
  {
    hide ProposedList, IndexOf, Offered;
    var mine, theirs := w.online[my].lovers, w.online[target].lovers;
    var theirs' := ProposedList(mine, theirs, my, target, "Propose", s.delay, now);
    ListProposed(mine, theirs, my, target, s.delay, now);
    var w' := LovershipStep(w, my, target, "Propose", named, s, now, later);
    assert w' == ProposeLove(w, my, target, "Propose", s, now);
    assert w'.online[target] == Ties(w.online[target].owner, w.online[target].ownership, theirs');
  }

  lemma ListProposed(mine: seq<Lover>, theirs: seq<Lover>, my: int, target: int, delay: int, now: int)
    ensures ProposalMade(mine, theirs, ProposedList(mine, theirs, my, target, "Propose", delay, now), my, target, delay, now)
  {
    hide IndexOf, HasEntry, FirstEntry;
    EntryFound(mine, target);
    EntryFound(theirs, my);
    assert |theirs + [DatingOffer(my)]| == |theirs| + 1;
  }

  /** The list without its i-th entry. */
  function Cut(ls: seq<Lover>, i: nat): seq<Lover>
    requires i < |ls|
  {
    ls[..i] + ls[i + 1..]
  }

  /** What stripping does to a single entry; with `StripConcat` it is determined. */
  lemma StripSingle(m: int, name: string, start: int, stage: int, engagement: Option<int>, wedding: Option<int>)
    ensures Strip([Bond(m, name, start, stage, engagement, wedding)]) == [Bond(m, name, start, stage, None, None)]
    ensures Strip([DatingOffer(m)]) == [] == Strip([])
  {}

  /** A list is saved: stripped, in memory and in the database. */
  predicate ListSaved(w: World, w': World, m: int, ls: seq<Lover>) {
    && (m in w.online ==> m in w'.online && w'.online[m] == Ties(w.online[m].owner, w.online[m].ownership, Strip(ls)))
    && (m in w.disk ==> m in w'.disk && w'.disk[m] == Ties(w.disk[m].owner, w.disk[m].ownership, Strip(ls)))
  }

  /** Nothing of anyone but these two is touched. */
  predicate OthersKept(w: World, w': World, a: int, c: int) {
    && w'.unkeyed == w.unkeyed && w'.online.Keys == w.online.Keys && w'.disk.Keys == w.disk.Keys
    && (forall m :: m in w.online && m != a && m != c ==> w'.online[m] == w.online[m])
    && (forall m :: m in w.disk && m != a && m != c ==> w'.disk[m] == w.disk[m])
  }

  /** The caller's i-th entry lets it accept, to this stage. */
  predicate Acceptable(mine: seq<Lover>, theirs: seq<Lover>, i: nat, my: int, target: int, stage: int) {
    && |mine| <= 5 && FirstEntry(mine, i, target)
    && (|| (stage == 0 && mine[i] == DatingOffer(target) && (|theirs| < 5 || HasEntry(theirs, my)))
        || (stage == 1 && mine[i].Bond? && mine[i].stage == 0 && mine[i].engagement == Some(target))
        || (stage == 2 && mine[i].Bond? && mine[i].stage == 1 && mine[i].wedding == Some(target)))
  }

  /** The other side's list after an acceptance: its entry is replaced; only dating adds one. */
  ghost predicate Answered(theirs: seq<Lover>, theirs': seq<Lover>, my: int, entry: Lover, stage: int) {
    && (forall j: nat :: FirstEntry(theirs, j, my) ==> theirs' == theirs[j := entry])
    && (!HasEntry(theirs, my) ==> theirs' == if stage == 0 then theirs + [entry] else theirs)
  }

  /** When an acceptance goes through, and what both lists are then. */
  lemma AcceptBinds(w: World, my: int, target: int, named: bool, s: Scene, now: int, later: int, i: nat, stage: int)
    requires my in w.online && target in w.online && s.inRoom && s.targetInRoom && !s.blocked && my != target
    requires s.myName.Some? && s.targetName.Some?
    requires Acceptable(w.online[my].lovers, w.online[target].lovers, i, my, target, stage)
    ensures var mine, theirs := w.online[my].lovers, w.online[target].lovers;
            var w' := LovershipStep(w, my, target, "Accept", named, s, now, later);
            && OthersKept(w, w', my, target)
            && ListSaved(w, w', my, mine[i := Bond(target, s.targetName.value, now, stage, None, None)])
            && exists theirs' :: ListSaved(w, w', target, theirs')
                 && Answered(theirs, theirs', my, Bond(my, s.myName.value, later, stage, None, None), stage)
  {
    hide IndexOf, Strip, HasEntry, FirstEntry;
    var mine, theirs := w.online[my].lovers, w.online[target].lovers;
    EntryFound(mine, target);
    EntryFound(theirs, my);
    var tl, entry := IndexOf(theirs, my), Bond(my, s.myName.value, later, stage, None, None);
    var theirs' := if tl >= 0 then theirs[tl := entry] else if stage == 0 then theirs + [entry] else theirs;
    assert Answered(theirs, theirs', my, entry, stage);
    assert w.online[target := w.online[target]] == w.online;
    assert NextStage(mine[i], target) == Some(stage);
  }

  /** Otherwise an acceptance does nothing. */
  lemma AcceptRefused(w: World, my: int, target: int, named: bool, s: Scene, now: int, later: int)
    requires my in w.online && target in w.online && s.inRoom && s.targetInRoom
    requires || s.blocked || my == target || s.myName == None || s.targetName == None
             || forall i: nat, stage: int ::
                  !Acceptable(w.online[my].lovers, w.online[target].lovers, i, my, target, stage)
    ensures LovershipStep(w, my, target, "Accept", named, s, now, later) == w
  {
    hide IndexOf, Strip, HasEntry, FirstEntry;
    var mine, theirs := w.online[my].lovers, w.online[target].lovers;
    EntryFound(mine, target);
    EntryFound(theirs, my);
    assert w.online[target := w.online[target].(lovers := theirs)] == w.online;
    var al := IndexOf(mine, target);
    if al >= 0 && NextStage(mine[al], target).Some? {
      assert Acceptable(mine, theirs, al, my, target, NextStage(mine[al], target).value)
        || |mine| > 5 || NextStage(mine[al], target) == Some(0);
    }
  }

  /** The first bond with a member; dating offers are passed over. */
  predicate FirstBond(ls: seq<Lover>, i: nat, m: int) {
    && i < |ls| && ls[i].Bond? && ls[i].member == m
    && forall k :: 0 <= k < i ==> !(ls[k].Bond? && ls[k].member == m)
  }

  predicate HasBond(ls: seq<Lover>, m: int) {
    exists i :: 0 <= i < |ls| && ls[i].Bond? && ls[i].member == m
  }

  lemma {:induction false} BondFound(ls: seq<Lover>, m: int)
    ensures BondIndex(ls, m) >= 0 <==> HasBond(ls, m)
    ensures forall i: nat :: FirstBond(ls, i, m) <==> i == BondIndex(ls, m)
  {
    if ls != [] {
      BondFound(ls[1..], m);
      assert forall k :: 1 <= k < |ls| ==> ls[k] == ls[1..][k - 1];
      var r := BondIndex(ls, m);
      if r > 0 { assert FirstBond(ls[1..], r - 1, m); }
      assert r >= 0 ==> FirstBond(ls, r, m);
      forall i: nat | FirstBond(ls, i, m) ensures i == r {}
    }
  }

  /** The caller's i-th entry is a bond with the target that may be broken: a wedding only after the delay. */
  predicate Breakable(mine: seq<Lover>, i: nat, target: int, delay: int, now: int) {
    FirstBond(mine, i, target) && (mine[i].stage != 2 || mine[i].start + delay <= now)
  }

  /** A break takes the bond off both lists; the other side's memory follows what it has stored. */
  lemma BreakParts(w: World, my: int, target: int, named: bool, s: Scene, now: int, later: int, i: nat, j: nat)
    requires my in w.online && (s.inRoom && s.targetInRoom ==> target in w.online) && my != target
    requires Breakable(w.online[my].lovers, i, target, s.delay, now)
    requires target in w.disk && FirstBond(w.disk[target].lovers, j, my) && !(s.unsent && target in w.online)
    ensures var t, w' := w.disk[target], LovershipStep(w, my, target, "Break", named, s, now, later);
            && OthersKept(w, w', my, target)
            && ListSaved(w, w', my, Cut(w.online[my].lovers, i))
            && w'.disk[target] == Ties(t.owner, t.ownership, Strip(Cut(t.lovers, j)))
            && (target in w.online ==>
                  w'.online[target] == Ties(w.online[target].owner, w.online[target].ownership, Cut(t.lovers, j)))
  {
    hide BondIndex, Strip, FirstBond;
    BondFound(w.online[my].lovers, target);
    BondFound(w.disk[target].lovers, my);
  }

  /** Of a bond that the other side has not stored, only the caller's half is left to take off. */
  lemma BreakAlone(w: World, my: int, target: int, named: bool, s: Scene, now: int, later: int, i: nat)
    requires my in w.online && (s.inRoom && s.targetInRoom ==> target in w.online) && my != target
    requires Breakable(w.online[my].lovers, i, target, s.delay, now)
    requires !(target in w.disk && HasBond(w.disk[target].lovers, my))
    ensures var w' := LovershipStep(w, my, target, "Break", named, s, now, later);
            OthersKept(w, w', my, my) && ListSaved(w, w', my, Cut(w.online[my].lovers, i))
  {
    hide BondIndex, Strip, FirstBond;
    BondFound(w.online[my].lovers, target);
    if target in w.disk { BondFound(w.disk[target].lovers, my); }
  }

  /** A bond with oneself would only go as far as it is stored. */
  lemma BreakOfSelf(w: World, my: int, named: bool, s: Scene, now: int, later: int, i: nat)
    requires my in w.online && Breakable(w.online[my].lovers, i, my, s.delay, now) && !s.unsent
    ensures var w' := LovershipStep(w, my, my, "Break", named, s, now, later);
            && OthersKept(w, w', my, my)
            && (!(my in w.disk && HasBond(w.disk[my].lovers, my)) ==> w' == w)
            && (forall j: nat :: my in w.disk && FirstBond(w.disk[my].lovers, j, my) ==>
                  var rest := Cut(w.disk[my].lovers, j);
                  && w'.disk[my] == Ties(w.disk[my].owner, w.disk[my].ownership, Strip(rest))
                  && w'.online[my] == Ties(w.online[my].owner, w.online[my].ownership, rest))
  {
    hide BondIndex, Strip, FirstBond;
    BondFound(w.online[my].lovers, my);
    if my in w.disk { BondFound(w.disk[my].lovers, my); }
  }

  /** When the target's room cannot be told, only the target's memory loses the bond. */
  lemma BreakCutShort(w: World, my: int, target: int, named: bool, s: Scene, now: int, later: int, i: nat, j: nat)
    requires my in w.online && target in w.online && target in w.disk && s.unsent
    requires Breakable(w.online[my].lovers, i, target, s.delay, now) && FirstBond(w.disk[target].lovers, j, my)
    ensures OnlyList(w, LovershipStep(w, my, target, "Break", named, s, now, later), target, Cut(w.disk[target].lovers, j))
  {
    hide BondIndex, FirstBond;
    BondFound(w.online[my].lovers, target);
    BondFound(w.disk[target].lovers, my);
  }

  /** Otherwise a break does nothing, but that the name of an NPC has the caller's offers dropped. */
  lemma BreakRefused(w: World, my: int, target: int, named: bool, s: Scene, now: int, later: int)
    requires my in w.online && (s.inRoom && s.targetInRoom ==> target in w.online)
    requires forall i: nat :: !Breakable(w.online[my].lovers, i, target, s.delay, now)
    ensures var mine, w' := w.online[my].lovers, LovershipStep(w, my, target, "Break", named, s, now, later);
            if !HasBond(mine, target) && target < 0 && named then OthersKept(w, w', my, my) && ListSaved(w, w', my, mine)
            else w' == w
  {
    hide BondIndex, Strip, IndexOf, Offered, NextStage, FirstBond;
    var i := BondIndex(w.online[my].lovers, target);
    BondFound(w.online[my].lovers, target);
    if i >= 0 { assert !Breakable(w.online[my].lovers, i, target, s.delay, now); }
    if target in w.online { assert w.online[target := w.online[target].(lovers := w.online[target].lovers)] == w.online; }
  }

  /** Every other word does nothing, nor do these two unless the target is in the room, someone else and unblocked. */
  lemma OtherWordsOnLovership(w: World, my: int, target: int, action: string, named: bool, s: Scene, now: int, later: int)
    requires my in w.online && (s.inRoom && s.targetInRoom ==> target in w.online)
    requires action != "Break"
    requires action !in {"Propose", "Accept"} || !s.inRoom || !s.targetInRoom || s.blocked || my == target
    ensures LovershipStep(w, my, target, action, named, s, now, later) == w
  {
    hide IndexOf, Offered, NextStage, MayBreakBond, BondWith;
    if target in w.online { assert w.online[target := w.online[target].(lovers := w.online[target].lovers)] == w.online; }
  }

  // ---- Sessions ----

  /**
   Accounts start with nothing, a session starts from what is stored, and its end stores nothing. An update
   marks a session whose account name it spoils, and one that reaches the record makes of it what it likes.
   */
  lemma SessionBounds(st: State, m: int, mem: Ties, kept: Ties, b: Bounds)
    ensures var w, fresh' := st.world, Ties("", Free, []);
            && (m !in w.disk ==> Step(st, Create(m), b).world == World(w.online[m := fresh'], w.disk[m := fresh'], w.unkeyed - {m}))
            && (m in w.disk ==> Step(st, Login(m), b).world == World(w.online[m := w.disk[m]], w.disk, w.unkeyed - {m}))
            && (m in w.online ==> Step(st, Misname(m), b).world == World(w.online, w.disk, w.unkeyed + {m}))
            && (Enabled(st, Rewrite(m, mem, kept), b) ==>
                  Step(st, Rewrite(m, mem, kept), b).world == World(w.online[m := mem], w.disk[m := kept], w.unkeyed))
            && Step(st, Logout(m), b).world == World(map k | k in w.online && k != m :: w.online[k], w.disk, w.unkeyed - {m})
  {}

  // ---- A run that goes all the way ----

  /** A trial and, after the delay, a full collar: 1 proposes and 2 accepts, twice. */
  function CollarEvents(d: int): seq<Event> {
    var s := Scene(true, true, false, None, Some("me"), Some("you"), false, d);
    [ Create(1), Create(2),
      OwnershipCall(1, 2, "Propose", None, 0, s, 0), OwnershipCall(2, 1, "Accept", None, 0, s, 0),
      OwnershipCall(1, 2, "Propose", None, 0, s, d), OwnershipCall(2, 1, "Accept", None, 0, s, d) ]
  }

  /** What 2 is stored with and remembers in turn, once there are two accounts. */
  function CollarState(recalled: Ties, stored: Ties, clock: int): State {
    var one := Ties("", Free, []);
    State(World(map[1 := one, 2 := recalled], map[1 := one, 2 := stored], {}), clock)
  }

  function CollarStates(d: int): seq<State> {
    var one := Ties("", Free, []);
    var trial := Ties("", Collar(1, "you", 0, 0, None, None), []);
    var due := Ties("", Collar(1, "you", 0, 0, Some(1), None), []);
    var full := Ties("you", Collar(1, "you", d, 1, None, None), []);
    [ State(World(map[], map[], {}), 0), State(World(map[1 := one], map[1 := one], {}), 0), CollarState(one, one, 0),
      CollarState(Ties("", TrialOffer(1), []), one, 0), CollarState(trial, trial, 0), CollarState(due, trial, d),
      CollarState(full, full, d) ]
  }

  lemma CollarReached(d: int, skew: int)
    requires 0 <= d
    ensures Run(CollarStates(d), CollarEvents(d), Bounds(d, skew))
    ensures var w, full := CollarStates(d)[6].world, Ties("you", Collar(1, "you", d, 1, None, None), []);
            w.online[2] == full && w.disk[2] == full
  {
    var states, events := CollarStates(d), CollarEvents(d);
    forall i | 0 <= i < 6 ensures Follows(states[i], events[i], states[i + 1], Bounds(d, skew)) {
      CollarFollows(d, skew, i);
    }
  }

  lemma CollarFollows(d: int, skew: int, i: nat)
    requires 0 <= d && i < 6
    ensures Follows(CollarStates(d)[i], CollarEvents(d)[i], CollarStates(d)[i + 1], Bounds(d, skew))
  {}
}
