/** Runs of the relationship machine in which the guards of its theorems fail, and what is lost then. */
module RelationshipLosses {
  import opened Options
  import opened Lovers
  import opened Relationships
  import opened RelationshipInvariants
  import opened RelationshipTheorems

  const BARE := map[1 := NO_TIES, 2 := NO_TIES]

  // ---- A break that is not stored ----

  /** A trial is accepted; the submissive's account name is spoilt; the trial is broken; a new session begins. */
  function NamelessEvents(b: Bounds): seq<Event> {
    var s := HERE.(delay := b.delay);
    [ Create(1), Create(2),
      OwnershipCall(2, 1, "Propose", None, 0, s, 0),
      OwnershipCall(1, 2, "Accept", None, 0, s, 0),
      Misname(1),
      OwnershipCall(1, 2, "Break", None, 0, s, 0),
      Logout(1), Login(1) ]
  }

  const TRIAL := NO_TIES.(ownership := Collar(2, "", 0, 0, None, None))
  const ASKED := NO_TIES.(ownership := TrialOffer(2))

  function NamelessStates(): seq<State> {
    var worn := BARE[1 := TRIAL];
    [ State(EMPTY_WORLD, 0),
      State(World(map[1 := NO_TIES], map[1 := NO_TIES], {}), 0),
      State(World(BARE, BARE, {}), 0),
      State(World(BARE[1 := ASKED], BARE, {}), 0),
      State(World(worn, worn, {}), 0),
      State(World(worn, worn, {1}), 0),
      State(World(BARE, worn, {1}), 0),
      State(World(map[2 := NO_TIES], worn, {}), 0),
      State(World(worn, worn, {}), 0) ]
  }

  /** The break takes the collar off in memory alone, and the next session wears it again. */
  lemma NamelessBreak(b: Bounds)
    requires 0 <= b.delay
    ensures Run(NamelessStates(), NamelessEvents(b), b)
    ensures var broken := NamelessStates()[6].world;
            broken.online[1].ownership == Free && CollarOf(broken.disk, 1) == TRIAL.ownership && !MemoryMatchesDisk(broken)
    ensures NamelessStates()[8].world.online[1].ownership == TRIAL.ownership
  {
    var states, events := NamelessStates(), NamelessEvents(b);
    NamelessOpens(b);
    NamelessBreaks(b);
    NamelessReturns(b);
    forall i | 0 <= i < |events| ensures Follows(states[i], events[i], states[i + 1], b) {
      assert i < 2 || i == 2 || i == 3 || i == 4 || i == 5 || i == 6 || i == 7;
    }
  }

  lemma NamelessOpens(b: Bounds)
    requires 0 <= b.delay
    ensures forall i :: 0 <= i < 4 ==> Follows(NamelessStates()[i], NamelessEvents(b)[i], NamelessStates()[i + 1], b)
  {
    var s := HERE.(delay := b.delay);
    var asked := World(BARE[1 := ASKED], BARE, {});
    assert ProposeOwner(asked, 1, 2, "Accept", s, 0) == asked;
    assert BARE[1 := ASKED][1 := TRIAL] == BARE[1 := TRIAL];
  }

  lemma NamelessBreaks(b: Bounds)
    requires 0 <= b.delay
    ensures forall i :: 4 <= i < 6 ==> Follows(NamelessStates()[i], NamelessEvents(b)[i], NamelessStates()[i + 1], b)
  {
    assert BARE[1 := TRIAL][1 := NO_TIES] == BARE;
  }

  lemma NamelessReturns(b: Bounds)
    ensures forall i :: 6 <= i < 8 ==> Follows(NamelessStates()[i], NamelessEvents(b)[i], NamelessStates()[i + 1], b)
  {
    assert BARE - {1} == map[2 := NO_TIES];
    assert map[2 := NO_TIES][1 := TRIAL] == BARE[1 := TRIAL];
  }

  // ---- A break that is cut short ----

  /** Two are dating, and one breaks when the other's room cannot be sent the other's data. */
  function CutEvents(b: Bounds): seq<Event> {
    CourtEvents(b)[..4] + [LovershipCall(1, 2, "Break", false, HERE.(unsent := true, delay := b.delay), b.skew, b.skew)]
  }

  function CutStates(b: Bounds): seq<State> {
    var dating := CourtStates(b)[4].world;
    CourtStates(b)[..5] + [State(dating.(online := dating.online[2 := NO_TIES]), b.skew)]
  }

  /** Then the one who broke still has the bond on record, and the other has not. */
  lemma CutBreak(b: Bounds)
    requires 0 <= b.skew && 0 <= b.delay
    ensures Run(CutStates(b), CutEvents(b), b)
    ensures StageWith(RecordOf(CutStates(b)[5].world, 1).lovers, 2) == Some(0)
    ensures StageWith(RecordOf(CutStates(b)[5].world, 2).lovers, 1) == None
  {
    hide NO_TIES, EMPTY_WORLD, CourtEvents, CourtStates;
    var states, events := CutStates(b), CutEvents(b);
    CourtLengths(b);
    SkewIsTight(b);
    Cut(b);
    forall i | 0 <= i < |events| ensures Follows(states[i], events[i], states[i + 1], b) {
      if i < 4 { assert Follows(CourtStates(b)[i], CourtEvents(b)[i], CourtStates(b)[i + 1], b); }
    }
  }

  lemma CourtLengths(b: Bounds)
    ensures |CourtEvents(b)| == 6 && |CourtStates(b)| == 7 && CourtStates(b)[0].world == EMPTY_WORLD
    ensures CourtStates(b)[4].world.online.Keys == {1, 2}
  {}

  lemma Cut(b: Bounds)
    requires 0 <= b.skew && 0 <= b.delay && |CutStates(b)| == 6 && |CutEvents(b)| == 5
    ensures Follows(CutStates(b)[4], CutEvents(b)[4], CutStates(b)[5], b)
    ensures StageWith(RecordOf(CutStates(b)[5].world, 1).lovers, 2) == Some(0)
    ensures StageWith(RecordOf(CutStates(b)[5].world, 2).lovers, 1) == None
  {
    var theirs := CourtTies(1, 0, 0, false).lovers;
    assert Dropped(theirs, 1) == [];
    assert BondIndex(theirs, 1) == 0 && BondWith([], 1) == None;
  }

  // ---- A wedding without an engagement ----

  function Pair(ones: seq<Lover>, twos: seq<Lover>): map<int, Ties> {
    map[1 := NO_TIES.(lovers := ones), 2 := NO_TIES.(lovers := twos)]
  }

  function Duo(ones: seq<Lover>, twos: seq<Lover>, storedOnes: seq<Lover>, storedTwos: seq<Lover>, clock: int): State {
    State(World(Pair(ones, twos), Pair(storedOnes, storedTwos), {}), clock)
  }

  function Call(b: Bounds, my: int, target: int, action: string, now: int): Event {
    LovershipCall(my, target, action, false, HERE.(delay := b.delay, unsent := action == "Break"), now, now)
  }

  /**
   The two date; 1 breaks and is cut short, so that 2 has lost the bond in memory. 2 offers the engagement
   for which 1 is ready, and 1 accepts; 1 makes 2 a dating offer; 2 offers the wedding, and 1 accepts,
   which overwrites that dating offer. Then 1 breaks and is cut short again, and 2 accepts to date.
   */
  function JiltedEvents(b: Bounds): seq<Event> {
    var d := b.delay;
    [ Create(1), Create(2), Call(b, 1, 2, "Propose", 0), Call(b, 2, 1, "Accept", 0), Call(b, 1, 2, "Break", 0),
      Call(b, 2, 1, "Propose", d), Call(b, 1, 2, "Accept", d), Call(b, 1, 2, "Propose", d),
      Call(b, 2, 1, "Propose", 2 * d), Call(b, 1, 2, "Accept", 2 * d),
      Call(b, 1, 2, "Break", 3 * d), Call(b, 1, 2, "Propose", 3 * d), Call(b, 2, 1, "Accept", 3 * d) ]
  }

  function Tie(member: int, start: int, stage: int): seq<Lover> {
    [Fresh(member, "", start, stage)]
  }

  function JiltedStates(b: Bounds): seq<State> {
    var d, offer := b.delay, [DatingOffer(1)];
    var asked, wooed := [Bond(2, "", 0, 0, Some(2), None)], [Bond(2, "", d, 1, None, Some(2))];
    [ State(EMPTY_WORLD, 0),
      State(World(map[1 := NO_TIES], map[1 := NO_TIES], {}), 0),
      Duo([], [], [], [], 0),
      Duo([], offer, [], [], 0),
      Duo(Tie(2, 0, 0), Tie(1, 0, 0), Tie(2, 0, 0), Tie(1, 0, 0), 0),
      Duo(Tie(2, 0, 0), [], Tie(2, 0, 0), Tie(1, 0, 0), 0),
      Duo(asked, [], Tie(2, 0, 0), Tie(1, 0, 0), d),
      Duo(Tie(2, d, 1), [], Tie(2, d, 1), [], d),
      Duo(Tie(2, d, 1), offer, Tie(2, d, 1), [], d),
      Duo(wooed, offer, Tie(2, d, 1), [], 2 * d),
      Duo(Tie(2, 2 * d, 2), Tie(1, 2 * d, 2), Tie(2, 2 * d, 2), Tie(1, 2 * d, 2), 2 * d),
      Duo(Tie(2, 2 * d, 2), [], Tie(2, 2 * d, 2), Tie(1, 2 * d, 2), 3 * d),
      Duo(Tie(2, 2 * d, 2), offer, Tie(2, 2 * d, 2), Tie(1, 2 * d, 2), 3 * d),
      Duo(Tie(2, 3 * d, 0), Tie(1, 3 * d, 0), Tie(2, 3 * d, 0), Tie(1, 3 * d, 0), 3 * d) ]
  }

  /** The stage 2 has on record for 1. */
  function StageOfTwo(st: State): Option<int> {
    StageWith(RecordOf(st.world, 2).lovers, 1)
  }

  /** Calls on a world of two. */
  lemma DuoProposes(b: Bounds, ones: seq<Lover>, twos: seq<Lover>, s1: seq<Lover>, s2: seq<Lover>, clock: int,
                    my: int, now: int)
    requires 0 <= b.skew && clock <= now && (my == 1 || my == 2)
    ensures var ones' := if my == 2 then ProposedList(twos, ones, 2, 1, "Propose", b.delay, now) else ones;
            var twos' := if my == 1 then ProposedList(ones, twos, 1, 2, "Propose", b.delay, now) else twos;
            Follows(Duo(ones, twos, s1, s2, clock), Call(b, my, 3 - my, "Propose", now), Duo(ones', twos', s1, s2, now), b)
  {
    hide ProposedList;
    var w := Duo(ones, twos, s1, s2, clock).world;
    assert w.online[2 := NO_TIES.(lovers := twos)] == w.online == w.online[1 := NO_TIES.(lovers := ones)];
    var w1 := ProposeLove(w, my, 3 - my, "Propose", HERE.(delay := b.delay), now);
    assert w1.online.Keys == w.online.Keys;
  }

  lemma DuoCuts(b: Bounds, ones: seq<Lover>, twos: seq<Lover>, s1: seq<Lover>, s2: seq<Lover>, clock: int, now: int)
    requires 0 <= b.skew && clock <= now && MayBreakBond(ones, 2, b.delay, now) && BondIndex(s2, 1) >= 0
    ensures Follows(Duo(ones, twos, s1, s2, clock), Call(b, 1, 2, "Break", now), Duo(ones, Dropped(s2, 1), s1, s2, now), b)
  {
    hide MayBreakBond, Dropped, BondIndex;
    var w := Duo(ones, twos, s1, s2, clock).world;
    assert RecallLovers(w.online, 2, Dropped(s2, 1)) == Pair(ones, Dropped(s2, 1));
  }

  /** An acceptance when each list has at most its entry for the other. */
  lemma DuoAccepts(b: Bounds, l: Lover, theirs: seq<Lover>, s1: seq<Lover>, s2: seq<Lover>, clock: int, my: int, now: int,
                   stage: int)
    requires 0 <= b.skew && clock <= now && (my == 1 || my == 2)
    requires Key(l) == 3 - my && NextStage(l, 3 - my) == Some(stage)
    requires theirs == [] || (|theirs| == 1 && Key(theirs[0]) == my)
    ensures var mine', theirs' := Tie(3 - my, now, stage), if theirs != [] || stage == 0 then Tie(my, now, stage) else [];
            var st := if my == 1 then Duo([l], theirs, s1, s2, clock) else Duo(theirs, [l], s1, s2, clock);
            var st' := if my == 1 then Duo(mine', theirs', mine', theirs', now) else Duo(theirs', mine', theirs', mine', now);
            Follows(st, Call(b, my, 3 - my, "Accept", now), st', b)
  {
    hide SaveLovers, AcceptLove, ProposeLove;
    hide IndexOf, NextStage, Strip, BondIndex;
    var st := if my == 1 then Duo([l], theirs, s1, s2, clock) else Duo(theirs, [l], s1, s2, clock);
    var e := Call(b, my, 3 - my, "Accept", now);
    var f, g := Fresh(3 - my, "", now, stage), Fresh(my, "", now, stage);
    Single(l, 3 - my);
    Single(f, my);
    Single(g, my);
    if theirs != [] {
      assert theirs == [theirs[0]];
      Single(theirs[0], my);
    }
    assert Accepts(st, e) == Some(stage);
    AcceptingStep(st, e, b);
    assert [l][0 := f] == [f] && [] + [g] == [g] && (theirs != [] ==> theirs[0 := g] == [g]);
    var ones, twos := if my == 1 then [l] else theirs, if my == 1 then theirs else [l];
    DuoSaves(ones, twos, s1, s2, my, [f]);
    var kept := if theirs != [] || stage == 0 then [g] else [];
    if my == 1 { DuoSaves([f], twos, [f], s2, 2, kept); } else { DuoSaves(ones, [f], s1, [f], 1, kept); }
    assert Strip([]) == [];
  }

  lemma DuoSaves(ones: seq<Lover>, twos: seq<Lover>, s1: seq<Lover>, s2: seq<Lover>, m: int, ls: seq<Lover>)
    requires m == 1 || m == 2
    ensures SaveLovers(World(Pair(ones, twos), Pair(s1, s2), {}), m, ls) ==
            if m == 1 then World(Pair(Strip(ls), twos), Pair(Strip(ls), s2), {})
            else World(Pair(ones, Strip(ls)), Pair(s1, Strip(ls)), {})
  {
    hide Strip;
  }

  lemma DropSingle(l: Lover)
    requires l.Bond?
    ensures Dropped([l], l.member) == []
  {
    Single(l, l.member);
  }

  lemma Single(l: Lover, member: int)
    ensures IndexOf([l], member) == if Key(l) == member then 0 else -1
    ensures BondIndex([l], member) == if l.Bond? && l.member == member then 0 else -1
    ensures Strip([l]) == if l.Bond? then [Cleared(l)] else []
  {}

  /** 2 is wed without ever having been engaged; and 1's wedding ends in dating. */
  lemma WedUnengaged(b: Bounds)
    requires 0 <= b.skew && 0 <= b.delay
    ensures Run(JiltedStates(b), JiltedEvents(b), b) && NoneRewritten(JiltedEvents(b), 13)
    ensures forall i :: 0 <= i < 10 ==> StageOfTwo(JiltedStates(b)[i]) in {None, Some(0)}
    ensures StageOfTwo(JiltedStates(b)[10]) == Some(2)
    ensures StageWith(RecordOf(JiltedStates(b)[12].world, 1).lovers, 2) == Some(2)
    ensures StageWith(RecordOf(JiltedStates(b)[13].world, 1).lovers, 2) == Some(0)
  {
    hide Follows, Strip, IndexOf, BondIndex;
    var states, events := JiltedStates(b), JiltedEvents(b);
    JiltedOpens(b);
    JiltedDates(b);
    JiltedEngages(b);
    JiltedWeds(b);
    JiltedEnds(b);
    forall i | 0 <= i < 13 ensures Follows(states[i], events[i], states[i + 1], b) {
      assert i < 4 || i == 4 || 5 <= i < 7 || 7 <= i < 10 || 10 <= i < 13;
    }
    JiltedStages(b);
  }

  lemma JiltedOpens(b: Bounds)
    requires 0 <= b.skew && 0 <= b.delay
    ensures forall i :: 0 <= i < 3 ==> Follows(JiltedStates(b)[i], JiltedEvents(b)[i], JiltedStates(b)[i + 1], b)
  {
    DuoProposes(b, [], [], [], [], 0, 1, 0);
    assert IndexOf([], 1) < 0 && ProposedList([], [], 1, 2, "Propose", b.delay, 0) == [] + [DatingOffer(1)] == [DatingOffer(1)];
    assert NO_TIES.(lovers := []) == NO_TIES && map[1 := NO_TIES][2 := NO_TIES] == Pair([], []);
  }

  lemma JiltedDates(b: Bounds)
    requires 0 <= b.skew && 0 <= b.delay
    ensures forall i :: 3 <= i < 5 ==> Follows(JiltedStates(b)[i], JiltedEvents(b)[i], JiltedStates(b)[i + 1], b)
  {
    hide Follows, Strip, IndexOf, BondIndex;
    DuoAccepts(b, DatingOffer(1), [], [], [], 0, 2, 0, 0);
    Single(Fresh(2, "", 0, 0), 2);
    Single(Fresh(1, "", 0, 0), 1);
    DropSingle(Fresh(1, "", 0, 0));
    DuoCuts(b, Tie(2, 0, 0), Tie(1, 0, 0), Tie(2, 0, 0), Tie(1, 0, 0), 0, 0);
  }

  lemma JiltedEngages(b: Bounds)
    requires 0 <= b.skew && 0 <= b.delay
    ensures forall i :: 5 <= i < 7 ==> Follows(JiltedStates(b)[i], JiltedEvents(b)[i], JiltedStates(b)[i + 1], b)
  {
    hide Follows, Strip, IndexOf, BondIndex;
    var d, asked := b.delay, Bond(2, "", 0, 0, Some(2), None);
    Single(Fresh(2, "", 0, 0), 2);
    DuoProposes(b, Tie(2, 0, 0), [], Tie(2, 0, 0), Tie(1, 0, 0), 0, 2, d);
    assert Tie(2, 0, 0)[0 := asked] == [asked];
    DuoAccepts(b, asked, [], Tie(2, 0, 0), Tie(1, 0, 0), d, 1, d, 1);
  }

  lemma JiltedWeds(b: Bounds)
    requires 0 <= b.skew && 0 <= b.delay
    ensures forall i :: 7 <= i < 10 ==> Follows(JiltedStates(b)[i], JiltedEvents(b)[i], JiltedStates(b)[i + 1], b)
  {
    hide Follows, Strip, IndexOf, BondIndex, ProposedList;
    var d, ones, offer := b.delay, Tie(2, b.delay, 1), [DatingOffer(1)];
    DuoProposes(b, ones, [], ones, [], d, 1, d);
    JiltedOffers(b);
    DuoProposes(b, ones, offer, ones, [], d, 2, 2 * d);
    DuoAccepts(b, Bond(2, "", d, 1, None, Some(2)), offer, ones, [], 2 * d, 1, 2 * d, 2);
  }

  lemma JiltedOffers(b: Bounds)
    ensures ProposedList(Tie(2, b.delay, 1), [], 1, 2, "Propose", b.delay, b.delay) == [DatingOffer(1)]
    ensures ProposedList([DatingOffer(1)], Tie(2, b.delay, 1), 2, 1, "Propose", b.delay, 2 * b.delay) ==
            [Bond(2, "", b.delay, 1, None, Some(2))]
  {
    hide IndexOf;
    var ones, wooed := Tie(2, b.delay, 1), Bond(2, "", b.delay, 1, None, Some(2));
    Single(ones[0], 2);
    assert ones == [ones[0]] && ones[0 := wooed] == [wooed];
  }

  lemma JiltedEnds(b: Bounds)
    requires 0 <= b.skew && 0 <= b.delay
    ensures forall i :: 10 <= i < 13 ==> Follows(JiltedStates(b)[i], JiltedEvents(b)[i], JiltedStates(b)[i + 1], b)
  {
    hide Follows, Strip, IndexOf, BondIndex;
    var d := b.delay;
    var ones, twos := Tie(2, 2 * d, 2), Tie(1, 2 * d, 2);
    Single(Fresh(2, "", 2 * d, 2), 2);
    Single(Fresh(1, "", 2 * d, 2), 1);
    DropSingle(Fresh(1, "", 2 * d, 2));
    DuoCuts(b, ones, twos, ones, twos, 2 * d, 3 * d);
    DuoProposes(b, ones, [], ones, twos, 3 * d, 1, 3 * d);
    assert [] + [DatingOffer(1)] == [DatingOffer(1)] && ones == [ones[0]];
    DuoAccepts(b, DatingOffer(1), ones, ones, twos, 3 * d, 2, 3 * d, 0);
  }

  lemma JiltedStages(b: Bounds)
    ensures forall i :: 0 <= i < 10 ==> StageOfTwo(JiltedStates(b)[i]) in {None, Some(0)}
    ensures StageOfTwo(JiltedStates(b)[10]) == Some(2)
    ensures StageWith(RecordOf(JiltedStates(b)[12].world, 1).lovers, 2) == Some(2)
    ensures StageWith(RecordOf(JiltedStates(b)[13].world, 1).lovers, 2) == Some(0)
  {
    hide Strip, IndexOf;
    assert BondIndex([], 1) < 0 && BondIndex([DatingOffer(1)], 1) < 0;
  }

  // ---- A record its owner rewrites ----

  /** An update makes of one's own list what one likes; nobody else need agree. */
  lemma RewriteDisagrees(b: Bounds)
    ensures exists states: seq<State>, events: seq<Event> ::
              && Run(states, events, b) && |events| == 3 && events[2].Rewrite?
              && StageWith(RecordOf(states[3].world, 1).lovers, 2) == Some(2)
              && StageWith(RecordOf(states[3].world, 2).lovers, 1) == None
  {
    var wed := CourtTies(2, 0, 2, false);
    var forged := BARE[1 := wed];
    var events := [Create(1), Create(2), Rewrite(1, wed, wed)];
    var states := [ State(EMPTY_WORLD, 0), State(World(map[1 := NO_TIES], map[1 := NO_TIES], {}), 0),
                    State(World(BARE, BARE, {}), 0), State(World(forged, forged, {}), 0) ];
    forall i | 0 <= i < |events| ensures Follows(states[i], events[i], states[i + 1], b) {
      assert i == 0 || i == 1 || i == 2;
    }
    assert BondIndex(wed.lovers, 2) == 0 && BondWith(NO_TIES.lovers, 1) == None;
    assert RecordOf(states[3].world, 1) == wed && RecordOf(states[3].world, 2) == NO_TIES;
    assert Run(states, events, b);
  }
}
