/** What the relationship protocols promise over whole runs. */
module RelationshipTheorems {
  import opened Options
  import opened Lovers
  import opened Relationships
  import opened RelationshipInvariants

  // ---- Reachable states ----

  /** Among the first n events is no update that rewrites a record. */
  predicate NoneRewritten(events: seq<Event>, n: nat) {
    forall i :: 0 <= i < n <= |events| ==> !events[i].Rewrite?
  }

  /** Among the first n events is no break that is cut short. */
  predicate NoneCutShort(states: seq<State>, events: seq<Event>, n: nat) {
    forall i :: 0 <= i < n <= |events| < |states| ==> !CutsShort(states[i], events[i])
  }

  lemma {:induction false} RunStaysSound(states: seq<State>, events: seq<Event>, b: Bounds, n: nat)
    requires Run(states, events, b) && n < |states| && NoneRewritten(events, n)
    ensures Sound(states[n].world, states[n].clock, b)
  {
    hide Step, Enabled;
    if n > 0 {
      RunStaysSound(states, events, b, n - 1);
      assert Follows(states[n - 1], events[n - 1], states[n], b);
      StepKeepsSound(states[n - 1], events[n - 1], b);
    }
  }

  /** Whatever is cut short: two that both have a bond on record agree on it, and memory invents none. */
  lemma {:induction false} RunStaysSettled(states: seq<State>, events: seq<Event>, b: Bounds, n: nat)
    requires Run(states, events, b) && n < |states| && b.skew >= 0 && NoneRewritten(events, n)
    ensures Settled(states[n], b)
  {
    hide Step, Enabled;
    if n > 0 {
      RunStaysSettled(states, events, b, n - 1);
      assert Follows(states[n - 1], events[n - 1], states[n], b);
      StepKeepsSettled(states[n - 1], events[n - 1], b);
    }
  }

  lemma {:induction false} RunKeepsInvariant(states: seq<State>, events: seq<Event>, b: Bounds, n: nat)
    requires Run(states, events, b) && n < |states| && b.skew >= 0
    requires NoneRewritten(events, n) && NoneCutShort(states, events, n)
    ensures Invariant(states[n], b)
  {
    hide Step, Enabled, CutsShort;
    if n > 0 {
      RunKeepsInvariant(states, events, b, n - 1);
      assert Follows(states[n - 1], events[n - 1], states[n], b);
      StepKeepsInvariant(states[n - 1], events[n - 1], b);
    }
  }

  /** The record the server answers from: memory while the account has a session, else the database. */
  function RecordOf(w: World, m: int): Ties {
    if m in w.online then w.online[m] else if m in w.disk then w.disk[m] else NO_TIES
  }

  /** The two record the same stage for each other, online or not. */
  predicate SameStage(w: World, a: int, c: int) {
    StageWith(RecordOf(w, a).lovers, c) == StageWith(RecordOf(w, c).lovers, a)
  }

  ghost predicate AllAgree(w: World) {
    forall a, c :: a != c ==> SameStage(w, a, c)
  }

  /**
   While nobody's record is rewritten by an update, any two accounts record the same stage for each other
   in all states of a run if and only if none of its breaks is cut short.
   */
  lemma LovershipIsSymmetric(states: seq<State>, events: seq<Event>, b: Bounds, n: nat)
    requires Run(states, events, b) && n <= |events| && b.skew >= 0 && NoneRewritten(events, n)
    ensures (forall i :: 0 <= i <= n ==> AllAgree(states[i].world)) <==> NoneCutShort(states, events, n)
  {
    hide Step, Enabled, AllAgree, CutsShort, Invariant;
    if NoneCutShort(states, events, n) {
      forall i | 0 <= i <= n ensures AllAgree(states[i].world) {
        RunKeepsInvariant(states, events, b, i);
        InvariantAgrees(states[i], b);
      }
    } else {
      var j := FirstCut(states, events, n);
      RunKeepsInvariant(states, events, b, j);
      assert Follows(states[j], events[j], states[j + 1], b);
      CutShortDisagrees(states[j], events[j], b);
      assert !AllAgree(states[j + 1].world);
    }
  }

  lemma {:induction false} FirstCut(states: seq<State>, events: seq<Event>, n: nat) returns (j: nat)
    requires n <= |events| < |states| && !NoneCutShort(states, events, n)
    ensures j < n && CutsShort(states[j], events[j]) && NoneCutShort(states, events, j)
  {
    hide CutsShort;
    j := n - 1;
    if !NoneCutShort(states, events, n - 1) { j := FirstCut(states, events, n - 1); }
  }

  lemma InvariantAgrees(st: State, b: Bounds)
    requires Invariant(st, b)
    ensures AllAgree(st.world)
  {
    forall a, c | a != c ensures SameStage(st.world, a, c) {
      RecordStage(st, b, a, c);
      RecordStage(st, b, c, a);
      assert Partners(BondOf(st.world.disk, a, c), BondOf(st.world.disk, c, a), b.skew);
    }
  }

  lemma RecordStage(st: State, b: Bounds, a: int, c: int)
    requires Invariant(st, b)
    ensures StageWith(RecordOf(st.world, a).lovers, c) ==
            match BondOf(st.world.disk, a, c) { case None => None case Some(l) => Some(l.stage) }
  {
    if a in st.world.online {
      StripBond(st.world.online[a].lovers, c);
    }
  }

  /** After a break cut short its caller has the bond on record, and the other side has not. */
  lemma CutShortDisagrees(st: State, e: Event, b: Bounds)
    requires Invariant(st, b) && Enabled(st, e, b) && CutsShort(st, e)
    ensures !SameStage(Step(st, e, b).world, e.my, e.target) && !AllAgree(Step(st, e, b).world)
  {
    hide Strip;
    BreakIsMutual(st, e, b);
    CutShortMismatch(st, e, b);
  }

  /** The bond a member's record has for another, memory before disk. */
  function RecordBond(w: World, a: int, c: int): Option<Lover> {
    BondWith(RecordOf(w, a).lovers, c)
  }

  /** What is on record in memory is on disk, without its offers. */
  lemma RecordStored(st: State, b: Bounds, a: int, c: int)
    requires Settled(st, b) && RecordBond(st.world, a, c).Some?
    ensures BondOf(st.world.disk, a, c) == Some(Cleared(RecordBond(st.world, a, c).value))
  {
    var w := st.world;
    StripBond(RecordOf(w, a).lovers, c);
    if a in w.online {
      assert KeptBond(w.online[a].lovers, w.disk[a].lovers, c);
    } else {
      assert StripTies(w.disk[a]) == w.disk[a];
    }
  }

  lemma RecordsConcur(st: State, b: Bounds, a: int, c: int)
    requires Settled(st, b) && a != c
    ensures Concurs(RecordBond(st.world, a, c), RecordBond(st.world, c, a), b.skew)
  {
    if RecordBond(st.world, a, c).Some? && RecordBond(st.world, c, a).Some? {
      RecordStored(st, b, a, c);
      RecordStored(st, b, c, a);
      assert Concurs(BondOf(st.world.disk, a, c), BondOf(st.world.disk, c, a), b.skew);
    }
  }

  /**
   In every state of every run that rewrites no record, breaks cut short included: when both of two
   accounts have a bond with the other on record, it is at the same stage, begun at nearly the same time.
   */
  lemma StagesNeverDiffer(states: seq<State>, events: seq<Event>, b: Bounds, n: nat, a: int, c: int)
    requires Run(states, events, b) && n < |states| && b.skew >= 0 && a != c && NoneRewritten(events, n)
    ensures var x, y := RecordBond(states[n].world, a, c), RecordBond(states[n].world, c, a);
            x.Some? && y.Some? ==> x.value.stage == y.value.stage && -b.skew <= x.value.start - y.value.start <= b.skew
  {
    RunStaysSettled(states, events, b, n);
    RecordsConcur(states[n], b, a, c);
  }

  /** In every state of a run, cut short breaks included, lists have at most five entries, with distinct keys. */
  lemma ListsStayShort(states: seq<State>, events: seq<Event>, b: Bounds, n: nat, a: int)
    requires Run(states, events, b) && n < |states| && NoneRewritten(events, n)
    ensures var ls := RecordOf(states[n].world, a).lovers; |ls| <= 5 && Distinct(ls)
  {
    RunStaysSound(states, events, b, n);
    var w := states[n].world;
    assert a in w.online ==> TiesOk(w.online[a], a, states[n].clock, b);
    assert a in w.disk ==> TiesOk(w.disk[a], a, states[n].clock, b);
  }

  // ---- Memory and disk ----

  /** Every in-memory record without its pending offers is the stored record. */
  predicate MemoryMatchesDisk(w: World) {
    forall m :: m in w.online ==> m in w.disk && StripTies(w.online[m]) == w.disk[m]
  }

  /** The call changes a record in memory and then throws, or cannot store what it has changed. */
  predicate Parts(st: State, e: Event) {
    || CutsShort(st, e)
    || (e.OwnershipCall? && e.my in st.world.online
        && (e.scene.inRoom && e.scene.targetInRoom ==> e.target in st.world.online)
        && OwnershipParts(st.world, e))
  }

  predicate OwnershipParts(w: World, e: Event)
    requires e.OwnershipCall? && e.my in w.online && (e.scene.inRoom && e.scene.targetInRoom ==> e.target in w.online)
  {
    var mine, s := w.online[e.my].ownership, e.scene;
    if e.action == "Break" && MayBreakCollar(mine, s.level, s.delay, e.now) then e.my in w.unkeyed
    else if !s.inRoom || !s.targetInRoom then false
    else
      var o := w.online[e.target].ownership;
      if e.action == "UpdateNotes" && OwnedBy(o, e.my) && o.stage == 1 then
        (e.target in w.unkeyed || Splits(e.notes, e.maxLen)) && o.notes != NotesText(e.notes, e.maxLen)
      else if e.action == "Release" && OwnedBy(o, e.my) then e.target in w.unkeyed
      else
        e.action == "Accept" && !s.blocked && s.targetName.Some? && e.my in w.unkeyed
        && (mine == TrialOffer(e.target)
            || (OwnedBy(mine, e.target) && mine.stage == 0 && mine.endOffer == Some(e.target)))
  }

  predicate NoneParts(states: seq<State>, events: seq<Event>, n: nat) {
    forall i :: 0 <= i < n <= |events| < |states| ==> !Parts(states[i], events[i])
  }

  /**
   While nobody's record is rewritten by an update, memory without pending offers is what is stored in all
   states of a run if and only if none of its calls changes memory alone.
   */
  lemma MemoryRefinesDisk(states: seq<State>, events: seq<Event>, b: Bounds, n: nat)
    requires Run(states, events, b) && n <= |events| && b.skew >= 0 && NoneRewritten(events, n)
    ensures (forall i :: 0 <= i <= n ==> MemoryMatchesDisk(states[i].world)) <==> NoneParts(states, events, n)
  {
    hide Step, Enabled, Parts, MemoryMatchesDisk;
    if NoneParts(states, events, n) {
      forall i | 0 <= i <= n ensures MemoryMatchesDisk(states[i].world) {
        MatchedSoFar(states, events, b, i);
      }
    } else {
      var j := FirstParting(states, events, n);
      MatchedSoFar(states, events, b, j);
      assert Follows(states[j], events[j], states[j + 1], b);
      MatchKeptIff(states[j], events[j], b);
    }
  }

  lemma {:induction false} FirstParting(states: seq<State>, events: seq<Event>, n: nat) returns (j: nat)
    requires n <= |events| < |states| && !NoneParts(states, events, n)
    ensures j < n && Parts(states[j], events[j]) && NoneParts(states, events, j)
  {
    hide Parts;
    j := n - 1;
    if !NoneParts(states, events, n - 1) { j := FirstParting(states, events, n - 1); }
  }

  lemma {:induction false} MatchedSoFar(states: seq<State>, events: seq<Event>, b: Bounds, n: nat)
    requires Run(states, events, b) && n <= |events| && b.skew >= 0
    requires NoneRewritten(events, n) && NoneParts(states, events, n)
    ensures MemoryMatchesDisk(states[n].world) && NoneCutShort(states, events, n) && Invariant(states[n], b)
  {
    hide Step, Enabled, OwnershipParts, Invariant, CutsShort;
    forall i | 0 <= i < n ensures !CutsShort(states[i], events[i]) {
      assert !Parts(states[i], events[i]);
    }
    RunKeepsInvariant(states, events, b, n);
    if n > 0 {
      MatchedSoFar(states, events, b, n - 1);
      assert Follows(states[n - 1], events[n - 1], states[n], b);
      MatchKeptIff(states[n - 1], events[n - 1], b);
    }
  }

  /** One step keeps memory what is stored if and only if it does not change memory alone. */
  lemma MatchKeptIff(st: State, e: Event, b: Bounds)
    requires Invariant(st, b) && Enabled(st, e, b) && !e.Rewrite? && MemoryMatchesDisk(st.world)
    ensures MemoryMatchesDisk(Step(st, e, b).world) <==> !Parts(st, e)
  {
    match e
    case OwnershipCall(_, _, _, _, _, _, _) => OwnershipMatchKeptIff(st, e, b);
    case LovershipCall(_, _, _, _, _, _, _) => LovershipMatchKeptIff(st, e, b);
    case Create(_) =>
    case Login(m) => StripTwice(st.world.disk[m].lovers);
    case Logout(_) =>
    case Misname(_) =>
  }

  /** No ownership field changes, in memory or on disk. */
  predicate SameOwnership(w: World, w': World) {
    && w'.online.Keys == w.online.Keys && w'.disk.Keys == w.disk.Keys
    && (forall m :: m in w.online ==> w'.online[m].(lovers := []) == w.online[m].(lovers := []))
    && (forall m :: m in w.disk ==> w'.disk[m].(lovers := []) == w.disk[m].(lovers := []))
  }

  lemma LovershipKeepsOwnership(st: State, e: Event, b: Bounds)
    requires Enabled(st, e, b) && e.LovershipCall?
    ensures SameOwnership(st.world, Step(st, e, b).world)
  {
    hide Strip, BondIndex, IndexOf, Dropped, ProposedList, NextStage, Fresh, BreakBond;
    var w, s := st.world, e.scene;
    if Breaks(st, e) {
      BreakKeepsOwnership(w, e.my, e.target, s.unsent);
    } else if s.inRoom && s.targetInRoom && !s.blocked && e.my != e.target {
      AcceptKeepsOwnership(ProposeLove(w, e.my, e.target, e.action, s, e.now), e);
    }
  }

  lemma BreakKeepsOwnership(w: World, my: int, target: int, unsent: bool)
    requires my in w.online
    ensures SameOwnership(w, BreakBond(w, my, target, unsent))
  {
    hide Strip, BondIndex, Dropped;
  }

  lemma AcceptKeepsOwnership(w: World, e: Event)
    requires e.LovershipCall? && e.my in w.online && e.target in w.online
    ensures SameOwnership(w, AcceptLove(w, e.my, e.target, e.action, e.scene, e.now, e.later))
  {
    hide Strip, IndexOf, NextStage, Fresh;
  }

  lemma LovershipMatchKeptIff(st: State, e: Event, b: Bounds)
    requires Invariant(st, b) && e.LovershipCall? && Enabled(st, e, b) && MemoryMatchesDisk(st.world)
    ensures MemoryMatchesDisk(Step(st, e, b).world) <==> !CutsShort(st, e)
  {
    hide Step, Strip;
    LovershipKeepsOwnership(st, e, b);
    LovershipStepSound(st, e, b);
    if CutsShort(st, e) {
      CutShortMismatch(st, e, b);
    } else {
      LovershipStepBonds(st, e, b);
    }
  }

  lemma OwnershipMatchKeptIff(st: State, e: Event, b: Bounds)
    requires Invariant(st, b) && e.OwnershipCall? && Enabled(st, e, b) && MemoryMatchesDisk(st.world)
    ensures MemoryMatchesDisk(Step(st, e, b).world) <==> !OwnershipParts(st.world, e)
  {
    hide Strip, SetOwnership, SetNotes, ReleaseAway, ProposeOwner, AcceptOwner, MemoryMatchesDisk;
    var w, my, target, s, now := st.world, e.my, e.target, e.scene, e.now;
    Stored(w, my);
    if e.action == "Break" && MayBreakCollar(w.online[my].ownership, s.level, s.delay, now) {
      SetMatches(w, my, "", Free);
    } else if s.inRoom && s.targetInRoom {
      var o := w.online[target].ownership;
      Stored(w, target);
      if e.action == "UpdateNotes" && OwnedBy(o, my) && o.stage == 1 {
        OnlineOk(w, target, st.clock, b);
        NotesMatch(w, target, e.notes, e.maxLen);
      } else if e.action == "Release" && OwnedBy(o, my) {
        SetMatches(w, target, "", Free);
      } else {
        ProposeMatches(w, my, target, e.action, s, now);
        ProposeKeepsCollar(w, my, target, e.action, s, now);
        AcceptMatches(ProposeOwner(w, my, target, e.action, s, now), e);
      }
    } else if s.inRoom && e.action == "Release" {
      ReleaseMatches(w, my, target);
    }
  }

  /** Another collar, or none, matches what is stored exactly when it is stored. */
  lemma SetMatches(w: World, m: int, owner: string, o: Ownership)
    requires MemoryMatchesDisk(w) && m in w.online && StripOwnership(o) == o && w.disk[m].ownership != o
    ensures MemoryMatchesDisk(SetOwnership(w, m, owner, o)) <==> m !in w.unkeyed
  {
    hide Strip;
    var w' := SetOwnership(w, m, owner, o);
    assert m in w.unkeyed ==> StripTies(w'.online[m]) != w'.disk[m];
  }

  lemma NotesMatch(w: World, m: int, notes: Option<string>, maxLen: nat)
    requires MemoryMatchesDisk(w) && m in w.online && w.online[m].ownership.Collar? && w.online[m].ownership.endOffer == None
    ensures MemoryMatchesDisk(SetNotes(w, m, notes, maxLen)) <==>
            !((m in w.unkeyed || Splits(notes, maxLen)) && w.online[m].ownership.notes != NotesText(notes, maxLen))
  {
    hide Strip, NotesText, Splits;
    var w' := SetNotes(w, m, notes, maxLen);
    assert MemoryMatchesDisk(w') <==> StripTies(w'.online[m]) == w'.disk[m];
  }

  lemma ReleaseMatches(w: World, my: int, target: int)
    requires MemoryMatchesDisk(w)
    ensures MemoryMatchesDisk(ReleaseAway(w, my, target))
  {
    hide Strip;
  }

  lemma ProposeMatches(w: World, my: int, target: int, action: string, s: Scene, now: int)
    requires MemoryMatchesDisk(w) && my in w.online && target in w.online
    ensures MemoryMatchesDisk(ProposeOwner(w, my, target, action, s, now))
  {
    hide Strip;
  }

  lemma AcceptMatches(w: World, e: Event)
    requires MemoryMatchesDisk(w) && e.OwnershipCall? && e.my in w.online
    ensures var mine, s := w.online[e.my].ownership, e.scene;
            MemoryMatchesDisk(AcceptOwner(w, e.my, e.target, e.action, s, e.now)) <==>
            !(e.action == "Accept" && !s.blocked && s.targetName.Some? && e.my in w.unkeyed
              && (mine == TrialOffer(e.target)
                  || (OwnedBy(mine, e.target) && mine.stage == 0 && mine.endOffer == Some(e.target))))
  {
    hide Strip, SetOwnership, MemoryMatchesDisk;
    var o, s := w.online[e.my].ownership, e.scene;
    assert w.disk[e.my].ownership == StripOwnership(o) by { Stored(w, e.my); }
    if e.action == "Accept" && !s.blocked && s.targetName.Some? {
      var name := s.targetName.value;
      if o == TrialOffer(e.target) {
        SetMatches(w, e.my, "", Collar(e.target, name, e.now, 0, None, None));
      } else if OwnedBy(o, e.target) && o.stage == 0 && o.endOffer == Some(e.target) {
        SetMatches(w, e.my, name, Collar(e.target, name, e.now, 1, None, None));
      }
    }
  }

  lemma Stored(w: World, m: int)
    requires MemoryMatchesDisk(w) && m in w.online
    ensures m in w.disk && w.disk[m].ownership == StripOwnership(w.online[m].ownership)
  {}

  // ---- Stage order and waiting time of a lovership ----

  /** The bond moved up one stage, no sooner than `wait` after the previous stage's start. */
  predicate MovedUp(x: Option<Lover>, y: Option<Lover>, wait: int) {
    && y.Some? && y.value.Bond?
    && match x {
         case None => y.value.stage == 0
         case Some(l) => l.Bond? && 0 <= l.stage && y.value.stage == l.stage + 1 && l.start + wait <= y.value.start
       }
  }

  /** The call accepts an offer between the two. */
  predicate AcceptsBetween(st: State, e: Event, a: int, c: int) {
    && e.LovershipCall? && e.my in st.world.online
    && (e.scene.inRoom && e.scene.targetInRoom ==> e.target in st.world.online)
    && Accepts(st, e).Some?
    && ((a == e.my && c == e.target) || (a == e.target && c == e.my))
  }

  predicate Accepted(st: State, e: Event) {
    e.LovershipCall? && AcceptsBetween(st, e, e.my, e.target)
  }

  /** Before the call, the two lists in memory agree on whether there is a bond. */
  predicate Mutual(st: State, e: Event) {
    && e.LovershipCall? && e.my in st.world.online && e.target in st.world.online
    && (BondWith(st.world.online[e.my].lovers, e.target).Some? <==> BondWith(st.world.online[e.target].lovers, e.my).Some?)
  }

  /** Before the call, the other side's list has the bond at the stage the caller's leaves, for at least `wait`. */
  predicate Ready(st: State, e: Event, wait: int)
    requires Accepted(st, e)
  {
    var x := BondWith(st.world.online[e.target].lovers, e.my);
    if Accepts(st, e) == Some(0) then x == None
    else x.Some? && x.value.stage + 1 == Accepts(st, e).value && x.value.start + wait <= e.later
  }

  /** The two records an acceptance leaves. */
  lemma AcceptanceRecords(st: State, e: Event, b: Bounds)
    requires Sound(st.world, st.clock, b) && Enabled(st, e, b) && Accepted(st, e)
    ensures RecordBond(Step(st, e, b).world, e.my, e.target) == BondAfter(st, e, e.my, e.target)
    ensures RecordBond(Step(st, e, b).world, e.target, e.my) == BondAfter(st, e, e.target, e.my)
  {
    hide Strip, IndexOf, AcceptedLists, Step;
    AcceptingStep(st, e, b);
    AcceptedBonds(st, e, b, e.my);
    AcceptedBonds(st, e, b, e.target);
  }

  /** What the caller of an acceptance has on its own list. */
  lemma OfferWaited(st: State, e: Event, b: Bounds)
    requires Sound(st.world, st.clock, b) && Accepted(st, e)
    ensures e.my != e.target && e.target in st.world.online
    ensures var x, stage := BondWith(st.world.online[e.my].lovers, e.target), Accepts(st, e).value;
            && 0 <= stage <= 2
            && if stage == 0 then x == None
               else x.Some? && x.value.stage + 1 == stage && x.value.start + b.delay <= st.clock
  {
    var mine := st.world.online[e.my].lovers;
    LookupByKey(mine, e.target);
    OnlineOk(st.world, e.my, st.clock, b);
    assert LoverOk(mine[IndexOf(mine, e.target)], e.my, st.clock, b);
  }

  /**
   An acceptance moves the caller's own record one stage up, after the whole delay. It moves the other
   side's one stage up, after whatever wait, exactly when that side was ready for it.
   */
  lemma AcceptanceWaits(st: State, e: Event, b: Bounds, wait: int)
    requires Sound(st.world, st.clock, b) && Enabled(st, e, b) && Accepted(st, e)
    ensures var w, w' := st.world, Step(st, e, b).world;
            && MovedUp(RecordBond(w, e.my, e.target), RecordBond(w', e.my, e.target), b.delay)
            && (MovedUp(RecordBond(w, e.target, e.my), RecordBond(w', e.target, e.my), wait) <==> Ready(st, e, wait))
  {
    hide Strip, IndexOf, Step;
    AcceptanceRecords(st, e, b);
    OfferWaited(st, e, b);
    OnlineOk(st.world, e.target, st.clock, b);
    OtherEntry(st.world.online[e.target].lovers, e.my, e.target, st.clock, b);
  }

  lemma OtherEntry(ls: seq<Lover>, member: int, self: int, clock: int, b: Bounds)
    requires LoversOk(ls, self, clock, b)
    ensures BondWith(ls, member).Some? ==> IndexOf(ls, member) >= 0 && 0 <= BondWith(ls, member).value.stage
  {
    LookupByKey(ls, member);
    if BondWith(ls, member).Some? { assert LoverOk(ls[IndexOf(ls, member)], self, clock, b); }
  }

  /**
   In every reachable state the other side moves up one stage, after the delay less the skew between the
   two readings of the clock, exactly when both lists agree beforehand on whether there is a bond; and
   after the whole delay exactly when it has also been at its stage that long.
   */
  lemma OtherSideIff(st: State, e: Event, b: Bounds)
    requires Settled(st, b) && Enabled(st, e, b) && Accepted(st, e)
    ensures var x, y := RecordBond(st.world, e.target, e.my), RecordBond(Step(st, e, b).world, e.target, e.my);
            && (MovedUp(x, y, b.delay - b.skew) <==> Mutual(st, e))
            && (MovedUp(x, y, b.delay) <==> Mutual(st, e) && (x.Some? ==> x.value.start + b.delay <= e.later))
  {
    hide Strip, IndexOf, Step, MovedUp, Accepts;
    OfferWaited(st, e, b);
    RecordsConcur(st, b, e.my, e.target);
    AcceptanceWaits(st, e, b, b.delay - b.skew);
    AcceptanceWaits(st, e, b, b.delay);
  }

  /** The acceptance is one's own, or both lists agree. */
  predicate Led(st: State, e: Event, a: int) {
    e.LovershipCall? && (e.my == a || Mutual(st, e))
  }

  /** The wait an acceptance promises one of its two parties. */
  function Wait(b: Bounds, e: Event, a: int): int {
    if e.LovershipCall? && e.my == a then b.delay else b.delay - b.skew
  }

  /** A party of an acceptance moves up one stage exactly when it leads it or both lists agree. */
  lemma PartyIff(st: State, e: Event, b: Bounds, a: int, c: int)
    requires Settled(st, b) && Enabled(st, e, b) && AcceptsBetween(st, e, a, c) && a != c
    ensures MovedUp(RecordBond(st.world, a, c), RecordBond(Step(st, e, b).world, a, c), Wait(b, e, a)) <==> Led(st, e, a)
  {
    hide Strip, IndexOf, Step, MovedUp, Accepts, Mutual;
    if a == e.my {
      AcceptanceWaits(st, e, b, b.delay);
    } else {
      OtherSideIff(st, e, b);
    }
  }

  /** Memory has lost a bond that is in store. */
  predicate Lost(w: World, a: int, c: int) {
    a in w.online && BondWith(w.online[a].lovers, c) == None
  }

  /**
   One call that rewrites no record changes the stored bond of `a` with `c` in just three ways. A break by
   one of the two that is not cut short removes it; so does storing a list from which it had been lost;
   and an acceptance between the two stores what it leaves on record, which is one stage more, after the
   wait, exactly when `a` accepts or both lists agree beforehand.
   */
  lemma BondStep(st: State, e: Event, b: Bounds, a: int, c: int)
    requires Settled(st, b) && Enabled(st, e, b) && !e.Rewrite? && a != c
    ensures var x, y := BondOf(st.world.disk, a, c), BondOf(Step(st, e, b).world.disk, a, c);
            || y == x
            || (y == None && Breaks(st, e) && !CutsShort(st, e) && {a, c} == {e.my, e.target})
            || (y == None && Lost(st.world, a, c))
            || (AcceptsBetween(st, e, a, c) && y.Some? && y == RecordBond(Step(st, e, b).world, a, c)
                && (MovedUp(RecordBond(st.world, a, c), y, Wait(b, e, a)) <==> Led(st, e, a)))
  {
    hide Strip, IndexOf, MovedUp, Led, Settled;
    SettledSound(st, b);
    match e
    case OwnershipCall(_, _, _, _, _, _, _) =>
      OwnershipStepSound(st, e, b);
      SameLoversKeep(st.world, Step(st, e, b).world);
    case LovershipCall(_, _, _, _, _, _, _) => LoveBondStep(st, e, b, a, c);
    case Create(_) =>
    case Login(_) =>
    case Logout(_) =>
    case Misname(_) =>
  }

  lemma SettledSound(st: State, b: Bounds)
    requires Settled(st, b)
    ensures Sound(st.world, st.clock, b) && st.world.online.Keys <= st.world.disk.Keys && b.skew >= 0
  {}

  lemma LoveBondStep(st: State, e: Event, b: Bounds, a: int, c: int)
    requires Settled(st, b) && e.LovershipCall? && Enabled(st, e, b) && a != c
    ensures var x, y := BondOf(st.world.disk, a, c), BondOf(Step(st, e, b).world.disk, a, c);
            || y == x
            || (y == None && Breaks(st, e) && !CutsShort(st, e) && {a, c} == {e.my, e.target})
            || (y == None && Lost(st.world, a, c))
            || (AcceptsBetween(st, e, a, c) && y.Some? && y == RecordBond(Step(st, e, b).world, a, c)
                && (MovedUp(RecordBond(st.world, a, c), y, Wait(b, e, a)) <==> Led(st, e, a)))
  {
    hide Strip, IndexOf, BondIndex, Step, MovedUp, Led, Mutual, Wait;
    LovershipStepBonds(st, e, b);
    if a in st.world.online {
      assert KeptBond(st.world.online[a].lovers, st.world.disk[a].lovers, c);
      StripBond(st.world.online[a].lovers, c);
    }
    if AcceptsBetween(st, e, a, c) {
      AcceptanceRecords(st, e, b);
      PartyIff(st, e, b, a, c);
      OtherLost(st, e);
    }
  }

  /** Nothing is left on the other side only if there was nothing. */
  lemma OtherLost(st: State, e: Event)
    requires Accepted(st, e) && Distinct(st.world.online[e.target].lovers)
    ensures BondAfter(st, e, e.target, e.my) == None ==> Lost(st.world, e.target, e.my)
  {
    LookupByKey(st.world.online[e.target].lovers, e.my);
  }

  /**
   A stored wedding, while it is on record, ends only by a break of one of the two who has been wed for the
   delay, or when the other one accepts a dating offer without having the bond any more.
   */
  lemma WeddingEnds(st: State, e: Event, b: Bounds, a: int, c: int)
    requires Settled(st, b) && Enabled(st, e, b) && !e.Rewrite? && a != c
    requires StageWith(RecordOf(st.world, a).lovers, c) == Some(2)
    ensures var x, y := BondOf(st.world.disk, a, c), BondOf(Step(st, e, b).world.disk, a, c);
            y != x ==>
              || (y == None && e.LovershipCall? && e.action == "Break" && {e.my, e.target} == {a, c}
                  && RecordBond(st.world, e.my, e.target).Some?
                  && RecordBond(st.world, e.my, e.target).value.start + b.delay <= e.now)
              || (AcceptsBetween(st, e, a, c) && e.my == c && Accepts(st, e) == Some(0) && !Mutual(st, e))
  {
    hide Strip, IndexOf, BondIndex, Step, Sound;
    BondStep(st, e, b, a, c);
    RecordsConcur(st, b, a, c);
    if Breaks(st, e) {
      assert RecordBond(st.world, e.my, e.target).Some?;
    } else if AcceptsBetween(st, e, a, c) {
      SettledSound(st, b);
      OfferWaited(st, e, b);
      AcceptanceRecords(st, e, b);
    }
  }

  // ---- Over whole runs ----

  /** If the i-th call is an acceptance between the two, it moves `a` one stage up, after the wait. */
  predicate InOrder(states: seq<State>, events: seq<Event>, b: Bounds, i: nat, a: int, c: int)
    requires i < |events| && |states| == |events| + 1
  {
    AcceptsBetween(states[i], events[i], a, c) ==>
      MovedUp(RecordBond(states[i].world, a, c), RecordBond(states[i + 1].world, a, c), Wait(b, events[i], a))
  }

  /** If the i-th call is an acceptance between the two, `a` makes it, or both lists agree before it. */
  predicate LedAt(states: seq<State>, events: seq<Event>, i: nat, a: int, c: int)
    requires i < |events| && |states| == |events| + 1
  {
    AcceptsBetween(states[i], events[i], a, c) ==> Led(states[i], events[i], a)
  }

  /**
   In any run that rewrites no record, the acceptances between two accounts move the first of them one
   stage at a time, after the wait, if and only if before each that is the other's both lists agree on
   whether there is a bond.
   */
  lemma StageOrderIff(states: seq<State>, events: seq<Event>, b: Bounds, n: nat, a: int, c: int)
    requires Run(states, events, b) && n <= |events| && b.skew >= 0 && a != c && NoneRewritten(events, n)
    ensures (forall i :: 0 <= i < n ==> InOrder(states, events, b, i, a, c)) <==>
            (forall i :: 0 <= i < n ==> LedAt(states, events, i, a, c))
  {
    hide Step, Enabled, AcceptsBetween, MovedUp, Led, RecordBond, Settled;
    forall i | 0 <= i < n ensures InOrder(states, events, b, i, a, c) <==> LedAt(states, events, i, a, c) {
      RunStaysSettled(states, events, b, i);
      assert Follows(states[i], events[i], states[i + 1], b);
      if AcceptsBetween(states[i], events[i], a, c) { PartyIff(states[i], events[i], b, a, c); }
    }
  }

  /** The i-th call was an acceptance between the two, and what it stored for `a` is what is stored after n calls. */
  predicate Entered(states: seq<State>, events: seq<Event>, i: nat, n: nat, a: int, c: int)
    requires i < |events| && n < |states| == |events| + 1
  {
    && i < n && AcceptsBetween(states[i], events[i], a, c)
    && RecordBond(states[i + 1].world, a, c) == BondOf(states[i + 1].world.disk, a, c) == BondOf(states[n].world.disk, a, c)
  }

  /** The call that stored the bond `a` has in store for `c` after n calls. */
  lemma {:induction false} StageEntered(states: seq<State>, events: seq<Event>, b: Bounds, n: nat, a: int, c: int)
    returns (i: nat)
    requires Run(states, events, b) && n < |states| && b.skew >= 0 && a != c && NoneRewritten(events, n)
    requires BondOf(states[n].world.disk, a, c).Some?
    ensures i < n && Entered(states, events, i, n, a, c)
    ensures MovedUp(RecordBond(states[i].world, a, c), BondOf(states[n].world.disk, a, c), Wait(b, events[i], a)) <==>
            Led(states[i], events[i], a)
  {
    hide Step, Enabled, AcceptsBetween, MovedUp, Led, RecordBond, Settled;
    assert n > 0;
    RunStaysSettled(states, events, b, n - 1);
    assert Follows(states[n - 1], events[n - 1], states[n], b);
    BondStep(states[n - 1], events[n - 1], b, a, c);
    if BondOf(states[n - 1].world.disk, a, c) == BondOf(states[n].world.disk, a, c) {
      i := StageEntered(states, events, b, n - 1, a, c);
    } else {
      i := n - 1;
    }
  }

  /** A call stored the bond, and moved `a` one stage up to it, after the wait, exactly when `a` led it. */
  predicate SteppedIff(states: seq<State>, events: seq<Event>, b: Bounds, i: nat, n: nat, a: int, c: int)
    requires i < |events| && n < |states| == |events| + 1
  {
    && Entered(states, events, i, n, a, c)
    && (MovedUp(RecordBond(states[i].world, a, c), BondOf(states[n].world.disk, a, c), Wait(b, events[i], a)) <==>
        Led(states[i], events[i], a))
  }

  /**
   Whoever is wed in a run that rewrites no record was wed by an acceptance. They were engaged before it,
   for the wait, exactly when it was their own or both lists agreed; and if so, they were engaged by an
   acceptance before which they were dating, for the wait, exactly on the same condition.
   */
  lemma WeddingHistory(states: seq<State>, events: seq<Event>, b: Bounds, n: nat, a: int, c: int)
    requires Run(states, events, b) && n < |states| && b.skew >= 0 && a != c && NoneRewritten(events, n)
    requires StageWith(RecordOf(states[n].world, a).lovers, c) == Some(2)
    ensures exists j :: 0 <= j < n && SteppedIff(states, events, b, j, n, a, c)
              && (Led(states[j], events[j], a) ==>
                    && StageWith(RecordOf(states[j].world, a).lovers, c) == Some(1)
                    && exists i :: 0 <= i < j && SteppedIff(states, events, b, i, j, a, c)
                         && (Led(states[i], events[i], a) ==> StageWith(RecordOf(states[i].world, a).lovers, c) == Some(0)))
  {
    hide Step, Enabled, AcceptsBetween, Led, Settled, Entered;
    RunStaysSettled(states, events, b, n);
    RecordStored(states[n], b, a, c);
    var j := StageEntered(states, events, b, n, a, c);
    if Led(states[j], events[j], a) {
      RunStaysSettled(states, events, b, j);
      RecordStored(states[j], b, a, c);
      var i := StageEntered(states, events, b, j, a, c);
    }
  }

  // ---- The skew allowance is needed, and no more of it ----

  const HERE := Scene(true, true, false, None, Some(""), Some(""), false, 0)

  /** When both clocks and the waiting time allow the next stage. */
  function Late(b: Bounds): int {
    if b.skew <= b.delay then b.delay else b.skew
  }

  function CourtEvents(b: Bounds): seq<Event> {
    var s := HERE.(delay := b.delay);
    [ Create(1), Create(2),
      LovershipCall(1, 2, "Propose", false, s, 0, 0),
      LovershipCall(2, 1, "Accept", false, s, 0, b.skew),
      LovershipCall(1, 2, "Propose", false, s, Late(b), Late(b)),
      LovershipCall(2, 1, "Accept", false, s, Late(b), Late(b)) ]
  }

  function CourtTies(member: int, start: int, stage: int, engaged: bool): Ties {
    NO_TIES.(lovers := [Bond(member, "", start, stage, if engaged then Some(member) else None, None)])
  }

  function CourtStates(b: Bounds): seq<State> {
    var one, two, asked := CourtTies(2, b.skew, 0, false), CourtTies(1, 0, 0, false), CourtTies(1, 0, 0, true);
    var wooed := NO_TIES.(lovers := [DatingOffer(1)]);
    var bare := map[1 := NO_TIES, 2 := NO_TIES];
    var dating := map[1 := one, 2 := two];
    var engaged := map[1 := CourtTies(2, Late(b), 1, false), 2 := CourtTies(1, Late(b), 1, false)];
    [ State(EMPTY_WORLD, 0),
      State(World(map[1 := NO_TIES], map[1 := NO_TIES], {}), 0),
      State(World(bare, bare, {}), 0),
      State(World(bare[2 := wooed], bare, {}), 0),
      State(World(dating, dating, {}), b.skew),
      State(World(dating[2 := asked], dating, {}), Late(b)),
      State(World(engaged, engaged, {}), Late(b)) ]
  }

  /**
   For every delay and every skew there is a run in which one partner's engagement starts `delay - skew`
   after its dating did, or at once when the skew is the longer: that partner's record was stamped late.
   */
  lemma SkewIsTight(b: Bounds)
    requires 0 <= b.skew && 0 <= b.delay
    ensures Run(CourtStates(b), CourtEvents(b), b)
    ensures BondOf(CourtStates(b)[5].world.disk, 1, 2) == Some(Fresh(2, "", b.skew, 0))
    ensures BondOf(CourtStates(b)[6].world.disk, 1, 2) == Some(Fresh(2, "", Late(b), 1))
  {
    var states, events := CourtStates(b), CourtEvents(b);
    CourtOpens(b);
    CourtDates(b);
    CourtEngages(b);
    forall i | 0 <= i < |events| ensures Follows(states[i], events[i], states[i + 1], b) {
      assert i == 0 || i == 1 || i == 2 || i == 3 || i == 4 || i == 5;
    }
  }

  /** If the n-th call is an acceptance before which both lists agree, both sides have waited the whole delay. */
  predicate FullWait(states: seq<State>, events: seq<Event>, n: nat, delay: int)
    requires n < |events| && |states| == |events| + 1
  {
    var e, w, w' := events[n], states[n].world, states[n + 1].world;
    Accepted(states[n], e) && Mutual(states[n], e) ==>
      && MovedUp(RecordBond(w, e.my, e.target), RecordBond(w', e.my, e.target), delay)
      && MovedUp(RecordBond(w, e.target, e.my), RecordBond(w', e.target, e.my), delay)
  }

  /** That is so of every acceptance in every run without rewritten records. */
  ghost predicate WaitsInFull(b: Bounds) {
    forall states: seq<State>, events: seq<Event>, n: nat ::
      Run(states, events, b) && n < |events| && NoneRewritten(events, n + 1) ==> FullWait(states, events, n, b.delay)
  }

  /**
   With any waiting time at all, both parties of such an acceptance always wait in full if and only if the
   two readings of the clock agree.
   */
  lemma FullWaitIff(b: Bounds)
    requires 0 <= b.skew && 0 < b.delay
    ensures WaitsInFull(b) <==> b.skew == 0
  {
    hide FullWait;
    if b.skew == 0 {
      forall states: seq<State>, events: seq<Event>, n: nat
        | Run(states, events, b) && n < |events| && NoneRewritten(events, n + 1)
        ensures FullWait(states, events, n, b.delay)
      {
        RunStaysSettled(states, events, b, n);
        assert Follows(states[n], events[n], states[n + 1], b);
        AtOnce(states, events, b, n);
      }
    } else {
      SkewIsTight(b);
      CourtFallsShort(b);
      assert !FullWait(CourtStates(b), CourtEvents(b), 5, b.delay);
    }
  }

  lemma AtOnce(states: seq<State>, events: seq<Event>, b: Bounds, n: nat)
    requires n < |events| && |states| == |events| + 1 && b.skew == 0
    requires Settled(states[n], b) && Follows(states[n], events[n], states[n + 1], b)
    ensures FullWait(states, events, n, b.delay)
  {
    hide Step, MovedUp, Settled, Mutual;
    var st, e := states[n], events[n];
    if Accepted(st, e) {
      SettledSound(st, b);
      AcceptanceWaits(st, e, b, b.delay);
      OtherSideIff(st, e, b);
    }
  }

  lemma CourtFallsShort(b: Bounds)
    requires 0 < b.skew && 0 < b.delay
    ensures |CourtEvents(b)| == 6 && |CourtStates(b)| == 7 && NoneRewritten(CourtEvents(b), 6)
    ensures !FullWait(CourtStates(b), CourtEvents(b), 5, b.delay)
  {
    var w, e := CourtStates(b)[5].world, CourtEvents(b)[5];
    assert IndexOf(w.online[2].lovers, 1) == BondIndex(w.online[2].lovers, 1) == BondIndex(w.online[1].lovers, 2) == 0;
  }

  lemma CourtOpens(b: Bounds)
    requires 0 <= b.skew && 0 <= b.delay
    ensures Follows(CourtStates(b)[0], CourtEvents(b)[0], CourtStates(b)[1], b)
    ensures Follows(CourtStates(b)[1], CourtEvents(b)[1], CourtStates(b)[2], b)
    ensures Follows(CourtStates(b)[2], CourtEvents(b)[2], CourtStates(b)[3], b)
  {
    var bare := map[1 := NO_TIES, 2 := NO_TIES];
    assert map[1 := NO_TIES][2 := NO_TIES] == bare;
    assert [] + [DatingOffer(1)] == [DatingOffer(1)];
    assert RecallLovers(bare, 2, [DatingOffer(1)]) == bare[2 := NO_TIES.(lovers := [DatingOffer(1)])];
  }

  lemma CourtDates(b: Bounds)
    requires 0 <= b.skew && 0 <= b.delay
    ensures Follows(CourtStates(b)[3], CourtEvents(b)[3], CourtStates(b)[4], b)
  {
    hide Strip, BondIndex;
    var bare := map[1 := NO_TIES, 2 := NO_TIES];
    var w := World(bare[2 := NO_TIES.(lovers := [DatingOffer(1)])], bare, {});
    var f, g := Fresh(1, "", 0, 0), Fresh(2, "", b.skew, 0);
    assert [DatingOffer(1)][0 := f] == [f] && [] + [g] == [g];
    CourtSaves(w, f, g);
    ProposalOnly(w, 2, 1, "Accept", HERE.(delay := b.delay), 0);
    assert AcceptLove(w, 2, 1, "Accept", HERE.(delay := b.delay), 0, b.skew) == SaveLovers(SaveLovers(w, 2, [f]), 1, [g]);
  }

  lemma CourtSaves(w: World, f: Lover, g: Lover)
    requires w.online.Keys == w.disk.Keys == {1, 2} && w.unkeyed == {}
    requires f.Bond? && g.Bond? && Cleared(f) == f && Cleared(g) == g
    requires forall m :: m in w.disk ==> w.disk[m].(lovers := []) == NO_TIES && w.online[m].(lovers := []) == NO_TIES
    ensures var pair := map[1 := NO_TIES.(lovers := [g]), 2 := NO_TIES.(lovers := [f])];
            SaveLovers(SaveLovers(w, 2, [f]), 1, [g]) == World(pair, pair, {})
  {
    assert Strip([f]) == [f] && Strip([g]) == [g];
  }

  lemma CourtEngages(b: Bounds)
    requires 0 <= b.skew && 0 <= b.delay
    ensures Follows(CourtStates(b)[4], CourtEvents(b)[4], CourtStates(b)[5], b)
    ensures Follows(CourtStates(b)[5], CourtEvents(b)[5], CourtStates(b)[6], b)
  {
    var s := HERE.(delay := b.delay);
    var one, two, asked := CourtTies(2, b.skew, 0, false), CourtTies(1, 0, 0, false), CourtTies(1, 0, 0, true);
    var dating := map[1 := one, 2 := two];
    var offer := Offered(two.lovers[0], 1, b.delay, Late(b));
    assert two.lovers[0 := offer] == asked.lovers;
    assert RecallLovers(dating, 2, asked.lovers) == dating[2 := asked];
    var w := World(dating[2 := asked], dating, {});
    var f, g := Fresh(1, "", Late(b), 1), Fresh(2, "", Late(b), 1);
    assert asked.lovers[0 := f] == [f] && one.lovers[0 := g] == [g];
    CourtSaves(w, f, g);
    ProposalOnly(w, 2, 1, "Accept", s, Late(b));
    assert AcceptLove(w, 2, 1, "Accept", s, Late(b), Late(b)) == SaveLovers(SaveLovers(w, 2, [f]), 1, [g]);
  }

  // ---- Ownership ----

  /** The collar a member wears, as the database has it. */
  function CollarOf(disk: map<int, Ties>, m: int): Ownership {
    if m in disk then disk[m].ownership else Free
  }

  predicate Full(o: Ownership) {
    o.Collar? && o.stage == 1
  }

  /** The same collar, whatever its notes say. */
  predicate SameCollar(o: Ownership, o': Ownership) {
    o.Collar? && o'.Collar? && o.(endOffer := None, notes := None) == o'.(endOffer := None, notes := None)
  }

  /** What an ownership call makes of the collar on record for `m`. */
  function CollarAfter(w: World, e: Event, m: int): Ownership
    requires e.OwnershipCall? && e.my in w.online
  {
    var o, mine, s := CollarOf(w.disk, m), w.online[e.my].ownership, e.scene;
    if e.action == "Break" && MayBreakCollar(mine, s.level, s.delay, e.now) then
      if m == e.my && m !in w.unkeyed then Free else o
    else if !s.inRoom then o
    else if !s.targetInRoom then
      if e.action == "Release" && m == e.target && OwnedBy(o, e.my) then Free else o
    else if m in w.unkeyed then o
    else if e.action == "UpdateNotes" && m == e.target && OwnedBy(o, e.my) && o.stage == 1 && !Splits(e.notes, e.maxLen) then
      o.(notes := NotesText(e.notes, e.maxLen))
    else if e.action == "Release" && m == e.target && OwnedBy(o, e.my) then Free
    else if e.action == "Accept" && !s.blocked && s.targetName.Some? && m == e.my && mine == TrialOffer(e.target) then
      Collar(e.target, s.targetName.value, e.now, 0, None, None)
    else if e.action == "Accept" && !s.blocked && s.targetName.Some? && m == e.my && OwnedBy(mine, e.target)
            && mine.stage == 0 && mine.endOffer == Some(e.target) then
      Collar(e.target, s.targetName.value, e.now, 1, None, None)
    else o
  }

  lemma CollarStep(st: State, e: Event, b: Bounds, m: int)
    requires Sound(st.world, st.clock, b) && Enabled(st, e, b) && !e.Rewrite?
    ensures var o, o' := CollarOf(st.world.disk, m), CollarOf(Step(st, e, b).world.disk, m);
            o' == if e.OwnershipCall? then CollarAfter(st.world, e, m) else o
  {
    match e
    case OwnershipCall(_, _, _, _, _, _, _) => OwnershipCallCollar(st, e, b, m);
    case LovershipCall(_, _, _, _, _, _, _) => LovershipKeepsOwnership(st, e, b);
    case Create(_) =>
    case Login(_) =>
    case Logout(_) =>
    case Misname(_) =>
  }

  lemma OwnershipCallCollar(st: State, e: Event, b: Bounds, m: int)
    requires Sound(st.world, st.clock, b) && Enabled(st, e, b) && e.OwnershipCall?
    ensures CollarOf(Step(st, e, b).world.disk, m) == CollarAfter(st.world, e, m)
  {
    hide ProposeOwner, AcceptOwner, Strip, SetOwnership, SetNotes;
    var w, s := st.world, e.scene;
    assert e.my in w.disk;
    if e.action == "Break" && MayBreakCollar(w.online[e.my].ownership, s.level, s.delay, e.now) {
      SetCollar(w, e.my, "", Free, m);
    } else if s.inRoom && s.targetInRoom {
      OnlineOk(w, e.target, st.clock, b);
      SetCollar(w, e.target, "", Free, m);
      NotesCollar(st, b, e.target, e.notes, e.maxLen, m);
      ProposeKeepsCollar(w, e.my, e.target, e.action, s, e.now);
      AcceptCollar(ProposeOwner(w, e.my, e.target, e.action, s, e.now), e, m);
    }
  }

  lemma SetCollar(w: World, m: int, owner: string, o: Ownership, x: int)
    requires m in w.online && m in w.disk
    ensures CollarOf(SetOwnership(w, m, owner, o).disk, x) == if x == m && m !in w.unkeyed then o else CollarOf(w.disk, x)
  {}

  lemma NotesCollar(st: State, b: Bounds, m: int, notes: Option<string>, maxLen: nat, x: int)
    requires Sound(st.world, st.clock, b) && m in st.world.online
    ensures var w, o := st.world, st.world.online[m].ownership;
            o.Collar? && o.stage == 1 ==>
              CollarOf(SetNotes(w, m, notes, maxLen).disk, x) ==
              if x == m && m !in w.unkeyed && !Splits(notes, maxLen) then
                CollarOf(w.disk, m).(notes := NotesText(notes, maxLen))
              else CollarOf(w.disk, x)
  {
    hide Strip, Splits, NotesText;
    OnlineOk(st.world, m, st.clock, b);
  }

  lemma AcceptCollar(w: World, e: Event, m: int)
    requires e.OwnershipCall? && e.my in w.online && e.my in w.disk
    requires e.scene.inRoom && e.scene.targetInRoom && e.target in w.online
    ensures var o' := CollarOf(AcceptOwner(w, e.my, e.target, e.action, e.scene, e.now).disk, m);
            o' == if e.action == "Accept" then CollarAfter(w, e, m) else CollarOf(w.disk, m)
  {}

  lemma ProposeKeepsCollar(w: World, my: int, target: int, action: string, s: Scene, now: int)
    requires my in w.online && target in w.online
    ensures var w1 := ProposeOwner(w, my, target, action, s, now);
            w1.disk == w.disk && w1.unkeyed == w.unkeyed && w1.online.Keys == w.online.Keys
    ensures action != "Propose" ==> ProposeOwner(w, my, target, action, s, now) == w
  {}

  /**
   A full collar is put on only by the submissive accepting, from a trial with the same owner, and at
   least the delay after that trial's start. A trial starts only by the submissive accepting, from
   no collar at all.
   */
  lemma CollarBegins(st: State, e: Event, b: Bounds, m: int)
    requires Sound(st.world, st.clock, b) && Enabled(st, e, b) && !e.Rewrite?
    ensures var o, o' := CollarOf(st.world.disk, m), CollarOf(Step(st, e, b).world.disk, m);
            o'.Collar? && !SameCollar(o, o') ==>
              && e.OwnershipCall? && e.my == m && e.action == "Accept" && e.scene.targetInRoom && !e.scene.blocked
              && o'.member == e.target && o'.start == e.now
              && (Full(o') ==> o.Collar? && o.stage == 0 && o.member == o'.member && o.start + b.delay <= o'.start)
              && (!Full(o') ==> o == Free)
  {
    hide Step, Strip;
    CollarStep(st, e, b, m);
    if m in st.world.online { OnlineOk(st.world, m, st.clock, b); }
  }

  /**
   A full collar comes off only by its owner's release, or by its wearer's break: at least the delay
   after it was put on, and never for a wearer on difficulty above 2.
   */
  lemma FullCollarEnds(st: State, e: Event, b: Bounds, m: int)
    requires Sound(st.world, st.clock, b) && Enabled(st, e, b) && !e.Rewrite?
    ensures var o, o' := CollarOf(st.world.disk, m), CollarOf(Step(st, e, b).world.disk, m);
            Full(o) && !SameCollar(o, o') ==>
              && o' == Free && e.OwnershipCall?
              && (|| (e.action == "Release" && e.my == o.member && e.target == m)
                  || (e.action == "Break" && e.my == m && o.start + b.delay <= e.now
                      && (e.scene.level.None? || e.scene.level.value <= 2)))
  {
    hide Step, Strip;
    CollarStep(st, e, b, m);
  }

  /** The collar in `states[n]` was put on in the call after the returned state, and kept since. */
  lemma {:induction false} CollarEntered(states: seq<State>, events: seq<Event>, b: Bounds, n: nat, m: int)
    returns (i: nat)
    requires Run(states, events, b) && n < |states| && b.skew >= 0
    requires CollarOf(states[n].world.disk, m).Collar?
    ensures i < n && SameCollar(CollarOf(states[i + 1].world.disk, m), CollarOf(states[n].world.disk, m))
    ensures !SameCollar(CollarOf(states[i].world.disk, m), CollarOf(states[i + 1].world.disk, m))
  {
    assert n > 0;
    if SameCollar(CollarOf(states[n - 1].world.disk, m), CollarOf(states[n].world.disk, m)) {
      i := CollarEntered(states, events, b, n - 1, m);
    } else {
      i := n - 1;
    }
  }

  predicate TrialFor(o: Ownership, o': Ownership, delay: int) {
    o.Collar? && o'.Collar? && o.stage == 0 && o.member == o'.member && o.start + delay <= o'.start
  }

  /**
   In memory a full collar is put on only by an acceptance of the session's own, or it comes with a login;
   so also for a session whose account name is no text, whose collar is then not stored.
   */
  lemma MemoryCollarStep(st: State, e: Event, b: Bounds, m: int)
    requires Sound(st.world, st.clock, b) && Enabled(st, e, b) && !e.Rewrite?
    requires m in st.world.online && m in Step(st, e, b).world.online && !(e.Login? && e.member == m)
    ensures var o, o' := st.world.online[m].ownership, Step(st, e, b).world.online[m].ownership;
            Full(o') && !SameCollar(o, o') ==>
              e.OwnershipCall? && e.my == m && e.action == "Accept" && TrialFor(o, o', b.delay)
  {
    match e
    case OwnershipCall(_, _, _, _, _, _, _) => OwnershipCallMemory(st, e, b, m);
    case LovershipCall(_, _, _, _, _, _, _) => LovershipKeepsOwnership(st, e, b);
    case Create(_) =>
    case Login(_) =>
    case Logout(_) =>
    case Misname(_) =>
  }

  lemma OwnershipCallMemory(st: State, e: Event, b: Bounds, m: int)
    requires Sound(st.world, st.clock, b) && Enabled(st, e, b) && e.OwnershipCall? && m in st.world.online
    ensures m in Step(st, e, b).world.online
    ensures var o, o' := st.world.online[m].ownership, Step(st, e, b).world.online[m].ownership;
            Full(o') && !SameCollar(o, o') ==>
              e.my == m && e.action == "Accept" && TrialFor(o, o', b.delay)
  {
    hide ProposeOwner, AcceptOwner, Sound, Strip, MayBreakCollar;
    var w, s := st.world, e.scene;
    OnlineOk(w, m, st.clock, b);
    if s.inRoom && s.targetInRoom {
      OnlineOk(w, e.target, st.clock, b);
      ProposeMemory(w, e, m);
      AcceptMemory(ProposeOwner(w, e.my, e.target, e.action, s, e.now), e, m);
    }
  }

  lemma ProposeMemory(w: World, e: Event, m: int)
    requires e.OwnershipCall? && e.my in w.online && e.target in w.online && m in w.online
    ensures var w1 := ProposeOwner(w, e.my, e.target, e.action, e.scene, e.now);
            && w1.online.Keys == w.online.Keys && (e.action != "Propose" ==> w1 == w)
            && var o, o' := w.online[m].ownership, w1.online[m].ownership;
               o' == o || o'.TrialOffer? || SameCollar(o, o')
  {}

  lemma AcceptMemory(w: World, e: Event, m: int)
    requires e.OwnershipCall? && e.my in w.online && m in w.online
    ensures var w1 := AcceptOwner(w, e.my, e.target, e.action, e.scene, e.now);
            && m in w1.online
            && (e.action != "Accept" ==> w1 == w)
            && var o, o' := w.online[m].ownership, w1.online[m].ownership;
               o' == o || (o'.Collar? && o'.stage == 0)
               || (m == e.my && OwnedBy(o, e.target) && o.stage == 0 && o.endOffer == Some(e.target)
                   && o'.Collar? && o'.member == e.target && o'.start == e.now)
  {}

  /** What the server has recorded of `m`'s collar: on disk, or in memory if there is a session. */
  predicate Recorded(w: World, m: int, o: Ownership) {
    o == CollarOf(w.disk, m) || (m in w.online && o == w.online[m].ownership)
  }

  lemma StoredHistory(states: seq<State>, events: seq<Event>, b: Bounds, n: nat, m: int) returns (i: nat, o: Ownership)
    requires Run(states, events, b) && n < |states| && b.skew >= 0 && NoneRewritten(events, n)
    requires Full(CollarOf(states[n].world.disk, m))
    ensures i < n && Recorded(states[i].world, m, o) && TrialFor(o, CollarOf(states[n].world.disk, m), b.delay)
  {
    hide Step, Enabled;
    i := CollarEntered(states, events, b, n, m);
    o := CollarOf(states[i].world.disk, m);
    RunStaysSound(states, events, b, i);
    assert Follows(states[i], events[i], states[i + 1], b);
    CollarBegins(states[i], events[i], b, m);
  }

  lemma {:induction false} MemoryHistory(states: seq<State>, events: seq<Event>, b: Bounds, n: nat, m: int)
    returns (i: nat, o: Ownership)
    requires Run(states, events, b) && n < |states| && b.skew >= 0 && NoneRewritten(events, n)
    requires m in states[n].world.online && Full(states[n].world.online[m].ownership)
    ensures i < n && Recorded(states[i].world, m, o) && TrialFor(o, states[n].world.online[m].ownership, b.delay)
  {
    assert n > 0;
    var w, w', e := states[n - 1].world, states[n].world, events[n - 1];
    assert Follows(states[n - 1], e, states[n], b);
    if e.Login? && e.member == m {
      i, o := StoredHistory(states, events, b, n, m);
    } else {
      assert m in w.online;
      RunStaysSound(states, events, b, n - 1);
      if SameCollar(w.online[m].ownership, w'.online[m].ownership) {
        i, o := MemoryHistory(states, events, b, n - 1, m);
      } else {
        MemoryCollarStep(states[n - 1], e, b, m);
        i, o := n - 1, w.online[m].ownership;
      }
    }
  }

  /**
   Whoever wears a full collar in a run without rewritten records was, at an earlier state of it, on trial
   with the same owner, on a trial that had started at least the delay before the collar did.
   */
  lemma FullCollarHistory(states: seq<State>, events: seq<Event>, b: Bounds, n: nat, m: int)
    requires Run(states, events, b) && n < |states| && b.skew >= 0 && NoneRewritten(events, n)
    requires Full(RecordOf(states[n].world, m).ownership)
    ensures exists i, o :: 0 <= i < n
              && Recorded(states[i].world, m, o) && TrialFor(o, RecordOf(states[n].world, m).ownership, b.delay)
  {
    if m in states[n].world.online {
      var i, o := MemoryHistory(states, events, b, n, m);
    } else {
      var i, o := StoredHistory(states, events, b, n, m);
    }
  }
}
