/** What every step of the relationship machine keeps. */
module RelationshipInvariants {
  import opened Options
  import opened Lovers
  import opened Relationships

  // ---- The invariant ----

  /** An offer to end a trial stands only on a trial, from its owner, once the wait is over. */
  predicate OwnershipOk(o: Ownership, self: int, clock: int, b: Bounds) {
    match o
    case Free => true
    case TrialOffer(suitor) => suitor != self
    case Collar(member, _, start, stage, endOffer, _) =>
      && member != self
      && 0 <= stage <= 1
      && (endOffer.Some? ==> endOffer.value == member && stage == 0 && start + b.delay <= clock)
  }

  /** Likewise an engagement stands on a dating bond and a wedding on an engaged one. */
  predicate LoverOk(l: Lover, self: int, clock: int, b: Bounds) {
    && Key(l) != self
    && (l.Bond? ==>
          && 0 <= l.stage <= 2
          && (l.engagement.Some? ==> l.engagement.value == l.member && l.stage == 0 && l.start + b.delay <= clock)
          && (l.wedding.Some? ==> l.wedding.value == l.member && l.stage == 1 && l.start + b.delay <= clock))
  }

  predicate LoversOk(ls: seq<Lover>, self: int, clock: int, b: Bounds) {
    Distinct(ls) && |ls| <= MAX_LOVERS && forall i :: 0 <= i < |ls| ==> LoverOk(ls[i], self, clock, b)
  }

  predicate TiesOk(t: Ties, self: int, clock: int, b: Bounds) {
    && OwnershipOk(t.ownership, self, clock, b)
    && t.owner == (if t.ownership.Collar? && t.ownership.stage == 1 then t.ownership.name else "")
    && LoversOk(t.lovers, self, clock, b)
  }

  predicate AllOk(ties: map<int, Ties>, clock: int, b: Bounds) {
    forall m :: m in ties ==> TiesOk(ties[m], m, clock, b)
  }

  /** Equal but for the notes. */
  predicate SameButNotes(o: Ownership, o': Ownership) {
    o == o' || (o.Collar? && o'.Collar? && o.(notes := None) == o'.(notes := None))
  }

  /** A session whose account name is text has its stored ownership in memory, but for offers and notes. */
  predicate OwnershipMatches(w: World)
    requires w.online.Keys <= w.disk.Keys
  {
    forall m :: m in w.online && m !in w.unkeyed ==>
      && w.online[m].owner == w.disk[m].owner
      && SameButNotes(StripOwnership(w.online[m].ownership), w.disk[m].ownership)
  }

  /** What every event but a rewriting update keeps, whatever throws in it. */
  predicate Sound(w: World, clock: int, b: Bounds) {
    && AllOk(w.online, clock, b) && AllOk(w.disk, clock, b)
    && w.online.Keys <= w.disk.Keys
    && (forall m :: m in w.disk ==> StripTies(w.disk[m]) == w.disk[m])
    && OwnershipMatches(w)
  }

  /** A list in memory without its pending offers is the stored list. */
  predicate LoversMatch(w: World)
    requires w.online.Keys <= w.disk.Keys
  {
    forall m :: m in w.online ==> Strip(w.online[m].lovers) == w.disk[m].lovers
  }

  /** The bond `a` has on record for `c`. */
  function BondOf(disk: map<int, Ties>, a: int, c: int): Option<Lover> {
    if a in disk then BondWith(disk[a].lovers, c) else None
  }

  /** Both records agree: neither has a bond, or both do, at one stage and nearly one start. */
  predicate Partners(x: Option<Lover>, y: Option<Lover>, skew: int) {
    match (x, y)
    case (None, None) => true
    case (Some(l), Some(r)) => l.Bond? && r.Bond? && l.stage == r.stage && -skew <= l.start - r.start <= skew
    case _ => false
  }

  ghost predicate Symmetric(disk: map<int, Ties>, skew: int) {
    forall a, c :: a != c ==> Partners(BondOf(disk, a, c), BondOf(disk, c, a), skew)
  }

  /** Without its offers, a list has for a member no bond or the one it has in store. */
  predicate KeptBond(ls: seq<Lover>, stored: seq<Lover>, c: int) {
    BondWith(Strip(ls), c) in {None, BondWith(stored, c)}
  }

  ghost predicate Within(ls: seq<Lover>, stored: seq<Lover>) {
    forall c :: KeptBond(ls, stored, c)
  }

  /** Memory may have lost stored bonds; those it has are as stored. */
  ghost predicate MemoryWithin(w: World)
    requires w.online.Keys <= w.disk.Keys
  {
    forall m :: m in w.online ==> Within(w.online[m].lovers, w.disk[m].lovers)
  }

  predicate Concurs(x: Option<Lover>, y: Option<Lover>, skew: int) {
    x.Some? && y.Some? ==> Partners(x, y, skew)
  }

  /** Two that both have a bond on record agree on it. */
  ghost predicate Concur(disk: map<int, Ties>, skew: int) {
    forall a, c :: a != c ==> Concurs(BondOf(disk, a, c), BondOf(disk, c, a), skew)
  }

  /** What every event but a rewriting update keeps, breaks that are cut short included. */
  ghost predicate Settled(st: State, b: Bounds) {
    && b.skew >= 0
    && Sound(st.world, st.clock, b)
    && MemoryWithin(st.world)
    && Concur(st.world.disk, b.skew)
  }

  ghost predicate Invariant(st: State, b: Bounds) {
    && b.skew >= 0
    && Sound(st.world, st.clock, b)
    && LoversMatch(st.world)
    && Symmetric(st.world.disk, b.skew)
  }

  // ---- Single records ----

  lemma StripLoversOk(ls: seq<Lover>, self: int, clock: int, b: Bounds)
    requires LoversOk(ls, self, clock, b)
    ensures LoversOk(Strip(ls), self, clock, b)
  {
    StripDistinct(ls);
    var r := Strip(ls);
    forall j | 0 <= j < |r| ensures LoverOk(r[j], self, clock, b) {
      StripKeeps(ls, r[j]);
      var i :| 0 <= i < |ls| && ls[i].Bond? && r[j] == Cleared(ls[i]);
    }
  }

  lemma LaterOk(ties: map<int, Ties>, clock: int, clock': int, b: Bounds)
    requires AllOk(ties, clock, b) && clock <= clock'
    ensures AllOk(ties, clock', b)
  {
    forall m | m in ties ensures TiesOk(ties[m], m, clock', b) {
      var ls := ties[m].lovers;
      forall i | 0 <= i < |ls| ensures LoverOk(ls[i], m, clock', b) {
        assert LoverOk(ls[i], m, clock, b);
      }
    }
  }

  lemma SetEntryOk(ls: seq<Lover>, i: int, l: Lover, self: int, clock: int, b: Bounds)
    requires LoversOk(ls, self, clock, b) && 0 <= i < |ls|
    requires Key(l) == Key(ls[i]) && LoverOk(l, self, clock, b)
    ensures LoversOk(ls[i := l], self, clock, b)
  {}

  lemma AppendEntryOk(ls: seq<Lover>, l: Lover, self: int, clock: int, b: Bounds)
    requires LoversOk(ls, self, clock, b) && |ls| < MAX_LOVERS
    requires IndexOf(ls, Key(l)) < 0 && LoverOk(l, self, clock, b)
    ensures LoversOk(ls + [l], self, clock, b)
  {}

  lemma DropEntryOk(ls: seq<Lover>, gone: int, self: int, clock: int, b: Bounds)
    requires LoversOk(ls, self, clock, b)
    ensures LoversOk(Dropped(ls, gone), self, clock, b)
  {
    DropBond(ls, gone, gone);
    var r := Dropped(ls, gone);
    forall j | 0 <= j < |r| ensures LoverOk(r[j], self, clock, b) {
      assert r[j] in ls;
    }
  }

  // ---- Whole-world updates, one member at a time ----

  lemma LaterSound(w: World, clock: int, clock': int, b: Bounds)
    requires Sound(w, clock, b) && clock <= clock'
    ensures Sound(w, clock', b)
  {
    LaterOk(w.online, clock, clock', b);
    LaterOk(w.disk, clock, clock', b);
  }

  /** No list changes, in memory or on disk. */
  predicate SameLovers(w: World, w': World) {
    && w'.online.Keys == w.online.Keys && w'.disk.Keys == w.disk.Keys
    && (forall m :: m in w.online ==> w'.online[m].lovers == w.online[m].lovers)
    && (forall m :: m in w.disk ==> w'.disk[m].lovers == w.disk[m].lovers)
  }

  /** Neither what memory has lost nor what it has grows. */
  ghost predicate MemoryKept(w: World, w': World)
    requires w.online.Keys <= w.disk.Keys && w'.online.Keys <= w'.disk.Keys
  {
    (LoversMatch(w) ==> LoversMatch(w')) && (MemoryWithin(w) ==> MemoryWithin(w'))
  }

  lemma SameLoversKeep(w: World, w': World)
    requires SameLovers(w, w') && w.online.Keys <= w.disk.Keys
    ensures MemoryKept(w, w')
    ensures forall a, c :: BondOf(w'.disk, a, c) == BondOf(w.disk, a, c)
  {}

  lemma SetOwnershipSound(w: World, m: int, owner: string, o: Ownership, clock: int, b: Bounds)
    requires Sound(w, clock, b) && m in w.online
    requires OwnershipOk(o, m, clock, b) && StripOwnership(o) == o
    requires owner == if o.Collar? && o.stage == 1 then o.name else ""
    ensures Sound(SetOwnership(w, m, owner, o), clock, b) && SameLovers(w, SetOwnership(w, m, owner, o))
  {
    hide LoversOk, Strip;
    StripTwice(w.online[m].lovers);
  }

  /** Memory alone changes: the stripped record must not. */
  lemma MemoryOnlySound(w: World, m: int, t: Ties, clock: int, b: Bounds)
    requires Sound(w, clock, b) && m in w.online
    requires TiesOk(t, m, clock, b)
    requires t.owner == w.online[m].owner && SameButNotes(StripOwnership(t.ownership), StripOwnership(w.online[m].ownership))
    ensures Sound(w.(online := w.online[m := t]), clock, b)
  {}

  lemma SaveLoversSound(w: World, m: int, ls: seq<Lover>, clock: int, b: Bounds)
    requires Sound(w, clock, b) && m in w.online && LoversOk(ls, m, clock, b)
    ensures Sound(SaveLovers(w, m, ls), clock, b)
    ensures MemoryKept(w, SaveLovers(w, m, ls))
    ensures forall a, c :: BondOf(SaveLovers(w, m, ls).disk, a, c) ==
                           if a == m then BondWith(Strip(ls), c) else BondOf(w.disk, a, c)
  {
    StripLoversOk(ls, m, clock, b);
    StripTwice(ls);
  }

  // ---- Ownership steps ----

  lemma OwnershipStepSound(st: State, e: Event, b: Bounds)
    requires Sound(st.world, st.clock, b) && e.OwnershipCall? && Enabled(st, e, b)
    ensures Sound(Step(st, e, b).world, e.now, b)
    ensures SameLovers(st.world, Step(st, e, b).world)
  {
    hide Sound, SetOwnership, ReleaseAway, ProposeOwner, AcceptOwner, SameLovers, SetNotes;
    var w, my, target, s, now := st.world, e.my, e.target, e.scene, e.now;
    LaterSound(w, st.clock, now, b);
    NothingChanged(w);
    if e.action == "Break" && MayBreakCollar(w.online[my].ownership, s.level, s.delay, now) {
      SetOwnershipSound(w, my, "", Free, now, b);
    } else if s.inRoom && s.targetInRoom {
      var o := w.online[target].ownership;
      if e.action == "UpdateNotes" && OwnedBy(o, my) && o.stage == 1 {
        SetNotesSound(w, target, e.notes, e.maxLen, now, b);
      } else if e.action == "Release" && OwnedBy(o, my) {
        SetOwnershipSound(w, target, "", Free, now, b);
      } else {
        ProposeOwnerSound(w, my, target, e.action, s, now, b);
        var w1 := ProposeOwner(w, my, target, e.action, s, now);
        AcceptOwnerSound(w1, my, target, e.action, s, now, b);
        BothSame(w, w1, AcceptOwner(w1, my, target, e.action, s, now));
      }
    } else if s.inRoom && e.action == "Release" {
      ReleaseAwaySound(w, my, target, now, b);
    }
  }

  lemma NothingChanged(w: World)
    ensures SameLovers(w, w)
  {}

  lemma BothSame(w: World, w1: World, w2: World)
    requires SameLovers(w, w1) && SameLovers(w1, w2)
    ensures SameLovers(w, w2)
  {}

  lemma SetNotesSound(w: World, m: int, notes: Option<string>, maxLen: nat, now: int, b: Bounds)
    requires Sound(w, now, b) && m in w.online && w.online[m].ownership.Collar? && w.online[m].ownership.stage == 1
    ensures Sound(SetNotes(w, m, notes, maxLen), now, b) && SameLovers(w, SetNotes(w, m, notes, maxLen))
  {
    var t := w.online[m];
    var o := t.ownership.(notes := NotesText(notes, maxLen));
    assert TiesOk(t, m, now, b);
    if Splits(notes, maxLen) {
      MemoryOnlySound(w, m, t.(ownership := o), now, b);
    } else {
      SetOwnershipSound(w, m, t.owner, o, now, b);
    }
  }

  lemma ReleaseAwaySound(w: World, my: int, target: int, now: int, b: Bounds)
    requires Sound(w, now, b)
    ensures Sound(ReleaseAway(w, my, target), now, b) && SameLovers(w, ReleaseAway(w, my, target))
  {
    hide Strip, LoversOk;
    if target in w.online {
      StripTwice(w.online[target].lovers);
    }
  }

  lemma ProposeOwnerSound(w: World, my: int, target: int, action: string, s: Scene, now: int, b: Bounds)
    requires Sound(w, now, b) && my in w.online && target in w.online && b.delay <= s.delay
    ensures var w1 := ProposeOwner(w, my, target, action, s, now);
            && Sound(w1, now, b) && SameLovers(w, w1)
            && w1.disk == w.disk && w1.unkeyed == w.unkeyed && w1.online.Keys == w.online.Keys
  {
    var t := w.online[target];
    var w1 := ProposeOwner(w, my, target, action, s, now);
    assert TiesOk(t, target, now, b);
    if w1 != w {
      MemoryOnlySound(w, target, w1.online[target], now, b);
    }
  }

  lemma AcceptOwnerSound(w: World, my: int, target: int, action: string, s: Scene, now: int, b: Bounds)
    requires Sound(w, now, b) && my in w.online
    ensures Sound(AcceptOwner(w, my, target, action, s, now), now, b)
    ensures SameLovers(w, AcceptOwner(w, my, target, action, s, now))
  {
    hide SetOwnership, SameLovers;
    var o := w.online[my].ownership;
    NothingChanged(w);
    if action != "Accept" || s.blocked || s.targetName.None? {
    } else if o == TrialOffer(target) {
      SetOwnershipSound(w, my, "", Collar(target, s.targetName.value, now, 0, None, None), now, b);
    } else if OwnedBy(o, target) && o.stage == 0 && o.endOffer == Some(target) {
      SetOwnershipSound(w, my, s.targetName.value, Collar(target, s.targetName.value, now, 1, None, None), now, b);
    }
  }

  // ---- Lovership steps ----

  /** The call breaks a bond, whether or not it is then cut short. */
  predicate Breaks(st: State, e: Event) {
    e.LovershipCall? && e.action == "Break" && e.my in st.world.online
    && MayBreakBond(st.world.online[e.my].lovers, e.target, e.scene.delay, e.now)
  }

  /** The other side has taken over a list without the bond when the break is cut short. */
  predicate CutsShort(st: State, e: Event) {
    Breaks(st, e) && e.scene.unsent && e.target in st.world.online && Recalls(st.world, e.my, e.target)
  }

  /** The stage the call brings its two parties to, if it accepts an offer. */
  function Accepts(st: State, e: Event): Option<int>
    requires e.LovershipCall? ==> e.my in st.world.online
    requires e.LovershipCall? && e.scene.inRoom && e.scene.targetInRoom ==> e.target in st.world.online
  {
    if !e.LovershipCall? || e.action != "Accept" || !e.scene.inRoom || !e.scene.targetInRoom
       || e.scene.blocked || e.my == e.target || e.scene.myName.None? || e.scene.targetName.None? then None
    else
      var mine, theirs := st.world.online[e.my].lovers, st.world.online[e.target].lovers;
      var al := IndexOf(mine, e.target);
      if |mine| > MAX_LOVERS || al < 0 then None
      else
        var next := NextStage(mine[al], e.target);
        if next == Some(0) && |theirs| >= MAX_LOVERS && IndexOf(theirs, e.my) < 0 then None else next
  }

  /** What a member's list in memory would store about another. */
  function MemoryBond(w: World, a: int, c: int): Option<Lover> {
    if a in w.online then BondWith(Strip(w.online[a].lovers), c) else None
  }

  /** The break of an entry no account stands behind: the caller's list is stored as it is. */
  predicate StoresOwn(st: State, e: Event) {
    && e.LovershipCall? && e.action == "Break" && e.my in st.world.online
    && BondWith(st.world.online[e.my].lovers, e.target).None? && e.target < 0 && e.named
  }

  /** What a call makes of the bond `a` has on record for `c`: a list that is stored is stored as memory has it. */
  function BondAfter(st: State, e: Event, a: int, c: int): Option<Lover>
    requires e.LovershipCall? ==> e.my in st.world.online
    requires e.LovershipCall? && e.scene.inRoom && e.scene.targetInRoom ==> e.target in st.world.online
  {
    var w := st.world;
    if CutsShort(st, e) then BondOf(w.disk, a, c)
    else if Breaks(st, e) then
      if a == e.my then (if c == e.target then None else MemoryBond(w, a, c))
      else if a == e.target && c == e.my then None
      else BondOf(w.disk, a, c)
    else if StoresOwn(st, e) then
      if a == e.my then MemoryBond(w, a, c) else BondOf(w.disk, a, c)
    else
      match Accepts(st, e)
      case None => BondOf(w.disk, a, c)
      case Some(stage) =>
        if a == e.my then
          if c == e.target then Some(Fresh(c, e.scene.targetName.value, e.now, stage)) else MemoryBond(w, a, c)
        else if a == e.target then
          if c != e.my then MemoryBond(w, a, c)
          else if stage == 0 || IndexOf(w.online[a].lovers, c) >= 0 then Some(Fresh(c, e.scene.myName.value, e.later, stage))
          else None
        else BondOf(w.disk, a, c)
  }

  /** In memory, two online members record the same bond apart from the offers on it. */
  lemma MemoryPartners(st: State, b: Bounds, a: int, c: int)
    requires Invariant(st, b) && a != c && a in st.world.online && c in st.world.online
    ensures Partners(BondWith(st.world.online[a].lovers, c), BondWith(st.world.online[c].lovers, a), b.skew)
  {
    var w := st.world;
    StripBond(w.online[a].lovers, c);
    StripBond(w.online[c].lovers, a);
    assert Partners(BondOf(w.disk, a, c), BondOf(w.disk, c, a), b.skew);
  }

  lemma LovershipStepSound(st: State, e: Event, b: Bounds)
    requires Sound(st.world, st.clock, b) && e.LovershipCall? && Enabled(st, e, b)
    ensures Sound(Step(st, e, b).world, e.later, b)
  {
    hide Sound, BreakBond, AcceptLove, ProposeLove, SaveLovers, BondIndex, NextStage, IndexOf;
    var w, my, target, s, later := st.world, e.my, e.target, e.scene, e.later;
    LaterSound(w, st.clock, later, b);
    var mine := w.online[my].lovers;
    if Breaks(st, e) {
      BreakBondSound(w, my, target, s.unsent, later, b);
    } else if e.action == "Break" && BondWith(mine, target).None? && target < 0 && e.named {
      OnlineOk(w, my, later, b);
      SaveLoversSound(w, my, mine, later, b);
    } else if !s.inRoom || !s.targetInRoom || s.blocked || my == target {
    } else {
      ProposeLoveSound(w, my, target, e.action, s, e.now, later, b);
      AcceptLoveSound(ProposeLove(w, my, target, e.action, s, e.now), my, target, e.action, s, e.now, later, b);
    }
  }

  lemma OnlineOk(w: World, m: int, clock: int, b: Bounds)
    requires Sound(w, clock, b) && m in w.online
    ensures TiesOk(w.online[m], m, clock, b)
  {}

  /** Whatever becomes of the other side, a break leaves well-formed lists. */
  lemma BreakBondSound(w: World, my: int, target: int, unsent: bool, clock: int, b: Bounds)
    requires Sound(w, clock, b) && my in w.online
    ensures Sound(BreakBond(w, my, target, unsent), clock, b)
  {
    hide Strip, BondIndex;
    if unsent && target in w.online && Recalls(w, my, target) {
      var theirs := w.disk[target].lovers;
      DropEntryOk(theirs, my, target, clock, b);
      MemoryOnlySound(w, target, w.online[target].(lovers := Dropped(theirs, my)), clock, b);
    } else {
      if Recalls(w, my, target) { ForsakeKeepsSound(w, my, target, clock, b); }
      var w1 := Forsake(w, my, target);
      OnlineOk(w1, my, clock, b);
      DropEntryOk(w1.online[my].lovers, target, my, clock, b);
      SaveLoversSound(w1, my, Dropped(w1.online[my].lovers, target), clock, b);
    }
  }

  /** What a call makes of the bonds on record, and of what memory has of them. */
  lemma LovershipStepBonds(st: State, e: Event, b: Bounds)
    requires Sound(st.world, st.clock, b) && e.LovershipCall? && Enabled(st, e, b)
    ensures Sound(Step(st, e, b).world, e.later, b)
    ensures !CutsShort(st, e) ==> MemoryKept(st.world, Step(st, e, b).world)
    ensures CutsShort(st, e) && MemoryWithin(st.world) ==> MemoryWithin(Step(st, e, b).world)
    ensures forall a, c :: a != c ==> BondOf(Step(st, e, b).world.disk, a, c) == BondAfter(st, e, a, c)
  {
    hide SaveLovers, AcceptLove, ProposeLove, BondIndex, NextStage, IndexOf, Strip, MemoryWithin, LoversMatch;
    var w, my, target, s, later := st.world, e.my, e.target, e.scene, e.later;
    LovershipStepSound(st, e, b);
    LaterSound(w, st.clock, later, b);
    var mine := w.online[my].lovers;
    if CutsShort(st, e) {
      CutShortWithin(st, e, b);
    } else if Breaks(st, e) {
      BreakBondBonds(st, e, b);
    } else if StoresOwn(st, e) {
      OnlineOk(w, my, later, b);
      SaveLoversSound(w, my, mine, later, b);
    } else if !s.inRoom || !s.targetInRoom || s.blocked || my == target {
    } else if e.action == "Accept" {
      AcceptLoveBonds(st, e, b);
    } else {
      ProposeLoveSound(w, my, target, e.action, s, e.now, later, b);
      NotAccepted(ProposeLove(w, my, target, e.action, s, e.now), my, target, e.action, s, e.now, later);
    }
  }

  lemma CutShortWithin(st: State, e: Event, b: Bounds)
    requires Sound(st.world, st.clock, b) && e.LovershipCall? && Enabled(st, e, b) && CutsShort(st, e)
    requires Step(st, e, b).world.online.Keys <= Step(st, e, b).world.disk.Keys
    ensures MemoryWithin(st.world) ==> MemoryWithin(Step(st, e, b).world)
  {
    hide Strip, BondIndex;
    DroppedWithin(st.world.disk[e.target].lovers, e.my);
  }

  lemma DroppedWithin(stored: seq<Lover>, gone: int)
    requires Distinct(stored) && Strip(stored) == stored
    ensures Within(Dropped(stored, gone), stored) && Strip(Dropped(stored, gone)) == Dropped(stored, gone)
  {
    StripDropped(stored, gone);
    forall c ensures KeptBond(Dropped(stored, gone), stored, c) {
      DropBond(stored, gone, c);
    }
  }

  lemma NotAccepted(w: World, my: int, target: int, action: string, s: Scene, now: int, later: int)
    requires my in w.online && target in w.online && action != "Accept"
    ensures AcceptLove(w, my, target, action, s, now, later) == w
  {}

  lemma ProposalOnly(w: World, my: int, target: int, action: string, s: Scene, now: int)
    requires my in w.online && target in w.online && action != "Propose"
    ensures ProposeLove(w, my, target, action, s, now) == w
  {
    assert w.online[target := w.online[target]] == w.online;
  }

  lemma ProposeLoveSound(w: World, my: int, target: int, action: string, s: Scene, now: int, later: int, b: Bounds)
    requires Sound(w, later, b) && my in w.online && target in w.online && my != target
    requires now <= later && b.delay <= s.delay
    ensures var w1 := ProposeLove(w, my, target, action, s, now);
            && Sound(w1, later, b) && MemoryKept(w, w1)
            && w1.disk == w.disk && w1.online.Keys == w.online.Keys
  {
    hide IndexOf, Strip;
    var w1 := ProposeLove(w, my, target, action, s, now);
    ProposedListOk(w.online[my].lovers, w.online[target].lovers, my, target, action, s.delay, now, later, b);
    MemoryOnlySound(w, target, w1.online[target], later, b);
    if MemoryWithin(w) { SameStripWithin(w.online[target].lovers, w1.online[target].lovers, w.disk[target].lovers); }
  }

  lemma ProposedListOk(mine: seq<Lover>, theirs: seq<Lover>, my: int, target: int, action: string, delay: int,
                       now: int, later: int, b: Bounds)
    requires LoversOk(theirs, target, later, b) && my != target && now <= later && b.delay <= delay
    ensures LoversOk(ProposedList(mine, theirs, my, target, action, delay, now), target, later, b)
    ensures Strip(ProposedList(mine, theirs, my, target, action, delay, now)) == Strip(theirs)
  {
    var tl := IndexOf(theirs, my);
    if tl >= 0 {
      var l := Offered(theirs[tl], my, delay, now);
      assert LoverOk(theirs[tl], target, later, b);
      SetEntryOk(theirs, tl, l, target, later, b);
      if theirs[tl].Bond? {
        StripSetOffer(theirs, tl, l);
      } else {
        assert theirs[tl := l] == theirs;
      }
    } else if |theirs| < MAX_LOVERS {
      AppendEntryOk(theirs, DatingOffer(my), target, later, b);
      StripConcat(theirs, [DatingOffer(my)]);
    }
  }

  /** The lists an acceptance to a stage saves: the caller's, then the target's. */
  function AcceptedLists(w: World, my: int, target: int, s: Scene, stage: int, now: int, later: int)
    : (seq<Lover>, seq<Lover>)
    requires my in w.online && target in w.online && s.myName.Some? && s.targetName.Some?
    requires IndexOf(w.online[my].lovers, target) >= 0
  {
    var mine, theirs := w.online[my].lovers, w.online[target].lovers;
    var f, g := Fresh(target, s.targetName.value, now, stage), Fresh(my, s.myName.value, later, stage);
    var tl := IndexOf(theirs, my);
    (mine[IndexOf(mine, target) := f],
     if tl >= 0 then theirs[tl := g] else if stage == 0 then theirs + [g] else theirs)
  }

  lemma AcceptedListsOk(w: World, my: int, target: int, s: Scene, stage: int, now: int, later: int, b: Bounds)
    requires Sound(w, later, b) && my in w.online && target in w.online && my != target
    requires s.myName.Some? && s.targetName.Some? && 0 <= stage <= 2
    requires IndexOf(w.online[my].lovers, target) >= 0
    requires stage == 0 && |w.online[target].lovers| >= MAX_LOVERS ==> IndexOf(w.online[target].lovers, my) >= 0
    ensures var lists := AcceptedLists(w, my, target, s, stage, now, later);
            LoversOk(lists.0, my, later, b) && LoversOk(lists.1, target, later, b)
  {
    OnlineOk(w, my, later, b);
    OnlineOk(w, target, later, b);
    var mine, theirs := w.online[my].lovers, w.online[target].lovers;
    SetEntryOk(mine, IndexOf(mine, target), Fresh(target, s.targetName.value, now, stage), my, later, b);
    var tl, g := IndexOf(theirs, my), Fresh(my, s.myName.value, later, stage);
    if tl >= 0 {
      SetEntryOk(theirs, tl, g, target, later, b);
    } else if stage == 0 {
      AppendEntryOk(theirs, g, target, later, b);
    }
  }

  /** An acceptance that goes through saves these two lists. */
  lemma AcceptLoveForm(w: World, my: int, target: int, action: string, s: Scene, now: int, later: int)
    requires my in w.online && target in w.online && my != target
    ensures var mine, theirs := w.online[my].lovers, w.online[target].lovers;
            var al := IndexOf(mine, target);
            var w' := AcceptLove(w, my, target, action, s, now, later);
            || w' == w
            || (&& s.myName.Some? && s.targetName.Some? && al >= 0 && NextStage(mine[al], target).Some?
                && var stage := NextStage(mine[al], target).value;
                   var lists := AcceptedLists(w, my, target, s, stage, now, later);
                   && (stage == 0 && |theirs| >= MAX_LOVERS ==> IndexOf(theirs, my) >= 0)
                   && w' == SaveLovers(SaveLovers(w, my, lists.0), target, lists.1))
  {
    hide IndexOf, SaveLovers, NextStage;
  }

  lemma AcceptLoveSound(w: World, my: int, target: int, action: string, s: Scene, now: int, later: int, b: Bounds)
    requires Sound(w, later, b) && my in w.online && target in w.online && my != target
    ensures Sound(AcceptLove(w, my, target, action, s, now, later), later, b)
  {
    hide AcceptLove, IndexOf, Strip, Sound, LoversOk, AcceptedLists;
    AcceptLoveForm(w, my, target, action, s, now, later);
    if AcceptLove(w, my, target, action, s, now, later) != w {
      var mine := w.online[my].lovers;
      var stage := NextStage(mine[IndexOf(mine, target)], target).value;
      var lists := AcceptedLists(w, my, target, s, stage, now, later);
      AcceptedListsOk(w, my, target, s, stage, now, later, b);
      SaveLoversSound(w, my, lists.0, later, b);
      SaveLoversSound(SaveLovers(w, my, lists.0), target, lists.1, later, b);
    }
  }

  /** The step of an accepting call. */
  lemma AcceptingStep(st: State, e: Event, b: Bounds)
    requires e.LovershipCall? && Enabled(st, e, b) && e.action == "Accept"
    requires e.scene.inRoom && e.scene.targetInRoom && !e.scene.blocked && e.my != e.target
    ensures Step(st, e, b).world ==
            match Accepts(st, e)
            case None => st.world
            case Some(stage) =>
              var lists := AcceptedLists(st.world, e.my, e.target, e.scene, stage, e.now, e.later);
              SaveLovers(SaveLovers(st.world, e.my, lists.0), e.target, lists.1)
  {
    hide IndexOf, SaveLovers, NextStage;
    ProposalOnly(st.world, e.my, e.target, e.action, e.scene, e.now);
  }

  lemma AcceptLoveBonds(st: State, e: Event, b: Bounds)
    requires Sound(st.world, st.clock, b) && e.LovershipCall? && Enabled(st, e, b) && e.action == "Accept"
    requires e.scene.inRoom && e.scene.targetInRoom && !e.scene.blocked && e.my != e.target
    requires Sound(Step(st, e, b).world, e.later, b)
    ensures MemoryKept(st.world, Step(st, e, b).world)
    ensures forall a, c :: a != c ==> BondOf(Step(st, e, b).world.disk, a, c) == BondAfter(st, e, a, c)
  {
    hide IndexOf, NextStage, Strip, AcceptedLists, Sound, LoversMatch, MemoryWithin;
    var w := st.world;
    AcceptingStep(st, e, b);
    if Accepts(st, e).Some? {
      var stage := Accepts(st, e).value;
      var (mine', theirs') := AcceptedLists(w, e.my, e.target, e.scene, stage, e.now, e.later);
      LaterSound(w, st.clock, e.later, b);
      Stages(w.online[e.my].lovers[IndexOf(w.online[e.my].lovers, e.target)], e.target);
      AcceptedListsOk(w, e.my, e.target, e.scene, stage, e.now, e.later, b);
      SaveLoversSound(w, e.my, mine', e.later, b);
      SaveLoversSound(SaveLovers(w, e.my, mine'), e.target, theirs', e.later, b);
      forall a, c | a != c ensures BondOf(Step(st, e, b).world.disk, a, c) == BondAfter(st, e, a, c) {
        AcceptedBonds(st, e, b, c);
      }
    }
  }

  lemma Stages(l: Lover, target: int)
    ensures NextStage(l, target).Some? ==> 0 <= NextStage(l, target).value <= 2
  {}

  lemma AcceptedBonds(st: State, e: Event, b: Bounds, c: int)
    requires Sound(st.world, st.clock, b) && e.LovershipCall? && Enabled(st, e, b) && Accepts(st, e).Some?
    ensures var lists := AcceptedLists(st.world, e.my, e.target, e.scene, Accepts(st, e).value, e.now, e.later);
            && (c != e.my ==> BondWith(Strip(lists.0), c) == BondAfter(st, e, e.my, c))
            && (c != e.target ==> BondWith(Strip(lists.1), c) == BondAfter(st, e, e.target, c))
  {
    hide Strip;
    var w := st.world;
    OnlineOk(w, e.my, st.clock, b);
    OnlineOk(w, e.target, st.clock, b);
    var mine, theirs, stage := w.online[e.my].lovers, w.online[e.target].lovers, Accepts(st, e).value;
    SavedBond(mine, IndexOf(mine, e.target), Fresh(e.target, e.scene.targetName.value, e.now, stage), c);
    SavedBondOrNew(theirs, IndexOf(theirs, e.my), Fresh(e.my, e.scene.myName.value, e.later, stage), c);
    LookupByKey(theirs, e.my);
    StripBond(theirs, c);
  }

  /** Accepting past the first stage finds the caller on the other list, or the bond would be one-sided. */
  lemma AcceptedEntryExists(st: State, e: Event, b: Bounds)
    requires Invariant(st, b) && e.LovershipCall? && Enabled(st, e, b) && Accepts(st, e).Some?
    ensures Accepts(st, e).value > 0 ==> IndexOf(st.world.online[e.target].lovers, e.my) >= 0
  {
    var w := st.world;
    MemoryPartners(st, b, e.my, e.target);
    LookupByKey(w.online[e.my].lovers, e.target);
    LookupByKey(w.online[e.target].lovers, e.my);
  }

  lemma SavedBond(ls: seq<Lover>, i: int, l: Lover, c: int)
    requires Distinct(ls) && 0 <= i < |ls| && l.Bond? && Cleared(l) == l && Key(l) == Key(ls[i])
    ensures BondWith(Strip(ls[i := l]), c) == if c == l.member then Some(l) else BondWith(Strip(ls), c)
  {
    SetBond(ls, i, l, c);
    StripBond(ls[i := l], c);
    StripBond(ls, c);
  }

  lemma SavedBondOrNew(ls: seq<Lover>, i: int, l: Lover, c: int)
    requires Distinct(ls) && i == IndexOf(ls, Key(l)) && l.Bond? && Cleared(l) == l
    ensures BondWith(Strip(if i >= 0 then ls[i := l] else ls + [l]), c) ==
            if c == l.member then Some(l) else BondWith(Strip(ls), c)
  {
    if i >= 0 {
      SavedBond(ls, i, l, c);
    } else {
      AppendBond(ls, l, c);
      StripBond(ls + [l], c);
      StripBond(ls, c);
    }
  }

  lemma ForsakeSound(w: World, my: int, target: int, clock: int, b: Bounds)
    requires Sound(w, clock, b)
    ensures Sound(Forsake(w, my, target), clock, b) && MemoryKept(w, Forsake(w, my, target))
    ensures forall a, c :: BondOf(Forsake(w, my, target).disk, a, c) ==
                           if a == target && c == my then None else BondOf(w.disk, a, c)
  {
    hide MemoryKept;
    if target in w.disk {
      ForsakeKeepsSound(w, my, target, clock, b);
      forall a, c ensures BondOf(Forsake(w, my, target).disk, a, c) ==
                          if a == target && c == my then None else BondOf(w.disk, a, c)
      {
        ForsakenBond(w, my, target, a, c);
      }
    } else {
      NothingKept(w);
    }
  }

  lemma NothingKept(w: World)
    requires w.online.Keys <= w.disk.Keys
    ensures MemoryKept(w, w)
  {}

  lemma ForsakeKeepsSound(w: World, my: int, target: int, clock: int, b: Bounds)
    requires Sound(w, clock, b) && target in w.disk
    ensures Sound(Forsake(w, my, target), clock, b)
    ensures MemoryKept(w, Forsake(w, my, target))
  {
    hide Strip, BondIndex, Dropped;
    var theirs := w.disk[target].lovers;
    DropEntryOk(theirs, my, target, clock, b);
    assert StripTies(w.disk[target]) == w.disk[target];
    DroppedWithin(theirs, my);
    WithinSelf(Dropped(theirs, my));
  }

  lemma SameStripWithin(ls: seq<Lover>, ls': seq<Lover>, stored: seq<Lover>)
    requires Strip(ls) == Strip(ls') && Within(ls, stored)
    ensures Within(ls', stored)
  {
    forall c ensures KeptBond(ls', stored, c) {
      assert KeptBond(ls, stored, c);
    }
  }

  lemma WithinSelf(ls: seq<Lover>)
    requires Strip(ls) == ls
    ensures Within(ls, ls)
  {}

  lemma ForsakenBond(w: World, my: int, target: int, a: int, c: int)
    requires target in w.disk && Distinct(w.disk[target].lovers)
    requires StripTies(w.disk[target]) == w.disk[target]
    ensures BondOf(Forsake(w, my, target).disk, a, c) == if a == target && c == my then None else BondOf(w.disk, a, c)
  {
    var theirs := w.disk[target].lovers;
    StripDropped(theirs, my);
    DropBond(theirs, my, c);
  }

  lemma BreakBondBonds(st: State, e: Event, b: Bounds)
    requires Sound(st.world, st.clock, b) && e.LovershipCall? && Enabled(st, e, b) && Breaks(st, e) && !CutsShort(st, e)
    requires Sound(Step(st, e, b).world, e.later, b)
    ensures MemoryKept(st.world, Step(st, e, b).world)
    ensures forall a, c :: a != c ==> BondOf(Step(st, e, b).world.disk, a, c) == BondAfter(st, e, a, c)
  {
    hide Strip, BondIndex, MemoryKept;
    BreakIsOther(st, e, b);
    BreakBondWorld(st.world, st.clock, e.my, e.target, e.later, b);
  }

  /** A bond is never with oneself. */
  lemma BreakIsOther(st: State, e: Event, b: Bounds)
    requires Sound(st.world, st.clock, b) && Breaks(st, e)
    ensures e.target != e.my
  {
    var mine := st.world.online[e.my].lovers;
    OnlineOk(st.world, e.my, st.clock, b);
    assert LoverOk(mine[BondIndex(mine, e.target)], e.my, st.clock, b);
  }

  lemma BreakBondWorld(w: World, clock: int, my: int, target: int, later: int, b: Bounds)
    requires Sound(w, clock, b) && clock <= later && my in w.online && target != my
    ensures var w2 := SaveLovers(Forsake(w, my, target), my, Dropped(w.online[my].lovers, target));
            && Sound(w2, later, b) && MemoryKept(w, w2)
            && forall a, c :: BondOf(w2.disk, a, c) ==
                              if a == my then (if c == target then None else MemoryBond(w, my, c))
                              else if a == target && c == my then None
                              else BondOf(w.disk, a, c)
  {
    hide Strip, BondIndex, Dropped, LoversMatch, MemoryWithin;
    LaterSound(w, clock, later, b);
    var w1 := Forsake(w, my, target);
    ForsakeSound(w, my, target, later, b);
    var mine := w.online[my].lovers;
    OnlineOk(w, my, later, b);
    DropEntryOk(mine, target, my, later, b);
    SaveLoversSound(w1, my, Dropped(mine, target), later, b);
    forall c {
      KeptBonds(mine, target, c);
    }
  }

  lemma KeptBonds(mine: seq<Lover>, gone: int, c: int)
    requires Distinct(mine)
    ensures BondWith(Strip(Dropped(mine, gone)), c) == if c == gone then None else BondWith(Strip(mine), c)
  {
    DropBond(mine, gone, c);
    StripBond(Dropped(mine, gone), c);
    StripBond(mine, c);
  }

  /**
   The bond being broken is with another account. That one has it on record too, at the same stage, exactly
   when it has any bond with the caller; and before a break is cut short it has.
   */
  lemma BreakIsMutual(st: State, e: Event, b: Bounds)
    requires Settled(st, b) && e.LovershipCall? && Enabled(st, e, b) && Breaks(st, e)
    ensures e.target != e.my
    ensures Recalls(st.world, e.my, e.target) <==>
            Partners(BondOf(st.world.disk, e.my, e.target), BondOf(st.world.disk, e.target, e.my), b.skew)
    ensures Invariant(st, b) ==> Recalls(st.world, e.my, e.target)
  {
    var w, my, target := st.world, e.my, e.target;
    BreakIsOther(st, e, b);
    StripBond(w.online[my].lovers, target);
    assert KeptBond(w.online[my].lovers, w.disk[my].lovers, target);
    assert Concurs(BondOf(w.disk, my, target), BondOf(w.disk, target, my), b.skew);
    if Invariant(st, b) {
      assert Partners(BondOf(w.disk, my, target), BondOf(w.disk, target, my), b.skew);
    }
  }

  // ---- Every step ----

  /** Only an acceptance gives two a bond they did not have on record; any other call keeps or drops bonds. */
  lemma BondAfterKinds(st: State, e: Event, b: Bounds, a: int, c: int)
    requires Settled(st, b) && e.LovershipCall? && Enabled(st, e, b) && a != c
    ensures BondAfter(st, e, a, c) in {None, BondOf(st.world.disk, a, c)}
            || (Accepts(st, e).Some? && {a, c} == {e.my, e.target})
  {
    hide Strip, BondWith, IndexOf, NextStage;
    if a in st.world.online { assert KeptBond(st.world.online[a].lovers, st.world.disk[a].lovers, c); }
  }

  lemma ConcursAfter(st: State, e: Event, b: Bounds, a: int, c: int)
    requires Settled(st, b) && e.LovershipCall? && Enabled(st, e, b) && a != c
    ensures Concurs(BondAfter(st, e, a, c), BondAfter(st, e, c, a), b.skew)
  {
    hide Strip, BondWith, IndexOf, NextStage;
    BondAfterKinds(st, e, b, a, c);
    BondAfterKinds(st, e, b, c, a);
    assert Concurs(BondOf(st.world.disk, a, c), BondOf(st.world.disk, c, a), b.skew);
  }

  lemma MemoryStored(st: State, b: Bounds, a: int, c: int)
    requires Invariant(st, b)
    ensures a in st.world.online ==> MemoryBond(st.world, a, c) == BondOf(st.world.disk, a, c)
  {
    hide Strip, BondWith;
  }

  lemma PartnersAfter(st: State, e: Event, b: Bounds, a: int, c: int)
    requires Invariant(st, b) && e.LovershipCall? && Enabled(st, e, b) && a != c
    ensures Partners(BondAfter(st, e, a, c), BondAfter(st, e, c, a), b.skew)
  {
    hide Strip, BondWith, IndexOf, Sound, LoversMatch, MemoryBond, BondOf;
    assert Partners(BondOf(st.world.disk, a, c), BondOf(st.world.disk, c, a), b.skew);
    MemoryStored(st, b, a, c);
    MemoryStored(st, b, c, a);
    if Accepts(st, e).Some? { AcceptedEntryExists(st, e, b); }
  }

  lemma StepKeepsSymmetry(st: State, e: Event, b: Bounds)
    requires Settled(st, b) && e.LovershipCall? && Enabled(st, e, b)
    ensures Concur(Step(st, e, b).world.disk, b.skew)
    ensures Invariant(st, b) ==> Symmetric(Step(st, e, b).world.disk, b.skew)
  {
    hide Step;
    LovershipStepBonds(st, e, b);
    var disk' := Step(st, e, b).world.disk;
    forall a, c | a != c ensures Concurs(BondOf(disk', a, c), BondOf(disk', c, a), b.skew) {
      ConcursAfter(st, e, b, a, c);
    }
    if Invariant(st, b) {
      forall a, c | a != c ensures Partners(BondOf(disk', a, c), BondOf(disk', c, a), b.skew) {
        PartnersAfter(st, e, b, a, c);
      }
    }
  }

  lemma SameBondsSymmetric(disk: map<int, Ties>, disk': map<int, Ties>, skew: int)
    requires forall a, c :: BondOf(disk', a, c) == BondOf(disk, a, c)
    ensures Symmetric(disk, skew) ==> Symmetric(disk', skew)
    ensures Concur(disk, skew) ==> Concur(disk', skew)
  {
    if Symmetric(disk, skew) {
      forall a, c | a != c ensures Partners(BondOf(disk', a, c), BondOf(disk', c, a), skew) {
        assert Partners(BondOf(disk, a, c), BondOf(disk, c, a), skew);
      }
    }
    if Concur(disk, skew) {
      forall a, c | a != c ensures Concurs(BondOf(disk', a, c), BondOf(disk', c, a), skew) {
        assert Concurs(BondOf(disk, a, c), BondOf(disk, c, a), skew);
      }
    }
  }

  lemma InvariantSettled(st: State, b: Bounds)
    requires Invariant(st, b)
    ensures Settled(st, b)
  {
    hide Strip, BondWith;
    forall a, c | a != c ensures Concurs(BondOf(st.world.disk, a, c), BondOf(st.world.disk, c, a), b.skew) {
      assert Partners(BondOf(st.world.disk, a, c), BondOf(st.world.disk, c, a), b.skew);
    }
  }

  /** Records stay well formed in every event but an update that rewrites them, whatever throws in it. */
  lemma StepKeepsSound(st: State, e: Event, b: Bounds)
    requires Sound(st.world, st.clock, b) && Enabled(st, e, b) && !e.Rewrite?
    ensures Sound(Step(st, e, b).world, Step(st, e, b).clock, b)
  {
    match e
    case OwnershipCall(_, _, _, _, _, _, _) => OwnershipStepSound(st, e, b);
    case LovershipCall(_, _, _, _, _, _, _) => LovershipStepSound(st, e, b);
    case Create(_) =>
    case Login(m) => StripTwice(st.world.disk[m].lovers);
    case Logout(_) =>
    case Misname(_) =>
  }

  /** A cut short break leaves a list in memory that is not the stored one. */
  lemma CutShortMismatch(st: State, e: Event, b: Bounds)
    requires Invariant(st, b) && e.LovershipCall? && Enabled(st, e, b) && CutsShort(st, e)
    ensures BondOf(st.world.disk, e.target, e.my).Some?
    ensures BondWith(Step(st, e, b).world.online[e.target].lovers, e.my) == None
    ensures !LoversMatch(Step(st, e, b).world)
  {
    hide Strip;
    var w, w', theirs := st.world, Step(st, e, b).world, st.world.disk[e.target].lovers;
    assert TiesOk(w.disk[e.target], e.target, st.clock, b);
    DropBond(theirs, e.my, e.my);
    StripBond(w'.online[e.target].lovers, e.my);
  }

  /** Every step that rewrites nothing keeps what memory and disk have of bonds, breaks cut short included. */
  lemma StepKeepsSettled(st: State, e: Event, b: Bounds)
    requires Settled(st, b) && Enabled(st, e, b) && !e.Rewrite?
    ensures Settled(Step(st, e, b), b)
  {
    hide Sound, LoversMatch, MemoryWithin, Concur, Symmetric;
    StepKeepsSound(st, e, b);
    KeysKnown(st, b);
    KeysKnown(Step(st, e, b), b);
    match e
    case OwnershipCall(_, _, _, _, _, _, _) =>
      OwnershipStepSound(st, e, b);
      SameLoversKeep(st.world, Step(st, e, b).world);
      SameBondsSymmetric(st.world.disk, Step(st, e, b).world.disk, b.skew);
    case LovershipCall(_, _, _, _, _, _, _) =>
      LovershipStepBonds(st, e, b);
      StepKeepsSymmetry(st, e, b);
    case Create(_) => SessionKeeps(st, e, b);
    case Login(_) => SessionKeeps(st, e, b);
    case Logout(_) => SessionKeeps(st, e, b);
    case Misname(_) => SessionKeeps(st, e, b);
  }

  /** A step that rewrites nothing keeps the agreement if and only if it is no break cut short. */
  lemma StepKeepsInvariant(st: State, e: Event, b: Bounds)
    requires Invariant(st, b) && Enabled(st, e, b) && !e.Rewrite?
    ensures Invariant(Step(st, e, b), b) <==> !CutsShort(st, e)
  {
    hide Sound, LoversMatch, MemoryWithin, Concur, Symmetric;
    InvariantSettled(st, b);
    StepKeepsSound(st, e, b);
    KeysKnown(st, b);
    KeysKnown(Step(st, e, b), b);
    match e
    case OwnershipCall(_, _, _, _, _, _, _) =>
      OwnershipStepSound(st, e, b);
      SameLoversKeep(st.world, Step(st, e, b).world);
      SameBondsSymmetric(st.world.disk, Step(st, e, b).world.disk, b.skew);
    case LovershipCall(_, _, _, _, _, _, _) =>
      if CutsShort(st, e) {
        CutShortMismatch(st, e, b);
      } else {
        LovershipStepBonds(st, e, b);
        StepKeepsSymmetry(st, e, b);
      }
    case Create(_) => SessionKeeps(st, e, b);
    case Login(_) => SessionKeeps(st, e, b);
    case Logout(_) => SessionKeeps(st, e, b);
    case Misname(_) => SessionKeeps(st, e, b);
  }

  lemma KeysKnown(st: State, b: Bounds)
    requires Sound(st.world, st.clock, b)
    ensures st.world.online.Keys <= st.world.disk.Keys
  {}

  lemma SessionKeeps(st: State, e: Event, b: Bounds)
    requires Sound(st.world, st.clock, b) && Enabled(st, e, b) && (e.Create? || e.Login? || e.Logout? || e.Misname?)
    requires Step(st, e, b).world.online.Keys <= Step(st, e, b).world.disk.Keys
    ensures MemoryKept(st.world, Step(st, e, b).world)
    ensures Symmetric(st.world.disk, b.skew) ==> Symmetric(Step(st, e, b).world.disk, b.skew)
    ensures Concur(st.world.disk, b.skew) ==> Concur(Step(st, e, b).world.disk, b.skew)
  {
    var disk' := Step(st, e, b).world.disk;
    assert BondWith([], 0) == None;
    if e.Login? { WithinSelf(disk'[e.member].lovers); }
    if e.Create? { WithinSelf([]); }
    forall a, c ensures BondOf(disk', a, c) == BondOf(st.world.disk, a, c) {}
    SameBondsSymmetric(st.world.disk, disk', b.skew);
  }
}
