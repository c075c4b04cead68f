/**
 The ownership (four steps) and lovership (six steps) protocols as one state machine.

 `online` is the in-memory record of each account with a session, which carries pending offers;
 `disk` is what the database holds for every account, online or not. A step is one handler call
 with its database writes done at once. `unkeyed` are the sessions whose account name an update has
 turned into something that is no text: a handler that stores their fields by that name throws instead.
 */
module Relationships {
  import opened Options
  import opened Lovers

  // ---- State ----

  datatype Ownership =
    | Free
    | TrialOffer(suitor: int)
    | Collar(member: int, name: string, start: int, stage: int, endOffer: Option<int>, notes: Option<string>)

  datatype Ties = Ties(owner: string, ownership: Ownership, lovers: seq<Lover>)

  const NO_TIES := Ties("", Free, [])

  datatype World = World(online: map<int, Ties>, disk: map<int, Ties>, unkeyed: set<int>)

  const EMPTY_WORLD := World(map[], map[], {})

  /**
   What a call finds around the caller: its room, the target's blacklist, its own difficulty, both names as
   far as they are text; and whether the target's room must be sent something about the target that cannot
   be sent.
   */
  datatype Scene = Scene(inRoom: bool, targetInRoom: bool, blocked: bool, level: Option<int>,
                         myName: Option<string>, targetName: Option<string>, unsent: bool, delay: int)

  /** Pending offers dropped, as the database sees a record. */
  function StripOwnership(o: Ownership): Ownership {
    match o
    case Free => Free
    case TrialOffer(_) => Free
    case Collar(_, _, _, _, _, _) => o.(endOffer := None)
  }

  function StripTies(t: Ties): Ties {
    t.(ownership := StripOwnership(t.ownership), lovers := Strip(t.lovers))
  }

  // ---- Database and memory writes ----

  /** `persist_fields` for the two ownership fields. */
  function PersistOwnership(disk: map<int, Ties>, m: int, owner: string, o: Ownership): map<int, Ties> {
    if m in disk then disk[m := disk[m].(owner := owner, ownership := o)] else disk
  }

  /** `persist_member_fields` for the lovership field. */
  function PersistLovers(disk: map<int, Ties>, m: int, ls: seq<Lover>): map<int, Ties> {
    if m in disk then disk[m := disk[m].(lovers := ls)] else disk
  }

  function RecallOwnership(online: map<int, Ties>, m: int, owner: string, o: Ownership): map<int, Ties>
    requires m in online
  {
    online[m := online[m].(owner := owner, ownership := o)]
  }

  function RecallLovers(online: map<int, Ties>, m: int, ls: seq<Lover>): map<int, Ties>
    requires m in online
  {
    online[m := online[m].(lovers := ls)]
  }

  /** Writes ownership in memory and then, under the account's name, on disk. */
  function SetOwnership(w: World, m: int, owner: string, o: Ownership): World
    requires m in w.online
  {
    w.(online := RecallOwnership(w.online, m, owner, o),
       disk := if m in w.unkeyed then w.disk else PersistOwnership(w.disk, m, owner, o))
  }

  /** `update_lovership`, with its result assigned back: offers go, memory and disk get the rest. */
  function SaveLovers(w: World, m: int, ls: seq<Lover>): World
    requires m in w.online
  {
    w.(online := RecallLovers(w.online, m, Strip(ls)), disk := PersistLovers(w.disk, m, Strip(ls)))
  }

  // ---- Ownership ----

  function NotesText(notes: Option<string>, maxLen: nat): Option<string> {
    if notes.Some? && notes.value != "" then
      Some(if |notes.value| <= maxLen then notes.value else notes.value[..maxLen])
    else None
  }

  /** The cut falls inside a UTF-8 character, so what is left cannot be stored. */
  predicate Splits(notes: Option<string>, maxLen: nat) {
    notes.Some? && |notes.value| > maxLen && 0x80 <= notes.value[maxLen] as int <= 0xBF
  }

  /** The notes go to memory in any case. */
  function SetNotes(w: World, m: int, notes: Option<string>, maxLen: nat): World
    requires m in w.online && w.online[m].ownership.Collar?
  {
    var t := w.online[m];
    var o := t.ownership.(notes := NotesText(notes, maxLen));
    if Splits(notes, maxLen) then w.(online := RecallOwnership(w.online, m, t.owner, o)) else SetOwnership(w, m, t.owner, o)
  }

  predicate OwnedBy(o: Ownership, m: int) {
    o.Collar? && o.member == m
  }

  predicate MayBreakCollar(o: Ownership, level: Option<int>, delay: int, now: int) {
    && o.Collar?
    && (o.stage == 0 || o.start + delay <= now)
    && (level.None? || level.value <= 2 || o.stage == 0)
  }

  function OwnershipStep(w: World, my: int, target: int, action: string, notes: Option<string>, maxLen: nat,
                         s: Scene, now: int): World
    requires my in w.online
    requires s.inRoom && s.targetInRoom ==> target in w.online
  {
    if action == "Break" && MayBreakCollar(w.online[my].ownership, s.level, s.delay, now) then
      SetOwnership(w, my, "", Free)
    else if !s.inRoom then w
    else if !s.targetInRoom then
      if action == "Release" then ReleaseAway(w, my, target) else w
    else
      var o := w.online[target].ownership;
      if action == "UpdateNotes" && OwnedBy(o, my) && o.stage == 1 then
        SetNotes(w, target, notes, maxLen)
      else if action == "Release" && OwnedBy(o, my) then
        SetOwnership(w, target, "", Free)
      else
        AcceptOwner(ProposeOwner(w, my, target, action, s, now), my, target, action, s, now)
  }

  /** A dominant lets go of a submissive who is not in the room: the database decides. */
  function ReleaseAway(w: World, my: int, target: int): World {
    if target in w.disk && OwnedBy(w.disk[target].ownership, my) then
      w.(online := if target in w.online then RecallOwnership(w.online, target, "", Free) else w.online,
         disk := PersistOwnership(w.disk, target, "", Free))
    else w
  }

  /** Steps 1 and 3: offers are written to the target's memory only. */
  function ProposeOwner(w: World, my: int, target: int, action: string, s: Scene, now: int): World
    requires my in w.online && target in w.online
  {
    var t := w.online[target];
    if OwnedBy(w.online[my].ownership, target) || s.blocked || t.owner != "" || action != "Propose" then w
    else if !t.ownership.Collar? then
      if my != target then w.(online := RecallOwnership(w.online, target, "", TrialOffer(my))) else w
    else if t.ownership.member == my && t.ownership.endOffer.None? && t.ownership.stage == 0
            && t.ownership.start + s.delay <= now then
      w.(online := RecallOwnership(w.online, target, t.owner, t.ownership.(endOffer := Some(my))))
    else w
  }

  /** Steps 2 and 4: an acceptance is written to memory and to disk, with the owner's name, if that is text. */
  function AcceptOwner(w: World, my: int, target: int, action: string, s: Scene, now: int): World
    requires my in w.online
  {
    var o := w.online[my].ownership;
    if action != "Accept" || s.blocked || s.targetName.None? then w
    else
      var name := s.targetName.value;
      if o == TrialOffer(target) then
        SetOwnership(w, my, "", Collar(target, name, now, 0, None, None))
      else if OwnedBy(o, target) && o.stage == 0 && o.endOffer == Some(target) then
        SetOwnership(w, my, name, Collar(target, name, now, 1, None, None))
      else w
  }

  // ---- Lovership ----

  predicate MayBreakBond(ls: seq<Lover>, target: int, delay: int, now: int) {
    var b := BondWith(ls, target);
    b.Some? && (b.value.stage != 2 || b.value.start + delay <= now)
  }

  /** `now` and `later` are the handler's two clock readings, in the order it takes them. */
  function LovershipStep(w: World, my: int, target: int, action: string, named: bool,
                         s: Scene, now: int, later: int): World
    requires my in w.online
    requires s.inRoom && s.targetInRoom ==> target in w.online
  {
    var mine := w.online[my].lovers;
    if action == "Break" && MayBreakBond(mine, target, s.delay, now) then
      BreakBond(w, my, target, s.unsent)
    else if action == "Break" && BondWith(mine, target).None? && target < 0 && named then
      SaveLovers(w, my, mine)
    else if !s.inRoom || !s.targetInRoom || s.blocked || my == target then w
    else
      AcceptLove(ProposeLove(w, my, target, action, s, now), my, target, action, s, now, later)
  }

  /** Both sides forget the bond, unless that is cut short. */
  function BreakBond(w: World, my: int, target: int, unsent: bool): World
    requires my in w.online
  {
    if unsent && target in w.online && Recalls(w, my, target) then TakeOver(w, my, target)
    else
      var w1 := Forsake(w, my, target);
      if target == my then w1 else SaveLovers(w1, my, Dropped(w1.online[my].lovers, target))
  }

  /** The target's stored list has a bond with `my`. */
  predicate Recalls(w: World, my: int, target: int) {
    target in w.disk && BondIndex(w.disk[target].lovers, my) >= 0
  }

  /**
   Cut short: the target's session has taken over its stored list without the bond, the room could not be
   told, and neither half is stored.
   */
  function TakeOver(w: World, my: int, target: int): World
    requires target in w.online && Recalls(w, my, target)
  {
    w.(online := RecallLovers(w.online, target, Dropped(w.disk[target].lovers, my)))
  }

  /** The other side's half: its stored list loses the bond, and a session of its takes that list over. */
  function Forsake(w: World, my: int, target: int): (r: World)
    ensures r.online.Keys == w.online.Keys
  {
    if Recalls(w, my, target) then
      var rest := Dropped(w.disk[target].lovers, my);
      w.(online := if target in w.online then RecallLovers(w.online, target, rest) else w.online,
         disk := PersistLovers(w.disk, target, Strip(rest)))
    else w
  }

  /** Steps 1, 3 and 5: an offer on the target's in-memory list. */
  function ProposeLove(w: World, my: int, target: int, action: string, s: Scene, now: int): World
    requires my in w.online && target in w.online
  {
    w.(online := RecallLovers(w.online, target,
                              ProposedList(w.online[my].lovers, w.online[target].lovers, my, target, action, s.delay, now)))
  }

  /** The target's list after a proposal by `my`, whose own list is `mine`. */
  function ProposedList(mine: seq<Lover>, theirs: seq<Lover>, my: int, target: int, action: string,
                        delay: int, now: int): seq<Lover> {
    var tl := IndexOf(theirs, my);
    if action != "Propose" || (|mine| >= MAX_LOVERS && IndexOf(mine, target) < 0) then theirs
    else if tl >= 0 then theirs[tl := Offered(theirs[tl], my, delay, now)]
    else if |theirs| < MAX_LOVERS then theirs + [DatingOffer(my)]
    else theirs
  }

  /** The next offer an entry is ready for, made by `my`. */
  function Offered(l: Lover, my: int, delay: int, now: int): Lover {
    if l.Bond? && l.engagement.None? && l.stage == 0 && l.start + delay <= now then
      l.(engagement := Some(my))
    else if l.Bond? && l.wedding.None? && l.stage == 1 && l.start + delay <= now then
      l.(wedding := Some(my))
    else l
  }

  /** The stage the offer on this entry leads to, when it was made by `target`. */
  function NextStage(l: Lover, target: int): Option<int> {
    match l
    case DatingOffer(suitor) => if suitor == target then Some(0) else None
    case Bond(_, _, _, stage, engagement, wedding) =>
      if stage == 0 && engagement == Some(target) then Some(1)
      else if stage == 1 && wedding == Some(target) then Some(2)
      else None
  }

  /** Steps 2, 4 and 6: both lists take the new stage; the caller's entry is stamped first. */
  function AcceptLove(w: World, my: int, target: int, action: string, s: Scene, now: int, later: int): World
    requires my in w.online && target in w.online
  {
    var mine, theirs := w.online[my].lovers, w.online[target].lovers;
    var al, tl := IndexOf(mine, target), IndexOf(theirs, my);
    if action != "Accept" || |mine| > MAX_LOVERS || al < 0 || NextStage(mine[al], target).None? then w
    else if s.myName.None? || s.targetName.None? then w
    else
      var stage := NextStage(mine[al], target).value;
      if stage == 0 && |theirs| >= MAX_LOVERS && tl < 0 then w
      else
        var e := Fresh(my, s.myName.value, later, stage);
        var theirs' :=
          if tl >= 0 then theirs[tl := e]
          else if stage == 0 then theirs + [e]
          else theirs;
        var w1 := SaveLovers(w, my, mine[al := Fresh(target, s.targetName.value, now, stage)]);
        SaveLovers(w1, target, theirs')
  }

  // ---- Runs ----

  /**
   `Misname` is an account update that reaches the account's name; `Rewrite` one that reaches its Owner,
   Ownership or Lovership, of which the client then makes what it likes.
   */
  datatype Event =
    | OwnershipCall(my: int, target: int, action: string, notes: Option<string>, maxLen: nat, scene: Scene, now: int)
    | LovershipCall(my: int, target: int, action: string, named: bool, scene: Scene, now: int, later: int)
    | Create(member: int)
    | Login(member: int)
    | Logout(member: int)
    | Misname(member: int)
    | Rewrite(member: int, recalled: Ties, stored: Ties)

  /**
   The bounds a run is judged by: the waiting time is never set below `delay`, and two clock readings
   inside one call differ by at most `skew`.
   */
  datatype Bounds = Bounds(delay: int, skew: int)

  /** A world and the latest clock reading taken. */
  datatype State = State(world: World, clock: int)

  predicate Enabled(st: State, e: Event, b: Bounds) {
    match e
    case OwnershipCall(my, target, _, _, _, s, now) =>
      my in st.world.online && (s.inRoom && s.targetInRoom ==> target in st.world.online)
      && st.clock <= now && b.delay <= s.delay
    case LovershipCall(my, target, _, _, s, now, later) =>
      my in st.world.online && (s.inRoom && s.targetInRoom ==> target in st.world.online)
      && st.clock <= now <= later <= now + b.skew && b.delay <= s.delay
    case Create(m) => m !in st.world.disk
    case Login(m) => m in st.world.disk
    case Logout(m) => true
    case Misname(m) => m in st.world.online
    case Rewrite(m, _, _) => m in st.world.online && m in st.world.disk && m !in st.world.unkeyed
  }

  function Step(st: State, e: Event, b: Bounds): State
    requires Enabled(st, e, b)
  {
    var w := st.world;
    match e
    case OwnershipCall(my, target, action, notes, maxLen, s, now) =>
      State(OwnershipStep(w, my, target, action, notes, maxLen, s, now), now)
    case LovershipCall(my, target, action, named, s, now, later) =>
      State(LovershipStep(w, my, target, action, named, s, now, later), later)
    case Create(m) => st.(world := World(w.online[m := NO_TIES], w.disk[m := NO_TIES], w.unkeyed - {m}))
    case Login(m) => st.(world := World(w.online[m := w.disk[m]], w.disk, w.unkeyed - {m}))
    case Logout(m) => st.(world := World(w.online - {m}, w.disk, w.unkeyed - {m}))
    case Misname(m) => st.(world := w.(unkeyed := w.unkeyed + {m}))
    case Rewrite(m, recalled, stored) =>
      st.(world := w.(online := w.online[m := recalled], disk := w.disk[m := stored]))
  }

  /** A run from the empty server: `states[i]` becomes `states[i + 1]` by `events[i]`. */
  predicate Run(states: seq<State>, events: seq<Event>, b: Bounds) {
    && |states| == |events| + 1
    && states[0].world == EMPTY_WORLD
    && forall i :: 0 <= i < |events| ==> Follows(states[i], events[i], states[i + 1], b)
  }

  predicate Follows(st: State, e: Event, st': State, b: Bounds) {
    Enabled(st, e, b) && st' == Step(st, e, b)
  }
}
