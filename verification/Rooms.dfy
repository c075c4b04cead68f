/** Chat rooms as a state machine: who is where, and what every call makes of it. */
module Rooms {
  import opened Options
  import opened GameState
  import opened RoomNames
  import opened Trimming
  import opened AccountFields

  /** A room's properties and its ordered member list. */
  datatype Room = Room(name: string, limit: int, admin: seq<int>, ban: seq<int>, whitelist: seq<int>,
                       access: seq<string>, members: seq<OnlineAccount>)

  /**
   The accounts online, the rooms in creation order, and every account's back pointer to its room; and the
   accounts whose name or whose environment an update has turned into something that is no text.
   */
  datatype Hall = Hall(online: set<OnlineAccount>, rooms: seq<ChatRoom>, room: map<ChatRoom, Room>,
                       at: map<OnlineAccount, ChatRoom>,
                       unnamed: set<OnlineAccount>, unplaced: set<OnlineAccount>)

  /** The room properties a client sends; `None` is a field that is missing or of another type. */
  datatype RoomForm = RoomForm(name: Option<string>, description: Option<string>, background: Option<string>,
                               visibility: Option<seq<string>>, isPrivate: Option<bool>,
                               access: Option<seq<string>>, locked: Option<bool>, limit: Option<int>,
                               admin: Option<seq<int>>, ban: Option<seq<int>>, whitelist: Option<seq<int>>)

  datatype Settings = Settings(descriptionMax: int, limitDefault: int, limitMin: int, limitMax: int)

  /** `NoReply` when the handler throws before it answers. */
  datatype Reply = NoReply | InvalidRoomData | AccountError | RoomAlreadyExist | ChatRoomCreated | CannotFindRoom | RoomFull
                 | RoomBanned | RoomLocked | AlreadyInRoom | JoinedRoom | Updated

  datatype Action = Update(form: Option<RoomForm>) | Swap(first: Option<int>, second: Option<int>)
                  | Ban | Unban | Kick | MoveLeft | MoveRight | Shuffle(draws: seq<nat>) | Promote | Demote
                  | Whitelist | Unwhitelist | Other

  const EMPTY_HALL := Hall({}, [], map[], map[], {}, {})
  const ALL := "All"
  const ADMIN := "Admin"
  const WHITELIST := "Whitelist"
  const OPEN := [ALL]
  const CLOSED := [ADMIN, WHITELIST]

  // ---- Lists ----

  function Without<T(==)>(s: seq<T>, x: T): seq<T> {
    if s == [] then []
    else if s[0] == x then Without(s[1..], x)
    else [s[0]] + Without(s[1..], x)
  }

  lemma {:induction false} WithoutCounts<T>(s: seq<T>, x: T)
    ensures multiset(Without(s, x)) == multiset(s)[x := 0]
  {
    if s != [] {
      assert s == [s[0]] + s[1..];
      WithoutCounts(s[1..], x);
    }
  }

  function Swapped<T>(s: seq<T>, i: nat, j: nat): (r: seq<T>)
    requires i < |s| && j < |s|
    ensures multiset(r) == multiset(s)
  {
    s[i := s[j]][j := s[i]]
  }

  /** The i-th draw, as a position at or before i. */
  function Draw(draws: seq<nat>, i: nat): (j: nat)
    ensures j <= i
  {
    (if i < |draws| then draws[i] else 0) % (i + 1)
  }

  /** A shuffle exchanging position i with a drawn position at or before it, for i = 1, 2, … */
  function Shuffled<T>(s: seq<T>, draws: seq<nat>, i: nat): (r: seq<T>)
    requires 1 <= i
    ensures multiset(r) == multiset(s)
    decreases |s| - i
  {
    if i >= |s| then s
    else Shuffled(Swapped(s, i, Draw(draws, i)), draws, i + 1)
  }

  /** The position of the first account with that member number. */
  function FirstMember(members: seq<OnlineAccount>, m: int): (r: Option<nat>)
    ensures r.Some? ==> r.value < |members| && members[r.value].member == m
    ensures r.Some? ==> forall i :: 0 <= i < r.value ==> members[i].member != m
    ensures r == None ==> forall a :: a in members ==> a.member != m
  {
    if members == [] then None
    else if members[0].member == m then Some(0)
    else match FirstMember(members[1..], m)
      case None => None
      case Some(i) => Some(i + 1)
  }

  // ---- Leaving, entering, opening ----

  /** The room an account is in. */
  function Place(h: Hall, acc: OnlineAccount): Option<ChatRoom> {
    if acc in h.at && h.at[acc] in h.room then Some(h.at[acc]) else None
  }

  function SetRoom(h: Hall, r: ChatRoom, room: Room): Hall {
    h.(room := h.room[r := room])
  }

  /**
   `room_remove_locked`, with its dictionary of names given: the account leaves its room, and a room left
   empty dies.
   */
  function Remove(h: Hall, acc: OnlineAccount): Hall {
    match Place(h, acc)
    case None => h
    case Some(r) =>
      var left := Without(h.room[r].members, acc);
      var at := h.at - {acc};
      if left == [] then h.(rooms := Without(h.rooms, r), room := h.room - {r}, at := at)
      else h.(room := h.room[r := h.room[r].(members := left)], at := at)
  }

  /**
   Without that dictionary the removal reads the account's name for those who stay. When it is no text it
   throws there, with the account off the list and the pointer to the room not cleared.
   */
  predicate StopsHalfway(h: Hall, acc: OnlineAccount) {
    acc in h.unnamed && Place(h, acc).Some? && Without(h.room[Place(h, acc).value].members, acc) != []
  }

  /** `room_remove_locked`, without the dictionary. */
  function Depart(h: Hall, acc: OnlineAccount): Hall {
    if StopsHalfway(h, acc) then
      var r := Place(h, acc).value;
      SetRoom(h, r, h.room[r].(members := Without(h.room[r].members, acc)))
    else Remove(h, acc)
  }

  function Enter(h: Hall, acc: OnlineAccount, r: ChatRoom): Hall
    requires r in h.room
  {
    h.(room := h.room[r := h.room[r].(members := h.room[r].members + [acc])], at := h.at[acc := r])
  }

  function Open(h: Hall, acc: OnlineAccount, r: ChatRoom, room: Room): Hall {
    h.(rooms := h.rooms + [r], room := h.room[r := room.(members := [acc])], at := h.at[acc := r])
  }

  // ---- Create ----

  predicate NameOk(name: string) {
    1 <= |name| <= 20 && forall i :: 0 <= i < |name| ==> ' ' <= name[i] <= '~'
  }

  predicate TextOk(f: RoomForm, cfg: Settings)
    requires f.name.Some? && f.description.Some? && f.background.Some?
  {
    NameOk(Trim(f.name.value)) && |f.description.value| <= cfg.descriptionMax && |f.background.value| <= 100
  }

  predicate CreateFormOk(f: RoomForm, cfg: Settings) {
    && f.name.Some? && f.description.Some? && f.background.Some?
    && f.visibility.Some? != f.isPrivate.Some?
    && !(f.access.Some? && f.locked.Some?)
    && TextOk(f, cfg)
  }

  /** Either generation of the access fields. */
  function AccessOf(f: RoomForm, otherwise: seq<string>): seq<string> {
    if f.access.Some? then f.access.value
    else if f.locked.Some? then (if f.locked.value then CLOSED else OPEN)
    else otherwise
  }

  function LimitOf(f: RoomForm, cfg: Settings): int {
    if f.limit.Some? && cfg.limitMin <= f.limit.value <= cfg.limitMax then f.limit.value else cfg.limitDefault
  }

  function Given<T>(field: Option<T>, otherwise: T): T {
    if field.Some? then field.value else otherwise
  }

  function FormRoom(acc: OnlineAccount, f: RoomForm, cfg: Settings): Room
    requires f.name.Some?
  {
    Room(Trim(f.name.value), LimitOf(f, cfg), Given(f.admin, [acc.member]), Given(f.ban, []), Given(f.whitelist, []),
         AccessOf(f, OPEN), [])
  }

  /** Some room has this name, up to case and outer blanks. */
  ghost predicate Taken(h: Hall, name: string) {
    exists r :: r in h.room && UpperTrim(h.room[r].name) == UpperTrim(name)
  }

  ghost function CreateReply(h: Hall, acc: OnlineAccount, f: RoomForm, cfg: Settings): Reply {
    if !CreateFormOk(f, cfg) then InvalidRoomData
    else if acc !in h.online then AccountError
    else if Taken(h, Trim(f.name.value)) then RoomAlreadyExist
    else if acc in h.unnamed || acc in h.unplaced then NoReply
    else ChatRoomCreated
  }

  /** A handler that throws has left the old room, as far as that goes, and opens none. */
  ghost function Create(h: Hall, acc: OnlineAccount, f: RoomForm, cfg: Settings, r: ChatRoom): Hall {
    match CreateReply(h, acc, f, cfg)
    case ChatRoomCreated => Open(Remove(h, acc), acc, r, FormRoom(acc, f, cfg))
    case NoReply => Depart(h, acc)
    case _ => h
  }

  // ---- Join ----

  predicate HasAnyRole(member: int, room: Room, roles: seq<string>) {
    || ALL in roles
    || (ADMIN in roles && member in room.admin)
    || (WHITELIST in roles && member in room.whitelist)
  }

  /** The first room of that upper-trimmed name. */
  function Named(rooms: seq<ChatRoom>, room: map<ChatRoom, Room>, want: string): (found: Option<ChatRoom>)
    ensures found.Some? ==> found.value in rooms && found.value in room && UpperTrim(room[found.value].name) == want
    ensures found == None ==> forall r :: r in rooms && r in room ==> UpperTrim(room[r].name) != want
  {
    if rooms == [] then None
    else if rooms[0] in room && UpperTrim(room[rooms[0]].name) == want then Some(rooms[0])
    else Named(rooms[1..], room, want)
  }

  /** What a room answers an account that asks to join it. */
  function Admission(h: Hall, acc: OnlineAccount, r: ChatRoom): Reply
    requires r in h.room
  {
    var room := h.room[r];
    if acc in h.unplaced then NoReply
    else if acc.environment != r.environment then CannotFindRoom
    else if |room.members| >= room.limit then RoomFull
    else if acc.member in room.ban then RoomBanned
    else if !HasAnyRole(acc.member, room, room.access) then RoomLocked
    else if Place(h, acc) == Some(r) then AlreadyInRoom
    else JoinedRoom
  }

  function JoinReply(h: Hall, acc: OnlineAccount, name: string): Reply {
    if name == "" then InvalidRoomData
    else if acc !in h.online then AccountError
    else match Named(h.rooms, h.room, UpperTrim(name))
      case None => CannotFindRoom
      case Some(r) => if Admission(h, acc, r) == JoinedRoom && StopsHalfway(h, acc) then NoReply else Admission(h, acc, r)
  }

  /** The caller would be let in, but leaving the old room stops halfway. */
  predicate JoinStops(h: Hall, acc: OnlineAccount, name: string) {
    && name != "" && acc in h.online && StopsHalfway(h, acc)
    && Named(h.rooms, h.room, UpperTrim(name)).Some?
    && Admission(h, acc, Named(h.rooms, h.room, UpperTrim(name)).value) == JoinedRoom
  }

  function Join(h: Hall, acc: OnlineAccount, name: string): Hall {
    match Named(h.rooms, h.room, UpperTrim(name))
    case None => h
    case Some(r) =>
      if JoinReply(h, acc, name) == JoinedRoom && r in Remove(h, acc).room then Enter(Remove(h, acc), acc, r)
      else if JoinStops(h, acc, name) then Depart(h, acc)
      else h
  }

  // ---- Admin actions ----

  predicate UpdateFormOk(f: RoomForm, cfg: Settings) {
    && f.name.Some? && f.description.Some? && f.background.Some? && f.admin.Some? && f.ban.Some?
    && TextOk(f, cfg)
  }

  /** The check of an update's new name, which is skipped when the name equals the old one upper-trimmed. */
  ghost predicate Clashes(h: Hall, r: ChatRoom, newName: string)
    requires r in h.room
  {
    exists other :: other in h.room && UpperTrim(h.room[r].name) != newName && other != r
                    && UpperTrim(h.room[other].name) == UpperTrim(newName)
  }

  ghost function UpdateReply(h: Hall, r: ChatRoom, form: Option<RoomForm>, cfg: Settings): Reply
    requires r in h.room
  {
    if form == None || !UpdateFormOk(form.value, cfg) then InvalidRoomData
    else if Clashes(h, r, Trim(form.value.name.value)) then RoomAlreadyExist
    else Updated
  }

  function Refit(room: Room, f: RoomForm, cfg: Settings): Room
    requires UpdateFormOk(f, cfg)
  {
    Room(Trim(f.name.value), LimitOf(f, cfg), f.admin.value, f.ban.value, Given(f.whitelist, room.whitelist),
         AccessOf(f, room.access), room.members)
  }

  /** Swapping two members by number; the list is unchanged when either is absent. */
  function SwapMembers(members: seq<OnlineAccount>, first: int, second: int): (r: seq<OnlineAccount>)
    ensures multiset(r) == multiset(members)
  {
    match (FirstMember(members, first), FirstMember(members, second))
    case (Some(i), Some(j)) => Swapped(members, i, j)
    case _ => members
  }

  predicate IsSwap(action: Action) {
    action.Swap? && action.first.Some? && action.second.Some? && action.first != action.second
  }

  /** The administrator and whitelist edits of an action on a present member. */
  function Relisted(h: Hall, r: ChatRoom, target: int, action: Action): Hall
    requires r in h.room
  {
    var room := h.room[r];
    match action
    case Promote => if target in room.admin then h else SetRoom(h, r, room.(admin := room.admin + [target]))
    case Demote => if target in room.admin then SetRoom(h, r, room.(admin := Without(room.admin, target))) else h
    case Whitelist => if target in room.whitelist then h else SetRoom(h, r, room.(whitelist := room.whitelist + [target]))
    case Unwhitelist =>
      if target in room.whitelist then SetRoom(h, r, room.(whitelist := Without(room.whitelist, target))) else h
    case _ => h
  }

  /** A kick or ban names both parties; when it cannot, it throws before anybody is removed. */
  predicate CanName(h: Hall, acc: OnlineAccount, target: OnlineAccount) {
    acc !in h.unnamed && target !in h.unnamed
  }

  /** An action of the caller on the member at position i of the room. */
  function OnMember(h: Hall, acc: OnlineAccount, r: ChatRoom, i: nat, action: Action): Hall
    requires r in h.room && i < |h.room[r].members|
  {
    var room := h.room[r];
    var members, target := room.members, room.members[i];
    match action
    case Ban =>
      var banned := SetRoom(h, r, room.(ban := room.ban + [target.member]));
      if CanName(h, acc, target) then Remove(banned, target) else banned
    case Kick => if CanName(h, acc, target) then Remove(h, target) else h
    case MoveLeft => if i > 0 then SetRoom(h, r, room.(members := Swapped(members, i, i - 1))) else h
    case MoveRight => if i + 1 < |members| then SetRoom(h, r, room.(members := Swapped(members, i, i + 1))) else h
    case Shuffle(draws) => SetRoom(h, r, room.(members := Shuffled(members, draws, 1)))
    case _ => Relisted(h, r, target.member, action)
  }

  /** An action on a member number nobody in the room has. */
  function OnAbsent(h: Hall, r: ChatRoom, target: int, action: Action): Hall
    requires r in h.room
  {
    var room := h.room[r];
    match action
    case Ban => if target in room.ban then h else SetRoom(h, r, room.(ban := room.ban + [target]))
    case Unban => if target in room.ban then SetRoom(h, r, room.(ban := Without(room.ban, target))) else h
    case Whitelist => if target in room.whitelist then h else SetRoom(h, r, room.(whitelist := room.whitelist + [target]))
    case Unwhitelist => if target in room.whitelist then SetRoom(h, r, room.(whitelist := Without(room.whitelist, target))) else h
    case _ => h
  }

  /** Only these may name the administrator themselves. */
  predicate IsReorder(action: Action) {
    action.Swap? || action.MoveLeft? || action.MoveRight?
  }

  predicate MayAct(h: Hall, acc: OnlineAccount, target: int, action: Action) {
    && acc in h.online && Place(h, acc).Some?
    && acc.member in h.room[Place(h, acc).value].admin
    && (acc.member == target ==> IsReorder(action))
  }

  ghost function Admin(h: Hall, acc: OnlineAccount, target: int, action: Action, cfg: Settings): Hall {
    if !MayAct(h, acc, target, action) then h
    else
      var r := Place(h, acc).value;
      var room := h.room[r];
      if action.Update? then
        if UpdateReply(h, r, action.form, cfg) == Updated then SetRoom(h, r, Refit(room, action.form.value, cfg)) else h
      else if IsSwap(action) then
        SetRoom(h, r, room.(members := SwapMembers(room.members, action.first.value, action.second.value)))
      else match FirstMember(room.members, target)
        case Some(i) => OnMember(h, acc, r, i, action)
        case None => OnAbsent(h, r, target, action)
  }

  // ---- Runs ----

  /** `Spoil` is an account update that reaches text fields of its own account. */
  datatype Event = SignIn(acc: OnlineAccount, unread: set<string>) | Spoil(acc: OnlineAccount, fields: set<string>)
                 | Disconnect(acc: OnlineAccount) | Leave(acc: OnlineAccount)
                 | Creates(acc: OnlineAccount, form: RoomForm, r: ChatRoom)
                 | Joins(acc: OnlineAccount, name: string)
                 | Admins(acc: OnlineAccount, target: int, action: Action)

  /**
   A new room is an object of its own, made in its creator's environment. A session is a new object too.
   What a call does that follows a pointer to a room that is gone is undefined.
   */
  predicate Enabled(h: Hall, e: Event) {
    && (e.Creates? ==>
          && e.r !in h.room && e.r !in h.rooms && e.r.environment == e.acc.environment
          && forall a :: a in h.at ==> h.at[a] != e.r)
    && (e.SignIn? ==> e.acc !in h.online && e.acc !in h.at)
    && (e.acc in h.at ==> h.at[e.acc] in h.room)
  }

  function Marked(accounts: set<OnlineAccount>, acc: OnlineAccount, fields: set<string>, f: string): set<OnlineAccount> {
    if f in fields then accounts + {acc} else accounts
  }

  function Spoilt(h: Hall, acc: OnlineAccount, fields: set<string>): Hall {
    h.(unnamed := Marked(h.unnamed, acc, fields, NAME), unplaced := Marked(h.unplaced, acc, fields, ENVIRONMENT))
  }

  function SignedOut(h: Hall, acc: OnlineAccount): Hall {
    h.(online := h.online - {acc}, unnamed := h.unnamed - {acc}, unplaced := h.unplaced - {acc})
  }

  ghost function Step(h: Hall, e: Event, cfg: Settings): Hall {
    match e
    case SignIn(acc, unread) => Spoilt(h.(online := h.online + {acc}), acc, unread)
    case Spoil(acc, fields) => if acc in h.online then Spoilt(h, acc, fields) else h
    case Disconnect(acc) =>
      if acc !in h.online then h
      else if StopsHalfway(h, acc) then Depart(h, acc)
      else SignedOut(Remove(h, acc), acc)
    case Leave(acc) => if acc in h.online then Depart(h, acc) else h
    case Creates(acc, form, r) => Create(h, acc, form, cfg, r)
    case Joins(acc, name) => Join(h, acc, name)
    case Admins(acc, target, action) => Admin(h, acc, target, action, cfg)
  }

  /** The settings may change between events. */
  ghost predicate IsRun(halls: seq<Hall>, events: seq<Event>, cfgs: seq<Settings>) {
    && |halls| == |events| + 1 && |cfgs| == |events| && halls[0] == EMPTY_HALL
    && forall i :: 0 <= i < |events| ==>
         Enabled(halls[i], events[i]) && halls[i + 1] == Step(halls[i], events[i], cfgs[i])
  }
}
