/**
 What each call on the chat rooms does, told in its own terms: the bounds a form must meet, who is let in,
 what becomes of every list, and what is left of a room someone leaves.
 */
module RoomCalls {
  import opened Options
  import opened GameState
  import opened RoomNames
  import opened Trimming
  import opened Rooms
  import opened RoomInvariants

  // ---- Who is let in ----

  /** A role list lets in everybody, the administrators, or those on the whitelist. */
  predicate LetsIn(roles: seq<string>, isAdmin: bool, isListed: bool) {
    "All" in roles || ("Admin" in roles && isAdmin) || ("Whitelist" in roles && isListed)
  }

  /** Whom the form of a room lets in; `otherwise` when it speaks of neither access nor locking. */
  predicate FormLetsIn(f: RoomForm, isAdmin: bool, isListed: bool, otherwise: bool) {
    if f.access.Some? then LetsIn(f.access.value, isAdmin, isListed)
    else if f.locked == Some(true) then isAdmin || isListed
    else if f.locked == Some(false) then true
    else otherwise
  }

  /** The caller cannot leave its room properly: its name is no text, and others stay who are to be told it. */
  predicate Stuck(h: Hall, acc: OnlineAccount) {
    && acc in h.unnamed && acc in h.at && h.at[acc] in h.room
    && exists a :: a in h.room[h.at[acc]].members && a != acc
  }

  lemma StuckStops(h: Hall, acc: OnlineAccount)
    ensures StopsHalfway(h, acc) <==> Stuck(h, acc)
  {
    if acc in h.at && h.at[acc] in h.room { OthersStay(h.room[h.at[acc]].members, acc); }
  }

  lemma {:induction false} OthersStay<T>(s: seq<T>, x: T)
    ensures Without(s, x) != [] <==> exists y :: y in s && y != x
  {
    if s != [] {
      OthersStay(s[1..], x);
      assert forall y :: y in s <==> y == s[0] || y in s[1..];
      if s[0] != x { assert s[0] in s; }
    }
  }

  /** What taking an element out of a list does to its halves and to a single entry determines it. */
  lemma {:induction false} WithoutParts<T>(a: seq<T>, c: seq<T>, x: T, y: T)
    ensures Without(a + c, x) == Without(a, x) + Without(c, x)
    ensures Without([y], x) == if y == x then [] else [y]
  {
    if a == [] {
      assert a + c == c;
    } else {
      WithoutParts(a[1..], c, x, y);
      assert (a + c)[1..] == a[1..] + c;
    }
  }

  /** What a room of the name asked for answers, and that the caller is let in on no other answer. */
  lemma JoinAnswers(h: Hall, acc: OnlineAccount, name: string, r: ChatRoom)
    requires Sound(h) && r in h.room && UpperTrim(h.room[r].name) == UpperTrim(name)
    requires name != "" && acc in h.online && acc !in h.unplaced
    ensures var room := h.room[r];
            JoinReply(h, acc, name) ==
            if acc.environment != r.environment then CannotFindRoom
            else if |room.members| >= room.limit then RoomFull
            else if acc.member in room.ban then RoomBanned
            else if !LetsIn(room.access, acc.member in room.admin, acc.member in room.whitelist) then RoomLocked
            else if acc in h.at && h.at[acc] == r then AlreadyInRoom
            else if Stuck(h, acc) then NoReply
            else JoinedRoom
  {
    hide Sound, UpperTrim, Named, StopsHalfway, Stuck;
    JoinFindsTheOnlyRoom(h, UpperTrim(name), r);
    StuckStops(h, acc);
  }

  lemma JoinRefuses(h: Hall, acc: OnlineAccount, name: string)
    ensures name == "" ==> JoinReply(h, acc, name) == InvalidRoomData
    ensures name != "" && acc !in h.online ==> JoinReply(h, acc, name) == AccountError
    ensures name != "" && acc in h.online && (forall r :: r in h.room ==> UpperTrim(h.room[r].name) != UpperTrim(name)) ==>
              JoinReply(h, acc, name) == CannotFindRoom
    ensures name != "" && acc in h.online && acc in h.unplaced && JoinReply(h, acc, name) != CannotFindRoom ==>
              JoinReply(h, acc, name) == NoReply
  {}

  /** Whoever joins leaves the old room, if there is one, and goes to the end of the new one's list. */
  lemma JoinEnters(h: Hall, acc: OnlineAccount, name: string, r: ChatRoom)
    requires Sound(h) && r in h.room && UpperTrim(h.room[r].name) == UpperTrim(name)
    ensures var h', room := Join(h, acc, name), h.room[r];
            match JoinReply(h, acc, name)
            case JoinedRoom =>
              exists left: Hall ::
                && LeftAny(h, left, acc)
                && h' == left.(room := left.room[r := room.(members := room.members + [acc])], at := left.at[acc := r])
            case NoReply => if acc in h.unplaced then h' == h else LeftHalfway(h, h', acc)
            case _ => h' == h
  {
    hide Sound, UpperTrim, Named, StopsHalfway, Stuck, Remove, Depart, LeftAny;
    JoinFindsTheOnlyRoom(h, UpperTrim(name), r);
    StuckStops(h, acc);
    RemoveLeaves(h, acc);
    DepartHalfway(h, acc);
    if JoinReply(h, acc, name) == JoinedRoom { JoinedRoomSurvives(h, acc, r); }
  }

  // ---- Leaving ----

  /** The account is out of its room, and a room nobody else is in is gone. */
  ghost predicate LeftRoom(h: Hall, h': Hall, acc: OnlineAccount, r: ChatRoom)
    requires r in h.room
  {
    var room := h.room[r];
    && h'.online == h.online && h'.unnamed == h.unnamed && h'.unplaced == h.unplaced
    && h'.at == (map a | a in h.at && a != acc :: h.at[a])
    && (if exists a :: a in room.members && a != acc then
          h'.rooms == h.rooms && h'.room == h.room[r := room.(members := Without(room.members, acc))]
        else
          h'.rooms == Without(h.rooms, r) && h'.room == (map q | q in h.room && q != r :: h.room[q]))
  }

  ghost predicate LeftAny(h: Hall, h': Hall, acc: OnlineAccount) {
    if acc in h.at && h.at[acc] in h.room then LeftRoom(h, h', acc, h.at[acc]) else h' == h
  }

  /** Off the list of the room, with the pointer to it still there. */
  ghost predicate LeftHalfway(h: Hall, h': Hall, acc: OnlineAccount) {
    && acc in h.at && h.at[acc] in h.room
    && var r := h.at[acc];
       h' == h.(room := h.room[r := h.room[r].(members := Without(h.room[r].members, acc))])
  }

  lemma RemoveLeaves(h: Hall, acc: OnlineAccount)
    ensures LeftAny(h, Remove(h, acc), acc)
  {
    hide Without;
    if acc in h.at && h.at[acc] in h.room {
      var r := h.at[acc];
      OthersStay(h.room[r].members, acc);
      assert h.at - {acc} == (map a | a in h.at && a != acc :: h.at[a]);
      assert h.room - {r} == (map q | q in h.room && q != r :: h.room[q]);
    }
  }

  lemma DepartHalfway(h: Hall, acc: OnlineAccount)
    ensures if Stuck(h, acc) then LeftHalfway(h, Depart(h, acc), acc) else LeftAny(h, Depart(h, acc), acc)
  {
    hide Without, LeftAny, Remove, Stuck;
    StuckStops(h, acc);
    RemoveLeaves(h, acc);
    if Stuck(h, acc) { StuckHoused(h, acc); }
  }

  lemma StuckHoused(h: Hall, acc: OnlineAccount)
    requires Stuck(h, acc)
    ensures acc in h.at && h.at[acc] in h.room
  {}

  /** Leaving and the end of a connection; only the latter takes the account offline, unless it is stuck. */
  lemma LeaveLeaves(h: Hall, acc: OnlineAccount, cfg: Settings)
    ensures var h' := Step(h, Leave(acc), cfg);
            if acc !in h.online then h' == h
            else if Stuck(h, acc) then LeftHalfway(h, h', acc) else LeftAny(h, h', acc)
    ensures var h' := Step(h, Disconnect(acc), cfg);
            if acc !in h.online then h' == h
            else if Stuck(h, acc) then LeftHalfway(h, h', acc)
            else exists left: Hall ::
                   && LeftAny(h, left, acc)
                   && h' == Hall(left.online - {acc}, left.rooms, left.room, left.at, left.unnamed - {acc}, left.unplaced - {acc})
  {
    hide StopsHalfway, Stuck, Remove, Depart, LeftAny, LeftHalfway;
    StuckStops(h, acc);
    DepartHalfway(h, acc);
    RemoveLeaves(h, acc);
  }

  /** A session begins outside every room; an update marks the account whose name or environment it spoils. */
  lemma SessionMarks(h: Hall, acc: OnlineAccount, fields: set<string>, cfg: Settings)
    ensures var name, place := if "Name" in fields then {acc} else {}, if "Environment" in fields then {acc} else {};
            && Step(h, SignIn(acc, fields), cfg) ==
               Hall(h.online + {acc}, h.rooms, h.room, h.at, h.unnamed + name, h.unplaced + place)
            && Step(h, Spoil(acc, fields), cfg) ==
               if acc in h.online then Hall(h.online, h.rooms, h.room, h.at, h.unnamed + name, h.unplaced + place) else h
  {
    assert h.unnamed + {} == h.unnamed && h.unplaced + {} == h.unplaced;
  }

  /** The other events of a run are the calls described below. */
  lemma CallsAreSteps(h: Hall, acc: OnlineAccount, f: RoomForm, r: ChatRoom, name: string, target: int, action: Action,
                      cfg: Settings)
    ensures Step(h, Creates(acc, f, r), cfg) == Create(h, acc, f, cfg, r)
    ensures Step(h, Joins(acc, name), cfg) == Join(h, acc, name)
    ensures Step(h, Admins(acc, target, action), cfg) == Admin(h, acc, target, action, cfg)
  {}

  // ---- Creating ----

  /** A name of 1 to 20 printable characters once trimmed, and two texts that are not too long. */
  predicate Fits(f: RoomForm, cfg: Settings) {
    && f.name.Some? && f.description.Some? && f.background.Some?
    && 1 <= |Trim(f.name.value)| <= 20 && (forall c :: c in Trim(f.name.value) ==> 32 <= c as int <= 126)
    && |f.description.value| <= cfg.descriptionMax && |f.background.value| <= 100
  }

  /** Either generation of the fields for visibility, and at most one of those for access. */
  predicate OneGeneration(f: RoomForm) {
    && (f.visibility.Some? || f.isPrivate.Some?) && (f.visibility == None || f.isPrivate == None)
    && (f.access == None || f.locked == None)
  }

  ghost predicate NameTaken(h: Hall, name: string) {
    exists r :: r in h.room && UpperTrim(h.room[r].name) == UpperTrim(name)
  }

  lemma CreateAnswers(h: Hall, acc: OnlineAccount, f: RoomForm, cfg: Settings)
    ensures CreateReply(h, acc, f, cfg) ==
            if !Fits(f, cfg) || !OneGeneration(f) then InvalidRoomData
            else if acc !in h.online then AccountError
            else if NameTaken(h, f.name.value) then RoomAlreadyExist
            else if acc in h.unnamed || acc in h.unplaced then NoReply
            else ChatRoomCreated
  {
    hide Trim, UpperTrim;
    if f.name.Some? {
      var name := Trim(f.name.value);
      assert forall i :: 0 <= i < |name| ==> name[i] in name;
      assert UpperTrim(name) == UpperTrim(f.name.value) by { UpperTrimIdempotent(f.name.value); }
    }
  }

  /** The limit asked for, if the settings allow it. */
  predicate LimitSet(limit: int, f: RoomForm, cfg: Settings) {
    if f.limit.Some? && cfg.limitMin <= f.limit.value && f.limit.value <= cfg.limitMax then limit == f.limit.value
    else limit == cfg.limitDefault
  }

  /** A list field the form gives, or else a default. */
  predicate FieldSet(list: seq<int>, field: Option<seq<int>>, otherwise: seq<int>) {
    (field.Some? ==> list == field.value) && (field == None ==> list == otherwise)
  }

  /** What a new room is like: its creator is alone in it and, unless the form says otherwise, its only administrator. */
  lemma CreateOpens(h: Hall, acc: OnlineAccount, f: RoomForm, cfg: Settings, r: ChatRoom)
    requires CreateReply(h, acc, f, cfg) == ChatRoomCreated
    ensures exists left: Hall, room: Room ::
              && LeftAny(h, left, acc)
              && Create(h, acc, f, cfg, r) ==
                 left.(rooms := left.rooms + [r], room := left.room[r := room], at := left.at[acc := r])
              && room.name == Trim(f.name.value) && room.members == [acc] && LimitSet(room.limit, f, cfg)
              && FieldSet(room.admin, f.admin, [acc.member]) && FieldSet(room.ban, f.ban, [])
              && FieldSet(room.whitelist, f.whitelist, [])
              && (forall isAdmin, isListed ::
                    LetsIn(room.access, isAdmin, isListed) <==> FormLetsIn(f, isAdmin, isListed, true))
  {
    hide LeftAny, Remove, Trim, CreateFormOk, Taken;
    RemoveLeaves(h, acc);
    CreateNamed(h, acc, f, cfg);
    var room := FormRoom(acc, f, cfg).(members := [acc]);
    AccessLetsIn(f);
    var left := Remove(h, acc);
    assert Create(h, acc, f, cfg, r) == left.(rooms := left.rooms + [r], room := left.room[r := room], at := left.at[acc := r]);
  }

  lemma AccessLetsIn(f: RoomForm)
    ensures forall isAdmin, isListed ::
              LetsIn(AccessOf(f, OPEN), isAdmin, isListed) <==> FormLetsIn(f, isAdmin, isListed, true)
  {
    assert OPEN == ["All"] && CLOSED == ["Admin", "Whitelist"];
    assert "All" in OPEN && "All" !in CLOSED && "Admin" in CLOSED && "Whitelist" in CLOSED;
  }

  /** Whether an unbanned account is let into a room just created, while there is space. */
  lemma CreatedAdmits(h: Hall, acc: OnlineAccount, f: RoomForm, cfg: Settings, r: ChatRoom, a: OnlineAccount)
    requires Sound(h) && Enabled(h, Creates(acc, f, r)) && CreateReply(h, acc, f, cfg) == ChatRoomCreated
    requires a in h.online && a != acc && a !in h.unplaced && a.environment == acc.environment
    ensures var h' := Create(h, acc, f, cfg, r);
            var admin := if f.admin.Some? then f.admin.value else [acc.member];
            var listed := f.whitelist.Some? && a.member in f.whitelist.value;
            r in h'.room && h'.room[r].members == [acc]
            && (1 < h'.room[r].limit && !(f.ban.Some? && a.member in f.ban.value) && !Stuck(h', a) ==>
                  JoinReply(h', a, f.name.value) ==
                  if FormLetsIn(f, a.member in admin, listed, true) then JoinedRoom else RoomLocked)
  {
    hide Sound, Remove, Stuck, Taken, LetsIn, FormLetsIn, Trim, UpperTrim, Join, JoinReply, CreateFormOk;
    var h' := Create(h, acc, f, cfg, r);
    CreateKeeps(h, acc, f, cfg, r);
    assert f.name.Some? && f.name.value != "" by { CreateNamed(h, acc, f, cfg); }
    assert UpperTrim(h'.room[r].name) == UpperTrim(f.name.value) by { UpperTrimIdempotent(f.name.value); }
    AccessLetsIn(f);
    RemoveLeaves(h, acc);
    assert a in h'.at ==> a in h.at;
    JoinAnswers(h', a, f.name.value, r);
  }

  lemma CreateNamed(h: Hall, acc: OnlineAccount, f: RoomForm, cfg: Settings)
    requires CreateReply(h, acc, f, cfg) == ChatRoomCreated
    ensures f.name.Some? && f.name.value != ""
  {}

  /** A refused call changes nothing; one that throws has left the old room, as far as that goes. */
  lemma CreateRefused(h: Hall, acc: OnlineAccount, f: RoomForm, cfg: Settings, r: ChatRoom)
    requires CreateReply(h, acc, f, cfg) != ChatRoomCreated
    ensures var h' := Create(h, acc, f, cfg, r);
            if CreateReply(h, acc, f, cfg) != NoReply then h' == h
            else if Stuck(h, acc) then LeftHalfway(h, h', acc) else LeftAny(h, h', acc)
  {
    hide LeftAny, LeftHalfway, Depart, Stuck;
    DepartHalfway(h, acc);
  }

  // ---- Administration ----

  /** An account online, in a room that has it as administrator. */
  predicate Administers(h: Hall, acc: OnlineAccount, r: ChatRoom) {
    acc in h.online && acc in h.at && h.at[acc] == r && r in h.room && acc.member in h.room[r].admin
  }

  /** The room's properties or list replaced, and nothing else. */
  predicate OnlyRoom(h: Hall, h': Hall, r: ChatRoom, room: Room) {
    h' == Hall(h.online, h.rooms, h.room[r := room], h.at, h.unnamed, h.unplaced)
  }

  /** Anyone else's call does nothing, nor does one that names the administrator but to reorder. */
  lemma AdminRefused(h: Hall, acc: OnlineAccount, target: int, action: Action, cfg: Settings)
    requires || (forall r :: r in h.room ==> !Administers(h, acc, r))
             || (acc.member == target && !action.Swap? && !action.MoveLeft? && !action.MoveRight?)
    ensures Admin(h, acc, target, action, cfg) == h
  {}

  /** The first seat of a member number. */
  predicate Seat(members: seq<OnlineAccount>, i: nat, m: int) {
    i < |members| && members[i].member == m && forall k :: 0 <= k < i ==> members[k].member != m
  }

  predicate Seated(members: seq<OnlineAccount>, m: int) {
    exists a :: a in members && a.member == m
  }

  lemma {:induction false} SeatFound(members: seq<OnlineAccount>, m: int)
    ensures FirstMember(members, m).Some? <==> Seated(members, m)
    ensures forall i: nat :: Seat(members, i, m) <==> FirstMember(members, m) == Some(i)
  {
    var found := FirstMember(members, m);
    if found.Some? { assert members[found.value] in members; }
    forall i: nat | Seat(members, i, m) ensures found == Some(i) {
      assert members[i] in members;
    }
  }

  /** Moving exchanges two neighbours, and does nothing at the end of the list it moves towards. */
  lemma MovesSeat(h: Hall, acc: OnlineAccount, r: ChatRoom, target: int, i: nat, cfg: Settings)
    requires Administers(h, acc, r) && Seat(h.room[r].members, i, target)
    ensures var room, ms, h' := h.room[r], h.room[r].members, Admin(h, acc, target, MoveLeft, cfg);
            if i == 0 then h' == h
            else OnlyRoom(h, h', r, room.(members := ms[..i - 1] + [ms[i], ms[i - 1]] + ms[i + 1..]))
    ensures var room, ms, h' := h.room[r], h.room[r].members, Admin(h, acc, target, MoveRight, cfg);
            if i + 1 == |ms| then h' == h
            else OnlyRoom(h, h', r, room.(members := ms[..i] + [ms[i + 1], ms[i]] + ms[i + 2..]))
  {
    hide FirstMember, Shuffled, Relisted, Remove;
    var ms := h.room[r].members;
    SeatFound(ms, target);
    if i > 0 { assert Swapped(ms, i, i - 1) == ms[..i - 1] + [ms[i], ms[i - 1]] + ms[i + 1..]; }
    if i + 1 < |ms| { assert Swapped(ms, i, i + 1) == ms[..i] + [ms[i + 1], ms[i]] + ms[i + 2..]; }
  }

  /** A swap exchanges the seats of two member numbers, if it names two that are there. */
  lemma SwapsSeats(h: Hall, acc: OnlineAccount, r: ChatRoom, target: int, first: Option<int>, second: Option<int>,
                   cfg: Settings)
    requires Administers(h, acc, r)
    ensures var ms, h' := h.room[r].members, Admin(h, acc, target, Swap(first, second), cfg);
            && ((|| first == None || second == None || first == second
                 || !Seated(ms, first.value) || !Seated(ms, second.value)) ==> h' == h)
            && (first.Some? && second.Some? && first != second ==>
                  forall i: nat, j: nat :: Seat(ms, i, first.value) && Seat(ms, j, second.value) ==>
                    OnlyRoom(h, h', r, h.room[r].(members := ms[i := ms[j]][j := ms[i]])))
  {
    hide FirstMember, Shuffled, Remove;
    var ms := h.room[r].members;
    assert h.room[r := h.room[r].(members := ms)] == h.room;
    if first.Some? { SeatFound(ms, first.value); }
    if second.Some? { SeatFound(ms, second.value); }
  }

  /** A shuffle leaves the members in some order; and every order is what some draws lead to. */
  lemma ShufflesSeats(h: Hall, acc: OnlineAccount, r: ChatRoom, target: int, t: seq<OnlineAccount>, cfg: Settings)
    requires Administers(h, acc, r) && Seated(h.room[r].members, target) && acc.member != target
    ensures (exists draws :: OnlyRoom(h, Admin(h, acc, target, Shuffle(draws), cfg), r, h.room[r].(members := t))) <==>
            multiset(t) == multiset(h.room[r].members)
  {
    hide FirstMember, Shuffled, Remove;
    SeatFound(h.room[r].members, target);
    if multiset(t) == multiset(h.room[r].members) {
      var draws := DrawsFor(h.room[r].members, t);
      assert OnlyRoom(h, Admin(h, acc, target, Shuffle(draws), cfg), r, h.room[r].(members := t));
    }
    forall draws | OnlyRoom(h, Admin(h, acc, target, Shuffle(draws), cfg), r, h.room[r].(members := t))
      ensures multiset(t) == multiset(h.room[r].members)
    {
      assert Admin(h, acc, target, Shuffle(draws), cfg).room[r].members == Shuffled(h.room[r].members, draws, 1);
    }
  }

  /** Draws under which a shuffle leads from one order to another. */
  lemma {:induction false} DrawsFor<T>(s: seq<T>, t: seq<T>) returns (draws: seq<nat>)
    requires multiset(s) == multiset(t)
    ensures |draws| == |s| && Shuffled(s, draws, 1) == t
  {
    hide Shuffled, Swapped;
    if |s| <= 1 {
      draws := seq(|s|, _ => 0);
      ShuffleStep(s, draws, 1);
      Alone(s, t);
    } else {
      var n := |s| - 1;
      var j := SomewhereIn(s, t);
      LastPut(s, t, j);
      var d := DrawsFor(s[..n], Swapped(t, n, j)[..n]);
      draws := d + [j];
      OneMoreDraw(s, t, j, d);
    }
  }

  lemma OneMoreDraw<T>(s: seq<T>, t: seq<T>, j: nat, d: seq<nat>)
    requires |s| == |t| == |d| + 1 && |s| > 1 && j < |s|
    requires var n := |s| - 1;
             var u := Swapped(t, n, j);
             |u| == |s| && u[n] == s[n] && Swapped(u, n, j) == t && Shuffled(s[..n], d, 1) == u[..n]
    ensures Shuffled(s, d + [j], 1) == t
  {
    hide Shuffled, Swapped, Draw;
    var n := |s| - 1;
    var u := Swapped(t, n, j);
    DrawLast(d, j);
    SameDraws(s[..n], d, d + [j], 1);
    LastDraw(s, d + [j], 1);
    assert u[..n] + [s[n]] == u;
  }

  lemma DrawLast(d: seq<nat>, j: nat)
    requires j <= |d|
    ensures Draw(d + [j], |d|) == j
  {}

  lemma Alone<T>(s: seq<T>, t: seq<T>)
    requires multiset(s) == multiset(t) && |s| <= 1
    ensures s == t
  {
    SameLength(s, t);
    if |s| == 1 { assert s[0] in multiset(t); }
  }

  lemma SameLength<T>(s: seq<T>, t: seq<T>)
    requires multiset(s) == multiset(t)
    ensures |s| == |t|
  {
    assert |multiset(s)| == |s| && |multiset(t)| == |t|;
  }

  lemma SomewhereIn<T>(s: seq<T>, t: seq<T>) returns (j: nat)
    requires multiset(s) == multiset(t) && s != []
    ensures |s| == |t| && j < |t| && t[j] == s[|s| - 1]
  {
    SameLength(s, t);
    assert s[|s| - 1] in multiset(t);
    j :| 0 <= j < |t| && t[j] == s[|s| - 1];
  }

  lemma ShuffleStep<T>(s: seq<T>, draws: seq<nat>, i: nat)
    requires 1 <= i
    ensures Shuffled(s, draws, i) == if i >= |s| then s else Shuffled(Swapped(s, i, Draw(draws, i)), draws, i + 1)
  {}

  /** The last element put where it belongs, the others are in some order again. */
  lemma LastPut<T>(s: seq<T>, t: seq<T>, j: nat)
    requires multiset(s) == multiset(t) && |s| == |t| && j < |s| && t[j] == s[|s| - 1]
    ensures var n := |s| - 1;
            var u := Swapped(t, n, j);
            |u| == |s| && u[n] == s[n] && multiset(s[..n]) == multiset(u[..n]) && Swapped(u, n, j) == t
  {
    hide Swapped;
    var n := |s| - 1;
    SwapBack(t, n, j);
    LastApart(s);
    LastApart(Swapped(t, n, j));
  }

  lemma SwapBack<T>(t: seq<T>, i: nat, j: nat)
    requires i < |t| && j < |t|
    ensures |Swapped(t, i, j)| == |t| && Swapped(t, i, j)[i] == t[j] && Swapped(Swapped(t, i, j), i, j) == t
  {}

  lemma LastApart<T>(s: seq<T>)
    requires s != []
    ensures multiset(s[..|s| - 1]) == multiset(s) - multiset{s[|s| - 1]}
  {
    assert s == s[..|s| - 1] + [s[|s| - 1]];
  }

  /** Later draws do not matter. */
  lemma {:induction false} SameDraws<T>(s: seq<T>, d: seq<nat>, e: seq<nat>, i: nat)
    requires 1 <= i && |s| <= |d| && d <= e
    ensures Shuffled(s, d, i) == Shuffled(s, e, i)
    decreases |s| - i
  {
    if i < |s| {
      assert Draw(d, i) == Draw(e, i);
      SameDraws(Swapped(s, i, Draw(d, i)), d, e, i + 1);
    }
  }

  /** The last exchange comes after all those among the others. */
  lemma {:induction false} LastDraw<T>(s: seq<T>, draws: seq<nat>, i: nat)
    requires 1 <= i < |s|
    ensures var n := |s| - 1;
            && |Shuffled(s[..n], draws, i)| == n
            && Shuffled(s, draws, i) == Swapped(Shuffled(s[..n], draws, i) + [s[n]], n, Draw(draws, n))
    decreases |s| - i
  {
    hide Shuffled, Swapped;
    var n, j := |s| - 1, Draw(draws, i);
    var s' := Swapped(s, i, j);
    ShuffleStep(s, draws, i);
    ShuffleStep(s[..n], draws, i);
    if i == n {
      ShuffleStep(s', draws, n + 1);
      assert s[..n] + [s[n]] == s;
      SwapLength(s, i, j);
    } else {
      SwapInFront(s, i, j);
      LastDraw(s', draws, i + 1);
    }
  }

  lemma SwapLength<T>(s: seq<T>, i: nat, j: nat)
    requires i < |s| && j < |s|
    ensures |Swapped(s, i, j)| == |s|
  {}

  lemma SwapInFront<T>(s: seq<T>, i: nat, j: nat)
    requires i < |s| - 1 && j < |s| - 1
    ensures var n := |s| - 1;
            |Swapped(s, i, j)| == |s| && Swapped(s, i, j)[..n] == Swapped(s[..n], i, j) && Swapped(s, i, j)[n] == s[n]
  {
    assert s[i := s[j]][j := s[i]][..|s| - 1] == s[..|s| - 1][i := s[j]][j := s[i]];
  }

  /** What an action makes of the administrators when it is on someone present. */
  lemma EditsAdmins(h: Hall, acc: OnlineAccount, r: ChatRoom, target: int, cfg: Settings)
    requires Administers(h, acc, r) && Seated(h.room[r].members, target) && acc.member != target
    ensures var room, promoted, demoted := h.room[r], Admin(h, acc, target, Promote, cfg), Admin(h, acc, target, Demote, cfg);
            && (if target in room.admin then promoted == h
                else OnlyRoom(h, promoted, r, room.(admin := room.admin + [target])))
            && (if target in room.admin then OnlyRoom(h, demoted, r, room.(admin := Without(room.admin, target)))
                else demoted == h)
    ensures Admin(h, acc, target, Unban, cfg) == h && Admin(h, acc, target, Other, cfg) == h
  {
    hide FirstMember, Shuffled, Remove, Without;
    SeatFound(h.room[r].members, target);
  }

  /** The whitelist gains or loses a number, once, present or not. */
  lemma EditsWhitelist(h: Hall, acc: OnlineAccount, r: ChatRoom, target: int, cfg: Settings)
    requires Administers(h, acc, r) && acc.member != target
    ensures var room, added, removed := h.room[r], Admin(h, acc, target, Whitelist, cfg), Admin(h, acc, target, Unwhitelist, cfg);
            && (if target in room.whitelist then added == h
                else OnlyRoom(h, added, r, room.(whitelist := room.whitelist + [target])))
            && (if target in room.whitelist then OnlyRoom(h, removed, r, room.(whitelist := Without(room.whitelist, target)))
                else removed == h)
  {
    hide Shuffled, Remove, Without;
  }

  /** But for the whitelist, the only action on someone absent is a ban or its end. */
  lemma EditsAbsent(h: Hall, acc: OnlineAccount, r: ChatRoom, target: int, cfg: Settings)
    requires Administers(h, acc, r) && !Seated(h.room[r].members, target) && acc.member != target
    ensures var room, banned, unbanned := h.room[r], Admin(h, acc, target, Ban, cfg), Admin(h, acc, target, Unban, cfg);
            && (if target in room.ban then banned == h
                else OnlyRoom(h, banned, r, room.(ban := room.ban + [target])))
            && (if target in room.ban then OnlyRoom(h, unbanned, r, room.(ban := Without(room.ban, target)))
                else unbanned == h)
    ensures forall action :: action in {Kick, MoveLeft, MoveRight, Promote, Demote, Other} || action.Shuffle? ==>
              Admin(h, acc, target, action, cfg) == h
  {
    hide FirstMember, Shuffled, Remove, Without;
    SeatFound(h.room[r].members, target);
  }

  /** A kick puts the member out of the room it is in; a ban lists it first. Both need both names. */
  lemma Expels(h: Hall, acc: OnlineAccount, r: ChatRoom, target: int, i: nat, cfg: Settings)
    requires Administers(h, acc, r) && Seat(h.room[r].members, i, target) && acc.member != target
    ensures var room, member := h.room[r], h.room[r].members[i];
            var banned := h.(room := h.room[r := room.(ban := room.ban + [target])]);
            if acc in h.unnamed || member in h.unnamed then
              Admin(h, acc, target, Kick, cfg) == h && Admin(h, acc, target, Ban, cfg) == banned
            else
              LeftAny(h, Admin(h, acc, target, Kick, cfg), member) && LeftAny(banned, Admin(h, acc, target, Ban, cfg), member)
  {
    hide FirstMember, Shuffled, Remove, Without, LeftAny;
    SeatFound(h.room[r].members, target);
    var room, member := h.room[r], h.room[r].members[i];
    RemoveLeaves(h, member);
    RemoveLeaves(h.(room := h.room[r := room.(ban := room.ban + [target])]), member);
  }

  // ---- Updating ----

  lemma UpdateAnswers(h: Hall, acc: OnlineAccount, r: ChatRoom, form: Option<RoomForm>, cfg: Settings)
    requires Sound(h) && r in h.room
    ensures UpdateReply(h, r, form, cfg) ==
            if form == None || !Fits(form.value, cfg) || form.value.admin == None || form.value.ban == None then InvalidRoomData
            else if exists q :: q in h.room && q != r && UpperTrim(h.room[q].name) == UpperTrim(form.value.name.value)
            then RoomAlreadyExist
            else Updated
  {
    hide Trim, UpperTrim, Sound;
    if form.Some? && form.value.name.Some? {
      var name := Trim(form.value.name.value);
      assert forall i :: 0 <= i < |name| ==> name[i] in name;
      assert UpperTrim(name) == UpperTrim(form.value.name.value) by { UpperTrimIdempotent(form.value.name.value); }
      SkippedCheckIsHarmless(h, r, name);
    }
  }

  /** What an update makes of the room: the whitelist and who is let in stay when the form does not mention them. */
  lemma UpdateRefits(h: Hall, acc: OnlineAccount, r: ChatRoom, target: int, form: Option<RoomForm>, cfg: Settings)
    requires Administers(h, acc, r) && acc.member != target
    ensures var h' := Admin(h, acc, target, Update(form), cfg);
            if UpdateReply(h, r, form, cfg) != Updated then h' == h
            else exists room: Room ::
              var f := form.value;
              && OnlyRoom(h, h', r, room) && f.name.Some? && f.admin.Some? && f.ban.Some?
              && room.name == Trim(f.name.value) && room.members == h.room[r].members && LimitSet(room.limit, f, cfg)
              && room.admin == f.admin.value && room.ban == f.ban.value
              && FieldSet(room.whitelist, f.whitelist, h.room[r].whitelist)
              && (forall isAdmin, isListed ::
                    LetsIn(room.access, isAdmin, isListed) <==>
                    FormLetsIn(f, isAdmin, isListed, LetsIn(h.room[r].access, isAdmin, isListed)))
  {
    hide Trim, Clashes;
    if UpdateReply(h, r, form, cfg) == Updated {
      var room := Refit(h.room[r], form.value, cfg);
      RefitLetsIn(form.value, h.room[r].access);
      assert OnlyRoom(h, Admin(h, acc, target, Update(form), cfg), r, room);
    }
  }

  lemma RefitLetsIn(f: RoomForm, access: seq<string>)
    ensures forall isAdmin, isListed ::
              LetsIn(AccessOf(f, access), isAdmin, isListed) <==>
              FormLetsIn(f, isAdmin, isListed, LetsIn(access, isAdmin, isListed))
  {
    assert OPEN == ["All"] && CLOSED == ["Admin", "Whitelist"];
    assert "All" in OPEN && "All" !in CLOSED && "Admin" in CLOSED && "Whitelist" in CLOSED;
  }

  /** Whether an unbanned account is let into a room just updated, while there is space. */
  lemma UpdatedAdmits(h: Hall, acc: OnlineAccount, r: ChatRoom, target: int, f: RoomForm, cfg: Settings, a: OnlineAccount)
    requires Sound(h) && Administers(h, acc, r) && acc.member != target
    requires UpdateReply(h, r, Some(f), cfg) == Updated
    requires a in h.online && a !in h.unplaced && a.environment == r.environment && !(a in h.at && h.at[a] == r)
    ensures var h', room := Admin(h, acc, target, Update(Some(f)), cfg), h.room[r];
            var listed := if f.whitelist.Some? then a.member in f.whitelist.value else a.member in room.whitelist;
            f.name.Some? && f.admin.Some? && f.ban.Some? && r in h'.room
            && (|room.members| < h'.room[r].limit && a.member !in f.ban.value && !Stuck(h', a) ==>
                  JoinReply(h', a, f.name.value) ==
                  if FormLetsIn(f, a.member in f.admin.value, listed, LetsIn(room.access, a.member in f.admin.value, listed))
                  then JoinedRoom else RoomLocked)
  {
    hide Sound, Stuck, LetsIn, FormLetsIn, Trim, UpperTrim, Join, JoinReply, Clashes, Keeps;
    var h' := Admin(h, acc, target, Update(Some(f)), cfg);
    UpdateRefits(h, acc, r, target, Some(f), cfg);
    assert Sound(h') by { UpdateSound(h, acc, target, Some(f), cfg); }
    assert f.name.value != "" by { UpdateNamed(h, r, f, cfg); }
    assert UpperTrim(h'.room[r].name) == UpperTrim(f.name.value) by { UpperTrimIdempotent(f.name.value); }
    JoinAnswers(h', a, f.name.value, r);
  }

  lemma UpdateNamed(h: Hall, r: ChatRoom, f: RoomForm, cfg: Settings)
    requires r in h.room && UpdateReply(h, r, Some(f), cfg) == Updated
    ensures f.name.Some? && f.name.value != ""
  {}

  lemma UpdateSound(h: Hall, acc: OnlineAccount, target: int, form: Option<RoomForm>, cfg: Settings)
    requires Sound(h)
    ensures Sound(Admin(h, acc, target, Update(form), cfg))
  {
    AdminKeeps(h, acc, target, Update(form), cfg);
  }
}
