/** What every call on the chat rooms keeps, and what follows over whole runs. */
module RoomInvariants {
  import opened Options
  import opened GameState
  import opened RoomNames
  import opened Trimming
  import opened AccountFields
  import opened Rooms

  // ---- The invariant ----

  /** Everyone on a room's list is there once, points back to it and is of its environment. */
  ghost predicate ListOk(members: seq<OnlineAccount>, at: map<OnlineAccount, ChatRoom>, r: ChatRoom) {
    && members != []
    && forall a :: a in members ==>
         multiset(members)[a] == 1 && a in at && at[a] == r && a.environment == r.environment
  }

  /** The rooms in order are exactly the rooms that exist, each once. */
  ghost predicate RoomsListed(rooms: seq<ChatRoom>, alive: set<ChatRoom>) {
    && (forall r :: r in rooms ==> r in alive && multiset(rooms)[r] == 1)
    && (forall r :: r in alive ==> r in rooms)
  }

  ghost predicate PointsToList(h: Hall, a: OnlineAccount)
    requires a in h.at
  {
    a in h.online && h.at[a] in h.room && a in h.room[h.at[a]].members
  }

  ghost predicate NamesDistinct(h: Hall) {
    forall q, r :: q in h.room && r in h.room && q != r ==> UpperTrim(h.room[q].name) != UpperTrim(h.room[r].name)
  }

  /** Everything but the pointers: what holds even after a call that stopped halfway. */
  ghost predicate Sound(h: Hall) {
    && RoomsListed(h.rooms, h.room.Keys)
    && h.at.Keys <= h.online
    && (forall r :: r in h.room ==> ListOk(h.room[r].members, h.at, r))
    && NamesDistinct(h)
  }

  ghost predicate Invariant(h: Hall) {
    Sound(h) && forall a :: a in h.at ==> PointsToList(h, a)
  }

  ghost predicate Keeps(h: Hall, h': Hall) {
    Sound(h') && (Invariant(h) ==> Invariant(h'))
  }

  /** The caller's pointer, if any, is to a room that is alive. */
  predicate Housed(h: Hall, acc: OnlineAccount) {
    acc in h.at ==> h.at[acc] in h.room
  }

  // ---- One list ----

  lemma ListWithout(members: seq<OnlineAccount>, at: map<OnlineAccount, ChatRoom>, r: ChatRoom, acc: OnlineAccount)
    requires ListOk(members, at, r) && Without(members, acc) != []
    ensures ListOk(Without(members, acc), at - {acc}, r)
  {
    var left := Without(members, acc);
    WithoutCounts(members, acc);
    forall a | a in left ensures a in members && a != acc && multiset(left)[a] == 1 {
      assert a in multiset(left);
      assert a in multiset(members);
    }
  }

  lemma ListReordered(members: seq<OnlineAccount>, members': seq<OnlineAccount>, at: map<OnlineAccount, ChatRoom>, r: ChatRoom)
    requires ListOk(members, at, r) && multiset(members') == multiset(members)
    ensures ListOk(members', at, r)
  {
    forall a | a in members' ensures a in members && multiset(members')[a] == 1 {
      assert a in multiset(members');
      assert a in multiset(members);
    }
    assert |multiset(members')| == |members'|;
  }

  lemma WithoutSome<T>(s: seq<T>, x: T, y: T)
    requires y in s && y != x
    ensures y in Without(s, x)
  {
    WithoutCounts(s, x);
    assert y in multiset(s);
    assert y in multiset(Without(s, x));
  }

  lemma RoomsWithout(rooms: seq<ChatRoom>, alive: set<ChatRoom>, r: ChatRoom)
    requires RoomsListed(rooms, alive)
    ensures RoomsListed(Without(rooms, r), alive - {r})
  {
    var left := Without(rooms, r);
    WithoutCounts(rooms, r);
    forall q | q in left ensures q in rooms && q != r && multiset(left)[q] == 1 {
      assert q in multiset(left);
      assert q in multiset(rooms);
    }
    forall q | q in alive - {r} ensures q in left { WithoutSome(rooms, r, q); }
  }

  lemma RoomsAppended(rooms: seq<ChatRoom>, alive: set<ChatRoom>, r: ChatRoom)
    requires RoomsListed(rooms, alive) && r !in alive
    ensures RoomsListed(rooms + [r], alive + {r})
  {
    var rooms' := rooms + [r];
    assert multiset(rooms') == multiset(rooms) + multiset{r};
    forall q | q in rooms' ensures multiset(rooms')[q] == 1 {
      if q == r {
        assert r !in multiset(rooms);
      } else {
        assert q in rooms;
      }
    }
  }

  // ---- One operation ----

  lemma RemoveSound(h: Hall, acc: OnlineAccount)
    requires Sound(h) && Housed(h, acc)
    ensures Sound(Remove(h, acc))
    ensures Remove(h, acc).online == h.online && Remove(h, acc).at == h.at - {acc}
    ensures Remove(h, acc).unnamed == h.unnamed && Remove(h, acc).unplaced == h.unplaced
    ensures Remove(h, acc).room.Keys <= h.room.Keys
  {
    hide ListOk, NamesDistinct, RoomsListed;
    if acc in h.at {
      RemoveSoundRooms(h, acc);
      RemoveSoundLists(h, acc);
    } else {
      assert h.at - {acc} == h.at;
    }
  }

  lemma RemoveSoundRooms(h: Hall, acc: OnlineAccount)
    requires RoomsListed(h.rooms, h.room.Keys) && NamesDistinct(h) && acc in h.at && h.at[acc] in h.room
    ensures var h' := Remove(h, acc);
            RoomsListed(h'.rooms, h'.room.Keys) && h'.room.Keys <= h.room.Keys && NamesDistinct(h')
  {
    var r, h' := h.at[acc], Remove(h, acc);
    if Without(h.room[r].members, acc) == [] {
      RoomsWithout(h.rooms, h.room.Keys, r);
      assert h'.room.Keys == h.room.Keys - {r};
    } else {
      assert h'.room.Keys == h.room.Keys;
    }
  }

  lemma RemoveSoundLists(h: Hall, acc: OnlineAccount)
    requires acc in h.at && h.at[acc] in h.room && forall r :: r in h.room ==> ListOk(h.room[r].members, h.at, r)
    ensures var h' := Remove(h, acc); forall q :: q in h'.room ==> ListOk(h'.room[q].members, h'.at, q)
  {
    var r, h' := h.at[acc], Remove(h, acc);
    forall q | q in h'.room ensures ListOk(h'.room[q].members, h'.at, q) {
      assert ListOk(h.room[q].members, h.at, q);
      if q == r { ListWithout(h.room[r].members, h.at, r, acc); }
    }
  }

  lemma RemoveKeeps(h: Hall, acc: OnlineAccount)
    requires Sound(h) && Housed(h, acc)
    ensures Keeps(h, Remove(h, acc))
    ensures Remove(h, acc).online == h.online && Remove(h, acc).at == h.at - {acc}
    ensures Remove(h, acc).unnamed == h.unnamed && Remove(h, acc).unplaced == h.unplaced
    ensures Remove(h, acc).room.Keys <= h.room.Keys
  {
    hide Sound, Remove, PointsToList;
    RemoveSound(h, acc);
    if Invariant(h) { RemoveKeepsPointers(h, acc); }
  }

  lemma RemoveKeepsPointers(h: Hall, acc: OnlineAccount)
    requires Invariant(h)
    ensures var h' := Remove(h, acc); forall a :: a in h'.at ==> PointsToList(h', a)
  {
    hide ListOk, NamesDistinct, RoomsListed;
    var h' := Remove(h, acc);
    forall a | a in h'.at ensures PointsToList(h', a) {
      assert PointsToList(h, a);
      if acc in h.at {
        assert PointsToList(h, acc);
        if h.at[a] == h.at[acc] { WithoutSome(h.room[h.at[acc]].members, acc, a); }
      }
    }
  }

  lemma HalfwaySound(h: Hall, acc: OnlineAccount)
    requires Sound(h) && StopsHalfway(h, acc)
    ensures Sound(Depart(h, acc))
  {
    hide RoomsListed;
    var r, h' := h.at[acc], Depart(h, acc);
    assert h'.room.Keys == h.room.Keys;
    forall q | q in h'.room ensures ListOk(h'.room[q].members, h'.at, q) {
      assert ListOk(h.room[q].members, h.at, q);
      if q == r {
        ListWithout(h.room[r].members, h.at, r, acc);
        assert ListOk(h'.room[r].members, h.at - {acc}, r);
      }
    }
  }

  /**
   Leaving keeps the agreement if and only if it does not stop halfway: the name is text, or nobody stays.
   The lists are sound in any case.
   */
  lemma DepartKeepsIff(h: Hall, acc: OnlineAccount)
    requires Sound(h) && Housed(h, acc)
    ensures Sound(Depart(h, acc))
    ensures Invariant(h) ==> (Invariant(Depart(h, acc)) <==> !StopsHalfway(h, acc))
  {
    hide ListOk, NamesDistinct, RoomsListed, Remove;
    RemoveKeeps(h, acc);
    if StopsHalfway(h, acc) {
      HalfwaySound(h, acc);
      var r := Place(h, acc).value;
      WithoutCounts(h.room[r].members, acc);
      assert acc !in multiset(Depart(h, acc).room[r].members);
      assert !PointsToList(Depart(h, acc), acc);
    }
  }

  /** A room with a member besides the one who leaves stays, with its properties. */
  lemma RemoveSpares(h: Hall, acc: OnlineAccount, r: ChatRoom, a: OnlineAccount)
    requires r in h.room && a in h.room[r].members && a != acc
    ensures r in Remove(h, acc).room
    ensures Place(h, acc) != Some(r) ==> Remove(h, acc).room[r] == h.room[r]
  {
    if Place(h, acc) == Some(r) {
      WithoutSome(h.room[r].members, acc, a);
    }
  }

  /** New properties, and the same members in any order: the name must not clash. */
  lemma EditSound(h: Hall, r: ChatRoom, room: Room)
    requires Sound(h) && r in h.room && multiset(room.members) == multiset(h.room[r].members)
    requires forall q :: q in h.room && q != r ==> UpperTrim(h.room[q].name) != UpperTrim(room.name)
    ensures Sound(SetRoom(h, r, room))
  {
    hide ListOk;
    assert SetRoom(h, r, room).room.Keys == h.room.Keys;
    EditKeepsLists(h, r, room);
  }

  lemma EditKeeps(h: Hall, r: ChatRoom, room: Room)
    requires Sound(h) && r in h.room && multiset(room.members) == multiset(h.room[r].members)
    requires forall q :: q in h.room && q != r ==> UpperTrim(h.room[q].name) != UpperTrim(room.name)
    ensures Keeps(h, SetRoom(h, r, room))
  {
    hide ListOk, RoomsListed, PointsToList;
    EditSound(h, r, room);
    if Invariant(h) { EditKeepsPointers(h, r, room); }
  }

  lemma EditKeepsLists(h: Hall, r: ChatRoom, room: Room)
    requires forall q :: q in h.room ==> ListOk(h.room[q].members, h.at, q)
    requires r in h.room && multiset(room.members) == multiset(h.room[r].members)
    ensures var h' := SetRoom(h, r, room); forall q :: q in h'.room ==> ListOk(h'.room[q].members, h'.at, q)
  {
    hide ListOk;
    ListReordered(h.room[r].members, room.members, h.at, r);
  }

  lemma EditKeepsPointers(h: Hall, r: ChatRoom, room: Room)
    requires forall a :: a in h.at ==> PointsToList(h, a)
    requires r in h.room && multiset(room.members) == multiset(h.room[r].members)
    ensures var h' := SetRoom(h, r, room); forall a :: a in h'.at ==> PointsToList(h', a)
  {
    var h' := SetRoom(h, r, room);
    forall a | a in h'.at ensures PointsToList(h', a) {
      assert PointsToList(h, a);
      if h.at[a] == r {
        assert a in multiset(h.room[r].members);
        assert a in multiset(room.members);
      }
    }
  }

  /** The same, when the name stays. */
  lemma PropsKeep(h: Hall, r: ChatRoom, room: Room)
    requires Sound(h) && r in h.room && multiset(room.members) == multiset(h.room[r].members)
    requires room.name == h.room[r].name
    ensures Keeps(h, SetRoom(h, r, room))
  {
    EditKeeps(h, r, room);
  }

  lemma EnterSound(h: Hall, acc: OnlineAccount, r: ChatRoom)
    requires Sound(h) && r in h.room && acc in h.online && acc !in h.at && acc.environment == r.environment
    ensures Sound(Enter(h, acc, r))
  {
    hide ListOk;
    assert Enter(h, acc, r).room.Keys == h.room.Keys;
    EnterKeepsLists(h, acc, r);
  }

  lemma EnterKeeps(h: Hall, acc: OnlineAccount, r: ChatRoom)
    requires Sound(h) && r in h.room && acc in h.online && acc !in h.at && acc.environment == r.environment
    ensures Keeps(h, Enter(h, acc, r))
  {
    hide ListOk, RoomsListed, PointsToList;
    EnterSound(h, acc, r);
    if Invariant(h) { EnterKeepsPointers(h, acc, r); }
  }

  lemma EnterKeepsLists(h: Hall, acc: OnlineAccount, r: ChatRoom)
    requires forall q :: q in h.room ==> ListOk(h.room[q].members, h.at, q)
    requires r in h.room && acc !in h.at && acc.environment == r.environment
    ensures var h' := Enter(h, acc, r); forall q :: q in h'.room ==> ListOk(h'.room[q].members, h'.at, q)
  {
    var h' := Enter(h, acc, r);
    forall q | q in h'.room ensures ListOk(h'.room[q].members, h'.at, q) {
      assert ListOk(h.room[q].members, h.at, q);
    }
  }

  lemma EnterKeepsPointers(h: Hall, acc: OnlineAccount, r: ChatRoom)
    requires forall a :: a in h.at ==> PointsToList(h, a)
    requires r in h.room && acc in h.online
    ensures var h' := Enter(h, acc, r); forall a :: a in h'.at ==> PointsToList(h', a)
  {
    var h' := Enter(h, acc, r);
    forall a | a in h'.at ensures PointsToList(h', a) {
      assert a != acc ==> PointsToList(h, a);
    }
  }

  lemma OpenSound(h: Hall, acc: OnlineAccount, r: ChatRoom, room: Room)
    requires Sound(h) && r !in h.room && acc in h.online && acc !in h.at && acc.environment == r.environment
    requires !Taken(h, room.name)
    ensures Sound(Open(h, acc, r, room))
  {
    hide ListOk, RoomsListed;
    RoomsAppended(h.rooms, h.room.Keys, r);
    assert Open(h, acc, r, room).room.Keys == h.room.Keys + {r};
    OpenKeepsLists(h, acc, r, room);
  }

  lemma OpenKeeps(h: Hall, acc: OnlineAccount, r: ChatRoom, room: Room)
    requires Sound(h) && r !in h.room && acc in h.online && acc !in h.at && acc.environment == r.environment
    requires !Taken(h, room.name)
    ensures Keeps(h, Open(h, acc, r, room))
  {
    hide ListOk, PointsToList, RoomsListed;
    OpenSound(h, acc, r, room);
    if Invariant(h) { OpenKeepsPointers(h, acc, r, room); }
  }

  lemma OpenKeepsLists(h: Hall, acc: OnlineAccount, r: ChatRoom, room: Room)
    requires forall q :: q in h.room ==> ListOk(h.room[q].members, h.at, q)
    requires r !in h.room && acc !in h.at && acc.environment == r.environment
    ensures var h' := Open(h, acc, r, room); forall q :: q in h'.room ==> ListOk(h'.room[q].members, h'.at, q)
  {
    var h' := Open(h, acc, r, room);
    assert [] + [acc] == [acc];
    forall q | q in h'.room && q != r ensures ListOk(h'.room[q].members, h'.at, q) {
      assert ListOk(h.room[q].members, h.at, q);
    }
  }

  lemma OpenKeepsPointers(h: Hall, acc: OnlineAccount, r: ChatRoom, room: Room)
    requires forall a :: a in h.at ==> PointsToList(h, a)
    requires r !in h.room && acc in h.online
    ensures var h' := Open(h, acc, r, room); forall a :: a in h'.at ==> PointsToList(h', a)
  {
    var h' := Open(h, acc, r, room);
    forall a | a in h'.at ensures PointsToList(h', a) {
      assert a != acc ==> PointsToList(h, a);
    }
  }

  // ---- Names ----

  /**
   The check of an update's new name finds a clash exactly when another room has that name, although
   it is skipped for some names: those can only be the room's own.
   */
  lemma SkippedCheckIsHarmless(h: Hall, r: ChatRoom, newName: string)
    requires Sound(h) && r in h.room
    ensures Clashes(h, r, newName) <==>
            exists q :: q in h.room && q != r && UpperTrim(h.room[q].name) == UpperTrim(newName)
  {
    UpperTrimIdempotent(h.room[r].name);
  }

  /** At most one room answers to a name, so joining never has to choose. */
  lemma JoinFindsTheOnlyRoom(h: Hall, want: string, r: ChatRoom)
    requires Sound(h) && r in h.room && UpperTrim(h.room[r].name) == want
    ensures Named(h.rooms, h.room, want) == Some(r)
    ensures forall q :: q in h.room && UpperTrim(h.room[q].name) == want ==> q == r
  {
    var found := Named(h.rooms, h.room, want);
    assert found != None;
    assert found.value == r;
  }

  // ---- Every call ----

  /** The call takes its caller off a list and throws before it clears the pointer. */
  ghost predicate StopsAt(h: Hall, e: Event, cfg: Settings) {
    match e
    case Disconnect(acc) => acc in h.online && StopsHalfway(h, acc)
    case Leave(acc) => acc in h.online && StopsHalfway(h, acc)
    case Creates(acc, form, _) => CreateReply(h, acc, form, cfg) == NoReply && StopsHalfway(h, acc)
    case Joins(acc, name) => JoinStops(h, acc, name)
    case _ => false
  }

  lemma CreateKeeps(h: Hall, acc: OnlineAccount, f: RoomForm, cfg: Settings, r: ChatRoom)
    requires Sound(h) && Enabled(h, Creates(acc, f, r))
    ensures Sound(Create(h, acc, f, cfg, r))
    ensures Invariant(h) ==> (Invariant(Create(h, acc, f, cfg, r)) <==> !StopsAt(h, Creates(acc, f, r), cfg))
  {
    hide Sound, PointsToList, Open, Depart, StopsHalfway;
    DepartKeepsIff(h, acc);
    if CreateReply(h, acc, f, cfg) == ChatRoomCreated {
      RemoveKeeps(h, acc);
      var h', room := Remove(h, acc), FormRoom(acc, f, cfg);
      forall q | q in h'.room ensures UpperTrim(h'.room[q].name) != UpperTrim(room.name) {
        assert h'.room[q].name == h.room[q].name;
      }
      OpenKeeps(h', acc, r, room);
    }
  }

  /** A member who leaves for another room does not take that room with them. */
  lemma JoinedRoomSurvives(h: Hall, acc: OnlineAccount, r: ChatRoom)
    requires Sound(h) && r in h.room && Place(h, acc) != Some(r)
    ensures r in Remove(h, acc).room && Remove(h, acc).room[r] == h.room[r]
  {
    assert ListOk(h.room[r].members, h.at, r);
    RemoveSpares(h, acc, r, h.room[r].members[0]);
  }

  lemma JoinKeeps(h: Hall, acc: OnlineAccount, name: string)
    requires Sound(h) && Housed(h, acc)
    ensures Sound(Join(h, acc, name))
    ensures Invariant(h) ==> (Invariant(Join(h, acc, name)) <==> !JoinStops(h, acc, name))
  {
    hide Sound, PointsToList, Depart, StopsHalfway;
    DepartKeepsIff(h, acc);
    if JoinReply(h, acc, name) == JoinedRoom {
      var r := Named(h.rooms, h.room, UpperTrim(name)).value;
      JoinedRoomSurvives(h, acc, r);
      RemoveKeeps(h, acc);
      EnterKeeps(Remove(h, acc), acc, r);
    }
  }

  lemma ListedHoused(h: Hall, r: ChatRoom, a: OnlineAccount)
    requires Sound(h) && r in h.room && a in h.room[r].members
    ensures Housed(h, a) && Place(h, a) == Some(r)
  {
    assert ListOk(h.room[r].members, h.at, r);
  }

  lemma MemberActionKeeps(h: Hall, acc: OnlineAccount, r: ChatRoom, i: nat, action: Action)
    requires Sound(h) && r in h.room && i < |h.room[r].members|
    ensures Keeps(h, OnMember(h, acc, r, i, action))
  {
    hide Sound, PointsToList, Remove, SetRoom, Relisted, Shuffled;
    var members := h.room[r].members;
    ListedHoused(h, r, members[i]);
    match action
    case Ban => BanKeeps(h, r, members[i]);
    case Kick => RemoveKeeps(h, members[i]);
    case MoveLeft => if i > 0 { PropsKeep(h, r, h.room[r].(members := Swapped(members, i, i - 1))); }
    case MoveRight => if i + 1 < |members| { PropsKeep(h, r, h.room[r].(members := Swapped(members, i, i + 1))); }
    case Shuffle(draws) => PropsKeep(h, r, h.room[r].(members := Shuffled(members, draws, 1)));
    case _ => RelistedKeeps(h, r, members[i].member, action);
  }

  lemma BanKeeps(h: Hall, r: ChatRoom, target: OnlineAccount)
    requires Sound(h) && r in h.room && Housed(h, target)
    ensures var banned := SetRoom(h, r, h.room[r].(ban := h.room[r].ban + [target.member]));
            Keeps(h, banned) && Keeps(h, Remove(banned, target))
  {
    var banned := h.room[r].(ban := h.room[r].ban + [target.member]);
    PropsKeep(h, r, banned);
    RemoveKeeps(SetRoom(h, r, banned), target);
  }

  lemma RelistedKeeps(h: Hall, r: ChatRoom, target: int, action: Action)
    requires Sound(h) && r in h.room
    ensures Keeps(h, Relisted(h, r, target, action))
  {
    hide Sound, PointsToList, Without;
    var room := h.room[r];
    match action
    case Promote => PropsKeep(h, r, room.(admin := room.admin + [target]));
    case Demote => PropsKeep(h, r, room.(admin := Without(room.admin, target)));
    case Whitelist => PropsKeep(h, r, room.(whitelist := room.whitelist + [target]));
    case Unwhitelist => PropsKeep(h, r, room.(whitelist := Without(room.whitelist, target)));
    case _ =>
  }

  lemma AbsentActionKeeps(h: Hall, r: ChatRoom, target: int, action: Action)
    requires Sound(h) && r in h.room
    ensures Keeps(h, OnAbsent(h, r, target, action))
  {
    hide Sound, PointsToList, Without;
    var room := h.room[r];
    match action
    case Ban => PropsKeep(h, r, room.(ban := room.ban + [target]));
    case Unban => PropsKeep(h, r, room.(ban := Without(room.ban, target)));
    case Whitelist => PropsKeep(h, r, room.(whitelist := room.whitelist + [target]));
    case Unwhitelist => PropsKeep(h, r, room.(whitelist := Without(room.whitelist, target)));
    case _ =>
  }

  lemma AdminKeeps(h: Hall, acc: OnlineAccount, target: int, action: Action, cfg: Settings)
    requires Sound(h)
    ensures Keeps(h, Admin(h, acc, target, action, cfg))
  {
    if MayAct(h, acc, target, action) {
      var r := Place(h, acc).value;
      var room := h.room[r];
      if action.Update? {
        if UpdateReply(h, r, action.form, cfg) == Updated {
          SkippedCheckIsHarmless(h, r, Trim(action.form.value.name.value));
          EditKeeps(h, r, Refit(room, action.form.value, cfg));
        }
      } else if IsSwap(action) {
        PropsKeep(h, r, room.(members := SwapMembers(room.members, action.first.value, action.second.value)));
      } else {
        match FirstMember(room.members, target)
        case Some(i) => MemberActionKeeps(h, acc, r, i, action);
        case None => AbsentActionKeeps(h, r, target, action);
      }
    }
  }

  /** Every call keeps the agreement if and only if it does not stop halfway, and the lists sound in any case. */
  lemma StepKeepsInvariant(h: Hall, e: Event, cfg: Settings)
    requires Sound(h) && Enabled(h, e)
    ensures Sound(Step(h, e, cfg))
    ensures Invariant(h) ==> (Invariant(Step(h, e, cfg)) <==> !StopsAt(h, e, cfg))
  {
    hide Sound, PointsToList, StopsHalfway, Depart, Create, Join, Admin, CreateReply;
    match e
    case SignIn(acc, unread) => SignInKeeps(h, acc, unread);
    case Spoil(acc, fields) => SpoilKeeps(h, acc, fields);
    case Disconnect(acc) =>
      DepartKeepsIff(h, acc);
      if acc in h.online && !StopsHalfway(h, acc) { DisconnectKeeps(h, acc); }
    case Leave(acc) => DepartKeepsIff(h, acc);
    case Creates(acc, form, r) => CreateKeeps(h, acc, form, cfg, r);
    case Joins(acc, name) => JoinKeeps(h, acc, name);
    case Admins(acc, target, action) => AdminKeeps(h, acc, target, action, cfg);
  }

  lemma SignInKeeps(h: Hall, acc: OnlineAccount, unread: set<string>)
    requires Sound(h)
    ensures Keeps(h, Spoilt(h.(online := h.online + {acc}), acc, unread))
  {
    if Invariant(h) {
      var h' := Spoilt(h.(online := h.online + {acc}), acc, unread);
      forall a | a in h'.at ensures PointsToList(h', a) { assert PointsToList(h, a); }
    }
  }

  lemma SpoilKeeps(h: Hall, acc: OnlineAccount, fields: set<string>)
    requires Sound(h)
    ensures Keeps(h, Spoilt(h, acc, fields))
  {
    if Invariant(h) {
      var h' := Spoilt(h, acc, fields);
      forall a | a in h'.at ensures PointsToList(h', a) { assert PointsToList(h, a); }
    }
  }

  lemma DisconnectKeeps(h: Hall, acc: OnlineAccount)
    requires Sound(h) && Housed(h, acc)
    ensures Keeps(h, SignedOut(Remove(h, acc), acc))
  {
    hide ListOk, RoomsListed, Remove;
    RemoveKeeps(h, acc);
    var mid, h' := Remove(h, acc), SignedOut(Remove(h, acc), acc);
    if Invariant(h) {
      forall a | a in h'.at ensures PointsToList(h', a) { assert PointsToList(mid, a); }
    }
  }

  // ---- Whole runs ----

  /**
   Every room is in order once and is not empty; whoever it lists is online, is listed once and points back
   to it, so no second room lists them; and names are pairwise distinct.
   */
  ghost predicate ListsAgree(h: Hall) {
    && (forall r :: r in h.rooms ==>
         && multiset(h.rooms)[r] == 1 && r in h.room && h.room[r].members != []
         && forall a :: a in h.room[r].members ==>
              a in h.online && multiset(h.room[r].members)[a] == 1 && a in h.at && h.at[a] == r)
    && NamesDistinct(h)
  }

  /** And an account points to a room only when that room is alive and lists it. */
  ghost predicate Agrees(h: Hall) {
    && ListsAgree(h)
    && forall a :: a in h.at ==> h.at[a] in h.rooms && h.at[a] in h.room && a in h.room[h.at[a]].members
  }

  lemma SoundListsAgree(h: Hall)
    requires Sound(h)
    ensures ListsAgree(h)
  {
    forall r | r in h.rooms ensures r in h.room && ListOk(h.room[r].members, h.at, r) {}
  }

  lemma InvariantAgrees(h: Hall)
    requires Invariant(h)
    ensures Agrees(h)
  {
    SoundListsAgree(h);
    forall a | a in h.at ensures h.at[a] in h.rooms && a in h.room[h.at[a]].members {
      assert PointsToList(h, a);
    }
  }

  /** The lists agree in every state of every run, calls that stop halfway included. */
  lemma ListsAlwaysAgree(halls: seq<Hall>, events: seq<Event>, cfgs: seq<Settings>, i: nat)
    requires IsRun(halls, events, cfgs) && i <= |events|
    ensures ListsAgree(halls[i])
  {
    RunStaysSound(halls, events, cfgs, i);
    SoundListsAgree(halls[i]);
  }

  lemma {:induction false} RunStaysSound(halls: seq<Hall>, events: seq<Event>, cfgs: seq<Settings>, i: nat)
    requires IsRun(halls, events, cfgs) && i <= |events|
    ensures Sound(halls[i])
  {
    hide Step;
    if i > 0 {
      RunStaysSound(halls, events, cfgs, i - 1);
      StepKeepsInvariant(halls[i - 1], events[i - 1], cfgs[i - 1]);
    }
  }

  /** A call that stops halfway leaves its caller pointing to a room that does not list it. */
  lemma HalfwayDisagrees(h: Hall, e: Event, cfg: Settings)
    requires Invariant(h) && Enabled(h, e) && StopsAt(h, e, cfg)
    ensures !Agrees(Step(h, e, cfg))
  {
    var r := Place(h, e.acc).value;
    assert Step(h, e, cfg) == Depart(h, e.acc);
    WithoutCounts(h.room[r].members, e.acc);
    assert Depart(h, e.acc).at[e.acc] == r;
  }

  /** Up to the first call that stops halfway, every state of a run keeps the invariant. */
  lemma {:induction false} RunKeepsInvariant(halls: seq<Hall>, events: seq<Event>, cfgs: seq<Settings>, i: nat)
    requires IsRun(halls, events, cfgs) && i <= |events|
    requires forall j :: 0 <= j < i ==> !StopsAt(halls[j], events[j], cfgs[j])
    ensures Invariant(halls[i])
  {
    if i > 0 {
      RunKeepsInvariant(halls, events, cfgs, i - 1);
      StepKeepsInvariant(halls[i - 1], events[i - 1], cfgs[i - 1]);
    }
  }

  lemma {:induction false} FirstStop(halls: seq<Hall>, events: seq<Event>, cfgs: seq<Settings>, i: nat) returns (j: nat)
    requires |halls| > |events| == |cfgs| && i < |events| && StopsAt(halls[i], events[i], cfgs[i])
    ensures j <= i && StopsAt(halls[j], events[j], cfgs[j])
    ensures forall k :: 0 <= k < j ==> !StopsAt(halls[k], events[k], cfgs[k])
  {
    hide StopsAt;
    j := i;
    if k :| 0 <= k < i && StopsAt(halls[k], events[k], cfgs[k]) {
      j := FirstStop(halls, events, cfgs, k);
    }
  }

  /** Pointers and lists agree in all states of a run if and only if none of its calls stops halfway. */
  lemma MembershipAgrees(halls: seq<Hall>, events: seq<Event>, cfgs: seq<Settings>, n: nat)
    requires IsRun(halls, events, cfgs) && n <= |events|
    ensures (forall i :: 0 <= i <= n ==> Agrees(halls[i])) <==>
            forall i :: 0 <= i < n ==> !StopsAt(halls[i], events[i], cfgs[i])
  {
    hide Agrees, StopsAt, Invariant, Step, Enabled;
    if i :| 0 <= i < n && StopsAt(halls[i], events[i], cfgs[i]) {
      var j := FirstStop(halls, events, cfgs, i);
      RunKeepsInvariant(halls, events, cfgs, j);
      HalfwayDisagrees(halls[j], events[j], cfgs[j]);
      assert halls[j + 1] == Step(halls[j], events[j], cfgs[j]);
    } else {
      forall i | 0 <= i <= n ensures Agrees(halls[i]) {
        RunKeepsInvariant(halls, events, cfgs, i);
        InvariantAgrees(halls[i]);
      }
    }
  }

  // ---- A pointer that outlives its room ----

  /** Two accounts in one room; the name of the first is spoilt, and both leave. */
  function GhostEvents(a: OnlineAccount, c: OnlineAccount, form: RoomForm, r: ChatRoom, name: string): seq<Event> {
    [SignIn(a, {}), SignIn(c, {}), Creates(a, form, r), Joins(c, name), Spoil(a, {NAME}), Leave(a), Leave(c)]
  }

  function GhostHalls(a: OnlineAccount, c: OnlineAccount, room: Room, r: ChatRoom): seq<Hall> {
    var full := Hall({a, c}, [r], map[r := room.(members := [a, c])], map[a := r, c := r], {}, {});
    [ EMPTY_HALL, EMPTY_HALL.(online := {a}), EMPTY_HALL.(online := {a, c}),
      full.(room := map[r := room.(members := [a])], at := map[a := r]),
      full, full.(unnamed := {a}),
      full.(unnamed := {a}, room := map[r := room.(members := [c])]),
      full.(unnamed := {a}, rooms := [], room := map[], at := map[a := r]) ]
  }

  /** The room of this form takes in a second account of its environment. */
  predicate Welcoming(form: RoomForm, cfg: Settings) {
    CreateFormOk(form, cfg) && form.ban == None && ALL in AccessOf(form, OPEN) && LimitOf(form, cfg) >= 2
  }

  /** Then the first account is left pointing to a room that is gone. */
  lemma GhostPointer(a: OnlineAccount, c: OnlineAccount, form: RoomForm, r: ChatRoom, cfg: Settings)
    requires a != c && a.environment == c.environment == r.environment && Welcoming(form, cfg)
    ensures exists halls: seq<Hall> ::
              && IsRun(halls, GhostEvents(a, c, form, r, form.name.value), seq(7, _ => cfg))
              && a in halls[7].at && halls[7].at[a] == r && r !in halls[7].room
  {
    hide GhostHalls, GhostEvents, Step, Enabled;
    var events, cfgs := GhostEvents(a, c, form, r, form.name.value), seq(7, _ => cfg);
    var halls := GhostHalls(a, c, FormRoom(a, form, cfg), r);
    GhostArrivals(a, c, form, r, cfg);
    GhostCreates(a, c, form, r, cfg);
    GhostJoins(a, c, form, r, cfg);
    GhostLeaves(a, c, form, r, cfg);
    GhostEnd(a, c, form, r, cfg);
    forall i | 0 <= i < 7 ensures Enabled(halls[i], events[i]) && halls[i + 1] == Step(halls[i], events[i], cfgs[i]) {
      assert i == 0 || i == 1 || i == 2 || i == 3 || i >= 4;
    }
    assert IsRun(halls, events, cfgs);
  }

  lemma GhostEnd(a: OnlineAccount, c: OnlineAccount, form: RoomForm, r: ChatRoom, cfg: Settings)
    requires a != c && Welcoming(form, cfg)
    ensures var halls, events := GhostHalls(a, c, FormRoom(a, form, cfg), r), GhostEvents(a, c, form, r, form.name.value);
            && |halls| == 8 && |events| == 7 && halls[0] == EMPTY_HALL
            && a in halls[7].at && halls[7].at[a] == r && r !in halls[7].room
  {}

  lemma GhostArrivals(a: OnlineAccount, c: OnlineAccount, form: RoomForm, r: ChatRoom, cfg: Settings)
    requires a != c && Welcoming(form, cfg)
    ensures var halls, events := GhostHalls(a, c, FormRoom(a, form, cfg), r), GhostEvents(a, c, form, r, form.name.value);
            && Enabled(halls[0], events[0]) && halls[1] == Step(halls[0], events[0], cfg)
            && Enabled(halls[1], events[1]) && halls[2] == Step(halls[1], events[1], cfg)
  {}

  lemma GhostCreates(a: OnlineAccount, c: OnlineAccount, form: RoomForm, r: ChatRoom, cfg: Settings)
    requires a != c && a.environment == r.environment && Welcoming(form, cfg)
    ensures var halls, events := GhostHalls(a, c, FormRoom(a, form, cfg), r), GhostEvents(a, c, form, r, form.name.value);
            Enabled(halls[2], events[2]) && halls[3] == Step(halls[2], events[2], cfg)
  {
    var h := EMPTY_HALL.(online := {a, c});
    assert !Taken(h, Trim(form.name.value));
    assert CreateReply(h, a, form, cfg) == ChatRoomCreated;
    assert Remove(h, a) == h && [] + [r] == [r];
  }

  lemma GhostJoins(a: OnlineAccount, c: OnlineAccount, form: RoomForm, r: ChatRoom, cfg: Settings)
    requires a != c && a.environment == c.environment == r.environment && Welcoming(form, cfg)
    ensures var halls, events := GhostHalls(a, c, FormRoom(a, form, cfg), r), GhostEvents(a, c, form, r, form.name.value);
            Enabled(halls[3], events[3]) && halls[4] == Step(halls[3], events[3], cfg)
  {
    var h, name := GhostHalls(a, c, FormRoom(a, form, cfg), r)[3], form.name.value;
    UpperTrimIdempotent(name);
    assert Named(h.rooms, h.room, UpperTrim(name)) == Some(r);
    assert name != "";
    assert Admission(h, c, r) == JoinedRoom;
    assert Remove(h, c) == h && [a] + [c] == [a, c];
  }

  lemma GhostLeaves(a: OnlineAccount, c: OnlineAccount, form: RoomForm, r: ChatRoom, cfg: Settings)
    requires a != c && Welcoming(form, cfg)
    ensures var halls, events := GhostHalls(a, c, FormRoom(a, form, cfg), r), GhostEvents(a, c, form, r, form.name.value);
            forall i :: 4 <= i < 7 ==> Enabled(halls[i], events[i]) && halls[i + 1] == Step(halls[i], events[i], cfg)
  {
    var halls := GhostHalls(a, c, FormRoom(a, form, cfg), r);
    LeavingTwo(a, c);
    assert halls[5] == Spoilt(halls[4], a, {NAME});
    assert halls[6] == Depart(halls[5], a);
    assert Without([r], r) == [];
    assert halls[7] == Depart(halls[6], c);
  }

  lemma LeavingTwo(a: OnlineAccount, c: OnlineAccount)
    requires a != c
    ensures Without([a, c], a) == [c] && Without([c], c) == []
  {
    var one := [c];
    assert [a, c][1..] == one && one[1..] == [];
    assert Without(one, c) == Without(one[1..], c);
    assert Without(one, a) == [c] + Without(one[1..], a);
  }

  // ---- Single calls, on any reachable state ----

  /** Only the order of some members differs. */
  ghost predicate SameButOrder(h: Hall, h': Hall) {
    && h'.online == h.online && h'.at == h.at && h'.rooms == h.rooms && h'.room.Keys == h.room.Keys
    && forall r :: r in h.room ==>
         && multiset(h'.room[r].members) == multiset(h.room[r].members)
         && h'.room[r] == h.room[r].(members := h'.room[r].members)
  }

  lemma OrderEdited(h: Hall, r: ChatRoom, members: seq<OnlineAccount>)
    requires r in h.room && multiset(members) == multiset(h.room[r].members)
    ensures SameButOrder(h, SetRoom(h, r, h.room[r].(members := members)))
  {}

  lemma NothingMoved(h: Hall)
    ensures SameButOrder(h, h)
  {}

  /** Swapping, moving and shuffling keep every room's members and properties, and move nobody. */
  lemma ReorderKeepsMembers(h: Hall, acc: OnlineAccount, target: int, action: Action, cfg: Settings)
    requires IsReorder(action) || action.Shuffle?
    ensures SameButOrder(h, Admin(h, acc, target, action, cfg))
  {
    hide SameButOrder, SetRoom, SwapMembers, Shuffled, Swapped, FirstMember;
    NothingMoved(h);
    if MayAct(h, acc, target, action) {
      var r := Place(h, acc).value;
      var members := h.room[r].members;
      if IsSwap(action) {
        OrderEdited(h, r, SwapMembers(members, action.first.value, action.second.value));
      } else if FirstMember(members, target).Some? {
        var i := FirstMember(members, target).value;
        if action.MoveLeft? && i > 0 {
          OrderEdited(h, r, Swapped(members, i, i - 1));
        } else if action.MoveRight? && i + 1 < |members| {
          OrderEdited(h, r, Swapped(members, i, i + 1));
        } else if action.Shuffle? {
          OrderEdited(h, r, Shuffled(members, action.draws, 1));
        }
      }
    }
  }

  function IfNamed(h: Hall, acc: OnlineAccount, target: OnlineAccount): Option<OnlineAccount> {
    if CanName(h, acc, target) then Some(target) else None
  }

  /** The account a call removes from its room against its will: both names must be text. */
  function Expelled(h: Hall, e: Event): Option<OnlineAccount> {
    if e.Admins? && (e.action.Kick? || e.action.Ban?) && MayAct(h, e.acc, e.target, e.action) then
      match FirstMember(h.room[Place(h, e.acc).value].members, e.target)
      case Some(i) => IfNamed(h, e.acc, h.room[Place(h, e.acc).value].members[i])
      case None => None
    else None
  }

  /** The room that an account's leaving it would end: it lists nobody else. */
  function Ending(h: Hall, acc: OnlineAccount): Option<ChatRoom> {
    match Place(h, acc)
    case None => None
    case Some(r) => if Without(h.room[r].members, acc) == [] then Some(r) else None
  }

  /** Where an account is after another, or itself, has left its room: nowhere, if that room has ended. */
  function PlaceAfter(h: Hall, acc: OnlineAccount, a: OnlineAccount): Option<ChatRoom> {
    if a == acc || Place(h, a) == Ending(h, acc) then None else Place(h, a)
  }

  /**
   An administrator stays in their room, which the handler goes on using, if and only if the call does not
   expel the last one the room lists. An administrator the room lists is not so easily lost.
   */
  lemma AdminStays(h: Hall, acc: OnlineAccount, target: int, action: Action, cfg: Settings)
    requires Sound(h) && MayAct(h, acc, target, action)
    ensures var r, out := Place(h, acc).value, Expelled(h, Admins(acc, target, action));
            && (Place(Admin(h, acc, target, action, cfg), acc) == Some(r) <==> !(out.Some? && Ending(h, out.value) == Some(r)))
            && (acc in h.room[r].members ==> Place(Admin(h, acc, target, action, cfg), acc) == Some(r))
  {
    hide Sound, Expelled, Admin;
    AdminMoves(h, acc, target, action, cfg, acc);
    if acc in h.room[Place(h, acc).value].members { ListedStays(h, acc, target, action); }
  }

  lemma ListedStays(h: Hall, acc: OnlineAccount, target: int, action: Action)
    requires Sound(h) && MayAct(h, acc, target, action) && acc in h.room[Place(h, acc).value].members
    ensures var out := Expelled(h, Admins(acc, target, action));
            out.Some? ==> out.value != acc && Ending(h, out.value) == None
  {
    var out := Expelled(h, Admins(acc, target, action));
    if out.Some? {
      ListedHoused(h, Place(h, acc).value, out.value);
      WithoutSome(h.room[Place(h, acc).value].members, out.value, acc);
    }
  }

  /** Who leaves a room in a call: the caller, or the one expelled. */
  ghost function Leaver(h: Hall, e: Event, cfg: Settings): Option<OnlineAccount> {
    match e
    case Disconnect(acc) => if acc in h.online then Some(acc) else None
    case Leave(acc) => if acc in h.online then Some(acc) else None
    case Creates(acc, form, _) => if CreateReply(h, acc, form, cfg) in {ChatRoomCreated, NoReply} then Some(acc) else None
    case Joins(acc, name) => if JoinReply(h, acc, name) == JoinedRoom || JoinStops(h, acc, name) then Some(acc) else None
    case Admins(_, _, _) => Expelled(h, e)
    case _ => None
  }

  /**
   Nobody changes rooms but the caller, except one expelled by an administrator of that same room, and
   except those who still point to a room that the call ends.
   */
  lemma OnlyCallerMoves(h: Hall, e: Event, cfg: Settings, a: OnlineAccount)
    requires Sound(h) && Enabled(h, e)
    ensures (a != e.acc || e.Admins?) && Expelled(h, e) != Some(a) ==>
              Place(Step(h, e, cfg), a) ==
              match Leaver(h, e, cfg) { case None => Place(h, a) case Some(x) => PlaceAfter(h, x, a) }
    ensures Expelled(h, e) == Some(a) ==>
              && Place(Step(h, e, cfg), a) == None
              && a != e.acc && Place(h, a) == Place(h, e.acc)
              && e.acc.member in h.room[Place(h, e.acc).value].admin
  {
    hide Sound, Remove, Create, Join, Admin, Place, Depart, CreateReply, JoinReply, JoinStops;
    match e
    case SignIn(acc, unread) => SignInMoves(h, acc, unread, a);
    case Spoil(acc, fields) => SignInMoves(h, acc, fields, a);
    case Disconnect(acc) =>
      DepartMoves(h, acc, a);
      if !StopsHalfway(h, acc) && a != acc { DisconnectMoves(h, acc, a); }
    case Leave(acc) => DepartMoves(h, acc, a);
    case Creates(acc, form, r) => if a != acc { CreateMoves(h, acc, form, cfg, r, a); }
    case Joins(acc, name) => if a != acc { JoinMoves(h, acc, name, a); }
    case Admins(acc, target, action) => AdminMoves(h, acc, target, action, cfg, a);
  }

  lemma SignInMoves(h: Hall, acc: OnlineAccount, unread: set<string>, a: OnlineAccount)
    ensures Place(Spoilt(h.(online := h.online + {acc}), acc, unread), a) == Place(h, a) == Place(Spoilt(h, acc, unread), a)
  {}

  lemma DisconnectMoves(h: Hall, acc: OnlineAccount, a: OnlineAccount)
    requires !StopsHalfway(h, acc) && a != acc
    ensures Place(SignedOut(Remove(h, acc), acc), a) == PlaceAfter(h, acc, a)
  {
    hide Remove;
    RemoveMoves(h, acc, a);
  }

  lemma CreateMoves(h: Hall, acc: OnlineAccount, f: RoomForm, cfg: Settings, r: ChatRoom, a: OnlineAccount)
    requires Enabled(h, Creates(acc, f, r)) && a != acc
    ensures Place(Create(h, acc, f, cfg, r), a) ==
            if CreateReply(h, acc, f, cfg) in {ChatRoomCreated, NoReply} then PlaceAfter(h, acc, a) else Place(h, a)
  {
    hide Taken, FormRoom, Depart, CreateReply, PlaceAfter;
    RemoveMoves(h, acc, a);
    DepartMoves(h, acc, a);
  }

  lemma JoinMoves(h: Hall, acc: OnlineAccount, name: string, a: OnlineAccount)
    requires Sound(h) && a != acc
    ensures Place(Join(h, acc, name), a) ==
            if JoinReply(h, acc, name) == JoinedRoom || JoinStops(h, acc, name) then PlaceAfter(h, acc, a) else Place(h, a)
  {
    hide Depart, StopsHalfway, PlaceAfter, Sound;
    RemoveMoves(h, acc, a);
    DepartMoves(h, acc, a);
    if JoinReply(h, acc, name) == JoinedRoom {
      JoinedRoomSurvives(h, acc, Named(h.rooms, h.room, UpperTrim(name)).value);
    }
  }

  /** Leaving moves the one who leaves, and whoever points to the room that ends; if it stops halfway, nobody. */
  lemma DepartMoves(h: Hall, acc: OnlineAccount, a: OnlineAccount)
    ensures Place(Depart(h, acc), a) == if a == acc && StopsHalfway(h, acc) then Place(h, a) else PlaceAfter(h, acc, a)
  {
    hide Remove;
    RemoveMoves(h, acc, a);
  }

  lemma RemoveMoves(h: Hall, acc: OnlineAccount, a: OnlineAccount)
    ensures Place(Remove(h, acc), a) == PlaceAfter(h, acc, a)
  {}

  lemma AdminMoves(h: Hall, acc: OnlineAccount, target: int, action: Action, cfg: Settings, a: OnlineAccount)
    requires Sound(h)
    ensures var out := Expelled(h, Admins(acc, target, action));
            && Place(Admin(h, acc, target, action, cfg), a) ==
               (match out { case None => Place(h, a) case Some(x) => PlaceAfter(h, x, a) })
            && (out.Some? ==> out.value != acc && Place(h, out.value) == Place(h, acc))
  {
    hide Sound, OnMember, OnAbsent, Remove, FirstMember, UpdateReply, SwapMembers, Refit, PlaceAfter;
    if MayAct(h, acc, target, action) {
      var r := Place(h, acc).value;
      if action.Update? || IsSwap(action) || FirstMember(h.room[r].members, target) == None {
        PropsMove(h, acc, target, action, cfg, a);
      } else {
        MemberMoves(h, acc, r, FirstMember(h.room[r].members, target).value, action, a);
      }
    }
  }

  lemma PropsMove(h: Hall, acc: OnlineAccount, target: int, action: Action, cfg: Settings, a: OnlineAccount)
    requires MayAct(h, acc, target, action)
    requires action.Update? || IsSwap(action) || FirstMember(h.room[Place(h, acc).value].members, target) == None
    ensures Place(Admin(h, acc, target, action, cfg), a) == Place(h, a)
  {}

  lemma MemberMoves(h: Hall, acc: OnlineAccount, r: ChatRoom, i: nat, action: Action, a: OnlineAccount)
    requires Sound(h) && r in h.room && i < |h.room[r].members|
    ensures var target := h.room[r].members[i];
            && Place(h, target) == Some(r)
            && Place(OnMember(h, acc, r, i, action), a) ==
               if (action.Ban? || action.Kick?) && CanName(h, acc, target) then PlaceAfter(h, target, a) else Place(h, a)
  {
    hide Sound, PlaceAfter, Remove;
    var target := h.room[r].members[i];
    ListedHoused(h, r, target);
    if action.Ban? {
      BanMoves(h, r, target, a);
    } else if action.Kick? {
      RemoveMoves(h, target, a);
    } else {
      RearrangeMoves(h, acc, r, i, action, a);
    }
  }

  lemma RearrangeMoves(h: Hall, acc: OnlineAccount, r: ChatRoom, i: nat, action: Action, a: OnlineAccount)
    requires r in h.room && i < |h.room[r].members| && !action.Ban? && !action.Kick?
    ensures Place(OnMember(h, acc, r, i, action), a) == Place(h, a)
  {}

  lemma BanMoves(h: Hall, r: ChatRoom, target: OnlineAccount, a: OnlineAccount)
    requires r in h.room
    ensures var banned := SetRoom(h, r, h.room[r].(ban := h.room[r].ban + [target.member]));
            Place(Remove(banned, target), a) == PlaceAfter(h, target, a) && Place(banned, a) == Place(h, a)
  {
    hide Remove;
    RemoveMoves(SetRoom(h, r, h.room[r].(ban := h.room[r].ban + [target.member])), target, a);
  }

  /**
   A successful join appends the caller to the one room of that name, within its limit; one that cannot
   leave its old room properly gets no further.
   */
  lemma JoinAppends(h: Hall, acc: OnlineAccount, name: string, r: ChatRoom)
    requires Sound(h) && r in h.room && UpperTrim(h.room[r].name) == UpperTrim(name)
    requires name != "" && acc in h.online
    ensures JoinReply(h, acc, name) ==
            if Admission(h, acc, r) == JoinedRoom && StopsHalfway(h, acc) then NoReply else Admission(h, acc, r)
    ensures var h' := Join(h, acc, name);
            if JoinReply(h, acc, name) == JoinedRoom then
              && r in h'.room && h'.room[r].members == h.room[r].members + [acc] && Place(h', acc) == Some(r)
              && |h'.room[r].members| <= h'.room[r].limit && acc.member !in h'.room[r].ban
              && HasAnyRole(acc.member, h'.room[r], h'.room[r].access)
            else if Admission(h, acc, r) == JoinedRoom then h' == Depart(h, acc)
            else h' == h
  {
    JoinFindsTheOnlyRoom(h, UpperTrim(name), r);
    if Admission(h, acc, r) == JoinedRoom {
      JoinedRoomSurvives(h, acc, r);
    }
  }

  // ---- What one call does to the next ----

  /** Once banned, and put out if present, an account is not let in again, while the room lasts. */
  lemma BannedIsKeptOut(h: Hall, acc: OnlineAccount, target: int, cfg: Settings, a: OnlineAccount)
    requires Sound(h) && MayAct(h, acc, target, Ban) && a.member == target
    ensures var r, h' := Place(h, acc).value, Admin(h, acc, target, Ban, cfg);
            && (r in h'.room ==> target in h'.room[r].ban && Admission(h', a, r) != JoinedRoom)
            && (acc in h.room[r].members ==> r in h'.room)
  {
    hide Sound, FirstMember, Expelled;
    var r := Place(h, acc).value;
    AdminStays(h, acc, target, Ban, cfg);
    match FirstMember(h.room[r].members, target)
    case Some(i) =>
    case None =>
  }

  lemma {:induction false} WithoutAppended(s: seq<int>, x: int)
    requires x !in s
    ensures Without(s + [x], x) == s
  {
    if s == [] {
      assert s + [x] == [x];
    } else {
      assert (s + [x])[1..] == s[1..] + [x];
      WithoutAppended(s[1..], x);
      assert [s[0]] + s[1..] == s;
    }
  }

  /** Lifting a ban of someone absent, and demoting someone promoted, give the hall back as it was. */
  lemma UnbanUndoesBan(h: Hall, acc: OnlineAccount, target: int, cfg: Settings)
    requires MayAct(h, acc, target, Ban)
    requires var room := h.room[Place(h, acc).value]; FirstMember(room.members, target) == None && target !in room.ban
    ensures Admin(Admin(h, acc, target, Ban, cfg), acc, target, Unban, cfg) == h
  {
    hide Without;
    var r := Place(h, acc).value;
    var room := h.room[r];
    WithoutAppended(room.ban, target);
  }

  lemma DemoteUndoesPromote(h: Hall, acc: OnlineAccount, target: int, cfg: Settings)
    requires MayAct(h, acc, target, Promote)
    requires var room := h.room[Place(h, acc).value]; FirstMember(room.members, target).Some? && target !in room.admin
    ensures Admin(Admin(h, acc, target, Promote, cfg), acc, target, Demote, cfg) == h
  {
    hide Without;
    var r := Place(h, acc).value;
    var room := h.room[r];
    WithoutAppended(room.admin, target);
  }

  predicate NumbersDistinct(members: seq<OnlineAccount>) {
    forall i, j :: 0 <= i < j < |members| ==> members[i].member != members[j].member
  }

  lemma SwappedDistinct(members: seq<OnlineAccount>, i: nat, j: nat)
    requires NumbersDistinct(members) && i < |members| && j < |members|
    ensures NumbersDistinct(Swapped(members, i, j))
  {}

  /** Swapping the same two members again restores the order, when member numbers are distinct. */
  lemma SwapTwice(members: seq<OnlineAccount>, first: int, second: int)
    requires NumbersDistinct(members)
    ensures SwapMembers(SwapMembers(members, first, second), first, second) == members
  {
    hide FirstMember, NumbersDistinct;
    match (FirstMember(members, first), FirstMember(members, second))
    case (Some(i), Some(j)) =>
      SwappedDistinct(members, i, j);
    case _ =>
  }
}
