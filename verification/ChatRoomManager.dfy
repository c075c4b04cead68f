/** The chat-room handlers, editing rooms, member lists and back pointers in place. */
module ChatRoomManager {
  import opened Options
  import opened GameState
  import opened RoomNames
  import opened Trimming
  import opened AccountFields
  import opened Rooms
  import opened RoomInvariants

  function RoomNow(r: ChatRoom): Room
    reads r
  {
    Room(r.name, r.limit, r.admin, r.ban, r.whitelist, r.access, r.accounts)
  }

  /** The room an account points to, as a frame. */
  ghost function RoomOf(a: OnlineAccount): set<ChatRoom>
    reads a
  {
    if a.chatRoom == null then {} else {a.chatRoom}
  }

  /** The list without the accounts of that id. */
  function WithoutId(accounts: seq<OnlineAccount>, id: string): seq<OnlineAccount> {
    if accounts == [] then []
    else if accounts[0].id == id then WithoutId(accounts[1..], id)
    else [accounts[0]] + WithoutId(accounts[1..], id)
  }

  function WithoutRoomId(rooms: seq<ChatRoom>, id: string): seq<ChatRoom> {
    if rooms == [] then []
    else if rooms[0].id == id then WithoutRoomId(rooms[1..], id)
    else [rooms[0]] + WithoutRoomId(rooms[1..], id)
  }

  lemma {:induction false} IdsIdentify(accounts: seq<OnlineAccount>, acc: OnlineAccount)
    requires forall a :: a in accounts && a.id == acc.id ==> a == acc
    ensures WithoutId(accounts, acc.id) == Without(accounts, acc)
  {
    if accounts != [] { IdsIdentify(accounts[1..], acc); }
  }

  lemma {:induction false} RoomIdsIdentify(rooms: seq<ChatRoom>, room: ChatRoom)
    requires forall r :: r in rooms && r.id == room.id ==> r == room
    ensures WithoutRoomId(rooms, room.id) == Without(rooms, room)
  {
    if rooms != [] { RoomIdsIdentify(rooms[1..], room); }
  }

  class Manager {
    /** The accounts with a session, by socket id. */
    var bySocket: map<string, OnlineAccount>
    var rooms: seq<ChatRoom>

    constructor ()
      ensures Valid() && HallNow() == EMPTY_HALL
    {
      bySocket, rooms := map[], [];
    }

    ghost function HallNow(): Hall
      reads this, rooms, bySocket.Values
    {
      Hall(bySocket.Values, rooms, map r | r in rooms :: RoomNow(r), Pointers(), Unread(NAME), Unread(ENVIRONMENT))
    }

    ghost function Pointers(): map<OnlineAccount, ChatRoom>
      reads this, bySocket.Values
    {
      map a | a in bySocket.Values && a.chatRoom != null :: a.chatRoom
    }

    /** The accounts whose text field of that name cannot be read. */
    ghost function Unread(f: string): set<OnlineAccount>
      reads this, bySocket.Values
    {
      set a | a in bySocket.Values && f in a.unread
    }

    /** Ids identify sessions and rooms. */
    ghost predicate Identified()
      reads this
    {
      && (forall s :: s in bySocket ==> bySocket[s].id == s)
      && (forall q, r :: q in rooms && r in rooms && q.id == r.id ==> q == r)
    }

    /** What every call keeps, those that throw halfway included. */
    ghost predicate Valid()
      reads this, rooms, bySocket.Values
    {
      Identified() && Sound(HallNow())
    }

    /** The account of a socket, if any, points to no room that is gone. */
    ghost predicate CallerHoused(socketId: string)
      reads this, bySocket.Values
    {
      socketId in bySocket && bySocket[socketId].chatRoom != null ==> bySocket[socketId].chatRoom in rooms
    }

    // ---- Sessions ----

    method SignIn(acc: OnlineAccount, cfg: Settings)
      requires Valid() && acc.id !in bySocket && acc !in bySocket.Values && acc.chatRoom == null
      modifies this`bySocket
      ensures Valid() && bySocket == old(bySocket)[acc.id := acc]
      ensures HallNow() == Step(old(HallNow()), Event.SignIn(acc, acc.unread), cfg)
    {
      SignInKeeps(HallNow(), acc, acc.unread);
      OneMore(bySocket, acc.id, acc);
      bySocket := bySocket[acc.id := acc];
      SignedIn(acc);
    }

    twostate lemma SignedIn(acc: OnlineAccount)
      requires bySocket.Values == old(bySocket.Values) + {acc} && acc.chatRoom == null && rooms == old(rooms)
      requires forall r :: r in rooms ==> RoomNow(r) == old(RoomNow(r))
      requires forall a :: a in old(bySocket.Values) ==> a.chatRoom == old(a.chatRoom) && a.unread == old(a.unread)
      ensures HallNow() == Spoilt(old(HallNow()).(online := old(HallNow()).online + {acc}), acc, acc.unread)
    {
      assert Pointers() == old(Pointers());
      UnreadGrows(acc);
    }

    twostate lemma UnreadGrows(acc: OnlineAccount)
      requires bySocket.Values == old(bySocket.Values) + {acc}
      requires forall a :: a in old(bySocket.Values) && a != acc ==> a.unread == old(a.unread)
      requires acc in old(bySocket.Values) ==> acc.unread >= old(acc.unread)
      ensures Unread(NAME) == Marked(old(Unread(NAME)), acc, acc.unread, NAME)
      ensures Unread(ENVIRONMENT) == Marked(old(Unread(ENVIRONMENT)), acc, acc.unread, ENVIRONMENT)
    {}

    /** An update of a profile marks the fields it made unreadable. */
    twostate lemma Spoiled(acc: OnlineAccount, fields: set<string>, cfg: Settings)
      requires acc in bySocket.Values && bySocket == old(bySocket) && rooms == old(rooms)
      requires acc.unread == old(acc.unread) + fields
      requires forall r :: r in rooms ==> RoomNow(r) == old(RoomNow(r))
      requires forall a :: a in bySocket.Values ==> a.chatRoom == old(a.chatRoom) && (a != acc ==> a.unread == old(a.unread))
      ensures HallNow() == Step(old(HallNow()), Spoil(acc, fields), cfg)
    {
      assert Pointers() == old(Pointers());
      assert bySocket.Values == old(bySocket.Values) + {acc};
      UnreadGrows(acc);
    }

    twostate lemma UnreadStays()
      requires bySocket == old(bySocket) && forall a :: a in bySocket.Values ==> a.unread == old(a.unread)
      ensures HallNow().unnamed == old(HallNow()).unnamed && HallNow().unplaced == old(HallNow()).unplaced
    {}

    /** `room_remove_locked`, given a dictionary of names or not: without it, an unreadable name makes it throw. */
    method RoomRemove(acc: OnlineAccount, dict: bool) returns (threw: bool)
      requires Valid() && acc in bySocket.Values && (acc.chatRoom != null ==> acc.chatRoom in rooms)
      modifies this`rooms, acc`chatRoom, RoomOf(acc)`accounts
      ensures Valid() && bySocket == old(bySocket)
      ensures threw == (!dict && StopsHalfway(old(HallNow()), acc))
      ensures HallNow() == if dict then Remove(old(HallNow()), acc) else Depart(old(HallNow()), acc)
    {
      hide Sound, Remove, StopsHalfway;
      threw := false;
      Placed(acc);
      RemoveKeeps(HallNow(), acc);
      DepartKeepsIff(HallNow(), acc);
      if acc.chatRoom == null {
        NowhereToLeave(HallNow(), acc);
      } else {
        MembersIdentified(acc, acc.chatRoom);
        threw := Vacate(acc, acc.chatRoom, dict);
      }
    }

    method Vacate(acc: OnlineAccount, room: ChatRoom, dict: bool) returns (threw: bool)
      requires Identified() && acc in bySocket.Values && acc.chatRoom == room && room in rooms
      requires WithoutId(room.accounts, acc.id) == Without(room.accounts, acc)
      modifies this`rooms, acc`chatRoom, room`accounts
      ensures Identified() && bySocket == old(bySocket)
      ensures threw == (!dict && StopsHalfway(old(HallNow()), acc))
      ensures HallNow() == if dict then Remove(old(HallNow()), acc) else Depart(old(HallNow()), acc)
    {
      hide HallNow, Remove, StopsHalfway, Depart, Without, WithoutId;
      threw := false;
      RoomIdsIdentify(rooms, room);
      Leaves(acc);
      room.accounts := WithoutId(room.accounts, acc.id);
      if room.accounts == [] {
        acc.chatRoom := null;
        RoomsLeft(rooms, room);
        rooms := WithoutRoomId(rooms, room.id);
      } else if !dict && NAME in acc.unread {
        PropsEdited(room);
        return true;
      } else {
        acc.chatRoom := null;
      }
      Vacated(acc);
    }

    /** The hall's terms for leaving a room, in those of the objects. */
    lemma Leaves(acc: OnlineAccount)
      requires acc in bySocket.Values && acc.chatRoom != null && acc.chatRoom in rooms
      ensures Place(HallNow(), acc) == Some(acc.chatRoom)
      ensures StopsHalfway(HallNow(), acc) <==> NAME in acc.unread && Without(acc.chatRoom.accounts, acc) != []
      ensures StopsHalfway(HallNow(), acc) ==>
                Depart(HallNow(), acc) ==
                SetRoom(HallNow(), acc.chatRoom, RoomNow(acc.chatRoom).(members := Without(acc.chatRoom.accounts, acc)))
      ensures !StopsHalfway(HallNow(), acc) ==> Depart(HallNow(), acc) == Remove(HallNow(), acc)
    {
      hide Without, Remove;
    }

    /** What leaving makes of the hall: one list shorter, one pointer gone, perhaps one room less. */
    twostate lemma Vacated(acc: OnlineAccount)
      requires bySocket == old(bySocket) && acc in bySocket.Values && acc.chatRoom == null
      requires old(acc.chatRoom) != null && old(acc.chatRoom) in old(rooms)
      requires var room: ChatRoom := old(acc.chatRoom);
               && RoomNow(room) == old(RoomNow(room)).(members := Without(old(room.accounts), acc))
               && (forall r :: r in old(rooms) && r != room ==> RoomNow(r) == old(RoomNow(r)))
               && rooms == if room.accounts == [] then Without(old(rooms), room) else old(rooms)
      requires forall a :: a in bySocket.Values && a != acc ==> a.chatRoom == old(a.chatRoom)
      requires forall a :: a in bySocket.Values ==> a.unread == old(a.unread)
      ensures HallNow() == Remove(old(HallNow()), acc)
    {
      hide Without;
      var room: ChatRoom := old(acc.chatRoom);
      assert Pointers() == old(Pointers()) - {acc};
      RoomsVacated(room);
      UnreadStays();
    }

    twostate lemma RoomsVacated(room: ChatRoom)
      requires room in old(rooms) && RoomNow(room) == old(RoomNow(room)).(members := room.accounts)
      requires forall r :: r in old(rooms) && r != room ==> RoomNow(r) == old(RoomNow(r))
      requires rooms == if room.accounts == [] then Without(old(rooms), room) else old(rooms)
      ensures HallNow().room ==
              if room.accounts == [] then old(HallNow()).room - {room} else old(HallNow()).room[room := RoomNow(room)]
    {
      hide Without;
      RoomsLeft(old(rooms), room);
    }

    /** The end of a session: out of the room first, then offline; if the first throws, the second is not done. */
    method RemoveAccount(socketId: string, cfg: Settings) returns (threw: bool)
      requires Valid() && CallerHoused(socketId)
      modifies this, bySocket.Values`chatRoom, rooms`accounts
      ensures Valid() && bySocket == if threw then old(bySocket) else old(bySocket) - {socketId}
      ensures threw == (socketId in old(bySocket) && StopsHalfway(old(HallNow()), old(bySocket)[socketId]))
      ensures HallNow() == if socketId in old(bySocket) then
                Step(old(HallNow()), Disconnect(old(bySocket)[socketId]), cfg) else old(HallNow())
    {
      hide Sound, StopsHalfway, Remove;
      threw := false;
      if socketId !in bySocket {
        assert bySocket - {socketId} == bySocket;
        return;
      }
      var acc := bySocket[socketId];
      Placed(acc);
      RemoveKeeps(HallNow(), acc);
      StepKeepsInvariant(HallNow(), Disconnect(acc), cfg);
      threw := RoomRemove(acc, false);
      if threw { return; }
      Gone(acc);
      Erase(acc);
    }

    method Erase(acc: OnlineAccount)
      requires Identified() && acc in bySocket.Values && acc.chatRoom == null
      modifies this`bySocket
      ensures Identified() && bySocket == old(bySocket) - {acc.id}
      ensures HallNow() == SignedOut(old(HallNow()), acc)
    {
      OneLess(bySocket, acc);
      bySocket := bySocket - {acc.id};
      assert Pointers() == old(Pointers());
      assert Unread(NAME) == old(Unread(NAME)) - {acc};
      assert Unread(ENVIRONMENT) == old(Unread(ENVIRONMENT)) - {acc};
    }

    /** `chat_room_leave`. */
    method Leave(socketId: string, cfg: Settings) returns (threw: bool)
      requires Valid() && CallerHoused(socketId)
      modifies this`rooms, bySocket.Values`chatRoom, rooms`accounts
      ensures Valid() && bySocket == old(bySocket)
      ensures threw == (socketId in bySocket && StopsHalfway(old(HallNow()), bySocket[socketId]))
      ensures HallNow() == if socketId in bySocket then
                Step(old(HallNow()), Event.Leave(bySocket[socketId]), cfg) else old(HallNow())
    {
      hide Sound, StopsHalfway, Remove;
      threw := false;
      if socketId in bySocket {
        threw := RoomRemove(bySocket[socketId], false);
      }
    }

    /** Where the hall has an account. */
    lemma Placed(acc: OnlineAccount)
      requires acc in bySocket.Values && (acc.chatRoom != null ==> acc.chatRoom in rooms)
      ensures Housed(HallNow(), acc)
      ensures Place(HallNow(), acc) == if acc.chatRoom == null then None else Some(acc.chatRoom)
      ensures acc in HallNow().unnamed <==> NAME in acc.unread
      ensures acc in HallNow().unplaced <==> ENVIRONMENT in acc.unread
    {}

    /** Who points nowhere in the hall points nowhere. */
    lemma Gone(acc: OnlineAccount)
      requires acc in bySocket.Values && acc !in HallNow().at
      ensures acc.chatRoom == null
    {}

    // ---- Join ----

    /** The first room of that upper-trimmed name. */
    method FindNamed(want: string) returns (found: ChatRoom?)
      ensures Named(rooms, HallNow().room, want) == if found == null then None else Some(found)
      ensures found != null ==> found in rooms
    {
      ghost var room := HallNow().room;
      var i := 0;
      while i < |rooms|
        invariant i <= |rooms|
        invariant Named(rooms, room, want) == Named(rooms[i..], room, want)
      {
        if UpperTrim(rooms[i].name) == want { return rooms[i]; }
        i := i + 1;
      }
      found := null;
    }

    /** What a room answers; the caller's own room is recognised by its id. */
    method Admit(acc: OnlineAccount, room: ChatRoom) returns (reply: Reply)
      requires Identified() && acc in bySocket.Values && room in rooms
      requires acc.chatRoom != null ==> acc.chatRoom in rooms
      ensures reply == Admission(HallNow(), acc, room)
    {
      if ENVIRONMENT in acc.unread { return NoReply; }
      if acc.environment != room.environment { return CannotFindRoom; }
      if |room.accounts| >= room.limit { return RoomFull; }
      if acc.member in room.ban { return RoomBanned; }
      if !HasAnyRole(acc.member, RoomNow(room), room.access) { return RoomLocked; }
      if acc.chatRoom != null && acc.chatRoom.id == room.id { return AlreadyInRoom; }
      reply := JoinedRoom;
    }

    /** `chat_room_join`. */
    method Join(socketId: string, name: Option<string>) returns (reply: Reply)
      requires Valid() && CallerHoused(socketId)
      modifies this`rooms, bySocket.Values`chatRoom, rooms`accounts
      ensures Valid() && bySocket == old(bySocket)
      ensures name.Some? && socketId in bySocket ==>
                && reply == JoinReply(old(HallNow()), bySocket[socketId], name.value)
                && HallNow() == Rooms.Join(old(HallNow()), bySocket[socketId], name.value)
      ensures !(name.Some? && socketId in bySocket) ==>
                && reply == (if name == None || name.value == "" then InvalidRoomData else AccountError)
                && HallNow() == old(HallNow())
    {
      hide Admission, Named, Remove, Enter, Depart, StopsHalfway, Sound;
      if name == None || name.value == "" { return InvalidRoomData; }
      if socketId !in bySocket { return AccountError; }
      var acc := bySocket[socketId];
      Placed(acc);
      var room;
      reply, room := Decide(acc, name.value);
      if reply == JoinedRoom {
        JoinKeeps(HallNow(), acc, name.value);
        var threw := Move(acc, room);
        if threw { reply := NoReply; }
      }
    }

    /** The reply to a join, and the room to move to. */
    method Decide(acc: OnlineAccount, name: string) returns (reply: Reply, room: ChatRoom?)
      requires Identified() && acc in bySocket.Values && name != ""
      requires acc.chatRoom != null ==> acc.chatRoom in rooms
      ensures reply != JoinedRoom ==>
                reply == JoinReply(HallNow(), acc, name) && Rooms.Join(HallNow(), acc, name) == HallNow()
      ensures reply == JoinedRoom ==>
                && room != null && room in rooms && acc.chatRoom != room
                && JoinReply(HallNow(), acc, name) == (if StopsHalfway(HallNow(), acc) then NoReply else JoinedRoom)
                && (StopsHalfway(HallNow(), acc) ==> Rooms.Join(HallNow(), acc, name) == Depart(HallNow(), acc))
                && (!StopsHalfway(HallNow(), acc) && room in Remove(HallNow(), acc).room ==>
                    Rooms.Join(HallNow(), acc, name) == Enter(Remove(HallNow(), acc), acc, room))
    {
      hide Admission, Named, Remove, Enter, Depart, StopsHalfway;
      room := FindNamed(UpperTrim(name));
      if room == null { return CannotFindRoom, null; }
      reply := Admit(acc, room);
      Joining(HallNow(), acc, name, room);
    }

    /** Out of the caller's present room, if any, and, unless that throws, into another. */
    method Move(acc: OnlineAccount, room: ChatRoom) returns (threw: bool)
      requires Valid() && acc in bySocket.Values && room in rooms && acc.chatRoom != room
      requires acc.chatRoom != null ==> acc.chatRoom in rooms
      modifies this`rooms, acc`chatRoom, RoomOf(acc)`accounts, room`accounts
      ensures Identified() && bySocket == old(bySocket)
      ensures threw == StopsHalfway(old(HallNow()), acc)
      ensures room in Remove(old(HallNow()), acc).room
      ensures HallNow() ==
              if threw then Depart(old(HallNow()), acc) else Enter(Remove(old(HallNow()), acc), acc, room)
    {
      hide Sound, StopsHalfway, Remove, Enter, Identified;
      ghost var h := HallNow();
      Placed(acc);
      JoinedRoomSurvives(h, acc, room);
      RemoveKeeps(h, acc);
      threw := RoomRemove(acc, false);
      if threw { return; }
      Gone(acc);
      assert HallNow().room.Keys == set r | r in rooms;
      EnterRoom(acc, room);
    }

    method EnterRoom(acc: OnlineAccount, room: ChatRoom)
      requires Identified() && acc in bySocket.Values && room in rooms && acc.chatRoom == null
      modifies acc`chatRoom, room`accounts
      ensures HallNow() == Enter(old(HallNow()), acc, room)
    {
      acc.chatRoom := room;
      room.accounts := room.accounts + [acc];
      assert Pointers() == old(Pointers())[acc := room];
      RoomEdited(room);
      UnreadStays();
    }

    /** Editing one room edits one entry of the hall. */
    twostate lemma RoomEdited(room: ChatRoom)
      requires room in rooms && rooms == old(rooms)
      requires forall r :: r in rooms && r != room ==> RoomNow(r) == old(RoomNow(r))
      ensures HallNow().room == old(HallNow()).room[room := RoomNow(room)]
    {}

    /** The same, when nobody moves either. */
    twostate lemma PropsEdited(room: ChatRoom)
      requires room in rooms && rooms == old(rooms) && bySocket == old(bySocket)
      requires forall r :: r in rooms && r != room ==> RoomNow(r) == old(RoomNow(r))
      requires forall a :: a in bySocket.Values ==> a.chatRoom == old(a.chatRoom) && a.unread == old(a.unread)
      ensures HallNow() == SetRoom(old(HallNow()), room, RoomNow(room))
    {
      RoomEdited(room);
      assert Pointers() == old(Pointers());
      UnreadStays();
    }

    // ---- Create ----

    /**
     `chat_room_create`; the new room's id is a random one no room has. It leaves the old room before it reads
     the environment and the name for the new one.
     */
    method Create(socketId: string, form: RoomForm, cfg: Settings, sid: string)
      returns (reply: Reply, created: ChatRoom?)
      requires Valid() && CallerHoused(socketId) && forall r :: r in rooms ==> r.id != sid
      modifies this`rooms, bySocket.Values`chatRoom, rooms`accounts
      ensures Valid() && bySocket == old(bySocket)
      ensures reply == if socketId in bySocket then CreateReply(old(HallNow()), bySocket[socketId], form, cfg)
                       else if CreateFormOk(form, cfg) then AccountError else InvalidRoomData
      ensures reply == ChatRoomCreated ==>
                && created != null && fresh(created) && Enabled(old(HallNow()), Creates(bySocket[socketId], form, created))
                && HallNow() == Rooms.Create(old(HallNow()), bySocket[socketId], form, cfg, created)
      ensures reply == NoReply ==> socketId in bySocket && HallNow() == Depart(old(HallNow()), bySocket[socketId])
      ensures reply !in {ChatRoomCreated, NoReply} ==> HallNow() == old(HallNow())
    {
      hide CreateReply, CreateFormOk, Rooms.Create, Sound, Depart, StopsHalfway, Open, FormRoom, Identified;
      created := null;
      reply := CheckCreate(socketId, form, cfg);
      if reply == ChatRoomCreated {
        var acc := bySocket[socketId];
        ghost var h := HallNow();
        Placed(acc);
        Opens(h, acc, form, cfg);
        var threw := RoomRemove(acc, false);
        if threw || ENVIRONMENT in acc.unread || NAME in acc.unread { return NoReply, null; }
        RemoveKeeps(h, acc);
        Gone(acc);
        assert forall r :: r in rooms ==> r in HallNow().room;
        created := OpenFor(acc, form, cfg, sid, h);
      }
    }

    /** The checks before anything is changed. */
    method CheckCreate(socketId: string, form: RoomForm, cfg: Settings) returns (reply: Reply)
      ensures reply != ChatRoomCreated ==>
                && reply != NoReply
                && reply == if socketId in bySocket then CreateReply(HallNow(), bySocket[socketId], form, cfg)
                            else if CreateFormOk(form, cfg) then AccountError else InvalidRoomData
      ensures reply == ChatRoomCreated ==>
                socketId in bySocket && CreateReply(HallNow(), bySocket[socketId], form, cfg) in {ChatRoomCreated, NoReply}
    {
      if !CreateFormOk(form, cfg) { return InvalidRoomData; }
      if socketId !in bySocket { return AccountError; }
      var taken := FindNamed(UpperTrim(Trim(form.name.value)));
      if taken != null {
        assert taken in HallNow().room;
        return RoomAlreadyExist;
      }
      reply := ChatRoomCreated;
    }

    /** The new room, once the old one is left. */
    method OpenFor(acc: OnlineAccount, form: RoomForm, cfg: Settings, sid: string, ghost h: Hall) returns (created: ChatRoom)
      requires Identified() && acc in bySocket.Values && acc.chatRoom == null && forall r :: r in rooms ==> r.id != sid
      requires Sound(h) && Housed(h, acc) && HallNow() == Remove(h, acc) && CreateReply(h, acc, form, cfg) == ChatRoomCreated
      requires forall r :: r in h.rooms || r in h.room ==> allocated(r)
      modifies this`rooms, acc`chatRoom
      ensures Valid() && bySocket == old(bySocket) && fresh(created)
      ensures Enabled(h, Creates(acc, form, created))
      ensures HallNow() == Rooms.Create(h, acc, form, cfg, created)
    {
      hide Sound, Open, Remove, Identified;
      created := Build(acc, form, cfg, sid);
      CreateKeeps(h, acc, form, cfg, created);
      OpenRoom(acc, created);
    }

    method Build(acc: OnlineAccount, form: RoomForm, cfg: Settings, sid: string) returns (created: ChatRoom)
      requires form.name.Some?
      ensures fresh(created) && created.id == sid && created.environment == acc.environment
      ensures RoomNow(created) == FormRoom(acc, form, cfg)
    {
      created := new ChatRoom(sid, acc.environment, Trim(form.name.value), LimitOf(form, cfg),
        Given(form.admin, [acc.member]), Given(form.ban, []), Given(form.whitelist, []), AccessOf(form, OPEN));
    }

    method OpenRoom(acc: OnlineAccount, room: ChatRoom)
      requires Identified() && acc in bySocket.Values && acc.chatRoom == null && room.accounts == []
      requires forall r :: r in rooms ==> r.id != room.id
      modifies this`rooms, acc`chatRoom, room`accounts
      ensures Identified() && bySocket == old(bySocket)
      ensures HallNow() == Open(old(HallNow()), acc, room, old(RoomNow(room)))
    {
      hide HallNow, Identified;
      ghost var h, props := HallNow(), RoomNow(room);
      AppendRoom(room);
      EnterRoom(acc, room);
      Opening(h, acc, room, props);
    }

    method AppendRoom(room: ChatRoom)
      requires Identified() && forall r :: r in rooms ==> r.id != room.id
      modifies this`rooms
      ensures Identified() && rooms == old(rooms) + [room]
      ensures HallNow() ==
              old(HallNow()).(rooms := old(HallNow()).rooms + [room], room := old(HallNow()).room[room := RoomNow(room)])
    {
      rooms := rooms + [room];
    }

    // ---- Admin actions ----

    /** `chat_room_admin`; only an update is answered. */
    method Admin(socketId: string, target: int, action: Action, cfg: Settings) returns (reply: Option<Reply>)
      requires Valid() && CallerHoused(socketId)
      modifies this`rooms, bySocket.Values`chatRoom, rooms
      ensures Valid() && bySocket == old(bySocket)
      ensures HallNow() == if socketId in bySocket then
                Rooms.Admin(old(HallNow()), bySocket[socketId], target, action, cfg) else old(HallNow())
      ensures reply == if socketId in bySocket && MayAct(old(HallNow()), bySocket[socketId], target, action) && action.Update?
                       then Some(UpdateReply(old(HallNow()), Place(old(HallNow()), bySocket[socketId]).value, action.form, cfg))
                       else None
    {
      reply := None;
      if socketId !in bySocket { return; }
      var acc := bySocket[socketId];
      Placed(acc);
      if acc.chatRoom == null { return; }
      if acc.member !in acc.chatRoom.admin { return; }
      if acc.member == target && !IsReorder(action) { return; }
      AdminKeeps(HallNow(), acc, target, action, cfg);
      reply := Act(acc, acc.chatRoom, target, action, cfg);
    }

    /** The action itself, once the caller is known to be an administrator of the room. */
    method Act(acc: OnlineAccount, room: ChatRoom, target: int, action: Action, cfg: Settings) returns (reply: Option<Reply>)
      requires Valid() && room in rooms && acc in bySocket.Values
      requires Place(HallNow(), acc) == Some(room) && MayAct(HallNow(), acc, target, action)
      modifies this`rooms, bySocket.Values`chatRoom, room
      ensures Identified() && bySocket == old(bySocket)
      ensures HallNow() == Rooms.Admin(old(HallNow()), acc, target, action, cfg)
      ensures reply == if action.Update? then Some(UpdateReply(old(HallNow()), room, action.form, cfg)) else None
    {
      hide Remove, SetRoom, FirstMember, UpdateReply, Refit, OnAbsent, OnMember, SwapMembers, Sound, Identified;
      reply := None;
      if action.Update? {
        var r := UpdateRoom(room, action.form, cfg);
        reply := Some(r);
      } else if IsSwap(action) {
        SwapInRoom(room, action.first.value, action.second.value);
      } else {
        var at := FindMember(room, target);
        match at
        case None => ActOnAbsent(room, target, action);
        case Some(i) => ActOnMember(acc, room, i, action);
      }
    }

    method UpdateRoom(room: ChatRoom, form: Option<RoomForm>, cfg: Settings) returns (reply: Reply)
      requires Identified() && room in rooms
      modifies room
      ensures reply == UpdateReply(old(HallNow()), room, form, cfg)
      ensures HallNow() == if reply == Updated then
                SetRoom(old(HallNow()), room, Refit(old(RoomNow(room)), form.value, cfg)) else old(HallNow())
    {
      if form == None || !UpdateFormOk(form.value, cfg) { return InvalidRoomData; }
      var f := form.value;
      var newName := Trim(f.name.value);
      var clash := FindClash(room, newName);
      if clash { return RoomAlreadyExist; }
      RefitRoom(room, f, cfg);
      reply := Updated;
    }

    method RefitRoom(room: ChatRoom, f: RoomForm, cfg: Settings)
      requires room in rooms && UpdateFormOk(f, cfg)
      modifies room
      ensures HallNow() == SetRoom(old(HallNow()), room, Refit(old(RoomNow(room)), f, cfg))
    {
      hide HallNow, Trim, LimitOf, AccessOf, SetRoom;
      room.name, room.limit := Trim(f.name.value), LimitOf(f, cfg);
      room.admin, room.ban := f.admin.value, f.ban.value;
      room.whitelist, room.access := Given(f.whitelist, room.whitelist), AccessOf(f, room.access);
      PropsEdited(room);
    }

    /** The loop over the other rooms; nothing clashes when the name is the old one upper-trimmed. */
    method FindClash(room: ChatRoom, newName: string) returns (clash: bool)
      requires Identified() && room in rooms
      ensures clash == Clashes(HallNow(), room, newName)
    {
      var i := 0;
      while i < |rooms|
        invariant i <= |rooms|
        invariant forall k :: 0 <= k < i ==>
                    !(UpperTrim(room.name) != newName && rooms[k] != room && UpperTrim(rooms[k].name) == UpperTrim(newName))
      {
        if UpperTrim(room.name) != newName && rooms[i].id != room.id && UpperTrim(rooms[i].name) == UpperTrim(newName) {
          assert rooms[i] in HallNow().room;
          return true;
        }
        i := i + 1;
      }
      clash := false;
    }

    /** The position of the first account with that member number. */
    method FindMember(room: ChatRoom, m: int) returns (at: Option<nat>)
      ensures at == FirstMember(room.accounts, m)
    {
      var i := 0;
      while i < |room.accounts|
        invariant i <= |room.accounts|
        invariant FirstMember(room.accounts, m) ==
                  match FirstMember(room.accounts[i..], m) case None => None case Some(k) => Some(k + i)
      {
        if room.accounts[i].member == m { return Some(i); }
        i := i + 1;
      }
      at := None;
    }

    method Exchange(room: ChatRoom, i: nat, j: nat)
      requires room in rooms && i < |room.accounts| && j < |room.accounts|
      modifies room`accounts
      ensures HallNow() == SetRoom(old(HallNow()), room, old(RoomNow(room)).(members := Swapped(old(room.accounts), i, j)))
    {
      hide HallNow, SetRoom;
      room.accounts := room.accounts[i := room.accounts[j]][j := room.accounts[i]];
      PropsEdited(room);
    }

    method SwapInRoom(room: ChatRoom, first: int, second: int)
      requires room in rooms
      modifies room`accounts
      ensures HallNow() ==
              SetRoom(old(HallNow()), room, old(RoomNow(room)).(members := SwapMembers(old(room.accounts), first, second)))
    {
      var i := FindMember(room, first);
      var j := FindMember(room, second);
      if i.Some? && j.Some? {
        Exchange(room, i.value, j.value);
      } else {
        assert HallNow().room[room := RoomNow(room)] == HallNow().room;
      }
    }

    /** `std::shuffle`, driven by a sequence of draws. */
    method ShuffleRoom(room: ChatRoom, draws: seq<nat>)
      requires room in rooms
      modifies room`accounts
      ensures HallNow() ==
              SetRoom(old(HallNow()), room, old(RoomNow(room)).(members := Shuffled(old(room.accounts), draws, 1)))
    {
      hide HallNow, SetRoom, Shuffled;
      ShuffleAccounts(room, draws);
      PropsEdited(room);
    }

    method ShuffleAccounts(room: ChatRoom, draws: seq<nat>)
      modifies room`accounts
      ensures room.accounts == Shuffled(old(room.accounts), draws, 1)
    {
      var i := 1;
      while i < |room.accounts|
        invariant 1 <= i
        invariant Shuffled(room.accounts, draws, i) == Shuffled(old(room.accounts), draws, 1)
        decreases |room.accounts| - i
      {
        ghost var before := room.accounts;
        var j := Draw(draws, i);
        room.accounts := Swapped(room.accounts, i, j);
        assert Shuffled(before, draws, i) == Shuffled(room.accounts, draws, i + 1);
        i := i + 1;
      }
    }

    method SetAdmin(room: ChatRoom, admin: seq<int>)
      requires room in rooms
      modifies room`admin
      ensures HallNow() == SetRoom(old(HallNow()), room, old(RoomNow(room)).(admin := admin))
    {
      room.admin := admin;
      PropsEdited(room);
    }

    method SetBan(room: ChatRoom, ban: seq<int>)
      requires room in rooms
      modifies room`ban
      ensures HallNow() == SetRoom(old(HallNow()), room, old(RoomNow(room)).(ban := ban))
    {
      room.ban := ban;
      PropsEdited(room);
    }

    method SetWhitelist(room: ChatRoom, whitelist: seq<int>)
      requires room in rooms
      modifies room`whitelist
      ensures HallNow() == SetRoom(old(HallNow()), room, old(RoomNow(room)).(whitelist := whitelist))
    {
      room.whitelist := whitelist;
      PropsEdited(room);
    }

    method ActOnAbsent(room: ChatRoom, target: int, action: Action)
      requires room in rooms
      modifies room`ban, room`whitelist
      ensures HallNow() == OnAbsent(old(HallNow()), room, target, action)
    {
      if action.Ban? && target !in room.ban {
        SetBan(room, room.ban + [target]);
      } else if action.Unban? && target in room.ban {
        SetBan(room, Without(room.ban, target));
      } else if action.Whitelist? && target !in room.whitelist {
        SetWhitelist(room, room.whitelist + [target]);
      } else if action.Unwhitelist? && target in room.whitelist {
        SetWhitelist(room, Without(room.whitelist, target));
      }
    }

    method ActOnMember(acc: OnlineAccount, room: ChatRoom, i: nat, action: Action)
      requires Valid() && acc in bySocket.Values && room in rooms && i < |room.accounts|
      modifies this`rooms, bySocket.Values`chatRoom, room
      ensures Identified() && bySocket == old(bySocket)
      ensures HallNow() == OnMember(old(HallNow()), acc, room, i, action)
    {
      hide Remove, SetRoom, Identified, Swapped, Shuffled, Relisted, CanName;
      Listed(room);
      if action.Ban? || action.Kick? {
        Present(room, room.accounts[i]);
        Expel(acc, room, room.accounts[i], action.Ban?);
      } else {
        Rearrange(acc, room, i, action);
      }
    }

    /** The actions on a present member that remove nobody. */
    method Rearrange(ghost acc: OnlineAccount, room: ChatRoom, i: nat, action: Action)
      requires room in rooms && i < |room.accounts| && !action.Ban? && !action.Kick?
      modifies room`accounts, room`admin, room`whitelist
      ensures HallNow() == OnMember(old(HallNow()), acc, room, i, action)
    {
      hide HallNow, SetRoom, Swapped, Shuffled, Without, Remove, CanName;
      Listed(room);
      if action.MoveLeft? && i != 0 {
        Exchange(room, i, i - 1);
      } else if action.MoveRight? && i + 1 < |room.accounts| {
        Exchange(room, i, i + 1);
      } else if action.Shuffle? {
        ShuffleRoom(room, action.draws);
      } else {
        Relist(room, room.accounts[i].member, action);
      }
    }

    /** Promote, demote, whitelist and unwhitelist. */
    method Relist(room: ChatRoom, target: int, action: Action)
      requires room in rooms
      modifies room`admin, room`whitelist
      ensures HallNow() == Relisted(old(HallNow()), room, target, action)
    {
      if action.Promote? && target !in room.admin {
        SetAdmin(room, room.admin + [target]);
      } else if action.Demote? && target in room.admin {
        SetAdmin(room, Without(room.admin, target));
      } else if action.Whitelist? && target !in room.whitelist {
        SetWhitelist(room, room.whitelist + [target]);
      } else if action.Unwhitelist? && target in room.whitelist {
        SetWhitelist(room, Without(room.whitelist, target));
      }
    }

    /** Kick, and ban of someone present: the target leaves the room, if both parties can be named. */
    method Expel(acc: OnlineAccount, room: ChatRoom, target: OnlineAccount, ban: bool)
      requires Valid() && acc in bySocket.Values && room in rooms && target in room.accounts
      modifies this`rooms, target`chatRoom, room
      ensures Identified() && bySocket == old(bySocket)
      ensures var h := old(HallNow());
              var listed := if ban then SetRoom(h, room, h.room[room].(ban := h.room[room].ban + [target.member])) else h;
              HallNow() == if CanName(h, acc, target) then Remove(listed, target) else listed
    {
      hide Remove, SetRoom, Sound, Identified;
      Present(room, target);
      if ban { AddBan(room, target.member); }
      if NAME in acc.unread || NAME in target.unread { return; }
      var _ := RoomRemove(target, true);
    }

    method AddBan(room: ChatRoom, m: int)
      requires Valid() && room in rooms
      modifies room`ban
      ensures Valid()
      ensures HallNow() == SetRoom(old(HallNow()), room, old(RoomNow(room)).(ban := old(room.ban) + [m]))
    {
      PropsKeep(HallNow(), room, RoomNow(room).(ban := room.ban + [m]));
      SetBan(room, room.ban + [m]);
    }

    lemma Listed(room: ChatRoom)
      requires room in rooms
      ensures room in HallNow().room && HallNow().room[room] == RoomNow(room)
    {}

    /** Everyone listed is online and points back. */
    lemma Present(room: ChatRoom, a: OnlineAccount)
      requires Valid() && room in rooms && a in room.accounts
      ensures a in bySocket.Values && a.chatRoom == room
    {
      assert ListOk(HallNow().room[room].members, HallNow().at, room);
    }

    lemma MembersIdentified(acc: OnlineAccount, room: ChatRoom)
      requires Valid() && acc in bySocket.Values && room in rooms
      ensures WithoutId(room.accounts, acc.id) == Without(room.accounts, acc)
    {
      var h := HallNow();
      assert ListOk(h.room[room].members, h.at, room);
      forall a | a in room.accounts && a.id == acc.id ensures a == acc {
        assert a in h.online;
      }
      IdsIdentify(room.accounts, acc);
    }
  }

  /** Joining a name is asking its first room, and moving there when admitted. */
  lemma Joining(h: Hall, acc: OnlineAccount, name: string, r: ChatRoom)
    requires name != "" && acc in h.online && Named(h.rooms, h.room, UpperTrim(name)) == Some(r)
    ensures Admission(h, acc, r) != JoinedRoom ==> JoinReply(h, acc, name) == Admission(h, acc, r) && Join(h, acc, name) == h
    ensures Admission(h, acc, r) == JoinedRoom ==>
              && Place(h, acc) != Some(r)
              && JoinReply(h, acc, name) == (if StopsHalfway(h, acc) then NoReply else JoinedRoom)
              && (StopsHalfway(h, acc) ==> Join(h, acc, name) == Depart(h, acc))
              && (!StopsHalfway(h, acc) && r in Remove(h, acc).room ==> Join(h, acc, name) == Enter(Remove(h, acc), acc, r))
  {
    hide Remove, StopsHalfway, Depart;
  }

  /** A create that passes its checks opens a room unless a text field it needs cannot be read. */
  lemma Opens(h: Hall, acc: OnlineAccount, f: RoomForm, cfg: Settings)
    requires CreateReply(h, acc, f, cfg) in {ChatRoomCreated, NoReply}
    ensures CreateReply(h, acc, f, cfg) == if acc in h.unnamed || acc in h.unplaced then NoReply else ChatRoomCreated
    ensures StopsHalfway(h, acc) ==> acc in h.unnamed
    ensures !StopsHalfway(h, acc) ==> Depart(h, acc) == Remove(h, acc)
  {
    hide Remove;
  }

  lemma NowhereToLeave(h: Hall, acc: OnlineAccount)
    requires Place(h, acc) == None
    ensures !StopsHalfway(h, acc) && Remove(h, acc) == Depart(h, acc) == h
  {}

  /** Opening a room is appending it, empty, and entering it. */
  lemma Opening(h: Hall, acc: OnlineAccount, r: ChatRoom, props: Room)
    requires props.members == []
    ensures Open(h, acc, r, props) == Enter(h.(rooms := h.rooms + [r], room := h.room[r := props]), acc, r)
  {
    assert h.room[r := props][r := props.(members := [acc])] == h.room[r := props.(members := [acc])];
    assert [] + [acc] == [acc];
  }

  lemma OneMore(m: map<string, OnlineAccount>, id: string, acc: OnlineAccount)
    requires id !in m
    ensures m[id := acc].Values == m.Values + {acc}
  {
    var m' := m[id := acc];
    assert id in m' && m'[id] == acc;
    forall a | a in m.Values ensures a in m'.Values {
      var s :| s in m && m[s] == a;
      assert s in m' && m'[s] == a;
    }
  }

  lemma OneLess(m: map<string, OnlineAccount>, acc: OnlineAccount)
    requires (forall s :: s in m ==> m[s].id == s) && acc in m.Values
    ensures acc.id in m && m[acc.id] == acc && (m - {acc.id}).Values == m.Values - {acc}
  {
    var m' := m - {acc.id};
    forall a | a in m.Values - {acc} ensures a in m'.Values {
      var s :| s in m && m[s] == a;
      assert s in m' && m'[s] == a;
    }
  }

  lemma RoomsLeft(rooms: seq<ChatRoom>, room: ChatRoom)
    ensures forall r :: r in Without(rooms, room) <==> r in rooms && r != room
  {
    forall r | r in rooms && r != room ensures r in Without(rooms, room) { WithoutSome(rooms, room, r); }
    WithoutCounts(rooms, room);
    forall r | r in Without(rooms, room) ensures r in rooms && r != room {
      assert r in multiset(Without(rooms, room));
      assert r in multiset(rooms);
    }
  }
}
