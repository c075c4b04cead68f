/** The account-update handler, the periodic flush and the end of a session, editing accounts in place. */
module Profiles {
  import opened Options
  import opened Text
  import opened JsonMerge
  import opened WriteBehind
  import opened GameState
  import opened AccountFields

  /** The optional of an account that keeps this field waiting. */
  function Slot(f: string, appearance: Option<Json>, skill: Option<Json>, game: Option<Json>): Option<Json> {
    if f == APPEARANCE then appearance else if f == SKILL then skill else if f == GAME then game else None
  }

  function Delays(appearance: Option<Json>, skill: Option<Json>, game: Option<Json>): map<string, Json> {
    map f | f in DELAYED && Slot(f, appearance, skill, game).Some? :: Slot(f, appearance, skill, game).value
  }

  ghost function DelayedOf(a: OnlineAccount): map<string, Json>
    reads a
  {
    Delays(a.delayedAppearance, a.delayedSkill, a.delayedGame)
  }

  predicate NothingDelayed(a: OnlineAccount)
    reads a
  {
    a.delayedAppearance == None && a.delayedSkill == None && a.delayedGame == None
  }

  /** Emptying the slots some members name drops what waits for those. */
  lemma SlotsEmptied(a: Option<Json>, s: Option<Json>, g: Option<Json>, a': Option<Json>, s': Option<Json>, g': Option<Json>,
                     named: Members)
    requires a' == (if Contains(named, APPEARANCE) then None else a)
    requires s' == (if Contains(named, SKILL) then None else s)
    requires g' == (if Contains(named, GAME) then None else g)
    ensures var was := Delays(a, s, g); Delays(a', s', g') == map f | f in was && !Contains(named, f) :: was[f]
  {
    hide Contains;
    assert forall f :: f in DELAYED ==> Slot(f, a', s', g') == if Contains(named, f) then None else Slot(f, a, s, g);
  }

  lemma NoSlots()
    ensures Delays(None, None, None) == map[]
  {}

  // ---- Whom a member dresses ----

  const ACTIVE_POSE := "ActivePose"

  /** Nobody before this account in the list has its id. */
  predicate IsFirst(accounts: seq<OnlineAccount>, a: OnlineAccount) {
    exists i :: 0 <= i < |accounts| && accounts[i] == a && forall j :: 0 <= j < i ==> accounts[j].id != a.id
  }

  lemma FirstBehind(accounts: seq<OnlineAccount>, a: OnlineAccount)
    requires accounts != [] && accounts[0].id != a.id && IsFirst(accounts[1..], a)
    ensures IsFirst(accounts, a)
  {
    var rest := accounts[1..];
    var i :| 0 <= i < |rest| && rest[i] == a && forall j :: 0 <= j < i ==> rest[j].id != a.id;
    assert accounts[i + 1] == a && forall j :: 0 < j < i + 1 ==> accounts[j] == rest[j - 1];
  }

  /** The first account of that id. */
  function ById(accounts: seq<OnlineAccount>, id: string): (r: OnlineAccount?)
    ensures r != null ==> r in accounts && r.id == id && IsFirst(accounts, r)
    ensures r == null ==> forall a :: a in accounts ==> a.id != id
  {
    if accounts == [] then null
    else if accounts[0].id == id then accounts[0]
    else
      var found := ById(accounts[1..], id);
      if found == null then null else (FirstBehind(accounts, found); found)
  }

  /** Only in a room that does not ban the caller, only with a list for a look, and only someone the caller may dress. */
  function ToDress(acc: OnlineAccount, id: Option<string>, look: Option<Json>, allowed: set<OnlineAccount>): (r: OnlineAccount?)
    reads acc, acc.chatRoom
    ensures r != null ==>
              && acc.chatRoom != null && IsFirst(acc.chatRoom.accounts, r) && Some(r.id) == id && r in allowed
              && acc.member !in acc.chatRoom.ban && look.Some? && look.value.Array?
  {
    if id == None || id.value == "" || look == None || !look.value.Array? || acc.chatRoom == null then null
    else if acc.member in acc.chatRoom.ban then null
    else
      var found := ById(acc.chatRoom.accounts, id.value);
      if found == null || found !in allowed then null else found
  }

  function Posed(j: Json, pose: Option<Json>): Json {
    if pose.Some? then SetPath(j, PathOf(ACTIVE_POSE), pose.value) else j
  }

  lemma OnlyFirst(accounts: seq<OnlineAccount>, a: OnlineAccount, b: OnlineAccount)
    requires IsFirst(accounts, a) && IsFirst(accounts, b) && a.id == b.id
    ensures a == b
  {
    var i :| 0 <= i < |accounts| && accounts[i] == a && forall j :: 0 <= j < i ==> accounts[j].id != a.id;
    var k :| 0 <= k < |accounts| && accounts[k] == b && forall j :: 0 <= j < k ==> accounts[j].id != b.id;
    assert i == k;
  }

  /** Exactly when a member is dressed. */
  lemma DressesIff(acc: OnlineAccount, id: Option<string>, look: Option<Json>, allowed: set<OnlineAccount>, a: OnlineAccount)
    ensures ToDress(acc, id, look, allowed) == a <==>
            && id == Some(a.id) && a.id != "" && look.Some? && look.value.Array?
            && acc.chatRoom != null && acc.member !in acc.chatRoom.ban && IsFirst(acc.chatRoom.accounts, a) && a in allowed
  {
    if acc.chatRoom != null && id == Some(a.id) && IsFirst(acc.chatRoom.accounts, a) {
      assert a in acc.chatRoom.accounts;
      var found := ById(acc.chatRoom.accounts, a.id);
      assert found != null;
      OnlyFirst(acc.chatRoom.accounts, found, a);
    }
  }

  /** What dressing someone sets in memory: two fields of the account and no others. */
  lemma LooksDo(j: Json, look: Json, pose: Option<Json>)
    requires j.Object?
    ensures Posed(SetPath(j, PathOf("Appearance"), look), pose) ==
            Object(if pose.Some? then j.fields["Appearance" := look]["ActivePose" := pose.value]
                   else j.fields["Appearance" := look])
  {
    assert Free("Appearance", '.') && Free("ActivePose", '.');
    SplitFree("Appearance", '.');
    SplitFree("ActivePose", '.');
  }

  /** The three optionals of an account and the fields they hold back. */
  lemma DelaysAre(appearance: Option<Json>, skill: Option<Json>, game: Option<Json>, f: string)
    ensures var d := Delays(appearance, skill, game);
            && (f in d ==> f in {"Appearance", "Skill", "Game"})
            && ("Appearance" in d <==> appearance.Some?) && (appearance.Some? ==> d["Appearance"] == appearance.value)
            && ("Skill" in d <==> skill.Some?) && (skill.Some? ==> d["Skill"] == skill.value)
            && ("Game" in d <==> game.Some?) && (game.Some? ==> d["Game"] == game.value)
  {
    assert APPEARANCE == "Appearance" && SKILL == "Skill" && GAME == "Game" && |APPEARANCE| == 10 && |SKILL| == 5 && |GAME| == 4;
  }

  // ---- Records ----

  /** A record stored under its own name. */
  predicate Filed(record: Json, n: string) {
    record.Object? && NameOf(record) == Some(n)
  }

  /** All records after a merge into one of them, which is stored under the name it then has, if any. */
  function Merged(stored: map<string, Json>, n: string, members: Members): map<string, Json> {
    if n !in stored then stored
    else
      var record := MergeAll(stored[n], members);
      match NameOf(record)
      case None => stored
      case Some(name) => stored[name := record]
  }

  /** A merged record goes under the text in its AccountName; without such a text it is refused, and none is created. */
  lemma MergedDoes(stored: map<string, Json>, n: string, members: Members)
    ensures n !in stored ==> Merged(stored, n, members) == stored
    ensures n in stored ==>
              var record := MergeAll(stored[n], members);
              if record.Object? && "AccountName" in record.fields && record.fields["AccountName"].Text?
                 && record.fields["AccountName"].text != ""
              then Merged(stored, n, members) == stored[record.fields["AccountName"].text := record]
              else Merged(stored, n, members) == stored
  {
    hide MergeAll;
  }

  lemma MergedOne(stored: map<string, Json>, n: string, members: Members)
    requires n in stored && Filed(stored[n], n) && forall m :: m in members ==> m.0 in DELAYED
    ensures Merged(stored, n, members) == stored[n := Stored(stored[n], members)]
    ensures Filed(Stored(stored[n], members), n)
  {
    hide NameOf, DELAYED;
    DelayedMerge(stored[n], members);
  }

  /** What a flush that gets through makes of a session. */
  lemma FlushedAs(p: Profile)
    requires NameOf(p.disk).Some? && !Stuck(p)
    ensures Flush(p) == Profile(if Waiting(p.delayed) == [] then p.disk else Stored(p.disk, Waiting(p.delayed)), map[], p.keyed)
  {}

  /** What has been collected of these sessions: whatever waits, and none of it stuck. */
  ghost predicate IsWork(work: map<string, Members>, visited: set<string>, was: map<string, Profile>)
    requires visited <= was.Keys
  {
    && work.Keys <= visited
    && forall n :: n in visited ==>
         && !Stuck(was[n])
         && if n in work then work[n] == Waiting(was[n].delayed) != [] else Waiting(was[n].delayed) == []
  }

  lemma NoWork(was: map<string, Profile>)
    ensures IsWork(map[], {}, was)
  {}

  lemma NoneStuck(work: map<string, Members>, visited: set<string>, was: map<string, Profile>)
    requires visited <= was.Keys && IsWork(work, visited, was)
    ensures forall n :: n in visited ==> !Stuck(was[n])
  {}

  lemma OneCollected(work: map<string, Members>, visited: set<string>, was: map<string, Profile>, n: string)
    requires visited <= was.Keys && n in was && n !in visited && IsWork(work, visited, was)
    ensures var members := Waiting(was[n].delayed);
            if members == [] then IsWork(work, visited + {n}, was)
            else if was[n].keyed then IsWork(work[n := members], visited + {n}, was)
            else Stuck(was[n])
  {
    hide Waiting;
  }

  /** Storing the work is flushing every session. */
  lemma WorkFlushes(was: map<string, Profile>, online: set<string>, work: map<string, Members>)
    requires online <= was.Keys && IsWork(work, online, was) && forall n :: n in was ==> NameOf(was[n].disk).Some?
    ensures forall n :: n in online ==>
              Flush(was[n]) == Profile(if n in work then Stored(was[n].disk, work[n]) else was[n].disk, map[], was[n].keyed)
    ensures work.Keys <= online
    ensures forall n: string, m: (string, Json) :: n in work && m in work[n] ==> m.0 in DELAYED
  {
    hide Waiting, NameOf, Stored;
    forall n | n in online
      ensures Flush(was[n]) == Profile(if n in work then Stored(was[n].disk, work[n]) else was[n].disk, map[], was[n].keyed)
    {
      FlushedAs(was[n]);
    }
    forall n | n in work ensures forall m: (string, Json) :: m in work[n] ==> m.0 in DELAYED {
      WaitingMutable(was[n].delayed);
    }
  }

  class Keeper {
    /** The online accounts, by account name: one session each. */
    var sessions: map<string, OnlineAccount>
    /** The stored accounts, by account name. */
    var stored: map<string, Json>
    /** The loop that flushes from time to time still runs. */
    var flushing: bool

    constructor ()
      ensures Valid() && sessions == map[] && stored == map[] && flushing
    {
      sessions, stored, flushing := map[], map[], true;
    }

    ghost predicate Valid()
      reads this
    {
      && sessions.Keys <= stored.Keys
      && (forall n :: n in sessions ==> sessions[n].accountName == n)
      && (forall n :: n in stored ==> Filed(stored[n], n))
    }

    ghost function ProfileOf(n: string): Profile
      requires n in stored
      reads this, sessions.Values
    {
      if n in sessions then Profile(stored[n], DelayedOf(sessions[n]), ACCOUNT_NAME !in sessions[n].unread)
      else Profile(stored[n], map[], true)
    }

    /** `update_account_fields`, with the refusal of `put_account`. */
    method UpdateAccountFields(n: string, members: Members) returns (threw: bool)
      requires forall m :: m in stored ==> Filed(stored[m], m)
      modifies this`stored
      ensures stored == Merged(old(stored), n, members)
      ensures threw == (n in old(stored) && NameOf(MergeAll(old(stored)[n], members)) == None)
      ensures forall m :: m in stored ==> Filed(stored[m], m)
    {
      if n !in stored { return false; }
      var existing := new Document(stored[n]);
      var _ := existing.MergeSetFields(members);
      MergedField(stored[n], members, "");
      match NameOf(existing.root)
      case None => threw := true;
      case Some(name) => threw := false; stored := stored[name := existing.root];
    }

    /** Stores members under an account; what waits, and every other account, is not touched. */
    method Persist(acc: OnlineAccount, members: Members)
      requires Valid() && acc.accountName in stored && forall m :: m in members ==> m.0 !in IMMUTABLE
      modifies this`stored
      ensures Valid() && stored.Keys == old(stored.Keys)
      ensures stored == old(stored)[acc.accountName := Stored(old(stored)[acc.accountName], members)]
    {
      hide IMMUTABLE, NameOf;
      NameKept(stored[acc.accountName], members);
      if members != [] {
        var _ := UpdateAccountFields(acc.accountName, members);
      }
      assert stored == old(stored)[acc.accountName := stored[acc.accountName]];
    }

    /** The text fields that cannot be read are those marked. */
    predicate Typed(acc: OnlineAccount)
      reads acc, acc.data
    {
      acc.data.root.Object? && acc.unread == UnreadIn(acc.data.root)
    }

    /** `account_update`. */
    method AccountUpdate(acc: OnlineAccount, data: Members) returns (threw: bool)
      requires Valid() && acc.accountName in sessions && sessions[acc.accountName] == acc && Typed(acc)
      modifies this`stored, acc`delayedAppearance, acc`delayedSkill, acc`delayedGame, acc`unread, acc.data
      ensures Valid() && stored.Keys == old(stored.Keys) && Typed(acc)
      ensures threw == (ACCOUNT_NAME in old(acc.unread))
      ensures ProfileOf(acc.accountName) == Update(old(ProfileOf(acc.accountName)), data)
      ensures forall n :: n in stored && n != acc.accountName ==> ProfileOf(n) == old(ProfileOf(n))
      ensures acc.data.root == if threw then old(acc.data.root) else MergeAll(old(acc.data.root), Allowed(data))
    {
      hide IMMUTABLE, NameOf, Readable, Reaches, MergeAll, TEXT_FIELDS, APPEARANCE, SKILL, GAME, DELAYED;
      hide Filed, Stored, Erase;
      if ACCOUNT_NAME in acc.unread { return true; }
      var allowed := Allowed(data);
      MergeInMemory(acc, data);
      if |allowed| == 1 && allowed[0].0 in DELAYED {
        ghost var _ := OnlyMember(data);
        Delay(acc, allowed[0].0, allowed[0].1);
      } else {
        SettleUpdate(acc, allowed);
      }
      threw := false;
    }

    /** The merge into the account in memory, and the text fields it spoils. */
    method MergeInMemory(acc: OnlineAccount, data: Members)
      requires Typed(acc)
      modifies acc`unread, acc.data
      ensures Typed(acc) && acc.data.root == MergeAll(old(acc.data.root), Allowed(data))
      ensures ACCOUNT_NAME in acc.unread <==> ACCOUNT_NAME in old(acc.unread) || Reaches(Persisted(data), ACCOUNT_NAME)
    {
      hide IMMUTABLE, NameOf, Readable, Reaches;
      UnreadAfter(acc.data.root, data);
      ReachesPersisted(data, ACCOUNT_NAME);
      MergedField(acc.data.root, Allowed(data), "");
      var _ := acc.data.MergeSetFields(Allowed(data));
      acc.unread := acc.unread + Spoilt(Allowed(data));
    }

    /** The part of an update that is not kept waiting. */
    method SettleUpdate(acc: OnlineAccount, allowed: Members)
      requires Valid() && acc.accountName in sessions && sessions[acc.accountName] == acc
      requires forall m :: m in allowed ==> m.0 !in IMMUTABLE
      modifies this`stored, acc`delayedAppearance, acc`delayedSkill, acc`delayedGame
      ensures Valid()
      ensures stored == old(stored)[acc.accountName := Stored(old(stored)[acc.accountName], Erase(allowed, ["MapData"]))]
      ensures var was := old(DelayedOf(acc));
              DelayedOf(acc) == if |allowed| <= 1 then was else map f | f in was && !Contains(allowed, f) :: was[f]
    {
      hide Filed, NameOf, Stored, MergeAll, IMMUTABLE;
      if |allowed| > 1 {
        Supersede(acc, allowed);
      }
      Persist(acc, Erase(allowed, ["MapData"]));
    }

    /** Keeps one of the three fields waiting. */
    method Delay(acc: OnlineAccount, f: string, v: Json)
      requires f in DELAYED
      modifies acc`delayedAppearance, acc`delayedSkill, acc`delayedGame
      ensures DelayedOf(acc) == old(DelayedOf(acc))[f := v]
    {
      if f == APPEARANCE {
        acc.delayedAppearance := Some(v);
      } else if f == SKILL {
        acc.delayedSkill := Some(v);
      } else {
        acc.delayedGame := Some(v);
      }
    }

    /** An update of several fields supersedes what waits for those it names. */
    method Supersede(acc: OnlineAccount, allowed: Members)
      modifies acc`delayedAppearance, acc`delayedSkill, acc`delayedGame
      ensures var was := old(DelayedOf(acc));
              DelayedOf(acc) == map f | f in was && !Contains(allowed, f) :: was[f]
    {
      hide Slot, Delays, Contains;
      ghost var a, s, g := acc.delayedAppearance, acc.delayedSkill, acc.delayedGame;
      if Contains(allowed, APPEARANCE) { acc.delayedAppearance := None; }
      if Contains(allowed, SKILL) { acc.delayedSkill := None; }
      if Contains(allowed, GAME) { acc.delayedGame := None; }
      SlotsEmptied(a, s, g, acc.delayedAppearance, acc.delayedSkill, acc.delayedGame, allowed);
    }

    /** The members of the caller's room have sessions. */
    ghost predicate RoomOnline(room: ChatRoom)
      reads this, room, room.accounts
      reads set a | a in room.accounts :: a.data
    {
      forall a :: a in room.accounts ==>
        a.accountName in sessions && sessions[a.accountName] == a && a.data.root.Object?
    }

    /**
     `chat_room_character_update`: a member of the caller's room is dressed by id. `None` is a field the
     request does not have, or an id that is not text; `allowed` are those the caller may dress.
     */
    method CharacterUpdate(acc: OnlineAccount?, id: Option<string>, look: Option<Json>, pose: Option<Json>,
                           allowed: set<OnlineAccount>)
      returns (target: OnlineAccount?)
      requires Valid() && (acc != null && acc.chatRoom != null ==> RoomOnline(acc.chatRoom))
      modifies sessions.Values`delayedAppearance, sessions.Values`delayedSkill, sessions.Values`delayedGame
      modifies set a | a in sessions.Values :: a.data
      ensures target == if acc == null then null else old(ToDress(acc, id, look, allowed))
      ensures forall n :: n in stored ==>
                ProfileOf(n) == if target != null && n == target.accountName then Serve(old(ProfileOf(n)), Dress(look.value))
                                else old(ProfileOf(n))
      ensures target != null ==>
                target.data.root == Posed(SetPath(old(target.data.root), PathOf(APPEARANCE), look.value), pose)
      ensures forall a :: a in sessions.Values && (target == null || a.data != target.data) ==>
                a.data.root == old(a.data.root)
    {
      hide Filed, NameOf, DelayedOf, Serve;
      target := null;
      if id == None || id.value == "" || look == None || !look.value.Array? { return; }
      if acc == null || acc.chatRoom == null { return; }
      var room: ChatRoom := acc.chatRoom;
      if acc.member in room.ban { return; }
      var found := FindById(room, id.value);
      if found == null || found !in allowed { return; }
      target := found;
      DressIn(target, look.value, pose);
    }

    /** The first member of the room with that id, if any. */
    method FindById(room: ChatRoom, id: string) returns (found: OnlineAccount?)
      ensures found == ById(room.accounts, id)
    {
      var i := 0;
      while i < |room.accounts|
        invariant i <= |room.accounts| && ById(room.accounts, id) == ById(room.accounts[i..], id)
      {
        if room.accounts[i].id == id { return room.accounts[i]; }
        i := i + 1;
      }
      found := null;
    }

    /** The new look waits; the pose is set in memory only. */
    method DressIn(target: OnlineAccount, look: Json, pose: Option<Json>)
      requires Valid() && target.accountName in sessions && sessions[target.accountName] == target
      requires target.data.root.Object?
      modifies target`delayedAppearance, target`delayedSkill, target`delayedGame, target.data
      ensures target.data.root == Posed(SetPath(old(target.data.root), PathOf(APPEARANCE), look), pose)
      ensures ProfileOf(target.accountName) == Serve(old(ProfileOf(target.accountName)), Dress(look))
      ensures forall n :: n in stored && n != target.accountName ==> ProfileOf(n) == old(ProfileOf(n))
    {
      hide Delays, Slot, Filed, NameOf;
      Delay(target, APPEARANCE, look);
      Show(target.data, look, pose);
    }

    /** The look, and the pose if one is given, in memory. */
    method Show(data: Document, look: Json, pose: Option<Json>)
      requires data.root.Object?
      modifies data
      ensures data.root == Posed(SetPath(old(data.root), PathOf(APPEARANCE), look), pose)
    {
      var _ := data.MergeSetField(APPEARANCE, look);
      if pose.Some? {
        var _ := data.MergeSetField(ACTIVE_POSE, pose.value);
      }
    }

    /** What a session has waiting, as the members of one update. */
    method WaitingOf(acc: OnlineAccount) returns (members: Members)
      ensures members == Waiting(DelayedOf(acc))
    {
      members := [];
      if acc.delayedAppearance.Some? { members := members + [(APPEARANCE, acc.delayedAppearance.value)]; }
      if acc.delayedGame.Some? { members := members + [(GAME, acc.delayedGame.value)]; }
      if acc.delayedSkill.Some? { members := members + [(SKILL, acc.delayedSkill.value)]; }
    }

    /**
     `flush_delayed_updates`: the sessions' waiting values are collected, then stored. A session whose
     values cannot be stored throws while they are collected; then nothing is stored, and what had been
     taken from the sessions visited is gone.
     */
    method FlushDelayedUpdates() returns (threw: bool, ghost visited: set<string>)
      requires Valid()
      modifies this`stored
      modifies sessions.Values`delayedAppearance, sessions.Values`delayedSkill, sessions.Values`delayedGame
      ensures Valid() && stored.Keys == old(stored.Keys)
      ensures threw <==> exists n :: n in sessions && Stuck(old(ProfileOf(n)))
      ensures visited <= sessions.Keys
      ensures if threw then exists n :: n in visited && Stuck(old(ProfileOf(n))) else visited == sessions.Keys
      ensures forall n :: n in stored ==>
                ProfileOf(n) == if n in visited then Serve(old(ProfileOf(n)), FlushCall(!threw)) else old(ProfileOf(n))
    {
      hide NameOf, Waiting, Stored, DelayedOf, Filed, Flush;
      ghost var was := map n | n in stored :: ProfileOf(n);
      var work: map<string, Members>;
      work, threw, visited := CollectWork();
      if !threw { StoreCollected(was, work); }
    }

    /** Stores what has been collected from every session, which completes their flush. */
    method StoreCollected(ghost was: map<string, Profile>, work: map<string, Members>)
      requires Valid() && was.Keys == stored.Keys && IsWork(work, sessions.Keys, was)
      requires forall n :: n in stored ==>
                 ProfileOf(n) == if n in sessions then was[n].(delayed := map[]) else was[n]
      modifies this`stored
      ensures Valid() && stored.Keys == old(stored.Keys)
      ensures forall n :: n in stored ==> ProfileOf(n) == if n in sessions then Flush(was[n]) else was[n]
    {
      hide NameOf, Waiting, Stored, DelayedOf, IsWork, Filed;
      StoreRecords(was, work);
    }

    /** The same, as far as the records go. */
    method StoreRecords(ghost was: map<string, Profile>, work: map<string, Members>)
      requires Valid() && was.Keys == stored.Keys && IsWork(work, sessions.Keys, was)
      requires forall n :: n in stored ==> stored[n] == was[n].disk
      modifies this`stored
      ensures Valid() && stored.Keys == old(stored.Keys)
      ensures forall n :: n in stored ==> stored[n] == if n in sessions then Flush(was[n]).disk else was[n].disk
    {
      hide NameOf, Waiting, Stored, Flush, IsWork;
      assert forall n :: n in stored ==> Filed(stored[n], n);
      WorkFlushes(was, sessions.Keys, work);
      StoreWork(work);
    }

    /** Empties the sessions' waiting fields, up to one that is stuck; what they held is the work to store. */
    method CollectWork() returns (work: map<string, Members>, threw: bool, ghost visited: set<string>)
      requires Valid()
      modifies sessions.Values`delayedAppearance, sessions.Values`delayedSkill, sessions.Values`delayedGame
      ensures visited <= sessions.Keys && (!threw ==> visited == sessions.Keys)
      ensures threw <==> exists n :: n in visited && Stuck(old(ProfileOf(n)))
      ensures forall n :: n in stored ==>
                ProfileOf(n) == if n in visited then old(ProfileOf(n)).(delayed := map[]) else old(ProfileOf(n))
      ensures !threw ==> IsWork(work, visited, old(map n | n in stored :: ProfileOf(n)))
    {
      hide Slot, Delays, Waiting, WaitingFor, NameOf, Filed, IsWork, Stuck;
      NoSlots();
      ghost var was := map n | n in stored :: ProfileOf(n);
      work, threw, visited := Collect(was);
      if !threw { NoneStuck(work, visited, was); }
    }

    /** The loop itself. */
    method Collect(ghost was: map<string, Profile>)
      returns (work: map<string, Members>, threw: bool, ghost visited: set<string>)
      requires Valid() && sessions.Keys <= was.Keys
      requires forall n :: n in sessions ==>
                 was[n].delayed == DelayedOf(sessions[n]) && (was[n].keyed <==> ACCOUNT_NAME !in sessions[n].unread)
      modifies sessions.Values`delayedAppearance, sessions.Values`delayedSkill, sessions.Values`delayedGame
      ensures visited <= sessions.Keys && (!threw ==> visited == sessions.Keys)
      ensures forall n :: n in sessions ==> if n in visited then NothingDelayed(sessions[n]) else Untouched(sessions[n])
      ensures if threw then exists n :: n in visited && Stuck(was[n]) else IsWork(work, visited, was)
    {
      hide Slot, Delays, Waiting, WaitingFor, NameOf, Filed, IsWork, Stuck;
      NoWork(was);
      var todo := sessions.Keys;
      work, threw, visited := map[], false, {};
      while todo != {} && !threw
        invariant todo <= sessions.Keys && visited == sessions.Keys - todo
        invariant forall n :: n in todo ==> Untouched(sessions[n])
        invariant forall n :: n in visited ==> NothingDelayed(sessions[n])
        invariant if threw then exists n :: n in visited && Stuck(was[n]) else IsWork(work, visited, was)
        decreases todo
      {
        var n :| n in todo;
        work, threw := CollectOne(sessions[n], n, work, visited, was);
        todo, visited := todo - {n}, visited + {n};
      }
    }

    /** One session's share of the work. */
    method CollectOne(acc: OnlineAccount, n: string, work: map<string, Members>, ghost visited: set<string>,
                      ghost was: map<string, Profile>)
      returns (more: map<string, Members>, threw: bool)
      requires n in was && n !in visited && visited <= was.Keys && IsWork(work, visited, was)
      requires was[n].delayed == DelayedOf(acc) && (was[n].keyed <==> ACCOUNT_NAME !in acc.unread)
      modifies acc`delayedAppearance, acc`delayedSkill, acc`delayedGame
      ensures NothingDelayed(acc)
      ensures if threw then Stuck(was[n]) else IsWork(more, visited + {n}, was)
    {
      hide Slot, Delays, Waiting, WaitingFor, NameOf, Filed, IsWork, Stuck, NothingDelayed;
      more, threw := work, false;
      var members := TakeWaiting(acc);
      OneCollected(work, visited, was, n);
      if members != [] {
        if ACCOUNT_NAME in acc.unread { threw := true; } else { more := work[n := members]; }
      }
    }

    /** One round of `delayed_update_loop`, which does not survive a flush that throws. */
    method DelayedUpdateRound()
      requires Valid()
      modifies this`stored, this`flushing
      modifies sessions.Values`delayedAppearance, sessions.Values`delayedSkill, sessions.Values`delayedGame
      ensures Valid() && stored.Keys == old(stored.Keys)
      ensures flushing == (old(flushing) && forall n :: n in sessions ==> !Stuck(old(ProfileOf(n))))
      ensures !old(flushing) ==> forall n :: n in stored ==> ProfileOf(n) == old(ProfileOf(n))
    {
      hide Filed, NameOf, Waiting, Stored, Flush;
      if flushing {
        var threw, _ := FlushDelayedUpdates();
        if threw { flushing := false; }
      }
    }

    static twostate predicate Untouched(a: OnlineAccount)
      reads a
    {
      && a.delayedAppearance == old(a.delayedAppearance)
      && a.delayedSkill == old(a.delayedSkill)
      && a.delayedGame == old(a.delayedGame)
    }

    method TakeWaiting(acc: OnlineAccount) returns (members: Members)
      modifies acc`delayedAppearance, acc`delayedSkill, acc`delayedGame
      ensures members == Waiting(old(DelayedOf(acc))) && NothingDelayed(acc)
    {
      members := WaitingOf(acc);
      acc.delayedAppearance, acc.delayedSkill, acc.delayedGame := None, None, None;
    }

    method StoreWork(work: map<string, Members>)
      requires Valid() && work.Keys <= stored.Keys
      requires forall n: string, m: (string, Json) :: n in work && m in work[n] ==> m.0 in DELAYED
      modifies this`stored
      ensures Valid() && stored.Keys == old(stored.Keys)
      ensures forall n :: n in stored ==> stored[n] == if n in work then Stored(old(stored)[n], work[n]) else old(stored)[n]
    {
      hide NameOf, MergeAll, DELAYED, Stored, Merged, Filed;
      var todo := work.Keys;
      while todo != {}
        invariant todo <= work.Keys && Valid() && stored.Keys == old(stored.Keys)
        invariant forall n :: n in stored ==>
                    stored[n] == if n in work && n !in todo then Stored(old(stored)[n], work[n]) else old(stored)[n]
        decreases todo
      {
        var n :| n in todo;
        MergedOne(stored, n, work[n]);
        var _ := UpdateAccountFields(n, work[n]);
        todo := todo - {n};
      }
    }

    /** The end of a session: what waits is stored, unless the account's name cannot be read. */
    method RemoveAccount(acc: OnlineAccount) returns (threw: bool)
      requires Valid() && acc.accountName in sessions && sessions[acc.accountName] == acc
      modifies this
      ensures Valid() && stored.Keys == old(stored.Keys) && sessions == old(sessions) - {acc.accountName}
      ensures threw == (ACCOUNT_NAME in acc.unread)
      ensures ProfileOf(acc.accountName) == Serve(old(ProfileOf(acc.accountName)), EndSession)
      ensures forall n :: n in stored && n != acc.accountName ==> ProfileOf(n) == old(ProfileOf(n))
    {
      hide NameOf, MergeAll, DelayedOf, Waiting, Stored, Filed;
      sessions := sessions - {acc.accountName};
      if ACCOUNT_NAME in acc.unread { return true; }
      var persist := WaitingOf(acc);
      WaitingMutable(DelayedOf(acc));
      Persist(acc, persist);
      threw := false;
    }
  }

  lemma WaitingMutable(delayed: map<string, Json>)
    ensures forall m :: m in Waiting(delayed) ==> m.0 in DELAYED && m.0 !in IMMUTABLE
  {
    SlotMutable(APPEARANCE);
    SlotMutable(SKILL);
    SlotMutable(GAME);
  }
}
