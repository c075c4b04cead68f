/** The ownership and lovership handlers, editing online accounts and the database in place. */
module AccountManager {
  import opened Options
  import opened Lovers
  import opened Relationships
  import opened GameState
  import opened JsonMerge
  import opened AccountFields

  class Manager {
    /** The accounts with a session, by member number. */
    var byMember: map<int, OnlineAccount>
    /** The relationship fields of every stored account. */
    var stored: map<int, Ties>

    constructor ()
      ensures Valid() && WorldNow() == EMPTY_WORLD
    {
      byMember, stored := map[], map[];
    }

    ghost predicate Valid()
      reads this, byMember.Values
    {
      && byMember.Keys <= stored.Keys
      && (forall m :: m in byMember ==> byMember[m].member == m && Distinct(byMember[m].lovers))
      && (forall m :: m in stored ==> Distinct(stored[m].lovers))
    }

    ghost function WorldNow(): World
      reads this, byMember.Values
    {
      World(map m | m in byMember :: Ties(byMember[m].owner, byMember[m].ownership, byMember[m].lovers), stored, Unkeyed())
    }

    /** The sessions whose account name is no text. */
    ghost function Unkeyed(): set<int>
      reads this, byMember.Values
    {
      set m | m in byMember && ACCOUNT_NAME in byMember[m].unread
    }

    /** Everyone in the caller's room has a session. */
    ghost predicate RoomPresent(acc: OnlineAccount)
      reads this, acc, acc.chatRoom
    {
      acc.chatRoom != null ==>
        forall a :: a in acc.chatRoom.accounts ==> a.member in byMember && byMember[a.member] == a
    }

    /**
     What a call by `acc` about `target` finds around it; `unsendable` when a room could not be sent the
     target's data.
     */
    ghost function SceneFor(acc: OnlineAccount, target: int, delay: int, unsendable: bool): Scene
      reads this, acc, acc.chatRoom, byMember.Values
      requires RoomPresent(acc)
    {
      var present := acc.chatRoom != null && exists a :: a in acc.chatRoom.accounts && a.member == target;
      Scene(acc.chatRoom != null, present,
            present && acc.member in byMember[target].blackList,
            acc.difficulty, NameIn(acc), if present then NameIn(byMember[target]) else None,
            unsendable && target in byMember && byMember[target].chatRoom != null, delay)
    }

    // ---- Sessions ----

    /** A new account, stored without ties and logged in at once. */
    method CreateAccount(id: string, accountName: string, member: int, name: string, environment: string, profile: Json)
      returns (a: OnlineAccount)
      requires Valid() && member !in stored && Readable(profile, ACCOUNT_NAME)
      modifies this
      ensures Valid() && fresh(a) && byMember == old(byMember)[member := a]
      ensures forall st: State, b: Bounds | st.world == old(WorldNow()) && Enabled(st, Create(member), b) ::
                WorldNow() == Step(st, Create(member), b).world
    {
      hide Valid, WorldNow;
      AddStored(member);
      a := new OnlineAccount(id, accountName, member, name, environment, profile, [], None, NO_TIES);
      Admit(a);
    }

    /** A stored record without ties. */
    method AddStored(member: int)
      requires Valid() && member !in stored
      modifies this`stored
      ensures Valid() && stored == old(stored)[member := NO_TIES]
      ensures WorldNow() == old(WorldNow()).(disk := old(WorldNow()).disk[member := NO_TIES])
    {
      stored := stored[member := NO_TIES];
    }

    /** A session's account, entered under its member number. */
    method Admit(a: OnlineAccount)
      requires Valid() && a.member in stored && Distinct(a.lovers) && ACCOUNT_NAME !in a.unread
      modifies this`byMember
      ensures Valid() && byMember == old(byMember)[a.member := a]
      ensures WorldNow() == World(old(WorldNow()).online[a.member := Ties(a.owner, a.ownership, a.lovers)],
                                  old(WorldNow()).disk, old(WorldNow()).unkeyed - {a.member})
    {
      byMember := byMember[a.member := a];
      assert Unkeyed() == old(Unkeyed()) - {a.member};
    }

    /** A session opened on a stored account: memory starts as a copy of the database. */
    method LoginAccount(id: string, accountName: string, member: int, name: string, environment: string, profile: Json,
                        blackList: seq<int>, difficulty: Option<int>)
      returns (a: OnlineAccount)
      requires Valid() && member in stored && Readable(profile, ACCOUNT_NAME)
      modifies this`byMember
      ensures Valid() && fresh(a) && byMember == old(byMember)[member := a]
      ensures forall st: State, b: Bounds | st.world == old(WorldNow()) && Enabled(st, Login(member), b) ::
                WorldNow() == Step(st, Login(member), b).world
    {
      a := new OnlineAccount(id, accountName, member, name, environment, profile, blackList, difficulty, stored[member]);
      Admit(a);
    }

    /** A session ended: memory is dropped, the database is not touched. */
    method RemoveAccount(member: int)
      requires Valid()
      modifies this`byMember
      ensures Valid() && byMember == old(byMember) - {member}
      ensures forall st: State, b: Bounds | st.world == old(WorldNow()) ::
                WorldNow() == Step(st, Logout(member), b).world
    {
      ghost var was := byMember;
      byMember := byMember - {member};
      assert forall m :: m in was && m != member ==> m in byMember && byMember[m] == was[m];
      assert forall m :: m in Unkeyed() <==> m in old(Unkeyed()) && m != member;
      assert Unkeyed() == old(Unkeyed()) - {member};
    }

    /** An update of a profile that reaches the account's name. */
    twostate lemma Misnamed(a: OnlineAccount, b: Bounds)
      requires old(Valid()) && byMember == old(byMember) && stored == old(stored)
      requires a.member in byMember && byMember[a.member] == a
      requires ACCOUNT_NAME in a.unread
      requires forall m :: m in byMember ==>
                 && byMember[m].owner == old(byMember[m].owner)
                 && byMember[m].ownership == old(byMember[m].ownership)
                 && byMember[m].lovers == old(byMember[m].lovers)
                 && (m != a.member ==> byMember[m].unread == old(byMember[m].unread))
      ensures forall clock: int :: WorldNow() == Step(State(old(WorldNow()), clock), Misname(a.member), b).world
    {
      assert forall m :: m in Unkeyed() <==> m in old(Unkeyed()) || m == a.member;
      assert Unkeyed() == old(Unkeyed()) + {a.member};
      ghost var was, after := old(WorldNow()).online, WorldNow().online;
      assert after.Keys == was.Keys;
      assert forall m :: m in was ==> after[m] == was[m];
    }

    // ---- Ownership ----

    /** Looks the target up in the caller's room, and settles the scene of the call. */
    method FindTarget(acc: OnlineAccount, targetMember: int, delay: int, ghost unsendable: bool)
      returns (target: OnlineAccount?, ghost s: Scene)
      requires RoomPresent(acc)
      ensures s == SceneFor(acc, targetMember, delay, unsendable)
      ensures s.inRoom == (acc.chatRoom != null) && s.targetInRoom == (target != null) && (s.targetInRoom ==> s.inRoom)
      ensures target == null <==> acc.chatRoom == null || forall a :: a in acc.chatRoom.accounts ==> a.member != targetMember
      ensures s.level == acc.difficulty && s.myName == NameIn(acc) && s.delay == delay
      ensures s.myName == if "Name" in acc.unread then None else Some(acc.name)
      ensures s.unsent == (unsendable && targetMember in byMember && byMember[targetMember].chatRoom != null)
      ensures target != null ==>
                && targetMember in byMember && byMember[targetMember] == target && target.member == targetMember
                && s.blocked == (acc.member in target.blackList) && s.targetName == NameIn(target)
    {
      s := SceneFor(acc, targetMember, delay, unsendable);
      target := null;
      if acc.chatRoom != null {
        target := FindInRoom(acc.chatRoom, targetMember);
      }
    }

    /** `persist_fields` with the two ownership fields. */
    method PersistOwnershipFields(m: int, owner: string, o: Ownership)
      modifies this`stored
      ensures stored == PersistOwnership(old(stored), m, owner, o)
    {
      if m in stored {
        stored := stored[m := stored[m].(owner := owner, ownership := o)];
      }
    }

    /** Writes one account's ownership in memory and then, if its name can be read, in the database. */
    method WriteOwnership(a: OnlineAccount, owner: string, o: Ownership) returns (threw: bool)
      requires Valid() && a.member in byMember && byMember[a.member] == a
      modifies this`stored, a`owner, a`ownership
      ensures Valid() && WorldNow() == SetOwnership(old(WorldNow()), a.member, owner, o)
      ensures threw == (ACCOUNT_NAME in a.unread)
    {
      a.owner, a.ownership := owner, o;
      threw := ACCOUNT_NAME in a.unread;
      if !threw { PersistOwnershipFields(a.member, owner, o); }
      OneChanged(a);
    }

    /** The notes go to memory; they are stored if the name can be read and the text is whole. */
    method WriteNotes(a: OnlineAccount, notes: Option<string>, maxLen: nat)
      requires Valid() && a.member in byMember && byMember[a.member] == a && a.ownership.Collar?
      modifies this`stored, a`ownership
      ensures Valid() && WorldNow() == SetNotes(old(WorldNow()), a.member, notes, maxLen)
    {
      hide Splits, NotesText;
      a.ownership := a.ownership.(notes := NotesText(notes, maxLen));
      if ACCOUNT_NAME !in a.unread && !Splits(notes, maxLen) { PersistOwnershipFields(a.member, a.owner, a.ownership); }
      OneChanged(a);
    }

    lemma InMemory(a: OnlineAccount)
      requires a.member in byMember && byMember[a.member] == a
      ensures a.member in WorldNow().online
      ensures WorldNow().online[a.member] == Ties(a.owner, a.ownership, a.lovers) && WorldNow().disk == stored
      ensures a.member in WorldNow().unkeyed <==> ACCOUNT_NAME in a.unread
    {}

    twostate lemma UnkeyedStays()
      requires byMember == old(byMember) && forall m :: m in byMember ==> byMember[m].unread == old(byMember[m].unread)
      ensures Unkeyed() == old(Unkeyed())
    {
      assert forall m :: m in Unkeyed() <==> m in old(Unkeyed());
    }

    /** Editing one account edits one entry of the in-memory world. */
    twostate lemma OneChanged(a: OnlineAccount)
      requires old(Valid()) && byMember == old(byMember) && a.member in byMember && byMember[a.member] == a
      requires forall m :: m in byMember && m != a.member ==>
                 && byMember[m].owner == old(byMember[m].owner)
                 && byMember[m].ownership == old(byMember[m].ownership)
                 && byMember[m].lovers == old(byMember[m].lovers)
      requires forall m :: m in byMember ==> byMember[m].unread == old(byMember[m].unread)
      ensures WorldNow() == World(old(WorldNow()).online[a.member := Ties(a.owner, a.ownership, a.lovers)], stored,
                                  old(WorldNow()).unkeyed)
      ensures old(WorldNow()).disk == old(stored)
      ensures a.member in old(WorldNow()).unkeyed <==> ACCOUNT_NAME in a.unread
    {
      UnkeyedStays();
      ghost var was, after := old(WorldNow()).online, WorldNow().online;
      assert after.Keys == was.Keys;
      assert forall m :: m in was && m != a.member ==> after[m] == was[m];
    }

    method AccountOwnership(acc: OnlineAccount, targetMember: int, action: string, notes: Option<string>, maxLen: nat,
                            delay: int, now: int)
      requires Valid() && acc.member in byMember && byMember[acc.member] == acc && RoomPresent(acc)
      modifies this`stored, byMember.Values`owner, byMember.Values`ownership
      ensures Valid()
      ensures WorldNow() == OwnershipStep(old(WorldNow()), acc.member, targetMember, action, notes, maxLen,
                                          old(SceneFor(acc, targetMember, delay, false)), now)
    {
      hide Distinct, ReleaseAway, ProposeOwner, AcceptOwner, SetOwnership, WorldNow, SceneFor;
      InMemory(acc);
      var target, s := FindTarget(acc, targetMember, delay, false);
      var done := OwnershipBreak(acc, action, delay, now);
      if done || acc.chatRoom == null { return; }
      if target == null && action == "Release" {
        ReleaseAbsent(acc.member, targetMember);
        return;
      }
      if target == null { return; }
      InMemory(target);
      OwnershipInRoom(acc, target, action, notes, maxLen, delay, now, s);
    }

    /** The break branch; `done` when it settles the call. */
    method OwnershipBreak(acc: OnlineAccount, action: string, delay: int, now: int) returns (done: bool)
      requires Valid() && acc.member in byMember && byMember[acc.member] == acc
      modifies this`stored, acc`owner, acc`ownership
      ensures Valid()
      ensures done == (action == "Break" && MayBreakCollar(old(acc.ownership), acc.difficulty, delay, now))
      ensures WorldNow() == if done then SetOwnership(old(WorldNow()), acc.member, "", Free) else old(WorldNow())
      ensures !done ==> acc.ownership == old(acc.ownership) && acc.owner == old(acc.owner)
    {
      done := false;
      if acc.ownership.Collar? && (acc.ownership.stage == 0 || acc.ownership.start + delay <= now) && action == "Break" {
        if acc.difficulty.None? || acc.difficulty.value <= 2 || acc.ownership.stage == 0 {
          var _ := WriteOwnership(acc, "", Free);
          return true;
        }
      }
    }

    /** The part of the handler that has both parties in one room. */
    method OwnershipInRoom(acc: OnlineAccount, target: OnlineAccount, action: string, notes: Option<string>,
                           maxLen: nat, delay: int, now: int, ghost s: Scene)
      requires Valid() && acc.member in byMember && byMember[acc.member] == acc
      requires target.member in byMember && byMember[target.member] == target
      requires s.blocked == (acc.member in target.blackList) && s.delay == delay && s.targetName == NameIn(target)
      modifies this`stored, acc`owner, acc`ownership, target`owner, target`ownership
      ensures Valid()
      ensures WorldNow() ==
              var w, my := old(WorldNow()), acc.member;
              var o := w.online[target.member].ownership;
              if action == "UpdateNotes" && OwnedBy(o, my) && o.stage == 1 then
                SetNotes(w, target.member, notes, maxLen)
              else if action == "Release" && OwnedBy(o, my) then SetOwnership(w, target.member, "", Free)
              else AcceptOwner(ProposeOwner(w, my, target.member, action, s, now), my, target.member, action, s, now)
    {
      var my, o := acc.member, target.ownership;
      if action == "UpdateNotes" && o.Collar? && o.stage == 1 && o.member == my {
        WriteNotes(target, notes, maxLen);
        return;
      }
      if action == "Release" && o.Collar? && o.member == my {
        var _ := WriteOwnership(target, "", Free);
        return;
      }
      ProposeCollar(acc, target, action, delay, now, s);
      AcceptCollar(acc, target, action, now, s);
    }

    /** The database says whether the caller owns someone who is not in the room; the record is found by number. */
    method ReleaseAbsent(my: int, targetMember: int)
      requires Valid()
      modifies this`stored, byMember.Values`owner, byMember.Values`ownership
      ensures Valid() && WorldNow() == ReleaseAway(old(WorldNow()), my, targetMember)
    {
      if targetMember in stored && OwnedBy(stored[targetMember].ownership, my) {
        PersistOwnershipFields(targetMember, "", Free);
        if targetMember in byMember {
          var target := byMember[targetMember];
          target.owner, target.ownership := "", Free;
          OneChanged(target);
        }
      }
    }

    method ProposeCollar(acc: OnlineAccount, target: OnlineAccount, action: string, delay: int, now: int, ghost s: Scene)
      requires Valid() && acc.member in byMember && byMember[acc.member] == acc
      requires target.member in byMember && byMember[target.member] == target
      requires s.blocked == (acc.member in target.blackList) && s.delay == delay
      modifies target`owner, target`ownership
      ensures Valid()
      ensures WorldNow() == ProposeOwner(old(WorldNow()), acc.member, target.member, action, s, now)
    {
      hide WorldNow, Distinct;
      InMemory(acc);
      InMemory(target);
      var my := acc.member;
      var mineIsTarget := acc.ownership.Collar? && acc.ownership.member == target.member;
      if !mineIsTarget && my !in target.blackList && target.owner == "" {
        if !target.ownership.Collar? {
          if my != target.member && action == "Propose" {
            target.owner := "";
            target.ownership := TrialOffer(my);
          }
        }
        if target.ownership.Collar? && target.ownership.member == my && target.ownership.endOffer.None?
           && target.ownership.stage == 0 && target.ownership.start + delay <= now {
          if action == "Propose" {
            target.ownership := target.ownership.(endOffer := Some(my));
          }
        }
      }
      OneChanged(target);
      assert old(WorldNow()).online == old(WorldNow()).online[target.member := old(WorldNow()).online[target.member]];
    }

    method AcceptCollar(acc: OnlineAccount, target: OnlineAccount, action: string, now: int, ghost s: Scene)
      requires Valid() && acc.member in byMember && byMember[acc.member] == acc
      requires target.member in byMember && byMember[target.member] == target
      requires s.blocked == (acc.member in target.blackList) && s.targetName == NameIn(target)
      modifies this`stored, acc`owner, acc`ownership
      ensures Valid()
      ensures WorldNow() == AcceptOwner(old(WorldNow()), acc.member, target.member, action, s, now)
    {
      InMemory(acc);
      var o := acc.ownership;
      if (o.TrialOffer? || (o.Collar? && o.member == target.member)) && acc.member !in target.blackList {
        if o == TrialOffer(target.member) && action == "Accept" {
          if NAME in target.unread { return; }
          var threw := WriteOwnership(acc, "", Collar(target.member, target.name, now, 0, None, None));
          if threw { return; }
        }
        o := acc.ownership;
        if o.Collar? && o.stage == 0 && o.endOffer == Some(target.member) && action == "Accept" {
          if NAME in target.unread { return; }
          var _ := WriteOwnership(acc, target.name, Collar(target.member, target.name, now, 1, None, None));
        }
      }
    }

    // ---- Lovership ----

    /** `lover_index`: a scan for the first entry with that key. */
    method LoverIndex(ls: seq<Lover>, member: int) returns (at: int)
      ensures at == IndexOf(ls, member)
    {
      var i := 0;
      while i < |ls|
        invariant 0 <= i <= |ls|
        invariant forall k :: 0 <= k < i ==> Key(ls[k]) != member
      {
        if Key(ls[i]) == member {
          FirstKey(ls, i, member);
          return i;
        }
        i := i + 1;
      }
      at := -1;
    }

    /** The scans of the break handler: a bond with that member, offers passed over. */
    method FindBond(ls: seq<Lover>, member: int) returns (at: int)
      ensures at == BondIndex(ls, member)
    {
      var i := 0;
      while i < |ls|
        invariant 0 <= i <= |ls|
        invariant forall k :: 0 <= k < i ==> !(ls[k].Bond? && ls[k].member == member)
      {
        if ls[i].Bond? && ls[i].member == member {
          FirstBond(ls, i, member);
          return i;
        }
        i := i + 1;
      }
      at := -1;
    }

    /** Drops a member's bond by the handler's scan from the back. */
    method EraseBond(ls: seq<Lover>, member: int) returns (r: seq<Lover>)
      requires Distinct(ls)
      ensures r == Dropped(ls, member)
    {
      r := ls;
      var i := |ls| - 1;
      while i >= 0
        invariant -1 <= i < |ls|
        invariant forall k :: i < k < |ls| ==> !(ls[k].Bond? && ls[k].member == member)
      {
        if ls[i].Bond? && ls[i].member == member {
          return ls[..i] + ls[i + 1..];
        }
        i := i - 1;
      }
    }

    /** `update_lovership`: strips the list from the back and stores it. */
    method UpdateLovership(ls: seq<Lover>, member: int) returns (r: seq<Lover>)
      modifies this`stored
      ensures r == Strip(ls) && stored == PersistLovers(old(stored), member, r)
    {
      r := ls;
      var i := |ls| - 1;
      assert ls[|ls|..] == [];
      while i >= 0
        invariant -1 <= i < |ls|
        invariant r == ls[..i + 1] + Strip(ls[i + 1..])
        invariant stored == old(stored)
      {
        ghost var tail := Strip(ls[i + 1..]);
        assert ls[i..][0] == ls[i] && ls[i..][1..] == ls[i + 1..];
        assert ls[..i + 1] == ls[..i] + [ls[i]];
        assert r == ls[..i] + [ls[i]] + tail;
        if r[i].Bond? {
          r := r[i := r[i].(engagement := None, wedding := None)];
          assert r == ls[..i] + ([Cleared(ls[i])] + tail);
        } else {
          r := r[..i] + r[i + 1..];
          assert r == ls[..i] + tail;
        }
        i := i - 1;
      }
      assert ls[..0] == [] && ls[0..] == ls;
      if member in stored {
        stored := stored[member := stored[member].(lovers := r)];
      }
    }

    /** Strips and stores a list and makes it the account's. */
    method SaveLovership(a: OnlineAccount, ls: seq<Lover>)
      requires Valid() && a.member in byMember && byMember[a.member] == a && Distinct(ls)
      modifies this`stored, a`lovers
      ensures Valid() && WorldNow() == SaveLovers(old(WorldNow()), a.member, ls)
    {
      var r := UpdateLovership(ls, a.member);
      StripDistinct(ls);
      a.lovers := r;
      OneChanged(a);
    }

    method AccountLovership(acc: OnlineAccount, targetMember: int, action: string, named: bool, delay: int,
                            now: int, later: int, unsendable: bool)
      requires Valid() && acc.member in byMember && byMember[acc.member] == acc && RoomPresent(acc)
      modifies this`stored, byMember.Values`lovers
      ensures Valid()
      ensures WorldNow() == LovershipStep(old(WorldNow()), acc.member, targetMember, action, named,
                                          old(SceneFor(acc, targetMember, delay, unsendable)), now, later)
    {
      hide Distinct, SaveLovers, BreakBond, AcceptLove, ProposeLove, WorldNow, SceneFor;
      InMemory(acc);
      var target, s := FindTarget(acc, targetMember, delay, unsendable);
      if action == "Break" {
        var done := LovershipBreak(acc, targetMember, named, delay, now, unsendable, s);
        if done { return; }
      }
      if target == null || acc.member in target.blackList || target == acc { return; }
      InMemory(target);
      LovershipInRoom(acc, target, action, delay, now, later, s);
    }

    /** The break branch; `done` when it settles the call. */
    method LovershipBreak(acc: OnlineAccount, targetMember: int, named: bool, delay: int, now: int, unsendable: bool,
                          ghost s: Scene)
      returns (done: bool)
      requires Valid() && acc.member in byMember && byMember[acc.member] == acc
      requires s.unsent == (unsendable && targetMember in byMember && byMember[targetMember].chatRoom != null)
      modifies this`stored, byMember.Values`lovers
      ensures Valid()
      ensures var w, mine := old(WorldNow()), old(acc.lovers);
              if MayBreakBond(mine, targetMember, delay, now) then
                done && WorldNow() == BreakBond(w, acc.member, targetMember, s.unsent)
              else if BondWith(mine, targetMember).None? && targetMember < 0 && named then
                done && WorldNow() == SaveLovers(w, acc.member, mine)
              else !done && WorldNow() == w && forall a :: a in byMember.Values ==> a.lovers == old(a.lovers)
    {
      done := false;
      var al := FindBond(acc.lovers, targetMember);
      if al >= 0 {
        var bond := acc.lovers[al];
        if bond.stage != 2 || bond.start + delay <= now {
          BreakLovership(acc, targetMember, unsendable, s);
          return true;
        }
      } else if targetMember < 0 && named {
        SaveLovership(acc, acc.lovers);
        return true;
      }
    }

    /** The proposal side, then the acceptance side. */
    method LovershipInRoom(acc: OnlineAccount, target: OnlineAccount, action: string, delay: int, now: int, later: int,
                           ghost s: Scene)
      requires Valid() && acc.member in byMember && byMember[acc.member] == acc
      requires target.member in byMember && byMember[target.member] == target && target != acc
      requires s.delay == delay && s.myName == NameIn(acc) && s.targetName == NameIn(target)
      modifies this`stored, acc`lovers, target`lovers
      ensures Valid()
      ensures WorldNow() ==
              AcceptLove(ProposeLove(old(WorldNow()), acc.member, target.member, action, s, now),
                         acc.member, target.member, action, s, now, later)
    {
      ProposeBond(acc, target, action, delay, now, s);
      AcceptBond(acc, target, action, now, later, s);
    }

    /** The background half of a break, run at once; it ends early when the other side's room cannot be told. */
    method BreakLovership(acc: OnlineAccount, targetMember: int, unsendable: bool, ghost s: Scene)
      requires Valid() && acc.member in byMember && byMember[acc.member] == acc
      requires s.unsent == (unsendable && targetMember in byMember && byMember[targetMember].chatRoom != null)
      modifies this`stored, byMember.Values`lovers
      ensures Valid() && WorldNow() == BreakBond(old(WorldNow()), acc.member, targetMember, s.unsent)
    {
      hide Strip, BondIndex, IndexOf, Distinct, Key, SaveLovers;
      var threw := ForsakeMember(targetMember, acc.member, unsendable, s);
      if threw || targetMember == acc.member { return; }
      var lv := EraseBond(acc.lovers, targetMember);
      DropBond(acc.lovers, targetMember, targetMember);
      SaveLovership(acc, lv);
    }

    /** The stored list of the other side loses the bond; a session of theirs takes that list over first. */
    method ForsakeMember(targetMember: int, my: int, unsendable: bool, ghost s: Scene) returns (threw: bool)
      requires Valid()
      requires s.unsent == (unsendable && targetMember in byMember && byMember[targetMember].chatRoom != null)
      modifies this`stored, byMember.Values`lovers
      ensures Valid()
      ensures threw == (s.unsent && targetMember in byMember && Recalls(old(WorldNow()), my, targetMember))
      ensures WorldNow() == if threw then TakeOver(old(WorldNow()), my, targetMember)
                            else Forsake(old(WorldNow()), my, targetMember)
    {
      hide WorldNow, Strip, BondIndex, IndexOf, Key;
      threw := false;
      OnDisk();
      if targetMember !in stored { return; }
      var p := stored[targetMember].lovers;
      var tl := FindBond(p, my);
      if tl < 0 { return; }
      DropBond(p, my, my);
      p := p[..tl] + p[tl + 1..];
      Replace(targetMember, p);
      if targetMember in byMember && byMember[targetMember].chatRoom != null && unsendable { return true; }
      StoreLovership(p, targetMember);
    }

    lemma OnDisk()
      ensures WorldNow().disk == stored && WorldNow().online.Keys == byMember.Keys
    {}

    /** Strips and stores a list, whoever's it is. */
    method StoreLovership(ls: seq<Lover>, member: int)
      requires Valid() && Distinct(ls)
      modifies this`stored
      ensures Valid() && WorldNow() == old(WorldNow()).(disk := PersistLovers(old(WorldNow()).disk, member, Strip(ls)))
    {
      var _ := UpdateLovership(ls, member);
      StripDistinct(ls);
    }

    /** A session of that member takes the list over. */
    method Replace(member: int, ls: seq<Lover>)
      requires Valid() && Distinct(ls)
      modifies byMember.Values`lovers
      ensures Valid()
      ensures var w := old(WorldNow());
              WorldNow() == w.(online := if member in byMember then RecallLovers(w.online, member, ls) else w.online)
    {
      if member in byMember {
        var other := byMember[member];
        other.lovers := ls;
        OneChanged(other);
      }
    }

    method ProposeBond(acc: OnlineAccount, target: OnlineAccount, action: string, delay: int, now: int, ghost s: Scene)
      requires Valid() && acc.member in byMember && byMember[acc.member] == acc
      requires target.member in byMember && byMember[target.member] == target && target != acc
      requires s.delay == delay
      modifies target`lovers
      ensures Valid()
      ensures WorldNow() == ProposeLove(old(WorldNow()), acc.member, target.member, action, s, now)
    {
      OfferInList(acc, target, action, delay, now);
      OneChanged(target);
    }

    /** The proposal side of the handler. */
    method OfferInList(acc: OnlineAccount, target: OnlineAccount, action: string, delay: int, now: int)
      requires target != acc && Distinct(target.lovers)
      modifies target`lovers
      ensures target.lovers ==
              ProposedList(acc.lovers, old(target.lovers), acc.member, target.member, action, delay, now)
      ensures Distinct(target.lovers)
    {
      var my := acc.member;
      var al := LoverIndex(acc.lovers, target.member);
      if (|acc.lovers| < MAX_LOVERS && al < 0) || al >= 0 {
        var tl := LoverIndex(target.lovers, my);
        if |target.lovers| < MAX_LOVERS && tl < 0 && action == "Propose" {
          target.lovers := target.lovers + [DatingOffer(my)];
        }
        if tl >= 0 && action == "Propose" {
          OfferNext(target, tl, my, delay, now);
        }
      }
    }

    /** Steps 3 and 5: the offer the entry is ready for. */
    method OfferNext(target: OnlineAccount, tl: int, my: int, delay: int, now: int)
      requires 0 <= tl < |target.lovers|
      modifies target`lovers
      ensures target.lovers == old(target.lovers)[tl := Offered(old(target.lovers)[tl], my, delay, now)]
    {
      var l := target.lovers[tl];
      if l.Bond? && l.engagement.None? && l.stage == 0 && l.start + delay <= now {
        target.lovers := target.lovers[tl := l.(engagement := Some(my))];
      }
      if l.Bond? && l.wedding.None? && l.stage == 1 && l.start + delay <= now {
        target.lovers := target.lovers[tl := l.(wedding := Some(my))];
      }
    }

    method AcceptBond(acc: OnlineAccount, target: OnlineAccount, action: string, now: int, later: int, ghost s: Scene)
      requires Valid() && acc.member in byMember && byMember[acc.member] == acc
      requires target.member in byMember && byMember[target.member] == target && target != acc
      requires s.myName == NameIn(acc) && s.targetName == NameIn(target)
      modifies this`stored, acc`lovers, target`lovers
      ensures Valid()
      ensures WorldNow() == AcceptLove(old(WorldNow()), acc.member, target.member, action, s, now, later)
    {
      hide WorldNow, SaveLovers, IndexOf, Fresh, Distinct, Strip, Key;
      var my := acc.member;
      InMemory(acc);
      InMemory(target);
      var al := LoverIndex(acc.lovers, target.member);
      if |acc.lovers| <= MAX_LOVERS && al >= 0 {
        var tl := LoverIndex(target.lovers, my);
        if NAME in acc.unread || NAME in target.unread { return; }
        var l := acc.lovers[al];
        if l == DatingOffer(target.member) && (|target.lovers| < MAX_LOVERS || tl >= 0) {
          if action == "Accept" {
            SaveStage(acc, target, al, tl, 0, now, later);
          }
        } else if l.Bond? && l.stage == 0 && l.engagement == Some(target.member) {
          if action == "Accept" {
            SaveStage(acc, target, al, tl, 1, now, later);
          }
        } else if l.Bond? && l.stage == 1 && l.wedding == Some(target.member) {
          if action == "Accept" {
            SaveStage(acc, target, al, tl, 2, now, later);
          }
        }
      }
    }

    /** The common tail of the three acceptances: new entries on both lists, both saved. */
    method SaveStage(acc: OnlineAccount, target: OnlineAccount, al: int, tl: int, stage: int, now: int, later: int)
      requires Valid() && acc.member in byMember && byMember[acc.member] == acc
      requires target.member in byMember && byMember[target.member] == target && target != acc
      requires 0 <= al < |acc.lovers| && Key(acc.lovers[al]) == target.member
      requires tl == IndexOf(target.lovers, acc.member)
      modifies this`stored, acc`lovers, target`lovers
      ensures Valid()
      ensures var mine, theirs := old(acc.lovers), old(target.lovers);
              var e := Fresh(acc.member, acc.name, later, stage);
              WorldNow() == SaveLovers(
                SaveLovers(old(WorldNow()), acc.member, mine[al := Fresh(target.member, target.name, now, stage)]),
                target.member,
                if tl >= 0 then theirs[tl := e] else if stage == 0 then theirs + [e] else theirs)
    {
      var mine := acc.lovers[al := Fresh(target.member, target.name, now, stage)];
      var entry := Fresh(acc.member, acc.name, later, stage);
      var theirs := target.lovers;
      if tl >= 0 {
        theirs := theirs[tl := entry];
      } else if stage == 0 {
        theirs := theirs + [entry];
      }
      SaveLovership(acc, mine);
      SaveLovership(target, theirs);
    }
  }

  /** An account's name, while it is text. */
  function NameIn(a: OnlineAccount): Option<string>
    reads a
  {
    if NAME in a.unread then None else Some(a.name)
  }

  lemma {:induction false} FirstKey(ls: seq<Lover>, i: int, member: int)
    requires 0 <= i < |ls| && Key(ls[i]) == member
    requires forall k :: 0 <= k < i ==> Key(ls[k]) != member
    ensures IndexOf(ls, member) == i
  {
    if i > 0 {
      FirstKey(ls[1..], i - 1, member);
    }
  }

  lemma {:induction false} FirstBond(ls: seq<Lover>, i: int, member: int)
    requires 0 <= i < |ls| && ls[i].Bond? && ls[i].member == member
    requires forall k :: 0 <= k < i ==> !(ls[k].Bond? && ls[k].member == member)
    ensures BondIndex(ls, member) == i
  {
    if i > 0 {
      FirstBond(ls[1..], i - 1, member);
    }
  }
}
