/**
 What an account update and a flush do, told in their own terms: which keys an update may name, what waits,
 what is stored at once, and what the database is left with.
 */
module UpdateCalls {
  import opened Options
  import opened Text
  import opened JsonMerge
  import opened AccountFields
  import opened WriteBehind
  import opened ProfileServer

  // ---- The keys of an update ----

  /** The keys an update may not name. */
  predicate Forbidden(key: string) {
    key in {"Name", "AccountName", "Password", "Email", "Creation", "LastLogin", "Pose", "ActivePose", "ChatRoom", "ID",
            "Socket", "Inventory", "_id", "MemberNumber", "Environment", "Ownership", "Lovership", "Difficulty",
            "AssetFamily", "DelayedAppearanceUpdate", "DelayedSkillUpdate", "DelayedGameUpdate"}
  }

  lemma ForbiddenAre(key: string)
    ensures key in IMMUTABLE <==> Forbidden(key)
  {}

  /** What an update is left with, and what of it is stored: each member is judged alone, and their order stays. */
  lemma {:induction false} MembersAllowed(a: Members, c: Members, key: string, v: Json)
    ensures Allowed(a + c) == Allowed(a) + Allowed(c) && Persisted(a + c) == Persisted(a) + Persisted(c)
    ensures Allowed([(key, v)]) == if Forbidden(key) then [] else [(key, v)]
    ensures Persisted([(key, v)]) == if Forbidden(key) || key == "MapData" then [] else [(key, v)]
    ensures Allowed([]) == Persisted([]) == []
  {
    hide IMMUTABLE;
    EraseConcat(a, c, IMMUTABLE);
    EraseConcat(Allowed(a), Allowed(c), ["MapData"]);
    ForbiddenAre(key);
    EraseOne(key, v, IMMUTABLE);
    EraseOne(key, v, ["MapData"]);
  }

  lemma EraseOne(key: string, v: Json, keys: seq<string>)
    ensures Erase([(key, v)], keys) == if key in keys then [] else [(key, v)]
    ensures Erase([], keys) == []
  {
    var one: Members := [(key, v)];
    assert one[1..] == [];
  }

  lemma {:induction false} EraseConcat(a: Members, c: Members, keys: seq<string>)
    ensures Erase(a + c, keys) == Erase(a, keys) + Erase(c, keys)
  {
    if a == [] {
      assert a + c == c;
    } else {
      assert (a + c)[1..] == a[1..] + c;
      EraseConcat(a[1..], c, keys);
    }
  }

  // ---- An update ----

  /** A single field of these three waits. */
  predicate Waits(allowed: Members) {
    |allowed| == 1 && allowed[0].0 in {"Appearance", "Skill", "Game"}
  }

  /** A key below the account's name: nothing else among the keys allowed touches it. */
  predicate BelowName(members: Members) {
    exists i :: 0 <= i < |members| && "AccountName." <= members[i].0
  }

  lemma BelowIff(members: Members)
    requires forall m :: m in members ==> !Forbidden(m.0)
    ensures Reaches(members, ACCOUNT_NAME) <==> BelowName(members)
  {
    forall i | 0 <= i < |members| ensures PathOf(members[i].0)[0] == ACCOUNT_NAME <==> "AccountName." <= members[i].0 {
      assert members[i] in members;
      KeyBelow(members[i].0, ACCOUNT_NAME);
    }
  }

  lemma KeyBelow(key: string, f: string)
    requires key != f && Free(f, '.')
    ensures PathOf(key)[0] == f <==> f + "." <= key
  {
    JoinSplit(key, '.');
    if f + "." <= key {
      assert key[|f|] == (f + ".")[|f|] && key[..|f|] == f;
      SplitAt(key, |f|, '.');
    }
  }

  /**
   What an update does: nothing when the account's name cannot be read; a single field of the three waits;
   any other update is stored at once, as a whole or, if it has a key below the account's name, not at all,
   and supersedes what waits of the fields it names if it has several.
   */
  lemma UpdateDoes(p: Profile, data: Members)
    requires ProfileOk(p)
    ensures var p', allowed := Update(p, data), Allowed(data);
            if !p.keyed then p' == p
            else if Waits(allowed) then p' == Profile(p.disk, p.delayed[allowed[0].0 := allowed[0].1], true)
            else
              && p'.disk == (if BelowName(Persisted(data)) then p.disk else MergeAll(p.disk, Persisted(data)))
              && p'.keyed == !BelowName(Persisted(data))
              && p'.delayed == map f | f in p.delayed && !(|allowed| > 1 && exists v :: (f, v) in allowed) :: p.delayed[f]
  {
    hide IMMUTABLE, NameOf, Stored, Reaches, BelowName;
    var allowed := Allowed(data);
    assert DELAYED == ["Appearance", "Skill", "Game"];
    forall m | m in Persisted(data) ensures !Forbidden(m.0) {
      assert m in allowed;
      ForbiddenAre(m.0);
    }
    BelowIff(Persisted(data));
    UpdateStores(p, data);
    assert forall f :: Contains(allowed, f) <==> exists v :: (f, v) in allowed;
  }

  /** A flush lays what waits over the record; a session whose account name cannot be read loses it instead. */
  lemma FlushDoes(p: Profile)
    requires ProfileOk(p)
    ensures var laid := if p.keyed then Object(p.disk.fields + p.delayed) else p.disk;
            && Serve(p, FlushCall(true)) == Profile(laid, map[], p.keyed) && Serve(p, EndSession) == Profile(laid, map[], true)
            && Serve(p, FlushCall(false)) == Profile(p.disk, map[], p.keyed)
  {
    hide NameOf, Stored, Waiting;
    if p.keyed { FlushRefines(p); }
  }

  /** The other calls on an account: a look set by another member waits like one's own. */
  lemma CallsDo(p: Profile, data: Members, look: Json)
    ensures Serve(p, UpdateCall(data)) == Update(p, data)
    ensures Serve(p, Dress(look)) == Profile(p.disk, p.delayed["Appearance" := look], p.keyed)
  {}

  // ---- The fields an account is read by ----

  /** A record is stored under the text in its AccountName, which must not be empty. */
  lemma NameIs(j: Json, name: string)
    ensures NameOf(j) == Some(name) <==>
            j.Object? && "AccountName" in j.fields && j.fields["AccountName"] == Text(name) && name != ""
  {}

  /** Three text fields are read by handlers; reading one throws when it is there and no text. */
  lemma UnreadAre(j: Json, f: string)
    ensures f in UnreadIn(j) <==>
            f in {"AccountName", "Name", "Environment"} && j.Object? && f in j.fields && !j.fields[f].Text?
  {}

  // ---- All accounts ----

  /** One session has values waiting and an account name that cannot be read. */
  ghost predicate Blocked(s: Server) {
    exists n :: n in s.online && n in s.profiles && !s.profiles[n].keyed && s.profiles[n].delayed != map[]
  }

  lemma BlockedIff(s: Server)
    requires ServerOk(s)
    ensures SomeStuck(s) <==> Blocked(s)
  {
    forall n | n in s.profiles ensures Stuck(s.profiles[n]) <==> !s.profiles[n].keyed && s.profiles[n].delayed != map[] {
      NothingWaits(s.profiles[n].delayed);
    }
  }

  /** What one account's event does to each account and to who is online. */
  lemma EventsDo(s: Server, n: string, m: string, c: Call)
    requires n in s.profiles
    ensures Step(s, Opens(m)) == Server(s.profiles, s.online + {m}, s.flushing)
    ensures var s' := Step(s, Calls(m, c));
            && s'.online == s.online && s'.flushing == s.flushing && s'.profiles.Keys == s.profiles.Keys
            && s'.profiles[n] == if n == m then Serve(s.profiles[n], c) else s.profiles[n]
    ensures var s' := Step(s, Ends(m));
            && s'.online == s.online - {m} && s'.flushing == s.flushing && s'.profiles.Keys == s.profiles.Keys
            && s'.profiles[n] == if n == m then Serve(s.profiles[n], EndSession) else s.profiles[n]
  {
    hide Serve, Stuck;
  }

  /** What a flush does to each account, and that the loop ends when it is blocked. */
  lemma FlushesDo(s: Server, n: string, visited: set<string>)
    requires ServerOk(s) && n in s.profiles
    ensures var s' := Step(s, Flushes(visited));
            && s'.online == s.online && s'.flushing == (s.flushing && !Blocked(s)) && s'.profiles.Keys == s.profiles.Keys
            && s'.profiles[n] == if n in visited then Serve(s.profiles[n], FlushCall(!Blocked(s))) else s.profiles[n]
  {
    hide Serve, ServerOk, SomeStuck, Blocked;
    BlockedIff(s);
  }
}
