/**
 Account updates with delayed writes, against a server that would write everything through.

 Single-field updates of Appearance, Skill and Game stay in memory until a flush or the end of the
 session; every other update goes straight to the database.
 */
module WriteBehind {
  import opened Options
  import opened Text
  import opened JsonMerge
  import opened AccountFields

  const APPEARANCE := "Appearance"
  const SKILL := "Skill"
  const GAME := "Game"

  const DELAYED := [APPEARANCE, SKILL, GAME]

  const IMMUTABLE := [NAME, ACCOUNT_NAME, "Password", "Email", "Creation", "LastLogin", "Pose", "ActivePose",
                      "ChatRoom", "ID", "Socket", "Inventory", "_id", "MemberNumber", ENVIRONMENT, "Ownership",
                      "Lovership", "Difficulty", "AssetFamily", "DelayedAppearanceUpdate", "DelayedSkillUpdate",
                      "DelayedGameUpdate"]

  // ---- One update ----

  function Contains(members: Members, key: string): bool {
    exists i :: 0 <= i < |members| && members[i].0 == key
  }

  /** The members whose key is none of these; dotted keys are compared whole. */
  function Erase(members: Members, keys: seq<string>): (r: Members)
    ensures forall m :: m in r <==> m in members && m.0 !in keys
    ensures |r| <= |members|
  {
    if members == [] then []
    else if members[0].0 in keys then Erase(members[1..], keys)
    else [members[0]] + Erase(members[1..], keys)
  }

  /**
   What the database holds for an account, what is still waiting to be written, and whether the account's
   name can be read in memory: without it no handler can say which record to write.
   */
  datatype Profile = Profile(disk: Json, delayed: map<string, Json>, keyed: bool)

  function Allowed(data: Members): Members {
    Erase(data, IMMUTABLE)
  }

  /** What an update persists, sooner or later: the map is never stored. */
  function Persisted(data: Members): Members {
    Erase(Allowed(data), ["MapData"])
  }

  /** Some member's path begins with this field. */
  predicate Reaches(members: Members, f: string) {
    exists i :: 0 <= i < |members| && PathOf(members[i].0)[0] == f
  }

  /** `update_account_fields` on a record: one that would lose its account name is refused. */
  function Stored(disk: Json, members: Members): Json {
    var merged := MergeAll(disk, members);
    if NameOf(merged).Some? then merged else disk
  }

  /**
   The update handler. It starts by reading the account's name, which throws once an earlier update has
   reached it; so does the write of this one if it reaches the name itself.
   */
  function Update(p: Profile, data: Members): Profile {
    var allowed := Allowed(data);
    if !p.keyed then p
    else if |allowed| == 1 && allowed[0].0 in DELAYED then
      p.(delayed := p.delayed[allowed[0].0 := allowed[0].1])
    else
      Profile(Stored(p.disk, Persisted(data)), Kept(p, data), !Reaches(Persisted(data), ACCOUNT_NAME))
  }

  /** The waiting values a non-delayed update leaves waiting: several fields supersede their own. */
  function Kept(p: Profile, data: Members): map<string, Json> {
    var allowed := Allowed(data);
    if |allowed| <= 1 then p.delayed
    else map f | f in p.delayed && !Contains(allowed, f) :: p.delayed[f]
  }

  /** The waiting values as the members of one update, in key order. */
  function Waiting(delayed: map<string, Json>): Members {
    WaitingFor(delayed, APPEARANCE) + WaitingFor(delayed, GAME) + WaitingFor(delayed, SKILL)
  }

  function WaitingFor(delayed: map<string, Json>, f: string): Members {
    if f in delayed then [(f, delayed[f])] else []
  }

  /** What waits is collected, and stored if the account's name can be read. */
  function Flush(p: Profile): Profile {
    Profile(if p.keyed then Stored(p.disk, Waiting(p.delayed)) else p.disk, map[], p.keyed)
  }

  /** A session whose waiting values cannot be stored. */
  predicate Stuck(p: Profile) {
    !p.keyed && Waiting(p.delayed) != []
  }

  lemma NothingWaits(delayed: map<string, Json>)
    requires forall f :: f in delayed ==> f in DELAYED
    ensures Waiting(delayed) == [] <==> delayed == map[]
  {
    if delayed != map[] {
      var f :| f in delayed;
      assert WaitingFor(delayed, f) != [];
    }
  }

  // ---- The write-through server ----

  /** The stored account with what is waiting laid over it. */
  function Overlay(p: Profile): Json {
    Object(FieldsOf(p.disk) + p.delayed)
  }

  predicate ProfileOk(p: Profile) {
    p.disk.Object? && NameOf(p.disk).Some? && forall f :: f in p.delayed ==> f in DELAYED
  }

  /** What a list of updates makes of one top-level field. */
  function Evolve(x: Option<Json>, members: Members, f: string): Option<Json>
    decreases members
  {
    if members == [] then x
    else
      var path := PathOf(members[0].0);
      Evolve(if path[0] == f then Some(Renewed(x, path, members[0].1)) else x, members[1..], f)
  }

  /** The field after an update whose path starts with it. */
  function Renewed(x: Option<Json>, path: seq<string>, v: Json): Json
    requires path != []
  {
    if |path| == 1 then v else SetPath(if x.Some? then x.value else Null, path[1..], v)
  }

  /** The same update on a server that writes everything through; a handler that throws stores nothing. */
  function UpdateThrough(keyed: bool, store: Json, data: Members): Json {
    if keyed then Stored(store, Persisted(data)) else store
  }

  /**
   The guard: whatever this update writes below a value that stays waiting, the waiting value has
   already; and an update that reaches the account's name, which is not stored, supersedes no value that
   is not stored either. It holds when no dotted key of the update lies under a waiting field or the name.
   */
  predicate Harmless(p: Profile, data: Members) {
    !p.keyed || !Stores(data) ||
    if Reaches(Persisted(data), ACCOUNT_NAME) then
      forall f :: f in p.delayed && f !in Kept(p, data) ==> Field(p.disk, f) == Some(p.delayed[f])
    else
      forall f :: f in Kept(p, data) ==> Evolve(Some(p.delayed[f]), Persisted(data), f) == Some(p.delayed[f])
  }

  // ---- Fields of merged documents ----

  lemma {:induction false} MergedField(j: Json, members: Members, f: string)
    ensures Field(MergeAll(j, members), f) == Evolve(Field(j, f), members, f)
    ensures j.Object? ==> MergeAll(j, members).Object?
    decreases members
  {
    if members != [] {
      var path, v := PathOf(members[0].0), members[0].1;
      var j' := SetPath(j, path, v);
      assert NewChild(j, path, v) == Renewed(Field(j, path[0]), path, v);
      assert Field(j', f) == if path[0] == f then Some(Renewed(Field(j, f), path, v)) else Field(j, f);
      MergedField(j', members[1..], f);
    }
  }

  /** A member assigning the whole field makes what was there before irrelevant. */
  lemma {:induction false} WholeField(x: Option<Json>, y: Option<Json>, members: Members, f: string)
    requires Contains(members, f) && PathOf(f) == [f]
    ensures Evolve(x, members, f) == Evolve(y, members, f)
    decreases members
  {
    var path := PathOf(members[0].0);
    if members[0].0 != f {
      var i :| 0 <= i < |members| && members[i].0 == f;
      assert members[1..][i - 1].0 == f;
      var step := (z: Option<Json>) => if path[0] == f then Some(Renewed(z, path, members[0].1)) else z;
      WholeField(step(x), step(y), members[1..], f);
    }
  }

  lemma DelayedPaths(f: string)
    requires f in DELAYED
    ensures PathOf(f) == [f] && f != "MapData" && f != ACCOUNT_NAME
  {
    assert |ACCOUNT_NAME| == 11;
    if f == APPEARANCE {
      assert Free(APPEARANCE, '.');
    } else if f == SKILL {
      assert Free(SKILL, '.');
    } else {
      assert f == GAME && Free(GAME, '.');
    }
    SplitFree(f, '.');
  }

  lemma SameFields(a: Json, b: Json)
    requires a.Object? && b.Object? && forall f :: Field(a, f) == Field(b, f)
    ensures a == b
  {
    assert forall f :: f in a.fields ==> Field(a, f).Some?;
    assert forall f :: f in b.fields ==> Field(b, f).Some?;
    forall f | f in a.fields || f in b.fields
      ensures f in a.fields && f in b.fields && a.fields[f] == b.fields[f]
    {
      assert Field(a, f) == Field(b, f);
    }
  }

  // ---- Immutable fields ----

  /** An update that is not kept waiting: what it persists is stored at once. */
  predicate Stores(data: Members) {
    !(|Allowed(data)| == 1 && Allowed(data)[0].0 in DELAYED)
  }

  lemma ImmutablePath(key: string, f: string)
    requires key !in IMMUTABLE && f in IMMUTABLE
    ensures PathOf(key)[0] == f ==> |PathOf(key)| > 1
  {
    JoinSplit(key, '.');
  }

  /** A field no exact key assigns is an object once some path below it has been assigned. */
  lemma {:induction false} EvolveBelow(x: Option<Json>, members: Members, f: string)
    requires f in IMMUTABLE && forall m :: m in members ==> m.0 !in IMMUTABLE
    ensures if Reaches(members, f) then Evolve(x, members, f).Some? && Evolve(x, members, f).value.Object?
            else Evolve(x, members, f) == x
    decreases members
  {
    hide Reaches, IMMUTABLE;
    if members == [] {
      ReachesNone(f);
    } else {
      var path, v, rest := PathOf(members[0].0), members[0].1, members[1..];
      var x' := if path[0] == f then Some(Renewed(x, path, v)) else x;
      ImmutablePath(members[0].0, f);
      assert forall m :: m in rest ==> m in members;
      EvolveBelow(x', rest, f);
      ReachesFirst(members, f);
    }
  }

  lemma ReachesNone(f: string)
    ensures !Reaches([], f)
  {}

  lemma ReachesFirst(members: Members, f: string)
    requires members != []
    ensures Reaches(members, f) <==> PathOf(members[0].0)[0] == f || Reaches(members[1..], f)
  {
    var rest := members[1..];
    if Reaches(rest, f) {
      var i :| 0 <= i < |rest| && PathOf(rest[i].0)[0] == f;
      assert PathOf(members[i + 1].0)[0] == f;
    }
    if Reaches(members, f) {
      var i :| 0 <= i < |members| && PathOf(members[i].0)[0] == f;
      assert i > 0 ==> PathOf(rest[i - 1].0)[0] == f;
    }
  }

  /** A merge that names no immutable field keeps a record's name exactly when it does not reach it. */
  lemma NameKept(j: Json, members: Members)
    requires NameOf(j).Some? && forall m :: m in members ==> m.0 !in IMMUTABLE
    ensures Stored(j, members) == if Reaches(members, ACCOUNT_NAME) then j else MergeAll(j, members)
    ensures NameOf(Stored(j, members)) == NameOf(j)
  {
    hide IMMUTABLE;
    Listed();
    MergedField(j, members, ACCOUNT_NAME);
    EvolveBelow(Field(j, ACCOUNT_NAME), members, ACCOUNT_NAME);
  }

  lemma Listed()
    ensures forall f :: f in TEXT_FIELDS ==> f in IMMUTABLE
  {}

  /** Reading a text field throws after a merge exactly when the merge has reached it. */
  lemma ReadableIff(j: Json, members: Members, f: string)
    requires f in TEXT_FIELDS && forall m :: m in members ==> m.0 !in IMMUTABLE
    ensures Readable(MergeAll(j, members), f) <==> Readable(j, f) && !Reaches(members, f)
  {
    hide IMMUTABLE, TEXT_FIELDS;
    Listed();
    MergedField(j, members, f);
    EvolveBelow(Field(j, f), members, f);
  }

  /** The update writes to the record, and does not reach the record's name. */
  predicate Writes(p: Profile, data: Members) {
    p.keyed && Stores(data) && !Reaches(Persisted(data), ACCOUNT_NAME)
  }

  /** An update either writes all it persists to the record or nothing. */
  lemma UpdateStores(p: Profile, data: Members)
    requires ProfileOk(p)
    ensures Update(p, data).disk == if Writes(p, data) then MergeAll(p.disk, Persisted(data)) else p.disk
    ensures ProfileOk(Update(p, data))
  {
    hide IMMUTABLE;
    NameKept(p.disk, Persisted(data));
    MergedField(p.disk, Persisted(data), "");
  }

  /**
   The keys an update may not name are compared whole. So a stored field of such a name, unless it is an
   object, survives an update exactly when the update does not write a path that begins with the name. An
   update that reaches the account's own name writes nothing.
   */
  lemma ImmutableFieldKept(p: Profile, data: Members, f: string)
    requires ProfileOk(p) && f in IMMUTABLE && Field(p.disk, f).Some? && !Field(p.disk, f).value.Object?
    ensures var after := Field(Update(p, data).disk, f);
            if Writes(p, data) && Reaches(Persisted(data), f) then after.Some? && after.value.Object?
            else after == Field(p.disk, f)
  {
    UpdateStores(p, data);
    MergedField(p.disk, Persisted(data), f);
    EvolveBelow(Field(p.disk, f), Persisted(data), f);
  }

  /** The map is not stored, but no text field lies below it. */
  lemma ReachesPersisted(data: Members, f: string)
    requires f in TEXT_FIELDS
    ensures Reaches(Allowed(data), f) <==> Reaches(Persisted(data), f)
  {
    assert Free("MapData", '.') && |"MapData"| == 7;
    SplitFree("MapData", '.');
    if Reaches(Allowed(data), f) {
      var m :| m in Allowed(data) && PathOf(m.0)[0] == f;
      assert m in Persisted(data);
    }
    if Reaches(Persisted(data), f) {
      var m :| m in Persisted(data) && PathOf(m.0)[0] == f;
      assert m in Allowed(data);
    }
  }

  /** The text fields an update reaches. */
  function Spoilt(members: Members): set<string> {
    set f | f in TEXT_FIELDS && Reaches(members, f)
  }

  /** After an update in memory, those cannot be read any more, besides those that could not before. */
  lemma UnreadAfter(j: Json, data: Members)
    ensures UnreadIn(MergeAll(j, Allowed(data))) == UnreadIn(j) + Spoilt(Allowed(data))
  {
    hide IMMUTABLE, Readable, Reaches;
    forall f | f in TEXT_FIELDS
      ensures Readable(MergeAll(j, Allowed(data)), f) <==> Readable(j, f) && !Reaches(Allowed(data), f)
    {
      ReadableIff(j, Allowed(data), f);
    }
  }

  // ---- Refinement, one step at a time ----

  /**
   After an update the stored account overlaid with what waits is what a write-through server would
   hold, exactly when the update is harmless to what waits.
   */
  lemma UpdateRefines(p: Profile, data: Members)
    requires ProfileOk(p)
    ensures ProfileOk(Update(p, data))
    ensures Overlay(Update(p, data)) == UpdateThrough(p.keyed, Overlay(p), data) <==> Harmless(p, data)
  {
    hide IMMUTABLE, NameOf;
    UpdateStores(p, data);
    if p.keyed {
      OverlayName(p);
      NameKept(Overlay(p), Persisted(data));
      if !Stores(data) {
        DelayedRefines(p, data);
      } else if Reaches(Persisted(data), ACCOUNT_NAME) {
        RefusedRefines(p, data);
      } else {
        StoredRefines(p, data);
      }
    }
  }

  lemma OverlayName(p: Profile)
    requires ProfileOk(p)
    ensures Field(Overlay(p), ACCOUNT_NAME) == Field(p.disk, ACCOUNT_NAME) && NameOf(Overlay(p)) == NameOf(p.disk)
  {
    assert |ACCOUNT_NAME| == 11 && forall f :: f in DELAYED ==> |f| != 11;
  }

  /** An update that is refused leaves the overlay alone exactly when it supersedes nothing that is not stored. */
  lemma RefusedRefines(p: Profile, data: Members)
    requires ProfileOk(p)
    ensures Overlay(Profile(p.disk, Kept(p, data), false)) == Overlay(p) <==>
            forall f :: f in p.delayed && f !in Kept(p, data) ==> Field(p.disk, f) == Some(p.delayed[f])
  {
    var after := Profile(p.disk, Kept(p, data), false);
    forall f ensures Field(Overlay(after), f) == if f in Kept(p, data) then Some(p.delayed[f]) else Field(p.disk, f) {}
    if forall f :: f in p.delayed && f !in Kept(p, data) ==> Field(p.disk, f) == Some(p.delayed[f]) {
      SameFields(Overlay(after), Overlay(p));
    } else {
      var f :| f in p.delayed && f !in Kept(p, data) && Field(p.disk, f) != Some(p.delayed[f]);
      assert Field(Overlay(p), f) == Some(p.delayed[f]);
    }
  }

  /** The same, for an update that is written. */
  lemma StoredRefines(p: Profile, data: Members)
    requires ProfileOk(p) && Writes(p, data)
    ensures Overlay(Update(p, data)) == MergeAll(Overlay(p), Persisted(data)) <==>
            forall f :: f in Kept(p, data) ==> Evolve(Some(p.delayed[f]), Persisted(data), f) == Some(p.delayed[f])
  {
    var p', goal := Update(p, data), MergeAll(Overlay(p), Persisted(data));
    MergedField(Overlay(p), Persisted(data), "");
    forall f {
      FieldRefines(p, data, f);
    }
    if forall f :: f in Kept(p, data) ==> Evolve(Some(p.delayed[f]), Persisted(data), f) == Some(p.delayed[f]) {
      SameFields(Overlay(p'), goal);
    } else {
      var f :| f in Kept(p, data) && Evolve(Some(p.delayed[f]), Persisted(data), f) != Some(p.delayed[f]);
      assert Field(Overlay(p'), f) != Field(goal, f);
    }
  }

  /** An update that is kept waiting is one member. */
  lemma OnlyMember(data: Members) returns (m: (string, Json))
    requires !Stores(data)
    ensures Allowed(data) == Persisted(data) == [m] && m.0 in DELAYED && PathOf(m.0) == [m.0]
    ensures !Reaches(Persisted(data), ACCOUNT_NAME)
  {
    m := Allowed(data)[0];
    DelayedPaths(m.0);
    assert Allowed(data) == [m];
    assert Persisted(data) == [m];
  }

  /** The same, for a single delayed field. */
  lemma DelayedRefines(p: Profile, data: Members)
    requires ProfileOk(p) && p.keyed && !Stores(data)
    ensures Overlay(Update(p, data)) == MergeAll(Overlay(p), Persisted(data))
    ensures !Reaches(Persisted(data), ACCOUNT_NAME)
  {
    var m := OnlyMember(data);
    OverlayOne(p, m.0, m.1);
  }

  /** The same, for one field of any other update. */
  lemma FieldRefines(p: Profile, data: Members, f: string)
    requires ProfileOk(p) && Writes(p, data)
    ensures var actual, ideal := Field(Overlay(Update(p, data)), f), Field(MergeAll(Overlay(p), Persisted(data)), f);
            if f in Kept(p, data) then
              actual == Some(p.delayed[f]) && ideal == Evolve(Some(p.delayed[f]), Persisted(data), f)
            else actual == ideal
  {
    var p', persisted := Update(p, data), Persisted(data);
    UpdateStores(p, data);
    MergedField(p.disk, persisted, f);
    MergedField(Overlay(p), persisted, f);
    if f in p.delayed && f !in Kept(p, data) {
      DelayedPaths(f);
      var i :| 0 <= i < |Allowed(data)| && Allowed(data)[i].0 == f;
      assert Allowed(data)[i] in persisted;
      WholeField(Field(p.disk, f), Field(Overlay(p), f), persisted, f);
    }
  }

  /** A flush writes the overlay itself, when the account's name can be read. */
  lemma FlushRefines(p: Profile)
    requires ProfileOk(p) && p.keyed
    ensures ProfileOk(Flush(p)) && Flush(p) == Profile(Overlay(p), map[], true) && Overlay(Flush(p)) == Overlay(p)
  {
    hide NameOf, Stored, Overlay, MergeAll, Waiting;
    FlushStores(p);
    FlushMerges(p);
    OverlayName(p);
    NothingOver(Overlay(p), true);
  }

  lemma NothingOver(disk: Json, keyed: bool)
    requires disk.Object?
    ensures Overlay(Profile(disk, map[], keyed)) == disk
  {
    assert FieldsOf(disk) + map[] == FieldsOf(disk);
  }

  lemma FlushMerges(p: Profile)
    requires ProfileOk(p)
    ensures MergeAll(p.disk, Waiting(p.delayed)) == Overlay(p) && Overlay(p).Object?
  {
    hide NameOf, Waiting;
    var members := Waiting(p.delayed);
    MergedField(p.disk, members, "");
    forall f ensures Field(MergeAll(p.disk, members), f) == Field(Overlay(p), f) {
      MergedField(p.disk, members, f);
      WaitingField(p.delayed, Field(p.disk, f), f);
    }
    SameFields(MergeAll(p.disk, members), Overlay(p));
  }

  lemma FlushStores(p: Profile)
    requires ProfileOk(p)
    ensures Stored(p.disk, Waiting(p.delayed)) == MergeAll(p.disk, Waiting(p.delayed))
  {
    hide NameOf;
    DelayedMerge(p.disk, Waiting(p.delayed));
  }

  /** Members of the delayed fields leave a record's name alone. */
  lemma DelayedMerge(j: Json, members: Members)
    requires forall m :: m in members ==> m.0 in DELAYED
    ensures NameOf(MergeAll(j, members)) == NameOf(j) && (j.Object? ==> MergeAll(j, members).Object?)
  {
    MergedField(j, members, ACCOUNT_NAME);
    forall m | m in members ensures PathOf(m.0)[0] != ACCOUNT_NAME { DelayedPaths(m.0); }
    EvolveUntouched(Field(j, ACCOUNT_NAME), members, ACCOUNT_NAME);
    SameName(MergeAll(j, members), j);
  }

  lemma SameName(a: Json, c: Json)
    requires Field(a, ACCOUNT_NAME) == Field(c, ACCOUNT_NAME)
    ensures NameOf(a) == NameOf(c)
  {}

  lemma WaitingField(delayed: map<string, Json>, x: Option<Json>, f: string)
    requires forall g :: g in delayed ==> g in DELAYED
    ensures Evolve(x, Waiting(delayed), f) == if f in delayed then Some(delayed[f]) else x
  {
    hide Evolve, WaitingFor, APPEARANCE, SKILL, GAME;
    var a, g, s := WaitingFor(delayed, APPEARANCE), WaitingFor(delayed, GAME), WaitingFor(delayed, SKILL);
    EvolveConcat(x, a + g, s, f);
    EvolveConcat(x, a, g, f);
    var x1 := Evolve(x, a, f);
    OneWaiting(delayed, x, APPEARANCE, f);
    OneWaiting(delayed, x1, GAME, f);
    OneWaiting(delayed, Evolve(x1, g, f), SKILL, f);
  }

  lemma OneWaiting(delayed: map<string, Json>, x: Option<Json>, field: string, f: string)
    requires field in DELAYED
    ensures Evolve(x, WaitingFor(delayed, field), f) ==
            if f == field && f in delayed then Some(delayed[f]) else x
  {
    DelayedPaths(field);
    if field in delayed {
      var one: Members := [(field, delayed[field])];
      assert one[1..] == [];
      assert Evolve(x, one, f) == if f == field then Some(delayed[field]) else x;
    }
  }

  lemma {:induction false} EvolveConcat(x: Option<Json>, a: Members, c: Members, f: string)
    ensures Evolve(x, a + c, f) == Evolve(Evolve(x, a, f), c, f)
    decreases a
  {
    if a == [] {
      assert a + c == c;
    } else {
      var path := PathOf(a[0].0);
      assert (a + c)[1..] == a[1..] + c;
      EvolveConcat(if path[0] == f then Some(Renewed(x, path, a[0].1)) else x, a[1..], c, f);
    }
  }

  // ---- Runs ----

  /**
   The calls that touch one account's delayed fields. `Dress` is another member's character update. A flush
   is not done when it falls over on some account before it stores anything.
   */
  datatype Call = UpdateCall(data: Members) | Dress(appearance: Json) | FlushCall(done: bool) | EndSession

  function Serve(p: Profile, c: Call): Profile {
    match c
    case UpdateCall(data) => Update(p, data)
    case Dress(appearance) => p.(delayed := p.delayed[APPEARANCE := appearance])
    case FlushCall(done) => if done then Flush(p) else p.(delayed := map[])
    case EndSession => Flush(p).(keyed := true)
  }

  /** The same call on a server that stores everything at once. */
  function ServeThrough(keyed: bool, store: Json, c: Call): Json {
    match c
    case UpdateCall(data) => UpdateThrough(keyed, store, data)
    case Dress(appearance) => MergeAll(store, [(APPEARANCE, appearance)])
    case FlushCall(_) => store
    case EndSession => store
  }

  function ServeAll(p: Profile, calls: seq<Call>): Profile
    decreases calls
  {
    if calls == [] then p else ServeAll(Serve(p, calls[0]), calls[1..])
  }

  function ServeAllThrough(p: Profile, store: Json, calls: seq<Call>): Json
    decreases calls
  {
    if calls == [] then store
    else ServeAllThrough(Serve(p, calls[0]), ServeThrough(p.keyed, store, calls[0]), calls[1..])
  }

  /** All that waits is stored already. */
  predicate NothingToLose(p: Profile) {
    forall f :: f in p.delayed ==> Field(p.disk, f) == Some(p.delayed[f])
  }

  /** The guard of every call: what waits is not thrown away. */
  predicate CallHarmless(p: Profile, c: Call) {
    match c
    case UpdateCall(data) => Harmless(p, data)
    case Dress(_) => true
    case FlushCall(done) => (done && p.keyed) || NothingToLose(p)
    case EndSession => p.keyed || NothingToLose(p)
  }

  predicate AllHarmless(p: Profile, calls: seq<Call>)
    decreases calls
  {
    calls == [] || (CallHarmless(p, calls[0]) && AllHarmless(Serve(p, calls[0]), calls[1..]))
  }

  lemma DressRefines(p: Profile, appearance: Json)
    requires ProfileOk(p)
    ensures ProfileOk(Serve(p, Dress(appearance)))
    ensures Overlay(Serve(p, Dress(appearance))) == ServeThrough(p.keyed, Overlay(p), Dress(appearance))
  {
    DelayedPaths(APPEARANCE);
    OverlayOne(p, APPEARANCE, appearance);
  }

  lemma LossRefines(p: Profile)
    requires ProfileOk(p)
    ensures Overlay(p.(delayed := map[])) == p.disk
    ensures Overlay(p) == p.disk <==> NothingToLose(p)
  {
    assert FieldsOf(p.disk) + map[] == FieldsOf(p.disk);
    if NothingToLose(p) {
      forall f ensures Field(Overlay(p), f) == Field(p.disk, f) {}
      SameFields(Overlay(p), p.disk);
    } else {
      var f :| f in p.delayed && Field(p.disk, f) != Some(p.delayed[f]);
      assert Field(Overlay(p), f) == Some(p.delayed[f]);
    }
  }

  /** One more waiting value is one field assigned in the overlay. */
  lemma OverlayOne(p: Profile, f: string, v: Json)
    requires PathOf(f) == [f]
    ensures Overlay(p.(delayed := p.delayed[f := v])) == MergeAll(Overlay(p), [(f, v)])
  {
    var one: Members := [(f, v)];
    assert one[1..] == [];
    assert MergeAll(Overlay(p), one) == SetPath(Overlay(p), [f], v);
    assert NewChild(Overlay(p), [f], v) == v;
    assert FieldsOf(p.disk) + p.delayed[f := v] == (FieldsOf(p.disk) + p.delayed)[f := v];
  }

  /** One call keeps the overlay in step with the write-through store exactly when it is harmless. */
  lemma ServeRefines(p: Profile, c: Call)
    requires ProfileOk(p)
    ensures ProfileOk(Serve(p, c))
    ensures Overlay(Serve(p, c)) == ServeThrough(p.keyed, Overlay(p), c) <==> CallHarmless(p, c)
  {
    hide NameOf, IMMUTABLE, Harmless, NothingToLose;
    LossRefines(p);
    match c
    case UpdateCall(data) => UpdateRefines(p, data);
    case Dress(appearance) => DressRefines(p, appearance);
    case FlushCall(done) => if p.keyed { FlushRefines(p); }
    case EndSession => if p.keyed { FlushRefines(p); }
  }

  /**
   Over any run of harmless calls, the stored account overlaid with what waits is the write-through
   store; after a flush or the end of the session the two are equal outright.
   */
  lemma {:induction false} RunRefines(p: Profile, calls: seq<Call>)
    requires ProfileOk(p) && AllHarmless(p, calls)
    ensures Overlay(ServeAll(p, calls)) == ServeAllThrough(p, Overlay(p), calls)
    ensures calls != [] && (calls[|calls| - 1].FlushCall? || calls[|calls| - 1].EndSession?) ==>
              ServeAll(p, calls).disk == ServeAllThrough(p, Overlay(p), calls) && ServeAll(p, calls).delayed == map[]
    decreases calls
  {
    if |calls| > 0 {
      ServeRefines(p, calls[0]);
      RunRefines(Serve(p, calls[0]), calls[1..]);
      if |calls| == 1 {
        assert calls[1..] == [];
        LossRefines(Serve(p, calls[0]));
      } else {
        assert calls[1..][|calls| - 2] == calls[|calls| - 1];
      }
    }
  }

  /** No key of the update lies below one of the three fields or the account's name. */
  predicate NoDotted(data: Members) {
    forall i :: 0 <= i < |data| ==>
                  |PathOf(data[i].0)| == 1 || (PathOf(data[i].0)[0] !in DELAYED && PathOf(data[i].0)[0] != ACCOUNT_NAME)
  }

  /** So updates without dotted keys under Appearance, Skill, Game and AccountName are always harmless. */
  lemma UndottedIsHarmless(p: Profile, data: Members)
    requires ProfileOk(p) && NoDotted(data)
    ensures Harmless(p, data)
    ensures Update(p, data).keyed == p.keyed
  {
    hide IMMUTABLE;
    Listed();
    var persisted := Persisted(data);
    forall m | m in persisted ensures PathOf(m.0)[0] != ACCOUNT_NAME {
      assert m in Allowed(data) && m in data;
      UndottedKey(m.0, ACCOUNT_NAME);
    }
    if Stores(data) {
      forall f | f in Kept(p, data) ensures Evolve(Some(p.delayed[f]), persisted, f) == Some(p.delayed[f]) {
        UndottedField(p, data, f);
      }
    }
  }

  lemma UndottedField(p: Profile, data: Members, f: string)
    requires ProfileOk(p) && NoDotted(data) && Stores(data) && f in Kept(p, data)
    ensures Evolve(Some(p.delayed[f]), Persisted(data), f) == Some(p.delayed[f])
  {
    var allowed, persisted := Allowed(data), Persisted(data);
    forall m | m in persisted ensures PathOf(m.0)[0] != f {
      assert m in allowed && m in data;
      UndottedKey(m.0, f);
      if |allowed| == 1 {
        assert allowed[0] == m;
      }
    }
    EvolveUntouched(Some(p.delayed[f]), persisted, f);
  }

  /** A run is harmless when no update has such a key and every flush gets through. */
  lemma {:induction false} PlainRunHarmless(p: Profile, calls: seq<Call>)
    requires ProfileOk(p) && p.keyed
    requires forall i :: 0 <= i < |calls| && calls[i].UpdateCall? ==> NoDotted(calls[i].data)
    requires forall i :: 0 <= i < |calls| && calls[i].FlushCall? ==> calls[i].done
    ensures AllHarmless(p, calls)
    decreases calls
  {
    if calls != [] {
      hide NameOf, IMMUTABLE, Harmless, NoDotted, Update;
      ServeRefines(p, calls[0]);
      if calls[0].UpdateCall? { UndottedIsHarmless(p, calls[0].data); }
      PlainRunHarmless(Serve(p, calls[0]), calls[1..]);
    }
  }

  lemma UndottedKey(key: string, f: string)
    requires |PathOf(key)| == 1 || PathOf(key)[0] != f
    ensures PathOf(key)[0] == f ==> key == f
  {
    JoinSplit(key, '.');
  }

  lemma {:induction false} EvolveUntouched(x: Option<Json>, members: Members, f: string)
    requires forall m :: m in members ==> PathOf(m.0)[0] != f
    ensures Evolve(x, members, f) == x
    decreases members
  {
    if members != [] {
      EvolveUntouched(x, members[1..], f);
    }
  }

  /** An account with a look waiting to be stored. */
  function Dressed(look: Json): Profile {
    Profile(Object(map[ACCOUNT_NAME := Text("A")]), map[APPEARANCE := look], true)
  }

  lemma DressedOk(look: Json)
    ensures ProfileOk(Dressed(look)) && Field(Dressed(look).disk, APPEARANCE) == None
  {
    assert |ACCOUNT_NAME| != |APPEARANCE|;
  }

  /** With a dotted key they need not be: the nested value written at once is lost to the waiting one. */
  lemma DottedUpdateLost(v: Json)
    requires v != Null
    ensures var p, data := Dressed(Object(map[])), [("Appearance.Hat", v)];
            && ProfileOk(p) && !Harmless(p, data)
            && Get(UpdateThrough(true, Overlay(p), data), [APPEARANCE, "Hat"]) == Some(v)
            && Get(Flush(Update(p, data)).disk, [APPEARANCE, "Hat"]) == None
  {
    DottedKey();
    NestedUpdateLost("Appearance.Hat", "Hat", v);
  }

  lemma NestedUpdateLost(key: string, sub: string, v: Json)
    requires PathOf(key) == [APPEARANCE, sub] && v != Null
    requires key !in IMMUTABLE && key != "MapData" && key !in DELAYED
    ensures var p, data := Dressed(Object(map[])), [(key, v)];
            && ProfileOk(p) && !Harmless(p, data)
            && Get(UpdateThrough(true, Overlay(p), data), [APPEARANCE, sub]) == Some(v)
            && Get(Flush(Update(p, data)).disk, [APPEARANCE, sub]) == None
  {
    hide IMMUTABLE, NameOf, Harmless;
    var p := Dressed(Object(map[]));
    var data: Members := [(key, v)];
    var path := [APPEARANCE, sub];
    DressedOk(Object(map[]));
    DelayedPaths(APPEARANCE);
    assert data[1..] == [];
    assert Allowed(data) == data && Persisted(data) == data;
    assert !Reaches(data, ACCOUNT_NAME);
    NestedThrough(p, data, path, v);
    NestedFlushed(p, data, path);
    UpdateRefines(p, data);
    FlushRefines(Update(p, data));
  }

  /** The write-through server has the nested value; */
  lemma NestedThrough(p: Profile, data: Members, path: seq<string>, v: Json)
    requires ProfileOk(p) && |data| == 1 && PathOf(data[0].0) == path && data[0].1 == v && path[0] != ACCOUNT_NAME
    requires Persisted(data) == data && data[0].0 !in IMMUTABLE
    ensures Get(UpdateThrough(true, Overlay(p), data), path) == Some(v)
  {
    hide NameOf, IMMUTABLE;
    OverlayName(p);
    NameKept(Overlay(p), data);
    assert data[1..] == [];
    ReadBack(Overlay(p), path, v, []);
    assert path + [] == path;
  }

  /** the flush puts back the waiting one, which does not. */
  lemma NestedFlushed(p: Profile, data: Members, path: seq<string>)
    requires ProfileOk(p) && p.keyed && |Allowed(data)| == 1 && Stores(data) && !Reaches(Persisted(data), ACCOUNT_NAME)
    requires |path| == 2 && path[0] in p.delayed && p.delayed[path[0]] == Object(map[])
    ensures Get(Flush(Update(p, data)).disk, path) == None
  {
    hide NameOf, IMMUTABLE;
    var p' := Update(p, data);
    UpdateStores(p, data);
    FlushRefines(p');
    assert p'.delayed == p.delayed;
    assert Field(Overlay(p'), path[0]) == Some(Object(map[]));
    assert path[1..] == [path[1]];
  }

  /**
   With one under the account's name, the whole update is refused, the waiting look it would have replaced
   is dropped, and no later call of the session is stored.
   */
  lemma NamedUpdateLost(key: string, look: Json, newLook: Json, v: Json)
    requires key !in IMMUTABLE && key !in DELAYED && key != "MapData" && PathOf(key)[0] == ACCOUNT_NAME
    ensures var p, data := Dressed(look), [(key, v), (APPEARANCE, newLook)];
            && ProfileOk(p) && !Harmless(p, data)
            && Update(p, data) == Profile(p.disk, map[], false) && Field(p.disk, APPEARANCE) == None
            && forall later :: Update(Update(p, data), later) == Update(p, data)
  {
    hide IMMUTABLE, NameOf;
    var p, data := Dressed(look), [(key, v), (APPEARANCE, newLook)];
    DressedOk(look);
    LookMutable(APPEARANCE);
    assert data[1..] == [(APPEARANCE, newLook)] && data[1..][1..] == [];
    assert Allowed(data) == data && Persisted(data) == data;
    assert data[0].0 == key && data[1].0 == APPEARANCE;
    UpdateStores(p, data);
    assert Kept(p, data) == map[];
  }

  lemma LookMutable(f: string)
    requires f == APPEARANCE
    ensures f !in IMMUTABLE && f != "MapData"
  {
    assert f[1] == 'p' && forall i :: 0 <= i < |IMMUTABLE| ==> |IMMUTABLE[i]| != 10 || IMMUTABLE[i][1] != 'p';
  }

  lemma SlotMutable(f: string)
    requires f in DELAYED
    ensures f !in IMMUTABLE
  {
    if f == APPEARANCE {
      LookMutable(f);
    } else if f == SKILL {
      assert f[1] == 'k' && forall i :: 0 <= i < |IMMUTABLE| ==> |IMMUTABLE[i]| != 5 || IMMUTABLE[i][1] != 'k';
    } else {
      assert f == GAME && f[0] == 'G' && forall i :: 0 <= i < |IMMUTABLE| ==> |IMMUTABLE[i]| != 4 || IMMUTABLE[i][0] != 'G';
    }
  }

  /** A key as a client can send it. */
  lemma NamedKey(key: string)
    requires key == "AccountName.x"
    ensures PathOf(key)[0] == ACCOUNT_NAME && key !in IMMUTABLE && key !in DELAYED && key != "MapData"
  {
    assert key[..11] == ACCOUNT_NAME && key[11] == '.' && Free(key[..11], '.');
    SplitAt(key, 11, '.');
    assert |key| == 13 && forall i :: 0 <= i < |IMMUTABLE| ==> |IMMUTABLE[i]| != 13;
  }

  lemma DottedKey()
    ensures PathOf("Appearance.Hat") == [APPEARANCE, "Hat"]
    ensures "Appearance.Hat" !in IMMUTABLE && "Appearance.Hat" != "MapData" && "Appearance.Hat" !in DELAYED
  {
    DottedKeySplits();
    DottedKeyMutable("Appearance.Hat");
  }

  lemma DottedKeySplits()
    ensures PathOf("Appearance.Hat") == [APPEARANCE, "Hat"]
  {
    var path := [APPEARANCE, "Hat"];
    assert Free(APPEARANCE, '.') && Free("Hat", '.');
    SplitJoin(path, '.');
    assert path[1..] == ["Hat"];
    assert Join(path, '.') == "Appearance.Hat";
  }

  lemma DottedKeyMutable(key: string)
    requires |key| == 14
    ensures key !in IMMUTABLE && key != "MapData" && key !in DELAYED
  {
    assert forall i :: 0 <= i < |IMMUTABLE| ==> |IMMUTABLE[i]| != 14;
  }
}
