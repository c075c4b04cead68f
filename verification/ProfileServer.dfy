/**
 All accounts of the server with their delayed writes, and the loop that flushes them together.

 One session whose account name cannot be read makes a whole flush throw, and the loop with it.
 */
module ProfileServer {
  import opened Options
  import opened JsonMerge
  import opened AccountFields
  import opened WriteBehind

  /** Every stored account, the accounts with a session, and whether the flush loop still runs. */
  datatype Server = Server(profiles: map<string, Profile>, online: set<string>, flushing: bool)

  /** `visited` are the sessions a flush has collected from by the time it stores or throws. */
  datatype Event = Opens(n: string) | Calls(n: string, call: Call) | Ends(n: string) | Flushes(visited: set<string>)

  ghost predicate SomeStuck(s: Server) {
    exists n :: n in s.online && n in s.profiles && Stuck(s.profiles[n])
  }

  ghost predicate Enabled(s: Server, e: Event) {
    match e
    case Opens(n) => n in s.profiles && n !in s.online
    case Calls(n, c) => n in s.online && n in s.profiles && (c.UpdateCall? || c.Dress?)
    case Ends(n) => n in s.online && n in s.profiles
    case Flushes(visited) =>
      s.flushing && visited <= s.online &&
      if SomeStuck(s) then exists n :: n in visited && n in s.profiles && Stuck(s.profiles[n]) else visited == s.online
  }

  /** What the event is for one account. */
  ghost function CallFor(s: Server, e: Event, n: string): Option<Call> {
    match e
    case Opens(_) => None
    case Calls(m, c) => if m == n then Some(c) else None
    case Ends(m) => if m == n then Some(EndSession) else None
    case Flushes(visited) => if n in visited then Some(FlushCall(!SomeStuck(s))) else None
  }

  function Served(p: Profile, c: Option<Call>): Profile {
    if c.Some? then Serve(p, c.value) else p
  }

  ghost function Step(s: Server, e: Event): Server {
    Server(map n | n in s.profiles :: Served(s.profiles[n], CallFor(s, e, n)),
           match e { case Opens(n) => s.online + {n} case Ends(n) => s.online - {n} case _ => s.online },
           s.flushing && (e.Flushes? ==> !SomeStuck(s)))
  }

  /** The records of a server that writes everything through. */
  ghost function StepThrough(s: Server, stores: map<string, Json>, e: Event): map<string, Json>
    requires stores.Keys == s.profiles.Keys
  {
    map n | n in stores ::
      match CallFor(s, e, n) { case None => stores[n] case Some(c) => ServeThrough(s.profiles[n].keyed, stores[n], c) }
  }

  ghost predicate ServerOk(s: Server) {
    && s.online <= s.profiles.Keys
    && forall n :: n in s.profiles ==>
         && ProfileOk(s.profiles[n])
         && (n !in s.online ==> s.profiles[n].delayed == map[] && s.profiles[n].keyed)
  }

  /** Every stored account overlaid with what waits is what the write-through server holds. */
  ghost predicate InSync(s: Server, stores: map<string, Json>) {
    stores.Keys == s.profiles.Keys && forall n :: n in stores ==> Overlay(s.profiles[n]) == stores[n]
  }

  /** No account's waiting values are thrown away or overtaken. */
  ghost predicate EventHarmless(s: Server, e: Event) {
    forall n :: n in s.profiles && CallFor(s, e, n).Some? ==> CallHarmless(s.profiles[n], CallFor(s, e, n).value)
  }

  lemma StepOk(s: Server, e: Event)
    requires ServerOk(s) && Enabled(s, e)
    ensures ServerOk(Step(s, e))
  {
    hide ProfileOk, Overlay, CallHarmless;
    var s' := Step(s, e);
    forall n | n in s'.profiles
      ensures ProfileOk(s'.profiles[n]) && (n !in s'.online ==> s'.profiles[n].delayed == map[] && s'.profiles[n].keyed)
    {
      if CallFor(s, e, n).Some? { ServeRefines(s.profiles[n], CallFor(s, e, n).value); }
    }
  }

  /** One event keeps the two servers in step exactly when it is harmless. */
  lemma StepInSync(s: Server, stores: map<string, Json>, e: Event)
    requires ServerOk(s) && Enabled(s, e) && InSync(s, stores)
    ensures InSync(Step(s, e), StepThrough(s, stores, e)) <==> EventHarmless(s, e)
  {
    hide ProfileOk, Overlay, CallHarmless, Serve, ServeThrough, CallFor;
    forall n | n in s.profiles && CallFor(s, e, n).Some?
      ensures Overlay(Step(s, e).profiles[n]) == StepThrough(s, stores, e)[n] <==>
              CallHarmless(s.profiles[n], CallFor(s, e, n).value)
    {
      ServeRefines(s.profiles[n], CallFor(s, e, n).value);
    }
  }

  // ---- Runs ----

  /** A run, and the records a write-through server holds beside it. */
  ghost predicate IsRun(servers: seq<Server>, stores: seq<map<string, Json>>, events: seq<Event>) {
    && |servers| == |stores| == |events| + 1
    && ServerOk(servers[0]) && InSync(servers[0], stores[0])
    && forall i :: 0 <= i < |events| ==> Follows(servers, stores, events, i)
  }

  ghost predicate Follows(servers: seq<Server>, stores: seq<map<string, Json>>, events: seq<Event>, i: nat)
    requires |servers| == |stores| == |events| + 1 && i < |events|
  {
    && Enabled(servers[i], events[i]) && servers[i + 1] == Step(servers[i], events[i])
    && stores[i].Keys == servers[i].profiles.Keys && stores[i + 1] == StepThrough(servers[i], stores[i], events[i])
  }

  lemma {:induction false} RunOk(servers: seq<Server>, stores: seq<map<string, Json>>, events: seq<Event>, i: nat)
    requires IsRun(servers, stores, events) && i <= |events|
    ensures ServerOk(servers[i])
  {
    if i > 0 {
      RunOk(servers, stores, events, i - 1);
      assert Follows(servers, stores, events, i - 1);
      StepOk(servers[i - 1], events[i - 1]);
    }
  }

  /** The two servers agree all along a run if and only if every event of it is harmless. */
  lemma {:induction false} RunInSyncIff(servers: seq<Server>, stores: seq<map<string, Json>>, events: seq<Event>, n: nat)
    requires IsRun(servers, stores, events) && n <= |events|
    ensures (forall i :: 0 <= i <= n ==> InSync(servers[i], stores[i])) <==>
            forall i :: 0 <= i < n ==> EventHarmless(servers[i], events[i])
  {
    hide InSync, EventHarmless, Step, StepThrough, ServerOk;
    if n > 0 {
      RunInSyncIff(servers, stores, events, n - 1);
      RunOk(servers, stores, events, n - 1);
      assert Follows(servers, stores, events, n - 1);
      if InSync(servers[n - 1], stores[n - 1]) {
        StepInSync(servers[n - 1], stores[n - 1], events[n - 1]);
      }
      assert n - 1 < n;
    }
  }

  /** No update of the run has a dotted key under a delayed field or an account's name. */
  predicate Plain(events: seq<Event>) {
    forall i :: 0 <= i < |events| && events[i].Calls? && events[i].call.UpdateCall? ==> NoDotted(events[i].call.data)
  }

  /** Every account's name can be read, and the flush loop runs. */
  ghost predicate AllKeyed(s: Server) {
    s.flushing && forall n :: n in s.profiles ==> s.profiles[n].keyed
  }

  lemma PlainStep(s: Server, e: Event)
    requires ServerOk(s) && Enabled(s, e) && AllKeyed(s)
    requires e.Calls? && e.call.UpdateCall? ==> NoDotted(e.call.data)
    ensures AllKeyed(Step(s, e)) && EventHarmless(s, e)
  {
    hide ProfileOk, Harmless, NoDotted, Update, NothingToLose;
    assert !SomeStuck(s);
    if e.Calls? && e.call.UpdateCall? {
      UndottedIsHarmless(s.profiles[e.n], e.call.data);
    }
  }

  /**
   Over every run whose updates have no such key, in whatever order accounts come and go, update and are
   flushed, the two servers agree, no flush fails, and a flush leaves the database as the other server's.
   */
  lemma {:induction false} PlainRunInSync(servers: seq<Server>, stores: seq<map<string, Json>>, events: seq<Event>, n: nat)
    requires IsRun(servers, stores, events) && n <= |events| && Plain(events) && AllKeyed(servers[0])
    ensures AllKeyed(servers[n]) && InSync(servers[n], stores[n])
    ensures n > 0 && events[n - 1].Flushes? ==>
              forall m :: m in stores[n] ==> servers[n].profiles[m] == Profile(stores[n][m], map[], true)
  {
    hide InSync, ServerOk, EventHarmless, NoDotted;
    if n > 0 {
      var s, e := servers[n - 1], events[n - 1];
      PlainRunInSync(servers, stores, events, n - 1);
      RunOk(servers, stores, events, n - 1);
      assert Follows(servers, stores, events, n - 1);
      PlainStep(s, e);
      StepInSync(s, stores[n - 1], e);
      if e.Flushes? { FlushedAll(s, stores[n - 1], e); }
    }
  }

  lemma FlushedAll(s: Server, stores: map<string, Json>, e: Event)
    requires ServerOk(s) && AllKeyed(s) && InSync(s, stores) && Enabled(s, e) && e.Flushes?
    ensures forall m :: m in stores ==>
              Step(s, e).profiles[m] == Profile(stores[m], map[], true) && StepThrough(s, stores, e)[m] == stores[m]
  {
    hide Stored, Overlay;
    assert !SomeStuck(s);
    forall m | m in stores ensures Step(s, e).profiles[m] == Profile(stores[m], map[], true) {
      if m in s.online { FlushRefines(s.profiles[m]); } else { NothingOver(s.profiles[m].disk, true); }
    }
  }

  // ---- A flush that fails ----

  /**
   A flush brings the database in line with all that waits if and only if no session is stuck, or nothing
   that waits is new. One that is stuck also ends the loop.
   */
  lemma FlushIff(s: Server, e: Event)
    requires ServerOk(s) && Enabled(s, e) && e.Flushes?
    ensures (forall n :: n in s.profiles ==> Step(s, e).profiles[n].disk == Overlay(s.profiles[n])) <==>
            !SomeStuck(s) || forall n :: n in s.profiles ==> NothingToLose(s.profiles[n])
    ensures Step(s, e).flushing <==> !SomeStuck(s)
  {
    hide Stored, Overlay, NothingToLose, Waiting;
    forall n | n in s.profiles
      ensures if SomeStuck(s) then Step(s, e).profiles[n].disk == s.profiles[n].disk
              else Step(s, e).profiles[n].disk == Overlay(s.profiles[n])
      ensures Overlay(s.profiles[n]) == s.profiles[n].disk <==> NothingToLose(s.profiles[n])
    {
      var p := s.profiles[n];
      LossRefines(p);
      NothingWaits(p.delayed);
      if !SomeStuck(s) {
        if p.keyed { FlushRefines(p); }
        if p.delayed == map[] { NothingOver(p.disk, p.keyed); }
      }
    }
  }

  function Fresh(n: string): Profile {
    Profile(Object(map[ACCOUNT_NAME := Text(n)]), map[], true)
  }

  /**
   The run that shows it: a look waits for one account; another, for which one waits too, has an update
   that reaches its name; the flush then throws, the first account's look is nowhere, and the loop has ended.
   */
  lemma FlushLosesOthers(a: string, c: string, look: Json, other: Json, key: string, v: Json)
    requires a != c && a != "" && c != ""
    requires key !in IMMUTABLE && key !in DELAYED && key != "MapData" && PathOf(key)[0] == ACCOUNT_NAME
    ensures var s0 := Server(map[a := Fresh(a), c := Fresh(c)], {a, c}, true);
            var e1, e2, e3 := Calls(a, Dress(look)), Calls(c, Dress(other)), Calls(c, UpdateCall([(key, v)]));
            var s1 := Step(s0, e1);
            var s2 := Step(s1, e2);
            var s3 := Step(s2, e3);
            var flush := Flushes({a, c});
            && ServerOk(s0) && Enabled(s0, e1) && Enabled(s1, e2) && Enabled(s2, e3) && Enabled(s3, flush)
            && s3.profiles[a].delayed == map[APPEARANCE := look]
            && Step(s3, flush).profiles[a] == Fresh(a) && !Step(s3, flush).flushing
  {
    hide Step, Update, Enabled, SomeStuck;
    var s0 := Server(map[a := Fresh(a), c := Fresh(c)], {a, c}, true);
    var p, q := Fresh(a).(delayed := map[APPEARANCE := look]), Fresh(c).(delayed := map[APPEARANCE := other]);
    OneCall(s0, a, Dress(look));
    var s1 := Server(s0.profiles[a := p], {a, c}, true);
    OneCall(s1, c, Dress(other));
    var s2 := Server(s1.profiles[c := q], {a, c}, true);
    FreshOk(c);
    Refused(q, key, v);
    OneCall(s2, c, UpdateCall([(key, v)]));
    var s3 := Server(s2.profiles[c := q.(keyed := false)], {a, c}, true);
    FreshOk(a);
    assert WaitingFor(q.delayed, APPEARANCE) != [];
    FlushStuck(s3, a, c);
  }

  lemma OneCall(s: Server, n: string, c: Call)
    requires n in s.online && n in s.profiles && (c.UpdateCall? || c.Dress?)
    ensures Enabled(s, Calls(n, c))
    ensures Step(s, Calls(n, c)) == s.(profiles := s.profiles[n := Serve(s.profiles[n], c)])
  {
    hide Serve;
    var s' := Step(s, Calls(n, c));
    assert s'.profiles == s.profiles[n := Serve(s.profiles[n], c)];
  }

  lemma FlushStuck(s: Server, a: string, c: string)
    requires s.flushing && s.online == s.profiles.Keys == {a, c} && Stuck(s.profiles[c])
    ensures Enabled(s, Flushes({a, c})) && !Step(s, Flushes({a, c})).flushing
    ensures Step(s, Flushes({a, c})).profiles[a] == s.profiles[a].(delayed := map[])
  {
    assert SomeStuck(s);
  }

  lemma FreshOk(n: string)
    requires n != ""
    ensures ProfileOk(Fresh(n)) && forall look :: ProfileOk(Fresh(n).(delayed := map[APPEARANCE := look]))
  {
    assert APPEARANCE in DELAYED;
  }

  /** An update of one member that reaches the name leaves what waits waiting. */
  lemma Refused(p: Profile, key: string, v: Json)
    requires ProfileOk(p) && p.keyed
    requires key !in IMMUTABLE && key !in DELAYED && key != "MapData" && PathOf(key)[0] == ACCOUNT_NAME
    ensures Update(p, [(key, v)]) == p.(keyed := false)
  {
    hide IMMUTABLE, NameOf;
    var data: Members := [(key, v)];
    assert data[1..] == [] && data[0].0 == key;
    assert Allowed(data) == data && Persisted(data) == data;
    UpdateStores(p, data);
  }
}
