/**
 Singleflight: the first caller of a key runs the work, the others wait for its result.

 The sections of a call between two suspension points, and within the leader each write another
 thread could come between, are separate steps; any caller may take the next one.
 */
module Flight {
  import opened Options

  datatype Outcome<T, E> = Value(value: T) | Thrown(error: E)

  /** The shared record of one flight; `due` is its timer's expiry lying in the past. */
  datatype Call<T, E> = Call(key: string, leader: nat, value: Option<T>, error: Option<E>, due: bool)

  /** A leader works, publishes, erases, wakes and returns; a follower joins, waits and reads. */
  datatype Phase<T, E> = Leading | Computed(outcome: Outcome<T, E>) | Published(outcome: Outcome<T, E>)
                       | Erased(outcome: Outcome<T, E>) | Led(outcome: Outcome<T, E>)
                       | Joined | Waiting | Woken | Followed(outcome: Outcome<T, E>) | ReadUnset

  datatype Caller<T, E> = Caller(call: nat, phase: Phase<T, E>)

  /** Every flight ever begun, the table of those that can be joined, and every caller. */
  datatype Group<T, E> = Group(calls: seq<Call<T, E>>, table: map<string, nat>, callers: seq<Caller<T, E>>)

  datatype Event<T, E> = Arrive(key: string) | Compute(c: nat, outcome: Outcome<T, E>) | Publish(c: nat) | Erase(c: nat)
                       | Wake(c: nat) | Wait(c: nat) | Read(c: nat)

  predicate IsLeader(p: Phase) {
    p.Leading? || p.Computed? || p.Published? || p.Erased? || p.Led?
  }

  /** The leader has not given the key back yet. */
  predicate InFlight(p: Phase) {
    p.Leading? || p.Computed? || p.Published?
  }

  function Move<T, E>(g: Group<T, E>, c: nat, p: Phase<T, E>): Group<T, E>
    requires c < |g.callers|
  {
    g.(callers := g.callers[c := g.callers[c].(phase := p)])
  }

  /** Setting a call's timer to the past wakes whoever waits on it. */
  function WakeAll<T, E>(callers: seq<Caller<T, E>>, call: nat): (r: seq<Caller<T, E>>)
    ensures |r| == |callers|
    ensures forall i :: 0 <= i < |r| ==>
              r[i] == if callers[i] == Caller(call, Waiting) then Caller(call, Woken) else callers[i]
  {
    seq(|callers|, i requires 0 <= i < |callers| =>
      if callers[i] == Caller(call, Waiting) then Caller(call, Woken) else callers[i])
  }

  /** What a woken follower reads: the error if there is one, else the value, which must be set. */
  function Reading<T, E>(call: Call<T, E>): Phase<T, E> {
    if call.error.Some? then Followed(Thrown(call.error.value))
    else if call.value.Some? then Followed(Value(call.value.value))
    else ReadUnset
  }

  predicate At(g: Group, c: nat) {
    c < |g.callers| && g.callers[c].call < |g.calls|
  }

  predicate Enabled(g: Group, e: Event) {
    match e
    case Arrive(_) => true
    case Compute(c, _) => At(g, c) && g.callers[c].phase.Leading?
    case Publish(c) => At(g, c) && g.callers[c].phase.Computed?
    case Erase(c) => At(g, c) && g.callers[c].phase.Published?
    case Wake(c) => At(g, c) && g.callers[c].phase.Erased?
    case Wait(c) => At(g, c) && g.callers[c].phase.Joined?
    case Read(c) => At(g, c) && g.callers[c].phase.Woken?
  }

  function Step<T, E>(g: Group<T, E>, e: Event<T, E>): Group<T, E>
    requires Enabled(g, e)
  {
    match e
    case Arrive(key) =>
      if key in g.table then g.(callers := g.callers + [Caller(g.table[key], Joined)])
      else Group(g.calls + [Call(key, |g.callers|, None, None, false)], g.table[key := |g.calls|],
                 g.callers + [Caller(|g.calls|, Leading)])
    case Compute(c, outcome) => Move(g, c, Computed(outcome))
    case Publish(c) =>
      var o, k := g.callers[c].phase.outcome, g.callers[c].call;
      var call := if o.Value? then g.calls[k].(value := Some(o.value), error := None)
                  else g.calls[k].(value := None, error := Some(o.error));
      Move(g.(calls := g.calls[k := call]), c, Published(o))
    case Erase(c) =>
      Move(g.(table := g.table - {g.calls[g.callers[c].call].key}), c, Erased(g.callers[c].phase.outcome))
    case Wake(c) =>
      var k := g.callers[c].call;
      var g' := Move(g.(calls := g.calls[k := g.calls[k].(due := true)]), c, Led(g.callers[c].phase.outcome));
      g'.(callers := WakeAll(g'.callers, k))
    case Wait(c) => Move(g, c, if g.calls[g.callers[c].call].due then Woken else Waiting)
    case Read(c) => Move(g, c, Reading(g.calls[g.callers[c].call]))
  }

  ghost predicate IsRun<T(!new), E(!new)>(groups: seq<Group<T, E>>, events: seq<Event<T, E>>) {
    && |groups| == |events| + 1 && groups[0] == Group([], map[], [])
    && forall i :: 0 <= i < |events| ==> Enabled(groups[i], events[i]) && groups[i + 1] == Step(groups[i], events[i])
  }

  // ---- The invariant ----

  predicate Carries<T(==), E(==)>(call: Call<T, E>, o: Outcome<T, E>) {
    match o
    case Value(v) => call.value == Some(v) && call.error == None
    case Thrown(e) => call.value == None && call.error == Some(e)
  }

  /** How far a leader is, against its call. */
  predicate LeaderOk<T(==), E(==)>(call: Call<T, E>, p: Phase<T, E>) {
    match p
    case Leading => call.value == None && call.error == None && !call.due
    case Computed(_) => call.value == None && call.error == None && !call.due
    case Published(o) => Carries(call, o) && !call.due
    case Erased(o) => Carries(call, o) && !call.due
    case Led(o) => Carries(call, o) && call.due
    case _ => false
  }

  predicate FollowerOk<T(==), E(==)>(call: Call<T, E>, p: Phase<T, E>) {
    match p
    case Joined => true
    case Waiting => !call.due
    case Woken => call.due
    case Followed(o) => call.due && Carries(call, o)
    case _ => false
  }

  ghost predicate CallerOk<T(!new), E(!new)>(g: Group<T, E>, c: nat)
    requires c < |g.callers|
  {
    && At(g, c)
    && var call, p := g.calls[g.callers[c].call], g.callers[c].phase;
       && (IsLeader(p) <==> call.leader == c)
       && (if IsLeader(p) then LeaderOk(call, p) else FollowerOk(call, p))
  }

  ghost predicate CallOk<T(!new), E(!new)>(g: Group<T, E>, k: nat)
    requires k < |g.calls|
  {
    var call := g.calls[k];
    && call.leader < |g.callers| && g.callers[call.leader].call == k
    && (InFlight(g.callers[call.leader].phase) <==> call.key in g.table && g.table[call.key] == k)
  }

  ghost predicate Invariant<T(!new), E(!new)>(g: Group<T, E>) {
    && (forall c :: 0 <= c < |g.callers| ==> CallerOk(g, c))
    && (forall k :: 0 <= k < |g.calls| ==> CallOk(g, k))
    && (forall key :: key in g.table ==> g.table[key] < |g.calls| && g.calls[g.table[key]].key == key)
  }

  lemma CallersKept<T(!new), E(!new)>(g: Group<T, E>, e: Event<T, E>, c: nat)
    requires Invariant(g) && Enabled(g, e) && c < |Step(g, e).callers|
    ensures CallerOk(Step(g, e), c)
  {
    hide Invariant, CallerOk, Step;
    if e.Arrive? || e.Publish? || e.Wake? {
      CallerSeesCalls(g, e, c);
    } else if e.Read? {
      CallerReads(g, e, c);
    } else {
      CallerMoves(g, e, c);
    }
  }

  /** The events that add to the calls or change one. */
  lemma CallerSeesCalls<T(!new), E(!new)>(g: Group<T, E>, e: Event<T, E>, c: nat)
    requires Invariant(g) && Enabled(g, e) && c < |Step(g, e).callers| && (e.Arrive? || e.Publish? || e.Wake?)
    ensures CallerOk(Step(g, e), c)
  {
    if c < |g.callers| {
      assert CallerOk(g, c) && CallOk(g, g.callers[c].call);
    }
    match e
    case Arrive(key) => if key in g.table { assert CallOk(g, g.table[key]); }
    case Publish(d) => assert CallerOk(g, d);
    case Wake(d) => assert CallerOk(g, d);
    case _ =>
  }

  /** The events that change one caller alone. */
  lemma CallerMoves<T(!new), E(!new)>(g: Group<T, E>, e: Event<T, E>, c: nat)
    requires Invariant(g) && Enabled(g, e) && c < |Step(g, e).callers| && (e.Compute? || e.Erase? || e.Wait?)
    ensures CallerOk(Step(g, e), c)
  {
    assert CallerOk(g, c) && CallOk(g, g.callers[c].call);
    match e
    case Compute(d, _) => assert CallerOk(g, d);
    case Erase(d) => assert CallerOk(g, d);
    case Wait(d) => assert CallerOk(g, d);
    case _ =>
  }

  lemma CallerReads<T(!new), E(!new)>(g: Group<T, E>, e: Event<T, E>, c: nat)
    requires Invariant(g) && Enabled(g, e) && c < |Step(g, e).callers| && e.Read?
    ensures CallerOk(Step(g, e), c)
  {
    var d := e.c;
    var k := g.callers[d].call;
    assert CallerOk(g, c) && CallerOk(g, d) && CallOk(g, k) && CallerOk(g, g.calls[k].leader);
  }

  lemma CallsKept<T(!new), E(!new)>(g: Group<T, E>, e: Event<T, E>, k: nat)
    requires Invariant(g) && Enabled(g, e) && k < |Step(g, e).calls|
    ensures CallOk(Step(g, e), k)
  {
    hide LeaderOk, FollowerOk, Carries;
    if k < |g.calls| {
      assert CallOk(g, k) && CallerOk(g, g.calls[k].leader);
    }
    match e
    case Arrive(_) =>
    case Compute(d, _) => assert CallerOk(g, d);
    case Publish(d) => assert CallerOk(g, d);
    case Erase(d) =>
      assert CallerOk(g, d) && CallOk(g, g.callers[d].call);
    case Wake(d) => assert CallerOk(g, d);
    case Wait(d) => assert CallerOk(g, d);
    case Read(d) => assert CallerOk(g, d);
  }

  lemma {:induction false} RunKeepsInvariant<T(!new), E(!new)>(groups: seq<Group<T, E>>, events: seq<Event<T, E>>, i: nat)
    requires IsRun(groups, events) && i <= |events|
    ensures Invariant(groups[i])
  {
    if i > 0 {
      RunKeepsInvariant(groups, events, i - 1);
      var g, e := groups[i - 1], events[i - 1];
      forall c | 0 <= c < |Step(g, e).callers| ensures CallerOk(Step(g, e), c) { CallersKept(g, e, c); }
      forall k | 0 <= k < |Step(g, e).calls| ensures CallOk(Step(g, e), k) { CallsKept(g, e, k); }
      forall key | key in Step(g, e).table
        ensures Step(g, e).table[key] < |Step(g, e).calls| && Step(g, e).calls[Step(g, e).table[key]].key == key {}
    }
  }

  // ---- What it means ----

  /** In every interleaving, at most one leader of a key has not given it back. */
  lemma OneLeaderPerKey<T(!new), E(!new)>(groups: seq<Group<T, E>>, events: seq<Event<T, E>>, i: nat, c: nat, d: nat)
    requires IsRun(groups, events) && i <= |events|
    requires var g := groups[i]; At(g, c) && At(g, d) && InFlight(g.callers[c].phase) && InFlight(g.callers[d].phase)
    requires groups[i].calls[groups[i].callers[c].call].key == groups[i].calls[groups[i].callers[d].call].key
    ensures c == d
  {
    RunKeepsInvariant(groups, events, i);
    var g := groups[i];
    assert CallerOk(g, c) && CallerOk(g, d) && CallOk(g, g.callers[c].call) && CallOk(g, g.callers[d].call);
  }

  /** A follower returns its leader's value or error, and never reads a result that is not set. */
  lemma FollowersShareTheResult<T(!new), E(!new)>(groups: seq<Group<T, E>>, events: seq<Event<T, E>>, i: nat, c: nat)
    requires IsRun(groups, events) && i <= |events| && c < |groups[i].callers|
    ensures !groups[i].callers[c].phase.ReadUnset?
    ensures groups[i].callers[c].phase.Followed? ==>
              var g := groups[i];
              && At(g, c) && g.calls[g.callers[c].call].leader < |g.callers|
              && var leader := g.callers[g.calls[g.callers[c].call].leader];
                 leader == Caller(g.callers[c].call, Led(g.callers[c].phase.outcome))
  {
    RunKeepsInvariant(groups, events, i);
    var g := groups[i];
    assert CallerOk(g, c) && CallOk(g, g.callers[c].call);
    assert CallerOk(g, g.calls[g.callers[c].call].leader);
  }

  /**
   Once the leader has returned nobody waits on its call, and a follower that only then starts to
   wait is woken at once.
   */
  lemma NobodyIsLeftWaiting<T(!new), E(!new)>(groups: seq<Group<T, E>>, events: seq<Event<T, E>>, i: nat, c: nat, d: nat)
    requires IsRun(groups, events) && i <= |events|
    requires var g := groups[i];
             At(g, c) && g.callers[c].phase.Led? && d < |g.callers| && g.callers[d].call == g.callers[c].call
    ensures !groups[i].callers[d].phase.Waiting?
    ensures i < |events| && events[i] == Wait(d) ==> groups[i + 1].callers[d].phase == Woken
  {
    RunKeepsInvariant(groups, events, i);
    assert CallerOk(groups[i], c) && CallerOk(groups[i], d);
  }

  /** A call's leader never changes, and its published result never does. */
  lemma {:induction false} ResultIsFinal<T(!new), E(!new)>(groups: seq<Group<T, E>>, events: seq<Event<T, E>>, i: nat, j: nat, c: nat)
    requires IsRun(groups, events) && i <= j <= |events| && c < |groups[i].callers|
    requires var p := groups[i].callers[c].phase; p.Computed? || p.Published? || p.Erased? || p.Led? || p.Followed?
    ensures c < |groups[j].callers| && groups[j].callers[c].call == groups[i].callers[c].call
    ensures var p := groups[j].callers[c].phase;
            && (p.Computed? || p.Published? || p.Erased? || p.Led? || p.Followed?)
            && p.outcome == groups[i].callers[c].phase.outcome
  {
    if i < j { ResultIsFinal(groups, events, i, j - 1, c); }
  }

  // ---- The same, told from the events ----

  /** Who arrives joins the caller that leads its key, while one does; otherwise it leads a call of its own. */
  lemma ArrivalJoins<T(!new), E(!new)>(groups: seq<Group<T, E>>, events: seq<Event<T, E>>, i: nat, d: nat)
    requires IsRun(groups, events) && i < |events| && events[i].Arrive?
    ensures var g, g', c, key := groups[i], groups[i + 1], |groups[i].callers|, events[i].key;
            && |g'.callers| == c + 1 && g'.callers[..c] == g.callers
            && (At(g, d) && InFlight(g.callers[d].phase) && g.calls[g.callers[d].call].key == key ==>
                  g'.callers[c] == Caller(g.callers[d].call, Joined))
            && ((forall b: nat :: At(g, b) && InFlight(g.callers[b].phase) ==> g.calls[g.callers[b].call].key != key) ==>
                  g'.callers[c] == Caller(|g.calls|, Leading) && g'.calls == g.calls + [Call(key, c, None, None, false)])
  {
    RunKeepsInvariant(groups, events, i);
    var g, key := groups[i], events[i].key;
    if At(g, d) { assert CallerOk(g, d) && CallOk(g, g.callers[d].call); }
    if key in g.table {
      assert CallOk(g, g.table[key]);
      assert At(g, g.calls[g.table[key]].leader);
    }
  }

  lemma {:induction false} LeaderComputed<T(!new), E(!new)>(groups: seq<Group<T, E>>, events: seq<Event<T, E>>,
                                                           i: nat, c: nat)
    requires IsRun(groups, events) && i <= |events| && c < |groups[i].callers|
    requires var p := groups[i].callers[c].phase; p.Computed? || p.Published? || p.Erased? || p.Led?
    ensures exists j :: 0 <= j < i && events[j] == Compute(c, groups[i].callers[c].phase.outcome)
  {
    hide Step;
    var g, e := groups[i - 1], events[i - 1];
    OutcomeStep(g, e, c);
    if e != Compute(c, groups[i].callers[c].phase.outcome) { LeaderComputed(groups, events, i - 1, c); }
  }

  lemma OutcomeStep<T(!new), E(!new)>(g: Group<T, E>, e: Event<T, E>, c: nat)
    requires Enabled(g, e) && c < |Step(g, e).callers|
    requires var p := Step(g, e).callers[c].phase; p.Computed? || p.Published? || p.Erased? || p.Led?
    ensures var o := Step(g, e).callers[c].phase.outcome;
            e != Compute(c, o) ==>
              && c < |g.callers|
              && var p := g.callers[c].phase; (p.Computed? || p.Published? || p.Erased? || p.Led?) && p.outcome == o
  {}

  /** Whatever a caller returns, leader or follower, is what the work of its call's leader came to. */
  lemma ReturnsComputed<T(!new), E(!new)>(groups: seq<Group<T, E>>, events: seq<Event<T, E>>, i: nat, c: nat)
    requires IsRun(groups, events) && i <= |events| && c < |groups[i].callers|
    requires groups[i].callers[c].phase.Led? || groups[i].callers[c].phase.Followed?
    ensures var g := groups[i];
            && At(g, c)
            && exists j :: 0 <= j < i &&
                 events[j] == Compute(g.calls[g.callers[c].call].leader, g.callers[c].phase.outcome)
  {
    RunKeepsInvariant(groups, events, i);
    var g := groups[i];
    assert CallerOk(g, c) && CallOk(g, g.callers[c].call);
    var leader := g.calls[g.callers[c].call].leader;
    if g.callers[c].phase.Followed? { FollowersShareTheResult(groups, events, i, c); }
    LeaderComputed(groups, events, i, leader);
  }

  /** A caller's own steps: a leader publishes, gives the key back and wakes; a follower waits unless it is due. */
  lemma CallerSteps<T(!new), E(!new)>(g: Group<T, E>, c: nat, o: Outcome<T, E>)
    requires At(g, c)
    ensures var p, k := g.callers[c].phase, g.callers[c].call;
            && (p.Leading? ==> Step(g, Compute(c, o)).callers[c] == Caller(k, Computed(o)))
            && (p.Computed? ==> Step(g, Publish(c)).callers[c] == Caller(k, Published(p.outcome)))
            && (p.Published? ==>
                  Step(g, Erase(c)).callers[c] == Caller(k, Erased(p.outcome)) && g.calls[k].key !in Step(g, Erase(c)).table)
            && (p.Erased? ==> Step(g, Wake(c)).callers[c] == Caller(k, Led(p.outcome)) && Step(g, Wake(c)).calls[k].due)
            && (p.Joined? ==> Step(g, Wait(c)).callers[c] == Caller(k, if g.calls[k].due then Woken else Waiting))
            && (p.Woken? ==>
                  Step(g, Read(c)).callers[c] ==
                  Caller(k, if g.calls[k].error.Some? then Followed(Thrown(g.calls[k].error.value))
                            else if g.calls[k].value.Some? then Followed(Value(g.calls[k].value.value))
                            else ReadUnset))
  {}

  // ---- The group itself ----

  /** `do_call`, section by section, for the caller numbered c. */
  class FlightGroup<T, E> {
    var calls: seq<Call<T, E>>
    var table: map<string, nat>
    var callers: seq<Caller<T, E>>

    constructor ()
      ensures Now() == Group([], map[], [])
    {
      calls, table, callers := [], map[], [];
    }

    function Now(): Group<T, E>
      reads this
    {
      Group(calls, table, callers)
    }

    /** Under the lock: join the flight of this key, or begin one and lead it. */
    method Begin(key: string) returns (c: nat, leader: bool)
      modifies this
      ensures Now() == Step(old(Now()), Arrive(key)) && c == old(|callers|)
      ensures leader == (key !in old(table)) && callers[c].phase == if leader then Leading else Joined
    {
      c, leader := |callers|, false;
      if key in table {
        callers := callers + [Caller(table[key], Joined)];
      } else {
        table := table[key := |calls|];
        callers := callers + [Caller(|calls|, Leading)];
        calls := calls + [Call(key, c, None, None, false)];
        leader := true;
      }
    }

    method WorkDone(c: nat, outcome: Outcome<T, E>)
      requires Enabled(Now(), Compute(c, outcome))
      modifies this
      ensures Now() == Step(old(Now()), Compute(c, outcome))
    {
      callers := callers[c := callers[c].(phase := Computed(outcome))];
    }

    method PublishResult(c: nat)
      requires Enabled(Now(), Publish(c))
      modifies this
      ensures Now() == Step(old(Now()), Publish(c))
    {
      var k, outcome := callers[c].call, callers[c].phase.outcome;
      match outcome {
        case Value(v) => calls := calls[k := calls[k].(value := Some(v), error := None)];
        case Thrown(e) => calls := calls[k := calls[k].(value := None, error := Some(e))];
      }
      callers := callers[c := callers[c].(phase := Published(outcome))];
    }

    method EraseKey(c: nat)
      requires Enabled(Now(), Erase(c))
      modifies this
      ensures Now() == Step(old(Now()), Erase(c))
    {
      table := table - {calls[callers[c].call].key};
      callers := callers[c := callers[c].(phase := Erased(callers[c].phase.outcome))];
    }

    /** The leader sets the timer to the past and returns its own result. */
    method WakeWaiters(c: nat) returns (result: Outcome<T, E>)
      requires Enabled(Now(), Wake(c))
      modifies this
      ensures Now() == Step(old(Now()), Wake(c)) && result == old(callers[c].phase.outcome)
    {
      var k := callers[c].call;
      result := callers[c].phase.outcome;
      calls := calls[k := calls[k].(due := true)];
      callers := callers[c := callers[c].(phase := Led(result))];
      callers := WakeAll(callers, k);
    }

    method StartWait(c: nat)
      requires Enabled(Now(), Wait(c))
      modifies this
      ensures Now() == Step(old(Now()), Wait(c))
    {
      callers := callers[c := callers[c].(phase := if calls[callers[c].call].due then Woken else Waiting)];
    }

    /** The follower's return; under the invariant there is a result to return. */
    method ReadResult(c: nat) returns (result: Option<Outcome<T, E>>)
      requires Enabled(Now(), Read(c))
      modifies this
      ensures Now() == Step(old(Now()), Read(c))
      ensures callers[c].phase == if result.Some? then Followed(result.value) else ReadUnset
    {
      var call := calls[callers[c].call];
      result := None;
      if call.error.Some? {
        result := Some(Thrown(call.error.value));
      } else if call.value.Some? {
        result := Some(Value(call.value.value));
      }
      callers := callers[c := callers[c].(phase := if result.Some? then Followed(result.value) else ReadUnset)];
    }
  }
}
