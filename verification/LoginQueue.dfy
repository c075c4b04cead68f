/**
 The login queue: requests are served one at a time by a runner that a request starts when none runs.

 Each section under the queue's lock is one step; requests may arrive between any two. An exception
 that leaves a login ends its runner and leaves the flag as it was.
 */
module LoginQueue {
  import opened Options
  import opened JsonMerge
  import opened WriteBehind
  import opened AccountFields

  /** Where a runner stands: about to take, serving, about to look for more, pausing, or gone. */
  datatype Runner = Taking | Serving(login: int) | Looking | Pausing | Gone

  /** The queue and its flag, every runner ever started, and the history of arrivals and of logins taken. */
  datatype Queue = Queue(waiting: seq<int>, running: bool, runners: seq<Runner>, arrived: seq<int>, taken: seq<int>)

  const EMPTY := Queue([], false, [], [], [])

  /**
   What a login finds: whether its client is still there, the stored record of its account, and
   whether anything else throws, such as the database, reading the account name of any session, or the
   removal of an earlier session of the account.
   */
  datatype Attempt = Attempt(connected: bool, stored: Option<Json>, fault: bool)

  const PASSWORD := "Password"

  /** Reading the password of a stored record throws: it is there, and no text. */
  predicate Unreadable(stored: Json) {
    !stored.Object? || (PASSWORD in stored.fields && !stored.fields[PASSWORD].Text?)
  }

  /** An exception leaves the login; a client that is gone is skipped before anything is read. */
  predicate Throws(a: Attempt) {
    a.connected && (a.fault || (a.stored.Some? && Unreadable(a.stored.value)))
  }

  datatype Event = Arrive(login: int) | Take(i: nat) | Finish(i: nat, attempt: Attempt) | Look(i: nat) | Resume(i: nat)

  predicate Fails(e: Event) {
    e.Finish? && Throws(e.attempt)
  }

  predicate Enabled(q: Queue, e: Event) {
    match e
    case Arrive(_) => true
    case Take(i) => i < |q.runners| && q.runners[i] == Taking
    case Finish(i, _) => i < |q.runners| && q.runners[i].Serving?
    case Look(i) => i < |q.runners| && q.runners[i] == Looking
    case Resume(i) => i < |q.runners| && q.runners[i] == Pausing
  }

  function Step(q: Queue, e: Event): Queue
    requires Enabled(q, e)
  {
    match e
    case Arrive(login) =>
      q.(waiting := q.waiting + [login], arrived := q.arrived + [login], running := true,
         runners := if q.running then q.runners else q.runners + [Taking])
    case Take(i) =>
      if q.waiting == [] then q.(running := false, runners := q.runners[i := Gone])
      else
        q.(waiting := q.waiting[1..], taken := q.taken + [q.waiting[0]],
           runners := q.runners[i := Serving(q.waiting[0])])
    case Finish(i, attempt) => q.(runners := q.runners[i := if Throws(attempt) then Gone else Looking])
    case Look(i) =>
      if q.waiting == [] then q.(running := false, runners := q.runners[i := Gone])
      else q.(runners := q.runners[i := Pausing])
    case Resume(i) => q.(runners := q.runners[i := Taking])
  }

  ghost predicate IsRun(queues: seq<Queue>, events: seq<Event>) {
    && |queues| == |events| + 1 && queues[0] == EMPTY
    && forall i :: 0 <= i < |events| ==> Enabled(queues[i], events[i]) && queues[i + 1] == Step(queues[i], events[i])
  }

  predicate Live(q: Queue, i: nat) {
    i < |q.runners| && q.runners[i] != Gone
  }

  ghost predicate SomeLive(q: Queue) {
    exists i: nat :: Live(q, i)
  }

  /**
   At most one runner, and only while the flag is up; the flag is up whenever someone waits; a runner
   about to take finds someone; logins are taken in order of arrival.
   */
  ghost predicate Invariant(q: Queue) {
    && (forall i: nat, j: nat :: Live(q, i) && Live(q, j) ==> i == j)
    && (SomeLive(q) ==> q.running)
    && (q.waiting != [] ==> q.running)
    && (forall i: nat :: Live(q, i) && (q.runners[i] == Taking || q.runners[i] == Pausing) ==> q.waiting != [])
    && q.taken + q.waiting == q.arrived
  }

  lemma ArriveKeeps(q: Queue, login: int)
    requires Invariant(q)
    ensures Invariant(Step(q, Arrive(login)))
    ensures (q.running ==> SomeLive(q)) ==> SomeLive(Step(q, Arrive(login)))
  {
    var q' := Step(q, Arrive(login));
    forall i: nat | Live(q', i) ensures Live(q, i) || (!q.running && i == |q.runners|) {}
    if q.running {
      if SomeLive(q) {
        var i: nat :| Live(q, i);
        assert Live(q', i);
      }
    } else {
      assert Live(q', |q.runners|);
    }
  }

  /** A step of the one runner; it goes with the flag, unless its login fails. */
  lemma RunnerKeeps(q: Queue, e: Event)
    requires Invariant(q) && Enabled(q, e) && !e.Arrive?
    ensures Invariant(Step(q, e))
    ensures if Fails(e) then !SomeLive(Step(q, e)) && Step(q, e).running
            else Step(q, e).running ==> SomeLive(Step(q, e))
  {
    var q' := Step(q, e);
    assert Live(q, e.i);
    forall j: nat | Live(q', j) ensures j == e.i { assert Live(q, j); }
    assert q'.runners[e.i] != Gone ==> Live(q', e.i);
    if e.Take? && q.waiting != [] { assert q.waiting == [q.waiting[0]] + q.waiting[1..]; }
  }

  lemma {:induction false} RunKeepsInvariant(queues: seq<Queue>, events: seq<Event>, n: nat)
    requires IsRun(queues, events) && n <= |events|
    ensures Invariant(queues[n])
    ensures (forall j :: 0 <= j < n ==> !Fails(events[j])) && queues[n].running ==> SomeLive(queues[n])
  {
    if n > 0 {
      RunKeepsInvariant(queues, events, n - 1);
      if events[n - 1].Arrive? { ArriveKeeps(queues[n - 1], events[n - 1].login); }
      else { RunnerKeeps(queues[n - 1], events[n - 1]); }
    }
  }

  /** However requests, logins and failures interleave, no two logins are served at once, and they are taken in order. */
  lemma OneAtATimeInOrder(queues: seq<Queue>, events: seq<Event>, n: nat, i: nat, j: nat)
    requires IsRun(queues, events) && n <= |events|
    ensures var q := queues[n];
            && (i < |q.runners| && j < |q.runners| && q.runners[i].Serving? && q.runners[j].Serving? ==> i == j)
            && q.taken + q.waiting == q.arrived
  {
    RunKeepsInvariant(queues, events, n);
    var q := queues[n];
    assert i < |q.runners| && q.runners[i].Serving? ==> Live(q, i);
    assert j < |q.runners| && q.runners[j].Serving? ==> Live(q, j);
  }

  /** A runner that takes always finds a request: the check for an empty queue there never succeeds. */
  lemma TakeNeverFails(queues: seq<Queue>, events: seq<Event>, n: nat)
    requires IsRun(queues, events) && n < |events| && events[n].Take?
    ensures queues[n].waiting != [] && queues[n + 1].runners[events[n].i] == Serving(queues[n].waiting[0])
  {
    RunKeepsInvariant(queues, events, n);
    assert Live(queues[n], events[n].i);
  }

  // ---- The same, told from the events alone ----

  /** The logins that have arrived, in order. */
  function Arrivals(events: seq<Event>): seq<int> {
    if events == [] then []
    else
      var n := |events| - 1;
      Arrivals(events[..n]) + if events[n].Arrive? then [events[n].login] else []
  }

  /** The logins runners have begun to serve, in order. */
  ghost function Begun(queues: seq<Queue>, events: seq<Event>, n: nat): seq<int>
    requires IsRun(queues, events) && n <= |events|
  {
    if n == 0 then []
    else
      var e, q := events[n - 1], queues[n];
      Begun(queues, events, n - 1) +
      if e.Take? && e.i < |q.runners| && q.runners[e.i].Serving? then [q.runners[e.i].login] else []
  }

  /** What has begun to be served, then what waits, is what has arrived, in order. */
  lemma {:induction false} ArrivedIsServed(queues: seq<Queue>, events: seq<Event>, n: nat)
    requires IsRun(queues, events) && n <= |events|
    ensures Begun(queues, events, n) + queues[n].waiting == Arrivals(events[..n])
    ensures queues[n].arrived == Arrivals(events[..n]) && queues[n].taken == Begun(queues, events, n)
  {
    if n > 0 {
      hide Step, IsRun;
      ArrivedIsServed(queues, events, n - 1);
      RunStep(queues, events, n - 1);
      assert events[..n][..n - 1] == events[..n - 1];
      OneBegins(queues[n - 1], events[n - 1], Begun(queues, events, n - 1));
    } else {
      RunStarts(queues, events);
    }
  }

  lemma RunStep(queues: seq<Queue>, events: seq<Event>, n: nat)
    requires IsRun(queues, events) && n < |events|
    ensures |queues| == |events| + 1 && Enabled(queues[n], events[n]) && queues[n + 1] == Step(queues[n], events[n])
  {}

  lemma RunStarts(queues: seq<Queue>, events: seq<Event>)
    requires IsRun(queues, events)
    ensures |queues| == |events| + 1 && queues[0] == EMPTY
  {}

  lemma OneBegins(q: Queue, e: Event, begun: seq<int>)
    requires Enabled(q, e)
    ensures var q' := Step(q, e);
            var now := if e.Take? && e.i < |q'.runners| && q'.runners[e.i].Serving? then [q'.runners[e.i].login] else [];
            var came := if e.Arrive? then [e.login] else [];
            && (begun + now) + q'.waiting == (begun + q.waiting) + came
            && q'.arrived == q.arrived + came && q'.taken == q.taken + now
  {
    if e.Take? && q.waiting != [] { assert q.waiting == [q.waiting[0]] + q.waiting[1..]; }
  }

  /** What a runner does next: it serves, looks for more, pauses and takes again, or ends and lowers the flag. */
  lemma RunnerRounds(q: Queue, i: nat, attempt: Attempt)
    requires i < |q.runners|
    ensures q.runners[i] == Taking ==>
              var q' := Step(q, Take(i));
              if q.waiting == [] then q'.runners == q.runners[i := Gone] && !q'.running
              else q'.runners == q.runners[i := Serving(q.waiting[0])] && q'.running == q.running
    ensures q.runners[i].Serving? ==>
              var q' := Step(q, Finish(i, attempt));
              q'.runners == q.runners[i := if Throws(attempt) then Gone else Looking] && q'.running == q.running
    ensures q.runners[i] == Looking ==>
              var q' := Step(q, Look(i));
              if q.waiting == [] then q'.runners == q.runners[i := Gone] && !q'.running
              else q'.runners == q.runners[i := Pausing] && q'.running == q.running
    ensures q.runners[i] == Pausing ==>
              Step(q, Resume(i)).runners == q.runners[i := Taking] && Step(q, Resume(i)).running == q.running
  {}

  /** An arrival raises the flag, and starts a runner if it was down. */
  lemma ArrivalStarts(q: Queue, login: int)
    ensures var q' := Step(q, Arrive(login));
            q'.running && q'.runners == if q.running then q.runners else q.runners + [Taking]
  {}

  /** A login throws when something fails for a client still there: anything else, or a stored password that is no text. */
  lemma ThrowsIff(a: Attempt)
    ensures Throws(a) <==>
            && a.connected
            && (|| a.fault
                || (a.stored.Some? &&
                    (!a.stored.value.Object?
                     || ("Password" in a.stored.value.fields && !a.stored.value.fields["Password"].Text?))))
  {}

  // ---- Failed logins ----

  /** After a failed login the flag stays up with no runner, and nothing is taken any more. */
  lemma {:induction false} FailureIsFinal(queues: seq<Queue>, events: seq<Event>, j: nat, n: nat)
    requires IsRun(queues, events) && j < n <= |events| && Fails(events[j])
    ensures queues[n].running && !SomeLive(queues[n]) && queues[n].taken == queues[j].taken
  {
    RunKeepsInvariant(queues, events, n - 1);
    var q, e := queues[n - 1], events[n - 1];
    if j == n - 1 {
      RunnerKeeps(q, e);
    } else {
      FailureIsFinal(queues, events, j, n - 1);
      if !e.Arrive? { assert Live(q, e.i); }
      forall i: nat | Live(queues[n], i) ensures Live(q, i) {}
    }
  }

  /**
   In a reachable state someone waits without a runner to serve them if and only if a login has failed
   and a request has arrived that was not taken by then, earlier or later.
   */
  lemma WaitsInVain(queues: seq<Queue>, events: seq<Event>, n: nat)
    requires IsRun(queues, events) && n <= |events|
    ensures queues[n].waiting != [] && !SomeLive(queues[n]) <==>
            exists j :: 0 <= j < n && Fails(events[j]) && |queues[n].arrived| > |queues[j].taken|
  {
    RunKeepsInvariant(queues, events, n);
    var q := queues[n];
    assert |q.arrived| == |q.taken| + |q.waiting|;
    forall j | 0 <= j < n && Fails(events[j]) ensures !SomeLive(q) && q.taken == queues[j].taken {
      FailureIsFinal(queues, events, j, n);
    }
  }

  /** The run that shows it: one login whose stored password is no text, and one that comes after it. */
  lemma FailureStrands(first: int, second: int, stored: Json)
    requires Unreadable(stored)
    ensures var events := [Arrive(first), Take(0), Finish(0, Attempt(true, Some(stored), false)), Arrive(second)];
            exists queues: seq<Queue> :: IsRun(queues, events)
              && queues[4].waiting == [second] && queues[4].running && !SomeLive(queues[4])
  {
    var events := [Arrive(first), Take(0), Finish(0, Attempt(true, Some(stored), false)), Arrive(second)];
    var q1 := Queue([first], true, [Taking], [first], []);
    var q2 := Queue([], true, [Serving(first)], [first], [first]);
    var q3 := Queue([], true, [Gone], [first], [first]);
    var q4 := Queue([second], true, [Gone], [first, second], [first]);
    var queues := [EMPTY, q1, q2, q3, q4];
    assert Step(EMPTY, events[0]) == q1 && Step(q1, events[1]) == q2;
    assert Step(q2, events[2]) == q3 && Step(q3, events[3]) == q4;
    assert IsRun(queues, events);
  }

  /**
   What makes a stored password unreadable: an account update turns a password that is text into
   something else exactly when it is written and has a key whose path begins with it.
   */
  lemma PasswordStaysText(p: Profile, data: Members, password: string)
    requires ProfileOk(p) && Field(p.disk, PASSWORD) == Some(Text(password))
    ensures Unreadable(Update(p, data).disk) <==> Writes(p, data) && Reaches(Persisted(data), PASSWORD)
    ensures !Unreadable(Update(p, data).disk) ==> Field(Update(p, data).disk, PASSWORD) == Some(Text(password))
  {
    assert PASSWORD in IMMUTABLE;
    MergedField(p.disk, Persisted(data), PASSWORD);
    ImmutableFieldKept(p, data, PASSWORD);
  }

  // ---- The queue itself ----

  class Logins {
    var loginQueue: seq<int>
    var loginRunning: bool
    ghost var runners: seq<Runner>
    ghost var arrived: seq<int>
    ghost var taken: seq<int>

    constructor ()
      ensures Now() == EMPTY
    {
      loginQueue, loginRunning := [], false;
      runners, arrived, taken := [], [], [];
    }

    ghost function Now(): Queue
      reads this
    {
      Queue(loginQueue, loginRunning, runners, arrived, taken)
    }

    /** `enqueue_login`: whether the caller is to start a runner. */
    method EnqueueLogin(login: int) returns (shouldRun: bool)
      modifies this
      ensures Now() == Step(old(Now()), Arrive(login)) && shouldRun == !old(loginRunning)
    {
      shouldRun := !loginRunning;
      loginQueue := loginQueue + [login];
      if shouldRun {
        loginRunning := true;
        runners := runners + [Taking];
      }
      arrived := arrived + [login];
    }

    /** The head of a round of `run_login_queue`: the login to serve, or the runner ends. */
    method TakeNext(ghost i: nat) returns (found: bool, login: int)
      requires Enabled(Now(), Take(i))
      modifies this
      ensures Now() == Step(old(Now()), Take(i))
      ensures found == (old(loginQueue) != []) && (found ==> login == old(loginQueue)[0])
    {
      if loginQueue == [] {
        loginRunning := false;
        runners := runners[i := Gone];
        return false, 0;
      }
      found, login := true, loginQueue[0];
      loginQueue := loginQueue[1..];
      taken := taken + [login];
      runners := runners[i := Serving(login)];
    }

    /** The tail of a round: whether to go on after a pause. */
    method LookForMore(ghost i: nat) returns (more: bool)
      requires Enabled(Now(), Look(i))
      modifies this
      ensures Now() == Step(old(Now()), Look(i)) && more == (old(loginQueue) != [])
    {
      more := loginQueue != [];
      if !more { loginRunning := false; }
      runners := runners[i := if more then Pausing else Gone];
    }
  }
}
