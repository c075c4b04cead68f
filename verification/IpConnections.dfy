/** The per-address connection counts of the transport, kept in two maps. */
module IpConnections {
  import opened Trimming

  const WINDOW := 1000
  const UNKNOWN := "unknown"

  // ---- Addresses ----

  /** What follows the last comma. */
  function LastHop(xff: string): string {
    if xff == "" then ""
    else if xff[|xff| - 1] == ',' then ""
    else LastHop(xff[..|xff| - 1]) + [xff[|xff| - 1]]
  }

  /** The last hop of X-Forwarded-For, else the peer; there is always an address to count under. */
  function ClientAddress(xff: string, peer: string): (address: string)
    ensures address != ""
  {
    if Trim(LastHop(xff)) != "" then Trim(LastHop(xff)) else if peer == "" then UNKNOWN else peer
  }

  /** A header always has a last hop: what has no comma in it and stands behind the last one, or is all there is. */
  lemma {:induction false} HopSplit(xff: string) returns (before: string, last: string)
    ensures xff == before + last && ',' !in last && (before == "" || before[|before| - 1] == ',')
  {
    before, last := xff, "";
    if xff != "" && xff[|xff| - 1] != ',' {
      before, last := HopSplit(xff[..|xff| - 1]);
      last := last + [xff[|xff| - 1]];
      assert xff == xff[..|xff| - 1] + [xff[|xff| - 1]];
    }
  }

  lemma {:induction false} LastHopIs(before: string, last: string)
    requires ',' !in last && (before == "" || before[|before| - 1] == ',')
    ensures LastHop(before + last) == last
  {
    if last == "" {
      assert before + last == before;
    } else {
      var n := |last| - 1;
      assert (before + last)[..|before| + n] == before + last[..n] && last == last[..n] + [last[n]];
      assert last[n] in last;
      LastHopIs(before, last[..n]);
    }
  }

  /** Spaces and tabs around it do not count; a hop of nothing else gives way to the peer, and no peer to "unknown". */
  lemma AddressIs(before: string, left: string, hop: string, right: string, peer: string)
    requires ',' !in left + hop + right && (before == "" || before[|before| - 1] == ',')
    requires SpacesTabs(left) && SpacesTabs(right) && PlainEnds(hop)
    ensures ClientAddress(before + (left + hop + right), peer) ==
            if hop != "" then hop else if peer != "" then peer else "unknown"
  {
    LastHopIs(before, left + hop + right);
    TrimIs(left, hop, right);
  }

  // ---- The two maps ----

  /**
   The admission times kept per address and the address of every admitted connection; `admitting` are the
   connections between the two writes of their admission, which happen under separate locks. `history`
   is no state of the server: it has the times of all admissions ever.
   */
  datatype Table = Table(times: map<string, seq<int>>, bySid: map<string, string>, admitting: map<string, string>,
                         history: map<string, seq<int>>)

  const EMPTY := Table(map[], map[], map[], map[])

  datatype Event = Register(sid: string, address: string, connLimit: int, rateLimit: int, now: int)
                 | Record(sid: string) | Remove(sid: string)

  function TimesOf(t: Table, address: string): seq<int> {
    if address in t.times then t.times[address] else []
  }

  function HistoryOf(t: Table, address: string): seq<int> {
    if address in t.history then t.history[address] else []
  }

  /** The last `rate` of these admissions lie within the closed window of a second that ends now. */
  predicate OverRate(times: seq<int>, rate: int, now: int)
    requires rate >= 1
  {
    |times| >= rate && now - times[|times| - rate] <= WINDOW
  }

  predicate Admits(times: seq<int>, connLimit: int, rateLimit: int, now: int)
    requires rateLimit >= 1
  {
    |times| < connLimit && !OverRate(times, rateLimit, now)
  }

  function Admitted(t: Table, sid: string, address: string, now: int): Table {
    t.(times := t.times[address := TimesOf(t, address) + [now]], admitting := t.admitting[sid := address],
       history := t.history[address := HistoryOf(t, address) + [now]])
  }

  /** One connection of an address is gone: its oldest time is dropped, and an address left empty. */
  function Released(times: map<string, seq<int>>, address: string): map<string, seq<int>> {
    if address !in times then times
    else if |times[address]| <= 1 then times - {address}
    else times[address := times[address][1..]]
  }

  function Step(t: Table, e: Event): Table
    requires Enabled(t, e)
  {
    match e
    case Register(sid, address, connLimit, rateLimit, now) =>
      if Admits(TimesOf(t, address), connLimit, rateLimit, now) then
        Admitted(t, sid, address, now)
      else if TimesOf(t, address) == [] then t.(times := t.times - {address})
      else t
    case Record(sid) => t.(bySid := t.bySid[sid := t.admitting[sid]], admitting := t.admitting - {sid})
    case Remove(sid) =>
      if sid !in t.bySid then t
      else
        var address := t.bySid[sid];
        t.(bySid := t.bySid - {sid}, times := if address != "" then Released(t.times, address) else t.times)
  }

  /**
   A connection registers once, under an address of its request; its own calls run in order on its
   strand, those of other connections come in between.
   */
  predicate Enabled(t: Table, e: Event) {
    match e
    case Register(sid, address, _, rateLimit, _) =>
      sid !in t.bySid && sid !in t.admitting && address != "" && rateLimit >= 1
    case Record(sid) => sid in t.admitting
    case Remove(sid) => sid !in t.admitting
  }

  ghost predicate IsRun(tables: seq<Table>, events: seq<Event>) {
    && |tables| == |events| + 1 && tables[0] == EMPTY
    && forall i :: 0 <= i < |events| ==> Enabled(tables[i], events[i]) && tables[i + 1] == Step(tables[i], events[i])
  }

  // ---- Agreement ----

  /** The address a connection is admitted under. */
  function AddressOf(t: Table, sid: string): string {
    if sid in t.bySid then t.bySid[sid] else if sid in t.admitting then t.admitting[sid] else ""
  }

  /** The admitted connections of an address. */
  function Live(t: Table, address: string): set<string> {
    set sid | sid in t.bySid.Keys + t.admitting.Keys && AddressOf(t, sid) == address
  }

  predicate CountOk(t: Table, address: string) {
    |TimesOf(t, address)| == |Live(t, address)|
  }

  /** Nobody is in both maps, everybody has an address, and no address is kept without times. */
  ghost predicate Tidy(t: Table) {
    && (forall sid :: sid in t.bySid ==> sid !in t.admitting && t.bySid[sid] != "")
    && (forall sid :: sid in t.admitting ==> t.admitting[sid] != "")
    && (forall a :: a in t.times ==> t.times[a] != [])
  }

  ghost predicate Agrees(t: Table) {
    Tidy(t) && forall a :: CountOk(t, a)
  }

  lemma RegisterCounts(t: Table, e: Event, a: string)
    requires CountOk(t, a) && Enabled(t, e) && e.Register?
    ensures CountOk(Step(t, e), a)
  {
    if Admits(TimesOf(t, e.address), e.connLimit, e.rateLimit, e.now) {
      AdmittedCounts(t, e.sid, e.address, e.now, a);
    } else {
      assert Live(Step(t, e), a) == Live(t, a);
    }
  }

  lemma AdmittedCounts(t: Table, sid: string, address: string, now: int, a: string)
    requires CountOk(t, a) && sid !in t.bySid && sid !in t.admitting
    ensures CountOk(Admitted(t, sid, address, now), a)
  {
    hide Live, HistoryOf;
    LiveAdmitted(t, sid, address, now, a);
  }

  lemma LiveAdmitted(t: Table, sid: string, address: string, now: int, a: string)
    requires sid !in t.bySid && sid !in t.admitting
    ensures sid !in Live(t, a)
    ensures Live(Admitted(t, sid, address, now), a) == if a == address then Live(t, a) + {sid} else Live(t, a)
  {
    hide TimesOf, HistoryOf;
    var t' := Admitted(t, sid, address, now);
    assert forall x :: x in Live(t', a) <==> x in Live(t, a) || (x == sid && a == address);
  }

  lemma LiveRecorded(t: Table, sid: string, a: string)
    requires Tidy(t) && sid in t.admitting
    ensures Live(Step(t, Record(sid)), a) == Live(t, a)
  {}

  lemma LiveRemoved(t: Table, sid: string, a: string)
    requires Tidy(t) && sid in t.bySid
    ensures Live(Step(t, Remove(sid)), a) == Live(t, a) - {sid}
    ensures sid in Live(t, a) <==> a == t.bySid[sid]
  {
    hide TimesOf, Released;
  }

  lemma RecordCounts(t: Table, e: Event, a: string)
    requires CountOk(t, a) && Tidy(t) && Enabled(t, e) && e.Record?
    ensures CountOk(Step(t, e), a)
  {
    LiveRecorded(t, e.sid, a);
  }

  lemma RemoveCounts(t: Table, e: Event, a: string)
    requires CountOk(t, a) && Tidy(t) && Enabled(t, e) && e.Remove?
    ensures CountOk(Step(t, e), a)
  {
    hide Live;
    if e.sid in t.bySid {
      LiveRemoved(t, e.sid, a);
    }
  }

  lemma StepAgrees(t: Table, e: Event)
    requires Agrees(t) && Enabled(t, e)
    ensures Agrees(Step(t, e))
  {
    forall a ensures CountOk(Step(t, e), a) {
      assert CountOk(t, a);
      match e
      case Register(_, _, _, _, _) => RegisterCounts(t, e, a);
      case Record(_) => RecordCounts(t, e, a);
      case Remove(_) => RemoveCounts(t, e, a);
    }
  }

  lemma {:induction false} RunAgrees(tables: seq<Table>, events: seq<Event>, i: nat)
    requires IsRun(tables, events) && i <= |events|
    ensures Agrees(tables[i])
  {
    if i > 0 {
      RunAgrees(tables, events, i - 1);
      StepAgrees(tables[i - 1], events[i - 1]);
    }
  }

  /**
   In every interleaving an address has as many times as live admitted connections, and is not kept
   once it has none.
   */
  lemma CountsAgree(tables: seq<Table>, events: seq<Event>, i: nat, address: string)
    requires IsRun(tables, events) && i <= |events|
    ensures |TimesOf(tables[i], address)| == |Live(tables[i], address)|
    ensures address in tables[i].times <==> Live(tables[i], address) != {}
  {
    RunAgrees(tables, events, i);
    assert CountOk(tables[i], address);
  }

  /**
   A connection counts until its sid is removed, whether or not the connection is still there. So one that
   registers only after its removal, which is the only one, counts for ever.
   */
  lemma {:induction false} CountsUntilRemoved(tables: seq<Table>, events: seq<Event>, i: nat, n: nat)
    requires IsRun(tables, events) && i < n <= |events| && events[i].Register?
    requires Admits(TimesOf(tables[i], events[i].address), events[i].connLimit, events[i].rateLimit, events[i].now)
    requires forall j :: i < j < n ==> events[j] != Remove(events[i].sid)
    ensures events[i].sid in Live(tables[n], events[i].address) && |TimesOf(tables[n], events[i].address)| >= 1
  {
    hide Step, TimesOf, Live, Admits, Admitted;
    var sid, address := events[i].sid, events[i].address;
    assert tables[n] == Step(tables[n - 1], events[n - 1]);
    if i + 1 < n {
      CountsUntilRemoved(tables, events, i, n - 1);
      RunAgrees(tables, events, n - 1);
      StaysLive(tables[n - 1], events[n - 1], sid, address);
    } else {
      StartsLive(tables[i], events[i]);
    }
    CountsAgree(tables, events, n, address);
  }

  lemma StartsLive(t: Table, e: Event)
    requires e.Register? && Enabled(t, e) && Admits(TimesOf(t, e.address), e.connLimit, e.rateLimit, e.now)
    ensures e.sid in Live(Step(t, e), e.address)
  {
    hide TimesOf, HistoryOf, Admits;
  }

  lemma StaysLive(t: Table, e: Event, sid: string, address: string)
    requires Tidy(t) && Enabled(t, e) && sid in Live(t, address) && e != Remove(sid)
    ensures sid in Live(Step(t, e), address)
  {
    hide TimesOf, HistoryOf, Released;
  }

  /** Under a limit that does not change, no address ever has more connections than that. */
  lemma {:induction false} LimitHolds(tables: seq<Table>, events: seq<Event>, i: nat, limit: nat, address: string)
    requires IsRun(tables, events) && i <= |events|
    requires forall j :: 0 <= j < |events| && events[j].Register? ==> events[j].connLimit == limit
    ensures |Live(tables[i], address)| <= limit
  {
    TimesWithinLimit(tables, events, i, limit, address);
    CountsAgree(tables, events, i, address);
  }

  lemma {:induction false} TimesWithinLimit(tables: seq<Table>, events: seq<Event>, i: nat, limit: nat, address: string)
    requires IsRun(tables, events) && i <= |events|
    requires forall j :: 0 <= j < |events| && events[j].Register? ==> events[j].connLimit == limit
    ensures |TimesOf(tables[i], address)| <= limit
  {
    if i > 0 { TimesWithinLimit(tables, events, i - 1, limit, address); }
  }

  // ---- The rate ----

  /** More than a second lies between any admission and the one `rate` places later. */
  predicate Spaced(times: seq<int>, rate: int)
    requires rate >= 1
  {
    forall i, j :: 0 <= i && j == i + rate < |times| ==> times[j] - times[i] > WINDOW
  }

  lemma SpacedAppend(times: seq<int>, now: int, rate: int)
    requires rate >= 1
    ensures Spaced(times + [now], rate) <==> Spaced(times, rate) && !OverRate(times, rate, now)
  {
    var all := times + [now];
    if Spaced(all, rate) {
      forall i, j | 0 <= i && j == i + rate < |times| ensures times[j] - times[i] > WINDOW {
        assert all[j] - all[i] > WINDOW;
      }
      if |times| >= rate { assert all[|times|] - all[|times| - rate] > WINDOW; }
    }
  }

  lemma SpacedTail(times: seq<int>, rate: int)
    requires rate >= 1 && times != [] && Spaced(times, rate)
    ensures Spaced(times[1..], rate)
  {
    forall i, j | 0 <= i && j == i + rate < |times[1..]| ensures times[1..][j] - times[1..][i] > WINDOW {
      assert times[j + 1] - times[i + 1] > WINDOW;
    }
  }

  /** The registration, if it is one, of a connection from this address that is let in. */
  predicate LetsIn(t: Table, e: Event, address: string)
    requires Enabled(t, e)
  {
    e.Register? && e.address == address && Admits(TimesOf(t, address), e.connLimit, e.rateLimit, e.now)
  }

  /** A step appends an admission to both lists, or drops the oldest of those kept, or leaves them alone. */
  lemma TimesStep(t: Table, e: Event, address: string)
    requires Enabled(t, e)
    ensures HistoryOf(Step(t, e), address) == HistoryOf(t, address) + if LetsIn(t, e, address) then [e.now] else []
    ensures var times, times' := TimesOf(t, address), TimesOf(Step(t, e), address);
            if LetsIn(t, e, address) then times' == times + [e.now]
            else times' == times || (times != [] && times' == times[1..])
  {}

  /**
   Under a rate limit that does not change, no closed window of a second holds more than that many of
   the admissions kept for an address.
   */
  lemma {:induction false} RateHolds(tables: seq<Table>, events: seq<Event>, i: nat, rate: int, address: string)
    requires IsRun(tables, events) && i <= |events| && rate >= 1
    requires forall j :: 0 <= j < |events| && events[j].Register? ==> events[j].rateLimit == rate
    ensures Spaced(TimesOf(tables[i], address), rate)
  {
    hide Step, TimesOf, Spaced;
    if i == 0 {
      NoTimes(address, rate);
    } else {
      RateHolds(tables, events, i - 1, rate, address);
      var t, e := tables[i - 1], events[i - 1];
      TimesStep(t, e, address);
      if LetsIn(t, e, address) {
        SpacedAppend(TimesOf(t, address), e.now, rate);
      } else if TimesOf(tables[i], address) != TimesOf(t, address) {
        SpacedTail(TimesOf(t, address), rate);
      }
    }
  }

  lemma NoTimes(address: string, rate: int)
    requires rate >= 1
    ensures TimesOf(EMPTY, address) == HistoryOf(EMPTY, address) == [] && Spaced([], rate)
  {}

  /** What is kept of an address is the tail of its history: a release drops the oldest time of those kept. */
  lemma {:induction false} KeptIsTail(tables: seq<Table>, events: seq<Event>, i: nat, address: string)
    requires IsRun(tables, events) && i <= |events|
    ensures var times, history := TimesOf(tables[i], address), HistoryOf(tables[i], address);
            |times| <= |history| && times == history[|history| - |times|..]
  {
    hide Step, TimesOf, HistoryOf;
    if i == 0 {
      NoTimes(address, 1);
    } else {
      KeptIsTail(tables, events, i - 1, address);
      TimesStep(tables[i - 1], events[i - 1], address);
    }
  }

  /**
   The rate is tested on the times kept. From any time on, the test says what it would say of the whole
   history exactly when as many times are kept as it looks back, or the history is shorter still, or the
   admission it should look at is more than a second old.
   */
  lemma VerdictIff(tables: seq<Table>, events: seq<Event>, i: nat, address: string, rate: int, clock: int)
    requires IsRun(tables, events) && i <= |events| && rate >= 1
    ensures var times, history := TimesOf(tables[i], address), HistoryOf(tables[i], address);
            (forall now :: now >= clock ==> (OverRate(times, rate, now) <==> OverRate(history, rate, now))) <==>
            |times| >= rate || |history| < rate || clock - history[|history| - rate] > WINDOW
  {
    hide TimesOf, HistoryOf;
    KeptIsTail(tables, events, i, address);
    TailVerdict(TimesOf(tables[i], address), HistoryOf(tables[i], address), rate, clock);
  }

  lemma TailVerdict(times: seq<int>, history: seq<int>, rate: int, clock: int)
    requires |times| <= |history| && times == history[|history| - |times|..] && rate >= 1
    ensures (forall now :: now >= clock ==> (OverRate(times, rate, now) <==> OverRate(history, rate, now))) <==>
            |times| >= rate || |history| < rate || clock - history[|history| - rate] > WINDOW
  {
    if |times| < rate && rate <= |history| && clock - history[|history| - rate] <= WINDOW {
      assert OverRate(history, rate, clock) && !OverRate(times, rate, clock);
    }
  }

  /** The admissions of an address whose times releases have dropped, oldest first. */
  function Forgotten(t: Table, address: string): seq<int>
    requires |TimesOf(t, address)| <= |HistoryOf(t, address)|
  {
    var history := HistoryOf(t, address);
    history[..|history| - |TimesOf(t, address)|]
  }

  /**
   An admission of which the rate test sees too little: fewer times are kept than it looks back, and the
   admissions of the last second that releases have dropped make up for those missing.
   */
  predicate SlipsIn(t: Table, e: Event, address: string, rate: int)
    requires Enabled(t, e) && rate >= 1
  {
    var kept := |TimesOf(t, address)|;
    && LetsIn(t, e, address)
    && kept < rate && kept <= |HistoryOf(t, address)|
    && OverRate(Forgotten(t, address), rate - kept, e.now)
  }

  /**
   Under a rate limit that does not change, the full history of an address keeps to it exactly when no
   admission slipped in behind releases within the last second.
   */
  lemma {:induction false} HistorySpacedIff(tables: seq<Table>, events: seq<Event>, i: nat, rate: int, address: string)
    requires IsRun(tables, events) && i <= |events| && rate >= 1
    requires forall j :: 0 <= j < |events| && events[j].Register? ==> events[j].rateLimit == rate
    ensures Spaced(HistoryOf(tables[i], address), rate) <==>
            forall j :: 0 <= j < i ==> !SlipsIn(tables[j], events[j], address, rate)
  {
    hide Step, TimesOf, HistoryOf, Spaced, OverRate, Forgotten;
    if i == 0 {
      NoTimes(address, rate);
    } else {
      HistorySpacedIff(tables, events, i - 1, rate, address);
      var t, e := tables[i - 1], events[i - 1];
      TimesStep(t, e, address);
      KeptIsTail(tables, events, i - 1, address);
      if LetsIn(t, e, address) {
        SpacedAppend(HistoryOf(t, address), e.now, rate);
        if |TimesOf(t, address)| >= rate {
          SameVerdict(TimesOf(t, address), HistoryOf(t, address), rate, e.now);
        } else {
          ReleasesDecide(t, address, rate, e.now);
        }
      } else {
        assert HistoryOf(tables[i], address) == HistoryOf(t, address);
      }
      assert i - 1 < i;
    }
  }

  lemma ReleasesDecide(t: Table, address: string, rate: int, now: int)
    requires |TimesOf(t, address)| <= |HistoryOf(t, address)| && |TimesOf(t, address)| < rate
    ensures OverRate(HistoryOf(t, address), rate, now) <==> OverRate(Forgotten(t, address), rate - |TimesOf(t, address)|, now)
  {
    hide TimesOf, HistoryOf;
  }

  lemma SameVerdict(times: seq<int>, history: seq<int>, rate: int, now: int)
    requires |times| <= |history| && times == history[|history| - |times|..] && rate >= 1 && |times| >= rate
    ensures OverRate(times, rate, now) <==> OverRate(history, rate, now)
  {}

  // ---- Admission, told from the events and who is connected ----

  /** The times at which connections of an address have been let in. */
  ghost function AdmissionTimes(tables: seq<Table>, events: seq<Event>, i: nat, address: string): seq<int>
    requires IsRun(tables, events) && i <= |events|
  {
    if i == 0 then []
    else
      var e := events[i - 1];
      AdmissionTimes(tables, events, i - 1, address) +
      if e.Register? && e.address == address && e.sid in Live(tables[i], address) then [e.now] else []
  }

  lemma LetsInLive(t: Table, e: Event)
    requires Enabled(t, e) && e.Register?
    ensures LetsIn(t, e, e.address) <==> e.sid in Live(Step(t, e), e.address)
    ensures e.sid !in Live(t, e.address)
  {
    hide HistoryOf;
    LiveNotYet(t, e.sid, e.address);
    if LetsIn(t, e, e.address) {
      LiveAdmitted(t, e.sid, e.address, e.now, e.address);
    } else {
      assert Live(Step(t, e), e.address) == Live(t, e.address);
    }
  }

  lemma LiveNotYet(t: Table, sid: string, a: string)
    requires sid !in t.bySid && sid !in t.admitting
    ensures sid !in Live(t, a)
  {}

  lemma {:induction false} HistoryIsAdmissions(tables: seq<Table>, events: seq<Event>, i: nat, address: string)
    requires IsRun(tables, events) && i <= |events|
    ensures HistoryOf(tables[i], address) == AdmissionTimes(tables, events, i, address)
  {
    hide Step, TimesOf, HistoryOf, Live, Admits;
    if i == 0 {
      NoTimes(address, 1);
    } else {
      HistoryIsAdmissions(tables, events, i - 1, address);
      TimesStep(tables[i - 1], events[i - 1], address);
      if events[i - 1].Register? { LetsInLive(tables[i - 1], events[i - 1]); }
    }
  }

  /**
   A connection is let in exactly when its address has fewer connections than its limit, and either fewer than
   the rate or the admission that many back lies more than a second ago.
   */
  lemma AdmittedIff(tables: seq<Table>, events: seq<Event>, i: nat)
    requires IsRun(tables, events) && i < |events| && events[i].Register?
    ensures var e := events[i];
            var n, times := |Live(tables[i], e.address)|, AdmissionTimes(tables, events, i, e.address);
            n <= |times| && e.rateLimit >= 1 &&
            (e.sid in Live(tables[i + 1], e.address) <==>
               n < e.connLimit && (n < e.rateLimit || e.now - times[|times| - e.rateLimit] > 1000))
  {
    hide Live, TimesOf, HistoryOf, IsRun;
    var e := events[i];
    RunStep(tables, events, i);
    LetsInLive(tables[i], e);
    HistoryIsAdmissions(tables, events, i, e.address);
    CountsAgree(tables, events, i, e.address);
    KeptIsTail(tables, events, i, e.address);
  }

  lemma RunStep(tables: seq<Table>, events: seq<Event>, i: nat)
    requires IsRun(tables, events) && i < |events|
    ensures |tables| == |events| + 1 && Enabled(tables[i], events[i]) && tables[i + 1] == Step(tables[i], events[i])
  {}

  /** The admission of a connection at event j, which has not been removed since. */
  ghost predicate AdmittedAt(tables: seq<Table>, events: seq<Event>, i: nat, j: nat, sid: string, address: string)
    requires IsRun(tables, events) && i <= |events|
  {
    && j < i && events[j].Register? && events[j].sid == sid && events[j].address == address
    && sid in Live(tables[j + 1], address)
    && forall k :: j < k < i ==> events[k] != Remove(sid)
  }

  /** Exactly the connections let in and not removed since count for an address. */
  lemma {:induction false} LiveIff(tables: seq<Table>, events: seq<Event>, i: nat, sid: string, address: string)
    requires IsRun(tables, events) && i <= |events|
    ensures sid in Live(tables[i], address) <==> exists j: nat :: AdmittedAt(tables, events, i, j, sid, address)
  {
    hide Step, Live, IsRun;
    if i == 0 {
      assert tables[0] == EMPTY by { RunStarts(tables, events); }
      LiveNotYet(EMPTY, sid, address);
    } else {
      RunStep(tables, events, i - 1);
      LiveIff(tables, events, i - 1, sid, address);
      RunAgrees(tables, events, i - 1);
      var t, e := tables[i - 1], events[i - 1];
      LiveStep(t, e, sid, address);
      if sid in Live(tables[i], address) {
        if e.Register? && e.sid == sid && e.address == address {
          assert AdmittedAt(tables, events, i, i - 1, sid, address);
        } else {
          var j: nat :| AdmittedAt(tables, events, i - 1, j, sid, address);
          assert AdmittedAt(tables, events, i, j, sid, address);
        }
      } else if j: nat :| AdmittedAt(tables, events, i, j, sid, address) {
        if j < i - 1 {
          assert events[i - 1] != Remove(sid);
          assert AdmittedAt(tables, events, i - 1, j, sid, address);
          if e.Register? && e.sid == sid { LiveNotYet(t, sid, address); }
        }
      }
    }
  }

  lemma RunStarts(tables: seq<Table>, events: seq<Event>)
    requires IsRun(tables, events)
    ensures |tables| == |events| + 1 && tables[0] == EMPTY
  {}

  /** A connection begins to count by its own registration, and stops by its removal. */
  lemma LiveStep(t: Table, e: Event, sid: string, a: string)
    requires Tidy(t) && Enabled(t, e)
    ensures e == Remove(sid) ==> sid !in Live(Step(t, e), a)
    ensures !(e.Register? && e.sid == sid && e.address == a) && e != Remove(sid) ==>
              (sid in Live(Step(t, e), a) <==> sid in Live(t, a))
  {
    hide TimesOf, HistoryOf, Released, Admits;
  }

  // ---- An admission that slips in ----

  /** Two connections at 5000 and 5001 ms, the first of which goes, and a third at 5002. */
  function BriskEvents(a: string, limit: int): seq<Event> {
    [ Register("1", a, limit, 2, 5000), Record("1"), Register("2", a, limit, 2, 5001), Record("2"), Remove("1"),
      Register("3", a, limit, 2, 5002) ]
  }

  function BriskTables(a: string): seq<Table> {
    [ EMPTY,
      Table(map[a := [5000]], map[], map["1" := a], map[a := [5000]]),
      Table(map[a := [5000]], map["1" := a], map[], map[a := [5000]]),
      Table(map[a := [5000, 5001]], map["1" := a], map["2" := a], map[a := [5000, 5001]]),
      Table(map[a := [5000, 5001]], map["1" := a, "2" := a], map[], map[a := [5000, 5001]]),
      Table(map[a := [5001]], map["2" := a], map[], map[a := [5000, 5001]]),
      Table(map[a := [5001, 5002]], map["2" := a], map["3" := a], map[a := [5000, 5001, 5002]]) ]
  }

  /** Under a rate of two a second, one address is let in three times within three milliseconds. */
  lemma ThirdSlipsIn(a: string, limit: int)
    requires a != "" && limit >= 2
    ensures IsRun(BriskTables(a), BriskEvents(a, limit))
    ensures HistoryOf(BriskTables(a)[6], a) == [5000, 5001, 5002] && !Spaced(HistoryOf(BriskTables(a)[6], a), 2)
  {
    var tables, events := BriskTables(a), BriskEvents(a, limit);
    BriskArrivals(a, limit);
    BriskReturn(a, limit);
    forall i | 0 <= i < |events| ensures Enabled(tables[i], events[i]) && tables[i + 1] == Step(tables[i], events[i]) {
      assert i == 0 || i == 1 || i == 2 || i == 3 || i == 4 || i == 5;
    }
    var h := HistoryOf(tables[6], a);
    assert h[2] - h[0] <= WINDOW;
  }

  lemma BriskArrivals(a: string, limit: int)
    requires a != "" && limit >= 2
    ensures forall i :: 0 <= i < 4 ==>
              Enabled(BriskTables(a)[i], BriskEvents(a, limit)[i]) &&
              BriskTables(a)[i + 1] == Step(BriskTables(a)[i], BriskEvents(a, limit)[i])
  {
    var tables, events := BriskTables(a), BriskEvents(a, limit);
    assert [] + [5000] == [5000] && [5000] + [5001] == [5000, 5001];
    assert tables[1] == Step(tables[0], events[0]);
    assert tables[2] == Step(tables[1], events[1]);
    assert tables[3] == Step(tables[2], events[2]);
    assert tables[4] == Step(tables[3], events[3]);
  }

  lemma BriskReturn(a: string, limit: int)
    requires a != "" && limit >= 2
    ensures forall i :: 4 <= i < 6 ==>
              Enabled(BriskTables(a)[i], BriskEvents(a, limit)[i]) &&
              BriskTables(a)[i + 1] == Step(BriskTables(a)[i], BriskEvents(a, limit)[i])
  {
    var tables, events := BriskTables(a), BriskEvents(a, limit);
    assert [5000, 5001][1..] == [5001];
    assert [5001] + [5002] == [5001, 5002] && [5000, 5001] + [5002] == [5000, 5001, 5002];
    assert tables[5] == Step(tables[4], events[4]);
    assert tables[6] == Step(tables[5], events[5]);
  }

  // ---- The server itself ----

  lemma LiveAfter(t: Table, sid: string, address: string, connLimit: int, rateLimit: int, now: int)
    requires Agrees(t) && Enabled(t, Register(sid, address, connLimit, rateLimit, now))
    ensures var t' := Step(t, Register(sid, address, connLimit, rateLimit, now));
            if Admits(TimesOf(t, address), connLimit, rateLimit, now) then
              sid in t'.admitting && Live(Step(t', Record(sid)), address) == Live(t, address) + {sid}
            else Live(t', address) == Live(t, address)
  {
    hide Live, HistoryOf;
    var e := Register(sid, address, connLimit, rateLimit, now);
    StepAgrees(t, e);
    if Admits(TimesOf(t, address), connLimit, rateLimit, now) {
      LiveAdmitted(t, sid, address, now, address);
      LiveRecorded(Step(t, e), sid, address);
    } else {
      LiveRejected(t, e, address);
    }
  }

  lemma LiveRejected(t: Table, e: Event, a: string)
    requires Enabled(t, e) && e.Register? && !Admits(TimesOf(t, e.address), e.connLimit, e.rateLimit, e.now)
    ensures Live(Step(t, e), a) == Live(t, a)
  {}

  /** A registration by the tests the server makes. */
  lemma Registers(t: Table, sid: string, address: string, connLimit: int, rateLimit: int, now: int)
    requires Enabled(t, Register(sid, address, connLimit, rateLimit, now))
    ensures var v, t' := TimesOf(t, address), Step(t, Register(sid, address, connLimit, rateLimit, now));
            if |v| >= connLimit || (|v| >= rateLimit && now - v[|v| - rateLimit] <= WINDOW) then
              !Admits(v, connLimit, rateLimit, now) && t' == if v == [] then t.(times := t.times - {address}) else t
            else Admits(v, connLimit, rateLimit, now) && t' == Admitted(t, sid, address, now)
  {}

  /** Looking an address up enters it; taking it out again undoes that. */
  lemma Looked(times: map<string, seq<int>>, address: string, v: seq<int>, w: seq<int>)
    ensures times[address := v] - {address} == times - {address}
    ensures times[address := v][address := w] == times[address := w]
    ensures address in times && times[address] == v ==> times[address := v] == times
  {}

  class SocketIoServer {
    var ipConnections: map<string, seq<int>>
    var ipBySid: map<string, string>
    ghost var admitting: map<string, string>
    ghost var history: map<string, seq<int>>

    constructor ()
      ensures Now() == EMPTY
    {
      ipConnections, ipBySid, admitting, history := map[], map[], map[], map[];
    }

    ghost function Now(): Table
      reads this
    {
      Table(ipConnections, ipBySid, admitting, history)
    }

    /** The first write of an admission, or the rejection. */
    method RegisterIpConnection(ghost sid: string, address: string, connLimit: int, rateLimit: int, now: int)
      returns (admitted: bool)
      requires Enabled(Now(), Register(sid, address, connLimit, rateLimit, now))
      modifies this
      ensures Now() == Step(old(Now()), Register(sid, address, connLimit, rateLimit, now))
      ensures admitted == Admits(TimesOf(old(Now()), address), connLimit, rateLimit, now)
      ensures admitted ==> admitting == old(admitting)[sid := address]
    {
      hide HistoryOf, Step, OverRate;
      Registers(Now(), sid, address, connLimit, rateLimit, now);
      var v := if address in ipConnections then ipConnections[address] else [];
      Looked(ipConnections, address, v, v + [now]);
      ipConnections := ipConnections[address := v];
      var overRate := |v| >= rateLimit && now - v[|v| - rateLimit] <= WINDOW;
      if |v| >= connLimit || overRate {
        if v == [] { ipConnections := ipConnections - {address}; }
        return false;
      }
      ipConnections := ipConnections[address := v + [now]];
      admitting := admitting[sid := address];
      history := history[address := HistoryOf(old(Now()), address) + [now]];
      admitted := true;
    }

    /** The head of `on_connection`: whether the connection goes on to the game. */
    method OnConnection(sid: string, address: string, connLimit: int, rateLimit: int, now: int) returns (accepted: bool)
      requires Agrees(Now()) && Enabled(Now(), Register(sid, address, connLimit, rateLimit, now))
      modifies this
      ensures Agrees(Now())
      ensures accepted == Admits(TimesOf(old(Now()), address), connLimit, rateLimit, now)
      ensures Live(Now(), address) == if accepted then Live(old(Now()), address) + {sid} else Live(old(Now()), address)
    {
      hide Live, HistoryOf, Agrees, Admits;
      ghost var t := Now();
      StepAgrees(t, Register(sid, address, connLimit, rateLimit, now));
      LiveAfter(t, sid, address, connLimit, rateLimit, now);
      accepted := RegisterIpConnection(sid, address, connLimit, rateLimit, now);
      if !accepted { return; }
      StepAgrees(Now(), Record(sid));
      ipBySid := ipBySid[sid := address];
      admitting := admitting - {sid};
    }

    method ReleaseIpConnection(address: string)
      modifies this`ipConnections
      ensures ipConnections == Released(old(ipConnections), address)
    {
      if address !in ipConnections { return; }
      if |ipConnections[address]| <= 1 {
        ipConnections := ipConnections - {address};
      } else {
        ipConnections := ipConnections[address := ipConnections[address][1..]];
      }
    }

    /** `remove`, as far as the counts go. */
    method RemoveConnection(sid: string)
      requires Agrees(Now()) && Enabled(Now(), Remove(sid))
      modifies this
      ensures Agrees(Now()) && Now() == Step(old(Now()), Remove(sid))
    {
      StepAgrees(Now(), Remove(sid));
      var address := "";
      if sid in ipBySid {
        address := ipBySid[sid];
        ipBySid := ipBySid - {sid};
      }
      if address != "" { ReleaseIpConnection(address); }
    }
  }
}
