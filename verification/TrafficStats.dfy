/** Per-host and per-resource cache-outcome counters, with a bounded number of hosts and resources. */
module TrafficStats {

  const OUTCOMES := 6
  const MAX_HOSTS := 512
  const OTHER := "(other)"

  /** Requests and bytes of one outcome. */
  datatype Cell = Cell(count: nat, bytes: nat)

  type Tally = t: seq<Cell> | |t| == OUTCOMES witness [Cell(0, 0), Cell(0, 0), Cell(0, 0), Cell(0, 0), Cell(0, 0), Cell(0, 0)]

  type Outcome = o: int | 0 <= o < OUTCOMES

  const NOTHING: Tally := [Cell(0, 0), Cell(0, 0), Cell(0, 0), Cell(0, 0), Cell(0, 0), Cell(0, 0)]

  datatype Resource = Resource(url: string, tally: Tally, lastStatus: int, lastMs: int)

  datatype Host = Host(tally: Tally, resources: map<string, Resource>)

  /** An accepted request, as far as it is counted. */
  datatype Request = Request(outcome: Outcome, bytes: nat)

  /** `classify_outcome`. */
  function Classify(status: string): Outcome {
    if status == "HIT" || status == "STALE-HEAD" then 0
    else if status == "REVALIDATED" then 1
    else if status == "MISS" then 2
    else if status == "MISS-UNCACHED" then 3
    else if status == "STALE" then 4
    else 5
  }

  /** The statuses of each outcome: hit, revalidated, miss, uncached, stale, and bypass for any other. */
  lemma OutcomesOf(status: string)
    ensures Classify(status) == 0 <==> status in {"HIT", "STALE-HEAD"}
    ensures Classify(status) == 1 <==> status == "REVALIDATED"
    ensures Classify(status) == 2 <==> status == "MISS"
    ensures Classify(status) == 3 <==> status == "MISS-UNCACHED"
    ensures Classify(status) == 4 <==> status == "STALE"
    ensures Classify(status) == 5 <==> status !in {"HIT", "STALE-HEAD", "REVALIDATED", "MISS", "MISS-UNCACHED", "STALE"}
  {
    assert OUTCOMES == 6;
  }

  // ---- Sums ----

  /** One number of a tally: the requests or the bytes of an outcome. */
  datatype Column = Column(outcome: Outcome, ofBytes: bool)

  function At(t: Tally, c: Column): nat {
    if c.ofBytes then t[c.outcome].bytes else t[c.outcome].count
  }

  /** What a request adds to a column. */
  function Share(r: Request, c: Column): nat {
    if r.outcome != c.outcome then 0 else if c.ofBytes then r.bytes else 1
  }

  function Bumped(t: Tally, r: Request): (t': Tally)
    ensures forall c: Column {:trigger At(t', c)} :: At(t', c) == At(t, c) + Share(r, c)
  {
    t[r.outcome := Cell(t[r.outcome].count + 1, t[r.outcome].bytes + r.bytes)]
  }

  ghost function Sum(rows: map<string, Tally>, c: Column): nat
    decreases |rows|
  {
    if rows == map[] then 0
    else
      var k :| k in rows;
      At(rows[k], c) + Sum(rows - {k}, c)
  }

  lemma {:induction false} SumWithout(rows: map<string, Tally>, k: string, c: Column)
    requires k in rows
    ensures Sum(rows, c) == At(rows[k], c) + Sum(rows - {k}, c)
    decreases |rows|
  {
    var p :| p in rows && Sum(rows, c) == At(rows[p], c) + Sum(rows - {p}, c);
    if p != k {
      SumWithout(rows - {p}, k, c);
      SumWithout(rows - {k}, p, c);
      assert rows - {p} - {k} == rows - {k} - {p};
    }
  }

  /** Counting a request in one row, new or old, adds its share to the sum. */
  lemma SumBumped(rows: map<string, Tally>, k: string, r: Request, c: Column)
    ensures var t := if k in rows then rows[k] else NOTHING;
            Sum(rows[k := Bumped(t, r)], c) == Sum(rows, c) + Share(r, c)
  {
    var t := if k in rows then rows[k] else NOTHING;
    var rows' := rows[k := Bumped(t, r)];
    SumWithout(rows', k, c);
    assert rows' - {k} == rows - {k};
    if k in rows {
      SumWithout(rows, k, c);
    } else {
      assert rows - {k} == rows;
    }
    assert At(Bumped(t, r), c) == At(t, c) + Share(r, c);
  }

  /** The share of a whole log of requests. */
  function Logged(log: seq<Request>, c: Column): nat {
    if log == [] then 0 else Logged(log[..|log| - 1], c) + Share(log[|log| - 1], c)
  }

  // ---- Recording ----

  function HostRows(hosts: map<string, Host>): map<string, Tally> {
    map h | h in hosts :: hosts[h].tally
  }

  function ResourceRows(resources: map<string, Resource>): map<string, Tally> {
    map u | u in resources :: resources[u].tally
  }

  /** The row a key is counted in: its own while there is room, else the shared one. */
  function RowKey(known: set<string>, key: string, max: nat): string {
    if key !in known && |known| >= max then OTHER else key
  }

  function RecordResource(resources: map<string, Resource>, url: string, r: Request, status: int, now: int, max: nat)
    : map<string, Resource>
  {
    var u := RowKey(resources.Keys, url, max);
    var was := if u in resources then resources[u] else Resource(u, NOTHING, 0, 0);
    resources[u := Resource(was.url, Bumped(was.tally, r), if status > 0 then status else was.lastStatus, now)]
  }

  function RecordHost(hosts: map<string, Host>, host: string, url: string, r: Request, status: int, now: int, max: nat)
    : map<string, Host>
  {
    var h := RowKey(hosts.Keys, host, MAX_HOSTS);
    var was := if h in hosts then hosts[h] else Host(NOTHING, map[]);
    hosts[h := Host(Bumped(was.tally, r), RecordResource(was.resources, url, r, status, now, max))]
  }

  /** At most `max` rows of their own, and the shared one. */
  predicate Bounded(keys: set<string>, max: nat) {
    |keys| <= max || (|keys| == max + 1 && OTHER in keys)
  }

  /** A host's tally is the sum of its resources', whose number is bounded. */
  ghost predicate HostOk(h: Host, max: nat) {
    && Bounded(h.resources.Keys, max)
    && forall c: Column {:trigger At(h.tally, c)} :: At(h.tally, c) == Sum(ResourceRows(h.resources), c)
  }

  /** The hosts' tallies add up to every request recorded since the last reset. */
  ghost predicate Agrees(hosts: map<string, Host>, log: seq<Request>, max: nat) {
    && Bounded(hosts.Keys, MAX_HOSTS)
    && (forall h :: h in hosts ==> HostOk(hosts[h], max))
    && forall c: Column {:trigger Logged(log, c)} :: Sum(HostRows(hosts), c) == Logged(log, c)
  }

  lemma ResourceKeepsHost(h: Host, url: string, r: Request, status: int, now: int, max: nat)
    requires HostOk(h, max)
    ensures HostOk(Host(Bumped(h.tally, r), RecordResource(h.resources, url, r, status, now, max)), max)
  {
    var u := RowKey(h.resources.Keys, url, max);
    var resources' := RecordResource(h.resources, url, r, status, now, max);
    assert resources'.Keys == h.resources.Keys + {u};
    var rows := ResourceRows(h.resources);
    var t := if u in rows then rows[u] else NOTHING;
    assert ResourceRows(resources') == rows[u := Bumped(t, r)];
    var tally' := Bumped(h.tally, r);
    forall c: Column ensures At(tally', c) == Sum(ResourceRows(resources'), c) {
      assert At(h.tally, c) == Sum(rows, c);
      SumBumped(rows, u, r, c);
    }
  }

  lemma NothingSums(c: Column)
    ensures Sum(map[], c) == 0 && At(NOTHING, c) == 0
  {}

  /** One host's row replaced by one that counts the request. */
  lemma PutHost(hosts: map<string, Host>, log: seq<Request>, h: string, now: Host, r: Request, max: nat)
    requires Agrees(hosts, log, max) && HostOk(now, max) && Bounded(hosts.Keys + {h}, MAX_HOSTS)
    requires now.tally == Bumped(if h in hosts then hosts[h].tally else NOTHING, r)
    ensures Agrees(hosts[h := now], log + [r], max)
  {
    assert hosts[h := now].Keys == hosts.Keys + {h};
    forall c: Column ensures Sum(HostRows(hosts[h := now]), c) == Logged(log + [r], c) {
      assert Sum(HostRows(hosts), c) == Logged(log, c);
      HostsSum(hosts, log, h, now, r, c);
    }
  }

  lemma HostsSum(hosts: map<string, Host>, log: seq<Request>, h: string, now: Host, r: Request, c: Column)
    requires Sum(HostRows(hosts), c) == Logged(log, c)
    requires now.tally == Bumped(if h in hosts then hosts[h].tally else NOTHING, r)
    ensures Sum(HostRows(hosts[h := now]), c) == Logged(log + [r], c)
  {
    assert HostRows(hosts[h := now]) == HostRows(hosts)[h := now.tally];
    SumBumped(HostRows(hosts), h, r, c);
    assert (log + [r])[..|log|] == log;
  }

  /** Recording keeps every count in agreement, folding or not. */
  lemma RecordAgrees(hosts: map<string, Host>, log: seq<Request>, host: string, url: string, r: Request, status: int, now: int, max: nat)
    requires Agrees(hosts, log, max)
    ensures Agrees(RecordHost(hosts, host, url, r, status, now, max), log + [r], max)
  {
    var h := RowKey(hosts.Keys, host, MAX_HOSTS);
    var was := if h in hosts then hosts[h] else Host(NOTHING, map[]);
    ResourceKeepsHost(was, url, r, status, now, max);
    PutHost(hosts, log, h, Host(Bumped(was.tally, r), RecordResource(was.resources, url, r, status, now, max)), r, max);
  }

  // ---- Runs ----

  datatype Event = Serve(host: string, url: string, request: Request, status: int, now: int) | ResetAll

  /** The rows and the requests accepted since the last reset. */
  datatype State = State(hosts: map<string, Host>, log: seq<Request>)

  function Step(s: State, e: Event, max: nat): State {
    match e
    case Serve(host, url, request, status, now) =>
      if host == "" then s
      else State(RecordHost(s.hosts, host, url, request, status, now, max), s.log + [request])
    case ResetAll => State(map[], [])
  }

  predicate IsRun(states: seq<State>, events: seq<Event>, max: nat) {
    && |states| == |events| + 1 && states[0] == State(map[], [])
    && forall i :: 0 <= i < |events| ==> states[i + 1] == Step(states[i], events[i], max)
  }

  lemma {:induction false} RunAgrees(states: seq<State>, events: seq<Event>, max: nat, i: nat)
    requires IsRun(states, events, max) && i <= |events|
    ensures Agrees(states[i].hosts, states[i].log, max)
  {
    if i == 0 {
    } else {
      RunAgrees(states, events, max, i - 1);
      var s, e := states[i - 1], events[i - 1];
      match e
      case Serve(host, url, request, status, now) =>
        RecordAgrees(s.hosts, s.log, host, url, request, status, now, max);
      case ResetAll =>
    }
  }

  /**
   However many hosts and resources are served, few are kept, every host's numbers are the sums over
   its resources, and the sums over the hosts are those of all requests since the last reset.
   */
  lemma CountersAgree(states: seq<State>, events: seq<Event>, max: nat, i: nat, h: string, c: Column)
    requires IsRun(states, events, max) && i <= |events|
    ensures var s := states[i];
            && |s.hosts.Keys| <= MAX_HOSTS + 1
            && Sum(HostRows(s.hosts), c) == Logged(s.log, c)
            && (h in s.hosts ==>
                 && |s.hosts[h].resources.Keys| <= max + 1
                 && At(s.hosts[h].tally, c) == Sum(ResourceRows(s.hosts[h].resources), c))
  {
    RunAgrees(states, events, max, i);
    var s := states[i];
    assert Sum(HostRows(s.hosts), c) == Logged(s.log, c);
    if h in s.hosts {
      assert HostOk(s.hosts[h], max);
      assert At(s.hosts[h].tally, c) == Sum(ResourceRows(s.hosts[h].resources), c);
    }
  }

  // ---- The rows, told from the requests alone ----

  /** A request, and the row it would have if there were room for all. */
  datatype Item = Item(key: string, request: Request)

  /** The rows some items leave. */
  function Tallied(items: seq<Item>, max: nat): map<string, Tally> {
    if items == [] then map[]
    else
      var rows, item := Tallied(items[..|items| - 1], max), items[|items| - 1];
      var k := RowKey(rows.Keys, item.key, max);
      rows[k := Bumped(if k in rows then rows[k] else NOTHING, item.request)]
  }

  /** With these rows, an item is counted in this one: its own, or the shared one if it has none. */
  predicate GoesTo(key: string, keys: set<string>, k: string) {
    key == k || (k == "(other)" && key !in keys)
  }

  /** The requests, or the bytes, of one outcome among the items that go to row k. */
  function CountedIn(items: seq<Item>, keys: set<string>, k: string, o: Outcome, ofBytes: bool): nat {
    if items == [] then 0
    else
      var item := items[|items| - 1];
      CountedIn(items[..|items| - 1], keys, k, o, ofBytes) +
      if GoesTo(item.key, keys, k) && item.request.outcome == o then (if ofBytes then item.request.bytes else 1) else 0
  }

  /** Whoever has no row of its own came when there were `max` rows, and there is a shared one. */
  ghost predicate Placed(used: set<string>, keys: set<string>, max: nat) {
    forall k :: k in used ==> k in keys || (|keys| >= max && "(other)" in keys)
  }

  function KeysUsed(items: seq<Item>): set<string> {
    set item | item in items :: item.key
  }

  lemma {:induction false} TalliedPlaced(items: seq<Item>, max: nat)
    ensures Placed(KeysUsed(items), Tallied(items, max).Keys, max)
    ensures Tallied(items, max).Keys <= KeysUsed(items) + {"(other)"} && Bounded(Tallied(items, max).Keys, max)
  {
    hide Tallied, RowKey, Placed, Bounded;
    if items == [] {
      TalliedNone(max);
      NonePlaced(max);
      assert KeysUsed([]) == {} && Tallied([], max).Keys == {};
    } else {
      TalliedPlaced(items[..|items| - 1], max);
      TalliedStep(items, max);
      UsedSplit(items);
      RowPlaced(KeysUsed(items[..|items| - 1]), Tallied(items[..|items| - 1], max).Keys, items[|items| - 1].key, max);
    }
  }

  lemma NonePlaced(max: nat)
    ensures Placed({}, {}, max) && Bounded({}, max)
  {}

  lemma RowPlaced(used: set<string>, keys: set<string>, key: string, max: nat)
    requires Placed(used, keys, max) && Bounded(keys, max)
    ensures var k := RowKey(keys, key, max);
            Placed(used + {key}, keys + {k}, max) && Bounded(keys + {k}, max) && k in {key, "(other)"}
  {
    var k := RowKey(keys, key, max);
    if k in keys { assert keys + {k} == keys; }
  }

  lemma TalliedStep(items: seq<Item>, max: nat)
    requires items != []
    ensures var rows, item := Tallied(items[..|items| - 1], max), items[|items| - 1];
            var k := RowKey(rows.Keys, item.key, max);
            && Tallied(items, max) == rows[k := Bumped(if k in rows then rows[k] else NOTHING, item.request)]
            && Tallied(items, max).Keys == rows.Keys + {k}
  {
    hide Bumped, RowKey;
  }

  /** A new row changes nothing for what came before it, and nothing before it went there. */
  lemma RowAdded(used: set<string>, keys: set<string>, key: string, max: nat)
    requires Placed(used, keys, max)
    ensures var k := RowKey(keys, key, max);
            && (forall u :: u in used ==> (u in keys <==> u in keys + {k}))
            && (k !in keys ==> forall u :: u in used ==> !GoesTo(u, keys + {k}, k))
            && GoesTo(key, keys + {k}, k) && forall r :: r in keys + {k} && GoesTo(key, keys + {k}, r) ==> r == k
  {}

  /**
   Every row has exactly the requests and bytes that go to it: a key's own, and for the shared row also those
   of the keys without one.
   */
  lemma {:induction false} RowsExact(items: seq<Item>, max: nat, k: string, o: Outcome)
    requires k in Tallied(items, max)
    ensures var t, keys := Tallied(items, max)[k], Tallied(items, max).Keys;
            t[o].count == CountedIn(items, keys, k, o, false) && t[o].bytes == CountedIn(items, keys, k, o, true)
  {
    hide RowKey, GoesTo, Bumped, Tallied;
    if items == [] {
      TalliedNone(max);
    } else {
      var n := |items| - 1;
      var past, item := items[..n], items[n];
      var rows := Tallied(past, max);
      TalliedStep(items, max);
      TalliedPlaced(past, max);
      RowAdded(KeysUsed(past), rows.Keys, item.key, max);
      var r := RowKey(rows.Keys, item.key, max);
      var keys' := rows.Keys + {r};
      BumpedAt(if r in rows then rows[r] else NOTHING, item.request, o);
      if k in rows {
        RowsExact(past, max, k, o);
        CountedSame(past, rows.Keys, keys', k, o, false);
        CountedSame(past, rows.Keys, keys', k, o, true);
      } else {
        CountedNone(past, keys', k, o, false);
        CountedNone(past, keys', k, o, true);
      }
    }
  }

  lemma TalliedNone(max: nat)
    ensures Tallied([], max) == map[]
  {}

  lemma BumpedAt(t: Tally, r: Request, o: Outcome)
    ensures Bumped(t, r)[o] == if o == r.outcome then Cell(t[o].count + 1, t[o].bytes + r.bytes) else t[o]
    ensures NOTHING[o] == Cell(0, 0)
  {}

  lemma {:induction false} CountedSame(items: seq<Item>, keys: set<string>, keys': set<string>, k: string, o: Outcome, ofBytes: bool)
    requires forall u :: u in KeysUsed(items) ==> (u in keys <==> u in keys')
    ensures CountedIn(items, keys, k, o, ofBytes) == CountedIn(items, keys', k, o, ofBytes)
  {
    if items != [] {
      var n := |items| - 1;
      UsedSplit(items);
      CountedSame(items[..n], keys, keys', k, o, ofBytes);
    }
  }

  lemma {:induction false} CountedNone(items: seq<Item>, keys: set<string>, k: string, o: Outcome, ofBytes: bool)
    requires forall u :: u in KeysUsed(items) ==> !GoesTo(u, keys, k)
    ensures CountedIn(items, keys, k, o, ofBytes) == 0
  {
    if items != [] {
      UsedSplit(items);
      CountedNone(items[..|items| - 1], keys, k, o, ofBytes);
    }
  }

  lemma UsedSplit(items: seq<Item>)
    requires items != []
    ensures KeysUsed(items) == KeysUsed(items[..|items| - 1]) + {items[|items| - 1].key}
  {
    assert items == items[..|items| - 1] + [items[|items| - 1]];
  }

  /** The requests with a host since the last reset, by host. */
  function HostItems(events: seq<Event>): seq<Item> {
    if events == [] then []
    else
      var past := HostItems(events[..|events| - 1]);
      match events[|events| - 1]
      case Serve(host, _, request, _, _) => if host != "" then past + [Item(host, request)] else past
      case ResetAll => []
  }

  /** Those that go to one host's row, by resource. */
  function ResourceItems(events: seq<Event>, hosts: set<string>, h: string): seq<Item> {
    if events == [] then []
    else
      var past := ResourceItems(events[..|events| - 1], hosts, h);
      match events[|events| - 1]
      case Serve(host, url, request, _, _) =>
        if host != "" && GoesTo(host, hosts, h) then past + [Item(url, request)] else past
      case ResetAll => []
  }

  /** In every run the hosts' rows are those of the requests since the last reset, of which 512 get their own. */
  lemma {:induction false} HostsTallied(states: seq<State>, events: seq<Event>, max: nat, i: nat)
    requires IsRun(states, events, max) && i <= |events|
    ensures HostRows(states[i].hosts) == Tallied(HostItems(events[..i]), 512)
  {
    hide RecordResource, RowKey, Bumped;
    if i > 0 {
      HostsTallied(states, events, max, i - 1);
      var s, e, past := states[i - 1], events[i - 1], HostItems(events[..i - 1]);
      assert events[..i][..i - 1] == events[..i - 1];
      if e.Serve? && e.host != "" {
        var items := past + [Item(e.host, e.request)];
        assert items[..|items| - 1] == past && HostItems(events[..i]) == items;
        assert HostRows(s.hosts).Keys == s.hosts.Keys;
      }
    }
  }

  /** And so are each host's rows of resources, among the requests that go to the host. */
  lemma {:induction false} ResourcesTallied(states: seq<State>, events: seq<Event>, max: nat, i: nat, h: string)
    requires IsRun(states, events, max) && i <= |events| && h in states[i].hosts
    ensures ResourceRows(states[i].hosts[h].resources) ==
            Tallied(ResourceItems(events[..i], states[i].hosts.Keys, h), max)
  {
    hide RecordHost, RowKey, GoesTo, Tallied;
    var s, e := states[i - 1], events[i - 1];
    assert events[..i][..i - 1] == events[..i - 1];
    if e.Serve? && e.host != "" {
      HostsTallied(states, events, max, i - 1);
      TalliedPlaced(HostItems(events[..i - 1]), 512);
      assert HostRows(s.hosts).Keys == s.hosts.Keys;
      var used := KeysUsed(HostItems(events[..i - 1]));
      RowAdded(used, s.hosts.Keys, e.host, 512);
      HostRecorded(s.hosts, e, max, h);
      if h in s.hosts {
        ResourcesTallied(states, events, max, i - 1, h);
        ResourcesSame(events[..i - 1], s.hosts.Keys, states[i].hosts.Keys, h);
      } else {
        ResourcesNone(events[..i - 1], states[i].hosts.Keys, h);
        TalliedNone(max);
      }
      TalliedOne(ResourceItems(events[..i - 1], states[i].hosts.Keys, h), Item(e.url, e.request), max);
    } else if e.Serve? {
      ResourcesTallied(states, events, max, i - 1, h);
    }
  }

  lemma TalliedOne(items: seq<Item>, item: Item, max: nat)
    ensures var rows := Tallied(items, max);
            var k := RowKey(rows.Keys, item.key, max);
            Tallied(items + [item], max) == rows[k := Bumped(if k in rows then rows[k] else NOTHING, item.request)]
  {
    hide Bumped, RowKey;
    assert (items + [item])[..|items|] == items;
  }

  /** What recording a request does to a host's rows of resources. */
  lemma HostRecorded(hosts: map<string, Host>, e: Event, max: nat, h: string)
    requires e.Serve?
    ensures var row, hosts' := RowKey(hosts.Keys, e.host, 512), RecordHost(hosts, e.host, e.url, e.request, e.status, e.now, max);
            && hosts'.Keys == hosts.Keys + {row}
            && (h in hosts' && h != row ==> hosts'[h] == hosts[h])
            && (h == row ==>
                  var was := if h in hosts then ResourceRows(hosts[h].resources) else map[];
                  var k := RowKey(was.Keys, e.url, max);
                  ResourceRows(hosts'[h].resources) == was[k := Bumped(if k in was then was[k] else NOTHING, e.request)])
  {
    hide Bumped, RowKey;
    var was := if h in hosts then hosts[h].resources else map[];
    assert ResourceRows(was).Keys == was.Keys;
  }

  lemma {:induction false} ResourcesSame(events: seq<Event>, hosts: set<string>, hosts': set<string>, h: string)
    requires forall u :: u in KeysUsed(HostItems(events)) ==> (u in hosts <==> u in hosts')
    ensures ResourceItems(events, hosts, h) == ResourceItems(events, hosts', h)
  {
    if events != [] && events[|events| - 1].Serve? {
      HostUsed(events);
      ResourcesSame(events[..|events| - 1], hosts, hosts', h);
    }
  }

  lemma {:induction false} ResourcesNone(events: seq<Event>, hosts: set<string>, h: string)
    requires forall u :: u in KeysUsed(HostItems(events)) ==> !GoesTo(u, hosts, h)
    ensures ResourceItems(events, hosts, h) == []
  {
    if events != [] && events[|events| - 1].Serve? {
      HostUsed(events);
      ResourcesNone(events[..|events| - 1], hosts, h);
    }
  }

  lemma HostUsed(events: seq<Event>)
    requires events != [] && events[|events| - 1].Serve?
    ensures var e, used := events[|events| - 1], KeysUsed(HostItems(events[..|events| - 1]));
            KeysUsed(HostItems(events)) == if e.host != "" then used + {e.host} else used
  {
    var past := HostItems(events[..|events| - 1]);
    var item := Item(events[|events| - 1].host, events[|events| - 1].request);
    assert forall x :: x in past + [item] <==> x in past || x == item;
    assert KeysUsed(past + [item]) == KeysUsed(past) + {item.key};
  }

  /** A row keeps the URL it was made for; its last status is the last positive one, and its last time the last. */
  lemma RecordsLast(resources: map<string, Resource>, url: string, r: Request, status: int, now: int, max: nat)
    ensures var k, resources' := RowKey(resources.Keys, url, max), RecordResource(resources, url, r, status, now, max);
            && resources'.Keys == resources.Keys + {k} && resources'[k].lastMs == now
            && resources'[k].url == (if k in resources then resources[k].url else k)
            && resources'[k].lastStatus == (if 0 < status then status else if k in resources then resources[k].lastStatus else 0)
            && forall u :: u in resources && u != k ==> resources'[u] == resources[u]
  {
    hide RowKey, Bumped;
  }

  // ---- The collector itself ----

  class TrafficCollector {
    const maxResources: nat
    var byHost: map<string, Host>
    var since: int
    /** The requests accepted since the last reset. */
    ghost var log: seq<Request>

    constructor (maxResources: nat, now: int)
      ensures Valid() && byHost == map[] && log == [] && this.maxResources == maxResources
    {
      this.maxResources, byHost, since, log := maxResources, map[], now, [];
      new;
    }

    ghost predicate Valid()
      reads this
    {
      Agrees(byHost, log, maxResources)
    }

    /** `record`: a request without a host is ignored, negative sizes count as none. */
    method Record(host: string, url: string, cacheStatus: string, status: int, size: int, now: int)
      requires Valid()
      modifies this`byHost, this`log
      ensures Valid()
      ensures host == "" ==> byHost == old(byHost) && log == old(log)
      ensures host != "" ==>
                var r := Request(Classify(cacheStatus), if size < 0 then 0 else size);
                && log == old(log) + [r]
                && byHost == RecordHost(old(byHost), host, url, r, status, now, maxResources)
    {
      hide Classify, Bumped, Agrees;
      if host == "" { return; }
      var r := Request(Classify(cacheStatus), if size < 0 then 0 else size);
      RecordAgrees(byHost, log, host, url, r, status, now, maxResources);
      var hostKey := host;
      if host !in byHost && |byHost.Keys| >= MAX_HOSTS { hostKey := OTHER; }
      var entry := if hostKey in byHost then byHost[hostKey] else Host(NOTHING, map[]);
      entry := entry.(tally := Bumped(entry.tally, r));
      var resKey := url;
      if url !in entry.resources && |entry.resources.Keys| >= maxResources { resKey := OTHER; }
      var row := if resKey in entry.resources then entry.resources[resKey] else Resource(resKey, NOTHING, 0, 0);
      row := row.(tally := Bumped(row.tally, r), lastMs := now);
      if status > 0 { row := row.(lastStatus := status); }
      byHost := byHost[hostKey := entry.(resources := entry.resources[resKey := row])];
      log := log + [r];
    }

    /** The total of `snapshot`: exactly the accepted requests since the last reset. */
    method SnapshotTotal() returns (total: Tally)
      requires Valid()
      ensures forall c: Column {:trigger At(total, c)} :: At(total, c) == Logged(log, c)
    {
      total := NOTHING;
      var todo := HostRows(byHost);
      ghost var rows := todo;
      forall c: Column ensures At(total, c) + Sum(todo, c) == Logged(log, c) {
        assert Sum(rows, c) == Logged(log, c);
        NothingSums(c);
      }
      while todo != map[]
        invariant forall c: Column {:trigger At(total, c)} :: At(total, c) + Sum(todo, c) == Logged(log, c)
        decreases |todo|
      {
        var h :| h in todo;
        ghost var before, left := total, todo;
        total := Added(total, todo[h]);
        todo := todo - {h};
        forall c: Column ensures At(total, c) + Sum(todo, c) == Logged(log, c) {
          assert At(before, c) + Sum(left, c) == Logged(log, c);
          SumWithout(left, h, c);
        }
      }
      forall c: Column ensures At(total, c) == Logged(log, c) {
        assert At(total, c) + Sum(todo, c) == Logged(log, c);
      }
    }

    /** The rows of `detail`: a host's tally and its resources, which add up to it. */
    method Detail(host: string) returns (total: Tally, resources: map<string, Resource>)
      requires Valid()
      ensures forall c: Column {:trigger At(total, c)} :: At(total, c) == Sum(ResourceRows(resources), c)
      ensures host in byHost ==> total == byHost[host].tally && resources == byHost[host].resources
      ensures |resources.Keys| <= maxResources + 1
    {
      total, resources := NOTHING, map[];
      if host in byHost {
        total, resources := byHost[host].tally, byHost[host].resources;
        assert HostOk(byHost[host], maxResources);
      } else {
        assert HostOk(Host(total, resources), maxResources);
      }
      forall c: Column ensures At(total, c) == Sum(ResourceRows(resources), c) {
        assert HostOk(Host(total, resources), maxResources);
        assert At(Host(total, resources).tally, c) == Sum(ResourceRows(Host(total, resources).resources), c);
      }
    }

    method Reset(now: int)
      modifies this
      ensures Valid() && byHost == map[] && log == [] && since == now
    {
      byHost, since, log := map[], now, [];
    }
  }

  function Added(a: Tally, b: Tally): (t: Tally)
    ensures forall c: Column {:trigger At(t, c)} :: At(t, c) == At(a, c) + At(b, c)
  {
    seq(OUTCOMES, i requires 0 <= i < OUTCOMES => Cell(a[i].count + b[i].count, a[i].bytes + b[i].bytes))
  }

}
