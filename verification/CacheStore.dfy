/** The on-disk cache: metadata and bodies under one key each, and a running hint of the byte total. */
module CacheStore {
  import opened Options

  /**
   An entry's metadata as stored: an expiry of 0 is none. `detail` is what no size or eviction decision reads.
   */
  datatype Meta = Meta(key: string, storedAt: int, accessedAt: int, expiresAt: int, size: nat, detail: string)

  /** The database's "m/" and "b/" records, and the hint: -1 until a scan has seeded it. */
  datatype Store = Store(meta: map<string, Meta>, body: map<string, string>, hint: int)

  /** The two edits the callers make to metadata in place. */
  datatype Edit = Touch(now: int) | Revalidate(storedAt: int, expiresAt: int, detail: string)

  datatype Candidate = Candidate(key: string, size: nat, access: int)

  // ---- Byte totals ----

  ghost function Total(meta: map<string, Meta>): nat
    decreases |meta|
  {
    if meta == map[] then 0
    else
      var k :| k in meta;
      meta[k].size + Total(meta - {k})
  }

  lemma {:induction false} TotalWithout(meta: map<string, Meta>, k: string)
    requires k in meta
    ensures Total(meta) == meta[k].size + Total(meta - {k})
    decreases |meta|
  {
    var p :| p in meta && Total(meta) == meta[p].size + Total(meta - {p});
    if p != k {
      TotalWithout(meta - {p}, k);
      TotalWithout(meta - {k}, p);
      assert meta - {p} - {k} == meta - {k} - {p};
    }
  }

  /** Writing an entry replaces its old size by the new one. */
  lemma TotalPut(meta: map<string, Meta>, k: string, m: Meta)
    ensures Total(meta[k := m]) == m.size + Total(meta - {k})
    ensures Total(meta[k := m]) <= m.size + Total(meta)
  {
    TotalWithout(meta[k := m], k);
    assert meta[k := m] - {k} == meta - {k};
    if k in meta {
      TotalWithout(meta, k);
    } else {
      assert meta - {k} == meta;
    }
  }

  lemma {:induction false} TotalSameSizes(a: map<string, Meta>, b: map<string, Meta>)
    requires a.Keys == b.Keys && forall k :: k in a ==> a[k].size == b[k].size
    ensures Total(a) == Total(b)
    decreases |a|
  {
    if a != map[] {
      var k :| k in a;
      TotalWithout(a, k);
      TotalWithout(b, k);
      TotalSameSizes(a - {k}, b - {k});
    } else {
      assert b == map[];
    }
  }

  // ---- Operations ----

  function Put(s: Store, key: string, body: string, meta: Meta): Store {
    var m := meta.(key := key, size := |body|);
    Store(s.meta[key := m], s.body[key := body], if s.hint >= 0 then s.hint + m.size else s.hint)
  }

  function Edited(m: Meta, e: Edit): Meta {
    match e
    case Touch(now) => m.(accessedAt := now)
    case Revalidate(storedAt, expiresAt, detail) => m.(storedAt := storedAt, expiresAt := expiresAt, detail := detail)
  }

  function UpdateMetadata(s: Store, key: string, e: Edit): Store {
    if key in s.meta then s.(meta := s.meta[key := Edited(s.meta[key], e)]) else s
  }

  function Expire(s: Store, matches: Meta -> bool, when: int): Store {
    s.(meta := map k | k in s.meta ::
      if matches(s.meta[k]) then s.meta[k].(expiresAt := when) else s.meta[k])
  }

  function Clear(s: Store): Store {
    Store(map[], map[], 0)
  }

  /** When an entry was last used; one never read counts from its storing. */
  function Access(m: Meta): int {
    if m.accessedAt == 0 then m.storedAt else m.accessedAt
  }

  /** The keys dropped between two states. */
  function Gone(s: Store, s': Store): set<string> {
    s.meta.Keys - s'.meta.Keys
  }

  /** Only whole entries are dropped; the others are as they were. */
  predicate Shrunk(s: Store, s': Store) {
    s'.meta.Keys <= s.meta.Keys && s'.meta == s.meta - Gone(s, s') && s'.body == s.body - Gone(s, s')
  }

  /** Nothing dropped was used after anything kept. */
  predicate OldestGone(s: Store, s': Store) {
    forall e, k :: e in Gone(s, s') && k in s'.meta && k in s.meta ==> Access(s.meta[e]) <= Access(s.meta[k])
  }

  /** Keeping the most recently used of the dropped entries would leave the total above the budget. */
  ghost predicate NoneSpared(s: Store, s': Store, max: int) {
    exists e :: e in Gone(s, s') && Total(s'.meta) + s.meta[e].size > max
                && forall d :: d in Gone(s, s') ==> Access(s.meta[d]) <= Access(s.meta[e])
  }

  /** What enforcing a budget may do; which of equally old entries go first is left open. */
  ghost predicate Enforced(s: Store, s': Store, max: int) {
    if max <= 0 || 0 <= s.hint <= max then s' == s
    else if Total(s.meta) <= max then s' == s.(hint := Total(s.meta))
    else
      && Shrunk(s, s') && s'.hint == Total(s'.meta) <= max
      && OldestGone(s, s') && NoneSpared(s, s', max)
  }

  // ---- Runs ----

  datatype Op = OpPut(key: string, body: string, meta: Meta) | OpUpdate(key: string, edit: Edit)
              | OpExpire(matches: Meta -> bool, when: int) | OpClear | OpEnforce(max: int) | OpReopen

  ghost predicate Next(s: Store, op: Op, s': Store) {
    match op
    case OpPut(key, body, meta) => s' == Put(s, key, body, meta)
    case OpUpdate(key, edit) => s' == UpdateMetadata(s, key, edit)
    case OpExpire(matches, when) => s' == Expire(s, matches, when)
    case OpClear => s' == Clear(s)
    case OpEnforce(max) => Enforced(s, s', max)
    case OpReopen => s' == s.(hint := -1)
  }

  ghost predicate IsRun(states: seq<Store>, ops: seq<Op>) {
    && |states| == |ops| + 1 && states[0] == Store(map[], map[], -1)
    && forall i :: 0 <= i < |ops| ==> Next(states[i], ops[i], states[i + 1])
  }

  /** Metadata and bodies come in pairs, sizes are true, and the hint never falls below the total. */
  ghost predicate Sound(s: Store) {
    && s.meta.Keys == s.body.Keys
    && (forall k :: k in s.meta ==> s.meta[k].key == k && s.meta[k].size == |s.body[k]|)
    && (s.hint >= 0 ==> s.hint >= Total(s.meta))
  }

  lemma NextKeepsSound(s: Store, op: Op, s': Store)
    requires Sound(s) && Next(s, op, s')
    ensures Sound(s')
  {
    match op
    case OpPut(key, body, meta) => TotalPut(s.meta, key, meta.(key := key, size := |body|));
    case OpUpdate(key, edit) => TotalSameSizes(s.meta, s'.meta);
    case OpExpire(matches, when) => TotalSameSizes(s.meta, s'.meta);
    case OpClear =>
    case OpEnforce(max) =>
    case OpReopen =>
  }

  lemma {:induction false} RunKeepsSound(states: seq<Store>, ops: seq<Op>, i: nat)
    requires IsRun(states, ops) && i <= |ops|
    ensures Sound(states[i])
  {
    if i > 0 {
      RunKeepsSound(states, ops, i - 1);
      NextKeepsSound(states[i - 1], ops[i - 1], states[i]);
    }
  }

  /** The true byte count: the sum of the stored bodies. */
  ghost function BodyBytes(body: map<string, string>): nat
    decreases |body|
  {
    if body == map[] then 0
    else
      var k :| k in body;
      |body[k]| + BodyBytes(body - {k})
  }

  lemma {:induction false} TotalIsBodyBytes(meta: map<string, Meta>, body: map<string, string>)
    requires meta.Keys == body.Keys && forall k :: k in meta ==> meta[k].size == |body[k]|
    ensures Total(meta) == BodyBytes(body)
    decreases |body|
  {
    if body != map[] {
      var k :| k in body && BodyBytes(body) == |body[k]| + BodyBytes(body - {k});
      TotalWithout(meta, k);
      TotalIsBodyBytes(meta - {k}, body - {k});
    } else {
      assert meta == map[];
    }
  }

  /**
   Whatever happened before, once a positive budget is enforced the bodies on disk fit it, also when
   the hint made the scan unnecessary; and every entry has its body.
   */
  lemma BudgetHolds(states: seq<Store>, ops: seq<Op>, i: nat)
    requires IsRun(states, ops) && i < |ops| && ops[i].OpEnforce? && ops[i].max > 0
    ensures BodyBytes(states[i + 1].body) <= ops[i].max
    ensures states[i + 1].meta.Keys == states[i + 1].body.Keys
  {
    RunKeepsSound(states, ops, i);
    RunKeepsSound(states, ops, i + 1);
    TotalIsBodyBytes(states[i + 1].meta, states[i + 1].body);
  }

  // ---- Last uses, told from the operations alone ----

  /** The access time last given for a key: by a touch, or else with its last put. */
  function AccessGiven(ops: seq<Op>, key: string): int {
    if ops == [] then 0
    else
      var n := |ops| - 1;
      match ops[n]
      case OpPut(k, _, meta) => if k == key then meta.accessedAt else AccessGiven(ops[..n], key)
      case OpUpdate(k, Touch(now)) => if k == key then now else AccessGiven(ops[..n], key)
      case _ => AccessGiven(ops[..n], key)
  }

  /** The storing time last given for a key: with its last put, or by a revalidation since. */
  function StoringGiven(ops: seq<Op>, key: string): int {
    if ops == [] then 0
    else
      var n := |ops| - 1;
      match ops[n]
      case OpPut(k, _, meta) => if k == key then meta.storedAt else StoringGiven(ops[..n], key)
      case OpUpdate(k, Revalidate(at, _, _)) => if k == key then at else StoringGiven(ops[..n], key)
      case _ => StoringGiven(ops[..n], key)
  }

  /** The body last put under a key. */
  function BodyGiven(ops: seq<Op>, key: string): string {
    if ops == [] then ""
    else
      var n := |ops| - 1;
      if ops[n].OpPut? && ops[n].key == key then ops[n].body else BodyGiven(ops[..n], key)
  }

  /** When a key was last used: the access time given, or the storing time when that is 0. */
  function LastUse(ops: seq<Op>, key: string): int {
    if AccessGiven(ops, key) != 0 then AccessGiven(ops, key) else StoringGiven(ops, key)
  }

  /** In every run the times and the body stored under a key are those last given for it. */
  lemma {:induction false} StoredAsGiven(states: seq<Store>, ops: seq<Op>, i: nat, key: string)
    requires IsRun(states, ops) && i <= |ops| && key in states[i].meta
    ensures states[i].meta[key].accessedAt == AccessGiven(ops[..i], key)
    ensures states[i].meta[key].storedAt == StoringGiven(ops[..i], key)
    ensures key in states[i].body && states[i].body[key] == BodyGiven(ops[..i], key)
  {
    hide Total;
    RunKeepsSound(states, ops, i);
    if i > 0 {
      assert ops[..i][..i - 1] == ops[..i - 1];
      if key in states[i - 1].meta { StoredAsGiven(states, ops, i - 1, key); }
    }
  }

  /**
   An eviction in any run keeps both records of what it keeps, drops nothing used after anything kept,
   and could not have spared the most recently used entry it dropped.
   */
  lemma EvictsOldest(states: seq<Store>, ops: seq<Op>, i: nat, e: string)
    requires IsRun(states, ops) && i < |ops| && ops[i].OpEnforce?
    requires e in states[i].meta && e !in states[i + 1].meta
    ensures var s, s', past := states[i], states[i + 1], ops[..i];
            && e !in s'.body && BodyBytes(s.body) > ops[i].max
            && (forall k :: k in s'.meta ==>
                 && k in s.meta && k in s.body && k in s'.body
                 && s'.meta[k] == s.meta[k] && s'.body[k] == s.body[k]
                 && LastUse(past, e) <= LastUse(past, k))
            && exists d :: d in s.body && d !in s'.body && LastUse(past, e) <= LastUse(past, d)
                           && BodyBytes(s'.body) + |s.body[d]| > ops[i].max
  {
    hide Total, BodyBytes, LastUse, IsRun, Access;
    NextAt(states, ops, i);
    var s, s' := states[i], states[i + 1];
    RunKeepsSound(states, ops, i);
    RunKeepsSound(states, ops, i + 1);
    TotalIsBodyBytes(s.meta, s.body);
    TotalIsBodyBytes(s'.meta, s'.body);
    assert e in Gone(s, s');
    var d :| d in Gone(s, s') && Total(s'.meta) + s.meta[d].size > ops[i].max
             && forall x :: x in Gone(s, s') ==> Access(s.meta[x]) <= Access(s.meta[d]);
    AccessIsLastUse(states, ops, i, e);
    AccessIsLastUse(states, ops, i, d);
    forall k | k in s'.meta
      ensures k in s.meta && s'.meta[k] == s.meta[k] && s'.body[k] == s.body[k]
      ensures LastUse(ops[..i], e) <= LastUse(ops[..i], k)
    {
      assert k !in Gone(s, s');
      AccessIsLastUse(states, ops, i, k);
    }
  }

  lemma NextAt(states: seq<Store>, ops: seq<Op>, i: nat)
    requires IsRun(states, ops) && i < |ops|
    ensures |states| == |ops| + 1 && Next(states[i], ops[i], states[i + 1])
  {}

  lemma AccessIsLastUse(states: seq<Store>, ops: seq<Op>, i: nat, key: string)
    requires IsRun(states, ops) && i <= |ops| && key in states[i].meta
    ensures Access(states[i].meta[key]) == LastUse(ops[..i], key)
  {
    StoredAsGiven(states, ops, i, key);
  }

  /** What each other operation does to the records and the hint. */
  lemma OpsDo(s: Store, s': Store, op: Op)
    requires Next(s, op, s')
    ensures op.OpPut? ==>
              && s'.meta == s.meta[op.key := op.meta.(key := op.key, size := |op.body|)]
              && s'.body == s.body[op.key := op.body] && s'.hint == (if s.hint < 0 then s.hint else s.hint + |op.body|)
    ensures op.OpUpdate? ==> s'.body == s.body && s'.hint == s.hint && s'.meta.Keys == s.meta.Keys
    ensures op.OpUpdate? ==>
              forall k :: k in s.meta ==>
                s'.meta[k] == if k != op.key then s.meta[k]
                              else if op.edit.Touch? then s.meta[k].(accessedAt := op.edit.now)
                              else s.meta[k].(storedAt := op.edit.storedAt, expiresAt := op.edit.expiresAt,
                                              detail := op.edit.detail)
    ensures op.OpExpire? ==> s'.body == s.body && s'.hint == s.hint && s'.meta.Keys == s.meta.Keys
    ensures op.OpExpire? ==>
              forall k :: k in s.meta ==>
                s'.meta[k] == if op.matches(s.meta[k]) then s.meta[k].(expiresAt := op.when) else s.meta[k]
    ensures op.OpClear? ==> s'.meta == map[] && s'.body == map[] && s'.hint == 0
    ensures op.OpReopen? ==> s'.meta == s.meta && s'.body == s.body && s'.hint == -1
  {}

  /**
   When enforcing a budget evicts: when there is a budget, the bodies exceed it and no hint says otherwise.
   Unless the hint made the scan unnecessary it is the true total afterwards.
   */
  lemma EnforceDoes(states: seq<Store>, ops: seq<Op>, i: nat)
    requires IsRun(states, ops) && i < |ops| && ops[i].OpEnforce?
    ensures var s, s', max := states[i], states[i + 1], ops[i].max;
            && (max <= 0 || (0 <= s.hint && s.hint <= max) ==> s' == s)
            && (max > 0 && (s.hint < 0 || max < s.hint) ==>
                  && s'.hint == BodyBytes(s'.body)
                  && (BodyBytes(s.body) <= max <==> s'.meta == s.meta)
                  && (BodyBytes(s.body) <= max ==> s'.body == s.body))
  {
    hide IsRun, Total, BodyBytes;
    NextAt(states, ops, i);
    RunKeepsSound(states, ops, i);
    RunKeepsSound(states, ops, i + 1);
    TotalIsBodyBytes(states[i].meta, states[i].body);
    TotalIsBodyBytes(states[i + 1].meta, states[i + 1].body);
  }

  // ---- Candidates for eviction ----

  function CandidateOf(m: Meta): Candidate {
    Candidate(m.key, m.size, Access(m))
  }

  ghost function Candidates(meta: map<string, Meta>): multiset<Candidate> {
    multiset(set k | k in meta :: CandidateOf(meta[k]))
  }

  ghost predicate Keyed(meta: map<string, Meta>) {
    forall k :: k in meta ==> meta[k].key == k
  }

  lemma CandidatesWithout(meta: map<string, Meta>, k: string)
    requires Keyed(meta) && k in meta
    ensures Keyed(meta - {k})
    ensures Candidates(meta) == Candidates(meta - {k}) + multiset{CandidateOf(meta[k])}
  {
    var all := set x | x in meta :: CandidateOf(meta[x]);
    var rest := set x | x in meta - {k} :: CandidateOf((meta - {k})[x]);
    var c := CandidateOf(meta[k]);
    assert c !in rest;
    forall x | x in all ensures x in rest + {c} {
      var j :| j in meta && CandidateOf(meta[j]) == x;
      assert j != k ==> j in meta - {k};
    }
    assert all == rest + {c};
  }

  lemma NoCandidates(meta: map<string, Meta>)
    ensures Candidates(meta) == multiset{} <==> meta == map[]
    ensures meta == map[] ==> Total(meta) == 0
  {
    if meta != map[] {
      var k :| k in meta;
      assert CandidateOf(meta[k]) in Candidates(meta);
    }
  }

  /** What is still in the list was used no earlier than what has been taken off its front. */
  lemma TakenOldest(sorted: seq<Candidate>, i: nat, meta: map<string, Meta>, batch: set<string>)
    requires ByAccess(sorted) && i <= |sorted| && batch <= meta.Keys
    requires multiset(sorted[i..]) == Candidates(meta - batch)
    requires forall d :: d in batch ==> CandidateOf(meta[d]) in sorted[..i]
    ensures forall e, k :: e in batch && k in meta - batch ==> Access(meta[e]) <= Access(meta[k])
    ensures forall e :: e in batch ==> Access(meta[e]) <= sorted[i - 1].access
  {
    forall e, k | e in batch && k in meta - batch ensures Access(meta[e]) <= Access(meta[k]) {
      assert CandidateOf((meta - batch)[k]) in Candidates(meta - batch);
      assert CandidateOf(meta[k]) in sorted[i..];
    }
    forall e | e in batch ensures i > 0 && Access(meta[e]) <= sorted[i - 1].access {
      var j :| 0 <= j < i && sorted[j] == CandidateOf(meta[e]);
    }
  }

  lemma CandidateKeys(meta: map<string, Meta>, cs: seq<Candidate>, i: nat)
    requires Keyed(meta) && multiset(cs) == Candidates(meta) && i < |cs|
    ensures cs[i].key in meta && cs[i] == CandidateOf(meta[cs[i].key])
  {
    assert cs[i] in multiset(cs);
  }

  predicate ByAccess(cs: seq<Candidate>) {
    forall i, j :: 0 <= i < j < |cs| ==> cs[i].access <= cs[j].access
  }

  /** Any sort by access will do. */
  method Sort(cs: seq<Candidate>) returns (sorted: seq<Candidate>)
    ensures ByAccess(sorted) && multiset(sorted) == multiset(cs)
  {
    sorted := [];
    for i := 0 to |cs|
      invariant ByAccess(sorted) && multiset(sorted) == multiset(cs[..i])
    {
      assert cs[..i + 1] == cs[..i] + [cs[i]];
      sorted := Insert(sorted, cs[i]);
    }
    assert cs[..|cs|] == cs;
  }

  method Insert(cs: seq<Candidate>, c: Candidate) returns (r: seq<Candidate>)
    requires ByAccess(cs)
    ensures ByAccess(r) && multiset(r) == multiset(cs) + multiset{c}
  {
    var i := 0;
    while i < |cs| && cs[i].access <= c.access
      invariant i <= |cs| && forall k :: 0 <= k < i ==> cs[k].access <= c.access
    {
      i := i + 1;
    }
    assert cs == cs[..i] + cs[i..];
    r := cs[..i] + [c] + cs[i..];
  }

  /** The entries a pattern matches. */
  function Hits(meta: map<string, Meta>, matches: Meta -> bool): set<string> {
    set k | k in meta && matches(meta[k])
  }

  lemma Overwritten(s: Store, matches: Meta -> bool, when: int, batch: map<string, Meta>)
    requires batch.Keys == Hits(s.meta, matches) && forall k :: k in batch ==> batch[k] == s.meta[k].(expiresAt := when)
    ensures s.meta + batch == Expire(s, matches, when).meta
  {
    assert forall k :: k in s.meta ==> (k in Hits(s.meta, matches) <==> matches(s.meta[k]));
  }

  // ---- The store itself ----

  class LevelDbStore {
    var meta: map<string, Meta>
    var body: map<string, string>
    var totalBytes: int

    constructor ()
      ensures Valid() && Now() == Store(map[], map[], -1)
    {
      meta, body, totalBytes := map[], map[], -1;
    }

    ghost function Now(): Store
      reads this
    {
      Store(meta, body, totalBytes)
    }

    ghost predicate Valid()
      reads this
    {
      Sound(Now())
    }

    /** `put`, through `store_body`: both records in one batch, then the hint. */
    method PutEntry(key: string, bytes: string, m: Meta) returns (written: Meta)
      requires Valid()
      modifies this
      ensures Valid() && Now() == Put(old(Now()), key, bytes, m) && written == meta[key]
    {
      NextKeepsSound(Now(), OpPut(key, bytes, m), Put(Now(), key, bytes, m));
      written := m.(key := key, size := |bytes|);
      body := body[key := bytes];
      meta := meta[key := written];
      if totalBytes >= 0 { totalBytes := totalBytes + written.size; }
    }

    method Update(key: string, e: Edit) returns (updated: Option<Meta>)
      requires Valid()
      modifies this
      ensures Valid() && Now() == UpdateMetadata(old(Now()), key, e)
      ensures updated == if key in meta then Some(meta[key]) else None
    {
      NextKeepsSound(Now(), OpUpdate(key, e), UpdateMetadata(Now(), key, e));
      if key !in meta { return None; }
      var m := Edited(meta[key], e);
      meta := meta[key := m];
      updated := Some(m);
    }

    /** `expire`: every matching entry in one batch; the count of entries marked. */
    method ExpireMatching(matches: Meta -> bool, when: int) returns (affected: nat)
      requires Valid()
      modifies this
      ensures Valid() && Now() == Expire(old(Now()), matches, when)
      ensures affected == |Hits(old(meta), matches)|
    {
      NextKeepsSound(Now(), OpExpire(matches, when), Expire(Now(), matches, when));
      var batch := Matching(matches, when);
      Overwritten(Now(), matches, when, batch);
      affected := |batch.Keys|;
      meta := meta + batch;
    }

    /** The scan of `expire`: the records to rewrite. */
    method Matching(matches: Meta -> bool, when: int) returns (batch: map<string, Meta>)
      ensures batch.Keys == Hits(meta, matches)
      ensures forall k :: k in batch ==> batch[k] == meta[k].(expiresAt := when)
    {
      batch := map[];
      var todo := meta.Keys;
      while todo != {}
        invariant todo <= meta.Keys
        invariant batch.Keys == Hits(meta, matches) - todo
        invariant forall k :: k in batch ==> batch[k] == meta[k].(expiresAt := when)
        decreases todo
      {
        var k :| k in todo;
        todo := todo - {k};
        if matches(meta[k]) {
          batch := batch[k := meta[k].(expiresAt := when)];
        }
      }
    }

    method ClearAll()
      requires Valid()
      modifies this
      ensures Valid() && Now() == Clear(old(Now()))
    {
      meta, body, totalBytes := map[], map[], 0;
    }

    /** The scan over "m/": every entry once, and the sum of the sizes. */
    method Scan() returns (candidates: seq<Candidate>, total: nat)
      requires Valid()
      ensures multiset(candidates) == Candidates(meta) && total == Total(meta)
    {
      hide Total, Candidates, Access;
      candidates, total := [], 0;
      var todo := meta;
      while todo != map[]
        invariant todo.Keys <= meta.Keys && todo == map k | k in todo :: meta[k]
        invariant multiset(candidates) + Candidates(todo) == Candidates(meta)
        invariant total + Total(todo) == Total(meta)
        decreases |todo|
      {
        var k :| k in todo;
        TotalWithout(todo, k);
        CandidatesWithout(todo, k);
        candidates := candidates + [CandidateOf(todo[k])];
        total := total + todo[k].size;
        todo := todo - {k};
      }
      NoCandidates(todo);
    }

    method EnforceMaxSize(max: int)
      requires Valid()
      modifies this
      ensures Valid() && Enforced(old(Now()), Now(), max)
    {
      if max <= 0 { return; }
      if 0 <= totalBytes <= max { return; }
      var candidates, total := Scan();
      if total <= max {
        totalBytes := total;
        return;
      }
      var sorted := Sort(candidates);
      var batch, left := Choose(sorted, total, max);
      meta, body, totalBytes := meta - batch, body - batch, left;
      assert Gone(old(Now()), Now()) == batch;
    }

    /** The loop over the sorted candidates: the keys to delete and the total that is left. */
    method Choose(sorted: seq<Candidate>, total: nat, max: int) returns (batch: set<string>, left: nat)
      requires Keyed(meta) && ByAccess(sorted) && multiset(sorted) == Candidates(meta)
      requires max > 0 && total == Total(meta) > max
      ensures batch <= meta.Keys && left == Total(meta - batch) <= max
      ensures forall e, k :: e in batch && k in meta - batch ==> Access(meta[e]) <= Access(meta[k])
      ensures exists e :: e in batch && left + meta[e].size > max
                          && forall d :: d in batch ==> Access(meta[d]) <= Access(meta[e])
    {
      hide Total, Candidates, ByAccess, Keyed;
      var i := 0;
      batch, left := {}, total;
      assert meta - {} == meta;
      ghost var last := "";
      while i < |sorted| && left > max
        invariant i <= |sorted| && batch <= meta.Keys && left == Total(meta - batch)
        invariant multiset(sorted[i..]) == Candidates(meta - batch)
        invariant forall d :: d in batch ==> CandidateOf(meta[d]) in sorted[..i]
        invariant i == 0 ==> left > max
        invariant i > 0 ==> last in batch && sorted[i - 1] == CandidateOf(meta[last]) && left + meta[last].size > max
      {
        var c := sorted[i];
        DeleteNext(sorted, i, batch);
        batch := batch + {c.key};
        left := left - c.size;
        last := c.key;
        i := i + 1;
      }
      if i == |sorted| { NoCandidates(meta - batch); }
      TakenOldest(sorted, i, meta, batch);
    }

    /** Deleting the next candidate. */
    lemma DeleteNext(sorted: seq<Candidate>, i: nat, batch: set<string>)
      requires Keyed(meta) && i < |sorted| && batch <= meta.Keys
      requires multiset(sorted[i..]) == Candidates(meta - batch)
      requires forall d :: d in batch ==> CandidateOf(meta[d]) in sorted[..i]
      ensures var k := sorted[i].key;
              && k in meta - batch && sorted[i] == CandidateOf(meta[k])
              && Total(meta - batch) == meta[k].size + Total(meta - (batch + {k}))
              && multiset(sorted[i + 1..]) == Candidates(meta - (batch + {k}))
              && forall d :: d in batch + {k} ==> CandidateOf(meta[d]) in sorted[..i + 1]
    {
      var c := sorted[i];
      assert sorted[i..] == [c] + sorted[i + 1..];
      assert sorted[..i + 1] == sorted[..i] + [c];
      CandidateKeys(meta - batch, sorted[i..], 0);
      TotalWithout(meta - batch, c.key);
      CandidatesWithout(meta - batch, c.key);
      assert meta - batch - {c.key} == meta - (batch + {c.key});
      assert multiset(sorted[i..]) == multiset{c} + multiset(sorted[i + 1..]);
      assert multiset(sorted[i + 1..]) == multiset(sorted[i..]) - multiset{c};
      assert Candidates(meta - (batch + {c.key})) == Candidates(meta - batch) - multiset{c};
    }
  }
}
