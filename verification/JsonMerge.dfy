/** `merge_set_field`: assigning through a dotted key, creating objects along the way. */
module JsonMerge {
  import opened Options
  import opened Text

  datatype Json =
    | Null
    | Bool(flag: bool)
    | Number(value: int)
    | Text(text: string)
    | Array(items: seq<Json>)
    | Object(fields: map<string, Json>)

  /** A JSON object's members, in the order they are iterated. */
  type Members = seq<(string, Json)>

  function FieldsOf(j: Json): map<string, Json> {
    if j.Object? then j.fields else map[]
  }

  function Child(j: Json, key: string): Json {
    if key in FieldsOf(j) then FieldsOf(j)[key] else Null
  }

  /** Reading along a path of object keys. */
  function Get(j: Json, path: seq<string>): Option<Json>
    decreases path
  {
    if path == [] then Some(j)
    else if path[0] in FieldsOf(j) then Get(FieldsOf(j)[path[0]], path[1..])
    else None
  }

  /** The recursive update: every step of the path is an object afterwards. */
  function SetPath(j: Json, path: seq<string>, v: Json): Json
    requires path != []
    decreases path, 1
  {
    Object(FieldsOf(j)[path[0] := NewChild(j, path, v)])
  }

  /** What an update puts under the first key of its path. */
  function NewChild(j: Json, path: seq<string>, v: Json): Json
    requires path != []
    decreases path, 0
  {
    if |path| == 1 then v else SetPath(Child(j, path[0]), path[1..], v)
  }

  function PathOf(key: string): seq<string> {
    Split(key, '.')
  }

  // ---- The pointer walk ----

  /** An object left behind on the way down, and the key taken out of it. */
  datatype Frame = Frame(fields: map<string, Json>, key: string)

  /** The document around a subtree, rebuilt from the frames above it. */
  function Plug(frames: seq<Frame>, j: Json): Json {
    if frames == [] then j
    else
      var last := frames[|frames| - 1];
      Plug(frames[..|frames| - 1], Object(last.fields[last.key := j]))
  }

  class Document {
    var root: Json

    constructor (root: Json)
      ensures this.root == root
    {
      this.root := root;
    }

    /** False stands for the type error thrown when the document is neither an object nor null. */
    method MergeSetField(key: string, value: Json) returns (ok: bool)
      modifies this
      ensures ok == (old(root).Object? || old(root).Null?)
      ensures root == if ok then SetPath(old(root), PathOf(key), value) else old(root)
    {
      if !root.Object? && !root.Null? { return false; }
      ok := true;
      var dot := Find(key, '.', 0);
      assert key[0..] == key;
      if dot < 0 {
        SplitFree(key, '.');
        root := Object(FieldsOf(root)[key := value]);
      } else {
        Walk(key, value);
      }
    }

    /** The pointer walk down a dotted path. */
    method Walk(key: string, value: Json)
      modifies this
      ensures root == SetPath(old(root), PathOf(key), value)
    {
      var frames: seq<Frame> := [];
      var cur := Object(FieldsOf(root));
      var start := 0;
      ghost var goal := SetPath(root, PathOf(key), value);
      assert key[0..] == key;
      AsObject(root, PathOf(key), value);
      while true
        invariant 0 <= start <= |key| && cur.Object?
        invariant Plug(frames, SetPath(cur, PathOf(key[start..]), value)) == goal
        decreases |key| - start
      {
        var dot := Find(key, '.', start);
        if dot < 0 {
          SplitFree(key[start..], '.');
          root := Plug(frames, Object(cur.fields[key[start..] := value]));
          return;
        }
        var seg := key[start..dot];
        PathSplits(key, start, dot);
        var next := Child(cur, seg);
        if !next.Object? { next := Object(map[]); }
        StepDown(frames, cur, seg, next, PathOf(key[dot + 1..]), value);
        frames := frames + [Frame(cur.fields, seg)];
        cur := next;
        start := dot + 1;
      }
    }

    /** Every member in turn; stops at the first type error, which only the first member can meet. */
    method MergeSetFields(members: Members) returns (ok: bool)
      modifies this
      ensures ok == (members == [] || old(root).Object? || old(root).Null?)
      ensures root == if ok then MergeAll(old(root), members) else old(root)
    {
      ok := true;
      var i := 0;
      assert members[..0] == [];
      while i < |members|
        invariant 0 <= i <= |members|
        invariant i > 0 ==> old(root).Object? || old(root).Null?
        invariant root == MergeAll(old(root), members[..i])
        invariant i > 0 ==> root.Object?
      {
        ok := MergeSetField(members[i].0, members[i].1);
        if !ok { return; }
        MergeAllAppend(old(root), members[..i], members[i]);
        assert members[..i] + [members[i]] == members[..i + 1];
        i := i + 1;
      }
      assert members[..|members|] == members;
    }
  }

  /** An update sees nothing of a non-object but that it has no members. */
  lemma AsObject(j: Json, path: seq<string>, v: Json)
    requires path != []
    ensures SetPath(Object(FieldsOf(j)), path, v) == SetPath(j, path, v)
  {
    assert FieldsOf(Object(FieldsOf(j))) == FieldsOf(j);
    assert Child(Object(FieldsOf(j)), path[0]) == Child(j, path[0]);
  }

  lemma PathSplits(key: string, start: nat, dot: nat)
    requires start <= dot < |key| && key[dot] == '.' && Free(key[start..dot], '.')
    ensures PathOf(key[start..]) == [key[start..dot]] + PathOf(key[dot + 1..])
  {
    assert key[start..][..dot - start] == key[start..dot] && key[start..][dot - start + 1..] == key[dot + 1..];
    SplitAt(key[start..], dot - start, '.');
  }

  /** Going down one key keeps the document that will come out. */
  lemma StepDown(frames: seq<Frame>, cur: Json, seg: string, next: Json, path: seq<string>, v: Json)
    requires cur.Object? && path != []
    requires next == if Child(cur, seg).Object? then Child(cur, seg) else Object(map[])
    ensures Plug(frames + [Frame(cur.fields, seg)], SetPath(next, path, v)) ==
            Plug(frames, SetPath(cur, [seg] + path, v))
  {
    assert ([seg] + path)[1..] == path;
    AsObject(Child(cur, seg), path, v);
    assert next == Object(FieldsOf(Child(cur, seg)));
    assert NewChild(cur, [seg] + path, v) == SetPath(next, path, v);
    var longer := frames + [Frame(cur.fields, seg)];
    assert longer[..|longer| - 1] == frames;
  }

  function MergeAll(j: Json, members: Members): Json
    decreases members
  {
    if members == [] then j
    else MergeAll(SetPath(j, PathOf(members[0].0), members[0].1), members[1..])
  }

  lemma {:induction false} MergeAllAppend(j: Json, members: Members, m: (string, Json))
    ensures MergeAll(j, members + [m]) == SetPath(MergeAll(j, members), PathOf(m.0), m.1)
    decreases members
  {
    if members == [] {
      assert members + [m] == [m];
      assert [m][1..] == [];
    } else {
      assert (members + [m])[1..] == members[1..] + [m];
      MergeAllAppend(SetPath(j, PathOf(members[0].0), members[0].1), members[1..], m);
    }
  }

  // ---- What an update does and does not change ----

  predicate Incomparable(p: seq<string>, q: seq<string>) {
    !(p <= q) && !(q <= p)
  }

  /** The written path, and anything below it, reads back what was written. */
  lemma {:induction false} ReadBack(j: Json, path: seq<string>, v: Json, below: seq<string>)
    requires path != []
    ensures Get(SetPath(j, path, v), path + below) == Get(v, below)
    decreases path
  {
    assert (path + below)[1..] == path[1..] + below;
    if |path| > 1 {
      ReadBack(Child(j, path[0]), path[1..], v, below);
    } else {
      assert path[1..] + below == below;
    }
  }

  /** A path that is neither a prefix nor an extension of the written one reads as before. */
  lemma {:induction false} ReadElsewhere(j: Json, path: seq<string>, v: Json, other: seq<string>)
    requires path != [] && Incomparable(path, other)
    ensures Get(SetPath(j, path, v), other) == Get(j, other)
    decreases path
  {
    if path[0] == other[0] {
      ReadElsewhere(Child(j, path[0]), path[1..], v, other[1..]);
      if path[0] !in FieldsOf(j) {
        assert Get(Null, other[1..]) == None;
      }
    }
  }

  /** Updates on incomparable paths commute. */
  lemma {:induction false} Commute(j: Json, p: seq<string>, v: Json, q: seq<string>, u: Json)
    requires p != [] && q != [] && Incomparable(p, q)
    ensures SetPath(SetPath(j, p, v), q, u) == SetPath(SetPath(j, q, u), p, v)
    decreases p
  {
    if p[0] == q[0] {
      Commute(Child(j, p[0]), p[1..], v, q[1..], u);
      SetTwice(j, p, v, q, u);
      SetTwice(j, q, u, p, v);
    } else {
      SetApart(j, p, v, q, u);
      SetApart(j, q, u, p, v);
      SwapKeys(FieldsOf(j), p[0], NewChild(j, p, v), q[0], NewChild(j, q, u));
    }
  }

  lemma SwapKeys(fields: map<string, Json>, a: string, x: Json, c: string, y: Json)
    requires a != c
    ensures fields[a := x][c := y] == fields[c := y][a := x]
  {}

  /** Two updates below one key are two updates of that key's subtree. */
  lemma SetTwice(j: Json, p: seq<string>, v: Json, q: seq<string>, u: Json)
    requires |p| > 1 && |q| > 1 && p[0] == q[0]
    ensures SetPath(SetPath(j, p, v), q, u) ==
            Object(FieldsOf(j)[p[0] := SetPath(SetPath(Child(j, p[0]), p[1..], v), q[1..], u)])
  {
    var a := SetPath(Child(j, p[0]), p[1..], v);
    assert Child(SetPath(j, p, v), q[0]) == a;
    assert FieldsOf(j)[p[0] := a][q[0] := SetPath(a, q[1..], u)] == FieldsOf(j)[p[0] := SetPath(a, q[1..], u)];
  }

  /** An update under one key leaves the subtree of another. */
  lemma SetApart(j: Json, p: seq<string>, v: Json, q: seq<string>, u: Json)
    requires p != [] && q != [] && p[0] != q[0]
    ensures SetPath(SetPath(j, p, v), q, u) ==
            Object(FieldsOf(j)[p[0] := NewChild(j, p, v)][q[0] := NewChild(j, q, u)])
  {
    assert Child(SetPath(j, p, v), q[0]) == Child(j, q[0]);
  }

  // ---- The order of members ----

  /** No member twice, and no two members on comparable paths. */
  ghost predicate Independent(ms: multiset<(string, Json)>) {
    && (forall x :: x in ms ==> ms[x] == 1)
    && (forall x, y :: x in ms && y in ms && x != y ==> Incomparable(PathOf(x.0), PathOf(y.0)))
  }

  lemma Fewer(ms: multiset<(string, Json)>, x: (string, Json))
    requires Independent(ms)
    ensures Independent(ms - multiset{x})
  {}

  /** Taking out one element takes one out of the multiset. */
  lemma TakeOut<T>(s: seq<T>, k: nat)
    requires k < |s|
    ensures multiset(s[..k] + s[k + 1..]) == multiset(s) - multiset{s[k]}
  {
    assert s == s[..k] + [s[k]] + s[k + 1..];
  }

  lemma TakeFirst<T>(s: seq<T>)
    requires s != []
    ensures multiset(s[1..]) == multiset(s) - multiset{s[0]}
  {
    assert s == [s[0]] + s[1..];
  }

  /** Moving a member to the front does not change the result. */
  lemma {:induction false} MoveToFront(j: Json, members: Members, k: nat)
    requires k < |members| && Independent(multiset(members))
    ensures MergeAll(j, members) == MergeAll(j, [members[k]] + (members[..k] + members[k + 1..]))
    decreases k
  {
    hide MergeAll, Independent, Incomparable, SetPath;
    var m := members[k];
    if k == 0 {
      assert [m] + (members[..k] + members[k + 1..]) == members;
    } else {
      var first, rest := members[0], members[1..];
      var moved := rest[..k - 1] + rest[k..];
      BehindFirst(members, k);
      MergeFirst(j, members);
      MoveToFront(SetPath(j, PathOf(first.0), first.1), rest, k - 1);
      Commute(j, PathOf(first.0), first.1, PathOf(m.0), m.1);
      assert members[..k] + members[k + 1..] == [first] + moved;
      FrontTwo(j, first, m, moved);
      FrontTwo(j, m, first, moved);
    }
  }

  lemma BehindFirst(members: Members, k: nat)
    requires 0 < k < |members| && Independent(multiset(members))
    ensures Independent(multiset(members[1..]))
    ensures Incomparable(PathOf(members[0].0), PathOf(members[k].0))
  {
    TakeFirst(members);
    Fewer(multiset(members), members[0]);
    OnceMeansOnce(members, k);
    assert members[0] in multiset(members) && members[k] in multiset(members);
  }

  lemma OnceMeansOnce<T>(s: seq<T>, k: nat)
    requires 0 < k < |s| && multiset(s)[s[0]] == 1
    ensures s[0] != s[k]
  {
    assert s == [s[0]] + s[1..k] + [s[k]] + s[k + 1..];
  }

  lemma MergeFirst(j: Json, members: Members)
    requires members != []
    ensures MergeAll(j, members) == MergeAll(SetPath(j, PathOf(members[0].0), members[0].1), members[1..])
  {}

  lemma FrontTwo(j: Json, a: (string, Json), c: (string, Json), rest: Members)
    ensures MergeAll(j, [a] + ([c] + rest)) ==
            MergeAll(SetPath(SetPath(j, PathOf(a.0), a.1), PathOf(c.0), c.1), rest)
    ensures MergeAll(SetPath(j, PathOf(a.0), a.1), [c] + rest) ==
            MergeAll(SetPath(SetPath(j, PathOf(a.0), a.1), PathOf(c.0), c.1), rest)
  {
    assert ([a] + ([c] + rest))[1..] == [c] + rest && ([c] + rest)[1..] == rest;
  }

  /** Independent members may be merged in any order. */
  lemma {:induction false} OrderIrrelevant(j: Json, a: Members, c: Members)
    requires Independent(multiset(a)) && multiset(a) == multiset(c)
    ensures MergeAll(j, a) == MergeAll(j, c)
    decreases a
  {
    hide MergeAll, Independent, Incomparable, SetPath;
    if a == [] {
      assert |multiset(c)| == 0;
    } else {
      var k, rest := SameBehindFirst(a, c);
      Fewer(multiset(a), a[0]);
      MoveToFront(j, c, k);
      MergeFirst(j, a);
      MergeFirst(j, [c[k]] + rest);
      assert ([c[k]] + rest)[1..] == rest;
      OrderIrrelevant(SetPath(j, PathOf(a[0].0), a[0].1), a[1..], rest);
    }
  }

  /** Where the first element of one list is in the other, and what the other has besides. */
  lemma SameBehindFirst<T>(a: seq<T>, c: seq<T>) returns (k: nat, rest: seq<T>)
    requires a != [] && multiset(a) == multiset(c)
    ensures k < |c| && c[k] == a[0] && rest == c[..k] + c[k + 1..]
    ensures multiset(a[1..]) == multiset(rest) == multiset(a) - multiset{a[0]}
  {
    assert a[0] in multiset(c);
    k :| 0 <= k < |c| && c[k] == a[0];
    rest := c[..k] + c[k + 1..];
    TakeFirst(a);
    TakeOut(c, k);
  }
}
