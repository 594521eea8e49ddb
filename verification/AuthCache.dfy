/** The verified-token cache. */
module AuthCache {
  // An insertion-ordered map, re-inserted on a hit, that drops its oldest key when it has too many. A verdict is
  // served only under the generation it was stored under, before its deadline.

  import opened Auth
  import opened Wrappers

  const MAX_ENTRIES := 1000

  datatype Value = Value(name: string, caps: seq<string>, basis: Basis, hash: Option<Hash>)

  datatype Stored = Stored(value: Value, gen: nat, deadline: int)

  /** Keys with what they are mapped to, oldest first. */
  type Store = seq<(string, Stored)>

  function Without(s: Store, k: string): Store
  {
    if s == [] then []
    else if s[0].0 == k then Without(s[1..], k) else [s[0]] + Without(s[1..], k)
  }

  function Find(s: Store, k: string): Option<Stored>
  {
    if s == [] then None else if s[0].0 == k then Some(s[0].1) else Find(s[1..], k)
  }

  predicate Distinct(s: Store)
  {
    forall i, j :: 0 <= i < j < |s| ==> s[i].0 != s[j].0
  }

  /** The newest entries, as many as there may be. */
  function Newest(s: Store): Store
  {
    if |s| > MAX_ENTRIES then s[|s| - MAX_ENTRIES..] else s
  }

  function AfterSet(s: Store, k: string, e: Stored): Store
  {
    Newest(Without(s, k) + [(k, e)])
  }

  predicate Served(e: Stored, gen: nat, now: int)
  {
    e.gen == gen && now < e.deadline
  }

  /** A hit moves the key to the end; a stale or expired one is dropped. */
  function AfterGet(s: Store, k: string, gen: nat, now: int): Store
  {
    var e := Find(s, k);
    if e.None? then s else if Served(e.value, gen, now) then Without(s, k) + [(k, e.value)] else Without(s, k)
  }

  function Hit(s: Store, k: string, gen: nat, now: int): Option<Value>
  {
    var e := Find(s, k);
    if e.Some? && Served(e.value, gen, now) then Some(e.value.value) else None
  }

  // ---------------------------------------------------------------- in place

  class Cache {
    var store: Store

    ghost predicate Valid()
      reads this
    {
      Distinct(store) && |store| <= MAX_ENTRIES
    }

    constructor ()
      ensures Valid() && store == []
    {
      store := [];
    }

    method Get(digest: string, gen: nat, now: int) returns (r: Option<Value>)
      requires Valid()
      modifies this
      ensures Valid() && r == Hit(old(store), digest, gen, now) && store == AfterGet(old(store), digest, gen, now)
    {
      WithoutKeeps(store, digest);
      var e := Find(store, digest);
      if e.None? { return None; }
      store := Without(store, digest);
      if !Served(e.value, gen, now) { return None; }
      store := store + [(digest, e.value)];
      return Some(e.value.value);
    }

    method Set(digest: string, value: Value, gen: nat, deadline: int)
      requires Valid()
      modifies this
      ensures Valid() && store == AfterSet(old(store), digest, Stored(value, gen, deadline))
    {
      WithoutKeeps(store, digest);
      store := Without(store, digest) + [(digest, Stored(value, gen, deadline))];
      ghost var all := store;
      while |store| > MAX_ENTRIES
        invariant |store| <= |all| && store == all[|all| - |store|..] && (|all| > MAX_ENTRIES ==> |store| >= MAX_ENTRIES)
        invariant |all| <= MAX_ENTRIES ==> store == all
      {
        store := store[1..];
      }
    }
  }

  lemma {:induction false} WithoutKeeps(s: Store, k: string)
    requires Distinct(s)
    ensures var t := Without(s, k);
            Distinct(t) && |t| == (if Find(s, k).Some? then |s| - 1 else |s|) && (forall i :: 0 <= i < |t| ==> t[i] in s && t[i].0 != k)
  {
    if s != [] {
      WithoutKeeps(s[1..], k);
      if s[0].0 == k { NotThere(s[1..], k); }
    }
  }

  lemma {:induction false} NotThere(s: Store, k: string)
    ensures Find(s, k).None? <==> forall i :: 0 <= i < |s| ==> s[i].0 != k
    ensures Find(s, k).None? ==> Without(s, k) == s
  {
    if s != [] { NotThere(s[1..], k); }
  }

  // ---------------------------------------------------------------- runs of calls

  datatype Op = Put(key: string, stored: Stored) | Ask(key: string, gen: nat, now: int)

  function Apply(s: Store, op: Op): Store
  {
    match op
    case Put(k, e) => AfterSet(s, k, e)
    case Ask(k, gen, now) => AfterGet(s, k, gen, now)
  }

  function Run(ops: seq<Op>, s: Store): Store
  {
    if ops == [] then s else Apply(Run(ops[..|ops| - 1], s), ops[|ops| - 1])
  }

  /** What was stored under the key last. */
  function LastPut(ops: seq<Op>, k: string): Option<Stored>
  {
    if ops == [] then None
    else
      var op := ops[|ops| - 1];
      if op.Put? && op.key == k then Some(op.stored) else LastPut(ops[..|ops| - 1], k)
  }

  lemma {:induction false} FindWithout(s: Store, k: string, j: string)
    ensures Find(Without(s, k), j) == if j == k then None else Find(s, j)
  {
    if s != [] { FindWithout(s[1..], k, j); }
  }

  lemma {:induction false} FindConcat(s: Store, t: Store, j: string)
    ensures Find(s + t, j) == if Find(s, j).Some? then Find(s, j) else Find(t, j)
  {
    if s == [] {
      assert s + t == t;
    } else {
      FindConcat(s[1..], t, j);
      assert (s + t)[1..] == s[1..] + t;
    }
  }

  /** What is left after dropping the oldest was there before, under the same key. */
  lemma FindNewest(s: Store, j: string)
    requires Distinct(s)
    ensures Find(Newest(s), j).Some? ==> Find(s, j) == Find(Newest(s), j)
  {
    if |s| > MAX_ENTRIES {
      var n := |s| - MAX_ENTRIES;
      assert s == s[..n] + s[n..];
      FindConcat(s[..n], s[n..], j);
      NotThere(s[..n], j);
      NotThere(s[n..], j);
    }
  }

  lemma SetKeeps(s: Store, k: string, e: Stored)
    requires Distinct(s)
    ensures Distinct(Without(s, k) + [(k, e)]) && Distinct(AfterSet(s, k, e)) && |AfterSet(s, k, e)| <= MAX_ENTRIES
  {
    WithoutKeeps(s, k);
  }

  lemma ApplyKeeps(s: Store, op: Op)
    requires Distinct(s) && |s| <= MAX_ENTRIES
    ensures Distinct(Apply(s, op)) && |Apply(s, op)| <= MAX_ENTRIES
  {
    WithoutKeeps(s, op.key);
    if op.Put? { SetKeeps(s, op.key, op.stored); }
  }

  lemma ApplyFinds(s: Store, op: Op, j: string)
    requires Distinct(s) && Find(Apply(s, op), j).Some?
    ensures Find(Apply(s, op), j) == if op.Put? && op.key == j then Some(op.stored) else Find(s, j)
  {
    FindWithout(s, op.key, j);
    match op
    case Put(k, e) =>
      SetKeeps(s, k, e);
      FindNewest(Without(s, k) + [(k, e)], j);
      FindConcat(Without(s, k), [(k, e)], j);
    case Ask(k, gen, now) =>
      var e := Find(s, k);
      if e.Some? { FindConcat(Without(s, k), [(k, e.value)], j); }
  }

  lemma {:induction false} RunKeeps(ops: seq<Op>, s: Store)
    requires Distinct(s) && |s| <= MAX_ENTRIES
    ensures Distinct(Run(ops, s)) && |Run(ops, s)| <= MAX_ENTRIES
  {
    if ops != [] {
      RunKeeps(ops[..|ops| - 1], s);
      ApplyKeeps(Run(ops[..|ops| - 1], s), ops[|ops| - 1]);
    }
  }

  lemma {:induction false} FoundIsLastPut(ops: seq<Op>, k: string)
    ensures Find(Run(ops, []), k).Some? ==> LastPut(ops, k) == Find(Run(ops, []), k)
  {
    if ops != [] {
      var before := ops[..|ops| - 1];
      FoundIsLastPut(before, k);
      RunKeeps(before, []);
      if Find(Run(ops, []), k).Some? { ApplyFinds(Run(before, []), ops[|ops| - 1], k); }
    }
  }

  /**
    * After any calls, a hit gives the very verdict stored last under that key, stored under the generation asked for
    * and before its deadline: once a generation has moved on, nothing stored before it is ever served under the new one.
    */
  lemma ServedIsLastPut(ops: seq<Op>, k: string, gen: nat, now: int)
    ensures var r := Hit(Run(ops, []), k, gen, now);
            r.Some? ==> var e := LastPut(ops, k); e.Some? && r.value == e.value.value && e.value.gen == gen && now < e.value.deadline
  {
    FoundIsLastPut(ops, k);
  }

  // ---------------------------------------------------------------- the least recently used goes

  predicate KeysIn(s: Store, t: set<string>)
  {
    forall i :: 0 <= i < |s| ==> s[i].0 in t
  }

  /** The key is there with that verdict, and every key after it is one of these. */
  ghost predicate Behind(s: Store, k: string, e: Stored, t: set<string>)
  {
    exists a: Store, b: Store :: s == a + [(k, e)] + b && KeysIn(b, t)
  }

  lemma {:induction false} WithoutConcat(s: Store, t: Store, k: string)
    ensures Without(s + t, k) == Without(s, k) + Without(t, k)
  {
    if s == [] {
      assert s + t == t;
    } else {
      var rest := Without(s[1..], k);
      assert (s + t)[1..] == s[1..] + t;
      assert Without(s + t, k) == if s[0].0 == k then Without(s[1..] + t, k) else [s[0]] + Without(s[1..] + t, k);
      assert Without(s, k) == if s[0].0 == k then rest else [s[0]] + rest;
      hide Without;
      WithoutConcat(s[1..], t, k);
      assert [s[0]] + (rest + Without(t, k)) == [s[0]] + rest + Without(t, k);
    }
  }

  lemma {:induction false} WithoutIn(s: Store, k: string, t: set<string>)
    requires KeysIn(s, t)
    ensures KeysIn(Without(s, k), t)
  {
    if s != [] { WithoutIn(s[1..], k, t); }
  }

  lemma {:induction false} KeysBounded(s: Store, t: set<string>)
    requires Distinct(s) && KeysIn(s, t)
    ensures |s| <= |t|
  {
    if s != [] { KeysBounded(s[1..], t - {s[0].0}); }
  }

  lemma NewestKeeps(a: Store, k: string, e: Stored, b: Store, t: set<string>)
    requires KeysIn(b, t) && Distinct(b) && |t| < MAX_ENTRIES
    ensures Behind(Newest(a + [(k, e)] + b), k, e, t)
  {
    KeysBounded(b, t);
    var s := a + [(k, e)] + b;
    if |s| > MAX_ENTRIES {
      var n := |s| - MAX_ENTRIES;
      assert Newest(s) == a[n..] + [(k, e)] + b;
    } else {
      assert Newest(s) == a + [(k, e)] + b;
    }
  }

  lemma IsBehind(s: Store, a: Store, k: string, e: Stored, b: Store, t: set<string>)
    requires s == a + [(k, e)] + b && KeysIn(b, t)
    ensures Behind(s, k, e, t)
  {
  }

  lemma Parts(s: Store, a: Store, k: string, e: Stored, b: Store)
    requires s == a + [(k, e)] + b && Distinct(s)
    ensures Distinct(a) && Distinct(b) && forall i :: 0 <= i < |a| ==> a[i].0 != k
  {
    assert forall i :: 0 <= i < |a| ==> s[i] == a[i];
    assert forall i :: 0 <= i < |b| ==> s[|a| + 1 + i] == b[i];
    assert s[|a|].0 == k;
  }

  lemma TouchKeeps(s: Store, op: Op, k: string, e: Stored, t: set<string>)
    requires Distinct(s) && Behind(s, k, e, t) && op.key != k && op.key in t && |t| < MAX_ENTRIES
    ensures Behind(Apply(s, op), k, e, t)
  {
    var a, b :| s == a + [(k, e)] + b && KeysIn(b, t);
    Parts(s, a, k, e, b);
    var j := op.key;
    WithoutConcat(a + [(k, e)], b, j);
    WithoutConcat(a, [(k, e)], j);
    assert Without([(k, e)], j) == [(k, e)];
    WithoutIn(b, j, t);
    WithoutKeeps(b, j);
    var x, y := Without(a, j), Without(b, j);
    assert Without(s, j) == x + [(k, e)] + y;
    match op
    case Put(_, f) =>
      assert Without(s, j) + [(j, f)] == x + [(k, e)] + (y + [(j, f)]);
      NewestKeeps(x, k, e, y + [(j, f)], t);
    case Ask(_, gen, now) =>
      var f := Find(s, j);
      if f.Some? && Served(f.value, gen, now) {
        assert Without(s, j) + [(j, f.value)] == x + [(k, e)] + (y + [(j, f.value)]);
        IsBehind(Apply(s, op), x, k, e, y + [(j, f.value)], t);
      } else if f.Some? {
        IsBehind(Apply(s, op), x, k, e, y, t);
      }
  }

  predicate Touching(ops: seq<Op>, k: string, t: set<string>)
  {
    forall i :: 0 <= i < |ops| ==> ops[i].key in t && ops[i].key != k
  }

  lemma {:induction false} StaysBehind(ops: seq<Op>, s: Store, k: string, e: Stored, t: set<string>)
    requires Distinct(s) && |s| <= MAX_ENTRIES && Behind(s, k, e, t) && Touching(ops, k, t) && |t| < MAX_ENTRIES
    ensures Behind(Run(ops, s), k, e, t)
  {
    if ops != [] {
      var before := ops[..|ops| - 1];
      StaysBehind(before, s, k, e, t);
      RunKeeps(before, s);
      TouchKeeps(Run(before, s), ops[|ops| - 1], k, e, t);
    }
  }

  /** A stored verdict outlives any calls that touch fewer other keys than the cache may hold. */
  lemma RecentSurvives(s: Store, k: string, e: Stored, ops: seq<Op>, t: set<string>)
    requires Distinct(s) && |s| <= MAX_ENTRIES && Touching(ops, k, t) && |t| < MAX_ENTRIES
    ensures Find(Run(ops, AfterSet(s, k, e)), k) == Some(e)
  {
    SetKeeps(s, k, e);
    assert Without(s, k) + [(k, e)] == Without(s, k) + [(k, e)] + [];
    NewestKeeps(Without(s, k), k, e, [], t);
    StaysBehind(ops, AfterSet(s, k, e), k, e, t);
    RunKeeps(ops, AfterSet(s, k, e));
    BehindIsFound(Run(ops, AfterSet(s, k, e)), k, e, t);
  }

  /**
    * The verdict stored last under a key is served, over any calls on fewer than a thousand other keys, exactly under the
    * generation it was stored under and before its deadline; and no calls ever leave more than a thousand verdicts.
    */
  lemma RecentServed(before: seq<Op>, k: string, e: Stored, ops: seq<Op>, t: set<string>, gen: nat, now: int)
    requires Touching(ops, k, t) && |t| < 1000
    ensures var s := Run(ops, AfterSet(Run(before, []), k, e));
            Hit(s, k, gen, now) == (if e.gen == gen && now < e.deadline then Some(e.value) else None) && |s| <= 1000
  {
    RunKeeps(before, []);
    RecentSurvives(Run(before, []), k, e, ops, t);
    SetKeeps(Run(before, []), k, e);
    RunKeeps(ops, AfterSet(Run(before, []), k, e));
  }

  lemma BehindIsFound(s: Store, k: string, e: Stored, t: set<string>)
    requires Distinct(s) && Behind(s, k, e, t)
    ensures Find(s, k) == Some(e)
  {
    var a, b :| s == a + [(k, e)] + b && KeysIn(b, t);
    Parts(s, a, k, e, b);
    FindConcat(a + [(k, e)], b, k);
    FindConcat(a, [(k, e)], k);
    NotThere(a, k);
  }

  /** Storing one key drops at most one other: the oldest, and only when the cache is full without it. */
  lemma OnlyOldestGoes(s: Store, k: string, e: Stored)
    requires Distinct(s) && |s| <= MAX_ENTRIES
    ensures var kept := Without(s, k);
            AfterSet(s, k, e) == if |kept| == MAX_ENTRIES then kept[1..] + [(k, e)] else kept + [(k, e)]
  {
    WithoutKeeps(s, k);
  }
}
