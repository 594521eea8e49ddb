/** The failed-auth throttle. */
module Throttle {
  // A bounded table of token buckets in three key spaces. An attempt is reserved before any hashing and refunded
  // when its compare succeeds.

  type Str = string

  const BURST: nat := 5
  const REFILL_MS: nat := 2_000
  const MAX_KEYS: nat := 10_000
  const SCAN_BURST: nat := 3
  const SCAN_REFILL_MS: nat := 5_000

  // ---------------------------------------------------------------- the three key spaces

  /** Whose bucket: one name from one source, one source's fallback scans, or one source's refused registrations. */
  datatype Key = NameKey(source: Str, name: Str) | ScanKey(source: Str) | MintKey(source: Str)

  const NUL := '\U{0}'
  const SOH := '\U{1}'

  function KeyText(k: Key): Str
  {
    match k
    case NameKey(source, name) => source + [NUL] + name
    case ScanKey(source) => source + [SOH] + "scan"
    case MintKey(source) => source + [SOH] + "mint"
  }

  predicate Plain(s: Str)
  {
    NUL !in s && SOH !in s
  }

  function Rest(k: Key): Str
  {
    match k
    case NameKey(_, name) => [NUL] + name
    case ScanKey(_) => [SOH] + "scan"
    case MintKey(_) => [SOH] + "mint"
  }

  function FirstControl(t: Str): nat
  {
    if t == [] || t[0] in {NUL, SOH} then 0 else 1 + FirstControl(t[1..])
  }

  lemma {:induction false} SourceEnds(a: Str, x: Str)
    requires Plain(a) && x != [] && x[0] in {NUL, SOH}
    ensures FirstControl(a + x) == |a|
  {
    if a == [] {
      assert a + x == x;
    } else {
      assert a[0] in a && (a + x)[1..] == a[1..] + x;
      SourceEnds(a[1..], x);
    }
  }

  /** The first control character ends the source: the same text has the same source. */
  lemma SameSource(a: Str, x: Str, b: Str, y: Str)
    requires Plain(a) && Plain(b) && a + x == b + y
    requires x != [] && y != [] && x[0] in {NUL, SOH} && y[0] in {NUL, SOH}
    ensures a == b && x == y
  {
    SourceEnds(a, x);
    SourceEnds(b, y);
    assert a == (a + x)[..|a|] && b == (b + y)[..|b|] && x == (a + x)[|a|..] && y == (b + y)[|b|..];
  }

  /** The key spaces never meet: with no control character in a source, two keys with one text are one key. */
  lemma KeysApart(j: Key, k: Key)
    requires Plain(j.source) && Plain(k.source) && KeyText(j) == KeyText(k)
    ensures j == k
  {
    assert KeyText(j) == j.source + Rest(j) && KeyText(k) == k.source + Rest(k);
    SameSource(j.source, Rest(j), k.source, Rest(k));
    RestTells(j);
    RestTells(k);
  }

  /** What follows the source says which key it is. */
  lemma RestTells(k: Key)
    ensures (Rest(k)[0] == NUL <==> k.NameKey?) && (k.NameKey? ==> k.name == Rest(k)[1..])
    ensures k.ScanKey? ==> Rest(k)[1] == 's'
    ensures k.MintKey? ==> Rest(k)[1] == 'm'
  {
  }

  function BurstOf(k: Key): nat
  {
    if k.ScanKey? then SCAN_BURST else BURST
  }

  function RefillOf(k: Key): nat
  {
    if k.ScanKey? then SCAN_REFILL_MS else REFILL_MS
  }

  // ---------------------------------------------------------------- one bucket

  datatype Bucket = Bucket(tokens: real, updated: int)

  datatype Act = Take | Refund

  function MinReal(a: real, b: real): real
  {
    if a <= b then a else b
  }

  /** The bucket as `now` finds it: refilled for the time since, never above its burst. */
  function Refilled(b: Bucket, k: Key, now: int): Bucket
  {
    Bucket(MinReal(BurstOf(k) as real, b.tokens + (now - b.updated) as real / RefillOf(k) as real), now)
  }

  function FreshBucket(k: Key, now: int): Bucket
  {
    Bucket(BurstOf(k) as real, now)
  }

  /** A take needs a whole token; a refund never overfills. */
  function Acted(b: Bucket, k: Key, act: Act): (Bucket, bool)
  {
    match act
    case Take => if b.tokens < 1.0 then (b, false) else (b.(tokens := b.tokens - 1.0), true)
    case Refund => (b.(tokens := MinReal(BurstOf(k) as real, b.tokens + 1.0)), true)
  }

  // ---------------------------------------------------------------- the table

  /** The buckets, and their keys from the least recently used on. */
  datatype Table = Table(order: seq<Str>, buckets: map<Str, Bucket>)

  const NO_BUCKETS := Table([], map[])

  predicate Distinct<T(==)>(s: seq<T>)
  {
    forall i, j :: 0 <= i < j < |s| ==> s[i] != s[j]
  }

  ghost predicate Valid(t: Table)
  {
    Distinct(t.order) && |t.order| <= MAX_KEYS && forall x :: x in t.order <==> x in t.buckets
  }

  function Without(order: seq<Str>, x: Str): seq<Str>
  {
    if order == [] then []
    else if order[|order| - 1] == x then Without(order[..|order| - 1], x)
    else Without(order[..|order| - 1], x) + [order[|order| - 1]]
  }

  /** `bucketAt`: a known key is refilled and becomes the most recent; a new one may evict the oldest. */
  function BucketAt(t: Table, k: Key, now: int): Table
  {
    var x := KeyText(k);
    if x in t.buckets then Table(Without(t.order, x) + [x], t.buckets[x := Refilled(t.buckets[x], k, now)])
    else
      var rest := if |t.order| >= MAX_KEYS then Table(t.order[1..], t.buckets - {t.order[0]}) else t;
      Table(rest.order + [x], rest.buckets[x := FreshBucket(k, now)])
  }

  function Do(t: Table, k: Key, act: Act, now: int): (Table, bool)
  {
    var u, x := BucketAt(t, k, now), KeyText(k);
    var r := Acted(u.buckets[x], k, act);
    (u.(buckets := u.buckets[x := r.0]), r.1)
  }

  lemma {:induction false} WithoutMembers(order: seq<Str>, x: Str)
    ensures forall y :: y in Without(order, x) <==> y in order && y != x
  {
    if order != [] {
      WithoutMembers(order[..|order| - 1], x);
      assert order == order[..|order| - 1] + [order[|order| - 1]];
    }
  }

  lemma DistinctPart(order: seq<Str>)
    requires Distinct(order) && order != []
    ensures Distinct(order[..|order| - 1]) && order[|order| - 1] !in order[..|order| - 1]
  {
    var p := order[..|order| - 1];
    forall i | 0 <= i < |p| ensures p[i] != order[|order| - 1] { assert order[i] != order[|order| - 1]; }
  }

  lemma DistinctMore(p: seq<Str>, x: Str)
    requires Distinct(p) && x !in p
    ensures Distinct(p + [x])
  {
  }

  lemma {:induction false} WithoutDistinct(order: seq<Str>, x: Str)
    requires Distinct(order)
    ensures Distinct(Without(order, x))
  {
    hide Distinct;
    if order != [] {
      var p, last := order[..|order| - 1], order[|order| - 1];
      DistinctPart(order);
      WithoutDistinct(p, x);
      WithoutMembers(p, x);
      if last != x { DistinctMore(Without(p, x), last); }
    } else {
      assert Without(order, x) == order;
    }
  }

  lemma {:induction false} WithoutLength(order: seq<Str>, x: Str)
    requires Distinct(order)
    ensures |Without(order, x)| == |order| - (if x in order then 1 else 0)
  {
    hide Distinct;
    if order != [] {
      var p, last := order[..|order| - 1], order[|order| - 1];
      DistinctPart(order);
      WithoutLength(p, x);
      assert order == p + [last];
    }
  }

  lemma DoValid(t: Table, k: Key, act: Act, now: int)
    requires Valid(t)
    ensures Valid(Do(t, k, act, now).0)
  {
    var x := KeyText(k);
    WithoutMembers(t.order, x);
    WithoutDistinct(t.order, x);
    WithoutLength(t.order, x);
    if x !in t.buckets && |t.order| >= MAX_KEYS {
      assert forall y :: y in t.order[1..] <==> y in t.order && y != t.order[0];
    }
  }

  /** An operation leaves every other key's bucket alone, unless it evicts the least recently used one. */
  lemma OthersUntouched(t: Table, k: Key, act: Act, now: int, x: Str)
    requires Valid(t) && x in t.buckets && x != KeyText(k)
    ensures var u := Do(t, k, act, now).0;
            if x in u.buckets then u.buckets[x] == t.buckets[x]
            else |t.order| == MAX_KEYS && x == t.order[0] && KeyText(k) !in t.buckets
  {
  }

  // ---------------------------------------------------------------- runs

  datatype Op = Op(key: Key, act: Act, now: int)

  function After(t: Table, ops: seq<Op>): Table
  {
    if ops == [] then t
    else
      var o := ops[|ops| - 1];
      Do(After(t, ops[..|ops| - 1]), o.key, o.act, o.now).0
  }

  /** How many of the takes for `k` were granted. */
  function Granted(t: Table, ops: seq<Op>, k: Key): nat
  {
    if ops == [] then 0
    else
      var p, o := ops[..|ops| - 1], ops[|ops| - 1];
      Granted(t, p, k) + if o.key == k && o.act == Take && Do(After(t, p), k, Take, o.now).1 then 1 else 0
  }

  function Refunds(ops: seq<Op>, k: Key): nat
  {
    if ops == [] then 0
    else
      var o := ops[|ops| - 1];
      Refunds(ops[..|ops| - 1], k) + if o.key == k && o.act == Refund then 1 else 0
  }

  /** Times never go back, and no source holds a control character. */
  ghost predicate Orderly(ops: seq<Op>, k: Key, from: int)
  {
    Plain(k.source) && (forall o :: o in ops ==> Plain(o.key.source)) && (forall j :: 0 <= j < |ops| ==> from <= ops[j].now) &&
    forall i, j :: 0 <= i < j < |ops| ==> ops[i].now <= ops[j].now
  }

  /** The bucket of `k` is never evicted. */
  ghost predicate Stays(t: Table, ops: seq<Op>, k: Key)
  {
    forall m :: 0 <= m <= |ops| ==> KeyText(k) in After(t, ops[..m]).buckets
  }

  lemma {:induction false} AfterValid(t: Table, ops: seq<Op>)
    requires Valid(t)
    ensures Valid(After(t, ops))
  {
    if ops != [] {
      AfterValid(t, ops[..|ops| - 1]);
      var o := ops[|ops| - 1];
      DoValid(After(t, ops[..|ops| - 1]), o.key, o.act, o.now);
    }
  }

  predicate Within(b: Bucket, k: Key)
  {
    0.0 <= b.tokens <= BurstOf(k) as real
  }

  function Elapsed(k: Key, from: int, to: int): real
  {
    (to - from) as real / RefillOf(k) as real
  }

  lemma ElapsedAdds(k: Key, a: int, b: int, c: int)
    ensures Elapsed(k, a, b) + Elapsed(k, b, c) == Elapsed(k, a, c)
    ensures a <= b ==> Elapsed(k, a, b) >= 0.0
  {
  }

  /** One operation on the bucket's own key: what is granted is paid for by tokens and time. */
  lemma OwnStep(t: Table, k: Key, act: Act, now: int)
    requires KeyText(k) in t.buckets && Within(t.buckets[KeyText(k)], k) && t.buckets[KeyText(k)].updated <= now
    ensures var x, b := KeyText(k), t.buckets[KeyText(k)];
            var r := Do(t, k, act, now);
            var c := r.0.buckets[x];
            Within(c, k) && c.updated == now &&
            c.tokens + (if act == Take && r.1 then 1.0 else 0.0) - (if act == Refund then 1.0 else 0.0) <= b.tokens + Elapsed(k, b.updated, now)
  {
    ElapsedAdds(k, t.buckets[KeyText(k)].updated, now, now);
  }

  /** Over a run: tokens left, plus takes granted, less refunds, are at most the tokens at first and the time since. */
  lemma {:induction false} Paid(t: Table, ops: seq<Op>, k: Key)
    requires Valid(t) && KeyText(k) in t.buckets && Within(t.buckets[KeyText(k)], k)
    requires Orderly(ops, k, t.buckets[KeyText(k)].updated) && Stays(t, ops, k)
    ensures KeyText(k) in After(t, ops).buckets
    ensures var b, c := t.buckets[KeyText(k)], After(t, ops).buckets[KeyText(k)];
            Within(c, k) && b.updated <= c.updated && (ops != [] ==> c.updated <= ops[|ops| - 1].now) &&
            c.tokens + Granted(t, ops, k) as real - Refunds(ops, k) as real <= b.tokens + Elapsed(k, b.updated, c.updated)
  {
    if ops != [] {
      var p, o := ops[..|ops| - 1], ops[|ops| - 1];
      StaysPrefix(t, ops, k);
      assert Orderly(p, k, t.buckets[KeyText(k)].updated) by { OrderlyPrefix(ops, k, t.buckets[KeyText(k)].updated); }
      Paid(t, p, k);
      PaidNext(t, p, o, k);
      assert ops == p + [o];
    }
  }

  lemma OrderlyPrefix(ops: seq<Op>, k: Key, from: int)
    requires Orderly(ops, k, from) && ops != []
    ensures Orderly(ops[..|ops| - 1], k, from)
  {
  }

  lemma StaysPrefix(t: Table, ops: seq<Op>, k: Key)
    requires Stays(t, ops, k) && ops != []
    ensures Stays(t, ops[..|ops| - 1], k) && KeyText(k) in After(t, ops).buckets
  {
    var p := ops[..|ops| - 1];
    assert ops[..|ops|] == ops;
    forall m | 0 <= m <= |p| ensures KeyText(k) in After(t, p[..m]).buckets { assert p[..m] == ops[..m]; }
  }

  lemma PaidNext(t: Table, p: seq<Op>, o: Op, k: Key)
    requires Valid(t) && KeyText(k) in t.buckets && KeyText(k) in After(t, p).buckets && KeyText(k) in After(t, p + [o]).buckets
    requires Plain(k.source) && Plain(o.key.source)
    requires var b, c := t.buckets[KeyText(k)], After(t, p).buckets[KeyText(k)];
             Within(c, k) && b.updated <= c.updated <= o.now &&
             c.tokens + Granted(t, p, k) as real - Refunds(p, k) as real <= b.tokens + Elapsed(k, b.updated, c.updated)
    ensures var b, d := t.buckets[KeyText(k)], After(t, p + [o]).buckets[KeyText(k)];
            Within(d, k) && b.updated <= d.updated <= o.now &&
            d.tokens + Granted(t, p + [o], k) as real - Refunds(p + [o], k) as real <= b.tokens + Elapsed(k, b.updated, d.updated)
  {
    var u := After(t, p);
    AfterValid(t, p);
    assert (p + [o])[..|p|] == p;
    if o.key == k {
      OwnStep(u, k, o.act, o.now);
      ElapsedAdds(k, t.buckets[KeyText(k)].updated, u.buckets[KeyText(k)].updated, o.now);
      hide Do, Within, Elapsed, Valid;
    } else {
      if KeyText(o.key) == KeyText(k) { KeysApart(o.key, k); }
      OthersUntouched(u, o.key, o.act, o.now, KeyText(k));
    }
  }

  // ---------------------------------------------------------------- the bound

  /** The table once a first operation has given `k` its bucket. */
  lemma FirstOp(t: Table, k: Key, act: Act, now: int)
    requires Valid(t) && KeyText(k) !in t.buckets
    ensures var r := Do(t, k, act, now);
            Valid(r.0) && KeyText(k) in r.0.buckets && Within(r.0.buckets[KeyText(k)], k) && r.0.buckets[KeyText(k)].updated == now &&
            r.0.buckets[KeyText(k)].tokens + (if act == Take && r.1 then 1.0 else 0.0) <= BurstOf(k) as real
  {
    DoValid(t, k, act, now);
  }

  /**
    * The throttle's bound. From a bucket's first use on, while it is not evicted and the clock does not go
    * back: its tokens stay in range, and the takes granted less the refunds given are at most the burst plus
    * one for every refill period since, whatever any other key does.
    */
  lemma ThrottleBound(t: Table, first: Op, ops: seq<Op>, k: Key)
    requires Valid(t) && first.key == k && KeyText(k) !in t.buckets
    requires var u := Do(t, k, first.act, first.now).0; Orderly(ops, k, first.now) && Stays(u, ops, k)
    ensures var r := Do(t, k, first.act, first.now);
            var granted := (if first.act == Take && r.1 then 1 else 0) + Granted(r.0, ops, k);
            var last := if ops == [] then first.now else ops[|ops| - 1].now;
            KeyText(k) in After(r.0, ops).buckets && Within(After(r.0, ops).buckets[KeyText(k)], k) &&
            granted as real - Refunds(ops, k) as real <= BurstOf(k) as real + Elapsed(k, first.now, last)
  {
    hide *;
    FirstOp(t, k, first.act, first.now);
    var r := Do(t, k, first.act, first.now);
    var last := if ops == [] then first.now else ops[|ops| - 1].now;
    OrderlyLast(ops, k, first.now);
    Paid(r.0, ops, k);
    var b, c := r.0.buckets[KeyText(k)], After(r.0, ops).buckets[KeyText(k)];
    ElapsedAdds(k, first.now, c.updated, last);
    ElapsedAdds(k, c.updated, last, last);
    NotNegative(c, k);
    AfterNothing(r.0, ops);
  }

  lemma NotNegative(b: Bucket, k: Key)
    requires Within(b, k)
    ensures b.tokens >= 0.0
  {
  }

  lemma AfterNothing(t: Table, ops: seq<Op>)
    ensures ops == [] ==> After(t, ops) == t
  {
  }

  lemma OrderlyLast(ops: seq<Op>, k: Key, from: int)
    requires Orderly(ops, k, from)
    ensures ops != [] ==> from <= ops[|ops| - 1].now
  {
  }

  /** The other way: after `m` idle refill periods, a bucket grants at least `m` takes at once, up to its burst. */
  lemma {:induction false} IdleGrants(b: Bucket, k: Key, now: int, m: nat)
    requires Within(b, k) && now - b.updated >= m * RefillOf(k) && m <= BurstOf(k)
    ensures Refilled(b, k, now).tokens >= m as real
  {
    var r := RefillOf(k) as real;
    assert (now - b.updated) as real >= m as real * r;
    assert (now - b.updated) as real / r >= m as real;
  }

  // ---------------------------------------------------------------- exact laws

  lemma {:induction false} WithoutNone(order: seq<Str>, x: Str)
    requires x !in order
    ensures Without(order, x) == order
  {
    if order != [] {
      assert order == order[..|order| - 1] + [order[|order| - 1]];
      WithoutNone(order[..|order| - 1], x);
    }
  }

  /** A key's bucket after any operation on it: at the end of the order, in range. */
  lemma Touched(t: Table, k: Key, now: int)
    requires Valid(t)
    ensures var u, x := BucketAt(t, k, now), KeyText(k);
            x in u.buckets && u.order != [] && u.order[|u.order| - 1] == x && x !in u.order[..|u.order| - 1] &&
            u.buckets[x].updated == now && u.buckets[x].tokens <= BurstOf(k) as real
  {
    var x := KeyText(k);
    WithoutMembers(t.order, x);
    assert x !in t.buckets ==> x !in t.order;
  }

  /** Touching again at the same instant changes nothing. */
  lemma TouchedAgain(t: Table, k: Key, now: int)
    requires var x := KeyText(k);
             x in t.buckets && t.order != [] && t.order[|t.order| - 1] == x && x !in t.order[..|t.order| - 1] &&
             t.buckets[x].updated == now && t.buckets[x].tokens <= BurstOf(k) as real
    ensures BucketAt(t, k, now) == t
  {
    var x := KeyText(k);
    WithoutNone(t.order[..|t.order| - 1], x);
    assert t.order == t.order[..|t.order| - 1] + [x];
    assert Refilled(t.buckets[x], k, now) == t.buckets[x];
    assert t.buckets[x := t.buckets[x]] == t.buckets;
  }

  /** Given back at the same instant, a granted attempt costs nothing: the table is as the touch alone leaves it. */
  lemma GivenBack(t: Table, k: Key, now: int)
    requires Valid(t) && Do(t, k, Take, now).1
    ensures Do(Do(t, k, Take, now).0, k, Refund, now).0 == BucketAt(t, k, now)
  {
    Touched(t, k, now);
    var u, v, x := BucketAt(t, k, now), Do(t, k, Take, now).0, KeyText(k);
    TouchedAgain(v, k, now);
    assert v.buckets[x := u.buckets[x]] == u.buckets;
    hide Valid, BucketAt, KeyText, BurstOf;
  }

  /** Attempts each given back at once. */
  function Pairs(k: Key, times: seq<int>): seq<Op>
  {
    if times == [] then []
    else
      var now := times[|times| - 1];
      Pairs(k, times[..|times| - 1]) + [Op(k, Take, now), Op(k, Refund, now)]
  }

  lemma AfterMore(t: Table, p: seq<Op>, o: Op)
    ensures After(t, p + [o]) == Do(After(t, p), o.key, o.act, o.now).0
  {
    assert (p + [o])[..|p|] == p;
  }

  /** A key with a whole token, or with no bucket yet. */
  predicate CanTake(t: Table, k: Key, now: int)
  {
    KeyText(k) !in t.buckets || (t.buckets[KeyText(k)].tokens >= 1.0 && t.buckets[KeyText(k)].updated <= now)
  }

  lemma TakesOne(t: Table, k: Key, now: int)
    requires Valid(t) && CanTake(t, k, now)
    ensures Do(t, k, Take, now).1
    ensures var u := BucketAt(t, k, now); KeyText(k) in u.buckets && u.buckets[KeyText(k)].tokens >= 1.0 && u.buckets[KeyText(k)].updated == now
  {
    if KeyText(k) in t.buckets { ElapsedAdds(k, t.buckets[KeyText(k)].updated, now, now); }
  }

  lemma PairAfter(t: Table, k: Key, p: seq<int>, now: int)
    requires Valid(t) && Do(After(t, Pairs(k, p)), k, Take, now).1
    ensures After(t, Pairs(k, p + [now])) == BucketAt(After(t, Pairs(k, p)), k, now)
  {
    AfterValid(t, Pairs(k, p));
    assert (p + [now])[..|p|] == p;
    var ops := Pairs(k, p);
    assert Pairs(k, p + [now]) == ops + [Op(k, Take, now)] + [Op(k, Refund, now)];
    AfterMore(t, ops, Op(k, Take, now));
    AfterMore(t, ops + [Op(k, Take, now)], Op(k, Refund, now));
    GivenBack(After(t, ops), k, now);
  }

  /** However many attempts are made, one whose compares all succeed is never refused. */
  lemma {:induction false} PairsGranted(t: Table, k: Key, times: seq<int>, now: int)
    requires Valid(t) && (forall i :: 0 <= i < |times| ==> CanTake(t, k, times[i]) && times[i] <= now) && CanTake(t, k, now)
    requires forall i, j :: 0 <= i < j < |times| ==> times[i] <= times[j]
    ensures Do(After(t, Pairs(k, times)), k, Take, now).1
    ensures CanTake(After(t, Pairs(k, times)), k, now)
  {
    AfterValid(t, Pairs(k, times));
    if times != [] {
      var p, last := times[..|times| - 1], times[|times| - 1];
      PairsGranted(t, k, p, last);
      assert times == p + [last];
      AfterValid(t, Pairs(k, p));
      PairAfter(t, k, p, last);
      TakesOne(After(t, Pairs(k, p)), k, last);
    }
    hide Valid, Do, BucketAt;
    TakesOne(After(t, Pairs(k, times)), k, now);
  }

  function Takes(k: Key, now: int, n: nat): seq<Op>
  {
    if n == 0 then [] else Takes(k, now, n - 1) + [Op(k, Take, now)]
  }

  lemma FirstTake(t: Table, k: Key, now: int)
    requires KeyText(k) !in t.buckets
    ensures var r, burst := Do(t, k, Take, now), if k.ScanKey? then 3 else 5;
            r.1 && KeyText(k) in r.0.buckets && r.0.buckets[KeyText(k)] == Bucket((burst - 1) as real, now)
  {
  }

  lemma NextTake(t: Table, k: Key, now: int)
    requires KeyText(k) in t.buckets && t.buckets[KeyText(k)].updated == now && t.buckets[KeyText(k)].tokens <= BurstOf(k) as real
    ensures var r, b := Do(t, k, Take, now), t.buckets[KeyText(k)];
            (r.1 <==> b.tokens >= 1.0) && KeyText(k) in r.0.buckets &&
            r.0.buckets[KeyText(k)] == Bucket(if r.1 then b.tokens - 1.0 else b.tokens, now)
  {
    assert Refilled(t.buckets[KeyText(k)], k, now) == t.buckets[KeyText(k)];
  }

  /** What is left of the burst after `n` takes at one instant. */
  lemma {:induction false} TakesLeave(t: Table, k: Key, now: int, n: nat)
    requires KeyText(k) !in t.buckets && n > 0
    ensures var u, burst := After(t, Takes(k, now, n)), if k.ScanKey? then 3 else 5;
            burst == BurstOf(k) && KeyText(k) in u.buckets && u.buckets[KeyText(k)] == Bucket(if n <= burst then (burst - n) as real else 0.0, now)
  {
    AfterMore(t, Takes(k, now, n - 1), Op(k, Take, now));
    if n == 1 {
      AfterNothing(t, Takes(k, now, 0));
      FirstTake(t, k, now);
    } else {
      TakesLeave(t, k, now, n - 1);
      NextTake(After(t, Takes(k, now, n - 1)), k, now);
    }
    hide Do, KeyText, After;
  }

  /** At one instant a new key is granted its whole burst, five attempts or three scans, and no more. */
  lemma BurstExactly(t: Table, k: Key, now: int, n: nat)
    requires KeyText(k) !in t.buckets
    ensures Do(After(t, Takes(k, now, n)), k, Take, now).1 <==> n < if k.ScanKey? then 3 else 5
  {
    if n == 0 {
      AfterNothing(t, Takes(k, now, 0));
      FirstTake(t, k, now);
    } else {
      TakesLeave(t, k, now, n);
      NextTake(After(t, Takes(k, now, n)), k, now);
    }
    hide Do, KeyText, After, Takes;
  }

  /** A key that was never refilled past its burst is granted an attempt exactly when its tokens and the time since make one: a token for 2 s, 5 s for a scan. */
  lemma TakeExactly(t: Table, k: Key, now: int)
    requires KeyText(k) in t.buckets
    ensures var b := t.buckets[KeyText(k)];
            Do(t, k, Take, now).1 <==> b.tokens + (now - b.updated) as real / (if k.ScanKey? then 5_000.0 else 2_000.0) >= 1.0
  {
  }

  /** Which keys have buckets after an operation: its own too, less the least recently used where a new one finds the table full; its own is the most recent. */
  lemma KeysExactly(t: Table, k: Key, act: Act, now: int, x: Str)
    requires Valid(t)
    ensures var u := Do(t, k, act, now).0;
            (x in u.buckets <==> x == KeyText(k) || (x in t.buckets && !(KeyText(k) !in t.buckets && |t.order| == 10_000 && x == t.order[0]))) &&
            u.order != [] && u.order[|u.order| - 1] == KeyText(k)
  {
  }

  // ---------------------------------------------------------------- the module's own table

  class AuthThrottle {
    var order: seq<Str>
    var buckets: map<Str, Bucket>

    constructor ()
      ensures Model() == NO_BUCKETS
    {
      order, buckets := [], map[];
    }

    function Model(): Table
      reads this
    {
      Table(order, buckets)
    }

    /** Find or make the bucket, refill it, and put it last; the oldest goes when the table is full. */
    method Touch(k: Key, now: int)
      requires Valid(Model())
      modifies this
      ensures Model() == BucketAt(old(Model()), k, now)
    {
      var x := KeyText(k);
      if x !in buckets {
        if |order| >= MAX_KEYS {
          buckets := buckets - {order[0]};
          order := order[1..];
        }
        buckets := buckets[x := FreshBucket(k, now)];
      } else {
        order := Without(order, x);
        buckets := buckets[x := Refilled(buckets[x], k, now)];
      }
      order := order + [x];
    }

    /** Reserve one attempt, or refuse: the check and the reservation are one step. */
    method Reserve(k: Key, now: int) returns (granted: bool)
      requires Valid(Model())
      modifies this
      ensures (Model(), granted) == Do(old(Model()), k, Take, now) && Valid(Model())
    {
      DoValid(Model(), k, Take, now);
      Touch(k, now);
      var x := KeyText(k);
      if buckets[x].tokens < 1.0 {
        assert buckets[x := buckets[x]] == buckets;
        return false;
      }
      buckets := buckets[x := buckets[x].(tokens := buckets[x].tokens - 1.0)];
      return true;
    }

    /** The reserved compare succeeded, or never ran: the attempt comes back. */
    method GiveBack(k: Key, now: int)
      requires Valid(Model())
      modifies this
      ensures Model() == Do(old(Model()), k, Refund, now).0 && Valid(Model())
    {
      DoValid(Model(), k, Refund, now);
      Touch(k, now);
      var x := KeyText(k);
      buckets := buckets[x := buckets[x].(tokens := MinReal(BurstOf(k) as real, buckets[x].tokens + 1.0))];
    }
  }
}
