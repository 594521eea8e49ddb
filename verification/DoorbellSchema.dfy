/**
  * Every record a plan holds passes the writer's closed schema, so the writer never refuses a cycle whose inputs are
  * well formed.
  */
module DoorbellSchema {
  import opened Canon
  import opened DoorbellLog
  import opened DoorbellLedger
  import opened DoorbellPlan
  import opened DoorbellAdmit
  import opened DoorbellJudge
  import opened Wrappers

  /** Well-formed inputs: what the database, the host and the log's own replay hand the planner. */
  ghost predicate InputOk(inp: Input)
  {
    IsoMs(inp.c.at) && inp.c.now <= MAX_MS as real && TunablesOk(inp.c) &&
    (inp.c.operator.Some? ==> AgentName(inp.c.operator.value)) &&
    (forall n :: n in inp.inbox ==> AgentName(n) && ReadOk(inp.inbox[n]) && RingsInHour(inp.c, TimesOf(inp, n)) <= 100_000) &&
    |inp.bindings| <= 1_000_000 && (forall b :: b in inp.bindings ==> BoundedId(b.id)) &&
    (forall j, k :: 0 <= j < k < |inp.bindings| ==> inp.bindings[j].id != inp.bindings[k].id) &&
    (forall n :: n in inp.boardOpen ==> BoardOk(inp.boardOpen[n])) &&
    (forall r :: r in inp.log ==> RecordOk(r))
  }

  /** The ids drawn from position `k` up to `m` are UUIDs. */
  predicate UuidsIn(uid: nat -> Str, k: nat, m: nat)
  {
    forall j: nat :: k <= j < m ==> Uuid(uid(j))
  }

  lemma UuidsPart(uid: nat -> Str, k: nat, m: nat, a: nat, b: nat)
    requires UuidsIn(uid, k, m) && k <= a && b <= m
    ensures UuidsIn(uid, a, b)
  {
  }

  predicate ReadOk(read: PendingRead)
  {
    (read.session.Some? ==> Digest(read.session.value)) && |read.ids| <= 100_000_000 && forall id :: id in read.ids ==> BoundedId(id)
  }

  predicate AllOk(recs: seq<Rec>)
  {
    forall r :: r in recs ==> RecordOk(r)
  }

  lemma AllOkConcat(x: seq<Rec>, y: seq<Rec>)
    requires AllOk(x) && AllOk(y)
    ensures AllOk(x + y)
  {
  }

  predicate Uuids(s: set<Str>)
  {
    forall x :: x in s ==> Uuid(x)
  }

  predicate Bounded(s: set<Str>)
  {
    forall x :: x in s ==> BoundedId(x)
  }

  /** Some stretch of a canonical set of good ids. */
  predicate GoodUuids(s: seq<Str>)
  {
    Ascending(s) && forall k :: 0 <= k < |s| ==> Uuid(s[k])
  }

  predicate GoodIds(s: seq<Str>)
  {
    Ascending(s) && forall k :: 0 <= k < |s| ==> BoundedId(s[k])
  }

  lemma SortedGood(s: set<Str>)
    ensures Uuids(s) ==> GoodUuids(SortedSet(s))
    ensures Bounded(s) ==> GoodIds(SortedSet(s))
  {
    var t := SortedSet(s);
    assert forall k :: 0 <= k < |t| ==> t[k] in t;
  }

  lemma FirstGood(s: seq<Str>, m: nat)
    requires GoodIds(s) && m <= |s|
    ensures GoodIds(s[..m])
  {
  }

  // ---------------------------------------------------------------- what the log hands back

  lemma {:induction false} OpenFromLog(h: seq<Rec>, n: Str)
    ensures forall e :: e in Account(h, n).open ==> Escalation(e.rec) in h
  {
    if h != [] {
      var p, r := h[..|h| - 1], h[|h| - 1];
      OpenFromLog(p, n);
      assert h == p + [r];
      var a := Account(p, n);
      forall e | e in Account(h, n).open ensures Escalation(e.rec) in h
      {
        if r.Escalation? && r.x.agent == n && !r.x.isOpen {
          DropOpenMembers(a.open, r.x.id);
        } else if r.Intent? && r.i.agent == n && r.i.during {
          var k :| 0 <= k < |a.open| && e == Noted(a.open[k], r.i);
          assert a.open[k] in a.open;
        } else {
          assert e in a.open || e.rec == r.x;
        }
      }
    }
  }

  lemma {:induction false} RingsFromLog(h: seq<Rec>, n: Str)
    ensures forall i :: i in Account(h, n).rings ==> Intent(i) in h && i.agent == n
  {
    if h != [] {
      RingsFromLog(h[..|h| - 1], n);
      assert h == h[..|h| - 1] + [h[|h| - 1]];
    }
  }

  /** The account's rings, ids and escalations are all well formed. */
  predicate AcctOk(a: Acct, n: Str)
  {
    (forall i :: i in a.rings ==> IntentOk(i) && i.agent == n) && (forall e :: e in a.open ==> EscOk(e.rec))
  }

  lemma LogAcctOk(inp: Input, n: Str)
    requires InputOk(inp)
    ensures AcctOk(Account(inp.log, n), n)
  {
    OpenFromLog(inp.log, n);
    RingsFromLog(inp.log, n);
    forall i | i in Account(inp.log, n).rings ensures IntentOk(i) { assert RecordOk(Intent(i)); }
    forall e | e in Account(inp.log, n).open ensures EscOk(e.rec) { assert RecordOk(Escalation(e.rec)); }
  }

  /** A ledger whose ids are all well formed. */
  predicate LedgerOk(l: Ledger)
  {
    Bounded(l.rung) && (forall o :: o in l.outstanding ==> Uuid(o.id)) &&
    (l.unresponsive.Some? ==> EscOk(l.unresponsive.value.rec)) && forall x :: x in l.stuck ==> EscOk(x)
  }

  lemma {:induction false} UnresponsiveIn(open: seq<OpenEsc>, session: Str)
    ensures UnresponsiveOf(open, session).Some? ==> UnresponsiveOf(open, session).value in open
  {
    if open != [] { UnresponsiveIn(open[..|open| - 1], session); }
  }

  lemma AcctLedgerOk(a: Acct, n: Str, session: Str, mono: map<Str, int>)
    requires AcctOk(a, n)
    ensures LedgerOk(LedgerOf(a, session, mono))
  {
    var l := LedgerOf(a, session, mono);
    RungIdsMembers(a.rings, session);
    forall id | id in l.rung ensures BoundedId(id)
    {
      var i :| i in a.rings && i.session == session && id in i.ids;
      var k :| 0 <= k < |i.ids| && i.ids[k] == id;
    }
    OfSessionMembers(a.rings, session);
    UnjudgedMembers(OfSession(a.rings, session), a.judged);
    SortRingsMembers(Unjudged(OfSession(a.rings, session), a.judged), mono);
    UnresponsiveIn(a.open, session);
    StuckOfMembers(a.open, session);
  }

  // ---------------------------------------------------------------- effects and closes

  lemma {:induction false} EffectRecsOk(c: Config, n: Str, session: Str, outcome: Outcome, ii: seq<Str>, ll: seq<Str>)
    requires IsoMs(c.at) && AgentName(n) && Digest(session) && GoodUuids(ii) && GoodIds(ll) && outcome != Ineffective
    requires ii != [] || ll != []
    requires outcome == SessionChanged ==> ll == []
    ensures AllOk(EffectRecs(c, n, session, outcome, ii, ll))
    decreases |ii| + |ll|
  {
    hide Digest, AgentName, Uuid, BoundedId, IsoMs;
    if |ii| > MAX_IDS || |ll| > MAX_IDS {
      var p, q := Min(MAX_IDS, |ii|), Min(MAX_IDS, |ll|);
      EffectRecsOk(c, n, session, outcome, ii[p..], ll[q..]);
      assert RecordOk(Effect(EffectRec(c.at, n, session, outcome, ii[..p], ll[..q])));
    } else {
      assert RecordOk(Effect(EffectRec(c.at, n, session, outcome, ii, ll)));
    }
  }

  lemma CloseOk(c: Config, x: EscRec, why: CloseWhy)
    requires IsoMs(c.at) && (c.operator.Some? ==> AgentName(c.operator.value)) && EscOk(x)
    ensures RecordOk(CloseOf(c, x, why))
  {
    hide Digest, AgentName, Uuid, BoundedId, IsoMs;
    assert forall y :: y in Elems(x.ids) <==> y in x.ids;
    AscendingUnique(SortedSet(Elems(x.ids)), x.ids);
  }

  lemma {:induction false} CloseAllOk(c: Config, xs: seq<EscRec>, why: CloseWhy)
    requires IsoMs(c.at) && (c.operator.Some? ==> AgentName(c.operator.value)) && forall x :: x in xs ==> EscOk(x)
    ensures AllOk(CloseAll(c, xs, why))
  {
    hide RecordOk, EscOk, CloseOf;
    if xs != [] {
      CloseAllOk(c, xs[..|xs| - 1], why);
      assert xs[|xs| - 1] in xs;
      CloseOk(c, xs[|xs| - 1], why);
    }
  }

  lemma {:induction false} MootOk(c: Config, n: Str, u: seq<IntentRec>, ss: seq<Str>)
    requires IsoMs(c.at) && AgentName(n) && (forall i :: i in u ==> IntentOk(i)) && forall s :: s in ss ==> HasRingOf(u, s)
    ensures AllOk(MootEffects(c, n, u, ss))
  {
    hide RecordOk, EffectRecs;
    if ss != [] {
      var s := ss[|ss| - 1];
      MootOk(c, n, u, ss[..|ss| - 1]);
      assert s in ss;
      OfSessionMembers(u, s);
      var ids := IdsOfRings(OfSession(u, s));
      assert Uuids(ids);
      SortedGood(ids);
      var i :| i in u && i.session == s;
      assert i in OfSession(u, s) && i.id in SortedSet(ids);
      EffectRecsOk(c, n, s, SessionChanged, SortedSet(ids), []);
    }
  }

  lemma {:induction false} IneffectiveOk(c: Config, n: Str, session: Str, rs: seq<Ring>)
    requires IsoMs(c.at) && AgentName(n) && Digest(session) && forall o :: o in rs ==> Uuid(o.id)
    ensures AllOk(IneffectiveRecs(c, n, session, rs))
  {
    hide Digest, AgentName, Uuid, IsoMs;
    if rs != [] {
      IneffectiveOk(c, n, session, rs[..|rs| - 1]);
      assert rs[|rs| - 1] in rs;
    }
  }

  predicate StampOk(c: Config, n: Str, session: Str)
  {
    IsoMs(c.at) && (c.operator.Some? ==> AgentName(c.operator.value)) && AgentName(n) && Digest(session)
  }

  lemma ProgressOk(c: Config, n: Str, session: Str, l: Ledger, p: set<Str>)
    requires StampOk(c, n, session) && LedgerOk(l)
    ensures AllOk(ProgressRecs(c, n, session, l, p)) && LedgerOk(AfterProgress(l, p))
  {
    hide Digest, AgentName, Uuid, BoundedId, IsoMs, RecordOk, EffectRecs, EscOk;
    if LeftNow(l, p) != {} {
      assert Uuids(RingIds(l.outstanding)) && Bounded(LeftNow(l, p));
      SortedGood(RingIds(l.outstanding));
      SortedGood(LeftNow(l, p));
      var x :| x in LeftNow(l, p);
      assert x in SortedSet(LeftNow(l, p));
      EffectRecsOk(c, n, session, Effective, SortedSet(RingIds(l.outstanding)), SortedSet(LeftNow(l, p)));
    }
  }

  lemma CloseStageOk(c: Config, n: Str, session: Str, l: Ledger, p: set<Str>)
    requires StampOk(c, n, session) && LedgerOk(l)
    ensures AllOk(CloseRecs(c, l, p)) && LedgerOk(AfterClose(l, p))
  {
    hide Digest, AgentName, Uuid, BoundedId, IsoMs, RecordOk, CloseAll, CloseOf, StuckGone, EscOk, Bounded;
    StuckGoneMembers(l.stuck, p, true);
    StuckGoneMembers(l.stuck, p, false);
    CloseAllOk(c, StuckGone(l.stuck, p, true), Progress);
    var u := if EpisodeOver(l, p) then [CloseOf(c, l.unresponsive.value.rec, Progress)] else [];
    if EpisodeOver(l, p) { CloseOk(c, l.unresponsive.value.rec, Progress); }
    AllOkConcat(u, CloseAll(c, StuckGone(l.stuck, p, true), Progress));
  }

  lemma HorizonOk(c: Config, n: Str, session: Str, l: Ledger)
    requires StampOk(c, n, session) && LedgerOk(l)
    ensures AllOk(IneffectiveRecs(c, n, session, Overdue(c, l.outstanding, true))) && LedgerOk(AfterHorizon(c, l))
  {
    hide Digest, AgentName, Uuid, BoundedId, IsoMs, RecordOk, IneffectiveRecs, Overdue, EscOk, Bounded, Young;
    OverdueMembers(c, l.outstanding, true);
    OverdueMembers(c, l.outstanding, false);
    IneffectiveOk(c, n, session, Overdue(c, l.outstanding, true));
  }

  lemma SettleOk(c: Config, n: Str, session: Str, l: Ledger, p: set<Str>)
    requires StampOk(c, n, session) && LedgerOk(l)
    ensures AllOk(SettleRecs(c, n, session, l, p)) && LedgerOk(Settled(c, l, p))
  {
    hide StampOk, LedgerOk, AllOk, ProgressRecs, CloseRecs, IneffectiveRecs, AfterProgress, AfterClose, AfterHorizon, Overdue;
    var l1 := AfterProgress(l, p);
    var l2 := AfterClose(l1, p);
    ProgressOk(c, n, session, l, p);
    CloseStageOk(c, n, session, l1, p);
    HorizonOk(c, n, session, l2);
    var P, C, I := ProgressRecs(c, n, session, l, p), CloseRecs(c, l1, p), IneffectiveRecs(c, n, session, Overdue(c, l2.outstanding, true));
    AllOkConcat(P, C);
    AllOkConcat(P + C, I);
  }

  lemma ThresholdOk(c: Config, n: Str, session: Str, l: Ledger, p: set<Str>, id: Str)
    requires StampOk(c, n, session) && LedgerOk(l) && (Escalates(l, p) ==> Uuid(id))
    ensures AllOk(ThresholdRecs(c, n, session, l, p, id))
  {
    hide Digest, AgentName, Uuid, BoundedId, IsoMs;
    if Escalates(l, p) {
      var s := SortedSet(l.rung * p);
      assert Bounded(l.rung * p);
      SortedGood(l.rung * p);
      assert |s| > 0;
      FirstGood(s, Min(MAX_IDS, |s|));
    }
  }

  lemma JudgeOk(inp: Input, n: Str, read: PendingRead, k: nat)
    requires InputOk(inp) && AgentName(n) && ReadOk(read) && UuidsIn(inp.uid, k, k + |JudgeOf(inp, n, read, k)|)
    ensures AllOk(JudgeOf(inp, n, read, k))
  {
    hide Digest, AgentName, Uuid, BoundedId, IsoMs, RecordOk, SettleRecs, Settled, Witness, MootEffects, CloseAll, LedgerOf, EscOk, IntentOk, TunablesOk;
    if read.session.Some? {
      var c, rs, a, p := inp.c, read.session.value, Account(inp.log, n), Elems(read.ids);
      LogAcctOk(inp, n);
      var u, l := Unjudged(a.rings, a.judged), LedgerOf(a, rs, inp.mono);
      AcctLedgerOk(a, n, rs, inp.mono);
      UnjudgedMembers(a.rings, a.judged);
      MootSessionsMembers(u, rs);
      MootOk(c, n, u, MootSessions(u, rs));
      ElsewhereOfMembers(a.open, rs);
      CloseAllOk(c, ElsewhereOf(a.open, rs), Moved);
      SettleOk(c, n, rs, l, p);
      var before := MootRecs(c, n, a, rs) + SettleRecs(c, n, rs, l, p);
      ThresholdOk(c, n, rs, Settled(c, l, p), p, inp.uid(k + |before|));
    }
  }

  // ---------------------------------------------------------------- the ring

  lemma {:induction false} StuckRecsOk(c: Config, n: Str, session: Str, ids: seq<Str>, uid: nat -> Str, k: nat)
    requires StampOk(c, n, session) && (forall id :: id in ids ==> BoundedId(id)) && UuidsIn(uid, k, k + |ids|)
    ensures AllOk(StuckRecs(c, n, session, ids, uid, k))
  {
    hide Digest, AgentName, Uuid, BoundedId, IsoMs;
    if ids != [] {
      var m := |ids| - 1;
      StuckRecsOk(c, n, session, ids[..m], uid, k);
      assert ids[m] in ids;
      assert IdSetOk([ids[m]], 1, MAX_IDS);
    }
  }

  lemma {:induction false} StuckLength(c: Config, n: Str, session: Str, ids: seq<Str>, uid: nat -> Str, k: nat)
    ensures |StuckRecs(c, n, session, ids, uid, k)| == |ids|
  {
    if ids != [] { StuckLength(c, n, session, ids[..|ids| - 1], uid, k); }
  }

  lemma RingIdsOk(u: set<Str>, again: set<Str>)
    requires u + again != {} && Bounded(u + again)
    ensures IdSetOk(RingIdsOf(u, again), 1, MAX_IDS)
  {
    var s := SortedSet(u + again);
    SortedGood(u + again);
    FirstGood(s, Min(MAX_IDS, |s|));
    assert |s| > 0;
  }

  lemma MonoOk(c: Config)
    requires c.now <= MAX_MS as real
    ensures BoundedMs(MonoMs(c), 0)
  {
  }

  lemma RingInput(inp: Input)
    requires InputOk(inp)
    ensures BoundedMs(MonoMs(inp.c), 0)
  {
    hide Uuid, RecordOk, ReadOk, TunablesOk, BoardOk, BoundedId, AgentName, IsoMs;
    MonoOk(inp.c);
  }

  lemma ReadFrom(inp: Input, n: Str)
    requires InputOk(inp) && n in inp.inbox
    ensures AgentName(n) && ReadOk(inp.inbox[n])
  {
    hide Uuid, RecordOk, TunablesOk, BoardOk, BoundedId, IsoMs, Digest, AgentName, ReadOk;
  }

  lemma Basics(inp: Input, n: Str, read: PendingRead)
    requires InputOk(inp) && ReadOk(read)
    ensures IsoMs(inp.c.at) && |read.ids| <= 100_000_000
    ensures CurBoard(inp, n).Some? ==> BoardOk(CurBoard(inp, n).value)
  {
    CurBoardOk(inp, n);
    hide Uuid, RecordOk, TunablesOk, BoardOk, BoundedId, AgentName, IsoMs, Digest;
  }

  lemma StampFrom(inp: Input, n: Str, read: PendingRead)
    requires InputOk(inp) && AgentName(n) && ReadOk(read) && read.session.Some?
    ensures StampOk(inp.c, n, read.session.value) && Bounded(Elems(read.ids))
  {
    hide Uuid, RecordOk, TunablesOk, BoardOk, BoundedId, AgentName, IsoMs, Digest;
  }

  lemma MayRingOk(c: Config, l: Ledger, times: seq<int>, p: set<Str>, u: set<Str>)
    requires Bounded(p) && u <= p && MayRing(c, l, times, u, Again(c, l, p, u))
    ensures IdSetOk(RingIdsOf(u, Again(c, l, p, u)), 1, MAX_IDS)
    ensures l.unresponsive.Some? ==> Again(c, l, p, u) == {}
  {
    hide BoundedId, RingIdsOf, Coalescing, ExhaustedNow, IdSetOk, Due;
    assert Bounded(u + Again(c, l, p, u));
    RingIdsOk(u, Again(c, l, p, u));
  }

  /** An intent rings new ids only while an escalation is open; with none open, new ids and due ones. */
  lemma RingOk(inp: Input, n: Str, session: Str, l: Ledger, p: set<Str>, binding: Str, k: nat)
    requires BoundedMs(MonoMs(inp.c), 0) && StampOk(inp.c, n, session) && Bounded(p) && BoundedId(binding)
    requires UuidsIn(inp.uid, k, k + |RingRecs(inp, n, session, l, p, binding, k)|)
    ensures AllOk(RingRecs(inp, n, session, l, p, binding, k))
  {
    hide StampOk, Uuid, UuidsIn, BoundedId, RecordOk, StuckRecs, ExhaustedNow, Coalescing, Again, AtCap, MonoMs, BoundedMs, MayRing, IntentOf,
      IdSetOk, RingIdsOf, AllOk, Bounded;
    var c, u := inp.c, Unrung(session, p, inp.rung);
    var again, cap := Again(c, l, p, u), AtCap(c, l, p, u);
    var stuck, end := StuckRecs(c, n, session, SortedSet(cap), inp.uid, k), k + |RingRecs(inp, n, session, l, p, binding, k)|;
    AtCapPending(c, l, p, u);
    StuckLength(c, n, session, SortedSet(cap), inp.uid, k);
    UuidsPart(inp.uid, k, end, k, k + |stuck|);
    assert forall id :: id in SortedSet(cap) ==> BoundedId(id) by { BoundedIn(p, cap); }
    StuckRecsOk(c, n, session, SortedSet(cap), inp.uid, k);
    if MayRing(c, l, TimesOf(inp, n), u, again) {
      MayRingOk(c, l, TimesOf(inp, n), p, u);
      UuidAt(inp.uid, k, end, k + |stuck|);
      var i := IntentOf(c, n, session, binding, l, u, again, inp.uid(k + |stuck|));
      IntentIsOk(inp, n, session, l, p, binding, u, again, inp.uid(k + |stuck|));
      OneOk(Intent(i));
      AllOkConcat(stuck, [Intent(i)]);
    }
  }

  lemma BoundedIn(p: set<Str>, s: set<Str>)
    requires Bounded(p) && s <= p
    ensures forall id :: id in s ==> BoundedId(id)
  {
    hide BoundedId;
  }

  lemma UuidAt(uid: nat -> Str, k: nat, m: nat, j: nat)
    requires UuidsIn(uid, k, m) && k <= j < m
    ensures Uuid(uid(j))
  {
    hide Uuid;
  }

  lemma OneOk(r: Rec)
    requires RecordOk(r)
    ensures AllOk([r])
  {
    hide RecordOk;
  }

  lemma AtCapPending(c: Config, l: Ledger, p: set<Str>, u: set<Str>)
    ensures AtCap(c, l, p, u) <= p
  {
  }

  lemma IntentIsOk(inp: Input, n: Str, session: Str, l: Ledger, p: set<Str>, binding: Str, u: set<Str>, again: set<Str>, id: Str)
    requires StampOk(inp.c, n, session) && BoundedId(binding) && Uuid(id) && BoundedMs(MonoMs(inp.c), 0)
    requires IdSetOk(RingIdsOf(u, again), 1, MAX_IDS) && (l.unresponsive.Some? ==> again == {})
    ensures RecordOk(Intent(IntentOf(inp.c, n, session, binding, l, u, again, id)))
  {
    hide Digest, AgentName, Uuid, BoundedId, IsoMs, MonoMs;
    var ids := RingIdsOf(u, again);
    var s := SortedSet(u + again);
    forall k | 0 <= k < |ids| ensures ids[k] in u + again { assert ids[k] == s[k] && s[k] in s; }
  }

  // ---------------------------------------------------------------- windows and the board

  predicate DistinctBindings(bs: seq<Binding>)
  {
    forall j, k :: 0 <= j < k < |bs| ==> bs[j].id != bs[k].id
  }

  lemma {:induction false} OfAgentDistinct(bs: seq<Binding>, n: Str)
    requires DistinctBindings(bs)
    ensures DistinctBindings(OfAgent(bs, n)) && |OfAgent(bs, n)| <= |bs|
  {
    if bs != [] {
      var q := bs[..|bs| - 1];
      OfAgentDistinct(q, n);
      OfAgentMembers(q, n);
      var p := OfAgent(q, n);
      forall k | 0 <= k < |p| ensures p[k].id != bs[|bs| - 1].id { assert p[k] in p; }
    }
  }

  lemma {:induction false} NotDeadDistinct(bs: seq<Binding>, ownHost: Str)
    requires DistinctBindings(bs)
    ensures DistinctBindings(NotDeadOf(bs, ownHost)) && |AliveOf(bs, ownHost)| <= |NotDeadOf(bs, ownHost)|
  {
    if bs != [] {
      var q := bs[..|bs| - 1];
      NotDeadDistinct(q, ownHost);
      WindowMembers(q, ownHost);
      var p := NotDeadOf(q, ownHost);
      forall k | 0 <= k < |p| ensures p[k].id != bs[|bs| - 1].id { assert p[k] in p; }
    }
  }

  lemma {:induction false} NotDeadShort(bs: seq<Binding>, ownHost: Str)
    ensures |NotDeadOf(bs, ownHost)| <= |bs|
  {
    if bs != [] { NotDeadShort(bs[..|bs| - 1], ownHost); }
  }

  function IdSetOf(bs: seq<Binding>): set<Str>
  {
    set b | b in bs :: b.id
  }

  lemma BindingCount(bs: seq<Binding>)
    requires DistinctBindings(bs)
    ensures |bs| >= 2 ==> |IdSetOf(bs)| >= 2
    ensures |bs| == 1 ==> |IdSetOf(bs)| == 1
    ensures |bs| == 0 ==> |IdSetOf(bs)| == 0
  {
    if |bs| >= 2 {
      assert bs[0] in bs && bs[1] in bs;
      assert {bs[0].id, bs[1].id} <= IdSetOf(bs);
      SubsetSize({bs[0].id, bs[1].id}, IdSetOf(bs));
    } else if |bs| == 1 {
      assert IdSetOf(bs) == {bs[0].id};
    } else {
      assert IdSetOf(bs) == {};
    }
  }

  /** A board case names as many deciding bindings as its shape asks, and carries its own `why`. */
  predicate CaseOk(c: Case)
  {
    WhyOk(c.kase, c.why) && GoodIds(c.bindings) && c.dead <= 1_000_000 &&
    match c.kase
    case AmbiguousBinding => |c.bindings| >= 2
    case NoLiveWindow => |c.bindings| <= 1
    case _ => |c.bindings| == 1
  }

  lemma WindowsOk(inp: Input, n: Str, session: Option<Str>)
    requires InputOk(inp)
    ensures var bs := OfAgent(inp.bindings, n);
            var notDead, alive := NotDeadOf(bs, inp.ownHost), AliveOf(bs, inp.ownHost);
            |bs| - |notDead| <= 1_000_000 && GoodIds(BindingIds(notDead)) && GoodIds(BindingIds(alive)) &&
            (|notDead| >= 2 ==> |BindingIds(notDead)| >= 2) && (|notDead| < 2 ==> |BindingIds(notDead)| <= 1) &&
            (|notDead| < 2 && alive != [] ==> |BindingIds(alive)| == 1) && (forall b :: b in alive ==> BoundedId(b.id))
  {
    hide BoundedId, Uuid, RecordOk, ReadOk, TunablesOk, BoardOk;
    var bs := OfAgent(inp.bindings, n);
    var notDead, alive := NotDeadOf(bs, inp.ownHost), AliveOf(bs, inp.ownHost);
    OfAgentDistinct(inp.bindings, n);
    OfAgentMembers(inp.bindings, n);
    NotDeadDistinct(bs, inp.ownHost);
    NotDeadShort(bs, inp.ownHost);
    WindowMembers(bs, inp.ownHost);
    assert Bounded(IdSetOf(notDead)) && Bounded(IdSetOf(alive));
    SortedGood(IdSetOf(notDead));
    SortedGood(IdSetOf(alive));
    BindingCount(notDead);
    if |alive| == 1 { assert DistinctBindings(alive); BindingCount(alive); }
  }

  lemma DecideOk(inp: Input, n: Str, read: PendingRead)
    requires InputOk(inp)
    ensures var d := Decide(inp, n, read, OfAgent(inp.bindings, n)); d.Show? && d.next.Some? ==> CaseOk(d.next.value)
  {
    hide InputOk, BindingIds, NotDeadOf, AliveOf, OfAgent, GoodIds;
    WindowsOk(inp, n, read.session);
    var bs := OfAgent(inp.bindings, n);
    NotDeadShort(bs, inp.ownHost);
    AliveIsNotDead(bs, inp.ownHost);
  }

  lemma {:induction false} AliveIsNotDead(bs: seq<Binding>, ownHost: Str)
    ensures |AliveOf(bs, ownHost)| <= |NotDeadOf(bs, ownHost)|
  {
    if bs != [] { AliveIsNotDead(bs[..|bs| - 1], ownHost); }
  }

  lemma BoardToOk(c: Config, n: Str, cur: Option<BoardRec>, next: Option<Case>, count: nat, why: BoardClose, uid: nat -> Str, k: nat)
    requires IsoMs(c.at) && AgentName(n) && (cur.Some? ==> BoardOk(cur.value)) && count <= 100_000_000
    requires UuidsIn(uid, k, k + |BoardTo(c, n, cur, next, count, why, uid, k)|) && (next.Some? ==> CaseOk(next.value) && count >= 1)
    ensures AllOk(BoardTo(c, n, cur, next, count, why, uid, k))
  {
    hide AgentName, Uuid, BoundedId, IsoMs;
    if next.Some? {
      FirstGood(next.value.bindings, Min(MAX_IDS, |next.value.bindings|));
    }
  }

  // ---------------------------------------------------------------- the whole plan

  lemma BudgetRecsOk(inp: Input, n: Str, session: Option<Str>)
    requires InputOk(inp) && n in inp.inbox
    ensures AllOk(BudgetRecs(inp, n, session))
  {
    hide AgentName, Uuid, BoundedId, IsoMs, ReadOk, BoardOk;
  }

  lemma MailOk(inp: Input, n: Str, read: PendingRead, k: nat, j: nat)
    requires InputOk(inp) && AgentName(n) && ReadOk(read) && read.ids != []
    requires UuidsIn(inp.uid, k, k + |MailRecs(inp, n, read, k, j)|)
    ensures AllOk(MailRecs(inp, n, read, k, j))
  {
    hide InputOk, ReadOk, StampOk, CurBoard, BindingIds, UuidsIn, AllOk, BoardTo, RingRecs, LedgerAfter, Decide, OfAgent,
      AliveOf, NotDeadOf, CaseOk, AgentName, BoundedId, IsoMs, BoardOk, Bounded;
    var bs := OfAgent(inp.bindings, n);
    match Decide(inp, n, read, bs)
    case Hold(_) => NothingOk();
    case Show(next, _, ring) =>
      var B := BoardTo(inp.c, n, CurBoard(inp, n), next, |read.ids|, Resolved, inp.uid, k);
      UuidsPart(inp.uid, k, k + |MailRecs(inp, n, read, k, j)|, k, k + |B|);
      ShowOk(inp, n, read, next, |read.ids|, Resolved, k);
      if ring && read.session.Some? && AliveOf(bs, inp.ownHost) != [] {
        var rs := read.session.value;
        var l, w := LedgerAfter(inp, n, rs, Elems(read.ids), j), AliveOf(bs, inp.ownHost)[0];
        AliveIdOk(inp, n, w);
        StampFrom(inp, n, read);
        RingInput(inp);
        UuidsPart(inp.uid, k, k + |MailRecs(inp, n, read, k, j)|, k + |B|, k + |MailRecs(inp, n, read, k, j)|);
        RingOk(inp, n, rs, l, Elems(read.ids), w.id, k + |B|);
        AllOkConcat(B, RingRecs(inp, n, rs, l, Elems(read.ids), w.id, k + |B|));
      }
  }

  lemma AliveIdOk(inp: Input, n: Str, w: Binding)
    requires InputOk(inp) && w in AliveOf(OfAgent(inp.bindings, n), inp.ownHost)
    ensures BoundedId(w.id)
  {
    hide InputOk, AliveOf, OfAgent, NotDeadOf, BoundedId, GoodIds, BindingIds;
    WindowsOk(inp, n, None);
  }

  /** The board move of a decision, or of having no mail, is well formed. */
  lemma ShowOk(inp: Input, n: Str, read: PendingRead, next: Option<Case>, count: nat, why: BoardClose, k: nat)
    requires InputOk(inp) && AgentName(n) && ReadOk(read) && count <= |read.ids|
    requires next.Some? ==> count >= 1 && exists t, ring :: Decide(inp, n, read, OfAgent(inp.bindings, n)) == Show(next, t, ring)
    requires UuidsIn(inp.uid, k, k + |BoardTo(inp.c, n, CurBoard(inp, n), next, count, why, inp.uid, k)|)
    ensures AllOk(BoardTo(inp.c, n, CurBoard(inp, n), next, count, why, inp.uid, k))
  {
    hide InputOk, UuidsIn, AllOk, BoardTo, Decide, OfAgent, CaseOk, AgentName, IsoMs, BoardOk, CurBoard, ReadOk;
    Basics(inp, n, read);
    DecideOk(inp, n, read);
    BoardToOk(inp.c, n, CurBoard(inp, n), next, count, why, inp.uid, k);
  }

  lemma NothingOk()
    ensures AllOk([])
  {
  }

  lemma CurBoardOk(inp: Input, n: Str)
    requires InputOk(inp)
    ensures CurBoard(inp, n).Some? ==> BoardOk(CurBoard(inp, n).value)
  {
  }

  lemma AgentOk(inp: Input, n: Str, k: nat)
    requires InputOk(inp) && n in inp.inbox && UuidsIn(inp.uid, k, k + |AgentRecs(inp, n, inp.inbox[n], k)|)
    ensures AllOk(AgentRecs(inp, n, inp.inbox[n], k))
  {
    hide InputOk, AllOk, BoardTo, JudgeOf, MailRecs, BudgetRecs, AgentName, ReadOk, Decide, OfAgent, CurBoard, UuidsIn;
    var read := inp.inbox[n];
    ReadFrom(inp, n);
    if !read.registered {
      ShowOk(inp, n, read, None, 0, NoMail, k);
    } else {
      var J, G := JudgeOf(inp, n, read, k), BudgetRecs(inp, n, read.session);
      var m, end := k + |J + G|, k + |AgentRecs(inp, n, read, k)|;
      UuidsPart(inp.uid, k, end, k, k + |J|);
      UuidsPart(inp.uid, k, end, m, end);
      JudgeOk(inp, n, read, k);
      BudgetRecsOk(inp, n, read.session);
      AllOkConcat(J, G);
      if read.ids == [] {
        ShowOk(inp, n, read, None, 0, NoMail, m);
        AllOkConcat(J + G, BoardTo(inp.c, n, CurBoard(inp, n), None, 0, NoMail, inp.uid, m));
      } else {
        MailOk(inp, n, read, m, k);
        AllOkConcat(J + G, MailRecs(inp, n, read, m, k));
      }
    }
  }

  lemma AbsentOk(inp: Input, n: Str, k: nat)
    requires InputOk(inp) && n in inp.inbox && UuidsIn(inp.uid, k, k + |AbsentRecs(inp, n, inp.inbox[n], k)|)
    ensures AllOk(AbsentRecs(inp, n, inp.inbox[n], k))
  {
    hide InputOk, AllOk, JudgeOf, AgentName, ReadOk, UuidsIn;
    ReadFrom(inp, n);
    NothingOk();
    if inp.inbox[n].registered { JudgeOk(inp, n, inp.inbox[n], k); }
  }

  lemma {:induction false} MainOk(inp: Input, names: seq<Str>)
    requires InputOk(inp) && UuidsIn(inp.uid, 0, |MainRecs(inp, names)|)
    ensures AllOk(MainRecs(inp, names))
  {
    hide AllOk, AgentRecs, InputOk, UuidsIn;
    if names == [] {
      NothingOk();
    } else {
      var n, p := names[|names| - 1], MainRecs(inp, names[..|names| - 1]);
      UuidsPart(inp.uid, 0, |MainRecs(inp, names)|, 0, |p|);
      MainOk(inp, names[..|names| - 1]);
      if n in inp.inbox {
        UuidsPart(inp.uid, 0, |MainRecs(inp, names)|, |p|, |MainRecs(inp, names)|);
        AgentOk(inp, n, |p|);
        AllOkConcat(p, AgentRecs(inp, n, inp.inbox[n], |p|));
      }
    }
  }

  lemma {:induction false} AllRecsOk(inp: Input, names: seq<Str>)
    requires InputOk(inp) && UuidsIn(inp.uid, 0, |AllRecs(inp, names)|)
    ensures AllOk(AllRecs(inp, names))
  {
    hide AllOk, AbsentRecs, MainRecs, MainNames, InputOk, UuidsIn;
    if names == [] {
      MainOk(inp, MainNames(inp));
    } else {
      var n, p := names[|names| - 1], AllRecs(inp, names[..|names| - 1]);
      UuidsPart(inp.uid, 0, |AllRecs(inp, names)|, 0, |p|);
      AllRecsOk(inp, names[..|names| - 1]);
      if n in inp.inbox {
        UuidsPart(inp.uid, 0, |AllRecs(inp, names)|, |p|, |AllRecs(inp, names)|);
        AbsentOk(inp, n, |p|);
        AllOkConcat(p, AbsentRecs(inp, n, inp.inbox[n], |p|));
      }
    }
  }

  /** From well-formed inputs, and UUIDs for the ids it draws, every record of the plan passes the writer's closed schema. */
  lemma PlanOk(inp: Input)
    requires InputOk(inp) && UuidsIn(inp.uid, 0, |Plan(inp)|)
    ensures forall r :: r in Plan(inp) ==> RecordOk(r)
  {
    hide RecordOk, AllRecs, InputOk, UuidsIn;
    if inp.ownHost != "" { AllRecsOk(inp, AbsentNames(inp)); }
  }
}
