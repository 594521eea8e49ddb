/** Exactly when a ring is made. */
module DoorbellRinging {
  // The intent of a cycle, the ids it covers and why, the ids dropped from re-ring and the budget's record, told of the
  // rings in the log, the rung memory and this lifetime's ring times.

  import opened Canon
  import opened DoorbellLog
  import opened DoorbellLedger
  import opened DoorbellPlan
  import opened DoorbellAdmit
  import opened DoorbellJudge
  import opened DoorbellJudgement
  import opened DoorbellCoherence
  import opened DoorbellAgent
  import opened DoorbellCycle
  import opened DoorbellBudget
  import opened DoorbellFold
  import opened DoorbellQuiescence
  import opened DoorbellRest
  import opened DoorbellTable
  import opened DoorbellJudged
  import opened DoorbellNamed
  import opened Wrappers

  // ---------------------------------------------------------------- an id's rings

  predicate Covers1(i: IntentRec, session: Str, id: Str)
  {
    i.session == session && id in i.ids
  }

  /** The places of the rings of this session that covered the id. */
  function RingsOver(a: Acct, session: Str, id: Str): set<int>
  {
    CoverPlaces(a.rings, session, id)
  }

  /** Rung before in this session, by the rung memory. */
  predicate Known(inp: Input, session: Str, id: Str)
  {
    (session, id) in inp.rung
  }

  /** It was rung for, and every ring for it is the whole horizon old. */
  ghost predicate Rested(c: Config, mono: map<Str, int>, a: Acct, session: Str, id: Str)
  {
    (exists i :: i in a.rings && Covers1(i, session, id)) && forall i :: i in a.rings && Covers1(i, session, id) ==> Late(c, mono, i)
  }

  ghost predicate Escalated(a: Acct, session: Str)
  {
    exists e :: e in a.open && e.rec.session == session && e.rec.reason == Unresponsive
  }

  ghost predicate ExtraSpent(a: Acct, session: Str)
  {
    exists e :: e in a.open && e.rec.session == session && e.rec.reason == Unresponsive && e.extra
  }

  ghost predicate StuckAlready(a: Acct, session: Str, id: Str)
  {
    exists e :: e in a.open && e.rec.session == session && e.rec.reason == IdStuck && e.rec.ids != [] && e.rec.ids[0] == id
  }

  /** An id a ring may cover: a new one, or without an open escalation one rung less than three times, the last a horizon ago. */
  ghost predicate DueNow(inp: Input, a: Acct, session: Str, id: Str)
  {
    !Known(inp, session, id) || (!Escalated(a, session) && Rested(inp.c, inp.mono, a, session, id) && |RingsOver(a, session, id)| < 3)
  }

  /** An id dropped from re-ring: three rings, the last a horizon ago, and not on record as stuck. */
  ghost predicate DroppedNow(inp: Input, a: Acct, session: Str, id: Str)
  {
    Known(inp, session, id) && !Escalated(a, session) && Rested(inp.c, inp.mono, a, session, id) && |RingsOver(a, session, id)| >= 3 &&
    !StuckAlready(a, session, id)
  }

  function TimesIn(inp: Input, n: Str): (ts: seq<int>)
    ensures n in inp.ringMono ==> ts == inp.ringMono[n]
    ensures n !in inp.ringMono ==> ts == []
  {
    if n in inp.ringMono then inp.ringMono[n] else []
  }

  /** This lifetime's rings of the agent in the last hour. */
  function HourRings(inp: Input, n: Str): set<int>
  {
    HourPlaces(inp.c, TimesIn(inp, n))
  }

  /** The coalescing window since each of its rings is over. */
  predicate Paced(inp: Input, n: Str)
  {
    forall t :: t in TimesIn(inp, n) ==> inp.c.now - t as real >= inp.c.windowMs as real
  }

  function CoverPlaces(rings: seq<IntentRec>, session: Str, id: Str): set<int>
  {
    set j | 0 <= j < |rings| && Covers1(rings[j], session, id)
  }

  lemma {:induction false} CoversCount(rings: seq<IntentRec>, session: Str, id: Str)
    ensures Covers(rings, session, id) == |CoverPlaces(rings, session, id)|
  {
    hide Covers1;
    if rings == [] {
      assert CoverPlaces(rings, session, id) == {};
    } else {
      var m := |rings| - 1;
      CoversCount(rings[..m], session, id);
      assert CoverPlaces(rings, session, id) == CoverPlaces(rings[..m], session, id) + if Covers1(rings[m], session, id) then {m} else {};
      assert m !in CoverPlaces(rings[..m], session, id);
      assert Covers1(rings[m], session, id) <==> rings[m].session == session && id in rings[m].ids by { CoverIs(rings[m], session, id); }
      hide CoverPlaces;
    }
  }

  lemma CoverIs(i: IntentRec, session: Str, id: Str)
    ensures Covers1(i, session, id) <==> i.session == session && id in i.ids
  {
  }

  function HourPlaces(c: Config, times: seq<int>): set<int>
  {
    set j | 0 <= j < |times| && times[j] as real > c.now - 3_600_000.0
  }

  lemma {:induction false} HourCount(c: Config, times: seq<int>)
    ensures RingsInHour(c, times) == |HourPlaces(c, times)|
  {
    if times == [] {
      assert HourPlaces(c, times) == {};
    } else {
      var m := |times| - 1;
      HourCount(c, times[..m]);
      assert HourPlaces(c, times) == HourPlaces(c, times[..m]) + if times[m] as real > c.now - 3_600_000.0 then {m} else {};
      assert m !in HourPlaces(c, times[..m]);
      hide HourPlaces;
    }
  }

  ghost predicate RangAt(rings: seq<IntentRec>, session: Str, id: Str, mono: map<Str, int>, t: int)
  {
    exists i :: i in rings && Covers1(i, session, id) && MonoOf(mono, i.id) == t
  }

  ghost predicate EverRang(rings: seq<IntentRec>, session: Str, id: Str)
  {
    exists i :: i in rings && Covers1(i, session, id)
  }

  /** The last ring for an id is one of them. */
  lemma {:induction false} LastIsOne(rings: seq<IntentRec>, session: Str, id: Str, mono: map<Str, int>)
    ensures var l := LastRing(rings, session, id, mono);
            (l.Some? <==> EverRang(rings, session, id)) && (l.Some? ==> RangAt(rings, session, id, mono, l.value))
  {
    if rings != [] {
      var p, last := rings[..|rings| - 1], rings[|rings| - 1];
      LastIsOne(p, session, id, mono);
      assert rings == p + [last];
      assert EverRang(rings, session, id) <==> EverRang(p, session, id) || Covers1(last, session, id) by {
        if Covers1(last, session, id) { assert last in rings; }
      }
      forall t ensures RangAt(rings, session, id, mono, t) <==> RangAt(p, session, id, mono, t) || (Covers1(last, session, id) && MonoOf(mono, last.id) == t)
      {
        if Covers1(last, session, id) && MonoOf(mono, last.id) == t { assert last in rings; }
      }
      hide RangAt, EverRang;
    }
  }

  lemma DueIsRested(c: Config, a: Acct, session: Str, mono: map<Str, int>, id: Str)
    ensures Due(c, LedgerOf(a, session, mono), id) <==> Rested(c, mono, a, session, id)
  {
    LastIsOne(a.rings, session, id, mono);
    LastIsLast(a.rings, session, id, mono);
    RungIdsMembers(a.rings, session);
    hide LastRing, RungIds, Covers, SortRings, UnresponsiveOf, StuckOf;
    forall i { Lateness(c, mono, i); }
    var last := LastRing(a.rings, session, id, mono);
    if last.Some? {
      var i :| i in a.rings && Covers1(i, session, id) && MonoOf(mono, i.id) == last.value;
      assert id in RungIds(a.rings, session);
      assert Late(c, mono, i) <==> !Young(c, last.value);
    }
  }

  // ---------------------------------------------------------------- the ring step

  /** The monotonic time rounded to a millisecond, never negative. */
  predicate OnClock(c: Config, mono: int)
  {
    mono >= 0 && (mono > 0 ==> c.now - 0.5 < mono as real <= c.now + 0.5) && (mono == 0 ==> c.now < 0.5)
  }

  ghost function DueSet(inp: Input, a: Acct, session: Str, pending: set<Str>): set<Str>
  {
    set id | id in pending && DueNow(inp, a, session, id)
  }

  /** What one intent says. */
  ghost predicate IsRing(inp: Input, n: Str, a: Acct, session: Str, pending: set<Str>, binding: Str, i: IntentRec)
  {
    i.at == inp.c.at && i.agent == n && i.session == session && i.binding == binding && OnClock(inp.c, i.mono) && (i.during <==> Escalated(a, session)) &&
    FirstNamed(i.ids, DueSet(inp, a, session, pending)) && |i.kinds| == |i.ids| &&
    forall j :: 0 <= j < |i.ids| ==> i.kinds[j] == if Known(inp, session, i.ids[j]) then StillPending else New
  }

  /** One intent exactly when some id is due, the extra ring of an open escalation is not spent, and budget and window allow it. */
  ghost predicate IntentSays(inp: Input, n: Str, a: Acct, session: Str, pending: set<Str>, binding: Str, recs: seq<Rec>)
  {
    ((exists i :: Intent(i) in recs) <==>
      (exists id :: id in pending && DueNow(inp, a, session, id)) && !ExtraSpent(a, session) && |HourRings(inp, n)| < inp.c.budget && Paced(inp, n)) &&
    (forall i :: Intent(i) in recs ==> IsRing(inp, n, a, session, pending, binding, i)) &&
    (forall i, j :: Intent(i) in recs && Intent(j) in recs ==> i == j)
  }

  /** One `id_stuck` for each id dropped, and no other. */
  ghost predicate StuckSays(inp: Input, n: Str, a: Acct, session: Str, pending: set<Str>, recs: seq<Rec>)
  {
    (forall x :: Escalation(x) in recs ==> IsOpening(inp.c, n, session, IdStuck, x) && x.ids != [] && x.ids == [x.ids[0]] && x.ids[0] in pending && DroppedNow(inp, a, session, x.ids[0])) &&
    forall id :: id in pending && DroppedNow(inp, a, session, id) ==> exists x :: Escalation(x) in recs && x.ids == [id]
  }

  lemma LedgerSays(inp: Input, n: Str, a: Acct, session: Str)
    requires OpenWf(a.open, n)
    ensures var l := LedgerOf(a, session, inp.mono);
            (l.unresponsive.Some? <==> Escalated(a, session)) && (l.unresponsive.Some? && l.unresponsive.value.extra <==> ExtraSpent(a, session)) &&
            (forall id :: HasStuck(l, id) <==> StuckAlready(a, session, id)) &&
            forall id :: id in l.last ==> CountOf(l, id) == |RingsOver(a, session, id)|
  {
    UnresponsiveIsOpen(a.open, session);
    StuckOfMembers(a.open, session);
    forall e | e in a.open && e.rec.session == session && e.rec.reason == Unresponsive ensures UnresponsiveOf(a.open, session) == Some(e)
    {
      UnresponsiveUnique(a.open, session, n, e);
    }
    hide UnresponsiveOf, StuckOf, RungIds, LastRing, SortRings, Covers, OpenWf;
    var l := LedgerOf(a, session, inp.mono);
    forall id ensures HasStuck(l, id) <==> StuckAlready(a, session, id)
    {
      if StuckAlready(a, session, id) {
        var e :| e in a.open && e.rec.session == session && e.rec.reason == IdStuck && e.rec.ids != [] && e.rec.ids[0] == id;
        assert e.rec in l.stuck;
      }
    }
    forall id | id in l.last ensures CountOf(l, id) == |RingsOver(a, session, id)|
    {
      CoversCount(a.rings, session, id);
    }
  }

  /** Which of the pending ids are due, and which are dropped. */
  lemma DueSays(inp: Input, n: Str, a: Acct, session: Str, pending: set<Str>)
    requires OpenWf(a.open, n)
    ensures var l, u := LedgerOf(a, session, inp.mono), Unrung(session, pending, inp.rung);
            u + Again(inp.c, l, pending, u) == DueSet(inp, a, session, pending) &&
            (forall id :: id in AtCap(inp.c, l, pending, u) <==> id in pending && DroppedNow(inp, a, session, id)) &&
            forall id :: id in pending ==> (id in u <==> !Known(inp, session, id))
  {
    LedgerSays(inp, n, a, session);
    var l, u := LedgerOf(a, session, inp.mono), Unrung(session, pending, inp.rung);
    hide LedgerOf, HasStuck, CountOf, StuckAlready, Escalated, ExtraSpent, RingsOver, OpenWf;
    forall id ensures Due(inp.c, l, id) <==> Rested(inp.c, inp.mono, a, session, id) { DueIsRested(inp.c, a, session, inp.mono, id); }
    hide Rested, Young;
    assert forall id :: Due(inp.c, l, id) ==> id in l.last;
    hide Due;
    assert u + Again(inp.c, l, pending, u) == DueSet(inp, a, session, pending);
  }

  lemma Rounded(c: Config)
    ensures OnClock(c, MonoMs(c))
  {
  }

  lemma {:induction false} StuckMembers(c: Config, n: Str, session: Str, ids: seq<Str>, uid: nat -> Str, k: nat)
    ensures forall r :: r in StuckRecs(c, n, session, ids, uid, k) ==>
              r.Escalation? && IsOpening(c, n, session, IdStuck, r.x) && r.x.ids != [] && r.x.ids == [r.x.ids[0]] && r.x.ids[0] in ids
    ensures forall id :: id in ids ==> exists x :: Escalation(x) in StuckRecs(c, n, session, ids, uid, k) && x.ids == [id]
  {
    if ids != [] {
      var p, id := ids[..|ids| - 1], ids[|ids| - 1];
      StuckMembers(c, n, session, p, uid, k);
      assert ids == p + [id];
      var x := OpenOf(c, n, session, IdStuck, [id], uid(k + |ids| - 1));
      var before := StuckRecs(c, n, session, p, uid, k);
      assert StuckRecs(c, n, session, ids, uid, k) == before + [Escalation(x)];
      assert IsOpening(c, n, session, IdStuck, x) && x.ids == [id];
      hide StuckRecs, OpenOf, IsOpening;
      assert Escalation(x) in StuckRecs(c, n, session, ids, uid, k);
      forall i | i in ids ensures exists y :: Escalation(y) in before + [Escalation(x)] && y.ids == [i]
      {
        if i in p { var y :| Escalation(y) in before && y.ids == [i]; }
      }
    }
  }

  /** The ring step, told of the agent's account. */
  lemma RingSays(inp: Input, n: Str, a: Acct, session: Str, pending: set<Str>, binding: Str, k: nat)
    requires OpenWf(a.open, n)
    ensures var recs := RingRecs(inp, n, session, LedgerOf(a, session, inp.mono), pending, binding, k);
            IntentSays(inp, n, a, session, pending, binding, recs) && StuckSays(inp, n, a, session, pending, recs) &&
            forall r :: r in recs ==> r.Intent? || r.Escalation?
  {
    hide *;
    var l, u := LedgerOf(a, session, inp.mono), Unrung(session, pending, inp.rung);
    var again := Again(inp.c, l, pending, u);
    var stuck := StuckRecs(inp.c, n, session, SortedSet(AtCap(inp.c, l, pending, u)), inp.uid, k);
    var id := inp.uid(k + |stuck|);
    CapSays(inp, n, a, session, pending, k);
    MaySays(inp, n, a, session, pending);
    RingIs(inp, n, a, session, pending, binding, id);
    RingTwo(inp, n, session, l, pending, binding, k);
    RingJoin(inp, n, a, session, pending, binding, stuck, IntentOf(inp.c, n, session, binding, l, u, again, id), MayRing(inp.c, l, TimesOf(inp, n), u, again));
  }

  lemma RingTwo(inp: Input, n: Str, session: Str, l: Ledger, pending: set<Str>, binding: Str, k: nat)
    ensures var u := Unrung(session, pending, inp.rung);
            var again := Again(inp.c, l, pending, u);
            var stuck := StuckRecs(inp.c, n, session, SortedSet(AtCap(inp.c, l, pending, u)), inp.uid, k);
            RingRecs(inp, n, session, l, pending, binding, k) ==
            stuck + if MayRing(inp.c, l, TimesOf(inp, n), u, again) then [Intent(IntentOf(inp.c, n, session, binding, l, u, again, inp.uid(k + |stuck|)))] else []
  {
    hide Unrung, Again, StuckRecs, SortedSet, AtCap, MayRing, IntentOf;
    var u := Unrung(session, pending, inp.rung);
    var stuck := StuckRecs(inp.c, n, session, SortedSet(AtCap(inp.c, l, pending, u)), inp.uid, k);
    assert stuck + [] == stuck;
  }

  lemma CapSays(inp: Input, n: Str, a: Acct, session: Str, pending: set<Str>, k: nat)
    requires OpenWf(a.open, n)
    ensures var l, u := LedgerOf(a, session, inp.mono), Unrung(session, pending, inp.rung);
            var stuck := StuckRecs(inp.c, n, session, SortedSet(AtCap(inp.c, l, pending, u)), inp.uid, k);
            StuckSays(inp, n, a, session, pending, stuck) && forall r :: r in stuck ==> r.Escalation?
  {
    hide *;
    var l, u := LedgerOf(a, session, inp.mono), Unrung(session, pending, inp.rung);
    DueSays(inp, n, a, session, pending);
    StuckFrom(inp, n, a, session, pending, AtCap(inp.c, l, pending, u), k);
  }

  lemma StuckFrom(inp: Input, n: Str, a: Acct, session: Str, pending: set<Str>, cap: set<Str>, k: nat)
    requires forall id :: id in cap <==> id in pending && DroppedNow(inp, a, session, id)
    ensures var stuck := StuckRecs(inp.c, n, session, SortedSet(cap), inp.uid, k);
            StuckSays(inp, n, a, session, pending, stuck) && forall r :: r in stuck ==> r.Escalation?
  {
    hide StuckRecs, SortedSet, IsOpening, DroppedNow;
    var ids := SortedSet(cap);
    assert forall id :: id in ids <==> id in cap;
    StuckMembers(inp.c, n, session, ids, inp.uid, k);
  }

  lemma RingJoin(inp: Input, n: Str, a: Acct, session: Str, pending: set<Str>, binding: Str, stuck: seq<Rec>, i: IntentRec, may: bool)
    requires StuckSays(inp, n, a, session, pending, stuck) && (forall r :: r in stuck ==> r.Escalation?) && IsRing(inp, n, a, session, pending, binding, i)
    requires may <==> (exists id :: id in pending && DueNow(inp, a, session, id)) && !ExtraSpent(a, session) && |HourRings(inp, n)| < inp.c.budget && Paced(inp, n)
    ensures var recs := stuck + if may then [Intent(i)] else [];
            IntentSays(inp, n, a, session, pending, binding, recs) && StuckSays(inp, n, a, session, pending, recs) && forall r :: r in recs ==> r.Intent? || r.Escalation?
  {
    hide IsRing, DueNow, ExtraSpent, HourRings, Paced, IsOpening, DroppedNow;
    var recs := stuck + if may then [Intent(i)] else [];
    assert may ==> Intent(i) in recs;
    forall x ensures Escalation(x) in recs <==> Escalation(x) in stuck {}
    forall j ensures Intent(j) in recs <==> may && j == i {}
  }

  /** The guards of the ring. */
  lemma MaySays(inp: Input, n: Str, a: Acct, session: Str, pending: set<Str>)
    requires OpenWf(a.open, n)
    ensures var l, u := LedgerOf(a, session, inp.mono), Unrung(session, pending, inp.rung);
            MayRing(inp.c, l, TimesOf(inp, n), u, Again(inp.c, l, pending, u)) <==>
            (exists id :: id in pending && DueNow(inp, a, session, id)) && !ExtraSpent(a, session) && |HourRings(inp, n)| < inp.c.budget && Paced(inp, n)
  {
    LedgerSays(inp, n, a, session);
    DueSays(inp, n, a, session, pending);
    HourCount(inp.c, TimesOf(inp, n));
    assert TimesOf(inp, n) == TimesIn(inp, n);
    var l, u := LedgerOf(a, session, inp.mono), Unrung(session, pending, inp.rung);
    var due := DueSet(inp, a, session, pending);
    hide LedgerOf, Unrung, Again, DueNow, ExtraSpent, HasStuck, CountOf, StuckAlready, RingsOver, RingsInHour, OpenWf, AtCap, DroppedNow;
    if due != {} { var id :| id in due; }
    if id :| id in pending && DueNow(inp, a, session, id) { assert id in due; }
    assert Coalescing(inp.c, TimesOf(inp, n)) <==> !Paced(inp, n);
  }

  lemma RingIs(inp: Input, n: Str, a: Acct, session: Str, pending: set<Str>, binding: Str, id: Str)
    requires OpenWf(a.open, n)
    ensures var l, u := LedgerOf(a, session, inp.mono), Unrung(session, pending, inp.rung);
            IsRing(inp, n, a, session, pending, binding, IntentOf(inp.c, n, session, binding, l, u, Again(inp.c, l, pending, u), id))
  {
    var l, u := LedgerOf(a, session, inp.mono), Unrung(session, pending, inp.rung);
    var again := Again(inp.c, l, pending, u);
    var ids := RingIdsOf(u, again);
    hide *;
    LedgerSays(inp, n, a, session);
    DueSays(inp, n, a, session, pending);
    Rounded(inp.c);
    NamedIds(u, again);
    DuePending(inp, a, session, pending);
    IntentFields(inp.c, n, session, binding, l, u, again, id);
    RingFields(inp, n, a, session, pending, binding, u, IntentOf(inp.c, n, session, binding, l, u, again, id));
  }

  lemma NamedIds(u: set<Str>, again: set<Str>)
    ensures FirstNamed(RingIdsOf(u, again), u + again)
  {
    FirstSorted(u + again);
    hide FirstNamed;
  }

  lemma DuePending(inp: Input, a: Acct, session: Str, pending: set<Str>)
    ensures DueSet(inp, a, session, pending) <= pending
  {
    hide DueNow;
  }

  lemma IntentFields(c: Config, n: Str, session: Str, binding: Str, l: Ledger, u: set<Str>, again: set<Str>, id: Str)
    ensures var i := IntentOf(c, n, session, binding, l, u, again, id);
            i.at == c.at && i.agent == n && i.session == session && i.binding == binding && i.mono == MonoMs(c) && (i.during <==> l.unresponsive.Some?) &&
            i.ids == RingIdsOf(u, again) && |i.kinds| == |i.ids| && forall j :: 0 <= j < |i.ids| ==> i.kinds[j] == if i.ids[j] in u then New else StillPending
  {
    hide RingIdsOf, MonoMs;
  }

  lemma RingFields(inp: Input, n: Str, a: Acct, session: Str, pending: set<Str>, binding: Str, u: set<Str>, i: IntentRec)
    requires i.at == inp.c.at && i.agent == n && i.session == session && i.binding == binding && OnClock(inp.c, i.mono) && (i.during <==> Escalated(a, session))
    requires FirstNamed(i.ids, DueSet(inp, a, session, pending)) && DueSet(inp, a, session, pending) <= pending && |i.kinds| == |i.ids|
    requires (forall id :: id in pending ==> (id in u <==> !Known(inp, session, id))) && forall j :: 0 <= j < |i.ids| ==> i.kinds[j] == if i.ids[j] in u then New else StillPending
    ensures IsRing(inp, n, a, session, pending, binding, i)
  {
    hide DueSet, Escalated, OnClock, Known, Ascending, Less;
    forall j | 0 <= j < |i.ids| ensures i.ids[j] in pending { assert i.ids[j] in Elems(i.ids); }
    hide FirstNamed;
  }

  // ---------------------------------------------------------------- the plan's rings

  /** The one row of the board table where a ring may be made. */
  ghost predicate RingRow(inp: Input, n: Str)
  {
    inp.ownHost != "" && Candidate(inp, n) && n in inp.inbox && Waiting(inp.inbox[n]) && Actuated(inp, n, inp.inbox[n])
  }

  /** An agent's rings in a plan: its intents, and the ids it drops. */
  ghost predicate RingsIn(plan: seq<Rec>, n: Str, rings: seq<Rec>)
  {
    forall r :: r in rings <==> r in plan && AgentOf(r) == Some(n) && (r.Intent? || StuckOpen(r))
  }

  ghost predicate LiveBinding(inp: Input, n: Str, id: Str)
  {
    exists i :: Mine(inp, n, i) && LiveHere(inp, inp.bindings[i]) && inp.bindings[i].id == id
  }

  lemma JudgedNotRung(inp: Input, n: Str, read: PendingRead, k: nat)
    requires Ready(inp, n, k)
    ensures forall r :: r in JudgeOf(inp, n, read, k) ==> !r.Intent? && !StuckOpen(r)
  {
    hide *;
    JudgementSays(inp, n, read, k);
    if read.session.Some? {
      OpensNoStuck(inp.c, n, Account(inp.log, n), read.session.value, inp.mono, Elems(read.ids), JudgeOf(inp, n, read, k));
    }
  }

  lemma OpensNoStuck(c: Config, n: Str, a: Acct, session: Str, mono: map<Str, int>, pending: set<Str>, recs: seq<Rec>)
    requires OpensSay(c, n, a, session, mono, pending, recs) && forall r :: r in recs ==> r.Effect? || r.Escalation?
    ensures forall r :: r in recs ==> !r.Intent? && !StuckOpen(r)
  {
    hide CounterAfter, StaysEscalated, Rung, Witnessed;
    forall r | r in recs && r.Escalation? ensures r == Escalation(r.x) {}
  }

  /** The parts of an agent's records, each of its own kinds. */
  lemma AgentMembers(inp: Input, n: Str, read: PendingRead, k: nat) returns (B: seq<Rec>, m: nat)
    ensures (forall r :: r in B ==> r.Board?)
    ensures !read.registered ==> forall r :: r in AgentRecs(inp, n, read, k) <==> r in B
    ensures read.registered ==> forall r :: r in AgentRecs(inp, n, read, k) <==>
              r in JudgeOf(inp, n, read, k) || r in BudgetRecs(inp, n, read.session) || r in B || (read.ids != [] && r in RingPart(inp, n, read, m, k))
  {
    hide JudgeOf, BudgetRecs, BoardTo, MailRecs, BoardPart, RingPart;
    m := k;
    if !read.registered {
      BoardOnly(inp.c, n, CurBoard(inp, n), None, 0, NoMail, inp.uid, k);
      B := BoardTo(inp.c, n, CurBoard(inp, n), None, 0, NoMail, inp.uid, k);
    } else {
      m := k + |JudgeOf(inp, n, read, k) + BudgetRecs(inp, n, read.session)|;
      if read.ids == [] {
        BoardOnly(inp.c, n, CurBoard(inp, n), None, 0, NoMail, inp.uid, m);
        B := BoardTo(inp.c, n, CurBoard(inp, n), None, 0, NoMail, inp.uid, m);
      } else {
        MailParts(inp, n, read, m, k);
        B := BoardPart(inp, n, read, m);
      }
    }
  }

  ghost predicate RingOf(inp: Input, n: Str, read: PendingRead, k: nat, binding: Str, R: seq<Rec>)
  {
    read.session.Some? &&
    exists m: nat :: R == RingRecs(inp, n, read.session.value, LedgerAfter(inp, n, read.session.value, Elems(read.ids), k), Elems(read.ids), binding, m)
  }

  /** An agent's own rings, where it is a candidate with mail. */
  lemma AgentRings(inp: Input, n: Str, read: PendingRead, k: nat) returns (R: seq<Rec>, binding: Str)
    requires Ready(inp, n, k)
    ensures forall r :: r in R <==> r in AgentRecs(inp, n, read, k) && (r.Intent? || StuckOpen(r))
    ensures !(Waiting(read) && Actuated(inp, n, read)) ==> R == []
    ensures Waiting(read) && Actuated(inp, n, read) ==> LiveBinding(inp, n, binding) && RingOf(inp, n, read, k, binding, R)
  {
    R, binding := [], "";
    JudgedNotRung(inp, n, read, k);
    BudgetOnly(inp, n, read.session);
    var B, m := AgentMembers(inp, n, read, k);
    if Waiting(read) {
      RingOnly(inp, n, read, m, k);
      R := RingPart(inp, n, read, m, k);
      binding := RingPartIs(inp, n, read, m, k);
    }
    hide JudgeOf, BudgetRecs, RingPart, Ready, Actuated, RingOf, LiveBinding, AgentRecs;
  }

  lemma RingPartIs(inp: Input, n: Str, read: PendingRead, k: nat, j: nat) returns (binding: Str)
    requires Waiting(read)
    ensures !Actuated(inp, n, read) ==> RingPart(inp, n, read, k, j) == []
    ensures Actuated(inp, n, read) ==> LiveBinding(inp, n, binding) && RingOf(inp, n, read, j, binding, RingPart(inp, n, read, k, j))
  {
    hide *;
    binding := "";
    RowDecides(inp, n, read);
    RingPartShape(inp, n, read, k, j);
    FirstLives(inp, n);
    if Actuated(inp, n, read) {
      binding := AliveOf(OfAgent(inp.bindings, n), inp.ownHost)[0].id;
      RingOfIs(inp, n, read, j, binding, k + |BoardPart(inp, n, read, k)|);
    }
  }

  lemma RingOfIs(inp: Input, n: Str, read: PendingRead, k: nat, binding: Str, m: nat)
    requires read.session.Some?
    ensures RingOf(inp, n, read, k, binding,
                   RingRecs(inp, n, read.session.value, LedgerAfter(inp, n, read.session.value, Elems(read.ids), k), Elems(read.ids), binding, m))
  {
    hide RingRecs, LedgerAfter;
  }

  lemma RingPartShape(inp: Input, n: Str, read: PendingRead, k: nat, j: nat)
    ensures var d, alive := Decide(inp, n, read, OfAgent(inp.bindings, n)), AliveOf(OfAgent(inp.bindings, n), inp.ownHost);
            RingPart(inp, n, read, k, j) ==
            if d.Show? && d.ring && read.session.Some? && alive != []
            then RingRecs(inp, n, read.session.value, LedgerAfter(inp, n, read.session.value, Elems(read.ids), j), Elems(read.ids), alive[0].id, k + |BoardPart(inp, n, read, k)|)
            else []
  {
    hide Decide, OfAgent, AliveOf, LedgerAfter, BoardPart, RingRecs;
  }

  lemma RowDecides(inp: Input, n: Str, read: PendingRead)
    requires Waiting(read)
    ensures var d, alive := Decide(inp, n, read, OfAgent(inp.bindings, n)), AliveOf(OfAgent(inp.bindings, n), inp.ownHost);
            d.Show? && d.ring && read.session.Some? && alive != [] <==> Actuated(inp, n, read)
  {
    DecisionExactly(inp, n, read);
    ActuatedFits(inp, n, read);
    WindowsMean(inp, n);
    hide Decide, OfAgent, AliveOf, NotDeadOf, Actuated, HasLive, Ambiguous, CaseOf, WatchSays, Held, DeadAt;
  }

  lemma FirstLives(inp: Input, n: Str)
    ensures var alive := AliveOf(OfAgent(inp.bindings, n), inp.ownHost); alive != [] ==> LiveBinding(inp, n, alive[0].id)
  {
    WindowsHold(inp, n);
    hide OfAgent, AliveOf, NotDeadOf, Mine, LiveHere, ShownDead;
    var alive := AliveOf(OfAgent(inp.bindings, n), inp.ownHost);
    if alive != [] { assert alive[0] in alive; }
  }

  lemma ActuatedFits(inp: Input, n: Str, read: PendingRead)
    ensures Actuated(inp, n, read) ==> read.session.Some? && HasLive(inp, n) && !Held(inp, n, read)
  {
    hide HasLive, Ambiguous;
  }

  lemma UnreadRings(inp: Input, n: Str)
    requires ReadyCycle(inp) && (inp.ownHost == "" || n !in inp.inbox)
    ensures forall r :: r in Plan(inp) ==> AgentOf(r) != Some(n)
  {
    hide ReadyCycle, AllRecs;
    PlanAgents(inp);
  }

  lemma RowSays(inp: Input, n: Str, read: PendingRead, k: nat, R: seq<Rec>, binding: Str)
    requires Ready(inp, n, k) && RingOf(inp, n, read, k, binding, R)
    ensures var a, rs, p := Account(inp.log + JudgeOf(inp, n, read, k), n), read.session.value, Elems(read.ids);
            IntentSays(inp, n, a, rs, p, binding, R) && StuckSays(inp, n, a, rs, p, R)
  {
    var m: nat :| R == RingRecs(inp, n, read.session.value, LedgerAfter(inp, n, read.session.value, Elems(read.ids), k), Elems(read.ids), binding, m);
    JudgeOfFits(inp, n, read, k);
    RunConcat(NOTHING, inp.log, JudgeOf(inp, n, read, k), n);
    var b := Run(Account(inp.log, n), JudgeOf(inp, n, read, k), n);
    WfParts(b, n);
    assert Account(inp.log + JudgeOf(inp, n, read, k), n) == b;
    hide *;
    RingSays(inp, n, b, read.session.value, Elems(read.ids), binding, m);
  }

  lemma MainRings(inp: Input, n: Str, k: nat) returns (R: seq<Rec>, binding: Str)
    requires ReadyCycle(inp) && inp.ownHost != "" && n in inp.inbox && Candidate(inp, n)
    ensures forall r :: r in R <==> r in AgentRecs(inp, n, inp.inbox[n], k) && (r.Intent? || StuckOpen(r))
    ensures !RingRow(inp, n) ==> R == []
    ensures RingRow(inp, n) ==>
              LiveBinding(inp, n, binding) &&
              var read := inp.inbox[n];
              var a := Account(inp.log + JudgeOf(inp, n, read, k), n);
              IntentSays(inp, n, a, read.session.value, Elems(read.ids), binding, R) && StuckSays(inp, n, a, read.session.value, Elems(read.ids), R)
  {
    var read := inp.inbox[n];
    ReadyCycleAt(inp, n, k);
    RowActs(inp, n);
    ActuatedFits(inp, n, read);
    hide *;
    R, binding := AgentRings(inp, n, read, k);
    if RingRow(inp, n) { RowSays(inp, n, read, k, R, binding); }
  }

  lemma RowActs(inp: Input, n: Str)
    requires inp.ownHost != "" && n in inp.inbox && Candidate(inp, n)
    ensures RingRow(inp, n) <==> Waiting(inp.inbox[n]) && Actuated(inp, n, inp.inbox[n])
  {
    hide Candidate, Actuated;
  }

  lemma RowFits(inp: Input, n: Str)
    ensures RingRow(inp, n) ==> inp.ownHost != "" && n in inp.inbox && Candidate(inp, n) && inp.inbox[n].registered && inp.inbox[n].session.Some?
  {
    hide Candidate, HasLive, Ambiguous;
  }

  /**
    * The plan's rings of an agent: none but in the one row of the board table that allows them; there, exactly the
    * intent and the dropped ids that its account after this cycle's judgement, the rung memory and its ring times give.
    */
  lemma RingExactly(inp: Input, n: Str) returns (k: nat, R: seq<Rec>, binding: Str)
    requires ReadyCycle(inp)
    ensures RingsIn(Plan(inp), n, R) && (!RingRow(inp, n) ==> R == [])
    ensures RingRow(inp, n) ==>
              Evaluated(inp, n) && inp.inbox[n].session.Some? && LiveBinding(inp, n, binding) &&
              var read := inp.inbox[n];
              var a := Account(inp.log + JudgeOf(inp, n, read, k), n);
              IntentSays(inp, n, a, read.session.value, Elems(read.ids), binding, R) && StuckSays(inp, n, a, read.session.value, Elems(read.ids), R)
  {
    k, R, binding := 0, [], "";
    RowFits(inp, n);
    if inp.ownHost == "" || n !in inp.inbox {
      UnreadRings(inp, n);
      NoRingsIn(inp, n, Plan(inp));
      hide *;
    } else {
      k, R, binding := ReadRings(inp, n);
      if RingRow(inp, n) { RowEvaluated(inp, n); }
      hide *;
    }
  }

  lemma RowEvaluated(inp: Input, n: Str)
    requires RingRow(inp, n)
    ensures Evaluated(inp, n)
  {
    hide Candidate, HasLive, Ambiguous, HasHistory;
  }

  lemma NoRingsIn(inp: Input, n: Str, plan: seq<Rec>)
    requires forall r :: r in plan ==> AgentOf(r) != Some(n)
    ensures RingsIn(plan, n, [])
  {
    hide StuckOpen, AgentOf;
  }

  lemma ReadRings(inp: Input, n: Str) returns (k: nat, R: seq<Rec>, binding: Str)
    requires ReadyCycle(inp) && inp.ownHost != "" && n in inp.inbox
    ensures RingsIn(Plan(inp), n, R) && (!RingRow(inp, n) ==> R == [])
    ensures RingRow(inp, n) ==>
              inp.inbox[n].session.Some? && LiveBinding(inp, n, binding) &&
              var read := inp.inbox[n];
              var a := Account(inp.log + JudgeOf(inp, n, read, k), n);
              IntentSays(inp, n, a, read.session.value, Elems(read.ids), binding, R) && StuckSays(inp, n, a, read.session.value, Elems(read.ids), R)
  {
    hide *;
    k := OwnParts(inp, n);
    R, binding := [], "";
    ReadyCycleAt(inp, n, k);
    if Candidate(inp, n) {
      R, binding := MainRings(inp, n, k);
      RowFits(inp, n);
      RingsOfOwn(Plan(inp), n, AgentRecs(inp, n, inp.inbox[n], k), R);
    } else {
      RowFits(inp, n);
      AbsentRings(inp, n, k);
      RingsOfOwn(Plan(inp), n, Own(Plan(inp), n), []);
    }
  }

  lemma OwnParts(inp: Input, n: Str) returns (k: nat)
    requires ReadyCycle(inp) && inp.ownHost != "" && n in inp.inbox
    ensures Candidate(inp, n) ==> Own(Plan(inp), n) == AgentRecs(inp, n, inp.inbox[n], k)
    ensures !Candidate(inp, n) ==> Own(Plan(inp), n) == AbsentRecs(inp, n, inp.inbox[n], k) || Own(Plan(inp), n) == []
  {
    CandidateIsMain(inp, n);
    k := OwnPlan(inp, n);
    hide ReadyCycle, Own, AgentRecs, AbsentRecs, MainNames, LedgerAgents, Candidate, AllRecs, Plan;
  }

  lemma RingsOfOwn(plan: seq<Rec>, n: Str, own: seq<Rec>, R: seq<Rec>)
    requires own == Own(plan, n) && forall r :: r in R <==> r in own && (r.Intent? || StuckOpen(r))
    ensures RingsIn(plan, n, R)
  {
    OwnMembers(plan, n);
    hide Own, StuckOpen, AgentOf;
  }

  lemma AbsentRings(inp: Input, n: Str, k: nat)
    requires Ready(inp, n, k) && n in inp.inbox
    ensures forall r :: r in AbsentRecs(inp, n, inp.inbox[n], k) ==> !r.Intent? && !StuckOpen(r)
  {
    JudgedNotRung(inp, n, inp.inbox[n], k);
    hide JudgeOf, StuckOpen;
  }

  // ---------------------------------------------------------------- the budget's record

  ghost predicate BoundHere(inp: Input, n: Str)
  {
    exists i :: Mine(inp, n, i) && inp.bindings[i].host == inp.ownHost
  }

  /** A budget change is recorded for a registered candidate, with a session and a binding on this host, exactly when what is on record is no longer so. */
  ghost predicate BudgetChanged(inp: Input, n: Str)
  {
    inp.ownHost != "" && Candidate(inp, n) && n in inp.inbox && inp.inbox[n].registered && inp.inbox[n].session.Some? && BoundHere(inp, n) &&
    (|HourRings(inp, n)| >= inp.c.budget <==> n !in inp.exhausted)
  }

  lemma BudgetExactly(inp: Input, n: Str, g: BudgetRec)
    requires ReadyCycle(inp)
    ensures Budget(g) in Plan(inp) && g.agent == n <==>
            BudgetChanged(inp, n) && g == BudgetRec(inp.c.at, n, |HourRings(inp, n)| >= inp.c.budget, |HourRings(inp, n)|, inp.c.budget)
  {
    CandidateIsMain(inp, n);
    if inp.ownHost == "" || n !in inp.inbox {
      UnreadRings(inp, n);
      assert AgentOf(Budget(g)) == Some(g.agent);
      hide *;
    } else {
      var k := OwnPlan(inp, n);
      OwnMembers(Plan(inp), n);
      assert AgentOf(Budget(g)) == Some(g.agent);
      BudgetOfAgent(inp, n, k, g);
      hide BudgetChanged, ReadyCycle, Own, AgentRecs, AbsentRecs, MainNames, LedgerAgents, Candidate, AllRecs, HourRings, AgentOf;
    }
  }

  lemma BudgetOfAgent(inp: Input, n: Str, k: nat, g: BudgetRec)
    requires n in inp.inbox && inp.ownHost != ""
    ensures Budget(g) !in AbsentRecs(inp, n, inp.inbox[n], k)
    ensures Candidate(inp, n) ==>
            (Budget(g) in AgentRecs(inp, n, inp.inbox[n], k) <==>
             BudgetChanged(inp, n) && g == BudgetRec(inp.c.at, n, |HourRings(inp, n)| >= inp.c.budget, |HourRings(inp, n)|, inp.c.budget))
  {
    var read := inp.inbox[n];
    JudgeVerdicts(inp, n, read, k);
    BudgetIs(inp, n, read.session, g);
    var B, m := AgentMembers(inp, n, read, k);
    RingOnly(inp, n, read, m, k);
    hide JudgeOf, BudgetRecs, RingPart, AgentRecs, Candidate, HourRings, BoundHere;
    assert Budget(g) !in B && Budget(g) !in RingPart(inp, n, read, m, k);
  }

  lemma BudgetIs(inp: Input, n: Str, session: Option<Str>, g: BudgetRec)
    ensures Budget(g) in BudgetRecs(inp, n, session) <==>
            session.Some? && BoundHere(inp, n) && (|HourRings(inp, n)| >= inp.c.budget <==> n !in inp.exhausted) &&
            g == BudgetRec(inp.c.at, n, |HourRings(inp, n)| >= inp.c.budget, |HourRings(inp, n)|, inp.c.budget)
  {
    HourCount(inp.c, TimesOf(inp, n));
    assert TimesOf(inp, n) == TimesIn(inp, n);
    OfAgentMembers(inp.bindings, n);
    hide OfAgent, RingsInHour, HourPlaces;
    assert BoundHere(inp, n) <==> exists b :: b in OfAgent(inp.bindings, n) && b.host == inp.ownHost by {
      if b :| b in OfAgent(inp.bindings, n) && b.host == inp.ownHost {
        var i :| 0 <= i < |inp.bindings| && inp.bindings[i] == b;
        assert Mine(inp, n, i);
      }
    }
  }
}
