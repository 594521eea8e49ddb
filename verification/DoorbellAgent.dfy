/**
  * Everything one cycle writes for one agent, its judgement, its budget change, its board moves and its ring, fits
  * that agent's history, record after record.
  */
module DoorbellAgent {
  import opened Canon
  import opened DoorbellLog
  import opened DoorbellLedger
  import opened DoorbellPlan
  import opened DoorbellAdmit
  import opened DoorbellJudge
  import opened DoorbellSettle
  import opened DoorbellCoherence
  import opened Wrappers

  // ---------------------------------------------------------------- records that judge nothing

  predicate Inert(r: Rec, n: Str)
  {
    (r.Board? || r.Budget?) && AgentOf(r) == Some(n)
  }

  lemma {:induction false} InertRun(a: Acct, n: Str, v: View, recs: seq<Rec>)
    requires forall r :: r in recs ==> Inert(r, n)
    ensures AllFit(a, n, v, recs) && Run(a, recs, n) == a
    decreases |recs|
  {
    if recs != [] {
      InertRun(a, n, v, recs[..|recs| - 1]);
      assert recs[|recs| - 1] in recs;
    }
  }

  lemma BoardInert(c: Config, n: Str, cur: Option<BoardRec>, next: Option<Case>, count: nat, why: BoardClose, uid: nat -> Str, k: nat)
    requires cur.Some? ==> cur.value.agent == n
    ensures forall r :: r in BoardTo(c, n, cur, next, count, why, uid, k) ==> Inert(r, n)
  {
  }

  // ---------------------------------------------------------------- ids dropped from re-ring

  function StuckOpens(c: Config, n: Str, session: Str, ids: seq<Str>, uid: nat -> Str, k: nat): seq<OpenEsc>
  {
    if ids == [] then []
    else
      var m := |ids| - 1;
      StuckOpens(c, n, session, ids[..m], uid, k) +
      [OpenEsc(OpenOf(c, n, session, IdStuck, [ids[m]], uid(k + m)), {ids[m]}, false)]
  }

  lemma {:induction false} StuckOpensMembers(c: Config, n: Str, session: Str, ids: seq<Str>, uid: nat -> Str, k: nat)
    ensures var o := StuckOpens(c, n, session, ids, uid, k);
            |o| == |ids| &&
            forall j :: 0 <= j < |ids| ==> o[j] == OpenEsc(OpenOf(c, n, session, IdStuck, [ids[j]], uid(k + j)), {ids[j]}, false)
  {
    if ids != [] { StuckOpensMembers(c, n, session, ids[..|ids| - 1], uid, k); }
  }

  /** May `id` be dropped from re-ring in account `a`? */
  predicate Stickable(a: Acct, session: Str, v: View, id: Str)
  {
    id in RungIds(a.rings, session) && id in v.pending &&
    forall e :: e in a.open && e.rec.session == session && e.rec.reason == IdStuck && e.rec.ids != [] ==> e.rec.ids[0] != id
  }

  lemma StuckOne(c: Config, n: Str, session: Str, a: Acct, v: View, ids: seq<Str>, m: nat, uid: nat -> Str, k: nat)
    requires m < |ids| && Ascending(ids) && v.session == Some(session) && Stickable(a, session, v, ids[m])
    requires Supply(uid) && UnusedFrom(a, uid, k)
    ensures var b := a.(open := a.open + StuckOpens(c, n, session, ids[..m], uid, k));
            var x := OpenOf(c, n, session, IdStuck, [ids[m]], uid(k + m));
            Fits(b, n, v, Escalation(x)) &&
            Step(b, Escalation(x), n) == a.(open := b.open + [OpenEsc(x, {ids[m]}, false)])
  {
    var o := StuckOpens(c, n, session, ids[..m], uid, k);
    var b := a.(open := a.open + o);
    var x := OpenOf(c, n, session, IdStuck, [ids[m]], uid(k + m));
    StuckOpensMembers(c, n, session, ids[..m], uid, k);
    AscendingDistinct(ids);
    assert Unused(a, uid(k + m));
    forall j | 0 <= j < |b.open| ensures b.open[j].rec.id != x.id && !SameKey(b.open[j].rec, x)
    {
      if j < |a.open| {
        assert b.open[j] == a.open[j] && a.open[j] in a.open;
      } else {
        assert b.open[j] == o[j - |a.open|];
      }
    }
    assert Elems([ids[m]]) == {ids[m]};
  }

  lemma {:induction false} StuckRun(c: Config, n: Str, session: Str, a: Acct, v: View, ids: seq<Str>, uid: nat -> Str, k: nat)
    requires Ascending(ids) && v.session == Some(session) && Supply(uid) && UnusedFrom(a, uid, k)
    requires forall id :: id in ids ==> Stickable(a, session, v, id)
    ensures AllFit(a, n, v, StuckRecs(c, n, session, ids, uid, k))
    ensures Run(a, StuckRecs(c, n, session, ids, uid, k), n) == a.(open := a.open + StuckOpens(c, n, session, ids, uid, k))
    ensures |StuckRecs(c, n, session, ids, uid, k)| == |ids|
    decreases |ids|
  {
    if ids == [] {
      RunNone(a, n, v);
      assert a.open + [] == a.open;
    } else {
      var m := |ids| - 1;
      AscendingPart(ids, 0, m);
      var q, r := StuckRecs(c, n, session, ids[..m], uid, k), Escalation(OpenOf(c, n, session, IdStuck, [ids[m]], uid(k + m)));
      var o := StuckOpens(c, n, session, ids[..m], uid, k);
      assert StuckRecs(c, n, session, ids, uid, k) == q + [r];
      assert StuckOpens(c, n, session, ids, uid, k) == o + [OpenEsc(r.x, {ids[m]}, false)];
      hide *;
      StuckRun(c, n, session, a, v, ids[..m], uid, k);
      StuckOne(c, n, session, a, v, ids, m, uid, k);
      AllFitSnoc(a, n, v, q, r);
      assert (a.open + o) + [OpenEsc(r.x, {ids[m]}, false)] == a.open + (o + [OpenEsc(r.x, {ids[m]}, false)]);
    }
  }

  /** New `id_stuck` escalations leave the open `agent_unresponsive` one as it is. */
  lemma {:induction false} StuckUnseen(c: Config, n: Str, session: Str, open: seq<OpenEsc>, ids: seq<Str>, uid: nat -> Str, k: nat)
    ensures UnresponsiveOf(open + StuckOpens(c, n, session, ids, uid, k), session) == UnresponsiveOf(open, session)
  {
    var o := StuckOpens(c, n, session, ids, uid, k);
    if ids == [] {
      assert open + o == open;
    } else {
      StuckUnseen(c, n, session, open, ids[..|ids| - 1], uid, k);
      assert (open + o)[..|open + o| - 1] == open + StuckOpens(c, n, session, ids[..|ids| - 1], uid, k);
    }
  }

  lemma StuckUnused(c: Config, n: Str, session: Str, a: Acct, ids: seq<Str>, uid: nat -> Str, k: nat)
    requires Supply(uid) && UnusedFrom(a, uid, k)
    ensures UnusedFrom(a.(open := a.open + StuckOpens(c, n, session, ids, uid, k)), uid, k + |ids|)
  {
    var o := StuckOpens(c, n, session, ids, uid, k);
    StuckOpensMembers(c, n, session, ids, uid, k);
    forall j: nat | j >= k + |ids| ensures Unused(a.(open := a.open + o), uid(j))
    {
      assert Unused(a, uid(j));
      forall m | 0 <= m < |a.open + o| ensures (a.open + o)[m].rec.id != uid(j)
      {
        if m < |a.open| { assert (a.open + o)[m] == a.open[m]; } else { assert (a.open + o)[m] == o[m - |a.open|]; }
      }
    }
  }

  // ---------------------------------------------------------------- the ring

  /** Rung memory holds every (session, id) the account's rings covered. */
  predicate RungKnown(rings: seq<IntentRec>, rung: set<(Str, Str)>)
  {
    forall i, id :: i in rings && id in i.ids ==> (i.session, id) in rung
  }

  lemma {:induction false} NeverCovered(rings: seq<IntentRec>, session: Str, id: Str)
    requires id !in RungIds(rings, session)
    ensures Covers(rings, session, id) == 0
  {
    if rings != [] { NeverCovered(rings[..|rings| - 1], session, id); }
  }

  /** An id an intent covers has been rung fewer than RE_RING_CAP times. */
  lemma UnderCap(c: Config, n: Str, session: Str, a: Acct, mono: map<Str, int>, rung: set<(Str, Str)>, l: Ledger, ids: set<Str>, id: Str)
    requires RungKnown(a.rings, rung) && l.count == LedgerOf(a, session, mono).count && l.last.Keys <= l.count.Keys
    requires var u := Unrung(session, ids, rung); id in u + Again(c, l, ids, u)
    ensures Covers(a.rings, session, id) < RE_RING_CAP
  {
    RungIdsMembers(a.rings, session);
    if id !in RungIds(a.rings, session) { NeverCovered(a.rings, session, id); }
  }

  lemma RingIdsFacts(u: set<Str>, again: set<Str>)
    requires u + again != {}
    ensures var ids := RingIdsOf(u, again); ids != [] && Ascending(ids) && forall x :: x in ids ==> x in u + again
  {
    var s := SortedSet(u + again);
    var ids := RingIdsOf(u, again);
    assert |s| > 0;
    assert forall j :: 0 <= j < |ids| ==> ids[j] == s[j] && ids[j] in s;
  }

  lemma RingOpenFits(open: seq<OpenEsc>, session: Str, n: Str, u: Option<OpenEsc>)
    requires OpenWf(open, n) && UnresponsiveOf(open, session) == u && !(u.Some? && u.value.extra)
    ensures forall e :: e in open && e.rec.session == session && e.rec.reason == Unresponsive ==> u.Some? && !e.extra
    ensures u.Some? ==> exists e :: e in open && e.rec.session == session && e.rec.reason == Unresponsive
  {
    UnresponsiveIsOpen(open, session);
    forall e | e in open && e.rec.session == session && e.rec.reason == Unresponsive ensures u == Some(e)
    {
      UnresponsiveUnique(open, session, n, e);
    }
  }

  lemma RingFits(c: Config, n: Str, session: Str, a: Acct, mono: map<Str, int>, v: View, rung: set<(Str, Str)>, binding: Str, id: Str, times: seq<int>, b: Acct)
    requires v.session == Some(session) && RungKnown(a.rings, rung)
    requires b.rings == a.rings && Unused(b, id) && OpenWf(b.open, n)
    requires UnresponsiveOf(b.open, session) == UnresponsiveOf(a.open, session)
    requires var l := LedgerOf(a, session, mono);
             var u := Unrung(session, v.pending, rung);
             MayRing(c, l, times, u, Again(c, l, v.pending, u))
    ensures var l := LedgerOf(a, session, mono);
            var u := Unrung(session, v.pending, rung);
            Fits(b, n, v, Intent(IntentOf(c, n, session, binding, l, u, Again(c, l, v.pending, u), id)))
  {
    hide RungKnown, RingIdsOf, KindsOf, OpenWf, ExhaustedNow, Coalescing, RungIds, Covers, LastRing, SortRings, StuckOf;
    var l := LedgerOf(a, session, mono);
    var u := Unrung(session, v.pending, rung);
    var again := Again(c, l, v.pending, u);
    var ids := RingIdsOf(u, again);
    RingIdsFacts(u, again);
    forall x | x in ids ensures x in v.pending && Covers(b.rings, session, x) < RE_RING_CAP
    {
      UnderCap(c, n, session, a, mono, rung, l, v.pending, x);
    }
    RingOpenFits(b.open, session, n, l.unresponsive);
  }

  lemma CapStickable(c: Config, n: Str, session: Str, a: Acct, mono: map<Str, int>, v: View, unrung: set<Str>, id: Str)
    requires AcctWf(a, n) && v.session == Some(session)
    requires id in AtCap(c, LedgerOf(a, session, mono), v.pending, unrung)
    ensures Stickable(a, session, v, id)
  {
    var l := LedgerOf(a, session, mono);
    StuckOfMembers(a.open, session);
    forall e | e in a.open && e.rec.session == session && e.rec.reason == IdStuck && e.rec.ids != [] ensures e.rec.ids[0] != id
    {
      assert e.rec in l.stuck;
    }
  }

  /** The ring step's records fit, whatever the windows and the budget allow. */
  lemma RingRun(inp: Input, n: Str, session: Str, a: Acct, v: View, binding: Str, k: nat)
    requires AcctWf(a, n) && v.session == Some(session) && RungKnown(a.rings, inp.rung)
    requires Supply(inp.uid) && UnusedFrom(a, inp.uid, k)
    ensures AllFit(a, n, v, RingRecs(inp, n, session, LedgerOf(a, session, inp.mono), v.pending, binding, k))
  {
    hide AllFit, Run, LedgerOf, IntentOf, MayRing, Again, AtCap, AcctWf, Stickable, StuckRecs, StuckOpens, RungKnown, OpenWf, TimesOf, Fits;
    var c, l := inp.c, LedgerOf(a, session, inp.mono);
    var u := Unrung(session, v.pending, inp.rung);
    var again, cap := Again(c, l, v.pending, u), SortedSet(AtCap(c, l, v.pending, u));
    var stuck := StuckRecs(c, n, session, cap, inp.uid, k);
    forall id | id in cap ensures Stickable(a, session, v, id) { CapStickable(c, n, session, a, inp.mono, v, u, id); }
    StuckRun(c, n, session, a, v, cap, inp.uid, k);
    StuckUnseen(c, n, session, a.open, cap, inp.uid, k);
    StuckUnused(c, n, session, a, cap, inp.uid, k);
    RunWf(a, n, v, stuck);
    var b := Run(a, stuck, n);
    if MayRing(c, l, TimesOf(inp, n), u, again) {
      var id := inp.uid(k + |stuck|);
      WfParts(b, n);
      RingFits(c, n, session, a, inp.mono, v, inp.rung, binding, id, TimesOf(inp, n), b);
      var r := Intent(IntentOf(c, n, session, binding, l, u, again, id));
      AllFitOne(b, n, v, r);
      AllFitConcat(a, n, v, stuck, [r]);
    }
  }

  lemma WfParts(a: Acct, n: Str)
    requires AcctWf(a, n)
    ensures RingsWf(a.rings, n) && OpenWf(a.open, n)
  {
  }

  // ---------------------------------------------------------------- the whole agent

  function ViewOf(read: PendingRead): View
  {
    View(read.session, Elems(read.ids))
  }

  /** What a cycle may rely on about one agent's part of its input. */
  ghost predicate Ready(inp: Input, n: Str, k: nat)
  {
    var a := Account(inp.log, n);
    AcctWf(a, n) && RungKnown(a.rings, inp.rung) && Supply(inp.uid) && UnusedFrom(a, inp.uid, k) &&
    (n in inp.boardOpen ==> inp.boardOpen[n].agent == n)
  }

  lemma JudgeOfFits(inp: Input, n: Str, read: PendingRead, k: nat)
    requires Ready(inp, n, k)
    ensures var a := Account(inp.log, n);
            var b := Run(a, JudgeOf(inp, n, read, k), n);
            AllFit(a, n, ViewOf(read), JudgeOf(inp, n, read, k)) && AcctWf(b, n) && b.rings == a.rings &&
            UnusedFrom(b, inp.uid, k + |JudgeOf(inp, n, read, k)|) &&
            (read.session.Some? ==>
              LedgerOf(b, read.session.value, inp.mono) == LedgerAfter(inp, n, read.session.value, Elems(read.ids), k))
  {
    hide AllFit, Run, LedgerOf, MootRecs, JudgeRecs, Judged, AcctWf;
    var a := Account(inp.log, n);
    if read.session == None {
      RunNone(a, n, ViewOf(read));
    } else {
      JudgeCoherent(inp.c, n, read.session.value, a, inp.mono, ViewOf(read), inp.uid, k);
      RunWf(a, n, ViewOf(read), JudgeOf(inp, n, read, k));
    }
  }

  lemma UnusedLater(a: Acct, uid: nat -> Str, k: nat, m: nat)
    requires UnusedFrom(a, uid, k) && k <= m
    ensures UnusedFrom(a, uid, m)
  {
  }

  lemma MailFits(inp: Input, n: Str, read: PendingRead, a: Acct, k: nat, j: nat)
    requires AcctWf(a, n) && RungKnown(a.rings, inp.rung) && Supply(inp.uid) && UnusedFrom(a, inp.uid, k)
    requires n in inp.boardOpen ==> inp.boardOpen[n].agent == n
    requires read.session.Some? ==>
               LedgerOf(a, read.session.value, inp.mono) == LedgerAfter(inp, n, read.session.value, Elems(read.ids), j)
    ensures AllFit(a, n, ViewOf(read), MailRecs(inp, n, read, k, j))
  {
    hide AllFit, Run, LedgerOf, LedgerAfter, RingRecs, BoardTo, AcctWf, RungKnown, Decide;
    var v, bs := ViewOf(read), OfAgent(inp.bindings, n);
    match Decide(inp, n, read, bs)
    case Hold(_) => RunNone(a, n, v);
    case Show(next, _, ring) =>
      var board := BoardTo(inp.c, n, CurBoard(inp, n), next, |read.ids|, Resolved, inp.uid, k);
      BoardInert(inp.c, n, CurBoard(inp, n), next, |read.ids|, Resolved, inp.uid, k);
      InertRun(a, n, v, board);
      if ring && read.session.Some? && AliveOf(bs, inp.ownHost) != [] {
        UnusedLater(a, inp.uid, k, k + |board|);
        RingRun(inp, n, read.session.value, a, v, AliveOf(bs, inp.ownHost)[0].id, k + |board|);
        AllFitConcat(a, n, v, board, RingRecs(inp, n, read.session.value, LedgerOf(a, read.session.value, inp.mono),
                                              v.pending, AliveOf(bs, inp.ownHost)[0].id, k + |board|));
      }
  }

  /** Every record a cycle writes for an agent fits the agent's history at the point it is written. */
  lemma AgentFits(inp: Input, n: Str, read: PendingRead, k: nat)
    requires Ready(inp, n, k)
    ensures AllFit(Account(inp.log, n), n, ViewOf(read), AgentRecs(inp, n, read, k))
  {
    hide AllFit, Run, LedgerOf, LedgerAfter, BoardTo, AcctWf, RungKnown, MailRecs, JudgeOf;
    var a, v := Account(inp.log, n), ViewOf(read);
    var J := JudgeOf(inp, n, read, k);
    BoardInert(inp.c, n, CurBoard(inp, n), None, 0, NoMail, inp.uid, k);
    if !read.registered {
      InertRun(a, n, v, BoardTo(inp.c, n, CurBoard(inp, n), None, 0, NoMail, inp.uid, k));
    } else {
      JudgeOfFits(inp, n, read, k);
      var b := Run(a, J, n);
      var G := BudgetRecs(inp, n, read.session);
      InertRun(b, n, v, G);
      AllFitConcat(a, n, v, J, G);
      RunConcat(a, J, G, n);
      UnusedLater(b, inp.uid, k + |J|, k + |J + G|);
      if read.ids == [] {
        BoardInert(inp.c, n, CurBoard(inp, n), None, 0, NoMail, inp.uid, k + |J + G|);
        InertRun(b, n, v, BoardTo(inp.c, n, CurBoard(inp, n), None, 0, NoMail, inp.uid, k + |J + G|));
        AllFitConcat(a, n, v, J + G, BoardTo(inp.c, n, CurBoard(inp, n), None, 0, NoMail, inp.uid, k + |J + G|));
      } else {
        MailFits(inp, n, read, b, k + |J + G|, k);
        AllFitConcat(a, n, v, J + G, MailRecs(inp, n, read, k + |J + G|, k));
      }
    }
  }
}
