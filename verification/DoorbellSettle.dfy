/**
  * The rest of `judge`: progress, close, horizon and threshold, and the ledger that results, which is the one the log
  * derives.
  */
module DoorbellSettle {
  import opened Canon
  import opened DoorbellLog
  import opened DoorbellLedger
  import opened DoorbellPlan
  import opened DoorbellAdmit
  import opened DoorbellJudge
  import opened Wrappers

  // ---------------------------------------------------------------- the outstanding rings

  predicate SortedRings(s: seq<Ring>)
  {
    forall j, k :: 0 <= j < k < |s| ==> s[j].mono <= s[k].mono
  }

  predicate DistinctRings(s: seq<Ring>)
  {
    forall j, k :: 0 <= j < k < |s| ==> s[j].id != s[k].id
  }

  lemma {:induction false} InsertRingFacts(s: seq<Ring>, x: Ring)
    requires SortedRings(s) && DistinctRings(s) && forall y :: y in s ==> y.id != x.id
    ensures SortedRings(InsertRing(s, x)) && DistinctRings(InsertRing(s, x))
    ensures |InsertRing(s, x)| == |s| + 1
  {
    if s != [] && s[|s| - 1].mono > x.mono {
      var p, y := s[..|s| - 1], s[|s| - 1];
      InsertRingFacts(p, x);
      InsertRingMembers(p, x);
      var r := InsertRing(p, x);
      forall k | 0 <= k < |r| ensures r[k].mono <= y.mono && r[k].id != y.id
      {
        assert r[k] in r;
        if r[k] in p {
          var j :| 0 <= j < |p| && p[j] == r[k];
          assert s[j] == r[k];
        }
      }
    }
  }

  lemma {:induction false} SortRingsFacts(rings: seq<IntentRec>, mono: map<Str, int>)
    requires DistinctRecs(rings)
    ensures SortedRings(SortRings(rings, mono)) && DistinctRings(SortRings(rings, mono))
    ensures |SortRings(rings, mono)| == |rings|
  {
    if rings != [] {
      var p, i := rings[..|rings| - 1], rings[|rings| - 1];
      SortRingsFacts(p, mono);
      SortRingsMembers(p, mono);
      forall y | y in SortRings(p, mono) ensures y.id != i.id
      {
        var j :| j in p && j.id == y.id;
      }
      InsertRingFacts(SortRings(p, mono), Ring(i.id, MonoOf(mono, i.id)));
    }
  }

  lemma {:induction false} UnjudgedDistinct(rings: seq<IntentRec>, judged: set<Str>)
    requires DistinctRecs(rings)
    ensures DistinctRecs(Unjudged(rings, judged))
  {
    if rings != [] {
      var p, i := rings[..|rings| - 1], rings[|rings| - 1];
      UnjudgedDistinct(p, judged);
      UnjudgedMembers(p, judged);
      var u := Unjudged(p, judged);
      forall k | 0 <= k < |u| ensures u[k].id != i.id { assert u[k] in u; }
    }
  }

  lemma {:induction false} OfSessionDistinct(rings: seq<IntentRec>, session: Str)
    requires DistinctRecs(rings)
    ensures DistinctRecs(OfSession(rings, session))
  {
    if rings != [] {
      var p, i := rings[..|rings| - 1], rings[|rings| - 1];
      OfSessionDistinct(p, session);
      OfSessionMembers(p, session);
      var u := OfSession(p, session);
      forall k | 0 <= k < |u| ensures u[k].id != i.id { assert u[k] in u; }
    }
  }

  /** What the outstanding rings of a ledger are. */
  lemma OutstandingFacts(a: Acct, n: Str, session: Str, mono: map<Str, int>)
    requires RingsWf(a.rings, n)
    ensures var o := LedgerOf(a, session, mono).outstanding;
            SortedRings(o) && DistinctRings(o) &&
            (forall x :: x in o ==> Judgeable(a, session, x.id) && x.mono == MonoOf(mono, x.id)) &&
            (forall i :: i in a.rings && i.session == session && i.id !in a.judged ==> Ring(i.id, MonoOf(mono, i.id)) in o)
  {
    var u := Unjudged(OfSession(a.rings, session), a.judged);
    OfSessionDistinct(a.rings, session);
    UnjudgedDistinct(OfSession(a.rings, session), a.judged);
    SortRingsFacts(u, mono);
    SortRingsMembers(u, mono);
    OfSessionMembers(a.rings, session);
    UnjudgedMembers(OfSession(a.rings, session), a.judged);
  }

  lemma {:induction false} UnjudgedNone(rings: seq<IntentRec>, judged: set<Str>)
    requires forall i :: i in rings ==> i.id in judged
    ensures Unjudged(rings, judged) == []
  {
    if rings != [] {
      assert rings[|rings| - 1] in rings;
      UnjudgedNone(rings[..|rings| - 1], judged);
    }
  }

  // ---------------------------------------------------------------- the horizon's cut

  lemma OverdueSnoc(c: Config, s: seq<Ring>, y: Ring)
    ensures Overdue(c, s + [y], false) == if Young(c, y.mono) then Overdue(c, s, false) + [y] else Overdue(c, s, false)
  {
    assert (s + [y])[..|s|] == s;
  }

  lemma InsertBefore(q: seq<Ring>, y: Ring, x: Ring)
    requires x.mono < y.mono
    ensures InsertRing(q + [y], x) == InsertRing(q, x) + [y]
  {
    assert (q + [y])[..|q|] == q;
  }

  /** A ring of a time no list holds a later one than goes to its end. */
  lemma InsertLast(s: seq<Ring>, x: Ring)
    requires s == [] || s[|s| - 1].mono <= x.mono
    ensures InsertRing(s, x) == s + [x]
  {
  }

  lemma SortedInit(s: seq<Ring>)
    requires SortedRings(s) && s != []
    ensures SortedRings(s[..|s| - 1]) && s == s[..|s| - 1] + [s[|s| - 1]]
  {
  }

  lemma {:induction false} InsertCut(c: Config, s: seq<Ring>, x: Ring)
    requires SortedRings(s)
    ensures Overdue(c, InsertRing(s, x), false)
         == if Young(c, x.mono) then InsertRing(Overdue(c, s, false), x) else Overdue(c, s, false)
  {
    hide *;
    if s == [] || s[|s| - 1].mono <= x.mono {
      InsertLast(s, x);
      OverdueSnoc(c, s, x);
      OverdueSorted(c, s, x.mono);
      InsertLast(Overdue(c, s, false), x);
    } else {
      var p, y := s[..|s| - 1], s[|s| - 1];
      SortedInit(s);
      InsertCut(c, p, x);
      InsertBefore(p, y, x);
      OverdueSnoc(c, InsertRing(p, x), y);
      OverdueSnoc(c, p, y);
      InsertBefore(Overdue(c, p, false), y, x);
      YoungLater(c, x.mono, y.mono);
    }
  }

  lemma YoungLater(c: Config, t: int, u: int)
    requires t <= u
    ensures Young(c, t) ==> Young(c, u)
  {
  }

  /** In a list whose times are at most `t`, so are the times of its young part. */
  lemma {:induction false} OverdueSorted(c: Config, s: seq<Ring>, t: int)
    requires SortedRings(s) && (s != [] ==> s[|s| - 1].mono <= t)
    ensures var q := Overdue(c, s, false); q != [] ==> q[|q| - 1].mono <= t
  {
    OverdueMembers(c, s, false);
    var q := Overdue(c, s, false);
    if q != [] { assert q[|q| - 1] in q; }
  }

  lemma {:induction false} SortAppend(u: seq<IntentRec>, i: IntentRec, mono: map<Str, int>)
    ensures SortRings(u + [i], mono) == InsertRing(SortRings(u, mono), Ring(i.id, MonoOf(mono, i.id)))
  {
    assert (u + [i])[..|u|] == u;
  }

  /** Dropping the overdue rings from the log's unjudged ones is cutting the sorted list at the horizon. */
  lemma {:induction false} HorizonCut(c: Config, rings: seq<IntentRec>, judged: set<Str>, over: set<Str>, mono: map<Str, int>)
    requires forall i :: i in rings && i.id !in judged ==> (i.id in over <==> !Young(c, MonoOf(mono, i.id)))
    requires DistinctRecs(rings)
    ensures SortRings(Unjudged(rings, judged + over), mono) == Overdue(c, SortRings(Unjudged(rings, judged), mono), false)
  {
    hide InsertRing, SortRings, Young;
    if rings == [] {
      SortNone(c, mono);
    } else {
      var p, i := rings[..|rings| - 1], rings[|rings| - 1];
      assert i in rings;
      HorizonCut(c, p, judged, over, mono);
      if i.id !in judged {
        var u, w := Unjudged(p, judged), Unjudged(p, judged + over);
        UnjudgedDistinct(p, judged);
        SortRingsFacts(u, mono);
        SortAppend(u, i, mono);
        SortAppend(w, i, mono);
        InsertCut(c, SortRings(u, mono), Ring(i.id, MonoOf(mono, i.id)));
      }
    }
  }

  lemma SortNone(c: Config, mono: map<Str, int>)
    ensures SortRings([], mono) == [] && Overdue(c, [], false) == []
  {
  }

  // ---------------------------------------------------------------- stage by stage

  function Progressed(a: Acct, session: Str, l: Ledger, pending: set<Str>): Acct
  {
    if LeftNow(l, pending) == {} then a
    else AfterEffect(a, session, Effective, RingIds(l.outstanding), LeftNow(l, pending))
  }

  /** The outstanding rings are the session's unjudged ones, all of them. */
  lemma OutstandingNamed(n: Str, session: Str, a: Acct, mono: map<Str, int>)
    requires RingsWf(a.rings, n)
    ensures var ii := SortedSet(RingIds(LedgerOf(a, session, mono).outstanding));
            AllNamed(a, session, ii) && forall x :: x in ii ==> Judgeable(a, session, x)
  {
    hide LedgerOf, RingsWf, Judgeable;
    OutstandingFacts(a, n, session, mono);
    var l := LedgerOf(a, session, mono);
    var ii := SortedSet(RingIds(l.outstanding));
    forall i | i in a.rings && i.session == session && i.id !in a.judged ensures i.id in ii
    {
      assert Ring(i.id, MonoOf(mono, i.id)) in l.outstanding;
    }
  }

  lemma LeftNowFits(session: Str, a: Acct, mono: map<Str, int>, p: set<Str>)
    requires LeftNow(LedgerOf(a, session, mono), p) != {}
    ensures var ll := SortedSet(LeftNow(LedgerOf(a, session, mono), p));
            ll != [] && forall id :: id in ll ==> id in RungIds(a.rings, session) && id !in p && (session, id) !in a.left
  {
    hide SortRings, Unjudged, OfSession, Covers, LastRing, UnresponsiveOf, StuckOf, RungIds;
    var s := LeftNow(LedgerOf(a, session, mono), p);
    var x :| x in s;
    assert x in SortedSet(s);
  }

  lemma ProgressIdsFit(n: Str, session: Str, a: Acct, mono: map<Str, int>, v: View)
    requires AcctWf(a, n) && v.session == Some(session) && LeftNow(LedgerOf(a, session, mono), v.pending) != {}
    ensures var l := LedgerOf(a, session, mono);
            var ii, ll := SortedSet(RingIds(l.outstanding)), SortedSet(LeftNow(l, v.pending));
            EffectIdsFit(a, session, Effective, ii, ll, v) && AllNamed(a, session, ii)
  {
    hide LedgerOf, LeftNow, RingIds, Judgeable, RingsWf, OpenWf, RungIds;
    OutstandingNamed(n, session, a, mono);
    LeftNowFits(session, a, mono, v.pending);
  }

  lemma ProgressRun(c: Config, n: Str, session: Str, a: Acct, mono: map<Str, int>, v: View)
    requires AcctWf(a, n) && v.session == Some(session)
    ensures var l := LedgerOf(a, session, mono);
            AllFit(a, n, v, ProgressRecs(c, n, session, l, v.pending)) &&
            Run(a, ProgressRecs(c, n, session, l, v.pending), n) == Progressed(a, session, l, v.pending)
  {
    hide AllFit, Run, EffectRecs, LedgerOf, AcctWf, EffectIdsFit, AllNamed, LeftNow, RingIds;
    var l := LedgerOf(a, session, mono);
    if LeftNow(l, v.pending) == {} {
      RunNone(a, n, v);
    } else {
      ProgressIdsFit(n, session, a, mono, v);
      var ii, ll := SortedSet(RingIds(l.outstanding)), SortedSet(LeftNow(l, v.pending));
      ElemsSorted(RingIds(l.outstanding));
      ElemsSorted(LeftNow(l, v.pending));
      EffectRecsRun(c, n, session, Effective, ii, ll, a, v);
    }
  }

  lemma ProgressSeen(a: Acct, n: Str, session: Str, mono: map<Str, int>, pending: set<Str>)
    requires AcctWf(a, n)
    ensures var l := LedgerOf(a, session, mono);
            LedgerOf(Progressed(a, session, l, pending), session, mono) == AfterProgress(l, pending)
  {
    var l := LedgerOf(a, session, mono);
    var b := Progressed(a, session, l, pending);
    if LeftNow(l, pending) != {} {
      OutstandingFacts(a, n, session, mono);
      OfSessionMembers(a.rings, session);
      forall i | i in OfSession(a.rings, session) ensures i.id in b.judged
      {
        if i.id !in a.judged { assert Ring(i.id, MonoOf(mono, i.id)) in l.outstanding; }
      }
      UnjudgedNone(OfSession(a.rings, session), b.judged);
      assert LeftOf(b.left, session) == l.left + LeftNow(l, pending);
    }
  }

  /** The escalations the close stage closes. */
  function Closing(l: Ledger, pending: set<Str>): set<Str>
  {
    (if EpisodeOver(l, pending) then {l.unresponsive.value.rec.id} else {}) + EscIds(StuckGone(l.stuck, pending, true))
  }

  lemma {:induction false} StuckDistinct(open: seq<OpenEsc>, session: Str, n: Str)
    requires OpenWf(open, n)
    ensures DistinctIds(StuckOf(open, session))
  {
    if open != [] {
      var q, last := open[..|open| - 1], open[|open| - 1];
      StuckDistinct(q, session, n);
      StuckOfMembers(q, session);
      var xs := StuckOf(q, session);
      forall x | x in xs ensures x.id != last.rec.id
      {
        var e :| e in q && e.rec == x;
        var k :| 0 <= k < |q| && q[k] == e;
        assert open[k] == e;
      }
    }
  }

  lemma {:induction false} GoneDistinct(xs: seq<EscRec>, pending: set<Str>, gone: bool)
    requires DistinctIds(xs)
    ensures DistinctIds(StuckGone(xs, pending, gone))
  {
    if xs != [] {
      var q := xs[..|xs| - 1];
      GoneDistinct(q, pending, gone);
      StuckGoneMembers(q, pending, gone);
      var ys := StuckGone(q, pending, gone);
      forall k | 0 <= k < |ys| ensures ys[k].id != xs[|xs| - 1].id { assert ys[k] in ys; }
    }
  }

  lemma {:induction false} DropIdsTwice(open: seq<OpenEsc>, g: set<Str>, h: set<Str>)
    ensures DropIds(DropIds(open, g), h) == DropIds(open, g + h)
  {
    if open != [] {
      DropIdsTwice(open[..|open| - 1], g, h);
      var p, e := DropIds(open[..|open| - 1], g), open[|open| - 1];
      assert (p + [e])[..|p|] == p;
    }
  }

  /** Distinct open escalations have distinct ids. */
  lemma SameEsc(open: seq<OpenEsc>, n: Str, e: OpenEsc, f: OpenEsc)
    requires OpenWf(open, n) && e in open && f in open && e.rec.id == f.rec.id
    ensures e == f
  {
    var j :| 0 <= j < |open| && open[j] == e;
    var k :| 0 <= k < |open| && open[k] == f;
  }

  lemma CloseEpisode(c: Config, n: Str, session: Str, a: Acct, mono: map<Str, int>, v: View)
    requires AcctWf(a, n) && v.session == Some(session) && EpisodeOver(LedgerOf(a, session, mono), v.pending)
    ensures var u := LedgerOf(a, session, mono).unresponsive.value.rec;
            Fits(a, n, v, CloseOf(c, u, Progress)) && Step(a, CloseOf(c, u, Progress), n) == a.(open := DropIds(a.open, {u.id}))
  {
    hide RungIds, Covers, LastRing, SortRings, StuckOf, Unjudged, OfSession, DropIds, SortedSet;
    var u := LedgerOf(a, session, mono).unresponsive.value;
    UnresponsiveIsOpen(a.open, session);
    assert exists k :: 0 <= k < |a.open| && a.open[k] == u;
    DropIdsNone(a.open);
    assert a.(open := DropIds(a.open, {})) == a;
    CloseOne(c, n, u.rec, Progress, a, {}, v);
    assert {} + {u.rec.id} == {u.rec.id};
  }

  lemma StuckClosable(n: Str, session: Str, a: Acct, v: View, x: EscRec, gone: set<Str>)
    requires AcctWf(a, n) && v.session == Some(session)
    requires x in StuckGone(StuckOf(a.open, session), v.pending, true)
    requires forall e :: e in a.open && e.rec.id in gone ==> e.rec.reason == Unresponsive
    ensures Closable(a.(open := DropIds(a.open, gone)), n, x, Progress, v)
  {
    StuckGoneMembers(StuckOf(a.open, session), v.pending, true);
    StuckOfMembers(a.open, session);
    DropIdsMembers(a.open, gone);
    var e :| e in a.open && e.rec == x;
    var k :| 0 <= k < |a.open| && a.open[k] == e;
    assert x.ids[0] in Elems(x.ids);
    assert e in DropIds(a.open, gone);
  }

  lemma CloseStuck(c: Config, n: Str, session: Str, a: Acct, v: View, gone: set<Str>)
    requires AcctWf(a, n) && v.session == Some(session)
    requires forall e :: e in a.open && e.rec.id in gone ==> e.rec.reason == Unresponsive
    ensures var b := a.(open := DropIds(a.open, gone));
            var xs := StuckGone(StuckOf(a.open, session), v.pending, true);
            AllFit(b, n, v, CloseAll(c, xs, Progress)) &&
            Run(b, CloseAll(c, xs, Progress), n) == a.(open := DropIds(a.open, gone + EscIds(xs)))
  {
    hide AllFit, Run;
    var b := a.(open := DropIds(a.open, gone));
    var xs := StuckGone(StuckOf(a.open, session), v.pending, true);
    StuckDistinct(a.open, session, n);
    GoneDistinct(StuckOf(a.open, session), v.pending, true);
    forall x | x in xs ensures Closable(b, n, x, Progress, v) { StuckClosable(n, session, a, v, x, gone); }
    CloseAllRun(c, n, xs, Progress, b, v);
    DropIdsTwice(a.open, gone, EscIds(xs));
  }

  lemma CloseRun(c: Config, n: Str, session: Str, a: Acct, mono: map<Str, int>, v: View)
    requires AcctWf(a, n) && v.session == Some(session)
    ensures var l := LedgerOf(a, session, mono);
            AllFit(a, n, v, CloseRecs(c, l, v.pending)) &&
            Run(a, CloseRecs(c, l, v.pending), n) == a.(open := DropIds(a.open, Closing(l, v.pending)))
  {
    hide AllFit, Run, SortRings, DropIds, RungIds, Covers, LastRing, Unjudged, OfSession, StuckGone;
    var l := LedgerOf(a, session, mono);
    var xs := StuckGone(l.stuck, v.pending, true);
    if EpisodeOver(l, v.pending) {
      var u := l.unresponsive.value;
      EpisodeIsOne(a.open, n, session, u);
      CloseEpisode(c, n, session, a, mono, v);
      hide AcctWf, Fits, EpisodeOver;
      AllFitOne(a, n, v, CloseOf(c, u.rec, Progress));
      CloseStuck(c, n, session, a, v, {u.rec.id});
      AllFitConcat(a, n, v, [CloseOf(c, u.rec, Progress)], CloseAll(c, xs, Progress));
      RunConcat(a, [CloseOf(c, u.rec, Progress)], CloseAll(c, xs, Progress), n);
    } else {
      DropIdsNone(a.open);
      CloseStuck(c, n, session, a, v, {});
      assert a.(open := DropIds(a.open, {})) == a;
      assert [] + CloseAll(c, xs, Progress) == CloseAll(c, xs, Progress);
    }
  }

  lemma EpisodeIsOne(open: seq<OpenEsc>, n: Str, session: Str, u: OpenEsc)
    requires OpenWf(open, n) && UnresponsiveOf(open, session) == Some(u)
    ensures forall e :: e in open && e.rec.id in {u.rec.id} ==> e.rec.reason == Unresponsive
  {
    UnresponsiveIsOpen(open, session);
    forall e | e in open && e.rec.id in {u.rec.id} ensures e.rec.reason == Unresponsive { SameEsc(open, n, e, u); }
  }

  lemma CloseSeen(a: Acct, n: Str, session: Str, mono: map<Str, int>, pending: set<Str>)
    requires AcctWf(a, n)
    ensures var l := LedgerOf(a, session, mono);
            LedgerOf(a.(open := DropIds(a.open, Closing(l, pending))), session, mono) == AfterClose(l, pending)
  {
    var l := LedgerOf(a, session, mono);
    var xs := StuckGone(l.stuck, pending, true);
    StuckOfMembers(a.open, session);
    StuckGoneMembers(l.stuck, pending, true);
    UnresponsiveIsOpen(a.open, session);
    forall x | x in l.stuck ensures x.ids != [] && (x.id in Closing(l, pending) <==> x.ids[0] !in pending)
    {
      var e :| e in a.open && e.rec == x;
      assert exists k :: 0 <= k < |a.open| && a.open[k] == e;
      forall y | y in xs && y.id == x.id ensures y == x
      {
        var f :| f in a.open && f.rec == y;
        SameEsc(a.open, n, e, f);
      }
      if EpisodeOver(l, pending) && x.id == l.unresponsive.value.rec.id { SameEsc(a.open, n, e, l.unresponsive.value); }
    }
    DropStuck(a.open, Closing(l, pending), session, pending);
    CloseSeenUnresponsive(a, n, session, mono, pending);
  }

  lemma CloseSeenUnresponsive(a: Acct, n: Str, session: Str, mono: map<Str, int>, pending: set<Str>)
    requires AcctWf(a, n)
    ensures var l := LedgerOf(a, session, mono);
            UnresponsiveOf(DropIds(a.open, Closing(l, pending)), session) == AfterClose(l, pending).unresponsive
  {
    var l := LedgerOf(a, session, mono);
    var xs := StuckGone(l.stuck, pending, true);
    StuckOfMembers(a.open, session);
    StuckGoneMembers(l.stuck, pending, true);
    forall e | e in a.open && e.rec.id in EscIds(xs) ensures e.rec.reason == IdStuck
    {
      var x :| x in xs && x.id == e.rec.id;
      var f :| f in a.open && f.rec == x;
      SameEsc(a.open, n, e, f);
    }
    if EpisodeOver(l, pending) {
      var u := l.unresponsive.value.rec.id;
      DropUnresponsive(a.open, session, n);
      DropIdsMembers(a.open, {u});
      DropNotUnresponsive(DropIds(a.open, {u}), EscIds(xs), session);
      DropIdsTwice(a.open, {u}, EscIds(xs));
    } else {
      DropNotUnresponsive(a.open, EscIds(xs), session);
      assert Closing(l, pending) == EscIds(xs);
    }
  }
}
