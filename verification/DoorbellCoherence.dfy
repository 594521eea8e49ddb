/** Memory and log never disagree. */
module DoorbellCoherence {
  // What `judge` returns is what the log, with its records appended, derives again.

  import opened Canon
  import opened DoorbellLog
  import opened DoorbellLedger
  import opened DoorbellPlan
  import opened DoorbellAdmit
  import opened DoorbellJudge
  import opened DoorbellSettle
  import opened Wrappers

  // ---------------------------------------------------------------- the horizon

  function Expired(a: Acct, session: Str, rs: seq<Ring>): Acct
  {
    if rs == [] then a
    else a.(judged := a.judged + RingIds(rs), streak := a.streak[session := Streak(a, session) + |rs|])
  }

  lemma ExpireOne(c: Config, n: Str, session: Str, a: Acct, v: View, p: seq<Ring>, x: Ring)
    requires v.session == Some(session) && Judgeable(a, session, x.id) && x.id !in RingIds(p)
    ensures var b := Expired(a, session, p);
            var r := Effect(EffectRec(c.at, n, session, Ineffective, [x.id], []));
            Fits(b, n, v, r) && Step(b, r, n) == Expired(a, session, p + [x])
  {
    assert RingIds(p + [x]) == RingIds(p) + {x.id};
    assert (a.judged + RingIds(p)) + {x.id} == a.judged + RingIds(p + [x]);
    assert Elems([x.id]) == {x.id};
    assert RingIds([x]) == {x.id};
  }

  lemma {:induction false} HorizonRun(c: Config, n: Str, session: Str, rs: seq<Ring>, a: Acct, v: View)
    requires v.session == Some(session) && DistinctRings(rs) && forall x :: x in rs ==> Judgeable(a, session, x.id)
    ensures AllFit(a, n, v, IneffectiveRecs(c, n, session, rs))
    ensures Run(a, IneffectiveRecs(c, n, session, rs), n) == Expired(a, session, rs)
    decreases |rs|
  {
    if rs != [] {
      var m := |rs| - 1;
      var p, x := rs[..m], rs[m];
      assert rs == p + [x];
      HorizonRun(c, n, session, p, a, v);
      ExpireOne(c, n, session, a, v, p, x);
      var q, r := IneffectiveRecs(c, n, session, p), Effect(EffectRec(c.at, n, session, Ineffective, [x.id], []));
      AllFitSnoc(a, n, v, q, r);
    }
  }

  lemma {:induction false} OverdueDistinct(c: Config, rs: seq<Ring>, overdue: bool)
    requires DistinctRings(rs)
    ensures DistinctRings(Overdue(c, rs, overdue))
  {
    if rs != [] {
      var p := rs[..|rs| - 1];
      OverdueDistinct(c, p, overdue);
      OverdueMembers(c, p, overdue);
      var q := Overdue(c, p, overdue);
      forall k | 0 <= k < |q| ensures q[k].id != rs[|rs| - 1].id { assert q[k] in q; }
    }
  }

  lemma HorizonSeen(c: Config, n: Str, session: Str, a: Acct, mono: map<Str, int>, v: View)
    requires AcctWf(a, n) && v.session == Some(session)
    ensures var l := LedgerOf(a, session, mono);
            var rs := Overdue(c, l.outstanding, true);
            AllFit(a, n, v, IneffectiveRecs(c, n, session, rs)) &&
            Run(a, IneffectiveRecs(c, n, session, rs), n) == Expired(a, session, rs) &&
            LedgerOf(Expired(a, session, rs), session, mono) == AfterHorizon(c, l)
  {
    hide AllFit, Run, SortRings, InsertRing, Young, Unjudged, OfSession, RungIds, Covers, LastRing, UnresponsiveOf, StuckOf, Overdue, IneffectiveRecs;
    var l := LedgerOf(a, session, mono);
    var rs := Overdue(c, l.outstanding, true);
    OutstandingFacts(a, n, session, mono);
    OverdueMembers(c, l.outstanding, true);
    OverdueDistinct(c, l.outstanding, true);
    HorizonRun(c, n, session, rs, a, v);
    var mine := OfSession(a.rings, session);
    OfSessionMembers(a.rings, session);
    OfSessionDistinct(a.rings, session);
    forall i | i in mine && i.id !in a.judged ensures i.id in RingIds(rs) <==> !Young(c, MonoOf(mono, i.id))
    {
      assert Ring(i.id, MonoOf(mono, i.id)) in l.outstanding;
    }
    HorizonCut(c, mine, a.judged, RingIds(rs), mono);
    if rs == [] {
      assert a.judged + RingIds(rs) == a.judged;
    }
  }

  // ---------------------------------------------------------------- all of `judge`

  lemma SettleCoherent(c: Config, n: Str, session: Str, a: Acct, mono: map<Str, int>, v: View)
    requires AcctWf(a, n) && v.session == Some(session)
    ensures var l := LedgerOf(a, session, mono);
            var recs := SettleRecs(c, n, session, l, v.pending);
            AllFit(a, n, v, recs) && Run(a, recs, n).rings == a.rings &&
            (forall e :: e in Run(a, recs, n).open ==> e in a.open) &&
            LedgerOf(Run(a, recs, n), session, mono) == Settled(c, l, v.pending)
  {
    hide AllFit, Run, SortRings, InsertRing, AcctWf;
    var l := LedgerOf(a, session, mono);
    var P := ProgressRecs(c, n, session, l, v.pending);
    ProgressRun(c, n, session, a, mono, v);
    ProgressSeen(a, n, session, mono, v.pending);
    RunWf(a, n, v, P);
    var a1 := Run(a, P, n);
    var l1 := LedgerOf(a1, session, mono);
    var C := CloseRecs(c, l1, v.pending);
    CloseRun(c, n, session, a1, mono, v);
    CloseSeen(a1, n, session, mono, v.pending);
    RunWf(a1, n, v, C);
    var a2 := Run(a1, C, n);
    var l2 := LedgerOf(a2, session, mono);
    DropIdsMembers(a1.open, Closing(l1, v.pending));
    HorizonSeen(c, n, session, a2, mono, v);
    var I := IneffectiveRecs(c, n, session, Overdue(c, l2.outstanding, true));
    AllFitConcat(a, n, v, P, C);
    RunConcat(a, P, C, n);
    AllFitConcat(a, n, v, P + C, I);
    RunConcat(a, P + C, I, n);
  }

  /** No ring and no open escalation of this account has the id. */
  predicate Unused(a: Acct, id: Str)
  {
    !HasOpen(a.open, id) && forall r :: r in a.rings ==> r.id != id
  }

  /** A supply of new ids (`randomUUID`): the id for the cycle's j-th record is used by no other record. */
  ghost predicate Supply(uid: nat -> Str)
  {
    forall i: nat, j: nat :: uid(i) == uid(j) ==> i == j
  }

  ghost predicate UnusedFrom(a: Acct, uid: nat -> Str, k: nat)
  {
    forall j: nat :: j >= k ==> Unused(a, uid(j))
  }

  lemma OpenAppend(open: seq<OpenEsc>, e: OpenEsc, session: Str)
    requires e.rec.session == session
    ensures e.rec.reason == Unresponsive ==>
              UnresponsiveOf(open + [e], session) == Some(e) && StuckOf(open + [e], session) == StuckOf(open, session)
    ensures e.rec.reason == IdStuck ==>
              UnresponsiveOf(open + [e], session) == UnresponsiveOf(open, session) &&
              StuckOf(open + [e], session) == StuckOf(open, session) + [e.rec]
  {
    assert (open + [e])[..|open|] == open;
  }

  /** The escalation the threshold opens is on a witness of the rung ids still pending, and none is open yet. */
  lemma ThresholdFits(c: Config, n: Str, session: Str, a: Acct, mono: map<Str, int>, v: View, id: Str)
    requires AcctWf(a, n) && v.session == Some(session) && Unused(a, id) && Escalates(LedgerOf(a, session, mono), v.pending)
    ensures Fits(a, n, v, Escalation(OpenOf(c, n, session, Unresponsive, Witness(LedgerOf(a, session, mono), v.pending), id)))
  {
    var l := LedgerOf(a, session, mono);
    var w := Witness(l, v.pending);
    var s := SortedSet(l.rung * v.pending);
    assert |s| > 0;
    assert forall k :: 0 <= k < |w| ==> w[k] == s[k] && w[k] in s;
    UnresponsiveIsOpen(a.open, session);
    hide LeftOf, StuckOf, SortRings, UnresponsiveOf;
  }

  lemma ThresholdLedger(c: Config, n: Str, session: Str, a: Acct, mono: map<Str, int>, v: View, id: Str)
    requires AcctWf(a, n) && Unused(a, id) && Escalates(LedgerOf(a, session, mono), v.pending)
    ensures var l := LedgerOf(a, session, mono);
            var b := Step(a, Escalation(OpenOf(c, n, session, Unresponsive, Witness(l, v.pending), id)), n);
            b.rings == a.rings && LedgerOf(b, session, mono) == AfterThreshold(c, n, session, l, v.pending, id)
  {
    var w := Witness(LedgerOf(a, session, mono), v.pending);
    OpenAppend(a.open, OpenEsc(OpenOf(c, n, session, Unresponsive, w, id), Elems(w), false), session);
    hide LeftOf, StuckOf, SortRings, UnresponsiveOf;
  }

  lemma ThresholdCoherent(c: Config, n: Str, session: Str, a: Acct, mono: map<Str, int>, v: View, id: Str)
    requires AcctWf(a, n) && v.session == Some(session) && Unused(a, id)
    ensures var l := LedgerOf(a, session, mono);
            var recs := ThresholdRecs(c, n, session, l, v.pending, id);
            AllFit(a, n, v, recs) && Run(a, recs, n).rings == a.rings &&
            LedgerOf(Run(a, recs, n), session, mono) == AfterThreshold(c, n, session, l, v.pending, id)
  {
    hide Fits, LedgerOf, Step, AcctWf, Unused, Witness;
    if Escalates(LedgerOf(a, session, mono), v.pending) {
      ThresholdFits(c, n, session, a, mono, v, id);
      ThresholdLedger(c, n, session, a, mono, v, id);
      AllFitOne(a, n, v, Escalation(OpenOf(c, n, session, Unresponsive, Witness(LedgerOf(a, session, mono), v.pending), id)));
    } else {
      RunNone(a, n, v);
    }
  }

  /**
    * Every record `judge` writes fits the history it joins, and the ledger `judge` returns is the one
    * the log derives once they are appended.
    */
  lemma JudgeCoherent(c: Config, n: Str, session: Str, a: Acct, mono: map<Str, int>, v: View, uid: nat -> Str, k: nat)
    requires AcctWf(a, n) && v.session == Some(session) && Supply(uid) && UnusedFrom(a, uid, k)
    ensures var l, moot := LedgerOf(a, session, mono), MootRecs(c, n, a, session);
            var recs := JudgeRecs(c, n, session, moot, l, v.pending, uid, k);
            AllFit(a, n, v, recs) && Run(a, recs, n).rings == a.rings &&
            LedgerOf(Run(a, recs, n), session, mono) == Judged(c, n, session, moot, l, v.pending, uid, k) &&
            UnusedFrom(Run(a, recs, n), uid, k + |recs|)
  {
    hide AllFit, Run, LedgerOf, MootRecs, SettleRecs, ThresholdRecs, Settled;
    var l, moot := LedgerOf(a, session, mono), MootRecs(c, n, a, session);
    MootRun(c, n, a, session, v);
    RescueUnseen(a, n, session, mono);
    RunWf(a, n, v, moot);
    var a1 := Run(a, moot, n);
    SettleCoherent(c, n, session, a1, mono, v);
    var S := SettleRecs(c, n, session, l, v.pending);
    RunWf(a1, n, v, S);
    AllFitConcat(a, n, v, moot, S);
    RunConcat(a, moot, S, n);
    var a2 := Run(a1, S, n);
    var id := uid(k + |moot + S|);
    DropIdsMembers(a.open, EscIds(ElsewhereOf(a.open, session)));
    forall j: nat | j >= k + |moot + S| ensures Unused(a2, uid(j)) { StillUnused(a, a2, uid(j)); }
    ThresholdCoherent(c, n, session, a2, mono, v, id);
    var T := ThresholdRecs(c, n, session, Settled(c, l, v.pending), v.pending, id);
    AllFitConcat(a, n, v, moot + S, T);
    RunConcat(a, moot + S, T, n);
    ThresholdUnused(c, n, session, a2, mono, v, uid, k + |moot + S|);
  }

  lemma ThresholdUnused(c: Config, n: Str, session: Str, a: Acct, mono: map<Str, int>, v: View, uid: nat -> Str, k: nat)
    requires AcctWf(a, n) && v.session == Some(session) && Supply(uid) && UnusedFrom(a, uid, k)
    ensures var l := LedgerOf(a, session, mono);
            var recs := ThresholdRecs(c, n, session, l, v.pending, uid(k));
            UnusedFrom(Run(a, recs, n), uid, k + |recs|)
  {
    hide LedgerOf, AllFit, Witness;
    var l := LedgerOf(a, session, mono);
    if Escalates(l, v.pending) {
      var x := OpenOf(c, n, session, Unresponsive, Witness(l, v.pending), uid(k));
      assert [Escalation(x)][..0] == [];
      assert Run(a, [Escalation(x)], n) == Step(a, Escalation(x), n);
      assert Unused(a, uid(k));
      forall j: nat | j >= k + 1 ensures Unused(Step(a, Escalation(x), n), uid(j))
      {
        assert Unused(a, uid(j)) && uid(j) != uid(k);
      }
    }
  }

  lemma StillUnused(a: Acct, b: Acct, id: Str)
    requires Unused(a, id) && b.rings == a.rings && forall e :: e in b.open ==> e in a.open
    ensures Unused(b, id)
  {
    forall k | 0 <= k < |b.open| ensures b.open[k].rec.id != id
    {
      assert b.open[k] in b.open;
      var j :| 0 <= j < |a.open| && a.open[j] == b.open[k];
    }
  }
}
