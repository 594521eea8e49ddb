/**
  * A ledger with nothing left to judge: `judge` writes nothing for it, and the ledger a judgement leaves is one.
  * What is judged once on the same input is judged.
  */
module DoorbellCalm {
  import opened Canon
  import opened DoorbellLog
  import opened DoorbellLedger
  import opened DoorbellPlan
  import opened DoorbellAdmit
  import opened DoorbellJudge
  import opened DoorbellSettle
  import opened DoorbellCoherence
  import opened DoorbellAgent
  import opened DoorbellJudgement
  import opened Wrappers

  predicate Calm(c: Config, l: Ledger, p: set<Str>)
  {
    LeftNow(l, p) == {} && !EpisodeOver(l, p) &&
    (forall x :: x in l.stuck ==> x.ids != [] && x.ids[0] in p) &&
    (forall o :: o in l.outstanding ==> Young(c, o.mono)) &&
    (l.counter >= ESCALATE_AFTER ==> l.unresponsive.Some?)
  }

  /** While rings go unanswered, some id this session was rung for is not recorded as left. */
  predicate LiveLedger(l: Ledger)
  {
    l.counter > 0 || l.outstanding != [] ==> l.rung - l.left != {}
  }

  // ---------------------------------------------------------------- nothing to judge, nothing written

  lemma {:induction false} NoneGone(stuck: seq<EscRec>, p: set<Str>)
    requires forall x :: x in stuck ==> x.ids != [] && x.ids[0] in p
    ensures StuckGone(stuck, p, true) == [] && StuckGone(stuck, p, false) == stuck
  {
    if stuck != [] {
      assert stuck[|stuck| - 1] in stuck;
      NoneGone(stuck[..|stuck| - 1], p);
      assert stuck == stuck[..|stuck| - 1] + [stuck[|stuck| - 1]];
    }
  }

  lemma {:induction false} NoneOverdue(c: Config, rs: seq<Ring>)
    requires forall o :: o in rs ==> Young(c, o.mono)
    ensures Overdue(c, rs, true) == [] && Overdue(c, rs, false) == rs
  {
    if rs != [] {
      assert rs[|rs| - 1] in rs;
      NoneOverdue(c, rs[..|rs| - 1]);
      assert rs == rs[..|rs| - 1] + [rs[|rs| - 1]];
    }
  }

  lemma CalmJudge(c: Config, n: Str, session: Str, l: Ledger, p: set<Str>, uid: nat -> Str, k: nat)
    requires Calm(c, l, p)
    ensures JudgeRecs(c, n, session, [], l, p, uid, k) == [] && Judged(c, n, session, [], l, p, uid, k) == l
  {
    hide Young, LeftNow, EffectRecs;
    NoneGone(l.stuck, p);
    NoneOverdue(c, l.outstanding);
    assert Settled(c, l, p) == l;
    assert SettleRecs(c, n, session, l, p) == [];
  }

  // ---------------------------------------------------------------- a judged ledger is calm

  lemma ProgressLive(l: Ledger, p: set<Str>)
    requires LiveLedger(l)
    ensures LiveLedger(AfterProgress(l, p)) && LeftNow(AfterProgress(l, p), p) == {}
  {
  }

  lemma {:induction false} OverdueSome(c: Config, rs: seq<Ring>)
    ensures rs == [] ==> Overdue(c, rs, true) == []
  {
  }

  /** After a judgement a counter at the threshold has its escalation: some live id is pending still. */
  lemma CalmAfter(c: Config, n: Str, session: Str, l: Ledger, p: set<Str>, id: Str)
    requires LiveLedger(l)
    ensures Calm(c, AfterThreshold(c, n, session, Settled(c, l, p), p, id), p)
  {
    hide Young, StuckGone, Overdue, Witness, LeftNow;
    var l1 := AfterProgress(l, p);
    var l2 := AfterClose(l1, p);
    var l3 := AfterHorizon(c, l2);
    ProgressLive(l, p);
    OverdueSome(c, l2.outstanding);
    assert l3.counter > 0 ==> l3.rung - l3.left != {};
    LivePending(l1, p);
    assert l3.rung == l1.rung && l3.left == l1.left;
    LeftSame(l1, AfterThreshold(c, n, session, l3, p, id), p);
    SettledLedger(c, n, session, l, p, id);
    assert l3 == Settled(c, l, p);
  }

  lemma LivePending(l: Ledger, p: set<Str>)
    requires LeftNow(l, p) == {}
    ensures l.rung - l.left <= l.rung * p
  {
    forall id | id in l.rung - l.left ensures id in p
    {
      assert id in p || id in LeftNow(l, p);
    }
  }

  lemma LeftSame(l: Ledger, m: Ledger, p: set<Str>)
    requires m.rung == l.rung && m.left == l.left
    ensures LeftNow(m, p) == LeftNow(l, p)
  {
  }

  // ---------------------------------------------------------------- nothing left of another session

  /** Every unjudged ring and every open escalation is this session's. */
  predicate OnlyMine(a: Acct, session: Str)
  {
    (forall i :: i in a.rings && i.session != session ==> i.id in a.judged) && forall e :: e in a.open ==> e.rec.session == session
  }

  lemma FirstIn<T>(s: seq<T>)
    ensures s != [] ==> s[0] in s
  {
  }

  lemma OnlyMineMoot(c: Config, n: Str, a: Acct, session: Str)
    requires OnlyMine(a, session)
    ensures MootRecs(c, n, a, session) == []
  {
    var u := Unjudged(a.rings, a.judged);
    UnjudgedMembers(a.rings, a.judged);
    MootSessionsMembers(u, session);
    var ss := MootSessions(u, session);
    FirstIn(ss);
    ElsewhereOfMembers(a.open, session);
    var xs := ElsewhereOf(a.open, session);
    FirstIn(xs);
  }

  lemma StepOnlyMine(a: Acct, n: Str, v: View, r: Rec, session: Str)
    requires OnlyMine(a, session) && v.session == Some(session) && Fits(a, n, v, r)
    ensures OnlyMine(Step(a, r, n), session)
  {
    if r.Escalation? && !r.x.isOpen { DropOpenMembers(a.open, r.x.id); }
    var b := Step(a, r, n);
    forall e | e in b.open ensures e.rec.session == session
    {
      if r.Intent? && r.i.during {
        var k :| 0 <= k < |a.open| && e == Noted(a.open[k], r.i);
        assert a.open[k] in a.open;
      }
    }
  }

  lemma {:induction false} RunOnlyMine(a: Acct, n: Str, v: View, recs: seq<Rec>, session: Str)
    requires OnlyMine(a, session) && v.session == Some(session) && AllFit(a, n, v, recs)
    ensures OnlyMine(Run(a, recs, n), session)
    decreases |recs|
  {
    hide OnlyMine, Fits;
    if recs != [] {
      RunOnlyMine(a, n, v, recs[..|recs| - 1], session);
      StepOnlyMine(Run(a, recs[..|recs| - 1], n), n, v, recs[|recs| - 1], session);
    }
  }

  lemma {:induction false} AllFitRest(a: Acct, n: Str, v: View, x: seq<Rec>, y: seq<Rec>)
    requires AllFit(a, n, v, x + y)
    ensures AllFit(Run(a, x, n), n, v, y)
    decreases |y|
  {
    hide Fits;
    if y != [] {
      var z := y[..|y| - 1];
      assert (x + y)[..|x + y| - 1] == x + z;
      AllFitRest(a, n, v, x, z);
      RunConcat(a, x, z, n);
    }
  }

  /** After the rescue and whatever fits behind it, only this session is left. */
  lemma JudgedOnlyMine(inp: Input, n: Str, read: PendingRead, k: nat)
    requires Ready(inp, n, k) && read.session.Some?
    ensures OnlyMine(Run(Account(inp.log, n), JudgeOf(inp, n, read, k), n), read.session.value)
  {
    hide AllFit, Run, LedgerOf, MootRecs, SettleRecs, ThresholdRecs, AcctWf, OnlyMine, Rescued, Settled;
    var a, rs, v := Account(inp.log, n), read.session.value, ViewOf(read);
    var moot, J := MootRecs(inp.c, n, a, rs), JudgeOf(inp, n, read, k);
    JudgeOfFits(inp, n, read, k);
    MootRun(inp.c, n, a, rs, v);
    RescueUnseen(a, n, rs, inp.mono);
    assert OnlyMine(Rescued(a, rs), rs) by { RescuedOnlyMine(a, n, rs); }
    var l, P := LedgerOf(a, rs, inp.mono), Elems(read.ids);
    var before := moot + SettleRecs(inp.c, n, rs, l, P);
    var T := ThresholdRecs(inp.c, n, rs, Settled(inp.c, l, P), P, inp.uid(k + |before|));
    var rest := SettleRecs(inp.c, n, rs, l, P) + T;
    assert J == moot + rest;
    AllFitRest(a, n, v, moot, rest);
    RunConcat(a, moot, rest, n);
    RunOnlyMine(Run(a, moot, n), n, v, rest, rs);
  }

  lemma RescuedOnlyMine(a: Acct, n: Str, session: Str)
    requires AcctWf(a, n)
    ensures OnlyMine(Rescued(a, session), session)
  {
    RescueUnseen(a, n, session, map[]);
  }

  /** A judgement leaves a calm ledger of this session, and nothing of another. */
  lemma JudgedCalm(inp: Input, n: Str, read: PendingRead, k: nat)
    requires Ready(inp, n, k) && read.session.Some? && LiveLedger(LedgerOf(Account(inp.log, n), read.session.value, inp.mono))
    ensures var b := Run(Account(inp.log, n), JudgeOf(inp, n, read, k), n);
            OnlyMine(b, read.session.value) && Calm(inp.c, LedgerOf(b, read.session.value, inp.mono), Elems(read.ids)) &&
            LedgerOf(b, read.session.value, inp.mono) == LedgerAfter(inp, n, read.session.value, Elems(read.ids), k)
  {
    hide AllFit, Run, LedgerOf, MootRecs, SettleRecs, Settled, AfterThreshold, Calm, LiveLedger, AcctWf, OnlyMine;
    JudgedOnlyMine(inp, n, read, k);
    JudgeOfFits(inp, n, read, k);
    var a, rs, P := Account(inp.log, n), read.session.value, Elems(read.ids);
    var before := MootRecs(inp.c, n, a, rs) + SettleRecs(inp.c, n, rs, LedgerOf(a, rs, inp.mono), P);
    CalmAfter(inp.c, n, rs, LedgerOf(a, rs, inp.mono), P, inp.uid(k + |before|));
  }
}
