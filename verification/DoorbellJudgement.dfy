/** What a judgement leaves behind. */
module DoorbellJudgement {
  // Escalations reconciled with the recovered log, and `id_stuck` only for an id of an agent that has drained
  // something since that id first rang.

  import opened Canon
  import opened DoorbellLog
  import opened DoorbellLedger
  import opened DoorbellPlan
  import opened DoorbellAdmit
  import opened DoorbellJudge
  import opened DoorbellSettle
  import opened DoorbellCoherence
  import opened DoorbellAgent
  import opened DoorbellWf
  import opened Wrappers

  // ---------------------------------------------------------------- reconciliation

  predicate HasUnresponsive(a: Acct, session: Str)
  {
    exists e :: e in a.open && e.rec.session == session && e.rec.reason == Unresponsive
  }

  /** The escalations of an account agree with one read of the session it was judged for. */
  predicate Reconciled(a: Acct, session: Str, pending: set<Str>)
  {
    (Streak(a, session) >= ESCALATE_AFTER && RungIds(a.rings, session) * pending != {} ==> HasUnresponsive(a, session)) &&
    (forall e :: e in a.open && e.rec.session == session && e.rec.reason == Unresponsive ==> e.episode <= pending) &&
    (forall e :: e in a.open && e.rec.session == session && e.rec.reason == IdStuck ==> e.rec.ids != [] && e.rec.ids[0] in pending) &&
    (forall e, f :: e in a.open && f in a.open && SameKey(e.rec, f.rec) ==> e == f)
  }

  lemma KeysUnique(a: Acct, n: Str)
    requires AcctWf(a, n)
    ensures forall e, f :: e in a.open && f in a.open && SameKey(e.rec, f.rec) ==> e == f
  {
    forall e, f | e in a.open && f in a.open && SameKey(e.rec, f.rec) ensures e == f
    {
      var j :| 0 <= j < |a.open| && a.open[j] == e;
      var k :| 0 <= k < |a.open| && a.open[k] == f;
      assert SameKey(f.rec, e.rec);
    }
  }

  /** The ledger `judge` returns, whatever it started from, is reconciled with the pending set. */
  lemma SettledLedger(c: Config, n: Str, session: Str, l: Ledger, pending: set<Str>, id: Str)
    ensures var r := AfterThreshold(c, n, session, Settled(c, l, pending), pending, id);
            (r.counter >= ESCALATE_AFTER && r.rung * pending != {} ==> r.unresponsive.Some?) &&
            (r.unresponsive.Some? ==> r.unresponsive.value.episode <= pending) &&
            (forall x :: x in r.stuck ==> x.ids != [] && x.ids[0] in pending) &&
            (forall o :: o in r.outstanding ==> Young(c, o.mono)) &&
            r.rung == l.rung && r.count == l.count && r.last == l.last
  {
    hide StuckGone, Overdue, Young, SortedSet, LeftNow;
    var s := Settled(c, l, pending);
    StuckGoneMembers(AfterProgress(l, pending).stuck, pending, false);
    OverdueMembers(c, AfterClose(AfterProgress(l, pending), pending).outstanding, false);
    WitnessPending(s, pending);
    hide Witness;
  }

  lemma WitnessPending(l: Ledger, pending: set<Str>)
    ensures Elems(Witness(l, pending)) <= pending
  {
    var w := SortedSet(l.rung * pending);
    assert forall k :: 0 <= k < |Witness(l, pending)| ==> Witness(l, pending)[k] == w[k] && w[k] in w;
  }

  lemma ReconciledFromLedger(a: Acct, n: Str, session: Str, mono: map<Str, int>, pending: set<Str>)
    requires AcctWf(a, n)
    requires var r := LedgerOf(a, session, mono);
             (r.counter >= ESCALATE_AFTER && r.rung * pending != {} ==> r.unresponsive.Some?) &&
             (r.unresponsive.Some? ==> r.unresponsive.value.episode <= pending) &&
             (forall x :: x in r.stuck ==> x.ids != [] && x.ids[0] in pending)
    ensures Reconciled(a, session, pending)
  {
    KeysUnique(a, n);
    UnresponsiveIsOpen(a.open, session);
    StuckOfMembers(a.open, session);
    forall e | e in a.open && e.rec.session == session && e.rec.reason == Unresponsive ensures e.episode <= pending
    {
      UnresponsiveUnique(a.open, session, n, e);
    }
  }

  /**
    * From any history of the right shape, including one a crash cut short: once the agent is judged
    * against a bound session, a counter at the threshold with a rung id still pending has its one open
    * escalation, an escalation whose episode or id has left is closed, and no ring past its horizon is
    * left unjudged.
    */
  lemma JudgedIsReconciled(inp: Input, n: Str, read: PendingRead, k: nat)
    requires Ready(inp, n, k) && read.session.Some?
    ensures var b := Account(inp.log + JudgeOf(inp, n, read, k), n);
            Reconciled(b, read.session.value, Elems(read.ids)) &&
            forall r :: r in b.rings && r.session == read.session.value && !Young(inp.c, MonoOf(inp.mono, r.id)) ==> r.id in b.judged
  {
    hide AllFit, Run, LedgerOf, MootRecs, JudgeRecs, SettleRecs, Settled, AfterThreshold, Reconciled, AcctWf;
    var a, rs, P := Account(inp.log, n), read.session.value, Elems(read.ids);
    JudgeOfFits(inp, n, read, k);
    RunConcat(NOTHING, inp.log, JudgeOf(inp, n, read, k), n);
    var b := Run(a, JudgeOf(inp, n, read, k), n);
    var before := MootRecs(inp.c, n, a, rs) + SettleRecs(inp.c, n, rs, LedgerOf(a, rs, inp.mono), P);
    SettledLedger(inp.c, n, rs, LedgerOf(a, rs, inp.mono), P, inp.uid(k + |before|));
    ReconciledFromLedger(b, n, rs, inp.mono, P);
    WfParts(b, n);
    OutstandingFacts(b, n, rs, inp.mono);
  }

  // ---------------------------------------------------------------- an agent that drains nothing

  /** A ring of the session: one that covered `id`, or with no id, any. */
  predicate IsFor(i: IntentRec, session: Str, id: Option<Str>)
  {
    i.session == session && (id.Some? ==> id.value in i.ids)
  }

  function RingsFor(rings: seq<IntentRec>, session: Str, id: Option<Str>): nat
  {
    if rings == [] then 0
    else RingsFor(rings[..|rings| - 1], session, id) + if IsFor(rings[|rings| - 1], session, id) then 1 else 0
  }

  /** How many of those rings have been judged. */
  function JudgedFor(rings: seq<IntentRec>, judged: set<Str>, session: Str, id: Option<Str>): nat
  {
    if rings == [] then 0
    else
      var i := rings[|rings| - 1];
      JudgedFor(rings[..|rings| - 1], judged, session, id) + if IsFor(i, session, id) && i.id in judged then 1 else 0
  }

  /** How many of them are past the horizon. */
  function DueFor(c: Config, rings: seq<IntentRec>, mono: map<Str, int>, session: Str, id: Option<Str>): nat
  {
    if rings == [] then 0
    else
      var i := rings[|rings| - 1];
      DueFor(c, rings[..|rings| - 1], mono, session, id) + if IsFor(i, session, id) && !Young(c, MonoOf(mono, i.id)) then 1 else 0
  }

  predicate RingFor(r: Rec, n: Str, session: Str, id: Option<Str>)
  {
    r.Intent? && r.i.agent == n && IsFor(r.i, session, id)
  }

  predicate ProgressFor(r: Rec, n: Str, session: Str)
  {
    r.Effect? && r.e.agent == n && r.e.session == session && r.e.outcome == Effective
  }

  /** No `effective` record of this session follows a ring of it for `id`. */
  predicate NoProgressSince(h: seq<Rec>, n: Str, session: Str, id: Option<Str>)
  {
    forall p, q :: 0 <= p < q < |h| && RingFor(h[p], n, session, id) ==> !ProgressFor(h[q], n, session)
  }

  /** The session is the agent's own still: no record calls its rings moot. */
  predicate NeverMoot(h: seq<Rec>, n: Str, session: Str)
  {
    forall r :: r in h && r.Effect? && r.e.agent == n && r.e.session == session ==> r.e.outcome != SessionChanged
  }

  lemma {:induction false} JudgedForSame(rings: seq<IntentRec>, j1: set<Str>, j2: set<Str>, session: Str, id: Option<Str>)
    requires forall i :: i in rings && IsFor(i, session, id) && i.id in j2 ==> i.id in j1
    ensures JudgedFor(rings, j2, session, id) <= JudgedFor(rings, j1, session, id)
  {
    if rings != [] {
      assert rings[|rings| - 1] in rings;
      JudgedForSame(rings[..|rings| - 1], j1, j2, session, id);
    }
  }

  /** One more judged id is at most one more judged ring. */
  lemma {:induction false} JudgedForOne(rings: seq<IntentRec>, judged: set<Str>, x: Str, session: Str, id: Option<Str>)
    requires DistinctRecs(rings)
    ensures JudgedFor(rings, judged + {x}, session, id) <= JudgedFor(rings, judged, session, id) + 1
  {
    if rings != [] {
      var p, i := rings[..|rings| - 1], rings[|rings| - 1];
      if i.id == x {
        forall j | j in p ensures j.id != x
        {
          var k :| 0 <= k < |p| && p[k] == j;
          assert rings[k].id != rings[|rings| - 1].id;
        }
        JudgedForSame(p, judged, judged + {x}, session, id);
      } else {
        JudgedForOne(p, judged, x, session, id);
      }
    }
  }

  lemma {:induction false} NoneFor(rings: seq<IntentRec>, judged: set<Str>, session: Str, id: Option<Str>)
    requires forall i :: i in rings ==> !IsFor(i, session, id)
    ensures JudgedFor(rings, judged, session, id) == 0
  {
    if rings != [] {
      assert rings[|rings| - 1] in rings;
      NoneFor(rings[..|rings| - 1], judged, session, id);
    }
  }

  /** A new ring is not judged yet. */
  lemma StreakRing(a: Acct, i: IntentRec, session: Str, id: Option<Str>)
    requires i.id !in a.judged
    ensures JudgedFor(a.rings + [i], a.judged, session, id) == JudgedFor(a.rings, a.judged, session, id)
  {
    assert (a.rings + [i])[..|a.rings|] == a.rings;
  }

  /** A record between two others, by position. */
  lemma LaterPairs(h: seq<Rec>, n: Str)
    requires h != [] && WfLog(h)
    ensures var p, r := h[..|h| - 1], h[|h| - 1];
            WfLog(p) && RingsWf(Account(p, n).rings, n) && forall i :: i in Account(p, n).rings ==> PairOk(Intent(i), r)
  {
    var p, r := h[..|h| - 1], h[|h| - 1];
    WfPrefix(h, |h| - 1);
    AccountWf(p, n);
    AccountRings(p, n);
    forall i | i in Account(p, n).rings ensures PairOk(Intent(i), r)
    {
      var j :| 0 <= j < |p| && p[j] == Intent(i);
      PairAt(h, j, |h| - 1);
    }
  }

  lemma RingUnjudged(h: seq<Rec>, n: Str)
    requires h != [] && WfLog(h) && h[|h| - 1].Intent?
    ensures h[|h| - 1].i.id !in Account(h[..|h| - 1], n).judged
  {
    var p, r := h[..|h| - 1], h[|h| - 1];
    AccountJudged(p, n);
    forall s | s in p ensures !Names(s, n, r.i.id)
    {
      var j :| 0 <= j < |p| && p[j] == s;
      PairAt(h, j, |h| - 1);
    }
  }

  /** One record's part of the bound below. */
  lemma StreakStep(h: seq<Rec>, n: Str, session: Str, id: Option<Str>)
    requires h != [] && WfLog(h) && NeverMoot(h, n, session) && NoProgressSince(h, n, session, id)
    requires var a := Account(h[..|h| - 1], n);
             JudgedFor(a.rings, a.judged, session, id) <= Streak(a, session)
    ensures var b := Account(h, n);
            JudgedFor(b.rings, b.judged, session, id) <= Streak(b, session)
  {
    var p, r := h[..|h| - 1], h[|h| - 1];
    var a, b := Account(p, n), Account(h, n);
    LaterPairs(h, n);
    assert r in h && UnitOk(r);
    if r.Intent? && r.i.agent == n {
      RingUnjudged(h, n);
      StreakRing(a, r.i, session, id);
    } else if r.Effect? && r.e.agent == n {
      assert r.e.session == session ==> r.e.outcome != SessionChanged;
      if r.e.session == session && r.e.outcome == Effective { NothingFor(h, n, session, id); }
      hide WfLog, NeverMoot, NoProgressSince;
      StreakEffect(a, n, r.e, session, id);
    }
  }

  lemma StreakEffect(a: Acct, n: Str, e: EffectRec, session: Str, id: Option<Str>)
    requires DistinctRecs(a.rings) && UnitOk(Effect(e)) && e.agent == n
    requires forall i :: i in a.rings && i.id in e.intents ==> i.session == e.session
    requires e.session == session ==> e.outcome != SessionChanged
    requires e.session == session && e.outcome == Effective ==> forall i :: i in a.rings ==> !IsFor(i, session, id)
    requires JudgedFor(a.rings, a.judged, session, id) <= Streak(a, session)
    ensures var b := Step(a, Effect(e), n); JudgedFor(b.rings, b.judged, session, id) <= Streak(b, session)
  {
    var b := Step(a, Effect(e), n);
    if e.session != session {
      JudgedForSame(a.rings, a.judged, b.judged, session, id);
    } else if e.outcome == Ineffective {
      assert Elems(e.intents) == {e.intents[0]};
      JudgedForOne(a.rings, a.judged, e.intents[0], session, id);
    } else {
      NoneFor(b.rings, b.judged, session, id);
    }
  }

  lemma NothingFor(h: seq<Rec>, n: Str, session: Str, id: Option<Str>)
    requires h != [] && ProgressFor(h[|h| - 1], n, session) && NoProgressSince(h, n, session, id)
    ensures forall i :: i in Account(h[..|h| - 1], n).rings ==> !IsFor(i, session, id)
  {
    var p := h[..|h| - 1];
    AccountRings(p, n);
    forall i | i in Account(p, n).rings ensures !IsFor(i, session, id)
    {
      var j :| 0 <= j < |p| && p[j] == Intent(i);
      assert h[j] == Intent(i);
      assert !RingFor(h[j], n, session, id);
    }
  }

  /** With no progress since the id first rang, every judged ring for it is one of the ineffective run. */
  lemma {:induction false} StreakBound(h: seq<Rec>, n: Str, session: Str, id: Option<Str>)
    requires WfLog(h) && NeverMoot(h, n, session) && NoProgressSince(h, n, session, id)
    ensures var a := Account(h, n); JudgedFor(a.rings, a.judged, session, id) <= Streak(a, session)
  {
    if h != [] {
      var p := h[..|h| - 1];
      WfPrefix(h, |h| - 1);
      assert NeverMoot(p, n, session) by { assert forall r :: r in p ==> r in h; }
      assert NoProgressSince(p, n, session, id) by { assert forall k :: 0 <= k < |p| ==> p[k] == h[k]; }
      StreakBound(p, n, session, id);
      StreakStep(h, n, session, id);
    }
  }

  lemma {:induction false} DueIsJudged(c: Config, rings: seq<IntentRec>, mono: map<Str, int>, judged: set<Str>, session: Str, id: Option<Str>)
    requires forall i :: i in rings && i.session == session && !Young(c, MonoOf(mono, i.id)) ==> i.id in judged
    ensures DueFor(c, rings, mono, session, id) <= JudgedFor(rings, judged, session, id)
  {
    if rings != [] {
      assert rings[|rings| - 1] in rings;
      DueIsJudged(c, rings[..|rings| - 1], mono, judged, session, id);
    }
  }

  lemma {:induction false} AllDue(c: Config, rings: seq<IntentRec>, mono: map<Str, int>, session: Str, id: Option<Str>)
    requires forall i :: i in rings && IsFor(i, session, id) ==> !Young(c, MonoOf(mono, i.id))
    ensures DueFor(c, rings, mono, session, id) == RingsFor(rings, session, id)
  {
    if rings != [] {
      assert rings[|rings| - 1] in rings;
      AllDue(c, rings[..|rings| - 1], mono, session, id);
    }
  }

  lemma {:induction false} CoversIsFor(rings: seq<IntentRec>, session: Str, id: Str)
    ensures Covers(rings, session, id) == RingsFor(rings, session, Some(id)) <= RingsFor(rings, session, None)
    ensures Covers(rings, session, id) > 0 ==> id in RungIds(rings, session)
  {
    if rings != [] { CoversIsFor(rings[..|rings| - 1], session, id); }
  }

  /** The last ring for an id is no earlier than any ring for it. */
  lemma {:induction false} LastIsLast(rings: seq<IntentRec>, session: Str, id: Str, mono: map<Str, int>)
    ensures forall i :: i in rings && i.session == session && id in i.ids ==>
              LastRing(rings, session, id, mono).Some? && MonoOf(mono, i.id) <= LastRing(rings, session, id, mono).value
  {
    if rings != [] {
      LastIsLast(rings[..|rings| - 1], session, id, mono);
      assert rings == rings[..|rings| - 1] + [rings[|rings| - 1]];
    }
  }

  /**
    * An agent that drains nothing is called unresponsive: with some rung id still pending, no progress recorded
    * since the first ring, and ESCALATE_AFTER rings past the horizon (those for one id, or all of the session),
    * its session has an open escalation once it is judged, whatever the log was before and wherever a crash cut it.
    */
  lemma DeafIsUnresponsive(inp: Input, n: Str, read: PendingRead, k: nat, id: Option<Str>)
    requires Ready(inp, n, k) && read.session.Some?
    requires RungIds(Account(inp.log, n).rings, read.session.value) * Elems(read.ids) != {}
    requires var h := inp.log + JudgeOf(inp, n, read, k);
             WfLog(h) && NeverMoot(h, n, read.session.value) && NoProgressSince(h, n, read.session.value, id)
    requires DueFor(inp.c, Account(inp.log, n).rings, inp.mono, read.session.value, id) >= ESCALATE_AFTER
    ensures HasUnresponsive(Account(inp.log + JudgeOf(inp, n, read, k), n), read.session.value)
  {
    hide AllFit, Run, AcctWf, WfLog, NeverMoot, NoProgressSince, Young, JudgeOf, LedgerOf, LedgerAfter;
    var rs := read.session.value;
    var h := inp.log + JudgeOf(inp, n, read, k);
    JudgeOfFits(inp, n, read, k);
    RunConcat(NOTHING, inp.log, JudgeOf(inp, n, read, k), n);
    JudgedIsReconciled(inp, n, read, k);
    var b := Account(h, n);
    DueIsJudged(inp.c, b.rings, inp.mono, b.judged, rs, id);
    StreakBound(h, n, rs, id);
  }

  /**
    * Whenever `id_stuck` opens for an id, an `effective` record of that agent and session was written
    * after a ring for that id: an agent that drains nothing is never told its ids are stuck.
    */
  lemma StuckMeansProgress(inp: Input, n: Str, read: PendingRead, k: nat, id: Str)
    requires Ready(inp, n, k) && read.session.Some?
    requires var h := inp.log + JudgeOf(inp, n, read, k); WfLog(h) && NeverMoot(h, n, read.session.value)
    requires var l := LedgerAfter(inp, n, read.session.value, Elems(read.ids), k);
             id in AtCap(inp.c, l, Elems(read.ids), Unrung(read.session.value, Elems(read.ids), inp.rung))
    ensures !NoProgressSince(inp.log + JudgeOf(inp, n, read, k), n, read.session.value, Some(id))
  {
    hide AllFit, Run, MootRecs, JudgeRecs, Judged, AcctWf, WfLog, NeverMoot, NoProgressSince, SortRings, UnresponsiveOf, StuckOf, LeftOf;
    var rs := read.session.value;
    var h := inp.log + JudgeOf(inp, n, read, k);
    JudgeOfFits(inp, n, read, k);
    RunConcat(NOTHING, inp.log, JudgeOf(inp, n, read, k), n);
    var b := Account(h, n);
    assert LedgerAfter(inp, n, rs, Elems(read.ids), k) == LedgerOf(b, rs, inp.mono);
    LastIsLast(b.rings, rs, id, inp.mono);
    AllDue(inp.c, b.rings, inp.mono, rs, Some(id));
    CoversIsFor(b.rings, rs, id);
    assert id in RungIds(b.rings, rs) * Elems(read.ids);
    if NoProgressSince(h, n, rs, Some(id)) {
      DeafIsUnresponsive(inp, n, read, k, Some(id));
      UnresponsiveIsOpen(b.open, rs);
      assert false;
    }
  }
}
