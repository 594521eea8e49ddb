/** A deaf agent, over whole runs. */
module DoorbellDeaf {
  // An agent bound to one session that drains nothing: after ESCALATE_AFTER rounds of a ring and its horizon it has
  // an open `agent_unresponsive`, for good, and none of its ids is ever called stuck.

  import opened Canon
  import opened DoorbellLog
  import opened DoorbellLedger
  import opened DoorbellPlan
  import opened DoorbellAdmit
  import opened DoorbellJudge
  import opened DoorbellSettle
  import opened DoorbellCoherence
  import opened DoorbellAgent
  import opened DoorbellCycle
  import opened DoorbellJudgement
  import opened DoorbellWf
  import opened DoorbellKeep
  import opened DoorbellCompaction
  import opened DoorbellSamePlan
  import opened DoorbellRestart
  import opened DoorbellIds
  import opened DoorbellBudget
  import opened DoorbellFold
  import opened DoorbellCalm
  import opened DoorbellRuns
  import opened DoorbellQuiescence
  import opened DoorbellRest
  import opened DoorbellHistory
  import opened Wrappers

  // ---------------------------------------------------------------- records of an agent that drains nothing

  /** Neither progress nor an id called stuck. */
  predicate Mild(r: Rec)
  {
    (r.Effect? ==> r.e.outcome != Effective) && (r.Escalation? && r.x.isOpen ==> r.x.reason != IdStuck)
  }

  predicate AllMild(recs: seq<Rec>)
  {
    forall r :: r in recs ==> Mild(r)
  }

  lemma {:induction false} EffectMild(c: Config, n: Str, session: Str, outcome: Outcome, ii: seq<Str>, ll: seq<Str>)
    requires outcome != Effective
    ensures AllMild(EffectRecs(c, n, session, outcome, ii, ll))
    decreases |ii| + |ll|
  {
    if |ii| > MAX_IDS || |ll| > MAX_IDS {
      EffectMild(c, n, session, outcome, ii[Min(MAX_IDS, |ii|)..], ll[Min(MAX_IDS, |ll|)..]);
    }
  }

  lemma {:induction false} CloseMild(c: Config, xs: seq<EscRec>, why: CloseWhy)
    ensures AllMild(CloseAll(c, xs, why))
  {
    if xs != [] { CloseMild(c, xs[..|xs| - 1], why); }
  }

  lemma {:induction false} MootMild(c: Config, n: Str, u: seq<IntentRec>, ss: seq<Str>)
    ensures AllMild(MootEffects(c, n, u, ss))
  {
    hide EffectRecs, OfSession, IdsOfRings;
    if ss != [] {
      MootMild(c, n, u, ss[..|ss| - 1]);
      EffectMild(c, n, ss[|ss| - 1], SessionChanged, SortedSet(IdsOfRings(OfSession(u, ss[|ss| - 1]))), []);
    }
  }

  lemma {:induction false} IneffectiveMild(c: Config, n: Str, session: Str, rs: seq<Ring>)
    ensures AllMild(IneffectiveRecs(c, n, session, rs))
  {
    if rs != [] { IneffectiveMild(c, n, session, rs[..|rs| - 1]); }
  }

  /** With every rung id still pending a judgement records no progress. */
  lemma JudgeMild(inp: Input, n: Str, read: PendingRead, k: nat)
    requires read.session.Some? && RungIds(Account(inp.log, n).rings, read.session.value) <= Elems(read.ids)
    ensures AllMild(JudgeOf(inp, n, read, k))
  {
    hide RungIds, UnresponsiveOf, StuckOf, SortRings, LeftOf, EffectRecs, CloseAll, MootEffects, IneffectiveRecs, Settled, Witness, StuckGone, Overdue;
    var c, rs, a, p := inp.c, read.session.value, Account(inp.log, n), Elems(read.ids);
    var l := LedgerOf(a, rs, inp.mono);
    assert LeftNow(l, p) == {};
    var u := Unjudged(a.rings, a.judged);
    MootMild(c, n, u, MootSessions(u, rs));
    CloseMild(c, ElsewhereOf(a.open, rs), Moved);
    CloseMild(c, StuckGone(l.stuck, p, true), Progress);
    IneffectiveMild(c, n, rs, Overdue(c, AfterClose(l, p).outstanding, true));
  }

  /** Recorded progress of the session, or an id of it called stuck. */
  predicate Stirs(r: Rec, n: Str, rs: Str)
  {
    ProgressFor(r, n, rs) || (r.Escalation? && r.x.agent == n && r.x.session == rs && r.x.isOpen && r.x.reason == IdStuck)
  }

  predicate Quiet(h: seq<Rec>, n: Str, rs: Str)
  {
    forall r :: r in h ==> !Stirs(r, n, rs)
  }

  lemma QuietNoProgress(h: seq<Rec>, J: seq<Rec>, n: Str, rs: Str, id: Option<Str>)
    requires Quiet(h, n, rs) && AllMild(J)
    ensures NoProgressSince(h + J, n, rs, id)
  {
    forall q | 0 <= q < |h + J| ensures !ProgressFor((h + J)[q], n, rs)
    {
      if q < |h| { assert !Stirs(h[q], n, rs); } else { assert Mild(J[q - |h|]); }
    }
  }

  /** No id of such an agent is at the cap without an escalation: none is called stuck. */
  lemma NoneStuck(s: State, inp: Input, n: Str, k: nat)
    requires Inv(s) && Reads(s, inp) && n in inp.inbox && inp.inbox[n].session.Some?
    requires Quiet(s.log, n, inp.inbox[n].session.value)
    requires RungIds(Account(s.log, n).rings, inp.inbox[n].session.value) <= Elems(inp.inbox[n].ids)
    ensures var rs, p := inp.inbox[n].session.value, Elems(inp.inbox[n].ids);
            AtCap(inp.c, LedgerAfter(inp, n, rs, p, k), p, Unrung(rs, p, inp.rung)) == {}
  {
    hide Inv, Reads, NoProgressSince, AtCap, LedgerAfter, JudgeOf, RungIds, Account, Quiet, AllMild, Overrun, Reconciled;
    var read := inp.inbox[n];
    var rs, p := read.session.value, Elems(read.ids);
    ReadyNow(s, inp, n, k);
    JudgeMild(inp, n, read, k);
    ReachableJudgement(s, inp, n, k);
    forall id ensures NoProgressSince(s.log + JudgeOf(inp, n, read, k), n, rs, Some(id))
    {
      QuietNoProgress(s.log, JudgeOf(inp, n, read, k), n, rs, Some(id));
    }
  }

  lemma RingMild(inp: Input, n: Str, session: Str, l: Ledger, p: set<Str>, binding: Str, k: nat)
    requires AtCap(inp.c, l, p, Unrung(session, p, inp.rung)) == {}
    ensures var u := Unrung(session, p, inp.rung); var again := Again(inp.c, l, p, u);
            RingRecs(inp, n, session, l, p, binding, k) ==
            if MayRing(inp.c, l, TimesOf(inp, n), u, again) then [Intent(IntentOf(inp.c, n, session, binding, l, u, again, inp.uid(k)))] else []
    ensures AllMild(RingRecs(inp, n, session, l, p, binding, k))
  {
    hide AtCap, Again, MayRing, IntentOf;
  }

  lemma MildConcat(x: seq<Rec>, y: seq<Rec>)
    requires AllMild(x) && AllMild(y)
    ensures AllMild(x + y)
  {
  }

  lemma InertMild(recs: seq<Rec>, n: Str)
    requires forall r :: r in recs ==> r.Board? || r.Budget?
    ensures AllMild(recs)
  {
  }

  /** What a deaf agent's own part of a plan looks like. */
  lemma AgentMild(s: State, inp: Input, n: Str, k: nat)
    requires Inv(s) && Reads(s, inp) && n in inp.inbox && inp.inbox[n].session.Some?
    requires Quiet(s.log, n, inp.inbox[n].session.value)
    requires RungIds(Account(s.log, n).rings, inp.inbox[n].session.value) <= Elems(inp.inbox[n].ids)
    ensures AllMild(AgentRecs(inp, n, inp.inbox[n], k)) && AllMild(AbsentRecs(inp, n, inp.inbox[n], k))
  {
    hide Inv, Reads, AtCap, LedgerAfter, JudgeOf, RungIds, Account, Quiet, AllMild, BoardTo, BudgetRecs, MailRecs, RingPart, BoardPart;
    var read := inp.inbox[n];
    var J, G := JudgeOf(inp, n, read, k), BudgetRecs(inp, n, read.session);
    var m := k + |J + G|;
    SameLog(s, inp);
    JudgeMild(inp, n, read, k);
    NoneStuck(s, inp, n, k);
    BudgetOnly(inp, n, read.session);
    InertMild(G, n);
    BoardOnly(inp.c, n, CurBoard(inp, n), None, 0, NoMail, inp.uid, k);
    InertMild(BoardTo(inp.c, n, CurBoard(inp, n), None, 0, NoMail, inp.uid, k), n);
    BoardOnly(inp.c, n, CurBoard(inp, n), None, 0, NoMail, inp.uid, m);
    InertMild(BoardTo(inp.c, n, CurBoard(inp, n), None, 0, NoMail, inp.uid, m), n);
    MailParts(inp, n, read, m, k);
    InertMild(BoardPart(inp, n, read, m), n);
    RingPartMild(inp, n, read, m, k);
    MildConcat(J, G);
    MildConcat(BoardPart(inp, n, read, m), RingPart(inp, n, read, m, k));
    MildConcat(J + G, MailRecs(inp, n, read, m, k));
    MildConcat(J + G, BoardTo(inp.c, n, CurBoard(inp, n), None, 0, NoMail, inp.uid, m));
    InertMild([], n);
  }

  lemma SameLog(s: State, inp: Input)
    requires Reads(s, inp)
    ensures inp.log == s.log
  {
  }

  lemma RingPartMild(inp: Input, n: Str, read: PendingRead, m: nat, j: nat)
    requires read.session.Some?
    requires var rs, p := read.session.value, Elems(read.ids); AtCap(inp.c, LedgerAfter(inp, n, rs, p, j), p, Unrung(rs, p, inp.rung)) == {}
    ensures AllMild(RingPart(inp, n, read, m, j))
  {
    hide AtCap, LedgerAfter, Decide, OfAgent, AliveOf, BoardPart, RingRecs, AllMild, Unrung, Again, MayRing, IntentOf;
    InertMild([], n);
    var bs := OfAgent(inp.bindings, n);
    match Decide(inp, n, read, bs)
    case Hold(_) =>
    case Show(_, _, ring) =>
      if ring && AliveOf(bs, inp.ownHost) != [] {
        RingMild(inp, n, read.session.value, LedgerAfter(inp, n, read.session.value, Elems(read.ids), j), Elems(read.ids),
                 AliveOf(bs, inp.ownHost)[0].id, m + |BoardPart(inp, n, read, m)|);
      }
  }

  /** No record of the plan is progress of the session or calls one of its ids stuck. */
  lemma PlanQuiet(s: State, inp: Input, n: Str, rs: Str)
    requires Inv(s) && Reads(s, inp) && s.env(n).session == Some(rs)
    requires Quiet(s.log, n, rs) && RungIds(Account(s.log, n).rings, rs) <= s.env(n).pending
    ensures Quiet(Plan(inp), n, rs)
  {
    hide Inv, Plan, AgentRecs, AbsentRecs, ReadyCycle, MainNames, LedgerAgents, Own, RungIds, Account, Supply, NewId;
    ReachableReady(s, inp);
    if inp.ownHost == "" {
      HoldPlan(inp);
    } else {
      var k := OwnPlan(inp, n);
      OwnMembers(Plan(inp), n);
      if n in inp.inbox {
        assert ViewOf(inp.inbox[n]) == ViewIn(s.env, n);
        AgentMild(s, inp, n, k);
      }
      forall r | r in Plan(inp) ensures !Stirs(r, n, rs)
      {
        if AgentOf(r) == Some(n) { assert r in Own(Plan(inp), n) && Mild(r); }
      }
    }
  }

  lemma HoldPlan(inp: Input)
    requires inp.ownHost == ""
    ensures Plan(inp) == []
  {
  }

  // ---------------------------------------------------------------- what stays true of a deaf agent

  /** Everything rung is pending still, and so is every episode. */
  predicate Heard(a: Acct, rs: Str, pending: set<Str>)
  {
    (forall i, id :: i in a.rings && i.session == rs && id in i.ids ==> id in pending) &&
    (forall e :: e in a.open && e.rec.session == rs && e.rec.reason == Unresponsive ==> e.episode <= pending)
  }

  /** Escalations are of sessions the agent has had. */
  predicate EscKnown(h: seq<Rec>, n: Str, seen: set<Str>)
  {
    forall r :: r in h && r.Escalation? && r.x.agent == n ==> r.x.session in seen
  }

  ghost predicate DeafIn(s: State, n: Str, rs: Str)
  {
    EscKnown(s.hist, n, s.env(n).seen) &&
    (s.env(n).session == Some(rs) ==> Quiet(s.hist, n, rs) && Heard(Account(s.log, n), rs, s.env(n).pending))
  }

  /** From one state to a later one: no ring of the session is lost, and an open escalation stays open. */
  ghost predicate Forward(s: State, t: State, n: Str, rs: Str)
  {
    var a, b := Account(s.log, n), Account(t.log, n);
    RingsFor(a.rings, rs, None) <= RingsFor(b.rings, rs, None) && (HasUnresponsive(a, rs) ==> HasUnresponsive(b, rs))
  }

  lemma HeardRung(a: Acct, rs: Str, pending: set<Str>)
    requires Heard(a, rs, pending)
    ensures RungIds(a.rings, rs) <= pending
  {
    RungIdsMembers(a.rings, rs);
  }

  lemma {:induction false} NotedOpen(open: seq<OpenEsc>, i: IntentRec, e: OpenEsc)
    requires e in open
    ensures Noted(e, i) in NoteExtra(open, i)
  {
    var k :| 0 <= k < |open| && open[k] == e;
    assert NoteExtra(open, i)[k] == Noted(e, i);
  }

  /** A record that fits keeps everything rung pending, loses no ring and closes no `agent_unresponsive`. */
  lemma StepHeard(a: Acct, n: Str, rs: Str, pending: set<Str>, r: Rec)
    requires Heard(a, rs, pending) && AcctWf(a, n) && Fits(a, n, View(Some(rs), pending), r)
    ensures var b := Step(a, r, n);
            Heard(b, rs, pending) && RingsFor(a.rings, rs, None) <= RingsFor(b.rings, rs, None) &&
            (HasUnresponsive(a, rs) ==> HasUnresponsive(b, rs))
  {
    match r
    case Intent(i) => IntentHeard(a, n, rs, pending, i);
    case Escalation(x) =>
      if x.isOpen { OpenHeard(a, n, rs, pending, x); } else { CloseHeard(a, n, rs, pending, x); }
    case _ =>
  }

  lemma IntentHeard(a: Acct, n: Str, rs: Str, pending: set<Str>, i: IntentRec)
    requires Heard(a, rs, pending) && i.agent == n && i.session == rs && forall id :: id in i.ids ==> id in pending
    ensures var b := Step(a, Intent(i), n);
            Heard(b, rs, pending) && RingsFor(b.rings, rs, None) == RingsFor(a.rings, rs, None) + 1 &&
            (HasUnresponsive(a, rs) ==> HasUnresponsive(b, rs))
  {
    assert (a.rings + [i])[..|a.rings|] == a.rings;
    var b := Step(a, Intent(i), n);
    if i.during {
      forall f | f in b.open && f.rec.session == rs && f.rec.reason == Unresponsive ensures f.episode <= pending
      {
        var k :| 0 <= k < |b.open| && b.open[k] == f;
        assert f == Noted(a.open[k], i) && a.open[k] in a.open;
      }
      if HasUnresponsive(a, rs) {
        var e :| e in a.open && e.rec.session == rs && e.rec.reason == Unresponsive;
        NotedOpen(a.open, i, e);
        assert Noted(e, i).rec == e.rec;
      }
    }
  }

  lemma OpenHeard(a: Acct, n: Str, rs: Str, pending: set<Str>, x: EscRec)
    requires Heard(a, rs, pending) && EscFits(a, x, View(Some(rs), pending)) && x.isOpen && x.agent == n
    ensures var b := Step(a, Escalation(x), n); Heard(b, rs, pending) && b.rings == a.rings && (HasUnresponsive(a, rs) ==> HasUnresponsive(b, rs))
  {
    hide RungIds;
    var b := Step(a, Escalation(x), n);
    assert forall e :: e in b.open <==> e in a.open || e == OpenEsc(x, Elems(x.ids), false);
  }

  /** Its episode is pending still and its session the agent's: nothing closes it. */
  lemma CloseHeard(a: Acct, n: Str, rs: Str, pending: set<Str>, x: EscRec)
    requires Heard(a, rs, pending) && AcctWf(a, n) && EscFits(a, x, View(Some(rs), pending)) && !x.isOpen && x.agent == n
    ensures var b := Step(a, Escalation(x), n); Heard(b, rs, pending) && b.rings == a.rings && (HasUnresponsive(a, rs) ==> HasUnresponsive(b, rs))
  {
    DropOpenMembers(a.open, x.id);
    assert x.session == rs ==> x.close.value.Progress?;
    if HasUnresponsive(a, rs) {
      var e :| e in a.open && e.rec.session == rs && e.rec.reason == Unresponsive;
      if e.rec.id == x.id {
        var f :| f in a.open && f.rec.id == x.id && f.rec.session == x.session && f.rec.reason == x.reason &&
                 (x.close == Some(Progress) ==> !(f.episode <= pending));
        SameEsc(a.open, n, e, f);
        assert false;
      }
    }
  }

  // ---------------------------------------------------------------- every step

  lemma EscAppend(s: State, n: Str, m: Str, r: Rec)
    requires Inv(s) && EscKnown(s.hist, n, s.env(n).seen) && Fits(Account(s.log, m), m, ViewIn(s.env, m), r)
    ensures EscKnown(s.hist + [r], n, s.env(n).seen)
  {
    hide ExtraOnce, RingBehind, NamedRings, SessionKnown, Linked;
    if r.Escalation? && r.x.agent == n {
      assert EnvOk(s.env(n));
      OpenAlone(s.log, n);
      if !r.x.isOpen {
        var e :| e in Account(s.log, n).open && e.rec.id == r.x.id && e.rec.session == r.x.session && e.rec.reason == r.x.reason;
        assert Escalation(e.rec) in s.hist;
      }
    }
  }

  lemma AppendDeaf(s: State, n: Str, rs: Str, m: Str, r: Rec)
    requires Inv(s) && DeafIn(s, n, rs) && Fits(Account(s.log, m), m, ViewIn(s.env, m), r)
    requires s.env(n).session == Some(rs) ==> !Stirs(r, n, rs)
    ensures DeafIn(Grown(s, r), n, rs) && (s.env(n).session == Some(rs) ==> Forward(s, Grown(s, r), n, rs))
  {
    hide Inv, Heard, EscKnown, Stirs, HasUnresponsive, Account, Fits;
    EscAppend(s, n, m, r);
    if s.env(n).session == Some(rs) {
      AccountGrows(s.log, r, n);
      if m == n {
        AcctIsWf(s, n);
        StepHeard(Account(s.log, n), n, rs, s.env(n).pending, r);
      } else {
        NotMine(Account(s.log, n), Account(s.log, n), Account(s.log, m), m, ViewIn(s.env, m), r, n);
      }
    }
  }

  lemma NoteDeaf(s: State, n: Str, rs: Str, r: Rec)
    requires DeafIn(s, n, rs) && (r.Header? || r.Clock?)
    ensures DeafIn(Grown(s, r), n, rs) && Forward(s, Grown(s, r), n, rs)
  {
    hide Heard, Account;
    AccountGrows(s.log, r, n);
  }

  /** The agent drains nothing: while the session is bound it stays bound, and nothing of it leaves pending. */
  predicate DrainsNothing(s: State, t: State, n: Str, rs: Str)
  {
    s.env(n).session == Some(rs) ==> t.env(n).session == Some(rs) && s.env(n).pending <= t.env(n).pending
  }

  lemma WorldDeaf(s: State, t: State, n: Str, rs: Str)
    requires Inv(s) && DeafIn(s, n, rs) && WorldStep(s, t) && DrainsNothing(s, t, n, rs)
    ensures DeafIn(t, n, rs) && Forward(s, t, n, rs)
  {
    hide ExtraOnce, RingBehind, NamedRings, SessionKnown, Linked, EnvsOk;
    assert EnvMoves(s.env(n), t.env(n));
    if t.env(n).session == Some(rs) && s.env(n).session != Some(rs) {
      SessionNew(s, n, rs);
      NewDeaf(s.hist, s.log, n, rs, s.env(n).seen, t.env(n).pending);
    }
  }

  /** A session no record speaks of. */
  lemma NewDeaf(hist: seq<Rec>, log: seq<Rec>, n: Str, rs: Str, seen: set<Str>, pending: set<Str>)
    requires NewSession(hist, n, rs) && EscKnown(hist, n, seen) && rs !in seen && WfLog(log) && forall r :: r in log ==> r in hist
    ensures Quiet(hist, n, rs) && Heard(Account(log, n), rs, pending)
  {
    AccountRings(log, n);
    OpenAlone(log, n);
    hide WfLog, Account;
    forall i | i in Account(log, n).rings ensures i.session != rs { assert Intent(i) in hist; }
    forall e | e in Account(log, n).open ensures e.rec.session != rs { assert Escalation(e.rec) in hist; }
  }

  lemma OneKept(p: seq<IntentRec>, q: seq<IntentRec>, i: IntentRec, kept: set<Str>, rs: Str)
    requires RingsFor(p, rs, None) == RingsFor(q, rs, None) && (i.session == rs ==> i.id in kept)
    ensures RingsFor(if i.id in kept then p + [i] else p, rs, None) == RingsFor(q + [i], rs, None)
  {
    assert (p + [i])[..|p|] == p && (q + [i])[..|q|] == q;
  }

  lemma {:induction false} KeptFor(rings: seq<IntentRec>, kept: set<Str>, rs: Str)
    requires forall i :: i in rings && i.session == rs ==> i.id in kept
    ensures RingsFor(KeptRings(rings, kept), rs, None) == RingsFor(rings, rs, None)
  {
    if rings != [] {
      var q, i := rings[..|rings| - 1], rings[|rings| - 1];
      assert i in rings;
      KeptFor(q, kept, rs);
      OneKept(KeptRings(q, kept), q, i, kept, rs);
      assert rings == q + [i];
      hide RingsFor;
    }
  }

  lemma SessionKept(s: State, at: StartAt, n: Str, rs: Str)
    requires Inv(s) && s.env(n).session == Some(rs) && Heard(Account(s.log, n), rs, s.env(n).pending)
    ensures forall i :: i in Account(s.log, n).rings && i.session == rs ==> i.id in KeptIds(s.log, Snapshot(s.log, s.env), at)
  {
    hide Inv, Account, KeptIds;
    var now, a := Snapshot(s.log, s.env), Account(s.log, n);
    RingIsRead(s.log, s.env, n);
    AcctIsWf(s, n);
    if n in now { KeptByRule(s.log, now, at, n); }
    forall i | i in a.rings && i.session == rs ensures i.id in KeptIds(s.log, now, at)
    {
      var k :| 0 <= k < |a.rings| && a.rings[k] == i;
      assert i.ids[0] in i.ids && i.ids[0] in s.env(n).pending && now[n] == ViewIn(s.env, n);
    }
  }

  /** A compaction keeps every ring of a session whose ids are all pending. */
  lemma CompactRings(s: State, at: StartAt, n: Str, rs: Str)
    requires Inv(s) && s.env(n).session == Some(rs) && Heard(Account(s.log, n), rs, s.env(n).pending)
    ensures var a, b := Account(s.log, n), Account(Compact(s.log, Snapshot(s.log, s.env), at), n);
            (forall i :: i in b.rings ==> i in a.rings) && RingsFor(b.rings, rs, None) == RingsFor(a.rings, rs, None)
  {
    hide Inv, Heard, Account, KeptIds, Pick, RingsFor, KeptRings;
    var now, a := Snapshot(s.log, s.env), Account(s.log, n);
    var kept := KeptIds(s.log, now, at);
    assert s.log[..|s.log|] == s.log;
    PickRings(s.log, now, kept, |s.log|, n);
    KeptRingsMembers(a.rings, kept);
    SessionKept(s, at, n, rs);
    KeptFor(a.rings, kept, rs);
  }

  lemma CompactDeaf(s: State, at: StartAt, n: Str, rs: Str)
    requires Inv(s) && DeafIn(s, n, rs) && at.budget >= 1
    ensures var t := State(s.hist, Compact(s.log, Snapshot(s.log, s.env), at), s.env);
            DeafIn(t, n, rs) && (s.env(n).session == Some(rs) ==> Forward(s, t, n, rs))
  {
    hide WfLog, RingBehind, SessionKnown, Linked, EnvsOk, Compact, ExtraOnce, NamedRings, Account, RingsFor;
    if s.env(n).session == Some(rs) {
      assert ExtraOnce(s.log, n);
      CompactionKeeps(s.log, Snapshot(s.log, s.env), at, n);
      CompactRings(s, at, n, rs);
    }
  }

  lemma ForwardOnce(s: State, n: Str, rs: Str)
    ensures Forward(s, s, n, rs)
  {
  }

  lemma ForwardTwice(s: State, t: State, u: State, n: Str, rs: Str)
    requires Forward(s, t, n, rs) && Forward(t, u, n, rs)
    ensures Forward(s, u, n, rs)
  {
  }

  lemma DeafParts(s: State, n: Str, rs: Str)
    requires Inv(s) && DeafIn(s, n, rs) && s.env(n).session == Some(rs)
    ensures Quiet(s.log, n, rs) && RungIds(Account(s.log, n).rings, rs) <= s.env(n).pending
  {
    hide WfLog, RingBehind, SessionKnown, Linked, EnvsOk, ExtraOnce, NamedRings, Account, RungIds;
    HeardRung(Account(s.log, n), rs, s.env(n).pending);
  }

  lemma {:induction false} PrefixDeaf(s: State, inp: Input, k: nat, n: Str, rs: Str)
    requires Inv(s) && Reads(s, inp) && k <= |Plan(inp)| && DeafIn(s, n, rs)
    ensures var t := After(s, Plan(inp)[..k]); DeafIn(t, n, rs) && (s.env(n).session == Some(rs) ==> Forward(s, t, n, rs))
    decreases k
  {
    hide Inv, Plan, FitsLog, AllFitLog, ReadyCycle, NewId, DeafIn, Reads, IdsFrom, Forward, Quiet, Stirs;
    var recs := Plan(inp);
    if k == 0 {
      assert recs[..0] == [];
      assert After(s, []) == s;
      ForwardOnce(s, n, rs);
    } else {
      PrefixDeaf(s, inp, k - 1, n, rs);
      PrefixKeeps(s, inp, k - 1);
      var t, r := After(s, recs[..k - 1]), recs[k - 1];
      PlanRecord(s, inp, k - 1);
      if s.env(n).session == Some(rs) {
        DeafParts(s, n, rs);
        PlanQuiet(s, inp, n, rs);
        QuietAt(recs, k - 1, n, rs);
      }
      NextDeaf(s, inp, t, r, n, rs);
      assert recs[..k] == recs[..k - 1] + [r];
      assert s.log + recs[..k] == t.log + [r] && s.hist + recs[..k] == t.hist + [r];
      if s.env(n).session == Some(rs) { ForwardTwice(s, t, Grown(t, r), n, rs); }
    }
  }

  lemma QuietAt(recs: seq<Rec>, k: nat, n: Str, rs: Str)
    requires Quiet(recs, n, rs) && k < |recs|
    ensures !Stirs(recs[k], n, rs)
  {
  }

  lemma NextDeaf(s: State, inp: Input, t: State, r: Rec, n: Str, rs: Str)
    requires Inv(t) && DeafIn(t, n, rs) && t.env == s.env && Reads(s, inp) && FitsLog(inp, t.log, r)
    requires s.env(n).session == Some(rs) ==> !Stirs(r, n, rs)
    ensures DeafIn(Grown(t, r), n, rs) && (s.env(n).session == Some(rs) ==> Forward(t, Grown(t, r), n, rs))
  {
    hide Inv, DeafIn, NewId, Fits, Stirs, Forward;
    var m := AgentOf(r).value;
    assert ViewOf(inp.inbox[m]) == ViewIn(t.env, m);
    AppendDeaf(t, n, rs, m, r);
  }

  lemma StepDeaf(s: State, t: State, n: Str, rs: Str)
    requires Inv(s) && Next(s, t) && DeafIn(s, n, rs) && DrainsNothing(s, t, n, rs)
    ensures DeafIn(t, n, rs) && (s.env(n).session == Some(rs) ==> Forward(s, t, n, rs))
  {
    hide Inv, Plan, Compact, Reads, EnvStep, DeafIn, Forward;
    if WorldStep(s, t) {
      WorldDeaf(s, t, n, rs);
    } else if CycleStep(s, t) {
      var inp: Input, k: nat :| Reads(s, inp) && k <= |Plan(inp)| &&
        t.log == s.log + Plan(inp)[..k] && t.hist == s.hist + Plan(inp)[..k];
      PrefixDeaf(s, inp, k, n, rs);
      assert t == After(s, Plan(inp)[..k]);
    } else if NoteStep(s, t) {
      var r: Rec :| (r.Header? || r.Clock?) && t.log == s.log + [r] && t.hist == s.hist + [r];
      NoteDeaf(s, n, rs, r);
      assert t == Grown(s, r);
    } else {
      var at: StartAt :| at.budget >= 1 && t.log == Compact(s.log, Snapshot(s.log, s.env), at);
      CompactDeaf(s, at, n, rs);
    }
  }

  // ---------------------------------------------------------------- a ring and its horizon

  /** The cycle may ring the agent: it has mail, one live window, and budget and window allow it. */
  predicate MayBeRung(inp: Input, n: Str)
  {
    inp.ownHost != "" && Main(inp, n) && inp.inbox[n].registered && inp.inbox[n].ids != [] &&
    var d := Decide(inp, n, inp.inbox[n], OfAgent(inp.bindings, n));
    d.Show? && d.ring && MayRingNow(inp.c, TimesOf(inp, n))
  }

  /** Every ring of the session so far is past the horizon. */
  predicate PastHorizon(inp: Input, n: Str, rs: Str)
  {
    forall i :: i in Account(inp.log, n).rings && i.session == rs ==> !Young(inp.c, MonoOf(inp.mono, i.id))
  }

  /** A whole cycle in which the agent may be rung, its earlier rings past the horizon. */
  ghost predicate Round(s: State, t: State, n: Str, rs: Str)
  {
    s.env(n).session == Some(rs) &&
    exists inp: Input :: Reads(s, inp) && MayBeRung(inp, n) && PastHorizon(inp, n, rs) && t == After(s, Plan(inp))
  }

  lemma {:induction false} LastIsOne(rings: seq<IntentRec>, session: Str, id: Str, mono: map<Str, int>)
    ensures var q := LastRing(rings, session, id, mono);
            (id in RungIds(rings, session) ==> q.Some?) &&
            (q.Some? ==> exists i :: i in rings && i.session == session && q.value == MonoOf(mono, i.id))
  {
    if rings != [] {
      var p, i := rings[..|rings| - 1], rings[|rings| - 1];
      assert i in rings;
      LastIsOne(p, session, id, mono);
      var q := LastRing(p, session, id, mono);
      if q.Some? {
        var j :| j in p && j.session == session && q.value == MonoOf(mono, j.id);
        assert j in rings;
      }
    }
  }

  /** With no escalation open and every ring past the horizon, some pending id is new or due again. */
  lemma SomethingDue(c: Config, a: Acct, n: Str, rs: Str, mono: map<Str, int>, rung: set<(Str, Str)>, p: set<Str>)
    requires p != {} && !HasUnresponsive(a, rs) && RingsFor(a.rings, rs, None) < ESCALATE_AFTER
    requires forall id :: id in p ==> ((rs, id) in rung ==> id in RungIds(a.rings, rs))
    requires forall i :: i in a.rings && i.session == rs ==> !Young(c, MonoOf(mono, i.id))
    ensures var l, u := LedgerOf(a, rs, mono), Unrung(rs, p, rung);
            l.unresponsive == None && u + Again(c, l, p, u) != {}
  {
    var id :| id in p;
    UnresponsiveIsOpen(a.open, rs);
    var l, u := LedgerOf(a, rs, mono), Unrung(rs, p, rung);
    if (rs, id) in rung {
      LastIsOne(a.rings, rs, id, mono);
      CoversIsFor(a.rings, rs, id);
      hide RungIds, Covers, LastRing, SortRings, StuckOf, UnresponsiveOf, LeftOf, Young, RingsFor;
      assert Due(c, l, id);
      assert id in Again(c, l, p, u);
    } else {
      assert id in u;
    }
  }

  /** The agent's account after its whole part of a plan: judged, and rung if it may be. */
  lemma PartAccount(inp: Input, n: Str, k: nat)
    requires Ready(inp, n, k) && n in inp.inbox && inp.inbox[n].registered && inp.inbox[n].ids != []
    ensures var read := inp.inbox[n];
            var J := JudgeOf(inp, n, read, k);
            var m := k + |J + BudgetRecs(inp, n, read.session)|;
            Run(Account(inp.log, n), AgentRecs(inp, n, read, k), n) ==
            Run(Run(Account(inp.log, n), J, n), RingPart(inp, n, read, m, k), n)
  {
    hide Run, JudgeOf, BudgetRecs, MailRecs, RingPart, AllFit, AcctWf, RungKnown, Account;
    var read, a := inp.inbox[n], Account(inp.log, n);
    var J, G := JudgeOf(inp, n, read, k), BudgetRecs(inp, n, read.session);
    var m := k + |J + G|;
    var M := MailRecs(inp, n, read, m, k);
    RunConcat(a, J + G, M, n);
    RunConcat(a, J, G, n);
    BudgetOnly(inp, n, read.session);
    InertRun(Run(a, J, n), n, ViewOf(read), G);
    MailAccount(inp, n, read, m, k, Run(a, J, n));
  }

  lemma DecideRings(inp: Input, n: Str, read: PendingRead, bs: seq<Binding>)
    requires var d := Decide(inp, n, read, bs); d.Show? && d.ring
    ensures AliveOf(bs, inp.ownHost) != []
  {
    hide AliveOf, NotDeadOf, BindingIds;
  }

  /** The ring step of a deaf agent that may be rung and has something due. */
  lemma RingsIt(inp: Input, n: Str, rs: Str, b: Acct, m: nat, k: nat)
    requires MayBeRung(inp, n) && inp.inbox[n].session == Some(rs)
    requires LedgerOf(b, rs, inp.mono) == LedgerAfter(inp, n, rs, Elems(inp.inbox[n].ids), k)
    requires var p, l := Elems(inp.inbox[n].ids), LedgerOf(b, rs, inp.mono);
             var u := Unrung(rs, p, inp.rung);
             AtCap(inp.c, l, p, u) == {} && l.unresponsive == None && u + Again(inp.c, l, p, u) != {}
    ensures var R := RingPart(inp, n, inp.inbox[n], m, k);
            |R| == 1 && R[0].Intent? && R[0].i.agent == n && R[0].i.session == rs && forall id :: id in R[0].i.ids ==> id in inp.inbox[n].ids
  {
    hide LedgerOf, LedgerAfter, AtCap, Decide, OfAgent, AliveOf, BoardPart, RingRecs, MainNames, ExhaustedNow, Coalescing, TimesOf, RingIdsOf, KindsOf;
    var read := inp.inbox[n];
    var p, l := Elems(read.ids), LedgerOf(b, rs, inp.mono);
    var u := Unrung(rs, p, inp.rung);
    var again := Again(inp.c, l, p, u);
    var binding := AliveOf(OfAgent(inp.bindings, n), inp.ownHost);
    DecideRings(inp, n, read, OfAgent(inp.bindings, n));
    var q := m + |BoardPart(inp, n, read, m)|;
    RingMild(inp, n, rs, l, p, binding[0].id, q);
    RingIdsFacts(u, again);
    AgainPending(inp.c, l, p, u);
  }

  lemma AgainPending(c: Config, l: Ledger, p: set<Str>, u: set<Str>)
    ensures Again(c, l, p, u) <= p
  {
    hide Due;
  }

  /** Rung memory of the session is the agent's own rings. */
  lemma RungOwn(s: State, inp: Input, n: Str, rs: Str)
    requires Inv(s) && Reads(s, inp) && s.env(n).session == Some(rs)
    ensures forall id :: (rs, id) in inp.rung ==> id in RungIds(Account(s.log, n).rings, rs)
  {
    hide WfLog, RingBehind, NamedRings, ExtraOnce, Linked, Account, Replay, NewId;
    forall r | r in s.log && r.Intent? && r.i.session == rs ensures r.i.agent == n
    {
      assert SessionKnown(r, s.env) && EnvOk(s.env(n));
    }
    forall id | (rs, id) in inp.rung ensures id in RungIds(Account(s.log, n).rings, rs) { RungIsRings(s.log, n, rs, id); }
  }

  /** The plan's effect on the agent's account is that of its own part. */
  lemma RoundAccount(s: State, inp: Input, n: Str) returns (k: nat)
    requires Inv(s) && Reads(s, inp) && MayBeRung(inp, n)
    ensures Account(After(s, Plan(inp)).log, n) == Run(Account(s.log, n), AgentRecs(inp, n, inp.inbox[n], k), n)
  {
    hide Inv, Plan, Run, AgentRecs, AbsentRecs, ReadyCycle, MainNames, LedgerAgents, Own, Supply, NewId, Decide, MayRingNow;
    ReachableReady(s, inp);
    k := OwnPlan(inp, n);
    RunConcat(NOTHING, s.log, Plan(inp), n);
    OwnRun(Account(s.log, n), Plan(inp), n);
  }

  lemma SameView(read: PendingRead, env: Str -> AgentEnv, n: Str)
    requires ViewOf(read) == ViewIn(env, n)
    ensures read.session == env(n).session && Elems(read.ids) == env(n).pending
  {
  }

  lemma DueNow(inp: Input, n: Str, rs: Str)
    requires PastHorizon(inp, n, rs)
    ensures var rings := Account(inp.log, n).rings; DueFor(inp.c, rings, inp.mono, rs, None) == RingsFor(rings, rs, None)
  {
    hide Account, Young;
    AllDue(inp.c, Account(inp.log, n).rings, inp.mono, rs, None);
  }

  lemma JudgedThree(s: State, inp: Input, n: Str, rs: Str, k: nat)
    requires Inv(s) && Reads(s, inp) && DeafIn(s, n, rs) && s.env(n).session == Some(rs) && n in inp.inbox && PastHorizon(inp, n, rs)
    requires RingsFor(Account(s.log, n).rings, rs, None) >= ESCALATE_AFTER
    ensures HasUnresponsive(Run(Account(s.log, n), JudgeOf(inp, n, inp.inbox[n], k), n), rs)
  {
    hide *;
    var read, a := inp.inbox[n], Account(s.log, n);
    var J := JudgeOf(inp, n, read, k);
    ReadyNow(s, inp, n, k);
    SameView(read, s.env, n);
    assert Account(s.log + J, n) == Run(a, J, n) by { JoinRun(s.log, J, n); }
    DeafParts(s, n, rs);
    JudgeMild(inp, n, read, k);
    DueNow(inp, n, rs);
    QuietNoProgress(s.log, J, n, rs, None);
    NeverMootNow(s, inp, n, k);
    AcctIsWf(s, n);
    SomeRung(a, n, rs, s.env(n).pending);
    DeafIsUnresponsive(inp, n, read, k, None);
  }

  lemma JoinRun(h: seq<Rec>, J: seq<Rec>, n: Str)
    ensures Account(h + J, n) == Run(Account(h, n), J, n)
  {
    RunConcat(NOTHING, h, J, n);
  }

  /** What a judgement of a deaf agent leaves: its rings, and the escalation once three are past the horizon. */
  lemma JudgedDeaf(s: State, inp: Input, n: Str, rs: Str, k: nat)
    requires Inv(s) && Reads(s, inp) && DeafIn(s, n, rs) && s.env(n).session == Some(rs) && n in inp.inbox
    requires PastHorizon(inp, n, rs)
    ensures var b := Run(Account(s.log, n), JudgeOf(inp, n, inp.inbox[n], k), n);
            b.rings == Account(s.log, n).rings &&
            (RingsFor(b.rings, rs, None) >= ESCALATE_AFTER ==> HasUnresponsive(b, rs)) &&
            (HasUnresponsive(Account(s.log, n), rs) ==> HasUnresponsive(b, rs))
  {
    hide *;
    var read, a := inp.inbox[n], Account(s.log, n);
    ReadyNow(s, inp, n, k);
    SameView(read, s.env, n);
    JudgeOfFits(inp, n, read, k);
    DeafParts(s, n, rs);
    if RingsFor(a.rings, rs, None) >= ESCALATE_AFTER { JudgedThree(s, inp, n, rs, k); }
    JudgeKeepsOpen(s, inp, n, rs, k);
  }

  lemma {:induction false} FirstFor(rings: seq<IntentRec>, rs: Str)
    requires RingsFor(rings, rs, None) > 0
    ensures exists i :: i in rings && i.session == rs
  {
    var i := rings[|rings| - 1];
    assert i in rings;
    if i.session != rs {
      FirstFor(rings[..|rings| - 1], rs);
      var j :| j in rings[..|rings| - 1] && j.session == rs;
      assert j in rings;
    }
  }

  lemma SomeRung(a: Acct, n: Str, rs: Str, pending: set<Str>)
    requires RingsFor(a.rings, rs, None) >= ESCALATE_AFTER && RungIds(a.rings, rs) <= pending && AcctWf(a, n)
    ensures RungIds(a.rings, rs) * pending != {}
  {
    FirstFor(a.rings, rs);
    var i :| i in a.rings && i.session == rs;
    var k :| 0 <= k < |a.rings| && a.rings[k] == i;
    RungIdsMembers(a.rings, rs);
    assert i.ids[0] in i.ids;
    assert i.ids[0] in RungIds(a.rings, rs) * pending;
  }

  lemma {:induction false} RunHeard(a: Acct, n: Str, rs: Str, pending: set<Str>, recs: seq<Rec>)
    requires Heard(a, rs, pending) && AcctWf(a, n) && AllFit(a, n, View(Some(rs), pending), recs)
    ensures var b := Run(a, recs, n); Heard(b, rs, pending) && (HasUnresponsive(a, rs) ==> HasUnresponsive(b, rs))
    decreases |recs|
  {
    hide Heard, HasUnresponsive, Fits, AcctWf, Step;
    if recs != [] {
      RunHeard(a, n, rs, pending, recs[..|recs| - 1]);
      RunWf(a, n, View(Some(rs), pending), recs[..|recs| - 1]);
      StepHeard(Run(a, recs[..|recs| - 1], n), n, rs, pending, recs[|recs| - 1]);
    }
  }

  lemma JudgeKeepsOpen(s: State, inp: Input, n: Str, rs: Str, k: nat)
    requires Inv(s) && Reads(s, inp) && DeafIn(s, n, rs) && s.env(n).session == Some(rs) && n in inp.inbox
    ensures var a := Account(s.log, n); var b := Run(a, JudgeOf(inp, n, inp.inbox[n], k), n);
            Heard(b, rs, s.env(n).pending) && (HasUnresponsive(a, rs) ==> HasUnresponsive(b, rs))
  {
    hide Inv, Account, Run, JudgeOf, AllFit, AcctWf, HasUnresponsive, Heard, NewFrom, Supply, NewId;
    ReadyNow(s, inp, n, k);
    JudgeOfFits(inp, n, inp.inbox[n], k);
    AcctIsWf(s, n);
    RunHeard(Account(s.log, n), n, rs, s.env(n).pending, JudgeOf(inp, n, inp.inbox[n], k));
  }

  /** A round either finds an escalation open, or opens it after ESCALATE_AFTER rings, or rings once more. */
  lemma RoundTells(s: State, t: State, n: Str, rs: Str)
    requires Inv(s) && DeafIn(s, n, rs) && Round(s, t, n, rs)
    ensures var a, b := Account(s.log, n), Account(t.log, n);
            HasUnresponsive(b, rs) ||
            (RingsFor(a.rings, rs, None) < ESCALATE_AFTER && RingsFor(b.rings, rs, None) == RingsFor(a.rings, rs, None) + 1)
  {
    hide Inv, DeafIn, Plan, Account, Run, MayBeRung, PastHorizon, RingsFor, HasUnresponsive, Reads;
    var inp: Input :| Reads(s, inp) && MayBeRung(inp, n) && PastHorizon(inp, n, rs) && t == After(s, Plan(inp));
    var k := RoundAccount(s, inp, n);
    RoundPart(s, inp, n, rs, k);
  }

  lemma RoundPart(s: State, inp: Input, n: Str, rs: Str, k: nat)
    requires Inv(s) && DeafIn(s, n, rs) && s.env(n).session == Some(rs) && Reads(s, inp) && MayBeRung(inp, n) && PastHorizon(inp, n, rs)
    ensures var a := Account(s.log, n); var b := Run(a, AgentRecs(inp, n, inp.inbox[n], k), n);
            HasUnresponsive(b, rs) ||
            (RingsFor(a.rings, rs, None) < ESCALATE_AFTER && RingsFor(b.rings, rs, None) == RingsFor(a.rings, rs, None) + 1)
  {
    hide Inv, DeafIn, Account, Run, JudgeOf, RungIds, AllFit, AcctWf, RingsFor, Quiet, HasUnresponsive, Heard, LedgerOf, LedgerAfter,
      AtCap, Again, RingPart, BudgetRecs, AgentRecs, Decide, MainNames, MayRingNow, Ready, RungKnown;
    var read, a := inp.inbox[n], Account(s.log, n);
    var p := Elems(read.ids);
    var b := Run(a, JudgeOf(inp, n, read, k), n);
    var m := k + |JudgeOf(inp, n, read, k) + BudgetRecs(inp, n, read.session)|;
    ReadyNow(s, inp, n, k);
    PartAccount(inp, n, k);
    JudgedDeaf(s, inp, n, rs, k);
    JudgeKeepsOpen(s, inp, n, rs, k);
    DeafParts(s, n, rs);
    NoneStuck(s, inp, n, k);
    JudgeOfFits(inp, n, read, k);
    RungOwn(s, inp, n, rs);
    assert read.ids[0] in p;
    if HasUnresponsive(b, rs) {
      PartHeard(s, inp, n, rs, k);
    } else {
      SomethingDue(inp.c, b, n, rs, inp.mono, inp.rung, p);
      RingsIt(inp, n, rs, b, m, k);
      var R := RingPart(inp, n, read, m, k);
      RunOne(b, R, n);
      IntentHeard(b, n, rs, p, R[0].i);
    }
  }

  lemma RunOne(a: Acct, R: seq<Rec>, n: Str)
    requires |R| == 1
    ensures Run(a, R, n) == Step(a, R[0], n)
  {
    assert R[..0] == [];
  }

  /** Once open, the escalation stays open through the rest of the agent's part. */
  lemma PartHeard(s: State, inp: Input, n: Str, rs: Str, k: nat)
    requires Inv(s) && Reads(s, inp) && DeafIn(s, n, rs) && s.env(n).session == Some(rs) && n in inp.inbox
    requires inp.inbox[n].registered && inp.inbox[n].ids != []
    requires HasUnresponsive(Run(Account(s.log, n), JudgeOf(inp, n, inp.inbox[n], k), n), rs)
    ensures HasUnresponsive(Run(Account(s.log, n), AgentRecs(inp, n, inp.inbox[n], k), n), rs)
  {
    hide Inv, DeafIn, Account, Run, JudgeOf, AllFit, AcctWf, HasUnresponsive, Heard, MailRecs, BudgetRecs, NewFrom, Supply, NewId, Ready;
    var read, a := inp.inbox[n], Account(s.log, n);
    var J, G := JudgeOf(inp, n, read, k), BudgetRecs(inp, n, read.session);
    var M := MailRecs(inp, n, read, k + |J + G|, k);
    ReadyNow(s, inp, n, k);
    AgentFits(inp, n, read, k);
    assert J + G + M == J + (G + M);
    RunConcat(a, J, G + M, n);
    AllFitRest(a, n, ViewOf(read), J, G + M);
    JudgeOfFits(inp, n, read, k);
    JudgeKeepsOpen(s, inp, n, rs, k);
    RunHeard(Run(a, J, n), n, rs, s.env(n).pending, G + M);
  }

  // ---------------------------------------------------------------- a round is always possible

  function Blank(n: nat): (s: Str)
    ensures |s| == n
  {
    if n == 0 then "" else Blank(n - 1) + "x"
  }

  lemma {:induction false} LongerThan(ids: seq<Str>) returns (m: nat)
    ensures forall x :: x in ids ==> |x| < m
  {
    m := 1;
    if ids != [] {
      var p := LongerThan(ids[..|ids| - 1]);
      m := if p > |ids[|ids| - 1]| then p else |ids[|ids| - 1]| + 1;
      assert ids == ids[..|ids| - 1] + [ids[|ids| - 1]];
    }
  }

  /** An id longer than all a history holds is new to it. */
  lemma {:induction false} LongIsNew(hist: seq<Rec>) returns (m: nat)
    ensures m > 0 && forall id: Str :: |id| >= m ==> NewId(hist, id)
  {
    m := 1;
    if hist != [] {
      var p, r := hist[..|hist| - 1], hist[|hist| - 1];
      var a := LongIsNew(p);
      var b := LongerThan(if r.Intent? then [r.i.id] else if r.Effect? then r.e.intents else if r.Escalation? then [r.x.id] else []);
      m := if a > b then a else b;
      forall id: Str | |id| >= m ensures NewId(hist, id)
      {
        assert NewId(p, id);
        forall t | t in hist ensures (t.Intent? ==> t.i.id != id) && (t.Effect? ==> id !in t.e.intents) && (t.Escalation? ==> t.x.id != id)
        {
          if t != r { assert t in p; }
        }
      }
    }
  }

  /** A cycle's input in this state in which the agent may be rung, an hour after all its rings. */
  function RoundInput(s: State, n: Str, rs: Str, uid: nat -> Str): Input
  {
    Input(Config(0, MAX_HORIZON_MS as real, MIN_WINDOW_MS, MIN_BUDGET, MAX_HORIZON_MS, None), [Binding("window", Some(n), "host", Alive)], "host",
          map[n := PendingRead(true, Some(rs), SortedSet(s.env(n).pending))], Replay(s.log).rung, map[], {}, None, Replay(s.log).boardOpen,
          None, map[], {n}, s.log, map[], uid)
  }

  function BlankFrom(m: nat): nat -> Str
  {
    (j: nat) => Blank(m + j)
  }

  lemma BlankIds(hist: seq<Rec>, m: nat)
    requires forall id: Str :: |id| >= m ==> NewId(hist, id)
    ensures Supply(BlankFrom(m)) && forall j: nat :: NewId(hist, BlankFrom(m)(j))
  {
    hide NewId;
    forall i: nat, j: nat | BlankFrom(m)(i) == BlankFrom(m)(j) ensures i == j
    {
      assert BlankFrom(m)(i) == Blank(m + i) && BlankFrom(m)(j) == Blank(m + j);
    }
    forall j: nat ensures NewId(hist, BlankFrom(m)(j)) { assert BlankFrom(m)(j) == Blank(m + j); }
  }

  /** What a cycle reads of the agent is what there is. */
  lemma ReadsOne(s: State, inp: Input, n: Str)
    requires inp.log == s.log && inp.rung == Replay(s.log).rung && inp.boardOpen == Replay(s.log).boardOpen
    requires Supply(inp.uid) && (forall j: nat :: NewId(s.hist, inp.uid(j))) && inp.inbox.Keys == {n} && ViewOf(inp.inbox[n]) == ViewIn(s.env, n)
    ensures Reads(s, inp)
  {
    hide Replay, NewId, Supply, ViewOf, ViewIn;
  }

  lemma RoundInputReads(s: State, n: Str, rs: Str, uid: nat -> Str)
    requires s.env(n).session == Some(rs) && Supply(uid) && forall j: nat :: NewId(s.hist, uid(j))
    ensures Reads(s, RoundInput(s, n, rs, uid))
  {
    hide Replay, NewId, Supply, Reads;
    ElemsSorted(s.env(n).pending);
    ReadsOne(s, RoundInput(s, n, rs, uid), n);
  }

  /** One live window of the agent's, no watch, and an actuator. */
  predicate OneLive(inp: Input, n: Str, b: Binding)
  {
    b.agent == Some(n) && b.anchor == Alive && inp.bindings == [b] && inp.ownHost == b.host && inp.watchFit == None && n in inp.actuated &&
    TimesOf(inp, n) == [] && inp.c.budget >= 1
  }

  lemma OneLiveRings(inp: Input, n: Str, read: PendingRead, b: Binding)
    requires OneLive(inp, n, b) && read.session.Some?
    ensures Decide(inp, n, read, OfAgent(inp.bindings, n)) == Show(None, None, true)
    ensures n in MainNames(inp) && MayRingNow(inp.c, TimesOf(inp, n))
  {
    OneOf(b, n);
    LiveIsMain(inp, n, b);
    hide OfAgent, AliveOf, NotDeadOf, BindingIds, MainNames, TimesOf;
  }

  lemma OneOf(b: Binding, n: Str)
    requires b.agent == Some(n) && b.anchor == Alive
    ensures OfAgent([b], n) == [b] && AliveOf([b], b.host) == [b] && NotDeadOf([b], b.host) == [b]
  {
    assert [b][..0] == [];
  }

  lemma LiveIsMain(inp: Input, n: Str, b: Binding)
    requires b in inp.bindings && b.agent == Some(n)
    ensures n in MainNames(inp)
  {
    assert n in (set x | x in inp.bindings && x.agent.Some? :: x.agent.value);
  }

  lemma RoundInputRings(s: State, n: Str, rs: Str, uid: nat -> Str)
    requires s.env(n).pending != {}
    ensures MayBeRung(RoundInput(s, n, rs, uid), n) && PastHorizon(RoundInput(s, n, rs, uid), n, rs)
  {
    hide Replay, Account, LedgerAgents, MainNames, Decide, OfAgent, MayRingNow, OneLive;
    var inp := RoundInput(s, n, rs, uid);
    var b := inp.bindings[0];
    assert |SortedSet(s.env(n).pending)| > 0;
    assert OneLive(inp, n, b) by { RoundInputLive(s, n, rs, uid); }
    OneLiveRings(inp, n, inp.inbox[n], b);
  }

  lemma RoundInputLive(s: State, n: Str, rs: Str, uid: nat -> Str)
    ensures OneLive(RoundInput(s, n, rs, uid), n, RoundInput(s, n, rs, uid).bindings[0])
  {
    hide Replay, SortedSet;
  }

  /** In every state in which the agent has a session and mail, a round is possible. */
  lemma RoundPossible(s: State, n: Str, rs: Str)
    requires s.env(n).session == Some(rs) && s.env(n).pending != {}
    ensures exists t :: Next(s, t) && Round(s, t, n, rs)
  {
    hide Plan, Reads, MayBeRung, PastHorizon, RoundInput, NewId, Supply, BlankFrom;
    var m := LongIsNew(s.hist);
    BlankIds(s.hist, m);
    var inp := RoundInput(s, n, rs, BlankFrom(m));
    RoundInputReads(s, n, rs, BlankFrom(m));
    RoundInputRings(s, n, rs, BlankFrom(m));
    var t := After(s, Plan(inp));
    assert Plan(inp)[..|Plan(inp)|] == Plan(inp);
    assert CycleStep(s, t);
    assert Round(s, t, n, rs);
  }

  // ---------------------------------------------------------------- the theorem

  /** While the session is bound the agent stays bound to it and drains nothing, all along the run. */
  ghost predicate DeafRun(run: seq<State>, n: Str, rs: Str)
  {
    IsRun(run) && forall k :: 0 <= k < |run| - 1 ==> DrainsNothing(run[k], run[k + 1], n, rs)
  }

  lemma InitialDeaf(s: State, n: Str, rs: Str)
    requires Initial(s)
    ensures DeafIn(s, n, rs)
  {
  }

  lemma {:induction false} RunDeaf(run: seq<State>, k: nat, n: Str, rs: Str)
    requires DeafRun(run, n, rs) && k < |run|
    ensures Inv(run[k]) && DeafIn(run[k], n, rs)
    decreases k
  {
    hide Inv, Next, Initial, DeafIn, DrainsNothing, Forward;
    RunInv(run, k);
    if k == 0 {
      InitialDeaf(run[0], n, rs);
    } else {
      RunDeaf(run, k - 1, n, rs);
      assert Next(run[k - 1], run[k - 1 + 1]) && DrainsNothing(run[k - 1], run[k - 1 + 1], n, rs);
      StepDeaf(run[k - 1], run[k], n, rs);
    }
  }

  lemma {:induction false} RunForward(run: seq<State>, j: nat, k: nat, n: Str, rs: Str)
    requires DeafRun(run, n, rs) && j <= k < |run| && run[j].env(n).session == Some(rs)
    ensures Forward(run[j], run[k], n, rs) && run[k].env(n).session == Some(rs)
    decreases k
  {
    hide Inv, Next, Initial, DeafIn, Forward;
    if j == k {
      ForwardOnce(run[j], n, rs);
    } else {
      RunForward(run, j, k - 1, n, rs);
      RunDeaf(run, k - 1, n, rs);
      assert Next(run[k - 1], run[k - 1 + 1]) && DrainsNothing(run[k - 1], run[k - 1 + 1], n, rs);
      StepDeaf(run[k - 1], run[k], n, rs);
      ForwardTwice(run[j], run[k - 1], run[k], n, rs);
    }
  }

  /** The steps at these places of the run, in order, are rounds. */
  ghost predicate Rounds(run: seq<State>, at: seq<nat>, n: Str, rs: Str)
  {
    (forall m :: 0 <= m < |at| ==> at[m] + 1 < |run| && Round(run[at[m]], run[at[m] + 1], n, rs)) &&
    forall l, m :: 0 <= l < m < |at| ==> at[l] < at[m]
  }

  /** After `m` rounds the escalation is open, or `m` rings of the session are in the log. */
  lemma {:induction false} RoundsTell(run: seq<State>, at: seq<nat>, m: nat, n: Str, rs: Str)
    requires DeafRun(run, n, rs) && Rounds(run, at, n, rs) && 0 < m <= |at|
    ensures var b := Account(run[at[m - 1] + 1].log, n);
            HasUnresponsive(b, rs) || (m <= RingsFor(b.rings, rs, None) <= ESCALATE_AFTER)
    decreases m
  {
    hide DeafRun, Inv, DeafIn, Account, HasUnresponsive, RingsFor, Round;
    var j := at[m - 1];
    assert Round(run[j], run[j + 1], n, rs);
    RunDeaf(run, j, n, rs);
    RoundTells(run[j], run[j + 1], n, rs);
    RoundSession(run[j], run[j + 1], n, rs);
    RunForward(run, j, j + 1, n, rs);
    if m > 1 {
      RoundsTell(run, at, m - 1, n, rs);
      RoundSession(run[at[m - 2]], run[at[m - 2] + 1], n, rs);
      RunForward(run, at[m - 2] + 1, j, n, rs);
    }
  }

  lemma RoundSession(s: State, t: State, n: Str, rs: Str)
    requires Round(s, t, n, rs)
    ensures s.env(n).session == Some(rs) && t.env(n).session == Some(rs)
  {
    hide MayBeRung, PastHorizon, Reads, Plan;
  }

  /**
    * Over every run with crashes, restarts and compactions: an agent that drains nothing of its session has an open
    * `agent_unresponsive` from its round ESCALATE_AFTER + 1 on (so many rings, each past its horizon), and at no
    * time a record of progress, or one that calls an id of the session stuck.
    */
  lemma DeafIsEscalated(run: seq<State>, n: Str, rs: Str, at: seq<nat>, k: nat)
    requires DeafRun(run, n, rs) && k < |run| && run[k].env(n).session == Some(rs)
    ensures Quiet(run[k].hist, n, rs)
    ensures Rounds(run, at, n, rs) && |at| > ESCALATE_AFTER && at[ESCALATE_AFTER] < k ==> HasUnresponsive(Account(run[k].log, n), rs)
  {
    hide DeafRun, Inv, Account, HasUnresponsive, RingsFor, Round, Quiet, Heard, EscKnown;
    RunDeaf(run, k, n, rs);
    if Rounds(run, at, n, rs) && |at| > ESCALATE_AFTER && at[ESCALATE_AFTER] < k {
      var j := at[ESCALATE_AFTER] + 1;
      RoundsTell(run, at, ESCALATE_AFTER + 1, n, rs);
      RoundSession(run[j - 1], run[j], n, rs);
      RunForward(run, j, k, n, rs);
    }
  }
}
