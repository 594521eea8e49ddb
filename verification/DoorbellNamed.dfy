/** Which ids an escalation names. */
module DoorbellNamed {
  // `agent_unresponsive` names the ids its session was rung for that are still pending, as many as a record holds; so
  // it closes as soon as the agent drains any of them.

  import opened Canon
  import opened DoorbellLog
  import opened DoorbellLedger
  import opened DoorbellPlan
  import opened DoorbellAdmit
  import opened DoorbellJudge
  import opened DoorbellCoherence
  import opened DoorbellAgent
  import opened DoorbellCycle
  import opened DoorbellBudget
  import opened DoorbellWf
  import opened DoorbellRuns
  import opened DoorbellFold
  import opened DoorbellQuiescence
  import opened DoorbellRest
  import opened DoorbellTable
  import opened DoorbellJudged
  import A = DoorbellAccount
  import opened Wrappers

  /** Some ring of this agent and session in the log covers the id. */
  ghost predicate RungFor(log: seq<Rec>, n: Str, session: Str, id: Str)
  {
    exists i :: Intent(i) in log && i.agent == n && i.session == session && id in i.ids
  }

  /** The ids rung for that are still pending. */
  ghost function Pended(log: seq<Rec>, n: Str, session: Str, pending: set<Str>): set<Str>
  {
    set id | id in pending && RungFor(log, n, session, id)
  }

  lemma RungInLog(log: seq<Rec>, n: Str, session: Str, pending: set<Str>)
    ensures Pended(log, n, session, pending) == set id | id in pending && Rung(Account(log, n), session, id)
  {
    AccountRings(log, n);
    hide Account;
    forall id ensures RungFor(log, n, session, id) <==> Rung(Account(log, n), session, id) {}
    hide RungFor, Rung;
  }

  /** The log holds a ring, an effect or an escalation of it. */
  ghost predicate HasHistory(log: seq<Rec>, n: Str)
  {
    exists r :: r in log && (r.Intent? || r.Effect? || r.Escalation?) && AgentOf(r) == Some(n)
  }

  /** An agent the cycle judges: read and registered, and a candidate or with a history. */
  ghost predicate Evaluated(inp: Input, n: Str)
  {
    inp.ownHost != "" && n in inp.inbox && inp.inbox[n].registered && (Candidate(inp, n) || HasHistory(inp.log, n))
  }

  lemma EvaluatedIs(inp: Input, n: Str)
    ensures Evaluated(inp, n) <==> inp.ownHost != "" && n in inp.inbox && inp.inbox[n].registered && (n in MainNames(inp) || n in LedgerAgents(inp.log))
  {
    CandidateIsMain(inp, n);
    hide Candidate, MainNames;
    assert HasHistory(inp.log, n) <==> n in LedgerAgents(inp.log);
  }

  /** An agent's judgement is part of the plan, and all of its effects and all but its stuck escalations are in it. */
  lemma JudgementIn(inp: Input, n: Str) returns (k: nat)
    requires ReadyCycle(inp) && Evaluated(inp, n)
    ensures forall r :: r in JudgeOf(inp, n, inp.inbox[n], k) ==> r in Plan(inp) && AgentOf(r) == Some(n)
    ensures forall r :: r in Plan(inp) && AgentOf(r) == Some(n) && (r.Effect? || (r.Escalation? && !(r.x.isOpen && r.x.reason == IdStuck))) ==>
              r in JudgeOf(inp, n, inp.inbox[n], k)
  {
    EvaluatedIs(inp, n);
    hide ReadyCycle, Plan, Own, AgentRecs, AbsentRecs, MainNames, LedgerAgents, JudgeOf, Candidate, HasHistory, Evaluated;
    k := OwnPlan(inp, n);
    OwnMembers(Plan(inp), n);
    var read := inp.inbox[n];
    if Main(inp, n) {
      AgentVerdicts(inp, n, read, k);
    } else {
      assert AbsentRecs(inp, n, read, k) == JudgeOf(inp, n, read, k) by { AbsentIsJudged(inp, n, read, k); }
    }
  }

  lemma AbsentIsJudged(inp: Input, n: Str, read: PendingRead, k: nat)
    requires read.registered
    ensures AbsentRecs(inp, n, read, k) == JudgeOf(inp, n, read, k)
  {
  }

  predicate StuckOpen(r: Rec)
  {
    r.Escalation? && r.x.isOpen && r.x.reason == IdStuck
  }

  lemma {:induction false} StuckOnly(c: Config, n: Str, session: Str, ids: seq<Str>, uid: nat -> Str, k: nat)
    ensures forall r :: r in StuckRecs(c, n, session, ids, uid, k) ==> StuckOpen(r)
  {
    if ids != [] { StuckOnly(c, n, session, ids[..|ids| - 1], uid, k); }
  }

  lemma RingOnly(inp: Input, n: Str, read: PendingRead, k: nat, j: nat)
    ensures forall r :: r in RingPart(inp, n, read, k, j) ==> StuckOpen(r) || r.Intent?
  {
    hide Decide, OfAgent, AliveOf, LedgerAfter, BoardPart, StuckRecs, AtCap, Again, MayRing, IntentOf;
    var bs := OfAgent(inp.bindings, n);
    var d := Decide(inp, n, read, bs);
    if d.Show? && d.ring && read.session.Some? && AliveOf(bs, inp.ownHost) != [] {
      var rs, l, p := read.session.value, LedgerAfter(inp, n, read.session.value, Elems(read.ids), j), Elems(read.ids);
      StuckOnly(inp.c, n, rs, SortedSet(AtCap(inp.c, l, p, Unrung(rs, p, inp.rung))), inp.uid, k + |BoardPart(inp, n, read, k)|);
    }
  }

  /** What an evaluated agent's records hold beside its judgement: no effect, and no escalation but stuck ones opened. */
  lemma AgentVerdicts(inp: Input, n: Str, read: PendingRead, k: nat)
    requires read.registered
    ensures forall r :: r in JudgeOf(inp, n, read, k) ==> r in AgentRecs(inp, n, read, k)
    ensures forall r: Rec :: r in AgentRecs(inp, n, read, k) && (r.Effect? || (r.Escalation? && !(r.x.isOpen && r.x.reason == IdStuck))) ==> r in JudgeOf(inp, n, read, k)
  {
    hide JudgeOf, BudgetRecs, BoardTo, MailRecs, BoardPart, RingPart;
    var J, G := JudgeOf(inp, n, read, k), BudgetRecs(inp, n, read.session);
    BudgetOnly(inp, n, read.session);
    var m := k + |J + G|;
    if read.ids == [] {
      BoardOnly(inp.c, n, CurBoard(inp, n), None, 0, NoMail, inp.uid, m);
    } else {
      MailParts(inp, n, read, m, k);
      RingOnly(inp, n, read, m, k);
    }
  }

  // ---------------------------------------------------------------- what is named

  /**
    * An `agent_unresponsive` escalation that a plan opens names exactly the ids of its session that some ring in the
    * log covers and that are still pending; of more than ten thousand, the first ten thousand in canonical order.
    */
  lemma NamedExactly(inp: Input, n: Str, x: EscRec)
    requires ReadyCycle(inp) && Escalation(x) in Plan(inp) && x.agent == n && x.isOpen && x.reason == Unresponsive
    ensures Evaluated(inp, n) && SessionIn(inp, n) == Some(x.session)
    ensures FirstNamed(x.ids, Pended(inp.log, n, x.session, PendingIn(inp, n)))
  {
    assert AgentOf(Escalation(x)) == Some(n);
    hide *;
    OnlyEvaluated(inp, n, Escalation(x));
    var k := JudgementIn(inp, n);
    ReadyCycleAt(inp, n, k);
    assert Escalation(x) in JudgeOf(inp, n, ReadOf(inp, n), k);
    NamedByJudgement(inp, n, ReadOf(inp, n), k, x);
  }

  lemma NamedByJudgement(inp: Input, n: Str, read: PendingRead, k: nat, x: EscRec)
    requires Ready(inp, n, k) && Escalation(x) in JudgeOf(inp, n, read, k) && x.isOpen
    ensures read.session == Some(x.session) && FirstNamed(x.ids, Pended(inp.log, n, x.session, Elems(read.ids)))
  {
    hide *;
    JudgementSays(inp, n, read, k);
    if read.session.Some? {
      OpeningIs(inp.c, n, Account(inp.log, n), read.session.value, inp.mono, Elems(read.ids), JudgeOf(inp, n, read, k), x);
      RungInLog(inp.log, n, x.session, Elems(read.ids));
    }
  }

  lemma OpeningIs(c: Config, n: Str, a: Acct, session: Str, mono: map<Str, int>, pending: set<Str>, recs: seq<Rec>, x: EscRec)
    requires OpensSay(c, n, a, session, mono, pending, recs) && Escalation(x) in recs && x.isOpen
    ensures x.session == session && FirstNamed(x.ids, set id | id in pending && Rung(a, session, id))
  {
    hide CounterAfter, StaysEscalated, Rung, FirstNamed;
  }

  ghost function ReadOf(inp: Input, n: Str): (r: PendingRead)
    ensures n in inp.inbox ==> r == inp.inbox[n]
  {
    if n in inp.inbox then inp.inbox[n] else PendingRead(false, None, [])
  }

  ghost function PendingIn(inp: Input, n: Str): (p: set<Str>)
    ensures p == Elems(ReadOf(inp, n).ids)
  {
    Elems(ReadOf(inp, n).ids)
  }

  ghost function SessionIn(inp: Input, n: Str): (r: Option<Str>)
    ensures r == ReadOf(inp, n).session
  {
    ReadOf(inp, n).session
  }

  /** A plan's verdict is on an agent it judges. */
  lemma OnlyEvaluated(inp: Input, n: Str, r: Rec)
    requires ReadyCycle(inp) && r in Plan(inp) && (r.Effect? || r.Escalation?) && AgentOf(r) == Some(n)
    ensures Evaluated(inp, n)
  {
    EvaluatedIs(inp, n);
    hide ReadyCycle, AllRecs, AgentRecs, AbsentRecs, MainNames, LedgerAgents, Own, Candidate, HasHistory, Evaluated;
    if inp.ownHost != "" {
      var k := OwnPlan(inp, n);
      OwnMembers(Plan(inp), n);
      assert r in Own(Plan(inp), n);
      if !inp.inbox[n].registered { UnregisteredBoard(inp, n, k); }
    }
  }

  lemma UnregisteredBoard(inp: Input, n: Str, k: nat)
    requires n in inp.inbox && !inp.inbox[n].registered
    ensures forall r :: r in AgentRecs(inp, n, inp.inbox[n], k) ==> r.Board?
    ensures AbsentRecs(inp, n, inp.inbox[n], k) == []
  {
    BoardOnly(inp.c, n, CurBoard(inp, n), None, 0, NoMail, inp.uid, k);
    hide BoardTo;
  }

  /** An agent's judgement, told of its account. */
  lemma JudgementSays(inp: Input, n: Str, read: PendingRead, k: nat)
    requires Ready(inp, n, k)
    ensures read.session == None ==> JudgeOf(inp, n, read, k) == []
    ensures read.session.Some? ==>
            var a, rs, p, recs := Account(inp.log, n), read.session.value, Elems(read.ids), JudgeOf(inp, n, read, k);
            EffectsSay(inp.c, n, a, rs, inp.mono, p, recs) && ClosesSay(inp.c, a, rs, p, recs) && OpensSay(inp.c, n, a, rs, inp.mono, p, recs) &&
            forall r :: r in recs ==> r.Effect? || r.Escalation?
  {
    hide Account, JudgeRecs, MootRecs, LedgerOf, EffectsSay, ClosesSay, OpensSay, AcctWf;
    if read.session.Some? {
      JudgedExactly(inp.c, n, Account(inp.log, n), read.session.value, inp.mono, Elems(read.ids), inp.uid, k);
    }
  }

  // ---------------------------------------------------------------- and when it closes

  /** Opened, and not closed. */
  ghost predicate StillOpen(h: seq<Rec>, x: EscRec)
  {
    Escalation(x) in h && x.isOpen && forall y :: Escalation(y) in h && y.id == x.id ==> y.isOpen
  }

  ghost predicate OpenAs(open: seq<OpenEsc>, x: EscRec)
  {
    exists e :: e in open && e.rec == x
  }

  /** What a log opened and did not close is open in its account. */
  lemma OpenInAccount(h: seq<Rec>, x: EscRec)
    requires WfLog(h) && StillOpen(h, x)
    ensures OpenAs(Account(h, x.agent).open, x)
  {
    var q :| 0 <= q < |h| && h[q] == Escalation(x);
    forall k | q < k < |h| && h[k].Escalation? ensures h[k].x.id != x.id
    {
      PairAt(h, q, k);
      assert Escalation(h[k].x) == h[k] && h[k] in h;
    }
    assert A.StillOpenAt(h, q, x);
    A.OpenTold(h, x.agent, x);
    hide WfLog, Account;
  }

  /** A closed escalation is open in no account. */
  lemma ClosedInAccount(h: seq<Rec>, n: Str, y: EscRec)
    requires WfLog(h) && Escalation(y) in h && !y.isOpen
    ensures forall e :: e in Account(h, n).open ==> e.rec.id != y.id
  {
    OpenAlone(h, n);
    hide WfLog, Account;
  }

  /**
    * Over every run: where an escalation was opened on all the ids that were rung for and pending, as it is when they
    * are no more than ten thousand, and one of them has left the pending set of the same session, the next judgement
    * of the agent closes it; after that cycle it is open no more.
    */
  lemma DrainCloses(run: seq<State>, j: nat, k: nat, was: Input, inp: Input, n: Str, x: EscRec, id: Str)
    requires IsRun(run) && j <= k < |run| && Reads(run[j], was) && Reads(run[k], inp)
    requires Escalation(x) in Plan(was) && x.agent == n && x.isOpen && x.reason == Unresponsive
    requires var p := Pended(was.log, n, x.session, PendingIn(was, n)); |p| <= 10_000 && id in p
    requires StillOpen(run[k].hist, x)
    requires inp.ownHost != "" && n in inp.inbox && inp.inbox[n].registered && SessionIn(inp, n) == Some(x.session) && id !in PendingIn(inp, n)
    ensures exists y :: Escalation(y) in Plan(inp) && !y.isOpen && y.id == x.id && y.close == Some(Progress)
    ensures forall e :: e in Account(run[k].hist + Plan(inp), n).open ==> e.rec.id != x.id
  {
    hide *;
    RunInv(run, j);
    RunInv(run, k);
    ReachableReady(run[j], was);
    NamedExactly(was, n, x);
    NamedAll(x.ids, Pended(was.log, n, x.session, PendingIn(was, n)), id);
    var y := LeftCloses(run[k], inp, n, x, id);
    NextWf(run[k], inp);
    assert Escalation(y) in run[k].hist + Plan(inp);
    ClosedInAccount(run[k].hist + Plan(inp), n, y);
  }

  lemma NamedAll(ids: seq<Str>, s: set<Str>, id: Str)
    requires FirstNamed(ids, s) && |s| <= 10_000 && id in s
    ensures id in ids
  {
    hide Ascending;
    assert id in Elems(ids);
  }

  lemma NextWf(s: State, inp: Input)
    requires Inv(s) && Reads(s, inp)
    ensures WfLog(s.hist + Plan(inp))
  {
    var t := State(s.hist + Plan(inp), s.log + Plan(inp), s.env);
    assert Plan(inp)[..|Plan(inp)|] == Plan(inp);
    hide Inv, Reads, Plan, WfLog;
    assert CycleStep(s, t);
    StepKeeps(s, t);
    InvWf(t);
  }

  lemma InvWf(s: State)
    requires Inv(s)
    ensures WfLog(s.hist) && WfLog(s.log)
  {
  }

  lemma InvLinks(s: State, n: Str)
    requires Inv(s)
    ensures Linked(Account(s.log, n), Account(s.hist, n), s.env(n), n)
  {
  }

  lemma LinkedOpen(a: Acct, h: Acct, e: AgentEnv, n: Str)
    requires Linked(a, h, e, n)
    ensures a.open == h.open && OpenWf(a.open, n)
  {
  }

  /** In any reachable state: a named id has left, and the plan closes the escalation. */
  lemma LeftCloses(s: State, inp: Input, n: Str, x: EscRec, id: Str) returns (y: EscRec)
    requires Inv(s) && Reads(s, inp) && StillOpen(s.hist, x) && x.agent == n && x.reason == Unresponsive && id in x.ids
    requires inp.ownHost != "" && n in inp.inbox && inp.inbox[n].registered && SessionIn(inp, n) == Some(x.session) && id !in PendingIn(inp, n)
    ensures Escalation(y) in Plan(inp) && !y.isOpen && y.id == x.id && y.close == Some(Progress)
  {
    hide *;
    InvWf(s);
    OpenInAccount(s.hist, x);
    InvLinks(s, n);
    LinkedOpen(Account(s.log, n), Account(s.hist, n), s.env(n), n);
    ReadyNow(s, inp, n, 0);
    ReachableReady(s, inp);
    var e := OpenEpisode(Account(inp.log, n), n, x, id);
    OpenHasHistory(inp, n, e);
    var k := JudgementIn(inp, n);
    ReadyCycleAt(inp, n, k);
    JudgementSays(inp, n, inp.inbox[n], k);
    y := ClosingOf(inp.c, Account(inp.log, n), x.session, PendingIn(inp, n), JudgeOf(inp, n, inp.inbox[n], k), e, id);
  }

  lemma OpenEpisode(a: Acct, n: Str, x: EscRec, id: Str) returns (e: OpenEsc)
    requires OpenWf(a.open, n) && OpenAs(a.open, x) && id in x.ids
    ensures e in a.open && e.rec == x && id in e.episode
  {
    e :| e in a.open && e.rec == x;
    assert id in Elems(e.rec.ids);
  }

  lemma OpenHasHistory(inp: Input, n: Str, e: OpenEsc)
    requires WfLog(inp.log) && e in Account(inp.log, n).open
    requires inp.ownHost != "" && n in inp.inbox && inp.inbox[n].registered
    ensures Evaluated(inp, n)
  {
    OpenAlone(inp.log, n);
    hide WfLog, Account, Candidate;
    assert AgentOf(Escalation(e.rec)) == Some(n);
    assert HasHistory(inp.log, n);
  }

  lemma ClosingOf(c: Config, a: Acct, session: Str, pending: set<Str>, recs: seq<Rec>, e: OpenEsc, id: Str) returns (y: EscRec)
    requires ClosesSay(c, a, session, pending, recs)
    requires e in a.open && e.rec.session == session && e.rec.reason == Unresponsive && id in e.episode && id !in pending
    ensures Escalation(y) in recs && !y.isOpen && y.id == e.rec.id && y.close == Some(Progress)
  {
    var ids := SortedSet(Elems(e.rec.ids));
    assert Elems(ids) == Elems(e.rec.ids);
    y := EscRec(c.at, e.rec.id, e.rec.agent, e.rec.session, e.rec.reason, false, ids, c.operator, Some(Progress));
    hide SortedSet, Ascending;
    assert EpisodeGone(e, session, pending);
    assert IsClose(c, e.rec, Progress, y);
  }
}
