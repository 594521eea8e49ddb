/**
  * After one cycle on an unchanged world, every agent is at rest: what was due is rung or dropped, what was to be
  * judged is judged.
  */
module DoorbellQuiescence {
  import opened Canon
  import opened DoorbellLog
  import opened DoorbellLedger
  import opened DoorbellPlan
  import opened DoorbellAdmit
  import opened DoorbellJudge
  import opened DoorbellCoherence
  import opened DoorbellAgent
  import opened DoorbellCycle
  import opened DoorbellBudget
  import opened DoorbellIds
  import opened DoorbellFold
  import opened DoorbellCalm
  import opened DoorbellQuiet
  import opened Wrappers

  // ---------------------------------------------------------------- the ring step comes to rest

  /** The ids at their cap are dropped, and the ledger is calm still. */
  lemma StuckDropped(inp: Input, n: Str, session: Str, a: Acct, v: View, k: nat)
    requires AcctWf(a, n) && v.session == Some(session) && Supply(inp.uid) && UnusedFrom(a, inp.uid, k)
    requires Calm(inp.c, LedgerOf(a, session, inp.mono), v.pending)
    ensures var l := LedgerOf(a, session, inp.mono);
            var ids := SortedSet(AtCap(inp.c, l, v.pending, Unrung(session, v.pending, inp.rung)));
            var stuck := StuckRecs(inp.c, n, session, ids, inp.uid, k);
            Dropped(inp, n, session, a, Run(a, stuck, n), v.pending)
  {
    hide LedgerOf, Stickable, StuckRecs, Calm, AcctWf, HasStuck, Due, Run, AllFit;
    var l := LedgerOf(a, session, inp.mono);
    var u := Unrung(session, v.pending, inp.rung);
    var ids := SortedSet(AtCap(inp.c, l, v.pending, u));
    forall id | id in ids ensures Stickable(a, session, v, id) { CapStickable(inp.c, n, session, a, inp.mono, v, u, id); }
    StuckRun(inp.c, n, session, a, v, ids, inp.uid, k);
    AfterStuck(inp.c, n, session, a, inp.mono, ids, inp.uid, k);
    var b := a.(open := a.open + StuckOpens(inp.c, n, session, ids, inp.uid, k));
    CalmStuck(inp.c, l, LedgerOf(b, session, inp.mono), v.pending, ids);
  }

  lemma IntentPending(c: Config, n: Str, session: Str, binding: Str, l: Ledger, p: set<Str>, u: set<Str>, id: Str)
    requires u <= p
    ensures Elems(IntentOf(c, n, session, binding, l, u, Again(c, l, p, u), id).ids) <= p
  {
    hide Due;
    var s := SortedSet(u + Again(c, l, p, u));
    var ids := RingIdsOf(u, Again(c, l, p, u));
    assert forall j :: 0 <= j < |ids| ==> ids[j] == s[j] && ids[j] in s;
  }

  /** The intents of `recs` are the ring step's. */
  predicate SameIntents(recs: seq<Rec>, R: seq<Rec>, n: Str)
  {
    RingsOf(recs, n) == RingsOf(R, n) && (forall r :: r in R && r.Intent? ==> r in recs) && (NoIntents(R) ==> NoIntents(recs))
  }

  lemma RingStepSettles(inp: Input, nxt: Input, n: Str, session: Str, a: Acct, v: View, binding: Str, k: nat, recs: seq<Rec>)
    requires AcctWf(a, n) && v.session == Some(session) && RungKnown(a.rings, inp.rung) && Supply(inp.uid) && UnusedFrom(a, inp.uid, k)
    requires Calm(inp.c, LedgerOf(a, session, inp.mono), v.pending) && TunablesOk(inp.c)
    requires RingFollows(inp, nxt, n, session, a, recs)
    requires SameIntents(recs, RingRecs(inp, n, session, LedgerOf(a, session, inp.mono), v.pending, binding, k), n)
    ensures var e := Run(a, RingRecs(inp, n, session, LedgerOf(a, session, inp.mono), v.pending, binding, k), n);
            var m := LedgerOf(e, session, nxt.mono);
            Calm(inp.c, m, v.pending) && RingDone(nxt, n, session, m, v.pending)
  {
    hide LedgerOf, StuckRecs, Calm, AcctWf, AtCap, Again, MayRing, IntentOf, RingFollows, RungKnown, RingDone, Run, Step;
    var c, l := inp.c, LedgerOf(a, session, inp.mono);
    var u := Unrung(session, v.pending, inp.rung);
    var stuck := StuckRecs(c, n, session, SortedSet(AtCap(c, l, v.pending, u)), inp.uid, k);
    var R := RingRecs(inp, n, session, l, v.pending, binding, k);
    StuckDropped(inp, n, session, a, v, k);
    StuckVerdicts(c, n, session, SortedSet(AtCap(c, l, v.pending, u)), inp.uid, k);
    var b := Run(a, stuck, n);
    if MayRing(c, l, TimesOf(inp, n), u, Again(c, l, v.pending, u)) {
      var i := IntentOf(c, n, session, binding, l, u, Again(c, l, v.pending, u), inp.uid(k + |stuck|));
      assert R == stuck + [Intent(i)];
      RunAppend(a, stuck, Intent(i), n);
      IntentPending(c, n, session, binding, l, v.pending, u, inp.uid(k + |stuck|));
      IntentShape(c, n, session, binding, l, u, Again(c, l, v.pending, u), inp.uid(k + |stuck|));
      OneRing(stuck, i, n);
      assert Intent(i) in R && Intent(i).Intent?;
      RingSettles(inp, nxt, n, session, a, b, v.pending, recs, i);
    } else {
      QuietSettles(inp, nxt, n, session, a, b, v.pending, recs);
      DroppedCalm(inp, n, session, a, b, v.pending);
    }
  }

  lemma DroppedCalm(inp: Input, n: Str, session: Str, a: Acct, b: Acct, p: set<Str>)
    requires Dropped(inp, n, session, a, b, p)
    ensures Calm(inp.c, LedgerOf(b, session, inp.mono), p)
  {
    hide LedgerOf, Calm;
  }

  lemma IntentShape(c: Config, n: Str, session: Str, binding: Str, l: Ledger, u: set<Str>, again: set<Str>, id: Str)
    ensures var i := IntentOf(c, n, session, binding, l, u, again, id); i.agent == n && i.session == session && i.mono == MonoMs(c)
  {
  }

  lemma OneRing(stuck: seq<Rec>, i: IntentRec, n: Str)
    requires Verdicts(stuck) && i.agent == n
    ensures RingsOf(stuck + [Intent(i)], n) == [i.mono]
  {
    NoRings(stuck, n);
    assert (stuck + [Intent(i)])[..|stuck|] == stuck;
  }

  // ---------------------------------------------------------------- an agent comes to rest

  predicate KnownWatch(inp: Input, n: Str)
  {
    inp.watchFit.Some? ==> inp.watchFit.value(n).status != Unknown
  }

  /** Without an unknown watch a decision is the same at every tick. */
  lemma SameDecision(inp: Input, nxt: Input, n: Str, read: PendingRead)
    requires SameWorld(inp, nxt) && KnownWatch(inp, n)
    ensures Decide(nxt, n, read, OfAgent(nxt.bindings, n)) == Decide(inp, n, read, OfAgent(inp.bindings, n))
    ensures Decide(inp, n, read, OfAgent(inp.bindings, n)).Show?
  {
    hide WindowCase, BindingIds, AliveOf, NotDeadOf, OfAgent;
  }

  /** After its judgement alone an agent has nothing left to judge. */
  lemma JudgeSettles(inp: Input, nxt: Input, n: Str, read: PendingRead, k: nat)
    requires Ready(inp, n, k) && LiveFor(inp, n, read)
    requires Follows(inp, nxt, n, AbsentRecs(inp, n, read, k))
    ensures JudgeStill(nxt, n, read)
  {
    hide LedgerOf, Calm, OnlyMine, JudgeOf, RingsOf, BoardAfter, SpentAfter, TimesOf, CurBoard, AcctWf, RungKnown, Run, AllFit;
    if read.registered && read.session.Some? {
      var a := Account(inp.log, n);
      var b := Run(a, JudgeOf(inp, n, read, k), n);
      JudgedCalm(inp, n, read, k);
      JudgeOfFits(inp, n, read, k);
      LedgerMono(b, read.session.value, inp.mono, nxt.mono);
    }
  }

  /** What the log must say of an agent for its rest to be lasting. */
  ghost predicate LiveFor(inp: Input, n: Str, read: PendingRead)
  {
    read.registered && read.session.Some? ==> LiveLedger(LedgerOf(Account(inp.log, n), read.session.value, inp.mono))
  }

  lemma BoardOnly(c: Config, n: Str, cur: Option<BoardRec>, next: Option<Case>, count: nat, why: BoardClose, uid: nat -> Str, k: nat)
    ensures forall r :: r in BoardTo(c, n, cur, next, count, why, uid, k) ==> r.Board?
  {
  }

  /** A decision that rings has no board case; its records are board moves, then the ring step's. */
  function RingPart(inp: Input, n: Str, read: PendingRead, k: nat, j: nat): seq<Rec>
  {
    var bs := OfAgent(inp.bindings, n);
    match Decide(inp, n, read, bs)
    case Hold(_) => []
    case Show(next, _, ring) =>
      if ring && read.session.Some? && AliveOf(bs, inp.ownHost) != []
      then RingRecs(inp, n, read.session.value, LedgerAfter(inp, n, read.session.value, Elems(read.ids), j),
                    Elems(read.ids), AliveOf(bs, inp.ownHost)[0].id, k + |BoardPart(inp, n, read, k)|)
      else []
  }

  function BoardPart(inp: Input, n: Str, read: PendingRead, k: nat): seq<Rec>
  {
    match Decide(inp, n, read, OfAgent(inp.bindings, n))
    case Hold(_) => []
    case Show(next, _, _) => BoardTo(inp.c, n, CurBoard(inp, n), next, |read.ids|, Resolved, inp.uid, k)
  }

  lemma MailParts(inp: Input, n: Str, read: PendingRead, k: nat, j: nat)
    ensures MailRecs(inp, n, read, k, j) == BoardPart(inp, n, read, k) + RingPart(inp, n, read, k, j)
    ensures forall r :: r in BoardPart(inp, n, read, k) ==> r.Board?
    ensures forall r :: r in RingPart(inp, n, read, k, j) ==> !r.Board? && !r.Budget?
  {
    hide Decide, OfAgent, AliveOf, LedgerAfter, BoardTo, StuckRecs, AtCap, Again, MayRing, IntentOf;
    var bs := OfAgent(inp.bindings, n);
    match Decide(inp, n, read, bs)
    case Hold(_) =>
    case Show(next, _, ring) =>
      BoardOnly(inp.c, n, CurBoard(inp, n), next, |read.ids|, Resolved, inp.uid, k);
      if ring && read.session.Some? && AliveOf(bs, inp.ownHost) != [] {
        RingKinds(inp, n, read.session.value, LedgerAfter(inp, n, read.session.value, Elems(read.ids), j),
                  Elems(read.ids), AliveOf(bs, inp.ownHost)[0].id, k + |BoardPart(inp, n, read, k)|);
      }
  }

  lemma RingKinds(inp: Input, n: Str, session: Str, l: Ledger, p: set<Str>, binding: Str, k: nat)
    ensures forall r :: r in RingRecs(inp, n, session, l, p, binding, k) ==> !r.Board? && !r.Budget?
  {
    hide AtCap, Again, MayRing, IntentOf, StuckRecs;
    var ids := SortedSet(AtCap(inp.c, l, p, Unrung(session, p, inp.rung)));
    StuckVerdicts(inp.c, n, session, ids, inp.uid, k);
  }

  /** Board records leave the account as it is. */
  lemma MailAccount(inp: Input, n: Str, read: PendingRead, k: nat, j: nat, a: Acct)
    requires n in inp.boardOpen ==> inp.boardOpen[n].agent == n
    ensures Run(a, MailRecs(inp, n, read, k, j), n) == Run(a, RingPart(inp, n, read, k, j), n)
  {
    hide Decide, OfAgent, AliveOf, LedgerAfter, BoardTo, RingRecs, Run, RingPart, AllFit;
    MailParts(inp, n, read, k, j);
    RunConcat(a, BoardPart(inp, n, read, k), RingPart(inp, n, read, k, j), n);
    match Decide(inp, n, read, OfAgent(inp.bindings, n))
    case Hold(_) => RunNone(a, n, ViewOf(read));
    case Show(next, _, _) =>
      BoardInert(inp.c, n, CurBoard(inp, n), next, |read.ids|, Resolved, inp.uid, k);
      InertRun(a, n, ViewOf(read), BoardPart(inp, n, read, k));
  }

  /** The ring step of an agent with mail, on the ledger its judgement left. */
  lemma MailSettles(inp: Input, nxt: Input, n: Str, read: PendingRead, a: Acct, k: nat, j: nat, recs: seq<Rec>)
    requires AcctWf(a, n) && RungKnown(a.rings, inp.rung) && Supply(inp.uid) && UnusedFrom(a, inp.uid, k)
    requires TunablesOk(inp.c) && SameWorld(inp, nxt) && KnownWatch(inp, n) && read.session.Some?
    requires LedgerOf(a, read.session.value, inp.mono) == LedgerAfter(inp, n, read.session.value, Elems(read.ids), j)
    requires Calm(inp.c, LedgerOf(a, read.session.value, inp.mono), Elems(read.ids))
    requires RingFollows(inp, nxt, n, read.session.value, a, recs) && SameIntents(recs, RingPart(inp, n, read, k, j), n)
    ensures var m := LedgerOf(Run(a, RingPart(inp, n, read, k, j), n), read.session.value, nxt.mono);
            Calm(inp.c, m, Elems(read.ids)) &&
            (Decide(inp, n, read, OfAgent(inp.bindings, n)).ring && AliveOf(OfAgent(inp.bindings, n), inp.ownHost) != [] ==>
              RingDone(nxt, n, read.session.value, m, Elems(read.ids)))
  {
    hide LedgerOf, LedgerAfter, Calm, AcctWf, RungKnown, RingDone, RingRecs, Run, BoardPart, AliveOf, OfAgent, Decide, SameIntents;
    SameDecision(inp, nxt, n, read);
    var bs, rs := OfAgent(inp.bindings, n), read.session.value;
    if Decide(inp, n, read, bs).ring && AliveOf(bs, inp.ownHost) != [] {
      UnusedLater(a, inp.uid, k, k + |BoardPart(inp, n, read, k)|);
      RingStepSettles(inp, nxt, n, rs, a, ViewOf(read), AliveOf(bs, inp.ownHost)[0].id, k + |BoardPart(inp, n, read, k)|, recs);
    } else {
      RunNothing(a, n);
      LedgerMono(a, rs, inp.mono, nxt.mono);
    }
  }

  lemma RunNothing(a: Acct, n: Str)
    ensures Run(a, [], n) == a
  {
  }

  /** A budget change is recorded once: the next is due only to another ring. */
  lemma BudgetSettles(inp: Input, nxt: Input, n: Str, session: Option<Str>)
    requires SameWorld(inp, nxt) && TimesOf(nxt, n) == TimesOf(inp, n)
    requires n in nxt.exhausted <==> SpentAfter(n in inp.exhausted, BudgetRecs(inp, n, session))
    ensures BudgetRecs(nxt, n, session) == []
  {
    hide ExhaustedNow, OfAgent, TimesOf;
    var G := BudgetRecs(inp, n, session);
    assert |G| == 1 ==> G == [G[0]];
    SpentOne(n in inp.exhausted, inp, n, session);
  }

  lemma SpentOne(spent: bool, inp: Input, n: Str, session: Option<Str>)
    ensures var G := BudgetRecs(inp, n, session);
            SpentAfter(spent, G) == if G == [] then spent else ExhaustedNow(inp.c, TimesOf(inp, n))
  {
    hide ExhaustedNow, OfAgent, TimesOf;
  }

  lemma BudgetOnly(inp: Input, n: Str, session: Option<Str>)
    ensures forall r :: r in BudgetRecs(inp, n, session) ==> r.Budget? && r.g.agent == n
  {
  }

  /** The four parts of an agent's records, and what each changes of what the next cycle reads. */
  lemma FollowsParts(inp: Input, nxt: Input, n: Str, J: seq<Rec>, G: seq<Rec>, B: seq<Rec>, R: seq<Rec>, recs: seq<Rec>)
    requires recs == J + G + (B + R) && Follows(inp, nxt, n, recs)
    requires Verdicts(J) && (forall r :: r in G ==> r.Budget? && r.g.agent == n) && (forall r :: r in B ==> Inert(r, n) && r.Board?)
    requires forall r :: r in R ==> !r.Board? && !r.Budget?
    ensures CurBoard(nxt, n) == BoardAfter(CurBoard(inp, n), B)
    ensures n in nxt.exhausted <==> SpentAfter(n in inp.exhausted, G)
    ensures SameIntents(recs, R, n)
    ensures Account(nxt.log, n) == Run(Run(Account(inp.log, n), J, n), R, n)
  {
    hide Run, BoardAfter, SpentAfter, TimesOf, CurBoard, Inert;
    PartsAfter(CurBoard(inp, n), n in inp.exhausted, J, G, B, R);
    var a, v := Account(inp.log, n), View(None, {});
    RunConcat(a, J + G, B + R, n);
    RunConcat(a, J, G, n);
    assert forall r :: r in G ==> Inert(r, n) by { BudgetInert(G, n); }
    InertRun(Run(a, J, n), n, v, G);
    RunConcat(Run(a, J, n), B, R, n);
    InertRun(Run(a, J, n), n, v, B);
    IntentsOfParts(J, G, B, R, n);
  }

  lemma BudgetInert(G: seq<Rec>, n: Str)
    requires forall r :: r in G ==> r.Budget? && r.g.agent == n
    ensures forall r :: r in G ==> Inert(r, n)
  {
  }

  lemma IntentsOfParts(J: seq<Rec>, G: seq<Rec>, B: seq<Rec>, R: seq<Rec>, n: Str)
    requires Verdicts(J) && (forall r :: r in G ==> r.Budget?) && (forall r :: r in B ==> r.Board?)
    ensures SameIntents(J + G + (B + R), R, n)
  {
    RingsConcat(J + G, B + R, n);
    RingsConcat(B, R, n);
    NoRings(J + G, n);
    NoRings(B, n);
  }

  lemma FollowsRing(inp: Input, nxt: Input, n: Str, session: Str, a: Acct, recs: seq<Rec>)
    requires Follows(inp, nxt, n, recs) && a.rings == Account(inp.log, n).rings
    ensures RingFollows(inp, nxt, n, session, a, recs)
  {
  }

  /** No agent but a rung one changes its budget again. */
  lemma RestBudget(inp: Input, nxt: Input, n: Str, read: PendingRead, recs: seq<Rec>, R: seq<Rec>)
    requires Follows(inp, nxt, n, recs) && SameIntents(recs, R, n)
    requires n in nxt.exhausted <==> SpentAfter(n in inp.exhausted, BudgetRecs(inp, n, read.session))
    ensures BudgetRecs(nxt, n, read.session) != [] ==> exists r :: r in recs && r.Intent?
  {
    hide BudgetRecs, TimesOf, Run, BoardAfter, SpentAfter, CurBoard;
    if NoIntents(recs) {
      NoRings(recs, n);
      assert TimesOf(inp, n) + [] == TimesOf(inp, n);
      BudgetSettles(inp, nxt, n, read.session);
    }
  }

  /** After its whole part of a plan an agent is at rest, and its budget is recorded as it stood before any ring. */
  lemma AgentSettles(inp: Input, nxt: Input, n: Str, read: PendingRead, k: nat)
    requires Ready(inp, n, k) && LiveFor(inp, n, read) && TunablesOk(inp.c) && KnownWatch(inp, n)
    requires Follows(inp, nxt, n, AgentRecs(inp, n, read, k))
    ensures JudgeStill(nxt, n, read) && MailStill(nxt, n, read)
    ensures read.registered && BudgetRecs(nxt, n, read.session) != [] ==> exists r :: r in AgentRecs(inp, n, read, k) && r.Intent?
  {
    hide JudgeStill, MailStill, Follows, LiveFor, JudgeOf, BudgetRecs, BoardTo, MailRecs, RingPart, BoardPart, Ready, CurBoard, Run, BoardAfter, SpentAfter;
    var recs := AgentRecs(inp, n, read, k);
    if !read.registered {
      assert recs == [] + [] + (recs + []);
      UnregisteredSettles(inp, nxt, n, read, k);
    } else {
      var J, G := JudgeOf(inp, n, read, k), BudgetRecs(inp, n, read.session);
      JudgeVerdicts(inp, n, read, k);
      BudgetOnly(inp, n, read.session);
      var m := k + |J + G|;
      if read.ids == [] {
        var B := BoardTo(inp.c, n, CurBoard(inp, n), None, 0, NoMail, inp.uid, m);
        assert recs == J + G + (B + []);
        CurAgent(inp, n, k);
        BoardInert(inp.c, n, CurBoard(inp, n), None, 0, NoMail, inp.uid, m);
        BoardOnly(inp.c, n, CurBoard(inp, n), None, 0, NoMail, inp.uid, m);
        FollowsParts(inp, nxt, n, J, G, B, [], recs);
        BoardSettles(inp.c, n, CurBoard(inp, n), None, 0, NoMail, inp.uid, m);
        RestBudget(inp, nxt, n, read, recs, []);
        RestJudge(inp, nxt, n, read, k, recs);
        EmptySettles(nxt, n, read);
      } else {
        MailAgentSettles(inp, nxt, n, read, k);
      }
    }
  }

  lemma EmptySettles(nxt: Input, n: Str, read: PendingRead)
    requires (!read.registered || read.ids == []) && BoardSettled(CurBoard(nxt, n), None)
    ensures MailStill(nxt, n, read)
  {
  }

  lemma CurAgent(inp: Input, n: Str, k: nat)
    requires Ready(inp, n, k)
    ensures CurBoard(inp, n).Some? ==> CurBoard(inp, n).value.agent == n
  {
  }

  lemma UnregisteredSettles(inp: Input, nxt: Input, n: Str, read: PendingRead, k: nat)
    requires !read.registered && Follows(inp, nxt, n, AgentRecs(inp, n, read, k))
    ensures JudgeStill(nxt, n, read) && MailStill(nxt, n, read)
  {
    hide Run, BoardAfter, SpentAfter, BoardTo, CurBoard;
    BoardSettles(inp.c, n, CurBoard(inp, n), None, 0, NoMail, inp.uid, k);
    EmptySettles(nxt, n, read);
  }

  /** An agent whose account has taken only its judgement has nothing left to judge. */
  lemma RestJudge(inp: Input, nxt: Input, n: Str, read: PendingRead, k: nat, recs: seq<Rec>)
    requires Ready(inp, n, k) && LiveFor(inp, n, read) && read.registered && Follows(inp, nxt, n, recs)
    requires Account(nxt.log, n) == Run(Run(Account(inp.log, n), JudgeOf(inp, n, read, k), n), [], n)
    ensures JudgeStill(nxt, n, read)
  {
    hide LedgerOf, Calm, OnlyMine, JudgeOf, RingsOf, BoardAfter, SpentAfter, TimesOf, CurBoard, AcctWf, RungKnown, AllFit, Run, LiveLedger;
    RunNothing(Run(Account(inp.log, n), JudgeOf(inp, n, read, k), n), n);
    if read.session.Some? {
      var b := Run(Account(inp.log, n), JudgeOf(inp, n, read, k), n);
      JudgedCalm(inp, n, read, k);
      JudgeOfFits(inp, n, read, k);
      LedgerMono(b, read.session.value, inp.mono, nxt.mono);
    }
  }

  lemma MailAgentSettles(inp: Input, nxt: Input, n: Str, read: PendingRead, k: nat)
    requires Ready(inp, n, k) && LiveFor(inp, n, read) && TunablesOk(inp.c) && KnownWatch(inp, n)
    requires read.registered && read.ids != [] && Follows(inp, nxt, n, AgentRecs(inp, n, read, k))
    ensures JudgeStill(nxt, n, read) && MailStill(nxt, n, read)
    ensures BudgetRecs(nxt, n, read.session) != [] ==> exists r :: r in AgentRecs(inp, n, read, k) && r.Intent?
  {
    hide JudgeStill, MailStill, Follows, LiveFor, JudgeOf, BudgetRecs, MailRecs, RingPart, BoardPart, Ready, CurBoard, Run, BoardAfter,
      SpentAfter, SameIntents, BoardSettled, Decide, OfAgent, AliveOf, RingFollows, LedgerOf;
    var recs := AgentRecs(inp, n, read, k);
    var J, G := JudgeOf(inp, n, read, k), BudgetRecs(inp, n, read.session);
    var m := k + |J + G|;
    var B, R := BoardPart(inp, n, read, m), RingPart(inp, n, read, m, k);
    JudgeVerdicts(inp, n, read, k);
    BudgetOnly(inp, n, read.session);
    MailParts(inp, n, read, m, k);
    BoardPartInert(inp, n, read, m, k);
    FollowsParts(inp, nxt, n, J, G, B, R, recs);
    RestBudget(inp, nxt, n, read, recs, R);
    FollowsWorld(inp, nxt, n, recs);
    SameDecision(inp, nxt, n, read);
    BoardPartSettles(inp, nxt, n, read, m);
    if read.session.Some? {
      RestRing(inp, nxt, n, read, k, m, recs);
    } else {
      UnboundRest(inp, nxt, n, read);
    }
  }

  lemma BoardPartInert(inp: Input, n: Str, read: PendingRead, m: nat, k: nat)
    requires Ready(inp, n, k)
    ensures forall r :: r in BoardPart(inp, n, read, m) ==> Inert(r, n) && r.Board?
  {
    hide Decide, OfAgent, BoardTo, Inert, Ready;
    CurAgent(inp, n, k);
    match Decide(inp, n, read, OfAgent(inp.bindings, n))
    case Hold(_) =>
    case Show(next, _, _) =>
      BoardInert(inp.c, n, CurBoard(inp, n), next, |read.ids|, Resolved, inp.uid, m);
      BoardOnly(inp.c, n, CurBoard(inp, n), next, |read.ids|, Resolved, inp.uid, m);
  }

  lemma FollowsWorld(inp: Input, nxt: Input, n: Str, recs: seq<Rec>)
    requires Follows(inp, nxt, n, recs)
    ensures SameWorld(inp, nxt)
  {
  }

  lemma BoardPartSettles(inp: Input, nxt: Input, n: Str, read: PendingRead, m: nat)
    requires Decide(inp, n, read, OfAgent(inp.bindings, n)).Show?
    requires CurBoard(nxt, n) == BoardAfter(CurBoard(inp, n), BoardPart(inp, n, read, m))
    ensures BoardSettled(CurBoard(nxt, n), Decide(inp, n, read, OfAgent(inp.bindings, n)).next)
  {
    hide Decide, OfAgent, BoardTo, BoardAfter, BoardSettled;
    BoardSettles(inp.c, n, CurBoard(inp, n), Decide(inp, n, read, OfAgent(inp.bindings, n)).next, |read.ids|, Resolved, inp.uid, m);
  }

  lemma UnboundRest(inp: Input, nxt: Input, n: Str, read: PendingRead)
    requires read.session == None && read.registered && read.ids != [] && SameWorld(inp, nxt)
    requires var d := Decide(nxt, n, read, OfAgent(nxt.bindings, n)); d.Show? && BoardSettled(CurBoard(nxt, n), d.next)
    ensures JudgeStill(nxt, n, read) && MailStill(nxt, n, read)
  {
    hide Decide, OfAgent, BoardSettled, CurBoard, RingDone;
  }

  lemma RestRing(inp: Input, nxt: Input, n: Str, read: PendingRead, k: nat, m: nat, recs: seq<Rec>)
    requires Ready(inp, n, k) && LiveFor(inp, n, read) && TunablesOk(inp.c) && KnownWatch(inp, n) && Follows(inp, nxt, n, recs)
    requires read.registered && read.ids != [] && read.session.Some? && m >= k + |JudgeOf(inp, n, read, k)|
    requires SameIntents(recs, RingPart(inp, n, read, m, k), n)
    requires Account(nxt.log, n) == Run(Run(Account(inp.log, n), JudgeOf(inp, n, read, k), n), RingPart(inp, n, read, m, k), n)
    requires var d := Decide(nxt, n, read, OfAgent(nxt.bindings, n));
             d == Decide(inp, n, read, OfAgent(inp.bindings, n)) && d.Show? && BoardSettled(CurBoard(nxt, n), d.next)
    ensures JudgeStill(nxt, n, read) && MailStill(nxt, n, read)
  {
    var a, rs := Account(inp.log, n), read.session.value;
    var b := Run(a, JudgeOf(inp, n, read, k), n);
    var R := RingPart(inp, n, read, m, k);
    ReadyParts(inp, n, k);
    hide JudgeOf, Follows, Ready, Run, SameIntents, BoardSettled, Decide, OfAgent, AliveOf, RingFollows, LedgerOf, Calm, OnlyMine, AcctWf,
      RungKnown, LedgerAfter, AllFit, CurBoard, LiveLedger, RingPart, RingDone;
    JudgedCalm(inp, n, read, k);
    JudgeOfFits(inp, n, read, k);
    UnusedLater(b, inp.uid, k + |JudgeOf(inp, n, read, k)|, m);
    FollowsRing(inp, nxt, n, rs, b, recs);
    FollowsWorld(inp, nxt, n, recs);
    MailSettles(inp, nxt, n, read, b, m, k, recs);
    RingPartMine(inp, n, read, b, m, k);
  }

  lemma ReadyParts(inp: Input, n: Str, k: nat)
    requires Ready(inp, n, k)
    ensures Supply(inp.uid) && RungKnown(Account(inp.log, n).rings, inp.rung)
  {
  }

  lemma RingPartMine(inp: Input, n: Str, read: PendingRead, a: Acct, m: nat, j: nat)
    requires AcctWf(a, n) && RungKnown(a.rings, inp.rung) && Supply(inp.uid) && UnusedFrom(a, inp.uid, m)
    requires read.session.Some? && OnlyMine(a, read.session.value)
    requires LedgerOf(a, read.session.value, inp.mono) == LedgerAfter(inp, n, read.session.value, Elems(read.ids), j)
    ensures OnlyMine(Run(a, RingPart(inp, n, read, m, j), n), read.session.value)
  {
    hide Run, Decide, OfAgent, AliveOf, LedgerOf, OnlyMine, AcctWf, RungKnown, LedgerAfter, AllFit, BoardPart, RingRecs;
    var bs, rs := OfAgent(inp.bindings, n), read.session.value;
    var d := Decide(inp, n, read, bs);
    RunNothing(a, n);
    if d.Show? && d.ring && AliveOf(bs, inp.ownHost) != [] {
      var q := m + |BoardPart(inp, n, read, m)|;
      UnusedLater(a, inp.uid, m, q);
      RingRun(inp, n, rs, a, ViewOf(read), AliveOf(bs, inp.ownHost)[0].id, q);
      RunOnlyMine(a, n, ViewOf(read), RingPart(inp, n, read, m, j), rs);
    }
  }
}
