/**
  * The next plan after a compaction is the plan the full log would have given: one agent's judgement, ring and board
  * moves at a time.
  */
module DoorbellSamePlan {
  import opened Canon
  import opened DoorbellLog
  import opened DoorbellLedger
  import opened DoorbellPlan
  import opened DoorbellAdmit
  import opened DoorbellJudge
  import opened DoorbellAgent
  import opened DoorbellWf
  import opened DoorbellKeep
  import opened DoorbellCompaction

  // ---------------------------------------------------------------- ledgers a plan cannot tell apart

  /** Two ledgers that agree on everything a plan for the pending set `p` looks at. */
  predicate AgreeL(l: Ledger, m: Ledger, p: set<Str>)
  {
    l.outstanding == m.outstanding && l.counter == m.counter &&
    l.unresponsive == m.unresponsive && l.stuck == m.stuck &&
    l.rung - l.left - p == m.rung - m.left - p && l.rung * p == m.rung * p && AgreeIds(l, m, p)
  }

  predicate AgreeIds(l: Ledger, m: Ledger, p: set<Str>)
  {
    forall id :: id in p ==>
      (id in l.last <==> id in m.last) && (id in l.last ==> l.last[id] == m.last[id]) && CountOf(l, id) == CountOf(m, id)
  }

  lemma AgreeIdsKept(l: Ledger, m: Ledger, k: Ledger, j: Ledger, p: set<Str>)
    requires AgreeIds(l, m, p) && k.last == l.last && k.count == l.count && j.last == m.last && j.count == m.count
    ensures AgreeIds(k, j, p)
  {
  }

  lemma {:induction false} SplitCommutes(rings: seq<IntentRec>, judged: set<Str>, session: Str)
    ensures OfSession(Unjudged(rings, judged), session) == Unjudged(OfSession(rings, session), judged)
  {
    if rings != [] {
      var q, i := rings[..|rings| - 1], rings[|rings| - 1];
      SplitCommutes(q, judged, session);
      var p, o := Unjudged(q, judged), OfSession(q, session);
      assert (p + [i])[..|p|] == p && (o + [i])[..|o|] == o;
    }
  }

  lemma LedgersAgree(a: Acct, b: Acct, session: Str, mono: map<Str, int>, p: set<Str>, known: set<Str>)
    requires SameToCome(a, b, session, known) && p * RungIds(a.rings, session) <= known
    ensures AgreeL(LedgerOf(a, session, mono), LedgerOf(b, session, mono), p)
  {
    SplitCommutes(a.rings, a.judged, session);
    SplitCommutes(b.rings, b.judged, session);
    var l, m := LedgerOf(a, session, mono), LedgerOf(b, session, mono);
    hide SortRings, OfSession, Unjudged;
    forall id | id in p
      ensures id in l.rung <==> id in m.rung
      ensures (id in l.last <==> id in m.last) && (id in l.last ==> l.last[id] == m.last[id]) && CountOf(l, id) == CountOf(m, id)
    {
      if id in l.rung { assert id in known; }
    }
  }

  lemma ProgressAgree(c: Config, n: Str, session: Str, l: Ledger, m: Ledger, p: set<Str>)
    requires AgreeL(l, m, p)
    ensures ProgressRecs(c, n, session, l, p) == ProgressRecs(c, n, session, m, p)
    ensures AgreeL(AfterProgress(l, p), AfterProgress(m, p), p)
  {
    hide EffectRecs, RingIds, AgreeIds;
    AgreeIdsKept(l, m, AfterProgress(l, p), AfterProgress(m, p), p);
    assert LeftNow(l, p) == LeftNow(m, p);
    AllGone(l.rung, l.left, p);
    AllGone(m.rung, m.left, p);
  }

  /** Once everything that has left is recorded, nothing is newly left. */
  lemma AllGone(rung: set<Str>, left: set<Str>, p: set<Str>)
    ensures rung - (left + (rung - left - p)) - p == {}
  {
  }

  lemma CloseAgree(c: Config, l: Ledger, m: Ledger, p: set<Str>)
    requires AgreeL(l, m, p)
    ensures CloseRecs(c, l, p) == CloseRecs(c, m, p)
    ensures AgreeL(AfterClose(l, p), AfterClose(m, p), p)
  {
    hide StuckGone, CloseAll, AgreeIds;
    AgreeIdsKept(l, m, AfterClose(l, p), AfterClose(m, p), p);
  }

  lemma HorizonAgree(c: Config, l: Ledger, m: Ledger, p: set<Str>)
    requires AgreeL(l, m, p)
    ensures AgreeL(AfterHorizon(c, l), AfterHorizon(c, m), p)
  {
    hide Overdue, AgreeIds;
    AgreeIdsKept(l, m, AfterHorizon(c, l), AfterHorizon(c, m), p);
  }

  lemma SettledAgree(c: Config, n: Str, session: Str, l: Ledger, m: Ledger, p: set<Str>)
    requires AgreeL(l, m, p)
    ensures SettleRecs(c, n, session, l, p) == SettleRecs(c, n, session, m, p)
    ensures AgreeL(Settled(c, l, p), Settled(c, m, p), p)
  {
    hide ProgressRecs, CloseRecs, AfterHorizon, AfterProgress, AfterClose, Overdue, IneffectiveRecs;
    var l1, m1 := AfterProgress(l, p), AfterProgress(m, p);
    ProgressAgree(c, n, session, l, m, p);
    CloseAgree(c, l1, m1, p);
    HorizonAgree(c, AfterClose(l1, p), AfterClose(m1, p), p);
  }

  lemma JudgedAgree(c: Config, n: Str, session: Str, moot: seq<Rec>, l: Ledger, m: Ledger, p: set<Str>, uid: nat -> Str, k: nat)
    requires AgreeL(l, m, p)
    ensures JudgeRecs(c, n, session, moot, l, p, uid, k) == JudgeRecs(c, n, session, moot, m, p, uid, k)
    ensures AgreeL(Judged(c, n, session, moot, l, p, uid, k), Judged(c, n, session, moot, m, p, uid, k), p)
  {
    hide SettleRecs, Settled;
    SettledAgree(c, n, session, l, m, p);
  }

  lemma DueAgree(c: Config, l: Ledger, m: Ledger, p: set<Str>, u: set<Str>)
    requires AgreeL(l, m, p)
    ensures Again(c, l, p, u) == Again(c, m, p, u) && AtCap(c, l, p, u) == AtCap(c, m, p, u)
  {
    forall id | id in p ensures Due(c, l, id) == Due(c, m, id) && HasStuck(l, id) == HasStuck(m, id) {}
    hide Due, HasStuck, CountOf;
  }

  lemma SameTimes(inp: Input, rung: set<(Str, Str)>, n: Str)
    ensures TimesOf(inp, n) == TimesOf(inp.(rung := rung), n)
  {
  }

  lemma RingAgree(inp: Input, rung: set<(Str, Str)>, n: Str, session: Str, l: Ledger, m: Ledger, p: set<Str>, binding: Str, k: nat)
    requires AgreeL(l, m, p) && forall id :: id in p ==> ((session, id) in inp.rung <==> (session, id) in rung)
    ensures RingRecs(inp, n, session, l, p, binding, k) == RingRecs(inp.(rung := rung), n, session, m, p, binding, k)
  {
    hide Again, AtCap, StuckRecs, RingIdsOf, KindsOf, ExhaustedNow, Coalescing, TimesOf;
    var c, u := inp.c, Unrung(session, p, inp.rung);
    assert Unrung(session, p, rung) == u;
    DueAgree(c, l, m, p, u);
    var again := Again(c, l, p, u);
    assert l.unresponsive == m.unresponsive;
    assert MayRing(c, l, TimesOf(inp, n), u, again) == MayRing(c, m, TimesOf(inp.(rung := rung), n), u, again) by {
      SameTimes(inp, rung, n);
    }
    forall id ensures IntentOf(c, n, session, binding, l, u, again, id) == IntentOf(c, n, session, binding, m, u, again, id) {}
    hide MayRing, IntentOf, Unrung, AgreeL;
  }

  // ---------------------------------------------------------------- the log and its compaction

  /** The agent's read, after a compaction that saw `now`: the same session with no old id back, or a new one. */
  predicate ReadFollows(log: seq<Rec>, now: map<Str, View>, n: Str, read: PendingRead)
  {
    read.session.Some? ==>
      (NewSession(log, n, read.session.value) ||
       (n in now && now[n].session == read.session &&
        Elems(read.ids) * RungIds(Account(log, n).rings, read.session.value) <= now[n].pending))
  }

  /** Every ring of a session is its one agent's: sessions are not shared. */
  predicate SessionsOwned(log: seq<Rec>)
  {
    forall r, s :: r in log && s in log && r.Intent? && s.Intent? && r.i.session == s.i.session ==> r.i.agent == s.i.agent
  }

  lemma {:induction false} ReplayRung(h: seq<Rec>)
    ensures forall s, id :: (s, id) in Replay(h).rung <==> exists r :: r in h && r.Intent? && r.i.session == s && id in r.i.ids
  {
    if h != [] {
      var p, last := h[..|h| - 1], h[|h| - 1];
      ReplayRung(p);
      assert h == p + [last];
      forall s, id ensures (s, id) in Replay(h).rung <==> exists r :: r in h && r.Intent? && r.i.session == s && id in r.i.ids
      {
        if last.Intent? && last.i.session == s && id in last.i.ids { assert last in h; }
        if (s, id) in Replay(p).rung {
          var r :| r in p && r.Intent? && r.i.session == s && id in r.i.ids;
          assert r in h;
        }
      }
    }
  }

  /** Rung memory and the agent's own rings agree on every (session, id), where the session is this agent's. */
  lemma RungIsRings(h: seq<Rec>, n: Str, session: Str, id: Str)
    requires forall r :: r in h && r.Intent? && r.i.session == session ==> r.i.agent == n
    ensures (session, id) in Replay(h).rung <==> id in RungIds(Account(h, n).rings, session)
  {
    ReplayRung(h);
    RungIdsMembers(Account(h, n).rings, session);
    AccountRings(h, n);
    if id in RungIds(Account(h, n).rings, session) {
      var i :| i in Account(h, n).rings && i.session == session && id in i.ids;
      assert Intent(i) in h && Intent(i).Intent?;
    }
  }

  lemma SameRead(log: seq<Rec>, now: map<Str, View>, at: StartAt, n: Str, read: PendingRead)
    requires WfLog(log) && ExtraOnce(log, n) && NamedRings(log) && ReadFollows(log, now, n, read) && read.session.Some?
    ensures exists known :: SameToCome(Account(log, n), Account(Compact(log, now, at), n), read.session.value, known) &&
                            Elems(read.ids) * RungIds(Account(log, n).rings, read.session.value) <= known
  {
    if NewSession(log, n, read.session.value) {
      CompactionInvisibleNew(log, now, at, n, read.session.value, Elems(read.ids));
    } else {
      CompactionInvisible(log, now, at, n);
    }
  }

  /** A cycle's input once its log has been compacted: the log and the rung memory replayed from it. */
  function Compacted(inp: Input, now: map<Str, View>, at: StartAt): Input
  {
    inp.(log := Compact(inp.log, now, at), rung := Replay(Compact(inp.log, now, at)).rung)
  }

  /** What the plan assumes of the log it is compacted from. */
  predicate Compactable(inp: Input, now: map<Str, View>, n: Str, read: PendingRead)
  {
    WfLog(inp.log) && ExtraOnce(inp.log, n) && NamedRings(inp.log) && ReadFollows(inp.log, now, n, read) &&
    inp.rung == Replay(inp.log).rung &&
    (read.session.Some? ==> forall r :: r in inp.log && r.Intent? && r.i.session == read.session.value ==> r.i.agent == n)
  }

  lemma SameRung(inp: Input, now: map<Str, View>, at: StartAt, n: Str, session: Str, known: set<Str>, id: Str)
    requires inp.rung == Replay(inp.log).rung
    requires forall r :: r in inp.log && r.Intent? && r.i.session == session ==> r.i.agent == n
    requires SameToCome(Account(inp.log, n), Account(Compact(inp.log, now, at), n), session, known)
    requires id in RungIds(Account(inp.log, n).rings, session) ==> id in known
    ensures (session, id) in inp.rung <==> (session, id) in Compacted(inp, now, at).rung
  {
    hide KeepAt;
    PickMembers(inp.log, now, KeptIds(inp.log, now, at), |inp.log|);
    RungIsRings(inp.log, n, session, id);
    RungIsRings(Compact(inp.log, now, at), n, session, id);
  }

  lemma CompactedAlike(inp: Input, now: map<Str, View>, at: StartAt, n: Str, read: PendingRead)
    requires Compactable(inp, now, n, read)
    ensures Alike(inp, Compacted(inp, now, at), n, read)
  {
    hide Compact, SameToCome, ReadFollows;
    if read.session.Some? {
      var rs, p := read.session.value, Elems(read.ids);
      var a, b := Account(inp.log, n), Account(Compact(inp.log, now, at), n);
      SameRead(inp.log, now, at, n, read);
      var known :| SameToCome(a, b, rs, known) && p * RungIds(a.rings, rs) <= known;
      forall id | id in p ensures (rs, id) in inp.rung <==> (rs, id) in Compacted(inp, now, at).rung
      {
        SameRung(inp, now, at, n, rs, known, id);
      }
    }
  }

  // ---------------------------------------------------------------- one agent's plan, from two logs

  /** Two inputs that differ in their log and rung memory only, and agree on all a plan for agent `n` looks at. */
  ghost predicate Alike(inp: Input, inq: Input, n: Str, read: PendingRead)
  {
    inq == inp.(log := inq.log, rung := inq.rung) &&
    (read.session.Some? ==>
      var rs, p := read.session.value, Elems(read.ids);
      (exists known :: SameToCome(Account(inp.log, n), Account(inq.log, n), rs, known) &&
                       p * RungIds(Account(inp.log, n).rings, rs) <= known) &&
      forall id :: id in p ==> ((rs, id) in inp.rung <==> (rs, id) in inq.rung))
  }

  lemma SameJudge(inp: Input, inq: Input, n: Str, read: PendingRead, k: nat)
    requires Alike(inp, inq, n, read) && read.session.Some?
    ensures JudgeOf(inp, n, read, k) == JudgeOf(inq, n, read, k)
    ensures AgreeL(LedgerAfter(inp, n, read.session.value, Elems(read.ids), k),
                   LedgerAfter(inq, n, read.session.value, Elems(read.ids), k), Elems(read.ids))
  {
    hide LedgerOf, MootEffects, CloseAll, AgreeL, JudgeRecs, Judged;
    var rs, p := read.session.value, Elems(read.ids);
    var a, b := Account(inp.log, n), Account(inq.log, n);
    var known :| SameToCome(a, b, rs, known) && p * RungIds(a.rings, rs) <= known;
    LedgersAgree(a, b, rs, inp.mono, p, known);
    assert MootRecs(inp.c, n, a, rs) == MootRecs(inp.c, n, b, rs);
    JudgedAgree(inp.c, n, rs, MootRecs(inp.c, n, a, rs), LedgerOf(a, rs, inp.mono), LedgerOf(b, rs, inp.mono), p, inp.uid, k);
  }

  lemma SameRing(inp: Input, inq: Input, n: Str, read: PendingRead, binding: Str, k: nat, j: nat)
    requires Alike(inp, inq, n, read) && read.session.Some?
    ensures var rs, p := read.session.value, Elems(read.ids);
            RingRecs(inp, n, rs, LedgerAfter(inp, n, rs, p, j), p, binding, k) ==
            RingRecs(inq, n, rs, LedgerAfter(inq, n, rs, p, j), p, binding, k)
  {
    hide SameToCome, LedgerAfter, RingRecs, AgreeL;
    var rs, p := read.session.value, Elems(read.ids);
    SameJudge(inp, inq, n, read, j);
    RingAgree(inp, inq.rung, n, rs, LedgerAfter(inp, n, rs, p, j), LedgerAfter(inq, n, rs, p, j), p, binding, k);
    RingLog(inp, inq, n, rs, LedgerAfter(inq, n, rs, p, j), p, binding, k);
  }

  lemma SameMail(inp: Input, inq: Input, n: Str, read: PendingRead, k: nat, j: nat)
    requires Alike(inp, inq, n, read)
    ensures MailRecs(inp, n, read, k, j) == MailRecs(inq, n, read, k, j)
  {
    hide SameToCome, LedgerAfter, RingRecs, BoardTo, WindowCase, BindingIds, AliveOf, NotDeadOf, OfAgent;
    var bs := OfAgent(inp.bindings, n);
    assert Decide(inp, n, read, bs) == Decide(inq, n, read, bs);
    hide Decide;
    match Decide(inp, n, read, bs)
    case Hold(_) =>
    case Show(next, _, ring) =>
      var board := BoardTo(inp.c, n, CurBoard(inp, n), next, |read.ids|, Resolved, inp.uid, k);
      if ring && read.session.Some? && AliveOf(bs, inp.ownHost) != [] {
        SameRing(inp, inq, n, read, AliveOf(bs, inp.ownHost)[0].id, k + |board|, j);
      }
  }

  lemma RingReads(inp: Input, inq: Input, n: Str, session: Str, l: Ledger, p: set<Str>, binding: Str, k: nat)
    requires inp.c == inq.c && inp.rung == inq.rung && inp.uid == inq.uid && TimesOf(inp, n) == TimesOf(inq, n)
    ensures RingRecs(inp, n, session, l, p, binding, k) == RingRecs(inq, n, session, l, p, binding, k)
  {
    hide Unrung, Again, AtCap, StuckRecs, SortedSet, MayRing, IntentOf, TimesOf;
  }

  /** The ring step looks at the ledger and the rung memory, never at the log itself. */
  lemma RingLog(inp: Input, inq: Input, n: Str, session: Str, l: Ledger, p: set<Str>, binding: Str, k: nat)
    requires inq == inp.(log := inq.log, rung := inq.rung)
    ensures RingRecs(inp.(rung := inq.rung), n, session, l, p, binding, k) == RingRecs(inq, n, session, l, p, binding, k)
  {
    RingReads(inp.(rung := inq.rung), inq, n, session, l, p, binding, k);
  }

  lemma AlikeRest(inp: Input, inq: Input, n: Str, read: PendingRead)
    requires Alike(inp, inq, n, read)
    ensures inq == inp.(log := inq.log, rung := inq.rung)
  {
  }

  /** One agent: the same records, from either log. */
  lemma SameAgent(inp: Input, inq: Input, n: Str, read: PendingRead, k: nat)
    requires Alike(inp, inq, n, read)
    ensures AgentRecs(inp, n, read, k) == AgentRecs(inq, n, read, k)
    ensures AbsentRecs(inp, n, read, k) == AbsentRecs(inq, n, read, k)
  {
    hide Alike, MailRecs, BoardTo, LedgerOf, LedgerAfter, JudgeRecs, MootRecs, ExhaustedNow, RingsInHour, OfAgent;
    AlikeRest(inp, inq, n, read);
    assert JudgeOf(inp, n, read, k) == JudgeOf(inq, n, read, k) by {
      if read.session.Some? { SameJudge(inp, inq, n, read, k); }
    }
    hide JudgeOf;
    assert BudgetRecs(inp, n, read.session) == BudgetRecs(inq, n, read.session);
    hide BudgetRecs;
    SameMail(inp, inq, n, read, k + |JudgeOf(inp, n, read, k) + BudgetRecs(inp, n, read.session)|, k);
  }

  // ---------------------------------------------------------------- the whole plan

  lemma {:induction false} SameMain(inp: Input, inq: Input, names: seq<Str>)
    requires forall n :: n in inp.inbox ==> Alike(inp, inq, n, inp.inbox[n])
    requires inq == inp.(log := inq.log, rung := inq.rung)
    ensures MainRecs(inp, names) == MainRecs(inq, names)
  {
    hide Alike, AgentRecs;
    if names != [] {
      var n, p := names[|names| - 1], names[..|names| - 1];
      SameMain(inp, inq, p);
      if n in inp.inbox { SameAgent(inp, inq, n, inp.inbox[n], |MainRecs(inp, p)|); }
    }
  }

  lemma {:induction false} SameAll(inp: Input, inq: Input, names: seq<Str>)
    requires forall n :: n in inp.inbox ==> Alike(inp, inq, n, inp.inbox[n])
    requires inq == inp.(log := inq.log, rung := inq.rung)
    ensures AllRecs(inp, names) == AllRecs(inq, names)
  {
    hide Alike, AgentRecs, AbsentRecs, MainRecs;
    if names == [] {
      assert MainNames(inp) == MainNames(inq);
      SameMain(inp, inq, MainNames(inp));
    } else {
      var n, p := names[|names| - 1], names[..|names| - 1];
      SameAll(inp, inq, p);
      if n in inp.inbox { SameAgent(inp, inq, n, inp.inbox[n], |AllRecs(inp, p)|); }
    }
  }

  lemma SameNames(inp: Input, inq: Input)
    requires inq == inp.(log := inq.log, rung := inq.rung) && LedgerAgents(inq.log) == LedgerAgents(inp.log)
    ensures AbsentNames(inq) == AbsentNames(inp)
  {
    hide LedgerAgents, SortedSet;
    assert MainNames(inq) == MainNames(inp);
  }

  /** Two inputs alike for every agent read, and with the same agents in their logs, give the same plan. */
  lemma PlanAlike(inp: Input, inq: Input)
    requires inq == inp.(log := inq.log, rung := inq.rung) && LedgerAgents(inq.log) == LedgerAgents(inp.log)
    requires forall n :: n in inp.inbox ==> Alike(inp, inq, n, inp.inbox[n])
    ensures Plan(inp) == Plan(inq)
  {
    hide Alike, AllRecs, LedgerAgents, MainNames, AbsentNames;
    SameNames(inp, inq);
    SameAll(inp, inq, AbsentNames(inp));
  }
}
