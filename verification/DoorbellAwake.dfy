/**
  * Quiescence in runs: while no agent ever has a full record of unjudged rings, every reachable log is one
  * from which the world comes to rest.
  */
module DoorbellAwake {
  import opened Canon
  import opened DoorbellLog
  import opened DoorbellLedger
  import opened DoorbellPlan
  import opened DoorbellAdmit
  import opened DoorbellJudge
  import opened DoorbellSettle
  import opened DoorbellCoherence
  import opened DoorbellAgent
  import opened DoorbellCycle
  import opened DoorbellWf
  import opened DoorbellKeep
  import opened DoorbellCompaction
  import opened DoorbellRestart
  import opened DoorbellIds
  import opened DoorbellRuns
  import opened DoorbellFold
  import opened DoorbellCalm
  import opened DoorbellQuiescence
  import opened DoorbellRest
  import opened Wrappers

  /**
    * Of the agent's present session: what is recorded left is no longer pending, no unjudged ring covers
    * it, and an ineffective run still has some rung id that is not recorded left.
    */
  ghost predicate AwakeIn(a: Acct, rs: Str, pending: set<Str>, ever: set<Str>)
  {
    (forall id :: (rs, id) in a.left ==> id !in pending && id in ever) &&
    (forall i, id :: i in a.rings && i.session == rs && i.id !in a.judged && id in i.ids ==> (rs, id) !in a.left) &&
    (Streak(a, rs) > 0 ==> RungIds(a.rings, rs) - LeftOf(a.left, rs) != {})
  }

  predicate Outstanding(a: Acct, rs: Str, m: nat)
  {
    |Unjudged(OfSession(a.rings, rs), a.judged)| < m
  }

  /** No session of any agent has MAX_IDS rings unjudged. */
  ghost predicate Narrow(log: seq<Rec>)
  {
    forall n, rs :: Outstanding(Account(log, n), rs, MAX_IDS)
  }

  // ---------------------------------------------------------------- one record

  lemma {:induction false} IdsCount(u: seq<IntentRec>)
    ensures |IdsOfRings(u)| <= |u|
  {
    if u == [] {
      assert IdsOfRings(u) == {};
    } else {
      IdsCount(u[..|u| - 1]);
      assert u == u[..|u| - 1] + [u[|u| - 1]];
      assert IdsOfRings(u) == IdsOfRings(u[..|u| - 1]) + {u[|u| - 1].id};
    }
  }

  lemma {:induction false} DistinctCount(s: seq<Str>)
    requires Ascending(s)
    ensures |Elems(s)| == |s|
  {
    AscendingUnique(SortedSet(Elems(s)), s);
  }

  /** A record that is not full names every unjudged ring of its session. */
  lemma NarrowNamesAll(a: Acct, rs: Str, ids: seq<Str>)
    requires Outstanding(a, rs, MAX_IDS) && Ascending(ids) && Covering(a, rs, ids) && forall x :: x in ids ==> Judgeable(a, rs, x)
    ensures AllNamed(a, rs, ids)
  {
    var u := Unjudged(OfSession(a.rings, rs), a.judged);
    OfSessionMembers(a.rings, rs);
    UnjudgedMembers(OfSession(a.rings, rs), a.judged);
    IdsCount(u);
    DistinctCount(ids);
    forall x | x in ids ensures x in IdsOfRings(u)
    {
      assert Judgeable(a, rs, x);
      var r :| r in a.rings && r.id == x && r.session == rs;
      assert r in u;
    }
    SubsetSize(Elems(ids), IdsOfRings(u));
  }

  lemma IntentAwake(a: Acct, n: Str, rs: Str, pending: set<Str>, ever: set<Str>, i: IntentRec)
    requires AwakeIn(a, rs, pending, ever) && i.agent == n && i.session == rs && forall id :: id in i.ids ==> id in pending
    ensures AwakeIn(Step(a, Intent(i), n), rs, pending, ever)
  {
    assert (a.rings + [i])[..|a.rings|] == a.rings;
    assert RungIds(a.rings, rs) <= RungIds(a.rings + [i], rs);
  }

  lemma EffectAwake(a: Acct, n: Str, rs: Str, pending: set<Str>, ever: set<Str>, e: EffectRec, v: View)
    requires AwakeIn(a, rs, pending, ever) && RingsWf(a.rings, n) && e.agent == n && v == View(Some(rs), pending)
    requires EffectFits(a, e, v) && Outstanding(a, rs, MAX_IDS) && forall id :: id in RungIds(a.rings, rs) ==> id in ever
    ensures AwakeIn(Step(a, Effect(e), n), rs, pending, ever)
  {
    hide Covering, AllNamed, Outstanding;
    var b := Step(a, Effect(e), n);
    if e.outcome == Effective {
      NarrowNamesAll(a, rs, e.intents);
      EffectiveAwake(a, n, rs, pending, ever, e);
    } else if e.outcome == Ineffective {
      assert Judgeable(a, rs, e.intents[0]);
      var r :| r in a.rings && r.id == e.intents[0] && r.session == rs;
      RungIdsMembers(a.rings, rs);
      assert r.ids[0] in r.ids;
      assert r.ids[0] in RungIds(b.rings, rs) - LeftOf(b.left, rs);
    }
  }

  lemma EffectiveAwake(a: Acct, n: Str, rs: Str, pending: set<Str>, ever: set<Str>, e: EffectRec)
    requires AwakeIn(a, rs, pending, ever) && e.agent == n && e.session == rs && e.outcome == Effective && AllNamed(a, rs, e.intents)
    requires forall id :: id in e.left ==> id !in pending && id in ever
    ensures AwakeIn(Step(a, Effect(e), n), rs, pending, ever)
  {
    var b := Step(a, Effect(e), n);
    forall i | i in b.rings && i.session == rs ensures i.id in b.judged
    {
      assert i.id in a.judged || i.id in e.intents;
    }
  }

  /** A record that fits keeps the present session awake. */
  lemma StepAwake(a: Acct, h: Acct, n: Str, e: AgentEnv, r: Rec)
    requires AcctWf(a, n) && Linked(a, h, e, n) && EnvOk(e) && e.session.Some? && AwakeIn(a, e.session.value, e.pending, e.ever)
    requires Fits(a, n, View(e.session, e.pending), r) && Outstanding(a, e.session.value, MAX_IDS)
    ensures AwakeIn(Step(a, r, n), e.session.value, e.pending, e.ever)
  {
    var rs := e.session.value;
    hide AwakeIn, Outstanding, Covering;
    if r.Intent? {
      IntentAwake(a, n, rs, e.pending, e.ever, r.i);
    } else if r.Effect? {
      forall id | id !in e.ever ensures Covers(a.rings, rs, id) == 0 { assert Covers(h.rings, rs, id) == 0; }
      RungEver(a.rings, rs, e.ever);
      EffectAwake(a, n, rs, e.pending, e.ever, r.e, View(e.session, e.pending));
    } else {
      SameButOpen(a, n, r, rs, e.pending, e.ever);
    }
  }

  lemma SameButOpen(a: Acct, n: Str, r: Rec, rs: Str, pending: set<Str>, ever: set<Str>)
    requires AwakeIn(a, rs, pending, ever) && !r.Intent? && !r.Effect?
    ensures AwakeIn(Step(a, r, n), rs, pending, ever)
  {
  }

  // ---------------------------------------------------------------- every step of a narrow run

  ghost predicate Awake(s: State)
  {
    forall n :: s.env(n).session.Some? ==> AwakeIn(Account(s.log, n), s.env(n).session.value, s.env(n).pending, s.env(n).ever)
  }

  lemma AppendAwake(s: State, n: Str, r: Rec)
    requires Inv(s) && Awake(s) && Narrow(s.log) && Fits(Account(s.log, n), n, ViewIn(s.env, n), r)
    ensures Awake(Grown(s, r))
  {
    forall m | s.env(m).session.Some?
      ensures AwakeIn(Account(s.log + [r], m), s.env(m).session.value, s.env(m).pending, s.env(m).ever)
    {
      AppendAwakeFor(s, n, r, m);
    }
  }

  lemma AppendAwakeFor(s: State, n: Str, r: Rec, m: Str)
    requires Inv(s) && Awake(s) && Narrow(s.log) && Fits(Account(s.log, n), n, ViewIn(s.env, n), r) && s.env(m).session.Some?
    ensures AwakeIn(Account(s.log + [r], m), s.env(m).session.value, s.env(m).pending, s.env(m).ever)
  {
    hide WfLog, RingBehind, NamedRings, SessionKnown, ExtraOnce, Linked, AwakeIn, Outstanding, Fits, EnvsOk, Account;
    AccountGrows(s.log, r, m);
    AcctIsWf(s, m);
    assert Linked(Account(s.log, m), Account(s.hist, m), s.env(m), m);
    if m == n {
      assert Outstanding(Account(s.log, m), s.env(m).session.value, MAX_IDS);
      StepAwake(Account(s.log, m), Account(s.hist, m), m, s.env(m), r);
    } else {
      FitsAgent(Account(s.log, n), n, ViewIn(s.env, n), r);
    }
  }

  lemma FitsAgent(a: Acct, n: Str, v: View, r: Rec)
    requires Fits(a, n, v, r)
    ensures AgentOf(r) == Some(n)
  {
  }

  lemma NoteAwake(s: State, r: Rec)
    requires Awake(s) && (r.Header? || r.Clock?)
    ensures Awake(Grown(s, r))
  {
    hide AwakeIn;
    forall m | s.env(m).session.Some?
      ensures AwakeIn(Account(s.log + [r], m), s.env(m).session.value, s.env(m).pending, s.env(m).ever)
    {
      AccountGrows(s.log, r, m);
    }
  }

  lemma WorldAwake(s: State, t: State)
    requires Inv(s) && Awake(s) && WorldStep(s, t)
    ensures Awake(t)
  {
    forall n | t.env(n).session.Some? ensures AwakeIn(Account(t.log, n), t.env(n).session.value, t.env(n).pending, t.env(n).ever)
    {
      WorldAwakeFor(s, t, n);
    }
  }

  lemma WorldAwakeFor(s: State, t: State, n: Str)
    requires Inv(s) && Awake(s) && WorldStep(s, t) && t.env(n).session.Some?
    ensures AwakeIn(Account(t.log, n), t.env(n).session.value, t.env(n).pending, t.env(n).ever)
  {
    hide WfLog, RingBehind, NamedRings, ExtraOnce, Linked, EnvsOk;
    var e, f, rs := s.env(n), t.env(n), t.env(n).session.value;
    assert EnvMoves(e, f);
    if e.session != Some(rs) {
      forall r | r in s.log ensures !(r.Intent? && r.i.agent == n && r.i.session == rs) && !(r.Effect? && r.e.agent == n && r.e.session == rs)
      {
        assert SessionKnown(r, s.env);
      }
      QuietSession(s.log, n, rs, f.pending, f.ever);
    }
  }

  /** A session with no record in the log is awake, trivially. */
  lemma QuietSession(log: seq<Rec>, n: Str, rs: Str, pending: set<Str>, ever: set<Str>)
    requires NewSession(log, n, rs)
    ensures AwakeIn(Account(log, n), rs, pending, ever)
  {
    hide NewSession;
    NewSessionEmpty(log, n, rs);
  }

  // ---------------------------------------------------------------- compaction

  lemma SameUnjudged(a: Acct, b: Acct, i: IntentRec)
    requires Unjudged(a.rings, a.judged) == Unjudged(b.rings, b.judged) && i in b.rings && i.id !in b.judged
    ensures i in a.rings && i.id !in a.judged
  {
    UnjudgedMembers(a.rings, a.judged);
    UnjudgedMembers(b.rings, b.judged);
  }

  lemma CompactAwakeFrom(a: Acct, b: Acct, rs: Str, pending: set<Str>, ever: set<Str>, known: set<Str>)
    requires SameToCome(a, b, rs, known) && b.left <= a.left && AwakeIn(a, rs, pending, ever)
    ensures AwakeIn(b, rs, pending, ever)
  {
    hide Unjudged, RungIds, Covers, LastRing;
    forall i, id | i in b.rings && i.session == rs && i.id !in b.judged && id in i.ids ensures (rs, id) !in b.left
    {
      SameUnjudged(a, b, i);
    }
  }

  lemma CompactAwake(s: State, at: StartAt)
    requires Inv(s) && Awake(s) && at.budget >= 1
    ensures Awake(State(s.hist, Compact(s.log, Snapshot(s.log, s.env), at), s.env))
  {
    forall n | s.env(n).session.Some?
      ensures AwakeIn(Account(Compact(s.log, Snapshot(s.log, s.env), at), n), s.env(n).session.value, s.env(n).pending, s.env(n).ever)
    {
      CompactAwakeFor(s, at, n);
    }
  }

  lemma CompactAwakeFor(s: State, at: StartAt, n: Str)
    requires Inv(s) && Awake(s) && at.budget >= 1 && s.env(n).session.Some?
    ensures AwakeIn(Account(Compact(s.log, Snapshot(s.log, s.env), at), n), s.env(n).session.value, s.env(n).pending, s.env(n).ever)
  {
    hide WfLog, RingBehind, NamedRings, ExtraOnce, Linked, EnvsOk, SessionKnown, AwakeIn, Compact, SameToCome;
    var now, e := Snapshot(s.log, s.env), s.env(n);
    var rs := e.session.value;
    assert ExtraOnce(s.log, n);
    LeftShrinks(s.log, now, at, n);
    RingIsRead(s.log, s.env, n);
    if Account(s.log, n).rings == [] {
      SameSessionQuiet(s, n, rs);
      CompactionInvisibleNew(s.log, now, at, n, rs, {});
      CompactAwakeFrom(Account(s.log, n), Account(Compact(s.log, now, at), n), rs, e.pending, e.ever, {});
    } else {
      CompactionInvisible(s.log, now, at, n);
      CompactAwakeFrom(Account(s.log, n), Account(Compact(s.log, now, at), n), rs, e.pending, e.ever, now[n].pending);
    }
  }

  // ---------------------------------------------------------------- whole runs

  /** A cycle in which no agent has a full record of unjudged rings at any moment. */
  ghost predicate NarrowCycle(s: State, inp: Input, k: nat)
    requires k <= |Plan(inp)|
  {
    forall j :: 0 <= j <= k ==> Narrow(s.log + Plan(inp)[..j])
  }

  ghost predicate NarrowStep(s: State, t: State)
  {
    t.env == s.env &&
    exists inp: Input, k: nat :: Reads(s, inp) && k <= |Plan(inp)| && NarrowCycle(s, inp, k) &&
      t.log == s.log + Plan(inp)[..k] && t.hist == s.hist + Plan(inp)[..k]
  }

  ghost predicate NarrowNext(s: State, t: State)
  {
    WorldStep(s, t) || NoteStep(s, t) || CompactStep(s, t) || NarrowStep(s, t)
  }

  lemma {:induction false} PrefixAwake(s: State, inp: Input, k: nat)
    requires Inv(s) && Awake(s) && Reads(s, inp) && k <= |Plan(inp)| && NarrowCycle(s, inp, k)
    ensures Awake(After(s, Plan(inp)[..k]))
    decreases k
  {
    hide Inv, Plan, FitsLog, AllFitLog, ReadyCycle, NewId, IdsFrom, Awake, Narrow;
    var recs := Plan(inp);
    if k == 0 {
      assert recs[..0] == [];
      assert After(s, []) == s;
    } else {
      PrefixAwake(s, inp, k - 1);
      PrefixKeeps(s, inp, k - 1);
      var t, r := After(s, recs[..k - 1]), recs[k - 1];
      assert Narrow(t.log);
      PlanRecord(s, inp, k - 1);
      NextAwake(s, inp, t, r);
      assert recs[..k] == recs[..k - 1] + [r];
      assert s.log + recs[..k] == t.log + [r] && s.hist + recs[..k] == t.hist + [r];
    }
  }

  lemma NextAwake(s: State, inp: Input, t: State, r: Rec)
    requires Inv(t) && Awake(t) && Narrow(t.log) && t.env == s.env && Reads(s, inp)
    requires FitsLog(inp, t.log, r)
    ensures Awake(Grown(t, r))
  {
    hide Inv, Awake, Narrow, Fits;
    var n := AgentOf(r).value;
    assert ViewOf(inp.inbox[n]) == ViewIn(t.env, n);
    AppendAwake(t, n, r);
  }

  lemma NarrowIsNext(s: State, t: State)
    requires NarrowNext(s, t)
    ensures Next(s, t)
  {
    hide Plan, Reads, WorldStep, NoteStep, CompactStep, Narrow;
  }

  lemma StepStaysAwake(s: State, t: State)
    requires Inv(s) && Awake(s) && NarrowNext(s, t)
    ensures Awake(t)
  {
    hide Inv, Awake, Plan, Reads, Compact, EnvStep, NarrowCycle;
    if WorldStep(s, t) {
      WorldAwake(s, t);
    } else if NoteStep(s, t) {
      var r: Rec :| (r.Header? || r.Clock?) && t.log == s.log + [r] && t.hist == s.hist + [r];
      NoteAwake(s, r);
      assert t == Grown(s, r);
    } else if CompactStep(s, t) {
      var at: StartAt :| at.budget >= 1 && t.log == Compact(s.log, Snapshot(s.log, s.env), at);
      CompactAwake(s, at);
    } else {
      var inp: Input, k: nat :| Reads(s, inp) && k <= |Plan(inp)| && NarrowCycle(s, inp, k) &&
        t.log == s.log + Plan(inp)[..k] && t.hist == s.hist + Plan(inp)[..k];
      PrefixAwake(s, inp, k);
      assert t == After(s, Plan(inp)[..k]);
    }
  }

  ghost predicate IsNarrowRun(run: seq<State>)
  {
    run != [] && Initial(run[0]) && forall k :: 0 <= k < |run| - 1 ==> NarrowNext(run[k], run[k + 1])
  }

  lemma InitialAwake(s: State)
    requires Initial(s)
    ensures Awake(s)
  {
  }

  lemma {:induction false} RunAwake(run: seq<State>, k: nat)
    requires IsNarrowRun(run) && k < |run|
    ensures Inv(run[k]) && Awake(run[k])
    decreases k
  {
    hide Inv, Awake, NarrowNext, Next, Initial;
    if k == 0 {
      InitialInv(run[0]);
      InitialAwake(run[0]);
    } else {
      RunAwake(run, k - 1);
      assert NarrowNext(run[k - 1], run[k - 1 + 1]);
      NarrowIsNext(run[k - 1], run[k]);
      StepKeeps(run[k - 1], run[k]);
      StepStaysAwake(run[k - 1], run[k]);
    }
  }

  // ---------------------------------------------------------------- quiescence in every reachable state

  lemma {:induction false} SortNonEmpty(rings: seq<IntentRec>, mono: map<Str, int>)
    ensures rings == [] ==> SortRings(rings, mono) == []
  {
  }

  lemma AwakeLives(a: Acct, n: Str, rs: Str, pending: set<Str>, ever: set<Str>, mono: map<Str, int>)
    requires AwakeIn(a, rs, pending, ever) && RingsWf(a.rings, n)
    ensures LiveLedger(LedgerOf(a, rs, mono))
  {
    var u := Unjudged(OfSession(a.rings, rs), a.judged);
    OfSessionMembers(a.rings, rs);
    UnjudgedMembers(OfSession(a.rings, rs), a.judged);
    RungIdsMembers(a.rings, rs);
    SortNonEmpty(u, mono);
    hide SortRings, OfSession, Unjudged, RungIds, Covers, LastRing, UnresponsiveOf, StuckOf;
    if u != [] {
      var i := u[0];
      assert i in u && i.ids[0] in i.ids;
      assert i.ids[0] in RungIds(a.rings, rs) - LeftOf(a.left, rs);
    }
  }

  lemma ReachableRestful(s: State, inp: Input)
    requires Inv(s) && Awake(s) && Reads(s, inp) && TunablesOk(inp.c) && forall n :: n in inp.inbox ==> KnownWatch(inp, n)
    ensures Restful(inp)
  {
    hide WfLog, RingBehind, NamedRings, ExtraOnce, EnvsOk, SessionKnown, AwakeIn, LiveLedger, LedgerOf, Linked, Ready, KnownWatch, Replay;
    ReachableReady(s, inp);
    forall n | n in inp.inbox ensures LiveFor(inp, n, inp.inbox[n])
    {
      var read := inp.inbox[n];
      assert ViewOf(read) == ViewIn(s.env, n);
      AcctIsWf(s, n);
      if read.session.Some? {
        AwakeLives(Account(s.log, n), n, read.session.value, s.env(n).pending, s.env(n).ever, inp.mono);
      }
    }
  }

  /**
    * From every state of a run in which no agent has a full record of unjudged rings: on an unchanged world
    * the second cycle writes at most a budget change of an agent the first rang, and the third nothing.
    */
  lemma ReachableQuiescence(run: seq<State>, k: nat, inp: Input, uid: nat -> Str, uid3: nat -> Str)
    requires IsNarrowRun(run) && k < |run| && Reads(run[k], inp) && TunablesOk(inp.c)
    requires forall n :: n in inp.inbox ==> KnownWatch(inp, n)
    ensures var second := NextInput(inp, uid);
            (forall r :: r in Plan(second) ==> r.Budget? && exists i :: Intent(i) in Plan(inp) && i.agent == r.g.agent) &&
            Plan(NextInput(second, uid3)) == []
  {
    hide Inv, Awake, Reads, Restful, NextInput, KnownWatch, Plan, IsNarrowRun;
    RunAwake(run, k);
    ReachableRestful(run[k], inp);
    Quiescence(inp, uid, uid3);
  }
}
