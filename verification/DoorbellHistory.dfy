/** Compaction over whole runs. */
module DoorbellHistory {
  // A job that compacts its log, at whatever moments, writes the records that a job which never compacts writes.
  // `Whole` is that second job: its log is every record ever written.

  import opened Canon
  import opened DoorbellLog
  import opened DoorbellLedger
  import opened DoorbellPlan
  import opened DoorbellAdmit
  import opened DoorbellAgent
  import opened DoorbellCycle
  import opened DoorbellWf
  import opened DoorbellKeep
  import opened DoorbellCompaction
  import opened DoorbellSamePlan
  import opened DoorbellRestart
  import opened DoorbellIds
  import opened DoorbellRuns
  import opened Wrappers

  function Whole(s: State): State
  {
    State(s.hist, s.hist, s.env)
  }

  /** The same reads, by a job that holds the whole history. */
  function WholeInput(inp: Input, hist: seq<Rec>): Input
  {
    inp.(log := hist, rung := Replay(hist).rung)
  }

  // ---------------------------------------------------------------- one agent

  /** What is recorded left of the session does not come back. */
  ghost predicate Gone(a: Acct, rs: Str, e: AgentEnv)
  {
    forall id :: (rs, id) in a.left ==> id !in e.pending && id in e.ever
  }

  /** All of history and the log say the same of an agent, to every judgement to come. */
  ghost predicate SameFor(a: Acct, b: Acct, e: AgentEnv)
  {
    a.open == b.open && Unjudged(a.rings, a.judged) == Unjudged(b.rings, b.judged) && b.left <= a.left &&
    (e.session.Some? ==> SameToCome(a, b, e.session.value, e.pending) && Gone(a, e.session.value, e))
  }

  lemma {:induction false} UnjudgedMore(rings: seq<IntentRec>, judged: set<Str>, more: set<Str>)
    ensures Unjudged(rings, judged + more) == Unjudged(Unjudged(rings, judged), more)
  {
    if rings != [] {
      UnjudgedMore(rings[..|rings| - 1], judged, more);
      var p, i := Unjudged(rings[..|rings| - 1], judged), rings[|rings| - 1];
      assert (p + [i])[..|p|] == p;
    }
  }

  lemma UnjudgedRing(a: Acct, i: IntentRec)
    requires i.id !in a.judged
    ensures Unjudged(a.rings + [i], a.judged) == Unjudged(a.rings, a.judged) + [i]
  {
    assert (a.rings + [i])[..|a.rings|] == a.rings;
  }

  lemma RingMore(rings: seq<IntentRec>, i: IntentRec, rs: Str, id: Str)
    ensures RungIds(rings + [i], rs) == RungIds(rings, rs) + if i.session == rs then Elems(i.ids) else {}
    ensures Covers(rings + [i], rs, id) == Covers(rings, rs, id) + if i.session == rs && id in i.ids then 1 else 0
    ensures forall mono :: LastRing(rings + [i], rs, id, mono) ==
              if i.session == rs && id in i.ids
              then Some(var q := LastRing(rings, rs, id, mono); if q.Some? && q.value > MonoOf(mono, i.id) then q.value else MonoOf(mono, i.id))
              else LastRing(rings, rs, id, mono)
  {
    assert (rings + [i])[..|rings|] == rings;
  }

  lemma MoreRung(r: set<Str>, q: set<Str>, l: set<Str>, m: set<Str>, more: set<Str>)
    requires r - l == q - m && m <= l && more !! l
    ensures (r + more) - l == (q + more) - m
  {
    forall x ensures x in (r + more) - l <==> x in (q + more) - m { assert x in r - l <==> x in q - m; }
  }

  lemma MoreLeft(r: set<Str>, q: set<Str>, l: set<Str>, m: set<Str>, more: set<Str>)
    requires r - l == q - m
    ensures r - (l + more) == q - (m + more)
  {
    forall x ensures x in r - (l + more) <==> x in q - (m + more) { assert x in r - l <==> x in q - m; }
  }

  /** A new ring of the session: its ids are pending, so none is recorded left. */
  lemma IntentSame(a: Acct, b: Acct, n: Str, rs: Str, e: AgentEnv, i: IntentRec)
    requires SameToCome(a, b, rs, e.pending) && Gone(a, rs, e) && b.left <= a.left && i.agent == n && i.session == rs
    requires i.id !in a.judged && i.id !in b.judged && forall id :: id in i.ids ==> id in e.pending
    ensures SameToCome(Step(a, Intent(i), n), Step(b, Intent(i), n), rs, e.pending)
  {
    UnjudgedRing(a, i);
    UnjudgedRing(b, i);
    hide Unjudged, RungIds, Covers, LastRing, NoteExtra;
    RingMore(a.rings, i, rs, "");
    RingMore(b.rings, i, rs, "");
    assert Elems(i.ids) !! LeftOf(a.left, rs) && LeftOf(b.left, rs) <= LeftOf(a.left, rs);
    MoreRung(RungIds(a.rings, rs), RungIds(b.rings, rs), LeftOf(a.left, rs), LeftOf(b.left, rs), Elems(i.ids));
    forall id | id in e.pending
      ensures Covers(a.rings + [i], rs, id) == Covers(b.rings + [i], rs, id)
      ensures forall mono :: LastRing(a.rings + [i], rs, id, mono) == LastRing(b.rings + [i], rs, id, mono)
    {
      RingMore(a.rings, i, rs, id);
      RingMore(b.rings, i, rs, id);
    }
  }

  lemma EffectSame(a: Acct, b: Acct, n: Str, rs: Str, known: set<Str>, f: EffectRec)
    requires SameToCome(a, b, rs, known) && f.agent == n
    ensures SameToCome(Step(a, Effect(f), n), Step(b, Effect(f), n), rs, known)
  {
    UnjudgedMore(a.rings, a.judged, Elems(f.intents));
    UnjudgedMore(b.rings, b.judged, Elems(f.intents));
    hide Unjudged, RungIds, Covers, LastRing;
    StepStreak(a, Effect(f), n, rs);
    StepStreak(b, Effect(f), n, rs);
    EffectLeft(a, n, f, rs);
    EffectLeft(b, n, f, rs);
    MoreLeft(RungIds(a.rings, rs), RungIds(b.rings, rs), LeftOf(a.left, rs), LeftOf(b.left, rs),
      if f.outcome == Effective && f.session == rs then Elems(f.left) else {});
    hide Streak, StreakBy, LeftOf;
  }

  lemma EffectLeft(a: Acct, n: Str, f: EffectRec, rs: Str)
    requires f.agent == n
    ensures LeftOf(Step(a, Effect(f), n).left, rs) ==
            LeftOf(a.left, rs) + (if f.outcome == Effective && f.session == rs then Elems(f.left) else {})
  {
    var b := Step(a, Effect(f), n);
    assert forall id :: id in LeftOf(b.left, rs) <==> (rs, id) in b.left;
  }

  lemma OtherSame(a: Acct, b: Acct, n: Str, rs: Str, known: set<Str>, r: Rec)
    requires SameToCome(a, b, rs, known) && !r.Intent? && !r.Effect?
    ensures SameToCome(Step(a, r, n), Step(b, r, n), rs, known)
  {
    hide Unjudged, RungIds, Covers, LastRing, PutOpen, DropOpen;
  }

  /** What an effect records left was rung, so the session has had it; and it is pending no more. */
  lemma GoneStep(a: Acct, b: Acct, n: Str, rs: Str, e: AgentEnv, r: Rec)
    requires Gone(a, rs, e) && e.session == Some(rs) && Linked(b, a, e, n) && Fits(b, n, View(e.session, e.pending), r)
    ensures Gone(Step(a, r, n), rs, e)
  {
    if r.Effect? && r.e.outcome == Effective {
      forall id | id !in e.ever ensures Covers(b.rings, rs, id) == 0 { assert Covers(a.rings, rs, id) == 0; }
      RungEver(b.rings, rs, e.ever);
      hide Covers, RungIds, Linked;
    }
  }

  lemma StepParts(a: Acct, b: Acct, n: Str, r: Rec)
    requires a.open == b.open && Unjudged(a.rings, a.judged) == Unjudged(b.rings, b.judged) && b.left <= a.left
    requires r.Intent? ==> r.i.id !in a.judged && r.i.id !in b.judged
    ensures var c, d := Step(a, r, n), Step(b, r, n);
            c.open == d.open && Unjudged(c.rings, c.judged) == Unjudged(d.rings, d.judged) && d.left <= c.left
  {
    if r.Intent? && r.i.agent == n {
      UnjudgedRing(a, r.i);
      UnjudgedRing(b, r.i);
    } else if r.Effect? && r.e.agent == n {
      UnjudgedMore(a.rings, a.judged, Elems(r.e.intents));
      UnjudgedMore(b.rings, b.judged, Elems(r.e.intents));
    }
    hide Unjudged, PutOpen, DropOpen, NoteExtra;
  }

  /** A record that fits the log keeps the two the same. */
  lemma StepSame(a: Acct, b: Acct, n: Str, e: AgentEnv, r: Rec)
    requires SameFor(a, b, e) && Linked(b, a, e, n) && Fits(b, n, View(e.session, e.pending), r)
    requires r.Intent? ==> r.i.id !in a.judged && r.i.id !in b.judged
    ensures SameFor(Step(a, r, n), Step(b, r, n), e)
  {
    hide SameToCome, Gone, Linked, Step, Unjudged;
    StepParts(a, b, n, r);
    if e.session.Some? {
      var rs := e.session.value;
      GoneStep(a, b, n, rs, e, r);
      if r.Intent? {
        IntentSame(a, b, n, rs, e, r.i);
      } else if r.Effect? {
        EffectSame(a, b, n, rs, e.pending, r.e);
      } else {
        OtherSame(a, b, n, rs, e.pending, r);
      }
    }
  }

  // ---------------------------------------------------------------- all agents

  /** The log and the whole history agree for every agent, and on the boards. */
  ghost predicate Same(s: State)
  {
    (forall n :: SameFor(Account(s.hist, n), Account(s.log, n), s.env(n))) &&
    LedgerAgents(s.hist) == LedgerAgents(s.log) && Replay(s.hist).boardOpen == Replay(s.log).boardOpen
  }

  lemma AgentsAppend(h: seq<Rec>, r: Rec)
    ensures LedgerAgents(h + [r]) == LedgerAgents(h) + if r.Intent? || r.Effect? || r.Escalation? then {AgentOf(r).value} else {}
  {
    assert forall t :: t in h + [r] <==> t in h || t == r;
  }

  lemma SharedAppend(s: State, r: Rec)
    requires LedgerAgents(s.hist) == LedgerAgents(s.log) && Replay(s.hist).boardOpen == Replay(s.log).boardOpen
    ensures LedgerAgents(s.hist + [r]) == LedgerAgents(s.log + [r]) && Replay(s.hist + [r]).boardOpen == Replay(s.log + [r]).boardOpen
  {
    AgentsAppend(s.hist, r);
    AgentsAppend(s.log, r);
    ReplayAppend(s.hist, r);
    ReplayAppend(s.log, r);
    hide Replay, LedgerAgents;
  }

  lemma AppendSame(s: State, n: Str, r: Rec)
    requires Inv(s) && Same(s) && Fits(Account(s.log, n), n, ViewIn(s.env, n), r) && (r.Intent? ==> NewId(s.hist, r.i.id))
    ensures Same(Grown(s, r))
  {
    hide SameFor, Account, Replay, LedgerAgents, Inv, NewId, Fits;
    SharedAppend(s, r);
    forall m ensures SameFor(Account(s.hist + [r], m), Account(s.log + [r], m), s.env(m)) { AppendSameFor(s, n, r, m); }
  }

  lemma AppendSameFor(s: State, n: Str, r: Rec, m: Str)
    requires Inv(s) && Same(s) && Fits(Account(s.log, n), n, ViewIn(s.env, n), r) && (r.Intent? ==> NewId(s.hist, r.i.id))
    ensures SameFor(Account(s.hist + [r], m), Account(s.log + [r], m), s.env(m))
  {
    hide WfLog, RingBehind, NamedRings, SessionKnown, ExtraOnce, Linked, SameFor, Fits, EnvsOk, Account, Replay, LedgerAgents;
    AccountGrows(s.log, r, m);
    AccountGrows(s.hist, r, m);
    assert SameFor(Account(s.hist, m), Account(s.log, m), s.env(m)) && Linked(Account(s.log, m), Account(s.hist, m), s.env(m), m);
    if m == n {
      RingNotJudged(s.hist, n, r);
      if r.Intent? { assert NewId(s.log, r.i.id); }
      RingNotJudged(s.log, n, r);
      StepSame(Account(s.hist, n), Account(s.log, n), n, s.env(n), r);
    } else {
      NotMine(Account(s.hist, m), Account(s.log, m), Account(s.log, n), n, ViewIn(s.env, n), r, m);
    }
  }

  lemma NotMine(a: Acct, b: Acct, f: Acct, n: Str, v: View, r: Rec, m: Str)
    requires Fits(f, n, v, r) && m != n
    ensures Step(a, r, m) == a && Step(b, r, m) == b
  {
  }

  lemma NoteSame(s: State, r: Rec)
    requires Same(s) && (r.Header? || r.Clock?)
    ensures Same(Grown(s, r))
  {
    hide SameFor, Account, Replay, LedgerAgents;
    SharedAppend(s, r);
    forall m ensures SameFor(Account(s.hist + [r], m), Account(s.log + [r], m), s.env(m))
    {
      AccountGrows(s.log, r, m);
      AccountGrows(s.hist, r, m);
    }
  }

  // ---------------------------------------------------------------- the world moves

  lemma {:induction false} NothingCovers(rings: seq<IntentRec>, rs: Str, id: Str)
    requires Covers(rings, rs, id) == 0
    ensures id !in RungIds(rings, rs) && forall mono :: LastRing(rings, rs, id, mono) == None
  {
    if rings != [] { NothingCovers(rings[..|rings| - 1], rs, id); }
  }

  /** Ids the session never had are covered by no ring: they may become pending. */
  lemma MovedSame(a: Acct, b: Acct, e: AgentEnv, f: AgentEnv, n: Str, rs: Str)
    requires SameFor(a, b, e) && Linked(b, a, e, n) && EnvMoves(e, f) && e.session == Some(rs) && f.session == Some(rs)
    ensures SameFor(a, b, f)
  {
    forall id | id in f.pending
      ensures (id in RungIds(a.rings, rs) <==> id in RungIds(b.rings, rs)) && Covers(a.rings, rs, id) == Covers(b.rings, rs, id)
      ensures forall mono :: LastRing(a.rings, rs, id, mono) == LastRing(b.rings, rs, id, mono)
    {
      if id !in e.pending {
        assert Covers(b.rings, rs, id) <= Covers(a.rings, rs, id) == 0;
        NothingCovers(a.rings, rs, id);
        NothingCovers(b.rings, rs, id);
      }
    }
    hide Covers, RungIds, LastRing, Unjudged, LeftOf, Linked, OpenWf;
  }

  lemma NothingSame(a: Acct, b: Acct, rs: Str, known: set<Str>)
    requires a.open == b.open && Unjudged(a.rings, a.judged) == Unjudged(b.rings, b.judged)
    requires RungIds(a.rings, rs) == {} == RungIds(b.rings, rs) && LeftOf(a.left, rs) == {} == LeftOf(b.left, rs)
    requires Streak(a, rs) == 0 == Streak(b, rs)
    requires forall id :: Covers(a.rings, rs, id) == 0 && forall mono :: LastRing(a.rings, rs, id, mono) == None
    requires forall id :: Covers(b.rings, rs, id) == 0 && forall mono :: LastRing(b.rings, rs, id, mono) == None
    ensures SameToCome(a, b, rs, known)
  {
  }

  lemma NewInBoth(s: State, n: Str, rs: Str)
    requires Inv(s) && NewSession(s.hist, n, rs)
    ensures NewSession(s.log, n, rs)
  {
    hide WfLog, RingBehind, NamedRings, ExtraOnce, Linked, EnvsOk, SessionKnown, Account;
  }

  /** A session neither says anything of. */
  lemma NewSame(s: State, n: Str, rs: Str, known: set<Str>)
    requires Inv(s) && Same(s) && NewSession(s.hist, n, rs)
    ensures SameToCome(Account(s.hist, n), Account(s.log, n), rs, known) && LeftOf(Account(s.hist, n).left, rs) == {}
  {
    NewInBoth(s, n, rs);
    assert SameFor(Account(s.hist, n), Account(s.log, n), s.env(n)) by { hide *; }
    NewSessionEmpty(s.hist, n, rs);
    NewSessionEmpty(s.log, n, rs);
    hide Inv, NewSession, Account, RungIds, LeftOf, Streak, Covers, LastRing, Unjudged, SameToCome;
    NothingSame(Account(s.hist, n), Account(s.log, n), rs, known);
  }

  lemma WorldSame(s: State, t: State)
    requires Inv(s) && Same(s) && WorldStep(s, t)
    ensures Same(t)
  {
    hide SameFor, Account, Replay, LedgerAgents, Inv;
    forall n ensures SameFor(Account(t.hist, n), Account(t.log, n), t.env(n)) { WorldSameFor(s, t, n); }
  }

  lemma WorldSameFor(s: State, t: State, n: Str)
    requires Inv(s) && Same(s) && WorldStep(s, t)
    ensures SameFor(Account(t.hist, n), Account(t.log, n), t.env(n))
  {
    hide WfLog, RingBehind, NamedRings, ExtraOnce, Linked, EnvsOk, SessionKnown, Account, SameToCome, Unjudged, LeftOf;
    var a, b, e, f := Account(s.hist, n), Account(s.log, n), s.env(n), t.env(n);
    assert SameFor(a, b, e) && EnvMoves(e, f) && Linked(b, a, e, n);
    if f.session.Some? {
      var rs := f.session.value;
      if e.session == Some(rs) {
        MovedSame(a, b, e, f, n, rs);
      } else {
        SessionNew(s, n, rs);
        NewSame(s, n, rs, f.pending);
      }
    }
  }

  lemma SessionNew(s: State, n: Str, rs: Str)
    requires Inv(s) && rs !in s.env(n).seen
    ensures NewSession(s.hist, n, rs)
  {
    hide WfLog, RingBehind, NamedRings, ExtraOnce, Linked, EnvsOk;
    forall r | r in s.hist ensures !(r.Intent? && r.i.agent == n && r.i.session == rs) && !(r.Effect? && r.e.agent == n && r.e.session == rs)
    {
      assert SessionKnown(r, s.env);
    }
  }

  // ---------------------------------------------------------------- a compaction

  lemma SameTwice(a: Acct, b: Acct, c: Acct, rs: Str, known: set<Str>)
    requires SameToCome(a, b, rs, known) && SameToCome(b, c, rs, known)
    ensures SameToCome(a, c, rs, known)
  {
    hide Covers, RungIds, LastRing, Unjudged, LeftOf, Streak;
  }

  lemma CompactSame(s: State, at: StartAt)
    requires Inv(s) && Same(s) && at.budget >= 1
    ensures Same(State(s.hist, Compact(s.log, Snapshot(s.log, s.env), at), s.env))
  {
    hide SameFor, Account, Replay, LedgerAgents, WfLog, NamedRings, ExtraOnce, Linked, EnvsOk, SessionKnown, RingBehind, Compact;
    var now := Snapshot(s.log, s.env);
    SameAgents(s.log, now, at);
    CompactedState(s.log, now, at);
    forall n ensures SameFor(Account(s.hist, n), Account(Compact(s.log, now, at), n), s.env(n)) { CompactSameFor(s, at, n); }
  }

  lemma CompactSameFor(s: State, at: StartAt, n: Str)
    requires Inv(s) && Same(s) && at.budget >= 1
    ensures SameFor(Account(s.hist, n), Account(Compact(s.log, Snapshot(s.log, s.env), at), n), s.env(n))
  {
    hide WfLog, RingBehind, NamedRings, ExtraOnce, Linked, EnvsOk, SessionKnown, Compact, SameToCome, Gone, Unjudged, Account;
    var now, e := Snapshot(s.log, s.env), s.env(n);
    assert ExtraOnce(s.log, n) && SameFor(Account(s.hist, n), Account(s.log, n), e);
    LeftShrinks(s.log, now, at, n);
    CompactionKeeps(s.log, now, at, n);
    RingIsRead(s.log, s.env, n);
    if e.session.Some? {
      var rs := e.session.value;
      if Account(s.log, n).rings == [] {
        SameSessionQuiet(s, n, rs);
        CompactionInvisibleNew(s.log, now, at, n, rs, e.pending);
      } else {
        CompactionInvisible(s.log, now, at, n);
      }
      SameTwice(Account(s.hist, n), Account(s.log, n), Account(Compact(s.log, now, at), n), rs, e.pending);
    }
  }

  // ---------------------------------------------------------------- a cycle

  lemma WholeReads(s: State, inp: Input)
    requires Inv(s) && Inv(Whole(s)) && Same(s) && Reads(s, inp)
    ensures Reads(Whole(s), WholeInput(inp, s.hist))
  {
    hide Inv, SameFor, Account, Replay, LedgerAgents, NewId;
  }

  lemma RungSame(s: State, n: Str, rs: Str, id: Str)
    requires Inv(s) && Inv(Whole(s)) && Same(s) && s.env(n).session == Some(rs) && id in s.env(n).pending
    ensures (rs, id) in Replay(s.hist).rung <==> (rs, id) in Replay(s.log).rung
  {
    hide WfLog, RingBehind, NamedRings, ExtraOnce, Linked, Account, Replay;
    assert SameFor(Account(s.hist, n), Account(s.log, n), s.env(n));
    forall r | r in s.hist && r.Intent? && r.i.session == rs ensures r.i.agent == n
    {
      assert SessionKnown(r, s.env) && EnvOk(s.env(n));
    }
    RungIsRings(s.hist, n, rs, id);
    RungIsRings(s.log, n, rs, id);
  }

  lemma WholeAlike(s: State, inp: Input, n: Str)
    requires Inv(s) && Inv(Whole(s)) && Same(s) && Reads(s, inp) && n in inp.inbox
    ensures Alike(WholeInput(inp, s.hist), inp, n, inp.inbox[n])
  {
    hide Inv, SameToCome, Account, Replay, LedgerAgents, NewId;
    var read := inp.inbox[n];
    assert ViewOf(read) == ViewIn(s.env, n) && SameFor(Account(s.hist, n), Account(s.log, n), s.env(n));
    if read.session.Some? {
      forall id | id in Elems(read.ids)
        ensures (read.session.value, id) in Replay(s.hist).rung <==> (read.session.value, id) in inp.rung
      {
        RungSame(s, n, read.session.value, id);
      }
    }
  }

  /** Whatever a cycle reads, it plans from the log what it would plan from the whole history. */
  lemma WholePlan(s: State, inp: Input)
    requires Inv(s) && Inv(Whole(s)) && Same(s) && Reads(s, inp)
    ensures Plan(WholeInput(inp, s.hist)) == Plan(inp)
  {
    hide Inv, Plan, Alike, SameFor, Account, Replay, LedgerAgents, NewId;
    forall n | n in inp.inbox ensures Alike(WholeInput(inp, s.hist), inp, n, inp.inbox[n]) { WholeAlike(s, inp, n); }
    PlanAlike(WholeInput(inp, s.hist), inp);
  }

  lemma {:induction false} PrefixSame(s: State, inp: Input, k: nat)
    requires Inv(s) && Same(s) && Reads(s, inp) && k <= |Plan(inp)|
    ensures Same(After(s, Plan(inp)[..k]))
    decreases k
  {
    hide Inv, Plan, FitsLog, AllFitLog, ReadyCycle, NewId, Same, Reads, IdsFrom;
    var recs := Plan(inp);
    if k == 0 {
      assert recs[..0] == [];
      assert After(s, []) == s;
    } else {
      PrefixSame(s, inp, k - 1);
      PrefixKeeps(s, inp, k - 1);
      PrefixKeeps(s, inp, k);
      var t, r := After(s, recs[..k - 1]), recs[k - 1];
      PlanRecord(s, inp, k - 1);
      IdAt(recs, inp.uid, k - 1);
      NextSame(s, inp, t, r, k - 1);
      assert recs[..k] == recs[..k - 1] + [r];
      assert s.log + recs[..k] == t.log + [r] && s.hist + recs[..k] == t.hist + [r];
    }
  }

  lemma NextSame(s: State, inp: Input, t: State, r: Rec, k: nat)
    requires Inv(t) && Same(t) && t.env == s.env && Reads(s, inp) && FitsLog(inp, t.log, r)
    requires r.Intent? ==> r.i.id == inp.uid(k)
    requires NewFrom(t.hist, inp.uid, k)
    ensures Same(Grown(t, r))
  {
    hide Inv, Same, NewId, Fits;
    var n := AgentOf(r).value;
    assert ViewOf(inp.inbox[n]) == ViewIn(t.env, n);
    assert NewId(t.hist, inp.uid(k));
    AppendSame(t, n, r);
  }

  lemma IdAt(recs: seq<Rec>, uid: nat -> Str, k: nat)
    requires IdsFrom(recs, uid, 0) && k < |recs|
    ensures recs[k].Intent? ==> recs[k].i.id == uid(k)
  {
    assert uid(0 + k) == uid(k);
  }

  // ---------------------------------------------------------------- every step

  /** A step that is no compaction. */
  ghost predicate PlainStep(s: State, t: State)
  {
    WorldStep(s, t) || CycleStep(s, t) || NoteStep(s, t)
  }

  lemma CyclePlain(s: State, t: State)
    requires Inv(s) && Inv(Whole(s)) && Same(s) && CycleStep(s, t)
    ensures CycleStep(Whole(s), Whole(t)) && Same(t)
  {
    hide Inv, Plan, Same, Reads;
    var inp: Input, k: nat :| Reads(s, inp) && k <= |Plan(inp)| &&
      t.log == s.log + Plan(inp)[..k] && t.hist == s.hist + Plan(inp)[..k];
    WholeReads(s, inp);
    WholePlan(s, inp);
    PrefixSame(s, inp, k);
    assert t == After(s, Plan(inp)[..k]);
    assert Whole(t).log == Whole(s).log + Plan(WholeInput(inp, s.hist))[..k];
  }

  /** A step of the doorbell is a step of the job that never compacts, or, for a compaction, none. */
  lemma StepPlain(s: State, t: State)
    requires Inv(s) && Inv(Whole(s)) && Same(s) && Next(s, t)
    ensures Same(t) && (PlainStep(Whole(s), Whole(t)) || (Whole(t) == Whole(s) && CompactStep(s, t)))
  {
    hide Inv, Same, CycleStep, Compact, EnvStep;
    if WorldStep(s, t) {
      WorldSame(s, t);
    } else if CycleStep(s, t) {
      CyclePlain(s, t);
    } else if NoteStep(s, t) {
      var r: Rec :| (r.Header? || r.Clock?) && t.log == s.log + [r] && t.hist == s.hist + [r];
      NoteSame(s, r);
      assert t == Grown(s, r);
    } else {
      var at: StartAt :| at.budget >= 1 && t.log == Compact(s.log, Snapshot(s.log, s.env), at);
      CompactSame(s, at);
    }
  }

  /** A run without a compaction. */
  ghost predicate IsPlainRun(run: seq<State>)
  {
    run != [] && Initial(run[0]) && forall k :: 0 <= k < |run| - 1 ==> PlainStep(run[k], run[k + 1])
  }

  lemma InitialSame(s: State)
    requires Initial(s)
    ensures Same(s) && Whole(s) == s
  {
    hide EnvsOk;
    assert LeftOf({}, "") == {};
  }

  lemma PlainNext(s: State, t: State)
    requires Inv(s) && PlainStep(s, t)
    ensures Inv(t)
  {
    hide Inv, WorldStep, CycleStep, NoteStep;
    StepKeeps(s, t);
  }

  lemma {:induction false} WholeRun(run: seq<State>) returns (plain: seq<State>)
    requires IsRun(run)
    ensures IsPlainRun(plain) && plain[|plain| - 1] == Whole(run[|run| - 1])
    ensures Inv(run[|run| - 1]) && Inv(Whole(run[|run| - 1])) && Same(run[|run| - 1])
    decreases |run|
  {
    hide Inv, Same, Next, PlainStep, Initial;
    if |run| == 1 {
      InitialInv(run[0]);
      InitialSame(run[0]);
      plain := [run[0]];
    } else {
      var p, s, t := run[..|run| - 1], run[|run| - 2], run[|run| - 1];
      assert IsRun(p);
      plain := WholeRun(p);
      assert Next(run[|run| - 2], run[|run| - 2 + 1]);
      StepKeeps(s, t);
      StepPlain(s, t);
      if PlainStep(Whole(s), Whole(t)) {
        PlainNext(Whole(s), Whole(t));
        plain := plain + [Whole(t)];
      }
    }
  }

  // ---------------------------------------------------------------- the theorems

  /**
    * However often and whenever the log was compacted: what a cycle plans from it is what it would have planned
    * from every record ever written.
    */
  lemma CompactionsInvisible(run: seq<State>, k: nat, inp: Input)
    requires IsRun(run) && k < |run| && Reads(run[k], inp)
    ensures Plan(inp) == Plan(WholeInput(inp, run[k].hist))
  {
    hide Inv, Same, Next, Plan, Reads, Initial, WholeInput;
    assert IsRun(run[..k + 1]);
    var plain := WholeRun(run[..k + 1]);
    WholePlan(run[k], inp);
  }

  /** Every history a run with compactions writes is one that a run without any writes, in the same world. */
  lemma CompactionFree(run: seq<State>)
    requires IsRun(run)
    ensures exists plain :: IsPlainRun(plain) && plain[|plain| - 1] == Whole(run[|run| - 1])
  {
    hide IsRun, Inv, Same;
    var plain := WholeRun(run);
  }
}
