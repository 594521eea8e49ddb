/** Whole runs of the doorbell. */
module DoorbellRuns {
  // Cycles whose plans are written whole or cut short by a crash, restarts, compactions, and a changing world.
  // `hist` is every record ever written; `log` is what is on disk now.

  import opened Canon
  import opened DoorbellLog
  import opened DoorbellLedger
  import opened DoorbellPlan
  import opened DoorbellAdmit
  import opened DoorbellJudge
  import opened DoorbellCoherence
  import opened DoorbellAgent
  import opened DoorbellCycle
  import opened DoorbellJudgement
  import opened DoorbellWf
  import opened DoorbellKeep
  import opened DoorbellCompaction
  import opened DoorbellSamePlan
  import opened DoorbellRestart
  import opened DoorbellIds
  import opened Wrappers

  // ---------------------------------------------------------------- the world the doorbell reads

  /** One agent: its session, that session's pending ids, every session it ever had, every id the session ever had. */
  datatype AgentEnv = AgentEnv(session: Option<Str>, pending: set<Str>, seen: set<Str>, ever: set<Str>)

  predicate EnvOk(e: AgentEnv)
  {
    e.session.Some? ==> e.session.value in e.seen && e.pending <= e.ever
  }

  /**
    * What may happen to an agent between two reads: an id that left a session's pending set never re-enters
    * it, and a reading session never comes back (a NULLed one is replaced by one never seen before).
    */
  predicate EnvMoves(e: AgentEnv, f: AgentEnv)
  {
    e.seen <= f.seen && EnvOk(f) &&
    match f.session
    case None => true
    case Some(s) =>
      if e.session == Some(s) then f.seen == e.seen && e.ever <= f.ever && forall id :: id in f.pending ==> id in e.pending || id !in e.ever
      else s !in e.seen
  }

  datatype State = State(hist: seq<Rec>, log: seq<Rec>, env: Str -> AgentEnv)

  ghost predicate EnvsOk(env: Str -> AgentEnv)
  {
    (forall n :: EnvOk(env(n))) && (forall n, m :: n != m ==> env(n).seen !! env(m).seen)
  }

  ghost predicate EnvStep(e: Str -> AgentEnv, f: Str -> AgentEnv)
  {
    EnvsOk(f) && forall n :: EnvMoves(e(n), f(n))
  }

  function ViewIn(env: Str -> AgentEnv, n: Str): View
  {
    View(env(n).session, env(n).pending)
  }

  /** A new id: non-empty, and used by no record ever written. */
  predicate NewId(hist: seq<Rec>, id: Str)
  {
    id != "" && forall r :: r in hist ==>
      (r.Intent? ==> r.i.id != id) && (r.Effect? ==> id !in r.e.intents) && (r.Escalation? ==> r.x.id != id)
  }

  /** A cycle's input is what the job holds in this state: its log's replay, its reads, a supply of new ids. */
  ghost predicate Reads(s: State, inp: Input)
  {
    inp.log == s.log && inp.rung == Replay(s.log).rung && inp.boardOpen == Replay(s.log).boardOpen &&
    Supply(inp.uid) && (forall j: nat :: NewId(s.hist, inp.uid(j))) &&
    forall n :: n in inp.inbox ==> ViewOf(inp.inbox[n]) == ViewIn(s.env, n)
  }

  /** Every agent with a ring in the log, read in one snapshot. */
  function Snapshot(log: seq<Rec>, env: Str -> AgentEnv): map<Str, View>
  {
    map r | r in log && r.Intent? :: r.i.agent := ViewIn(env, r.i.agent)
  }

  ghost predicate WorldStep(s: State, t: State)
  {
    t.hist == s.hist && t.log == s.log && EnvStep(s.env, t.env)
  }

  /** A cycle plans on one read of every agent and writes any prefix of its plan: all of it, or up to a crash. */
  ghost predicate CycleStep(s: State, t: State)
  {
    t.env == s.env &&
    exists inp: Input, k: nat :: Reads(s, inp) && k <= |Plan(inp)| &&
      t.log == s.log + Plan(inp)[..k] && t.hist == s.hist + Plan(inp)[..k]
  }

  /** A start's header, or a clock-jump record. */
  ghost predicate NoteStep(s: State, t: State)
  {
    t.env == s.env && exists r: Rec :: (r.Header? || r.Clock?) && t.log == s.log + [r] && t.hist == s.hist + [r]
  }

  ghost predicate CompactStep(s: State, t: State)
  {
    t.env == s.env && t.hist == s.hist &&
    exists at: StartAt :: at.budget >= 1 && t.log == Compact(s.log, Snapshot(s.log, s.env), at)
  }

  ghost predicate Next(s: State, t: State)
  {
    WorldStep(s, t) || CycleStep(s, t) || NoteStep(s, t) || CompactStep(s, t)
  }

  ghost predicate Initial(s: State)
  {
    s.hist == [] && s.log == [] && EnvsOk(s.env)
  }

  // ---------------------------------------------------------------- the invariant

  /** Agent `n`: its account in the log, its account in all of history, and what it reads as now. */
  ghost predicate Linked(a: Acct, h: Acct, e: AgentEnv, n: Str)
  {
    OpenWf(a.open, n) && a.open == h.open &&
    (forall i :: i in a.rings && i.id in h.judged ==> i.id in a.judged) &&
    (forall rs, id :: Covers(a.rings, rs, id) <= Covers(h.rings, rs, id) <= RE_RING_CAP) &&
    (e.session.Some? ==>
      forall id :: (id in e.pending ==> Covers(a.rings, e.session.value, id) == Covers(h.rings, e.session.value, id)) &&
                   (id !in e.ever ==> Covers(h.rings, e.session.value, id) == 0))
  }

  /** The sessions a record speaks of are its agent's, and a moot one is not the agent's session now. */
  predicate SessionKnown(r: Rec, env: Str -> AgentEnv)
  {
    (r.Intent? ==> r.i.session in env(r.i.agent).seen) &&
    (r.Effect? ==> r.e.session in env(r.e.agent).seen &&
                   (r.e.outcome == SessionChanged ==> env(r.e.agent).session != Some(r.e.session)))
  }

  ghost predicate Inv(s: State)
  {
    EnvsOk(s.env) && WfLog(s.hist) && WfLog(s.log) && NamedRings(s.log) && RingBehind(s.log) &&
    (forall r :: r in s.log ==> r in s.hist) &&
    (forall r :: r in s.hist ==> SessionKnown(r, s.env)) &&
    (forall n :: ExtraOnce(s.log, n)) &&
    (forall n :: Linked(Account(s.log, n), Account(s.hist, n), s.env(n), n))
  }

  // ---------------------------------------------------------------- one record joins the log

  /** A record's new id, and every id it names, is unused by the ids still to come. */
  lemma StillNew(hist: seq<Rec>, log: seq<Rec>, n: Str, v: View, r: Rec, id: Str)
    requires NewId(hist, id) && (forall s :: s in log ==> s in hist) && Fits(Account(log, n), n, v, r)
    requires (r.Intent? ==> r.i.id != id) && (r.Escalation? && r.x.isOpen ==> r.x.id != id)
    requires WfLog(log)
    ensures NewId(hist + [r], id)
  {
    AccountRings(log, n);
    OpenAlone(log, n);
    if r.Effect? {
      forall x | x in r.e.intents ensures x != id
      {
        assert Judgeable(Account(log, n), r.e.session, x);
        var i :| i in Account(log, n).rings && i.id == x && i.session == r.e.session;
        assert Intent(i) in hist;
      }
    } else if r.Escalation? && !r.x.isOpen {
      var e :| e in Account(log, n).open && e.rec.id == r.x.id;
      assert Escalation(e.rec) in hist;
    }
  }

  lemma LogBringsNew(hist: seq<Rec>, r: Rec)
    requires (r.Intent? ==> NewId(hist, r.i.id)) && (r.Escalation? && r.x.isOpen ==> NewId(hist, r.x.id))
    ensures BringsNew(hist, r)
  {
  }

  lemma HistJoins(s: State, n: Str, r: Rec)
    requires Inv(s) && Fits(Account(s.log, n), n, ViewIn(s.env, n), r)
    requires (r.Intent? ==> NewId(s.hist, r.i.id)) && (r.Escalation? && r.x.isOpen ==> NewId(s.hist, r.x.id))
    ensures Joins(s.log, n, r) && Joins(s.hist, n, r)
  {
    hide WfLog, ExtraOnce, RingBehind, NamedRings, SessionKnown, EnvsOk;
    LogBringsNew(s.hist, r);
    assert BringsNew(s.log, r);
    FitsJoin(s.log, n, ViewIn(s.env, n), r);
    var a, h := Account(s.log, n), Account(s.hist, n);
    assert Linked(a, h, s.env(n), n);
    if r.Effect? {
      AccountRings(s.log, n);
      AccountRings(s.hist, n);
      forall x | x in r.e.intents ensures Judgeable(h, r.e.session, x)
      {
        assert Judgeable(a, r.e.session, x);
        var i :| i in a.rings && i.id == x && i.session == r.e.session;
        assert i in h.rings;
      }
    }
  }

  lemma CoversAppend(rings: seq<IntentRec>, i: IntentRec, rs: Str, id: Str)
    ensures Covers(rings + [i], rs, id) == Covers(rings, rs, id) + if i.session == rs && id in i.ids then 1 else 0
  {
    assert (rings + [i])[..|rings|] == rings;
  }

  /** Both accounts take the record's step, and stay linked. */
  lemma LinkedStep(a: Acct, h: Acct, e: AgentEnv, n: Str, r: Rec)
    requires AcctWf(a, n) && Linked(a, h, e, n) && EnvOk(e) && Fits(a, n, View(e.session, e.pending), r)
    requires r.Intent? ==> r.i.id !in h.judged
    ensures Linked(Step(a, r, n), Step(h, r, n), e, n)
  {
    var v := View(e.session, e.pending);
    StepWf(a, n, v, r);
    var b, g := Step(a, r, n), Step(h, r, n);
    if r.Intent? {
      forall rs, id ensures Covers(b.rings, rs, id) <= Covers(g.rings, rs, id) <= RE_RING_CAP
      {
        CoversAppend(a.rings, r.i, rs, id);
        CoversAppend(h.rings, r.i, rs, id);
      }
      forall id ensures (id in e.pending ==> Covers(b.rings, r.i.session, id) == Covers(g.rings, r.i.session, id)) &&
                        (id !in e.ever ==> Covers(g.rings, r.i.session, id) == 0)
      {
        CoversAppend(a.rings, r.i, r.i.session, id);
        CoversAppend(h.rings, r.i, r.i.session, id);
      }
    }
  }

  lemma ExtraAppend(h: seq<Rec>, n: Str, r: Rec)
    requires ExtraOnce(h, n)
    requires r.Intent? && r.i.agent == n && r.i.during ==> forall e :: e in Account(h, n).open && Matches(e, r.i) ==> !e.extra
    ensures ExtraOnce(h + [r], n)
  {
    var g := h + [r];
    forall m | 0 <= m < |g| && g[m].Intent? && g[m].i.agent == n && g[m].i.during
      ensures forall e :: e in Account(g[..m], n).open && Matches(e, g[m].i) ==> !e.extra
    {
      if m < |h| { assert g[..m] == h[..m] && g[m] == h[m]; } else { assert g[..m] == h; }
    }
  }

  lemma RingStaysBehind(s: State, n: Str, v: View, r: Rec)
    requires RingBehind(s.log) && WfLog(s.log) && Fits(Account(s.log, n), n, v, r)
    ensures RingBehind(s.log + [r])
  {
    var log := s.log;
    AccountRings(log, n);
    OpenAlone(log, n);
    var a := Account(log, n);
    if r.Effect? && r.e.intents != [] {
      assert Judgeable(a, r.e.session, r.e.intents[0]);
      var i :| i in a.rings && i.id == r.e.intents[0];
      assert Intent(i) in log + [r];
    } else if r.Effect? {
      assert r.e.left[0] in RungIds(a.rings, r.e.session);
      RungHasRing(log, n, r.e.session, r.e.left[0]);
    } else if r.Escalation? && r.x.isOpen {
      assert r.x.ids[0] in RungIds(a.rings, r.x.session);
      RungHasRing(log, n, r.x.session, r.x.ids[0]);
    } else if r.Escalation? {
      var e :| e in a.open && e.rec.id == r.x.id;
      assert Escalation(e.rec) in log && AgentOf(Escalation(e.rec)) == AgentOf(r);
    }
    forall t | t in log + [r] && (t.Effect? || t.Escalation?)
      ensures exists s :: s in log + [r] && s.Intent? && AgentOf(s) == AgentOf(t)
    {
      if t in log {
        var s :| s in log && s.Intent? && AgentOf(s) == AgentOf(t);
        assert s in log + [r];
      }
    }
  }

  lemma RungHasRing(log: seq<Rec>, n: Str, session: Str, id: Str)
    requires id in RungIds(Account(log, n).rings, session)
    ensures exists s :: s in log && s.Intent? && AgentOf(s) == Some(n)
  {
    RungIdsMembers(Account(log, n).rings, session);
    AccountRings(log, n);
    var i :| i in Account(log, n).rings && i.session == session && id in i.ids;
    assert Intent(i) in log && Intent(i).Intent?;
  }

  function Grown(s: State, r: Rec): State
  {
    State(s.hist + [r], s.log + [r], s.env)
  }

  lemma KnownAppend(s: State, n: Str, r: Rec)
    requires EnvsOk(s.env) && Fits(Account(s.log, n), n, ViewIn(s.env, n), r)
    requires (forall t :: t in s.log ==> t in s.hist) && (forall t :: t in s.hist ==> SessionKnown(t, s.env))
    ensures SessionKnown(r, s.env)
  {
    assert EnvOk(s.env(n));
    var a := Account(s.log, n);
    if r.Effect? && r.e.intents != [] {
      assert Judgeable(a, r.e.session, r.e.intents[0]);
      var i :| i in a.rings && i.id == r.e.intents[0] && i.session == r.e.session;
      AccountRings(s.log, n);
      assert SessionKnown(Intent(i), s.env);
    }
  }

  lemma AccountGrows(h: seq<Rec>, r: Rec, n: Str)
    ensures Account(h + [r], n) == Step(Account(h, n), r, n)
  {
    RunAppend(NOTHING, h, r, n);
  }

  lemma LinkedGrown(s: State, n: Str, r: Rec, m: Str)
    requires Inv(s) && Fits(Account(s.log, n), n, ViewIn(s.env, n), r)
    requires r.Intent? ==> NewId(s.hist, r.i.id)
    ensures Linked(Account(s.log + [r], m), Account(s.hist + [r], m), s.env(m), m)
  {
    hide WfLog, RingBehind, NamedRings, SessionKnown, ExtraOnce, Linked;
    AccountGrows(s.log, r, m);
    AccountGrows(s.hist, r, m);
    assert Linked(Account(s.log, m), Account(s.hist, m), s.env(m), m);
    if m == n {
      AcctIsWf(s, n);
      RingNotJudged(s.hist, n, r);
      LinkedStep(Account(s.log, n), Account(s.hist, n), s.env(n), n, r);
    }
  }

  lemma AcctIsWf(s: State, n: Str)
    requires Inv(s)
    ensures AcctWf(Account(s.log, n), n) && EnvOk(s.env(n))
  {
    assert Linked(Account(s.log, n), Account(s.hist, n), s.env(n), n);
    AccountWf(s.log, n);
  }

  lemma RingNotJudged(h: seq<Rec>, n: Str, r: Rec)
    requires r.Intent? ==> NewId(h, r.i.id)
    ensures r.Intent? ==> r.i.id !in Account(h, n).judged
  {
    AccountJudged(h, n);
  }

  lemma ExtraGrown(s: State, n: Str, r: Rec, m: Str)
    requires ExtraOnce(s.log, m) && Fits(Account(s.log, n), n, ViewIn(s.env, n), r)
    ensures ExtraOnce(s.log + [r], m)
  {
    ExtraAppend(s.log, m, r);
  }

  /** A record that fits, with a new id if it brings one, keeps the invariant. */
  lemma AppendKeeps(s: State, n: Str, r: Rec)
    requires Inv(s) && Fits(Account(s.log, n), n, ViewIn(s.env, n), r)
    requires (r.Intent? ==> NewId(s.hist, r.i.id)) && (r.Escalation? && r.x.isOpen ==> NewId(s.hist, r.x.id))
    ensures Inv(Grown(s, r))
  {
    HistJoins(s, n, r);
    JoinsKeepWf(s.log, n, r);
    JoinsKeepWf(s.hist, n, r);
    RingStaysBehind(s, n, ViewIn(s.env, n), r);
    KnownAppend(s, n, r);
    hide WfLog, RingBehind, SessionKnown, ExtraOnce, Linked, Fits, Joins;
    forall m ensures ExtraOnce(s.log + [r], m) { ExtraGrown(s, n, r, m); }
    forall m ensures Linked(Account(s.log + [r], m), Account(s.hist + [r], m), s.env(m), m) { LinkedGrown(s, n, r, m); }
  }

  // ---------------------------------------------------------------- every step keeps the invariant

  lemma NoteKeeps(s: State, r: Rec)
    requires Inv(s) && (r.Header? || r.Clock?)
    ensures Inv(Grown(s, r))
  {
    hide ExtraOnce, Linked;
    WfAppend(s.log, r);
    WfAppend(s.hist, r);
    forall m ensures ExtraOnce(s.log + [r], m) { ExtraAppend(s.log, m, r); }
    forall m ensures Linked(Account(s.log + [r], m), Account(s.hist + [r], m), s.env(m), m)
    {
      AccountGrows(s.log, r, m);
      AccountGrows(s.hist, r, m);
    }
    forall t | t in s.log + [r] && (t.Effect? || t.Escalation?)
      ensures exists u :: u in s.log + [r] && u.Intent? && AgentOf(u) == AgentOf(t)
    {
      var u :| u in s.log && u.Intent? && AgentOf(u) == AgentOf(t);
      assert u in s.log + [r];
    }
  }

  lemma {:induction false} CoversSubset(rings: seq<IntentRec>, kept: set<Str>, rs: Str, id: Str)
    ensures Covers(KeptRings(rings, kept), rs, id) <= Covers(rings, rs, id)
  {
    if rings != [] {
      CoversSubset(rings[..|rings| - 1], kept, rs, id);
      var p, i := KeptRings(rings[..|rings| - 1], kept), rings[|rings| - 1];
      assert (p + [i])[..|p|] == p;
    }
  }

  lemma {:induction false} PickExtraOnce(log: seq<Rec>, now: map<Str, View>, kept: set<Str>, m: nat, n: Str)
    requires m <= |log| && WfLog(log) && ExtraOnce(log, n) && NamedRings(log)
    requires forall r :: r in log && r.Intent? && r.i.id in KeepExtra(log) ==> r.i.id in kept
    ensures ExtraOnce(Pick(log, now, kept, m), n)
  {
    hide KeepAt, KeepExtra, WfLog, NamedRings;
    if m > 0 {
      PickExtraOnce(log, now, kept, m - 1, n);
      if KeepAt(log, now, kept, m - 1) {
        PickOpen(log, now, kept, m - 1, n);
        OnlyIdsMembers(Account(log[..m - 1], n).open, FinalOpen(log, n));
        ExtraAppend(Pick(log, now, kept, m - 1), n, log[m - 1]);
      }
    }
  }

  lemma ExtraRingsKept(log: seq<Rec>, now: map<Str, View>, at: StartAt)
    ensures forall r :: r in log && r.Intent? && r.i.id in KeepExtra(log) ==> r.i.id in KeptIds(log, now, at)
  {
    hide KeepExtra, CountsAtStart, LastIds, StillNeeded, JudgedAll;
  }

  lemma LinkedCompact(s: State, at: StartAt, n: Str)
    requires Inv(s)
    ensures Linked(Account(Compact(s.log, Snapshot(s.log, s.env), at), n), Account(s.hist, n), s.env(n), n)
  {
    var now, e := Snapshot(s.log, s.env), s.env(n);
    var kept := KeptIds(s.log, now, at);
    var a, b, h := Account(s.log, n), Account(Compact(s.log, now, at), n), Account(s.hist, n);
    assert Linked(a, h, e, n) && ExtraOnce(s.log, n);
    hide WfLog, ExtraOnce, NamedRings, RingBehind, SessionKnown, EnvsOk, KeptIds, OpenWf;
    CompactionKeeps(s.log, now, at, n);
    assert s.log[..|s.log|] == s.log;
    PickRings(s.log, now, kept, |s.log|, n);
    PickJudged(s.log, now, kept, |s.log|, n);
    KeptRingsMembers(a.rings, kept);
    hide Pick;
    forall rs, id ensures Covers(b.rings, rs, id) <= Covers(h.rings, rs, id) <= RE_RING_CAP { CoversSubset(a.rings, kept, rs, id); }
    if e.session.Some? { CompactCovers(s, at, n); }
  }

  lemma CompactCovers(s: State, at: StartAt, n: Str)
    requires Inv(s) && s.env(n).session.Some?
    ensures var rs := s.env(n).session.value;
            forall id :: id in s.env(n).pending ==>
              Covers(Account(Compact(s.log, Snapshot(s.log, s.env), at), n).rings, rs, id) == Covers(Account(s.log, n).rings, rs, id)
  {
    var now := Snapshot(s.log, s.env);
    hide WfLog, ExtraOnce, NamedRings, RingBehind, SessionKnown, EnvsOk, KeepAt, Linked;
    RingIsRead(s.log, s.env, n);
    if n in now {
      assert ExtraOnce(s.log, n);
      CompactionInvisible(s.log, now, at, n);
    } else {
      assert s.log[..|s.log|] == s.log;
      PickRings(s.log, now, KeptIds(s.log, now, at), |s.log|, n);
    }
  }

  lemma RingIsRead(log: seq<Rec>, env: Str -> AgentEnv, n: Str)
    ensures Account(log, n).rings != [] ==> n in Snapshot(log, env)
  {
    AccountRings(log, n);
    var rings := Account(log, n).rings;
    if rings != [] {
      assert rings[0] in rings && Intent(rings[0]) in log && Intent(rings[0]).Intent?;
    }
  }

  lemma CompactBehind(log: seq<Rec>, now: map<Str, View>, at: StartAt)
    requires RingBehind(log) && at.budget >= 1
    ensures RingBehind(Compact(log, now, at))
  {
    hide KeepAt;
    var c := Compact(log, now, at);
    PickMembers(log, now, KeptIds(log, now, at), |log|);
    forall r | r in c && (r.Effect? || r.Escalation?) ensures exists t :: t in c && t.Intent? && AgentOf(t) == AgentOf(r)
    {
      var n := AgentOf(r).value;
      var t :| t in log && t.Intent? && AgentOf(t) == AgentOf(r);
      assert t.i.agent == n;
      LastRingKept(log, now, at, n);
      var u :| u in c && u.Intent? && u.i.agent == n;
    }
  }

  lemma CompactKeeps(s: State, at: StartAt)
    requires Inv(s) && at.budget >= 1
    ensures Inv(State(s.hist, Compact(s.log, Snapshot(s.log, s.env), at), s.env))
  {
    var now := Snapshot(s.log, s.env);
    var kept := KeptIds(s.log, now, at);
    hide WfLog, ExtraOnce, RingBehind, SessionKnown, EnvsOk, KeepAt, Linked, KeptIds;
    PickWf(s.log, now, kept, |s.log|);
    PickMembers(s.log, now, kept, |s.log|);
    CompactBehind(s.log, now, at);
    ExtraRingsKept(s.log, now, at);
    forall n ensures ExtraOnce(Compact(s.log, now, at), n)
    {
      assert ExtraOnce(s.log, n);
      PickExtraOnce(s.log, now, kept, |s.log|, n);
    }
    forall n ensures Linked(Account(Compact(s.log, now, at), n), Account(s.hist, n), s.env(n), n) { LinkedCompact(s, at, n); }
  }

  lemma {:induction false} NoSuchSession(rings: seq<IntentRec>, rs: Str, id: Str)
    requires forall i :: i in rings ==> i.session != rs
    ensures Covers(rings, rs, id) == 0
  {
    if rings != [] {
      assert rings[|rings| - 1] in rings;
      NoSuchSession(rings[..|rings| - 1], rs, id);
    }
  }

  lemma LinkedMoves(s: State, f: Str -> AgentEnv, n: Str)
    requires Inv(s) && EnvMoves(s.env(n), f(n))
    ensures Linked(Account(s.log, n), Account(s.hist, n), f(n), n)
  {
    hide WfLog, ExtraOnce, RingBehind, NamedRings, OpenWf;
    var a, h := Account(s.log, n), Account(s.hist, n);
    assert Linked(a, h, s.env(n), n);
    if f(n).session.Some? && f(n).session != s.env(n).session {
      var rs := f(n).session.value;
      AccountRings(s.hist, n);
      forall i | i in h.rings ensures i.session != rs { assert SessionKnown(Intent(i), s.env); }
      forall id ensures Covers(h.rings, rs, id) == 0 { NoSuchSession(h.rings, rs, id); }
    }
  }

  lemma WorldKeeps(s: State, t: State)
    requires Inv(s) && WorldStep(s, t)
    ensures Inv(t)
  {
    hide WfLog, ExtraOnce, RingBehind, NamedRings, Linked, EnvsOk;
    forall r | r in t.hist ensures SessionKnown(r, t.env)
    {
      assert SessionKnown(r, s.env);
      if r.Intent? { assert EnvMoves(s.env(r.i.agent), t.env(r.i.agent)); }
      if r.Effect? { assert EnvMoves(s.env(r.e.agent), t.env(r.e.agent)); }
    }
    forall n ensures Linked(Account(t.log, n), Account(t.hist, n), t.env(n), n) { LinkedMoves(s, t.env, n); }
    assert EnvsOk(t.env);
  }

  lemma {:induction false} BoardAgent(h: seq<Rec>)
    ensures forall n :: n in Replay(h).boardOpen ==> Replay(h).boardOpen[n].agent == n
  {
    if h != [] { BoardAgent(h[..|h| - 1]); }
  }

  /** In a reachable state, whatever a cycle reads, its inputs agree with its log. */
  lemma ReachableReady(s: State, inp: Input)
    requires Inv(s) && Reads(s, inp)
    ensures ReadyCycle(inp)
  {
    hide WfLog, ExtraOnce, RingBehind, NamedRings, EnvsOk, Linked, Replay, AcctWf;
    BoardAgent(s.log);
    ReplayRung(s.log);
    forall n | n in inp.inbox ensures Ready(inp, n, 0)
    {
      var a := Account(s.log, n);
      AcctIsWf(s, n);
      AccountRings(s.log, n);
      OpenAlone(s.log, n);
      forall i, id | i in a.rings && id in i.ids ensures (i.session, id) in inp.rung
      {
        assert Intent(i) in s.log && Intent(i).Intent?;
      }
      forall j: nat | j >= 0 ensures Unused(a, inp.uid(j))
      {
        assert NewId(s.hist, inp.uid(j));
        forall r | r in a.rings ensures r.id != inp.uid(j) { assert Intent(r) in s.hist; }
        forall k | 0 <= k < |a.open| ensures a.open[k].rec.id != inp.uid(j)
        {
          assert a.open[k] in a.open && Escalation(a.open[k].rec) in s.hist;
        }
      }
    }
  }

  function After(s: State, recs: seq<Rec>): State
  {
    State(s.hist + recs, s.log + recs, s.env)
  }

  ghost predicate NewFrom(hist: seq<Rec>, uid: nat -> Str, k: nat)
  {
    forall j: nat :: j >= k ==> NewId(hist, uid(j))
  }

  lemma NewAfter(s: State, n: Str, r: Rec, uid: nat -> Str, k: nat)
    requires Inv(s) && Fits(Account(s.log, n), n, ViewIn(s.env, n), r) && Supply(uid) && NewFrom(s.hist, uid, k)
    requires (r.Intent? ==> r.i.id == uid(k)) && (r.Escalation? && r.x.isOpen ==> r.x.id == uid(k))
    ensures NewFrom(s.hist + [r], uid, k + 1)
  {
    hide WfLog, ExtraOnce, RingBehind, NamedRings, EnvsOk, Linked, Fits, NewId;
    forall j: nat | j >= k + 1 ensures NewId(s.hist + [r], uid(j))
    {
      assert NewId(s.hist, uid(j)) && uid(j) != uid(k);
      StillNew(s.hist, s.log, n, ViewIn(s.env, n), r, uid(j));
    }
  }

  /** Each record of a plan fits the log made of what precedes it, and brings the id drawn for its place. */
  lemma PlanRecord(s: State, inp: Input, k: nat)
    requires Inv(s) && Reads(s, inp) && k < |Plan(inp)|
    ensures FitsLog(inp, After(s, Plan(inp)[..k]).log, Plan(inp)[k]) && IdsFrom(Plan(inp), inp.uid, 0)
  {
    hide Inv, Plan, FitsLog, AllFitLog, ReadyCycle, NewId, IdsFrom;
    ReachableReady(s, inp);
    PlanFits(inp);
    AllFitLogAt(inp, inp.log, Plan(inp), k);
    PlanIds(inp);
  }

  lemma {:induction false} PrefixKeeps(s: State, inp: Input, k: nat)
    requires Inv(s) && Reads(s, inp) && k <= |Plan(inp)|
    ensures Inv(After(s, Plan(inp)[..k])) && NewFrom(After(s, Plan(inp)[..k]).hist, inp.uid, k)
    decreases k
  {
    hide Inv, Plan, FitsLog, AllFitLog, ReadyCycle, NewId, IdsFrom;
    var recs := Plan(inp);
    if k == 0 {
      assert recs[..0] == [];
      assert After(s, []) == s;
    } else {
      PrefixKeeps(s, inp, k - 1);
      var t, r := After(s, recs[..k - 1]), recs[k - 1];
      PlanRecord(s, inp, k - 1);
      NextRecord(s, inp, t, r, k - 1);
      assert recs[..k] == recs[..k - 1] + [r];
      assert s.log + recs[..k] == t.log + [r] && s.hist + recs[..k] == t.hist + [r];
    }
  }

  lemma NextRecord(s: State, inp: Input, t: State, r: Rec, k: nat)
    requires Inv(t) && t.env == s.env && Reads(s, inp) && k < |Plan(inp)| && r == Plan(inp)[k]
    requires FitsLog(inp, t.log, r) && IdsFrom(Plan(inp), inp.uid, 0) && NewFrom(t.hist, inp.uid, k)
    ensures Inv(Grown(t, r)) && NewFrom(t.hist + [r], inp.uid, k + 1)
  {
    hide Inv, Plan, NewId, NewFrom, Fits;
    var n := AgentOf(r).value;
    assert ViewOf(inp.inbox[n]) == ViewIn(t.env, n);
    assert inp.uid(0 + k) == inp.uid(k);
    NextFits(t, n, r, inp.uid, k);
  }

  lemma NextFits(t: State, n: Str, r: Rec, uid: nat -> Str, k: nat)
    requires Inv(t) && Fits(Account(t.log, n), n, ViewIn(t.env, n), r) && Supply(uid) && NewFrom(t.hist, uid, k)
    requires (r.Intent? ==> r.i.id == uid(k)) && (r.Escalation? && r.x.isOpen ==> r.x.id == uid(k))
    ensures Inv(Grown(t, r)) && NewFrom(t.hist + [r], uid, k + 1)
  {
    hide Inv, NewId, Fits, Account;
    assert NewId(t.hist, uid(k));
    AppendKeeps(t, n, r);
    NewAfter(t, n, r, uid, k);
  }

  lemma StepKeeps(s: State, t: State)
    requires Inv(s) && Next(s, t)
    ensures Inv(t)
  {
    hide Inv, Plan, Compact, Reads, EnvStep;
    if WorldStep(s, t) {
      WorldKeeps(s, t);
    } else if CycleStep(s, t) {
      var inp: Input, k: nat :| Reads(s, inp) && k <= |Plan(inp)| &&
        t.log == s.log + Plan(inp)[..k] && t.hist == s.hist + Plan(inp)[..k];
      PrefixKeeps(s, inp, k);
      assert t == After(s, Plan(inp)[..k]);
    } else if NoteStep(s, t) {
      var r: Rec :| (r.Header? || r.Clock?) && t.log == s.log + [r] && t.hist == s.hist + [r];
      NoteKeeps(s, r);
      assert t == Grown(s, r);
    } else {
      var at: StartAt :| at.budget >= 1 && t.log == Compact(s.log, Snapshot(s.log, s.env), at);
      CompactKeeps(s, at);
    }
  }

  lemma InitialInv(s: State)
    requires Initial(s)
    ensures Inv(s)
  {
  }

  // ---------------------------------------------------------------- the theorems

  /** A run: any interleaving of world changes, cycles whole or cut short, notes and compactions. */
  ghost predicate IsRun(run: seq<State>)
  {
    run != [] && Initial(run[0]) && forall k :: 0 <= k < |run| - 1 ==> Next(run[k], run[k + 1])
  }

  lemma {:induction false} RunInv(run: seq<State>, k: nat)
    requires IsRun(run) && k < |run|
    ensures Inv(run[k])
    decreases k
  {
    hide Inv, Next, Initial;
    if k == 0 {
      InitialInv(run[0]);
    } else {
      RunInv(run, k - 1);
      assert Next(run[k - 1], run[k - 1 + 1]);
      StepKeeps(run[k - 1], run[k]);
    }
  }

  /** No ring is named by two effect records, nor twice by one. */
  predicate JudgedOnce(hist: seq<Rec>)
  {
    (forall j, k, x :: 0 <= j < k < |hist| && hist[j].Effect? && hist[k].Effect? && x in hist[j].e.intents ==> x !in hist[k].e.intents) &&
    (forall j :: 0 <= j < |hist| && hist[j].Effect? ==>
      forall p, q :: 0 <= p < q < |hist[j].e.intents| ==> hist[j].e.intents[p] != hist[j].e.intents[q])
  }

  /** How many intents ever written cover (session, id) for this agent. */
  function RingsEver(hist: seq<Rec>, n: Str, session: Str, id: Str): nat
  {
    if hist == [] then 0
    else
      var r := hist[|hist| - 1];
      RingsEver(hist[..|hist| - 1], n, session, id) +
      if r.Intent? && r.i.agent == n && r.i.session == session && id in r.i.ids then 1 else 0
  }

  lemma {:induction false} RingsEverCovers(hist: seq<Rec>, n: Str, session: Str, id: Str)
    ensures RingsEver(hist, n, session, id) == Covers(Account(hist, n).rings, session, id)
  {
    if hist != [] {
      RingsEverCovers(hist[..|hist| - 1], n, session, id);
      var a, r := Account(hist[..|hist| - 1], n), hist[|hist| - 1];
      if r.Intent? { CoversAppend(a.rings, r.i, session, id); }
    }
  }

  /** Of two records with one escalation id, the first opens it and the second closes it: so there is no third. */
  predicate OpenedAndClosedOnce(hist: seq<Rec>)
  {
    forall j, k :: 0 <= j < k < |hist| && hist[j].Escalation? && hist[k].Escalation? && hist[j].x.id == hist[k].x.id ==>
      hist[j].x.isOpen && !hist[k].x.isOpen
  }

  /**
    * Over every run, whatever crashes, restarts and compactions it has: each ring is judged at most once,
    * no (session, id) is rung more than RE_RING_CAP times, and an escalation opens once and closes at most
    * once.
    */
  lemma RunSafety(run: seq<State>, k: nat)
    requires IsRun(run) && k < |run|
    ensures JudgedOnce(run[k].hist)
    ensures forall n, session, id :: RingsEver(run[k].hist, n, session, id) <= RE_RING_CAP
    ensures OpenedAndClosedOnce(run[k].hist)
  {
    hide IsRun, ExtraOnce, NamedRings, RingBehind, SessionKnown, EnvsOk, Account;
    RunInv(run, k);
    var h := run[k].hist;
    forall j | 0 <= j < |h| && h[j].Effect?
      ensures forall p, q :: 0 <= p < q < |h[j].e.intents| ==> h[j].e.intents[p] != h[j].e.intents[q]
    {
      assert UnitOk(h[j]);
      AscendingDistinct(h[j].e.intents);
    }
    forall i, j | 0 <= i < j < |h| ensures PairOk(h[i], h[j]) { PairAt(h, i, j); }
    hide WfLog;
    forall n, session, id ensures RingsEver(h, n, session, id) <= RE_RING_CAP
    {
      assert Linked(Account(run[k].log, n), Account(h, n), run[k].env(n), n);
      RingsEverCovers(h, n, session, id);
    }
  }

  /**
    * A compaction in any reachable state is invisible: after the world has moved on, the next cycle plans
    * from the compacted log exactly what it would have planned from the full one.
    */
  lemma ReachableCompaction(s: State, at: StartAt, f: Str -> AgentEnv, inp: Input)
    requires Inv(s) && at.budget >= 1 && EnvStep(s.env, f)
    requires Reads(State(s.hist, s.log, f), inp)
    ensures Plan(inp) == Plan(Compacted(inp, Snapshot(s.log, s.env), at))
  {
    hide Plan, Compact, Linked;
    var now := Snapshot(s.log, s.env);
    forall n | n in inp.inbox ensures Compactable(inp, now, n, inp.inbox[n]) { ReachableCompactable(s, f, inp, n); }
    NextPlanSame(inp, now, at);
  }

  lemma ReachableCompactable(s: State, f: Str -> AgentEnv, inp: Input, n: Str)
    requires Inv(s) && EnvStep(s.env, f) && Reads(State(s.hist, s.log, f), inp) && n in inp.inbox
    ensures Compactable(inp, Snapshot(s.log, s.env), n, inp.inbox[n])
  {
    hide WfLog, RingBehind, NamedRings, ExtraOnce, Replay;
    assert ExtraOnce(s.log, n) && EnvMoves(s.env(n), f(n));
    var read := inp.inbox[n];
    assert ViewOf(read) == ViewIn(f, n);
    if read.session.Some? {
      var rs := read.session.value;
      SessionIsOwn(s, f, n, rs);
      ReadFollowsMove(s, f, n, read);
    }
  }

  lemma SessionIsOwn(s: State, f: Str -> AgentEnv, n: Str, rs: Str)
    requires Inv(s) && EnvStep(s.env, f) && f(n).session == Some(rs)
    ensures forall r :: r in s.log && r.Intent? && r.i.session == rs ==> r.i.agent == n
  {
    hide WfLog, RingBehind, NamedRings, ExtraOnce, Linked;
    assert EnvOk(f(n));
    forall r | r in s.log && r.Intent? && r.i.session == rs ensures r.i.agent == n
    {
      assert SessionKnown(r, s.env) && EnvMoves(s.env(r.i.agent), f(r.i.agent));
      assert rs in f(n).seen && rs in f(r.i.agent).seen;
    }
  }

  lemma ReadFollowsMove(s: State, f: Str -> AgentEnv, n: Str, read: PendingRead)
    requires Inv(s) && EnvStep(s.env, f) && ViewOf(read) == ViewIn(f, n) && read.session.Some?
    ensures ReadFollows(s.log, Snapshot(s.log, s.env), n, read)
  {
    hide WfLog, RingBehind, NamedRings, ExtraOnce, OpenWf;
    var rs, e := read.session.value, s.env(n);
    assert EnvMoves(e, f(n));
    if e.session == Some(rs) {
      RingIsRead(s.log, s.env, n);
      var a := Account(s.log, n);
      assert Linked(a, Account(s.hist, n), e, n);
      forall id | id in Elems(read.ids) * RungIds(a.rings, rs) ensures id in e.pending
      {
        CoveredOnce(a.rings, rs, id);
        assert id !in e.ever ==> Covers(Account(s.hist, n).rings, rs, id) == 0;
      }
      if a.rings == [] {
        SameSessionQuiet(s, n, rs);
      }
    } else {
      forall r | r in s.log ensures !(r.Intent? && r.i.agent == n && r.i.session == rs) && !(r.Effect? && r.e.agent == n && r.e.session == rs)
      {
        assert SessionKnown(r, s.env);
      }
    }
  }

  lemma {:induction false} CoveredOnce(rings: seq<IntentRec>, rs: Str, id: Str)
    requires id in RungIds(rings, rs)
    ensures Covers(rings, rs, id) >= 1
  {
    var i := rings[|rings| - 1];
    if !(i.session == rs && id in i.ids) { CoveredOnce(rings[..|rings| - 1], rs, id); }
  }

  lemma RungEver(rings: seq<IntentRec>, rs: Str, ever: set<Str>)
    requires forall id :: id !in ever ==> Covers(rings, rs, id) == 0
    ensures forall id :: id in RungIds(rings, rs) ==> id in ever
  {
    forall id | id in RungIds(rings, rs) ensures id in ever { CoveredOnce(rings, rs, id); }
  }

  lemma RingInAccount(log: seq<Rec>, n: Str, r: Rec)
    requires r in log && r.Intent? && r.i.agent == n
    ensures Account(log, n).rings != []
  {
    AccountRings(log, n);
    assert r.i in Account(log, n).rings;
  }

  /** An agent with no ring in the log has no effect record in it either. */
  lemma SameSessionQuiet(s: State, n: Str, rs: Str)
    requires RingBehind(s.log) && Account(s.log, n).rings == []
    ensures NewSession(s.log, n, rs)
  {
    forall r | r in s.log ensures !(r.Intent? && r.i.agent == n) && !(r.Effect? && r.e.agent == n)
    {
      if r.Intent? && r.i.agent == n {
        RingInAccount(s.log, n, r);
      } else if r.Effect? && r.e.agent == n {
        var t :| t in s.log && t.Intent? && AgentOf(t) == AgentOf(r);
        RingInAccount(s.log, n, t);
      }
    }
  }

  // ---------------------------------------------------------------- judgements in reachable states

  lemma {:induction false} AllFitKeeps(s: State, n: Str, recs: seq<Rec>, uid: nat -> Str, k: nat)
    requires Inv(s) && AllFit(Account(s.log, n), n, ViewIn(s.env, n), recs)
    requires IdsFrom(recs, uid, k) && Supply(uid) && NewFrom(s.hist, uid, k)
    ensures Inv(After(s, recs)) && NewFrom(s.hist + recs, uid, k + |recs|)
    decreases |recs|
  {
    hide Inv, Fits, NewId, Run, NewFrom, Supply;
    if recs == [] {
      assert After(s, recs) == s && s.hist + recs == s.hist;
    } else {
      var p, r := recs[..|recs| - 1], recs[|recs| - 1];
      AllFitKeeps(s, n, p, uid, k);
      RunConcat(NOTHING, s.log, p, n);
      NextFits(After(s, p), n, r, uid, k + |p|);
      assert s.log + recs == (s.log + p) + [r] && s.hist + recs == (s.hist + p) + [r];
    }
  }

  /**
    * In every reachable state, a judgement leaves the agent's escalations reconciled, calls an agent unresponsive
    * once ESCALATE_AFTER rings without progress are past the horizon, and opens `id_stuck` for an id only if the
    * session made recorded progress after a ring for it.
    */
  lemma ReachableJudgement(s: State, inp: Input, n: Str, k: nat)
    requires Inv(s) && Reads(s, inp) && n in inp.inbox && inp.inbox[n].session.Some?
    ensures var read := inp.inbox[n];
            var h := s.log + JudgeOf(inp, n, read, k);
            var rs, p := read.session.value, Elems(read.ids);
            Reconciled(Account(h, n), rs, p) &&
            (forall id :: Overrun(inp, n, rs, p, id) && NoProgressSince(h, n, rs, id) ==> HasUnresponsive(Account(h, n), rs)) &&
            forall id :: id in AtCap(inp.c, LedgerAfter(inp, n, rs, p, k), p, Unrung(rs, p, inp.rung)) ==> !NoProgressSince(h, n, rs, Some(id))
  {
    hide Inv, Reads, Reconciled, NoProgressSince, AtCap, LedgerAfter, Ready, AllFit, HasUnresponsive, Overrun;
    var read := inp.inbox[n];
    var rs, p := read.session.value, Elems(read.ids);
    ReadyNow(s, inp, n, k);
    JudgedIsReconciled(inp, n, read, k);
    NeverMootNow(s, inp, n, k);
    forall id | Overrun(inp, n, rs, p, id) && NoProgressSince(s.log + JudgeOf(inp, n, read, k), n, rs, id)
      ensures HasUnresponsive(Account(s.log + JudgeOf(inp, n, read, k), n), rs)
    {
      OverrunParts(inp, n, rs, p, id);
      DeafIsUnresponsive(inp, n, read, k, id);
    }
    forall id | id in AtCap(inp.c, LedgerAfter(inp, n, rs, p, k), p, Unrung(rs, p, inp.rung))
      ensures !NoProgressSince(s.log + JudgeOf(inp, n, read, k), n, rs, Some(id))
    {
      StuckMeansProgress(inp, n, read, k, id);
    }
  }

  /** Some rung id is pending, and ESCALATE_AFTER rings, for one id or all of the session, are past the horizon. */
  predicate Overrun(inp: Input, n: Str, rs: Str, pending: set<Str>, id: Option<Str>)
  {
    var rings := Account(inp.log, n).rings;
    RungIds(rings, rs) * pending != {} && DueFor(inp.c, rings, inp.mono, rs, id) >= ESCALATE_AFTER
  }

  lemma OverrunParts(inp: Input, n: Str, rs: Str, pending: set<Str>, id: Option<Str>)
    requires Overrun(inp, n, rs, pending, id)
    ensures RungIds(Account(inp.log, n).rings, rs) * pending != {}
    ensures DueFor(inp.c, Account(inp.log, n).rings, inp.mono, rs, id) >= ESCALATE_AFTER
  {
  }

  lemma ReadyNow(s: State, inp: Input, n: Str, k: nat)
    requires Inv(s) && Reads(s, inp) && n in inp.inbox
    ensures Ready(inp, n, k) && inp.log == s.log && NewFrom(s.hist, inp.uid, k) && Supply(inp.uid)
    ensures ViewOf(inp.inbox[n]) == ViewIn(s.env, n)
  {
    hide Inv, Ready, NewId;
    ReachableReady(s, inp);
    ReadyCycleAt(inp, n, k);
  }

  lemma NeverMootNow(s: State, inp: Input, n: Str, k: nat)
    requires Inv(s) && Reads(s, inp) && n in inp.inbox && inp.inbox[n].session.Some?
    ensures var h := inp.log + JudgeOf(inp, n, inp.inbox[n], k);
            WfLog(h) && NeverMoot(h, n, inp.inbox[n].session.value)
  {
    hide Reads, Ready, AllFit, IdsFrom, WfLog, Linked, ExtraOnce, RingBehind, NamedRings, EnvsOk;
    var recs := JudgeOf(inp, n, inp.inbox[n], k);
    ReadyNow(s, inp, n, k);
    JudgeOfFits(inp, n, inp.inbox[n], k);
    JudgeIds(inp, n, inp.inbox[n], k);
    AllFitKeeps(s, n, recs, inp.uid, k);
    forall r | r in s.log + recs ensures SessionKnown(r, s.env) { assert r in After(s, recs).hist; }
  }
}
