/** Exactly what a judgement writes. */
module DoorbellJudged {
  // Each kind of record, told of the agent's account and its read: which rings are moot, effective or ineffective,
  // which escalations close, and when one opens and on which ids.

  import opened Canon
  import opened DoorbellLog
  import opened DoorbellLedger
  import opened DoorbellPlan
  import opened DoorbellAdmit
  import opened DoorbellJudge
  import opened DoorbellSettle
  import opened DoorbellCoherence
  import opened DoorbellAgent
  import opened DoorbellBudget
  import opened Wrappers

  // ---------------------------------------------------------------- what is judged

  /** A ring of the session that no effect names yet. */
  predicate OpenRing(a: Acct, session: Str, i: IntentRec)
  {
    i in a.rings && i.session == session && i.id !in a.judged
  }

  ghost predicate Rung(a: Acct, session: Str, id: Str)
  {
    exists i :: i in a.rings && i.session == session && id in i.ids
  }

  /** A rung id that has left the pending set, not recorded as left before. */
  ghost predicate GoneNow(a: Acct, session: Str, pending: set<Str>, id: Str)
  {
    Rung(a, session, id) && (session, id) !in a.left && id !in pending
  }

  ghost predicate Progressing(a: Acct, session: Str, pending: set<Str>)
  {
    exists id :: GoneNow(a, session, pending, id)
  }

  /** It rang the whole horizon ago, or longer. */
  predicate Late(c: Config, mono: map<Str, int>, i: IntentRec)
  {
    c.now - MonoOf(mono, i.id) as real >= c.horizonMs as real
  }

  /** The rings of the session judged ineffective, when nothing has left. */
  function Missed(c: Config, a: Acct, session: Str, mono: map<Str, int>): set<Str>
  {
    set i | i in a.rings && OpenRing(a, session, i) && Late(c, mono, i) :: i.id
  }

  /** Rings missed in a row, with those of this judgement. */
  ghost function CounterAfter(c: Config, a: Acct, session: Str, mono: map<Str, int>, pending: set<Str>): nat
  {
    if Progressing(a, session, pending) then 0 else Streak(a, session) + |Missed(c, a, session, mono)|
  }

  /** An id of its episode, or the stuck id, has left. */
  ghost predicate EpisodeGone(e: OpenEsc, session: Str, pending: set<Str>)
  {
    e.rec.session == session &&
    ((e.rec.reason == Unresponsive && exists id :: id in e.episode && id !in pending) ||
     (e.rec.reason == IdStuck && e.rec.ids != [] && e.rec.ids[0] !in pending))
  }

  /** An escalation of the session stays open. */
  ghost predicate StaysEscalated(a: Acct, session: Str, pending: set<Str>)
  {
    exists e :: e in a.open && e.rec.session == session && e.rec.reason == Unresponsive && e.episode <= pending
  }

  /** All of `s` in order, or the first ten thousand of it. */
  ghost predicate FirstNamed(ids: seq<Str>, s: set<Str>)
  {
    Ascending(ids) && Elems(ids) <= s &&
    if |s| <= 10_000 then Elems(ids) == s
    else |ids| == 10_000 && forall x, y :: x in ids && y in s && y !in ids ==> Less(x, y)
  }

  ghost predicate Witnessed(a: Acct, session: Str, pending: set<Str>, ids: seq<Str>)
  {
    FirstNamed(ids, set id | id in pending && Rung(a, session, id))
  }

  // ---------------------------------------------------------------- the records

  /** Moot: rings of one other session. */
  ghost predicate IsMoot(c: Config, n: Str, a: Acct, session: Str, e: EffectRec)
  {
    e.at == c.at && e.agent == n && e.outcome == SessionChanged && e.session != session && e.left == [] && 1 <= |e.intents| <= 10_000 &&
    forall x :: x in e.intents ==> exists i :: OpenRing(a, e.session, i) && i.id == x
  }

  /** Effective: rings of this session, and ids that left. */
  ghost predicate IsProgress(c: Config, n: Str, a: Acct, session: Str, pending: set<Str>, e: EffectRec)
  {
    e.at == c.at && e.agent == n && e.outcome == Effective && e.session == session && |e.intents| <= 10_000 && |e.left| <= 10_000 &&
    (forall x :: x in e.intents ==> exists i :: OpenRing(a, session, i) && i.id == x) &&
    (forall id :: id in e.left ==> GoneNow(a, session, pending, id))
  }

  /** Ineffective: one ring missed. */
  predicate IsMiss(c: Config, n: Str, a: Acct, session: Str, mono: map<Str, int>, e: EffectRec)
  {
    e.at == c.at && e.agent == n && e.outcome == Ineffective && e.session == session && e.left == [] &&
    e.intents != [] && e.intents == [e.intents[0]] && e.intents[0] in Missed(c, a, session, mono)
  }

  predicate IsClose(c: Config, x: EscRec, why: CloseWhy, y: EscRec)
  {
    y.at == c.at && y.id == x.id && y.agent == x.agent && y.session == x.session && y.reason == x.reason && !y.isOpen &&
    Ascending(y.ids) && Elems(y.ids) == Elems(x.ids) && y.operator == c.operator && y.close == Some(why)
  }

  predicate IsOpening(c: Config, n: Str, session: Str, reason: Reason, x: EscRec)
  {
    x.at == c.at && x.agent == n && x.session == session && x.reason == reason && x.isOpen && x.operator == c.operator && x.close == None
  }

  /** One of these records carries `x`. */
  ghost predicate Carries(recs: seq<Rec>, outcome: Outcome, session: Str, x: Str)
  {
    exists e :: Effect(e) in recs && e.outcome == outcome && e.session == session && x in e.intents
  }

  ghost predicate Leaves(recs: seq<Rec>, outcome: Outcome, id: Str)
  {
    exists e :: Effect(e) in recs && e.outcome == outcome && id in e.left
  }

  /** The effects of a judgement. */
  ghost predicate EffectsSay(c: Config, n: Str, a: Acct, session: Str, mono: map<Str, int>, pending: set<Str>, recs: seq<Rec>)
  {
    (forall e :: Effect(e) in recs ==>
      (e.outcome == SessionChanged ==> IsMoot(c, n, a, session, e)) &&
      (e.outcome == Effective ==> Progressing(a, session, pending) && IsProgress(c, n, a, session, pending, e))) &&
    (forall e :: Effect(e) in recs && e.outcome == Ineffective <==> !Progressing(a, session, pending) && IsMiss(c, n, a, session, mono, e)) &&
    (forall i :: i in a.rings && OpenRing(a, i.session, i) && i.session != session ==> Carries(recs, SessionChanged, i.session, i.id)) &&
    (Progressing(a, session, pending) ==>
      (forall i :: i in a.rings && OpenRing(a, session, i) ==> Carries(recs, Effective, session, i.id)) &&
      (forall id :: GoneNow(a, session, pending, id) ==> Leaves(recs, Effective, id)))
  }

  /** The escalations it closes: of other sessions all, of this one those whose episode or id has left. */
  ghost predicate ClosesSay(c: Config, a: Acct, session: Str, pending: set<Str>, recs: seq<Rec>)
  {
    forall y :: Escalation(y) in recs && !y.isOpen <==>
      exists e :: e in a.open && if e.rec.session != session then IsClose(c, e.rec, Moved, y) else EpisodeGone(e, session, pending) && IsClose(c, e.rec, Progress, y)
  }

  /** The one it opens: three rings missed in a row, none open that stays, and a rung id still pending. */
  ghost predicate OpensSay(c: Config, n: Str, a: Acct, session: Str, mono: map<Str, int>, pending: set<Str>, recs: seq<Rec>)
  {
    ((exists x :: Escalation(x) in recs && x.isOpen) <==>
      CounterAfter(c, a, session, mono, pending) >= 3 && !StaysEscalated(a, session, pending) && exists id :: id in pending && Rung(a, session, id)) &&
    (forall x :: Escalation(x) in recs && x.isOpen ==> IsOpening(c, n, session, Unresponsive, x) && Witnessed(a, session, pending, x.ids)) &&
    (forall x, y :: Escalation(x) in recs && x.isOpen && Escalation(y) in recs && y.isOpen ==> x == y)
  }

  // ---------------------------------------------------------------- effects in chunks

  predicate ChunkOk(c: Config, n: Str, session: Str, outcome: Outcome, ii: seq<Str>, ll: seq<Str>, r: Rec)
  {
    r.Effect? && r.e.at == c.at && r.e.agent == n && r.e.session == session && r.e.outcome == outcome && |r.e.intents| <= MAX_IDS && |r.e.left| <= MAX_IDS &&
    (forall x :: x in r.e.intents ==> x in ii) && (forall id :: id in r.e.left ==> id in ll) && (r.e.intents != [] || r.e.left != [])
  }

  lemma {:induction false} ChunksHold(c: Config, n: Str, session: Str, outcome: Outcome, ii: seq<Str>, ll: seq<Str>)
    requires ii != [] || ll != []
    ensures forall r :: r in EffectRecs(c, n, session, outcome, ii, ll) ==> ChunkOk(c, n, session, outcome, ii, ll, r)
    decreases |ii| + |ll|
  {
    if |ii| > MAX_IDS || |ll| > MAX_IDS {
      var p, q := Min(MAX_IDS, |ii|), Min(MAX_IDS, |ll|);
      ChunksHold(c, n, session, outcome, ii[p..], ll[q..]);
    }
  }

  lemma {:induction false} ChunksCarry(c: Config, n: Str, session: Str, outcome: Outcome, ii: seq<Str>, ll: seq<Str>, x: Str)
    ensures x in ii ==> Carries(EffectRecs(c, n, session, outcome, ii, ll), outcome, session, x)
    ensures x in ll ==> Leaves(EffectRecs(c, n, session, outcome, ii, ll), outcome, x)
    decreases |ii| + |ll|
  {
    var recs := EffectRecs(c, n, session, outcome, ii, ll);
    if |ii| <= MAX_IDS && |ll| <= MAX_IDS {
      assert recs[0] in recs;
    } else {
      var p, q := Min(MAX_IDS, |ii|), Min(MAX_IDS, |ll|);
      var rest := EffectRecs(c, n, session, outcome, ii[p..], ll[q..]);
      assert recs[0] in recs && forall r :: r in rest ==> r in recs;
      ChunksCarry(c, n, session, outcome, ii[p..], ll[q..], x);
      assert ii == ii[..p] + ii[p..] && ll == ll[..q] + ll[q..];
      hide EffectRecs;
      CarriesMore(recs, rest, outcome, session, x);
    }
  }

  lemma CarriesMore(recs: seq<Rec>, part: seq<Rec>, outcome: Outcome, session: Str, x: Str)
    requires forall r :: r in part ==> r in recs
    ensures Carries(part, outcome, session, x) ==> Carries(recs, outcome, session, x)
    ensures Leaves(part, outcome, x) ==> Leaves(recs, outcome, x)
  {
  }

  // ---------------------------------------------------------------- the parts of a judgement

  lemma {:induction false} CloseAllMembers(c: Config, xs: seq<EscRec>, why: CloseWhy)
    ensures forall r :: r in CloseAll(c, xs, why) <==> exists x :: x in xs && r == CloseOf(c, x, why)
  {
    hide CloseOf;
    if xs != [] {
      CloseAllMembers(c, xs[..|xs| - 1], why);
      assert xs == xs[..|xs| - 1] + [xs[|xs| - 1]];
    }
  }

  lemma {:induction false} MissesMembers(c: Config, n: Str, session: Str, rs: seq<Ring>)
    ensures forall r :: r in IneffectiveRecs(c, n, session, rs) ==> r.Effect?
    ensures forall e :: Effect(e) in IneffectiveRecs(c, n, session, rs) <==>
              e.intents != [] && e.intents[0] in RingIds(rs) && e == EffectRec(c.at, n, session, Ineffective, [e.intents[0]], [])
  {
    if rs == [] {
      assert RingIds(rs) == {};
    } else {
      var p, x := rs[..|rs| - 1], rs[|rs| - 1];
      MissesMembers(c, n, session, p);
      assert rs == p + [x];
      assert RingIds(rs) == RingIds(p) + {x.id};
      hide RingIds;
    }
  }

  /** A record of the rescue's effects. */
  ghost predicate MootOk(c: Config, n: Str, u: seq<IntentRec>, sessions: seq<Str>, r: Rec)
  {
    r.Effect? && r.e.at == c.at && r.e.agent == n && r.e.outcome == SessionChanged && r.e.session in sessions && r.e.left == [] &&
    1 <= |r.e.intents| <= MAX_IDS && forall x :: x in r.e.intents ==> exists i :: i in u && i.session == r.e.session && i.id == x
  }

  lemma MootIdsIn(u: seq<IntentRec>, s: Str)
    ensures forall x :: x in SortedSet(IdsOfRings(OfSession(u, s))) <==> exists i :: i in u && i.session == s && i.id == x
  {
    OfSessionMembers(u, s);
    hide OfSession;
  }

  lemma FirstIn(s: seq<Str>)
    ensures s == [] || s[0] in s
  {
  }

  lemma MootSession(c: Config, n: Str, u: seq<IntentRec>, s: Str)
    requires HasRingOf(u, s)
    ensures forall r :: r in EffectRecs(c, n, s, SessionChanged, SortedSet(IdsOfRings(OfSession(u, s))), []) ==> MootOk(c, n, u, [s], r)
    ensures forall i :: i in u && i.session == s ==> Carries(EffectRecs(c, n, s, SessionChanged, SortedSet(IdsOfRings(OfSession(u, s))), []), SessionChanged, s, i.id)
  {
    MootIdsIn(u, s);
    hide EffectRecs, OfSession, SortedSet, Carries, IdsOfRings;
    var ids := SortedSet(IdsOfRings(OfSession(u, s)));
    var i :| i in u && i.session == s;
    assert i.id in ids;
    ChunksHold(c, n, s, SessionChanged, ids, []);
    forall r | r in EffectRecs(c, n, s, SessionChanged, ids, []) ensures MootOk(c, n, u, [s], r)
    {
      assert ChunkOk(c, n, s, SessionChanged, ids, [], r);
      FirstIn(r.e.left);
    }
    forall j | j in u && j.session == s ensures Carries(EffectRecs(c, n, s, SessionChanged, ids, []), SessionChanged, s, j.id)
    {
      ChunksCarry(c, n, s, SessionChanged, ids, [], j.id);
    }
  }

  lemma {:induction false} MootMembers(c: Config, n: Str, u: seq<IntentRec>, sessions: seq<Str>)
    requires forall s :: s in sessions ==> HasRingOf(u, s)
    ensures forall r :: r in MootEffects(c, n, u, sessions) ==> MootOk(c, n, u, sessions, r)
    ensures forall i :: i in u && i.session in sessions ==> Carries(MootEffects(c, n, u, sessions), SessionChanged, i.session, i.id)
  {
    hide EffectRecs, OfSession, SortedSet, Carries, IdsOfRings;
    if sessions != [] {
      var p, s := sessions[..|sessions| - 1], sessions[|sessions| - 1];
      assert sessions == p + [s] && s in sessions;
      MootMembers(c, n, u, p);
      MootSession(c, n, u, s);
      var before, recs := MootEffects(c, n, u, p), EffectRecs(c, n, s, SessionChanged, SortedSet(IdsOfRings(OfSession(u, s))), []);
      forall r | r in before ensures MootOk(c, n, u, sessions, r) { assert MootOk(c, n, u, p, r); }
      forall r | r in recs ensures MootOk(c, n, u, sessions, r) { assert MootOk(c, n, u, [s], r); }
      forall i | i in u && i.session in sessions ensures Carries(before + recs, SessionChanged, i.session, i.id)
      {
        CarriesMore(before + recs, before, SessionChanged, i.session, i.id);
        CarriesMore(before + recs, recs, SessionChanged, i.session, i.id);
      }
    }
  }

  /** The judgement's records, part by part. */
  lemma JudgeParts(c: Config, n: Str, a: Acct, session: Str, mono: map<Str, int>, pending: set<Str>, uid: nat -> Str, k: nat)
    returns (moot: seq<Rec>, progress: seq<Rec>, misses: seq<Rec>, moved: seq<Rec>, closed: seq<Rec>, raised: seq<Rec>, id: Str)
    ensures var l := LedgerOf(a, session, mono);
            var l1 := AfterProgress(l, pending);
            var u := Unjudged(a.rings, a.judged);
            moot == MootEffects(c, n, u, MootSessions(u, session)) && moved == CloseAll(c, ElsewhereOf(a.open, session), Moved) &&
            progress == ProgressRecs(c, n, session, l, pending) && closed == CloseRecs(c, l1, pending) &&
            misses == IneffectiveRecs(c, n, session, Overdue(c, AfterClose(l1, pending).outstanding, true)) &&
            raised == ThresholdRecs(c, n, session, Settled(c, l, pending), pending, id)
    ensures forall r :: r in JudgeRecs(c, n, session, MootRecs(c, n, a, session), LedgerOf(a, session, mono), pending, uid, k) <==>
              r in moot || r in moved || r in progress || r in closed || r in misses || r in raised
    ensures exists j: nat :: id == uid(j)
  {
    hide LedgerOf, MootEffects, CloseAll, ProgressRecs, CloseRecs, IneffectiveRecs, ThresholdRecs, Settled, AfterProgress, AfterClose, Overdue, Unjudged, MootSessions, ElsewhereOf;
    var l := LedgerOf(a, session, mono);
    var l1 := AfterProgress(l, pending);
    var u := Unjudged(a.rings, a.judged);
    moot, moved := MootEffects(c, n, u, MootSessions(u, session)), CloseAll(c, ElsewhereOf(a.open, session), Moved);
    progress, closed := ProgressRecs(c, n, session, l, pending), CloseRecs(c, l1, pending);
    misses := IneffectiveRecs(c, n, session, Overdue(c, AfterClose(l1, pending).outstanding, true));
    var before := MootRecs(c, n, a, session) + SettleRecs(c, n, session, l, pending);
    id := uid(k + |before|);
    raised := ThresholdRecs(c, n, session, Settled(c, l, pending), pending, id);
    assert MootRecs(c, n, a, session) == moot + moved && SettleRecs(c, n, session, l, pending) == progress + closed + misses;
  }

  // ---------------------------------------------------------------- the ledger, told of the account

  lemma LedgerRung(a: Acct, session: Str, mono: map<Str, int>, pending: set<Str>)
    ensures var l := LedgerOf(a, session, mono);
            (forall id :: id in l.rung <==> Rung(a, session, id)) && (forall id :: id in LeftNow(l, pending) <==> GoneNow(a, session, pending, id)) &&
            (LeftNow(l, pending) != {} <==> Progressing(a, session, pending)) && l.counter == Streak(a, session)
  {
    RungIdsMembers(a.rings, session);
    hide Covers, LastRing, SortRings, RungIds;
    var l := LedgerOf(a, session, mono);
    forall id ensures id in l.rung <==> Rung(a, session, id) {}
    forall id ensures id in LeftNow(l, pending) <==> GoneNow(a, session, pending, id) {}
    hide Rung, GoneNow, LeftNow;
    if LeftNow(l, pending) != {} {
      var id :| id in LeftNow(l, pending);
      assert GoneNow(a, session, pending, id);
    }
  }

  lemma LedgerOpen(a: Acct, n: Str, session: Str, mono: map<Str, int>)
    requires RingsWf(a.rings, n)
    ensures forall x :: x in RingIds(LedgerOf(a, session, mono).outstanding) <==> exists i :: OpenRing(a, session, i) && i.id == x
  {
    OutstandingFacts(a, n, session, mono);
    hide SortRings, Covers, LastRing, RungIds, SortedRings, DistinctRings, UnresponsiveOf, StuckOf, RingsWf;
    var o := LedgerOf(a, session, mono).outstanding;
    hide LedgerOf;
    forall x | x in RingIds(o) ensures exists i :: OpenRing(a, session, i) && i.id == x
    {
      var r :| r in o && r.id == x;
      assert Judgeable(a, session, r.id);
      var i :| i in a.rings && i.id == x && i.session == session;
      assert OpenRing(a, session, i);
    }
    forall i | OpenRing(a, session, i) ensures i.id in RingIds(o)
    {
      assert Ring(i.id, MonoOf(mono, i.id)) in o;
    }
  }

  ghost predicate ProgressSays(c: Config, n: Str, a: Acct, session: Str, pending: set<Str>, recs: seq<Rec>)
  {
    (forall r :: r in recs ==> r.Effect? && IsProgress(c, n, a, session, pending, r.e)) &&
    (forall i :: i in a.rings && OpenRing(a, session, i) ==> Carries(recs, Effective, session, i.id)) &&
    (forall id :: GoneNow(a, session, pending, id) ==> Leaves(recs, Effective, id))
  }

  ghost predicate MootSays(c: Config, n: Str, a: Acct, session: Str, recs: seq<Rec>)
  {
    (forall r :: r in recs ==> r.Effect? && IsMoot(c, n, a, session, r.e)) &&
    forall i :: i in a.rings && OpenRing(a, i.session, i) && i.session != session ==> Carries(recs, SessionChanged, i.session, i.id)
  }

  /** The effective records, or none. */
  lemma ProgressPart(c: Config, n: Str, a: Acct, session: Str, mono: map<Str, int>, pending: set<Str>)
    requires RingsWf(a.rings, n)
    ensures var recs := ProgressRecs(c, n, session, LedgerOf(a, session, mono), pending);
            if Progressing(a, session, pending) then ProgressSays(c, n, a, session, pending, recs) else recs == []
  {
    LedgerRung(a, session, mono, pending);
    LedgerOpen(a, n, session, mono);
    var l := LedgerOf(a, session, mono);
    hide LedgerOf, EffectRecs, SortedSet, LeftNow, RingIds, OpenRing, GoneNow, Progressing, ProgressSays, RingsWf, Rung;
    if LeftNow(l, pending) != {} {
      SortedSome(LeftNow(l, pending));
      ProgressChunks(c, n, a, session, pending, SortedSet(RingIds(l.outstanding)), SortedSet(LeftNow(l, pending)));
    }
  }

  lemma SortedSome(s: set<Str>)
    ensures s != {} ==> SortedSet(s) != []
  {
    assert |SortedSet(s)| == |s|;
  }

  lemma ProgressChunks(c: Config, n: Str, a: Acct, session: Str, pending: set<Str>, ii: seq<Str>, ll: seq<Str>)
    requires forall x :: x in ii ==> exists i :: OpenRing(a, session, i) && i.id == x
    requires (forall i :: i in a.rings && OpenRing(a, session, i) ==> i.id in ii) && ll != [] && forall id :: id in ll <==> GoneNow(a, session, pending, id)
    ensures ProgressSays(c, n, a, session, pending, EffectRecs(c, n, session, Effective, ii, ll))
  {
    ChunksHold(c, n, session, Effective, ii, ll);
    hide EffectRecs, GoneNow, Carries, Leaves, OpenRing, IsProgress, ChunkOk;
    var recs := EffectRecs(c, n, session, Effective, ii, ll);
    forall r | r in recs ensures r.Effect? && IsProgress(c, n, a, session, pending, r.e)
    {
      ChunkIsProgress(c, n, a, session, pending, ii, ll, r);
    }
    forall i | i in a.rings && OpenRing(a, session, i) ensures Carries(recs, Effective, session, i.id)
    {
      ChunksCarry(c, n, session, Effective, ii, ll, i.id);
    }
    forall id | GoneNow(a, session, pending, id) ensures Leaves(recs, Effective, id)
    {
      ChunksCarry(c, n, session, Effective, ii, ll, id);
    }
  }

  lemma ChunkIsProgress(c: Config, n: Str, a: Acct, session: Str, pending: set<Str>, ii: seq<Str>, ll: seq<Str>, r: Rec)
    requires ChunkOk(c, n, session, Effective, ii, ll, r)
    requires forall x :: x in ii ==> exists i :: OpenRing(a, session, i) && i.id == x
    requires forall id :: id in ll ==> GoneNow(a, session, pending, id)
    ensures r.Effect? && IsProgress(c, n, a, session, pending, r.e)
  {
    hide OpenRing, GoneNow;
  }

  lemma Lateness(c: Config, mono: map<Str, int>, i: IntentRec)
    ensures Late(c, mono, i) <==> !Young(c, MonoOf(mono, i.id))
  {
  }

  /** The rings found overdue. */
  lemma OverdueIs(c: Config, n: Str, a: Acct, session: Str, mono: map<Str, int>)
    requires RingsWf(a.rings, n)
    ensures var o := Overdue(c, LedgerOf(a, session, mono).outstanding, true);
            RingIds(o) == Missed(c, a, session, mono) && |o| == |Missed(c, a, session, mono)|
  {
    OutstandingFacts(a, n, session, mono);
    var l := LedgerOf(a, session, mono);
    OverdueMembers(c, l.outstanding, true);
    OverdueDistinct(c, l.outstanding, true);
    hide LedgerOf, Overdue, SortedRings, RingsWf, Young;
    var o := Overdue(c, l.outstanding, true);
    forall x | x in o ensures x.id in Missed(c, a, session, mono)
    {
      assert Judgeable(a, session, x.id);
      var i :| i in a.rings && i.id == x.id && i.session == session;
      Lateness(c, mono, i);
      assert OpenRing(a, session, i);
    }
    forall id | id in Missed(c, a, session, mono) ensures id in RingIds(o)
    {
      var i :| i in a.rings && OpenRing(a, session, i) && Late(c, mono, i) && i.id == id;
      Lateness(c, mono, i);
      assert Ring(i.id, MonoOf(mono, i.id)) in o;
    }
    hide OpenRing, Late, Judgeable, Missed;
    assert RingIds(o) == Missed(c, a, session, mono);
    DistinctCount(o);
  }

  lemma {:induction false} DistinctCount(o: seq<Ring>)
    requires DistinctRings(o)
    ensures |RingIds(o)| == |o|
  {
    if o != [] {
      var p, x := o[..|o| - 1], o[|o| - 1];
      LastDistinct(o);
      assert o == p + [x];
      DistinctCount(p);
      hide DistinctRings;
      assert RingIds(o) == RingIds(p) + {x.id};
    } else {
      assert RingIds(o) == {};
    }
  }

  lemma LastDistinct(o: seq<Ring>)
    requires DistinctRings(o) && o != []
    ensures DistinctRings(o[..|o| - 1]) && o[|o| - 1].id !in RingIds(o[..|o| - 1])
  {
    var p, x := o[..|o| - 1], o[|o| - 1];
    forall y | y in p ensures y.id != x.id
    {
      var j :| 0 <= j < |p| && p[j] == y;
      assert o[j] == y;
    }
  }

  /** One record for each ring missed. */
  ghost predicate MissesSay(c: Config, n: Str, a: Acct, session: Str, mono: map<Str, int>, recs: seq<Rec>)
  {
    (forall r :: r in recs ==> r.Effect?) && forall e :: Effect(e) in recs <==> IsMiss(c, n, a, session, mono, e)
  }

  lemma MissRecs(c: Config, n: Str, a: Acct, session: Str, mono: map<Str, int>)
    requires RingsWf(a.rings, n)
    ensures MissesSay(c, n, a, session, mono, IneffectiveRecs(c, n, session, Overdue(c, LedgerOf(a, session, mono).outstanding, true)))
  {
    OverdueIs(c, n, a, session, mono);
    var o := Overdue(c, LedgerOf(a, session, mono).outstanding, true);
    MissesMembers(c, n, session, o);
    hide LedgerOf, Missed, RingsWf, Overdue, IneffectiveRecs, RingIds;
  }

  /** The ineffective records: one for each ring missed, where nothing has left. */
  lemma MissPart(c: Config, n: Str, a: Acct, session: Str, mono: map<Str, int>, pending: set<Str>)
    requires RingsWf(a.rings, n)
    ensures var recs := IneffectiveRecs(c, n, session, Overdue(c, AfterClose(AfterProgress(LedgerOf(a, session, mono), pending), pending).outstanding, true));
            if Progressing(a, session, pending) then recs == [] else MissesSay(c, n, a, session, mono, recs)
    ensures Settled(c, LedgerOf(a, session, mono), pending).counter == CounterAfter(c, a, session, mono, pending)
  {
    LedgerRung(a, session, mono, pending);
    OverdueIs(c, n, a, session, mono);
    MissRecs(c, n, a, session, mono);
    var l := LedgerOf(a, session, mono);
    hide LedgerOf, LeftNow, StuckGone, Progressing, OpenRing, Late, Missed, RingsWf, Rung, GoneNow, EpisodeOver, MissesSay, Young;
    var l1 := AfterProgress(l, pending);
    assert AfterClose(l1, pending).outstanding == l1.outstanding && AfterClose(l1, pending).counter == l1.counter;
    hide AfterClose;
  }

  // ---------------------------------------------------------------- closes and the opening

  lemma CloseIs(c: Config, x: EscRec, why: CloseWhy, y: EscRec)
    ensures IsClose(c, x, why, y) <==> Escalation(y) == CloseOf(c, x, why)
  {
    var ids := SortedSet(Elems(x.ids));
    assert Elems(ids) == Elems(x.ids);
    if IsClose(c, x, why, y) {
      assert forall id :: id in y.ids <==> id in Elems(y.ids);
      assert forall id :: id in ids <==> id in Elems(ids);
      AscendingUnique(y.ids, ids);
    }
  }

  /** The rescue's closes: every escalation of another session. */
  lemma MovedPart(c: Config, a: Acct, session: Str)
    ensures forall y :: Escalation(y) in CloseAll(c, ElsewhereOf(a.open, session), Moved) <==>
              exists e :: e in a.open && e.rec.session != session && IsClose(c, e.rec, Moved, y)
    ensures forall r :: r in CloseAll(c, ElsewhereOf(a.open, session), Moved) ==> r.Escalation? && !r.x.isOpen
  {
    var xs := ElsewhereOf(a.open, session);
    CloseAllMembers(c, xs, Moved);
    ElsewhereOfMembers(a.open, session);
    forall y ensures Escalation(y) in CloseAll(c, xs, Moved) <==> exists e :: e in a.open && e.rec.session != session && IsClose(c, e.rec, Moved, y)
    {
      forall x { CloseIs(c, x, Moved, y); }
      hide CloseOf, IsClose, CloseAll, ElsewhereOf;
      if e :| e in a.open && e.rec.session != session && IsClose(c, e.rec, Moved, y) {
        assert e.rec in xs;
      }
    }
    hide CloseAll, ElsewhereOf;
  }

  lemma EpisodeOverIs(a: Acct, n: Str, session: Str, mono: map<Str, int>, pending: set<Str>)
    requires OpenWf(a.open, n)
    ensures var l := AfterProgress(LedgerOf(a, session, mono), pending);
            (l.unresponsive.Some? ==> l.unresponsive.value in a.open && l.unresponsive.value.rec.session == session && l.unresponsive.value.rec.reason == Unresponsive) &&
            (forall e :: e in a.open && e.rec.session == session && e.rec.reason == Unresponsive ==> l.unresponsive == Some(e)) &&
            (EpisodeOver(l, pending) <==> l.unresponsive.Some? && EpisodeGone(l.unresponsive.value, session, pending)) &&
            (forall x :: x in l.stuck <==> exists e :: e in a.open && e.rec == x && x.session == session && x.reason == IdStuck)
  {
    UnresponsiveIsOpen(a.open, session);
    StuckOfMembers(a.open, session);
    forall e | e in a.open && e.rec.session == session && e.rec.reason == Unresponsive ensures UnresponsiveOf(a.open, session) == Some(e)
    {
      UnresponsiveUnique(a.open, session, n, e);
    }
    hide UnresponsiveOf, StuckOf, RungIds, Covers, LastRing, SortRings, LeftNow, OpenWf;
  }

  /** This session's closes: the episode or the stuck id that has left. */
  lemma ClosePart(c: Config, n: Str, a: Acct, session: Str, mono: map<Str, int>, pending: set<Str>)
    requires OpenWf(a.open, n)
    ensures var recs := CloseRecs(c, AfterProgress(LedgerOf(a, session, mono), pending), pending);
            (forall r :: r in recs ==> r.Escalation? && !r.x.isOpen) &&
            forall y :: Escalation(y) in recs <==> exists e :: e in a.open && EpisodeGone(e, session, pending) && IsClose(c, e.rec, Progress, y)
  {
    EpisodeOverIs(a, n, session, mono, pending);
    var l := AfterProgress(LedgerOf(a, session, mono), pending);
    hide LedgerOf, AfterProgress, EpisodeOver;
    var gone := StuckGone(l.stuck, pending, true);
    StuckGoneMembers(l.stuck, pending, true);
    CloseAllMembers(c, gone, Progress);
    hide StuckGone, CloseAll;
    var recs := CloseRecs(c, l, pending);
    forall y ensures Escalation(y) in recs <==> exists e :: e in a.open && EpisodeGone(e, session, pending) && IsClose(c, e.rec, Progress, y)
    {
      forall x { CloseIs(c, x, Progress, y); }
      hide CloseOf, IsClose;
      if Escalation(y) in CloseAll(c, gone, Progress) {
        var x :| x in gone && Escalation(y) == CloseOf(c, x, Progress);
        var e :| e in a.open && e.rec == x && x.session == session && x.reason == IdStuck;
        assert EpisodeGone(e, session, pending) && IsClose(c, e.rec, Progress, y);
      }
      if e :| e in a.open && EpisodeGone(e, session, pending) && IsClose(c, e.rec, Progress, y) {
        if e.rec.reason == IdStuck { assert e.rec in gone; }
      }
    }
  }

  lemma CutOrdered(all: seq<Str>, m: nat, x: Str, y: Str)
    requires Ascending(all) && m <= |all| && x in all[..m] && y in all && y !in all[..m]
    ensures Less(x, y)
  {
    var i :| 0 <= i < m && all[..m][i] == x;
    assert all == all[..m] + all[m..];
    var j :| 0 <= j < |all| - m && all[m..][j] == y;
    assert all[i] == x && all[m + j] == y;
  }

  /** The first of a set, in its order. */
  lemma FirstSorted(s: set<Str>)
    ensures var all := SortedSet(s); FirstNamed(all[..Min(MAX_IDS, |all|)], s)
  {
    var all := SortedSet(s);
    var m := Min(MAX_IDS, |all|);
    var ids := all[..m];
    AscendingPart(all, 0, m);
    hide SortedSet, Ascending, Less;
    assert all == ids + all[m..];
    assert Elems(ids) <= s by { forall x | x in ids ensures x in s { assert x in all; } }
    if |s| <= MAX_IDS {
      assert ids == all && Elems(ids) == s;
    } else {
      forall x, y | x in ids && y in s && y !in ids ensures Less(x, y) { CutOrdered(all, m, x, y); }
    }
  }

  /** The threshold's record. */
  lemma RaisePart(c: Config, n: Str, a: Acct, session: Str, mono: map<Str, int>, pending: set<Str>, id: Str)
    requires AcctWf(a, n)
    ensures var recs := ThresholdRecs(c, n, session, Settled(c, LedgerOf(a, session, mono), pending), pending, id);
            (forall r :: r in recs ==> r.Escalation? && r.x.isOpen) && OpensSay(c, n, a, session, mono, pending, recs)
  {
    var l := LedgerOf(a, session, mono);
    assert RingsWf(a.rings, n) && OpenWf(a.open, n);
    hide LedgerOf, AcctWf, RingsWf, OpenWf, Settled;
    LedgerRung(a, session, mono, pending);
    MissPart(c, n, a, session, mono, pending);
    StaysIs(c, n, a, session, mono, pending);
    SettledKeeps(c, l, pending);
    RaiseSays(c, n, a, session, mono, pending, Settled(c, l, pending), id);
  }

  lemma StaysIs(c: Config, n: Str, a: Acct, session: Str, mono: map<Str, int>, pending: set<Str>)
    requires OpenWf(a.open, n)
    ensures var l := AfterProgress(LedgerOf(a, session, mono), pending);
            (if EpisodeOver(l, pending) then None else l.unresponsive) == None <==> !StaysEscalated(a, session, pending)
  {
    EpisodeOverIs(a, n, session, mono, pending);
    hide LedgerOf, AfterProgress, OpenWf;
  }

  lemma RaiseSays(c: Config, n: Str, a: Acct, session: Str, mono: map<Str, int>, pending: set<Str>, l: Ledger, id: Str)
    requires (forall x :: x in l.rung <==> Rung(a, session, x)) && l.counter == CounterAfter(c, a, session, mono, pending)
    requires l.unresponsive == None <==> !StaysEscalated(a, session, pending)
    ensures var recs := ThresholdRecs(c, n, session, l, pending, id);
            (forall r :: r in recs ==> r.Escalation? && r.x.isOpen) && OpensSay(c, n, a, session, mono, pending, recs)
  {
    hide Rung, CounterAfter, StaysEscalated, FirstNamed, SortedSet;
    var p := set x | x in pending && Rung(a, session, x);
    assert l.rung * pending == p;
    FirstSorted(p);
    if p != {} { var x :| x in p; }
    if x :| x in pending && Rung(a, session, x) { assert x in p; }
    if Escalates(l, pending) {
      var x := OpenOf(c, n, session, Unresponsive, Witness(l, pending), id);
      assert ThresholdRecs(c, n, session, l, pending, id) == [Escalation(x)];
      assert Escalation(x) in ThresholdRecs(c, n, session, l, pending, id) && x.isOpen;
    }
  }

  lemma SettledKeeps(c: Config, l: Ledger, pending: set<Str>)
    ensures var l1, l2 := AfterProgress(l, pending), Settled(c, l, pending);
            l2.rung == l.rung && l2.unresponsive == if EpisodeOver(l1, pending) then None else l1.unresponsive
  {
    hide LeftNow, StuckGone, Overdue, EpisodeOver;
  }

  lemma EffectsJoin(c: Config, n: Str, a: Acct, session: Str, mono: map<Str, int>, pending: set<Str>,
                    moot: seq<Rec>, progress: seq<Rec>, misses: seq<Rec>, moved: seq<Rec>, closed: seq<Rec>, raised: seq<Rec>, recs: seq<Rec>)
    requires MootSays(c, n, a, session, moot)
    requires (forall r :: r in moved ==> r.Escalation?) && (forall r :: r in closed ==> r.Escalation?) && (forall r :: r in raised ==> r.Escalation?)
    requires if Progressing(a, session, pending) then ProgressSays(c, n, a, session, pending, progress) else progress == []
    requires if Progressing(a, session, pending) then misses == [] else MissesSay(c, n, a, session, mono, misses)
    requires forall r :: r in recs <==> r in moot || r in moved || r in progress || r in closed || r in misses || r in raised
    ensures EffectsSay(c, n, a, session, mono, pending, recs)
  {
    hide Progressing, OpenRing, GoneNow, Carries, Leaves, Missed;
    forall i | i in a.rings ensures Carries(moot, SessionChanged, i.session, i.id) ==> Carries(recs, SessionChanged, i.session, i.id)
    {
      CarriesMore(recs, moot, SessionChanged, i.session, i.id);
    }
    forall i | i in a.rings ensures Carries(progress, Effective, session, i.id) ==> Carries(recs, Effective, session, i.id)
    {
      CarriesMore(recs, progress, Effective, session, i.id);
    }
    forall id ensures Leaves(progress, Effective, id) ==> Leaves(recs, Effective, id)
    {
      CarriesMore(recs, progress, Effective, session, id);
    }
  }

  lemma ClosesJoin(c: Config, a: Acct, session: Str, pending: set<Str>, effects: seq<Rec>, moved: seq<Rec>, closed: seq<Rec>, raised: seq<Rec>, recs: seq<Rec>)
    requires (forall r :: r in effects ==> r.Effect?) && (forall r :: r in raised ==> r.Escalation? && r.x.isOpen)
    requires forall r :: r in moved ==> r.Escalation? && !r.x.isOpen
    requires forall r :: r in closed ==> r.Escalation? && !r.x.isOpen
    requires forall y :: Escalation(y) in moved <==> exists e :: e in a.open && e.rec.session != session && IsClose(c, e.rec, Moved, y)
    requires forall y :: Escalation(y) in closed <==> exists e :: e in a.open && EpisodeGone(e, session, pending) && IsClose(c, e.rec, Progress, y)
    requires forall r :: r in recs <==> r in effects || r in moved || r in closed || r in raised
    ensures ClosesSay(c, a, session, pending, recs)
  {
    forall e | EpisodeGone(e, session, pending) ensures e.rec.session == session {}
    hide IsClose, EpisodeGone;
    forall y
      ensures Escalation(y) in recs && !y.isOpen <==>
        exists e :: e in a.open && if e.rec.session != session then IsClose(c, e.rec, Moved, y) else EpisodeGone(e, session, pending) && IsClose(c, e.rec, Progress, y)
    {
      assert Escalation(y) in recs && !y.isOpen <==> Escalation(y) in moved || Escalation(y) in closed;
    }
  }

  lemma RaisesJoin(c: Config, n: Str, a: Acct, session: Str, mono: map<Str, int>, pending: set<Str>, others: seq<Rec>, raised: seq<Rec>, recs: seq<Rec>)
    requires OpensSay(c, n, a, session, mono, pending, raised) && forall r :: r in others ==> r.Effect? || (r.Escalation? && !r.x.isOpen)
    requires forall r :: r in recs <==> r in others || r in raised
    ensures OpensSay(c, n, a, session, mono, pending, recs)
  {
    hide CounterAfter, StaysEscalated, Rung, Witnessed, IsOpening;
    forall x ensures Escalation(x) in recs && x.isOpen <==> Escalation(x) in raised && x.isOpen {}
  }

  lemma MootPart(c: Config, n: Str, a: Acct, session: Str)
    ensures var u := Unjudged(a.rings, a.judged);
            MootSays(c, n, a, session, MootEffects(c, n, u, MootSessions(u, session)))
  {
    var u := Unjudged(a.rings, a.judged);
    var ss := MootSessions(u, session);
    UnjudgedMembers(a.rings, a.judged);
    MootSessionsMembers(u, session);
    hide Unjudged, MootSessions;
    forall s | s in ss ensures HasRingOf(u, s) {}
    MootMembers(c, n, u, ss);
    hide MootEffects, Carries;
    forall r | r in MootEffects(c, n, u, ss) ensures r.Effect? && IsMoot(c, n, a, session, r.e)
    {
      assert MootOk(c, n, u, ss, r);
      forall x | x in r.e.intents ensures exists i :: OpenRing(a, r.e.session, i) && i.id == x
      {
        var i :| i in u && i.session == r.e.session && i.id == x;
        assert OpenRing(a, r.e.session, i);
      }
    }
  }

  // ---------------------------------------------------------------- the whole judgement

  /** Exactly what a judgement of an agent's read writes: for each kind of record, which there are and what they say. */
  lemma JudgedExactly(c: Config, n: Str, a: Acct, session: Str, mono: map<Str, int>, pending: set<Str>, uid: nat -> Str, k: nat)
    requires AcctWf(a, n)
    ensures var recs := JudgeRecs(c, n, session, MootRecs(c, n, a, session), LedgerOf(a, session, mono), pending, uid, k);
            EffectsSay(c, n, a, session, mono, pending, recs) && ClosesSay(c, a, session, pending, recs) &&
            OpensSay(c, n, a, session, mono, pending, recs) && forall r :: r in recs ==> r.Effect? || r.Escalation?
  {
    JudgedEffects(c, n, a, session, mono, pending, uid, k);
    JudgedEscalations(c, n, a, session, mono, pending, uid, k);
    hide *;
  }

  lemma JudgedEffects(c: Config, n: Str, a: Acct, session: Str, mono: map<Str, int>, pending: set<Str>, uid: nat -> Str, k: nat)
    requires AcctWf(a, n)
    ensures EffectsSay(c, n, a, session, mono, pending, JudgeRecs(c, n, session, MootRecs(c, n, a, session), LedgerOf(a, session, mono), pending, uid, k))
  {
    assert RingsWf(a.rings, n) && OpenWf(a.open, n);
    hide *;
    var moot, progress, misses, moved, closed, raised, id := JudgeParts(c, n, a, session, mono, pending, uid, k);
    MootPart(c, n, a, session);
    ProgressPart(c, n, a, session, mono, pending);
    MissPart(c, n, a, session, mono, pending);
    EscalationParts(c, n, a, session, mono, pending, id);
    EffectsJoin(c, n, a, session, mono, pending, moot, progress, misses, moved, closed, raised,
                JudgeRecs(c, n, session, MootRecs(c, n, a, session), LedgerOf(a, session, mono), pending, uid, k));
  }

  lemma EscalationParts(c: Config, n: Str, a: Acct, session: Str, mono: map<Str, int>, pending: set<Str>, id: Str)
    requires AcctWf(a, n)
    ensures forall r :: r in CloseAll(c, ElsewhereOf(a.open, session), Moved) ==> r.Escalation? && !r.x.isOpen
    ensures forall r :: r in CloseRecs(c, AfterProgress(LedgerOf(a, session, mono), pending), pending) ==> r.Escalation? && !r.x.isOpen
    ensures forall r :: r in ThresholdRecs(c, n, session, Settled(c, LedgerOf(a, session, mono), pending), pending, id) ==> r.Escalation? && r.x.isOpen
  {
    assert RingsWf(a.rings, n) && OpenWf(a.open, n);
    hide *;
    MovedPart(c, a, session);
    ClosePart(c, n, a, session, mono, pending);
    RaisePart(c, n, a, session, mono, pending, id);
  }

  lemma JudgedEscalations(c: Config, n: Str, a: Acct, session: Str, mono: map<Str, int>, pending: set<Str>, uid: nat -> Str, k: nat)
    requires AcctWf(a, n)
    ensures var recs := JudgeRecs(c, n, session, MootRecs(c, n, a, session), LedgerOf(a, session, mono), pending, uid, k);
            ClosesSay(c, a, session, pending, recs) && OpensSay(c, n, a, session, mono, pending, recs) && forall r :: r in recs ==> r.Effect? || r.Escalation?
  {
    assert RingsWf(a.rings, n) && OpenWf(a.open, n);
    hide *;
    var moot, progress, misses, moved, closed, raised, id := JudgeParts(c, n, a, session, mono, pending, uid, k);
    EffectParts(c, n, a, session, mono, pending);
    var effects := moot + progress + misses;
    var recs := JudgeRecs(c, n, session, MootRecs(c, n, a, session), LedgerOf(a, session, mono), pending, uid, k);
    MovedPart(c, a, session);
    ClosePart(c, n, a, session, mono, pending);
    RaisePart(c, n, a, session, mono, pending, id);
    ClosesJoin(c, a, session, pending, effects, moved, closed, raised, recs);
    RaisesJoin(c, n, a, session, mono, pending, effects + moved + closed, raised, recs);
  }

  lemma EffectParts(c: Config, n: Str, a: Acct, session: Str, mono: map<Str, int>, pending: set<Str>)
    requires AcctWf(a, n)
    ensures var u, l := Unjudged(a.rings, a.judged), LedgerOf(a, session, mono);
            var misses := IneffectiveRecs(c, n, session, Overdue(c, AfterClose(AfterProgress(l, pending), pending).outstanding, true));
            forall r :: r in MootEffects(c, n, u, MootSessions(u, session)) + ProgressRecs(c, n, session, l, pending) + misses ==> r.Effect?
  {
    assert RingsWf(a.rings, n) && OpenWf(a.open, n);
    hide *;
    MootPart(c, n, a, session);
    ProgressPart(c, n, a, session, mono, pending);
    MissPart(c, n, a, session, mono, pending);
    var u := Unjudged(a.rings, a.judged);
    KindsOfParts(c, n, a, session, mono, pending, MootEffects(c, n, u, MootSessions(u, session)), ProgressRecs(c, n, session, LedgerOf(a, session, mono), pending),
                 IneffectiveRecs(c, n, session, Overdue(c, AfterClose(AfterProgress(LedgerOf(a, session, mono), pending), pending).outstanding, true)));
  }

  lemma KindsOfParts(c: Config, n: Str, a: Acct, session: Str, mono: map<Str, int>, pending: set<Str>, moot: seq<Rec>, progress: seq<Rec>, misses: seq<Rec>)
    requires MootSays(c, n, a, session, moot)
    requires if Progressing(a, session, pending) then ProgressSays(c, n, a, session, pending, progress) else progress == []
    requires if Progressing(a, session, pending) then misses == [] else MissesSay(c, n, a, session, mono, misses)
    ensures forall r :: r in moot + progress + misses ==> r.Effect?
  {
    hide Progressing, IsMoot, IsProgress, IsMiss, OpenRing, GoneNow, Carries, Leaves;
  }
}
