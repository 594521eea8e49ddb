/**
  * `judge`, stage by stage: each stage's records fit the history they join, and the ledger the planner
  * goes on with is the ledger that history, with those records appended, stands for.
  */
module DoorbellJudge {
  import opened Canon
  import opened DoorbellLog
  import opened DoorbellLedger
  import opened DoorbellPlan
  import opened DoorbellAdmit
  import opened Wrappers

  // ---------------------------------------------------------------- effect records

  /** What an effect with these ids does to an account, however it is split into records. */
  function AfterEffect(a: Acct, session: Str, outcome: Outcome, ii: set<Str>, ll: set<Str>): Acct
    requires outcome != Ineffective
  {
    var b := a.(judged := a.judged + ii);
    if outcome == Effective
    then b.(left := a.left + (set id | id in ll :: (session, id)), streak := a.streak[session := 0])
    else b
  }

  /** Every unjudged ring of the session is among these. */
  predicate AllNamed(a: Acct, session: Str, ii: seq<Str>)
  {
    forall i :: i in a.rings && i.session == session && i.id !in a.judged ==> i.id in ii
  }

  predicate EffectIdsFit(a: Acct, session: Str, outcome: Outcome, ii: seq<Str>, ll: seq<Str>, v: View)
  {
    Ascending(ii) && Ascending(ll) && (ii != [] || ll != []) && v.session.Some? && (forall x :: x in ii ==> Judgeable(a, session, x)) &&
    match outcome
    case Effective =>
      v.session.value == session && Covering(a, session, ii) &&
      forall id :: id in ll ==> id in RungIds(a.rings, session) && id !in v.pending && (session, id) !in a.left
    case SessionChanged => v.session.value != session && ll == []
    case Ineffective => false
  }

  lemma EffectOne(c: Config, n: Str, session: Str, outcome: Outcome, ii: seq<Str>, ll: seq<Str>, a: Acct, v: View)
    requires EffectIdsFit(a, session, outcome, ii, ll, v)
    ensures var r := Effect(EffectRec(c.at, n, session, outcome, ii, ll));
            Fits(a, n, v, r) && Step(a, r, n) == AfterEffect(a, session, outcome, Elems(ii), Elems(ll))
  {
    assert Pairs(session, ll) == set id | id in Elems(ll) :: (session, id);
  }

  lemma EffectTwice(a: Acct, session: Str, outcome: Outcome, i1: set<Str>, l1: set<Str>, i2: set<Str>, l2: set<Str>)
    requires outcome != Ineffective
    ensures AfterEffect(AfterEffect(a, session, outcome, i1, l1), session, outcome, i2, l2)
         == AfterEffect(a, session, outcome, i1 + i2, l1 + l2)
  {
    assert (a.judged + i1) + i2 == a.judged + (i1 + i2);
    assert (set id | id in l1 + l2 :: (session, id)) == (set id | id in l1 :: (session, id)) + (set id | id in l2 :: (session, id));
    assert (a.left + (set id | id in l1 :: (session, id))) + (set id | id in l2 :: (session, id))
        == a.left + (set id | id in l1 + l2 :: (session, id));
    assert a.streak[session := 0][session := 0] == a.streak[session := 0];
  }

  lemma EffectRestFits(a: Acct, session: Str, outcome: Outcome, ii: seq<Str>, ll: seq<Str>, p: nat, q: nat, v: View)
    requires EffectIdsFit(a, session, outcome, ii, ll, v) && p <= |ii| && q <= |ll|
    requires 0 < p < |ii| || 0 < q < |ll|
    requires outcome == Effective ==> p == Min(MAX_IDS, |ii|) && AllNamed(a, session, ii)
    ensures EffectIdsFit(a, session, outcome, ii[..p], ll[..q], v)
    ensures var b := AfterEffect(a, session, outcome, Elems(ii[..p]), Elems(ll[..q]));
            EffectIdsFit(b, session, outcome, ii[p..], ll[q..], v) && (outcome == Effective ==> AllNamed(b, session, ii[p..]))
  {
    assert ii == ii[..p] + ii[p..];
    SplitDistinct(ii, p);
    SplitDistinct(ll, q);
    assert forall x :: x in ii[..p] ==> x in ii;
    assert forall x :: x in ll[..q] ==> x in ll;
  }

  lemma {:induction false} EffectRecsRun(c: Config, n: Str, session: Str, outcome: Outcome, ii: seq<Str>, ll: seq<Str>, a: Acct, v: View)
    requires EffectIdsFit(a, session, outcome, ii, ll, v) && (outcome == Effective ==> AllNamed(a, session, ii))
    ensures AllFit(a, n, v, EffectRecs(c, n, session, outcome, ii, ll))
    ensures Run(a, EffectRecs(c, n, session, outcome, ii, ll), n) == AfterEffect(a, session, outcome, Elems(ii), Elems(ll))
    decreases |ii| + |ll|
  {
    assert ii != [] || ll != [];
    hide EffectIdsFit, AllNamed, Fits, AfterEffect, AllFit;
    if |ii| <= MAX_IDS && |ll| <= MAX_IDS {
      EffectOne(c, n, session, outcome, ii, ll, a, v);
      AllFitOne(a, n, v, Effect(EffectRec(c.at, n, session, outcome, ii, ll)));
    } else {
      var p, q := Min(MAX_IDS, |ii|), Min(MAX_IDS, |ll|);
      var r := Effect(EffectRec(c.at, n, session, outcome, ii[..p], ll[..q]));
      EffectRestFits(a, session, outcome, ii, ll, p, q, v);
      EffectOne(c, n, session, outcome, ii[..p], ll[..q], a, v);
      AllFitOne(a, n, v, r);
      EffectRecsRun(c, n, session, outcome, ii[p..], ll[q..], Step(a, r, n), v);
      var rest := EffectRecs(c, n, session, outcome, ii[p..], ll[q..]);
      AllFitConcat(a, n, v, [r], rest);
      RunConcat(a, [r], rest, n);
      assert Elems(ii) == Elems(ii[..p]) + Elems(ii[p..]) by { assert ii == ii[..p] + ii[p..]; }
      assert Elems(ll) == Elems(ll[..q]) + Elems(ll[q..]) by { assert ll == ll[..q] + ll[q..]; }
      EffectTwice(a, session, outcome, Elems(ii[..p]), Elems(ll[..q]), Elems(ii[p..]), Elems(ll[q..]));
    }
  }

  lemma SplitDistinct(s: seq<Str>, p: nat)
    requires Ascending(s) && p <= |s|
    ensures forall x :: x in s[p..] ==> x in s && x !in s[..p]
  {
    AscendingDistinct(s);
  }

  // ---------------------------------------------------------------- closing escalations

  /** The open escalations whose ids are not in `gone`. */
  function DropIds(open: seq<OpenEsc>, gone: set<Str>): seq<OpenEsc>
  {
    if open == [] then []
    else
      var p, e := DropIds(open[..|open| - 1], gone), open[|open| - 1];
      if e.rec.id in gone then p else p + [e]
  }

  lemma {:induction false} DropIdsMembers(open: seq<OpenEsc>, gone: set<Str>)
    ensures forall e :: e in DropIds(open, gone) <==> e in open && e.rec.id !in gone
  {
    if open != [] {
      DropIdsMembers(open[..|open| - 1], gone);
      assert open == open[..|open| - 1] + [open[|open| - 1]];
    }
  }

  lemma {:induction false} DropIdsNone(open: seq<OpenEsc>)
    ensures DropIds(open, {}) == open
  {
    if open != [] { DropIdsNone(open[..|open| - 1]); }
  }

  lemma {:induction false} DropIdsOne(open: seq<OpenEsc>, gone: set<Str>, id: Str)
    ensures DropOpen(DropIds(open, gone), id) == DropIds(open, gone + {id})
  {
    if open != [] {
      DropIdsOne(open[..|open| - 1], gone, id);
      var p, e := DropIds(open[..|open| - 1], gone), open[|open| - 1];
      assert (p + [e])[..|p|] == p;
    }
  }

  function EscIds(xs: seq<EscRec>): set<Str>
  {
    set x | x in xs :: x.id
  }

  predicate Closable(a: Acct, n: Str, x: EscRec, why: CloseWhy, v: View)
  {
    x.agent == n && v.session.Some? && (why == Moved <==> v.session.value != x.session) &&
    exists e :: e in a.open && e.rec == x && (why == Progress ==> !(e.episode <= v.pending))
  }

  lemma CloseOne(c: Config, n: Str, x: EscRec, why: CloseWhy, a: Acct, gone: set<Str>, v: View)
    requires Closable(a, n, x, why, v) && x.id !in gone
    ensures var b := a.(open := DropIds(a.open, gone));
            Fits(b, n, v, CloseOf(c, x, why)) && Step(b, CloseOf(c, x, why), n) == a.(open := DropIds(a.open, gone + {x.id}))
  {
    var e :| e in a.open && e.rec == x && (why == Progress ==> !(e.episode <= v.pending));
    DropIdsMembers(a.open, gone);
    DropIdsOne(a.open, gone, x.id);
    assert e in DropIds(a.open, gone);
  }

  lemma {:induction false} CloseAllRun(c: Config, n: Str, xs: seq<EscRec>, why: CloseWhy, a: Acct, v: View)
    requires DistinctIds(xs)
    requires forall x :: x in xs ==> Closable(a, n, x, why, v)
    ensures AllFit(a, n, v, CloseAll(c, xs, why))
    ensures Run(a, CloseAll(c, xs, why), n) == a.(open := DropIds(a.open, EscIds(xs)))
    decreases |xs|
  {
    hide DropIds, CloseOf, Closable, AllFit, Run;
    if xs == [] {
      RunNone(a, n, v);
      DropIdsNone(a.open);
      assert EscIds(xs) == {};
    } else {
      var m := |xs| - 1;
      var p, x := xs[..m], xs[m];
      CloseAllRun(c, n, p, why, a, v);
      assert x in xs;
      CloseOne(c, n, x, why, a, EscIds(p), v);
      AllFitSnoc(a, n, v, CloseAll(c, p, why), CloseOf(c, x, why));
      assert EscIds(xs) == EscIds(p) + {x.id} by { assert xs == p + [x]; }
    }
  }

  /** Closing escalations that are not this session's changes nothing this session sees. */
  lemma {:induction false} DropElsewhere(open: seq<OpenEsc>, gone: set<Str>, session: Str)
    requires forall e :: e in open && e.rec.id in gone ==> e.rec.session != session
    ensures UnresponsiveOf(DropIds(open, gone), session) == UnresponsiveOf(open, session)
    ensures StuckOf(DropIds(open, gone), session) == StuckOf(open, session)
  {
    if open != [] {
      DropElsewhere(open[..|open| - 1], gone, session);
      var p, e := DropIds(open[..|open| - 1], gone), open[|open| - 1];
      assert (p + [e])[..|p|] == p;
      assert e in open;
    }
  }

  /** What `UnresponsiveOf` finds is the one there is. */
  lemma {:induction false} UnresponsiveIsOpen(open: seq<OpenEsc>, session: Str)
    ensures var u := UnresponsiveOf(open, session);
            (u.Some? ==> u.value in open && u.value.rec.session == session && u.value.rec.reason == Unresponsive) &&
            (u.None? ==> forall e :: e in open ==> !(e.rec.session == session && e.rec.reason == Unresponsive))
  {
    if open != [] { UnresponsiveIsOpen(open[..|open| - 1], session); }
  }

  lemma UnresponsiveUnique(open: seq<OpenEsc>, session: Str, n: Str, e: OpenEsc)
    requires OpenWf(open, n) && e in open && e.rec.session == session && e.rec.reason == Unresponsive
    ensures UnresponsiveOf(open, session) == Some(e)
  {
    UnresponsiveIsOpen(open, session);
    var u := UnresponsiveOf(open, session).value;
    var j :| 0 <= j < |open| && open[j] == e;
    var k :| 0 <= k < |open| && open[k] == u;
    assert j < k ==> !SameKey(open[j].rec, open[k].rec);
    assert k < j ==> !SameKey(open[k].rec, open[j].rec);
  }

  lemma {:induction false} DropUnresponsive(open: seq<OpenEsc>, session: Str, n: Str)
    requires OpenWf(open, n) && UnresponsiveOf(open, session).Some?
    ensures var gone := {UnresponsiveOf(open, session).value.rec.id};
            UnresponsiveOf(DropIds(open, gone), session) == None && StuckOf(DropIds(open, gone), session) == StuckOf(open, session)
  {
    var u := UnresponsiveOf(open, session).value;
    UnresponsiveIsOpen(open, session);
    UnresponsiveIsOpen(DropIds(open, {u.rec.id}), session);
    DropIdsMembers(open, {u.rec.id});
    forall e | e in DropIds(open, {u.rec.id}) ensures !(e.rec.session == session && e.rec.reason == Unresponsive)
    {
      if e.rec.session == session && e.rec.reason == Unresponsive { UnresponsiveUnique(open, session, n, e); }
    }
    DropNotStuck(open, {u.rec.id}, session);
  }

  lemma {:induction false} DropNotStuck(open: seq<OpenEsc>, gone: set<Str>, session: Str)
    requires forall e :: e in open && e.rec.id in gone ==> !(e.rec.session == session && e.rec.reason == IdStuck)
    ensures StuckOf(DropIds(open, gone), session) == StuckOf(open, session)
  {
    if open != [] {
      DropNotStuck(open[..|open| - 1], gone, session);
      var p, e := DropIds(open[..|open| - 1], gone), open[|open| - 1];
      assert (p + [e])[..|p|] == p;
      assert e in open;
    }
  }

  lemma {:induction false} DropNotUnresponsive(open: seq<OpenEsc>, gone: set<Str>, session: Str)
    requires forall e :: e in open && e.rec.id in gone ==> !(e.rec.session == session && e.rec.reason == Unresponsive)
    ensures UnresponsiveOf(DropIds(open, gone), session) == UnresponsiveOf(open, session)
  {
    if open != [] {
      DropNotUnresponsive(open[..|open| - 1], gone, session);
      var p, e := DropIds(open[..|open| - 1], gone), open[|open| - 1];
      assert (p + [e])[..|p|] == p;
      assert e in open;
    }
  }

  /** Closing exactly the stuck escalations whose id has left leaves exactly the others. */
  lemma {:induction false} DropStuck(open: seq<OpenEsc>, gone: set<Str>, session: Str, pending: set<Str>)
    requires forall x :: x in StuckOf(open, session) ==> x.ids != [] && (x.id in gone <==> x.ids[0] !in pending)
    ensures StuckOf(DropIds(open, gone), session) == StuckGone(StuckOf(open, session), pending, false)
  {
    if open != [] {
      var q, e := open[..|open| - 1], open[|open| - 1];
      var p, s := DropIds(q, gone), StuckOf(q, session);
      assert forall x :: x in s ==> x in StuckOf(open, session);
      DropStuck(q, gone, session, pending);
      assert (p + [e])[..|p|] == p;
      if e.rec.session == session && e.rec.reason == IdStuck {
        assert StuckOf(open, session)[|s|] == e.rec;
        assert e.rec in StuckOf(open, session);
        assert (s + [e.rec])[..|s|] == s;
      }
    }
  }

  // ---------------------------------------------------------------- the rescue

  lemma SameRing(rings: seq<IntentRec>, n: Str, i: IntentRec, j: IntentRec)
    requires RingsWf(rings, n) && i in rings && j in rings && i.id == j.id
    ensures i == j
  {
  }

  /** The ids of the unjudged rings of these sessions. */
  function IdsIn(u: seq<IntentRec>, sessions: set<Str>): set<Str>
  {
    set i | i in u && i.session in sessions :: i.id
  }

  lemma MootIds(u: seq<IntentRec>, gone: set<Str>, s: Str)
    ensures IdsIn(u, gone + {s}) == IdsIn(u, gone) + IdsOfRings(OfSession(u, s))
  {
    OfSessionMembers(u, s);
    var l, r := IdsIn(u, gone + {s}), IdsIn(u, gone) + IdsOfRings(OfSession(u, s));
    forall x | x in l ensures x in r
    {
      var i :| i in u && i.session in gone + {s} && i.id == x;
      if i.session == s { assert i in OfSession(u, s); }
    }
  }

  lemma MootJudgeable(n: Str, s: Str, gone: set<Str>, a: Acct, i: IntentRec)
    requires AcctWf(a, n) && s !in gone && i in a.rings && i.id !in a.judged && i.session == s
    ensures Judgeable(a.(judged := a.judged + IdsIn(Unjudged(a.rings, a.judged), gone)), s, i.id)
  {
    var u := Unjudged(a.rings, a.judged);
    UnjudgedMembers(a.rings, a.judged);
    forall j | j in u && j.session in gone ensures j.id != i.id
    {
      if j.id == i.id { SameRing(a.rings, n, i, j); }
    }
  }

  predicate HasRingOf(u: seq<IntentRec>, s: Str)
  {
    exists i :: i in u && i.session == s
  }

  lemma MootOne(n: Str, s: Str, gone: set<Str>, a: Acct, v: View)
    requires AcctWf(a, n) && v.session.Some? && v.session.value != s && s !in gone
    requires HasRingOf(Unjudged(a.rings, a.judged), s)
    ensures var u := Unjudged(a.rings, a.judged);
            EffectIdsFit(a.(judged := a.judged + IdsIn(u, gone)), s, SessionChanged, SortedSet(IdsOfRings(OfSession(u, s))), [], v)
  {
    var u := Unjudged(a.rings, a.judged);
    UnjudgedMembers(a.rings, a.judged);
    OfSessionMembers(u, s);
    var r :| r in u && r.session == s;
    assert r in OfSession(u, s) && r.id in SortedSet(IdsOfRings(OfSession(u, s)));
    forall x | x in SortedSet(IdsOfRings(OfSession(u, s))) ensures Judgeable(a.(judged := a.judged + IdsIn(u, gone)), s, x)
    {
      var i :| i in OfSession(u, s) && i.id == x;
      MootJudgeable(n, s, gone, a, i);
    }
  }

  lemma ElemsSorted(s: set<Str>)
    ensures Elems(SortedSet(s)) == s
  {
  }

  lemma MootStep(c: Config, n: Str, s: Str, gone: set<Str>, a: Acct, v: View, before: seq<Rec>)
    requires AcctWf(a, n) && v.session.Some? && v.session.value != s && s !in gone
    requires AllFit(a, n, v, before) && HasRingOf(Unjudged(a.rings, a.judged), s)
    requires Run(a, before, n) == a.(judged := a.judged + IdsIn(Unjudged(a.rings, a.judged), gone))
    ensures var u := Unjudged(a.rings, a.judged);
            var recs := before + EffectRecs(c, n, s, SessionChanged, SortedSet(IdsOfRings(OfSession(u, s))), []);
            AllFit(a, n, v, recs) && Run(a, recs, n) == a.(judged := a.judged + IdsIn(u, gone + {s}))
  {
    var u := Unjudged(a.rings, a.judged);
    hide AllFit, Run, EffectRecs, Unjudged, OfSession, IdsOfRings, IdsIn, EffectIdsFit, AcctWf;
    var ids := IdsOfRings(OfSession(u, s));
    var b := Run(a, before, n);
    MootOne(n, s, gone, a, v);
    EffectRecsRun(c, n, s, SessionChanged, SortedSet(ids), [], b, v);
    var rest := EffectRecs(c, n, s, SessionChanged, SortedSet(ids), []);
    AllFitConcat(a, n, v, before, rest);
    RunConcat(a, before, rest, n);
    ElemsSorted(ids);
    MootIds(u, gone, s);
    assert (a.judged + IdsIn(u, gone)) + ids == a.judged + IdsIn(u, gone + {s});
  }

  lemma RunNone(a: Acct, n: Str, v: View)
    ensures AllFit(a, n, v, []) && Run(a, [], n) == a
  {
  }

  lemma {:induction false} MootEffectsRun(c: Config, n: Str, sessions: seq<Str>, a: Acct, v: View)
    requires AcctWf(a, n) && v.session.Some? && v.session.value !in sessions
    requires forall j, k :: 0 <= j < k < |sessions| ==> sessions[j] != sessions[k]
    requires forall s :: s in sessions ==> HasRingOf(Unjudged(a.rings, a.judged), s)
    ensures var u := Unjudged(a.rings, a.judged);
            AllFit(a, n, v, MootEffects(c, n, u, sessions)) &&
            Run(a, MootEffects(c, n, u, sessions), n) == a.(judged := a.judged + IdsIn(u, Elems(sessions)))
    decreases |sessions|
  {
    hide Unjudged, AllFit, Run, AcctWf, EffectRecs, IdsOfRings, OfSession;
    var u := Unjudged(a.rings, a.judged);
    if sessions == [] {
      RunNone(a, n, v);
      assert IdsIn(u, Elems(sessions)) == {};
      assert a.judged + {} == a.judged;
    } else {
      var m := |sessions| - 1;
      var p, s := sessions[..m], sessions[m];
      MootEffectsRun(c, n, p, a, v);
      assert s in sessions;
      MootStep(c, n, s, Elems(p), a, v, MootEffects(c, n, u, p));
      assert Elems(sessions) == Elems(p) + {s} by { assert sessions == p + [s]; }
    }
  }

  predicate DistinctIds(xs: seq<EscRec>)
  {
    forall j, k :: 0 <= j < k < |xs| ==> xs[j].id != xs[k].id
  }

  lemma {:induction false} ElsewhereDistinct(open: seq<OpenEsc>, session: Str, n: Str)
    requires OpenWf(open, n)
    ensures DistinctIds(ElsewhereOf(open, session))
  {
    if open != [] {
      var q, last := open[..|open| - 1], open[|open| - 1];
      ElsewhereDistinct(q, session, n);
      ElsewhereOfMembers(q, session);
      var xs := ElsewhereOf(q, session);
      forall x | x in xs ensures x.id != last.rec.id
      {
        var e :| e in q && e.rec == x;
        var k :| 0 <= k < |q| && q[k] == e;
        assert open[k] == e;
      }
    }
  }

  lemma {:induction false} UnjudgedAgree(rings: seq<IntentRec>, j1: set<Str>, j2: set<Str>)
    requires forall i :: i in rings ==> (i.id in j1 <==> i.id in j2)
    ensures Unjudged(rings, j1) == Unjudged(rings, j2)
  {
    if rings != [] {
      assert rings[|rings| - 1] in rings;
      UnjudgedAgree(rings[..|rings| - 1], j1, j2);
    }
  }

  /** The account after the rescue: other sessions' rings judged, other sessions' escalations closed. */
  function Rescued(a: Acct, session: Str): Acct
  {
    var u := Unjudged(a.rings, a.judged);
    a.(judged := a.judged + IdsIn(u, Elems(MootSessions(u, session))),
       open := DropIds(a.open, EscIds(ElsewhereOf(a.open, session))))
  }

  lemma MootRun(c: Config, n: Str, a: Acct, session: Str, v: View)
    requires AcctWf(a, n) && v.session == Some(session)
    ensures AllFit(a, n, v, MootRecs(c, n, a, session))
    ensures Run(a, MootRecs(c, n, a, session), n) == Rescued(a, session)
  {
    var u := Unjudged(a.rings, a.judged);
    var ss, xs := MootSessions(u, session), ElsewhereOf(a.open, session);
    MootSessionsMembers(u, session);
    MootEffectsRun(c, n, ss, a, v);
    var b := Run(a, MootEffects(c, n, u, ss), n);
    ElsewhereDistinct(a.open, session, n);
    ElsewhereOfMembers(a.open, session);
    forall x | x in xs ensures Closable(b, n, x, Moved, v)
    {
      var e :| e in a.open && e.rec == x;
      assert exists k :: 0 <= k < |a.open| && a.open[k] == e;
    }
    CloseAllRun(c, n, xs, Moved, b, v);
    AllFitConcat(a, n, v, MootEffects(c, n, u, ss), CloseAll(c, xs, Moved));
    RunConcat(a, MootEffects(c, n, u, ss), CloseAll(c, xs, Moved), n);
  }

  /** The rescue is invisible to this session's ledger, and leaves nothing of another session behind. */
  lemma RescueUnseen(a: Acct, n: Str, session: Str, mono: map<Str, int>)
    requires AcctWf(a, n)
    ensures LedgerOf(Rescued(a, session), session, mono) == LedgerOf(a, session, mono)
    ensures forall r :: r in a.rings && r.session != session ==> r.id in Rescued(a, session).judged
    ensures forall e :: e in Rescued(a, session).open ==> e.rec.session == session
  {
    var u := Unjudged(a.rings, a.judged);
    var b := Rescued(a, session);
    UnjudgedMembers(a.rings, a.judged);
    MootSessionsMembers(u, session);
    OfSessionMembers(a.rings, session);
    ElsewhereOfMembers(a.open, session);
    DropIdsMembers(a.open, EscIds(ElsewhereOf(a.open, session)));
    var mine := OfSession(a.rings, session);
    forall i | i in mine ensures i.id in a.judged <==> i.id in b.judged
    {
      forall j | j in u && j.session in MootSessions(u, session) ensures j.id != i.id
      {
        if j.id == i.id { SameRing(a.rings, n, i, j); }
      }
    }
    UnjudgedAgree(mine, a.judged, b.judged);
    forall e | e in a.open && e.rec.id in EscIds(ElsewhereOf(a.open, session)) ensures e.rec.session != session
    {
      var x :| x in ElsewhereOf(a.open, session) && x.id == e.rec.id;
      var f :| f in a.open && f.rec == x;
    }
    DropElsewhere(a.open, EscIds(ElsewhereOf(a.open, session)), session);
  }
}
