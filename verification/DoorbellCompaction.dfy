/** Compaction is invisible: what the kept records say about an agent is what all of them said. */
module DoorbellCompaction {
  import opened Canon
  import opened DoorbellLog
  import opened DoorbellLedger
  import opened DoorbellPlan
  import opened DoorbellAdmit
  import opened DoorbellWf
  import opened DoorbellKeep
  import opened Wrappers

  // ---------------------------------------------------------------- a selection of a log

  lemma {:induction false} PickMembers(log: seq<Rec>, now: map<Str, View>, kept: set<Str>, m: nat)
    requires m <= |log|
    ensures forall r :: r in Pick(log, now, kept, m) ==> exists j :: 0 <= j < m && log[j] == r && KeepAt(log, now, kept, j)
    ensures forall j :: 0 <= j < m && KeepAt(log, now, kept, j) ==> log[j] in Pick(log, now, kept, m)
  {
    hide KeepAt;
    if m > 0 { PickMembers(log, now, kept, m - 1); }
  }

  lemma {:induction false} PickWf(log: seq<Rec>, now: map<Str, View>, kept: set<Str>, m: nat)
    requires m <= |log| && WfLog(log)
    ensures WfLog(Pick(log, now, kept, m))
  {
    hide KeepAt;
    if m > 0 {
      PickWf(log, now, kept, m - 1);
      PickMembers(log, now, kept, m - 1);
      var p := Pick(log, now, kept, m - 1);
      forall s | s in p ensures PairOk(s, log[m - 1])
      {
        var j :| 0 <= j < m - 1 && log[j] == s;
        assert PairOk(log[j], log[m - 1]);
      }
      WfAppend(p, log[m - 1]);
    }
  }

  lemma AccountSnoc(log: seq<Rec>, m: nat, n: Str)
    requires m < |log|
    ensures Account(log[..m + 1], n) == Step(Account(log[..m], n), log[m], n)
  {
    assert log[..m + 1] == log[..m] + [log[m]];
    RunAppend(NOTHING, log[..m], log[m], n);
  }

  lemma PickSnoc(log: seq<Rec>, now: map<Str, View>, kept: set<Str>, m: nat, n: Str)
    requires m < |log|
    ensures var b := Account(Pick(log, now, kept, m), n);
            Account(Pick(log, now, kept, m + 1), n) == if KeepAt(log, now, kept, m) then Step(b, log[m], n) else b
  {
    hide KeepAt;
    RunAppend(NOTHING, Pick(log, now, kept, m), log[m], n);
  }

  // ---------------------------------------------------------------- rings, judgements and recorded leavings

  function KeptRings(rings: seq<IntentRec>, kept: set<Str>): seq<IntentRec>
  {
    if rings == [] then []
    else
      var p, i := KeptRings(rings[..|rings| - 1], kept), rings[|rings| - 1];
      if i.id in kept then p + [i] else p
  }

  lemma {:induction false} KeptRingsMembers(rings: seq<IntentRec>, kept: set<Str>)
    ensures forall i :: i in KeptRings(rings, kept) <==> i in rings && i.id in kept
  {
    if rings != [] {
      KeptRingsMembers(rings[..|rings| - 1], kept);
      assert rings == rings[..|rings| - 1] + [rings[|rings| - 1]];
    }
  }

  lemma KeptRingsSnoc(rings: seq<IntentRec>, i: IntentRec, kept: set<Str>)
    ensures KeptRings(rings + [i], kept) == if i.id in kept then KeptRings(rings, kept) + [i] else KeptRings(rings, kept)
  {
    assert (rings + [i])[..|rings|] == rings;
  }

  lemma IntentKept(log: seq<Rec>, now: map<Str, View>, kept: set<Str>, m: nat)
    requires m < |log|
    ensures log[m].Intent? ==> (KeepAt(log, now, kept, m) <==> log[m].i.id in kept)
  {
  }

  lemma PickNothing(log: seq<Rec>, now: map<Str, View>, kept: set<Str>, n: Str)
    ensures Account(Pick(log, now, kept, 0), n).rings == [] && Account(log[..0], n).rings == [] && KeptRings([], kept) == []
  {
    assert log[..0] == [];
  }

  lemma {:induction false} PickRings(log: seq<Rec>, now: map<Str, View>, kept: set<Str>, m: nat, n: Str)
    requires m <= |log|
    ensures Account(Pick(log, now, kept, m), n).rings == KeptRings(Account(log[..m], n).rings, kept)
  {
    if m == 0 {
      PickNothing(log, now, kept, n);
    } else {
      hide *;
      PickRings(log, now, kept, m - 1, n);
      AccountSnoc(log, m - 1, n);
      PickSnoc(log, now, kept, m - 1, n);
      StepRingsOnly(Account(Pick(log, now, kept, m - 1), n), log[m - 1], n);
      StepRingsOnly(Account(log[..m - 1], n), log[m - 1], n);
      var rs, r := Account(log[..m - 1], n).rings, log[m - 1];
      IntentKept(log, now, kept, m - 1);
      if r.Intent? && r.i.agent == n { KeptRingsSnoc(rs, r.i, kept); }
    }
  }

  lemma StepRingsOnly(a: Acct, r: Rec, n: Str)
    ensures Step(a, r, n).rings == if r.Intent? && r.i.agent == n then a.rings + [r.i] else a.rings
  {
  }

  lemma {:induction false} PickJudged(log: seq<Rec>, now: map<Str, View>, kept: set<Str>, m: nat, n: Str)
    requires m <= |log|
    ensures forall x :: x in kept ==> (x in Account(Pick(log, now, kept, m), n).judged <==> x in Account(log[..m], n).judged)
  {
    if m > 0 {
      PickJudged(log, now, kept, m - 1, n);
      AccountSnoc(log, m - 1, n);
      PickSnoc(log, now, kept, m - 1, n);
      StepJudged(Account(Pick(log, now, kept, m - 1), n), log[m - 1], n);
      StepJudged(Account(log[..m - 1], n), log[m - 1], n);
      EffectKept(log, now, kept, m - 1, n);
      hide Step, KeepAt, Account, JudgedBy;
    }
  }

  /** The ids a record judges for an agent. */
  function JudgedBy(r: Rec, n: Str): set<Str>
  {
    if r.Effect? && r.e.agent == n then Elems(r.e.intents) else {}
  }

  lemma StepJudged(a: Acct, r: Rec, n: Str)
    ensures Step(a, r, n).judged == a.judged + JudgedBy(r, n)
  {
  }

  /** A record not kept judges nothing kept. */
  lemma EffectKept(log: seq<Rec>, now: map<Str, View>, kept: set<Str>, m: nat, n: Str)
    requires m < |log|
    ensures !KeepAt(log, now, kept, m) ==> JudgedBy(log[m], n) !! kept
  {
    hide KeptKeys;
  }

  lemma {:induction false} PickLeft(log: seq<Rec>, now: map<Str, View>, kept: set<Str>, m: nat, n: Str)
    requires m <= |log|
    ensures Account(Pick(log, now, kept, m), n).left <= Account(log[..m], n).left
    ensures forall s, id :: (s, id) in Account(log[..m], n).left && (n, s, id) in KeptKeys(log, kept) ==>
              (s, id) in Account(Pick(log, now, kept, m), n).left
  {
    hide KeptKeys;
    if m > 0 {
      PickLeft(log, now, kept, m - 1, n);
      AccountSnoc(log, m - 1, n);
      PickSnoc(log, now, kept, m - 1, n);
    }
  }

  /** What a record does to a session's ineffective run: ends it, adds to it, or nothing. */
  function StreakBy(r: Rec, n: Str, session: Str, before: nat): nat
  {
    if !(r.Effect? && r.e.agent == n && r.e.session == session) then before
    else
      match r.e.outcome
      case Effective => 0
      case Ineffective => before + 1
      case SessionChanged => before
  }

  lemma StepStreak(a: Acct, r: Rec, n: Str, session: Str)
    ensures Streak(Step(a, r, n), session) == StreakBy(r, n, session, Streak(a, session))
  {
  }

  /** The current session's effects since its last `effective` record are kept, that record among them. */
  lemma StreakKept(log: seq<Rec>, now: map<Str, View>, kept: set<Str>, m: nat, n: Str, session: Str)
    requires m < |log| && CurrentSession(now, n, session) && forall k :: m < k < |log| ==> !EffectiveAt(log, k, n, session)
    ensures log[m].Effect? && log[m].e.agent == n && log[m].e.session == session ==> KeepAt(log, now, kept, m)
    ensures EffectiveAt(log, m, n, session) ==> log[m].Effect? && log[m].e.agent == n && log[m].e.session == session && log[m].e.outcome == Effective
  {
    hide KeptKeys;
  }

  /** Once the session's last `effective` record is behind, its ineffective run is kept whole. */
  lemma {:induction false} PickStreak(log: seq<Rec>, now: map<Str, View>, kept: set<Str>, m: nat, n: Str, session: Str)
    requires m <= |log| && CurrentSession(now, n, session)
    requires forall k :: m <= k < |log| ==> !EffectiveAt(log, k, n, session)
    ensures Streak(Account(Pick(log, now, kept, m), n), session) == Streak(Account(log[..m], n), session)
  {
    hide KeptKeys;
    if m > 0 {
      AccountSnoc(log, m - 1, n);
      PickSnoc(log, now, kept, m - 1, n);
      StepStreak(Account(Pick(log, now, kept, m - 1), n), log[m - 1], n, session);
      StepStreak(Account(log[..m - 1], n), log[m - 1], n, session);
      StreakKept(log, now, kept, m - 1, n, session);
      if !EffectiveAt(log, m - 1, n, session) { PickStreak(log, now, kept, m - 1, n, session); }
      hide Step, KeepAt, Account, Streak, CurrentSession;
    }
  }

  // ---------------------------------------------------------------- open escalations

  function OnlyIds(open: seq<OpenEsc>, ids: set<Str>): seq<OpenEsc>
  {
    if open == [] then []
    else
      var p, e := OnlyIds(open[..|open| - 1], ids), open[|open| - 1];
      if e.rec.id in ids then p + [e] else p
  }

  lemma {:induction false} OnlyIdsAll(open: seq<OpenEsc>, ids: set<Str>)
    requires forall e :: e in open ==> e.rec.id in ids
    ensures OnlyIds(open, ids) == open
  {
    if open != [] {
      assert open[|open| - 1] in open;
      OnlyIdsAll(open[..|open| - 1], ids);
    }
  }

  lemma {:induction false} OnlyIdsMembers(open: seq<OpenEsc>, ids: set<Str>)
    ensures forall e :: e in OnlyIds(open, ids) <==> e in open && e.rec.id in ids
  {
    if open != [] {
      OnlyIdsMembers(open[..|open| - 1], ids);
      assert open == open[..|open| - 1] + [open[|open| - 1]];
    }
  }

  lemma {:induction false} OnlyIdsNote(open: seq<OpenEsc>, ids: set<Str>, i: IntentRec)
    ensures OnlyIds(NoteExtra(open, i), ids) == NoteExtra(OnlyIds(open, ids), i)
  {
    if open != [] {
      var q, e := open[..|open| - 1], open[|open| - 1];
      OnlyIdsNote(q, ids, i);
      assert NoteExtra(open, i)[..|open| - 1] == NoteExtra(q, i);
      var p := OnlyIds(q, ids);
      assert (p + [e])[..|p|] == p;
    }
  }

  /** A ring that belongs to none of the episodes kept leaves them as they are. */
  lemma {:induction false} OnlyIdsUnnoted(open: seq<OpenEsc>, ids: set<Str>, i: IntentRec)
    requires forall e :: e in open && e.rec.id in ids ==> Noted(e, i) == e
    ensures OnlyIds(NoteExtra(open, i), ids) == OnlyIds(open, ids)
  {
    if open != [] {
      var q, e := open[..|open| - 1], open[|open| - 1];
      assert e in open;
      OnlyIdsUnnoted(q, ids, i);
      assert NoteExtra(open, i)[..|open| - 1] == NoteExtra(q, i);
    }
  }

  lemma {:induction false} OnlyIdsDrop(open: seq<OpenEsc>, ids: set<Str>, id: Str)
    requires id !in ids
    ensures OnlyIds(DropOpen(open, id), ids) == OnlyIds(open, ids)
  {
    if open != [] {
      var q, e := open[..|open| - 1], open[|open| - 1];
      OnlyIdsDrop(q, ids, id);
      var p := DropOpen(q, id);
      assert (p + [e])[..|p|] == p;
    }
  }

  function OpenIds(open: seq<OpenEsc>): set<Str>
  {
    set e | e in open :: e.rec.id
  }

  lemma NoteExtraIds(open: seq<OpenEsc>, i: IntentRec)
    ensures OpenIds(NoteExtra(open, i)) == OpenIds(open)
  {
    var t := NoteExtra(open, i);
    forall x | x in OpenIds(open) ensures x in OpenIds(t)
    {
      var e :| e in open && e.rec.id == x;
      var k :| 0 <= k < |open| && open[k] == e;
      assert t[k] in t;
    }
    forall x | x in OpenIds(t) ensures x in OpenIds(open)
    {
      var e :| e in t && e.rec.id == x;
      var k :| 0 <= k < |t| && t[k] == e;
      assert open[k] in open;
    }
  }

  /** An open record is never re-opened under its id, so it joins the open list at its end. */
  lemma OpensLast(log: seq<Rec>, m: nat, n: Str)
    requires m < |log| && WfLog(log) && log[m].Escalation? && log[m].x.isOpen && log[m].x.agent == n
    ensures var x := log[m].x;
            !HasOpen(Account(log[..m], n).open, x.id) &&
            Account(log[..m + 1], n).open == Account(log[..m], n).open + [OpenEsc(x, Elems(x.ids), false)]
  {
    var x := log[m].x;
    AccountSnoc(log, m, n);
    WfPrefix(log, m);
    OpenAlone(log[..m], n);
    var open := Account(log[..m], n).open;
    forall k | 0 <= k < |open| ensures open[k].rec.id != x.id
    {
      assert open[k] in open;
      var j :| 0 <= j < m && log[..m][j] == Escalation(open[k].rec);
      assert PairOk(log[j], log[m]);
    }
  }

  /** An escalation opened at `m` is open at the end exactly when no later record has its id. */
  lemma {:induction false} StaysOpen(log: seq<Rec>, m: nat, q: nat, n: Str)
    requires m < q <= |log| && WfLog(log) && log[m].Escalation? && log[m].x.isOpen && log[m].x.agent == n
    ensures log[m].x.id in OpenIds(Account(log[..q], n).open) <==> forall k :: m < k < q ==> !SameEscAt(log, k, log[m].x.id)
    decreases q
  {
    var x := log[m].x;
    AccountSnoc(log, q - 1, n);
    if q == m + 1 {
      OpensLast(log, m, n);
      var open := Account(log[..q], n).open;
      assert open[|open| - 1] in open;
    } else {
      StaysOpen(log, m, q - 1, n);
      StaysOpenStep(log, m, q, n);
    }
  }

  lemma StaysOpenStep(log: seq<Rec>, m: nat, q: nat, n: Str)
    requires m < q - 1 < |log| && WfLog(log) && log[m].Escalation? && log[m].x.isOpen && log[m].x.agent == n
    ensures log[m].x.id in OpenIds(Account(log[..q], n).open) <==>
            log[m].x.id in OpenIds(Account(log[..q - 1], n).open) && !SameEscAt(log, q - 1, log[m].x.id)
  {
    var x, r := log[m].x, log[q - 1];
    AccountSnoc(log, q - 1, n);
    assert PairOk(log[m], log[q - 1]);
    var open := Account(log[..q - 1], n).open;
    if r.Escalation? && r.x.agent == n && r.x.isOpen {
      OpensLast(log, q - 1, n);
    } else if r.Escalation? && r.x.agent == n {
      DropOpenMembers(open, r.x.id);
    } else if r.Intent? && r.i.agent == n && r.i.during {
      NoteExtraIds(open, r.i);
    }
  }

  // ---------------------------------------------------------------- the extra ring of an episode

  predicate Matches(e: OpenEsc, i: IntentRec)
  {
    e.rec.reason == Unresponsive && e.rec.session == i.session
  }

  /** An episode gets at most one extra ring. */
  predicate ExtraOnce(h: seq<Rec>, n: Str)
  {
    forall m :: 0 <= m < |h| && h[m].Intent? && h[m].i.agent == n && h[m].i.during ==>
      forall e :: e in Account(h[..m], n).open && Matches(e, h[m].i) ==> !e.extra
  }

  /** The keep rule's own bookkeeping of open episodes agrees with the account's. */
  lemma {:induction false} ExtrasOpen(h: seq<Rec>, n: Str)
    requires WfLog(h)
    ensures forall e :: e in Account(h, n).open && e.rec.reason == Unresponsive ==>
              e.rec.id in ExtrasOf(h).open && ExtrasOf(h).open[e.rec.id] == (n, e.rec.session)
  {
    if h != [] {
      var p, r := h[..|h| - 1], h[|h| - 1];
      WfPrefix(h, |h| - 1);
      ExtrasOpen(p, n);
      OpenAlone(h, n);
      assert h == p + [r];
      var a := Account(p, n);
      forall e | e in Account(h, n).open && e.rec.reason == Unresponsive
        ensures e.rec.id in ExtrasOf(h).open && ExtrasOf(h).open[e.rec.id] == (n, e.rec.session)
      {
        assert r in h;
        ExtrasOpenStep(p, n, r, e);
      }
    }
  }

  lemma ExtrasOpenStep(p: seq<Rec>, n: Str, r: Rec, e: OpenEsc)
    requires forall f :: f in Account(p, n).open && f.rec.reason == Unresponsive ==>
               f.rec.id in ExtrasOf(p).open && ExtrasOf(p).open[f.rec.id] == (n, f.rec.session)
    requires e in Step(Account(p, n), r, n).open && e.rec.reason == Unresponsive && e.rec.agent == n
    requires r.Escalation? && r.x.id == e.rec.id ==> r == Escalation(e.rec) && e.rec.isOpen
    ensures e.rec.id in ExtraStep(ExtrasOf(p), r).open && ExtraStep(ExtrasOf(p), r).open[e.rec.id] == (n, e.rec.session)
  {
    var a := Account(p, n);
    if r.Escalation? && r.x.agent == n && !r.x.isOpen {
      DropOpenMembers(a.open, r.x.id);
    } else if r.Intent? && r.i.agent == n && r.i.during {
      var k :| 0 <= k < |a.open| && e == Noted(a.open[k], r.i);
      assert a.open[k] in a.open;
    }
  }

  /** The entry of an escalation id, wherever it is in the open list. */
  predicate HasExtra(open: seq<OpenEsc>, id: Str)
  {
    exists e :: e in open && e.rec.id == id && e.extra && e.rec.reason == Unresponsive
  }

  lemma ExtraStepKeeps(log: seq<Rec>, q: nat, n: Str, id: Str, ring: Str)
    requires q < |log| && WfLog(log) && ExtraOnce(log, n)
    requires HasExtra(Account(log[..q], n).open, id)
    requires id in ExtrasOf(log[..q]).extraOf && ExtrasOf(log[..q]).extraOf[id] == ring
    requires id in OpenIds(Account(log[..q + 1], n).open)
    ensures HasExtra(Account(log[..q + 1], n).open, id)
    ensures id in ExtrasOf(log[..q + 1]).extraOf && ExtrasOf(log[..q + 1]).extraOf[id] == ring
  {
    var r, a := log[q], Account(log[..q], n);
    AccountSnoc(log, q, n);
    WfPrefix(log, q);
    ExtrasOpen(log[..q], n);
    assert log[..q + 1][..q] == log[..q] && log[..q + 1][q] == r;
    var e :| e in a.open && e.rec.id == id && e.extra && e.rec.reason == Unresponsive;
    assert r.Intent? && r.i.during && r.i.agent == n ==> !Matches(e, r.i);
    if r.Escalation? && r.x.agent == n && r.x.isOpen { OpensLast(log, q, n); }
    ExtraKeptIn(ExtrasOf(log[..q]), r, n, e, ring);
    hide WfLog, ExtraOnce, ExtraStep, Step;
    OpenKeptIn(a, r, n, e);
  }

  /** An extra ring already noted stays noted in the replay while no ring of its own episode comes. */
  lemma ExtraKeptIn(x: Extras, r: Rec, n: Str, e: OpenEsc, ring: Str)
    requires e.rec.id in x.open && x.open[e.rec.id] == (n, e.rec.session) && e.rec.id in x.extraOf && x.extraOf[e.rec.id] == ring
    requires e.rec.reason == Unresponsive && (r.Intent? && r.i.during && r.i.agent == n ==> !Matches(e, r.i))
    ensures e.rec.id in ExtraStep(x, r).extraOf && ExtraStep(x, r).extraOf[e.rec.id] == ring
  {
  }

  /** And in the account, unless the record closes it. */
  lemma OpenKeptIn(a: Acct, r: Rec, n: Str, e: OpenEsc)
    requires e in a.open && e.extra && e.rec.reason == Unresponsive && e.rec.id in OpenIds(Step(a, r, n).open)
    requires r.Intent? && r.i.during && r.i.agent == n ==> !Matches(e, r.i)
    requires r.Escalation? && r.x.agent == n && r.x.isOpen ==> !HasOpen(a.open, r.x.id) && Step(a, r, n).open == a.open + [OpenEsc(r.x, Elems(r.x.ids), false)]
    ensures HasExtra(Step(a, r, n).open, e.rec.id)
  {
    var open := Step(a, r, n).open;
    if AgentOf(r) == Some(n) {
      if r.Intent? && r.i.during {
        var k :| 0 <= k < |a.open| && a.open[k] == e;
        assert Noted(e, r.i) == e && NoteExtra(a.open, r.i)[k] == e;
        assert e in open;
      } else if r.Escalation? && !r.x.isOpen {
        DropOpenMembers(a.open, r.x.id);
      }
    }
    assert e in open;
  }

  function FinalOpen(log: seq<Rec>, n: Str): set<Str>
  {
    OpenIds(Account(log, n).open)
  }

  /** What is open at `m` and at the end was open all the while. */
  lemma OpenThroughout(log: seq<Rec>, m: nat, q: nat, n: Str, e: OpenEsc)
    requires m <= q <= |log| && WfLog(log) && e in Account(log[..m], n).open && e.rec.id in FinalOpen(log, n)
    ensures e.rec.id in OpenIds(Account(log[..q], n).open)
  {
    WfPrefix(log, m);
    OpenAlone(log[..m], n);
    var j :| 0 <= j < m && log[..m][j] == Escalation(e.rec);
    assert log[j] == Escalation(e.rec) && log[..|log|] == log;
    StaysOpen(log, j, |log|, n);
    StaysOpen(log, j, q, n);
  }

  lemma {:induction false} ExtraPersists(log: seq<Rec>, m: nat, q: nat, n: Str, e: OpenEsc, ring: Str)
    requires m < q <= |log| && WfLog(log) && ExtraOnce(log, n)
    requires e in Account(log[..m], n).open && e.rec.id in FinalOpen(log, n)
    requires HasExtra(Account(log[..m + 1], n).open, e.rec.id)
    requires e.rec.id in ExtrasOf(log[..m + 1]).extraOf && ExtrasOf(log[..m + 1]).extraOf[e.rec.id] == ring
    ensures HasExtra(Account(log[..q], n).open, e.rec.id)
    ensures e.rec.id in ExtrasOf(log[..q]).extraOf && ExtrasOf(log[..q]).extraOf[e.rec.id] == ring
    decreases q
  {
    if q > m + 1 {
      ExtraPersists(log, m, q - 1, n, e, ring);
      OpenThroughout(log, m, q, n, e);
      ExtraStepKeeps(log, q - 1, n, e.rec.id, ring);
    }
  }

  /** The extra ring of an escalation still open at the end is kept by rule (f). */
  lemma ExtraIsKept(log: seq<Rec>, m: nat, n: Str, e: OpenEsc)
    requires m < |log| && WfLog(log) && ExtraOnce(log, n) && log[m].Intent? && log[m].i.agent == n && log[m].i.during
    requires e in Account(log[..m], n).open && Matches(e, log[m].i) && e.rec.id in FinalOpen(log, n) && log[m].i.id != ""
    ensures log[m].i.id in KeepExtra(log)
  {
    var i, a := log[m].i, Account(log[..m], n);
    AccountSnoc(log, m, n);
    WfPrefix(log, m);
    ExtrasOpen(log[..m], n);
    assert log[..m + 1][..m] == log[..m] && log[..m + 1][m] == log[m];
    var k :| 0 <= k < |a.open| && a.open[k] == e;
    var f := NoteExtra(a.open, i)[k];
    assert f == Noted(e, i) && f in Account(log[..m + 1], n).open;
    ExtraPersists(log, m, |log|, n, e, i.id);
    assert log[..|log|] == log;
    ExtrasOpen(log, n);
    var g :| g in Account(log, n).open && g.rec.id == e.rec.id && g.extra && g.rec.reason == Unresponsive;
  }

  /** A ring without an id would be dropped by (f)'s own filter; real ids are never empty. */
  predicate NamedRings(log: seq<Rec>)
  {
    forall r :: r in log && r.Intent? ==> r.i.id != ""
  }

  /** A ring the rules drop belongs to no episode still open at the end. */
  lemma UnkeptUnnoted(log: seq<Rec>, kept: set<Str>, m: nat, n: Str)
    requires m < |log| && WfLog(log) && ExtraOnce(log, n) && NamedRings(log)
    requires forall r :: r in log && r.Intent? && r.i.id in KeepExtra(log) ==> r.i.id in kept
    requires log[m].Intent? && log[m].i.agent == n && log[m].i.during && log[m].i.id !in kept
    ensures forall e :: e in Account(log[..m], n).open && e.rec.id in FinalOpen(log, n) ==> Noted(e, log[m].i) == e
  {
    hide KeepExtra, WfLog, ExtraOnce, FinalOpen;
    assert log[m] in log;
    forall e | e in Account(log[..m], n).open && e.rec.id in FinalOpen(log, n) ensures Noted(e, log[m].i) == e
    {
      if Matches(e, log[m].i) { ExtraIsKept(log, m, n, e); }
    }
  }

  lemma ClosedIsNotOpen(log: seq<Rec>, m: nat, n: Str)
    requires m < |log| && WfLog(log) && log[m].Escalation? && !log[m].x.isOpen
    ensures log[m].x.id !in FinalOpen(log, n)
  {
    OpenAlone(log, n);
    assert log[m] in log;
  }

  lemma OnlyIdsSnoc(open: seq<OpenEsc>, e: OpenEsc, ids: set<Str>)
    ensures OnlyIds(open + [e], ids) == if e.rec.id in ids then OnlyIds(open, ids) + [e] else OnlyIds(open, ids)
  {
    assert (open + [e])[..|open|] == open;
  }

  lemma NotOpenKept(open: seq<OpenEsc>, ids: set<Str>, id: Str)
    requires !HasOpen(open, id)
    ensures !HasOpen(OnlyIds(open, ids), id)
  {
    OnlyIdsMembers(open, ids);
    var kept := OnlyIds(open, ids);
    forall k | 0 <= k < |kept| ensures kept[k].rec.id != id
    {
      assert kept[k] in kept;
      var j :| 0 <= j < |open| && open[j] == kept[k];
    }
  }

  lemma PutNew(open: seq<OpenEsc>, e: OpenEsc)
    requires !HasOpen(open, e.rec.id)
    ensures PutOpen(open, e) == open + [e]
  {
  }

  lemma EscKept(log: seq<Rec>, now: map<Str, View>, kept: set<Str>, m: nat)
    requires m < |log| && log[m].Escalation?
    ensures KeepAt(log, now, kept, m) <==> log[m].x.isOpen && forall k :: m < k < |log| ==> !SameEscAt(log, k, log[m].x.id)
  {
  }

  /** What a record does to the open escalations. */
  lemma StepOpen(a: Acct, r: Rec, n: Str)
    ensures AgentOf(r) != Some(n) || !(r.Escalation? || (r.Intent? && r.i.during)) ==> Step(a, r, n).open == a.open
    ensures AgentOf(r) == Some(n) && r.Intent? && r.i.during ==> Step(a, r, n).open == NoteExtra(a.open, r.i)
    ensures AgentOf(r) == Some(n) && r.Escalation? && r.x.isOpen ==> Step(a, r, n).open == PutOpen(a.open, OpenEsc(r.x, Elems(r.x.ids), false))
    ensures AgentOf(r) == Some(n) && r.Escalation? && !r.x.isOpen ==> Step(a, r, n).open == DropOpen(a.open, r.x.id)
  {
    hide PutOpen, DropOpen, NoteExtra;
  }

  /** An open record is kept exactly when its escalation is open at the end. */
  lemma PickOpened(log: seq<Rec>, now: map<Str, View>, kept: set<Str>, m: nat, n: Str)
    requires m < |log| && WfLog(log) && log[m].Escalation? && log[m].x.isOpen && log[m].x.agent == n
    requires Account(Pick(log, now, kept, m), n).open == OnlyIds(Account(log[..m], n).open, FinalOpen(log, n))
    ensures Account(Pick(log, now, kept, m + 1), n).open == OnlyIds(Account(log[..m + 1], n).open, FinalOpen(log, n))
  {
    hide Account, Pick, KeepAt, OnlyIds, WfLog, OpenIds, PutOpen, Step, HasOpen;
    var x, open := log[m].x, Account(log[..m], n).open;
    var e := OpenEsc(x, Elems(x.ids), false);
    PickSnoc(log, now, kept, m, n);
    EscKept(log, now, kept, m);
    OpensLast(log, m, n);
    assert log[..|log|] == log;
    StaysOpen(log, m, |log|, n);
    OnlyIdsSnoc(open, e, FinalOpen(log, n));
    NotOpenKept(open, FinalOpen(log, n), x.id);
    PutNew(OnlyIds(open, FinalOpen(log, n)), e);
    StepOpen(Account(Pick(log, now, kept, m), n), log[m], n);
  }

  /** A close is never kept: what it closed is not open at the end. */
  lemma PickClosed(log: seq<Rec>, now: map<Str, View>, kept: set<Str>, m: nat, n: Str)
    requires m < |log| && WfLog(log) && log[m].Escalation? && !log[m].x.isOpen && log[m].x.agent == n
    requires Account(Pick(log, now, kept, m), n).open == OnlyIds(Account(log[..m], n).open, FinalOpen(log, n))
    ensures Account(Pick(log, now, kept, m + 1), n).open == OnlyIds(Account(log[..m + 1], n).open, FinalOpen(log, n))
  {
    hide Account, Pick, KeepAt, OnlyIds, WfLog, FinalOpen, DropOpen, Step;
    AccountSnoc(log, m, n);
    PickSnoc(log, now, kept, m, n);
    EscKept(log, now, kept, m);
    ClosedIsNotOpen(log, m, n);
    StepOpen(Account(log[..m], n), log[m], n);
    OnlyIdsDrop(Account(log[..m], n).open, FinalOpen(log, n), log[m].x.id);
  }

  /** A ring of an episode is kept where its episode is open at the end. */
  lemma PickNoted(log: seq<Rec>, now: map<Str, View>, kept: set<Str>, m: nat, n: Str)
    requires m < |log| && WfLog(log) && ExtraOnce(log, n) && NamedRings(log)
    requires forall r :: r in log && r.Intent? && r.i.id in KeepExtra(log) ==> r.i.id in kept
    requires log[m].Intent? && log[m].i.agent == n && log[m].i.during
    requires Account(Pick(log, now, kept, m), n).open == OnlyIds(Account(log[..m], n).open, FinalOpen(log, n))
    ensures Account(Pick(log, now, kept, m + 1), n).open == OnlyIds(Account(log[..m + 1], n).open, FinalOpen(log, n))
  {
    hide Account, Pick, KeepAt, OnlyIds, WfLog, FinalOpen, NoteExtra, Noted, Step, ExtraOnce, NamedRings, KeepExtra;
    var i, open := log[m].i, Account(log[..m], n).open;
    AccountSnoc(log, m, n);
    PickSnoc(log, now, kept, m, n);
    IntentKept(log, now, kept, m);
    StepOpen(Account(log[..m], n), log[m], n);
    StepOpen(Account(Pick(log, now, kept, m), n), log[m], n);
    if i.id in kept {
      OnlyIdsNote(open, FinalOpen(log, n), i);
    } else {
      UnkeptUnnoted(log, kept, m, n);
      OnlyIdsUnnoted(open, FinalOpen(log, n), i);
    }
  }

  lemma PickOpenStep(log: seq<Rec>, now: map<Str, View>, kept: set<Str>, m: nat, n: Str)
    requires m < |log| && WfLog(log) && ExtraOnce(log, n) && NamedRings(log)
    requires forall r :: r in log && r.Intent? && r.i.id in KeepExtra(log) ==> r.i.id in kept
    requires Account(Pick(log, now, kept, m), n).open == OnlyIds(Account(log[..m], n).open, FinalOpen(log, n))
    ensures Account(Pick(log, now, kept, m + 1), n).open == OnlyIds(Account(log[..m + 1], n).open, FinalOpen(log, n))
  {
    hide Account, Pick, KeepAt, OnlyIds, WfLog, FinalOpen, Step, ExtraOnce, NamedRings, KeepExtra;
    var r := log[m];
    if r.Escalation? && r.x.agent == n && r.x.isOpen {
      PickOpened(log, now, kept, m, n);
    } else if r.Escalation? && r.x.agent == n {
      PickClosed(log, now, kept, m, n);
    } else if r.Intent? && r.i.agent == n && r.i.during {
      PickNoted(log, now, kept, m, n);
    } else {
      AccountSnoc(log, m, n);
      PickSnoc(log, now, kept, m, n);
      StepOpen(Account(log[..m], n), r, n);
      StepOpen(Account(Pick(log, now, kept, m), n), r, n);
    }
  }

  lemma {:induction false} PickOpen(log: seq<Rec>, now: map<Str, View>, kept: set<Str>, m: nat, n: Str)
    requires m <= |log| && WfLog(log) && ExtraOnce(log, n) && NamedRings(log)
    requires forall r :: r in log && r.Intent? && r.i.id in KeepExtra(log) ==> r.i.id in kept
    ensures Account(Pick(log, now, kept, m), n).open == OnlyIds(Account(log[..m], n).open, FinalOpen(log, n))
  {
    hide KeepExtra, KeepAt, WfLog, ExtraOnce;
    if m > 0 {
      PickOpen(log, now, kept, m - 1, n);
      PickOpenStep(log, now, kept, m - 1, n);
    }
  }

  // ---------------------------------------------------------------- the theorem, for one agent

  /**
    * Two accounts are the same to every later judgement of `session`, as long as no id outside `known`
    * that was ever rung is pending again.
    */
  ghost predicate SameToCome(a: Acct, b: Acct, session: Str, known: set<Str>)
  {
    a.open == b.open &&
    Unjudged(a.rings, a.judged) == Unjudged(b.rings, b.judged) &&
    Streak(a, session) == Streak(b, session) &&
    RungIds(a.rings, session) - LeftOf(a.left, session) == RungIds(b.rings, session) - LeftOf(b.left, session) &&
    RungIds(b.rings, session) <= RungIds(a.rings, session) &&
    forall id :: id in known ==>
      (id in RungIds(a.rings, session) <==> id in RungIds(b.rings, session)) &&
      Covers(a.rings, session, id) == Covers(b.rings, session, id) &&
      forall mono :: LastRing(a.rings, session, id, mono) == LastRing(b.rings, session, id, mono)
  }

  lemma {:induction false} KeptUnjudged(rings: seq<IntentRec>, kept: set<Str>, j1: set<Str>, j2: set<Str>)
    requires forall i :: i in rings && i.id !in kept ==> i.id in j1
    requires forall x :: x in kept ==> (x in j1 <==> x in j2)
    ensures Unjudged(rings, j1) == Unjudged(KeptRings(rings, kept), j2)
  {
    if rings != [] {
      var q, i := rings[..|rings| - 1], rings[|rings| - 1];
      assert i in rings;
      KeptUnjudged(q, kept, j1, j2);
      var p := KeptRings(q, kept);
      assert (p + [i])[..|p|] == p;
    }
  }

  /** If every ring that covered `id` is kept, nothing about `id` is lost. */
  lemma {:induction false} KeptCovers(rings: seq<IntentRec>, kept: set<Str>, session: Str, id: Str, mono: map<Str, int>)
    requires forall i :: i in rings && i.session == session && id in i.ids ==> i.id in kept
    ensures Covers(rings, session, id) == Covers(KeptRings(rings, kept), session, id)
    ensures LastRing(rings, session, id, mono) == LastRing(KeptRings(rings, kept), session, id, mono)
    ensures id in RungIds(rings, session) <==> id in RungIds(KeptRings(rings, kept), session)
  {
    if rings != [] {
      var q, i := rings[..|rings| - 1], rings[|rings| - 1];
      assert i in rings;
      KeptCovers(q, kept, session, id, mono);
      var p := KeptRings(q, kept);
      assert (p + [i])[..|p|] == p;
    }
  }

  /** An unjudged ring is kept, whatever its agent reads as. */
  lemma UnjudgedKept(log: seq<Rec>, now: map<Str, View>, at: StartAt, n: Str)
    ensures forall i :: i in Account(log, n).rings && i.id !in KeptIds(log, now, at) ==> i.id in JudgedAll(log)
  {
    AccountRings(log, n);
    hide KeepExtra, LastIds, CountsAtStart, JudgedAll, LeftAll;
    forall i | i in Account(log, n).rings && i.id !in KeptIds(log, now, at) ensures i.id in JudgedAll(log)
    {
      assert Intent(i) in log && Intent(i).Intent?;
    }
  }

  /** Which of an agent's rings the rules must keep, and do. */
  lemma KeptByRule(log: seq<Rec>, now: map<Str, View>, at: StartAt, n: Str)
    requires n in now && now[n].session.Some?
    ensures var a, kept := Account(log, n), KeptIds(log, now, at);
            (forall i, id :: (i in a.rings && Some(i.session) == now[n].session && id in i.ids &&
                              (id in now[n].pending || (n, i.session, id) !in LeftAll(log))) ==> i.id in kept)
  {
    AccountRings(log, n);
    var a, kept := Account(log, n), KeptIds(log, now, at);
    hide KeepExtra, LastIds, CountsAtStart, JudgedAll, LeftAll;
    forall i, id | i in a.rings && Some(i.session) == now[n].session && id in i.ids &&
                   (id in now[n].pending || (n, i.session, id) !in LeftAll(log))
      ensures i.id in kept
    {
      assert Intent(i) in log && Intent(i).Intent?;
      assert StillNeeded(log, now, i);
    }
  }

  /** A ring some effect record names was named by a record of its own agent. */
  lemma JudgedIsOwn(log: seq<Rec>, n: Str, i: IntentRec)
    requires WfLog(log) && i in Account(log, n).rings && i.id in JudgedAll(log)
    ensures i.id in Account(log, n).judged
  {
    AccountRings(log, n);
    AccountJudged(log, n);
    var r :| r in log && r.Effect? && i.id in r.e.intents;
    var j :| 0 <= j < |log| && log[j] == Intent(i);
    var k :| 0 <= k < |log| && log[k] == r;
    PairAt(log, j, k);
    assert Names(r, n, i.id);
  }

  lemma {:induction false} AccountLeft(h: seq<Rec>, n: Str)
    requires WfLog(h)
    ensures forall s, id :: (s, id) in Account(h, n).left <==> (n, s, id) in LeftAll(h)
  {
    if h != [] {
      var p, r := h[..|h| - 1], h[|h| - 1];
      WfPrefix(h, |h| - 1);
      AccountLeft(p, n);
      assert h == p + [r];
      forall s, id ensures (s, id) in Account(h, n).left <==> (n, s, id) in LeftAll(h)
      {
        assert r in h;
        if (n, s, id) in LeftAll(p) {
          var t :| t in p && t.Effect? && id in t.e.left && t.e.agent == n && t.e.session == s;
          assert t in h;
        }
      }
    }
  }

  lemma LeftShrinks(log: seq<Rec>, now: map<Str, View>, at: StartAt, n: Str)
    requires WfLog(log)
    ensures Account(Compact(log, now, at), n).left <= Account(log, n).left
  {
    hide KeepAt, KeptIds, WfLog;
    PickWf(log, now, KeptIds(log, now, at), |log|);
    PickMembers(log, now, KeptIds(log, now, at), |log|);
    AccountLeft(log, n);
    AccountLeft(Compact(log, now, at), n);
    var c := Compact(log, now, at);
    assert LeftAll(c) <= LeftAll(log);
    forall p | p in Account(c, n).left ensures p in Account(log, n).left
    {
      assert (p.0, p.1) in Account(c, n).left;
      assert (n, p.0, p.1) in LeftAll(log);
    }
  }

  lemma LeavingsAgree(log: seq<Rec>, now: map<Str, View>, at: StartAt, n: Str, rs: Str)
    requires WfLog(log) && n in now && now[n].session == Some(rs)
    ensures var a, b := Account(log, n), Account(Compact(log, now, at), n);
            RungIds(a.rings, rs) - LeftOf(a.left, rs) == RungIds(b.rings, rs) - LeftOf(b.left, rs) &&
            RungIds(b.rings, rs) <= RungIds(a.rings, rs)
  {
    var kept := KeptIds(log, now, at);
    var a, b := Account(log, n), Account(Compact(log, now, at), n);
    assert log[..|log|] == log;
    PickRings(log, now, kept, |log|, n);
    PickLeft(log, now, kept, |log|, n);
    KeptRingsMembers(a.rings, kept);
    RungIdsMembers(a.rings, rs);
    RungIdsMembers(b.rings, rs);
    KeptByRule(log, now, at, n);
    AccountLeft(log, n);
    AccountRings(log, n);
    forall id | id in RungIds(a.rings, rs) && (rs, id) !in a.left ensures id in RungIds(b.rings, rs)
    {
      var i :| i in a.rings && i.session == rs && id in i.ids;
      assert i in b.rings;
    }
    forall id | id in RungIds(b.rings, rs) && (rs, id) in a.left ensures (rs, id) in b.left
    {
      var i :| i in b.rings && i.session == rs && id in i.ids;
      assert Intent(i) in log && Intent(i).Intent?;
      assert (n, rs, id) in KeptKeys(log, kept);
    }
  }

  /** What does not depend on the session: the open escalations and the unjudged rings. */
  lemma CompactionKeeps(log: seq<Rec>, now: map<Str, View>, at: StartAt, n: Str)
    requires WfLog(log) && ExtraOnce(log, n) && NamedRings(log)
    ensures var a, b := Account(log, n), Account(Compact(log, now, at), n);
            a.open == b.open && Unjudged(a.rings, a.judged) == Unjudged(b.rings, b.judged)
  {
    hide KeepAt, WfLog, ExtraOnce, NamedRings, JudgedAll, LeftAll, KeepExtra;
    var kept := KeptIds(log, now, at);
    var a, b := Account(log, n), Account(Compact(log, now, at), n);
    assert log[..|log|] == log;
    PickRings(log, now, kept, |log|, n);
    PickJudged(log, now, kept, |log|, n);
    PickOpen(log, now, kept, |log|, n);
    OnlyIdsAll(a.open, FinalOpen(log, n));
    UnjudgedKept(log, now, at, n);
    forall i | i in a.rings && i.id !in kept ensures i.id in a.judged { JudgedIsOwn(log, n, i); }
    KeptUnjudged(a.rings, kept, a.judged, b.judged);
  }

  /**
    * For an agent bound to a session when the log is compacted, the compacted log says of that session, to
    * every judgement to come, what the full log said.
    */
  lemma CompactionInvisible(log: seq<Rec>, now: map<Str, View>, at: StartAt, n: Str)
    requires WfLog(log) && ExtraOnce(log, n) && NamedRings(log)
    requires n in now && now[n].session.Some?
    ensures SameToCome(Account(log, n), Account(Compact(log, now, at), n), now[n].session.value, now[n].pending)
  {
    hide KeepAt, WfLog, ExtraOnce, NamedRings, JudgedAll, LeftAll, KeepExtra;
    var kept, rs := KeptIds(log, now, at), now[n].session.value;
    var a, b := Account(log, n), Account(Compact(log, now, at), n);
    assert log[..|log|] == log;
    CompactionKeeps(log, now, at, n);
    PickRings(log, now, kept, |log|, n);
    PickStreak(log, now, kept, |log|, n, rs);
    KeptByRule(log, now, at, n);
    LeavingsAgree(log, now, at, n, rs);
    forall id | id in now[n].pending
      ensures id in RungIds(a.rings, rs) <==> id in RungIds(b.rings, rs)
      ensures Covers(a.rings, rs, id) == Covers(b.rings, rs, id)
      ensures forall mono :: LastRing(a.rings, rs, id, mono) == LastRing(b.rings, rs, id, mono)
    {
      KeptCovers(a.rings, kept, rs, id, map[]);
      forall mono { KeptCovers(a.rings, kept, rs, id, mono); }
    }
  }

  /** No record of the log is about this session of the agent. */
  predicate NewSession(h: seq<Rec>, n: Str, session: Str)
  {
    forall r :: r in h ==> !(r.Intent? && r.i.agent == n && r.i.session == session) &&
                           !(r.Effect? && r.e.agent == n && r.e.session == session)
  }

  lemma {:induction false} NewSessionEmpty(h: seq<Rec>, n: Str, session: Str)
    requires NewSession(h, n, session)
    ensures var a := Account(h, n);
            RungIds(a.rings, session) == {} && Streak(a, session) == 0 && LeftOf(a.left, session) == {} &&
            forall id :: Covers(a.rings, session, id) == 0 && forall mono :: LastRing(a.rings, session, id, mono) == None
  {
    if h != [] {
      var p, r := h[..|h| - 1], h[|h| - 1];
      assert forall s :: s in p ==> s in h;
      assert r in h;
      NewSessionEmpty(p, n, session);
      var rs := Account(p, n).rings;
      if r.Intent? && r.i.agent == n { assert (rs + [r.i])[..|rs|] == rs; }
    }
  }

  /** For a session the log knows nothing of, compaction is invisible whatever was pending. */
  lemma CompactionInvisibleNew(log: seq<Rec>, now: map<Str, View>, at: StartAt, n: Str, session: Str, known: set<Str>)
    requires WfLog(log) && ExtraOnce(log, n) && NamedRings(log) && NewSession(log, n, session)
    ensures SameToCome(Account(log, n), Account(Compact(log, now, at), n), session, known)
  {
    hide KeepAt, WfLog, ExtraOnce, NamedRings;
    CompactionKeeps(log, now, at, n);
    PickMembers(log, now, KeptIds(log, now, at), |log|);
    NewSessionEmpty(log, n, session);
    NewSessionEmpty(Compact(log, now, at), n, session);
  }
}
