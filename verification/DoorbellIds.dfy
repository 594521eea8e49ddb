/**
  * Each new id a plan brings is the one drawn for its own position, so a plan never draws an id twice, however many
  * agents it serves.
  */
module DoorbellIds {
  import opened Canon
  import opened DoorbellLog
  import opened DoorbellLedger
  import opened DoorbellPlan
  import opened Wrappers

  predicate IdsFrom(recs: seq<Rec>, uid: nat -> Str, k: nat)
  {
    forall j :: 0 <= j < |recs| ==>
      (recs[j].Intent? ==> recs[j].i.id == uid(k + j)) && (recs[j].Escalation? && recs[j].x.isOpen ==> recs[j].x.id == uid(k + j))
  }

  lemma IdsConcat(x: seq<Rec>, y: seq<Rec>, uid: nat -> Str, k: nat)
    requires IdsFrom(x, uid, k) && IdsFrom(y, uid, k + |x|)
    ensures IdsFrom(x + y, uid, k)
  {
    forall j | 0 <= j < |x + y|
      ensures var r := (x + y)[j];
              (r.Intent? ==> r.i.id == uid(k + j)) && (r.Escalation? && r.x.isOpen ==> r.x.id == uid(k + j))
    {
      if j >= |x| { assert (x + y)[j] == y[j - |x|]; }
    }
  }

  lemma {:induction false} EffectIds(c: Config, n: Str, session: Str, outcome: Outcome, ii: seq<Str>, ll: seq<Str>, uid: nat -> Str, k: nat)
    ensures IdsFrom(EffectRecs(c, n, session, outcome, ii, ll), uid, k)
    decreases |ii| + |ll|
  {
    if |ii| > MAX_IDS || |ll| > MAX_IDS {
      var p, q := Min(MAX_IDS, |ii|), Min(MAX_IDS, |ll|);
      EffectIds(c, n, session, outcome, ii[p..], ll[q..], uid, k + 1);
      IdsConcat([Effect(EffectRec(c.at, n, session, outcome, ii[..p], ll[..q]))],
                EffectRecs(c, n, session, outcome, ii[p..], ll[q..]), uid, k);
    }
  }

  lemma {:induction false} CloseIds(c: Config, xs: seq<EscRec>, why: CloseWhy, uid: nat -> Str, k: nat)
    ensures IdsFrom(CloseAll(c, xs, why), uid, k)
  {
    if xs != [] { CloseIds(c, xs[..|xs| - 1], why, uid, k); }
  }

  lemma {:induction false} MootIdsFrom(c: Config, n: Str, u: seq<IntentRec>, ss: seq<Str>, uid: nat -> Str, k: nat)
    ensures IdsFrom(MootEffects(c, n, u, ss), uid, k)
  {
    hide IdsFrom, EffectRecs, OfSession, IdsOfRings;
    if ss == [] {
      NoIds(uid, k);
    } else {
      var p, s := ss[..|ss| - 1], ss[|ss| - 1];
      var x, ii := MootEffects(c, n, u, p), SortedSet(IdsOfRings(OfSession(u, s)));
      MootIdsFrom(c, n, u, p, uid, k);
      EffectIds(c, n, s, SessionChanged, ii, [], uid, k + |x|);
      IdsConcat(x, EffectRecs(c, n, s, SessionChanged, ii, []), uid, k);
    }
  }

  lemma NoIds(uid: nat -> Str, k: nat)
    ensures IdsFrom([], uid, k)
  {
  }

  lemma {:induction false} IneffectiveIds(c: Config, n: Str, session: Str, rs: seq<Ring>, uid: nat -> Str, k: nat)
    ensures IdsFrom(IneffectiveRecs(c, n, session, rs), uid, k)
  {
    if rs != [] { IneffectiveIds(c, n, session, rs[..|rs| - 1], uid, k); }
  }

  lemma {:induction false} StuckIds(c: Config, n: Str, session: Str, ids: seq<Str>, uid: nat -> Str, k: nat)
    ensures IdsFrom(StuckRecs(c, n, session, ids, uid, k), uid, k) && |StuckRecs(c, n, session, ids, uid, k)| == |ids|
  {
    if ids != [] { StuckIds(c, n, session, ids[..|ids| - 1], uid, k); }
  }

  lemma CloseRecsIds(c: Config, l: Ledger, p: set<Str>, uid: nat -> Str, k: nat)
    ensures IdsFrom(CloseRecs(c, l, p), uid, k)
  {
    var u := if EpisodeOver(l, p) then [CloseOf(c, l.unresponsive.value.rec, Progress)] else [];
    CloseIds(c, StuckGone(l.stuck, p, true), Progress, uid, k + |u|);
    IdsConcat(u, CloseAll(c, StuckGone(l.stuck, p, true), Progress), uid, k);
  }

  lemma SettleIds(c: Config, n: Str, session: Str, l: Ledger, p: set<Str>, uid: nat -> Str, k: nat)
    ensures IdsFrom(SettleRecs(c, n, session, l, p), uid, k)
  {
    hide IdsFrom, EffectRecs, CloseRecs, IneffectiveRecs, AfterClose, AfterProgress;
    var l1 := AfterProgress(l, p);
    var P, C := ProgressRecs(c, n, session, l, p), CloseRecs(c, l1, p);
    var I := IneffectiveRecs(c, n, session, Overdue(c, AfterClose(l1, p).outstanding, true));
    NoIds(uid, k);
    EffectIds(c, n, session, Effective, SortedSet(RingIds(l.outstanding)), SortedSet(LeftNow(l, p)), uid, k);
    CloseRecsIds(c, l1, p, uid, k + |P|);
    IdsConcat(P, C, uid, k);
    IneffectiveIds(c, n, session, Overdue(c, AfterClose(l1, p).outstanding, true), uid, k + |P + C|);
    IdsConcat(P + C, I, uid, k);
  }

  lemma JudgeIds(inp: Input, n: Str, read: PendingRead, k: nat)
    ensures IdsFrom(JudgeOf(inp, n, read, k), inp.uid, k)
  {
    hide SettleRecs, MootEffects, CloseAll, LedgerOf, Settled, Witness;
    if read.session.Some? {
      var c, rs, a, p := inp.c, read.session.value, Account(inp.log, n), Elems(read.ids);
      var u, l := Unjudged(a.rings, a.judged), LedgerOf(a, rs, inp.mono);
      var M, X := MootEffects(c, n, u, MootSessions(u, rs)), CloseAll(c, ElsewhereOf(a.open, rs), Moved);
      MootIdsFrom(c, n, u, MootSessions(u, rs), inp.uid, k);
      CloseIds(c, ElsewhereOf(a.open, rs), Moved, inp.uid, k + |M|);
      IdsConcat(M, X, inp.uid, k);
      var S := SettleRecs(c, n, rs, l, p);
      SettleIds(c, n, rs, l, p, inp.uid, k + |M + X|);
      IdsConcat(M + X, S, inp.uid, k);
      IdsConcat(M + X + S, ThresholdRecs(c, n, rs, Settled(c, l, p), p, inp.uid(k + |M + X + S|)), inp.uid, k);
    }
  }

  lemma RingIdsFrom(inp: Input, n: Str, session: Str, l: Ledger, p: set<Str>, binding: Str, k: nat)
    ensures IdsFrom(RingRecs(inp, n, session, l, p, binding, k), inp.uid, k)
  {
    hide StuckRecs, MayRing, Again, AtCap, RingIdsOf, KindsOf;
    var u := Unrung(session, p, inp.rung);
    var ids := SortedSet(AtCap(inp.c, l, p, u));
    StuckIds(inp.c, n, session, ids, inp.uid, k);
    var S := StuckRecs(inp.c, n, session, ids, inp.uid, k);
    var i := IntentOf(inp.c, n, session, binding, l, u, Again(inp.c, l, p, u), inp.uid(k + |S|));
    assert i.id == inp.uid(k + |S|);
    IdsConcat(S, [Intent(i)], inp.uid, k);
  }

  lemma BoardIds(c: Config, n: Str, cur: Option<BoardRec>, next: Option<Case>, count: nat, why: BoardClose, uid: nat -> Str, k: nat)
    ensures IdsFrom(BoardTo(c, n, cur, next, count, why, uid, k), uid, k)
  {
  }

  lemma MailIds(inp: Input, n: Str, read: PendingRead, k: nat, j: nat)
    ensures IdsFrom(MailRecs(inp, n, read, k, j), inp.uid, k)
  {
    hide IdsFrom, BoardTo, RingRecs, Decide, LedgerAfter, AliveOf, OfAgent;
    NoIds(inp.uid, k);
    var bs := OfAgent(inp.bindings, n);
    match Decide(inp, n, read, bs)
    case Hold(_) =>
    case Show(next, _, ring) =>
      var B := BoardTo(inp.c, n, CurBoard(inp, n), next, |read.ids|, Resolved, inp.uid, k);
      BoardIds(inp.c, n, CurBoard(inp, n), next, |read.ids|, Resolved, inp.uid, k);
      if ring && read.session.Some? && AliveOf(bs, inp.ownHost) != [] {
        var rs := read.session.value;
        RingIdsFrom(inp, n, rs, LedgerAfter(inp, n, rs, Elems(read.ids), j), Elems(read.ids), AliveOf(bs, inp.ownHost)[0].id, k + |B|);
        IdsConcat(B, RingRecs(inp, n, rs, LedgerAfter(inp, n, rs, Elems(read.ids), j), Elems(read.ids),
                              AliveOf(bs, inp.ownHost)[0].id, k + |B|), inp.uid, k);
      }
  }

  lemma AgentIds(inp: Input, n: Str, read: PendingRead, k: nat)
    ensures IdsFrom(AgentRecs(inp, n, read, k), inp.uid, k)
    ensures IdsFrom(AbsentRecs(inp, n, read, k), inp.uid, k)
  {
    hide BoardTo, JudgeOf, MailRecs;
    var J, G := JudgeOf(inp, n, read, k), BudgetRecs(inp, n, read.session);
    BoardIds(inp.c, n, CurBoard(inp, n), None, 0, NoMail, inp.uid, k);
    JudgeIds(inp, n, read, k);
    IdsConcat(J, G, inp.uid, k);
    BoardIds(inp.c, n, CurBoard(inp, n), None, 0, NoMail, inp.uid, k + |J + G|);
    IdsConcat(J + G, BoardTo(inp.c, n, CurBoard(inp, n), None, 0, NoMail, inp.uid, k + |J + G|), inp.uid, k);
    MailIds(inp, n, read, k + |J + G|, k);
    IdsConcat(J + G, MailRecs(inp, n, read, k + |J + G|, k), inp.uid, k);
  }

  lemma {:induction false} MainIds(inp: Input, names: seq<Str>)
    ensures IdsFrom(MainRecs(inp, names), inp.uid, 0)
  {
    hide IdsFrom, AgentRecs;
    if names == [] {
      NoIds(inp.uid, 0);
    } else {
      var n, p := names[|names| - 1], MainRecs(inp, names[..|names| - 1]);
      MainIds(inp, names[..|names| - 1]);
      if n in inp.inbox {
        AgentIds(inp, n, inp.inbox[n], |p|);
        IdsConcat(p, AgentRecs(inp, n, inp.inbox[n], |p|), inp.uid, 0);
      }
    }
  }

  lemma {:induction false} AllIds(inp: Input, names: seq<Str>)
    ensures IdsFrom(AllRecs(inp, names), inp.uid, 0)
  {
    hide IdsFrom, AbsentRecs, MainRecs, MainNames;
    if names == [] {
      MainIds(inp, MainNames(inp));
    } else {
      var n, p := names[|names| - 1], AllRecs(inp, names[..|names| - 1]);
      AllIds(inp, names[..|names| - 1]);
      if n in inp.inbox {
        AgentIds(inp, n, inp.inbox[n], |p|);
        IdsConcat(p, AbsentRecs(inp, n, inp.inbox[n], |p|), inp.uid, 0);
      }
    }
  }

  /** The id a plan's k-th record brings, if it brings one, is the k-th of the supply. */
  lemma PlanIds(inp: Input)
    ensures IdsFrom(Plan(inp), inp.uid, 0)
  {
    NoIds(inp.uid, 0);
    AllIds(inp, AbsentNames(inp));
  }
}
